/** Replays (quarantine.go): what a message does when nothing fails, and what repeated passes over messages reach. */
module ConsumerReplay {
  import opened Vocabulary
  import opened EventHistory
  import opened ConsumerTables

  datatype Outcome = Applying | Duplicate | VersionSkip | SetAside(reason: Reason)

  function OutcomeOf(db: Db, m: Message): Outcome {
    match m.body
    case Refused(_, reason) => SetAside(reason)
    case Valid(e) =>
      if e.id in db.inbox then Duplicate
      else match GuardOf(db, e) {
        case Apply => Applying
        case Skip => VersionSkip
        case Gap => SetAside(VersionGap)
      }
  }

  /** The tables after an undisturbed message. A gap that stays open is set aside after its one attempt. */
  function Handled(db: Db, m: Message): Db {
    match OutcomeOf(db, m)
    case Applying => Applied(db, m)
    case Duplicate => Advance(db, m.source)
    case VersionSkip => Advance(db, m.source)
    case SetAside(reason) => Quarantine(db, m, reason, if m.body.Valid? then 1 else 0)
  }

  /** A message to replay, with the quarantine row it came from. */
  datatype Candidate = Candidate(message: Message, row: Option<nat>)

  function ReplayOne(db: Db, c: Candidate, operation: string): Db {
    var t := Handled(db, c.message);
    if c.row.Some? && !OutcomeOf(db, c.message).SetAside? then CloseRow(t, c.row.value, Replayed(operation)) else t
  }

  /** A replay closes the open row it came from, under its operation id, unless the message is set aside again; no other row. */
  lemma RowReplayed(db: Db, c: Candidate, operation: string, i: nat)
    requires i < |db.quarantine|
    ensures var t := ReplayOne(db, c, operation);
            i < |t.quarantine|
            && t.quarantine[i] == if c.row == Some(i) && db.quarantine[i].status == Open && !OutcomeOf(db, c.message).SetAside?
                                  then db.quarantine[i].(status := Replayed(operation)) else db.quarantine[i]
  {}

  function ReplayPass(db: Db, cs: seq<Candidate>, operation: string): Db {
    if cs == [] then db else ReplayOne(ReplayPass(db, cs[..|cs| - 1], operation), cs[|cs| - 1], operation)
  }

  datatype Pass = Pass(operation: string, candidates: seq<Candidate>)

  function Replays(db: Db, passes: seq<Pass>): Db {
    if passes == [] then db
    else
      var last := passes[|passes| - 1];
      ReplayPass(Replays(db, passes[..|passes| - 1]), last.candidates, last.operation)
  }

  // ---- what every replay keeps ----

  /** An identity stands for one event: `events` says which. */
  ghost predicate Genuine(m: Message, events: EventId -> Event) {
    m.body.Valid? ==> events(m.body.event.id) == m.body.event
  }

  ghost predicate GenuineEffects(db: Db, events: EventId -> Event) {
    forall i :: 0 <= i < |db.effects| ==> events(db.effects[i].id) == db.effects[i]
  }

  /** Replayed coordinates are behind the progress already made. */
  ghost predicate Behind(db: Db, m: Message) {
    m.source.Some? ==> m.source.value.offset < NextOffset(db, m.source.value.part)
  }

  /** What holds before and after every replay. */
  ghost predicate Steady(db: Db, events: EventId -> Event) {
    OnceEach(db) && Ordered(db) && GenuineEffects(db, events)
  }

  lemma ApplyingKeeps(db: Db, m: Message, events: EventId -> Event)
    requires Steady(db, events) && Genuine(m, events) && Behind(db, m) && OutcomeOf(db, m).Applying?
    ensures Steady(Applied(db, m), events) && Evolves(db, Applied(db, m)) && Applied(db, m).progress == db.progress
  {
    AppliedEvolves(db, m);
    AppliedOnce(db, m);
    AppliedOrdered(db, m);
  }

  lemma SameEffectsKeep(db: Db, t: Db, events: EventId -> Event)
    requires Steady(db, events) && t.inbox == db.inbox && t.versions == db.versions && t.effects == db.effects
    ensures Steady(t, events)
  {
    forall g ensures OrderedUpTo(t, g) { assert OrderedUpTo(db, g); }
  }

  lemma NotApplying(db: Db, m: Message)
    requires !OutcomeOf(db, m).Applying? && Behind(db, m)
    ensures var t := Handled(db, m);
            Evolves(db, t) && t.progress == db.progress
            && t.inbox == db.inbox && t.versions == db.versions && t.effects == db.effects
  {
    AdvanceEvolves(db, m.source);
    if OutcomeOf(db, m).SetAside? {
      QuarantineEvolves(db, m, OutcomeOf(db, m).reason, if m.body.Valid? then 1 else 0);
    }
  }

  lemma HandledKeeps(db: Db, m: Message, events: EventId -> Event)
    requires Steady(db, events) && Genuine(m, events) && Behind(db, m)
    ensures Steady(Handled(db, m), events) && Evolves(db, Handled(db, m)) && Handled(db, m).progress == db.progress
  {
    if OutcomeOf(db, m).Applying? {
      ApplyingKeeps(db, m, events);
    } else {
      NotApplying(db, m);
      SameEffectsKeep(db, Handled(db, m), events);
    }
  }

  lemma ClosingKeeps(db: Db, row: nat, status: Status, events: EventId -> Event)
    requires Steady(db, events)
    ensures var t := CloseRow(db, row, status);
            Steady(t, events) && Evolves(db, t) && t.progress == db.progress && t.versions == db.versions
  {
    CloseRowEvolves(db, row, status);
    SameEffectsKeep(db, CloseRow(db, row, status), events);
  }

  lemma ReplayOneKeeps(db: Db, c: Candidate, operation: string, events: EventId -> Event)
    requires Steady(db, events) && Genuine(c.message, events) && Behind(db, c.message)
    ensures var t := ReplayOne(db, c, operation); Steady(t, events) && Evolves(db, t) && t.progress == db.progress
    ensures ReplayOne(db, c, operation).versions == Handled(db, c.message).versions
  {
    HandledKeeps(db, c.message, events);
    var t := Handled(db, c.message);
    if ReplayOne(db, c, operation) != t {
      ClosingKeeps(t, c.row.value, Replayed(operation), events);
      EvolvesTransitive(db, t, ReplayOne(db, c, operation));
    }
  }

  ghost predicate Replayable(db: Db, cs: seq<Candidate>, events: EventId -> Event) {
    forall i :: 0 <= i < |cs| ==> Genuine(cs[i].message, events) && Behind(db, cs[i].message)
  }

  /** No effect is repeated and no progress moves, whatever is replayed. */
  lemma {:induction false} PassKeeps(db: Db, cs: seq<Candidate>, operation: string, events: EventId -> Event)
    requires Steady(db, events) && Replayable(db, cs, events)
    ensures var t := ReplayPass(db, cs, operation); Steady(t, events) && Evolves(db, t) && t.progress == db.progress
  {
    if cs == [] {
    } else {
      var init, last := cs[..|cs| - 1], cs[|cs| - 1];
      var mid := ReplayPass(db, init, operation);
      PassKeeps(db, init, operation, events);
      ReplayOneKeeps(mid, last, operation, events);
      EvolvesTransitive(db, mid, ReplayPass(db, cs, operation));
    }
  }

  // ---- what replays reach ----

  /** The candidates include version `v` of the aggregate. */
  ghost predicate Offers(cs: seq<Candidate>, g: Aggregate, v: nat) {
    exists i :: 0 <= i < |cs| && cs[i].message.body.Valid?
                && cs[i].message.body.event.agg == g && cs[i].message.body.event.version == v
  }

  /** An applied event is no newer than the stored maximum. */
  lemma AppliedNotNewer(db: Db, e: Event, events: EventId -> Event)
    requires Steady(db, events) && events(e.id) == e && e.id in db.inbox
    ensures e.agg in db.versions && e.version <= db.versions[e.agg]
  {
    var i :| 0 <= i < |db.effects| && db.effects[i].id == e.id;
    InHistory(db.effects, i);
    assert OrderedUpTo(db, e.agg);
  }

  /** The next version, when its turn comes, raises the maximum. */
  lemma NextVersionRaises(db: Db, m: Message, b: nat, events: EventId -> Event)
    requires Steady(db, events) && Genuine(m, events) && m.body.Valid? && m.body.event.version == b + 1
    requires m.body.event.agg in db.versions && db.versions[m.body.event.agg] >= b
    ensures var t := Handled(db, m); m.body.event.agg in t.versions && t.versions[m.body.event.agg] >= b + 1
  {
    if m.body.event.id in db.inbox {
      AppliedNotNewer(db, m.body.event, events);
    }
  }

  lemma OffersInit(cs: seq<Candidate>, g: Aggregate, v: nat)
    requires Offers(cs, g, v)
    ensures var m := cs[|cs| - 1].message;
            Offers(cs[..|cs| - 1], g, v) || (m.body.Valid? && m.body.event.agg == g && m.body.event.version == v)
  {
    var i :| 0 <= i < |cs| && cs[i].message.body.Valid?
             && cs[i].message.body.event.agg == g && cs[i].message.body.event.version == v;
    if i < |cs| - 1 {
      assert cs[..|cs| - 1][i] == cs[i];
    }
  }

  /** A pass that offers the next version, in whatever order, raises the maximum by at least one. */
  lemma {:induction false} PassRaises(db: Db, cs: seq<Candidate>, operation: string, events: EventId -> Event, g: Aggregate, b: nat)
    requires Steady(db, events) && Replayable(db, cs, events)
    requires g in db.versions && db.versions[g] >= b && Offers(cs, g, b + 1)
    ensures var t := ReplayPass(db, cs, operation); g in t.versions && t.versions[g] >= b + 1
  {
    var init, last := cs[..|cs| - 1], cs[|cs| - 1];
    var mid := ReplayPass(db, init, operation);
    PassKeeps(db, init, operation, events);
    OffersInit(cs, g, b + 1);
    ReplayOneKeeps(mid, last, operation, events);
    if Offers(init, g, b + 1) {
      PassRaises(db, init, operation, events, g, b);
    } else {
      NextVersionRaises(mid, last.message, b, events);
    }
  }

  ghost predicate AllReplayable(db: Db, passes: seq<Pass>, events: EventId -> Event) {
    forall k :: 0 <= k < |passes| ==> Replayable(db, passes[k].candidates, events)
  }

  lemma {:induction false} ReplaysKeep(db: Db, passes: seq<Pass>, events: EventId -> Event)
    requires Steady(db, events) && AllReplayable(db, passes, events)
    ensures var t := Replays(db, passes); Steady(t, events) && Evolves(db, t) && t.progress == db.progress
  {
    if passes != [] {
      var init, last := passes[..|passes| - 1], passes[|passes| - 1];
      var mid := Replays(db, init);
      ReplaysKeep(db, init, events);
      StillReplayable(db, mid, last.candidates, events);
      PassKeeps(mid, last.candidates, last.operation, events);
      EvolvesTransitive(db, mid, Replays(db, passes));
    }
  }

  lemma StillReplayable(a: Db, b: Db, cs: seq<Candidate>, events: EventId -> Event)
    requires Replayable(a, cs, events) && b.progress == a.progress
    ensures Replayable(b, cs, events)
  {
    assert forall p :: NextOffset(b, p) == NextOffset(a, p);
  }

  /**
   * From maximum `b`, after k passes each offering every version up to `top`, the maximum is at least
   * min(top, b + k): at most top - b passes reach `top`.
   */
  lemma {:induction false} ReplaysConverge(db: Db, passes: seq<Pass>, events: EventId -> Event, g: Aggregate, top: nat)
    requires Steady(db, events) && AllReplayable(db, passes, events)
    requires g in db.versions
    requires forall k, v :: 0 <= k < |passes| && db.versions[g] < v <= top ==> Offers(passes[k].candidates, g, v)
    ensures var t := Replays(db, passes);
            g in t.versions && (t.versions[g] >= top || t.versions[g] >= db.versions[g] + |passes|)
  {
    if passes != [] {
      var init, last := passes[..|passes| - 1], passes[|passes| - 1];
      var mid := Replays(db, init);
      ReplaysConverge(db, init, events, g, top);
      ReplaysKeep(db, init, events);
      StillReplayable(db, mid, last.candidates, events);
      PassKeeps(mid, last.candidates, last.operation, events);
      if mid.versions[g] < top {
        assert Offers(passes[|passes| - 1].candidates, g, mid.versions[g] + 1);
        PassRaises(mid, last.candidates, last.operation, events, g, mid.versions[g]);
      }
    }
  }

  // ---- choosing the candidates of one aggregate ----

  datatype Rows = Rows(quarantined: seq<(nat, Message)>, outbox: seq<Event>)

  function IdAt(c: Candidate): EventId {
    IdOf(c.message.body)
  }

  ghost predicate DistinctIds(cs: seq<Candidate>) {
    forall i, j :: 0 <= i < j < |cs| ==> IdAt(cs[i]) != IdAt(cs[j])
  }

  ghost predicate Covers(cs: seq<Candidate>, id: EventId) {
    exists i :: 0 <= i < |cs| && IdAt(cs[i]) == id
  }

  /** The candidates of quarantine rows come first, and an event that has one is taken from it. */
  ghost predicate RowsFirst(cs: seq<Candidate>, rows: Rows) {
    (forall i, j :: 0 <= i < j < |cs| && cs[i].row.None? ==> cs[j].row.None?)
    && (forall i, k :: 0 <= i < |cs| && cs[i].row.None? && 0 <= k < |rows.quarantined| ==>
          IdOf(rows.quarantined[k].1.body) != IdAt(cs[i]))
  }

  /**
   * Quarantine rows first, then outbox rows of events not yet seen, at most `limit` in all. Below the
   * limit every row's event is covered; no event is chosen twice; only quarantine rows carry coordinates.
   */
  method ResolveAggregate(rows: Rows, limit: nat) returns (cs: seq<Candidate>)
    ensures |cs| <= limit && DistinctIds(cs) && RowsFirst(cs, rows)
    ensures |cs| < limit ==> forall i :: 0 <= i < |rows.quarantined| ==> Covers(cs, IdOf(rows.quarantined[i].1.body))
    ensures |cs| < limit ==> forall i :: 0 <= i < |rows.outbox| ==> Covers(cs, rows.outbox[i].id)
    ensures FromRows(cs, rows)
  {
    var seen;
    cs, seen := AppendQuarantine(rows, limit);
    for k := 0 to |rows.outbox|
      invariant |cs| <= limit && DistinctIds(cs)
      invariant forall id :: id in seen <==> Covers(cs, id)
      invariant |cs| < limit ==> forall i :: 0 <= i < |rows.quarantined| ==> Covers(cs, IdOf(rows.quarantined[i].1.body))
      invariant |cs| < limit ==> forall i :: 0 <= i < k ==> Covers(cs, rows.outbox[i].id)
      invariant RowsFirst(cs, rows) && FromRows(cs, rows)
    {
      if |cs| >= limit { break; }
      var e := rows.outbox[k];
      if e.id !in seen {
        seen := seen + {e.id};
        CoversAppend(cs, Candidate(Message(None, Valid(e)), None));
        cs := cs + [Candidate(Message(None, Valid(e)), None)];
      }
    }
  }

  /** A candidate is a quarantine row with its coordinates, or an outbox event without any. */
  ghost predicate FromRows(cs: seq<Candidate>, rows: Rows) {
    forall i :: 0 <= i < |cs| ==>
      (cs[i].row.Some? && (cs[i].row.value, cs[i].message) in rows.quarantined)
      || (cs[i].row.None? && cs[i].message.source.None? && cs[i].message.body.Valid? && cs[i].message.body.event in rows.outbox)
  }

  method AppendQuarantine(rows: Rows, limit: nat) returns (cs: seq<Candidate>, seen: set<EventId>)
    ensures |cs| <= limit && DistinctIds(cs) && forall id :: id in seen <==> Covers(cs, id)
    ensures |cs| < limit ==> forall i :: 0 <= i < |rows.quarantined| ==> Covers(cs, IdOf(rows.quarantined[i].1.body))
    ensures forall i :: 0 <= i < |cs| ==> cs[i].row.Some? && (cs[i].row.value, cs[i].message) in rows.quarantined
  {
    cs, seen := [], {};
    for k := 0 to |rows.quarantined|
      invariant |cs| <= limit && DistinctIds(cs)
      invariant forall id :: id in seen <==> Covers(cs, id)
      invariant |cs| < limit ==> forall i :: 0 <= i < k ==> Covers(cs, IdOf(rows.quarantined[i].1.body))
      invariant forall i :: 0 <= i < |cs| ==> cs[i].row.Some? && (cs[i].row.value, cs[i].message) in rows.quarantined
    {
      var (row, m) := rows.quarantined[k];
      if |cs| < limit && IdOf(m.body) !in seen {
        seen := seen + {IdOf(m.body)};
        CoversAppend(cs, Candidate(m, Some(row)));
        cs := cs + [Candidate(m, Some(row))];
      }
    }
  }

  lemma CoversAppend(cs: seq<Candidate>, c: Candidate)
    ensures forall id :: Covers(cs + [c], id) <==> Covers(cs, id) || id == IdAt(c)
  {
    var ds := cs + [c];
    forall id ensures Covers(ds, id) <==> Covers(cs, id) || id == IdAt(c) {
      if Covers(cs, id) {
        var i :| 0 <= i < |cs| && IdAt(cs[i]) == id;
        assert ds[i] == cs[i];
      }
      if id == IdAt(c) { assert ds[|cs|] == c; }
    }
  }
}
