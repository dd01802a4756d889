/** The tables of one named consumer and the guarded statements of its transactions (consumer.go, quarantine.go). */
module ConsumerTables {
  import opened Vocabulary
  import opened EventHistory

  type Partition = nat

  datatype Reason = RetryExhausted | NonRetryable | VersionGap | SchemaUnsupported | IdentityMismatch

  /**
   * What parsing and the chain-identity check make of a delivered value: an event to apply, or a
   * refusal with the identity under which the value is quarantined.
   */
  datatype Body = Valid(event: Event) | Refused(id: EventId, reason: Reason)

  function IdOf(body: Body): EventId {
    if body.Valid? then body.event.id else body.id
  }

  datatype Coord = Coord(part: Partition, offset: nat)

  /** A delivery has coordinates; a replay from an outbox row has none and never moves progress. */
  datatype Message = Message(source: Option<Coord>, body: Body)

  datatype Status = Open | Replayed(operation: string) | Superseded

  datatype QuarantineRow = QuarantineRow(message: Message, reason: Reason, attempts: nat, status: Status)

  /** `effects` is the effect of the consumer: every applied event, in the order of the commits. */
  datatype Db = Db(inbox: set<EventId>, versions: map<Aggregate, nat>, progress: map<Partition, nat>,
                   quarantine: seq<QuarantineRow>, effects: seq<Event>)

  const Empty := Db({}, map[], map[], [], [])

  // ---- the version guard ----

  datatype Guard = Apply | Skip | Gap

  function Decide(found: bool, max: nat, version: nat): Guard {
    if !found then Apply
    else if version > max + 1 then Gap
    else if version > max then Apply
    else Skip
  }

  function GuardOf(db: Db, e: Event): Guard {
    if e.agg in db.versions then Decide(true, db.versions[e.agg], e.version) else Decide(false, 0, e.version)
  }

  // ---- statements ----

  function NextOffset(db: Db, p: Partition): nat {
    if p in db.progress then db.progress[p] else 0
  }

  /** The upsert with GREATEST. */
  function Advance(db: Db, source: Option<Coord>): Db {
    match source
    case None => db
    case Some(c) =>
      db.(progress := db.progress[c.part := if NextOffset(db, c.part) > c.offset + 1 then NextOffset(db, c.part) else c.offset + 1])
  }

  /** Inbox row, effect, version and progress of one application, committed together. */
  function Applied(db: Db, m: Message): Db
    requires m.body.Valid?
  {
    var e := m.body.event;
    Advance(db.(inbox := db.inbox + {e.id}, versions := db.versions[e.agg := e.version], effects := db.effects + [e]),
            m.source)
  }

  predicate HasOpenRow(db: Db, id: EventId) {
    exists i :: 0 <= i < |db.quarantine| && IdOf(db.quarantine[i].message.body) == id && db.quarantine[i].status == Open
  }

  predicate Quarantined(db: Db, id: EventId) {
    exists i :: 0 <= i < |db.quarantine| && IdOf(db.quarantine[i].message.body) == id
  }

  /** At most one open row per event; a repeated quarantine writes no second one. */
  function Enqueue(db: Db, m: Message, reason: Reason, attempts: nat): Db {
    if HasOpenRow(db, IdOf(m.body)) then db
    else db.(quarantine := db.quarantine + [QuarantineRow(m, reason, attempts, Open)])
  }

  function Quarantine(db: Db, m: Message, reason: Reason, attempts: nat): Db {
    Advance(Enqueue(db, m, reason, attempts), m.source)
  }

  function CloseRow(db: Db, row: nat, status: Status): Db {
    if row < |db.quarantine| && db.quarantine[row].status == Open && status != Open
    then db.(quarantine := db.quarantine[row := db.quarantine[row].(status := status)])
    else db
  }

  /** Closing an open row gives it that status and leaves everything else; a closed one, or none, is left alone. */
  lemma ClosedAs(db: Db, row: nat, status: Status)
    requires status != Open
    ensures var t := CloseRow(db, row, status);
            t == db.(quarantine := t.quarantine) && |t.quarantine| == |db.quarantine|
            && forall i :: 0 <= i < |db.quarantine| ==>
                 var r := db.quarantine[i];
                 t.quarantine[i] == if i == row && r.status == Open then QuarantineRow(r.message, r.reason, r.attempts, status) else r
  {}

  /** No event has two open rows. */
  ghost predicate OneOpenRow(rows: seq<QuarantineRow>) {
    forall i, j :: 0 <= i < j < |rows| && rows[i].status == Open && rows[j].status == Open ==>
      IdOf(rows[i].message.body) != IdOf(rows[j].message.body)
  }

  /** Setting a message aside keeps it whole, with its reason and its attempts, open to be replayed, unless it is open already. */
  lemma AsideKept(db: Db, m: Message, reason: Reason, attempts: nat)
    ensures var t := Quarantine(db, m, reason, attempts);
            t.inbox == db.inbox && t.versions == db.versions && t.effects == db.effects
            && HasOpenRow(t, IdOf(m.body))
            && if HasOpenRow(db, IdOf(m.body)) then t.quarantine == db.quarantine
               else |t.quarantine| == |db.quarantine| + 1 && t.quarantine[..|db.quarantine|] == db.quarantine
                    && var row := t.quarantine[|db.quarantine|];
                       row.message == m && row.reason == reason && row.attempts == attempts && row.status == Open
  {
    var t := Quarantine(db, m, reason, attempts);
    if !HasOpenRow(db, IdOf(m.body)) { assert t.quarantine[|db.quarantine|].status == Open; }
  }

  lemma EnqueueOneOpen(db: Db, m: Message, reason: Reason, attempts: nat)
    requires OneOpenRow(db.quarantine)
    ensures OneOpenRow(Quarantine(db, m, reason, attempts).quarantine)
  {}

  // ---- accounting ----

  /** The value is durably dealt with: applied, quarantined, or older than what was applied. */
  predicate Accounted(db: Db, body: Body) {
    (body.Valid? && body.event.id in db.inbox)
    || Quarantined(db, IdOf(body))
    || (body.Valid? && body.event.agg in db.versions && body.event.version <= db.versions[body.event.agg])
  }

  /** What every transaction of every worker guarantees to the others. */
  ghost predicate Evolves(a: Db, b: Db) {
    a.inbox <= b.inbox
    && (forall g :: g in a.versions ==> g in b.versions && a.versions[g] <= b.versions[g])
    && (forall p :: NextOffset(a, p) <= NextOffset(b, p))
    && |a.quarantine| <= |b.quarantine|
    && (forall i :: 0 <= i < |a.quarantine| ==> RowEvolves(a.quarantine[i], b.quarantine[i]))
    && a.effects <= b.effects
  }

  /** A row keeps its message for good, and once closed it never changes. */
  ghost predicate RowEvolves(a: QuarantineRow, b: QuarantineRow) {
    b.message == a.message && (a.status != Open ==> b == a)
  }

  lemma EvolvesTransitive(a: Db, b: Db, c: Db)
    requires Evolves(a, b) && Evolves(b, c)
    ensures Evolves(a, c)
  {
    forall i | 0 <= i < |a.quarantine| ensures RowEvolves(a.quarantine[i], c.quarantine[i]) {
      assert RowEvolves(a.quarantine[i], b.quarantine[i]) && RowEvolves(b.quarantine[i], c.quarantine[i]);
    }
    forall p ensures NextOffset(a, p) <= NextOffset(c, p) {
      assert NextOffset(a, p) <= NextOffset(b, p) <= NextOffset(c, p);
    }
  }

  /** Once accounted for, always accounted for. */
  lemma AccountedStays(a: Db, b: Db, body: Body)
    requires Evolves(a, b) && Accounted(a, body)
    ensures Accounted(b, body)
  {
    if Quarantined(a, IdOf(body)) {
      var i :| 0 <= i < |a.quarantine| && IdOf(a.quarantine[i].message.body) == IdOf(body);
      assert RowEvolves(a.quarantine[i], b.quarantine[i]);
    }
  }

  lemma AppliedEvolves(db: Db, m: Message)
    requires m.body.Valid?
    requires m.body.event.agg in db.versions ==> db.versions[m.body.event.agg] < m.body.event.version
    ensures Evolves(db, Applied(db, m)) && Accounted(Applied(db, m), m.body)
  {}

  lemma AdvanceEvolves(db: Db, source: Option<Coord>)
    ensures Evolves(db, Advance(db, source))
  {}

  lemma QuarantineEvolves(db: Db, m: Message, reason: Reason, attempts: nat)
    ensures Evolves(db, Quarantine(db, m, reason, attempts)) && Accounted(Quarantine(db, m, reason, attempts), m.body)
  {
    var t := Enqueue(db, m, reason, attempts);
    if !HasOpenRow(db, IdOf(m.body)) {
      assert t.quarantine[|db.quarantine|].message == m;
    }
    assert Quarantined(t, IdOf(m.body));
    assert Quarantine(db, m, reason, attempts).quarantine == t.quarantine;
  }

  lemma CloseRowEvolves(db: Db, row: nat, status: Status)
    ensures Evolves(db, CloseRow(db, row, status))
  {}

  // ---- per-aggregate history ----

  /** Effects are applied once each, exactly those in the inbox. */
  ghost predicate OnceEach(db: Db) {
    Distinct(db.effects) && forall id :: id in db.inbox <==> exists i :: 0 <= i < |db.effects| && db.effects[i].id == id
  }

  /** One aggregate's history increases up to the stored maximum. */
  ghost predicate OrderedUpTo(db: Db, g: Aggregate) {
    var h := Of(db.effects, g);
    Increasing(h)
    && (g in db.versions <==> h != [])
    && (h != [] ==> h[|h| - 1].version == db.versions[g])
  }

  ghost predicate Ordered(db: Db) {
    forall g :: OrderedUpTo(db, g)
  }

  lemma AppliedOnce(db: Db, m: Message)
    requires m.body.Valid? && m.body.event.id !in db.inbox && OnceEach(db)
    ensures OnceEach(Applied(db, m))
  {
    var t := Applied(db, m);
    var e := m.body.event;
    assert t.effects == db.effects + [e] && t.inbox == db.inbox + {e.id};
    assert t.effects[|db.effects|] == e;
    forall i | 0 <= i < |db.effects| ensures db.effects[i].id in db.inbox {}
    forall id | id in t.inbox ensures exists i :: 0 <= i < |t.effects| && t.effects[i].id == id {
      if id in db.inbox {
        var i :| 0 <= i < |db.effects| && db.effects[i].id == id;
        assert t.effects[i].id == id;
      }
    }
  }

  lemma AppliedOrdered(db: Db, m: Message)
    requires m.body.Valid? && Ordered(db)
    requires m.body.event.agg in db.versions ==> db.versions[m.body.event.agg] < m.body.event.version
    ensures Ordered(Applied(db, m))
  {
    var t := Applied(db, m);
    var e := m.body.event;
    forall g ensures OrderedUpTo(t, g) {
      OfAppend(db.effects, e, g);
      assert OrderedUpTo(db, g);
    }
  }
}
