/** What the consumer has applied for an intent is a stretch of that intent's real history. */
module EndToEnd {
  import opened Vocabulary
  import opened EventHistory
  import opened NaturalKeys
  import opened Texts
  import Decimal
  import opened Pipeline
  import Execution = ExecutionSystem
  import Edits
  import Outbox
  import OutboxTheorems
  import AppendVersions
  import ConsumerTables
  import ConsumerSystem
  import ConsumerTheorems

  lemma {:induction false} OfMember(es: seq<Event>, g: Aggregate, k: nat)
    requires k < |Of(es, g)|
    ensures Of(es, g)[k] in es && Of(es, g)[k].agg == g
  {
    var init := es[..|es| - 1];
    if k < |Of(init, g)| {
      OfMember(init, g, k);
    }
  }

  /** In a stream numbered 1, 2, 3, ... every event stands at its version. */
  lemma StandsAtVersion(history: seq<Event>, e: Event)
    requires e in history && CountsUp(Of(history, e.agg))
    ensures 1 <= e.version <= |Of(history, e.agg)| && Of(history, e.agg)[e.version - 1] == e
  {
    var i :| 0 <= i < |history| && history[i] == e;
    InHistory(history, i);
    var k :| 0 <= k < |Of(history, e.agg)| && Of(history, e.agg)[k] == e;
  }

  /** The applied events of an intent are, by version, events it emitted. */
  ghost predicate Faithful(applied: seq<Event>, emitted: seq<Event>) {
    Increasing(applied)
    && forall k :: 0 <= k < |applied| ==> 1 <= applied[k].version <= |emitted| && emitted[applied[k].version - 1] == applied[k]
  }

  lemma AppliedEmitted(s: Pipe, g: Aggregate)
    requires AllAuthentic(s.consumer, s.outbox.history) && g.kind == INTENT && CountsUp(Of(s.outbox.history, g))
    requires Increasing(Of(s.consumer.db.effects, g))
    ensures Faithful(Of(s.consumer.db.effects, g), Of(s.outbox.history, g))
  {
    var applied, emitted := Of(s.consumer.db.effects, g), Of(s.outbox.history, g);
    forall k | 0 <= k < |applied|
      ensures 1 <= applied[k].version <= |emitted| && emitted[applied[k].version - 1] == applied[k] {
      OfMember(s.consumer.db.effects, g, k);
      EffectEmitted(s, applied[k]);
      StandsAtVersion(s.outbox.history, applied[k]);
    }
  }

  // ---- every emission of an intent holds its lock ----

  lemma StoredCurrent(s: Pipe, op: Outbox.Op, g: Aggregate)
    requires OutboxAt(s.outbox, s.outboxOps) && AppendVersions.ReadsCurrent(s.outboxOps, g)
    requires op.Produce? && op.draft.agg == g ==> op.read == Outbox.MaxVersion(s.outbox.rows, g)
    ensures var t := OnOutbox(s, op); OutboxAt(t.outbox, t.outboxOps) && AppendVersions.ReadsCurrent(t.outboxOps, g)
  {
    OnOutboxTracks(s, op);
    var ops := s.outboxOps + [op];
    assert ops[..|ops| - 1] == s.outboxOps;
  }

  lemma {:induction false} EmittedCurrent(s: Pipe, to: Aggregate, ps: seq<Payload>, at: int, g: Aggregate)
    requires OutboxAt(s.outbox, s.outboxOps) && AppendVersions.ReadsCurrent(s.outboxOps, g)
    ensures AppendVersions.ReadsCurrent(Emit(s, to, ps, at).outboxOps, g)
    decreases |ps|
  {
    if ps != [] {
      var op := EmitOp(s, to, ps[0], at);
      StoredCurrent(s, op, g);
      EmittedCurrent(OnOutbox(s, op), to, ps[1..], at, g);
    }
  }

  lemma StepCurrent(s: Pipe, op: Op, g: Aggregate)
    requires OutboxAt(s.outbox, s.outboxOps) && AppendVersions.ReadsCurrent(s.outboxOps, g) && g.kind == INTENT
    ensures AppendVersions.ReadsCurrent(Do(s, op).outboxOps, g)
  {
    match op
    case Admit(i) =>
    case Execute(i, eop, at) =>
      if i in s.intents {
        var after := Execution.Do(s.intents[i], eop);
        EmittedCurrent(s.(intents := s.intents[i := after]), IntentAggregate(i), Added(s.intents[i], after), at, g);
      }
    case Store(oop) => if Allowed(oop) { StoredCurrent(s, oop, g); }
    case Send(row, part, acked) => StoredCurrent(s, Outbox.Acknowledge(row), g);
    case Foreign(part, body) =>
    case Consume(cop) =>
  }

  lemma {:induction false} AlwaysCurrent(ops: seq<Op>, g: Aggregate)
    requires g.kind == INTENT
    ensures AppendVersions.ReadsCurrent(Run(Start, ops).outboxOps, g)
  {
    if ops != [] {
      var init := ops[..|ops| - 1];
      AlwaysCurrent(init, g);
      assert OnTrack(Run(Start, init)) by { Reachable(init); }
      StepCurrent(Run(Start, init), ops[|ops| - 1], g);
    }
  }

  /** The two components' own results, at the state they have reached together. */
  lemma ComponentResults(s: Pipe, g: Aggregate)
    requires OnTrack(s) && AppendVersions.ReadsCurrent(s.outboxOps, g) && AppendVersions.PrunesKeepHead(s.outboxOps, g)
    ensures CountsUp(Of(s.outbox.history, g)) && Increasing(Of(s.consumer.db.effects, g))
    ensures ConsumerTheorems.NeverLate(s.consumerOps, g) ==> Consecutive(Of(s.consumer.db.effects, g))
  {
    AppendVersions.HeadKeptBy(s.outboxOps, g);
    AppendVersions.VersionsCountUp(s.outboxOps, g);
    ConsumerTheorems.OrderPerAggregate(s.consumerOps, g);
    ConsumerTheorems.ContiguousIff(s.consumerOps, g);
  }

  /**
   * However publishers repeat and reorder and workers race or crash, the events applied for an intent are
   * events it really emitted, in their order and without repeats.
   */
  lemma AppliedAreReal(ops: seq<Op>, i: string)
    requires AppendVersions.PrunesKeepHead(Run(Start, ops).outboxOps, IntentAggregate(i))
    ensures var s := Run(Start, ops);
            Faithful(Of(s.consumer.db.effects, IntentAggregate(i)), Of(s.outbox.history, IntentAggregate(i)))
  {
    Reachable(ops);
    AlwaysCurrent(ops, IntentAggregate(i));
    ComponentResults(Run(Start, ops), IntentAggregate(i));
    AppliedEmitted(Run(Start, ops), IntentAggregate(i));
  }

  lemma EffectEmitted(s: Pipe, e: Event)
    requires AllAuthentic(s.consumer, s.outbox.history) && e in s.consumer.db.effects && SpeaksForIntent(e)
    ensures e in s.outbox.history
  {
    var i :| 0 <= i < |s.consumer.db.effects| && s.consumer.db.effects[i] == e;
    assert Authentic(ConsumerTables.Valid(s.consumer.db.effects[i]), s.outbox.history);
  }

  lemma SegmentOf(applied: seq<Event>, emitted: seq<Event>) returns (a: nat)
    requires Faithful(applied, emitted) && Consecutive(applied)
    ensures a + |applied| <= |emitted| && applied == emitted[a..a + |applied|]
    ensures applied != [] ==> a == applied[0].version - 1
  {
    if applied == [] {
      a := 0;
    } else {
      a := applied[0].version - 1;
      var n := |applied|;
      assert applied[n - 1].version == applied[0].version + (n - 1);
      forall k | 0 <= k < n ensures applied[k] == emitted[a + k] {
        assert applied[k].version == applied[0].version + k;
      }
    }
  }

  lemma {:induction false} AnnouncedConcat(x: seq<Payload>, y: seq<Payload>)
    ensures Execution.Announced(x + y) == Execution.Announced(x) + Execution.Announced(y)
    decreases |y|
  {
    if y == [] {
      assert x + y == x;
    } else {
      assert (x + y)[..|x + y| - 1] == x + y[..|y| - 1];
      AnnouncedConcat(x, y[..|y| - 1]);
    }
  }

  /** A stretch of payloads announces a stretch of transitions. */
  lemma AnnouncedSegment(ps: seq<Payload>, a: nat, b: nat) returns (lo: nat, hi: nat)
    requires a <= b <= |ps|
    ensures lo <= hi <= |Execution.Announced(ps)| && Execution.Announced(ps[a..b]) == Execution.Announced(ps)[lo..hi]
  {
    var x, y, z := ps[..a], ps[a..b], ps[b..];
    assert ps == (x + y) + z;
    AnnouncedConcat(x + y, z);
    AnnouncedConcat(x, y);
    lo, hi := |Execution.Announced(x)|, |Execution.Announced(x)| + |Execution.Announced(y)|;
  }

  lemma PayloadsSlice(es: seq<Event>, a: nat, b: nat)
    requires a <= b <= |es|
    ensures Payloads(es[a..b]) == Payloads(es)[a..b]
  {}

  /** What a consecutive part of the emitted events announces is a stretch of what all of them announce. */
  lemma Stretch(applied: seq<Event>, emitted: seq<Event>) returns (lo: nat, hi: nat)
    requires Faithful(applied, emitted) && Consecutive(applied)
    ensures var all := Execution.Announced(Payloads(emitted));
            lo <= hi <= |all| && Execution.Announced(Payloads(applied)) == all[lo..hi]
  {
    var a := SegmentOf(applied, emitted);
    PayloadsSlice(emitted, a, a + |applied|);
    lo, hi := AnnouncedSegment(Payloads(emitted), a, a + |applied|);
  }

  /** The emitted events of an intent announce what its journal records. */
  lemma EmittedIsHistory(s: Pipe, i: string)
    requires i in s.intents && StreamOf(s, i) && Edits.HistorySound(s.intents[i].rows)
    ensures Execution.Announced(Told(s.outbox.history, IntentAggregate(i))) == Execution.Moves(s.intents[i].rows.journal)
  {}

  /**
   * If no commit was a late baseline, the state changes applied for an intent are a contiguous stretch of
   * the transitions its journal records, in order and without repeats.
   */
  lemma EndToEnd(ops: seq<Op>, i: string) returns (lo: nat, hi: nat)
    requires var s := Run(Start, ops);
             i in s.intents && AppendVersions.PrunesKeepHead(s.outboxOps, IntentAggregate(i))
             && ConsumerTheorems.NeverLate(s.consumerOps, IntentAggregate(i))
    ensures var s := Run(Start, ops);
            var history := Execution.Moves(s.intents[i].rows.journal);
            lo <= hi <= |history|
            && Execution.Announced(Told(s.consumer.db.effects, IntentAggregate(i))) == history[lo..hi]
  {
    Reachable(ops);
    AppliedAreReal(ops, i);
    var s, g := Run(Start, ops), IntentAggregate(i);
    AlwaysCurrent(ops, g);
    ComponentResults(s, g);
    EmittedIsHistory(s, i);
    lo, hi := Stretch(Of(s.consumer.db.effects, g), Of(s.outbox.history, g));
  }

  // ---- what is published was delivered ----

  /** The broker's log holds the event. */
  ghost predicate Delivered(log: ConsumerSystem.Log, e: Event) {
    exists p, o :: 0 <= o < |ConsumerSystem.LogOf(log, p)| && ConsumerSystem.LogOf(log, p)[o] == ConsumerTables.Valid(e)
  }

  ghost predicate AckedDelivered(t: Outbox.Table, log: ConsumerSystem.Log) {
    forall id :: id in t.acked ==> id < |t.history| && Delivered(log, t.history[id])
  }

  lemma ArrivalKeepsDelivered(t: Outbox.Table, c: ConsumerSystem.System, p: ConsumerTables.Partition, body: ConsumerTables.Body)
    requires AckedDelivered(t, c.log)
    ensures var d := ConsumerSystem.Do(c, ConsumerSystem.Produce(p, body));
            AckedDelivered(t, d.log) && (body.Valid? ==> Delivered(d.log, body.event))
  {
    var d := ConsumerSystem.Do(c, ConsumerSystem.Produce(p, body));
    var n := |ConsumerSystem.LogOf(c.log, p)|;
    assert ConsumerSystem.LogOf(d.log, p)[n] == body;
    forall id | id in t.acked ensures Delivered(d.log, t.history[id]) {
      var q, o :| 0 <= o < |ConsumerSystem.LogOf(c.log, q)| && ConsumerSystem.LogOf(c.log, q)[o] == ConsumerTables.Valid(t.history[id]);
      assert ConsumerSystem.LogOf(d.log, q)[o] == ConsumerSystem.LogOf(c.log, q)[o];
    }
  }

  lemma ConsumingKeepsLog(c: ConsumerSystem.System, op: ConsumerSystem.Op)
    requires !op.Produce?
    ensures ConsumerSystem.Do(c, op).log == c.log
  {}

  lemma StoringKeepsDelivered(t: Outbox.Table, op: Outbox.Op, log: ConsumerSystem.Log)
    requires AckedDelivered(t, log) && !op.Acknowledge?
    ensures AckedDelivered(Outbox.Do(t, op), log)
  {}

  lemma {:induction false} EmittingKeepsDelivered(s: Pipe, g: Aggregate, ps: seq<Payload>, at: int)
    requires AckedDelivered(s.outbox, s.consumer.log)
    ensures var t := Emit(s, g, ps, at); t.consumer == s.consumer && AckedDelivered(t.outbox, s.consumer.log)
    decreases |ps|
  {
    if ps != [] {
      var op := EmitOp(s, g, ps[0], at);
      StoringKeepsDelivered(s.outbox, op, s.consumer.log);
      EmittingKeepsDelivered(OnOutbox(s, op), g, ps[1..], at);
    }
  }

  lemma StepDelivered(s: Pipe, op: Op)
    requires AckedDelivered(s.outbox, s.consumer.log)
    ensures var t := Do(s, op); AckedDelivered(t.outbox, t.consumer.log)
  {
    match op
    case Admit(i) =>
    case Execute(i, eop, at) =>
      if i in s.intents {
        var after := Execution.Do(s.intents[i], eop);
        EmittingKeepsDelivered(s.(intents := s.intents[i := after]), IntentAggregate(i), Added(s.intents[i], after), at);
      }
    case Store(oop) => if Allowed(oop) { StoringKeepsDelivered(s.outbox, oop, s.consumer.log); }
    case Send(row, part, acked) =>
      if row < |s.outbox.history| { ArrivalKeepsDelivered(s.outbox, s.consumer, part, ConsumerTables.Valid(s.outbox.history[row])); }
    case Foreign(part, body) => ArrivalKeepsDelivered(s.outbox, s.consumer, part, body);
    case Consume(cop) => if Given(s, cop) { ConsumingKeepsLog(s.consumer, cop); }
  }

  lemma {:induction false} AlwaysDelivered(ops: seq<Op>)
    ensures AckedDelivered(Run(Start, ops).outbox, Run(Start, ops).consumer.log)
  {
    if ops != [] {
      AlwaysDelivered(ops[..|ops| - 1]);
      StepDelivered(Run(Start, ops[..|ops| - 1]), ops[|ops| - 1]);
    }
  }

  lemma RowDelivered(t: Outbox.Table, log: ConsumerSystem.Log, r: Outbox.Row)
    requires OutboxTheorems.Sound(t) && OutboxTheorems.Acknowledged(t) && AckedDelivered(t, log)
    requires r in t.rows && r.state == Outbox.Published
    ensures Delivered(log, r.event)
  {
    var i :| 0 <= i < |t.rows| && t.rows[i] == r;
    assert OutboxTheorems.RowSound(t, t.rows[i]);
  }

  /** If publishers mark only what the broker acknowledged, a published row's event is in its log, for the consumer to find. */
  lemma PublishedIsDelivered(ops: seq<Op>, r: Outbox.Row)
    requires Outbox.AllTruthful(Outbox.Empty, Run(Start, ops).outboxOps)
    requires r in Run(Start, ops).outbox.rows && r.state == Outbox.Published
    ensures Delivered(Run(Start, ops).consumer.log, r.event)
  {
    var s := Run(Start, ops);
    Reachable(ops);
    AlwaysDelivered(ops);
    OutboxTheorems.RunAcknowledged(Outbox.Empty, s.outboxOps);
    RowDelivered(s.outbox, s.consumer.log, r);
  }

  // ---- nothing is lost on the way ----

  lemma IntentKeyPrefix(g: Aggregate, version: nat)
    requires g.kind == INTENT
    ensures HasPrefix(BusinessKey(g, version), INTENT_KEY)
  {
    var key := BusinessKey(g, version);
    assert key == INTENT_KEY + g.id + "|" + Decimal.Format(version);
    assert key[..|INTENT_KEY|] == INTENT_KEY;
  }

  lemma SignedAt(history: seq<Event>, e: Event)
    requires Signed(history) && e in history
    ensures EventSigned(e)
  {
    var k :| 0 <= k < |history| && history[k] == e;
    assert EventSigned(history[k]);
  }

  /** No two emitted events carry the identity of one intent event. */
  lemma IntentIdentity(history: seq<Event>, e: Event, f: Event)
    requires Signed(history) && e in history && f in history && e.agg.kind == INTENT && f.id == e.id
    requires CountsUp(Of(history, e.agg))
    ensures f == e
  {
    SignedAt(history, e);
    SignedAt(history, f);
    var identity :| f.id == IdFor(identity, f.agg, f.version);
    if identity.EvmLog? {
      KindsOfKeysApart(identity, e.agg, e.version);
      assert false;
    }
    BusinessKeyInjective(e.agg, e.version, f.agg, f.version);
    StandsAtVersion(history, e);
    StandsAtVersion(history, f);
  }

  /** An intent event in the inbox was applied itself: no other event carries its identity. */
  lemma InboxMeansApplied(s: Pipe, e: Event)
    requires AllAuthentic(s.consumer, s.outbox.history) && ConsumerTables.OnceEach(s.consumer.db)
    requires Signed(s.outbox.history) && CountsUp(Of(s.outbox.history, e.agg))
    requires e in s.outbox.history && e.agg.kind == INTENT && e.id in s.consumer.db.inbox
    ensures e in s.consumer.db.effects
  {
    var i :| 0 <= i < |s.consumer.db.effects| && s.consumer.db.effects[i].id == e.id;
    var f := s.consumer.db.effects[i];
    SignedAt(s.outbox.history, e);
    IntentKeyPrefix(e.agg, e.version);
    EffectEmitted(s, f);
    IntentIdentity(s.outbox.history, e, f);
  }

  lemma AppliedBelowMaximum(db: ConsumerTables.Db, e: Event)
    requires ConsumerTables.OrderedUpTo(db, e.agg) && e in db.effects
    ensures e.agg in db.versions && e.version <= db.versions[e.agg]
  {
    var i :| 0 <= i < |db.effects| && db.effects[i] == e;
    InHistory(db.effects, i);
  }

  /** The newest event of an intent has reached the consumer, progress is past it, and it was not set aside. */
  ghost predicate NewestPassed(s: Pipe, g: Aggregate, p: ConsumerTables.Partition, o: nat) {
    var emitted := Of(s.outbox.history, g);
    emitted != []
    && o < ConsumerTables.NextOffset(s.consumer.db, p) && o < |ConsumerSystem.LogOf(s.consumer.log, p)|
    && ConsumerSystem.LogOf(s.consumer.log, p)[o] == ConsumerTables.Valid(emitted[|emitted| - 1])
    && !ConsumerTables.Quarantined(s.consumer.db, emitted[|emitted| - 1].id)
  }

  /** The consumer's own results, at the state it has reached. */
  lemma ConsumerResults(s: Pipe, g: Aggregate, p: ConsumerTables.Partition, o: nat)
    requires ConsumerAt(s.consumer, s.consumerOps) && o < ConsumerTables.NextOffset(s.consumer.db, p)
    ensures ConsumerTables.OnceEach(s.consumer.db) && ConsumerTables.OrderedUpTo(s.consumer.db, g)
    ensures o < |ConsumerSystem.LogOf(s.consumer.log, p)|
            && ConsumerTables.Accounted(s.consumer.db, ConsumerSystem.LogOf(s.consumer.log, p)[o])
  {
    ConsumerTheorems.NoLoss(s.consumerOps, p, o);
    ConsumerTheorems.ExactlyOnce(s.consumerOps);
    ConsumerTheorems.OrderPerAggregate(s.consumerOps, g);
  }

  /** An intent event that is accounted for without being set aside is no newer than the applied maximum. */
  lemma AccountedMeansReached(s: Pipe, e: Event)
    requires AllAuthentic(s.consumer, s.outbox.history) && Signed(s.outbox.history) && e.agg.kind == INTENT
    requires ConsumerTables.OnceEach(s.consumer.db) && ConsumerTables.OrderedUpTo(s.consumer.db, e.agg)
    requires CountsUp(Of(s.outbox.history, e.agg)) && e in s.outbox.history
    requires ConsumerTables.Accounted(s.consumer.db, ConsumerTables.Valid(e)) && !ConsumerTables.Quarantined(s.consumer.db, e.id)
    ensures e.agg in s.consumer.db.versions && e.version <= s.consumer.db.versions[e.agg]
  {
    if e.id in s.consumer.db.inbox {
      InboxMeansApplied(s, e);
      AppliedBelowMaximum(s.consumer.db, e);
    }
  }

  lemma NewestAccounted(s: Pipe, g: Aggregate, p: ConsumerTables.Partition, o: nat)
    requires ConsumerAt(s.consumer, s.consumerOps) && AllAuthentic(s.consumer, s.outbox.history)
    requires Signed(s.outbox.history) && g.kind == INTENT && CountsUp(Of(s.outbox.history, g)) && NewestPassed(s, g, p, o)
    ensures g in s.consumer.db.versions && s.consumer.db.versions[g] >= |Of(s.outbox.history, g)|
  {
    var emitted := Of(s.outbox.history, g);
    OfMember(s.outbox.history, g, |emitted| - 1);
    ConsumerResults(s, g, p, o);
    AccountedMeansReached(s, emitted[|emitted| - 1]);
  }

  lemma CaughtUpAt(s: Pipe, g: Aggregate) returns (a: nat)
    requires Faithful(Of(s.consumer.db.effects, g), Of(s.outbox.history, g)) && Consecutive(Of(s.consumer.db.effects, g))
    requires ConsumerTables.OrderedUpTo(s.consumer.db, g)
    requires g in s.consumer.db.versions && s.consumer.db.versions[g] >= |Of(s.outbox.history, g)|
    ensures a <= |Of(s.outbox.history, g)| && Of(s.consumer.db.effects, g) == Of(s.outbox.history, g)[a..]
  {
    var applied, emitted := Of(s.consumer.db.effects, g), Of(s.outbox.history, g);
    a := SegmentOf(applied, emitted);
    assert applied[|applied| - 1].version == |emitted|;
    assert applied[|applied| - 1].version == applied[0].version + (|applied| - 1);
  }

  /**
   * Nothing is lost on the way: once the newest event of an intent has passed the consumer without being set
   * aside, every event of the intent from the first applied one to the newest has been applied.
   */
  lemma CaughtUp(ops: seq<Op>, i: string, p: ConsumerTables.Partition, o: nat) returns (a: nat)
    requires var s := Run(Start, ops);
             AppendVersions.PrunesKeepHead(s.outboxOps, IntentAggregate(i)) && ConsumerTheorems.NeverLate(s.consumerOps, IntentAggregate(i))
             && NewestPassed(s, IntentAggregate(i), p, o)
    ensures var s := Run(Start, ops);
            var g := IntentAggregate(i);
            a <= |Of(s.outbox.history, g)| && Of(s.consumer.db.effects, g) == Of(s.outbox.history, g)[a..]
  {
    var s, g := Run(Start, ops), IntentAggregate(i);
    Reachable(ops);
    AppliedAreReal(ops, i);
    AlwaysCurrent(ops, g);
    ComponentResults(s, g);
    NewestAccounted(s, g, p, o);
    ConsumerTheorems.OrderPerAggregate(s.consumerOps, g);
    a := CaughtUpAt(s, g);
  }
}
