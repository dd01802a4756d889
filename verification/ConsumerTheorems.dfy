/** The main results about the consumer, for every interleaving of deliveries, replays, crashes and rebalances. */
module ConsumerTheorems {
  import opened Vocabulary
  import opened EventHistory
  import opened ConsumerTables
  import opened ConsumerSystem
  import opened ConsumerSoundness

  /** Each event's effect is applied at most once, and exactly when its inbox row exists. */
  lemma ExactlyOnce(ops: seq<Op>)
    ensures OnceEach(Run(Start, ops).db)
  {
    Reachable(ops);
  }

  /** Per aggregate the applied versions strictly increase and the stored maximum is the last of them. */
  lemma OrderPerAggregate(ops: seq<Op>, g: Aggregate)
    ensures OrderedUpTo(Run(Start, ops).db, g)
  {
    Reachable(ops);
  }

  /** No event ever has two open quarantine rows, however often it is set aside. */
  lemma OneOpenRowPerEvent(ops: seq<Op>)
    ensures OneOpenRow(Run(Start, ops).db.quarantine)
  {
    Reachable(ops);
  }

  /** Every offset below the durable progress is applied, quarantined or superseded. */
  lemma NoLoss(ops: seq<Op>, p: Partition, o: nat)
    requires o < NextOffset(Run(Start, ops).db, p)
    ensures o < |LogOf(Run(Start, ops).log, p)| && Accounted(Run(Start, ops).db, LogOf(Run(Start, ops).log, p)[o])
  {
    Reachable(ops);
    assert AllAccounted(Run(Start, ops).db, Run(Start, ops).log, p);
  }

  /** No offset committed to the broker is ahead of the durable progress. */
  lemma BrokerOffsetsBehind(ops: seq<Op>, p: Partition, o: nat)
    requires o in CommittedOf(Run(Start, ops).committed, p)
    ensures o <= NextOffset(Run(Start, ops).db, p)
  {
    Reachable(ops);
  }

  /** Wherever a partition is resumed, whether or not progress could be read, nothing before that point is skipped. */
  lemma ResumeSkipsNothing(ops: seq<Op>, p: Partition, progressRead: bool, kafka: Option<nat>, o: nat)
    requires kafka.Some? ==> kafka.value in CommittedOf(Run(Start, ops).committed, p)
    requires o < StartOffset(Run(Start, ops), p, progressRead, kafka)
    ensures o < |LogOf(Run(Start, ops).log, p)| && Accounted(Run(Start, ops).db, LogOf(Run(Start, ops).log, p)[o])
  {
    if kafka.Some? {
      BrokerOffsetsBehind(ops, p, kafka.value);
    }
    NoLoss(ops, p, o);
  }

  /** With a progress row and a readable database the resume point is exactly that row. */
  lemma ResumesAtProgress(ops: seq<Op>, p: Partition, kafka: Option<nat>)
    requires kafka.Some? ==> kafka.value in CommittedOf(Run(Start, ops).committed, p)
    requires p in Run(Start, ops).db.progress
    ensures StartOffset(Run(Start, ops), p, true, kafka) == Run(Start, ops).db.progress[p]
  {
    if kafka.Some? {
      BrokerOffsetsBehind(ops, p, kafka.value);
    }
  }

  /** Without one, at the offset committed to the broker; with neither, at the start of the topic; never before either. */
  lemma ResumesAtHighest(s: System, p: Partition, progressRead: bool, kafka: Option<nat>)
    ensures var known := (if progressRead && p in s.db.progress then {s.db.progress[p]} else {}) + (if kafka.Some? then {kafka.value} else {});
            var start := StartOffset(s, p, progressRead, kafka);
            (known == {} ==> start == 0) && (known != {} ==> start in known) && forall o :: o in known ==> o <= start
  {}

  lemma SettleDb(s: System, db: Db, w: nat, m: Message, result: CommitResult)
    ensures Settle(s, db, w, m, result).db == (if result == RolledBack then s.db else db)
  {}

  /** The database a step would commit; the old one when it is disabled or rolled back. */
  lemma CommitDb(s: System, w: nat, result: CommitResult)
    ensures DoCommit(s, w, result).db
         == if CanCommit(s, w) && VersionAdvances(s.db, s.txs[w].message.body.event) && result != RolledBack
            then Applied(s.db, s.txs[w].message) else s.db
  {}

  lemma OtherSteps(s: System, op: Op)
    requires !op.Commit? && !op.SetAside? && !op.CloseRow?
    ensures Evolves(s.db, Do(s, op).db) && Do(s, op).db.effects == s.db.effects
  {
    match op
    case Duplicate(w, m, result) =>
      SettleDb(s, Advance(s.db, m.source), w, m, result);
      AdvanceEvolves(s.db, m.source);
    case SkipOld(w, m, result) =>
      SettleDb(s, Advance(s.db, m.source), w, m, result);
      AdvanceEvolves(s.db, m.source);
    case _ =>
  }

  /** What one worker's step guarantees to every other. */
  lemma StepEvolves(s: System, op: Op)
    ensures Evolves(s.db, Do(s, op).db)
  {
    match op
    case Commit(w, result) =>
      CommitDb(s, w, result);
      if CanCommit(s, w) && VersionAdvances(s.db, s.txs[w].message.body.event) {
        AppliedEvolves(s.db, s.txs[w].message);
      }
    case SetAside(w, m, reason, attempts, result) =>
      QuarantineEvolves(s.db, m, reason, attempts);
      SettleDb(s, ConsumerTables.Quarantine(s.db, m, reason, attempts), w, m, result);
    case CloseRow(row, status) => CloseRowEvolves(s.db, row, status);
    case _ => OtherSteps(s, op);
  }

  // ---- contiguity ----

  /** The applied versions of the aggregate are consecutive. */
  ghost predicate Contiguous(es: seq<Event>, g: Aggregate) {
    Consecutive(Of(es, g))
  }

  /**
   * The one way to leave a hole: a transaction that found no version row commits after another has
   * written one that is more than one version behind.
   */
  predicate LateBaseline(s: System, op: Op, g: Aggregate) {
    op.Commit? && op.result != RolledBack && CanCommit(s, op.worker)
    && var e := s.txs[op.worker].message.body.event;
       e.agg == g && g in s.db.versions && e.version > s.db.versions[g] + 1
  }

  lemma LateBaselineFoundNothing(s: System, op: Op, g: Aggregate)
    requires Sound(s) && LateBaseline(s, op, g)
    ensures !s.txs[op.worker].found
  {
    assert TxSound(s.db, s.log, s.txs[op.worker]);
  }

  lemma ExtendConsecutive(db: Db, e: Event)
    requires OrderedUpTo(db, e.agg) && VersionAdvances(db, e)
    ensures Consecutive(Of(db.effects, e.agg) + [e])
       <==> Consecutive(Of(db.effects, e.agg)) && (e.agg in db.versions ==> e.version == db.versions[e.agg] + 1)
  {
    var h := Of(db.effects, e.agg);
    var x := h + [e];
    assert forall i :: 0 <= i < |h| ==> x[i] == h[i];
    if Consecutive(x) {
      assert x[|h|] == e;
      assert x[|h|].version == x[0].version + |h|;
      if h != [] { assert x[|h| - 1].version == x[0].version + |h| - 1; }
    }
  }

  lemma AppendContiguous(db: Db, e: Event, g: Aggregate)
    requires OrderedUpTo(db, g) && VersionAdvances(db, e)
    ensures Contiguous(db.effects + [e], g)
       <==> Contiguous(db.effects, g) && (e.agg == g && g in db.versions ==> e.version == db.versions[g] + 1)
  {
    OfAppend(db.effects, e, g);
    if e.agg == g {
      ExtendConsecutive(db, e);
    } else {
      assert Of(db.effects + [e], g) == Of(db.effects, g);
    }
  }

  lemma EffectsOf(s: System, op: Op)
    ensures Do(s, op).db.effects
         == if op.Commit? && op.result != RolledBack && CanCommit(s, op.worker)
               && VersionAdvances(s.db, s.txs[op.worker].message.body.event)
            then s.db.effects + [s.txs[op.worker].message.body.event] else s.db.effects
  {
    if op.Commit? {
      CommitDb(s, op.worker, op.result);
    } else if op.SetAside? {
      SettleDb(s, ConsumerTables.Quarantine(s.db, op.message, op.reason, op.attempts), op.worker, op.message, op.result);
    } else if !op.CloseRow? {
      OtherSteps(s, op);
    }
  }

  /** One step: a history stays without holes exactly when the step is not a late baseline of its aggregate. */
  lemma StepContiguous(s: System, op: Op, g: Aggregate)
    requires OrderedUpTo(s.db, g)
    ensures Contiguous(Do(s, op).db.effects, g) <==> Contiguous(s.db.effects, g) && !LateBaseline(s, op, g)
  {
    EffectsOf(s, op);
    if op.Commit? && CanCommit(s, op.worker) && VersionAdvances(s.db, s.txs[op.worker].message.body.event) {
      AppendContiguous(s.db, s.txs[op.worker].message.body.event, g);
    }
  }

  /** No operation of the run is a late baseline of the aggregate. */
  ghost predicate NeverLate(ops: seq<Op>, g: Aggregate) {
    ops != [] ==> NeverLate(ops[..|ops| - 1], g) && !LateBaseline(Run(Start, ops[..|ops| - 1]), ops[|ops| - 1], g)
  }

  /** Whole runs: the applied versions of an aggregate are consecutive if and only if no commit was a late baseline of it. */
  lemma {:induction false} ContiguousIff(ops: seq<Op>, g: Aggregate)
    ensures Contiguous(Run(Start, ops).db.effects, g) <==> NeverLate(ops, g)
  {
    if ops != [] {
      var init := ops[..|ops| - 1];
      OrderPerAggregate(init, g);
      ContiguousIff(init, g);
      StepContiguous(Run(Start, init), ops[|ops| - 1], g);
    }
  }

  // ---- what an operator can arrange ----

  /** A first-seen transaction of the aggregate is in flight: it found no version row. */
  predicate FirstSeen(s: System, k: nat, g: Aggregate) {
    k in s.txs && !s.txs[k].found && s.txs[k].message.body.Valid? && s.txs[k].message.body.event.agg == g
  }

  ghost predicate OneFirstSeen(s: System, g: Aggregate) {
    forall k, l :: FirstSeen(s, k, g) && FirstSeen(s, l, g) ==> k == l
  }

  /** While a first-seen transaction is in flight the aggregate has no version row. */
  ghost predicate StillUnseen(s: System, g: Aggregate) {
    forall k :: FirstSeen(s, k, g) ==> g !in s.db.versions
  }

  lemma FirstSeenComesFrom(s: System, op: Op, k: nat, g: Aggregate)
    requires FirstSeen(Do(s, op), k, g)
    ensures (FirstSeen(s, k, g) && !(op.Commit? && op.worker == k && CanCommit(s, k)))
            || (op.Begin? && op.worker == k && g !in s.db.versions && Do(s, op).db == s.db)
  {}

  lemma VersionComesFrom(s: System, op: Op, g: Aggregate)
    requires g !in s.db.versions && g in Do(s, op).db.versions
    ensures op.Commit? && CanCommit(s, op.worker) && s.txs[op.worker].message.body.event.agg == g
  {
    if op.Commit? {
      CommitDb(s, op.worker, op.result);
    } else if op.SetAside? {
      SettleDb(s, ConsumerTables.Quarantine(s.db, op.message, op.reason, op.attempts), op.worker, op.message, op.result);
    }
  }

  lemma StepUnseen(s: System, op: Op, g: Aggregate)
    requires Sound(s) && StillUnseen(s, g) && OneFirstSeen(s, g)
    ensures StillUnseen(Do(s, op), g)
  {
    var t := Do(s, op);
    forall k | FirstSeen(t, k, g) ensures g !in t.db.versions {
      FirstSeenComesFrom(s, op, k, g);
      if g in t.db.versions {
        VersionComesFrom(s, op, g);
        assert TxSound(s.db, s.log, s.txs[op.worker]);
        assert FirstSeen(s, op.worker, g);
        assert false;
      }
    }
  }

  /** At no moment of the run are two first-seen transactions of the aggregate in flight. */
  ghost predicate BaselinesApart(ops: seq<Op>, g: Aggregate) {
    OneFirstSeen(Run(Start, ops), g) && (ops != [] ==> BaselinesApart(ops[..|ops| - 1], g))
  }

  lemma {:induction false} ApartUnseen(ops: seq<Op>, g: Aggregate)
    requires BaselinesApart(ops, g)
    ensures StillUnseen(Run(Start, ops), g)
  {
    if ops != [] {
      var init := ops[..|ops| - 1];
      ApartUnseen(init, g);
      Reachable(init);
      StepUnseen(Run(Start, init), ops[|ops| - 1], g);
    }
  }

  lemma {:induction false} ApartIsNeverLate(ops: seq<Op>, g: Aggregate)
    requires BaselinesApart(ops, g)
    ensures NeverLate(ops, g)
  {
    if ops != [] {
      var init, op := ops[..|ops| - 1], ops[|ops| - 1];
      ApartIsNeverLate(init, g);
      ApartUnseen(init, g);
      Reachable(init);
      if LateBaseline(Run(Start, init), op, g) {
        LateBaselineFoundNothing(Run(Start, init), op, g);
        assert FirstSeen(Run(Start, init), op.worker, g);
        assert false;
      }
    }
  }

  /**
   * As long as no two first-seen transactions of an aggregate overlap its history has no hole, however its
   * messages are lost, repeated or reordered and however all other transactions overlap.
   */
  lemma ApartContiguous(ops: seq<Op>, g: Aggregate)
    requires BaselinesApart(ops, g)
    ensures Contiguous(Run(Start, ops).db.effects, g)
  {
    ApartIsNeverLate(ops, g);
    ContiguousIff(ops, g);
  }

  /** Every commit directly follows the begin that opened its transaction. */
  ghost predicate Immediate(ops: seq<Op>) {
    forall i :: 0 <= i < |ops| && ops[i].Commit? ==>
      i > 0 && ops[i - 1].Begin? && ops[i - 1].worker == ops[i].worker
      && ops[i].worker !in Run(Start, ops[..i - 1]).txs
  }

  lemma ImmediateIsOnTime(s: System, w: nat, m: Message, result: CommitResult, g: Aggregate)
    requires w !in s.txs
    ensures !LateBaseline(Do(s, Begin(w, m)), Commit(w, result), g)
  {}

  lemma {:induction false} ImmediateIsNeverLate(ops: seq<Op>, g: Aggregate)
    requires Immediate(ops)
    ensures NeverLate(ops, g)
  {
    if ops != [] {
      var n := |ops| - 1;
      assert forall i :: 0 <= i < n ==> ops[..n][..i] == ops[..i];
      ImmediateIsNeverLate(ops[..n], g);
      if ops[n].Commit? {
        var begin := ops[n - 1];
        assert ops[..n] == ops[..n - 1] + [begin];
        RunSnoc(Start, ops[..n - 1], begin);
        ImmediateIsOnTime(Run(Start, ops[..n - 1]), begin.worker, begin.message, ops[n].result, g);
      }
    }
  }

  /** Nor has it one when every apply transaction is atomic, even if others were begun and never end. */
  lemma AtomicAppliesContiguous(ops: seq<Op>, g: Aggregate)
    requires Immediate(ops)
    ensures Contiguous(Run(Start, ops).db.effects, g)
  {
    ImmediateIsNeverLate(ops, g);
    ContiguousIff(ops, g);
  }

  // ---- the hole is real ----

  const subject := IntentAggregate("i")

  function Numbered(version: nat): Event {
    Event(EventId(if version == 3 then "three" else "five"), subject, version, Other(""))
  }

  function Replayed(version: nat): Message {
    Message(None, Valid(Numbered(version)))
  }

  const race := [Begin(1, Replayed(3)), Begin(2, Replayed(5))] + [Commit(1, Reported), Commit(2, Reported)]

  lemma RunSnoc(s: System, ops: seq<Op>, op: Op)
    ensures Run(s, ops + [op]) == Do(Run(s, ops), op)
  {
    assert (ops + [op])[..|ops + [op]| - 1] == ops;
  }

  lemma Run2(s: System, a: Op, b: Op)
    ensures Run(s, [a, b]) == Do(Do(s, a), b)
  {
    RunSnoc(s, [], a);
    RunSnoc(s, [a], b);
    assert [] + [a] == [a] && [a] + [b] == [a, b];
  }

  lemma {:induction false} RunConcat(s: System, first: seq<Op>, second: seq<Op>)
    ensures Run(s, first + second) == Run(Run(s, first), second)
    decreases |second|
  {
    if second == [] {
      assert first + second == first;
    } else {
      assert (first + second)[..|first + second| - 1] == first + second[..|second| - 1];
      RunConcat(s, first, second[..|second| - 1]);
    }
  }

  lemma BothBegin() returns (s: System)
    ensures s == Run(Start, [Begin(1, Replayed(3)), Begin(2, Replayed(5))])
    ensures s == Start.(txs := map[1 := Tx(Replayed(3), false, 0), 2 := Tx(Replayed(5), false, 0)])
  {
    var t := Do(Start, Begin(1, Replayed(3)));
    assert t.txs == map[1 := Tx(Replayed(3), false, 0)];
    assert |"three"| != |"five"|;
    s := Do(t, Begin(2, Replayed(5)));
    Run2(Start, Begin(1, Replayed(3)), Begin(2, Replayed(5)));
  }

  lemma BothCommit(s: System)
    requires s == Start.(txs := map[1 := Tx(Replayed(3), false, 0), 2 := Tx(Replayed(5), false, 0)])
    ensures Run(s, [Commit(1, Reported), Commit(2, Reported)]).db.effects == [Numbered(3), Numbered(5)]
  {
    var t := Do(s, Commit(1, Reported));
    EffectsOf(s, Commit(1, Reported));
    CommitDb(s, 1, Reported);
    assert t.txs == map[2 := Tx(Replayed(5), false, 0)];
    EffectsOf(t, Commit(2, Reported));
    Run2(s, Commit(1, Reported), Commit(2, Reported));
  }

  lemma HoleAt(h: seq<Event>)
    requires h == [Numbered(3), Numbered(5)]
    ensures !Contiguous(h, subject)
  {
    OfAppend([], Numbered(3), subject);
    OfAppend([Numbered(3)], Numbered(5), subject);
    assert [] + [Numbered(3)] == [Numbered(3)] && [Numbered(3)] + [Numbered(5)] == h;
    assert Of(h, subject)[1].version != Of(h, subject)[0].version + 1;
  }

  /** Two overlapping first-seen transactions apply versions 3 and then 5. */
  lemma ThreeThenFive()
    ensures Run(Start, race).db.effects == [Numbered(3), Numbered(5)]
    ensures !Contiguous(Run(Start, race).db.effects, subject)
  {
    var s := BothBegin();
    BothCommit(s);
    RunConcat(Start, [Begin(1, Replayed(3)), Begin(2, Replayed(5))], [Commit(1, Reported), Commit(2, Reported)]);
    HoleAt(Run(Start, race).db.effects);
  }
}
