/**
 * The versions that appending hands out. They come from the rows that are still there, read before the
 * insertion, so they are 1, 2, 3, ... as long as no prune takes an aggregate's highest row and the read
 * is current: by the lock of the source row, or by the unique index that refuses a stale one.
 */
module AppendVersions {
  import opened Vocabulary
  import opened EventHistory
  import opened NaturalKeys
  import opened Outbox
  import opened OutboxTheorems

  lemma MaxAppend(rows: seq<Row>, r: Row, g: Aggregate)
    ensures MaxVersion(rows + [r], g)
         == if r.event.agg == g && r.event.version > MaxVersion(rows, g) then r.event.version else MaxVersion(rows, g)
  {
    assert (rows + [r])[..|rows + [r]| - 1] == rows;
  }

  lemma {:induction false} MaxPointwise(a: seq<Row>, b: seq<Row>, g: Aggregate)
    requires |a| == |b| && forall i :: 0 <= i < |a| ==> a[i].event == b[i].event
    ensures MaxVersion(a, g) == MaxVersion(b, g)
  {
    if a != [] {
      MaxPointwise(a[..|a| - 1], b[..|b| - 1], g);
    }
  }

  /** The maximum bounds every row, and a row carries it unless it is 0. */
  lemma {:induction false} MaxIsHighest(rows: seq<Row>, g: Aggregate)
    ensures forall r :: r in rows && r.event.agg == g ==> r.event.version <= MaxVersion(rows, g)
    ensures MaxVersion(rows, g) > 0 ==> exists r :: r in rows && r.event.agg == g && r.event.version == MaxVersion(rows, g)
  {
    if rows != [] {
      var init, last := rows[..|rows| - 1], rows[|rows| - 1];
      assert rows == init + [last];
      MaxIsHighest(init, g);
      if MaxVersion(rows, g) > 0 {
        if last.event.agg == g && last.event.version > MaxVersion(init, g) {
          assert last in rows;
        } else {
          var r :| r in init && r.event.agg == g && r.event.version == MaxVersion(init, g);
          assert r in rows;
        }
      }
    }
  }

  // ---- pruning ----

  /** The aggregate has no rows, or its highest one stays. */
  ghost predicate HeadStays(rows: seq<Row>, before: int, g: Aggregate) {
    MaxVersion(rows, g) == 0
    || exists r :: r in rows && r.event.agg == g && r.event.version == MaxVersion(rows, g) && !Prunable(r, before)
  }

  /** A prune leaves the next version of an aggregate as it was if and only if the highest row stays. */
  lemma PruneKeepsNextIff(rows: seq<Row>, before: int, g: Aggregate)
    ensures MaxVersion(Pruned(rows, before), g) == MaxVersion(rows, g) <==> HeadStays(rows, before, g)
  {
    var kept := Pruned(rows, before);
    PrunedIsPart(rows, before);
    MaxIsHighest(rows, g);
    MaxIsHighest(kept, g);
    if MaxVersion(kept, g) > 0 {
      var r :| r in kept && r.event.agg == g && r.event.version == MaxVersion(kept, g);
      assert r in rows && r.event.version <= MaxVersion(rows, g);
    }
  }

  // ---- the versions of a run ----

  /** The next version of an aggregate is one more than the number of its events so far. */
  ghost predicate Counted(t: Table, g: Aggregate) {
    CountsUp(Of(t.history, g)) && MaxVersion(t.rows, g) == |Of(t.history, g)|
  }

  lemma CountsUpAppend(h: seq<Event>, e: Event)
    requires CountsUp(h)
    ensures CountsUp(h + [e]) <==> e.version == |h| + 1
  {
    assert (h + [e])[|h|] == e;
  }

  lemma CountsUpIff(history: seq<Event>, e: Event)
    requires CountsUp(Of(history, e.agg))
    ensures CountsUp(Of(history + [e], e.agg)) <==> e.version == |Of(history, e.agg)| + 1
  {
    OfAppend(history, e, e.agg);
    CountsUpAppend(Of(history, e.agg), e);
  }

  /** An insertion continues the count if and only if the transaction has read how far it had come. */
  lemma InsertionCountsIff(t: Table, d: Draft, read: nat, at: int) returns (e: Event)
    requires AppendOutcome(t, d, read).Inserted? && CountsUp(Of(t.history, d.agg))
    ensures Append(t, d, read, at).history == t.history + [e] && e.agg == d.agg && e.payload == d.payload
    ensures CountsUp(Of(t.history + [e], d.agg)) <==> read == |Of(t.history, d.agg)|
  {
    e := EventFor(d, read + 1);
    CountsUpIff(t.history, e);
  }

  /** The operation adds an event to the aggregate. */
  predicate Inserts(t: Table, op: Op, g: Aggregate) {
    op.Produce? && op.draft.agg == g && AppendOutcome(t, op.draft, op.read).Inserted?
  }

  lemma InsertsOne(t: Table, op: Op, g: Aggregate)
    ensures Of(Do(t, op).history, g) == Of(t.history, g) + if Inserts(t, op, g) then [EventFor(op.draft, op.read + 1)] else []
  {
    if op.Produce? && AppendOutcome(t, op.draft, op.read).Inserted? {
      OfAppend(t.history, EventFor(op.draft, op.read + 1), g);
      assert Do(t, op).history == t.history + [EventFor(op.draft, op.read + 1)];
    } else {
      assert Do(t, op).history == t.history;
    }
  }

  /** What the lock of the source row gives, and a prune that leaves the highest row. */
  ghost predicate Orderly(t: Table, op: Op, g: Aggregate) {
    (op.Produce? && op.draft.agg == g ==> op.read == MaxVersion(t.rows, g))
    && (op.Prune? ==> HeadStays(t.rows, op.before, g))
  }

  lemma StepCounts(t: Table, op: Op, g: Aggregate)
    requires Counted(t, g) && Orderly(t, op, g)
    ensures Counted(Do(t, op), g)
  {
    InsertsOne(t, op, g);
    if Inserts(t, op, g) {
      CountsUpAppend(Of(t.history, g), EventFor(op.draft, op.read + 1));
    }
    StepMaximum(t, op, g);
  }

  /** In an orderly step the next version moves on exactly by an insertion. */
  lemma StepMaximum(t: Table, op: Op, g: Aggregate)
    requires Orderly(t, op, g)
    ensures MaxVersion(Do(t, op).rows, g) == MaxVersion(t.rows, g) + if Inserts(t, op, g) then 1 else 0
  {
    match op
    case Produce(d, read, at) =>
      if AppendOutcome(t, d, read).Inserted? { MaxAppend(t.rows, Do(t, op).rows[|t.rows|], g); }
    case Prune(before) => PruneKeepsNextIff(t.rows, before, g);
    case _ => MaxPointwise(t.rows, Do(t, op).rows, g);
  }

  /** Throughout the run the aggregate's emissions hold their lock and its highest row is never pruned. */
  ghost predicate HeadKept(ops: seq<Op>, g: Aggregate) {
    ops != [] ==> HeadKept(ops[..|ops| - 1], g) && Orderly(Run(Empty, ops[..|ops| - 1]), ops[|ops| - 1], g)
  }

  ghost predicate ReadsCurrent(ops: seq<Op>, g: Aggregate) {
    ops != [] ==>
      ReadsCurrent(ops[..|ops| - 1], g)
      && var op := ops[|ops| - 1];
         op.Produce? && op.draft.agg == g ==> op.read == MaxVersion(Run(Empty, ops[..|ops| - 1]).rows, g)
  }

  ghost predicate PrunesKeepHead(ops: seq<Op>, g: Aggregate) {
    ops != [] ==>
      PrunesKeepHead(ops[..|ops| - 1], g)
      && var op := ops[|ops| - 1];
         op.Prune? ==> HeadStays(Run(Empty, ops[..|ops| - 1]).rows, op.before, g)
  }

  lemma {:induction false} HeadKeptBy(ops: seq<Op>, g: Aggregate)
    requires ReadsCurrent(ops, g) && PrunesKeepHead(ops, g)
    ensures HeadKept(ops, g)
  {
    if ops != [] {
      HeadKeptBy(ops[..|ops| - 1], g);
    }
  }

  /** Then the aggregate's versions are exactly 1, 2, 3, ... in the order of the insertions. */
  lemma {:induction false} VersionsCountUp(ops: seq<Op>, g: Aggregate)
    requires HeadKept(ops, g)
    ensures Counted(Run(Empty, ops), g)
  {
    if ops != [] {
      VersionsCountUp(ops[..|ops| - 1], g);
      StepCounts(Run(Empty, ops[..|ops| - 1]), ops[|ops| - 1], g);
    }
  }

  /** How many operations of a run added an event to the aggregate. */
  function Insertions(ops: seq<Op>, g: Aggregate): nat {
    if ops == [] then 0
    else Insertions(ops[..|ops| - 1], g) + if Inserts(Run(Empty, ops[..|ops| - 1]), ops[|ops| - 1], g) then 1 else 0
  }

  /** No-ops, conflicts, publishing and pruning consume no version: the next one is one more than the insertions so far. */
  lemma {:induction false} NextVersion(ops: seq<Op>, g: Aggregate)
    requires HeadKept(ops, g)
    ensures MaxVersion(Run(Empty, ops).rows, g) == Insertions(ops, g)
  {
    if ops != [] {
      NextVersion(ops[..|ops| - 1], g);
      StepMaximum(Run(Empty, ops[..|ops| - 1]), ops[|ops| - 1], g);
    }
  }

  // ---- without the lock ----

  /** Every version of the aggregate so far is a business-object row. */
  ghost predicate Dense(t: Table, g: Aggregate) {
    Counted(t, g) && forall v :: 1 <= v <= |Of(t.history, g)| ==> SameObject(t.rows, g, v)
  }

  /** The aggregate is emitted as a business object, from a maximum that was current once, and its rows stay. */
  ghost predicate Overlapping(t: Table, op: Op, g: Aggregate) {
    (op.Produce? && op.draft.agg == g ==> op.draft.identity == BusinessObject && op.read <= MaxVersion(t.rows, g))
    && (op.Prune? ==> forall r :: r in t.rows && r.event.agg == g ==> !Prunable(r, op.before))
  }

  /** An emission that has read an old maximum finds the version taken. */
  lemma StaleReadRefused(t: Table, d: Draft, read: nat)
    requires Dense(t, d.agg) && d.identity == BusinessObject && read < MaxVersion(t.rows, d.agg)
    ensures !AppendOutcome(t, d, read).Inserted?
  {
    assert SameObject(t.rows, d.agg, read + 1);
  }

  lemma SameObjectStays(a: seq<Row>, b: seq<Row>, g: Aggregate, v: nat)
    requires SameObject(a, g, v)
    requires forall r :: r in a && r.event.agg == g ==> exists u :: u in b && u.identity == r.identity && u.event == r.event
    ensures SameObject(b, g, v)
  {
    var i :| 0 <= i < |a| && a[i].identity.BusinessObject? && a[i].event.agg == g && a[i].event.version == v;
    var u :| u in b && u.identity == a[i].identity && u.event == a[i].event;
    var j :| 0 <= j < |b| && b[j] == u;
  }

  lemma RowsStay(t: Table, op: Op, g: Aggregate)
    requires Overlapping(t, op, g)
    ensures forall r :: r in t.rows && r.event.agg == g ==> exists u :: u in Do(t, op).rows && u.identity == r.identity && u.event == r.event
  {
    var rows := Do(t, op).rows;
    forall r | r in t.rows && r.event.agg == g ensures exists u :: u in rows && u.identity == r.identity && u.event == r.event {
      var i :| 0 <= i < |t.rows| && t.rows[i] == r;
      if op.Prune? {
        PrunedIsPart(t.rows, op.before);
        assert r in rows;
      } else {
        assert rows[i] in rows && rows[i].identity == r.identity && rows[i].event == r.event;
      }
    }
  }

  lemma OverlappingIsOrderly(t: Table, op: Op, g: Aggregate)
    requires Dense(t, g) && Overlapping(t, op, g)
    ensures Orderly(t, op, g) || Do(t, op) == t
  {
    if op.Produce? && op.draft.agg == g && op.read < MaxVersion(t.rows, g) {
      StaleReadRefused(t, op.draft, op.read);
    } else if op.Prune? {
      MaxIsHighest(t.rows, g);
      if MaxVersion(t.rows, g) > 0 {
        var r :| r in t.rows && r.event.agg == g && r.event.version == MaxVersion(t.rows, g);
        assert !Prunable(r, op.before);
      }
    }
  }

  lemma StepDense(t: Table, op: Op, g: Aggregate)
    requires Dense(t, g) && Overlapping(t, op, g)
    ensures Dense(Do(t, op), g)
  {
    var u := Do(t, op);
    OverlappingIsOrderly(t, op, g);
    if u != t {
      StepCounts(t, op, g);
      InsertsOne(t, op, g);
      RowsStay(t, op, g);
      forall v | 1 <= v <= |Of(u.history, g)| ensures SameObject(u.rows, g, v) {
        if v <= |Of(t.history, g)| {
          SameObjectStays(t.rows, u.rows, g, v);
        } else {
          assert u.rows[|t.rows|].identity.BusinessObject? && u.rows[|t.rows|].event.agg == g && u.rows[|t.rows|].event.version == v;
        }
      }
    }
  }

  ghost predicate AllOverlapping(ops: seq<Op>, g: Aggregate) {
    ops != [] ==> AllOverlapping(ops[..|ops| - 1], g) && Overlapping(Run(Empty, ops[..|ops| - 1]), ops[|ops| - 1], g)
  }

  /**
   * The unique index alone keeps the count of a business object: while its rows are there, emissions may overlap
   * in any way and work from maxima read at any earlier time.
   */
  lemma {:induction false} IndexCountsUp(ops: seq<Op>, g: Aggregate)
    requires AllOverlapping(ops, g)
    ensures Dense(Run(Empty, ops), g)
  {
    if ops != [] {
      IndexCountsUp(ops[..|ops| - 1], g);
      StepDense(Run(Empty, ops[..|ops| - 1]), ops[|ops| - 1], g);
    }
  }

  /** For log events there is no such index: two emissions that read the same maximum get the same version. */
  lemma OverlappingLogsShareVersion(a: Draft, b: Draft, at: int)
    requires a.identity.EvmLog? && b.identity.EvmLog? && a.agg == b.agg && EvmKey(a.identity) != EvmKey(b.identity)
    ensures Run(Empty, [Produce(a, 0, at), Produce(b, 0, at)]).history == [EventFor(a, 1), EventFor(b, 1)]
  {
    var t := Append(Empty, a, 0, at);
    assert t.rows == [Row(0, a.identity, EventFor(a, 1), Pending, 0, at, None, None, 0)];
    assert !SameLog(t.rows, b.identity) && !HasEvent(t.rows, IdFor(b.identity, b.agg, 1));
    RunTwo(Empty, [Produce(a, 0, at), Produce(b, 0, at)]);
  }

  lemma {:induction false} PositionIn(es: seq<Event>, i: nat, j: nat)
    requires i < j < |es| && es[i].agg == es[j].agg
    ensures exists a, b :: 0 <= a < b < |Of(es, es[i].agg)| && Of(es, es[i].agg)[a] == es[i] && Of(es, es[i].agg)[b] == es[j]
  {
    var init := es[..|es| - 1];
    var g := es[i].agg;
    if j < |init| {
      PositionIn(init, i, j);
      var a, b :| 0 <= a < b < |Of(init, g)| && Of(init, g)[a] == es[i] && Of(init, g)[b] == es[j];
      assert Of(es, g)[a] == es[i] && Of(es, g)[b] == es[j];
    } else {
      InHistory(init, i);
      var a :| 0 <= a < |Of(init, g)| && Of(init, g)[a] == es[i];
      assert Of(es, g)[a] == es[i] && Of(es, g)[|Of(init, g)|] == es[j];
    }
  }

  /** Then no two business-object events share an identity. */
  lemma BusinessIdsDistinct(ops: seq<Op>, i: nat, j: nat)
    requires i < j < |Run(Empty, ops).history| && HeadKept(ops, Run(Empty, ops).history[i].agg)
    requires var h := Run(Empty, ops).history;
             h[i].id == IdFor(BusinessObject, h[i].agg, h[i].version) && h[j].id == IdFor(BusinessObject, h[j].agg, h[j].version)
             && PipeFree(h[i].agg.kind) && PipeFree(h[j].agg.kind)
    ensures Run(Empty, ops).history[i].id != Run(Empty, ops).history[j].id
  {
    var h := Run(Empty, ops).history;
    VersionsCountUp(ops, h[i].agg);
    if h[i].id == h[j].id {
      BusinessKeyInjective(h[i].agg, h[i].version, h[j].agg, h[j].version);
      PositionIn(h, i, j);
      assert false;
    }
  }

  // ---- appending a business object never conflicts ----

  ghost predicate RowKeyed(r: Row) {
    r.event.id == IdFor(r.identity, r.event.agg, r.event.version) && PipeFree(r.event.agg.kind)
  }

  /** Every row carries the identity of its natural key, and no kind holds a bar. */
  ghost predicate Keyed(rows: seq<Row>) {
    forall i :: 0 <= i < |rows| ==> RowKeyed(rows[i])
  }

  lemma PointwiseKeyed(a: seq<Row>, b: seq<Row>)
    requires Keyed(a) && |a| == |b| && forall i :: 0 <= i < |a| ==> b[i].event == a[i].event && b[i].identity == a[i].identity
    ensures Keyed(b)
  {
    forall i | 0 <= i < |b| ensures RowKeyed(b[i]) { assert RowKeyed(a[i]); }
  }

  lemma PrunedKeyed(rows: seq<Row>, before: int)
    requires Keyed(rows)
    ensures Keyed(Pruned(rows, before))
  {
    PrunedIsPart(rows, before);
    var kept := Pruned(rows, before);
    forall i | 0 <= i < |kept| ensures RowKeyed(kept[i]) {
      assert kept[i] in kept && kept[i] in rows;
    }
  }

  lemma AppendKeyed(t: Table, d: Draft, read: nat, at: int)
    requires Keyed(t.rows) && PipeFree(d.agg.kind)
    ensures Keyed(Append(t, d, read, at).rows)
  {
    var rows := Append(t, d, read, at).rows;
    if AppendOutcome(t, d, read).Inserted? {
      assert RowKeyed(rows[|t.rows|]);
      forall i | 0 <= i < |rows| ensures RowKeyed(rows[i]) {
        if i < |t.rows| { assert rows[i] == t.rows[i]; }
      }
    }
  }

  lemma StepKeyed(t: Table, op: Op)
    requires Keyed(t.rows) && (op.Produce? ==> PipeFree(op.draft.agg.kind))
    ensures Keyed(Do(t, op).rows)
  {
    match op
    case Produce(d, read, at) => AppendKeyed(t, d, read, at);
    case Prune(before) => PrunedKeyed(t.rows, before);
    case _ => PointwiseKeyed(t.rows, Do(t, op).rows);
  }

  /** A business object is inserted if and only if its index holds no row at the version after the one that was read. */
  lemma BusinessInsertsIff(t: Table, d: Draft, read: nat)
    requires Keyed(t.rows) && d.identity == BusinessObject && PipeFree(d.agg.kind)
    ensures AppendOutcome(t, d, read) == Inserted(t.nextId, read + 1) <==> !SameObject(t.rows, d.agg, read + 1)
  {
    if !SameObject(t.rows, d.agg, read + 1) {
      forall i | 0 <= i < |t.rows| ensures t.rows[i].event.id != IdFor(d.identity, d.agg, read + 1) {
        var r := t.rows[i];
        assert RowKeyed(r);
        if r.identity.EvmLog? {
          KindsOfKeysApart(r.identity, d.agg, read + 1);
        } else if r.event.id == IdFor(d.identity, d.agg, read + 1) {
          BusinessKeyInjective(r.event.agg, r.event.version, d.agg, read + 1);
          assert SameObject(t.rows, d.agg, read + 1);
        }
      }
    }
  }

  /** Emitting a business object again from the same read is a no-op that returns its version; with other content it is a conflict. */
  lemma BusinessAppendAgain(t: Table, d: Draft, read: nat, at: int, other: Payload)
    requires d.identity == BusinessObject && AppendOutcome(t, d, read).Inserted?
    ensures var u := Append(t, d, read, at);
            AppendOutcome(u, d, read) == Noop(read + 1)
            && (other != d.payload ==> AppendOutcome(u, d.(payload := other), read) == Conflict)
  {
    var u := Append(t, d, read, at);
    assert SameObject(u.rows, d.agg, read + 1) by { assert u.rows[|t.rows|].identity.BusinessObject?; }
    assert ObjectRow(u.rows, d.agg, read + 1) == u.rows[|t.rows|];
  }

  /** What an insertion writes: a pending row with the next id, its marker and its event, due to be claimed at once. */
  lemma InsertedRow(t: Table, d: Draft, read: nat, at: int, now: int)
    requires AppendOutcome(t, d, read).Inserted?
    ensures var u := Append(t, d, read, at);
            |u.rows| == |t.rows| + 1 && u.rows[..|t.rows|] == t.rows
            && var r := u.rows[|t.rows|];
               r.id == t.nextId && r.event == Event(IdFor(d.identity, d.agg, read + 1), d.agg, read + 1, d.payload) && r.attempts == 0
               && (Outbox.Claimable(r, now) <==> at <= now)
               && u.marks == t.marks + {(d.agg, read + 1)} && u.history == t.history + [r.event] && u.nextId == t.nextId + 1 && u.acked == t.acked
  {}

  /** So an emission that holds the lock of its source row is always inserted. */
  lemma BusinessInserts(t: Table, d: Draft)
    requires Keyed(t.rows) && d.identity == BusinessObject && PipeFree(d.agg.kind)
    ensures AppendOutcome(t, d, MaxVersion(t.rows, d.agg)) == Inserted(t.nextId, MaxVersion(t.rows, d.agg) + 1)
  {
    BusinessInsertsIff(t, d, MaxVersion(t.rows, d.agg));
    MaxIsHighest(t.rows, d.agg);
  }

  // ---- appending a log ----

  ghost predicate HashesPipeFree(rows: seq<Row>) {
    forall i :: 0 <= i < |rows| && rows[i].identity.EvmLog? ==> PipeFree(rows[i].identity.block)
  }

  /** A log is inserted if and only if no row holds it; so one whose row was pruned is inserted, under its old identity, again. */
  lemma LogInsertsIff(t: Table, d: Draft, read: nat)
    requires Keyed(t.rows) && HashesPipeFree(t.rows) && d.identity.EvmLog? && PipeFree(d.identity.block)
    ensures AppendOutcome(t, d, read).Inserted? <==> !SameLog(t.rows, d.identity)
  {
    if !SameLog(t.rows, d.identity) {
      forall i | 0 <= i < |t.rows| ensures t.rows[i].event.id != IdFor(d.identity, d.agg, read + 1) {
        var r := t.rows[i];
        assert RowKeyed(r) && r.identity != d.identity;
        if r.identity.BusinessObject? {
          KindsOfKeysApart(d.identity, r.event.agg, r.event.version);
        } else if EvmKey(r.identity) == EvmKey(d.identity) {
          EvmKeyInjective(r.identity, d.identity);
          assert false;
        }
      }
    }
  }

  /** Appending the same log again is a no-op that returns its version; with other content it is a conflict. */
  lemma LogAppendIdempotent(t: Table, d: Draft, read: nat, at: int, again: nat, other: Payload)
    requires d.identity.EvmLog? && AppendOutcome(t, d, read).Inserted?
    ensures var u := Append(t, d, read, at);
            AppendOutcome(u, d, again) == Noop(read + 1)
            && (other != d.payload ==> AppendOutcome(u, d.(payload := other), again) == Conflict)
  {
    var u := Append(t, d, read, at);
    assert u.rows[|t.rows|].identity == d.identity;
    assert SameLog(u.rows, d.identity);
  }

  // ---- pruning the head reuses a version ----

  function Reuse(d: Draft): seq<Op> {
    [Produce(d, 0, 0), ClaimBatch("p", 1, 10, {}, 0), Acknowledge(0), Settle("p", {0}, Ack(0)), Prune(1), Produce(d, 0, 2)]
  }

  lemma PruneOnly(r: Row, before: int)
    requires Prunable(r, before)
    ensures Pruned([r], before) == []
  {
    assert [r][..0] == [];
  }

  lemma ClaimOnly(t: Table, r: Row)
    requires t.rows == [r] && Outbox.Claimable(r, 0)
    ensures Do(t, ClaimBatch("p", 1, 10, {}, 0)) == t.(rows := [Change(Mark(10), r, "p")])
  {
    assert t.rows[..0] == [];
    assert Batch(t.rows, 1, {}, 0) == {r.id};
  }

  function FirstRow(d: Draft): Row {
    Row(0, BusinessObject, EventFor(d, 1), Pending, 0, 0, None, None, 0)
  }

  lemma FirstAppend(d: Draft)
    requires d.identity == BusinessObject
    ensures Append(Empty, d, 0, 0).rows == [FirstRow(d)] && Append(Empty, d, 0, 0).history == [EventFor(d, 1)]
  {}

  lemma AckOnly(t: Table, r: Row)
    requires t.rows == [r] && Held(r, "p") && r.id == 0
    ensures Do(t, Settle("p", {0}, Ack(0))) == t.(rows := [Change(Ack(0), r, "p")])
  {
    assert Applies(Ack(0), r, "p", {0});
    assert Update(t.rows, Ack(0), "p", {0}) == [Change(Ack(0), r, "p")];
  }

  /** The first four operations: one event, claimed and published. */
  lemma PublishedOnce(d: Draft)
    requires d.identity == BusinessObject
    ensures var ops := Reuse(d);
            var t := Do(Do(Do(Do(Empty, ops[0]), ops[1]), ops[2]), ops[3]);
            |t.rows| == 1 && Prunable(t.rows[0], 1) && t.history == [EventFor(d, 1)]
  {
    FirstAppend(d);
    var t := Append(Empty, d, 0, 0);
    ClaimOnly(t, FirstRow(d));
    var claimed := Change(Mark(10), FirstRow(d), "p");
    var u := t.(rows := [claimed], acked := t.acked + {0});
    AckOnly(u, claimed);
  }

  lemma ProducedAgain(t: Table, d: Draft)
    requires d.identity == BusinessObject && |t.rows| == 1 && Prunable(t.rows[0], 1) && t.history == [EventFor(d, 1)]
    ensures Do(Do(t, Prune(1)), Produce(d, 0, 2)).history == [EventFor(d, 1), EventFor(d, 1)]
  {
    assert t.rows == [t.rows[0]];
    PruneOnly(t.rows[0], 1);
  }

  /** Publish, prune and produce again: the second event of the object gets version 1 and the first one's identity. */
  lemma PrunedHeadReusesVersion(d: Draft)
    requires d.identity == BusinessObject
    ensures Run(Empty, Reuse(d)).history == [EventFor(d, 1), EventFor(d, 1)]
  {
    var ops := Reuse(d);
    PublishedOnce(d);
    ProducedAgain(Do(Do(Do(Do(Empty, ops[0]), ops[1]), ops[2]), ops[3]), d);
    RunSix(ops);
  }

  lemma RunSix(ops: seq<Op>)
    requires |ops| == 6
    ensures Run(Empty, ops) == Do(Do(Do(Do(Do(Do(Empty, ops[0]), ops[1]), ops[2]), ops[3]), ops[4]), ops[5])
  {
    RunTwo(Empty, ops[..2]);
    RunTwo(Run(Empty, ops[..2]), ops[2..4]);
    RunTwo(Run(Run(Empty, ops[..2]), ops[2..4]), ops[4..]);
    RunConcat(Empty, ops[..2], ops[2..4]);
    assert ops[..2] + ops[2..4] == ops[..4];
    RunConcat(Empty, ops[..4], ops[4..]);
    assert ops[..4] + ops[4..] == ops;
  }

  lemma RunTwo(t: Table, ops: seq<Op>)
    requires |ops| == 2
    ensures Run(t, ops) == Do(Do(t, ops[0]), ops[1])
  {
    assert ops[..1][..0] == [];
    assert Run(t, ops[..1]) == Do(t, ops[0]);
  }

  lemma {:induction false} RunConcat(t: Table, first: seq<Op>, second: seq<Op>)
    ensures Run(t, first + second) == Run(Run(t, first), second)
    decreases |second|
  {
    if second == [] {
      assert first + second == first;
    } else {
      assert (first + second)[..|first + second| - 1] == first + second[..|second| - 1];
      RunConcat(t, first, second[..|second| - 1]);
    }
  }
}
