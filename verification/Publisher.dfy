/**
 * The publisher's code (publisher.go): it claims a batch, hands it to a sink that may report any part
 * of it as acknowledged, failed, both or not at all, and settles every claim by one guarded statement.
 */
module Publisher {
  import opened Vocabulary
  import opened Outbox
  import OutboxTheorems

  datatype FailureClass = Transient | Permanent | Contract

  function ClassName(c: FailureClass): string {
    match c
    case Transient => "transient"
    case Permanent => "permanent"
    case Contract => "contract"
  }

  /** What a sink reports: acknowledged ids and classified failures. */
  datatype Report = Report(acked: set<nat>, failures: map<nat, FailureClass>)

  datatype Counts = Counts(acked: nat, released: nat, blocked: nat)

  function Total(c: Counts): nat {
    c.acked + c.released + c.blocked
  }

  /** The rows an owner holds. */
  function HeldIds(rows: seq<Row>, owner: string): set<nat> {
    set i | 0 <= i < |rows| && Held(rows[i], owner) :: rows[i].id
  }

  /** How many rows in `ids` the owner holds. */
  function CountHeld(rows: seq<Row>, owner: string, ids: set<nat>): nat {
    if rows == [] then 0
    else
      var r := rows[|rows| - 1];
      CountHeld(rows[..|rows| - 1], owner, ids) + if Held(r, owner) && r.id in ids then 1 else 0
  }

  /** Rows are kept in the order of their ids. */
  predicate InOrder(rows: seq<Row>) {
    forall i, j :: 0 <= i < j < |rows| ==> rows[i].id < rows[j].id
  }

  /** What decides a settlement: the sink's report, the backoff drawn for each row, and the time. */
  datatype Ruling = Ruling(report: Report, delays: nat -> nat, at: int)

  /** The statement that settles a claim: an acknowledgement wins over a failure, silence is released at once. */
  function Verdict(ruling: Ruling, id: nat): (st: Statement)
    ensures !st.Mark?
  {
    if id in ruling.report.acked then Ack(ruling.at)
    else if id !in ruling.report.failures then ReleaseNow(ruling.at)
    else if ruling.report.failures[id] == Transient then Release(ruling.at + ruling.delays(id), ClassName(Transient))
    else Block(ClassName(ruling.report.failures[id]))
  }

  /** The claims a report settles; a transient failure of a row that was not claimed is ignored. */
  function Target(records: set<nat>, report: Report): set<nat> {
    records + report.acked + set id | id in report.failures && report.failures[id] != Transient
  }

  const AllClasses := {Transient, Permanent, Contract}

  function InClass(report: Report, c: FailureClass): set<nat> {
    set id | id in report.failures && id !in report.acked && report.failures[id] == c
  }

  /** The failures of these classes that are to be settled: not acknowledged, and claimed if transient. */
  function DueAll(report: Report, records: set<nat>, cls: set<FailureClass>): set<nat> {
    set id | id in report.failures && id !in report.acked && report.failures[id] in cls
             && (report.failures[id] == Transient ==> id in records)
  }

  lemma DueGrows(report: Report, records: set<nat>, cls: set<FailureClass>, c: FailureClass)
    requires c !in cls
    ensures var due := if c == Transient then InClass(report, c) * records else InClass(report, c);
            DueAll(report, records, cls + {c}) == DueAll(report, records, cls) + due
            && DueAll(report, records, cls) !! due
            && (c != Transient ==>
                  DueAll(report, records, cls + {c} - {Transient}) == DueAll(report, records, cls - {Transient}) + due
                  && DueAll(report, records, cls - {Transient}) !! due)
            && (c == Transient ==> DueAll(report, records, cls + {c} - {Transient}) == DueAll(report, records, cls - {Transient}))
  {}

  lemma DueKeys(report: Report, records: set<nat>, cls: set<FailureClass>)
    requires forall id :: id in report.failures && id !in report.acked ==> report.failures[id] in cls
    ensures DueAll(report, records, cls) == DueAll(report, records, AllClasses)
    ensures DueAll(report, records, cls - {Transient}) == DueAll(report, records, AllClasses - {Transient})
  {}

  /** Every held row in `done` was changed by its verdict, once; nothing else was changed. */
  ghost predicate SettledBy(before: seq<Row>, rows: seq<Row>, owner: string, done: set<nat>, ruling: Ruling) {
    |rows| == |before|
    && forall i :: 0 <= i < |rows| ==>
         rows[i] == if Held(before[i], owner) && before[i].id in done then Change(Verdict(ruling, before[i].id), before[i], owner) else before[i]
  }

  /** The columns of a claimed row after its settlement, by what the sink said about it. */
  ghost predicate SettledRow(before: Row, row: Row, report: Report, delays: nat -> nat, at: int) {
    var free := before.(lease := None);
    if before.id in report.acked then row == free.(state := Published, publishedAt := at)
    else if before.id !in report.failures then row == free.(nextAt := at)
    else
      match report.failures[before.id]
      case Transient => row == free.(nextAt := at + delays(before.id), errorClass := Some("transient"))
      case Permanent => row == free.(state := Blocked, errorClass := Some("permanent"))
      case Contract => row == free.(state := Blocked, errorClass := Some("contract"))
  }

  /** Exactly the held rows that were claimed, acknowledged or reported as failed for good are settled, each by what was said. */
  ghost predicate AllSettled(before: seq<Row>, rows: seq<Row>, owner: string, records: set<nat>, report: Report, delays: nat -> nat, at: int) {
    |rows| == |before|
    && forall i :: 0 <= i < |rows| ==>
         var r := before[i];
         if r.state == Pending && r.lease.Some? && r.lease.value.owner == owner
            && (r.id in records || r.id in report.acked || (r.id in report.failures && report.failures[r.id] != Transient))
         then SettledRow(r, rows[i], report, delays, at) else rows[i] == r
  }

  lemma SettledColumns(before: seq<Row>, rows: seq<Row>, owner: string, records: set<nat>, report: Report, delays: nat -> nat, at: int)
    requires SettledBy(before, rows, owner, Target(records, report), Ruling(report, delays, at))
    ensures AllSettled(before, rows, owner, records, report, delays, at)
  {
    forall i | 0 <= i < |rows| && Held(before[i], owner) && before[i].id in Target(records, report)
      ensures SettledRow(before[i], rows[i], report, delays, at) {
      assert rows[i] == Change(Verdict(Ruling(report, delays, at), before[i].id), before[i], owner);
    }
  }

  /** One more statement settles what was not settled before and leaves the rest. */
  lemma StatementSettles(before: seq<Row>, rows: seq<Row>, owner: string, done: set<nat>, ruling: Ruling,
                         st: Statement, ids: set<nat>)
    requires SettledBy(before, rows, owner, done, ruling) && !st.Mark?
    requires forall id :: id in ids && id !in done ==> Verdict(ruling, id) == st
    ensures SettledBy(before, Update(rows, st, owner, ids), owner, done + ids, ruling)
  {
    forall i | 0 <= i < |rows|
      ensures Update(rows, st, owner, ids)[i]
           == if Held(before[i], owner) && before[i].id in done + ids then Change(Verdict(ruling, before[i].id), before[i], owner) else before[i] {
    }
  }

  /** What is settled once is not counted again. */
  lemma {:induction false} CountAdds(before: seq<Row>, rows: seq<Row>, owner: string, done: set<nat>, ruling: Ruling, ids: set<nat>)
    requires SettledBy(before, rows, owner, done, ruling)
    ensures CountHeld(rows, owner, ids) + CountHeld(before, owner, done) == CountHeld(before, owner, done + ids)
  {
    if rows != [] {
      var k := |rows| - 1;
      CountAdds(before[..k], rows[..k], owner, done, ruling, ids);
    }
  }

  lemma {:induction false} CountApart(rows: seq<Row>, owner: string, a: set<nat>, b: set<nat>)
    requires a !! b
    ensures CountHeld(rows, owner, a + b) == CountHeld(rows, owner, a) + CountHeld(rows, owner, b)
  {
    if rows != [] {
      CountApart(rows[..|rows| - 1], owner, a, b);
    }
  }

  lemma {:induction false} CountDrops(rows: seq<Row>, owner: string, ids: set<nat>, id: nat)
    requires forall i :: 0 <= i < |rows| ==> rows[i].id != id
    ensures CountHeld(rows, owner, ids) == CountHeld(rows, owner, ids - {id})
  {
    if rows != [] {
      CountDrops(rows[..|rows| - 1], owner, ids, id);
    }
  }

  /** If all of `ids` are held, all of them are counted. */
  lemma {:induction false} CountAll(rows: seq<Row>, owner: string, ids: set<nat>)
    requires InOrder(rows) && ids <= HeldIds(rows, owner)
    ensures CountHeld(rows, owner, ids) == |ids|
  {
    if rows == [] {
      assert ids == {};
    } else {
      var k := |rows| - 1;
      var init, last := rows[..k], rows[k];
      var rest := ids - {last.id};
      forall id | id in rest ensures id in HeldIds(init, owner) {
        var i :| 0 <= i < |rows| && Held(rows[i], owner) && rows[i].id == id;
        assert init[i] == rows[i];
      }
      CountAll(init, owner, rest);
      CountDrops(init, owner, ids, last.id);
      if last.id in ids {
        var i :| 0 <= i < |rows| && Held(rows[i], owner) && rows[i].id == last.id;
        assert i == k;
      }
    }
  }

  /** The report names only claimed rows: as acknowledged, failed, both or not at all. */
  predicate SpeaksOf(report: Report, records: set<nat>) {
    report.acked <= records && report.failures.Keys <= records
  }

  /** While the owner holds every claim of a batch and the report speaks of nothing else, all of it is accounted for. */
  lemma AllClaimsAccounted(rows: seq<Row>, owner: string, records: set<nat>, report: Report)
    requires InOrder(rows) && records <= HeldIds(rows, owner) && SpeaksOf(report, records)
    ensures CountHeld(rows, owner, Target(records, report)) == |records|
  {
    assert Target(records, report) == records;
    CountAll(rows, owner, records);
  }

  /** Every claimed id names a pending row. */
  lemma BatchHeld(rows: seq<Row>, owner: string, limit: nat, locked: set<nat>, at: int, expiresAt: int)
    requires InOrder(rows)
    ensures Batch(rows, limit, locked, at) <= HeldIds(Update(rows, Mark(expiresAt), owner, Batch(rows, limit, locked, at)), owner)
  {
    var ids := Batch(rows, limit, locked, at);
    var marked := Update(rows, Mark(expiresAt), owner, ids);
    forall id | id in ids ensures id in HeldIds(marked, owner) {
      OutboxTheorems.BatchIds(rows, limit, locked, at, id);
      var k :| 0 <= k < |rows| && rows[k].id == id;
      OutboxTheorems.BatchClaimable(rows, limit, locked, at, k);
      assert Held(marked[k], owner);
    }
  }

  /** The claiming select: pending, due, unleased, not locked by another transaction, in id order, at most `limit`. */
  method SelectBatch(rows: seq<Row>, limit: nat, locked: set<nat>, at: int) returns (ids: set<nat>)
    ensures ids == Batch(rows, limit, locked, at) && |ids| <= limit
  {
    ids := {};
    var i := 0;
    assert rows[..0] == [];
    while i < |rows|
      invariant i <= |rows| && |ids| <= limit && ids == Batch(rows[..i], limit, locked, at)
    {
      assert rows[..i + 1][..|rows[..i + 1]| - 1] == rows[..i];
      if |ids| < limit && rows[i].id !in locked && Claimable(rows[i], at) {
        ids := ids + {rows[i].id};
      }
      i := i + 1;
    }
    assert rows[..i] == rows;
  }

  // ---- a settlement is a run of the table ----

  /** A table of which only the rows matter. */
  function Bare(rows: seq<Row>): Table {
    Empty.(rows := rows)
  }

  /** A settling statement of this owner that marks as published nothing but `acked`. */
  predicate Says(op: Op, owner: string, acked: set<nat>) {
    op.Settle? && op.owner == owner && (op.statement.Ack? ==> op.ids <= acked)
  }

  /** The statements lead from `before` to `rows`. */
  ghost predicate Issued(before: seq<Row>, rows: seq<Row>, ops: seq<Op>, owner: string, acked: set<nat>) {
    Run(Bare(before), ops) == Bare(rows) && forall k :: 0 <= k < |ops| ==> Says(ops[k], owner, acked)
  }

  lemma IssueMore(before: seq<Row>, rows: seq<Row>, ops: seq<Op>, owner: string, acked: set<nat>, st: Statement, ids: set<nat>)
    requires Issued(before, rows, ops, owner, acked) && !st.Mark? && (st.Ack? ==> ids <= acked)
    ensures Issued(before, Update(rows, st, owner, ids), ops + [Settle(owner, ids, st)], owner, acked)
  {
    var more := ops + [Settle(owner, ids, st)];
    assert more[..|more| - 1] == ops;
  }

  lemma {:induction false} RowsOnly(t: Table, ops: seq<Op>)
    requires forall k :: 0 <= k < |ops| ==> ops[k].Settle?
    ensures Run(t, ops) == t.(rows := Run(Bare(t.rows), ops).rows)
  {
    if ops != [] {
      RowsOnly(t, ops[..|ops| - 1]);
    }
  }

  lemma {:induction false} SettlesTruthfully(t: Table, ops: seq<Op>, owner: string, acked: set<nat>)
    requires acked <= t.acked && forall k :: 0 <= k < |ops| ==> Says(ops[k], owner, acked)
    ensures AllTruthful(t, ops)
  {
    if ops != [] {
      var init := ops[..|ops| - 1];
      SettlesTruthfully(t, init, owner, acked);
      assert forall k :: 0 <= k < |init| ==> init[k] == ops[k] && Says(init[k], owner, acked);
      RowsOnly(t, init);
    }
  }

  /**
   * What a settlement leaves is a run of its statements on the whole table, and if the sink reported as
   * acknowledged only what the broker had acknowledged, that run is truthful and keeps the table's invariants.
   */
  lemma PublishingIsRun(t: Table, rows: seq<Row>, ops: seq<Op>, owner: string, acked: set<nat>)
    requires Issued(t.rows, rows, ops, owner, acked)
    ensures Run(t, ops) == t.(rows := rows)
    ensures acked <= t.acked ==> AllTruthful(t, ops)
    ensures acked <= t.acked && OutboxTheorems.Sound(t) && OutboxTheorems.Acknowledged(t) ==>
              OutboxTheorems.Sound(t.(rows := rows)) && OutboxTheorems.Acknowledged(t.(rows := rows))
  {
    RowsOnly(t, ops);
    if acked <= t.acked {
      SettlesTruthfully(t, ops, owner, acked);
      if OutboxTheorems.Sound(t) && OutboxTheorems.Acknowledged(t) { OutboxTheorems.RunAcknowledged(t, ops); }
    }
  }

  class Publisher {
    var rows: seq<Row>
    /** The settling statements of the current batch. */
    ghost var issued: seq<Op>
    const owner: string
    const batch: nat
    const ttl: nat

    constructor (rows: seq<Row>, owner: string, batch: nat, ttl: nat)
      requires batch > 0 && ttl > 0 && InOrder(rows)
      ensures this.rows == rows && this.owner == owner && this.batch == batch && this.ttl == ttl
    {
      this.rows, this.owner, this.batch, this.ttl := rows, owner, batch, ttl;
      issued := [];
    }

    /** The select and the mark of one claim transaction. */
    method ClaimBatch(locked: set<nat>, at: int) returns (ids: set<nat>)
      requires InOrder(rows)
      modifies this`rows
      ensures ids == Batch(old(rows), batch, locked, at) && |ids| <= batch
      ensures rows == Update(old(rows), Mark(at + ttl), owner, ids) && InOrder(rows)
      ensures ids <= HeldIds(rows, owner)
    {
      ids := SelectBatch(rows, batch, locked, at);
      BatchHeld(rows, owner, batch, locked, at, at + ttl);
      rows := Update(rows, Mark(at + ttl), owner, ids);
    }

    /** Runs one owner-guarded update and counts the rows it changed. */
    method CountGuardedUpdates(st: Statement, ids: set<nat>) returns (n: nat)
      requires !st.Mark?
      modifies this`rows
      ensures rows == Update(old(rows), st, owner, ids)
      ensures n == CountHeld(old(rows), owner, ids)
    {
      var before := rows;
      n := 0;
      var i := 0;
      assert before[..0] == [];
      while i < |before|
        invariant i <= |before| && |rows| == |before| && n == CountHeld(before[..i], owner, ids)
        invariant forall k :: 0 <= k < i ==> rows[k] == Update(before, st, owner, ids)[k]
        invariant forall k :: i <= k < |before| ==> rows[k] == before[k]
      {
        assert before[..i + 1][..|before[..i + 1]| - 1] == before[..i];
        if before[i].id in ids && Held(before[i], owner) {
          n := n + 1;
          rows := rows[i := Change(st, before[i], owner)];
        }
        i := i + 1;
      }
      assert before[..i] == before;
      assert rows == Update(before, st, owner, ids);
    }

    /** What holds between two statements of a settlement. */
    ghost predicate Settling(before: seq<Row>, done: set<nat>, ruling: Ruling)
      reads this
    {
      SettledBy(before, rows, owner, done, ruling) && Issued(before, rows, issued, owner, ruling.report.acked)
    }

    /** Settles `ids` by one statement, unless the database refuses it. */
    method Settle(st: Statement, ids: set<nat>, fails: bool, ghost before: seq<Row>, ghost done: set<nat>, ghost ruling: Ruling)
      returns (n: nat, ok: bool)
      requires Settling(before, done, ruling) && !st.Mark? && (st.Ack? ==> ids <= ruling.report.acked)
      requires forall id :: id in ids && id !in done ==> Verdict(ruling, id) == st
      modifies this
      ensures ok == !fails
      ensures Settling(before, if ok then done + ids else done, ruling)
      ensures n + CountHeld(before, owner, done) == CountHeld(before, owner, if ok then done + ids else done)
      ensures ok && ids !! done ==> n == CountHeld(before, owner, ids)
    {
      if fails { return 0, false; }
      if ids !! done { CountApart(before, owner, done, ids); }
      CountAdds(before, rows, owner, done, ruling, ids);
      StatementSettles(before, rows, owner, done, ruling, st, ids);
      IssueMore(before, rows, issued, owner, ruling.report.acked, st, ids);
      n := CountGuardedUpdates(st, ids);
      issued := issued + [Op.Settle(owner, ids, st)];
      ok := true;
    }

    /** Groups transient failures by their delay and releases each group by one statement. */
    method ReleaseTransient(ids: set<nat>, delays: nat -> nat, at: int, fails: nat -> bool,
                            ghost before: seq<Row>, ghost done: set<nat>, ghost ruling: Ruling)
      returns (n: nat, ok: bool, ghost settled: set<nat>)
      requires Settling(before, done, ruling)
      requires forall id :: id in ids && id !in done ==> Verdict(ruling, id) == Release(at + delays(id), ClassName(Transient))
      modifies this
      ensures Settling(before, settled, ruling)
      ensures n + CountHeld(before, owner, done) == CountHeld(before, owner, settled)
      ensures ok ==> settled == done + ids
    {
      var groups := GroupByDelay(ids, delays);
      n, ok, settled := 0, true, done;
      var todo := groups.Keys;
      while todo != {}
        invariant todo <= groups.Keys && Settling(before, settled, ruling)
        invariant n + CountHeld(before, owner, done) == CountHeld(before, owner, settled)
        invariant forall id :: id in settled <==> id in done || (id in ids && delays(id) !in todo)
        decreases todo
      {
        var delay :| delay in todo;
        var m, fine := Settle(Release(at + delay, ClassName(Transient)), groups[delay], fails(delay), before, settled, ruling);
        if !fine { return n, false, settled; }
        n := n + m;
        settled := settled + groups[delay];
        todo := todo - {delay};
      }
      assert settled == done + ids;
    }

    /** Settles the failures of one class: transient ones of claimed rows are released, others blocked. */
    method SettleClass(c: FailureClass, ids: set<nat>, delays: nat -> nat, at: int, faults: Faults,
                       ghost before: seq<Row>, ghost done: set<nat>, ghost ruling: Ruling)
      returns (n: nat, ok: bool, ghost settled: set<nat>)
      requires Settling(before, done, ruling) && ruling.delays == delays && ruling.at == at && ids !! done
      requires forall id :: id in ids ==> id in ruling.report.failures && id !in ruling.report.acked && ruling.report.failures[id] == c
      modifies this
      ensures Settling(before, settled, ruling)
      ensures n + CountHeld(before, owner, done) == CountHeld(before, owner, settled)
      ensures ok ==> settled == done + ids && n == CountHeld(before, owner, ids)
    {
      CountApart(before, owner, done, ids);
      if c == Transient {
        n, ok, settled := ReleaseTransient(ids, delays, at, faults.release, before, done, ruling);
      } else {
        n, ok := Settle(Block(ClassName(c)), ids, faults.block(c), before, done, ruling);
        settled := if ok then done + ids else done;
      }
    }

    /** Settles the failures of every class, in any order. */
    method SettleFailures(records: set<nat>, report: Report, delays: nat -> nat, at: int, faults: Faults,
                          ghost before: seq<Row>, ghost ruling: Ruling)
      returns (released: nat, blocked: nat, ok: bool, ghost settled: set<nat>)
      requires Settling(before, report.acked, ruling) && ruling == Ruling(report, delays, at)
      modifies this
      ensures Settling(before, settled, ruling)
      ensures released + blocked + CountHeld(before, owner, report.acked) == CountHeld(before, owner, settled)
      ensures ok ==> settled == report.acked + DueAll(report, records, AllClasses)
                     && blocked == CountHeld(before, owner, DueAll(report, records, AllClasses - {Transient}))
    {
      var byClass := SplitByClass(report);
      released, blocked, ok, settled := 0, 0, true, report.acked;
      NothingCounted(before, owner);
      ghost var cls: set<FailureClass> := {};
      assert DueAll(report, records, cls) == {} && DueAll(report, records, cls - {Transient}) == {};
      var todo := byClass.Keys;
      while todo != {}
        invariant todo + cls == byClass.Keys && todo !! cls && ok && Settling(before, settled, ruling)
        invariant settled == report.acked + DueAll(report, records, cls)
        invariant released + blocked + CountHeld(before, owner, report.acked) == CountHeld(before, owner, settled)
        invariant blocked == CountHeld(before, owner, DueAll(report, records, cls - {Transient}))
        decreases todo
      {
        var c :| c in todo;
        var ids := if c == Transient then byClass[c] * records else byClass[c];
        DueGrows(report, records, cls, c);
        ghost var more;
        var n, fine;
        n, fine, more := SettleClass(c, ids, delays, at, faults, before, settled, ruling);
        settled := more;
        if c == Transient { released := released + n; }
        else {
          CountApart(before, owner, DueAll(report, records, cls - {Transient}), ids);
          blocked := blocked + n;
        }
        if !fine { return released, blocked, false, settled; }
        cls, todo := cls + {c}, todo - {c};
      }
      DueKeys(report, records, cls);
    }

    /** Settles a nonempty batch: acknowledgements first, then failures by class, then what was not reported. */
    method SettleBatch(records: set<nat>, report: Report, delays: nat -> nat, at: int, faults: Faults)
      returns (counts: Counts, ok: bool, ghost settled: set<nat>)
      modifies this
      ensures SettledBy(old(rows), rows, owner, settled, Ruling(report, delays, at))
      ensures Issued(old(rows), rows, issued, owner, report.acked)
      ensures Total(counts) == CountHeld(old(rows), owner, settled)
      ensures ok ==> settled == Target(records, report)
                     && counts.acked == CountHeld(old(rows), owner, report.acked)
                     && counts.blocked == CountHeld(old(rows), owner, DueAll(report, records, AllClasses - {Transient}))
    {
      counts, ok, settled := Counts(0, 0, 0), true, {};
      issued := [];
      ghost var before := rows;
      ghost var ruling := Ruling(report, delays, at);
      NothingCounted(rows, owner);

      var n, fine := Settle(Ack(at), report.acked, report.acked != {} && faults.ack, before, settled, ruling);
      if !fine { return counts, false, settled; }
      counts, settled := counts.(acked := n), settled + report.acked;
      assert settled == report.acked;

      var released, blocked;
      released, blocked, fine, settled := SettleFailures(records, report, delays, at, faults, before, ruling);
      counts := counts.(released := released, blocked := blocked);
      if !fine { return counts, false, settled; }

      var unaccounted := set id | id in records && id !in report.acked && id !in report.failures;
      n, fine := Settle(ReleaseNow(at), unaccounted, unaccounted != {} && faults.releaseNow, before, settled, ruling);
      if !fine { return counts, false, settled; }
      counts, settled := counts.(released := released + n), settled + unaccounted;
      TargetParts(records, report, unaccounted);
    }

    /**
     * Delivers a claimed batch and settles it. Whatever the sink reports, every held row of the target
     * is changed once, by its verdict, and counted once; after a database error the counts still say
     * how many rows were settled. `cancelled` is a shutdown before anything reached the sink. What it leaves
     * is a run of its own settling statements, which mark as published nothing but what the sink acknowledged.
     */
    method PublishClaimed(records: set<nat>, cancelled: bool, sink: Report, delays: nat -> nat, at: int, faults: Faults)
      returns (counts: Counts, ok: bool, ghost settled: set<nat>)
      modifies this
      ensures SettledBy(old(rows), rows, owner, settled, Ruling(Effective(cancelled, sink), delays, at))
      ensures Issued(old(rows), rows, issued, owner, Effective(cancelled, sink).acked)
      ensures ok ==> settled == if records == {} then {} else Target(records, Effective(cancelled, sink))
      ensures ok && records != {} ==>
                AllSettled(old(rows), rows, owner, records, if cancelled then Report({}, map[]) else sink, delays, at)
      ensures records == {} ==> ok && rows == old(rows)
      ensures Total(counts) == CountHeld(old(rows), owner, settled)
      ensures ok && records != {} ==> counts.acked == CountHeld(old(rows), owner, Effective(cancelled, sink).acked)
                                      && counts.blocked == CountHeld(old(rows), owner,
                                                                     DueAll(Effective(cancelled, sink), records, AllClasses - {Transient}))
      ensures ok && InOrder(old(rows)) && records <= HeldIds(old(rows), owner) && SpeaksOf(sink, records) ==> Total(counts) == |records|
    {
      if records == {} {
        NothingCounted(rows, owner);
        issued := [];
        return Counts(0, 0, 0), true, {};
      }
      var report := Effective(cancelled, sink);
      if InOrder(rows) && records <= HeldIds(rows, owner) && SpeaksOf(sink, records) {
        AllClaimsAccounted(rows, owner, records, report);
      }
      ghost var before := rows;
      counts, ok, settled := SettleBatch(records, report, delays, at, faults);
      if ok { SettledColumns(before, rows, owner, records, report, delays, at); }
    }
  }

  lemma TargetParts(records: set<nat>, report: Report, unaccounted: set<nat>)
    requires unaccounted == set id | id in records && id !in report.acked && id !in report.failures
    ensures report.acked + DueAll(report, records, AllClasses) + unaccounted == Target(records, report)
  {}

  /** A shutdown before the publish is a report of nothing. */
  function Effective(cancelled: bool, sink: Report): Report {
    if cancelled then Report({}, map[]) else sink
  }

  /** Which statement of a settlement the database refuses. */
  datatype Faults = Faults(ack: bool, release: nat -> bool, block: FailureClass -> bool, releaseNow: bool)

  lemma {:induction false} NothingCounted(rows: seq<Row>, owner: string)
    ensures CountHeld(rows, owner, {}) == 0
  {
    if rows != [] {
      NothingCounted(rows[..|rows| - 1], owner);
    }
  }

  /** The failures that are not acknowledged as well, by class. */
  method SplitByClass(report: Report) returns (byClass: map<FailureClass, set<nat>>)
    ensures forall c :: c in byClass ==> byClass[c] == InClass(report, c)
    ensures forall id :: id in report.failures && id !in report.acked ==> report.failures[id] in byClass
  {
    byClass := map[];
    var todo := report.failures.Keys;
    while todo != {}
      invariant todo <= report.failures.Keys
      invariant forall c, id :: c in byClass ==>
                  (id in byClass[c] <==> id in report.failures && id !in todo && id !in report.acked && report.failures[id] == c)
      invariant forall id :: id in report.failures && id !in todo && id !in report.acked ==> report.failures[id] in byClass
      decreases todo
    {
      var id :| id in todo;
      var c := report.failures[id];
      if id !in report.acked {
        byClass := byClass[c := (if c in byClass then byClass[c] else {}) + {id}];
      }
      todo := todo - {id};
    }
  }

  method GroupByDelay(ids: set<nat>, delays: nat -> nat) returns (groups: map<nat, set<nat>>)
    ensures forall id :: id in ids ==> delays(id) in groups
    ensures forall d, id :: d in groups ==> (id in groups[d] <==> id in ids && delays(id) == d)
  {
    groups := map[];
    var todo := ids;
    while todo != {}
      invariant todo <= ids
      invariant forall id :: id in ids && id !in todo ==> delays(id) in groups
      invariant forall d, id :: d in groups ==> (id in groups[d] <==> id in ids && id !in todo && delays(id) == d)
      decreases todo
    {
      var id :| id in todo;
      var d := delays(id);
      groups := groups[d := (if d in groups then groups[d] else {}) + {id}];
      todo := todo - {id};
    }
  }
}
