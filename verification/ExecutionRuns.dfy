/** The runs that lead one intent's rows to where they are, and what one more transaction adds to them. */
module ExecutionRuns {
  import opened Vocabulary
  import opened ExecutionRows
  import opened Reconciler
  import opened ExecutionSystem
  import ExecutionSoundness
  import ExecutionTheorems
  import Freezing

  /** The run ends at these rows, with this issue in flight. */
  ghost predicate EndsAt(ops: seq<Op>, r: Rows, issuing: Option<Issuing>) {
    var s := Run(Start(), ops);
    s.rows == r && s.issuing == issuing
  }

  /** Where a run ends the invariant of the rows holds. */
  lemma EndIsSound(ops: seq<Op>, r: Rows, issuing: Option<Issuing>)
    requires EndsAt(ops, r, issuing)
    ensures ExecutionSoundness.RowsSound(r)
  {
    var trace := ExecutionTheorems.RunIsBehavior(ops);
    ExecutionTheorems.AtSound(trace, ops, |ops|);
  }

  lemma ClaimExtends(ops: seq<Op>, r: Rows, op: ClaimOp, at: int, timing: Timing)
    requires EndsAt(ops, r, None)
    ensures EndsAt(ops + [OnClaim(op, at, timing)], DoClaim(r, op, at, timing), None)
  {
    RunSnoc(Start(), ops, OnClaim(op, at, timing));
  }

  lemma DriverExtends(ops: seq<Op>, r: Rows, issuing: Option<Issuing>, op: DriverOp, at: int)
    requires EndsAt(ops, r, issuing)
    ensures var t := DoDriver(System(r, map[], issuing), op, at); EndsAt(ops + [OnDriver(op, at)], t.rows, t.issuing)
  {
    RunSnoc(Start(), ops, OnDriver(op, at));
  }

  lemma DisplayExtends(ops: seq<Op>, r: Rows, issuing: Option<Issuing>, op: DisplayOp, at: int)
    requires EndsAt(ops, r, issuing)
    ensures EndsAt(ops + [OnDisplay(op, at)], DoDisplay(r, op, at), issuing)
  {
    RunSnoc(Start(), ops, OnDisplay(op, at));
  }

  lemma ReconcileExtends(ops: seq<Op>, r: Rows, issuing: Option<Issuing>, owner: string, lease: nat, facts: Option<Facts>, at: int)
    returns (more: seq<Op>)
    requires EndsAt(ops, r, issuing)
    ensures EndsAt(ops + more, Reconcile(r, owner, lease, facts, at), issuing)
  {
    more := Freezing.WholeIsRun(Run(Start(), ops), 0, owner, lease, facts, at);
    RunConcat(Start(), ops, more);
  }

  /** The display follows the stored state. */
  lemma CatchUpExtends(ops: seq<Op>, r: Rows, issuing: Option<Issuing>, at: int)
    requires EndsAt(ops, r, issuing)
    ensures EndsAt(ops + [OnDisplay(ShowState(r.intent), at)],
                   r.(display := ExecutionRows.ShowState(r.display, r.intent.state, r.intent.version)), issuing)
  {
    EndIsSound(ops, r, issuing);
    var moves := Moves(r.journal);
    assert moves[..r.intent.version - 1] == moves;
    DisplayExtends(ops, r, issuing, DisplayOp.ShowState(r.intent), at);
  }
}
