/**
 * The calls of the execution store, each as a function of its tables, for any number of intents. Whatever
 * sequence of calls is made, every intent's rows are where some run of `ExecutionSystem` leads.
 */
module StoreCalls {
  import opened Vocabulary
  import opened ExecutionRows
  import opened ExecutionRuns
  import opened Reconciler
  import Execution = ExecutionSystem
  import ExecutionOps
  import ExecutionSoundness

  /** The rows of every intent, and the issue transactions in flight, each of which locks its intent's claim row. */
  datatype Tables = Tables(rows: map<string, Rows>, issuing: map<string, Execution.Issuing>)

  datatype Call =
    | Admit(intent: string)
    | OfClaim(intent: string, claim: Execution.ClaimOp, at: int, result: CommitResult)
    | Sweep(at: int)
    | OfDriver(intent: string, driver: Execution.DriverOp, at: int)
    | OfConverge(intent: string, owner: string, lease: nat, step: string, answer: ExecutionOps.Answer, seen: Intent, at: int, result: CommitResult)
    | OfReconcile(intent: string, owner: string, lease: nat, facts: Option<Facts>, at: int)
    | OfDisplay(intent: string, display: Execution.DisplayOp, at: int, result: CommitResult)
    | CatchUp

  function InFlight(t: Tables, intent: string): Option<Execution.Issuing> {
    if intent in t.issuing then Some(t.issuing[intent]) else None
  }

  /** What a transaction that leads to `after` leaves behind. */
  function Published(rows: map<string, Rows>, intent: string, after: Rows, result: CommitResult): map<string, Rows> {
    if result == RolledBack then rows else rows[intent := after]
  }

  function AfterDriver(t: Tables, intent: string, op: Execution.DriverOp, at: int): Tables
    requires intent in t.rows
  {
    var s := Execution.DoDriver(Execution.System(t.rows[intent], map[], InFlight(t, intent)), op, at);
    Tables(t.rows[intent := s.rows], if s.issuing.Some? then t.issuing[intent := s.issuing.value] else t.issuing - {intent})
  }

  /** A call on an unknown intent does nothing; one that needs a locked claim row does nothing while it waits. */
  function After(t: Tables, call: Call, timing: Timing): Tables {
    match call
    case Admit(i) => if i in t.rows then t else t.(rows := t.rows[i := Fresh()])
    case OfClaim(i, claim, at, result) =>
      if i !in t.rows || i in t.issuing then t
      else t.(rows := Published(t.rows, i, Execution.DoClaim(t.rows[i], claim, at, timing), result))
    case Sweep(at) =>
      if t.issuing != map[] then t else t.(rows := map i | i in t.rows :: ExecutionOps.Flag(t.rows[i], at, timing))
    case OfDriver(i, driver, at) => if i !in t.rows then t else AfterDriver(t, i, driver, at)
    case OfConverge(i, owner, lease, step, answer, seen, at, result) =>
      if i !in t.rows || i in t.issuing then t
      else t.(rows := Published(t.rows, i, ExecutionOps.Converge(t.rows[i], owner, lease, step, answer, seen, at), result))
    case OfReconcile(i, owner, lease, facts, at) =>
      if i !in t.rows then t else t.(rows := t.rows[i := Reconcile(t.rows[i], owner, lease, facts, at)])
    case OfDisplay(i, display, at, result) =>
      if i !in t.rows then t else t.(rows := Published(t.rows, i, Execution.DoDisplay(t.rows[i], display, at), result))
    case CatchUp =>
      t.(rows := map i | i in t.rows :: t.rows[i].(display := ShowState(t.rows[i].display, t.rows[i].intent.state, t.rows[i].intent.version)))
  }

  function AfterAll(calls: seq<Call>, timing: Timing): Tables {
    if calls == [] then Tables(map[], map[]) else After(AfterAll(calls[..|calls| - 1], timing), calls[|calls| - 1], timing)
  }

  /** The call concerns this intent: it names it, or it goes over all of them. */
  predicate Concerns(call: Call, intent: string) {
    call.Sweep? || call.CatchUp? || call.intent == intent
  }

  /** A call leaves every other intent alone. */
  lemma CallFrames(t: Tables, call: Call, timing: Timing, i: string)
    requires !Concerns(call, i)
    ensures var u := After(t, call, timing);
            (i in u.rows <==> i in t.rows) && (i in t.rows ==> u.rows[i] == t.rows[i]) && InFlight(u, i) == InFlight(t, i)
  {}

  /** A call on one intent extends its run by what it does. */
  lemma CallExtends(t: Tables, call: Call, timing: Timing, i: string, ops: seq<Execution.Op>) returns (more: seq<Execution.Op>)
    requires i in t.rows && EndsAt(ops, t.rows[i], InFlight(t, i)) && Concerns(call, i)
    ensures var u := After(t, call, timing); i in u.rows && EndsAt(ops + more, u.rows[i], InFlight(u, i))
  {
    more := [];
    assert ops + [] == ops;
    match call
    case Admit(_) =>
    case OfClaim(_, claim, at, result) =>
      if i !in t.issuing && result != RolledBack {
        more := [Execution.OnClaim(claim, at, timing)];
        ClaimExtends(ops, t.rows[i], claim, at, timing);
      }
    case Sweep(at) =>
      if t.issuing == map[] {
        more := [Execution.OnClaim(Execution.Flag, at, timing)];
        ClaimExtends(ops, t.rows[i], Execution.Flag, at, timing);
      }
    case OfDriver(_, driver, at) =>
      more := [Execution.OnDriver(driver, at)];
      DriverExtends(ops, t.rows[i], InFlight(t, i), driver, at);
    case OfConverge(_, owner, lease, step, answer, seen, at, result) =>
      if i !in t.issuing && result != RolledBack {
        more := [Execution.OnDriver(Execution.Converge(owner, lease, step, answer, seen), at)];
        DriverExtends(ops, t.rows[i], None, Execution.Converge(owner, lease, step, answer, seen), at);
      }
    case OfReconcile(_, owner, lease, facts, at) =>
      more := ReconcileExtends(ops, t.rows[i], InFlight(t, i), owner, lease, facts, at);
    case OfDisplay(_, display, at, result) =>
      if result != RolledBack {
        more := [Execution.OnDisplay(display, at)];
        DisplayExtends(ops, t.rows[i], InFlight(t, i), display, at);
      }
    case CatchUp =>
      more := [Execution.OnDisplay(Execution.ShowState(t.rows[i].intent), 0)];
      CatchUpExtends(ops, t.rows[i], InFlight(t, i), 0);
  }

  /** Every sequence of calls is a run: what it leaves of an intent is where a run of that intent's system ends. */
  lemma {:induction false} CallsAreRuns(calls: seq<Call>, timing: Timing, i: string) returns (ops: seq<Execution.Op>)
    requires i in AfterAll(calls, timing).rows
    ensures var t := AfterAll(calls, timing); EndsAt(ops, t.rows[i], InFlight(t, i))
  {
    ops := [];
    if calls != [] {
      var init, call := calls[..|calls| - 1], calls[|calls| - 1];
      var t := AfterAll(init, timing);
      if i in t.rows {
        ops := CallsAreRuns(init, timing, i);
        if Concerns(call, i) {
          var more := CallExtends(t, call, timing, i, ops);
          ops := ops + more;
        } else {
          CallFrames(t, call, timing, i);
        }
      } else {
        NothingInFlight(init, timing, i);
      }
    }
  }

  /** Only an intent that was admitted has an issue in flight. */
  lemma {:induction false} NothingInFlight(calls: seq<Call>, timing: Timing, i: string)
    ensures var t := AfterAll(calls, timing); i in t.issuing ==> i in t.rows
  {
    if calls != [] {
      NothingInFlight(calls[..|calls| - 1], timing, i);
    }
  }

  /** So after any calls the rows of every intent satisfy the invariant of all runs. */
  lemma CallsKeepRows(calls: seq<Call>, timing: Timing, i: string)
    requires i in AfterAll(calls, timing).rows
    ensures ExecutionSoundness.RowsSound(AfterAll(calls, timing).rows[i])
  {
    var t := AfterAll(calls, timing);
    var ops := CallsAreRuns(calls, timing, i);
    EndIsSound(ops, t.rows[i], InFlight(t, i));
  }
}
