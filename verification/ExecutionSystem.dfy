/**
 * One intent's rows under any number of workers, reconcilers and operators. An operation is one
 * committed transaction (or one read of a reconcile in progress); `Run` is any interleaving of them.
 * A crash is an operation that never comes, a rolled back transaction changes nothing, and a commit
 * reported as an error has happened although its caller stops there.
 */
module ExecutionSystem {
  import opened Vocabulary
  import opened ExecutionRows
  import opened Reconciler
  import ExecutionOps

  /** How far one reconcile has come. `seen` is the intent it read first. */
  datatype Stage =
    | Reading
    | SawStep(open: Option<string>)
    | SawFacts(open: Option<string>, facts: Facts)
    | Acting(open: Option<string>, facts: Facts, checkedAt: nat, todo: seq<Task>)

  datatype Session = Session(seen: Intent, owner: string, lease: nat, stage: Stage)

  /** A step-issue transaction between its checks and its commit; `checkedAt` is how long the journal was then. */
  datatype Issuing = Issuing(owner: string, lease: nat, step: string, action: Action, seen: Intent, at: int, checkedAt: nat)

  /** `issuing` holds the lock of the claim row, so there is at most one, and whoever needs that row waits for it. */
  datatype System = System(rows: Rows, sessions: map<nat, Session>, issuing: Option<Issuing>)

  datatype ClaimOp =
    | Acquire(owner: string)
    | TakeClaim(owner: string, onlyStalled: bool)
    | Renew(owner: string, lease: nat)
    | AdvanceProgress(owner: string, lease: nat)
    | Release(owner: string, lease: nat)
    | Revoke(lease: nat, evidence: string)
    | Flag

  datatype DriverOp =
    | AdvanceToClaimed(lease: nat)
    | CheckIssue(owner: string, lease: nat, step: string, action: Action, gates: bool, seen: Intent)
    | CommitIssue(result: CommitResult)
    | Converge(owner: string, lease: nat, step: string, answer: ExecutionOps.Answer, seen: Intent)

  datatype ReconcileOp =
    | Begin(session: nat, owner: string, lease: nat)
    | ReadStep(session: nat)
    | ReadFacts(session: nat, facts: Option<Facts>)
    | Decide(session: nat)
    | Act(session: nat, result: CommitResult)

  datatype DisplayOp =
    | Revise(seen: Intent, revision: nat, attempt: string, chainFact: bool)
    | ObserveRevision(revision: nat, attempt: string)
    | Refresh(authority: Option<(string, nat)>)
    | ShowState(seen: Intent)

  datatype Op =
    | OnClaim(claim: ClaimOp, at: int, timing: Timing)
    | OnDriver(driver: DriverOp, at: int)
    | OnReconcile(reconcile: ReconcileOp, at: int)
    | OnDisplay(display: DisplayOp, at: int)

  function Start(): System {
    System(Fresh(), map[], None)
  }

  /** The pair (state, version) is one the intent really had: what a read, however late, can return. */
  predicate WasIntent(r: Rows, seen: Intent) {
    1 <= seen.version && seen.version - 1 <= |Moves(r.journal)|
    && Rebuild(Moves(r.journal)[..seen.version - 1]) == Some(seen.state)
  }

  function DoClaim(r: Rows, op: ClaimOp, at: int, timing: Timing): Rows {
    match op
    case Acquire(owner) => ExecutionOps.Acquire(r, owner, at, timing)
    case TakeClaim(owner, onlyStalled) => ExecutionOps.TakeClaim(r, owner, onlyStalled, at, timing)
    case Renew(owner, lease) => ExecutionOps.Renew(r, owner, lease, at, timing)
    case AdvanceProgress(owner, lease) => ExecutionOps.AdvanceProgress(r, owner, lease, at)
    case Release(owner, lease) => ExecutionOps.Release(r, owner, lease, at)
    case Revoke(lease, evidence) => ExecutionOps.Revoke(r, lease, evidence, at)
    case Flag => ExecutionOps.Flag(r, at, timing)
  }

  function DoCheckIssue(s: System, owner: string, lease: nat, step: string, action: Action, gates: bool, seen: Intent, at: int): System {
    if s.issuing.Some? || !ExecutionOps.MayIssue(s.rows, owner, lease, gates, seen, at) then s
    else s.(issuing := Some(Issuing(owner, lease, step, action, seen, at, |s.rows.journal|)))
  }

  function DoCommitIssue(s: System, result: CommitResult): System {
    match s.issuing
    case None => s
    case Some(p) =>
      var ended := s.(issuing := None);
      if result.RolledBack? then ended
      else ended.(rows := ExecutionOps.WriteIssue(s.rows, p.owner, p.lease, p.step, p.action, p.seen, p.at))
  }

  function DoDriver(s: System, op: DriverOp, at: int): System {
    match op
    case AdvanceToClaimed(lease) => s.(rows := ExecutionOps.AdvanceToClaimed(s.rows, lease))
    case CheckIssue(owner, lease, step, action, gates, seen) =>
      DoCheckIssue(s, owner, lease, step, action, gates, seen, at)
    case CommitIssue(result) => DoCommitIssue(s, result)
    case Converge(owner, lease, step, answer, seen) =>
      if s.issuing.Some? then s
      else s.(rows := ExecutionOps.Converge(s.rows, owner, lease, step, answer, seen, at))
  }

  function DoDisplay(r: Rows, op: DisplayOp, at: int): Rows {
    match op
    case Revise(seen, revision, attempt, chainFact) => ExecutionOps.Revise(r, seen, revision, attempt, chainFact)
    case ObserveRevision(revision, attempt) =>
      if revision <= AppliedRevision(r.journal) then r else ExecutionOps.Observe(r, revision, attempt)
    case Refresh(authority) => ExecutionOps.Refresh(r, authority, at)
    case ShowState(seen) =>
      if WasIntent(r, seen) then r.(display := ExecutionRows.ShowState(r.display, seen.state, seen.version)) else r
  }

  /** Session `k` has a task to run. */
  predicate Acts(s: System, k: nat) {
    k in s.sessions && s.sessions[k].stage.Acting? && s.sessions[k].stage.todo != []
  }

  function DoAct(s: System, k: nat, result: CommitResult): System
    requires Acts(s, k)
  {
    var x := s.sessions[k];
    var done := Perform(s.rows, x.seen, x.lease, x.stage.todo[0]);
    match result
    case RolledBack => s.(sessions := s.sessions - {k})
    case Ambiguous => s.(rows := done, sessions := s.sessions - {k})
    case Reported =>
      s.(rows := done, sessions := s.sessions[k := x.(stage := x.stage.(todo := Rest(s.rows, x.stage.todo)))])
  }

  function DoReconcile(s: System, op: ReconcileOp, at: int): System {
    if op.Begin? then
      s.(sessions := s.sessions[op.session := Session(s.rows.intent, op.owner, op.lease, Reading)])
    else if op.session !in s.sessions then s
    else
      var x := s.sessions[op.session];
      match op
      case ReadStep(k) =>
        if x.stage.Reading? then s.(sessions := s.sessions[k := x.(stage := SawStep(OpenStep(s.rows.steps)))]) else s
      case ReadFacts(k, facts) =>
        if !x.stage.SawStep? then s
        else if facts.None? then
          s.(rows := s.rows.(display := MarkStale(s.rows.display, at)), sessions := s.sessions - {k})
        else
          s.(rows := s.rows.(display := ShowLifecycle(s.rows.display, facts.value.current, facts.value.revision)),
             sessions := s.sessions[k := x.(stage := SawFacts(x.stage.open, facts.value))])
      case Decide(k) =>
        if !x.stage.SawFacts? then s
        else
          var f := x.stage.facts;
          var todo := Plan(x.seen, x.stage.open, f, FreezeSeen(f, s.rows.journal), x.owner);
          s.(sessions := s.sessions[k := x.(stage := Acting(x.stage.open, f, |s.rows.journal|, todo))])
      case Act(k, result) => if Acts(s, k) then DoAct(s, k, result) else s
      case _ => s
  }

  function Do(s: System, op: Op): System {
    match op
    case OnClaim(claim, at, timing) => if s.issuing.Some? then s else s.(rows := DoClaim(s.rows, claim, at, timing))
    case OnDriver(driver, at) => DoDriver(s, driver, at)
    case OnReconcile(reconcile, at) => DoReconcile(s, reconcile, at)
    case OnDisplay(display, at) => s.(rows := DoDisplay(s.rows, display, at))
  }

  function Run(s: System, ops: seq<Op>): System {
    if ops == [] then s else Do(Run(s, ops[..|ops| - 1]), ops[|ops| - 1])
  }

  lemma RunSnoc(s: System, ops: seq<Op>, op: Op)
    ensures Run(s, ops + [op]) == Do(Run(s, ops), op)
  {
    assert (ops + [op])[..|ops + [op]| - 1] == ops;
  }

  /** Later operations extend the run. */
  lemma {:induction false} RunConcat(s: System, first: seq<Op>, second: seq<Op>)
    ensures Run(s, first + second) == Run(Run(s, first), second)
    decreases |second|
  {
    if second == [] {
      assert first + second == first;
    } else {
      var init := second[..|second| - 1];
      assert (first + second)[..|first + second| - 1] == first + init;
      RunConcat(s, first, init);
    }
  }

  // ---- reading the journal back ----

  datatype Hop = Hop(from: IntentState, to: IntentState)

  /** The transitions a journal records, oldest first. */
  function Moves(j: seq<Entry>): seq<Hop> {
    if j == [] then []
    else
      var e := j[|j| - 1];
      Moves(j[..|j| - 1]) + if e.StateMoved? then [Hop(e.from, e.to)] else []
  }

  /** The transitions an outbox stream announces, oldest first. */
  function Announced(p: seq<Payload>): seq<Hop> {
    if p == [] then []
    else
      var e := p[|p| - 1];
      Announced(p[..|p| - 1]) + if e.StateChanged? then [Hop(e.from, e.to)] else []
  }

  /** Replays transitions from `admitted`; None when one does not start where the last one ended or is illegal. */
  function Rebuild(hops: seq<Hop>): Option<IntentState> {
    if hops == [] then Some(Admitted)
    else
      var h := hops[|hops| - 1];
      if Rebuild(hops[..|hops| - 1]) == Some(h.from) && Classify(h.from, h.to) != NoEdge then Some(h.to) else None
  }

  function Openings(j: seq<Entry>, id: string): nat {
    if j == [] then 0
    else
      var e := j[|j| - 1];
      Openings(j[..|j| - 1], id) + if e.StepOpened? && e.step == id then 1 else 0
  }

  function Closings(j: seq<Entry>, id: string): nat {
    if j == [] then 0
    else
      var e := j[|j| - 1];
      Closings(j[..|j| - 1], id) + if e.StepClosed? && e.step == id then 1 else 0
  }
}
