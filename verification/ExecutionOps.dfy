/**
 * The transactions of the execution worker, each as one guarded function from rows to rows:
 * the claim store, the fenced step driver, the revision consumer and the display refresh.
 * `at` is what `now()` returns in that transaction; nothing below assumes that it moves forward.
 */
module ExecutionOps {
  import opened Vocabulary
  import opened ExecutionRows

  // ---- claim.go ----

  /** The single-statement upsert. */
  function Acquire(r: Rows, owner: string, at: int, timing: Timing): Rows {
    if r.claim.None? || Claimable(r.claim.value, at, timing) then Grant(r, owner, at, timing) else r
  }

  /** Claim and, with `onlyStalled`, Takeover: like Acquire, with the event that records it. */
  function TakeClaim(r: Rows, owner: string, onlyStalled: bool, at: int, timing: Timing): Rows {
    match r.claim
    case None =>
      if onlyStalled then r else Note(Grant(r, owner, at, timing), ClaimTaken(1))
    case Some(c) =>
      var claimable :=
        if onlyStalled then c.status == Active && Stalled(c, at, timing) else Claimable(c, at, timing);
      if !claimable then r
      else if c.status == Active then Note(Grant(r, owner, at, timing), ClaimTakenOver(c.lease + 1))
      else Note(Grant(r, owner, at, timing), ClaimTaken(c.lease + 1))
  }

  function Renew(r: Rows, owner: string, lease: nat, at: int, timing: Timing): Rows {
    if Current(r.claim, owner, lease, at) then
      r.(claim := Some(r.claim.value.(expiresAt := at + timing.ttl, heartbeatAt := at)))
    else r
  }

  function AdvanceProgress(r: Rows, owner: string, lease: nat, at: int): Rows {
    if Current(r.claim, owner, lease, at) then Progress(r, at) else r
  }

  function End(c: Claim, status: ClaimStatus, at: int): Claim {
    c.(status := status, endedAt := Some(at))
  }

  /** A release is fenced by owner and version but not by expiry. */
  function Release(r: Rows, owner: string, lease: nat, at: int): Rows {
    if r.claim.Some? && r.claim.value.owner == owner && r.claim.value.lease == lease
       && r.claim.value.status == Active
    then r.(claim := Some(End(r.claim.value, Released, at)))
    else r
  }

  /** The operator's exact-version disqualification; without evidence it is refused. */
  function Revoke(r: Rows, lease: nat, evidence: string, at: int): Rows {
    if evidence != "" && r.claim.Some? && r.claim.value.lease == lease && r.claim.value.status == Active
    then Note(r.(claim := Some(End(r.claim.value, Revoked, at))), ClaimRevoked(lease))
    else r
  }

  predicate Flaggable(claim: Option<Claim>, at: int, timing: Timing) {
    claim.Some? && claim.value.status == Active && claim.value.flaggedAt.None?
    && Stalled(claim.value, at, timing)
  }

  /** What one stall sweep does to one intent's rows. */
  function Flag(r: Rows, at: int, timing: Timing): Rows {
    if Flaggable(r.claim, at, timing)
    then Note(r.(claim := Some(r.claim.value.(flaggedAt := Some(at)))), StallFlagged(r.claim.value.lease))
    else r
  }

  // ---- the worker's first transition (withdrawalworker.go) ----

  function AdvanceToClaimed(r: Rows, lease: nat): Rows {
    if r.intent.state == Admitted then Move(r, r.intent, Claimed, lease) else r
  }

  // ---- advance.go ----

  /**
   * What the step-issue transaction checks before it writes. `gates` stands for the recovery, grant, scope and
   * binding gates; `seen` is the intent as this transaction read it.
   */
  predicate MayIssue(r: Rows, owner: string, lease: nat, gates: bool, seen: Intent, at: int) {
    Current(r.claim, owner, lease, at) && seen.state != Completed && seen.state != Failed
    && gates && !Frozen(r.journal)
  }

  /**
   * What it writes: the step, unless the index of open steps or the key refuses it, and the transition, unless a
   * concurrent commit has passed the intent it read.
   */
  function WriteIssue(r: Rows, owner: string, lease: nat, id: string, action: Action, seen: Intent, at: int): Rows {
    if HasOpen(r.steps) || HasStep(r.steps, id) then r
    else
      var issued := InsertStep(Progress(r, at), id, action, owner, lease);
      if seen.state == Claimed || seen.state == Revised then Move(issued, seen, Executing, lease) else issued
  }

  /** The whole transaction when nothing commits between its checks and its writes. */
  function Issue(r: Rows, owner: string, lease: nat, id: string, action: Action, gates: bool,
                 seen: Intent, at: int): Rows {
    if MayIssue(r, owner, lease, gates, seen, at) then WriteIssue(r, owner, lease, id, action, seen, at) else r
  }

  /** The classified answer of the lifecycle boundary. */
  datatype Answer = Classed(class_: string, attempt: string) | NoSend

  function StepStateFor(class_: string): Option<StepState> {
    if class_ == "sent" || class_ == "refused_gate" || class_ == "refused_basis" then Some(Converged)
    else if class_ == "pending_unknown" || class_ == "reconcile_required" then Some(Unknown)
    else if class_ == "unavailable" then Some(Issued)
    else None
  }

  /** The terminal state an answer gives its step; None when the answer converges nothing. */
  function TerminalFor(a: Answer): (r: Option<StepState>)
    ensures r.Some? ==> r.value != Issued && OutcomeFits(r.value, ClassOf(a))
  {
    match a
    case NoSend => Some(Refused)
    case Classed(class_, _) =>
      var st := StepStateFor(class_);
      if st == Some(Issued) then None else st
  }

  function ClassOf(a: Answer): string {
    if a.Classed? then a.class_ else ""
  }

  function AttemptOf(a: Answer): string {
    if a.Classed? then a.attempt else ""
  }

  /** Whether the answer leaves the business effect unknown. */
  predicate LeavesUnknown(a: Answer) {
    a.NoSend? || TerminalFor(a) == Some(Unknown)
  }

  const OUTCOME_OBSERVED := "reason=step_outcome class="

  /** The claim-fenced step-converge transaction. */
  function Converge(r: Rows, owner: string, lease: nat, id: string, answer: Answer, seen: Intent, at: int): Rows {
    var terminal := TerminalFor(answer);
    if terminal.None? || !Current(r.claim, owner, lease, at) || !AnyMatch(r.steps, id, Holder(owner, lease))
    then r
    else
      var closed := CloseStep(Progress(r, at), id, Holder(owner, lease), terminal.value, AttemptOf(answer),
                              ClassOf(answer), lease);
      if LeavesUnknown(answer) then
        var moved := if seen.state == Executing then Move(closed, seen, Reconciling, lease) else closed;
        Note(moved, Observation(id, OUTCOME_OBSERVED + ClassOf(answer)))
      else closed
  }

  // ---- revision.go ----

  /**
   * Consumes one authority revision whose target is `revised`. `chainFact` says that the attempt has
   * a block to point to; `seen` is the intent read before the transaction, re-checked by its compare-and-swap.
   */
  function Revise(r: Rows, seen: Intent, revision: nat, attempt: string, chainFact: bool): Rows {
    if revision == 0 || revision <= AppliedRevision(r.journal) then r
    else if seen.state == Revised then Observe(r, revision, attempt)
    else if Classify(seen.state, Revised) != Fact || !CanMove(r, seen, Revised) then r
    else
      var head := |r.stream|;
      var moved := Note(Move(r, seen, Revised, 0), RevisionApplied(seen.state, Revised, revision));
      var emitted :=
        if head > 0 && chainFact then
          moved.(stream := moved.stream + [RevisedResult(seen.state, Revised, head)])
        else moved;
      emitted.(display := ShowLifecycle(emitted.display, attempt, revision))
  }

  /** Moves the display to a strictly newer authority version, recorded once. */
  function Observe(r: Rows, revision: nat, attempt: string): Rows {
    if r.display.lifecycle < revision
    then Note(r.(display := AdvanceLifecycle(r.display, attempt, revision)), DisplayRefreshed(revision))
    else r
  }

  // ---- projection.go ----

  /** A forced refresh: the authority's answer, or None when it is unavailable. */
  function Refresh(r: Rows, facts: Option<(string, nat)>, at: int): Rows {
    match facts
    case Some((attempt, revision)) =>
      Note(r.(display := ShowLifecycle(r.display, attempt, revision)), DisplayRefreshed(revision))
    case None => Note(r.(display := MarkStale(r.display, at)), DisplayStale)
  }
}
