/** How long a claim lasts: what renewals, progress and stalls mean for its holder, over whole runs. */
module Leases {
  import opened Vocabulary
  import opened ExecutionRows
  import opened ExecutionSystem
  import opened Fencing
  import opened ExecutionTheorems
  import ExecutionOps

  // ---- one transaction ----

  /** A renewal makes the claim last exactly until `ttl` after it, and neither counts as progress nor changes hands. */
  lemma RenewalLasts(r: Rows, owner: string, lease: nat, at: int, timing: Timing, now: int)
    requires Current(r.claim, owner, lease, at)
    ensures var t := ExecutionOps.Renew(r, owner, lease, at, timing);
            (Current(t.claim, owner, lease, now) <==> now < at + timing.ttl)
            && t.claim.value.heartbeatAt == at && t == r.(claim := t.claim)
            && (Stalled(t.claim.value, now, timing) <==> Stalled(r.claim.value, now, timing))
  {}

  /** The claim is new: it lasts until `ttl` after `at`, stalls from `stall` after it on, and is neither flagged nor ended. */
  ghost predicate Granted(r: Rows, t: Rows, owner: string, at: int, timing: Timing) {
    t.acquired == r.acquired + [owner] && t.claim.Some?
    && var c := t.claim.value;
       c.owner == owner && c.lease == (if r.claim.Some? then r.claim.value.lease + 1 else 1)
       && c.heartbeatAt == at && c.flaggedAt.None? && c.endedAt.None?
       && (forall now :: Current(t.claim, owner, c.lease, now) <==> now < at + timing.ttl)
       && (forall now :: Stalled(c, now, timing) <==> now >= at + timing.stall)
  }

  /** An acquisition is granted if and only if there is no active claim, or it has expired or stalled. */
  lemma AcquisitionLasts(r: Rows, owner: string, at: int, timing: Timing)
    ensures var t := ExecutionOps.Acquire(r, owner, at, timing);
            if r.claim.None? || Claimable(r.claim.value, at, timing)
            then Granted(r, t, owner, at, timing) && t == r.(claim := t.claim, acquired := t.acquired)
            else t == r
  {}

  /** So is a claim; a takeover needs an active claim that has stalled. Each leaves the entry that tells which it was. */
  lemma TakeoverLasts(r: Rows, owner: string, onlyStalled: bool, at: int, timing: Timing)
    ensures var t := ExecutionOps.TakeClaim(r, owner, onlyStalled, at, timing);
            var free := if r.claim.None? then !onlyStalled
                        else if onlyStalled then r.claim.value.status == Active && at - r.claim.value.progressAt >= timing.stall
                        else r.claim.value.status != Active || r.claim.value.expiresAt <= at || at - r.claim.value.progressAt >= timing.stall;
            if free
            then Granted(r, t, owner, at, timing)
                 && t == r.(claim := t.claim, acquired := t.acquired, journal := t.journal)
                 && t.journal == r.journal + [if r.claim.Some? && r.claim.value.status == Active
                                              then ClaimTakenOver(t.claim.value.lease) else ClaimTaken(t.claim.value.lease)]
            else t == r
  {}

  /** Progress puts the stall off until `stall` after it, and extends nothing. */
  lemma ProgressLasts(r: Rows, owner: string, lease: nat, at: int, timing: Timing, now: int)
    requires Current(r.claim, owner, lease, at)
    ensures var t := ExecutionOps.AdvanceProgress(r, owner, lease, at);
            t == r.(claim := t.claim) && t.claim.Some?
            && (Stalled(t.claim.value, now, timing) <==> now >= at + timing.stall)
            && (Current(t.claim, owner, lease, now) <==> Current(r.claim, owner, lease, now))
  {}

  /** A released or revoked claim is over for its holder at once and free for anyone, and tells how and when it ended. */
  lemma EndedForGood(r: Rows, owner: string, lease: nat, evidence: string, at: int, now: int, timing: Timing)
    requires r.claim.Some? && r.claim.value.lease == lease && r.claim.value.status == Active
    ensures r.claim.value.owner == owner ==>
              var t := ExecutionOps.Release(r, owner, lease, at);
              t == r.(claim := t.claim) && t.claim.Some? && Claimable(t.claim.value, now, timing)
              && t.claim.value.status == Released && t.claim.value.endedAt == Some(at)
    ensures evidence != "" ==>
              var t := ExecutionOps.Revoke(r, lease, evidence, at);
              t == r.(claim := t.claim, journal := r.journal + [ClaimRevoked(lease)]) && t.claim.Some?
              && Claimable(t.claim.value, now, timing) && t.claim.value.status == Revoked && t.claim.value.endedAt == Some(at)
  {}

  /** A sweep flags a stalled claim once, with one entry and without touching the qualification; a second one does nothing. */
  lemma SweepFlagsOnce(r: Rows, at: int, later: int, timing: Timing)
    ensures var t := ExecutionOps.Flag(r, at, timing);
            t != r ==> ExecutionOps.Flag(t, later, timing) == t
    ensures var t := ExecutionOps.Flag(r, at, timing);
            if r.claim.Some? && r.claim.value.status == Active && r.claim.value.flaggedAt.None? && at - r.claim.value.progressAt >= timing.stall
            then t == r.(claim := Some(r.claim.value.(flaggedAt := Some(at))), journal := r.journal + [StallFlagged(r.claim.value.lease)])
            else t == r
  {}

  // ---- whole runs ----

  /** An operation that leads from `s` to `t` gives the claim a new expiry: it acquires it, or renews it while it is current. */
  predicate ExtendsLease(s: System, op: Op, t: System) {
    op.OnClaim? && s.issuing.None?
    && (t.rows.acquired != s.rows.acquired || (op.claim.Renew? && Current(s.rows.claim, op.claim.owner, op.claim.lease, op.at)))
  }

  /** It counts as progress of the holder: an acquisition, a progress call, a step that the driver adds or closes. */
  predicate Progresses(s: System, op: Op, t: System) {
    (op.OnDriver? && (op.driver.CommitIssue? || op.driver.Converge?) && t.rows.steps != s.rows.steps)
    || (op.OnClaim? && s.issuing.None?
        && (t.rows.acquired != s.rows.acquired
            || (op.claim.AdvanceProgress? && Current(s.rows.claim, op.claim.owner, op.claim.lease, op.at))))
  }

  /** When it does: the clock of its own transaction. */
  function ProgressTime(s: System, op: Op): int {
    if op.OnDriver? && op.driver.CommitIssue? && s.issuing.Some? then s.issuing.value.at else op.at
  }

  lemma StepExpiry(s: System, op: Op)
    requires Do(s, op).rows.claim.Some?
    ensures if ExtendsLease(s, op, Do(s, op)) then Do(s, op).rows.claim.value.expiresAt == op.at + op.timing.ttl
            else s.rows.claim.Some? && Do(s, op).rows.claim.value.expiresAt == s.rows.claim.value.expiresAt
  {
    match op
    case OnClaim(claim, at, timing) => GrantGrows(s.rows.acquired, claim);
    case OnDriver(driver, at) =>
    case OnReconcile(reconcile, at) =>
    case OnDisplay(display, at) =>
  }

  lemma GrantGrows(owners: seq<string>, claim: ClaimOp)
    ensures claim.Acquire? || claim.TakeClaim? ==> owners + [claim.owner] != owners
  {
    if claim.Acquire? || claim.TakeClaim? { assert |owners + [claim.owner]| != |owners|; }
  }

  lemma StepProgress(s: System, op: Op)
    requires Do(s, op).rows.claim.Some?
    ensures if Progresses(s, op, Do(s, op)) then Do(s, op).rows.claim.value.progressAt == ProgressTime(s, op)
            else s.rows.claim.Some? && Do(s, op).rows.claim.value.progressAt == s.rows.claim.value.progressAt
  {
    match op
    case OnClaim(claim, at, timing) => GrantGrows(s.rows.acquired, claim);
    case OnDriver(driver, at) => DriverProgress(s, driver, at);
    case OnReconcile(reconcile, at) =>
    case OnDisplay(display, at) =>
  }

  lemma DriverProgress(s: System, op: DriverOp, at: int)
    requires DoDriver(s, op, at).rows.claim.Some?
    ensures s.rows.claim.Some?
            && DoDriver(s, op, at).rows.claim.value.progressAt
               == if (op.CommitIssue? || op.Converge?) && DoDriver(s, op, at).rows.steps != s.rows.steps
                  then ProgressTime(s, OnDriver(op, at)) else s.rows.claim.value.progressAt
  {
    match op
    case AdvanceToClaimed(_) =>
    case CheckIssue(_, _, _, _, _, _) =>
    case CommitIssue(result) =>
      var t := DoCommitIssue(s, result);
      if t.rows.steps == s.rows.steps && s.issuing.Some? && !result.RolledBack? {
        IssueAddsStep(s.rows, s.issuing.value);
      }
    case Converge(owner, lease, step, answer, seen) =>
      if s.issuing.None? { ConvergeClosesStep(s.rows, owner, lease, step, answer, seen, at); }
  }

  lemma IssueAddsStep(r: Rows, p: Issuing)
    ensures var t := ExecutionOps.WriteIssue(r, p.owner, p.lease, p.step, p.action, p.seen, p.at);
            t == r || |t.steps| == |r.steps| + 1
  {}

  lemma ConvergeClosesStep(r: Rows, owner: string, lease: nat, step: string, answer: ExecutionOps.Answer, seen: Intent, at: int)
    ensures var t := ExecutionOps.Converge(r, owner, lease, step, answer, seen, at);
            t == r || (t.steps != r.steps && t.claim.Some? && t.claim.value.progressAt == at)
  {
    var t := ExecutionOps.Converge(r, owner, lease, step, answer, seen, at);
    if t != r {
      var k :| 0 <= k < |r.steps| && Matches(r.steps[k], step, Holder(owner, lease));
      assert t.steps[k].state != Issued;
    }
  }

  /** The expiry of the claim is `ttl` after its last acquisition or renewal. */
  lemma {:induction false} ExpiryIs(trace: seq<System>, ops: seq<Op>, i: nat) returns (j: nat)
    requires Behavior(trace, ops) && i <= |ops| && trace[i].rows.claim.Some?
    ensures j < i && ExtendsLease(trace[j], ops[j], trace[j + 1]) && forall k :: j < k < i ==> !ExtendsLease(trace[k], ops[k], trace[k + 1])
    ensures trace[i].rows.claim.value.expiresAt == ops[j].at + ops[j].timing.ttl
  {
    assert i > 0;
    ExpiryAt(trace, ops, i - 1);
    if ExtendsLease(trace[i - 1], ops[i - 1], trace[i]) {
      j := i - 1;
    } else {
      j := ExpiryIs(trace, ops, i - 1);
    }
  }

  lemma ExpiryAt(trace: seq<System>, ops: seq<Op>, i: nat)
    requires Behavior(trace, ops) && i < |ops| && trace[i + 1].rows.claim.Some?
    ensures if ExtendsLease(trace[i], ops[i], trace[i + 1]) then trace[i + 1].rows.claim.value.expiresAt == ops[i].at + ops[i].timing.ttl
            else trace[i].rows.claim.Some? && trace[i + 1].rows.claim.value.expiresAt == trace[i].rows.claim.value.expiresAt
  {
    assert ExecutionTheorems.Step(trace, ops, i);
    StepExpiry(trace[i], ops[i]);
  }

  /** Its progress mark is the time of the last acquisition, progress call, step issued or step closed by the driver. */
  lemma {:induction false} ProgressIs(trace: seq<System>, ops: seq<Op>, i: nat) returns (j: nat)
    requires Behavior(trace, ops) && i <= |ops| && trace[i].rows.claim.Some?
    ensures j < i && Progresses(trace[j], ops[j], trace[j + 1]) && forall k :: j < k < i ==> !Progresses(trace[k], ops[k], trace[k + 1])
    ensures trace[i].rows.claim.value.progressAt == ProgressTime(trace[j], ops[j])
  {
    assert i > 0;
    ProgressAt(trace, ops, i - 1);
    if Progresses(trace[i - 1], ops[i - 1], trace[i]) {
      j := i - 1;
    } else {
      j := ProgressIs(trace, ops, i - 1);
    }
  }

  lemma ProgressAt(trace: seq<System>, ops: seq<Op>, i: nat)
    requires Behavior(trace, ops) && i < |ops| && trace[i + 1].rows.claim.Some?
    ensures if Progresses(trace[i], ops[i], trace[i + 1]) then trace[i + 1].rows.claim.value.progressAt == ProgressTime(trace[i], ops[i])
            else trace[i].rows.claim.Some? && trace[i + 1].rows.claim.value.progressAt == trace[i].rows.claim.value.progressAt
  {
    assert ExecutionTheorems.Step(trace, ops, i);
    StepProgress(trace[i], ops[i]);
  }

  /** The last operation before `i` that extended the lease, and the last that counted as progress. */
  ghost predicate Latest(trace: seq<System>, ops: seq<Op>, i: nat, extended: nat, progressed: nat)
    requires |trace| == |ops| + 1 && i <= |ops|
  {
    extended < i && ExtendsLease(trace[extended], ops[extended], trace[extended + 1])
    && (forall k :: extended < k < i ==> !ExtendsLease(trace[k], ops[k], trace[k + 1]))
    && progressed < i && Progresses(trace[progressed], ops[progressed], trace[progressed + 1])
    && (forall k :: progressed < k < i ==> !Progresses(trace[k], ops[k], trace[k + 1]))
  }

  lemma LatestTells(trace: seq<System>, ops: seq<Op>, i: nat, extended: nat, progressed: nat)
    requires Behavior(trace, ops) && i <= |ops| && trace[i].rows.claim.Some? && Latest(trace, ops, i, extended, progressed)
    ensures trace[i].rows.claim.value.expiresAt == ops[extended].at + ops[extended].timing.ttl
    ensures trace[i].rows.claim.value.progressAt == ProgressTime(trace[progressed], ops[progressed])
  {
    var a := ExpiryIs(trace, ops, i);
    var b := ProgressIs(trace, ops, i);
    assert a == extended;
    assert b == progressed;
  }

  /**
   * While a claim is active, another worker gets it if and only if its last acquisition or renewal is at least `ttl`
   * old or its last progress at least `stall` old, and no issue holds the row; a takeover needs the stall.
   */
  lemma TakenIff(trace: seq<System>, ops: seq<Op>, i: nat, extended: nat, progressed: nat)
    requires Behavior(trace, ops) && i < |ops| && trace[i].rows.claim.Some? && trace[i].rows.claim.value.status == Active
    requires Latest(trace, ops, i, extended, progressed)
    requires ops[i].OnClaim? && (ops[i].claim.Acquire? || ops[i].claim.TakeClaim?)
    ensures var expired := ops[i].at >= ops[extended].at + ops[extended].timing.ttl;
            var stalled := ops[i].at >= ProgressTime(trace[progressed], ops[progressed]) + ops[i].timing.stall;
            Acquired(trace, i) <==>
              trace[i].issuing.None? && if ops[i].claim.TakeClaim? && ops[i].claim.onlyStalled then stalled else expired || stalled
  {
    LatestTells(trace, ops, i, extended, progressed);
    assert ExecutionTheorems.Step(trace, ops, i);
    TakesIff(trace[i], ops[i].claim, ops[i].at, ops[i].timing);
  }

  lemma TakesIff(s: System, claim: ClaimOp, at: int, timing: Timing)
    requires s.rows.claim.Some? && s.rows.claim.value.status == Active && (claim.Acquire? || claim.TakeClaim?)
    ensures var c := s.rows.claim.value;
            Do(s, OnClaim(claim, at, timing)).rows.acquired != s.rows.acquired <==>
              s.issuing.None?
              && if claim.TakeClaim? && claim.onlyStalled then at >= c.progressAt + timing.stall
                 else at >= c.expiresAt || at >= c.progressAt + timing.stall
  {
    GrantGrows(s.rows.acquired, claim);
  }
}
