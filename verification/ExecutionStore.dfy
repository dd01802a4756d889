/**
 * The execution tables as the worker's code drives them. A method is one database transaction (or a
 * short sequence of them): it works on its own copy of an intent's rows, statement by statement, and
 * publishes the copy when it commits. Each method is proved against the call of `StoreCalls` it makes.
 */
module ExecutionStore {
  import opened Vocabulary
  import opened ExecutionRows
  import opened Reconciler
  import opened StoreCalls
  import Execution = ExecutionSystem
  import ExecutionOps

  datatype Outcome<T> = Ok(value: T) | ClaimLost | Missing | NoEvidence | DatabaseError

  /** The mark of a stall sweep, before its event. */
  function FlagRow(r: Rows, at: int): Rows {
    if r.claim.Some? then r.(claim := Some(r.claim.value.(flaggedAt := Some(at)))) else r
  }

  datatype Taken = Taken(version: nat, acquired: bool, takenOver: bool)

  /** The advancer's reply: an error that may pass, or an answer. */
  datatype Reply = Unavailable | Answered(answer: ExecutionOps.Answer)

  /** An answer that is not asked for again; the class "unavailable" is. */
  predicate Definite(reply: Reply) {
    reply.Answered? && ExecutionOps.ClassOf(reply.answer) != "unavailable"
  }

  /** A reply after which the same step is asked for again: an error that may pass, or the class "unavailable". */
  predicate AskedAgain(reply: Reply) {
    match reply
    case Unavailable => true
    case Answered(NoSend) => false
    case Answered(Classed(class_, _)) => class_ == "unavailable"
  }

  function FirstDefinite(replies: seq<Reply>, limit: nat): Option<ExecutionOps.Answer> {
    if limit == 0 || replies == [] then None
    else if Definite(replies[0]) then Some(replies[0].answer)
    else FirstDefinite(replies[1..], limit - 1)
  }

  class Store {
    var rows: map<string, Rows>
    /** The issue transactions between their checks and their commit; each holds the lock of its claim row. */
    var issuing: map<string, Execution.Issuing>
    const timing: Timing

    function State(): Tables
      reads this
    {
      Tables(rows, issuing)
    }

    constructor (ttl: nat, stall: nat)
      requires 0 < ttl < stall
      ensures State() == Tables(map[], map[]) && timing == Timing(ttl, stall)
    {
      rows, issuing := map[], map[];
      timing := Timing(ttl, stall);
    }

    // ---- admit.go ----

    /** Admits an intent once. */
    method Admit(intent: string) returns (admitted: bool)
      modifies this`rows
      ensures State() == After(old(State()), Call.Admit(intent), timing) && admitted == (intent !in old(rows))
    {
      admitted := intent !in rows;
      if admitted { rows := rows[intent := Fresh()]; }
    }

    // ---- claim.go (a statement on a locked claim row waits for the lock) ----

    method Acquire(intent: string, owner: string, at: int, result: CommitResult) returns (r: Outcome<Option<nat>>)
      requires intent !in issuing
      modifies this`rows
      ensures State() == After(old(State()), OfClaim(intent, Execution.Acquire(owner), at, result), timing)
      ensures intent !in old(rows) ==> r == Missing && rows == old(rows)
      ensures intent in old(rows) ==>
                rows == Published(old(rows), intent, ExecutionOps.Acquire(old(rows)[intent], owner, at, timing), result)
      ensures intent in old(rows) && result == Reported ==>
                r == Ok(if rows[intent].acquired == old(rows)[intent].acquired then None else Some(rows[intent].claim.value.lease))
      ensures r.Ok? && r.value.Some? ==>
                forall now :: Current(rows[intent].claim, owner, r.value.value, now) <==> now < at + timing.ttl
    {
      if intent !in rows { return Missing; }
      var work := rows[intent];
      var version: Option<nat> := None;
      match work.claim {
        case None =>
          work := work.(claim := Some(Claim(owner, 1, Active, at + timing.ttl, at, at, None, None)),
                        acquired := work.acquired + [owner]);
          version := Some(1);
        case Some(c) =>
          if c.status != Active || c.expiresAt <= at || at - c.progressAt >= timing.stall {
            work := work.(claim := Some(Claim(owner, c.lease + 1, Active, at + timing.ttl, at, at, None, None)),
                          acquired := work.acquired + [owner]);
            version := Some(c.lease + 1);
          }
      }
      if result != RolledBack { rows := rows[intent := work]; }
      r := if result == Reported then Ok(version) else DatabaseError;
    }

    /** Claim and Takeover. */
    method ClaimTx(intent: string, owner: string, onlyStalled: bool, at: int, result: CommitResult) returns (r: Outcome<Taken>)
      requires intent !in issuing
      modifies this`rows
      ensures State() == After(old(State()), OfClaim(intent, Execution.TakeClaim(owner, onlyStalled), at, result), timing)
      ensures intent !in old(rows) ==> r == Missing && rows == old(rows)
      ensures intent in old(rows) ==>
                rows == Published(old(rows), intent, ExecutionOps.TakeClaim(old(rows)[intent], owner, onlyStalled, at, timing), result)
      ensures r.Ok? ==> intent in old(rows) && r.value.acquired == (rows[intent].acquired != old(rows)[intent].acquired)
      ensures r.Ok? && r.value.acquired ==>
                rows[intent].claim.Some? && r.value.version == rows[intent].claim.value.lease
                && rows[intent].claim.value.owner == owner
                && (r.value.takenOver <==> old(rows)[intent].claim.Some? && old(rows)[intent].claim.value.status == Active)
                && forall now :: Current(rows[intent].claim, owner, r.value.version, now) <==> now < at + timing.ttl
    {
      if intent !in rows { return Missing; }
      var work := rows[intent];
      var taken := Taken(0, false, false);
      if work.claim.None? {
        if !onlyStalled {
          work := work.(claim := Some(Claim(owner, 1, Active, at + timing.ttl, at, at, None, None)),
                        acquired := work.acquired + [owner]);
          work := work.(journal := work.journal + [ClaimTaken(1)]);
          taken := Taken(1, true, false);
        }
      } else {
        var c := work.claim.value;
        var expired, stalled := c.expiresAt <= at, at - c.progressAt >= timing.stall;
        var claimable := if onlyStalled then c.status == Active && stalled else c.status != Active || expired || stalled;
        if claimable {
          taken := Taken(c.lease + 1, true, c.status == Active);
          work := work.(claim := Some(Claim(owner, taken.version, Active, at + timing.ttl, at, at, None, None)),
                        acquired := work.acquired + [owner]);
          work := work.(journal := work.journal + [if taken.takenOver then ClaimTakenOver(taken.version) else ClaimTaken(taken.version)]);
        }
      }
      if result != RolledBack { rows := rows[intent := work]; }
      r := if result == Reported || !taken.acquired then Ok(taken) else DatabaseError;
    }

    method Renew(intent: string, owner: string, lease: nat, at: int, result: CommitResult) returns (r: Outcome<()>)
      requires intent !in issuing
      modifies this`rows
      ensures State() == After(old(State()), OfClaim(intent, Execution.Renew(owner, lease), at, result), timing)
      ensures r == ClaimLost <==> intent !in old(rows) || !Current(old(rows)[intent].claim, owner, lease, at)
      ensures r == Ok(()) ==> forall now :: Current(rows[intent].claim, owner, lease, now) <==> now < at + timing.ttl
      ensures intent in old(rows) ==>
                rows == Published(old(rows), intent, ExecutionOps.Renew(old(rows)[intent], owner, lease, at, timing), result)
      ensures intent !in old(rows) ==> rows == old(rows)
    {
      if intent !in rows { return ClaimLost; }
      var work := rows[intent];
      r := ClaimLost;
      if work.claim.Some? {
        var c := work.claim.value;
        if c.owner == owner && c.lease == lease && c.status == Active && at < c.expiresAt {
          work := work.(claim := Some(c.(expiresAt := at + timing.ttl, heartbeatAt := at)));
          r := if result == Reported then Ok(()) else DatabaseError;
        }
      }
      if result != RolledBack { rows := rows[intent := work]; }
    }

    method AdvanceProgress(intent: string, owner: string, lease: nat, at: int) returns (r: Outcome<()>)
      requires intent !in issuing
      modifies this`rows
      ensures State() == After(old(State()), OfClaim(intent, Execution.AdvanceProgress(owner, lease), at, Reported), timing)
      ensures r == (if intent in old(rows) && Current(old(rows)[intent].claim, owner, lease, at) then Ok(()) else ClaimLost)
      ensures rows == if intent in old(rows)
                      then old(rows)[intent := ExecutionOps.AdvanceProgress(old(rows)[intent], owner, lease, at)]
                      else old(rows)
    {
      r := ClaimLost;
      if intent !in rows { return; }
      var work := rows[intent];
      if Current(work.claim, owner, lease, at) {
        work := work.(claim := Some(work.claim.value.(progressAt := at)));
        r := Ok(());
      }
      rows := rows[intent := work];
    }

    method Release(intent: string, owner: string, lease: nat, at: int) returns (r: Outcome<()>)
      requires intent !in issuing
      modifies this`rows
      ensures State() == After(old(State()), OfClaim(intent, Execution.Release(owner, lease), at, Reported), timing)
      ensures rows == if intent in old(rows)
                      then old(rows)[intent := ExecutionOps.Release(old(rows)[intent], owner, lease, at)]
                      else old(rows)
      ensures r == Ok(()) ==> intent in rows && rows[intent].claim.Some? && rows[intent].claim.value.status == Released
      ensures r != Ok(()) ==> r == ClaimLost && rows == old(rows)
    {
      r := ClaimLost;
      if intent !in rows { return; }
      var work := rows[intent];
      if work.claim.Some? {
        var c := work.claim.value;
        if c.owner == owner && c.lease == lease && c.status == Active {
          work := work.(claim := Some(c.(status := Released, endedAt := Some(at))));
          r := Ok(());
        }
      }
      rows := rows[intent := work];
    }

    /** The operator's revocation; without evidence it is an error. */
    method RevokeClaim(intent: string, lease: nat, evidence: string, at: int) returns (r: Outcome<bool>)
      requires intent !in issuing
      modifies this`rows
      ensures State() == After(old(State()), OfClaim(intent, Execution.Revoke(lease, evidence), at, Reported), timing)
      ensures rows == if intent in old(rows)
                      then old(rows)[intent := ExecutionOps.Revoke(old(rows)[intent], lease, evidence, at)]
                      else old(rows)
      ensures r == if evidence == "" then NoEvidence else Ok(rows != old(rows))
    {
      r := if evidence == "" then NoEvidence else Ok(false);
      if intent !in rows { return; }
      var work := rows[intent];
      if evidence != "" && work.claim.Some? && work.claim.value.lease == lease && work.claim.value.status == Active {
        work := work.(claim := Some(work.claim.value.(status := Revoked, endedAt := Some(at))));
        work := work.(journal := work.journal + [ClaimRevoked(lease)]);
        assert |work.journal| != |rows[intent].journal|;
        r := Ok(true);
      }
      rows := rows[intent := work];
    }

    /** One statement marks every stalled claim; then one event is appended per mark. */
    method SweepStalls(at: int) returns (marked: nat)
      requires issuing == map[]
      modifies this`rows
      ensures State() == After(old(State()), Sweep(at), timing)
      ensures rows.Keys == old(rows).Keys && forall i :: i in rows ==> rows[i] == ExecutionOps.Flag(old(rows)[i], at, timing)
      ensures marked == |set i | i in old(rows) && ExecutionOps.Flaggable(old(rows)[i].claim, at, timing)|
    {
      var before := rows;
      var marks := set i | i in rows && ExecutionOps.Flaggable(rows[i].claim, at, timing);
      marked := |marks|;
      var work := map i | i in rows :: if i in marks then FlagRow(rows[i], at) else rows[i];
      var todo := marks;
      while todo != {}
        invariant todo <= marks && work.Keys == before.Keys
        invariant forall i :: i in before && i !in marks ==> work[i] == before[i]
        invariant forall i :: i in marks && i !in todo ==> work[i] == ExecutionOps.Flag(before[i], at, timing)
        invariant forall i :: i in todo ==> work[i] == FlagRow(before[i], at)
        decreases todo
      {
        var i :| i in todo;
        work := work[i := work[i].(journal := work[i].journal + [StallFlagged(work[i].claim.value.lease)])];
        todo := todo - {i};
      }
      rows := work;
    }

    // ---- advance.go ----

    /** The first half of the step-issue transaction: its checks, after which it holds the lock of the claim row. */
    method CheckIssue(intent: string, owner: string, lease: nat, step: string, action: Action, gates: bool, at: int)
      returns (passed: bool)
      requires intent !in issuing
      modifies this`issuing
      ensures State() == After(old(State()), OfDriver(intent, Execution.CheckIssue(owner, lease, step, action, gates,
                                                               if intent in rows then rows[intent].intent else Intent(Admitted, 1)), at), timing)
      ensures passed <==> intent in rows && ExecutionOps.MayIssue(rows[intent], owner, lease, gates, rows[intent].intent, at)
      ensures issuing == if passed
                         then old(issuing)[intent := Execution.Issuing(owner, lease, step, action, rows[intent].intent, at, |rows[intent].journal|)]
                         else old(issuing)
    {
      if intent !in rows { return false; }
      var r := rows[intent];
      if !Current(r.claim, owner, lease, at) { return false; }
      if r.intent.state == Completed || r.intent.state == Failed { return false; }
      if !gates { return false; }
      if Frozen(r.journal) { return false; }
      issuing := issuing[intent := Execution.Issuing(owner, lease, step, action, r.intent, at, |r.journal|)];
      passed := true;
    }

    /** The second half: its statements, on rows that others may have changed in the meantime, and its commit. */
    method CommitIssue(intent: string, result: CommitResult) returns (issued: bool)
      requires intent in issuing && intent in rows
      modifies this`rows, this`issuing
      ensures State() == After(old(State()), OfDriver(intent, Execution.CommitIssue(result), 0), timing)
      ensures issuing == old(issuing) - {intent}
      ensures var p := old(issuing)[intent];
              rows == Published(old(rows), intent,
                                ExecutionOps.WriteIssue(old(rows)[intent], p.owner, p.lease, p.step, p.action, p.seen, p.at), result)
      ensures issued <==> result == Reported && |rows[intent].steps| == |old(rows)[intent].steps| + 1
    {
      var p := issuing[intent];
      var work := rows[intent];
      issued := false;
      if !HasOpen(work.steps) && !HasStep(work.steps, p.step) {
        work := work.(steps := work.steps + [Step(p.step, p.action, Issued, p.owner, p.lease, "", "")]);
        if work.claim.Some? { work := work.(claim := Some(work.claim.value.(progressAt := p.at))); }
        work := work.(journal := work.journal + [StepOpened(p.step, p.lease)]);
        if p.seen.state == Claimed || p.seen.state == Revised {
          work := Move(work, p.seen, Executing, p.lease);
        }
        issued := result == Reported;
      }
      issuing := issuing - {intent};
      if result != RolledBack { rows := rows[intent := work]; }
    }

    /** The step-issue transaction when nothing comes between its halves. */
    method IssueStep(intent: string, owner: string, lease: nat, step: string, action: Action, gates: bool, at: int,
                     result: CommitResult) returns (issued: bool)
      requires intent !in issuing
      modifies this`rows, this`issuing
      ensures issuing == old(issuing)
      ensures intent !in old(rows) ==> rows == old(rows) && !issued
      ensures intent in old(rows) ==>
                rows == Published(old(rows), intent,
                                  ExecutionOps.Issue(old(rows)[intent], owner, lease, step, action, gates, old(rows)[intent].intent, at),
                                  result)
      ensures issued ==> result == Reported && |rows[intent].steps| == |old(rows)[intent].steps| + 1
    {
      var passed := CheckIssue(intent, owner, lease, step, action, gates, at);
      if !passed { return false; }
      issued := CommitIssue(intent, result);
    }

    /** The step-converge transaction, statement by statement; `seen` is the intent it has read. */
    method ConvergeStep(intent: string, owner: string, lease: nat, step: string, answer: ExecutionOps.Answer, seen: Intent,
                        at: int, result: CommitResult) returns (converged: bool)
      requires intent !in issuing
      modifies this`rows
      ensures State() == After(old(State()), OfConverge(intent, owner, lease, step, answer, seen, at, result), timing)
      ensures intent !in old(rows) ==> rows == old(rows) && !converged
      ensures intent in old(rows) ==>
                rows == Published(old(rows), intent,
                                  ExecutionOps.Converge(old(rows)[intent], owner, lease, step, answer, seen, at), result)
      ensures converged ==> result == Reported && ExecutionOps.TerminalFor(answer).Some?
                            && |rows[intent].journal| > |old(rows)[intent].journal|
    {
      if intent !in rows { return false; }
      var terminal := ExecutionOps.TerminalFor(answer);
      var work := rows[intent];
      converged := false;
      if terminal.Some? && Current(work.claim, owner, lease, at) && AnyMatch(work.steps, step, Holder(owner, lease)) {
        var attempt, outcome := ExecutionOps.AttemptOf(answer), ExecutionOps.ClassOf(answer);
        work := work.(steps := CloseSteps(work.steps, step, Holder(owner, lease), terminal.value, attempt, outcome));
        work := work.(claim := Some(work.claim.value.(progressAt := at)));
        work := work.(journal := work.journal + [StepClosed(step, terminal.value, lease)]);
        if terminal.value == Unknown || answer.NoSend? {
          if seen.state == Executing {
            work := Move(work, seen, Reconciling, lease);
          }
          work := work.(journal := work.journal + [Observation(step, ExecutionOps.OUTCOME_OBSERVED + outcome)]);
        }
        converged := result == Reported;
      }
      if result != RolledBack { rows := rows[intent := work]; }
    }

    /**
     * Calls the lifecycle boundary at most `limit` times and converges on its first definite answer. Without
     * one, or when that answer has an unknown class, the step stays issued and the call may be repeated.
     */
    method AdvanceLoop(intent: string, owner: string, lease: nat, step: string, replies: seq<Reply>, limit: nat, seen: Intent,
                       at: int, result: CommitResult) returns (calls: nat, retryable: bool)
      requires intent !in issuing && |replies| >= limit
      modifies this`rows
      ensures calls <= limit && (forall i :: 0 <= i < calls - 1 ==> AskedAgain(replies[i]))
      ensures calls < limit ==> calls > 0 && !AskedAgain(replies[calls - 1])
      ensures FirstDefinite(replies, limit)
           == if calls > 0 && !AskedAgain(replies[calls - 1]) then Some(replies[calls - 1].answer) else None
      ensures retryable <==> match FirstDefinite(replies, limit)
                             case None => true
                             case Some(answer) => ExecutionOps.TerminalFor(answer).None?
      ensures retryable ==> rows == old(rows)
      ensures rows == match FirstDefinite(replies, limit)
                      case None => old(rows)
                      case Some(answer) =>
                        if intent !in old(rows) then old(rows)
                        else Published(old(rows), intent,
                                       ExecutionOps.Converge(old(rows)[intent], owner, lease, step, answer, seen, at), result)
    {
      calls := 0;
      while calls < limit
        invariant calls <= limit && rows == old(rows) && forall i :: 0 <= i < calls ==> AskedAgain(replies[i])
        invariant FirstDefinite(replies, limit) == FirstDefinite(replies[calls..], limit - calls)
      {
        var reply := replies[calls];
        assert replies[calls..][0] == reply && replies[calls..][1..] == replies[calls + 1..];
        calls := calls + 1;
        if Definite(reply) {
          var _ := ConvergeStep(intent, owner, lease, step, reply.answer, seen, at, result);
          return calls, ExecutionOps.TerminalFor(reply.answer).None?;
        }
      }
      retryable := true;
    }

    // ---- reconcile.go ----

    /** Closes an open step from authority facts; an already terminal step is left alone. */
    method CloseOpenStep(intent: string, step: string, state: StepState, attempt: string, outcome: string)
      requires intent in rows
      modifies this`rows
      ensures rows == old(rows)[intent := CloseStep(old(rows)[intent], step, Anyone, state, attempt, outcome, 0)]
    {
      var work := rows[intent];
      if AnyMatch(work.steps, step, Anyone) {
        work := work.(steps := CloseSteps(work.steps, step, Anyone, state, attempt, outcome));
        work := work.(journal := work.journal + [StepClosed(step, state, 0)]);
        rows := rows[intent := work];
      }
    }

    method FactTransition(intent: string, seen: Intent, to: IntentState, lease: nat)
      requires intent in rows
      modifies this`rows
      ensures rows == old(rows)[intent := Perform(old(rows)[intent], seen, lease, Transition(to))]
    {
      var work := rows[intent];
      if Classify(seen.state, to) == NoEdge || seen != work.intent { return; }
      work := work.(intent := Intent(to, seen.version + 1));
      work := work.(journal := work.journal + [StateMoved(seen.state, to, lease)]);
      work := work.(stream := work.stream + [StateChanged(seen.state, to, lease)]);
      work := work.(display := ShowState(work.display, to, seen.version + 1));
      rows := rows[intent := work];
    }

    method Append(intent: string, entry: Entry)
      requires intent in rows
      modifies this`rows
      ensures rows == old(rows)[intent := Note(old(rows)[intent], entry)]
    {
      rows := rows[intent := rows[intent].(journal := rows[intent].journal + [entry])];
    }

    /** Searches the attempts for the current one in a sent state. */
    method IsConfirmedSent(facts: Facts) returns (sent: bool)
      ensures facts.current != "" ==> (sent <==> ConfirmedSent(facts))
    {
      var i := 0;
      while i < |facts.attempts|
        invariant i <= |facts.attempts|
        invariant forall k :: 0 <= k < i ==> !(facts.attempts[k].id == facts.current && SentState(facts.attempts[k].state))
      {
        var a := facts.attempts[i];
        if a.id == facts.current && (a.state == "sent" || a.state == "confirmed" || a.state == "mined" || a.state == "included") {
          return true;
        }
        i := i + 1;
      }
      sent := false;
    }

    /** Reads the authority, with a bounded number of retries. */
    method ReadAuthority(answers: seq<Option<Facts>>, retries: nat) returns (facts: Option<Facts>)
      requires |answers| > retries
      ensures facts == FirstRead(answers, retries + 1)
      ensures facts.None? ==> forall i :: 0 <= i <= retries ==> answers[i].None?
      ensures facts.Some? ==> exists i :: 0 <= i <= retries && answers[i] == facts && forall k :: 0 <= k < i ==> answers[k].None?
    {
      var i := 0;
      while i <= retries
        invariant i <= retries + 1 && forall k :: 0 <= k < i ==> answers[k].None?
        invariant FirstRead(answers, retries + 1) == FirstRead(answers[i..], retries + 1 - i)
      {
        assert answers[i..][0] == answers[i] && answers[i..][1..] == answers[i + 1..];
        if answers[i].Some? { return answers[i]; }
        i := i + 1;
      }
      facts := None;
    }

    method EnsureReconciling(intent: string, seen: Intent, lease: nat)
      requires intent in rows
      modifies this`rows
      ensures rows == old(rows)[intent := PerformAll(old(rows)[intent], seen, lease, Reconciler.EnsureReconciling(seen))]
    {
      if seen.state != Executing && seen.state != Claimed { return; }
      PerformFirst(rows[intent], seen, lease, Transition(Reconciling), []);
      FactTransition(intent, seen, Reconciling, lease);
    }

    method ToExecuting(intent: string, seen: Intent, owner: string, lease: nat)
      requires intent in rows
      modifies this`rows
      ensures rows == old(rows)[intent := PerformAll(old(rows)[intent], seen, lease, Reconciler.ToExecuting(seen, owner))]
    {
      if seen.state != Reconciling || owner == "" { return; }
      PerformFirst(rows[intent], seen, lease, Transition(Executing), []);
      FactTransition(intent, seen, Executing, lease);
    }

    method CompleteIntent(intent: string, seen: Intent, lease: nat)
      requires intent in rows
      modifies this`rows
      ensures rows == old(rows)[intent := PerformAll(old(rows)[intent], seen, lease, Reconciler.CompleteIntent(seen))]
    {
      if seen.state == Completed || Classify(seen.state, Completed) != Fact { return; }
      PerformFirst(rows[intent], seen, lease, Transition(Completed), []);
      FactTransition(intent, seen, Completed, lease);
    }

    method ReconcileFrozen(intent: string, seen: Intent, open: Option<string>, facts: Facts, lease: nat, class_: string)
      requires intent in rows
      modifies this`rows
      ensures rows == old(rows)[intent := PerformAll(old(rows)[intent], seen, lease, PlanFrozen(seen, open, facts, class_))]
    {
      ghost var rest := if open.None? then []
                        else [Close(open.value, Unknown, facts.current, "reconcile_required")] + Reconciler.EnsureReconciling(seen);
      PerformCheck(rows[intent], seen, lease, class_, ConditionOf(facts), rest);
      if !Frozen(rows[intent].journal) {
        Append(intent, Observation("", MarkerDetail(class_, ConditionOf(facts))));
      }
      if open.Some? {
        PerformFirst(rows[intent], seen, lease, rest[0], Reconciler.EnsureReconciling(seen));
        CloseOpenStep(intent, open.value, Unknown, facts.current, "reconcile_required");
        EnsureReconciling(intent, seen, lease);
      }
    }

    method ReconcileWithoutOpenStep(intent: string, seen: Intent, facts: Facts, owner: string, lease: nat)
      requires intent in rows
      modifies this`rows
      ensures rows == old(rows)[intent := PerformAll(old(rows)[intent], seen, lease, PlanWithoutOpen(seen, facts, owner))]
    {
      var sent := false;
      if facts.current != "" { sent := IsConfirmedSent(facts); }
      if sent {
        CompleteIntent(intent, seen, lease);
      } else if facts.unknown.None? && |facts.attempts| == 0 && seen.state == Reconciling {
        ToExecuting(intent, seen, owner, lease);
      }
    }

    method ReconcileOpenStep(intent: string, seen: Intent, step: string, facts: Facts, owner: string, lease: nat)
      requires intent in rows
      modifies this`rows
      ensures rows == old(rows)[intent := PerformAll(old(rows)[intent], seen, lease, PlanWithOpen(seen, step, facts, owner))]
    {
      ghost var todo := PlanWithOpen(seen, step, facts, owner);
      assert todo == [todo[0]] + todo[1..];
      PerformFirst(rows[intent], seen, lease, todo[0], todo[1..]);
      var sent := false;
      if facts.current != "" { sent := IsConfirmedSent(facts); }
      if facts.unknown.Some? {
        CloseOpenStep(intent, step, Unknown, facts.unknown.value.attempt, "reconcile_required");
        EnsureReconciling(intent, seen, lease);
      } else if |facts.attempts| == 0 && facts.current == "" {
        CloseOpenStep(intent, step, Refused, "", "");
        ToExecuting(intent, seen, owner, lease);
      } else if sent {
        CloseOpenStep(intent, step, Converged, facts.current, "sent");
        CompleteIntent(intent, seen, lease);
      } else {
        Append(intent, Observation(step, INCONCLUSIVE + facts.basis));
      }
    }

    /** One reconcile, every transaction of which commits and none of which is overtaken. */
    method ReconcileIntent(intent: string, owner: string, lease: nat, answers: seq<Option<Facts>>, retries: nat, at: int)
      returns (found: bool)
      requires |answers| > retries
      modifies this`rows
      ensures State() == After(old(State()), OfReconcile(intent, owner, lease, FirstRead(answers, retries + 1), at), timing)
      ensures found <==> intent in old(rows)
      ensures rows == if found
                      then old(rows)[intent := Reconcile(old(rows)[intent], owner, lease, FirstRead(answers, retries + 1), at)]
                      else old(rows)
    {
      if intent !in rows { return false; }
      found := true;
      var seen := rows[intent].intent;
      var open := OpenStep(rows[intent].steps);
      var read := ReadAuthority(answers, retries);
      if read.None? {
        rows := rows[intent := rows[intent].(display := MarkStale(rows[intent].display, at))];
        return;
      }
      var facts := read.value;
      rows := rows[intent := rows[intent].(display := ShowLifecycle(rows[intent].display, facts.current, facts.revision))];
      ReconcileBy(intent, seen, open, facts, owner, lease);
    }

    /** The three branches of a reconcile that has read the authority. */
    method ReconcileBy(intent: string, seen: Intent, open: Option<string>, facts: Facts, owner: string, lease: nat)
      requires intent in rows
      modifies this`rows
      ensures rows == old(rows)[intent := PerformAll(old(rows)[intent], seen, lease,
                                                     Plan(seen, open, facts, FreezeSeen(facts, old(rows)[intent].journal), owner))]
    {
      var frozen := FreezeSeen(facts, rows[intent].journal);
      if frozen.Some? {
        ReconcileFrozen(intent, seen, open, facts, lease, frozen.value);
      } else if open.None? {
        ReconcileWithoutOpenStep(intent, seen, facts, owner, lease);
      } else {
        ReconcileOpenStep(intent, seen, open.value, facts, owner, lease);
      }
    }

    // ---- withdrawalworker.go and revision.go ----

    method AdvanceIntentToClaimed(intent: string, lease: nat)
      modifies this`rows
      ensures State() == After(old(State()), OfDriver(intent, Execution.AdvanceToClaimed(lease), 0), timing)
      ensures intent !in old(rows) ==> rows == old(rows)
      ensures intent in old(rows) ==> rows == old(rows)[intent := ExecutionOps.AdvanceToClaimed(old(rows)[intent], lease)]
    {
      if intent !in rows { return; }
      var work := rows[intent];
      if work.intent.state == Admitted {
        var version := work.intent.version;
        work := work.(intent := Intent(Claimed, version + 1));
        work := work.(journal := work.journal + [StateMoved(Admitted, Claimed, lease)]);
        work := work.(stream := work.stream + [StateChanged(Admitted, Claimed, lease)]);
      }
      rows := rows[intent := work];
    }

    /** Consumes one authority revision with the target `revised`; `seen` is the intent read before the transaction. */
    method ApplyRevision(intent: string, seen: Intent, revision: nat, attempt: string, chainFact: bool, result: CommitResult)
      returns (applied: bool)
      modifies this`rows
      ensures State() == After(old(State()), OfDisplay(intent, Execution.Revise(seen, revision, attempt, chainFact), 0, result), timing)
      ensures intent !in old(rows) ==> rows == old(rows) && !applied
      ensures intent in old(rows) ==>
                rows == Published(old(rows), intent, ExecutionOps.Revise(old(rows)[intent], seen, revision, attempt, chainFact), result)
      ensures applied <==> intent in old(rows) && result == Reported && rows[intent].intent != old(rows)[intent].intent
    {
      if intent !in rows { return false; }
      var work := rows[intent];
      applied := false;
      if revision != 0 && revision > AppliedRevision(work.journal) {
        if seen.state == Revised {
          if work.display.lifecycle < revision {
            work := work.(display := AdvanceLifecycle(work.display, attempt, revision));
            work := work.(journal := work.journal + [DisplayRefreshed(revision)]);
          }
        } else if Classify(seen.state, Revised) == Fact && seen == work.intent {
          work := Revisited(work, revision, attempt, chainFact);
          applied := result == Reported;
        }
      }
      if result != RolledBack { rows := rows[intent := work]; }
    }

    /** The statements of a revision that moves the intent. */
    method Revisited(r: Rows, revision: nat, attempt: string, chainFact: bool) returns (work: Rows)
      requires revision > AppliedRevision(r.journal) && r.intent.state != Revised && Classify(r.intent.state, Revised) == Fact
      ensures work == ExecutionOps.Revise(r, r.intent, revision, attempt, chainFact) && work.intent == Intent(Revised, r.intent.version + 1)
    {
      var from := r.intent.state;
      var superseded := |r.stream|;
      work := r.(intent := Intent(Revised, r.intent.version + 1));
      work := work.(journal := work.journal + [StateMoved(from, Revised, 0)]);
      work := work.(stream := work.stream + [StateChanged(from, Revised, 0)]);
      work := work.(journal := work.journal + [RevisionApplied(from, Revised, revision)]);
      if superseded > 0 && chainFact {
        work := work.(stream := work.stream + [RevisedResult(from, Revised, superseded)]);
      }
      work := work.(display := ShowLifecycle(work.display, attempt, revision));
    }

    // ---- projection.go ----

    /** A forced refresh from the authority's answer, or its refusal when there is none. */
    method RefreshProjection(intent: string, authority: Option<(string, nat)>, at: int) returns (found: bool)
      modifies this`rows
      ensures State() == After(old(State()), OfDisplay(intent, Execution.Refresh(authority), at, Reported), timing)
      ensures found <==> intent in old(rows)
      ensures rows == if found then old(rows)[intent := ExecutionOps.Refresh(old(rows)[intent], authority, at)] else old(rows)
    {
      if intent !in rows { return false; }
      var work := rows[intent];
      var d := work.display;
      if authority.None? {
        if d.freshness == Confirmed {
          var since := if d.staleSince.None? then Some(at) else d.staleSince;
          work := work.(display := d.(freshness := PossiblyStale, staleSince := since));
        }
        work := work.(journal := work.journal + [DisplayStale]);
      } else {
        var (attempt, revision) := authority.value;
        if d.lifecycle < revision {
          d := d.(attempt := attempt, lifecycle := revision);
        }
        if d.lifecycle <= revision {
          d := d.(freshness := Confirmed, staleSince := None);
        }
        work := work.(display := d);
        work := work.(journal := work.journal + [DisplayRefreshed(revision)]);
      }
      rows := rows[intent := work];
      found := true;
    }

    /** Brings every display row up to the stored intent state. */
    method CatchUp()
      modifies this`rows
      ensures State() == After(old(State()), Call.CatchUp, timing)
      ensures rows.Keys == old(rows).Keys
      ensures forall i :: i in rows ==>
                rows[i] == old(rows)[i].(display := ShowState(old(rows)[i].display, old(rows)[i].intent.state, old(rows)[i].intent.version))
    {
      var before := rows;
      var todo := rows.Keys;
      while todo != {}
        invariant todo <= before.Keys && rows.Keys == before.Keys
        invariant forall i :: i in todo ==> rows[i] == before[i]
        invariant forall i :: i in before && i !in todo ==>
                    rows[i] == before[i].(display := ShowState(before[i].display, before[i].intent.state, before[i].intent.version))
        decreases todo
      {
        var i :| i in todo;
        rows := rows[i := rows[i].(display := ShowState(rows[i].display, before[i].intent.state, before[i].intent.version))];
        todo := todo - {i};
      }
    }
  }
}
