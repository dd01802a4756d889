/** The main results about one intent, for every interleaving of every number of workers and operators. */
module ExecutionTheorems {
  import opened Vocabulary
  import opened ExecutionRows
  import opened Reconciler
  import opened ExecutionSystem
  import opened Edits
  import opened Fencing
  import opened StepJournal
  import opened ExecutionSoundness

  /** One step of a run: from each state to the next by one operation. */
  ghost predicate Step(trace: seq<System>, ops: seq<Op>, i: nat)
    requires |trace| == |ops| + 1 && i < |ops|
  {
    trace[i + 1] == Do(trace[i], ops[i])
  }

  /** A whole run: the states from the admission of the intent on. */
  ghost predicate Behavior(trace: seq<System>, ops: seq<Op>) {
    |trace| == |ops| + 1 && trace[0] == Start() && forall i :: 0 <= i < |ops| ==> Step(trace, ops, i)
  }

  /** Every sequence of operations has its run. */
  lemma {:induction false} RunIsBehavior(ops: seq<Op>) returns (trace: seq<System>)
    ensures Behavior(trace, ops) && trace[|ops|] == Run(Start(), ops)
  {
    if ops == [] {
      trace := [Start()];
    } else {
      var n := |ops| - 1;
      var before := RunIsBehavior(ops[..n]);
      trace := before + [Do(before[n], ops[n])];
      forall i | 0 <= i < |ops| ensures Step(trace, ops, i) {
        if i < n { assert Step(before, ops[..n], i); }
      }
    }
  }

  lemma {:induction false} AtSound(trace: seq<System>, ops: seq<Op>, i: nat)
    requires Behavior(trace, ops) && i <= |ops|
    ensures Sound(trace[i])
  {
    if i == 0 {
      StartSound();
    } else {
      AtSound(trace, ops, i - 1);
      assert Step(trace, ops, i - 1);
      DoKeeps(trace[i - 1], ops[i - 1]);
    }
  }

  lemma StepExtends(trace: seq<System>, ops: seq<Op>, i: nat)
    requires Behavior(trace, ops) && i < |ops|
    ensures Extends(trace[i].rows, trace[i + 1].rows)
  {
    AtSound(trace, ops, i);
    assert Step(trace, ops, i);
    DoKeeps(trace[i], ops[i]);
  }

  /** A later state extends an earlier one. */
  lemma {:induction false} AtLater(trace: seq<System>, ops: seq<Op>, i: nat, j: nat)
    requires Behavior(trace, ops) && i <= j <= |ops|
    ensures Extends(trace[i].rows, trace[j].rows)
    decreases j - i
  {
    if i < j {
      AtLater(trace, ops, i, j - 1);
      StepExtends(trace, ops, j - 1);
      ExtendsTransitive(trace[i].rows, trace[j - 1].rows, trace[j].rows);
    }
  }

  // ---- fencing ----

  /** Operation `i` of the run acquired the claim. */
  predicate Acquired(trace: seq<System>, i: nat)
    requires i + 1 < |trace|
  {
    trace[i + 1].rows.acquired != trace[i].rows.acquired
  }

  /** The lease version in the claim row, which an acquisition returns. */
  function LeaseIn(s: System): nat {
    if s.rows.claim.Some? then s.rows.claim.value.lease else 0
  }

  /** An acquisition hands the next version to the owner that asked for it. */
  lemma AcquisitionGrantsNext(trace: seq<System>, ops: seq<Op>, i: nat)
    requires Behavior(trace, ops) && i < |ops| && Acquired(trace, i)
    ensures ops[i].OnClaim? && (ops[i].claim.Acquire? || ops[i].claim.TakeClaim?)
    ensures trace[i + 1].rows.acquired == trace[i].rows.acquired + [ops[i].claim.owner]
    ensures LeaseIn(trace[i + 1]) == |trace[i].rows.acquired| + 1
  {
    assert Step(trace, ops, i);
    AtSound(trace, ops, i + 1);
    OnlyClaimsAcquire(trace[i], ops[i]);
  }

  lemma OnlyClaimsAcquire(s: System, op: Op)
    requires Do(s, op).rows.acquired != s.rows.acquired
    ensures op.OnClaim? && (op.claim.Acquire? || op.claim.TakeClaim?)
    ensures Do(s, op).rows.acquired == s.rows.acquired + [op.claim.owner]
  {
    match op
    case OnClaim(claim, at, timing) =>
    case OnDriver(driver, at) =>
    case OnReconcile(reconcile, at) =>
    case OnDisplay(display, at) =>
  }

  /** Successive acquisitions return strictly increasing versions. */
  lemma LeasesIncrease(trace: seq<System>, ops: seq<Op>, i: nat, j: nat)
    requires Behavior(trace, ops) && i < j < |ops| && Acquired(trace, i) && Acquired(trace, j)
    ensures LeaseIn(trace[i + 1]) < LeaseIn(trace[j + 1])
  {
    AcquisitionGrantsNext(trace, ops, i);
    AcquisitionGrantsNext(trace, ops, j);
    AtLater(trace, ops, i + 1, j);
  }

  /** The lease version an operation presents as its authority. */
  function Presented(op: Op): Option<nat> {
    match op
    case OnClaim(Renew(_, lease), _, _) => Some(lease)
    case OnClaim(AdvanceProgress(_, lease), _, _) => Some(lease)
    case OnClaim(Release(_, lease), _, _) => Some(lease)
    case OnClaim(Revoke(lease, _), _, _) => Some(lease)
    case OnDriver(CheckIssue(_, lease, _, _, _, _), _) => Some(lease)
    case OnDriver(Converge(_, lease, _, _, _), _) => Some(lease)
    case _ => None
  }

  lemma OldLeaseRefused(s: System, op: Op)
    requires ClaimSound(s.rows) && Presented(op).Some? && Presented(op).value < |s.rows.acquired|
    ensures Do(s, op) == s
  {}

  /** Once a newer version has been acquired, an operation that presents an older one writes nothing at all, ever. */
  lemma FencedOut(trace: seq<System>, ops: seq<Op>, i: nat, j: nat, op: Op)
    requires Behavior(trace, ops) && i < j <= |ops| && Acquired(trace, i)
    requires Presented(op).Some? && Presented(op).value < LeaseIn(trace[i + 1])
    ensures Do(trace[j], op) == trace[j]
  {
    AcquisitionGrantsNext(trace, ops, i);
    AtLater(trace, ops, i + 1, j);
    AtSound(trace, ops, j);
    OldLeaseRefused(trace[j], op);
  }

  /** Operation `j` was the check of this issue transaction: under the claim, with open gates, before any marker. */
  ghost predicate Checked(trace: seq<System>, ops: seq<Op>, j: nat, p: Issuing)
    requires |trace| == |ops| + 1 && j < |ops|
  {
    ops[j].OnDriver? && ops[j].driver.CheckIssue? && ops[j].driver.gates
    && p == Issuing(ops[j].driver.owner, ops[j].driver.lease, ops[j].driver.step, ops[j].driver.action,
                    ops[j].driver.seen, ops[j].at, |trace[j].rows.journal|)
    && Current(trace[j].rows.claim, p.owner, p.lease, p.at) && !Frozen(trace[j].rows.journal)
  }

  /** Every issue transaction in flight has its check in the run. */
  lemma {:induction false} IssueHasCheck(trace: seq<System>, ops: seq<Op>, i: nat) returns (j: nat)
    requires Behavior(trace, ops) && i <= |ops| && trace[i].issuing.Some?
    ensures j < i && Checked(trace, ops, j, trace[i].issuing.value)
  {
    assert i > 0;
    assert Step(trace, ops, i - 1);
    if trace[i - 1].issuing.Some? {
      IssueStays(trace[i - 1], ops[i - 1]);
      j := IssueHasCheck(trace, ops, i - 1);
    } else {
      IssueOpened(trace[i - 1], ops[i - 1]);
      j := i - 1;
    }
  }

  lemma IssueStays(s: System, op: Op)
    requires s.issuing.Some? && Do(s, op).issuing.Some?
    ensures Do(s, op).issuing == s.issuing
  {}

  /** And it holds the newest lease version ever since: nobody can claim the intent under it. */
  lemma IssueHoldsClaim(trace: seq<System>, ops: seq<Op>, i: nat)
    requires Behavior(trace, ops) && i <= |ops| && trace[i].issuing.Some?
    ensures var p := trace[i].issuing.value;
            Current(trace[i].rows.claim, p.owner, p.lease, p.at) && p.lease == |trace[i].rows.acquired|
  {
    AtSound(trace, ops, i);
  }

  /**
   * A step appears only when an issue transaction commits: one that was checked with open gates and no marker, that
   * still holds its claim, and that finds no open step. The step carries that claim's owner and version.
   */
  lemma IssuedUnderClaim(trace: seq<System>, ops: seq<Op>, i: nat) returns (j: nat)
    requires Behavior(trace, ops) && i < |ops| && |trace[i + 1].rows.steps| != |trace[i].rows.steps|
    ensures ops[i].OnDriver? && ops[i].driver.CommitIssue? && trace[i].issuing.Some?
    ensures j < i && Checked(trace, ops, j, trace[i].issuing.value)
    ensures var p := trace[i].issuing.value; Current(trace[i].rows.claim, p.owner, p.lease, p.at)
    ensures !HasOpen(trace[i].rows.steps) && |trace[i + 1].rows.steps| == |trace[i].rows.steps| + 1
    ensures var st, p := trace[i + 1].rows.steps[|trace[i].rows.steps|], trace[i].issuing.value;
            st.id == p.step && st.owner == p.owner && st.lease == p.lease && st.state == Issued
  {
    assert Step(trace, ops, i);
    OnlyIssueAdds(trace[i], ops[i]);
    j := IssueHasCheck(trace, ops, i);
    IssueHoldsClaim(trace, ops, i);
  }

  lemma OnlyIssueAdds(s: System, op: Op)
    requires |Do(s, op).rows.steps| != |s.rows.steps|
    ensures op.OnDriver? && op.driver.CommitIssue? && !op.driver.result.RolledBack? && s.issuing.Some?
    ensures !HasOpen(s.rows.steps) && !HasStep(s.rows.steps, s.issuing.value.step)
    ensures var p := s.issuing.value;
            Do(s, op).rows.steps == s.rows.steps + [ExecutionRows.Step(p.step, p.action, Issued, p.owner, p.lease, "", "")]
  {
    match op
    case OnClaim(claim, at, timing) =>
    case OnDriver(driver, at) =>
    case OnReconcile(reconcile, at) =>
    case OnDisplay(display, at) =>
  }

  // ---- who keeps a claim ----

  predicate Holds(s: System, lease: nat) {
    s.rows.claim.Some? && s.rows.claim.value.lease == lease && s.rows.claim.value.status == Active
  }

  /** The operation ends the holder's qualification: it takes an expired or stalled claim, releases it or revokes it. */
  predicate Displaces(s: System, op: Op) {
    s.rows.claim.Some? && s.issuing.None?
    && match op
       case OnClaim(Acquire(_), at, timing) => Claimable(s.rows.claim.value, at, timing)
       case OnClaim(TakeClaim(_, onlyStalled), at, timing) =>
         if onlyStalled then Stalled(s.rows.claim.value, at, timing) else Claimable(s.rows.claim.value, at, timing)
       case OnClaim(Release(owner, lease), _, _) => owner == s.rows.claim.value.owner && lease == s.rows.claim.value.lease
       case OnClaim(Revoke(lease, evidence), _, _) => evidence != "" && lease == s.rows.claim.value.lease
       case _ => false
  }

  lemma HoldStep(s: System, op: Op, lease: nat)
    requires ClaimSound(s.rows) && lease <= |s.rows.acquired|
    ensures Holds(Do(s, op), lease) <==> Holds(s, lease) && !Displaces(s, op)
  {
    match op
    case OnClaim(claim, at, timing) =>
    case OnDriver(driver, at) =>
    case OnReconcile(reconcile, at) =>
    case OnDisplay(display, at) =>
  }

  /**
   * A holder keeps its claim from `i` to `j` if and only if nothing in between takes it after expiry or a stall,
   * releases it or revokes it; no other worker, reconciler or operator can end it.
   */
  lemma {:induction false} HolderKeptIff(trace: seq<System>, ops: seq<Op>, i: nat, j: nat, lease: nat)
    requires Behavior(trace, ops) && i <= j <= |ops| && Holds(trace[i], lease)
    ensures Holds(trace[j], lease) <==> forall k :: i <= k < j ==> !Displaces(trace[k], ops[k])
    decreases j - i
  {
    if i < j {
      HolderKeptIff(trace, ops, i, j - 1, lease);
      HoldsAt(trace, ops, i, j - 1, lease);
    }
  }

  lemma HoldsAt(trace: seq<System>, ops: seq<Op>, i: nat, j: nat, lease: nat)
    requires Behavior(trace, ops) && i <= j < |ops| && Holds(trace[i], lease)
    ensures Holds(trace[j + 1], lease) <==> Holds(trace[j], lease) && !Displaces(trace[j], ops[j])
  {
    AtSound(trace, ops, i);
    AtSound(trace, ops, j);
    AtLater(trace, ops, i, j);
    HoldStep(trace[j], ops[j], lease);
    assert Step(trace, ops, j);
  }

  // ---- steps and journal ----

  /** One open step at most; one opening per step; one closing, with the row's state, exactly when it is terminal. */
  lemma StepsAndJournalAgree(trace: seq<System>, ops: seq<Op>, i: nat)
    requires Behavior(trace, ops) && i <= |ops|
    ensures OneOpen(trace[i].rows.steps) && AllLogged(trace[i].rows)
  {
    AtSound(trace, ops, i);
  }

  /** Steps are issued in the order of the lease versions, each by the owner of its version. */
  lemma StepsInLeaseOrder(trace: seq<System>, ops: seq<Op>, i: nat)
    requires Behavior(trace, ops) && i <= |ops|
    ensures StepsFenced(trace[i].rows)
  {
    AtSound(trace, ops, i);
  }

  /** No step is recorded as converged with an unknown class, as unknown with a definite one, or refused with any. */
  lemma OutcomesFitStates(trace: seq<System>, ops: seq<Op>, i: nat)
    requires Behavior(trace, ops) && i <= |ops|
    ensures OutcomesFit(trace[i].rows.steps)
  {
    AtSound(trace, ops, i);
  }

  /** A terminal step row never changes again. */
  lemma TerminalForever(trace: seq<System>, ops: seq<Op>, i: nat, j: nat, k: nat)
    requires Behavior(trace, ops) && i <= j <= |ops|
    requires k < |trace[i].rows.steps| && trace[i].rows.steps[k].state != Issued
    ensures k < |trace[j].rows.steps| && trace[j].rows.steps[k] == trace[i].rows.steps[k]
  {
    AtLater(trace, ops, i, j);
    assert StepEvolves(trace[i].rows.steps[k], trace[j].rows.steps[k]);
  }

  /** The step a reconcile has read as the open one. */
  function OpenOf(x: Session): Option<string> {
    if x.stage.Reading? then None else x.stage.open
  }

  lemma OpenComesFrom(s: System, op: Op, k: nat, id: string)
    requires k in Do(s, op).sessions && OpenOf(Do(s, op).sessions[k]) == Some(id)
    ensures (k in s.sessions && OpenOf(s.sessions[k]) == Some(id)) || OpenStep(s.rows.steps) == Some(id)
  {
    match op
    case OnClaim(claim, at, timing) =>
    case OnDriver(driver, at) =>
    case OnReconcile(reconcile, at) =>
    case OnDisplay(display, at) =>
  }

  /** What a reconcile takes for the open step was open when it looked. */
  lemma {:induction false} SawItOpen(trace: seq<System>, ops: seq<Op>, i: nat, k: nat, id: string) returns (j: nat)
    requires Behavior(trace, ops) && i <= |ops| && k in trace[i].sessions && OpenOf(trace[i].sessions[k]) == Some(id)
    ensures j < i && OpenStep(trace[j].rows.steps) == Some(id)
  {
    assert i > 0;
    assert Step(trace, ops, i - 1);
    OpenComesFrom(trace[i - 1], ops[i - 1], k, id);
    if OpenStep(trace[i - 1].rows.steps) == Some(id) {
      j := i - 1;
    } else {
      j := SawItOpen(trace, ops, i - 1, k, id);
    }
  }

  /** The driver closes the step under a current claim of the owner and version that issued it. */
  predicate ClosedByDriver(s: System, op: Op, st: ExecutionRows.Step) {
    op.OnDriver? && op.driver.Converge? && op.driver.step == st.id && op.driver.owner == st.owner && op.driver.lease == st.lease
    && Current(s.rows.claim, st.owner, st.lease, op.at)
  }

  /** A reconcile closes the step. */
  predicate ClosedByReconcile(s: System, op: Op, st: ExecutionRows.Step) {
    op.OnReconcile? && op.reconcile.Act? && Acts(s, op.reconcile.session)
    && s.sessions[op.reconcile.session].stage.todo[0].Close?
    && s.sessions[op.reconcile.session].stage.todo[0].step == st.id
  }

  lemma OnlyTheseClose(s: System, op: Op, k: nat)
    requires k < |s.rows.steps| && s.rows.steps[k].state == Issued
    requires k < |Do(s, op).rows.steps| && Do(s, op).rows.steps[k].state != Issued
    ensures ClosedByDriver(s, op, s.rows.steps[k]) || ClosedByReconcile(s, op, s.rows.steps[k])
  {
    match op
    case OnClaim(claim, at, timing) =>
    case OnDriver(driver, at) =>
    case OnReconcile(reconcile, at) =>
    case OnDisplay(display, at) =>
  }

  /**
   * A step leaves `issued` only by its own issuer's driver under a current claim, or by a reconcile that had seen
   * this very step open.
   */
  lemma StepClosedBy(trace: seq<System>, ops: seq<Op>, i: nat, k: nat) returns (j: nat)
    requires Behavior(trace, ops) && i < |ops| && k < |trace[i].rows.steps| && trace[i].rows.steps[k].state == Issued
    requires k < |trace[i + 1].rows.steps| && trace[i + 1].rows.steps[k].state != Issued
    ensures var st := trace[i].rows.steps[k];
            ClosedByDriver(trace[i], ops[i], st)
            || (ClosedByReconcile(trace[i], ops[i], st) && j < i && OpenStep(trace[j].rows.steps) == Some(st.id))
  {
    assert Step(trace, ops, i);
    OnlyTheseClose(trace[i], ops[i], k);
    j := 0;
    if ClosedByReconcile(trace[i], ops[i], trace[i].rows.steps[k]) {
      AtSound(trace, ops, i);
      assert SessionSound(trace[i].sessions[ops[i].reconcile.session], trace[i].rows.journal);
      j := SawItOpen(trace, ops, i, ops[i].reconcile.session, trace[i].rows.steps[k].id);
    }
  }

  /**
   * Why a reconcile has closed a step: as refused only if its facts hold no unknown and no attempt, as converged only
   * if they list the current attempt as sent, as unknown only if they hold an unknown attempt or a marker stands.
   */
  lemma ClosedForReason(trace: seq<System>, ops: seq<Op>, i: nat, k: nat)
    requires Behavior(trace, ops) && i < |ops| && k < |trace[i].rows.steps| && trace[i].rows.steps[k].state == Issued
    requires k < |trace[i + 1].rows.steps| && trace[i + 1].rows.steps[k].state != Issued
    requires ops[i].OnReconcile?
    ensures ClosedByReconcile(trace[i], ops[i], trace[i].rows.steps[k])
    ensures var facts, st := trace[i].sessions[ops[i].reconcile.session].stage.facts, trace[i + 1].rows.steps[k];
            match st.state
            case Refused => facts.unknown.None? && facts.attempts == [] && facts.current == ""
            case Converged => facts.unknown.None? && ConfirmedSent(facts) && st.attempt == facts.current
            case _ => facts.unknown.Some? || Frozen(trace[i].rows.journal)
  {
    assert Step(trace, ops, i);
    OnlyTheseClose(trace[i], ops[i], k);
    AtSound(trace, ops, i);
    var x := trace[i].sessions[ops[i].reconcile.session];
    assert SessionSound(x, trace[i].rows.journal);
    assert Justified(x.stage.open, x.stage.facts, !Frozen(trace[i].rows.journal[..x.stage.checkedAt]), x.owner, x.stage.todo[0]);
    ClosedAsPlanned(trace[i], ops[i], k);
  }

  lemma ClosedAsPlanned(s: System, op: Op, k: nat)
    requires k < |s.rows.steps| && s.rows.steps[k].state == Issued && ClosedByReconcile(s, op, s.rows.steps[k])
    requires k < |Do(s, op).rows.steps| && Do(s, op).rows.steps[k].state != Issued
    ensures var a, st := s.sessions[op.reconcile.session].stage.todo[0], Do(s, op).rows.steps[k];
            st.state == a.state && st.attempt == a.attempt && st.outcome == a.outcome
  {}

  // ---- the log rebuilds the state ----

  /** The evidence rows are a legal path from `admitted` to the stored state, one per version, and so are the outbox events. */
  lemma LogRebuildsState(trace: seq<System>, ops: seq<Op>, i: nat)
    requires Behavior(trace, ops) && i <= |ops|
    ensures var r := trace[i].rows;
            Rebuild(Moves(r.journal)) == Some(r.intent.state)
            && |Moves(r.journal)| == r.intent.version - 1
            && Announced(r.stream) == Moves(r.journal)
  {
    AtSound(trace, ops, i);
  }

  /** What a successful rebuild says about each transition. */
  lemma {:induction false} RebuildIsPath(hops: seq<Hop>, i: nat)
    requires Rebuild(hops).Some? && i < |hops|
    ensures Classify(hops[i].from, hops[i].to) != NoEdge
    ensures hops[i].from == (if i == 0 then Admitted else hops[i - 1].to)
    ensures Rebuild(hops) == Some(hops[|hops| - 1].to)
  {
    var init := hops[..|hops| - 1];
    if i < |init| {
      RebuildIsPath(init, i);
      assert init[i] == hops[i];
    } else if |init| > 0 {
      RebuildIsPath(init, |init| - 1);
    }
  }

  lemma OneMovePerOp(s: System, op: Op)
    ensures var t := Do(s, op).rows.intent;
            t == s.rows.intent || (t.version == s.rows.intent.version + 1 && t.state != s.rows.intent.state)
  {
    match op
    case OnClaim(claim, at, timing) =>
    case OnDriver(driver, at) =>
    case OnReconcile(reconcile, at) =>
    case OnDisplay(display, at) =>
  }

  /** The intent, its evidence and its events all stand still, or all take the same one transition. */
  ghost predicate MovesTogether(r: Rows, t: Rows) {
    if t.intent == r.intent then Moves(t.journal) == Moves(r.journal) && Announced(t.stream) == Announced(r.stream)
    else
      var hop := Hop(r.intent.state, t.intent.state);
      t.intent.version == r.intent.version + 1 && Classify(hop.from, hop.to) != NoEdge
      && Moves(t.journal) == Moves(r.journal) + [hop] && Announced(t.stream) == Announced(r.stream) + [hop]
  }

  lemma MovedTogether(r: Rows, t: Rows)
    requires HistorySound(r) && HistorySound(t) && Moves(r.journal) <= Moves(t.journal)
    requires t.intent == r.intent || t.intent.version == r.intent.version + 1
    ensures MovesTogether(r, t)
  {
    var a, b := Moves(r.journal), Moves(t.journal);
    if t.intent != r.intent {
      assert b[..|b| - 1] == a;
      assert b == a + [b[|b| - 1]];
    }
  }

  /**
   * No operation of a run changes the intent without exactly one evidence row and one outbox event of that same
   * legal transition, or writes either of them without it: a transition that loses its compare-and-swap leaves nothing.
   */
  lemma IntentMovesTogether(trace: seq<System>, ops: seq<Op>, i: nat)
    requires Behavior(trace, ops) && i < |ops|
    ensures MovesTogether(trace[i].rows, trace[i + 1].rows)
  {
    AtSound(trace, ops, i);
    StepMovesTogether(trace[i], ops[i]);
    assert Step(trace, ops, i);
  }

  lemma StepMovesTogether(s: System, op: Op)
    requires Sound(s)
    ensures MovesTogether(s.rows, Do(s, op).rows)
  {
    OneMovePerOp(s, op);
    DoKeeps(s, op);
    MovedTogether(s.rows, Do(s, op).rows);
  }

  // ---- authority ----

  /** Authority revisions are applied in version order, each at most once, and announced with the event they supersede. */
  lemma RevisionsInOrder(trace: seq<System>, ops: seq<Op>, i: nat)
    requires Behavior(trace, ops) && i <= |ops|
    ensures RevisionsOrdered(trace[i].rows.journal) && AllPointBack(trace[i].rows.stream)
  {
    AtSound(trace, ops, i);
  }

  /** No run moves an intent to `failed`. */
  lemma NeverFails(trace: seq<System>, ops: seq<Op>, i: nat)
    requires Behavior(trace, ops) && i <= |ops|
    ensures trace[i].rows.intent.state != Failed
  {
    AtSound(trace, ops, i);
    var m := Moves(trace[i].rows.journal);
    if m != [] {
      RebuildIsPath(m, 0);
    }
  }

  /** An intent becomes `completed` only by a reconcile whose authority read lists the current attempt as sent. */
  lemma CompletedByAuthority(trace: seq<System>, ops: seq<Op>, i: nat)
    requires Behavior(trace, ops) && i < |ops|
    requires trace[i].rows.intent.state != Completed && trace[i + 1].rows.intent.state == Completed
    ensures ops[i].OnReconcile? && ops[i].reconcile.Act? && Acts(trace[i], ops[i].reconcile.session)
    ensures var x := trace[i].sessions[ops[i].reconcile.session];
            x.stage.todo[0] == Transition(Completed) && ConfirmedSent(x.stage.facts)
  {
    AtSound(trace, ops, i);
    assert Step(trace, ops, i);
    OnlyActsReach(trace[i], ops[i], Completed);
    var x := trace[i].sessions[ops[i].reconcile.session];
    assert SessionSound(x, trace[i].rows.journal);
    assert Justified(x.stage.open, x.stage.facts, !Frozen(trace[i].rows.journal[..x.stage.checkedAt]), x.owner, x.stage.todo[0]);
  }

  /**
   * A reconciling intent is sent to executing only by a reconcile for an owner whose authority read holds no unknown
   * and no attempt; the driver cannot do it.
   */
  lemma ReopenedByAuthority(trace: seq<System>, ops: seq<Op>, i: nat)
    requires Behavior(trace, ops) && i < |ops|
    requires trace[i].rows.intent.state == Reconciling && trace[i + 1].rows.intent.state == Executing
    ensures ops[i].OnReconcile? && ops[i].reconcile.Act? && Acts(trace[i], ops[i].reconcile.session)
    ensures var x := trace[i].sessions[ops[i].reconcile.session];
            x.stage.facts.unknown.None? && x.stage.facts.attempts == [] && x.owner != ""
  {
    AtSound(trace, ops, i);
    assert Step(trace, ops, i);
    NotByIssue(trace[i], ops[i]);
    OnlyActsReach(trace[i], ops[i], Executing);
    var x := trace[i].sessions[ops[i].reconcile.session];
    assert SessionSound(x, trace[i].rows.journal);
    assert Justified(x.stage.open, x.stage.facts, !Frozen(trace[i].rows.journal[..x.stage.checkedAt]), x.owner, x.stage.todo[0]);
  }

  lemma NotByIssue(s: System, op: Op)
    requires s.rows.intent.state == Reconciling && Do(s, op).rows.intent.state == Executing
    ensures !(op.OnDriver? && op.driver.CommitIssue?)
  {}

  lemma OnlyActsReach(s: System, op: Op, to: IntentState)
    requires s.rows.intent.state != to && Do(s, op).rows.intent.state == to
    requires to == Completed || (to == Executing && !(op.OnDriver? && op.driver.CommitIssue?))
    ensures op.OnReconcile? && op.reconcile.Act? && Acts(s, op.reconcile.session)
    ensures s.sessions[op.reconcile.session].stage.todo[0] == Transition(to)
  {
    match op
    case OnClaim(claim, at, timing) =>
    case OnDriver(driver, at) =>
    case OnReconcile(reconcile, at) =>
    case OnDisplay(display, at) =>
  }

  // ---- freezing ----

  predicate Sending(state: IntentState) {
    state == Completed || state == Executing
  }

  /** The operation sends although the journal may be frozen: it adds a step or takes the intent to a sending state. */
  predicate Sends(s: System, op: Op) {
    var t := Do(s, op);
    |t.rows.steps| > |s.rows.steps| || (t.rows.intent.state != s.rows.intent.state && Sending(t.rows.intent.state))
  }

  /** An issue transaction that has passed its checks commits, and the index of open steps lets it. */
  predicate CommitsIssue(s: System, op: Op) {
    op.OnDriver? && op.driver.CommitIssue? && !op.driver.result.RolledBack? && s.issuing.Some?
    && !HasOpen(s.rows.steps) && !HasStep(s.rows.steps, s.issuing.value.step)
  }

  /** A reconcile runs a transition to a sending state that its snapshot still allows. */
  predicate RunsTransition(s: System, op: Op) {
    op.OnReconcile? && op.reconcile.Act? && Acts(s, op.reconcile.session) && !op.reconcile.result.RolledBack?
    && var x := s.sessions[op.reconcile.session];
       x.stage.todo[0].Transition? && Sending(x.stage.todo[0].to) && CanMove(s.rows, x.seen, x.stage.todo[0].to)
  }

  /** How long the journal was when the transaction behind such an operation checked for a marker. */
  function CheckedAt(s: System, op: Op): nat
    requires CommitsIssue(s, op) || RunsTransition(s, op)
  {
    if op.OnDriver? then s.issuing.value.checkedAt else s.sessions[op.reconcile.session].stage.checkedAt
  }

  lemma SendsIff(s: System, op: Op)
    ensures Sends(s, op) <==> CommitsIssue(s, op) || RunsTransition(s, op)
  {
    var t := Do(s, op);
    if |t.rows.steps| > |s.rows.steps| {
      OnlyIssueAdds(s, op);
    } else if RunsTransition(s, op) {
      var x := s.sessions[op.reconcile.session];
      EdgeKinds(x.seen.state, x.stage.todo[0].to);
      assert t.rows.intent.state == x.stage.todo[0].to;
    } else if t.rows.intent.state != s.rows.intent.state && Sending(t.rows.intent.state) {
      RefusedIssueMovesNothing(s, op);
      OnlyActsReach(s, op, t.rows.intent.state);
    }
  }

  lemma RefusedIssueMovesNothing(s: System, op: Op)
    requires op.OnDriver? && op.driver.CommitIssue? && !CommitsIssue(s, op)
    ensures Do(s, op).rows == s.rows
  {}

  /**
   * While a marker stands, an operation issues a step or takes the intent to `completed` or `executing` if and only
   * if it is a commit, still allowed by the rows, of a transaction that had checked before the marker was recorded.
   */
  lemma FreezeOutrunIff(trace: seq<System>, ops: seq<Op>, i: nat)
    requires Behavior(trace, ops) && i < |ops| && Frozen(trace[i].rows.journal)
    ensures Sends(trace[i], ops[i]) <==>
              (CommitsIssue(trace[i], ops[i]) || RunsTransition(trace[i], ops[i]))
              && CheckedAt(trace[i], ops[i]) <= |trace[i].rows.journal|
              && !Frozen(trace[i].rows.journal[..CheckedAt(trace[i], ops[i])])
  {
    SendsIff(trace[i], ops[i]);
    AtSound(trace, ops, i);
    if RunsTransition(trace[i], ops[i]) {
      assert SessionSound(trace[i].sessions[ops[i].reconcile.session], trace[i].rows.journal);
    }
  }

  /** So a transaction whose check comes after the marker can do neither: no check passes while the marker stands. */
  lemma {:induction false} NoCheckPassesFrozen(trace: seq<System>, ops: seq<Op>, i: nat, j: nat)
    requires Behavior(trace, ops) && i <= j <= |ops| && Frozen(trace[i].rows.journal) && trace[i].issuing.None?
    ensures trace[j].issuing.None? && |trace[j].rows.steps| == |trace[i].rows.steps|
    decreases j - i
  {
    if i < j {
      NoCheckPassesFrozen(trace, ops, i, j - 1);
      FreezeForever(trace, ops, i, j - 1);
      assert Step(trace, ops, j - 1);
      if trace[j].issuing.Some? {
        IssueOpened(trace[j - 1], ops[j - 1]);
      }
      if |trace[j].rows.steps| != |trace[j - 1].rows.steps| {
        OnlyIssueAdds(trace[j - 1], ops[j - 1]);
      }
    }
  }

  /** A marker is never cleared. */
  lemma FreezeForever(trace: seq<System>, ops: seq<Op>, i: nat, j: nat)
    requires Behavior(trace, ops) && i <= j <= |ops| && Frozen(trace[i].rows.journal)
    ensures Frozen(trace[j].rows.journal)
  {
    AtLater(trace, ops, i, j);
    var a, b := trace[i].rows.journal, trace[j].rows.journal;
    var k :| 0 <= k < |a| && IsMarker(a[k]);
    assert b[k] == a[k];
  }
}
