/**
 * The rows that the execution worker keeps for one payment intent, and the guarded statements
 * that change them. Every statement is one function from rows to rows; a guard that fails
 * leaves the rows as they were.
 */
module ExecutionRows {
  import opened Vocabulary
  import opened Texts

  // ---- the intent row and its transition table (intent.go) ----

  datatype Intent = Intent(state: IntentState, version: nat)

  datatype Edge = NoEdge | SendEnabling | Fact

  function Classify(from: IntentState, to: IntentState): Edge {
    match (from, to)
    case (Admitted, Claimed) => SendEnabling
    case (Claimed, Executing) => SendEnabling
    case (Reconciling, Executing) => SendEnabling
    case (Revised, Executing) => SendEnabling
    case (Executing, Reconciling) => Fact
    case (Executing, Completed) => Fact
    case (Reconciling, Completed) => Fact
    case (Executing, Failed) => Fact
    case (Reconciling, Failed) => Fact
    case (Completed, Revised) => Fact
    case (Failed, Revised) => Fact
    case _ => NoEdge
  }

  /**
   * The edges by their targets: sending is enabled on the way to `claimed` and `executing`; facts complete, fail,
   * reconcile what is in execution, and revise what was completed or failed.
   */
  lemma EdgeKinds(from: IntentState, to: IntentState)
    ensures Classify(from, to) == SendEnabling <==>
              (to == Claimed && from == Admitted) || (to == Executing && from in {Claimed, Reconciling, Revised})
    ensures Classify(from, to) == Fact <==>
              (to == Reconciling && from == Executing) || (to == Revised && from in {Completed, Failed})
              || (to in {Completed, Failed} && from in {Executing, Reconciling})
    ensures Classify(from, to) != NoEdge ==> from != to && to != Admitted
  {}

  // ---- the claim row (claim.go) ----

  datatype ClaimStatus = Active | Released | Revoked

  datatype Claim = Claim(owner: string, lease: nat, status: ClaimStatus, expiresAt: int,
                         heartbeatAt: int, progressAt: int, flaggedAt: Option<int>, endedAt: Option<int>)

  /** The timings of one claim store; the stall window is the longer of the two. */
  datatype Timing = Timing(ttl: nat, stall: nat)

  /** Owner, version, status and expiry, all on the clock of the database. */
  predicate Current(claim: Option<Claim>, owner: string, lease: nat, at: int) {
    claim.Some? && claim.value.owner == owner && claim.value.lease == lease
    && claim.value.status == Active && claim.value.expiresAt > at
  }

  predicate Stalled(c: Claim, at: int, timing: Timing) {
    at - c.progressAt >= timing.stall
  }

  predicate Claimable(c: Claim, at: int, timing: Timing) {
    c.status != Active || c.expiresAt <= at || Stalled(c, at, timing)
  }

  // ---- steps (steps.go) ----

  datatype Action = FirstBroadcast | Replay | Replace

  datatype StepState = Issued | Converged | Refused | Unknown

  datatype Step = Step(id: string, action: Action, state: StepState, owner: string, lease: nat,
                       attempt: string, outcome: string)

  predicate HasOpen(steps: seq<Step>) {
    exists i :: 0 <= i < |steps| && steps[i].state == Issued
  }

  predicate HasStep(steps: seq<Step>, id: string) {
    exists i :: 0 <= i < |steps| && steps[i].id == id
  }

  /** The step a `WHERE state = 'issued'` read returns. */
  function OpenStep(steps: seq<Step>): (r: Option<string>)
    ensures r.Some? <==> HasOpen(steps)
    ensures r.Some? ==> exists i :: 0 <= i < |steps| && steps[i].state == Issued && steps[i].id == r.value
  {
    if steps == [] then None
    else if steps[|steps| - 1].state == Issued then Some(steps[|steps| - 1].id)
    else
      assert forall i :: 0 <= i < |steps| - 1 ==> steps[..|steps| - 1][i] == steps[i];
      OpenStep(steps[..|steps| - 1])
  }

  /** Which step rows a converging statement may touch: its fence names an owner and a version, or nobody. */
  datatype Fence = Anyone | Holder(owner: string, lease: nat)

  predicate Matches(st: Step, id: string, fence: Fence) {
    st.id == id && st.state == Issued
    && (fence.Holder? ==> st.owner == fence.owner && st.lease == fence.lease)
  }

  predicate AnyMatch(steps: seq<Step>, id: string, fence: Fence) {
    exists i :: 0 <= i < |steps| && Matches(steps[i], id, fence)
  }

  /** The outcome class a terminal state may carry. */
  predicate OutcomeFits(state: StepState, outcome: string) {
    match state
    case Issued => outcome == ""
    case Converged => outcome == "sent" || outcome == "refused_gate" || outcome == "refused_basis"
    case Refused => outcome == ""
    case Unknown => outcome == "pending_unknown" || outcome == "reconcile_required"
  }

  // ---- the append-only execution log (execution_events) ----

  datatype Entry =
    | IntentAdmitted
    | ClaimTaken(lease: nat)
    | ClaimTakenOver(lease: nat)
    | ClaimRevoked(lease: nat)
    | StallFlagged(lease: nat)
    | StateMoved(from: IntentState, to: IntentState, lease: nat)
    | StepOpened(step: string, lease: nat)
    | StepClosed(step: string, state: StepState, lease: nat)
    | Observation(step: string, detail: string)
    | RevisionApplied(from: IntentState, to: IntentState, revision: nat)
    | DisplayRefreshed(revision: nat)
    | DisplayStale

  /** An entry that records neither a transition nor a step. */
  predicate Neutral(e: Entry) {
    !e.StateMoved? && !e.StepOpened? && !e.StepClosed?
  }

  // ---- the display row (projection.go) ----

  datatype Freshness = Confirmed | PossiblyStale

  datatype Display = Display(state: IntentState, version: nat, attempt: string, lifecycle: nat,
                             freshness: Freshness, staleSince: Option<int>)

  function ShowState(d: Display, state: IntentState, version: nat): Display {
    if d.version < version then d.(state := state, version := version) else d
  }

  function ShowLifecycle(d: Display, attempt: string, lifecycle: nat): Display {
    if d.lifecycle < lifecycle then
      d.(attempt := attempt, lifecycle := lifecycle, freshness := Confirmed, staleSince := None)
    else if d.lifecycle == lifecycle then d.(freshness := Confirmed, staleSince := None)
    else d
  }

  function AdvanceLifecycle(d: Display, attempt: string, lifecycle: nat): Display {
    if d.lifecycle < lifecycle then
      d.(attempt := attempt, lifecycle := lifecycle, freshness := Confirmed, staleSince := None)
    else d
  }

  function MarkStale(d: Display, at: int): Display {
    if d.freshness == Confirmed then
      d.(freshness := PossiblyStale, staleSince := if d.staleSince.Some? then d.staleSince else Some(at))
    else d
  }

  /** Marking a row stale again keeps the first date, and never moves a state or a version. */
  lemma StaleKeepsFirst(d: Display, at: int, later: int)
    ensures MarkStale(MarkStale(d, at), later) == MarkStale(d, at)
    ensures MarkStale(d, at).(freshness := d.freshness, staleSince := d.staleSince) == d
  {}

  /** A read at the stored version or above clears staleness; an older one changes nothing; an equal one keeps the attempt. */
  lemma ReadClearsStale(d: Display, attempt: string, lifecycle: nat)
    ensures var t := ShowLifecycle(d, attempt, lifecycle);
            t.state == d.state && t.version == d.version
            && (if lifecycle < d.lifecycle then t == d
                else t.freshness == Confirmed && t.staleSince.None? && t.lifecycle == lifecycle)
            && (t.attempt != d.attempt ==> d.lifecycle < lifecycle && t.attempt == attempt)
  {}

  // ---- all rows of one intent ----

  /** `acquired` is a history variable: the owner of every lease version handed out, in order. */
  datatype Rows = Rows(intent: Intent, claim: Option<Claim>, acquired: seq<string>, steps: seq<Step>,
                       journal: seq<Entry>, stream: seq<Payload>, display: Display)

  /** The rows an admission writes (admit.go). */
  function Fresh(): Rows {
    Rows(Intent(Admitted, 1), None, [], [], [IntentAdmitted], [],
         Display(Admitted, 1, "", 0, Confirmed, None))
  }

  function Note(r: Rows, e: Entry): Rows {
    r.(journal := r.journal + [e])
  }

  /** A new lease generation. */
  function Grant(r: Rows, owner: string, at: int, timing: Timing): Rows {
    r.(acquired := r.acquired + [owner],
       claim := Some(Claim(owner, if r.claim.Some? then r.claim.value.lease + 1 else 1, Active,
                           at + timing.ttl, at, at, None, None)))
  }

  function Progress(r: Rows, at: int): Rows {
    if r.claim.Some? then r.(claim := Some(r.claim.value.(progressAt := at))) else r
  }

  function InsertStep(r: Rows, id: string, action: Action, owner: string, lease: nat): Rows {
    r.(steps := r.steps + [Step(id, action, Issued, owner, lease, "", "")],
       journal := r.journal + [StepOpened(id, lease)])
  }

  function Closed(st: Step, state: StepState, attempt: string, outcome: string): Step {
    st.(state := state, attempt := attempt, outcome := outcome)
  }

  function CloseSteps(steps: seq<Step>, id: string, fence: Fence, state: StepState, attempt: string,
                      outcome: string): (r: seq<Step>)
    ensures |r| == |steps|
  {
    seq(|steps|, i requires 0 <= i < |steps| =>
      if Matches(steps[i], id, fence) then Closed(steps[i], state, attempt, outcome) else steps[i])
  }

  /** An update of no rows writes no event either. */
  function CloseStep(r: Rows, id: string, fence: Fence, state: StepState, attempt: string,
                     outcome: string, lease: nat): Rows {
    if AnyMatch(r.steps, id, fence) then
      r.(steps := CloseSteps(r.steps, id, fence, state, attempt, outcome),
         journal := r.journal + [StepClosed(id, state, lease)])
    else r
  }

  /** The compare-and-swap on (state, version), its evidence row and its outbox event, in one transaction. */
  predicate CanMove(r: Rows, seen: Intent, to: IntentState) {
    Classify(seen.state, to) != NoEdge && seen == r.intent
  }

  function Move(r: Rows, seen: Intent, to: IntentState, lease: nat): Rows {
    if CanMove(r, seen, to) then
      r.(intent := Intent(to, seen.version + 1),
         journal := r.journal + [StateMoved(seen.state, to, lease)],
         stream := r.stream + [StateChanged(seen.state, to, lease)])
    else r
  }

  // ---- freeze markers (advance.go, reconcile.go) ----

  const FREEZE := "freeze:"

  predicate IsMarker(e: Entry) {
    e.Observation? && HasPrefix(e.detail, FREEZE)
  }

  predicate Frozen(j: seq<Entry>) {
    exists i :: 0 <= i < |j| && IsMarker(j[i])
  }

  /** The class the newest marker carries. */
  function FrozenClass(j: seq<Entry>): (r: Option<string>)
    ensures r.Some? <==> Frozen(j)
  {
    if j == [] then None
    else if IsMarker(j[|j| - 1]) then Some(UpToBlank(j[|j| - 1].detail[|FREEZE|..]))
    else
      assert forall i :: 0 <= i < |j| - 1 ==> j[..|j| - 1][i] == j[i];
      FrozenClass(j[..|j| - 1])
  }

  function MarkerDetail(class_: string, condition: Option<string>): string {
    FREEZE + class_ + (if condition.Some? then " condition=" + condition.value else "")
  }

  /** The highest authority revision applied so far. */
  function AppliedRevision(j: seq<Entry>): nat {
    if j == [] then 0
    else
      var before := AppliedRevision(j[..|j| - 1]);
      var e := j[|j| - 1];
      if e.RevisionApplied? && e.revision > before then e.revision else before
  }
}
