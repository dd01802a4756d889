/**
 * The unfenced reconciler (reconcile.go). One reconcile reads the intent, its open step and the
 * authority's facts at different moments, then runs a short list of transactions; `Plan` is the
 * branch structure that turns the three reads into that list.
 */
module Reconciler {
  import opened Vocabulary
  import opened Texts
  import opened ExecutionRows

  datatype AttemptRef = AttemptRef(id: string, state: string)

  datatype UnknownRef = UnknownRef(attempt: string, txHash: string, condition: string)

  datatype Facts = Facts(attempts: seq<AttemptRef>, current: string, revision: nat,
                         unknown: Option<UnknownRef>, basis: string)

  predicate SentState(state: string) {
    state == "sent" || state == "confirmed" || state == "mined" || state == "included"
  }

  /** The authority lists the current attempt as sent. */
  predicate ConfirmedSent(facts: Facts) {
    facts.current != ""
    && exists i :: 0 <= i < |facts.attempts| && facts.attempts[i].id == facts.current
                   && SentState(facts.attempts[i].state)
  }

  const LOCK_LOSS := "lock_loss"

  /** The freeze class an unknown-recovery condition carries. */
  function FreezeClass(facts: Facts): Option<string> {
    if facts.unknown.None? then None
    else
      var cond := ToLower(facts.unknown.value.condition);
      if cond == "" then None
      else match IndexOf(cond, FREEZE) {
        case Some(i) =>
          var rest := TrimSpace(cond[i + |FREEZE|..]);
          Some(if rest != "" then rest else LOCK_LOSS)
        case None =>
          if Contains(cond, "lock_loss") || Contains(cond, "lock-loss") || Contains(cond, "lockloss")
             || Contains(cond, "freeze")
          then Some(LOCK_LOSS) else None
      }
  }

  function ConditionOf(facts: Facts): Option<string> {
    if facts.unknown.Some? then Some(facts.unknown.value.condition) else None
  }

  /** One transaction of a reconcile. */
  datatype Task =
    | CheckFreeze(class_: string, condition: Option<string>)
    | RecordFreeze(class_: string, condition: Option<string>)
    | Close(step: string, state: StepState, attempt: string, outcome: string)
    | Observe(step: string, basis: string)
    | Transition(to: IntentState)

  const INCONCLUSIVE := "inconclusive basis="

  function EnsureReconciling(seen: Intent): seq<Task> {
    if seen.state == Executing || seen.state == Claimed then [Transition(Reconciling)] else []
  }

  /** Send-enabling: only a caller that names an owner may ask for it. */
  function ToExecuting(seen: Intent, owner: string): seq<Task> {
    if seen.state == Reconciling && owner != "" then [Transition(Executing)] else []
  }

  function CompleteIntent(seen: Intent): seq<Task> {
    if seen.state != Completed && Classify(seen.state, Completed) == Fact then [Transition(Completed)] else []
  }

  function PlanFrozen(seen: Intent, open: Option<string>, facts: Facts, class_: string): seq<Task> {
    [CheckFreeze(class_, ConditionOf(facts))]
    + if open.None? then []
      else [Close(open.value, Unknown, facts.current, "reconcile_required")] + EnsureReconciling(seen)
  }

  function PlanWithoutOpen(seen: Intent, facts: Facts, owner: string): seq<Task> {
    if ConfirmedSent(facts) then CompleteIntent(seen)
    else if facts.unknown.None? && |facts.attempts| == 0 && seen.state == Reconciling then ToExecuting(seen, owner)
    else []
  }

  function PlanWithOpen(seen: Intent, step: string, facts: Facts, owner: string): seq<Task> {
    if facts.unknown.Some? then
      [Close(step, Unknown, facts.unknown.value.attempt, "reconcile_required")] + EnsureReconciling(seen)
    else if |facts.attempts| == 0 && facts.current == "" then
      [Close(step, Refused, "", "")] + ToExecuting(seen, owner)
    else if ConfirmedSent(facts) then
      [Close(step, Converged, facts.current, "sent")] + CompleteIntent(seen)
    else [Observe(step, facts.basis)]
  }

  /** The freeze state from the facts, or else from a recorded marker. */
  function FreezeSeen(facts: Facts, j: seq<Entry>): Option<string> {
    var class_ := FreezeClass(facts);
    if class_.Some? then class_ else FrozenClass(j)
  }

  function Plan(seen: Intent, open: Option<string>, facts: Facts, frozen: Option<string>, owner: string): seq<Task> {
    if frozen.Some? then PlanFrozen(seen, open, facts, frozen.value)
    else if open.None? then PlanWithoutOpen(seen, facts, owner)
    else PlanWithOpen(seen, open.value, facts, owner)
  }

  /** What one transaction of a reconcile does to the rows. */
  function Perform(r: Rows, seen: Intent, lease: nat, a: Task): Rows {
    match a
    case CheckFreeze(_, _) => r
    case RecordFreeze(class_, condition) => Note(r, Observation("", MarkerDetail(class_, condition)))
    case Close(step, state, attempt, outcome) => CloseStep(r, step, Anyone, state, attempt, outcome, 0)
    case Observe(step, basis) => Note(r, Observation(step, INCONCLUSIVE + basis))
    case Transition(to) =>
      if CanMove(r, seen, to) then
        var moved := Move(r, seen, to, lease);
        moved.(display := ShowState(moved.display, to, seen.version + 1))
      else r
  }

  /** What remains to be done after the first task of `todo`. */
  function Rest(r: Rows, todo: seq<Task>): seq<Task>
    requires todo != []
  {
    if todo[0].CheckFreeze? && !Frozen(r.journal)
    then [RecordFreeze(todo[0].class_, todo[0].condition)] + todo[1..]
    else todo[1..]
  }

  function Weight(todo: seq<Task>): nat {
    if todo == [] then 0 else Weight(todo[1..]) + if todo[0].CheckFreeze? then 2 else 1
  }

  /** All of `todo` without anything in between. */
  function PerformAll(r: Rows, seen: Intent, lease: nat, todo: seq<Task>): Rows
    decreases Weight(todo)
  {
    if todo == [] then r
    else
      assert Weight(Rest(r, todo)) < Weight(todo) by {
        if todo[0].CheckFreeze? && !Frozen(r.journal) {
          assert Rest(r, todo)[1..] == todo[1..];
        }
      }
      PerformAll(Perform(r, seen, lease, todo[0]), seen, lease, Rest(r, todo))
  }

  /** A whole reconcile that nothing interrupts; `facts` is None when the authority cannot be read. */
  function Reconcile(r: Rows, owner: string, lease: nat, facts: Option<Facts>, at: int): Rows {
    match facts
    case None => r.(display := MarkStale(r.display, at))
    case Some(f) =>
      var shown := r.(display := ShowLifecycle(r.display, f.current, f.revision));
      PerformAll(shown, r.intent, lease, Plan(r.intent, OpenStep(r.steps), f, FreezeSeen(f, r.journal), owner))
  }

  lemma PerformFirst(r: Rows, seen: Intent, lease: nat, a: Task, rest: seq<Task>)
    requires !a.CheckFreeze?
    ensures PerformAll(r, seen, lease, [a] + rest) == PerformAll(Perform(r, seen, lease, a), seen, lease, rest)
  {
    assert ([a] + rest)[1..] == rest;
  }

  lemma PerformCheck(r: Rows, seen: Intent, lease: nat, class_: string, condition: Option<string>, rest: seq<Task>)
    ensures PerformAll(r, seen, lease, [CheckFreeze(class_, condition)] + rest)
         == PerformAll(if Frozen(r.journal) then r else Perform(r, seen, lease, RecordFreeze(class_, condition)), seen, lease, rest)
  {
    var todo := [CheckFreeze(class_, condition)] + rest;
    assert todo[1..] == rest;
    if !Frozen(r.journal) {
      PerformFirst(r, seen, lease, RecordFreeze(class_, condition), rest);
    }
  }

  /** The first successful read among the first `limit`. */
  function FirstRead(answers: seq<Option<Facts>>, limit: nat): Option<Facts> {
    if limit == 0 || answers == [] then None
    else if answers[0].Some? then answers[0]
    else FirstRead(answers[1..], limit - 1)
  }
}
