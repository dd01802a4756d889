/**
 * What the transactions of the worker leave in the columns: a reconcile for every kind of authority facts, a
 * converge for every answer of the lifecycle boundary, an issue, a revision and a refresh.
 */
module Outcomes {
  import opened Vocabulary
  import opened ExecutionRows
  import opened Reconciler
  import opened StepJournal
  import ExecutionOps

  /** Of the step rows exactly the open one has changed: it ended like this. */
  ghost predicate StepEnded(r: Rows, t: Rows, state: StepState, attempt: string, outcome: string) {
    |t.steps| == |r.steps|
    && forall i :: 0 <= i < |r.steps| ==>
         t.steps[i] == if r.steps[i].state == Issued
                       then r.steps[i].(state := state, attempt := attempt, outcome := outcome) else r.steps[i]
  }

  /** The journal has grown by `entries`, and the intent has moved to `to`, with its evidence and its event, or not at all. */
  ghost predicate Left(r: Rows, t: Rows, entries: seq<Entry>, to: Option<IntentState>, lease: nat) {
    t.claim == r.claim && t.acquired == r.acquired
    && match to
       case None => t.intent == r.intent && t.journal == r.journal + entries && t.stream == r.stream
       case Some(state) =>
         t.intent == Intent(state, r.intent.version + 1)
         && t.journal == r.journal + entries + [StateMoved(r.intent.state, state, lease)]
         && t.stream == r.stream + [StateChanged(r.intent.state, state, lease)]
  }

  /**
   * The display of an intent that moved, or not, after a reconcile with these facts: the new state, and the
   * authority's attempt and version unless they are older; a read that is not older makes it fresh.
   */
  ghost predicate Displayed(r: Rows, t: Rows, facts: Facts, to: Option<IntentState>) {
    r.display.version <= r.intent.version ==>
      t.display.version == (if to.Some? then r.intent.version + 1 else r.display.version)
      && t.display.state == (if to.Some? then to.value else r.display.state)
      && t.display.lifecycle == (if facts.revision > r.display.lifecycle then facts.revision else r.display.lifecycle)
      && t.display.attempt == (if facts.revision > r.display.lifecycle then facts.current else r.display.attempt)
      && t.display.freshness == (if facts.revision >= r.display.lifecycle then Confirmed else r.display.freshness)
      && t.display.staleSince == (if facts.revision >= r.display.lifecycle then None else r.display.staleSince)
  }

  // ---- the tasks of a reconcile ----

  /** The open step is the one row that the unfenced close of its id touches. */
  lemma ClosesOpen(r: Rows, step: string, state: StepState, attempt: string, outcome: string)
    requires OneOpen(r.steps) && OpenStep(r.steps) == Some(step)
    ensures var t := CloseStep(r, step, Anyone, state, attempt, outcome, 0);
            StepEnded(r, t, state, attempt, outcome) && t == r.(steps := t.steps, journal := r.journal + [StepClosed(step, state, 0)])
  {
    var k :| 0 <= k < |r.steps| && r.steps[k].state == Issued && r.steps[k].id == step;
    assert Matches(r.steps[k], step, Anyone);
  }

  lemma MovesOn(r: Rows, seen: Intent, to: IntentState, lease: nat)
    requires seen == r.intent && Classify(seen.state, to) != NoEdge
    ensures var t := PerformAll(r, seen, lease, [Transition(to)]);
            t.steps == r.steps && Left(r, t, [], Some(to), lease) && t.display == ShowState(r.display, to, r.intent.version + 1)
  {
    PerformFirst(r, seen, lease, Transition(to), []);
    assert [Transition(to)] + [] == [Transition(to)];
    assert r.journal + [] == r.journal;
  }

  /** A close and then, perhaps, one transition. */
  lemma ClosesThenMoves(r: Rows, lease: nat, step: string, state: StepState, attempt: string, outcome: string,
                        rest: seq<Task>, to: Option<IntentState>)
    requires OneOpen(r.steps) && OpenStep(r.steps) == Some(step)
    requires rest == (if to.Some? then [Transition(to.value)] else [])
             || (to.None? && |rest| == 1 && rest[0].Transition? && Classify(r.intent.state, rest[0].to) == NoEdge)
    requires to.Some? ==> Classify(r.intent.state, to.value) != NoEdge
    ensures var t := PerformAll(r, r.intent, lease, [Close(step, state, attempt, outcome)] + rest);
            StepEnded(r, t, state, attempt, outcome) && Left(r, t, [StepClosed(step, state, 0)], to, lease)
            && t.display == if to.Some? then ShowState(r.display, to.value, r.intent.version + 1) else r.display
  {
    var q := CloseStep(r, step, Anyone, state, attempt, outcome, 0);
    PerformFirst(r, r.intent, lease, Close(step, state, attempt, outcome), rest);
    ClosesOpen(r, step, state, attempt, outcome);
    if to.Some? {
      MovesOn(q, r.intent, to.value, lease);
      assert q.journal + [] == q.journal;
    } else if rest != [] {
      PerformFirst(q, r.intent, lease, rest[0], []);
      assert rest == [rest[0]] + [];
    }
  }

  /** What counts as confirmed: the current attempt, if there is one, is listed in one of four states. */
  lemma SentStates(facts: Facts)
    ensures ConfirmedSent(facts) <==>
              facts.current != ""
              && exists a :: a in facts.attempts && a.id == facts.current
                             && (a.state == "sent" || a.state == "confirmed" || a.state == "mined" || a.state == "included")
  {
    if exists a :: a in facts.attempts && a.id == facts.current && SentState(a.state) {
      var a :| a in facts.attempts && a.id == facts.current && SentState(a.state);
      var i :| 0 <= i < |facts.attempts| && facts.attempts[i] == a;
    }
  }

  // ---- a reconcile of an intent that is not frozen ----

  /** What a reconcile starts from when it can read the authority. */
  function Shown(r: Rows, facts: Facts): Rows {
    r.(display := ShowLifecycle(r.display, facts.current, facts.revision))
  }

  predicate NotFrozen(r: Rows, facts: Facts) {
    FreezeClass(facts).None? && !Frozen(r.journal)
  }

  /**
   * An unknown attempt: the open step ends unknown with that attempt, and an executing intent goes to
   * reconciling. Never refused, never back to executing.
   */
  lemma UnknownPersists(r: Rows, owner: string, lease: nat, facts: Facts, at: int, step: string)
    requires OneOpen(r.steps) && OpenStep(r.steps) == Some(step) && NotFrozen(r, facts) && facts.unknown.Some?
    ensures var t := Reconcile(r, owner, lease, Some(facts), at);
            StepEnded(r, t, Unknown, facts.unknown.value.attempt, "reconcile_required")
            && Left(r, t, [StepClosed(step, Unknown, 0)], if r.intent.state == Executing then Some(Reconciling) else None, lease)
    ensures Displayed(r, Reconcile(r, owner, lease, Some(facts), at), facts,
                      if r.intent.state == Executing then Some(Reconciling) else None)
  {
    ClosesThenMoves(Shown(r, facts), lease, step, Unknown, facts.unknown.value.attempt, "reconcile_required",
                    Reconciler.EnsureReconciling(r.intent), if r.intent.state == Executing then Some(Reconciling) else None);
  }

  /** Positive evidence of no attempt: the open step ends refused, and a caller with an owner re-opens a reconciling intent. */
  lemma NoAttemptRefused(r: Rows, owner: string, lease: nat, facts: Facts, at: int, step: string)
    requires OneOpen(r.steps) && OpenStep(r.steps) == Some(step) && NotFrozen(r, facts)
    requires facts.unknown.None? && facts.attempts == [] && facts.current == ""
    ensures var t := Reconcile(r, owner, lease, Some(facts), at);
            StepEnded(r, t, Refused, "", "")
            && Left(r, t, [StepClosed(step, Refused, 0)],
                    if r.intent.state == Reconciling && owner != "" then Some(Executing) else None, lease)
    ensures Displayed(r, Reconcile(r, owner, lease, Some(facts), at), facts,
                      if r.intent.state == Reconciling && owner != "" then Some(Executing) else None)
  {
    ClosesThenMoves(Shown(r, facts), lease, step, Refused, "", "", Reconciler.ToExecuting(r.intent, owner),
                    if r.intent.state == Reconciling && owner != "" then Some(Executing) else None);
  }

  /** The authority lists the current attempt as sent: the open step converges and the intent completes. */
  lemma SentCompletes(r: Rows, owner: string, lease: nat, facts: Facts, at: int, step: string)
    requires OneOpen(r.steps) && OpenStep(r.steps) == Some(step) && NotFrozen(r, facts)
    requires facts.unknown.None? && ConfirmedSent(facts)
    ensures var t := Reconcile(r, owner, lease, Some(facts), at);
            StepEnded(r, t, Converged, facts.current, "sent")
            && Left(r, t, [StepClosed(step, Converged, 0)],
                    if r.intent.state == Executing || r.intent.state == Reconciling then Some(Completed) else None, lease)
    ensures Displayed(r, Reconcile(r, owner, lease, Some(facts), at), facts,
                      if r.intent.state == Executing || r.intent.state == Reconciling then Some(Completed) else None)
  {
    ClosesThenMoves(Shown(r, facts), lease, step, Converged, facts.current, "sent", Reconciler.CompleteIntent(r.intent),
                    if r.intent.state == Executing || r.intent.state == Reconciling then Some(Completed) else None);
  }

  /** Anything else about the open step is only observed. */
  lemma InconclusiveObserved(r: Rows, owner: string, lease: nat, facts: Facts, at: int, step: string)
    requires OpenStep(r.steps) == Some(step) && NotFrozen(r, facts)
    requires facts.unknown.None? && !ConfirmedSent(facts) && (facts.attempts != [] || facts.current != "")
    ensures var t := Reconcile(r, owner, lease, Some(facts), at);
            t.steps == r.steps && Left(r, t, [Observation(step, "inconclusive basis=" + facts.basis)], None, lease)
    ensures Displayed(r, Reconcile(r, owner, lease, Some(facts), at), facts, None)
  {
    PerformFirst(Shown(r, facts), r.intent, lease, Observe(step, facts.basis), []);
    assert [Observe(step, facts.basis)] + [] == [Observe(step, facts.basis)];
  }

  /**
   * Without an open step the facts only move the intent: confirmed as sent it completes, and without an unknown
   * and without an attempt a caller with an owner re-opens a reconciling one.
   */
  lemma NothingOpen(r: Rows, owner: string, lease: nat, facts: Facts, at: int)
    requires OpenStep(r.steps).None? && NotFrozen(r, facts)
    ensures var t := Reconcile(r, owner, lease, Some(facts), at);
            t.steps == r.steps
            && Left(r, t, [],
                    if ConfirmedSent(facts)
                    then if r.intent.state == Executing || r.intent.state == Reconciling then Some(Completed) else None
                    else if facts.unknown.None? && facts.attempts == [] && r.intent.state == Reconciling && owner != ""
                         then Some(Executing) else None,
                    lease)
    ensures Displayed(r, Reconcile(r, owner, lease, Some(facts), at), facts,
                      if ConfirmedSent(facts)
                      then if r.intent.state == Executing || r.intent.state == Reconciling then Some(Completed) else None
                      else if facts.unknown.None? && facts.attempts == [] && r.intent.state == Reconciling && owner != ""
                           then Some(Executing) else None)
  {
    var s := Shown(r, facts);
    assert s.journal + [] == s.journal;
    if ConfirmedSent(facts) {
      if r.intent.state == Executing || r.intent.state == Reconciling { MovesOn(s, r.intent, Completed, lease); }
    } else if facts.unknown.None? && facts.attempts == [] && r.intent.state == Reconciling && owner != "" {
      MovesOn(s, r.intent, Executing, lease);
    }
  }

  // ---- a reconcile of a frozen intent ----

  /** The class on record: the one the facts carry, or else the one read back. */
  predicate FreezeIs(r: Rows, facts: Facts, class_: string) {
    FreezeClass(facts) == Some(class_) || (FreezeClass(facts).None? && FrozenClass(r.journal) == Some(class_))
  }

  /** The marker a freeze adds, unless there is one. */
  function NewMarker(r: Rows, facts: Facts, class_: string): seq<Entry> {
    if Frozen(r.journal) then []
    else [Observation("", "freeze:" + class_ + if facts.unknown.Some? then " condition=" + facts.unknown.value.condition else "")]
  }

  /** That is all that a freeze adds when no step is open. */
  lemma FrozenNothingOpen(r: Rows, owner: string, lease: nat, facts: Facts, at: int, class_: string)
    requires OpenStep(r.steps).None? && FreezeIs(r, facts, class_)
    ensures var t := Reconcile(r, owner, lease, Some(facts), at);
            t.steps == r.steps
            && Left(r, t, NewMarker(r, facts, class_), None, lease)
    ensures Displayed(r, Reconcile(r, owner, lease, Some(facts), at), facts, None)
  {
    var s := Shown(r, facts);
    PerformCheck(s, r.intent, lease, class_, ConditionOf(facts), []);
    assert s.journal + [] == s.journal;
    assert [CheckFreeze(class_, ConditionOf(facts))] + [] == [CheckFreeze(class_, ConditionOf(facts))];
  }

  /** An open step of a frozen intent ends unknown with the current attempt, and an executing intent goes to reconciling. */
  lemma FrozenStepUnknown(r: Rows, owner: string, lease: nat, facts: Facts, at: int, class_: string, step: string)
    requires OneOpen(r.steps) && OpenStep(r.steps) == Some(step) && FreezeIs(r, facts, class_)
    ensures var t := Reconcile(r, owner, lease, Some(facts), at);
            StepEnded(r, t, Unknown, facts.current, "reconcile_required")
            && Left(r, t, NewMarker(r, facts, class_) + [StepClosed(step, Unknown, 0)],
                    if r.intent.state == Executing then Some(Reconciling) else None, lease)
    ensures Displayed(r, Reconcile(r, owner, lease, Some(facts), at), facts,
                      if r.intent.state == Executing then Some(Reconciling) else None)
  {
    var s := Shown(r, facts);
    var q := Marked(r, facts, class_);
    PerformCheck(s, r.intent, lease, class_, ConditionOf(facts),
                 [Close(step, Unknown, facts.current, "reconcile_required")] + Reconciler.EnsureReconciling(r.intent));
    ClosesThenMoves(q, lease, step, Unknown, facts.current, "reconcile_required", Reconciler.EnsureReconciling(r.intent),
                    if r.intent.state == Executing then Some(Reconciling) else None);
    LeftAfter(r, q, Reconcile(r, owner, lease, Some(facts), at), NewMarker(r, facts, class_), [StepClosed(step, Unknown, 0)],
              if r.intent.state == Executing then Some(Reconciling) else None, lease);
  }

  /** The rows after the check for a marker. */
  function Marked(r: Rows, facts: Facts, class_: string): (q: Rows)
    ensures q == Shown(r, facts).(journal := r.journal + NewMarker(r, facts, class_))
  {
    if Frozen(r.journal) then Shown(r, facts) else Note(Shown(r, facts), Observation("", MarkerDetail(class_, ConditionOf(facts))))
  }

  lemma LeftAfter(r: Rows, q: Rows, t: Rows, before: seq<Entry>, entries: seq<Entry>, to: Option<IntentState>, lease: nat)
    requires q.journal == r.journal + before && q == r.(journal := q.journal, display := q.display)
    requires Left(q, t, entries, to, lease)
    ensures Left(r, t, before + entries, to, lease)
  {
    assert (r.journal + before) + entries == r.journal + (before + entries);
  }

  /** A reconcile that cannot read the authority dates the display as possibly stale and leaves the rest. */
  lemma UnreadableMarksStale(r: Rows, owner: string, lease: nat, at: int)
    requires r.display.freshness == PossiblyStale <==> r.display.staleSince.Some?
    ensures var t := Reconcile(r, owner, lease, None, at);
            t == r.(display := t.display) && t.display == r.display.(freshness := PossiblyStale, staleSince := t.display.staleSince)
            && t.display.staleSince == if r.display.staleSince.Some? then r.display.staleSince else Some(at)
  {}

  // ---- the driver's answers ----

  /** The claim has made progress at `at`, and nothing else about it has changed. */
  ghost predicate Progressed(r: Rows, t: Rows, at: int) {
    r.claim.Some? && t.claim == Some(r.claim.value.(progressAt := at)) && t.acquired == r.acquired && t.display == r.display
  }

  /** The driver presents a current claim and its own open step. */
  ghost predicate Fenced(r: Rows, owner: string, lease: nat, id: string, at: int) {
    OneOpen(r.steps) && Current(r.claim, owner, lease, at)
    && exists k :: 0 <= k < |r.steps| && r.steps[k].id == id && r.steps[k].state == Issued
                   && r.steps[k].owner == owner && r.steps[k].lease == lease
  }

  lemma ClosesOwn(r: Rows, owner: string, lease: nat, id: string, state: StepState, attempt: string, outcome: string, at: int)
    requires Fenced(r, owner, lease, id, at)
    ensures var t := CloseStep(Progress(r, at), id, Holder(owner, lease), state, attempt, outcome, lease);
            StepEnded(r, t, state, attempt, outcome) && Progressed(r, t, at)
            && t.journal == r.journal + [StepClosed(id, state, lease)] && t.intent == r.intent && t.stream == r.stream
    ensures AnyMatch(r.steps, id, Holder(owner, lease))
  {
    var k :| 0 <= k < |r.steps| && r.steps[k].id == id && r.steps[k].state == Issued && r.steps[k].owner == owner && r.steps[k].lease == lease;
    assert Matches(r.steps[k], id, Holder(owner, lease));
  }

  predicate DefiniteClass(class_: string) {
    class_ == "sent" || class_ == "refused_gate" || class_ == "refused_basis"
  }

  predicate UnknownClass(class_: string) {
    class_ == "pending_unknown" || class_ == "reconcile_required"
  }

  /** A definite class converges the step with its attempt and leaves the intent. */
  lemma DefiniteConverges(r: Rows, owner: string, lease: nat, id: string, class_: string, attempt: string, seen: Intent, at: int)
    requires Fenced(r, owner, lease, id, at) && DefiniteClass(class_)
    ensures var t := ExecutionOps.Converge(r, owner, lease, id, ExecutionOps.Classed(class_, attempt), seen, at);
            StepEnded(r, t, Converged, attempt, class_) && Progressed(r, t, at)
            && t.intent == r.intent && t.stream == r.stream && t.journal == r.journal + [StepClosed(id, Converged, lease)]
  {
    ClosesOwn(r, owner, lease, id, Converged, attempt, class_, at);
  }

  /**
   * What is unknown or was not sent is never taken for paid or failed: the step ends unknown or refused, an intent
   * that was read as executing, and still is, goes to reconciling, and the outcome is observed.
   */
  lemma UncertainReconciles(r: Rows, owner: string, lease: nat, id: string, answer: ExecutionOps.Answer, seen: Intent, at: int)
    requires Fenced(r, owner, lease, id, at) && (answer.NoSend? || UnknownClass(answer.class_))
    ensures var t := ExecutionOps.Converge(r, owner, lease, id, answer, seen, at);
            var state := if answer.NoSend? then Refused else Unknown;
            var class_ := if answer.NoSend? then "" else answer.class_;
            StepEnded(r, t, state, if answer.NoSend? then "" else answer.attempt, class_) && Progressed(r, t, at)
            && var moves := seen == r.intent && r.intent.state == Executing;
               var moved := if moves then [StateMoved(Executing, Reconciling, lease)] else [];
               t.intent == (if moves then Intent(Reconciling, r.intent.version + 1) else r.intent)
               && t.stream == r.stream + (if moves then [StateChanged(Executing, Reconciling, lease)] else [])
               && t.journal == r.journal + [StepClosed(id, state, lease)] + moved + [Observation(id, "reason=step_outcome class=" + class_)]
  {
    var state := if answer.NoSend? then Refused else Unknown;
    ClosesOwn(r, owner, lease, id, state, ExecutionOps.AttemptOf(answer), ExecutionOps.ClassOf(answer), at);
    assert r.stream + [] == r.stream;
    var q := CloseStep(Progress(r, at), id, Holder(owner, lease), state, ExecutionOps.AttemptOf(answer), ExecutionOps.ClassOf(answer), lease);
    assert q.journal + [] == q.journal;
  }

  /** Without the fence, or with any other class, a converge changes nothing. */
  lemma OtherwiseNothing(r: Rows, owner: string, lease: nat, id: string, answer: ExecutionOps.Answer, seen: Intent, at: int)
    requires OneOpen(r.steps)
    requires !Fenced(r, owner, lease, id, at) || (answer.Classed? && !DefiniteClass(answer.class_) && !UnknownClass(answer.class_))
    ensures ExecutionOps.Converge(r, owner, lease, id, answer, seen, at) == r
  {}

  // ---- the other transactions ----

  /** The worker's first transition. */
  lemma ClaimedFirst(r: Rows, lease: nat)
    ensures var t := ExecutionOps.AdvanceToClaimed(r, lease);
            if r.intent.state == Admitted
            then t.steps == r.steps && t.display == r.display && Left(r, t, [], Some(Claimed), lease) else t == r
  {
    assert r.journal + [] == r.journal;
  }

  /**
   * An issue that nothing refuses adds one open step of this holder and takes an intent that was read as claimed or
   * revised, and still is, to executing.
   */
  lemma IssueSends(r: Rows, owner: string, lease: nat, id: string, action: Action, seen: Intent, at: int)
    requires !HasOpen(r.steps) && !HasStep(r.steps, id) && r.claim.Some?
    ensures var t := ExecutionOps.WriteIssue(r, owner, lease, id, action, seen, at);
            t.steps == r.steps + [Step(id, action, Issued, owner, lease, "", "")] && Progressed(r, t, at)
            && var moves := seen == r.intent && (r.intent.state == Claimed || r.intent.state == Revised);
               t.intent == (if moves then Intent(Executing, r.intent.version + 1) else r.intent)
               && t.stream == r.stream + (if moves then [StateChanged(r.intent.state, Executing, lease)] else [])
               && t.journal == r.journal + [StepOpened(id, lease)] + if moves then [StateMoved(r.intent.state, Executing, lease)] else []
  {
    assert r.stream + [] == r.stream;
    assert (r.journal + [StepOpened(id, lease)]) + [] == r.journal + [StepOpened(id, lease)];
  }

  /** A newer revision of an intent that was read as completed or failed, and still is, revises it and tells what it supersedes. */
  lemma RevisionMoves(r: Rows, revision: nat, attempt: string, chainFact: bool)
    requires (r.intent.state == Completed || r.intent.state == Failed) && revision > AppliedRevision(r.journal)
    ensures var t := ExecutionOps.Revise(r, r.intent, revision, attempt, chainFact);
            t == r.(intent := Intent(Revised, r.intent.version + 1), journal := t.journal, stream := t.stream, display := t.display)
            && t.journal == r.journal + [StateMoved(r.intent.state, Revised, 0), RevisionApplied(r.intent.state, Revised, revision)]
            && t.stream == r.stream + [StateChanged(r.intent.state, Revised, 0)]
                           + (if r.stream != [] && chainFact then [RevisedResult(r.intent.state, Revised, |r.stream|)] else [])
            && (revision < r.display.lifecycle ==> t.display == r.display)
            && (revision >= r.display.lifecycle ==>
                  t.display == r.display.(attempt := if revision > r.display.lifecycle then attempt else r.display.attempt,
                                          lifecycle := revision, freshness := Confirmed, staleSince := None))
  {
    var told := r.stream + [StateChanged(r.intent.state, Revised, 0)];
    assert told + [] == told;
  }

  /** A newer revision of an intent that is revised already only moves the display, and only forward. */
  lemma RevisionShown(r: Rows, seen: Intent, revision: nat, attempt: string, chainFact: bool)
    requires seen.state == Revised && revision > AppliedRevision(r.journal)
    ensures var t := ExecutionOps.Revise(r, seen, revision, attempt, chainFact);
            if r.display.lifecycle < revision
            then t == r.(display := r.display.(attempt := attempt, lifecycle := revision, freshness := Confirmed, staleSince := None),
                         journal := r.journal + [DisplayRefreshed(revision)])
            else t == r
  {}

  /** Any other revision changes nothing: one that is not newer, one without an edge, one that lost its compare-and-swap. */
  lemma RevisionIgnored(r: Rows, seen: Intent, revision: nat, attempt: string, chainFact: bool)
    requires revision <= AppliedRevision(r.journal)
             || (seen.state != Revised && (seen != r.intent || (seen.state != Completed && seen.state != Failed)))
    ensures ExecutionOps.Revise(r, seen, revision, attempt, chainFact) == r
  {}

  /** A forced refresh shows what the authority says, or dates the display as possibly stale, and is recorded either way. */
  lemma RefreshShows(r: Rows, attempt: string, revision: nat, at: int)
    requires r.display.freshness == PossiblyStale <==> r.display.staleSince.Some?
    ensures var t := ExecutionOps.Refresh(r, Some((attempt, revision)), at);
            t == r.(display := t.display, journal := r.journal + [DisplayRefreshed(revision)])
            && if revision < r.display.lifecycle then t.display == r.display
               else t.display == r.display.(attempt := if revision > r.display.lifecycle then attempt else r.display.attempt,
                                            lifecycle := revision, freshness := Confirmed, staleSince := None)
    ensures var t := ExecutionOps.Refresh(r, None, at);
            t == r.(display := t.display, journal := r.journal + [DisplayStale])
            && t.display == r.display.(freshness := PossiblyStale,
                                       staleSince := if r.display.staleSince.Some? then r.display.staleSince else Some(at))
  {}
}
