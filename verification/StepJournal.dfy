/** What the step rows and the journal keep: one opening and at most one closing per step. */
module StepJournal {
  import opened Vocabulary
  import opened ExecutionRows
  import opened ExecutionSystem
  import opened Edits

  /** The state the last closing of a step recorded. */
  function ClosedAs(j: seq<Entry>, id: string): Option<StepState> {
    if j == [] then None
    else
      var e := j[|j| - 1];
      if e.StepClosed? && e.step == id then Some(e.state) else ClosedAs(j[..|j| - 1], id)
  }

  /** Step identities are unique and at most one step is open. */
  ghost predicate OneOpen(steps: seq<Step>) {
    forall i, j :: 0 <= i < j < |steps| ==>
      steps[i].id != steps[j].id && !(steps[i].state == Issued && steps[j].state == Issued)
  }

  /** One row's entries: opened once, closed once with the row's state if it is terminal. */
  ghost predicate Logged(j: seq<Entry>, st: Step) {
    Openings(j, st.id) == 1
    && Closings(j, st.id) == (if st.state == Issued then 0 else 1)
    && ClosedAs(j, st.id) == (if st.state == Issued then None else Some(st.state))
  }

  ghost predicate AllLogged(r: Rows) {
    (forall i :: 0 <= i < |r.steps| ==> Logged(r.journal, r.steps[i]))
    && (forall id :: !HasStep(r.steps, id) ==>
          Openings(r.journal, id) == 0 && Closings(r.journal, id) == 0 && ClosedAs(r.journal, id).None?)
  }

  lemma AppendEntry(j: seq<Entry>, e: Entry, id: string)
    ensures Openings(j + [e], id) == Openings(j, id) + if e.StepOpened? && e.step == id then 1 else 0
    ensures Closings(j + [e], id) == Closings(j, id) + if e.StepClosed? && e.step == id then 1 else 0
    ensures ClosedAs(j + [e], id) == if e.StepClosed? && e.step == id then Some(e.state) else ClosedAs(j, id)
  {
    assert (j + [e])[..|j + [e]| - 1] == j;
  }

  lemma NeutralKeeps(r: Rows, e: Entry, t: Rows)
    requires OneOpen(r.steps) && AllLogged(r)
    requires !e.StepOpened? && !e.StepClosed? && t.steps == r.steps && t.journal == r.journal + [e]
    ensures AllLogged(t)
  {
    forall id ensures Openings(t.journal, id) == Openings(r.journal, id) && Closings(t.journal, id) == Closings(r.journal, id)
                      && ClosedAs(t.journal, id) == ClosedAs(r.journal, id) {
      AppendEntry(r.journal, e, id);
    }
  }

  lemma OpeningKeeps(r: Rows, id: string, action: Action, owner: string, lease: nat)
    requires OneOpen(r.steps) && AllLogged(r) && !HasOpen(r.steps) && !HasStep(r.steps, id)
    ensures OneOpen(InsertStep(r, id, action, owner, lease).steps) && AllLogged(InsertStep(r, id, action, owner, lease))
  {
    var t := InsertStep(r, id, action, owner, lease);
    forall x { AppendEntry(r.journal, StepOpened(id, lease), x); }
    forall i | 0 <= i < |t.steps| ensures Logged(t.journal, t.steps[i]) {
      if i < |r.steps| {
        assert t.steps[i] == r.steps[i];
      }
    }
    assert t.steps[|r.steps|].id == id;
    forall x | HasStep(r.steps, x) ensures HasStep(t.steps, x) {
      var i :| 0 <= i < |r.steps| && r.steps[i].id == x;
      assert t.steps[i].id == x;
    }
  }

  /** Closing touches one row, the open one with this identity. */
  lemma ClosesOne(steps: seq<Step>, id: string, fence: Fence, state: StepState, attempt: string, outcome: string)
    returns (k: nat)
    requires OneOpen(steps) && AnyMatch(steps, id, fence)
    ensures k < |steps| && steps[k].id == id && steps[k].state == Issued
    ensures CloseSteps(steps, id, fence, state, attempt, outcome) == steps[k := Closed(steps[k], state, attempt, outcome)]
  {
    k :| 0 <= k < |steps| && Matches(steps[k], id, fence);
  }

  lemma ClosingKeeps(r: Rows, id: string, fence: Fence, state: StepState, attempt: string, outcome: string, lease: nat)
    requires OneOpen(r.steps) && AllLogged(r) && state != Issued && AnyMatch(r.steps, id, fence)
    ensures OneOpen(CloseStep(r, id, fence, state, attempt, outcome, lease).steps)
    ensures AllLogged(CloseStep(r, id, fence, state, attempt, outcome, lease))
  {
    var t := CloseStep(r, id, fence, state, attempt, outcome, lease);
    var k := ClosesOne(r.steps, id, fence, state, attempt, outcome);
    forall x { AppendEntry(r.journal, StepClosed(id, state, lease), x); }
    forall i | 0 <= i < |t.steps| ensures Logged(t.journal, t.steps[i]) {
      assert Logged(r.journal, r.steps[i]);
      if i != k {
        assert r.steps[i].id != id;
      }
    }
    assert t.steps[k].id == id;
    forall x | HasStep(r.steps, x) ensures HasStep(t.steps, x) {
      var i :| 0 <= i < |r.steps| && r.steps[i].id == x;
      assert t.steps[i].id == x;
    }
  }

  lemma EditKeepsLog(r: Rows, e: Edit)
    requires OneOpen(r.steps) && AllLogged(r) && Legal(r, e)
    ensures OneOpen(Make(r, e).steps) && AllLogged(Make(r, e))
  {
    match e
    case AddStep(id, action, owner, lease) => OpeningKeeps(r, id, action, owner, lease);
    case EndStep(id, fence, state, attempt, outcome, lease) => ClosingKeeps(r, id, fence, state, attempt, outcome, lease);
    case MoveTo(to, lease) => NeutralKeeps(r, StateMoved(r.intent.state, to, lease), Make(r, e));
    case AddNote(entry) => NeutralKeeps(r, entry, Make(r, e));
    case _ =>
  }

  /** Every step carries an outcome class that fits its state. */
  ghost predicate OutcomesFit(steps: seq<Step>) {
    forall i :: 0 <= i < |steps| ==> OutcomeFits(steps[i].state, steps[i].outcome)
  }

  lemma EditKeepsOutcomes(r: Rows, e: Edit)
    requires OutcomesFit(r.steps) && Legal(r, e)
    ensures OutcomesFit(Make(r, e).steps)
  {
    var t := Make(r, e);
    forall i | 0 <= i < |t.steps| ensures OutcomeFits(t.steps[i].state, t.steps[i].outcome) {
      if i < |r.steps| { assert OutcomeFits(r.steps[i].state, r.steps[i].outcome); }
    }
  }
}
