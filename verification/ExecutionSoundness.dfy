/** The invariant of every reachable state of one intent, and what a later state keeps of an earlier one. */
module ExecutionSoundness {
  import opened Vocabulary
  import opened ExecutionRows
  import opened Reconciler
  import opened ExecutionSystem
  import opened Edits
  import ExecutionOps
  import opened Fencing
  import opened StepJournal

  /** The displayed pair is one the intent really had, and staleness is dated exactly while it lasts. */
  ghost predicate DisplaySound(r: Rows) {
    WasIntent(r, Intent(r.display.state, r.display.version))
    && (r.display.freshness == PossiblyStale <==> r.display.staleSince.Some?)
  }

  ghost predicate NeverFailed(r: Rows) {
    forall i :: 0 <= i < |Moves(r.journal)| ==> Moves(r.journal)[i].to != Failed
  }

  /** Authority revisions are applied in version order, each version at most once. */
  ghost predicate RevisionsOrdered(j: seq<Entry>) {
    (forall i :: 0 <= i < |j| && j[i].RevisionApplied? ==> j[i].revision <= AppliedRevision(j))
    && (forall i, k :: 0 <= i < k < |j| && j[i].RevisionApplied? && j[k].RevisionApplied? ==> j[i].revision < j[k].revision)
  }

  /** Every revised event names the event that its own transition superseded. */
  ghost predicate AllPointBack(stream: seq<Payload>) {
    forall k :: 0 <= k < |stream| ==> PointsBack(stream, k)
  }

  ghost predicate RowsSound(r: Rows) {
    ClaimSound(r) && StepsFenced(r) && OneOpen(r.steps) && AllLogged(r)
    && HistorySound(r) && DisplaySound(r) && NeverFailed(r) && RevisionsOrdered(r.journal)
    && OutcomesFit(r.steps) && AllPointBack(r.stream)
  }

  /** Nothing recorded is taken back: logs grow, terminal steps stay, versions never decrease. */
  ghost predicate Extends(r: Rows, t: Rows) {
    r.acquired <= t.acquired && r.journal <= t.journal && r.stream <= t.stream
    && Moves(r.journal) <= Moves(t.journal)
    && |r.steps| <= |t.steps|
    && (forall i :: 0 <= i < |r.steps| ==> StepEvolves(r.steps[i], t.steps[i]))
    && r.intent.version <= t.intent.version
    && r.display.version <= t.display.version && r.display.lifecycle <= t.display.lifecycle
  }

  /** A terminal step never changes again; an open one keeps its identity and its fence. */
  ghost predicate StepEvolves(a: Step, b: Step) {
    if a.state != Issued then a == b
    else a.id == b.id && a.action == b.action && a.owner == b.owner && a.lease == b.lease
  }

  lemma ExtendsTransitive(r: Rows, t: Rows, u: Rows)
    requires Extends(r, t) && Extends(t, u)
    ensures Extends(r, u)
  {
    forall i | 0 <= i < |r.steps| ensures StepEvolves(r.steps[i], u.steps[i]) {
      assert StepEvolves(r.steps[i], t.steps[i]) && StepEvolves(t.steps[i], u.steps[i]);
    }
  }

  lemma WasStays(r: Rows, t: Rows, seen: Intent)
    requires WasIntent(r, seen) && Moves(r.journal) <= Moves(t.journal)
    ensures WasIntent(t, seen)
  {
    assert Moves(t.journal)[..seen.version - 1] == Moves(r.journal)[..seen.version - 1];
  }

  lemma EditKeepsDisplay(r: Rows, e: Edit)
    requires HistorySound(r) && DisplaySound(r) && Legal(r, e)
    ensures DisplaySound(Make(r, e))
  {
    var t := Make(r, e);
    if !e.SetDisplay? {
      assert t.display == r.display;
      EditKeepsHistory(r, e);
      WasStays(r, t, Intent(r.display.state, r.display.version));
    }
  }

  lemma EditExtends(r: Rows, e: Edit)
    requires HistorySound(r) && Legal(r, e)
    ensures Extends(r, Make(r, e))
  {
    EditKeepsHistory(r, e);
  }

  lemma EditKeepsNeverFailed(r: Rows, e: Edit)
    requires HistorySound(r) && NeverFailed(r) && Legal(r, e)
    ensures NeverFailed(Make(r, e))
  {
    EditKeepsHistory(r, e);
  }

  lemma EntryKeepsRevisions(j: seq<Entry>, e: Entry)
    requires RevisionsOrdered(j) && (e.RevisionApplied? ==> e.revision > AppliedRevision(j))
    ensures RevisionsOrdered(j + [e])
  {
    assert (j + [e])[..|j + [e]| - 1] == j;
  }

  lemma EditKeepsRevisions(r: Rows, e: Edit)
    requires RevisionsOrdered(r.journal) && Legal(r, e)
    ensures RevisionsOrdered(Make(r, e).journal)
  {
    var t := Make(r, e);
    if t.journal != r.journal {
      EntryKeepsRevisions(r.journal, t.journal[|r.journal|]);
      assert t.journal == r.journal + [t.journal[|r.journal|]];
    }
  }

  lemma EditKeepsStream(r: Rows, e: Edit)
    requires AllPointBack(r.stream) && Legal(r, e)
    ensures AllPointBack(Make(r, e).stream)
  {
    var t := Make(r, e);
    forall k | 0 <= k < |t.stream| ensures PointsBack(t.stream, k) {
      if k < |r.stream| { assert PointsBack(r.stream, k); }
    }
  }

  lemma EditKeeps(r: Rows, e: Edit)
    requires RowsSound(r) && Legal(r, e)
    ensures RowsSound(Make(r, e))
  {
    EditKeepsFence(r, e);
    EditKeepsLog(r, e);
    EditKeepsHistory(r, e);
    EditKeepsDisplay(r, e);
    EditKeepsNeverFailed(r, e);
    EditKeepsRevisions(r, e);
    EditKeepsOutcomes(r, e);
    EditKeepsStream(r, e);
  }

  lemma {:induction false} LeadsKeeps(r: Rows, es: seq<Edit>, t: Rows)
    requires RowsSound(r) && Leads(r, es, t)
    ensures RowsSound(t) && Extends(r, t)
    decreases |es|
  {
    if es != [] {
      var init := es[..|es| - 1];
      var mid := MakeAll(r, init);
      LeadsKeeps(r, init, mid);
      EditKeeps(mid, es[|es| - 1]);
      EditExtends(mid, es[|es| - 1]);
      ExtendsTransitive(r, mid, t);
    }
  }

  // ---- reconciles in progress ----

  /**
   * What a reconcile may do on these facts. A step ends refused only on positive evidence of no attempt, converged
   * only when the current attempt is listed as sent, and unknown only on an unknown attempt or a freeze; the intent
   * completes on the authority's word and is re-opened, for an owner, without an attempt; neither after a marker.
   */
  ghost predicate Justified(open: Option<string>, facts: Facts, unfrozen: bool, owner: string, a: Task) {
    TaskSound(a)
    && match a
       case Close(step, state, attempt, _) =>
         open == Some(step)
         && (state == Refused ==> facts.unknown.None? && facts.attempts == [] && facts.current == "" && unfrozen)
         && (state == Converged ==> facts.unknown.None? && ConfirmedSent(facts) && attempt == facts.current && unfrozen)
         && (state == Unknown ==> facts.unknown.Some? || !unfrozen)
       case Transition(to) =>
         (to == Completed ==> ConfirmedSent(facts) && unfrozen)
         && (to == Executing ==> facts.unknown.None? && facts.attempts == [] && owner != "" && unfrozen)
         && (to == Reconciling ==> facts.unknown.Some? || !unfrozen)
       case CheckFreeze(_, _) => FreezeClass(facts).Some? || !unfrozen
       case RecordFreeze(_, _) => FreezeClass(facts).Some? || !unfrozen
       case Observe(step, _) => open == Some(step) && facts.unknown.None? && !ConfirmedSent(facts)
  }

  ghost predicate TodoSound(open: Option<string>, facts: Facts, unfrozen: bool, owner: string, todo: seq<Task>) {
    forall i :: 0 <= i < |todo| ==> Justified(open, facts, unfrozen, owner, todo[i])
  }

  /** Whatever a reconcile is about to do is justified by the facts it read and by the markers it could see. */
  ghost predicate SessionSound(x: Session, j: seq<Entry>) {
    x.stage.Acting? ==>
      x.stage.checkedAt <= |j| && TodoSound(x.stage.open, x.stage.facts, !Frozen(j[..x.stage.checkedAt]), x.owner, x.stage.todo)
  }

  ghost predicate SessionsSound(s: System) {
    forall k :: k in s.sessions ==> SessionSound(s.sessions[k], s.rows.journal)
  }

  ghost predicate Sound(s: System) {
    RowsSound(s.rows) && SessionsSound(s) && IssueSound(s)
  }

  /** Every branch of a reconcile is justified. */
  lemma PlanSound(seen: Intent, open: Option<string>, facts: Facts, j: seq<Entry>, owner: string)
    ensures TodoSound(open, facts, !Frozen(j), owner, Plan(seen, open, facts, FreezeSeen(facts, j), owner))
  {
    var frozen := FreezeSeen(facts, j);
    if frozen.Some? {
      var todo := PlanFrozen(seen, open, facts, frozen.value);
      assert FreezeClass(facts).Some? ==> facts.unknown.Some?;
      assert todo[0] == CheckFreeze(frozen.value, ConditionOf(facts));
    }
  }

  lemma SessionSurvives(x: Session, j: seq<Entry>, k: seq<Entry>)
    requires SessionSound(x, j) && j <= k
    ensures SessionSound(x, k)
  {
    if x.stage.Acting? {
      assert j[..x.stage.checkedAt] == k[..x.stage.checkedAt];
    }
  }

  lemma ReadFactsEdits(s: System, k: nat, facts: Option<Facts>, at: int) returns (es: seq<Edit>)
    ensures Leads(s.rows, es, DoReconcile(s, ReadFacts(k, facts), at).rows)
  {
    var t := DoReconcile(s, ReadFacts(k, facts), at);
    es := [];
    if t.rows != s.rows {
      es := [SetDisplay(t.rows.display)];
      One(s.rows, es[0]);
    }
  }

  lemma ActEdits(s: System, k: nat, result: CommitResult, at: int) returns (es: seq<Edit>)
    requires HistorySound(s.rows) && SessionsSound(s)
    ensures Leads(s.rows, es, DoReconcile(s, Act(k, result), at).rows)
  {
    es := [];
    if Acts(s, k) && !result.RolledBack? {
      var x := s.sessions[k];
      assert SessionSound(x, s.rows.journal);
      es := PerformEdits(s.rows, x.seen, x.lease, x.stage.todo[0]);
    }
  }

  lemma ReconcileEdits(s: System, op: ReconcileOp, at: int) returns (es: seq<Edit>)
    requires HistorySound(s.rows) && SessionsSound(s)
    ensures Leads(s.rows, es, DoReconcile(s, op, at).rows)
  {
    match op
    case ReadFacts(k, facts) => es := ReadFactsEdits(s, k, facts, at);
    case Act(k, result) => es := ActEdits(s, k, result, at);
    case _ => es := [];
  }

  lemma ReconcileKeepsSessions(s: System, op: ReconcileOp, at: int)
    requires SessionsSound(s) && s.rows.journal <= DoReconcile(s, op, at).rows.journal
    ensures SessionsSound(DoReconcile(s, op, at))
  {
    var t := DoReconcile(s, op, at);
    forall k | k in t.sessions ensures SessionSound(t.sessions[k], t.rows.journal) {
      if k in s.sessions && t.sessions[k] == s.sessions[k] {
        SessionSurvives(s.sessions[k], s.rows.journal, t.rows.journal);
      } else if op.Decide? {
        NewPlanSound(s, op.session, at);
      } else if op.Act? {
        RestSound(s, op.session, op.result, at);
      }
    }
  }

  lemma NewPlanSound(s: System, k: nat, at: int)
    requires k in s.sessions && s.sessions[k].stage.SawFacts?
    ensures SessionSound(DoReconcile(s, Decide(k), at).sessions[k], s.rows.journal)
  {
    var x := s.sessions[k];
    var f := x.stage.facts;
    PlanSound(x.seen, x.stage.open, f, s.rows.journal, x.owner);
    assert s.rows.journal[..|s.rows.journal|] == s.rows.journal;
  }

  lemma RestSound(s: System, k: nat, result: CommitResult, at: int)
    requires SessionsSound(s) && Acts(s, k) && result.Reported?
    requires s.rows.journal <= DoReconcile(s, Act(k, result), at).rows.journal
    ensures SessionSound(DoReconcile(s, Act(k, result), at).sessions[k], DoReconcile(s, Act(k, result), at).rows.journal)
  {
    var t := DoReconcile(s, Act(k, result), at);
    var x := s.sessions[k];
    var rest := Rest(s.rows, x.stage.todo);
    assert TodoSound(x.stage.open, x.stage.facts, !Frozen(s.rows.journal[..x.stage.checkedAt]), x.owner, rest);
    assert t.sessions[k] == x.(stage := x.stage.(todo := rest));
    SessionSurvives(t.sessions[k], s.rows.journal, t.rows.journal);
  }

  lemma DoEdits(s: System, op: Op) returns (es: seq<Edit>)
    requires HistorySound(s.rows) && SessionsSound(s) && IssueSound(s)
    ensures Leads(s.rows, es, Do(s, op).rows)
  {
    match op
    case OnClaim(claim, at, timing) => if s.issuing.None? { es := ClaimEdits(s.rows, claim, at, timing); } else { es := []; }
    case OnDriver(driver, at) => es := DriverEdits(s, driver, at);
    case OnReconcile(reconcile, at) => es := ReconcileEdits(s, reconcile, at);
    case OnDisplay(display, at) => es := DisplayEdits(s.rows, display, at);
  }

  lemma DoKeepsSessions(s: System, op: Op)
    requires SessionsSound(s) && s.rows.journal <= Do(s, op).rows.journal
    ensures SessionsSound(Do(s, op))
  {
    if op.OnReconcile? {
      ReconcileKeepsSessions(s, op.reconcile, op.at);
    } else {
      var t := Do(s, op);
      assert t.sessions == s.sessions;
      forall k | k in t.sessions ensures SessionSound(t.sessions[k], t.rows.journal) {
        SessionSurvives(s.sessions[k], s.rows.journal, t.rows.journal);
      }
    }
  }

  /** While an issue is in flight nobody else writes the claim row. */
  lemma ClaimHeld(s: System, op: Op)
    requires s.issuing.Some? && Do(s, op).issuing.Some?
    ensures Do(s, op).rows.claim == s.rows.claim && Do(s, op).issuing == s.issuing
  {
    match op
    case OnClaim(claim, at, timing) =>
    case OnDriver(driver, at) =>
    case OnReconcile(reconcile, at) =>
    case OnDisplay(display, at) =>
  }

  /** Only a check opens an issue, under the claim and before any marker. */
  lemma IssueOpened(s: System, op: Op)
    requires s.issuing.None? && Do(s, op).issuing.Some?
    ensures op.OnDriver? && op.driver.CheckIssue? && Do(s, op).rows == s.rows
    ensures var d := op.driver;
            ExecutionOps.MayIssue(s.rows, d.owner, d.lease, d.gates, d.seen, op.at)
            && Do(s, op).issuing == Some(Issuing(d.owner, d.lease, d.step, d.action, d.seen, op.at, |s.rows.journal|))
  {
    match op
    case OnClaim(claim, at, timing) =>
    case OnDriver(driver, at) =>
    case OnReconcile(reconcile, at) =>
    case OnDisplay(display, at) =>
  }

  lemma DoKeepsIssue(s: System, op: Op)
    requires IssueSound(s) && s.rows.journal <= Do(s, op).rows.journal
    ensures IssueSound(Do(s, op))
  {
    var t := Do(s, op);
    if t.issuing.Some? {
      if s.issuing.Some? {
        ClaimHeld(s, op);
        assert t.rows.journal[..t.issuing.value.checkedAt] == s.rows.journal[..t.issuing.value.checkedAt];
      } else {
        IssueOpened(s, op);
        assert s.rows.journal[..|s.rows.journal|] == s.rows.journal;
      }
    }
  }

  lemma DoKeeps(s: System, op: Op)
    requires Sound(s)
    ensures Sound(Do(s, op)) && Extends(s.rows, Do(s, op).rows)
  {
    var es := DoEdits(s, op);
    LeadsKeeps(s.rows, es, Do(s, op).rows);
    DoKeepsSessions(s, op);
    DoKeepsIssue(s, op);
  }

  lemma FirstEntry(j: seq<Entry>, id: string)
    requires j == [IntentAdmitted]
    ensures Moves(j) == [] && RevisionsOrdered(j)
    ensures Openings(j, id) == 0 && Closings(j, id) == 0 && ClosedAs(j, id).None?
  {
    assert j[..|j| - 1] == [];
    assert [] + [IntentAdmitted] == j;
    AppendEntry([], IntentAdmitted, id);
  }

  lemma FirstHistory(r: Rows)
    requires r.intent == Intent(Admitted, 1) && r.journal == [IntentAdmitted] && r.stream == []
    requires r.display == Display(Admitted, 1, "", 0, Confirmed, None)
    ensures HistorySound(r) && DisplaySound(r) && NeverFailed(r) && RevisionsOrdered(r.journal) && AllPointBack(r.stream)
  {
    FirstEntry(r.journal, "");
    assert Moves(r.journal)[..0] == [];
  }

  lemma FirstSteps(r: Rows)
    requires r.claim.None? && r.acquired == [] && r.steps == [] && r.journal == [IntentAdmitted]
    ensures ClaimSound(r) && StepsFenced(r) && OneOpen(r.steps) && AllLogged(r) && OutcomesFit(r.steps)
  {
    forall id ensures Openings(r.journal, id) == 0 && Closings(r.journal, id) == 0 && ClosedAs(r.journal, id).None? {
      FirstEntry(r.journal, id);
    }
  }

  lemma StartSound()
    ensures Sound(Start())
  {
    FirstHistory(Start().rows);
    FirstSteps(Start().rows);
  }
}
