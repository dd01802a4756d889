/**
 * Every operation changes the rows by a short chain of edits of eight kinds, each of which is
 * made under a condition. What all runs keep is then proved once per kind of edit.
 */
module Edits {
  import opened Vocabulary
  import opened ExecutionRows
  import opened Reconciler
  import opened ExecutionSystem
  import ExecutionOps

  datatype Edit =
    | GrantLease(owner: string, at: int, timing: Timing)
    | TouchClaim(claim: Claim)
    | AddStep(id: string, action: Action, owner: string, lease: nat)
    | EndStep(id: string, fence: Fence, state: StepState, attempt: string, outcome: string, lease: nat)
    | MoveTo(to: IntentState, lease: nat)
    | AddNote(entry: Entry)
    | Announce(payload: Payload)
    | SetDisplay(display: Display)

  ghost predicate ClaimTouch(r: Rows, c: Claim) {
    r.claim.Some? && c.owner == r.claim.value.owner && c.lease == r.claim.value.lease
    && ((r.claim.value.status == Active <==> r.claim.value.endedAt.None?) ==> (c.status == Active <==> c.endedAt.None?))
  }

  ghost predicate DisplayTouch(r: Rows, d: Display) {
    && ((d.state == r.display.state && d.version == r.display.version)
        || WasIntent(r, Intent(d.state, d.version)))
    && ((r.display.freshness == PossiblyStale <==> r.display.staleSince.Some?) ==>
          (d.freshness == PossiblyStale <==> d.staleSince.Some?))
    && r.display.version <= d.version && r.display.lifecycle <= d.lifecycle
  }

  /** A revised event follows its own transition and names the version of the event before that. */
  ghost predicate PointsBack(stream: seq<Payload>, k: nat)
    requires k < |stream|
  {
    stream[k].RevisedResult? ==>
      k >= 2 && stream[k].supersedes == k - 1 && stream[k - 1] == StateChanged(stream[k].from, stream[k].to, 0)
  }

  /** When an edit may be made. */
  ghost predicate Legal(r: Rows, e: Edit) {
    match e
    case GrantLease(_, _, _) => true
    case TouchClaim(c) => ClaimTouch(r, c)
    case AddStep(id, _, owner, lease) =>
      r.claim.Some? && r.claim.value.owner == owner && r.claim.value.lease == lease
      && !HasOpen(r.steps) && !HasStep(r.steps, id)
    case EndStep(id, fence, state, _, outcome, _) =>
      state != Issued && OutcomeFits(state, outcome) && AnyMatch(r.steps, id, fence)
    case MoveTo(to, _) => Classify(r.intent.state, to) != NoEdge && to != Failed
    case AddNote(entry) => Neutral(entry) && (entry.RevisionApplied? ==> entry.revision > AppliedRevision(r.journal))
    case Announce(payload) => !payload.StateChanged? && PointsBack(r.stream + [payload], |r.stream|)
    case SetDisplay(d) => DisplayTouch(r, d)
  }

  function Make(r: Rows, e: Edit): Rows {
    match e
    case GrantLease(owner, at, timing) => Grant(r, owner, at, timing)
    case TouchClaim(c) => r.(claim := Some(c))
    case AddStep(id, action, owner, lease) => InsertStep(r, id, action, owner, lease)
    case EndStep(id, fence, state, attempt, outcome, lease) => CloseStep(r, id, fence, state, attempt, outcome, lease)
    case MoveTo(to, lease) => Move(r, r.intent, to, lease)
    case AddNote(entry) => Note(r, entry)
    case Announce(payload) => r.(stream := r.stream + [payload])
    case SetDisplay(d) => r.(display := d)
  }

  function MakeAll(r: Rows, es: seq<Edit>): Rows {
    if es == [] then r else Make(MakeAll(r, es[..|es| - 1]), es[|es| - 1])
  }

  ghost predicate LegalAll(r: Rows, es: seq<Edit>) {
    es != [] ==> LegalAll(r, es[..|es| - 1]) && Legal(MakeAll(r, es[..|es| - 1]), es[|es| - 1])
  }

  /** The edits `es` are legal and lead from `r` to `t`. */
  ghost predicate Leads(r: Rows, es: seq<Edit>, t: Rows) {
    LegalAll(r, es) && MakeAll(r, es) == t
  }

  lemma Extend(r: Rows, es: seq<Edit>, t: Rows, e: Edit)
    requires Leads(r, es, t) && Legal(t, e)
    ensures Leads(r, es + [e], Make(t, e))
  {
    assert (es + [e])[..|es + [e]| - 1] == es;
  }

  lemma One(r: Rows, e: Edit)
    requires Legal(r, e)
    ensures Leads(r, [e], Make(r, e))
  {
    Extend(r, [], r, e);
    assert [] + [e] == [e];
  }

  // ---- the operations as chains of edits ----

  lemma TakeClaimEdits(r: Rows, owner: string, onlyStalled: bool, at: int, timing: Timing) returns (es: seq<Edit>)
    ensures Leads(r, es, ExecutionOps.TakeClaim(r, owner, onlyStalled, at, timing))
  {
    var t := ExecutionOps.TakeClaim(r, owner, onlyStalled, at, timing);
    if t == r {
      es := [];
    } else {
      var grant := GrantLease(owner, at, timing);
      var note := AddNote(t.journal[|r.journal|]);
      One(r, grant);
      Extend(r, [grant], Make(r, grant), note);
      es := [grant] + [note];
    }
  }

  lemma ClaimEdits(r: Rows, op: ClaimOp, at: int, timing: Timing) returns (es: seq<Edit>)
    ensures Leads(r, es, DoClaim(r, op, at, timing))
  {
    var t := DoClaim(r, op, at, timing);
    es := [];
    match op
    case Acquire(owner) =>
      if t != r {
        es := [GrantLease(owner, at, timing)];
        One(r, es[0]);
      }
    case TakeClaim(owner, onlyStalled) => es := TakeClaimEdits(r, owner, onlyStalled, at, timing);
    case Revoke(lease, _) =>
      if t != r {
        var touch := TouchClaim(t.claim.value);
        One(r, touch);
        Extend(r, [touch], Make(r, touch), AddNote(ClaimRevoked(lease)));
        es := [touch] + [AddNote(ClaimRevoked(lease))];
      }
    case Flag =>
      if t != r {
        var touch := TouchClaim(t.claim.value);
        One(r, touch);
        Extend(r, [touch], Make(r, touch), AddNote(StallFlagged(r.claim.value.lease)));
        es := [touch] + [AddNote(StallFlagged(r.claim.value.lease))];
      }
    case _ =>
      if t != r {
        es := [TouchClaim(t.claim.value)];
        One(r, es[0]);
      }
  }

  /** The log rebuilds the state: see ExecutionTheorems.LogRebuildsState. */
  ghost predicate HistorySound(r: Rows) {
    Announced(r.stream) == Moves(r.journal)
    && r.intent.version == |Moves(r.journal)| + 1
    && Rebuild(Moves(r.journal)) == Some(r.intent.state)
  }

  lemma EditKeepsHistory(r: Rows, e: Edit)
    requires HistorySound(r) && Legal(r, e)
    ensures HistorySound(Make(r, e))
    ensures Moves(Make(r, e).journal) == Moves(r.journal) + if e.MoveTo? then [Hop(r.intent.state, e.to)] else []
  {
    if e.MoveTo? {
      MoveKeepsHistory(r, e.to, e.lease);
    } else {
      var t := Make(r, e);
      if |t.journal| > |r.journal| { MovesAppend(r.journal, t.journal[|r.journal|]); }
      if |t.stream| > |r.stream| { AnnouncedAppend(r.stream, t.stream[|r.stream|]); }
    }
  }

  lemma MovesAppend(j: seq<Entry>, e: Entry)
    ensures Moves(j + [e]) == Moves(j) + if e.StateMoved? then [Hop(e.from, e.to)] else []
  {
    assert (j + [e])[..|j + [e]| - 1] == j;
  }

  lemma AnnouncedAppend(ps: seq<Payload>, p: Payload)
    ensures Announced(ps + [p]) == Announced(ps) + if p.StateChanged? then [Hop(p.from, p.to)] else []
  {
    assert (ps + [p])[..|ps + [p]| - 1] == ps;
  }

  lemma MoveKeepsHistory(r: Rows, to: IntentState, lease: nat)
    requires HistorySound(r) && Classify(r.intent.state, to) != NoEdge
    ensures HistorySound(Move(r, r.intent, to, lease))
    ensures Moves(Move(r, r.intent, to, lease).journal) == Moves(r.journal) + [Hop(r.intent.state, to)]
  {
    MovesAppend(r.journal, StateMoved(r.intent.state, to, lease));
    AnnouncedAppend(r.stream, StateChanged(r.intent.state, to, lease));
    var m := Moves(r.journal);
    assert (m + [Hop(r.intent.state, to)])[..|m|] == m;
  }

  lemma CurrentIsWas(r: Rows)
    requires HistorySound(r)
    ensures WasIntent(r, r.intent)
  {
    assert Moves(r.journal)[..r.intent.version - 1] == Moves(r.journal);
  }

  lemma IssueEdits(r: Rows, owner: string, lease: nat, id: string, action: Action, seen: Intent, at: int)
    returns (es: seq<Edit>)
    requires r.claim.Some? && r.claim.value.owner == owner && r.claim.value.lease == lease
    ensures Leads(r, es, ExecutionOps.WriteIssue(r, owner, lease, id, action, seen, at))
  {
    var t := ExecutionOps.WriteIssue(r, owner, lease, id, action, seen, at);
    es := [];
    if t != r {
      var p := Progress(r, at);
      es := [TouchClaim(p.claim.value)];
      One(r, es[0]);
      var add := AddStep(id, action, owner, lease);
      Extend(r, es, p, add);
      es := es + [add];
      var q := Make(p, add);
      if t != q {
        assert CanMove(q, seen, Executing);
        Extend(r, es, q, MoveTo(Executing, lease));
        es := es + [MoveTo(Executing, lease)];
      }
    }
  }

  lemma ConvergeEdits(r: Rows, owner: string, lease: nat, id: string, answer: ExecutionOps.Answer, seen: Intent, at: int)
    returns (es: seq<Edit>)
    ensures Leads(r, es, ExecutionOps.Converge(r, owner, lease, id, answer, seen, at))
  {
    var t := ExecutionOps.Converge(r, owner, lease, id, answer, seen, at);
    es := [];
    if t != r {
      var p := Progress(r, at);
      es := [TouchClaim(p.claim.value)];
      One(r, es[0]);
      var end := EndStep(id, Holder(owner, lease), ExecutionOps.TerminalFor(answer).value,
                         ExecutionOps.AttemptOf(answer), ExecutionOps.ClassOf(answer), lease);
      Extend(r, es, p, end);
      es := es + [end];
      var q := Make(p, end);
      if ExecutionOps.LeavesUnknown(answer) {
        if seen.state == Executing && CanMove(q, seen, Reconciling) {
          var move := MoveTo(Reconciling, lease);
          Extend(r, es, q, move);
          es := es + [move];
          q := Make(q, move);
        }
        Extend(r, es, q, AddNote(Observation(id, ExecutionOps.OUTCOME_OBSERVED + ExecutionOps.ClassOf(answer))));
        es := es + [AddNote(Observation(id, ExecutionOps.OUTCOME_OBSERVED + ExecutionOps.ClassOf(answer)))];
      }
    }
  }

  /** The issue transaction in flight still holds the claim it checked, and checked before any marker. */
  ghost predicate IssueSound(s: System) {
    s.issuing.Some? ==>
      var p := s.issuing.value;
      Current(s.rows.claim, p.owner, p.lease, p.at)
      && p.checkedAt <= |s.rows.journal| && !Frozen(s.rows.journal[..p.checkedAt])
  }

  lemma DriverEdits(s: System, op: DriverOp, at: int) returns (es: seq<Edit>)
    requires IssueSound(s)
    ensures Leads(s.rows, es, DoDriver(s, op, at).rows)
  {
    es := [];
    match op
    case AdvanceToClaimed(lease) =>
      if DoDriver(s, op, at).rows != s.rows {
        es := [MoveTo(Claimed, lease)];
        One(s.rows, es[0]);
      }
    case CheckIssue(_, _, _, _, _, _) =>
    case CommitIssue(result) =>
      if s.issuing.Some? && !result.RolledBack? {
        var p := s.issuing.value;
        es := IssueEdits(s.rows, p.owner, p.lease, p.step, p.action, p.seen, p.at);
      }
    case Converge(owner, lease, step, answer, seen) =>
      if s.issuing.None? {
        es := ConvergeEdits(s.rows, owner, lease, step, answer, seen, at);
      }
  }

  lemma ReviseEdits(r: Rows, seen: Intent, revision: nat, attempt: string, chainFact: bool) returns (es: seq<Edit>)
    ensures Leads(r, es, ExecutionOps.Revise(r, seen, revision, attempt, chainFact))
  {
    es := [];
    if revision > AppliedRevision(r.journal) {
      if seen.state == Revised {
        es := ObserveEdits(r, revision, attempt);
      } else if Classify(seen.state, Revised) == Fact && CanMove(r, seen, Revised) {
        es := RevisionEdits(r, revision, attempt, chainFact);
      }
    }
  }

  /** A revision that moves the intent: the transition, its evidence, the event it supersedes and the display. */
  lemma RevisionEdits(r: Rows, revision: nat, attempt: string, chainFact: bool) returns (es: seq<Edit>)
    requires revision > AppliedRevision(r.journal) && r.intent.state != Revised && Classify(r.intent.state, Revised) == Fact
    ensures Leads(r, es, ExecutionOps.Revise(r, r.intent, revision, attempt, chainFact))
  {
    var q := Note(Move(r, r.intent, Revised, 0), RevisionApplied(r.intent.state, Revised, revision));
    es := RevisedState(r, revision);
    if |r.stream| > 0 && chainFact {
      var tell := Announce(RevisedResult(r.intent.state, Revised, |r.stream|));
      Extend(r, es, q, tell);
      es, q := es + [tell], Make(q, tell);
    }
    var show := SetDisplay(ShowLifecycle(q.display, attempt, revision));
    Extend(r, es, q, show);
    es := es + [show];
  }

  lemma RevisedState(r: Rows, revision: nat) returns (es: seq<Edit>)
    requires revision > AppliedRevision(r.journal) && r.intent.state != Revised && Classify(r.intent.state, Revised) == Fact
    ensures var q := Note(Move(r, r.intent, Revised, 0), RevisionApplied(r.intent.state, Revised, revision));
            Leads(r, es, q) && q.stream == r.stream + [StateChanged(r.intent.state, Revised, 0)]
  {
    NoteLegal(r, revision);
    es := Both(r, MoveTo(Revised, 0), AddNote(RevisionApplied(r.intent.state, Revised, revision)));
  }

  lemma NoteLegal(r: Rows, revision: nat)
    requires revision > AppliedRevision(r.journal) && Classify(r.intent.state, Revised) == Fact
    ensures Legal(Make(r, MoveTo(Revised, 0)), AddNote(RevisionApplied(r.intent.state, Revised, revision)))
  {
    var moved := StateMoved(r.intent.state, Revised, 0);
    AppliedStays(r.journal, moved);
    assert Make(r, MoveTo(Revised, 0)).journal == r.journal + [moved];
  }

  lemma Both(r: Rows, a: Edit, b: Edit) returns (es: seq<Edit>)
    requires Legal(r, a) && Legal(Make(r, a), b)
    ensures Leads(r, es, Make(Make(r, a), b))
  {
    One(r, a);
    Extend(r, [a], Make(r, a), b);
    es := [a] + [b];
  }

  lemma AppliedStays(j: seq<Entry>, e: Entry)
    requires !e.RevisionApplied?
    ensures AppliedRevision(j + [e]) == AppliedRevision(j)
  {
    assert (j + [e])[..|j + [e]| - 1] == j;
  }

  lemma ObserveEdits(r: Rows, revision: nat, attempt: string) returns (es: seq<Edit>)
    ensures Leads(r, es, ExecutionOps.Observe(r, revision, attempt))
  {
    es := [];
    if ExecutionOps.Observe(r, revision, attempt) != r {
      var show := SetDisplay(AdvanceLifecycle(r.display, attempt, revision));
      One(r, show);
      Extend(r, [show], Make(r, show), AddNote(DisplayRefreshed(revision)));
      es := [show] + [AddNote(DisplayRefreshed(revision))];
    }
  }

  lemma DisplayEdits(r: Rows, op: DisplayOp, at: int) returns (es: seq<Edit>)
    ensures Leads(r, es, DoDisplay(r, op, at))
  {
    match op
    case Revise(seen, revision, attempt, chainFact) => es := ReviseEdits(r, seen, revision, attempt, chainFact);
    case ObserveRevision(revision, attempt) =>
      if revision <= AppliedRevision(r.journal) { es := []; } else { es := ObserveEdits(r, revision, attempt); }
    case Refresh(authority) =>
      var t := DoDisplay(r, op, at);
      var show := SetDisplay(t.display);
      var note := AddNote(t.journal[|r.journal|]);
      One(r, show);
      Extend(r, [show], Make(r, show), note);
      es := [show] + [note];
    case ShowState(seen) =>
      es := [SetDisplay(DoDisplay(r, op, at).display)];
      One(r, es[0]);
  }

  /** The tasks a plan can hold. */
  ghost predicate TaskSound(a: Task) {
    (a.Close? ==> a.state != Issued && OutcomeFits(a.state, a.outcome)) && (a.Transition? ==> a.to in {Reconciling, Executing, Completed})
  }

  lemma PerformEdits(r: Rows, seen: Intent, lease: nat, a: Task) returns (es: seq<Edit>)
    requires TaskSound(a) && HistorySound(r)
    ensures Leads(r, es, Perform(r, seen, lease, a))
  {
    var t := Perform(r, seen, lease, a);
    es := [];
    if t != r {
      match a
      case RecordFreeze(class_, condition) =>
        es := [AddNote(Observation("", MarkerDetail(class_, condition)))];
        One(r, es[0]);
      case Close(step, state, attempt, outcome) =>
        es := [EndStep(step, Anyone, state, attempt, outcome, 0)];
        One(r, es[0]);
      case Observe(step, basis) =>
        es := [AddNote(Observation(step, INCONCLUSIVE + basis))];
        One(r, es[0]);
      case Transition(to) =>
        var move := MoveTo(to, lease);
        One(r, move);
        EditKeepsHistory(r, move);
        CurrentIsWas(Make(r, move));
        var show := SetDisplay(t.display);
        Extend(r, [move], Make(r, move), show);
        es := [move] + [show];
    }
  }
}
