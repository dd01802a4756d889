/**
 * Freezing. With each reconcile and each step issue as one step a recorded freeze stops everything that could
 * send; when transactions overlap, one whose check came first may still go through (see FreezeRaces).
 */
module Freezing {
  import opened Vocabulary
  import opened Texts
  import opened ExecutionRows
  import opened Reconciler
  import opened ExecutionSystem
  import ExecutionOps
  import opened ExecutionTheorems

  // ---- a reconcile as one step ----

  datatype WholeOp =
    | Single(op: Op)
    | Whole(owner: string, lease: nat, facts: Option<Facts>, at: int)
    | WholeIssue(owner: string, lease: nat, step: string, action: Action, gates: bool, seen: Intent, at: int)

  function DoWhole(r: Rows, op: WholeOp): Rows {
    match op
    case Single(op) => Do(System(r, map[], None), op).rows
    case Whole(owner, lease, facts, at) => Reconcile(r, owner, lease, facts, at)
    case WholeIssue(owner, lease, step, action, gates, seen, at) =>
      ExecutionOps.Issue(r, owner, lease, step, action, gates, seen, at)
  }

  function RunWhole(r: Rows, ops: seq<WholeOp>): Rows {
    if ops == [] then r else DoWhole(RunWhole(r, ops[..|ops| - 1]), ops[|ops| - 1])
  }

  predicate Harmless(todo: seq<Task>) {
    forall i :: 0 <= i < |todo| && todo[i].Transition? ==> !Sending(todo[i].to)
  }

  lemma {:induction false} PerformAllHarmless(r: Rows, seen: Intent, lease: nat, todo: seq<Task>)
    requires Harmless(todo)
    ensures PerformAll(r, seen, lease, todo).intent == r.intent || !Sending(PerformAll(r, seen, lease, todo).intent.state)
    ensures |PerformAll(r, seen, lease, todo).steps| == |r.steps|
    ensures r.journal <= PerformAll(r, seen, lease, todo).journal
    decreases Weight(todo)
  {
    if todo != [] {
      var next, rest := Perform(r, seen, lease, todo[0]), Rest(r, todo);
      RestLighter(r, todo);
      assert Harmless(rest);
      PerformAllHarmless(next, seen, lease, rest);
    }
  }

  lemma RestLighter(r: Rows, todo: seq<Task>)
    requires todo != []
    ensures Weight(Rest(r, todo)) < Weight(todo)
  {
    if todo[0].CheckFreeze? && !Frozen(r.journal) {
      assert Rest(r, todo)[1..] == todo[1..];
    }
  }

  lemma PrefixFrozen(a: seq<Entry>, b: seq<Entry>)
    requires a <= b && Frozen(a)
    ensures Frozen(b)
  {
    var k :| 0 <= k < |a| && IsMarker(a[k]);
    assert b[k] == a[k];
  }

  /** A whole reconcile of a frozen intent neither completes it nor makes it executing. */
  lemma FrozenReconcile(r: Rows, owner: string, lease: nat, facts: Option<Facts>, at: int)
    requires Frozen(r.journal) || (facts.Some? && FreezeClass(facts.value).Some?)
    ensures var t := Reconcile(r, owner, lease, facts, at);
            (t.intent == r.intent || !Sending(t.intent.state)) && |t.steps| == |r.steps| && r.journal <= t.journal
  {
    if facts.Some? {
      var f := facts.value;
      var shown := r.(display := ShowLifecycle(r.display, f.current, f.revision));
      var todo := Plan(r.intent, OpenStep(r.steps), f, FreezeSeen(f, r.journal), owner);
      PerformAllHarmless(shown, r.intent, lease, todo);
    }
  }

  /** A freeze that the facts report is on record when the reconcile ends. */
  lemma FreezeRecorded(r: Rows, owner: string, lease: nat, facts: Facts, at: int)
    requires FreezeClass(facts).Some?
    ensures Frozen(Reconcile(r, owner, lease, Some(facts), at).journal)
  {
    var class_ := FreezeClass(facts).value;
    var shown := r.(display := ShowLifecycle(r.display, facts.current, facts.revision));
    var todo := PlanFrozen(r.intent, OpenStep(r.steps), facts, class_);
    var rest := Rest(shown, todo);
    RestLighter(shown, todo);
    assert Harmless(rest);
    PerformAllHarmless(shown, r.intent, lease, rest);
    if Frozen(r.journal) {
      PrefixFrozen(r.journal, PerformAll(shown, r.intent, lease, rest).journal);
    } else {
      var marked := Perform(shown, r.intent, lease, rest[0]);
      MarkerIsMarker(class_, ConditionOf(facts));
      assert IsMarker(marked.journal[|r.journal|]);
      RestLighter(shown, rest);
      PerformAllHarmless(marked, r.intent, lease, Rest(shown, rest));
      PrefixFrozen(marked.journal, PerformAll(marked, r.intent, lease, Rest(shown, rest)).journal);
    }
  }

  lemma MarkerIsMarker(class_: string, condition: Option<string>)
    ensures IsMarker(Observation("", MarkerDetail(class_, condition)))
  {
    assert MarkerDetail(class_, condition)[..|FREEZE|] == FREEZE;
  }

  lemma FrozenSingle(r: Rows, op: Op)
    requires Frozen(r.journal)
    ensures var t := Do(System(r, map[], None), op).rows;
            (t.intent == r.intent || !Sending(t.intent.state)) && |t.steps| == |r.steps| && r.journal <= t.journal
  {
    var s := System(r, map[], None);
    SendsIff(s, op);
    OneMovePerOp(s, op);
    SingleGrows(r, op);
  }

  lemma SingleGrows(r: Rows, op: Op)
    ensures var t := Do(System(r, map[], None), op).rows; |r.steps| <= |t.steps| && r.journal <= t.journal
  {
    match op
    case OnClaim(claim, at, timing) =>
    case OnDriver(driver, at) =>
    case OnReconcile(reconcile, at) =>
    case OnDisplay(display, at) =>
  }

  /**
   * With reconciles and issues as single steps: after a freeze no step is issued, and an intent found
   * `completed` or `executing` has not moved since.
   */
  lemma {:induction false} FrozenForGood(r: Rows, ops: seq<WholeOp>)
    requires Frozen(r.journal)
    ensures Frozen(RunWhole(r, ops).journal)
    ensures |RunWhole(r, ops).steps| == |r.steps|
    ensures RunWhole(r, ops).intent == r.intent || !Sending(RunWhole(r, ops).intent.state)
  {
    if ops != [] {
      var mid, last := RunWhole(r, ops[..|ops| - 1]), ops[|ops| - 1];
      FrozenForGood(r, ops[..|ops| - 1]);
      match last
      case Single(op) => FrozenSingle(mid, op);
      case Whole(owner, lease, facts, at) => FrozenReconcile(mid, owner, lease, facts, at);
      case WholeIssue(_, _, _, _, _, _, _) =>
      PrefixFrozen(mid.journal, DoWhole(mid, last).journal);
    }
  }

  // ---- how often a freeze is recorded ----

  function Markers(j: seq<Entry>): nat {
    if j == [] then 0 else Markers(j[..|j| - 1]) + if IsMarker(j[|j| - 1]) then 1 else 0
  }

  lemma MarkersAppend(j: seq<Entry>, e: Entry)
    ensures Markers(j + [e]) == Markers(j) + if IsMarker(e) then 1 else 0
  {
    assert (j + [e])[..|j + [e]| - 1] == j;
  }

  /** The entries of `b` beyond those of `a`, none of which is a marker. */
  predicate PlainGrowth(a: seq<Entry>, b: seq<Entry>) {
    a <= b && forall k :: |a| <= k < |b| ==> !IsMarker(b[k])
  }

  lemma {:induction false} PlainKeepsMarkers(a: seq<Entry>, b: seq<Entry>)
    requires PlainGrowth(a, b)
    ensures Markers(b) == Markers(a)
    decreases |b|
  {
    if |a| < |b| {
      PlainKeepsMarkers(a, b[..|b| - 1]);
    } else {
      assert a == b;
    }
  }

  lemma {:induction false} NoMarkerIff(j: seq<Entry>)
    ensures Markers(j) == 0 <==> !Frozen(j)
  {
    if j != [] {
      var init := j[..|j| - 1];
      NoMarkerIff(init);
      if Frozen(init) {
        PrefixFrozen(init, j);
      }
    }
  }

  lemma ObservationsPlain(step: string, text: string)
    ensures !IsMarker(Observation(step, INCONCLUSIVE + text))
    ensures !IsMarker(Observation(step, ExecutionOps.OUTCOME_OBSERVED + text))
  {
    assert (INCONCLUSIVE + text)[0] == 'i' && (ExecutionOps.OUTCOME_OBSERVED + text)[0] == 'r' && FREEZE[0] == 'f';
  }

  lemma DriverPlain(s: System, op: DriverOp, at: int)
    ensures PlainGrowth(s.rows.journal, DoDriver(s, op, at).rows.journal)
  {
    if op.Converge? { ObservationsPlain(op.step, ExecutionOps.ClassOf(op.answer)); }
  }

  lemma DisplayPlain(r: Rows, op: DisplayOp, at: int)
    ensures PlainGrowth(r.journal, DoDisplay(r, op, at).journal)
  {}

  lemma ClaimPlain(r: Rows, op: ClaimOp, at: int, timing: Timing)
    ensures PlainGrowth(r.journal, DoClaim(r, op, at, timing).journal)
  {}

  /** The operation writes a freeze marker. */
  predicate Marking(s: System, op: Op) {
    op.OnReconcile? && op.reconcile.Act? && Acts(s, op.reconcile.session) && !op.reconcile.result.RolledBack?
    && s.sessions[op.reconcile.session].stage.todo[0].RecordFreeze?
  }

  lemma ReconcileMarks(s: System, op: ReconcileOp, at: int)
    ensures Markers(DoReconcile(s, op, at).rows.journal)
         == Markers(s.rows.journal) + if Marking(s, OnReconcile(op, at)) then 1 else 0
  {
    if op.Act? && Acts(s, op.session) && !op.result.RolledBack? {
      var x := s.sessions[op.session];
      var task := x.stage.todo[0];
      var t := Perform(s.rows, x.seen, x.lease, task);
      if task.RecordFreeze? {
        MarkerIsMarker(task.class_, task.condition);
        MarkersAppend(s.rows.journal, Observation("", MarkerDetail(task.class_, task.condition)));
      } else {
        if task.Observe? { ObservationsPlain(task.step, task.basis); }
        PlainKeepsMarkers(s.rows.journal, t.journal);
      }
    }
  }

  /** An operation adds a marker exactly when it is a reconcile's recording. */
  lemma StepMarks(s: System, op: Op)
    ensures Markers(Do(s, op).rows.journal) == Markers(s.rows.journal) + if Marking(s, op) then 1 else 0
  {
    match op
    case OnClaim(claim, at, timing) =>
      ClaimPlain(s.rows, claim, at, timing);
      PlainKeepsMarkers(s.rows.journal, Do(s, op).rows.journal);
    case OnDriver(driver, at) =>
      DriverPlain(s, driver, at);
      PlainKeepsMarkers(s.rows.journal, Do(s, op).rows.journal);
    case OnReconcile(reconcile, at) => ReconcileMarks(s, reconcile, at);
    case OnDisplay(display, at) =>
      DisplayPlain(s.rows, display, at);
      PlainKeepsMarkers(s.rows.journal, Do(s, op).rows.journal);
  }

  /** A reconcile records a freeze that somebody has recorded since it checked. */
  predicate MarksAgain(s: System, op: Op) {
    Marking(s, op) && Frozen(s.rows.journal)
  }

  lemma StepMarksOnce(s: System, op: Op)
    ensures Markers(Do(s, op).rows.journal) <= 1 <==> Markers(s.rows.journal) <= 1 && !MarksAgain(s, op)
  {
    StepMarks(s, op);
    NoMarkerIff(s.rows.journal);
  }

  lemma MarkedOnceAt(trace: seq<System>, ops: seq<Op>, i: nat)
    requires Behavior(trace, ops) && i < |ops|
    ensures Markers(trace[i + 1].rows.journal) <= 1 <==> Markers(trace[i].rows.journal) <= 1 && !MarksAgain(trace[i], ops[i])
  {
    assert ExecutionTheorems.Step(trace, ops, i);
    StepMarksOnce(trace[i], ops[i]);
  }

  /** In every run a freeze is recorded at most once if and only if no reconcile records one that stands already. */
  lemma {:induction false} RecordedOnceIff(trace: seq<System>, ops: seq<Op>, n: nat)
    requires Behavior(trace, ops) && n <= |ops|
    ensures Markers(trace[n].rows.journal) <= 1 <==> forall i :: 0 <= i < n ==> !MarksAgain(trace[i], ops[i])
  {
    if n == 0 {
      NoMarkerIff(trace[0].rows.journal);
    } else {
      RecordedOnceIff(trace, ops, n - 1);
      MarkedOnceAt(trace, ops, n - 1);
    }
  }

  /** Every recording directly follows its own reconcile's check. */
  ghost predicate RecordsAtOnce(trace: seq<System>, ops: seq<Op>)
    requires |trace| == |ops| + 1
  {
    forall i :: 0 <= i < |ops| && Marking(trace[i], ops[i]) ==>
      i > 0 && ops[i - 1].OnReconcile? && ops[i - 1].reconcile == Act(ops[i].reconcile.session, Reported)
      && Acts(trace[i - 1], ops[i].reconcile.session)
      && trace[i - 1].sessions[ops[i].reconcile.session].stage.todo[0].CheckFreeze?
  }

  lemma CheckedJustNow(s: System, k: nat, at: int)
    requires Acts(s, k) && s.sessions[k].stage.todo[0].CheckFreeze?
    ensures var t := Do(s, OnReconcile(Act(k, Reported), at));
            t.rows == s.rows
            && (Frozen(s.rows.journal) ==> k in t.sessions && t.sessions[k].stage.todo == s.sessions[k].stage.todo[1..])
  {}

  /** No plan records without checking. */
  lemma {:induction false} OneFreezeTask(trace: seq<System>, ops: seq<Op>, i: nat, k: nat)
    requires Behavior(trace, ops) && i <= |ops| && Acts(trace[i], k)
    ensures forall m :: 0 < m < |trace[i].sessions[k].stage.todo| ==> !trace[i].sessions[k].stage.todo[m].RecordFreeze?
  {
    if i > 0 {
      assert ExecutionTheorems.Step(trace, ops, i - 1);
      var s, op := trace[i - 1], ops[i - 1];
      TodoComesFrom(s, op, k);
      if k in s.sessions && s.sessions[k].stage.Acting? && s.sessions[k].stage.todo != [] {
        OneFreezeTask(trace, ops, i - 1, k);
      }
    }
  }

  lemma TodoComesFrom(s: System, op: Op, k: nat)
    requires Acts(Do(s, op), k)
    ensures var todo := Do(s, op).sessions[k].stage.todo;
            (Acts(s, k) && (todo == s.sessions[k].stage.todo || todo == Rest(s.rows, s.sessions[k].stage.todo)))
            || (forall m :: 0 <= m < |todo| ==> !todo[m].RecordFreeze?)
  {
    if op.OnReconcile? { ReconcileTodo(s, op.reconcile, op.at, k); }
  }

  lemma ReconcileTodo(s: System, op: ReconcileOp, at: int, k: nat)
    requires Acts(DoReconcile(s, op, at), k)
    ensures var todo := DoReconcile(s, op, at).sessions[k].stage.todo;
            (Acts(s, k) && (todo == s.sessions[k].stage.todo || todo == Rest(s.rows, s.sessions[k].stage.todo)))
            || (forall m :: 0 <= m < |todo| ==> !todo[m].RecordFreeze?)
  {
    match op
    case Begin(j, owner, lease) =>
    case ReadStep(j) =>
    case ReadFacts(j, facts) =>
    case Decide(j) =>
      if j in s.sessions && s.sessions[j].stage.SawFacts? {
        var x := s.sessions[j];
        PlanRecordsNothing(x.seen, x.stage.open, x.stage.facts, FreezeSeen(x.stage.facts, s.rows.journal), x.owner);
      }
    case Act(j, result) =>
  }

  lemma PlanRecordsNothing(seen: Intent, open: Option<string>, facts: Facts, frozen: Option<string>, owner: string)
    ensures var todo := Plan(seen, open, facts, frozen, owner);
            forall m :: 0 <= m < |todo| ==> !todo[m].RecordFreeze?
  {}

  lemma AtOnceIsFirst(trace: seq<System>, ops: seq<Op>, i: nat)
    requires Behavior(trace, ops) && i < |ops| && RecordsAtOnce(trace, ops)
    ensures !MarksAgain(trace[i], ops[i])
  {
    if Marking(trace[i], ops[i]) && Frozen(trace[i].rows.journal) {
      var k := ops[i].reconcile.session;
      assert ExecutionTheorems.Step(trace, ops, i - 1);
      CheckedJustNow(trace[i - 1], k, ops[i - 1].at);
      OneFreezeTask(trace, ops, i - 1, k);
    }
  }

  /** So it is recorded at most once whenever nothing comes between a reconcile's check and its recording. */
  lemma RecordedOnce(trace: seq<System>, ops: seq<Op>, n: nat)
    requires Behavior(trace, ops) && n <= |ops| && RecordsAtOnce(trace, ops)
    ensures Markers(trace[n].rows.journal) <= 1
  {
    forall i | 0 <= i < n ensures !MarksAgain(trace[i], ops[i]) { AtOnceIsFirst(trace, ops, i); }
    RecordedOnceIff(trace, ops, n);
  }

  // ---- a whole reconcile is one of the interleavings ----

  function Repeat(op: Op, n: nat): seq<Op> {
    seq(n, _ => op)
  }

  lemma {:induction false} ActAll(s: System, k: nat, at: int) returns (n: nat)
    requires k in s.sessions && s.sessions[k].stage.Acting?
    ensures var x := s.sessions[k];
            var t := Run(s, Repeat(OnReconcile(Act(k, Reported), at), n));
            t.rows == PerformAll(s.rows, x.seen, x.lease, x.stage.todo) && t.issuing == s.issuing
    decreases Weight(s.sessions[k].stage.todo)
  {
    var x := s.sessions[k];
    var op := OnReconcile(Act(k, Reported), at);
    if x.stage.todo == [] {
      n := 0;
    } else {
      var t := Do(s, op);
      RestLighter(s.rows, x.stage.todo);
      var m := ActAll(t, k, at);
      n := m + 1;
      RunSnoc(s, [], op);
      assert [] + [op] == [op];
      RunConcat(s, [op], Repeat(op, m));
      assert [op] + Repeat(op, m) == Repeat(op, n);
    }
  }

  /** Reconcile is what its session does when nothing comes in between. */
  lemma WholeIsRun(s: System, k: nat, owner: string, lease: nat, facts: Option<Facts>, at: int) returns (ops: seq<Op>)
    ensures Run(s, ops).rows == Reconcile(s.rows, owner, lease, facts, at) && Run(s, ops).issuing == s.issuing
  {
    var a := OnReconcile(Begin(k, owner, lease), at);
    var b := OnReconcile(ReadStep(k), at);
    var c := OnReconcile(ReadFacts(k, facts), at);
    RunSnoc(s, [], a);
    RunSnoc(s, [a], b);
    RunSnoc(s, [a, b], c);
    assert [] + [a] == [a] && [a] + [b] == [a, b] && [a, b] + [c] == [a, b, c];
    ops := [a, b, c];
    if facts.Some? {
      var d := OnReconcile(Decide(k), at);
      RunSnoc(s, ops, d);
      var t := Run(s, ops + [d]);
      var n := ActAll(t, k, at);
      RunConcat(s, ops + [d], Repeat(OnReconcile(Act(k, Reported), at), n));
      ops := ops + [d] + Repeat(OnReconcile(Act(k, Reported), at), n);
    }
  }

  lemma CheckThenCommit(s: System, owner: string, lease: nat, step: string, action: Action, gates: bool, seen: Intent, at: int)
    requires s.issuing.None?
    ensures Do(Do(s, OnDriver(CheckIssue(owner, lease, step, action, gates, seen), at)), OnDriver(CommitIssue(Reported), at))
         == s.(rows := ExecutionOps.Issue(s.rows, owner, lease, step, action, gates, seen, at))
  {}

  /** An issue as one step is its check followed by its commit. */
  lemma WholeIssueIsRun(s: System, owner: string, lease: nat, step: string, action: Action, gates: bool, seen: Intent, at: int)
    returns (ops: seq<Op>)
    requires s.issuing.None?
    ensures ops == [OnDriver(CheckIssue(owner, lease, step, action, gates, seen), at)] + [OnDriver(CommitIssue(Reported), at)]
    ensures Run(s, ops) == s.(rows := ExecutionOps.Issue(s.rows, owner, lease, step, action, gates, seen, at))
  {
    var a, b := OnDriver(CheckIssue(owner, lease, step, action, gates, seen), at), OnDriver(CommitIssue(Reported), at);
    ops := [a] + [b];
    CheckThenCommit(s, owner, lease, step, action, gates, seen, at);
    RunSnoc(s, [], a);
    assert [] + [a] == [a];
    RunSnoc(s, [a], b);
  }

  // ---- the class a marker carries ----

  lemma {:induction false} PrefixContained(s: string, word: string, tail: string)
    requires Contains(s, word + tail)
    ensures Contains(s, word)
  {
    if HasPrefix(s, word + tail) {
      assert s[..|word|] == (word + tail)[..|word|] == word;
    } else if !HasPrefix(s, word) {
      PrefixContained(s[1..], word, tail);
    }
  }

  /** A condition freezes exactly when it names a freeze or a lost lock, in any case and anywhere in the text. */
  lemma FreezeRecognized(facts: Facts)
    ensures FreezeClass(facts).Some? <==>
              facts.unknown.Some?
              && var c := ToLower(facts.unknown.value.condition);
                 Contains(c, "freeze") || Contains(c, "lock_loss") || Contains(c, "lock-loss") || Contains(c, "lockloss")
    ensures FreezeClass(facts).Some? ==> FreezeClass(facts).value != ""
  {
    if facts.unknown.Some? {
      var c := ToLower(facts.unknown.value.condition);
      assert "freeze" + ":" == FREEZE;
      if Contains(c, FREEZE) { PrefixContained(c, "freeze", ":"); }
      if c == "" {
        NothingInEmpty("freeze");
        NothingInEmpty("lock_loss");
        NothingInEmpty("lock-loss");
        NothingInEmpty("lockloss");
      }
    }
  }

  lemma NothingInEmpty(word: string)
    requires word != ""
    ensures !Contains("", word)
  {}

  /** The class is read back from its marker exactly when it holds no blank and no tab. */
  lemma FreezeClassRoundTrip(j: seq<Entry>, class_: string, condition: Option<string>)
    ensures var e := Observation("", MarkerDetail(class_, condition));
            FrozenClass(j + [e]) == Some(class_) <==> BlankFree(class_)
  {
    var detail := MarkerDetail(class_, condition);
    var e := Observation("", detail);
    var tail := if condition.Some? then " condition=" + condition.value else "";
    MarkerIsMarker(class_, condition);
    assert detail[|FREEZE|..] == class_ + tail;
    UpToBlankWord(class_, tail);
  }

  /** The recorded class is cut at its first blank when it is read back after the reconcile that recorded it. */
  lemma ClassCutShort(r: Rows, owner: string, lease: nat, facts: Facts, at: int)
    requires !Frozen(r.journal) && OpenStep(r.steps).None? && FreezeClass(facts).Some?
    ensures FrozenClass(Reconcile(r, owner, lease, Some(facts), at).journal) == Some(UpToBlank(FreezeClass(facts).value))
    ensures FrozenClass(Reconcile(r, owner, lease, Some(facts), at).journal) == FreezeClass(facts) <==> BlankFree(FreezeClass(facts).value)
  {
    var class_ := FreezeClass(facts).value;
    var shown := r.(display := ShowLifecycle(r.display, facts.current, facts.revision));
    var check := CheckFreeze(class_, ConditionOf(facts));
    assert PlanFrozen(r.intent, None, facts, class_) == [check] + [];
    PerformCheck(shown, r.intent, lease, class_, ConditionOf(facts), []);
    var e := Observation("", MarkerDetail(class_, ConditionOf(facts)));
    assert Reconcile(r, owner, lease, Some(facts), at).journal == r.journal + [e];
    ReadBack(r.journal, class_, ConditionOf(facts));
    FreezeClassRoundTrip(r.journal, class_, ConditionOf(facts));
  }

  lemma ReadBack(j: seq<Entry>, class_: string, condition: Option<string>)
    ensures FrozenClass(j + [Observation("", MarkerDetail(class_, condition))]) == Some(UpToBlank(class_))
  {
    var detail := MarkerDetail(class_, condition);
    var tail := if condition.Some? then " condition=" + condition.value else "";
    MarkerIsMarker(class_, condition);
    assert detail[|FREEZE|..] == class_ + tail;
    UpToBlankExtends(class_, tail);
  }

  lemma {:induction false} UpToBlankExtends(w: string, rest: string)
    requires rest == "" || rest[0] == ' '
    ensures UpToBlank(w + rest) == UpToBlank(w)
  {
    if w == "" {
      assert w + rest == rest;
    } else {
      assert (w + rest)[1..] == w[1..] + rest;
      UpToBlankExtends(w[1..], rest);
    }
  }

  /** The class is the trimmed text after the first "freeze:", wherever it stands, or a lost lock when no text follows. */
  lemma FreezeClassIs(facts: Facts, before: string, after: string)
    requires facts.unknown.Some? && ToLower(facts.unknown.value.condition) == before + "freeze:" + after
    requires forall k :: 0 <= k < |before| ==> !OccursAt(before + "freeze:" + after, "freeze:", k)
    ensures FreezeClass(facts) == Some(if TrimSpace(after) == "" then "lock_loss" else TrimSpace(after))
  {
    var cond := before + FREEZE + after;
    assert cond[|before|..|before| + |FREEZE|] == FREEZE;
    IndexOfFirst(cond, FREEZE, |before|);
    var i := IndexOf(cond, FREEZE).value;
    assert i == |before|;
    assert cond[i + |FREEZE|..] == after;
  }

  /** Without "freeze:" the class is a lost lock or nothing, and it is one exactly when a freeze or a lost lock is named. */
  lemma FreezeClassNamed(facts: Facts, cond: string)
    requires facts.unknown.Some? && ToLower(facts.unknown.value.condition) == cond
    requires forall k: nat :: !OccursAt(cond, "freeze:", k)
    ensures FreezeClass(facts)
         == if exists k: nat :: OccursAt(cond, "lock_loss", k) || OccursAt(cond, "lock-loss", k)
                                || OccursAt(cond, "lockloss", k) || OccursAt(cond, "freeze", k)
            then Some("lock_loss") else None
  {
    if k: nat :| OccursAt(cond, "lock_loss", k) || OccursAt(cond, "lock-loss", k)
                 || OccursAt(cond, "lockloss", k) || OccursAt(cond, "freeze", k) {
      if OccursAt(cond, "lock_loss", k) {
        IndexOfFirst(cond, "lock_loss", k);
      } else if OccursAt(cond, "lock-loss", k) {
        IndexOfFirst(cond, "lock-loss", k);
      } else if OccursAt(cond, "lockloss", k) {
        IndexOfFirst(cond, "lockloss", k);
      } else {
        IndexOfFirst(cond, "freeze", k);
      }
    }
  }

  lemma FreezeText(facts: Facts, condition: string, word: string)
    requires facts.unknown.Some? && facts.unknown.value.condition == condition && ToLower(condition) == FREEZE + word
    requires word != "" && TrimSpace(word) == word
    ensures FreezeClass(facts) == Some(word)
  {
    var cond := ToLower(condition);
    assert cond[..|FREEZE|] == FREEZE;
    assert IndexOf(cond, FREEZE) == Some(0);
    assert cond[0 + |FREEZE|..] == word;
  }

  /** A class of two words is recorded whole and read back as its first word. */
  lemma SecondWordLost(r: Rows, owner: string, lease: nat, facts: Facts, first: string, second: string, at: int)
    requires !Frozen(r.journal) && OpenStep(r.steps).None?
    requires FreezeClass(facts) == Some(first + (" " + second)) && BlankFree(first)
    ensures FrozenClass(Reconcile(r, owner, lease, Some(facts), at).journal) == Some(first)
  {
    ClassCutShort(r, owner, lease, facts, at);
    UpToBlankExtends(first, " " + second);
    UpToBlankWord(first, "");
    assert first + "" == first;
  }

  lemma LowerText()
    ensures ToLower("freeze:a b") == FREEZE + "a b"
  {}

  lemma TrimmedText(s: string)
    requires |s| > 0 && s[0] == 'a' && s[|s| - 1] == 'b'
    ensures TrimSpace(s) == s
  {
    TrimSpaceFixed(s);
  }

  /** The condition "freeze:a b" is recorded as class "a b" and read back as class "a". */
  lemma TwoWordClass(r: Rows, owner: string, lease: nat, facts: Facts, at: int)
    requires !Frozen(r.journal) && OpenStep(r.steps).None?
    requires facts.unknown.Some? && facts.unknown.value.condition == "freeze:a b"
    ensures FreezeClass(facts) == Some("a b")
    ensures FrozenClass(Reconcile(r, owner, lease, Some(facts), at).journal) == Some("a")
  {
    LowerText();
    TrimmedText("a b");
    assert "a b" == "a" + (" " + "b");
    FreezeText(facts, "freeze:a b", "a b");
    SecondWordLost(r, owner, lease, facts, "a", "b", at);
  }
}
