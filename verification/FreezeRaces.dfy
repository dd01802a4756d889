/** Three short runs in which overlapping transactions outrun a freeze. */
module FreezeRaces {
  import opened Vocabulary
  import opened Texts
  import opened ExecutionRows
  import opened Reconciler
  import opened ExecutionSystem
  import opened Freezing

  const timing := Timing(10, 20)
  const frozenFacts := Facts([], "", 0, Some(UnknownRef("", "", "freeze:")), "")
  const sentFacts := Facts([AttemptRef("a", "sent")], "a", 0, None, "")

  lemma BareFreeze(facts: Facts, condition: string)
    requires facts.unknown.Some? && facts.unknown.value.condition == condition && ToLower(condition) == FREEZE
    ensures FreezeClass(facts) == Some(LOCK_LOSS)
  {
    var cond := ToLower(condition);
    assert cond[..|FREEZE|] == FREEZE;
    var rest := cond[0 + |FREEZE|..];
    assert rest == "";
  }

  lemma FrozenFacts()
    ensures FreezeClass(frozenFacts) == Some(LOCK_LOSS)
  {
    assert ToLower("freeze:") == FREEZE;
    BareFreeze(frozenFacts, "freeze:");
  }

  function Step(reconcile: ReconcileOp): Op {
    OnReconcile(reconcile, 0)
  }

  /** A reconcile up to the point where it has decided what to do. */
  function Decided(s: System, k: nat, facts: Facts): System {
    Do(Do(Do(Do(s, Step(Begin(k, "w", 1))), Step(ReadStep(k))), Step(ReadFacts(k, Some(facts)))), Step(Decide(k)))
  }

  function DecidedOps(k: nat, facts: Facts): seq<Op> {
    [Step(Begin(k, "w", 1)), Step(ReadStep(k)), Step(ReadFacts(k, Some(facts))), Step(Decide(k))]
  }

  lemma DecidedRun(s: System, k: nat, facts: Facts)
    ensures Run(s, DecidedOps(k, facts)) == Decided(s, k, facts)
  {
    var ops := DecidedOps(k, facts);
    RunSnoc(s, ops[..3], ops[3]);
    RunSnoc(s, ops[..2], ops[2]);
    RunSnoc(s, ops[..1], ops[1]);
    RunSnoc(s, [], ops[0]);
    assert ops[..3] + [ops[3]] == ops && ops[..2] + [ops[2]] == ops[..3] && ops[..1] + [ops[1]] == ops[..2]
           && [] + [ops[0]] == ops[..1];
  }

  lemma Run2(s: System, a: Op, b: Op)
    ensures Run(s, [a, b]) == Do(Do(s, a), b)
  {
    RunSnoc(s, [], a);
    RunSnoc(s, [a], b);
    assert [] + [a] == [a] && [a] + [b] == [a, b];
  }

  /** What a decided reconcile leaves: its plan, and a display that has seen the facts. */
  lemma DecidedShape(s: System, k: nat, facts: Facts)
    ensures var t := Decided(s, k, facts);
            t.rows == s.rows.(display := ShowLifecycle(s.rows.display, facts.current, facts.revision))
            && t.sessions == s.sessions[k := Session(s.rows.intent, "w", 1,
                 Acting(OpenStep(s.rows.steps), facts, |s.rows.journal|,
                        Plan(s.rows.intent, OpenStep(s.rows.steps), facts, FreezeSeen(facts, s.rows.journal), "w")))]
            && t.issuing == s.issuing
  {
    var s1 := Do(s, Step(Begin(k, "w", 1)));
    var s2 := Do(s1, Step(ReadStep(k)));
    assert s2.sessions[k].stage == SawStep(OpenStep(s.rows.steps));
    var s3 := Do(s2, Step(ReadFacts(k, Some(facts))));
    assert s3.sessions[k].stage == SawFacts(OpenStep(s.rows.steps), facts);
  }

  lemma DecidedFrozen(s: System, k: nat)
    requires !Frozen(s.rows.journal)
    ensures var t := Decided(s, k, frozenFacts);
            Acts(t, k) && t.sessions[k].stage.todo[0] == CheckFreeze(LOCK_LOSS, Some("freeze:"))
            && t.rows.journal == s.rows.journal && t.rows.steps == s.rows.steps && t.rows.intent == s.rows.intent
            && t.sessions == s.sessions[k := t.sessions[k]] && t.issuing == s.issuing
  {
    FrozenFacts();
    DecidedShape(s, k, frozenFacts);
  }

  /** Checks and then records a freeze that nobody has recorded yet. */
  lemma Recorded(s: System, k: nat)
    requires Acts(s, k) && s.sessions[k].stage.todo[0] == CheckFreeze(LOCK_LOSS, Some("freeze:"))
    requires !Frozen(s.rows.journal)
    ensures var t := Do(s, Step(Act(k, Reported)));
            t.rows == s.rows && Acts(t, k)
            && t.sessions == s.sessions[k := t.sessions[k]] && t.issuing == s.issuing
            && t.sessions[k].stage.todo[0] == RecordFreeze(LOCK_LOSS, Some("freeze:"))
  {}

  lemma Marks(s: System, k: nat)
    requires Acts(s, k) && s.sessions[k].stage.todo[0] == RecordFreeze(LOCK_LOSS, Some("freeze:"))
    ensures var t := Do(s, Step(Act(k, Reported)));
            Frozen(t.rows.journal) && Markers(t.rows.journal) == Markers(s.rows.journal) + 1
            && t.rows.intent == s.rows.intent && t.rows.steps == s.rows.steps
            && t.sessions == s.sessions[k := t.sessions[k]] && t.issuing == s.issuing
  {
    var t := Do(s, Step(Act(k, Reported)));
    MarkerIsMarker(LOCK_LOSS, Some("freeze:"));
    assert IsMarker(t.rows.journal[|s.rows.journal|]);
    assert t.rows.journal[..|t.rows.journal| - 1] == s.rows.journal;
  }

  /** Two reconciles that both check before either records leave two markers: the evidence is not written exactly once. */
  lemma TwoMarkers() returns (ops: seq<Op>)
    ensures Markers(Run(Start(), ops).rows.journal) == 2
  {
    var s := Start();
    var s1 := Decided(s, 1, frozenFacts);
    var s2 := Decided(s1, 2, frozenFacts);
    var act1, act2 := Step(Act(1, Reported)), Step(Act(2, Reported));
    var s3 := Do(s2, act1);
    var s4 := Do(s3, act2);
    var s5 := Do(s4, act1);
    var s6 := Do(s5, act2);
    DecidedFrozen(s, 1);
    DecidedFrozen(s1, 2);
    Recorded(s2, 1);
    Recorded(s3, 2);
    Marks(s4, 1);
    Marks(s5, 2);
    assert s.rows.journal[..0] == [];
    assert Markers(s.rows.journal) == 0;
    ops := DecidedOps(1, frozenFacts) + DecidedOps(2, frozenFacts) + [act1, act2] + [act1, act2];
    DecidedRun(s, 1, frozenFacts);
    DecidedRun(s1, 2, frozenFacts);
    RunConcat(s, DecidedOps(1, frozenFacts), DecidedOps(2, frozenFacts));
    Run2(s2, act1, act2);
    RunConcat(s, DecidedOps(1, frozenFacts) + DecidedOps(2, frozenFacts), [act1, act2]);
    Run2(s4, act1, act2);
    RunConcat(s, DecidedOps(1, frozenFacts) + DecidedOps(2, frozenFacts) + [act1, act2], [act1, act2]);
  }

  // ---- issuing after a freeze ----

  const claimOps := [OnClaim(Acquire("w"), 0, timing), OnDriver(AdvanceToClaimed(1), 0)]
  const check := OnDriver(CheckIssue("w", 1, "s", FirstBroadcast, true, Intent(Claimed, 2)), 0)
  const commit := OnDriver(CommitIssue(Reported), 0)

  /** Claimed, with an issue that has checked and not yet committed. */
  lemma Checked()
    ensures var s := Run(Start(), claimOps + [check]);
            s.rows.intent == Intent(Claimed, 2) && !Frozen(s.rows.journal) && s.sessions == map[] && s.rows.steps == []
            && s.issuing == Some(Issuing("w", 1, "s", FirstBroadcast, Intent(Claimed, 2), 0, |s.rows.journal|))
            && s.rows.claim.Some?
  {
    Run2(Start(), claimOps[0], claimOps[1]);
    assert claimOps == [claimOps[0], claimOps[1]];
    RunSnoc(Start(), claimOps, check);
  }

  lemma Commits(s: System)
    requires s.rows.intent == Intent(Claimed, 2) && s.rows.steps == [] && s.rows.claim.Some?
    requires s.issuing.Some? && s.issuing.value.seen == s.rows.intent && s.issuing.value.step == "s"
    ensures var t := Do(s, commit);
            t.rows.intent == Intent(Executing, 3) && |t.rows.steps| == 1 && OpenStep(t.rows.steps) == Some("s")
            && t.issuing.None? && t.sessions == s.sessions
            && (!Frozen(s.rows.journal) ==> !Frozen(t.rows.journal))
  {}

  /** A step is issued, and the intent moves to executing, although a freeze was recorded after the issue's check. */
  lemma StepAfterFreeze() returns (before: seq<Op>)
    ensures var s := Run(Start(), before);
            Frozen(s.rows.journal) && s.rows.steps == [] && s.rows.intent.state == Claimed
    ensures var t := Run(Start(), before + [commit]);
            OpenStep(t.rows.steps) == Some("s") && t.rows.intent.state == Executing
  {
    Checked();
    var s0 := Run(Start(), claimOps + [check]);
    var s1 := Decided(s0, 1, frozenFacts);
    DecidedFrozen(s0, 1);
    var act := Step(Act(1, Reported));
    Recorded(s1, 1);
    Marks(Do(s1, act), 1);
    before := claimOps + [check] + DecidedOps(1, frozenFacts) + [act, act];
    DecidedRun(s0, 1, frozenFacts);
    Run2(s1, act, act);
    RunConcat(Start(), claimOps + [check], DecidedOps(1, frozenFacts));
    RunConcat(Start(), claimOps + [check] + DecidedOps(1, frozenFacts), [act, act]);
    Commits(Run(Start(), before));
    RunSnoc(Start(), before, commit);
  }

  // ---- completing after a freeze ----

  const startOps := claimOps + [check] + [commit]

  lemma ExecutingState()
    ensures var s := Run(Start(), startOps);
            s.rows.intent == Intent(Executing, 3) && !Frozen(s.rows.journal) && s.sessions == map[]
            && OpenStep(s.rows.steps) == Some("s")
  {
    Checked();
    RunSnoc(Start(), claimOps + [check], commit);
    Commits(Run(Start(), claimOps + [check]));
  }

  lemma SentPlan(s: System, k: nat)
    requires s.rows.intent.state == Executing && !Frozen(s.rows.journal) && OpenStep(s.rows.steps) == Some("s")
    ensures var t := Decided(s, k, sentFacts);
            k in t.sessions && t.sessions[k].stage.Acting? && t.sessions[k].seen == s.rows.intent
            && t.sessions[k].stage.todo == [Close("s", Converged, "a", "sent"), Transition(Completed)]
            && t.rows.journal == s.rows.journal && t.rows.steps == s.rows.steps && t.rows.intent == s.rows.intent
            && t.sessions == s.sessions[k := t.sessions[k]] && t.issuing == s.issuing
  {
    assert sentFacts.attempts[0] == AttemptRef("a", "sent");
    assert ConfirmedSent(sentFacts);
    DecidedShape(s, k, sentFacts);
  }

  lemma Completes(s: System, k: nat)
    requires k in s.sessions && s.sessions[k].stage.Acting? && s.sessions[k].seen == s.rows.intent
    requires s.sessions[k].stage.todo == [Close("s", Converged, "a", "sent"), Transition(Completed)]
    requires s.rows.intent.state == Executing
    ensures Run(s, [Step(Act(k, Reported)), Step(Act(k, Reported))]).rows.intent.state == Completed
  {
    var t := Do(s, Step(Act(k, Reported)));
    assert t.rows.intent == s.rows.intent;
    assert t.sessions[k].stage.todo == [Transition(Completed)];
    Run2(s, Step(Act(k, Reported)), Step(Act(k, Reported)));
  }

  /** The first reconcile decides, the second records a freeze. */
  lemma FrozenMeanwhile() returns (before: seq<Op>)
    ensures var s := Run(Start(), before);
            Frozen(s.rows.journal) && s.rows.intent.state == Executing
            && 1 in s.sessions && s.sessions[1].stage.Acting? && s.sessions[1].seen == s.rows.intent
            && s.sessions[1].stage.todo == [Close("s", Converged, "a", "sent"), Transition(Completed)]
  {
    var s0 := Run(Start(), startOps);
    ExecutingState();
    var s1 := Decided(s0, 1, sentFacts);
    SentPlan(s0, 1);
    var s2 := Decided(s1, 2, frozenFacts);
    DecidedFrozen(s1, 2);
    var act := Step(Act(2, Reported));
    Recorded(s2, 2);
    Marks(Do(s2, act), 2);
    before := startOps + DecidedOps(1, sentFacts) + DecidedOps(2, frozenFacts) + [act, act];
    DecidedRun(s0, 1, sentFacts);
    DecidedRun(s1, 2, frozenFacts);
    Run2(s2, act, act);
    RunConcat(Start(), startOps, DecidedOps(1, sentFacts));
    RunConcat(Start(), startOps + DecidedOps(1, sentFacts), DecidedOps(2, frozenFacts));
    RunConcat(Start(), startOps + DecidedOps(1, sentFacts) + DecidedOps(2, frozenFacts), [act, act]);
  }

  /** The first reconcile completes the intent although the second has recorded a freeze in between. */
  lemma CompletedAfterFreeze() returns (before: seq<Op>, after: seq<Op>)
    ensures Frozen(Run(Start(), before).rows.journal) && Run(Start(), before).rows.intent.state == Executing
    ensures Run(Start(), before + after).rows.intent.state == Completed
  {
    before := FrozenMeanwhile();
    after := [Step(Act(1, Reported)), Step(Act(1, Reported))];
    Completes(Run(Start(), before), 1);
    RunConcat(Start(), before, after);
  }
}
