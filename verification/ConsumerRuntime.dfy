/**
 * The consumer's code: the apply transaction, the bounded retry and gap policy around it, and the
 * batch loop. Other workers run between the transactions of this one.
 */
module ConsumerRuntime {
  import opened Vocabulary
  import opened ConsumerTables
  import opened ConsumerReplay
  import ConsumerSystem
  import ConsumerSoundness
  import ConsumerTheorems

  /**
   * What goes wrong in one attempt; a failed statement or effect is classified by its error. The last
   * write of a version skip is a statement too, while a failed commit of a transaction is always retryable.
   */
  datatype Fault =
    | NoFault
    | BeginFails
    | StatementFails(retryable: bool)
    | EffectFails(retryable: bool)
    | CommitFails(retryable: bool)
    | CommitAmbiguous(retryable: bool)

  datatype ApplyResult = Done(outcome: Outcome) | GapFound | Faulted(retryable: bool)

  datatype Counts = Counts(applied: nat, duplicates: nat, skipped: nat, setAside: nat)

  function Tally(c: Counts, o: Outcome): Counts {
    match o
    case Applying => c.(applied := c.applied + 1)
    case Duplicate => c.(duplicates := c.duplicates + 1)
    case VersionSkip => c.(skipped := c.skipped + 1)
    case SetAside(_) => c.(setAside := c.setAside + 1)
  }

  /** How often an outcome of the same kind occurs. */
  function Occurrences(outs: seq<Outcome>, o: Outcome): nat {
    if outs == [] then 0 else Occurrences(outs[..|outs| - 1], o) + if SameKind(outs[|outs| - 1], o) then 1 else 0
  }

  predicate SameKind(a: Outcome, b: Outcome) {
    a == b || (a.SetAside? && b.SetAside?)
  }

  /** Each outcome is counted under its own name. */
  ghost predicate Tallied(c: Counts, outs: seq<Outcome>) {
    c.applied == Occurrences(outs, Applying) && c.duplicates == Occurrences(outs, Outcome.Duplicate)
    && c.skipped == Occurrences(outs, VersionSkip) && c.setAside == Occurrences(outs, SetAside(VersionGap))
  }

  lemma TallyMore(c: Counts, outs: seq<Outcome>, o: Outcome)
    requires Tallied(c, outs)
    ensures Tallied(Tally(c, o), outs + [o])
  {
    assert (outs + [o])[..|outs + [o]| - 1] == outs;
  }

  /** What a pass makes of its candidates when nothing disturbs it. */
  function PassOutcomes(db: Db, cs: seq<Candidate>, operation: string): (outs: seq<Outcome>)
    ensures |outs| == |cs|
  {
    if cs == [] then []
    else
      var init := cs[..|cs| - 1];
      PassOutcomes(db, init, operation) + [OutcomeOf(ReplayPass(db, init, operation), cs[|cs| - 1].message)]
  }

  datatype ReplayResult = Deduplicated(stored: Counts) | Interrupted | Recorded(counts: Counts)

  /** What becomes of a replay's audit row; a rival operation may have used its id meanwhile. */
  datatype AuditWrite = Write(result: CommitResult) | Rival(stored: Counts)

  datatype ProcessResult = Processed(outcome: Outcome, attempts: nat) | Aborted

  /** Each aggregate's effects are in order and every effect was applied once. */
  ghost predicate Healthy(db: Db) {
    OnceEach(db) && Ordered(db)
  }

  /**
   * Everything this worker does not decide: `others(n, db)` is what the other workers have made of
   * the tables by this worker's n-th look at them; the rest are failures of its own calls.
   */
  datatype Environment = Environment(
    others: (nat, Db) -> Db,
    faults: nat -> Fault,
    asideFault: Fault,
    sleepFails: nat -> bool,
    polls: nat,
    probeFails: nat -> bool,
    cancelled: bool)

  /** The others keep their guarantee (see ConsumerTheorems.StepEvolves and ConsumerSoundness.DoKeeps). */
  ghost predicate Fair(env: Environment) {
    forall n, db :: Onward(db, env.others(n, db))
  }

  /** Nobody else runs. */
  ghost predicate Alone(env: Environment) {
    forall n, db :: env.others(n, db) == db
  }

  /** The fault stops an attempt before it has read anything, and may pass. */
  predicate Stops(fault: Fault) {
    fault == BeginFails || fault == StatementFails(true)
  }

  /** The fault does not pass. */
  predicate Permanent(fault: Fault) {
    (fault.StatementFails? || fault.EffectFails? || fault.CommitFails? || fault.CommitAmbiguous?) && !fault.retryable
  }

  /** What an attempt reports agrees with the fault it met. */
  predicate Heard(fault: Fault, a: ApplyResult) {
    (a.Faulted? ==> fault != NoFault) && (a == Faulted(false) ==> Permanent(fault)) && (Stops(fault) ==> a == Faulted(true))
  }

  /** Every attempt but the last met a fault that may pass and slept, or, once, found a gap that then closed. */
  ghost predicate Repeats(tries: seq<ApplyResult>, env: Environment, limit: nat) {
    (forall i :: 0 <= i < |tries| ==> Heard(env.faults(i + 1), tries[i]))
    && (forall i :: 0 <= i < |tries| - 1 ==>
          tries[i] == GapFound || (tries[i] == Faulted(true) && i + 1 < limit && !env.sleepFails(i + 1)))
    && (forall i, j :: 0 <= i < j < |tries| - 1 ==> tries[i] != GapFound || tries[j] != GapFound)
  }

  /** The attempts so far all ask for another one. */
  ghost predicate Again(tries: seq<ApplyResult>, waits: seq<bool>, env: Environment, limit: nat, gapWaited: bool) {
    (gapWaited <==> GapFound in tries) && waits == (if gapWaited then [true] else []) &&
    (forall i :: 0 <= i < |tries| ==>
       Heard(env.faults(i + 1), tries[i])
       && ((tries[i] == GapFound && gapWaited) || (tries[i] == Faulted(true) && i + 1 < limit && !env.sleepFails(i + 1))))
    && (forall i, j :: 0 <= i < j < |tries| ==> tries[i] != GapFound || tries[j] != GapFound)
  }

  /** What the last of `n` attempts makes of the message. */
  ghost predicate Ends(last: ApplyResult, n: nat, r: ProcessResult, env: Environment, limit: nat) {
    match last
    case Done(outcome) => r == Processed(outcome, n)
    case GapFound => r == if env.cancelled || env.asideFault != NoFault then Aborted else Processed(SetAside(VersionGap), n)
    case Faulted(retryable) =>
      if retryable && n < limit then r == Aborted && env.sleepFails(n)
      else r == if env.asideFault != NoFault then Aborted
                else Processed(SetAside(if retryable then RetryExhausted else NonRetryable), n)
  }

  /** A gap is waited for once, and the message is tried again exactly when the wait saw it close. */
  ghost predicate Waited(mine: seq<ApplyResult>, waits: seq<bool>) {
    if GapFound in mine then waits == [exists i :: 0 <= i < |mine| - 1 && mine[i] == GapFound] else waits == []
  }

  /** How a message was processed: its attempts asked for one another and the last one decided. */
  ghost predicate Followed(mine: seq<ApplyResult>, waits: seq<bool>, r: ProcessResult, env: Environment, limit: nat) {
    mine != [] && Waited(mine, waits) && Repeats(mine, env, limit) && Ends(mine[|mine| - 1], |mine|, r, env, limit)
    && forall i :: 0 <= i < |mine| && mine[i].Done? ==> !mine[i].outcome.SetAside?
  }

  lemma OneMore(mine: seq<ApplyResult>, waits: seq<bool>, a: ApplyResult, env: Environment, limit: nat, gapWaited: bool, waited: bool)
    requires Again(mine, waits, env, limit, gapWaited) && Heard(env.faults(|mine| + 1), a) && (waited <==> gapWaited || a == GapFound)
    requires (a == GapFound && !gapWaited) || (a == Faulted(true) && |mine| + 1 < limit && !env.sleepFails(|mine| + 1))
    ensures Again(mine + [a], waits + (if a == GapFound then [true] else []), env, limit, waited)
  {}

  lemma LastOne(mine: seq<ApplyResult>, waits: seq<bool>, a: ApplyResult, r: ProcessResult, env: Environment, limit: nat, gapWaited: bool)
    requires Again(mine, waits, env, limit, gapWaited) && Heard(env.faults(|mine| + 1), a) && (a.Done? ==> !a.outcome.SetAside?)
    requires Ends(a, |mine| + 1, r, env, limit)
    ensures Followed(mine + [a], waits + (if a == GapFound && !gapWaited then [false] else []), r, env, limit)
  {
    var all := mine + [a];
    if gapWaited {
      var i :| 0 <= i < |mine| && mine[i] == GapFound;
      assert all[i] == GapFound && i < |all| - 1;
    } else if a == GapFound {
      assert all[|mine|] == GapFound;
      assert forall i :: 0 <= i < |all| - 1 ==> all[i] in mine;
    } else {
      assert forall i :: 0 <= i < |all| ==> all[i] != GapFound;
    }
  }

  /** Nobody else runs and nothing fails. */
  ghost predicate Quiet(env: Environment) {
    (forall n, db :: env.others(n, db) == db) && (forall n :: env.faults(n) == NoFault) && env.asideFault == NoFault && !env.cancelled
  }

  /** Nobody else runs, and attempt `k` is the first that no fault stops; nothing else fails. */
  ghost predicate Calm(env: Environment, limit: nat, k: nat) {
    Alone(env) && 1 <= k <= limit && env.faults(k) == NoFault && env.asideFault == NoFault && !env.cancelled
    && forall i :: 1 <= i < k ==> Stops(env.faults(i)) && !env.sleepFails(i)
  }

  lemma CalmOnce(env: Environment, limit: nat, i: nat, k: nat)
    requires Calm(env, limit, i) && Calm(env, limit, k)
    ensures i == k
  {}

  /** The tables after a message that the `k`-th attempt decides. */
  ghost function HandledAt(db: Db, m: Message, k: nat): Db {
    if OutcomeOf(db, m) == SetAside(VersionGap) && m.body.Valid? then Quarantine(db, m, VersionGap, k) else Handled(db, m)
  }

  /** A message is set aside as failing before the attempts are used up, or as not retryable, only for a fault that does not pass. */
  lemma SetAsideForGood(mine: seq<ApplyResult>, waits: seq<bool>, r: ProcessResult, env: Environment, limit: nat)
    requires Followed(mine, waits, r, env, limit) && r.Processed? && r.outcome.SetAside? && r.outcome.reason != VersionGap
    ensures r.attempts == |mine|
    ensures r.attempts < limit || r.outcome.reason == NonRetryable ==> Permanent(env.faults(r.attempts))
    ensures r.outcome.reason == (if mine[|mine| - 1] == Faulted(true) then RetryExhausted else NonRetryable)
  {
    assert Heard(env.faults(|mine|), mine[|mine| - 1]);
  }

  /** Faults that may pass are survived: attempt `k` is made, no fault stops it, and if it settles the message that is the result. */
  lemma RetriesThrough(mine: seq<ApplyResult>, waits: seq<bool>, r: ProcessResult, env: Environment, limit: nat, k: nat)
    requires Followed(mine, waits, r, env, limit)
    requires 1 <= k <= limit && env.faults(k) == NoFault && forall i :: 1 <= i < k ==> Stops(env.faults(i)) && !env.sleepFails(i)
    ensures |mine| >= k && !mine[k - 1].Faulted? && forall i :: 0 <= i < k - 1 ==> mine[i] == Faulted(true)
    ensures mine[k - 1].Done? ==> r == Processed(mine[k - 1].outcome, k)
  {
    var n := |mine|;
    assert Heard(env.faults(n), mine[n - 1]);
    assert n >= k;
    assert Heard(env.faults(k), mine[k - 1]);
    forall i | 0 <= i < k - 1 ensures mine[i] == Faulted(true) { assert Heard(env.faults(i + 1), mine[i]); }
  }

  /** From `a` the tables have evolved to `b`, as healthy as before. */
  ghost predicate Onward(a: Db, b: Db) {
    Evolves(a, b) && (Healthy(a) ==> Healthy(b))
  }

  lemma OnwardReflexive(db: Db)
    ensures Onward(db, db)
  {}

  lemma OnwardTransitive(a: Db, b: Db, c: Db)
    requires Onward(a, b) && Onward(b, c)
    ensures Onward(a, c)
  {
    EvolvesTransitive(a, b, c);
  }

  /** The transaction gets as far as applying the event. */
  predicate Applicable(db: Db, e: Event) {
    e.id !in db.inbox && GuardOf(db, e) == Apply
  }

  /** There is nothing to apply: the event was applied before or is older than what was. */
  predicate Stale(db: Db, e: Event) {
    e.id in db.inbox || GuardOf(db, e) == Skip
  }

  /** What one apply transaction reports and what it leaves; a fault may hide a commit that happened. */
  ghost predicate Attempted(a: Db, b: Db, m: Message, r: ApplyResult)
    requires m.body.Valid?
  {
    var e := m.body.event;
    match r
    case Done(Applying) => Applicable(a, e) && b == Applied(a, m)
    case Done(Duplicate) => e.id in a.inbox && b == Advance(a, m.source)
    case Done(VersionSkip) => e.id !in a.inbox && GuardOf(a, e) == Skip && b == Advance(a, m.source)
    case Done(SetAside(_)) => false
    case GapFound => e.id !in a.inbox && GuardOf(a, e) == Gap && b == a
    case Faulted(_) => b == a || (Applicable(a, e) && b == Applied(a, m)) || (Stale(a, e) && b == Advance(a, m.source))
  }

  /** The message is dealt with and progress is past it. */
  ghost predicate Settled(db: Db, m: Message) {
    Accounted(db, m.body) && (m.source.Some? ==> m.source.value.offset < NextOffset(db, m.source.value.part))
  }

  /** What an outcome promises. */
  ghost predicate Delivers(db: Db, m: Message, o: Outcome) {
    match o
    case Applying => m.body.Valid? && m.body.event.id in db.inbox
    case Duplicate => m.body.Valid? && m.body.event.id in db.inbox
    case VersionSkip => m.body.Valid? && m.body.event.agg in db.versions && m.body.event.version <= db.versions[m.body.event.agg]
    case SetAside(reason) => Quarantined(db, IdOf(m.body)) && (m.body.Refused? ==> reason == m.body.reason)
  }

  lemma AttemptSound(a: Db, b: Db, m: Message, r: ApplyResult)
    requires m.body.Valid? && Attempted(a, b, m, r)
    ensures Onward(a, b)
    ensures r.Done? ==> Settled(b, m) && Delivers(b, m, r.outcome)
  {
    if Applicable(a, m.body.event) && b == Applied(a, m) {
      AppliedEvolves(a, m);
      if Healthy(a) {
        AppliedOnce(a, m);
        AppliedOrdered(a, m);
      }
    } else {
      AdvanceEvolves(a, m.source);
      if Healthy(a) {
        forall g ensures OrderedUpTo(b, g) { assert OrderedUpTo(a, g); }
      }
    }
  }

  /** Without faults and company one attempt decides the message. */
  lemma AttemptDecides(a: Db, b: Db, m: Message, r: ApplyResult)
    requires m.body.Valid? && Attempted(a, b, m, r) && !r.Faulted?
    ensures r.Done? ==> r.outcome == OutcomeOf(a, m) && b == Handled(a, m)
    ensures r == GapFound ==> b == a && OutcomeOf(a, m) == SetAside(VersionGap) && Handled(a, m) == Quarantine(a, m, VersionGap, 1)
  {}

  lemma AsideSound(a: Db, m: Message, reason: Reason, attempts: nat)
    ensures var b := Quarantine(a, m, reason, attempts);
            Onward(a, b) && Settled(b, m) && Quarantined(b, IdOf(m.body))
  {
    var b := Quarantine(a, m, reason, attempts);
    QuarantineEvolves(a, m, reason, attempts);
    var t := Enqueue(a, m, reason, attempts);
    if !HasOpenRow(a, IdOf(m.body)) {
      assert b.quarantine[|a.quarantine|].message == m;
    } else {
      assert Quarantined(a, IdOf(m.body));
      assert b.quarantine == a.quarantine;
    }
    if Healthy(a) {
      forall g ensures OrderedUpTo(b, g) { assert OrderedUpTo(a, g); }
    }
  }

  /** The tables as successive probes find them: the first ones show the gap; the last one finds it closed, fails, or is the last of the window. */
  ghost predicate Watched(probes: seq<Db>, env: Environment, e: Event, closed: bool) {
    var n := |probes| - 1;
    0 <= n <= env.polls && (forall i :: 0 <= i < n ==> !env.probeFails(i) && GuardOf(probes[i], e) == Gap)
    && if closed then !env.probeFails(n) && GuardOf(probes[n], e) != Gap
       else env.probeFails(n) || (n == env.polls && GuardOf(probes[n], e) == Gap)
  }

  /** An undisturbed pass over these candidates leads here, and has been counted. */
  ghost predicate PassedQuietly(before: Db, now: Db, cs: seq<Candidate>, operation: string, counts: Counts) {
    now == ReplayPass(before, cs, operation) && |now.effects| == |before.effects| + counts.applied
    && Tallied(counts, PassOutcomes(before, cs, operation))
  }

  lemma PassMore(before: Db, mid: Db, now: Db, cs: seq<Candidate>, c: Candidate, operation: string, counts: Counts, o: Outcome)
    requires PassedQuietly(before, mid, cs, operation, counts) && o == OutcomeOf(mid, c.message) && now == ReplayOne(mid, c, operation)
    requires |now.effects| == |mid.effects| + if o == Applying then 1 else 0
    ensures PassedQuietly(before, now, cs + [c], operation, Tally(counts, o))
  {
    assert (cs + [c])[..|cs + [c]| - 1] == cs;
    TallyMore(counts, PassOutcomes(before, cs, operation), o);
  }

  lemma Joined<T>(a: seq<T>, b: seq<T>, c: seq<T>)
    ensures (a + b) + c == a + (b + c) && (a + (b + c))[|a|..] == b + c
  {}

  class Consumer {
    var inbox: set<EventId>
    var versions: map<Aggregate, nat>
    var progress: map<Partition, nat>
    var quarantine: seq<QuarantineRow>
    var effects: seq<Event>
    /** The audited operations and their results. */
    var audit: map<string, Counts>
    /** How often this worker has looked at the tables. */
    var looks: nat
    /** What the apply transactions of this worker have reported, in order, and its gap waits. */
    ghost var tries: seq<ApplyResult>
    ghost var waits: seq<bool>
    const retryLimit: nat

    constructor (retryLimit: nat)
      requires retryLimit > 0
      ensures Tables() == Empty && audit == map[] && this.retryLimit == retryLimit
    {
      inbox, versions, progress, quarantine, effects, audit, looks := {}, map[], map[], [], [], map[], 0;
      tries, waits := [], [];
      this.retryLimit := retryLimit;
    }

    function Tables(): Db
      reads this
    {
      Db(inbox, versions, progress, quarantine, effects)
    }

    /** The other workers run. */
    method Yield(env: Environment)
      requires Fair(env)
      modifies this`inbox, this`versions, this`progress, this`quarantine, this`effects, this`looks
      ensures Onward(old(Tables()), Tables())
      ensures looks == old(looks) + 1
      ensures Alone(env) ==> Tables() == old(Tables())
    {
      var db := env.others(looks, Tables());
      inbox, versions, progress, quarantine, effects := db.inbox, db.versions, db.progress, db.quarantine, db.effects;
      looks := looks + 1;
    }

    method AdvanceProgress(source: Option<Coord>)
      modifies this`progress
      ensures Tables() == Advance(old(Tables()), source)
    {
      if source.Some? {
        var c := source.value;
        if c.part !in progress || progress[c.part] < c.offset + 1 {
          progress := progress[c.part := c.offset + 1];
        } else {
          progress := progress[c.part := progress[c.part]];
        }
      }
    }

    /** One apply transaction. */
    method ApplyOnce(m: Message, fault: Fault) returns (r: ApplyResult)
      requires m.body.Valid?
      modifies this`inbox, this`versions, this`progress, this`effects, this`tries
      ensures tries == old(tries) + [r] && Heard(fault, r)
      ensures Attempted(old(Tables()), Tables(), m, r)
      ensures r.Faulted? ==> fault != NoFault
      ensures r.Faulted? && Tables() != old(Tables()) ==> fault.CommitAmbiguous?
    {
      r := Transact(m, fault);
      tries := tries + [r];
    }

    /** Its statements. */
    method Transact(m: Message, fault: Fault) returns (r: ApplyResult)
      requires m.body.Valid?
      modifies this`inbox, this`versions, this`progress, this`effects
      ensures Heard(fault, r)
      ensures Attempted(old(Tables()), Tables(), m, r)
      ensures r.Faulted? ==> fault != NoFault
      ensures r.Faulted? && Tables() != old(Tables()) ==> fault.CommitAmbiguous?
    {
      if fault == BeginFails { return Faulted(true); }
      if fault.StatementFails? { return Faulted(fault.retryable); }
      var e := m.body.event;
      if e.id in inbox {
        if fault.CommitFails? { return Faulted(true); }
        AdvanceProgress(m.source);
        return if fault.CommitAmbiguous? then Faulted(true) else Done(Duplicate);
      }
      var found := e.agg in versions;
      var max := if found then versions[e.agg] else 0;
      match Decide(found, max, e.version) {
        case Skip =>
          if fault.CommitFails? { return Faulted(fault.retryable); }
          AdvanceProgress(m.source);
          return if fault.CommitAmbiguous? then Faulted(fault.retryable) else Done(VersionSkip);
        case Gap =>
          return GapFound;
        case Apply =>
      }
      if fault.EffectFails? { return Faulted(fault.retryable); }
      if fault.CommitFails? { return Faulted(true); }
      inbox := inbox + {e.id};
      effects := effects + [e];
      versions := versions[e.agg := e.version];
      AdvanceProgress(m.source);
      r := if fault.CommitAmbiguous? then Faulted(true) else Done(Applying);
    }

    /** Persists the message with its snapshot and moves progress, in one transaction. */
    method QuarantineMessage(m: Message, reason: Reason, attempts: nat, fault: Fault) returns (ok: bool)
      modifies this`quarantine, this`progress
      ensures ok <==> fault == NoFault
      ensures ok ==> Tables() == Quarantine(old(Tables()), m, reason, attempts)
      ensures !ok ==> Tables() == old(Tables()) || Tables() == Quarantine(old(Tables()), m, reason, attempts)
    {
      if fault != NoFault && !fault.CommitAmbiguous? { return false; }
      if !HasOpenRow(Tables(), IdOf(m.body)) {
        quarantine := quarantine + [QuarantineRow(m, reason, attempts, Open)];
      }
      AdvanceProgress(m.source);
      ok := fault == NoFault;
    }

    /** Polls for the missing version while other workers go on. */
    method WaitForGap(e: Event, env: Environment) returns (closed: bool, ghost probes: seq<Db>)
      requires Fair(env)
      modifies this`inbox, this`versions, this`progress, this`quarantine, this`effects, this`looks, this`waits
      ensures waits == old(waits) + [closed]
      ensures Onward(old(Tables()), Tables()) && (Alone(env) ==> Tables() == old(Tables()))
      ensures Watched(probes, env, e, closed) && looks == old(looks) + |probes| - 1
      ensures probes[0] == old(Tables()) && probes[|probes| - 1] == Tables()
    {
      OnwardReflexive(Tables());
      probes := [Tables()];
      closed := false;
      var i := 0;
      while true
        invariant 0 <= i <= env.polls && |probes| == i + 1 && looks == old(looks) + i && waits == old(waits)
        invariant probes[0] == old(Tables()) && probes[i] == Tables()
        invariant forall k :: 0 <= k < i ==> !env.probeFails(k) && GuardOf(probes[k], e) == Gap
        invariant Onward(old(Tables()), Tables()) && (Alone(env) ==> Tables() == old(Tables()))
        decreases env.polls - i
      {
        if env.probeFails(i) { break; }
        if e.agg !in versions || e.version <= versions[e.agg] + 1 {
          closed := true;
          break;
        }
        if i == env.polls { break; }
        ghost var before := Tables();
        Yield(env);
        OnwardTransitive(old(Tables()), before, Tables());
        probes := probes + [Tables()];
        i := i + 1;
      }
      waits := waits + [closed];
    }

    /** Sets the message aside after `attempts` applications; the caller's error when that fails. */
    method Give(m: Message, reason: Reason, attempts: nat, env: Environment) returns (r: ProcessResult)
      requires m.body.Refused? ==> reason == m.body.reason
      modifies this`quarantine, this`progress
      ensures Onward(old(Tables()), Tables())
      ensures env.asideFault == NoFault ==> Tables() == Quarantine(old(Tables()), m, reason, attempts)
      ensures r == (if env.asideFault == NoFault then Processed(SetAside(reason), attempts) else Aborted)
      ensures r.Processed? ==> Settled(Tables(), m) && Delivers(Tables(), m, r.outcome)
    {
      AsideSound(Tables(), m, reason, attempts);
      OnwardReflexive(Tables());
      var ok := QuarantineMessage(m, reason, attempts, env.asideFault);
      r := if ok then Processed(SetAside(reason), attempts) else Aborted;
    }

    /** Lets the others run and then tries to apply the message. */
    method Attempt(m: Message, env: Environment, n: nat) returns (a: ApplyResult)
      requires m.body.Valid? && Fair(env)
      modifies this`inbox, this`versions, this`progress, this`quarantine, this`effects, this`looks, this`tries
      ensures tries == old(tries) + [a] && Heard(env.faults(n), a)
      ensures Alone(env) && Stops(env.faults(n)) ==> Tables() == old(Tables())
      ensures Onward(old(Tables()), Tables())
      ensures a.Done? ==> !a.outcome.SetAside? && Settled(Tables(), m) && Delivers(Tables(), m, a.outcome)
      ensures a == GapFound ==> m.body.event.id !in inbox && GuardOf(Tables(), m.body.event) == Gap
      ensures Alone(env) && a.Done? ==> a.outcome == OutcomeOf(old(Tables()), m) && Tables() == Handled(old(Tables()), m)
      ensures Alone(env) && a == GapFound ==> Tables() == old(Tables()) && OutcomeOf(Tables(), m) == SetAside(VersionGap)
    {
      Yield(env);
      ghost var mid := Tables();
      a := ApplyOnce(m, env.faults(n));
      AttemptSound(mid, Tables(), m, a);
      OnwardTransitive(old(Tables()), mid, Tables());
      if !a.Faulted? { AttemptDecides(mid, Tables(), m, a); }
    }

    /**
     * Applies one message with bounded retries and one bounded gap wait: whatever fails, and however it ends, at
     * most one apply transaction more than the limit. Every fault that may pass is retried below the limit, and
     * the last attempt decides. Unless it aborts, the message is applied, a duplicate, skipped or quarantined,
     * and progress is past it.
     */
    method Process(m: Message, env: Environment) returns (r: ProcessResult)
      requires retryLimit > 0 && Fair(env)
      modifies this`inbox, this`versions, this`progress, this`quarantine, this`effects, this`looks, this`tries, this`waits
      ensures Onward(old(Tables()), Tables())
      ensures old(tries) <= tries && |tries| <= |old(tries)| + retryLimit + 1 && old(waits) <= waits
      ensures m.body.Refused? ==> tries == old(tries) && waits == old(waits)
      ensures m.body.Valid? ==> Followed(tries[|old(tries)|..], waits[|old(waits)|..], r, env, retryLimit)
      ensures r.Processed? ==> r.attempts == |tries| - |old(tries)| && Settled(Tables(), m) && Delivers(Tables(), m, r.outcome)
      ensures m.body.Valid? && r.Processed? && r.outcome.SetAside? && r.outcome.reason != VersionGap ==>
                (r.outcome.reason == RetryExhausted && r.attempts >= retryLimit) || Permanent(env.faults(r.attempts))
      ensures r.Aborted? ==> env.asideFault != NoFault || env.cancelled || exists n :: env.sleepFails(n)
      ensures forall k: nat :: m.body.Valid? && Calm(env, retryLimit, k) ==>
                r == Processed(OutcomeOf(old(Tables()), m), k) && Tables() == HandledAt(old(Tables()), m, k)
      ensures Quiet(env) ==> r.Processed? && r.outcome == OutcomeOf(old(Tables()), m) && Tables() == Handled(old(Tables()), m)
    {
      OnwardReflexive(Tables());
      if m.body.Refused? {
        r := Give(m, m.body.reason, 0, env);
        return;
      }
      ghost var k := 1;
      if i: nat :| Calm(env, retryLimit, i) { k := i; }
      r := Retry(m, env, k);
      forall i: nat | Calm(env, retryLimit, i) ensures i == k { CalmOnce(env, retryLimit, i, k); }
      if Quiet(env) { assert Calm(env, retryLimit, 1); }
      ghost var mine := tries[|old(tries)|..];
      if r.Processed? && r.outcome.SetAside? && r.outcome.reason != VersionGap {
        SetAsideForGood(mine, waits[|old(waits)|..], r, env, retryLimit);
      }
    }

    /** One round: an attempt, and what it calls for. No answer asks for another round. */
    method Round(m: Message, env: Environment, n: nat, gapWaited: bool) returns (r: Option<ProcessResult>, waited: bool)
      requires retryLimit > 0 && Fair(env) && m.body.Valid?
      modifies this`inbox, this`versions, this`progress, this`quarantine, this`effects, this`looks, this`tries, this`waits
      ensures Onward(old(Tables()), Tables())
      ensures |tries| == |old(tries)| + 1 && tries == old(tries) + [tries[|tries| - 1]]
      ensures var a := tries[|tries| - 1];
              Heard(env.faults(n), a) && (a.Done? ==> !a.outcome.SetAside?)
              && (if r.Some? then Ends(a, n, r.value, env, retryLimit)
                  else (a == GapFound && !gapWaited) || (a == Faulted(true) && n < retryLimit && !env.sleepFails(n)))
              && (waited <==> gapWaited || a == GapFound)
              && waits == old(waits) + if a == GapFound && !gapWaited then [r.None?] else []
      ensures r.Some? && r.value.Processed? ==> Settled(Tables(), m) && Delivers(Tables(), m, r.value.outcome)
      ensures Alone(env) && Stops(env.faults(n)) && r.None? ==> Tables() == old(Tables())
      ensures Alone(env) && env.faults(n) == NoFault && !env.cancelled && env.asideFault == NoFault ==>
                r == Some(Processed(OutcomeOf(old(Tables()), m), n)) && Tables() == HandledAt(old(Tables()), m, n)
    {
      var a := Attempt(m, env, n);
      waited := gapWaited;
      ghost var tried := Tables();
      if a.Done? {
        r := Some(Processed(a.outcome, n));
      } else if a == GapFound {
        waited := true;
        if !gapWaited {
          var closed, _ := WaitForGap(m.body.event, env);
          OnwardTransitive(old(Tables()), tried, Tables());
          if closed { return None, true; }
        }
        if env.cancelled { return Some(Aborted), true; }
        ghost var idle := Tables();
        var p := Give(m, VersionGap, n, env);
        OnwardTransitive(old(Tables()), idle, Tables());
        r := Some(p);
      } else if a.retryable && n < retryLimit {
        r := if env.sleepFails(n) then Some(Aborted) else None;
      } else {
        var p := Give(m, if a.retryable then RetryExhausted else NonRetryable, n, env);
        OnwardTransitive(old(Tables()), tried, Tables());
        r := Some(p);
      }
    }

    /** One more round after `mine`. */
    method NextRound(m: Message, env: Environment, n: nat, gapWaited: bool, ghost mine: seq<ApplyResult>, ghost my: seq<bool>)
      returns (r: Option<ProcessResult>, waited: bool, ghost a: ApplyResult, ghost more: seq<bool>)
      requires retryLimit > 0 && Fair(env) && m.body.Valid? && n == |mine| + 1 && Again(mine, my, env, retryLimit, gapWaited)
      modifies this`inbox, this`versions, this`progress, this`quarantine, this`effects, this`looks, this`tries, this`waits
      ensures Onward(old(Tables()), Tables()) && tries == old(tries) + [a] && waits == old(waits) + more
      ensures r.None? ==> Again(mine + [a], my + more, env, retryLimit, waited) && (n < retryLimit || (waited && !gapWaited))
      ensures gapWaited ==> waited
      ensures r.Some? ==> Followed(mine + [a], my + more, r.value, env, retryLimit)
      ensures r.Some? && r.value.Processed? ==> Settled(Tables(), m) && Delivers(Tables(), m, r.value.outcome)
      ensures Alone(env) && Stops(env.faults(n)) && n < retryLimit && !env.sleepFails(n) ==> r.None? && Tables() == old(Tables())
      ensures Alone(env) && env.faults(n) == NoFault && !env.cancelled && env.asideFault == NoFault ==>
                r == Some(Processed(OutcomeOf(old(Tables()), m), n)) && Tables() == HandledAt(old(Tables()), m, n)
    {
      r, waited := Round(m, env, n, gapWaited);
      a := tries[|tries| - 1];
      more := if a == GapFound && !gapWaited then [r.None?] else [];
      if r.Some? {
        LastOne(mine, my, a, r.value, env, retryLimit, gapWaited);
      } else {
        OneMore(mine, my, a, env, retryLimit, gapWaited, waited);
      }
    }

    /** The loop around the apply transaction; if some attempt is the first that no fault stops, it is the `k`-th. */
    method Retry(m: Message, env: Environment, ghost k: nat) returns (r: ProcessResult)
      requires retryLimit > 0 && Fair(env) && m.body.Valid?
      modifies this`inbox, this`versions, this`progress, this`quarantine, this`effects, this`looks, this`tries, this`waits
      ensures Onward(old(Tables()), Tables())
      ensures old(tries) <= tries && |tries| <= |old(tries)| + retryLimit + 1 && old(waits) <= waits
      ensures Followed(tries[|old(tries)|..], waits[|old(waits)|..], r, env, retryLimit)
      ensures r.Processed? ==> Settled(Tables(), m) && Delivers(Tables(), m, r.outcome)
      ensures Calm(env, retryLimit, k) ==>
                r == Processed(OutcomeOf(old(Tables()), m), k) && Tables() == HandledAt(old(Tables()), m, k)
    {
      OnwardReflexive(Tables());
      var attempts, gapWaited := 0, false;
      ghost var mine: seq<ApplyResult>, my: seq<bool> := [], [];
      while true
        invariant attempts < retryLimit || (gapWaited && attempts <= retryLimit)
        invariant tries == old(tries) + mine && |mine| == attempts && Again(mine, my, env, retryLimit, gapWaited)
        invariant waits == old(waits) + my
        invariant Onward(old(Tables()), Tables())
        invariant Calm(env, retryLimit, k) ==> attempts < k && Tables() == old(Tables())
        decreases retryLimit + 1 - attempts
      {
        ghost var before := Tables();
        attempts := attempts + 1;
        var answer;
        ghost var a, more;
        answer, gapWaited, a, more := NextRound(m, env, attempts, gapWaited, mine, my);
        OnwardTransitive(old(Tables()), before, Tables());
        Joined(old(tries), mine, [a]);
        Joined(old(waits), my, more);
        mine, my := mine + [a], my + more;
        if answer.Some? { return answer.value; }
      }
    }

    /** Processes one candidate and closes its quarantine row unless it is set aside again; that write may fail too. */
    method ReplayCandidate(c: Candidate, operation: string, mark: CommitResult, env: Environment) returns (r: ProcessResult)
      requires retryLimit > 0 && Fair(env)
      modifies this`inbox, this`versions, this`progress, this`quarantine, this`effects, this`looks, this`tries, this`waits
      ensures Onward(old(Tables()), Tables())
      ensures r.Processed? ==> Settled(Tables(), c.message)
      ensures Quiet(env) && mark == Reported ==>
                r.Processed? && r.outcome == OutcomeOf(old(Tables()), c.message)
                && Tables() == ReplayOne(old(Tables()), c, operation)
                && |effects| == |old(effects)| + if r.outcome == Applying then 1 else 0
    {
      r := Process(c.message, env);
      if r.Processed? && !r.outcome.SetAside? && c.row.Some? {
        ghost var mid := Tables();
        if mark == RolledBack { return Aborted; }
        if c.row.value < |quarantine| && quarantine[c.row.value].status == Open {
          quarantine := quarantine[c.row.value := quarantine[c.row.value].(status := Replayed(operation))];
        }
        CloseRowOnward(mid, c.row.value, Replayed(operation));
        OnwardTransitive(old(Tables()), mid, Tables());
        SettledStays(mid, Tables(), c.message);
        if mark == Ambiguous { return Aborted; }
      }
    }

    /** Processes the candidates in order; stops at the first error. */
    method ReplayAll(candidates: seq<Candidate>, operation: string, marks: nat -> CommitResult, env: Environment)
      returns (counts: Counts, done: bool)
      requires retryLimit > 0 && Fair(env)
      modifies this`inbox, this`versions, this`progress, this`quarantine, this`effects, this`looks, this`tries, this`waits
      ensures Onward(old(Tables()), Tables())
      ensures !done ==> !Quiet(env) || exists k :: marks(k) != Reported
      ensures done ==> counts.applied + counts.duplicates + counts.skipped + counts.setAside == |candidates|
      ensures done ==> forall i :: 0 <= i < |candidates| ==> Settled(Tables(), candidates[i].message)
      ensures done && Quiet(env) && (forall k :: marks(k) == Reported) ==>
                PassedQuietly(old(Tables()), Tables(), candidates, operation, counts)
    {
      OnwardReflexive(Tables());
      ghost var quiet := Quiet(env) && forall k :: marks(k) == Reported;
      counts := Counts(0, 0, 0, 0);
      var k := 0;
      assert candidates[..0] == [];
      while k < |candidates|
        invariant k <= |candidates| && Onward(old(Tables()), Tables())
        invariant counts.applied + counts.duplicates + counts.skipped + counts.setAside == k
        invariant SettledBelow(Tables(), candidates, k)
        invariant quiet ==> PassedQuietly(old(Tables()), Tables(), candidates[..k], operation, counts)
      {
        ghost var before := Tables();
        var p := ReplayCandidate(candidates[k], operation, marks(k), env);
        OnwardTransitive(old(Tables()), before, Tables());
        if p.Aborted? { return counts, false; }
        if quiet { PassMore(old(Tables()), before, Tables(), candidates[..k], candidates[k], operation, counts, p.outcome); }
        counts := Tally(counts, p.outcome);
        SettledOneMore(before, Tables(), candidates, k);
        k := k + 1;
        assert candidates[..k] == candidates[..k - 1] + [candidates[k - 1]];
      }
      assert candidates[..k] == candidates;
      done := true;
    }

    /**
     * Replays the candidates one by one under one operation id. An id that was used before replays nothing,
     * and an error stops the replay before its audit row, so an id is recorded only when every candidate is
     * dealt with. A failed audit write is read back: what stands under the id then is the answer.
     */
    method Replay(candidates: seq<Candidate>, operation: string, marks: nat -> CommitResult, write: AuditWrite,
                  readsBack: bool, env: Environment) returns (r: ReplayResult)
      requires retryLimit > 0 && Fair(env)
      modifies this
      ensures Onward(old(Tables()), Tables())
      ensures operation in old(audit) ==> r == Deduplicated(old(audit)[operation]) && Tables() == old(Tables()) && audit == old(audit)
      ensures forall o :: o != operation ==> (o in audit <==> o in old(audit)) && (o in audit ==> audit[o] == old(audit)[o])
      ensures r.Deduplicated? ==> operation in audit && audit[operation] == r.stored
      ensures r.Interrupted? ==> !Quiet(env) || write != Write(Reported) || exists k :: marks(k) != Reported
      ensures operation !in old(audit) && (operation in audit || !r.Interrupted?) ==>
                forall i :: 0 <= i < |candidates| ==> Settled(Tables(), candidates[i].message)
      ensures r.Recorded? ==> audit == old(audit)[operation := r.counts]
                               && r.counts.applied + r.counts.duplicates + r.counts.skipped + r.counts.setAside == |candidates|
      ensures r.Recorded? && Quiet(env) && (forall k :: marks(k) == Reported) ==>
                PassedQuietly(old(Tables()), Tables(), candidates, operation, r.counts)
    {
      OnwardReflexive(Tables());
      if operation in audit { return Deduplicated(audit[operation]); }
      var counts, done := ReplayAll(candidates, operation, marks, env);
      if done {
        r := Record(operation, counts, write, readsBack);
      } else {
        r := Interrupted;
      }
    }

    /** Writes the audit row of a replay that has gone through its candidates. */
    method Record(operation: string, counts: Counts, write: AuditWrite, readsBack: bool) returns (r: ReplayResult)
      requires operation !in audit
      modifies this`audit
      ensures forall o :: o != operation ==> (o in audit <==> o in old(audit)) && (o in audit ==> audit[o] == old(audit)[o])
      ensures r.Recorded? <==> write == Write(Reported)
      ensures r.Recorded? ==> r.counts == counts && audit == old(audit)[operation := counts]
      ensures r.Deduplicated? ==> operation in audit && audit[operation] == r.stored
    {
      match write {
        case Write(Reported) =>
          audit := audit[operation := counts];
          return Recorded(counts);
        case Write(RolledBack) =>
        case Write(Ambiguous) => audit := audit[operation := counts];
        case Rival(stored) => audit := audit[operation := stored];
      }
      r := if readsBack && operation in audit then Deduplicated(audit[operation]) else Interrupted;
    }

    /** The batch loop: one record after the other; a record is marked for commit only when it is processed. */
    method Consume(records: seq<Message>, envs: seq<Environment>) returns (marked: nat, failed: bool)
      requires retryLimit > 0 && |envs| == |records| && forall i :: 0 <= i < |envs| ==> Fair(envs[i])
      modifies this`inbox, this`versions, this`progress, this`quarantine, this`effects, this`looks, this`tries, this`waits
      ensures marked <= |records| && (failed <==> marked < |records|)
      ensures Onward(old(Tables()), Tables())
      ensures forall i :: 0 <= i < marked ==> Settled(Tables(), records[i])
    {
      OnwardReflexive(Tables());
      marked := 0;
      while marked < |records|
        invariant marked <= |records|
        invariant Onward(old(Tables()), Tables())
        invariant forall i :: 0 <= i < marked ==> Settled(Tables(), records[i])
      {
        ghost var before := Tables();
        var r := Process(records[marked], envs[marked]);
        OnwardTransitive(old(Tables()), before, Tables());
        forall i | 0 <= i < marked ensures Settled(Tables(), records[i]) {
          SettledStays(before, Tables(), records[i]);
        }
        if r.Aborted? { return marked, true; }
        marked := marked + 1;
      }
      failed := false;
    }
  }

  lemma CloseRowOnward(db: Db, row: nat, status: Status)
    ensures Onward(db, CloseRow(db, row, status))
  {
    CloseRowEvolves(db, row, status);
    if Healthy(db) {
      var t := CloseRow(db, row, status);
      forall g ensures OrderedUpTo(t, g) { assert OrderedUpTo(db, g); }
    }
  }

  /** The first `k` candidates are dealt with. */
  ghost predicate SettledBelow(db: Db, candidates: seq<Candidate>, k: nat) {
    k <= |candidates| && forall i :: 0 <= i < k ==> Settled(db, candidates[i].message)
  }

  lemma SettledOneMore(a: Db, b: Db, candidates: seq<Candidate>, k: nat)
    requires Evolves(a, b) && SettledBelow(a, candidates, k) && k < |candidates| && Settled(b, candidates[k].message)
    ensures SettledBelow(b, candidates, k + 1)
  {
    forall i | 0 <= i < k ensures Settled(b, candidates[i].message) { SettledStays(a, b, candidates[i].message); }
  }

  lemma SettledStays(a: Db, b: Db, m: Message)
    requires Evolves(a, b) && Settled(a, m)
    ensures Settled(b, m)
  {
    AccountedStays(a, b, m.body);
    if m.source.Some? {
      assert NextOffset(a, m.source.value.part) <= NextOffset(b, m.source.value.part);
    }
  }

  // ---- the code runs the system's transactions ----

  /** An uninterrupted apply transaction is a begin followed by its commit. */
  lemma AttemptIsBeginCommit(s: ConsumerSystem.System, w: nat, m: Message, result: CommitResult)
    requires ConsumerSystem.Sound(s) && ConsumerSystem.CanBegin(s, w, m) && result != RolledBack
    ensures ConsumerSystem.Do(ConsumerSystem.Do(s, ConsumerSystem.Begin(w, m)), ConsumerSystem.Commit(w, result)).db
         == Applied(s.db, m)
  {
    var t := ConsumerSystem.Do(s, ConsumerSystem.Begin(w, m));
    assert forall k :: k in s.txs ==> ConsumerSystem.TxSound(s.db, s.log, s.txs[k]);
    assert ConsumerSystem.CanCommit(t, w);
  }

  /** The environment of every other worker is fair: each of its steps keeps what Fair asks for. */
  lemma OthersAreFair(s: ConsumerSystem.System, op: ConsumerSystem.Op)
    requires ConsumerSystem.Sound(s)
    ensures var t := ConsumerSystem.Do(s, op); Evolves(s.db, t.db) && Healthy(t.db)
  {
    ConsumerTheorems.StepEvolves(s, op);
    ConsumerSoundness.DoKeeps(s, op);
  }
}
