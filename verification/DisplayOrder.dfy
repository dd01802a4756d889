/** The display row is fed by two streams of versioned updates that may arrive in any order and repeatedly. */
module DisplayOrder {
  import opened Vocabulary
  import opened ExecutionRows
  import opened ExecutionSystem
  import opened ExecutionTheorems

  datatype Update =
    | OfState(state: IntentState, version: nat)
    | OfLifecycle(attempt: string, version: nat)

  function Deliver(d: Display, u: Update): Display {
    match u
    case OfState(state, version) => ExecutionRows.ShowState(d, state, version)
    case OfLifecycle(attempt, version) => ShowLifecycle(d, attempt, version)
  }

  function DeliverAll(d: Display, us: seq<Update>): Display {
    if us == [] then d else Deliver(DeliverAll(d, us[..|us| - 1]), us[|us| - 1])
  }

  /** One version of a stream has one content. */
  ghost predicate Consistent(us: seq<Update>) {
    forall u, v :: u in us && v in us && u.OfState? == v.OfState? && u.version == v.version ==> u == v
  }

  ghost predicate HighestState(d: Display, us: seq<Update>, t: Display) {
    d.version <= t.version
    && (forall u :: u in us && u.OfState? ==> u.version <= t.version)
    && (if t.version == d.version then t.state == d.state else OfState(t.state, t.version) in us)
  }

  ghost predicate HighestLifecycle(d: Display, us: seq<Update>, t: Display) {
    d.lifecycle <= t.lifecycle
    && (forall u :: u in us && u.OfLifecycle? ==> u.version <= t.lifecycle)
    && (if t.lifecycle == d.lifecycle then t.attempt == d.attempt else OfLifecycle(t.attempt, t.lifecycle) in us)
  }

  /** Some authority read was at least as new as the row. */
  ghost predicate Reads(d: Display, us: seq<Update>) {
    exists u :: u in us && u.OfLifecycle? && d.lifecycle <= u.version
  }

  ghost predicate StaleUnlessRead(d: Display, us: seq<Update>, t: Display) {
    if Reads(d, us) then t.freshness == Confirmed && t.staleSince.None?
    else t.freshness == d.freshness && t.staleSince == d.staleSince
  }

  /** Whatever the order, the row ends at the highest version of each stream, and fresh iff some read was new enough. */
  lemma {:induction false} EndsAtHighest(d: Display, us: seq<Update>)
    ensures HighestState(d, us, DeliverAll(d, us)) && HighestLifecycle(d, us, DeliverAll(d, us))
    ensures StaleUnlessRead(d, us, DeliverAll(d, us))
  {
    if us != [] {
      var init, last := us[..|us| - 1], us[|us| - 1];
      EndsAtHighest(d, init);
      assert us == init + [last];
      assert Reads(d, us) <==> Reads(d, init) || (last.OfLifecycle? && d.lifecycle <= last.version);
    }
  }

  /** Two deliveries of the same updates, in whatever order and with whatever repeats, end in the same row. */
  lemma OrderIndependent(d: Display, us: seq<Update>, vs: seq<Update>)
    requires Consistent(us) && forall u :: u in us <==> u in vs
    ensures DeliverAll(d, us) == DeliverAll(d, vs)
  {
    EndsAtHighest(d, us);
    EndsAtHighest(d, vs);
    var a, b := DeliverAll(d, us), DeliverAll(d, vs);
    assert a.version == b.version;
    assert a.lifecycle == b.lifecycle;
    assert Reads(d, us) <==> Reads(d, vs);
    if a.version != d.version {
      assert OfState(a.state, a.version) == OfState(b.state, b.version);
    }
    if a.lifecycle != d.lifecycle {
      assert OfLifecycle(a.attempt, a.lifecycle) == OfLifecycle(b.attempt, b.lifecycle);
    }
  }

  /** In every run the displayed pair is one the intent really had, never ahead of it, and dated stale iff stale. */
  lemma DisplayTruthful(trace: seq<System>, ops: seq<Op>, i: nat)
    requires Behavior(trace, ops) && i <= |ops|
    ensures var r := trace[i].rows;
            r.display.version <= r.intent.version
            && WasIntent(r, Intent(r.display.state, r.display.version))
            && (r.display.freshness == PossiblyStale <==> r.display.staleSince.Some?)
  {
    AtSound(trace, ops, i);
  }

  /** The displayed versions never go back. */
  lemma DisplayMonotone(trace: seq<System>, ops: seq<Op>, i: nat, j: nat)
    requires Behavior(trace, ops) && i <= j <= |ops|
    ensures trace[i].rows.display.version <= trace[j].rows.display.version
    ensures trace[i].rows.display.lifecycle <= trace[j].rows.display.lifecycle
  {
    AtLater(trace, ops, i, j);
  }
}
