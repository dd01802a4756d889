/** What the outbox keeps under every interleaving of producers, publishers, operators and prunes. */
module OutboxTheorems {
  import opened Vocabulary
  import opened Outbox

  // ---- rows ----

  ghost predicate RowSound(t: Table, r: Row) {
    r.id < |t.history| && r.event == t.history[r.id]
    && (r.state == Blocked ==> r.errorClass.Some?)
    && (r.state != Pending ==> r.lease.None?)
  }

  ghost predicate Present(rows: seq<Row>, id: nat) {
    exists i :: 0 <= i < |rows| && rows[i].id == id
  }

  ghost predicate Marked(t: Table) {
    forall g, v :: (g, v) in t.marks <==> exists k :: 0 <= k < |t.history| && t.history[k].agg == g && t.history[k].version == v
  }

  /** Rows are the inserted events in their order, none twice, and every insertion left its marker. */
  ghost predicate Sound(t: Table) {
    t.nextId == |t.history|
    && (forall i :: 0 <= i < |t.rows| ==> RowSound(t, t.rows[i]))
    && (forall i, j :: 0 <= i < j < |t.rows| ==> t.rows[i].id < t.rows[j].id)
    && Marked(t)
  }

  /** Every published row was acknowledged by the broker, and every inserted event is still a row or was acknowledged. */
  ghost predicate Acknowledged(t: Table) {
    (forall i :: 0 <= i < |t.rows| && t.rows[i].state == Published ==> t.rows[i].id in t.acked)
    && (forall k :: 0 <= k < |t.history| ==> Present(t.rows, k) || k in t.acked)
  }

  lemma AppendMarks(t: Table, d: Draft, read: nat, at: int)
    requires Marked(t) && AppendOutcome(t, d, read).Inserted?
    ensures Marked(Append(t, d, read, at))
  {
    var u := Append(t, d, read, at);
    assert u.history[|t.history|] == EventFor(d, AppendOutcome(t, d, read).version);
    forall g, v | (g, v) in u.marks ensures exists k :: 0 <= k < |u.history| && u.history[k].agg == g && u.history[k].version == v {
      if (g, v) in t.marks {
        var k :| 0 <= k < |t.history| && t.history[k].agg == g && t.history[k].version == v;
        assert u.history[k] == t.history[k];
      }
    }
  }

  lemma AppendKeeps(t: Table, d: Draft, read: nat, at: int)
    requires Sound(t)
    ensures Sound(Append(t, d, read, at))
  {
    if AppendOutcome(t, d, read).Inserted? {
      var u := Append(t, d, read, at);
      var n := |t.history|;
      AppendMarks(t, d, read, at);
      assert u.rows[|t.rows|].id == n && u.history[n] == u.rows[|t.rows|].event;
      forall i | 0 <= i < |t.rows| ensures RowSound(u, u.rows[i]) { assert RowSound(t, t.rows[i]); }
    }
  }

  /** A pointwise change that keeps ids and events. */
  lemma PointwiseKeeps(t: Table, rows: seq<Row>)
    requires Sound(t) && |rows| == |t.rows|
    requires forall i :: 0 <= i < |rows| ==> rows[i].id == t.rows[i].id && RowSound(t, rows[i])
    ensures Sound(t.(rows := rows))
  {
    var u := t.(rows := rows);
    forall i | 0 <= i < |rows| ensures RowSound(u, rows[i]) { assert RowSound(t, rows[i]); }
  }

  lemma {:induction false} PrunedIsPart(rows: seq<Row>, before: int)
    ensures forall r :: r in Pruned(rows, before) <==> r in rows && !Prunable(r, before)
    ensures (forall i, j :: 0 <= i < j < |rows| ==> rows[i].id < rows[j].id) ==>
              forall i, j :: 0 <= i < j < |Pruned(rows, before)| ==> Pruned(rows, before)[i].id < Pruned(rows, before)[j].id
  {
    if rows != [] {
      var init, last := rows[..|rows| - 1], rows[|rows| - 1];
      PrunedIsPart(init, before);
      assert rows == init + [last];
      var p := Pruned(init, before);
      if forall i, j :: 0 <= i < j < |rows| ==> rows[i].id < rows[j].id {
        forall i | 0 <= i < |p| ensures p[i].id < last.id {
          assert p[i] in init;
        }
      }
    }
  }

  lemma PruneKeeps(t: Table, before: int)
    requires Sound(t)
    ensures Sound(t.(rows := Pruned(t.rows, before)))
  {
    var u := t.(rows := Pruned(t.rows, before));
    PrunedIsPart(t.rows, before);
    forall i | 0 <= i < |u.rows| ensures RowSound(u, u.rows[i]) {
      assert u.rows[i] in t.rows;
      var j :| 0 <= j < |t.rows| && t.rows[j] == u.rows[i];
      assert RowSound(t, t.rows[j]);
    }
  }

  lemma DoKeeps(t: Table, op: Op)
    requires Sound(t)
    ensures Sound(Do(t, op))
  {
    match op
    case Produce(d, read, at) => AppendKeeps(t, d, read, at);
    case ClaimBatch(owner, limit, ttl, locked, at) => UpdateKeeps(t, Mark(at + ttl), owner, Batch(t.rows, limit, locked, at));
    case Acknowledge(id) => AcknowledgeKeeps(t, id);
    case Settle(owner, ids, st) => if Do(t, op) != t { UpdateKeeps(t, st, owner, ids); }
    case Unblock(id, at) => UnblockKeeps(t, id, at);
    case Prune(before) => PruneKeeps(t, before);
  }

  lemma UpdateKeeps(t: Table, st: Statement, owner: string, ids: set<nat>)
    requires Sound(t)
    ensures Sound(t.(rows := Update(t.rows, st, owner, ids)))
  {
    forall i | 0 <= i < |t.rows| ensures RowSound(t, Update(t.rows, st, owner, ids)[i]) {
      assert RowSound(t, t.rows[i]);
    }
    PointwiseKeeps(t, Update(t.rows, st, owner, ids));
  }

  lemma UnblockKeeps(t: Table, id: nat, at: int)
    requires Sound(t)
    ensures Sound(t.(rows := Unblocked(t.rows, id, at)))
  {
    forall i | 0 <= i < |t.rows| ensures RowSound(t, Unblocked(t.rows, id, at)[i]) {
      assert RowSound(t, t.rows[i]);
    }
    PointwiseKeeps(t, Unblocked(t.rows, id, at));
  }

  lemma AcknowledgeKeeps(t: Table, id: nat)
    requires Sound(t)
    ensures Sound(Do(t, Acknowledge(id)))
  {
    var u := Do(t, Acknowledge(id));
    forall i | 0 <= i < |u.rows| ensures RowSound(u, u.rows[i]) { assert RowSound(t, t.rows[i]); }
  }

  lemma {:induction false} Reachable(ops: seq<Op>)
    ensures Sound(Run(Empty, ops))
  {
    if ops != [] {
      Reachable(ops[..|ops| - 1]);
      DoKeeps(Run(Empty, ops[..|ops| - 1]), ops[|ops| - 1]);
    }
  }

  // ---- what is published was acknowledged ----

  lemma AppendAcknowledged(t: Table, d: Draft, read: nat, at: int)
    requires Sound(t) && Acknowledged(t)
    ensures Acknowledged(Append(t, d, read, at))
  {
    var u := Append(t, d, read, at);
    if AppendOutcome(t, d, read).Inserted? {
      assert u.rows[|t.rows|].id == |t.history|;
      forall k | 0 <= k < |t.history| && Present(t.rows, k) ensures Present(u.rows, k) {
        var i :| 0 <= i < |t.rows| && t.rows[i].id == k;
        assert u.rows[i].id == k;
      }
    }
  }

  lemma PointwiseAcknowledged(t: Table, rows: seq<Row>)
    requires Acknowledged(t) && |rows| == |t.rows| && forall i :: 0 <= i < |rows| ==> rows[i].id == t.rows[i].id
    requires forall i :: 0 <= i < |rows| && rows[i].state == Published ==> t.rows[i].state == Published || rows[i].id in t.acked
    ensures Acknowledged(t.(rows := rows))
  {
    forall k | 0 <= k < |t.history| && Present(t.rows, k) ensures Present(rows, k) {
      var i :| 0 <= i < |t.rows| && t.rows[i].id == k;
      assert rows[i].id == k;
    }
  }

  lemma PruneAcknowledged(t: Table, before: int)
    requires Acknowledged(t)
    ensures Acknowledged(t.(rows := Pruned(t.rows, before)))
  {
    var rows := Pruned(t.rows, before);
    PrunedIsPart(t.rows, before);
    forall i | 0 <= i < |rows| && rows[i].state == Published ensures rows[i].id in t.acked {
      assert rows[i] in t.rows;
    }
    forall k | 0 <= k < |t.history| && k !in t.acked ensures Present(rows, k) {
      var i :| 0 <= i < |t.rows| && t.rows[i].id == k;
      assert t.rows[i] in rows;
      var j :| 0 <= j < |rows| && rows[j] == t.rows[i];
      assert rows[j].id == k;
    }
  }

  /** A truthful operation leaves no published row and no missing row without its acknowledgement. */
  lemma DoAcknowledged(t: Table, op: Op)
    requires Sound(t) && Acknowledged(t) && Truthful(t, op)
    ensures Acknowledged(Do(t, op))
  {
    match op
    case Produce(d, read, at) => AppendAcknowledged(t, d, read, at);
    case Acknowledge(id) =>
    case Prune(before) => PruneAcknowledged(t, before);
    case _ => PointwiseAcknowledged(t, Do(t, op).rows);
  }

  /** Marking rows as published keeps that so exactly when every held row it names was acknowledged. */
  lemma AckNeedsTruth(t: Table, owner: string, ids: set<nat>, when: int)
    requires Acknowledged(t)
    ensures Acknowledged(Do(t, Settle(owner, ids, Ack(when))))
       <==> forall i :: 0 <= i < |t.rows| && Held(t.rows[i], owner) && t.rows[i].id in ids ==> t.rows[i].id in t.acked
  {
    var u := Do(t, Settle(owner, ids, Ack(when)));
    if forall i :: 0 <= i < |t.rows| && Held(t.rows[i], owner) && t.rows[i].id in ids ==> t.rows[i].id in t.acked {
      PointwiseAcknowledged(t, u.rows);
    } else {
      var i :| 0 <= i < |t.rows| && Held(t.rows[i], owner) && t.rows[i].id in ids && t.rows[i].id !in t.acked;
      assert u.rows[i].state == Published;
    }
  }

  lemma {:induction false} RunAcknowledged(t: Table, ops: seq<Op>)
    requires Sound(t) && Acknowledged(t) && AllTruthful(t, ops)
    ensures Sound(Run(t, ops)) && Acknowledged(Run(t, ops))
  {
    if ops != [] {
      var init := ops[..|ops| - 1];
      RunAcknowledged(t, init);
      DoKeeps(Run(t, init), ops[|ops| - 1]);
      DoAcknowledged(Run(t, init), ops[|ops| - 1]);
    }
  }

  /**
   * In a run whose publishers mark only what the broker acknowledged, a row is published only if it was
   * acknowledged, and an event's row is gone only if it was.
   */
  lemma PublishedOnlyIfAcknowledged(ops: seq<Op>)
    requires AllTruthful(Empty, ops)
    ensures var t := Run(Empty, ops);
            (forall r :: r in t.rows && r.state == Published ==> r.id in t.acked)
            && (forall k :: 0 <= k < |t.history| && !Present(t.rows, k) ==> k in t.acked)
  {
    RunAcknowledged(Empty, ops);
    var t := Run(Empty, ops);
    forall r | r in t.rows && r.state == Published ensures r.id in t.acked {
      var i :| 0 <= i < |t.rows| && t.rows[i] == r;
    }
  }

  /** A marker without its row points to an event the broker acknowledged before it was pruned. */
  lemma MarkerTellsLoss(ops: seq<Op>, g: Aggregate, v: nat)
    requires AllTruthful(Empty, ops) && (g, v) in Run(Empty, ops).marks
    ensures var t := Run(Empty, ops);
            exists k :: 0 <= k < |t.history| && t.history[k].agg == g && t.history[k].version == v
                        && (Present(t.rows, k) || k in t.acked)
  {
    RunAcknowledged(Empty, ops);
  }

  // ---- the publish-state machine ----

  predicate CanTransition(from: PublishState, to: PublishState) {
    match from
    case Pending => to == Published || to == Blocked
    case Blocked => to == Pending
    case Published => false
  }

  /** An operation changes a row's publish state only along an edge, and deletes none but published rows. */
  lemma StateEdges(t: Table, op: Op, r: Row)
    requires Sound(t) && r in t.rows
    ensures (exists u :: u in Do(t, op).rows && u.id == r.id && u.event == r.event
                         && (u.state == r.state || CanTransition(r.state, u.state)))
            || (op.Prune? && Prunable(r, op.before) && r !in Do(t, op).rows)
  {
    var i :| 0 <= i < |t.rows| && t.rows[i] == r;
    if op.Prune? {
      PrunedIsPart(t.rows, op.before);
    } else {
      assert RowSound(t, t.rows[i]);
      var u := Do(t, op).rows[i];
      assert u in Do(t, op).rows;
    }
  }

  // ---- leases ----

  /** The owner on whose behalf an operation acts. */
  function ActorOf(op: Op): Option<string> {
    match op
    case ClaimBatch(owner, _, _, _, _) => Some(owner)
    case Settle(owner, _, _) => Some(owner)
    case _ => None
  }

  /** Neither a step of the lease's owner nor a claim made after the lease expired. */
  predicate LeavesLease(op: Op, lease: Lease) {
    ActorOf(op) != Some(lease.owner) && (op.ClaimBatch? ==> op.at < lease.expiresAt)
  }

  lemma {:induction false} BatchClaimable(rows: seq<Row>, limit: nat, locked: set<nat>, at: int, i: nat)
    requires i < |rows| && rows[i].id in Batch(rows, limit, locked, at)
    requires forall a, b :: 0 <= a < b < |rows| ==> rows[a].id < rows[b].id
    ensures Claimable(rows[i], at)
  {
    var init, last := rows[..|rows| - 1], rows[|rows| - 1];
    if rows[i].id in Batch(init, limit, locked, at) {
      BatchIds(init, limit, locked, at, rows[i].id);
      var k :| 0 <= k < |init| && init[k].id == rows[i].id;
      assert k == i;
      BatchClaimable(init, limit, locked, at, i);
    }
  }

  lemma {:induction false} BatchIds(rows: seq<Row>, limit: nat, locked: set<nat>, at: int, id: nat)
    requires id in Batch(rows, limit, locked, at)
    ensures exists k :: 0 <= k < |rows| && rows[k].id == id
  {
    var init, last := rows[..|rows| - 1], rows[|rows| - 1];
    if id in Batch(init, limit, locked, at) {
      BatchIds(init, limit, locked, at, id);
      var k :| 0 <= k < |init| && init[k].id == id;
      assert rows[k].id == id;
    } else {
      assert rows[|rows| - 1].id == id;
    }
  }

  /**
   * A claim takes the first due rows in id order: only claimable, unlocked ones, at most `limit`, and a
   * claimable one is left out only when the batch is full of smaller ids.
   */
  lemma {:induction false} BatchExact(rows: seq<Row>, limit: nat, locked: set<nat>, at: int)
    requires forall i, j :: 0 <= i < j < |rows| ==> rows[i].id < rows[j].id
    ensures |Batch(rows, limit, locked, at)| <= limit
    ensures forall i :: 0 <= i < |rows| && rows[i].id in Batch(rows, limit, locked, at) ==> Claimable(rows[i], at) && rows[i].id !in locked
    ensures forall i :: 0 <= i < |rows| && Claimable(rows[i], at) && rows[i].id !in locked && rows[i].id !in Batch(rows, limit, locked, at) ==>
              |Batch(rows, limit, locked, at)| == limit && forall id :: id in Batch(rows, limit, locked, at) ==> id < rows[i].id
  {
    if rows != [] {
      var k := |rows| - 1;
      var init := rows[..k];
      var before := Batch(init, limit, locked, at);
      BatchExact(init, limit, locked, at);
      forall id | id in before ensures id < rows[k].id {
        BatchIds(init, limit, locked, at, id);
        var j :| 0 <= j < |init| && init[j].id == id;
      }
      forall i | 0 <= i < k ensures init[i] == rows[i] {}
    }
  }

  /**
   * What a settled row may be used for next: published rows are never claimed and are prunable when old enough,
   * released ones are claimable when due, blocked ones not; failures leave their class.
   */
  lemma SettledRowClaimable(st: Statement, r: Row, owner: string, now: int, before: int)
    requires Held(r, owner) && !st.Mark?
    ensures var u := Change(st, r, owner);
            u.id == r.id && u.event == r.event && u.attempts == r.attempts && u.lease.None?
            && (Claimable(u, now) <==> match st
                                       case Ack(_) => false
                                       case Block(_) => false
                                       case Release(nextAt, _) => nextAt <= now
                                       case ReleaseNow(nextAt) => nextAt <= now)
            && (Prunable(u, before) <==> st.Ack? && st.when < before)
            && u.errorClass == (if st.Release? || st.Block? then Some(st.errorClass) else r.errorClass)
  {}

  /** An unblock returns the blocked row, without its error, to be claimed at once, and touches no other row. */
  lemma UnblockReturns(rows: seq<Row>, id: nat, at: int, i: nat, now: int)
    requires i < |rows|
    ensures var u := Unblocked(rows, id, at)[i];
            if rows[i].id == id && rows[i].state == Blocked
            then u.event == rows[i].event && u.errorClass.None? && (rows[i].lease.None? ==> (Claimable(u, now) <==> at <= now))
            else u == rows[i]
  {}

  /** A claimed row counts one more attempt and is claimable again, by anyone, exactly from its expiry on. */
  lemma ClaimedRowReturns(r: Row, owner: string, at: int, ttl: nat, now: int)
    requires Claimable(r, at) && at <= now
    ensures var u := Change(Mark(at + ttl), r, owner);
            Held(u, owner) && u.attempts == r.attempts + 1 && (Claimable(u, now) <==> at + ttl <= now)
  {}

  lemma LeaseStep(t: Table, op: Op, r: Row)
    requires Sound(t) && r in t.rows && r.state == Pending && r.lease.Some? && LeavesLease(op, r.lease.value)
    ensures r in Do(t, op).rows
  {
    var i :| 0 <= i < |t.rows| && t.rows[i] == r;
    if op.Prune? {
      PrunedIsPart(t.rows, op.before);
    } else {
      if op.ClaimBatch? && r.id in Batch(t.rows, op.limit, op.locked, op.at) {
        BatchClaimable(t.rows, op.limit, op.locked, op.at, i);
        assert false;
      }
      assert Do(t, op).rows[i] == r;
    }
  }

  /** Until its lease expires or its owner acts, a claimed row stays exactly as it is, whatever anyone else does. */
  lemma {:induction false} LeaseExclusive(t: Table, ops: seq<Op>, r: Row)
    requires Sound(t) && r in t.rows && r.state == Pending && r.lease.Some?
    requires forall k :: 0 <= k < |ops| ==> LeavesLease(ops[k], r.lease.value)
    ensures Sound(Run(t, ops)) && r in Run(t, ops).rows
  {
    if ops != [] {
      LeaseExclusive(t, ops[..|ops| - 1], r);
      LeaseStep(Run(t, ops[..|ops| - 1]), ops[|ops| - 1], r);
      DoKeeps(Run(t, ops[..|ops| - 1]), ops[|ops| - 1]);
    }
  }
}
