/** Every step of every worker keeps the consumer's invariant. */
module ConsumerSoundness {
  import opened Vocabulary
  import opened ConsumerTables
  import opened ConsumerSystem

  lemma PlacedStays(a: Db, b: Db, log: Log, m: Message)
    requires Placed(a, log, m) && Evolves(a, b)
    ensures Placed(b, log, m)
  {
    if m.source.Some? {
      assert NextOffset(a, m.source.value.part) <= NextOffset(b, m.source.value.part);
    }
  }

  lemma DeliverablePlaced(s: System, w: nat, m: Message)
    requires NothingAhead(s.db, s.at, s.committed) && Deliverable(s, w, m)
    ensures Placed(s.db, s.log, m)
  {
    if m.source.Some? {
      var c := m.source.value;
      if !(w in s.at && s.at[w] == c && c.offset < |LogOf(s.log, c.part)| && m.body == LogOf(s.log, c.part)[c.offset]) {
        var i :| 0 <= i < |s.db.quarantine| && FromRow(s.db.quarantine[i], m);
      }
    }
  }

  /** What the settling transactions have in common: from `a` to `b` with the message accounted for. */
  ghost predicate Settles(a: Db, b: Db, m: Message) {
    Evolves(a, b) && b.progress == Advance(a, m.source).progress && Accounted(b, m.body)
    && forall i :: |a.quarantine| <= i < |b.quarantine| ==> b.quarantine[i].message.source == m.source
  }

  lemma NextAfter(a: Db, b: Db, log: Log, m: Message, p: Partition)
    requires Settles(a, b, m) && Placed(a, log, m)
    ensures NextOffset(b, p) == NextOffset(a, p)
            || (m.source == Some(Coord(p, NextOffset(a, p))) && NextOffset(b, p) == NextOffset(a, p) + 1)
    ensures m.source.Some? && m.source.value.part == p ==> m.source.value.offset < NextOffset(b, p)
  {}

  lemma SettlingLosesNothing(a: Db, b: Db, log: Log, m: Message)
    requires NothingLost(a, log) && Placed(a, log, m) && Settles(a, b, m)
    ensures NothingLost(b, log)
  {
    forall p ensures AllAccounted(b, log, p) {
      assert AllAccounted(a, log, p);
      NextAfter(a, b, log, m, p);
      forall o | 0 <= o < NextOffset(b, p) ensures Accounted(b, LogOf(log, p)[o]) {
        if o < NextOffset(a, p) {
          AccountedStays(a, b, LogOf(log, p)[o]);
        }
      }
    }
  }

  /** Progress made by others leaves positions, offsets and rows behind it. */
  lemma BehindStays(a: Db, b: Db, at: map<nat, Coord>, committed: map<Partition, set<nat>>)
    requires Evolves(a, b)
    ensures PositionsBehind(a, at) ==> PositionsBehind(b, at)
    ensures OffsetsBehind(a, committed) ==> OffsetsBehind(b, committed)
  {
    assert forall p :: NextOffset(a, p) <= NextOffset(b, p);
  }

  lemma RowsStayBehind(a: Db, b: Db, log: Log, m: Message)
    requires RowsBehind(a) && Placed(a, log, m) && Settles(a, b, m)
    ensures RowsBehind(b)
  {
    forall i | 0 <= i < |b.quarantine| && b.quarantine[i].message.source.Some?
      ensures b.quarantine[i].message.source.value.offset < NextOffset(b, b.quarantine[i].message.source.value.part) {
      NextAfter(a, b, log, m, b.quarantine[i].message.source.value.part);
      if i < |a.quarantine| {
        assert RowEvolves(a.quarantine[i], b.quarantine[i]);
      }
    }
  }

  lemma SettleStaysBehind(s: System, db: Db, w: nat, m: Message, result: CommitResult)
    requires NothingAhead(s.db, s.at, s.committed) && Placed(s.db, s.log, m) && Settles(s.db, db, m)
    ensures var t := Settle(s, db, w, m, result); NothingAhead(t.db, t.at, t.committed)
  {
    BehindStays(s.db, db, s.at, s.committed);
    RowsStayBehind(s.db, db, s.log, m);
    if m.source.Some? {
      NextAfter(s.db, db, s.log, m, m.source.value.part);
    }
  }

  /** Transactions in flight do not notice a settlement that applies nothing. */
  lemma TxsUnaffected(a: Db, b: Db, log: Log, txs: map<nat, Tx>)
    requires TxsSound(a, log, txs) && Evolves(a, b) && b.inbox == a.inbox && b.versions == a.versions
    ensures TxsSound(b, log, txs)
  {
    forall k | k in txs ensures TxSound(b, log, txs[k]) {
      assert TxSound(a, log, txs[k]);
      PlacedStays(a, b, log, txs[k].message);
    }
  }

  lemma SameHistory(a: Db, b: Db)
    requires Ordered(a) && b.effects == a.effects && b.versions == a.versions
    ensures Ordered(b)
  {
    forall g ensures OrderedUpTo(b, g) { assert OrderedUpTo(a, g); }
  }

  lemma SettleKeeps(s: System, db: Db, w: nat, m: Message, result: CommitResult)
    requires Sound(s) && Placed(s.db, s.log, m) && Settles(s.db, db, m)
    requires db.inbox == s.db.inbox && db.versions == s.db.versions && db.effects == s.db.effects && OneOpenRow(db.quarantine)
    ensures Sound(Settle(s, db, w, m, result))
  {
    SettlingLosesNothing(s.db, db, s.log, m);
    SettleStaysBehind(s, db, w, m, result);
    TxsUnaffected(s.db, db, s.log, s.txs);
    SameHistory(s.db, db);
  }

  lemma BeginKeeps(s: System, w: nat, m: Message)
    requires Sound(s)
    ensures Sound(DoBegin(s, w, m))
  {
    if CanBegin(s, w, m) {
      DeliverablePlaced(s, w, m);
      var t := DoBegin(s, w, m);
      assert TxSound(t.db, t.log, t.txs[w]);
      forall k | k in t.txs && k != w ensures Apart(t.txs[k], t.txs[w]) && Apart(t.txs[w], t.txs[k]) {
        assert TxSound(s.db, s.log, s.txs[k]);
      }
    }
  }

  lemma AppliedSettles(db: Db, m: Message)
    requires m.body.Valid? && VersionAdvances(db, m.body.event)
    ensures Settles(db, Applied(db, m), m)
  {
    AppliedEvolves(db, m);
  }

  lemma CommitKeepsTxs(s: System, w: nat)
    requires TxsSound(s.db, s.log, s.txs) && CanCommit(s, w) && VersionAdvances(s.db, s.txs[w].message.body.event)
    ensures TxsSound(Applied(s.db, s.txs[w].message), s.log, s.txs - {w})
  {
    var m := s.txs[w].message;
    var b := Applied(s.db, m);
    AppliedEvolves(s.db, m);
    forall k | k in s.txs - {w} ensures TxSound(b, s.log, s.txs[k]) {
      assert TxSound(s.db, s.log, s.txs[k]) && Apart(s.txs[k], s.txs[w]);
      PlacedStays(s.db, b, s.log, s.txs[k].message);
    }
  }

  lemma CommitKeeps(s: System, w: nat, result: CommitResult)
    requires Sound(s)
    ensures Sound(DoCommit(s, w, result))
  {
    if CanCommit(s, w) && VersionAdvances(s.db, s.txs[w].message.body.event) {
      var m := s.txs[w].message;
      var db := Applied(s.db, m);
      var ended := s.(txs := s.txs - {w});
      assert TxSound(s.db, s.log, s.txs[w]);
      AppliedSettles(s.db, m);
      SettlingLosesNothing(s.db, db, s.log, m);
      SettleStaysBehind(ended, db, w, m, result);
      CommitKeepsTxs(s, w);
      AppliedOnce(s.db, m);
      AppliedOrdered(s.db, m);
    }
  }

  lemma AssignKeeps(s: System, w: nat, p: Partition, progressRead: bool, kafka: Option<nat>)
    requires Sound(s)
    ensures Sound(Do(s, Assign(w, p, progressRead, kafka)))
  {
    assert kafka.Some? && kafka.value in CommittedOf(s.committed, p) ==> kafka.value <= NextOffset(s.db, p);
  }

  lemma ProduceKeeps(s: System, p: Partition, body: Body)
    requires Sound(s)
    ensures Sound(Do(s, Produce(p, body)))
  {
    var t := Do(s, Produce(p, body));
    forall q ensures LogOf(s.log, q) <= LogOf(t.log, q) && AllAccounted(t.db, t.log, q) {
      assert AllAccounted(s.db, s.log, q);
    }
    forall k | k in t.txs ensures TxSound(t.db, t.log, t.txs[k]) {
      assert TxSound(s.db, s.log, s.txs[k]);
      var m := t.txs[k].message;
      if m.source.Some? {
        assert LogOf(s.log, m.source.value.part) <= LogOf(t.log, m.source.value.part);
      }
    }
  }

  lemma CloseRowKeeps(s: System, row: nat, status: Status)
    requires Sound(s)
    ensures Sound(Do(s, CloseRow(row, status)))
  {
    var b := ConsumerTables.CloseRow(s.db, row, status);
    CloseRowEvolves(s.db, row, status);
    TxsUnaffected(s.db, b, s.log, s.txs);
    SameHistory(s.db, b);
    BehindStays(s.db, b, s.at, s.committed);
    forall p ensures AllAccounted(b, s.log, p) {
      assert AllAccounted(s.db, s.log, p);
      forall o | 0 <= o < NextOffset(b, p) ensures Accounted(b, LogOf(s.log, p)[o]) {
        AccountedStays(s.db, b, LogOf(s.log, p)[o]);
      }
    }
  }

  lemma DuplicateKeeps(s: System, w: nat, m: Message, result: CommitResult)
    requires Sound(s)
    ensures Sound(Do(s, Duplicate(w, m, result))) && Sound(Do(s, SkipOld(w, m, result)))
  {
    if Deliverable(s, w, m) && m.body.Valid? && (m.body.event.id in s.db.inbox || GuardOf(s.db, m.body.event) == Skip) {
      DeliverablePlaced(s, w, m);
      AdvanceEvolves(s.db, m.source);
      SettleKeeps(s, Advance(s.db, m.source), w, m, result);
    }
  }

  lemma QuarantineSettles(db: Db, m: Message, reason: Reason, attempts: nat)
    ensures Settles(db, ConsumerTables.Quarantine(db, m, reason, attempts), m)
  {
    QuarantineEvolves(db, m, reason, attempts);
  }

  lemma SetAsideKeeps(s: System, w: nat, m: Message, reason: Reason, attempts: nat, result: CommitResult)
    requires Sound(s)
    ensures Sound(Do(s, SetAside(w, m, reason, attempts, result)))
  {
    if Deliverable(s, w, m) {
      DeliverablePlaced(s, w, m);
      QuarantineSettles(s.db, m, reason, attempts);
      EnqueueOneOpen(s.db, m, reason, attempts);
      SettleKeeps(s, ConsumerTables.Quarantine(s.db, m, reason, attempts), w, m, result);
    }
  }

  lemma CommitOffsetKeeps(s: System, w: nat)
    requires Sound(s)
    ensures Sound(Do(s, CommitOffset(w)))
  {
    if w in s.at {
      var t := Do(s, CommitOffset(w));
      forall p, o | o in CommittedOf(t.committed, p) ensures o <= NextOffset(t.db, p) {
        if o !in CommittedOf(s.committed, p) {
          assert p == s.at[w].part && o == s.at[w].offset;
        }
      }
    }
  }

  lemma DoKeeps(s: System, op: Op)
    requires Sound(s)
    ensures Sound(Do(s, op))
  {
    match op
    case Produce(p, body) => ProduceKeeps(s, p, body);
    case Assign(w, p, progressRead, kafka) => AssignKeeps(s, w, p, progressRead, kafka);
    case Begin(w, m) => BeginKeeps(s, w, m);
    case Commit(w, result) => CommitKeeps(s, w, result);
    case Abandon(w) =>
    case Duplicate(w, m, result) => DuplicateKeeps(s, w, m, result);
    case SkipOld(w, m, result) => DuplicateKeeps(s, w, m, result);
    case SetAside(w, m, reason, attempts, result) => SetAsideKeeps(s, w, m, reason, attempts, result);
    case CommitOffset(w) => CommitOffsetKeeps(s, w);
    case CloseRow(row, status) => CloseRowKeeps(s, row, status);
  }

  lemma StartSound()
    ensures Sound(Start)
  {}

  /** Every reachable state is sound. */
  lemma {:induction false} Reachable(ops: seq<Op>)
    ensures Sound(Run(Start, ops))
  {
    if ops == [] {
      StartSound();
    } else {
      Reachable(ops[..|ops| - 1]);
      DoKeeps(Run(Start, ops[..|ops| - 1]), ops[|ops| - 1]);
    }
  }
}
