/**
 * One consumer under any number of workers: group members, zombies after a rebalance, and replays.
 * The apply transaction has two steps. `Begin` inserts the inbox row and reads the version row; an
 * existing version row is locked by the read, an absent one is not. `Commit` writes and commits.
 */
module ConsumerSystem {
  import opened Vocabulary
  import opened ConsumerTables

  /** An apply transaction in flight: whether it found a version row, and what it read there. */
  datatype Tx = Tx(message: Message, found: bool, read: nat)

  /**
   * `log` is the broker's log, `at` the next offset of each worker's partition, `committed` every
   * offset that was ever committed to the broker.
   */
  datatype System = System(db: Db, log: Log, txs: map<nat, Tx>, at: map<nat, Coord>,
                           committed: map<Partition, set<nat>>)

  datatype Op =
    | Produce(part: Partition, body: Body)
    | Assign(worker: nat, part: Partition, progressRead: bool, kafka: Option<nat>)
    | Begin(worker: nat, message: Message)
    | Commit(worker: nat, result: CommitResult)
    | Abandon(worker: nat)
    | Duplicate(worker: nat, message: Message, result: CommitResult)
    | SkipOld(worker: nat, message: Message, result: CommitResult)
    | SetAside(worker: nat, message: Message, reason: Reason, attempts: nat, result: CommitResult)
    | CommitOffset(worker: nat)
    | CloseRow(row: nat, status: Status)

  const Start := System(Empty, map[], map[], map[], map[])

  type Log = map<Partition, seq<Body>>

  function LogOf(log: Log, p: Partition): seq<Body> {
    if p in log then log[p] else []
  }

  function CommittedOf(committed: map<Partition, set<nat>>, p: Partition): set<nat> {
    if p in committed then committed[p] else {}
  }

  /** Where a newly assigned partition resumes; None is the client's reset to the start of the topic. */
  function ResolveStart(progress: Option<nat>, kafka: Option<nat>): Option<nat> {
    match (progress, kafka)
    case (Some(p), Some(k)) => if k > p then Some(k) else Some(p)
    case (Some(p), None) => Some(p)
    case (None, Some(k)) => Some(k)
    case (None, None) => None
  }

  function StartOffset(s: System, p: Partition, progressRead: bool, kafka: Option<nat>): nat {
    var start := ResolveStart(if progressRead && p in s.db.progress then Some(s.db.progress[p]) else None, kafka);
    if start.Some? then start.value else 0
  }

  /** A worker handles the value at its offset, a row of the quarantine again, or an outbox row. */
  predicate Deliverable(s: System, w: nat, m: Message) {
    match m.source
    case None => true
    case Some(c) =>
      (w in s.at && s.at[w] == c && c.offset < |LogOf(s.log, c.part)| && m.body == LogOf(s.log, c.part)[c.offset])
      || exists i :: 0 <= i < |s.db.quarantine| && FromRow(s.db.quarantine[i], m)
  }

  /** A replay of a quarantine row: its coordinates and its snapshot, which need not parse to the same refusal. */
  predicate FromRow(row: QuarantineRow, m: Message) {
    m.source == row.message.source
    && (m.body == row.message.body || (m.body.Refused? && row.message.body.Refused?))
  }

  function EventOf(t: Tx): EventId {
    IdOf(t.message.body)
  }

  /** Another transaction holds the row lock of the aggregate. */
  predicate RowLocked(s: System, w: nat, g: Aggregate) {
    exists k :: k in s.txs && k != w && s.txs[k].found && s.txs[k].message.body.Valid?
                && s.txs[k].message.body.event.agg == g
  }

  predicate CanBegin(s: System, w: nat, m: Message) {
    w !in s.txs && m.body.Valid? && Deliverable(s, w, m)
    && m.body.event.id !in s.db.inbox
    && (forall k :: k in s.txs ==> EventOf(s.txs[k]) != m.body.event.id)
    && (m.body.event.agg in s.db.versions ==> !RowLocked(s, w, m.body.event.agg))
    && GuardOf(s.db, m.body.event) == Apply
  }

  /** The worker has finished its message and moves to the next offset. */
  function Finish(s: System, w: nat, m: Message): System {
    if w in s.at && m.source == Some(s.at[w])
    then s.(at := s.at[w := Coord(s.at[w].part, s.at[w].offset + 1)])
    else s
  }

  /** A transaction that leads to `db`, with its three possible ends. */
  function Settle(s: System, db: Db, w: nat, m: Message, result: CommitResult): System {
    match result
    case RolledBack => s
    case Ambiguous => s.(db := db)
    case Reported => Finish(s.(db := db), w, m)
  }

  function DoBegin(s: System, w: nat, m: Message): System {
    if !CanBegin(s, w, m) then s
    else
      var g := m.body.event.agg;
      s.(txs := s.txs[w := Tx(m, g in s.db.versions, if g in s.db.versions then s.db.versions[g] else 0)])
  }

  predicate CanCommit(s: System, w: nat) {
    w in s.txs && s.txs[w].message.body.Valid?
    && (!s.txs[w].found ==> !RowLocked(s, w, s.txs[w].message.body.event.agg))
  }

  /** The version statement updates a row: there is none yet, or a smaller version. */
  predicate VersionAdvances(db: Db, e: Event) {
    e.agg in db.versions ==> db.versions[e.agg] < e.version
  }

  function DoCommit(s: System, w: nat, result: CommitResult): System {
    if !CanCommit(s, w) then s
    else
      var m := s.txs[w].message;
      var ended := s.(txs := s.txs - {w});
      if VersionAdvances(s.db, m.body.event) then Settle(ended, Applied(s.db, m), w, m, result) else ended
  }

  function Do(s: System, op: Op): System {
    match op
    case Produce(p, body) => s.(log := s.log[p := LogOf(s.log, p) + [body]])
    case Assign(w, p, progressRead, kafka) =>
      if kafka.Some? && kafka.value !in CommittedOf(s.committed, p) then s
      else s.(at := s.at[w := Coord(p, StartOffset(s, p, progressRead, kafka))])
    case Begin(w, m) => DoBegin(s, w, m)
    case Commit(w, result) => DoCommit(s, w, result)
    case Abandon(w) => s.(txs := s.txs - {w})
    case Duplicate(w, m, result) =>
      if Deliverable(s, w, m) && m.body.Valid? && m.body.event.id in s.db.inbox
      then Settle(s, Advance(s.db, m.source), w, m, result) else s
    case SkipOld(w, m, result) =>
      if Deliverable(s, w, m) && m.body.Valid? && GuardOf(s.db, m.body.event) == Skip
      then Settle(s, Advance(s.db, m.source), w, m, result) else s
    case SetAside(w, m, reason, attempts, result) =>
      if Deliverable(s, w, m) then Settle(s, ConsumerTables.Quarantine(s.db, m, reason, attempts), w, m, result) else s
    case CommitOffset(w) =>
      if w in s.at then s.(committed := s.committed[s.at[w].part := CommittedOf(s.committed, s.at[w].part) + {s.at[w].offset}]) else s
    case CloseRow(row, status) => s.(db := ConsumerTables.CloseRow(s.db, row, status))
  }

  function Run(s: System, ops: seq<Op>): System {
    if ops == [] then s else Do(Run(s, ops[..|ops| - 1]), ops[|ops| - 1])
  }

  // ---- the invariant ----

  /** A message's coordinates are behind the durable progress, or at it with the value the log holds there. */
  ghost predicate Placed(db: Db, log: Log, m: Message) {
    m.source.Some? ==>
      var c := m.source.value;
      c.offset < NextOffset(db, c.part)
      || (c.offset == NextOffset(db, c.part) && c.offset < |LogOf(log, c.part)| && m.body == LogOf(log, c.part)[c.offset])
  }

  ghost predicate TxSound(db: Db, log: Log, t: Tx) {
    t.message.body.Valid? && t.message.body.event.id !in db.inbox && Placed(db, log, t.message)
    && (t.found ==>
          && t.message.body.event.agg in db.versions
          && db.versions[t.message.body.event.agg] == t.read
          && t.message.body.event.version == t.read + 1)
  }

  /** They insert different inbox rows and do not both hold one version row. */
  ghost predicate Apart(t: Tx, u: Tx)
    requires t.message.body.Valid? && u.message.body.Valid?
  {
    t.message.body.event.id != u.message.body.event.id
    && !(t.found && u.found && t.message.body.event.agg == u.message.body.event.agg)
  }

  ghost predicate TxsSound(db: Db, log: Log, txs: map<nat, Tx>) {
    (forall k :: k in txs ==> TxSound(db, log, txs[k]))
    && (forall k, l :: k in txs && l in txs && k != l ==> Apart(txs[k], txs[l]))
  }

  /** Everything below the durable progress of a partition is in the log and accounted for. */
  ghost predicate AllAccounted(db: Db, log: Log, p: Partition) {
    NextOffset(db, p) <= |LogOf(log, p)|
    && forall o :: 0 <= o < NextOffset(db, p) ==> Accounted(db, LogOf(log, p)[o])
  }

  ghost predicate NothingLost(db: Db, log: Log) {
    forall p :: AllAccounted(db, log, p)
  }

  /** No position, committed offset or quarantine row is ahead of the durable progress. */
  ghost predicate PositionsBehind(db: Db, at: map<nat, Coord>) {
    forall w :: w in at ==> at[w].offset <= NextOffset(db, at[w].part)
  }

  ghost predicate OffsetsBehind(db: Db, committed: map<Partition, set<nat>>) {
    forall p, o :: o in CommittedOf(committed, p) ==> o <= NextOffset(db, p)
  }

  ghost predicate RowsBehind(db: Db) {
    forall i :: 0 <= i < |db.quarantine| && db.quarantine[i].message.source.Some? ==>
      db.quarantine[i].message.source.value.offset < NextOffset(db, db.quarantine[i].message.source.value.part)
  }

  ghost predicate NothingAhead(db: Db, at: map<nat, Coord>, committed: map<Partition, set<nat>>) {
    PositionsBehind(db, at) && OffsetsBehind(db, committed) && RowsBehind(db)
  }

  ghost predicate Sound(s: System) {
    OnceEach(s.db) && Ordered(s.db) && OneOpenRow(s.db.quarantine) && TxsSound(s.db, s.log, s.txs)
    && NothingLost(s.db, s.log) && NothingAhead(s.db, s.at, s.committed)
  }
}
