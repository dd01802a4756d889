/**
 * The outbox table under producers, any number of publishers, operators and the retention prune
 * (append.go, outbox.go). Each statement is one guarded update; `at` is `now()` of its transaction.
 */
module Outbox {
  import opened Vocabulary
  import opened NaturalKeys

  datatype PublishState = Pending | Published | Blocked

  /** A publish claim: both columns are set together and cleared together. */
  datatype Lease = Lease(owner: string, expiresAt: int)

  datatype Row = Row(id: nat, identity: Identity, event: Event, state: PublishState, attempts: nat, nextAt: int,
                     lease: Option<Lease>, errorClass: Option<string>, publishedAt: int)

  /** What a producer hands over: the version and the identity are derived. */
  datatype Draft = Draft(identity: Identity, agg: Aggregate, payload: Payload)

  /**
   * `marks` are the obligation markers. `history` and `acked` are history variables: every event ever
   * inserted, and the rows the broker has acknowledged at least once.
   */
  datatype Table = Table(rows: seq<Row>, nextId: nat, marks: set<(Aggregate, nat)>, history: seq<Event>, acked: set<nat>)

  const Empty := Table([], 0, {}, [], {})

  // ---- append.go ----

  /** coalesce(max(aggregate_version), 0) */
  function MaxVersion(rows: seq<Row>, g: Aggregate): nat {
    if rows == [] then 0
    else
      var before := MaxVersion(rows[..|rows| - 1], g);
      var e := rows[|rows| - 1].event;
      if e.agg == g && e.version > before then e.version else before
  }

  datatype AppendResult = Inserted(id: nat, version: nat) | Noop(version: nat) | Conflict

  predicate SameLog(rows: seq<Row>, identity: Identity) {
    exists i :: 0 <= i < |rows| && identity.EvmLog? && rows[i].identity == identity
  }

  function LogRow(rows: seq<Row>, identity: Identity): (r: Row)
    requires SameLog(rows, identity)
    ensures r in rows && r.identity == identity
  {
    if rows[|rows| - 1].identity == identity then rows[|rows| - 1]
    else
      assert SameLog(rows[..|rows| - 1], identity) by {
        var i :| 0 <= i < |rows| && identity.EvmLog? && rows[i].identity == identity;
        assert rows[..|rows| - 1][i] == rows[i];
      }
      LogRow(rows[..|rows| - 1], identity)
  }

  predicate HasEvent(rows: seq<Row>, id: EventId) {
    exists i :: 0 <= i < |rows| && rows[i].event.id == id
  }

  /** A row of the business object at this version: what its partial unique index refuses a second time. */
  predicate SameObject(rows: seq<Row>, g: Aggregate, version: nat) {
    exists i :: 0 <= i < |rows| && rows[i].identity.BusinessObject? && rows[i].event.agg == g && rows[i].event.version == version
  }

  function ObjectRow(rows: seq<Row>, g: Aggregate, version: nat): (r: Row)
    requires SameObject(rows, g, version)
    ensures r in rows && r.identity.BusinessObject? && r.event.agg == g && r.event.version == version
  {
    var last := rows[|rows| - 1];
    if last.identity.BusinessObject? && last.event.agg == g && last.event.version == version then last
    else
      assert SameObject(rows[..|rows| - 1], g, version) by {
        var i :| 0 <= i < |rows| && rows[i].identity.BusinessObject? && rows[i].event.agg == g && rows[i].event.version == version;
        assert rows[..|rows| - 1][i] == rows[i];
      }
      ObjectRow(rows[..|rows| - 1], g, version)
  }

  /**
   * Equal identity and content is a no-op, equal identity with other content a conflict. `read` is the
   * maximum the transaction has read; the table may have moved on since.
   */
  function AppendOutcome(t: Table, d: Draft, read: nat): AppendResult {
    if SameLog(t.rows, d.identity) then
      var row := LogRow(t.rows, d.identity);
      if row.event.payload == d.payload then Noop(row.event.version) else Conflict
    else if d.identity.BusinessObject? && SameObject(t.rows, d.agg, read + 1) then
      if ObjectRow(t.rows, d.agg, read + 1).event.payload == d.payload then Noop(read + 1) else Conflict
    else if HasEvent(t.rows, IdFor(d.identity, d.agg, read + 1)) then Conflict
    else Inserted(t.nextId, read + 1)
  }

  function EventFor(d: Draft, version: nat): Event {
    Event(IdFor(d.identity, d.agg, version), d.agg, version, d.payload)
  }

  function Append(t: Table, d: Draft, read: nat, at: int): Table {
    var r := AppendOutcome(t, d, read);
    if !r.Inserted? then t
    else
      var e := EventFor(d, r.version);
      Table(t.rows + [Row(t.nextId, d.identity, e, Pending, 0, at, None, None, 0)], t.nextId + 1,
            t.marks + {(d.agg, r.version)}, t.history + [e], t.acked)
  }

  // ---- outbox.go ----

  predicate Claimable(r: Row, at: int) {
    r.state == Pending && r.nextAt <= at && (r.lease.None? || r.lease.value.expiresAt <= at)
  }

  /** The rows a claiming select returns: in id order, at most `limit`, without those another transaction has locked. */
  function Batch(rows: seq<Row>, limit: nat, locked: set<nat>, at: int): set<nat> {
    if rows == [] then {}
    else
      var before := Batch(rows[..|rows| - 1], limit, locked, at);
      var r := rows[|rows| - 1];
      if |before| < limit && r.id !in locked && Claimable(r, at) then before + {r.id} else before
  }

  function Claimed(r: Row, owner: string, expiresAt: int): Row {
    r.(lease := Some(Lease(owner, expiresAt)), attempts := r.attempts + 1)
  }

  /** A settling statement's guard: named, pending and held by this owner. */
  predicate Held(r: Row, owner: string) {
    r.state == Pending && r.lease.Some? && r.lease.value.owner == owner
  }

  datatype Statement =
    | Mark(expiresAt: int)
    | Ack(when: int)
    | Release(nextAt: int, errorClass: string)
    | ReleaseNow(nextAt: int)
    | Block(errorClass: string)

  predicate Applies(st: Statement, r: Row, owner: string, ids: set<nat>) {
    r.id in ids && if st.Mark? then r.state == Pending else Held(r, owner)
  }

  function Change(st: Statement, r: Row, owner: string): Row {
    match st
    case Mark(expiresAt) => Claimed(r, owner, expiresAt)
    case Ack(when) => r.(state := Published, publishedAt := when, lease := None)
    case Release(nextAt, errorClass) => r.(lease := None, nextAt := nextAt, errorClass := Some(errorClass))
    case ReleaseNow(nextAt) => r.(lease := None, nextAt := nextAt)
    case Block(errorClass) => r.(state := Blocked, errorClass := Some(errorClass), lease := None)
  }

  /** UPDATE ... WHERE id = ANY(ids) AND guard */
  function Update(rows: seq<Row>, st: Statement, owner: string, ids: set<nat>): (r: seq<Row>)
    ensures |r| == |rows|
  {
    seq(|rows|, i requires 0 <= i < |rows| => if Applies(st, rows[i], owner, ids) then Change(st, rows[i], owner) else rows[i])
  }

  function Unblocked(rows: seq<Row>, id: nat, at: int): (r: seq<Row>)
    ensures |r| == |rows|
  {
    seq(|rows|, i requires 0 <= i < |rows| =>
      if rows[i].id == id && rows[i].state == Blocked
      then rows[i].(state := Pending, errorClass := None, nextAt := at) else rows[i])
  }

  predicate Prunable(r: Row, before: int) {
    r.state == Published && r.publishedAt < before
  }

  function Pruned(rows: seq<Row>, before: int): seq<Row> {
    if rows == [] then []
    else
      var r := rows[|rows| - 1];
      Pruned(rows[..|rows| - 1], before) + if Prunable(r, before) then [] else [r]
  }

  // ---- the table over time ----

  datatype Op =
    | Produce(draft: Draft, read: nat, at: int)
    | ClaimBatch(owner: string, limit: nat, ttl: nat, locked: set<nat>, at: int)
    | Acknowledge(id: nat)
    | Settle(owner: string, ids: set<nat>, statement: Statement)
    | Unblock(id: nat, at: int)
    | Prune(before: int)

  function Do(t: Table, op: Op): Table {
    match op
    case Produce(d, read, at) => Append(t, d, read, at)
    case ClaimBatch(owner, limit, ttl, locked, at) =>
      t.(rows := Update(t.rows, Mark(at + ttl), owner, Batch(t.rows, limit, locked, at)))
    case Acknowledge(id) => t.(acked := t.acked + {id})
    case Settle(owner, ids, st) => if st.Mark? then t else t.(rows := Update(t.rows, st, owner, ids))
    case Unblock(id, at) => t.(rows := Unblocked(t.rows, id, at))
    case Prune(before) => t.(rows := Pruned(t.rows, before))
  }

  function Run(t: Table, ops: seq<Op>): Table {
    if ops == [] then t else Do(Run(t, ops[..|ops| - 1]), ops[|ops| - 1])
  }

  /** Only what the broker has acknowledged is marked as acknowledged: the statement itself does not look. */
  predicate Truthful(t: Table, op: Op) {
    op.Settle? && op.statement.Ack? ==> op.ids <= t.acked
  }

  predicate AllTruthful(t: Table, ops: seq<Op>) {
    ops != [] ==> AllTruthful(t, ops[..|ops| - 1]) && Truthful(Run(t, ops[..|ops| - 1]), ops[|ops| - 1])
  }
}
