/**
 * The whole way of a transition: an intent moves, its event is appended in the same transaction,
 * publishers send it to the broker any number of times in any order, and the consumer applies it.
 */
module Pipeline {
  import opened Vocabulary
  import opened EventHistory
  import opened NaturalKeys
  import opened Texts
  import Execution = ExecutionSystem
  import ExecutionSoundness
  import Outbox
  import AppendVersions
  import Consumer = ConsumerSystem
  import ConsumerTables

  /** `outboxOps` and `consumerOps` are history variables: the run so far, as each component saw it. */
  datatype Pipe = Pipe(intents: map<string, Execution.System>, outbox: Outbox.Table, consumer: Consumer.System,
                       outboxOps: seq<Outbox.Op>, consumerOps: seq<Consumer.Op>)

  const Start := Pipe(map[], Outbox.Empty, Consumer.Start, [], [])

  datatype Op =
    | Admit(intent: string)
    | Execute(intent: string, op: Execution.Op, at: int)
    | Store(outboxOp: Outbox.Op)
    | Send(row: nat, part: ConsumerTables.Partition, acked: bool)
    | Foreign(part: ConsumerTables.Partition, body: ConsumerTables.Body)
    | Consume(consumerOp: Consumer.Op)

  function OnOutbox(s: Pipe, op: Outbox.Op): Pipe {
    s.(outbox := Outbox.Do(s.outbox, op), outboxOps := s.outboxOps + [op])
  }

  function OnConsumer(s: Pipe, op: Consumer.Op): Pipe {
    s.(consumer := Consumer.Do(s.consumer, op), consumerOps := s.consumerOps + [op])
  }

  /** The append of one event by a transaction that holds the lock of its intent's row, so that the maximum it reads is current. */
  function EmitOp(s: Pipe, g: Aggregate, p: Payload, at: int): Outbox.Op {
    Outbox.Produce(Outbox.Draft(BusinessObject, g, p), Outbox.MaxVersion(s.outbox.rows, g), at)
  }

  /** Appends the events of one transaction. */
  function Emit(s: Pipe, g: Aggregate, ps: seq<Payload>, at: int): Pipe
    decreases |ps|
  {
    if ps == [] then s else Emit(OnOutbox(s, EmitOp(s, g, ps[0], at)), g, ps[1..], at)
  }

  /** The beginning of every intent event's natural key. */
  const INTENT_KEY := "business_object|" + INTENT + "|"

  /** The event speaks for an intent: by its aggregate or by its identity. */
  predicate SpeaksForIntent(e: Event) {
    e.agg.kind == INTENT || HasPrefix(e.id.name, INTENT_KEY)
  }

  /** An event that speaks for an intent was once appended for it. */
  predicate Authentic(body: ConsumerTables.Body, history: seq<Event>) {
    body.Valid? && SpeaksForIntent(body.event) ==> body.event in history
  }

  /** The message a consumer step handles. */
  function MessageOf(op: Consumer.Op): Option<ConsumerTables.Message> {
    match op
    case Begin(_, m) => Some(m)
    case Duplicate(_, m, _) => Some(m)
    case SkipOld(_, m, _) => Some(m)
    case SetAside(_, m, _, _, _) => Some(m)
    case _ => None
  }

  /** A consumer step is given values of the log, of its quarantine, or of outbox rows. */
  predicate Given(s: Pipe, op: Consumer.Op) {
    !op.Produce?
    && var m := MessageOf(op); m.Some? && m.value.source.None? ==> Authentic(m.value.body, s.outbox.history)
  }

  /**
   * Other producers append for other aggregates; everything else on the table is a publisher's, an operator's or a
   * prune. Only a send is acknowledged.
   */
  predicate Allowed(op: Outbox.Op) {
    !op.Acknowledge? && (op.Produce? ==> op.draft.agg.kind != INTENT && PipeFree(op.draft.agg.kind))
  }

  /** What a step of an intent adds to its stream; streams only grow. */
  function Added(before: Execution.System, after: Execution.System): seq<Payload> {
    if |before.rows.stream| <= |after.rows.stream| then after.rows.stream[|before.rows.stream|..] else []
  }

  /** The intent moves to `after` and its new events are appended in the same transaction. */
  function MoveIntent(s: Pipe, i: string, after: Execution.System, added: seq<Payload>, at: int): Pipe {
    Emit(s.(intents := s.intents[i := after]), IntentAggregate(i), added, at)
  }

  function Do(s: Pipe, op: Op): Pipe {
    match op
    case Admit(i) => if i in s.intents then s else s.(intents := s.intents[i := Execution.Start()])
    case Execute(i, eop, at) =>
      if i !in s.intents then s
      else
        var after := Execution.Do(s.intents[i], eop);
        MoveIntent(s, i, after, Added(s.intents[i], after), at)
    case Store(oop) => if Allowed(oop) then OnOutbox(s, oop) else s
    case Send(row, part, acked) =>
      if row >= |s.outbox.history| then s
      else
        var sent := OnConsumer(s, Consumer.Produce(part, ConsumerTables.Valid(s.outbox.history[row])));
        if acked then OnOutbox(sent, Outbox.Acknowledge(row)) else sent
    case Foreign(part, body) =>
      if body.Valid? && SpeaksForIntent(body.event) then s else OnConsumer(s, Consumer.Produce(part, body))
    case Consume(cop) => if Given(s, cop) then OnConsumer(s, cop) else s
  }

  function Run(s: Pipe, ops: seq<Op>): Pipe {
    if ops == [] then s else Do(Run(s, ops[..|ops| - 1]), ops[|ops| - 1])
  }

  function Payloads(es: seq<Event>): (ps: seq<Payload>)
    ensures |ps| == |es|
  {
    seq(|es|, i requires 0 <= i < |es| => es[i].payload)
  }

  /** What the events of one aggregate say. */
  function Told(history: seq<Event>, g: Aggregate): seq<Payload> {
    Payloads(Of(history, g))
  }

  // ---- the invariant ----

  /** An event carries the identity of a natural key for its aggregate and version; an intent's event that of its version. */
  ghost predicate EventSigned(e: Event) {
    PipeFree(e.agg.kind)
    && (exists identity :: e.id == IdFor(identity, e.agg, e.version))
    && (e.agg.kind == INTENT ==> e.id == IdFor(BusinessObject, e.agg, e.version))
  }

  ghost predicate Signed(history: seq<Event>) {
    forall k :: 0 <= k < |history| ==> EventSigned(history[k])
  }

  /** Both components are at the end of their own runs. */
  ghost predicate OnTrack(s: Pipe) {
    OutboxAt(s.outbox, s.outboxOps) && ConsumerAt(s.consumer, s.consumerOps)
  }

  ghost predicate OutboxAt(t: Outbox.Table, ops: seq<Outbox.Op>) {
    t == Outbox.Run(Outbox.Empty, ops)
  }

  ghost predicate ConsumerAt(c: Consumer.System, ops: seq<Consumer.Op>) {
    c == Consumer.Run(Consumer.Start, ops)
  }

  /** The outbox holds, for every intent, exactly the events it has emitted. */
  ghost predicate StreamOf(s: Pipe, i: string) {
    Told(s.outbox.history, IntentAggregate(i)) == if i in s.intents then s.intents[i].rows.stream else []
  }

  ghost predicate Streams(s: Pipe) {
    (forall i :: StreamOf(s, i))
    && (forall i :: i in s.intents ==> ExecutionSoundness.Sound(s.intents[i]))
    && AppendVersions.Keyed(s.outbox.rows) && Signed(s.outbox.history)
  }

  /** Whatever the consumer holds for an intent is authentic. */
  ghost predicate AllAuthentic(c: Consumer.System, history: seq<Event>) {
    (forall p, o :: 0 <= o < |Consumer.LogOf(c.log, p)| ==> Authentic(Consumer.LogOf(c.log, p)[o], history))
    && (forall i :: 0 <= i < |c.db.quarantine| ==> Authentic(c.db.quarantine[i].message.body, history))
    && (forall k :: k in c.txs ==> Authentic(c.txs[k].message.body, history))
    && (forall i :: 0 <= i < |c.db.effects| ==> Authentic(ConsumerTables.Valid(c.db.effects[i]), history))
  }

  ghost predicate Sound(s: Pipe) {
    OnTrack(s) && Streams(s) && AllAuthentic(s.consumer, s.outbox.history)
  }

  lemma AuthenticStays(c: Consumer.System, h: seq<Event>, k: seq<Event>)
    requires AllAuthentic(c, h) && h <= k
    ensures AllAuthentic(c, k)
  {
    forall b | Authentic(b, h) ensures Authentic(b, k) {}
  }

  lemma OnOutboxTracks(s: Pipe, op: Outbox.Op)
    ensures var t := OnOutbox(s, op);
            (OutboxAt(s.outbox, s.outboxOps) ==> OutboxAt(t.outbox, t.outboxOps)) && s.outbox.history <= t.outbox.history
  {
    var ops := s.outboxOps + [op];
    assert ops[..|ops| - 1] == s.outboxOps;
  }

  lemma OnConsumerTracks(s: Pipe, op: Consumer.Op)
    ensures var t := OnConsumer(s, op); ConsumerAt(s.consumer, s.consumerOps) ==> ConsumerAt(t.consumer, t.consumerOps)
  {
    var ops := s.consumerOps + [op];
    assert ops[..|ops| - 1] == s.consumerOps;
  }

  // ---- the consumer only holds authentic values ----

  lemma ProduceAuthentic(c: Consumer.System, p: ConsumerTables.Partition, body: ConsumerTables.Body, h: seq<Event>)
    requires AllAuthentic(c, h) && Authentic(body, h)
    ensures AllAuthentic(Consumer.Do(c, Consumer.Produce(p, body)), h)
  {
    var t := Consumer.Do(c, Consumer.Produce(p, body));
    forall q, o | 0 <= o < |Consumer.LogOf(t.log, q)| ensures Authentic(Consumer.LogOf(t.log, q)[o], h) {
      if q != p || o < |Consumer.LogOf(c.log, q)| {
        assert Consumer.LogOf(t.log, q)[o] == Consumer.LogOf(c.log, q)[o];
      }
    }
  }

  lemma DeliverableAuthentic(c: Consumer.System, w: nat, m: ConsumerTables.Message, h: seq<Event>)
    requires AllAuthentic(c, h) && Consumer.Deliverable(c, w, m) && (m.source.None? ==> Authentic(m.body, h))
    ensures Authentic(m.body, h)
  {}

  lemma SettleAuthentic(c: Consumer.System, db: ConsumerTables.Db, w: nat, m: ConsumerTables.Message, result: CommitResult, h: seq<Event>)
    requires AllAuthentic(c, h) && AllAuthentic(c.(db := db), h)
    ensures AllAuthentic(Consumer.Settle(c, db, w, m, result), h)
  {}

  lemma SetAsideAuthentic(c: Consumer.System, m: ConsumerTables.Message, reason: ConsumerTables.Reason, attempts: nat, h: seq<Event>)
    requires AllAuthentic(c, h) && Authentic(m.body, h)
    ensures AllAuthentic(c.(db := ConsumerTables.Quarantine(c.db, m, reason, attempts)), h)
  {
    var db := ConsumerTables.Quarantine(c.db, m, reason, attempts);
    forall i | 0 <= i < |db.quarantine| ensures Authentic(db.quarantine[i].message.body, h) {
      if i < |c.db.quarantine| { assert db.quarantine[i] == c.db.quarantine[i]; }
    }
  }

  lemma CommitAuthentic(c: Consumer.System, w: nat, result: CommitResult, h: seq<Event>)
    requires AllAuthentic(c, h)
    ensures AllAuthentic(Consumer.DoCommit(c, w, result), h)
  {
    if Consumer.CanCommit(c, w) {
      var m := c.txs[w].message;
      var ended := c.(txs := c.txs - {w});
      assert AllAuthentic(ended, h);
      var db := ConsumerTables.Applied(c.db, m);
      assert db.effects == c.db.effects + [m.body.event] && db.quarantine == c.db.quarantine;
      assert ConsumerTables.Valid(m.body.event) == m.body;
      assert AllAuthentic(ended.(db := db), h);
      SettleAuthentic(ended, db, w, m, result, h);
    }
  }

  lemma ConsumeAuthentic(c: Consumer.System, op: Consumer.Op, h: seq<Event>)
    requires AllAuthentic(c, h) && !op.Produce?
    requires MessageOf(op).Some? && MessageOf(op).value.source.None? ==> Authentic(MessageOf(op).value.body, h)
    ensures AllAuthentic(Consumer.Do(c, op), h)
  {
    match op
    case Begin(w, m) => if Consumer.CanBegin(c, w, m) { DeliverableAuthentic(c, w, m, h); }
    case Commit(w, result) => CommitAuthentic(c, w, result, h);
    case Duplicate(w, m, result) => SettleAuthentic(c, ConsumerTables.Advance(c.db, m.source), w, m, result, h);
    case SkipOld(w, m, result) => SettleAuthentic(c, ConsumerTables.Advance(c.db, m.source), w, m, result, h);
    case SetAside(w, m, reason, attempts, result) =>
      if Consumer.Deliverable(c, w, m) {
        DeliverableAuthentic(c, w, m, h);
        SetAsideAuthentic(c, m, reason, attempts, h);
        SettleAuthentic(c, ConsumerTables.Quarantine(c.db, m, reason, attempts), w, m, result, h);
      }
    case CloseRow(row, status) =>
      var db := ConsumerTables.CloseRow(c.db, row, status);
      assert forall i :: 0 <= i < |db.quarantine| ==> db.quarantine[i].message == c.db.quarantine[i].message;
    case _ =>
  }

  // ---- the outbox follows the intents ----

  lemma IntentKindPipeFree()
    ensures PipeFree(INTENT)
  {}

  lemma AppendSigned(t: Outbox.Table, d: Outbox.Draft, read: nat, at: int)
    requires Signed(t.history) && PipeFree(d.agg.kind) && (d.agg.kind == INTENT ==> d.identity == BusinessObject)
    ensures Signed(Outbox.Append(t, d, read, at).history)
  {
    if Outbox.AppendOutcome(t, d, read).Inserted? {
      var h := Outbox.Append(t, d, read, at).history;
      var e := Outbox.EventFor(d, Outbox.AppendOutcome(t, d, read).version);
      assert e.id == IdFor(d.identity, e.agg, e.version);
      assert h == t.history + [e] && EventSigned(e);
      forall k | 0 <= k < |h| ensures EventSigned(h[k]) {
        if k < |t.history| { assert EventSigned(t.history[k]); }
      }
    }
  }

  lemma ToldAppend(history: seq<Event>, e: Event, g: Aggregate)
    ensures Told(history + [e], g) == Told(history, g) + if g == e.agg then [e.payload] else []
  {
    OfAppend(history, e, g);
  }

  /** The later history tells of one aggregate more by `ps`, and of the others the same. */
  ghost predicate TellsMore(a: seq<Event>, b: seq<Event>, g: Aggregate, ps: seq<Payload>) {
    a <= b
    && Told(b, g) == Told(a, g) + ps
    && forall h :: h != g ==> Told(b, h) == Told(a, h)
  }

  /** What an emission does: it extends one aggregate's events by the payloads and nothing else. */
  ghost predicate Emitted(s: Pipe, t: Pipe, g: Aggregate, ps: seq<Payload>) {
    t.intents == s.intents && t.consumer == s.consumer && t.consumerOps == s.consumerOps
    && (OutboxAt(s.outbox, s.outboxOps) ==> OutboxAt(t.outbox, t.outboxOps))
    && AppendVersions.Keyed(t.outbox.rows)
    && (Signed(s.outbox.history) ==> Signed(t.outbox.history))
    && TellsMore(s.outbox.history, t.outbox.history, g, ps)
  }

  lemma OneMore(a: seq<Event>, e: Event)
    ensures TellsMore(a, a + [e], e.agg, [e.payload])
  {
    ToldAppend(a, e, e.agg);
    forall h | h != e.agg ensures Told(a + [e], h) == Told(a, h) { ToldAppend(a, e, h); }
  }

  lemma EmitOne(s: Pipe, g: Aggregate, p: Payload, at: int)
    requires AppendVersions.Keyed(s.outbox.rows) && PipeFree(g.kind)
    ensures Emitted(s, OnOutbox(s, EmitOp(s, g, p, at)), g, [p])
  {
    var d, read := Outbox.Draft(BusinessObject, g, p), Outbox.MaxVersion(s.outbox.rows, g);
    OnOutboxTracks(s, EmitOp(s, g, p, at));
    AppendVersions.BusinessInserts(s.outbox, d);
    AppendVersions.AppendKeyed(s.outbox, d, read, at);
    if Signed(s.outbox.history) { AppendSigned(s.outbox, d, read, at); }
    OneMore(s.outbox.history, Outbox.EventFor(d, read + 1));
  }

  lemma TellsThen(a: seq<Event>, b: seq<Event>, c: seq<Event>, g: Aggregate, ps: seq<Payload>, qs: seq<Payload>)
    requires TellsMore(a, b, g, ps) && TellsMore(b, c, g, qs)
    ensures TellsMore(a, c, g, ps + qs)
  {
    assert (Told(a, g) + ps) + qs == Told(a, g) + (ps + qs);
  }

  lemma EmittedThen(s: Pipe, mid: Pipe, t: Pipe, g: Aggregate, ps: seq<Payload>, qs: seq<Payload>)
    requires Emitted(s, mid, g, ps) && Emitted(mid, t, g, qs)
    ensures Emitted(s, t, g, ps + qs)
  {
    TellsThen(s.outbox.history, mid.outbox.history, t.outbox.history, g, ps, qs);
  }

  lemma {:induction false} EmitAppends(s: Pipe, g: Aggregate, ps: seq<Payload>, at: int)
    requires AppendVersions.Keyed(s.outbox.rows) && PipeFree(g.kind)
    ensures Emitted(s, Emit(s, g, ps, at), g, ps)
    decreases |ps|
  {
    if ps == [] {
      NothingEmitted(s, g);
    } else {
      EmitOne(s, g, ps[0], at);
      var mid := OnOutbox(s, EmitOp(s, g, ps[0], at));
      EmitAppends(mid, g, ps[1..], at);
      EmittedThen(s, mid, Emit(mid, g, ps[1..], at), g, [ps[0]], ps[1..]);
      assert ps == [ps[0]] + ps[1..];
    }
  }

  lemma NothingEmitted(s: Pipe, g: Aggregate)
    requires AppendVersions.Keyed(s.outbox.rows)
    ensures Emitted(s, s, g, [])
  {}

  /** An intent that moves and an outbox that is told so stay together. */
  lemma MovedStreams(s: Pipe, i: string, after: Execution.System, added: seq<Payload>, t: Pipe)
    requires Streams(s) && i in s.intents && ExecutionSoundness.Sound(after)
    requires after.rows.stream == s.intents[i].rows.stream + added
    requires Emitted(s.(intents := s.intents[i := after]), t, IntentAggregate(i), added)
    ensures Streams(t)
  {
    forall j ensures StreamOf(t, j) {
      assert StreamOf(s, j);
      MovedStream(s, i, after, added, t, j);
    }
  }

  lemma MovedStream(s: Pipe, i: string, after: Execution.System, added: seq<Payload>, t: Pipe, j: string)
    requires StreamOf(s, j) && i in s.intents && after.rows.stream == s.intents[i].rows.stream + added
    requires t.intents == s.intents[i := after] && TellsMore(s.outbox.history, t.outbox.history, IntentAggregate(i), added)
    ensures StreamOf(t, j)
  {
    if j != i { assert IntentAggregate(j) != IntentAggregate(i); }
  }

  lemma EmissionKeeps(s: Pipe, i: string, after: Execution.System, added: seq<Payload>, t: Pipe)
    requires Sound(s) && i in s.intents && ExecutionSoundness.Sound(after) && after.rows.stream == s.intents[i].rows.stream + added
    requires Emitted(s.(intents := s.intents[i := after]), t, IntentAggregate(i), added)
    ensures Sound(t)
  {
    MovedStreams(s, i, after, added, t);
    AuthenticStays(s.consumer, s.outbox.history, t.outbox.history);
  }

  lemma MoveIntentEmits(s: Pipe, i: string, after: Execution.System, added: seq<Payload>, at: int)
    requires Sound(s)
    ensures Emitted(s.(intents := s.intents[i := after]), MoveIntent(s, i, after, added, at), IntentAggregate(i), added)
  {
    IntentKindPipeFree();
    EmitAppends(s.(intents := s.intents[i := after]), IntentAggregate(i), added, at);
  }

  lemma MoveIntentKeeps(s: Pipe, i: string, after: Execution.System, added: seq<Payload>, at: int)
    requires Sound(s) && i in s.intents && ExecutionSoundness.Sound(after) && after.rows.stream == s.intents[i].rows.stream + added
    ensures Sound(MoveIntent(s, i, after, added, at))
  {
    MoveIntentEmits(s, i, after, added, at);
    EmissionKeeps(s, i, after, added, MoveIntent(s, i, after, added, at));
  }

  lemma StreamGrows(before: Execution.System, op: Execution.Op)
    requires ExecutionSoundness.Sound(before)
    ensures var after := Execution.Do(before, op);
            ExecutionSoundness.Sound(after) && after.rows.stream == before.rows.stream + Added(before, after)
  {
    ExecutionSoundness.DoKeeps(before, op);
  }

  lemma ExecuteKeeps(s: Pipe, i: string, op: Execution.Op, at: int)
    requires Sound(s)
    ensures Sound(Do(s, Execute(i, op, at)))
  {
    if i in s.intents {
      var after := Execution.Do(s.intents[i], op);
      StreamGrows(s.intents[i], op);
      MoveIntentKeeps(s, i, after, Added(s.intents[i], after), at);
    }
  }

  lemma StoreKeepsStreams(s: Pipe, op: Outbox.Op)
    requires Streams(s) && Allowed(op)
    ensures Streams(OnOutbox(s, op))
  {
    var t := OnOutbox(s, op);
    AppendVersions.StepKeyed(s.outbox, op);
    if op.Produce? { AppendSigned(s.outbox, op.draft, op.read, op.at); }
    forall i ensures StreamOf(t, i) {
      assert StreamOf(s, i);
      if op.Produce? && Outbox.AppendOutcome(s.outbox, op.draft, op.read).Inserted? {
        var e := Outbox.EventFor(op.draft, op.read + 1);
        ToldAppend(s.outbox.history, e, IntentAggregate(i));
      }
    }
  }

  lemma StoreKeeps(s: Pipe, op: Outbox.Op)
    requires Sound(s) && Allowed(op)
    ensures Sound(OnOutbox(s, op))
  {
    OnOutboxTracks(s, op);
    StoreKeepsStreams(s, op);
    AuthenticStays(s.consumer, s.outbox.history, OnOutbox(s, op).outbox.history);
  }

  lemma AcknowledgeKeeps(s: Pipe, row: nat)
    requires Sound(s)
    ensures Sound(OnOutbox(s, Outbox.Acknowledge(row)))
  {
    var t := OnOutbox(s, Outbox.Acknowledge(row));
    OnOutboxTracks(s, Outbox.Acknowledge(row));
    forall i ensures StreamOf(t, i) { assert StreamOf(s, i); }
  }

  lemma ArriveKeeps(s: Pipe, p: ConsumerTables.Partition, body: ConsumerTables.Body)
    requires Sound(s) && Authentic(body, s.outbox.history)
    ensures Sound(OnConsumer(s, Consumer.Produce(p, body)))
  {
    var t := OnConsumer(s, Consumer.Produce(p, body));
    OnConsumerTracks(s, Consumer.Produce(p, body));
    ProduceAuthentic(s.consumer, p, body, s.outbox.history);
    forall i ensures StreamOf(t, i) { assert StreamOf(s, i); }
  }

  lemma ConsumeKeeps(s: Pipe, op: Consumer.Op)
    requires Sound(s) && Given(s, op)
    ensures Sound(OnConsumer(s, op))
  {
    var t := OnConsumer(s, op);
    OnConsumerTracks(s, op);
    ConsumeAuthentic(s.consumer, op, s.outbox.history);
    forall i ensures StreamOf(t, i) { assert StreamOf(s, i); }
  }

  lemma AdmitKeeps(s: Pipe, i: string)
    requires Sound(s)
    ensures Sound(Do(s, Admit(i)))
  {
    if i !in s.intents {
      var t := Do(s, Admit(i));
      ExecutionSoundness.StartSound();
      var entrant := Execution.Start();
      assert entrant.rows.stream == [];
      AddIntent(s, i, entrant);
    }
  }

  lemma AddIntent(s: Pipe, i: string, entrant: Execution.System)
    requires Streams(s) && i !in s.intents && ExecutionSoundness.Sound(entrant) && entrant.rows.stream == []
    ensures Streams(s.(intents := s.intents[i := entrant]))
  {
    var t := s.(intents := s.intents[i := entrant]);
    forall j ensures StreamOf(t, j) { assert StreamOf(s, j); }
  }

  lemma DoKeeps(s: Pipe, op: Op)
    requires Sound(s)
    ensures Sound(Do(s, op))
  {
    match op
    case Admit(i) => AdmitKeeps(s, i);
    case Execute(i, eop, at) => ExecuteKeeps(s, i, eop, at);
    case Store(oop) => if Allowed(oop) { StoreKeeps(s, oop); }
    case Send(row, part, acked) =>
      if row < |s.outbox.history| {
        var body := ConsumerTables.Valid(s.outbox.history[row]);
        ArriveKeeps(s, part, body);
        AcknowledgeKeeps(OnConsumer(s, Consumer.Produce(part, body)), row);
      }
    case Foreign(part, body) =>
      if !(body.Valid? && SpeaksForIntent(body.event)) { ArriveKeeps(s, part, body); }
    case Consume(cop) => if Given(s, cop) { ConsumeKeeps(s, cop); }
  }

  lemma StartSound()
    ensures Sound(Start)
  {
    forall i ensures StreamOf(Start, i) {}
  }

  lemma {:induction false} Reachable(ops: seq<Op>)
    ensures Sound(Run(Start, ops))
  {
    if ops == [] {
      StartSound();
    } else {
      Reachable(ops[..|ops| - 1]);
      DoKeeps(Run(Start, ops[..|ops| - 1]), ops[|ops| - 1]);
    }
  }
}
