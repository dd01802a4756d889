/** Names shared by the event pipeline and the execution worker. */
module Vocabulary {
  datatype Option<+T> = None | Some(value: T)

  /** The seven states of a payment intent. */
  datatype IntentState = Admitted | Claimed | Executing | Completed | Failed | Reconciling | Revised

  /** A business object that owns an event stream. */
  datatype Aggregate = Aggregate(kind: string, id: string)

  /** A name-based identifier: equal names give equal identifiers and distinct names distinct ones. */
  datatype EventId = EventId(name: string)

  datatype Payload =
    | StateChanged(from: IntentState, to: IntentState, lease: nat)
    | RevisedResult(from: IntentState, to: IntentState, supersedes: nat)
    | Other(text: string)

  datatype Event = Event(id: EventId, agg: Aggregate, version: nat, payload: Payload)

  /** What a transaction's commit did, and what its caller was told. */
  datatype CommitResult = Reported | RolledBack | Ambiguous

  /** The kind of an intent's aggregate. */
  const INTENT := "withdrawal_intent"

  /** The aggregate an intent's events are emitted for. */
  function IntentAggregate(intent: string): (a: Aggregate)
    ensures a.id == intent
  {
    Aggregate(INTENT, intent)
  }
}
