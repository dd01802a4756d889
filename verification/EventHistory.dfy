/** Sequences of events, and the part of one that belongs to one aggregate. */
module EventHistory {
  import opened Vocabulary

  /** The events of one aggregate, in order. */
  function Of(es: seq<Event>, g: Aggregate): seq<Event> {
    if es == [] then []
    else Of(es[..|es| - 1], g) + if es[|es| - 1].agg == g then [es[|es| - 1]] else []
  }

  lemma OfAppend(es: seq<Event>, e: Event, g: Aggregate)
    ensures Of(es + [e], g) == Of(es, g) + if e.agg == g then [e] else []
  {
    assert (es + [e])[..|es + [e]| - 1] == es;
  }

  lemma {:induction false} InHistory(es: seq<Event>, i: nat)
    requires i < |es|
    ensures es[i] in Of(es, es[i].agg)
  {
    var init := es[..|es| - 1];
    if i < |init| {
      InHistory(init, i);
    }
  }

  ghost predicate Increasing(es: seq<Event>) {
    forall i, j :: 0 <= i < j < |es| ==> es[i].version < es[j].version
  }

  /** Versions without a hole, starting wherever the first one starts. */
  ghost predicate Consecutive(es: seq<Event>) {
    forall i :: 0 <= i < |es| ==> es[i].version == es[0].version + i
  }

  /** Versions 1, 2, 3, ... */
  ghost predicate CountsUp(es: seq<Event>) {
    forall i :: 0 <= i < |es| ==> es[i].version == i + 1
  }

  ghost predicate Distinct(es: seq<Event>) {
    forall i, j :: 0 <= i < j < |es| ==> es[i].id != es[j].id
  }
}
