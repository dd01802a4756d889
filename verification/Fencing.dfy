/** What the claim row and the step rows keep: lease versions are 1, 2, 3, ... and steps carry them in order. */
module Fencing {
  import opened ExecutionRows
  import opened Edits

  /** The claim row agrees with the history of acquisitions and with its own end mark. */
  ghost predicate ClaimSound(r: Rows) {
    (r.claim.None? <==> r.acquired == [])
    && (r.claim.Some? ==>
          && r.claim.value.lease == |r.acquired|
          && r.claim.value.owner == r.acquired[|r.acquired| - 1]
          && (r.claim.value.status == Active <==> r.claim.value.endedAt.None?))
  }

  /** Every step belongs to the owner of its lease generation, and generations never go back. */
  ghost predicate StepsFenced(r: Rows) {
    (forall i :: 0 <= i < |r.steps| ==>
       1 <= r.steps[i].lease <= |r.acquired| && r.steps[i].owner == r.acquired[r.steps[i].lease - 1])
    && (forall i, j :: 0 <= i < j < |r.steps| ==> r.steps[i].lease <= r.steps[j].lease)
  }

  lemma EditKeepsClaim(r: Rows, e: Edit)
    requires ClaimSound(r) && Legal(r, e)
    ensures ClaimSound(Make(r, e)) && r.acquired <= Make(r, e).acquired
  {}

  lemma EditKeepsFence(r: Rows, e: Edit)
    requires ClaimSound(r) && StepsFenced(r) && Legal(r, e)
    ensures ClaimSound(Make(r, e)) && StepsFenced(Make(r, e))
  {
    EditKeepsClaim(r, e);
    var t := Make(r, e);
    forall i | 0 <= i < |t.steps|
      ensures 1 <= t.steps[i].lease <= |t.acquired| && t.steps[i].owner == t.acquired[t.steps[i].lease - 1] {
      if i < |r.steps| {
        assert t.steps[i].lease == r.steps[i].lease && t.steps[i].owner == r.steps[i].owner;
      }
    }
  }
}
