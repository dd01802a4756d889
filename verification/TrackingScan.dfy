/** The keyset rotation of the tracking scan (withdrawalworker.go): every lasting candidate is visited once per rotation. */
module TrackingScan {
  /** A scan position: admission time, then the intent id, given by its rank in the column's collation. */
  datatype Key = Key(at: nat, id: nat)

  const LIMIT: nat := 32

  /** The cursor before the head of the set. */
  const Head := Key(0, 0)

  predicate Less(a: Key, b: Key) {
    a.at < b.at || (a.at == b.at && a.id < b.id)
  }

  // ---- one page ----

  ghost predicate Ascending(ks: seq<Key>) {
    forall i, j :: 0 <= i < j < |ks| ==> Less(ks[i], ks[j])
  }

  /** The position of the first candidate beyond the cursor; `index` lists the candidates of the moment in order. */
  function First(index: seq<Key>, cursor: Key, from: nat := 0): (r: nat)
    requires from <= |index|
    ensures from <= r <= |index|
    ensures forall j :: from <= j < r ==> !Less(cursor, index[j])
    ensures r < |index| ==> Less(cursor, index[r])
    decreases |index| - from
  {
    if from == |index| || Less(cursor, index[from]) then from else First(index, cursor, from + 1)
  }

  function PageEnd(index: seq<Key>, cursor: Key): (r: nat)
    ensures First(index, cursor) <= r <= |index|
  {
    var i := First(index, cursor);
    if i + LIMIT <= |index| then i + LIMIT else |index|
  }

  function Page(index: seq<Key>, cursor: Key): seq<Key> {
    index[First(index, cursor)..PageEnd(index, cursor)]
  }

  function NextCursor(page: seq<Key>): Key {
    if |page| < LIMIT then Head else page[|page| - 1]
  }

  class Tracker {
    var cursor: Key

    constructor ()
      ensures cursor == Head
    {
      cursor := Head;
    }

    /** Reads one page and moves the cursor: past a full page, back to the head after a short one. */
    method ScanTracking(index: seq<Key>) returns (page: seq<Key>)
      modifies this
      ensures page == Page(index, old(cursor)) && cursor == NextCursor(page)
    {
      var i := 0;
      while i < |index| && !Less(cursor, index[i])
        invariant i <= |index| && First(index, cursor) == First(index, cursor, i)
      {
        i := i + 1;
      }
      page := [];
      var start := i;
      while i < |index| && |page| < LIMIT
        invariant start <= i <= |index| && page == index[start..i] && |page| <= LIMIT
      {
        page := page + [index[i]];
        i := i + 1;
      }
      if |page| < LIMIT {
        cursor := Head;
      } else {
        cursor := page[|page| - 1];
      }
    }

    /**
     * One scan per cycle, from the head of the set until the cursor is there again or the cycles end. If it gets
     * there, every candidate that lasted was visited exactly once; whatever was visited was visited in order.
     */
    method Rotate(indexes: seq<seq<Key>>) returns (visited: seq<Key>, scans: nat)
      requires cursor == Head && AllAscending(indexes)
      modifies this
      ensures scans <= |indexes| && visited == Visited(Head, indexes[..scans]) && Ascending(visited)
      ensures scans < |indexes| ==> cursor == Head
      ensures Complete(Head, indexes[..scans]) <==> scans > 0 && cursor == Head
      ensures scans > 0 && cursor == Head ==> AllOnce(visited, indexes[..scans])
      ensures indexes != [] && FixedSet(indexes[0], indexes) ==> scans == |indexes| && cursor == Head && visited == indexes[0]
    {
      visited, scans := [], 0;
      ghost var done: seq<seq<Key>> := [];
      while scans < |indexes| && (scans == 0 || cursor != Head)
        invariant scans <= |indexes| && done == indexes[..scans]
        invariant Progressing(done, visited, cursor)
      {
        var from := cursor;
        var page := ScanTracking(indexes[scans]);
        NextScan(done, visited, from, indexes[scans]);
        done := done + [indexes[scans]];
        visited, scans := visited + page, scans + 1;
      }
      Rotated(done, visited, cursor);
      if indexes != [] && FixedSet(indexes[0], indexes) { FixedSetRotated(indexes, done); }
    }
  }

  /** A page is ascending and beyond the cursor; it misses nothing up to its last key, and nothing at all if it is short. */
  ghost predicate PageOf(p: seq<Key>, index: seq<Key>, cursor: Key) {
    |p| <= LIMIT && Ascending(p)
    && (forall i :: 0 <= i < |p| ==> p[i] in index && Less(cursor, p[i]))
    && (forall k :: k in index && Less(cursor, k) && (|p| < LIMIT || !Less(p[|p| - 1], k)) ==> k in p)
  }

  lemma PageExact(index: seq<Key>, cursor: Key)
    requires Ascending(index)
    ensures PageOf(Page(index, cursor), index, cursor)
  {
    var f, e, p := First(index, cursor), PageEnd(index, cursor), Page(index, cursor);
    forall i | 0 <= i < |p| ensures p[i] in index && Less(cursor, p[i]) {
      assert p[i] == index[f + i];
      assert i > 0 ==> Less(index[f], index[f + i]);
    }
    assert f < e ==> forall j :: e <= j < |index| ==> Less(index[e - 1], index[j]);
    forall k | k in index && Less(cursor, k) && (|p| < LIMIT || !Less(p[|p| - 1], k)) ensures k in p {
      var i :| 0 <= i < |index| && index[i] == k;
      assert f <= i < e;
      assert p[i - f] == k;
    }
  }

  // ---- one rotation ----

  /** What successive scans visit until the cursor they leave is back at the head; `indexes` are the candidates at each scan. */
  function Visited(cursor: Key, indexes: seq<seq<Key>>): seq<Key>
    decreases |indexes|
  {
    if indexes == [] then []
    else
      var p := Page(indexes[0], cursor);
      p + if NextCursor(p) == Head then [] else Visited(NextCursor(p), indexes[1..])
  }

  /** The last of the scans, and no earlier one, leaves the cursor at the head. */
  predicate Complete(cursor: Key, indexes: seq<seq<Key>>)
    decreases |indexes|
  {
    indexes != []
    && var p := Page(indexes[0], cursor);
       if NextCursor(p) == Head then |indexes| == 1 else Complete(NextCursor(p), indexes[1..])
  }

  /** After these scans, none of which has left the cursor at the head, `visited` is what they returned and `cursor` where they left it. */
  ghost predicate Underway(start: Key, indexes: seq<seq<Key>>, visited: seq<Key>, cursor: Key)
    decreases |indexes|
  {
    if indexes == [] then visited == [] && cursor == start
    else
      var p := Page(indexes[0], start);
      NextCursor(p) != Head && p <= visited && Underway(NextCursor(p), indexes[1..], visited[|p|..], cursor)
  }

  lemma {:induction false} UnderwayVisits(start: Key, indexes: seq<seq<Key>>, visited: seq<Key>, cursor: Key)
    requires Underway(start, indexes, visited, cursor)
    ensures Visited(start, indexes) == visited && !Complete(start, indexes)
    decreases |indexes|
  {
    if indexes != [] {
      var p := Page(indexes[0], start);
      UnderwayVisits(NextCursor(p), indexes[1..], visited[|p|..], cursor);
    }
  }

  /** The first scan and the rest of them. */
  lemma FirstScan(start: Key, first: seq<Key>, rest: seq<seq<Key>>, visited: seq<Key>, cursor: Key)
    ensures var p, all := Page(first, start), [first] + rest;
            var next := NextCursor(p);
            Visited(start, all) == p + (if next == Head then [] else Visited(next, rest))
            && (Complete(start, all) <==> if next == Head then rest == [] else Complete(next, rest))
            && (Underway(start, all, p + visited, cursor) <==> next != Head && Underway(next, rest, visited, cursor))
  {
    var p, all := Page(first, start), [first] + rest;
    assert all[0] == first && all[1..] == rest;
    assert (p + visited)[|p|..] == visited;
  }

  lemma Regroup<T>(first: seq<T>, all: seq<T>, more: seq<T>)
    requires first <= all
    ensures all + more == first + (all[|first|..] + more)
  {}

  /** One more scan goes on from where the cursor is, or ends the rotation there. */
  lemma {:induction false} ScanMore(start: Key, indexes: seq<seq<Key>>, visited: seq<Key>, cursor: Key, index: seq<Key>)
    requires Underway(start, indexes, visited, cursor)
    ensures var p, more := Page(index, cursor), indexes + [index];
            if NextCursor(p) == Head then Complete(start, more) && Visited(start, more) == visited + p
            else Underway(start, more, visited + p, NextCursor(p))
    decreases |indexes|
  {
    var p := Page(index, cursor);
    if indexes == [] {
      FirstScan(start, index, [], [], NextCursor(p));
      assert [] + [index] == [index] + [] && [] + p == p + [] == p;
    } else {
      var q, rest, left := Page(indexes[0], start), indexes[1..], visited[|Page(indexes[0], start)|..];
      ScanMore(NextCursor(q), rest, left, cursor, index);
      FirstScan(start, indexes[0], rest + [index], left + p, NextCursor(p));
      Regroup([indexes[0]], indexes, [index]);
      Regroup(q, visited, p);
    }
  }

  /** The scans `done` are underway, or have just ended a rotation. */
  ghost predicate Progressing(done: seq<seq<Key>>, visited: seq<Key>, cursor: Key) {
    if done != [] && cursor == Head then Complete(Head, done) && visited == Visited(Head, done)
    else Underway(Head, done, visited, cursor)
  }

  lemma NextScan(done: seq<seq<Key>>, visited: seq<Key>, cursor: Key, index: seq<Key>)
    requires Progressing(done, visited, cursor) && (done == [] || cursor != Head)
    ensures Progressing(done + [index], visited + Page(index, cursor), NextCursor(Page(index, cursor)))
  {
    ScanMore(Head, done, visited, cursor, index);
  }

  lemma Rotated(done: seq<seq<Key>>, visited: seq<Key>, cursor: Key)
    requires Progressing(done, visited, cursor) && AllAscending(done) && (done == [] ==> cursor == Head)
    ensures visited == Visited(Head, done) && Ascending(visited)
    ensures Complete(Head, done) <==> done != [] && cursor == Head
    ensures Complete(Head, done) ==> AllOnce(visited, done)
  {
    if done == [] || cursor != Head { UnderwayVisits(Head, done, visited, cursor); }
    VisitsAscend(Head, done);
    if Complete(Head, done) { LastingOnce(done); }
  }

  lemma FixedSetRotated(indexes: seq<seq<Key>>, done: seq<seq<Key>>)
    requires indexes != [] && FixedSet(indexes[0], indexes) && Ascending(indexes[0]) && done <= indexes
    requires done == indexes || Complete(Head, done)
    ensures done == indexes && Complete(Head, done) && Visited(Head, done) == indexes[0]
  {
    FixedSetEnds(indexes);
    if Complete(Head, done) { CompleteOnce(Head, done, indexes); }
  }

  lemma FixedSetEnds(indexes: seq<seq<Key>>)
    requires indexes != [] && FixedSet(indexes[0], indexes) && Ascending(indexes[0])
    ensures Complete(Head, indexes) && Visited(Head, indexes) == indexes[0]
  {
    FixedSetRotation(indexes[0]);
  }

  /** A rotation ends once. */
  lemma {:induction false} CompleteOnce(cursor: Key, first: seq<seq<Key>>, longer: seq<seq<Key>>)
    requires Complete(cursor, first) && Complete(cursor, longer) && first <= longer
    ensures first == longer
    decreases |first|
  {
    var p := Page(first[0], cursor);
    if NextCursor(p) != Head { CompleteOnce(NextCursor(p), first[1..], longer[1..]); }
  }

  /** The same n candidates at each of n / 32 + 1 scans. */
  ghost predicate FixedSet(index: seq<Key>, indexes: seq<seq<Key>>) {
    indexes == Same(index, |index| / 32 + 1) && forall i :: 0 <= i < |index| ==> index[i].at > 0
  }

  /** The cursor goes back to the head exactly after a short page; otherwise it is the last key of the page. */
  lemma CursorTells(index: seq<Key>, cursor: Key)
    requires Ascending(index)
    ensures var p := Page(index, cursor);
            (NextCursor(p) == Head <==> |p| < LIMIT) && (|p| >= LIMIT ==> |p| == LIMIT && NextCursor(p) == p[|p| - 1])
  {
    PageExact(index, cursor);
    var p := Page(index, cursor);
    if |p| >= LIMIT { assert Less(cursor, p[|p| - 1]); }
  }

  ghost predicate AllAscending(indexes: seq<seq<Key>>) {
    forall i :: 0 <= i < |indexes| ==> Ascending(indexes[i])
  }

  /** Nothing is visited twice: the whole rotation is one ascending walk. */
  lemma {:induction false} VisitsAscend(cursor: Key, indexes: seq<seq<Key>>)
    requires AllAscending(indexes)
    ensures Ascending(Visited(cursor, indexes))
    ensures forall i :: 0 <= i < |Visited(cursor, indexes)| ==> Less(cursor, Visited(cursor, indexes)[i])
    decreases |indexes|
  {
    if indexes != [] {
      var p := Page(indexes[0], cursor);
      PageExact(indexes[0], cursor);
      CursorTells(indexes[0], cursor);
      if |p| >= LIMIT {
        var tail := Visited(p[|p| - 1], indexes[1..]);
        VisitsAscend(p[|p| - 1], indexes[1..]);
        WalksJoin(cursor, p, tail);
        assert Visited(cursor, indexes) == p + tail;
      } else {
        assert Visited(cursor, indexes) == p + [] == p;
      }
    }
  }

  lemma WalksJoin(cursor: Key, p: seq<Key>, tail: seq<Key>)
    requires p != [] && Ascending(p) && Ascending(tail)
    requires forall i :: 0 <= i < |p| ==> Less(cursor, p[i])
    requires forall i :: 0 <= i < |tail| ==> Less(p[|p| - 1], tail[i])
    ensures Ascending(p + tail) && forall i :: 0 <= i < |p + tail| ==> Less(cursor, (p + tail)[i])
  {
    var w := p + tail;
    forall i, j | 0 <= i < j < |w| ensures Less(w[i], w[j]) {
      if i < |p| <= j {
        assert i < |p| - 1 ==> Less(p[i], p[|p| - 1]);
        assert Less(p[|p| - 1], tail[j - |p|]);
      }
    }
    forall i | |p| <= i < |w| ensures Less(cursor, w[i]) {
      assert Less(cursor, p[|p| - 1]) && Less(p[|p| - 1], tail[i - |p|]);
    }
  }

  /** Whoever is a candidate at every scan of the rotation is visited. */
  lemma {:induction false} LastingVisited(cursor: Key, indexes: seq<seq<Key>>, k: Key)
    requires AllAscending(indexes) && Complete(cursor, indexes) && Less(cursor, k)
    requires forall i :: 0 <= i < |indexes| ==> k in indexes[i]
    ensures k in Visited(cursor, indexes)
    decreases |indexes|
  {
    var p := Page(indexes[0], cursor);
    PageExact(indexes[0], cursor);
    CursorTells(indexes[0], cursor);
    if |p| >= LIMIT && Less(p[|p| - 1], k) {
      LastingVisited(p[|p| - 1], indexes[1..], k);
    }
  }

  /** `k` stands in `v` at exactly one place. */
  ghost predicate OnceIn(v: seq<Key>, k: Key) {
    exists i :: 0 <= i < |v| && v[i] == k && forall j :: 0 <= j < |v| && v[j] == k ==> j == i
  }

  lemma AscendingOnce(v: seq<Key>, k: Key)
    requires Ascending(v) && k in v
    ensures OnceIn(v, k)
  {
    var i :| 0 <= i < |v| && v[i] == k;
    assert forall j :: 0 <= j < |v| && v[j] == k ==> j == i;
  }

  /** Fairness: between two resets every lasting candidate is visited exactly once, whoever else comes and goes. */
  lemma VisitedExactlyOnce(indexes: seq<seq<Key>>, k: Key)
    requires AllAscending(indexes) && Complete(Head, indexes) && k.at > 0
    requires forall i :: 0 <= i < |indexes| ==> k in indexes[i]
    ensures OnceIn(Visited(Head, indexes), k)
  {
    VisitsAscend(Head, indexes);
    LastingVisited(Head, indexes, k);
    AscendingOnce(Visited(Head, indexes), k);
  }

  /** Every candidate that lasted through the scans of a rotation stands in what they visited exactly once. */
  ghost predicate AllOnce(visited: seq<Key>, indexes: seq<seq<Key>>) {
    forall k: Key :: k.at > 0 && (forall i :: 0 <= i < |indexes| ==> k in indexes[i]) ==> OnceIn(visited, k)
  }

  lemma LastingOnce(indexes: seq<seq<Key>>)
    requires AllAscending(indexes) && Complete(Head, indexes)
    ensures AllOnce(Visited(Head, indexes), indexes)
  {
    forall k: Key | k.at > 0 && (forall i :: 0 <= i < |indexes| ==> k in indexes[i]) ensures OnceIn(Visited(Head, indexes), k) {
      VisitedExactlyOnce(indexes, k);
    }
  }

  // ---- a fixed set ----

  /** After a full page the next one starts where it ended. */
  lemma FirstAfterPage(index: seq<Key>, cursor: Key)
    requires Ascending(index) && First(index, cursor) + LIMIT <= |index|
    ensures First(index, index[First(index, cursor) + LIMIT - 1]) == First(index, cursor) + LIMIT
  {
    var e := First(index, cursor) + LIMIT;
    var f := First(index, index[e - 1]);
    assert forall i :: 0 <= i < e ==> !Less(index[e - 1], index[i]);
    assert e < |index| ==> Less(index[e - 1], index[e]);
  }

  function Same(index: seq<Key>, n: nat): seq<seq<Key>> {
    seq(n, _ => index)
  }

  lemma SameScan(index: seq<Key>, n: nat)
    requires n > 0
    ensures Same(index, n)[0] == index && Same(index, n)[1..] == Same(index, n - 1)
  {}

  lemma {:induction false} FixedRotation(index: seq<Key>, cursor: Key, n: nat)
    requires Ascending(index) && n == (|index| - First(index, cursor)) / LIMIT + 1
    ensures Complete(cursor, Same(index, n)) && Visited(cursor, Same(index, n)) == index[First(index, cursor)..]
    decreases n
  {
    var f := First(index, cursor);
    SameScan(index, n);
    CursorTells(index, cursor);
    if f + LIMIT <= |index| {
      var last := index[f + LIMIT - 1];
      FirstAfterPage(index, cursor);
      FixedRotation(index, last, n - 1);
      var p := Page(index, cursor);
      assert |p| == LIMIT && p[|p| - 1] == last;
      assert Visited(cursor, Same(index, n)) == p + Visited(last, Same(index, n - 1));
      assert index[f..] == p + index[f + LIMIT..];
    } else {
      assert n == 1;
    }
  }

  /** A fixed set of n candidates is walked through, in order, by exactly n / 32 + 1 scans. */
  lemma FixedSetRotation(index: seq<Key>)
    requires Ascending(index) && forall i :: 0 <= i < |index| ==> index[i].at > 0
    ensures Complete(Head, Same(index, |index| / 32 + 1)) && Visited(Head, Same(index, |index| / 32 + 1)) == index
  {
    assert First(index, Head) == 0;
    FixedRotation(index, Head, |index| / 32 + 1);
  }
}
