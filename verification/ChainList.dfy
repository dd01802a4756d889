/** The canonical chain list of the recovery entry (config.go): what it accepts is exactly what printing produces. */
module ChainList {
  import opened Vocabulary
  import opened Texts
  import opened Decimal

  /** strings.Split(s, ",") */
  function Split(s: string): (parts: seq<string>)
    ensures parts != []
  {
    if s == "" then [""]
    else
      var rest := Split(s[1..]);
      if s[0] == ',' then [""] + rest else [[s[0]] + rest[0]] + rest[1..]
  }

  function Join(parts: seq<string>): string
    requires parts != []
  {
    if |parts| == 1 then parts[0] else parts[0] + "," + Join(parts[1..])
  }

  predicate CommaFree(s: string) {
    forall i :: 0 <= i < |s| ==> s[i] != ','
  }

  lemma {:induction false} JoinSplit(s: string)
    ensures Join(Split(s)) == s
  {
    if s != "" {
      var rest := Split(s[1..]);
      JoinSplit(s[1..]);
      if s[0] == ',' {
        assert Split(s)[1..] == rest;
        assert "" + "," + s[1..] == s;
      } else {
        assert Split(s)[1..] == rest[1..];
        assert [s[0]] + s[1..] == s;
        if |rest| > 1 {
          assert Join(Split(s)) == [s[0]] + rest[0] + "," + Join(rest[1..]);
        }
      }
    }
  }

  lemma {:induction false} SplitWord(w: string)
    requires CommaFree(w)
    ensures Split(w) == [w]
  {
    if w != "" {
      SplitWord(w[1..]);
      assert [w[0]] + w[1..] == w;
    }
  }

  lemma {:induction false} SplitHead(w: string, s: string)
    requires CommaFree(w)
    ensures Split(w + "," + s) == [w] + Split(s)
  {
    if w == "" {
      assert (w + "," + s)[1..] == s;
    } else {
      SplitHead(w[1..], s);
      assert (w + "," + s)[1..] == w[1..] + "," + s;
      assert [w[0]] + w[1..] == w;
    }
  }

  lemma {:induction false} SplitJoin(parts: seq<string>)
    requires parts != [] && forall i :: 0 <= i < |parts| ==> CommaFree(parts[i])
    ensures Split(Join(parts)) == parts
  {
    if |parts| == 1 {
      SplitWord(parts[0]);
    } else {
      SplitJoin(parts[1..]);
      SplitHead(parts[0], Join(parts[1..]));
    }
  }

  // ---- lists and their printing ----

  /** A nonempty, strictly ascending list of positive 64-bit ids. */
  ghost predicate Canonical(ids: seq<nat>) {
    ids != []
    && (forall i :: 0 <= i < |ids| ==> 0 < ids[i] < LIMIT)
    && (forall i, j :: 0 <= i < j < |ids| ==> ids[i] < ids[j])
  }

  function Printed(ids: seq<nat>): (parts: seq<string>)
    ensures |parts| == |ids| && forall i :: 0 <= i < |ids| ==> parts[i] == Format(ids[i])
  {
    seq(|ids|, i requires 0 <= i < |ids| => Format(ids[i]))
  }

  function Print(ids: seq<nat>): string
    requires ids != []
  {
    Join(Printed(ids))
  }

  /** The documented form, on an example. */
  lemma DocumentedForm()
    ensures Print([1, 5]) == "1,5"
  {
    assert Format(1) == "1" && Format(5) == "5";
    var parts := Printed([1, 5]);
    assert parts[1..] == [Format(5)];
    assert Join(parts[1..]) == "5";
  }

  lemma SplitPrint(ids: seq<nat>)
    requires ids != []
    ensures Split(Print(ids)) == Printed(ids)
  {
    forall i | 0 <= i < |ids| ensures CommaFree(Printed(ids)[i]) {}
    SplitJoin(Printed(ids));
  }

  lemma {:induction false} JoinEnds(parts: seq<string>)
    requires parts != [] && forall i :: 0 <= i < |parts| ==> parts[i] != "" && AllDigits(parts[i])
    ensures var s := Join(parts); s != "" && IsDigit(s[0]) && IsDigit(s[|s| - 1])
  {
    if |parts| > 1 {
      JoinEnds(parts[1..]);
    }
  }

  /** A printed list is its own trimming. */
  lemma PrintTrimmed(ids: seq<nat>)
    requires ids != []
    ensures Print(ids) != "" && TrimSpace(Print(ids)) == Print(ids)
  {
    JoinEnds(Printed(ids));
    DigitsTrimmed(Print(ids));
  }

  /** The id of one part: not empty, not padded, a canonical positive decimal, above the previous id. */
  function PartId(part: string, before: seq<nat>): Option<nat> {
    if part == "" || TrimSpace(part) != part then None
    else match ParseUint(part) {
      case None => None
      case Some(id) =>
        if id == 0 || Format(id) != part then None
        else if before != [] && before[|before| - 1] >= id then None
        else Some(id)
    }
  }

  ghost predicate ReadSoFar(parts: seq<string>, chains: seq<nat>) {
    |chains| <= |parts|
    && (forall k :: 0 <= k < |chains| ==> 0 < chains[k] < LIMIT && parts[k] == Format(chains[k]))
    && (forall k, l :: 0 <= k < l < |chains| ==> chains[k] < chains[l])
  }

  lemma DigitNotSpace(c: char)
    requires IsDigit(c)
    ensures !IsSpace(c)
  {}

  /** Text that starts and ends with a digit is its own trimming. */
  lemma DigitsTrimmed(s: string)
    requires s != "" && IsDigit(s[0]) && IsDigit(s[|s| - 1])
    ensures TrimSpace(s) == s
  {
    DigitNotSpace(s[0]);
    DigitNotSpace(s[|s| - 1]);
    TrimSpaceFixed(s);
  }

  lemma PartAccepted(part: string, id: nat)
    requires 0 < id < LIMIT && part == Format(id)
    ensures part != "" && TrimSpace(part) == part && ParseUint(part) == Some(id)
  {
    ValueOfFormat(id);
    DigitsTrimmed(part);
  }

  /** What has been read of a printed list is the beginning of the list, and its next part is accepted. */
  lemma PrintedAccepted(parts: seq<string>, chains: seq<nat>, ids: seq<nat>)
    requires Canonical(ids) && Printed(ids) == parts && ReadSoFar(parts, chains)
    ensures chains == ids[..|chains|]
    ensures |chains| < |parts| ==> PartId(parts[|chains|], chains) == Some(ids[|chains|])
  {
    forall k | 0 <= k < |chains| ensures chains[k] == ids[k] {
      FormatInjective(chains[k], ids[k]);
    }
    if |chains| < |parts| {
      PartAccepted(parts[|chains|], ids[|chains|]);
    }
  }

  lemma PartRead(parts: seq<string>, chains: seq<nat>)
    requires ReadSoFar(parts, chains) && |chains| < |parts| && PartId(parts[|chains|], chains).Some?
    ensures ReadSoFar(parts, chains + [PartId(parts[|chains|], chains).value])
  {
    var id := PartId(parts[|chains|], chains).value;
    var more := chains + [id];
    forall k, l | 0 <= k < l < |more| ensures more[k] < more[l] {
      if l == |chains| && k < l - 1 {
        assert chains[k] < chains[l - 1];
      }
    }
  }

  /**
   * Accepts a string if and only if it is the printing of a canonical list, and then returns that list:
   * parsing and printing undo each other in both directions.
   */
  method Parse(raw: string) returns (r: Option<seq<nat>>)
    ensures r.Some? ==> Canonical(r.value) && Print(r.value) == raw
    ensures forall ids :: Canonical(ids) && Print(ids) == raw ==> r == Some(ids)
  {
    if TrimSpace(raw) != raw || raw == "" {
      forall ids | Canonical(ids) ensures Print(ids) != raw { PrintTrimmed(ids); }
      return None;
    }
    var parts := Split(raw);
    var chains: seq<nat> := [];
    while |chains| < |parts|
      invariant ReadSoFar(parts, chains)
      decreases |parts| - |chains|
    {
      var id := PartId(parts[|chains|], chains);
      if id.None? {
        forall ids | Canonical(ids) ensures Print(ids) != raw {
          SplitPrint(ids);
          if Printed(ids) == parts { PrintedAccepted(parts, chains, ids); }
        }
        return None;
      }
      PartRead(parts, chains);
      chains := chains + [id.value];
    }
    JoinSplit(raw);
    assert Printed(chains) == parts;
    forall ids | Canonical(ids) && Print(ids) == raw ensures ids == chains {
      PrintInjective(ids, chains);
    }
    r := Some(chains);
  }

  /** Distinct canonical lists print differently. */
  lemma PrintInjective(a: seq<nat>, b: seq<nat>)
    requires a != [] && b != [] && Print(a) == Print(b)
    ensures a == b
  {
    SplitPrint(a);
    SplitPrint(b);
    forall i | 0 <= i < |a| ensures a[i] == b[i] {
      assert Printed(a)[i] == Printed(b)[i];
      FormatInjective(a[i], b[i]);
    }
  }
}
