/** The natural keys behind event identities (catalog.go). */
module NaturalKeys {
  import opened Vocabulary
  import Decimal

  /** How a stored event is identified: by the business object's version, or by its log position. */
  datatype Identity = BusinessObject | EvmLog(chain: nat, block: string, tx: string, index: nat)

  function BusinessKey(g: Aggregate, version: nat): string {
    "business_object|" + g.kind + "|" + g.id + "|" + Decimal.Format(version)
  }

  function EvmKey(log: Identity): string
    requires log.EvmLog?
  {
    "evm_log|" + Decimal.Format(log.chain) + "|" + log.block + "|" + log.tx + "|" + Decimal.Format(log.index)
  }

  function IdFor(identity: Identity, g: Aggregate, version: nat): EventId {
    EventId(if identity.EvmLog? then EvmKey(identity) else BusinessKey(g, version))
  }

  /** The documented forms, on one example each. */
  lemma DocumentedForms()
    ensures BusinessKey(Aggregate("t", "i"), 3) == "business_object|t|i|3"
    ensures EvmKey(EvmLog(1, "b", "x", 2)) == "evm_log|1|b|x|2"
  {
    assert Decimal.Format(3) == "3" && Decimal.Format(1) == "1" && Decimal.Format(2) == "2";
  }

  predicate PipeFree(s: string) {
    forall i :: 0 <= i < |s| ==> s[i] != '|'
  }

  lemma DigitsPipeFree(n: nat)
    ensures PipeFree(Decimal.Format(n))
  {}

  /** The text before the first bar is determined when it holds none itself. */
  lemma SplitFirst(a: string, x: string, b: string, y: string)
    requires PipeFree(a) && PipeFree(b) && a + "|" + x == b + "|" + y
    ensures a == b && x == y
  {
    var s := a + "|" + x;
    assert s[|a|] == '|' && s[|b|] == '|';
    assert |a| == |b|;
    assert a == s[..|a|] == b;
    assert x == s[|a| + 1..] == y;
  }

  /** The text after the last bar is determined when it holds none itself. */
  lemma SplitLast(x: string, a: string, y: string, b: string)
    requires PipeFree(a) && PipeFree(b) && x + "|" + a == y + "|" + b
    ensures a == b && x == y
  {
    var s := x + "|" + a;
    var t := y + "|" + b;
    assert s[|x|] == '|' && t[|y|] == '|';
    assert |x| == |y|;
    assert x == s[..|x|] == y;
    assert a == s[|x| + 1..] == b;
  }

  lemma DropPrefix(p: string, x: string, y: string)
    requires p + x == p + y
    ensures x == y
  {
    assert x == (p + x)[|p|..] == (p + y)[|p|..] == y;
  }

  /** Kinds without a bar keep business keys apart; the object's id may contain anything. */
  lemma BusinessKeyInjective(g: Aggregate, v: nat, h: Aggregate, w: nat)
    requires PipeFree(g.kind) && PipeFree(h.kind) && BusinessKey(g, v) == BusinessKey(h, w)
    ensures g == h && v == w
  {
    DigitsPipeFree(v);
    DigitsPipeFree(w);
    var x, y := "business_object|" + g.kind + "|" + g.id, "business_object|" + h.kind + "|" + h.id;
    SplitLast(x, Decimal.Format(v), y, Decimal.Format(w));
    Decimal.FormatInjective(v, w);
    assert x == "business_object|" + (g.kind + "|" + g.id) && y == "business_object|" + (h.kind + "|" + h.id);
    DropPrefix("business_object|", g.kind + "|" + g.id, h.kind + "|" + h.id);
    SplitFirst(g.kind, g.id, h.kind, h.id);
  }

  /** Two versions of one object never share a key, whatever its name. */
  lemma VersionsHaveKeys(g: Aggregate, v: nat, w: nat)
    requires BusinessKey(g, v) == BusinessKey(g, w)
    ensures v == w
  {
    var p := "business_object|" + g.kind + "|" + g.id + "|";
    DropPrefix(p, Decimal.Format(v), Decimal.Format(w));
    Decimal.FormatInjective(v, w);
  }

  /** With a bar in a kind two objects can share a key. */
  lemma BarredKindsCollide(version: nat)
    ensures Aggregate("a|b", "c") != Aggregate("a", "b|c")
    ensures BusinessKey(Aggregate("a|b", "c"), version) == BusinessKey(Aggregate("a", "b|c"), version)
  {
    assert "a|b" != "a" by { assert |"a|b"| != |"a"|; }
    assert "business_object|" + "a|b" + "|" + "c" == "business_object|" + "a" + "|" + "b|c";
  }

  /** Log keys are apart from business keys and from each other when hashes hold no bar. */
  lemma EvmKeyInjective(a: Identity, b: Identity)
    requires a.EvmLog? && b.EvmLog? && PipeFree(a.block) && PipeFree(b.block) && EvmKey(a) == EvmKey(b)
    ensures a == b
  {
    DigitsPipeFree(a.chain);
    DigitsPipeFree(b.chain);
    DigitsPipeFree(a.index);
    DigitsPipeFree(b.index);
    var x := "evm_log|" + Decimal.Format(a.chain) + "|" + a.block + "|" + a.tx;
    var y := "evm_log|" + Decimal.Format(b.chain) + "|" + b.block + "|" + b.tx;
    SplitLast(x, Decimal.Format(a.index), y, Decimal.Format(b.index));
    Decimal.FormatInjective(a.index, b.index);
    var u, v := a.block + "|" + a.tx, b.block + "|" + b.tx;
    assert x == "evm_log|" + (Decimal.Format(a.chain) + "|" + u);
    assert y == "evm_log|" + (Decimal.Format(b.chain) + "|" + v);
    DropPrefix("evm_log|", Decimal.Format(a.chain) + "|" + u, Decimal.Format(b.chain) + "|" + v);
    SplitFirst(Decimal.Format(a.chain), u, Decimal.Format(b.chain), v);
    Decimal.FormatInjective(a.chain, b.chain);
    SplitFirst(a.block, a.tx, b.block, b.tx);
  }

  lemma KindsOfKeysApart(log: Identity, g: Aggregate, version: nat)
    requires log.EvmLog?
    ensures EvmKey(log) != BusinessKey(g, version)
  {
    assert EvmKey(log)[0] == 'e' && BusinessKey(g, version)[0] == 'b';
  }
}
