/** Canonical decimal printing and the 64-bit parser that reads it back (strconv). */
module Decimal {
  import opened Vocabulary

  const LIMIT := 0x1_0000_0000_0000_0000

  function Digit(d: nat): char
    requires d < 10
  {
    d as char + '0'
  }

  predicate IsDigit(c: char) {
    '0' <= c <= '9'
  }

  predicate AllDigits(s: string) {
    forall i :: 0 <= i < |s| ==> IsDigit(s[i])
  }

  function Format(n: nat): (s: string)
    ensures s != "" && AllDigits(s)
  {
    if n < 10 then [Digit(n)] else Format(n / 10) + [Digit(n % 10)]
  }

  function Value(s: string): nat
    requires AllDigits(s)
  {
    if s == "" then 0 else Value(s[..|s| - 1]) * 10 + (s[|s| - 1] - '0') as nat
  }

  /** Digits only, at least one, below 2^64. */
  function ParseUint(s: string): Option<nat> {
    if s != "" && AllDigits(s) && Value(s) < LIMIT then Some(Value(s)) else None
  }

  lemma {:induction false} ValueOfFormat(n: nat)
    ensures Value(Format(n)) == n
  {
    if n >= 10 {
      ValueOfFormat(n / 10);
      var s := Format(n);
      assert s[..|s| - 1] == Format(n / 10);
    } else {
      var s := Format(n);
      assert s[..|s| - 1] == "";
    }
  }

  /** Distinct numbers print differently. */
  lemma FormatInjective(a: nat, b: nat)
    requires Format(a) == Format(b)
    ensures a == b
  {
    ValueOfFormat(a);
    ValueOfFormat(b);
  }
}
