/** The string functions of the Go library that the modelled code decides with. */
module Texts {
  import opened Vocabulary

  predicate HasPrefix(s: string, prefix: string) {
    |prefix| <= |s| && s[..|prefix|] == prefix
  }

  /** White space in the sense of `unicode.IsSpace`. */
  predicate IsSpace(c: char) {
    c in {'\t', '\n', '\U{000B}', '\U{000C}', '\r', ' ', '\U{0085}', '\U{00A0}', '\U{1680}',
          '\U{2028}', '\U{2029}', '\U{202F}', '\U{205F}', '\U{3000}'}
    || '\U{2000}' <= c <= '\U{200A}'
  }

  function TrimLeft(s: string): (r: string)
    ensures |r| <= |s| && s[|s| - |r|..] == r
    ensures r != "" ==> !IsSpace(r[0])
  {
    if s != "" && IsSpace(s[0]) then TrimLeft(s[1..]) else s
  }

  function TrimRight(s: string): (r: string)
    ensures HasPrefix(s, r)
    ensures r != "" ==> !IsSpace(r[|r| - 1])
  {
    if s != "" && IsSpace(s[|s| - 1]) then TrimRight(s[..|s| - 1]) else s
  }

  function TrimSpace(s: string): string {
    TrimRight(TrimLeft(s))
  }

  /** A string is its own trimming exactly when neither end is white space. */
  lemma TrimSpaceFixed(s: string)
    ensures TrimSpace(s) == s <==> s == "" || (!IsSpace(s[0]) && !IsSpace(s[|s| - 1]))
  {
    if s != "" {
      var left := TrimLeft(s);
      if IsSpace(s[0]) {
        assert |left| < |s|;
      } else if IsSpace(s[|s| - 1]) {
        assert left == s;
      }
    }
  }

  predicate OccursAt(s: string, sub: string, k: nat) {
    k + |sub| <= |s| && s[k..k + |sub|] == sub
  }

  /** The first position of `sub` in `s`. */
  function IndexOf(s: string, sub: string): (r: Option<nat>)
    ensures r.Some? ==> OccursAt(s, sub, r.value)
  {
    if HasPrefix(s, sub) then Some(0)
    else if s == "" then None
    else match IndexOf(s[1..], sub) {
      case None => None
      case Some(i) => assert s[1..][i..i + |sub|] == s[i + 1..i + 1 + |sub|]; Some(i + 1)
    }
  }

  /** No occurrence is before the position found, and with an occurrence there is one. */
  lemma {:induction false} IndexOfFirst(s: string, sub: string, k: nat)
    requires OccursAt(s, sub, k)
    ensures IndexOf(s, sub).Some? && IndexOf(s, sub).value <= k
  {
    if k == 0 {
      assert s[..|sub|] == s[0..0 + |sub|];
    } else if !HasPrefix(s, sub) {
      assert s[1..][k - 1..k - 1 + |sub|] == s[k..k + |sub|];
      IndexOfFirst(s[1..], sub, k - 1);
    }
  }

  predicate Contains(s: string, sub: string) {
    IndexOf(s, sub).Some?
  }

  /** `unicode.ToLower` as far as ASCII goes: the Kelvin sign and the dotted capital I also become ASCII letters. */
  function LowerChar(c: char): char {
    if 'A' <= c <= 'Z' then c - 'A' + 'a'
    else if c == '\U{212A}' then 'k'
    else if c == '\U{0130}' then 'i'
    else c
  }

  function ToLower(s: string): (r: string)
    ensures |r| == |s|
  {
    seq(|s|, i requires 0 <= i < |s| => LowerChar(s[i]))
  }

  /** Capitals are folded, one of each kind. */
  lemma Folded()
    ensures ToLower("FrEe") == "free" && ToLower("loc\U{212A}") == "lock" && ToLower("\U{0130}") == "i"
  {}

  /** The part of `s` before its first blank or tab. */
  function UpToBlank(s: string): (r: string)
    ensures HasPrefix(s, r)
  {
    if s == "" || s[0] == ' ' || s[0] == '\t' then "" else [s[0]] + UpToBlank(s[1..])
  }

  predicate BlankFree(s: string) {
    forall i :: 0 <= i < |s| ==> s[i] != ' ' && s[i] != '\t'
  }

  /** A word is read back whole, whatever follows its closing blank, exactly when it holds no blank. */
  lemma {:induction false} UpToBlankWord(w: string, rest: string)
    requires rest == "" || rest[0] == ' '
    ensures UpToBlank(w + rest) == w <==> BlankFree(w)
  {
    if w == "" {
      assert w + rest == rest;
    } else {
      var t := w[1..];
      assert w == [w[0]] + t;
      assert (w + rest)[1..] == t + rest;
      UpToBlankWord(t, rest);
      if w[0] == ' ' || w[0] == '\t' {
        assert UpToBlank(w + rest) == "";
      } else {
        assert UpToBlank(w + rest) == [w[0]] + UpToBlank(t + rest);
        if UpToBlank(w + rest) == w {
          assert UpToBlank(t + rest) == UpToBlank(w + rest)[1..] == t;
        }
        assert forall i :: 0 <= i < |t| ==> t[i] == w[i + 1];
        assert BlankFree(t) <==> BlankFree(w) by {
          if BlankFree(t) {
            forall i | 0 <= i < |w| ensures w[i] != ' ' && w[i] != '\t' {
              if i > 0 { assert w[i] == t[i - 1]; }
            }
          }
        }
      }
    }
  }
}
