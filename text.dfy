/** The string operations the pages rely on (`toLowerCase`, `toUpperCase`,
    `includes`, `startsWith`, `slice`, number-to-string), restricted to ASCII
    case mapping. */
module Text {

  predicate IsUpper(c: char) { 'A' <= c <= 'Z' }

  predicate IsLower(c: char) { 'a' <= c <= 'z' }

  /** ASCII `toLowerCase` of one character. */
  function LowerChar(c: char): (r: char)
    ensures !IsUpper(r)
    ensures IsUpper(c) ==> r as int == c as int + 32
    ensures !IsUpper(c) ==> r == c
  {
    if IsUpper(c) then (c as int + 32) as char else c
  }

  /** ASCII `toUpperCase` of one character. */
  function UpperChar(c: char): (r: char)
    ensures !IsLower(r)
    ensures IsLower(c) ==> r as int == c as int - 32
    ensures !IsLower(c) ==> r == c
  {
    if IsLower(c) then (c as int - 32) as char else c
  }

  /** `s.toLowerCase()` over ASCII letters. */
  function Lower(s: string): (r: string)
    ensures |r| == |s|
    ensures forall i :: 0 <= i < |s| ==> r[i] == LowerChar(s[i])
  {
    if s == [] then [] else [LowerChar(s[0])] + Lower(s[1..])
  }

  /** Lowering an already lowered string changes nothing. */
  lemma LowerIdempotent(s: string)
    ensures Lower(Lower(s)) == Lower(s)
  {
  }

  /** `t` occurs in `s` starting at some position: the meaning of `s.includes(t)`. */
  ghost predicate OccursIn(t: string, s: string)
  {
    exists i :: 0 <= i <= |s| && t <= s[i..]
  }

  /** `s.includes(t)`, scanning `s` from the left: a prefix is found at once,
      the empty string everywhere, and nothing longer than `s`. */
  function Includes(s: string, t: string): (r: bool)
    ensures t <= s ==> r
    ensures r ==> |t| <= |s|
  {
    if t <= s then true
    else if s == [] then false
    else Includes(s[1..], t)
  }

  /** The scan answers exactly the occurrence question, in both directions. */
  lemma {:induction false} IncludesIffOccurs(s: string, t: string)
    ensures Includes(s, t) <==> OccursIn(t, s)
  {
    if t <= s {
      assert s[0..] == s;
    } else if s == [] {
      forall i | 0 <= i <= |s| ensures !(t <= s[i..]) { assert s[i..] == s; }
    } else {
      IncludesIffOccurs(s[1..], t);
      if OccursIn(t, s[1..]) {
        var i :| 0 <= i <= |s[1..]| && t <= s[1..][i..];
        assert s[1..][i..] == s[i + 1..];
      }
      if OccursIn(t, s) {
        var i :| 0 <= i <= |s| && t <= s[i..];
        assert i != 0 by { assert s[0..] == s; }
        assert s[1..][i - 1..] == s[i..];
      }
    }
  }

  /** `s.startsWith(prefix)`: the same as Dafny's prefix relation. */
  function StartsWith(s: string, prefix: string): (b: bool)
    ensures b <==> prefix <= s
  {
    |prefix| <= |s| && s[..|prefix|] == prefix
  }

  /** `s.slice(0, n)` for `n >= 0`: at most `n` leading characters. */
  function Take(s: string, n: nat): (r: string)
    ensures |r| == if n < |s| then n else |s|
    ensures r <= s
  {
    if n < |s| then s[..n] else s
  }

  /** The decimal digit for `d`. */
  function DigitChar(d: nat): (c: char)
    requires d < 10
    ensures '0' <= c <= '9'
    ensures c as int - '0' as int == d
  {
    ('0' as int + d) as char
  }

  /** `${n}` for a non-negative integer: its decimal representation. */
  function Decimal(n: nat): (r: string)
    ensures |r| > 0
    ensures forall i :: 0 <= i < |r| ==> '0' <= r[i] <= '9'
    decreases n
  {
    if n < 10 then [DigitChar(n)] else Decimal(n / 10) + [DigitChar(n % 10)]
  }

  /** The number a string of decimal digits denotes (most significant first). */
  function DigitsValue(s: string): nat
    requires forall i :: 0 <= i < |s| ==> '0' <= s[i] <= '9'
  {
    if s == [] then 0
    else 10 * DigitsValue(s[..|s| - 1]) + (s[|s| - 1] as int - '0' as int)
  }

  /** Reading the decimal representation back gives the number: distinct ids
      give distinct strings. */
  lemma {:induction false} DecimalRoundTrip(n: nat)
    ensures DigitsValue(Decimal(n)) == n
    decreases n
  {
    if n >= 10 {
      DecimalRoundTrip(n / 10);
      var r := Decimal(n);
      assert r[..|r| - 1] == Decimal(n / 10);
    }
  }
}
