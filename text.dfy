/**
 * String helpers used by the services and the wizard: JavaScript's
 * `String.prototype.trim`, the "blank" test `!s || !s.trim()`, and
 * `Number.prototype.toString` on integers.
 */
module Strings {

  /** WhiteSpace and LineTerminator code points of ECMA-262, the set `trim` removes. */
  predicate IsWhitespace(c: char) {
    || c == '\t' || c == '\n' || c == '\U{000B}' || c == '\U{000C}' || c == '\r'
    || c == ' ' || c == '\U{00A0}' || c == '\U{1680}' || ('\U{2000}' <= c <= '\U{200A}')
    || c == '\U{2028}' || c == '\U{2029}' || c == '\U{202F}' || c == '\U{205F}'
    || c == '\U{3000}' || c == '\U{FEFF}'
  }

  predicate AllWhitespace(s: string) {
    forall i :: 0 <= i < |s| ==> IsWhitespace(s[i])
  }

  /** `s` has no whitespace at either end. */
  predicate IsTrimmed(s: string) {
    s == [] || (!IsWhitespace(s[0]) && !IsWhitespace(s[|s| - 1]))
  }

  /** Drops leading whitespace: the result is a suffix of `s` and all that was dropped is whitespace. */
  function TrimStart(s: string): (r: string)
    ensures |r| <= |s| && r == s[|s| - |r|..]
    ensures AllWhitespace(s[..|s| - |r|])
    ensures r == [] || !IsWhitespace(r[0])
    ensures r == [] <==> AllWhitespace(s)
  {
    if |s| > 0 && IsWhitespace(s[0]) then
      var r := TrimStart(s[1..]);
      LeadingStep(s, r);
      r
    else
      s
  }

  /** Dropping one more leading whitespace character keeps `TrimStart`'s contract. */
  lemma LeadingStep(s: string, r: string)
    requires |s| > 0 && IsWhitespace(s[0])
    requires |r| <= |s| - 1 && r == s[1..][|s| - 1 - |r|..]
    requires AllWhitespace(s[1..][..|s| - 1 - |r|])
    requires r == [] <==> AllWhitespace(s[1..])
    ensures r == s[|s| - |r|..]
    ensures AllWhitespace(s[..|s| - |r|])
    ensures r == [] <==> AllWhitespace(s)
  {
    assert s[1..][|s| - 1 - |r|..] == s[|s| - |r|..];
    assert s[..|s| - |r|] == [s[0]] + s[1..][..|s| - 1 - |r|];
    assert AllWhitespace(s) <==> AllWhitespace(s[1..]) by {
      assert forall i :: 0 < i < |s| ==> s[i] == s[1..][i - 1];
    }
  }

  /** Drops trailing whitespace: the result is a prefix of `s` and all that was dropped is whitespace. */
  function TrimEnd(s: string): (r: string)
    ensures |r| <= |s| && r == s[..|r|]
    ensures AllWhitespace(s[|r|..])
    ensures r == [] || !IsWhitespace(r[|r| - 1])
    ensures r == [] <==> AllWhitespace(s)
  {
    if |s| > 0 && IsWhitespace(s[|s| - 1]) then
      var r := TrimEnd(s[..|s| - 1]);
      TrailingStep(s, r);
      r
    else
      s
  }

  /** Dropping one more trailing whitespace character keeps `TrimEnd`'s contract. */
  lemma TrailingStep(s: string, r: string)
    requires |s| > 0 && IsWhitespace(s[|s| - 1])
    requires |r| <= |s| - 1 && r == s[..|s| - 1][..|r|]
    requires AllWhitespace(s[..|s| - 1][|r|..])
    requires r == [] <==> AllWhitespace(s[..|s| - 1])
    ensures r == s[..|r|]
    ensures AllWhitespace(s[|r|..])
    ensures r == [] <==> AllWhitespace(s)
  {
    assert s[..|s| - 1][..|r|] == s[..|r|];
    assert s[|r|..] == s[..|s| - 1][|r|..] + [s[|s| - 1]];
    assert AllWhitespace(s) <==> AllWhitespace(s[..|s| - 1]) by {
      assert forall i :: 0 <= i < |s| - 1 ==> s[i] == s[..|s| - 1][i];
    }
  }

  /** `r` is `s` without its first `k` characters and some last ones, and all it lost is whitespace. */
  ghost predicate WhitespaceAround(s: string, k: int, r: string) {
    && 0 <= k <= |s| - |r|
    && r == s[k..k + |r|]
    && AllWhitespace(s[..k])
    && AllWhitespace(s[k + |r|..])
  }

  /** `s.trim()`: the middle of `s` between its leading and trailing whitespace. */
  function Trim(s: string): (r: string)
    ensures |r| <= |s|
    ensures IsTrimmed(r)
    ensures r == [] <==> AllWhitespace(s)
  {
    var t := TrimStart(s);
    var r := TrimEnd(t);
    assert r != [] ==> r[0] == t[0];
    r
  }

  /** Dropping `k` leading and then some trailing whitespace characters leaves a middle of `s`. */
  lemma TrimSpan(s: string, t: string, r: string, k: int)
    requires 0 <= k <= |s| && t == s[k..] && AllWhitespace(s[..k])
    requires |r| <= |t| && r == t[..|r|] && AllWhitespace(t[|r|..])
    ensures WhitespaceAround(s, k, r)
  {
    assert s[k..k + |r|] == t[..|r|];
    assert s[k + |r|..] == t[|r|..];
  }

  /** `s.trim()` is `s` with whitespace, and only whitespace, removed from its two ends. */
  lemma TrimIsMiddle(s: string)
    ensures exists k :: WhitespaceAround(s, k, Trim(s))
  {
    var t := TrimStart(s);
    var r := TrimEnd(t);
    assert r == Trim(s);
    TrimSpan(s, t, r, |s| - |t|);
  }

  /** Everything `WhitespaceAround` drops, read as positions of `s`. */
  lemma DroppedIsWhitespace(s: string, k: int, m: string)
    requires WhitespaceAround(s, k, m)
    ensures forall i :: 0 <= i < k ==> IsWhitespace(s[i])
    ensures forall i :: k + |m| <= i < |s| ==> IsWhitespace(s[i])
    ensures forall i :: 0 <= i < |m| ==> s[k + i] == m[i]
  {
    assert forall i :: 0 <= i < k ==> s[i] == s[..k][i];
    assert forall i :: k + |m| <= i < |s| ==> s[i] == s[k + |m|..][i - k - |m|];
  }

  /** Two trimmed middles of the same string are equal. */
  lemma MiddleUnique(s: string, k1: int, m1: string, k2: int, m2: string)
    requires WhitespaceAround(s, k1, m1) && IsTrimmed(m1)
    requires WhitespaceAround(s, k2, m2) && IsTrimmed(m2)
    ensures m1 == m2
  {
    DroppedIsWhitespace(s, k1, m1);
    DroppedIsWhitespace(s, k2, m2);
    if m1 == [] || m2 == [] {
      assert m1 == [] && m2 == [];
    } else {
      assert s[k1] == m1[0] && s[k2] == m2[0];
      assert k1 == k2;
      assert s[k1 + |m1| - 1] == m1[|m1| - 1] && s[k2 + |m2| - 1] == m2[|m2| - 1];
      assert |m1| == |m2|;
    }
  }

  /** A trimmed middle of `s` is `s.trim()`: with `TrimIsMiddle` this pins down `Trim(s)`. */
  lemma TrimmedMiddleIsTrim(s: string, k: int, m: string)
    requires WhitespaceAround(s, k, m) && IsTrimmed(m)
    ensures m == Trim(s)
  {
    TrimIsMiddle(s);
    var j :| WhitespaceAround(s, j, Trim(s));
    MiddleUnique(s, k, m, j, Trim(s));
  }

  /** A string without whitespace at its ends is its own trim. */
  lemma TrimOfTrimmed(s: string)
    requires IsTrimmed(s)
    ensures Trim(s) == s
  {
  }

  /** Trimming twice is trimming once. */
  lemma TrimIdempotent(s: string)
    ensures Trim(Trim(s)) == Trim(s)
  {
    TrimOfTrimmed(Trim(s));
  }

  /** The source's `!s || !s.trim()`: empty, or whitespace only. */
  predicate IsBlank(s: string)
    ensures s == [] ==> IsBlank(s)
    ensures |s| > 0 && !IsWhitespace(s[0]) ==> !IsBlank(s)
  {
    AllWhitespace(s)
  }

  /** `IsBlank` is the test the source writes: trimming leaves nothing. */
  lemma BlankIffTrimEmpty(s: string)
    ensures IsBlank(s) <==> Trim(s) == []
  {
  }

  function DigitChar(d: nat): (c: char)
    requires d < 10
    ensures '0' <= c <= '9'
  {
    ('0' as int + d) as char
  }

  /** Decimal notation of a natural number, as `Number.prototype.toString` writes it. */
  function NatToString(n: nat): (r: string)
    ensures |r| >= 1
    ensures forall i :: 0 <= i < |r| ==> '0' <= r[i] <= '9'
    ensures (r[0] == '0') <==> n == 0
  {
    if n < 10 then [DigitChar(n)] else NatToString(n / 10) + [DigitChar(n % 10)]
  }

  /** `Number.prototype.toString` on an integer below 10^21 in magnitude: an optional `-`, then the decimal digits of the magnitude. */
  function IntToString(n: int): (r: string)
    ensures |r| >= 1
    ensures n < 0 <==> r[0] == '-'
    ensures var d := if n < 0 then r[1..] else r;
      (forall i :: 0 <= i < |d| ==> '0' <= d[i] <= '9') && DecimalValue(d) == (if n < 0 then -n else n)
    ensures var d := if n < 0 then r[1..] else r; |d| >= 1 && (d[0] == '0' <==> n == 0)
    ensures n == 0 ==> r == "0"
  {
    DecimalRoundTrip(if n < 0 then -n else n);
    if n < 0 then
      var r := "-" + NatToString(-n);
      assert r[1..] == NatToString(-n);
      r
    else NatToString(n)
  }

  /** The value of a string of decimal digits, read most significant digit first. */
  function DecimalValue(s: string): nat
    requires forall i :: 0 <= i < |s| ==> '0' <= s[i] <= '9'
  {
    if s == [] then 0 else DecimalValue(s[..|s| - 1]) * 10 + (s[|s| - 1] as int - '0' as int)
  }

  /** Reading back the decimal notation gives the number. */
  lemma {:induction false} DecimalRoundTrip(n: nat)
    ensures DecimalValue(NatToString(n)) == n
  {
    if n >= 10 {
      var s := NatToString(n);
      assert s[..|s| - 1] == NatToString(n / 10);
      DecimalRoundTrip(n / 10);
    }
  }
}
