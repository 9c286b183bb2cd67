/**
 * The JavaScript string operations the application relies on, over Dafny strings:
 * `trim`, ASCII `toLowerCase`, `startsWith`, `includes`, `split(sep)[0]`,
 * `replace(/_/g, '-')`, `split(/\s+/)`, `Number.prototype.toString` for naturals,
 * `padStart(2, '0')` and `parseInt(s, 10)`.
 */
module Text {
  import opened Wrappers

  /** ECMAScript WhiteSpace and LineTerminator code points: what `trim` removes and `\s` matches. */
  predicate IsSpace(c: char)
  {
    || c == ' ' || c == '\t' || c == '\n' || c == '\U{000B}' || c == '\U{000C}' || c == '\r'
    || c == '\U{00A0}' || c == '\U{1680}' || ('\U{2000}' <= c <= '\U{200A}')
    || c == '\U{2028}' || c == '\U{2029}' || c == '\U{202F}' || c == '\U{205F}'
    || c == '\U{3000}' || c == '\U{FEFF}'
  }

  predicate IsUpper(c: char) { 'A' <= c <= 'Z' }

  predicate IsDigit(c: char) { '0' <= c <= '9' }

  // ---------------------------------------------------------------- lower case

  function LowerChar(c: char): (r: char)
    ensures !IsUpper(r)
    ensures !IsUpper(c) ==> r == c
    ensures IsUpper(c) ==> 'a' <= r <= 'z'
    ensures IsSpace(r) <==> IsSpace(c)
  {
    if IsUpper(c) then (c as int + 32) as char else c
  }

  /** `toLowerCase`, restricted to the ASCII letters. */
  function ToLower(s: string): (r: string)
    ensures |r| == |s|
    ensures forall i :: 0 <= i < |s| ==> r[i] == LowerChar(s[i])
    decreases |s|
  {
    if |s| == 0 then [] else [LowerChar(s[0])] + ToLower(s[1..])
  }

  predicate NoUpper(s: string) { forall i :: 0 <= i < |s| ==> !IsUpper(s[i]) }

  lemma ToLowerNoUpper(s: string)
    ensures NoUpper(ToLower(s))
  {
  }

  lemma ToLowerOfLower(s: string)
    requires NoUpper(s)
    ensures ToLower(s) == s
  {
  }

  lemma ToLowerIdempotent(s: string)
    ensures ToLower(ToLower(s)) == ToLower(s)
  {
    ToLowerNoUpper(s);
    ToLowerOfLower(ToLower(s));
  }

  lemma ToLowerAppend(a: string, b: string)
    ensures ToLower(a + b) == ToLower(a) + ToLower(b)
  {
  }

  lemma ToLowerSlice(s: string, i: int, j: int)
    requires 0 <= i <= j <= |s|
    ensures ToLower(s[i..j]) == ToLower(s)[i..j]
  {
  }

  // ---------------------------------------------------------------- trim

  /** The first index at or after `k` that does not hold white space, or `|s|`. */
  function SkipSpace(s: string, k: nat): (n: nat)
    requires k <= |s|
    ensures k <= n <= |s|
    ensures forall j :: k <= j < n ==> IsSpace(s[j])
    ensures n < |s| ==> !IsSpace(s[n])
    decreases |s| - k
  {
    if k < |s| && IsSpace(s[k]) then SkipSpace(s, k + 1) else k
  }

  /** The end of `s[lo..m]` once its trailing white space is dropped. */
  function SkipSpaceBack(s: string, lo: nat, m: nat): (e: nat)
    requires lo <= m <= |s|
    ensures lo <= e <= m
    ensures forall j :: e <= j < m ==> IsSpace(s[j])
    ensures e > lo ==> !IsSpace(s[e - 1])
    decreases m
  {
    if m > lo && IsSpace(s[m - 1]) then SkipSpaceBack(s, lo, m - 1) else m
  }

  /** `r` is the slice `s[i..i + |r|]` and everything of `s` around it is white space. */
  predicate SpaceAround(s: string, i: int, r: string)
  {
    && 0 <= i && i + |r| <= |s| && r == s[i..i + |r|]
    && (forall k :: 0 <= k < i ==> IsSpace(s[k]))
    && (forall k :: i + |r| <= k < |s| ==> IsSpace(s[k]))
  }

  /** `String.prototype.trim`: the slice of `s` between its leading and trailing white space. */
  function Trim(s: string): (r: string)
    ensures |r| > 0 ==> !IsSpace(r[0]) && !IsSpace(r[|r| - 1])
    ensures SpaceAround(s, SkipSpace(s, 0), r)
    ensures forall k :: 0 <= k < |r| ==> r[k] == s[SkipSpace(s, 0) + k]
  {
    var i := SkipSpace(s, 0);
    s[i..SkipSpaceBack(s, i, |s|)]
  }

  lemma TrimOfTrimmed(s: string)
    requires |s| == 0 || (!IsSpace(s[0]) && !IsSpace(s[|s| - 1]))
    ensures Trim(s) == s
  {
    assert SkipSpace(s, 0) == 0;
    assert SkipSpaceBack(s, 0, |s|) == |s|;
    assert s[0..|s|] == s;
  }

  lemma TrimIdempotent(s: string)
    ensures Trim(Trim(s)) == Trim(s)
  {
    TrimOfTrimmed(Trim(s));
  }

  /** `trim` yields the empty string exactly for all-white-space input. */
  lemma TrimEmptyIff(s: string)
    ensures Trim(s) == [] <==> forall k :: 0 <= k < |s| ==> IsSpace(s[k])
  {
  }

  lemma {:induction false} SkipSpaceToLower(s: string, k: nat)
    requires k <= |s|
    ensures SkipSpace(ToLower(s), k) == SkipSpace(s, k)
    decreases |s| - k
  {
    if k < |s| {
      assert ToLower(s)[k] == LowerChar(s[k]);
      SkipSpaceToLower(s, k + 1);
    }
  }

  lemma {:induction false} SkipSpaceBackToLower(s: string, lo: nat, m: nat)
    requires lo <= m <= |s|
    ensures SkipSpaceBack(ToLower(s), lo, m) == SkipSpaceBack(s, lo, m)
    decreases m
  {
    if m > lo {
      assert ToLower(s)[m - 1] == LowerChar(s[m - 1]);
      SkipSpaceBackToLower(s, lo, m - 1);
    }
  }

  /** Lower-casing and trimming commute, because no letter is white space. */
  lemma TrimToLower(s: string)
    ensures Trim(ToLower(s)) == ToLower(Trim(s))
  {
    var i := SkipSpace(s, 0);
    SkipSpaceToLower(s, 0);
    SkipSpaceBackToLower(s, i, |s|);
    ToLowerSlice(s, i, SkipSpaceBack(s, i, |s|));
  }

  // ---------------------------------------------------------------- prefixes and substrings

  predicate StartsWith(s: string, prefix: string) { prefix <= s }

  /** `s.includes(sub)`. */
  predicate Contains(s: string, sub: string)
    decreases |s|
  {
    sub <= s || (|s| > 0 && Contains(s[1..], sub))
  }

  lemma ContainsEmpty(s: string)
    ensures Contains(s, [])
  {
  }

  lemma {:induction false} ContainsAt(s: string, sub: string, i: int)
    requires 0 <= i <= |s| - |sub| && s[i..i + |sub|] == sub
    ensures Contains(s, sub)
    decreases i
  {
    if i > 0 {
      assert s[1..][i - 1..i - 1 + |sub|] == sub;
      ContainsAt(s[1..], sub, i - 1);
    }
  }

  lemma {:induction false} ContainsWitness(s: string, sub: string) returns (i: int)
    requires Contains(s, sub)
    ensures 0 <= i <= |s| - |sub| && s[i..i + |sub|] == sub
    decreases |s|
  {
    if sub <= s {
      i := 0;
    } else {
      var j := ContainsWitness(s[1..], sub);
      i := j + 1;
      assert s[i..i + |sub|] == s[1..][j..j + |sub|];
    }
  }

  /** `split(sep)[0]`: the text before the first `sep`, or all of `s` when there is none. */
  function Before(s: string, sep: char): (r: string)
    ensures r <= s
    ensures sep !in r
    ensures |r| < |s| ==> s[|r|] == sep
  {
    if |s| == 0 || s[0] == sep then [] else [s[0]] + Before(s[1..], sep)
  }

  /** The text after the first `sep`, or empty when there is none. */
  function After(s: string, sep: char): (r: string)
  {
    var b := Before(s, sep);
    if |b| < |s| then s[|b| + 1..] else []
  }

  lemma BeforeOfSepFree(s: string, sep: char)
    requires sep !in s
    ensures Before(s, sep) == s
  {
  }

  lemma {:induction false} BeforeOfPrefix(s: string, p: string, sep: char)
    requires sep !in p && p + [sep] <= s
    ensures Before(s, sep) == p
    decreases |p|
  {
    if |p| > 0 {
      assert s[0] == p[0];
      assert p[1..] + [sep] <= s[1..];
      BeforeOfPrefix(s[1..], p[1..], sep);
    }
  }

  lemma {:induction false} BeforeToLower(s: string, sep: char)
    requires !IsUpper(sep) && !('a' <= sep <= 'z')
    ensures ToLower(Before(s, sep)) == Before(ToLower(s), sep)
    decreases |s|
  {
    if |s| > 0 {
      var t := ToLower(s);
      assert t[0] == LowerChar(s[0]);
      assert t[1..] == ToLower(s[1..]);
      if s[0] != sep {
        assert t[0] != sep;
        BeforeToLower(s[1..], sep);
        assert Before(s, sep) == [s[0]] + Before(s[1..], sep);
        assert Before(t, sep) == [t[0]] + Before(t[1..], sep);
        ToLowerAppend([s[0]], Before(s[1..], sep));
      } else {
        assert t[0] == sep;
      }
    }
  }

  /** `s.replace(/from/g, to)` for a one-character pattern. */
  function ReplaceChar(s: string, from: char, to: char): (r: string)
    ensures |r| == |s|
    ensures forall i :: 0 <= i < |s| ==> r[i] == (if s[i] == from then to else s[i])
    decreases |s|
  {
    if |s| == 0 then [] else [if s[0] == from then to else s[0]] + ReplaceChar(s[1..], from, to)
  }

  // ---------------------------------------------------------------- split(/\s+/)

  /** Index of the first white-space character, or `|s|`. */
  function SpaceIndex(s: string): (k: nat)
    ensures k <= |s|
    ensures k < |s| ==> IsSpace(s[k])
    ensures forall j :: 0 <= j < k ==> !IsSpace(s[j])
  {
    if |s| == 0 || IsSpace(s[0]) then 0 else 1 + SpaceIndex(s[1..])
  }

  /**
   * `s.split(/\s+/)`: the pieces between maximal white-space runs. Leading or
   * trailing white space yields an empty first or last piece, and `""` yields `[""]`.
   */
  function SplitSpaces(s: string): (r: seq<string>)
    ensures |r| >= 1
    ensures forall i :: 0 <= i < |r| ==> forall c :: c in r[i] ==> !IsSpace(c)
    decreases |s|
  {
    var k := SpaceIndex(s);
    if k == |s| then [s]
    else [s[..k]] + SplitSpaces(s[SkipSpace(s, k)..])
  }

  // ---------------------------------------------------------------- numbers

  function DigitChar(d: nat): (c: char)
    requires d < 10
    ensures IsDigit(c)
  {
    ('0' as int + d) as char
  }

  function DigitValue(c: char): (d: nat)
    requires IsDigit(c)
    ensures d < 10
  {
    c as int - '0' as int
  }

  predicate AllDigits(s: string) { forall i :: 0 <= i < |s| ==> IsDigit(s[i]) }

  /** Decimal rendering of a natural number, as `String(n)` gives it. */
  function NatToString(n: nat): (r: string)
    ensures |r| >= 1 && AllDigits(r)
    ensures |r| > 1 ==> r[0] != '0'
    ensures n < 10 ==> |r| == 1
    ensures 10 <= n < 100 ==> |r| == 2
    decreases n
  {
    if n < 10 then [DigitChar(n)] else NatToString(n / 10) + [DigitChar(n % 10)]
  }

  /** The value of a string of decimal digits. */
  function DigitsValue(s: string): nat
    requires AllDigits(s)
    decreases |s|
  {
    if |s| == 0 then 0 else DigitsValue(s[..|s| - 1]) * 10 + DigitValue(s[|s| - 1])
  }

  lemma {:induction false} NatToStringRoundTrip(n: nat)
    ensures DigitsValue(NatToString(n)) == n
    decreases n
  {
    if n >= 10 {
      var r := NatToString(n);
      assert r[..|r| - 1] == NatToString(n / 10);
      NatToStringRoundTrip(n / 10);
    }
  }

  /** `n.toString().padStart(2, '0')`. */
  function PadTwo(n: nat): (r: string)
    ensures AllDigits(r) && |r| >= 2
    ensures n < 100 ==> |r| == 2
  {
    var s := NatToString(n);
    if |s| < 2 then ['0'] + s else s
  }

  lemma PadTwoRoundTrip(n: nat)
    ensures DigitsValue(PadTwo(n)) == n
  {
    var s := NatToString(n);
    NatToStringRoundTrip(n);
    if |s| < 2 {
      assert PadTwo(n)[..1] == ['0'];
    }
  }

  /** Length of the run of decimal digits that begins `s`. */
  function DigitRun(s: string): (k: nat)
    ensures k <= |s|
    ensures AllDigits(s[..k])
    ensures k < |s| ==> !IsDigit(s[k])
  {
    if |s| > 0 && IsDigit(s[0]) then 1 + DigitRun(s[1..]) else 0
  }

  /**
   * `parseInt(s, 10)`: skip leading white space, read an optional sign and the
   * longest run of decimal digits after it; `None` stands for `NaN` (no digits).
   */
  function ParseInt(s: string): (r: Option<int>)
  {
    var t := s[SkipSpace(s, 0)..];
    var sign := if |t| > 0 && (t[0] == '+' || t[0] == '-') then 1 else 0;
    var body := t[sign..];
    var k := DigitRun(body);
    if k == 0 then None
    else
      var v: int := DigitsValue(body[..k]);
      Some(if sign == 1 && t[0] == '-' then -v else v)
  }

  lemma {:induction false} DigitRunOfDigits(d: string, suffix: string)
    requires AllDigits(d)
    requires |suffix| == 0 || !IsDigit(suffix[0])
    ensures DigitRun(d + suffix) == |d|
    decreases |d|
  {
    if |d| > 0 {
      assert (d + suffix)[1..] == d[1..] + suffix;
      DigitRunOfDigits(d[1..], suffix);
    }
  }

  /** `parseInt` reads back every decimal rendering, even with trailing text after it. */
  lemma ParseIntOfNat(n: nat, suffix: string)
    requires |suffix| == 0 || !IsDigit(suffix[0])
    ensures ParseInt(NatToString(n) + suffix) == Some(n)
  {
    var d := NatToString(n);
    var s := d + suffix;
    assert s[0] == d[0];
    assert SkipSpace(s, 0) == 0;
    DigitRunOfDigits(d, suffix);
    assert s[0..][..|d|] == d;
    NatToStringRoundTrip(n);
  }
}
