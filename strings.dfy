/** The few string operations of the JavaScript runtime the core relies on:
    decimal rendering of numbers, `padStart`, `startsWith`, `indexOf`,
    `includes` and `split(sep).pop()`. Strings are sequences of characters. */
module Strings {
  import opened Common

  predicate IsDigit(c: char) {
    '0' <= c <= '9'
  }

  predicate AllDigits(s: string) {
    forall i :: 0 <= i < |s| ==> IsDigit(s[i])
  }

  function DigitChar(d: nat): (c: char)
    requires d < 10
    ensures IsDigit(c) && c as int - '0' as int == d
  {
    ('0' as int + d) as char
  }

  /** Decimal rendering of a natural number, as `Number.prototype.toString`
      renders an integer-valued number. */
  function NatToString(n: nat): (s: string)
    ensures 1 <= |s|
    ensures AllDigits(s)
    ensures s[0] == '0' ==> n == 0
    decreases n
  {
    if n < 10 then [DigitChar(n)] else NatToString(n / 10) + [DigitChar(n % 10)]
  }

  /** The number a string of decimal digits denotes. */
  function DigitsValue(s: string): nat
    requires AllDigits(s)
  {
    if s == [] then 0 else DigitsValue(s[..|s| - 1]) * 10 + (s[|s| - 1] as int - '0' as int)
  }

  /** Reading a rendered number back gives the number. */
  lemma {:induction false} NatToStringRoundTrip(n: nat)
    ensures DigitsValue(NatToString(n)) == n
    decreases n
  {
    if n >= 10 {
      NatToStringRoundTrip(n / 10);
      var s := NatToString(n);
      assert s[..|s| - 1] == NatToString(n / 10);
    }
  }

  /** Distinct numbers render differently. */
  lemma NatToStringInjective(a: nat, b: nat)
    requires NatToString(a) == NatToString(b)
    ensures a == b
  {
    NatToStringRoundTrip(a);
    NatToStringRoundTrip(b);
  }

  /** Decimal rendering of an integer: a minus sign for negative numbers. */
  function IntToString(i: int): (s: string)
    ensures 1 <= |s|
    ensures (s[0] == '-') <==> i < 0
    ensures i >= 0 ==> s == NatToString(i)
  {
    if i < 0 then "-" + NatToString(-i) else NatToString(i)
  }

  /** `s.padStart(width, fill)` for a one-character fill. */
  function PadStart(s: string, width: nat, fill: char): (r: string)
    ensures |r| == if |s| >= width then |s| else width
    ensures r[|r| - |s|..] == s
    ensures forall i :: 0 <= i < |r| - |s| ==> r[i] == fill
  {
    if |s| >= width then s else seq(width - |s|, _ => fill) + s
  }

  /** `s.startsWith(prefix)`. */
  predicate StartsWith(s: string, prefix: string) {
    |prefix| <= |s| && s[..|prefix|] == prefix
  }

  /** Index of the first character of `s` that is in `stops`. */
  function IndexOfAny(s: string, stops: set<char>): (r: Option<nat>)
    ensures r.Some? ==> r.value < |s| && s[r.value] in stops
    ensures r.Some? ==> forall j :: 0 <= j < r.value ==> s[j] !in stops
    ensures r.None? ==> forall j :: 0 <= j < |s| ==> s[j] !in stops
  {
    if s == [] then None
    else if s[0] in stops then Some(0)
    else match IndexOfAny(s[1..], stops)
      case None => None
      case Some(k) => Some(k + 1)
  }

  /** The longest prefix of `s` holding none of `stops` (`s.slice(0, s.indexOf(c))`,
      or all of `s` when no stop occurs). */
  function TakeUntil(s: string, stops: set<char>): (r: string)
    ensures |r| <= |s| && r == s[..|r|]
    ensures forall j :: 0 <= j < |r| ==> r[j] !in stops
    ensures |r| < |s| ==> s[|r|] in stops
  {
    match IndexOfAny(s, stops)
    case None => s
    case Some(i) => s[..i]
  }

  /** The prefix before a stop is found however the text goes on after it. */
  lemma TakeUntilPrefix(a: string, b: string, stops: set<char>)
    requires forall i :: 0 <= i < |a| ==> a[i] !in stops
    requires b == [] || b[0] in stops
    ensures TakeUntil(a + b, stops) == a
  {
    assert forall k :: 0 <= k < |a| ==> (a + b)[k] == a[k];
    assert b != [] ==> (a + b)[|a|] == b[0];
  }

  /** The first stop is the one that ends a stop-free prefix. */
  lemma FirstStop(a: string, b: string, stops: set<char>)
    requires forall i :: 0 <= i < |a| ==> a[i] !in stops
    requires |b| >= 1 && b[0] in stops
    ensures IndexOfAny(a + b, stops) == Some(|a|)
  {
    assert (a + b)[|a|] == b[0];
    assert forall k :: 0 <= k < |a| ==> (a + b)[k] == a[k];
  }

  /** Text without a colon holds no `://`. */
  lemma NoColonNoScheme(s: string)
    requires ':' !in s
    ensures !Includes(s, "://")
  {
    assert forall j: nat :: OccursAt(s, "://", j) ==> s[j] == ':';
  }

  /** `pat` occurs in `s` at position `i`. */
  predicate OccursAt(s: string, pat: string, i: nat) {
    i + |pat| <= |s| && s[i..i + |pat|] == pat
  }

  /** Index of the first occurrence of `pat` in `s` (`s.indexOf(pat)`). */
  function IndexOfSub(s: string, pat: string): (r: Option<nat>)
    ensures r.Some? ==> OccursAt(s, pat, r.value)
    ensures r.Some? ==> forall j: nat :: j < r.value ==> !OccursAt(s, pat, j)
    ensures r.None? ==> forall j: nat :: !OccursAt(s, pat, j)
    decreases |s|
  {
    if |s| < |pat| then None
    else if s[..|pat|] == pat then Some(0)
    else
      ShiftOccurs(s, pat);
      match IndexOfSub(s[1..], pat)
      case None => None
      case Some(k) => Some(k + 1)
  }

  lemma ShiftOccurs(s: string, pat: string)
    requires 1 <= |s| && !OccursAt(s, pat, 0)
    ensures forall j: nat :: OccursAt(s[1..], pat, j) <==> OccursAt(s, pat, j + 1)
    ensures forall j: nat :: OccursAt(s, pat, j) ==> j >= 1 && OccursAt(s[1..], pat, j - 1)
  {
    forall j: nat ensures OccursAt(s[1..], pat, j) <==> OccursAt(s, pat, j + 1) {
      if j + |pat| <= |s[1..]| {
        var shifted, inner := s[1..][j..j + |pat|], s[j + 1..j + 1 + |pat|];
        assert |shifted| == |inner|;
        forall t | 0 <= t < |shifted| ensures shifted[t] == inner[t] {
          assert shifted[t] == s[j + 1 + t];
        }
        assert shifted == inner;
      }
    }
    forall j: nat | OccursAt(s, pat, j) ensures j >= 1 && OccursAt(s[1..], pat, j - 1) {
      assert OccursAt(s, pat, (j - 1) + 1);
    }
  }

  /** `s.includes(pat)`. */
  predicate Includes(s: string, pat: string) {
    IndexOfSub(s, pat).Some?
  }

  /** `s.split(sep).pop()`: the text after the last `sep`, all of `s` when
      `sep` does not occur. */
  function LastSegment(s: string, sep: char): (r: string)
    ensures |r| <= |s| && r == s[|s| - |r|..]
    ensures sep !in r
    ensures |r| < |s| ==> s[|s| - |r| - 1] == sep
  {
    if s == [] then []
    else if s[|s| - 1] == sep then []
    else LastSegment(s[..|s| - 1], sep) + [s[|s| - 1]]
  }

  /** `s.endsWith(suffix)`. */
  predicate EndsWith(s: string, suffix: string) {
    |suffix| <= |s| && s[|s| - |suffix|..] == suffix
  }

  /** A suffix of `b` is a suffix of `a + b`; `b` is one. */
  lemma EndsWithConcat(a: string, b: string, suffix: string)
    requires EndsWith(b, suffix)
    ensures EndsWith(a + b, suffix) && EndsWith(a + b, b)
  {
    assert (a + b)[|a + b| - |suffix|..] == b[|b| - |suffix|..];
    assert (a + b)[|a|..] == b;
  }

  /** The last segment of `before`, `sep`, `seg` is `seg` when `seg` holds
      no `sep`. */
  lemma {:induction false} LastSegmentAfter(before: string, sep: char, seg: string)
    requires sep !in seg
    ensures LastSegment(before + [sep] + seg, sep) == seg
  {
    var s := before + [sep] + seg;
    if seg != [] {
      var init := seg[..|seg| - 1];
      assert s[..|s| - 1] == before + [sep] + init;
      assert sep !in init by {
        assert forall i :: 0 <= i < |init| ==> init[i] == seg[i];
      }
      LastSegmentAfter(before, sep, init);
      assert init + [seg[|seg| - 1]] == seg;
    }
  }

  /** Splitting off the last segment: `s` is the text before its last `sep`,
      the separator, and the segment. */
  lemma LastSegmentSplits(s: string, sep: char)
    requires sep in s
    ensures var r := LastSegment(s, sep);
      |r| < |s| && s == s[..|s| - |r| - 1] + [sep] + r
  {
  }
}
