/** Percent-decoding as `decodeURIComponent` does it for ASCII: every `%XY`
    with two hexadecimal digits denoting a code below 0x80 becomes that
    character, every other character stays, and a `%` that does not start
    such an escape is malformed. */
module Uri {
  import opened Common

  predicate IsHexDigit(c: char) {
    '0' <= c <= '9' || 'a' <= c <= 'f' || 'A' <= c <= 'F'
  }

  function HexValue(c: char): (v: nat)
    requires IsHexDigit(c)
    ensures v < 16
  {
    if '0' <= c <= '9' then c as int - '0' as int
    else if 'a' <= c <= 'f' then c as int - 'a' as int + 10
    else c as int - 'A' as int + 10
  }

  /** The error `decodeURIComponent` throws, by its message. */
  const MALFORMED: string := "URI malformed"

  /** `s` starts with an escape `%XY` that decodes to one ASCII character. */
  predicate StartsWithEscape(s: string) {
    3 <= |s| && s[0] == '%' && IsHexDigit(s[1]) && IsHexDigit(s[2]) && HexValue(s[1]) < 8
  }

  function EscapedChar(s: string): char
    requires StartsWithEscape(s)
  {
    (HexValue(s[1]) * 16 + HexValue(s[2])) as char
  }

  /** `decodeURIComponent(s)`, or the error it throws. */
  function PercentDecode(s: string): (r: Result<string>)
    ensures r.Ok? ==> |r.value| <= |s|
    ensures r.Err? ==> r.error == MALFORMED
  {
    if s == [] then Ok([])
    else if s[0] != '%' then
      match PercentDecode(s[1..])
      case Ok(rest) => Ok([s[0]] + rest)
      case Err(e) => Err(e)
    else if StartsWithEscape(s) then
      match PercentDecode(s[3..])
      case Ok(rest) => Ok([EscapedChar(s)] + rest)
      case Err(e) => Err(e)
    else Err(MALFORMED)
  }

  /** `try { return decodeURIComponent(s) } catch { return s }`. */
  function DecodeOr(s: string): (r: string)
    ensures |r| <= |s|
    ensures '%' !in s ==> r == s
  {
    assert '%' !in s ==> PercentDecode(s) == Ok(s) by {
      if '%' !in s { DecodePlain(s); }
    }
    match PercentDecode(s)
    case Ok(d) => d
    case Err(_) => s
  }

  /** The characters a path must escape so that it reads back unchanged
      through the URL rules below: the escape sign itself, the query and
      fragment starts, the space, and the backslash a special URL reads as a
      slash. */
  predicate MustEscape(c: char) {
    c == '%' || c == '?' || c == '#' || c == ' ' || c == '\\'
  }

  function EncodeChar(c: char): (e: string)
    ensures |e| >= 1 && (e[0] == '%' <==> MustEscape(c))
    ensures forall i :: 0 <= i < |e| ==> !(e[i] in {'?', '#', ' ', '\\'})
  {
    if c == '%' then "%25"
    else if c == '?' then "%3F"
    else if c == '#' then "%23"
    else if c == ' ' then "%20"
    else if c == '\\' then "%5C"
    else [c]
  }

  /** Percent-encoding of exactly the characters of `MustEscape`. */
  function PercentEncode(s: string): (r: string)
    ensures forall i :: 0 <= i < |r| ==> !(r[i] in {'?', '#', ' ', '\\'})
  {
    if s == [] then [] else EncodeChar(s[0]) + PercentEncode(s[1..])
  }

  lemma DecodeEncodedChar(c: char, t: string)
    ensures PercentDecode(EncodeChar(c) + t) == match PercentDecode(t)
      case Ok(d) => Ok([c] + d)
      case Err(e) => Err(e)
  {
    var s := EncodeChar(c) + t;
    if MustEscape(c) {
      assert s[3..] == t;
      assert StartsWithEscape(s) && EscapedChar(s) == c;
    } else {
      assert s[1..] == t;
    }
  }

  /** Decoding undoes encoding, for every string. */
  lemma {:induction false} DecodeEncode(s: string)
    ensures PercentDecode(PercentEncode(s)) == Ok(s)
  {
    if s != [] {
      DecodeEncode(s[1..]);
      DecodeEncodedChar(s[0], PercentEncode(s[1..]));
      assert [s[0]] + s[1..] == s;
    }
  }

  /** A string without `%` decodes to itself. */
  lemma {:induction false} DecodePlain(s: string)
    requires '%' !in s
    ensures PercentDecode(s) == Ok(s)
  {
    if s != [] {
      DecodePlain(s[1..]);
      assert [s[0]] + s[1..] == s;
    }
  }

  /** A string with nothing to escape encodes to itself. */
  lemma {:induction false} EncodePlain(s: string)
    requires forall i :: 0 <= i < |s| ==> !MustEscape(s[i])
    ensures PercentEncode(s) == s
  {
    if s != [] {
      EncodePlain(s[1..]);
      assert [s[0]] + s[1..] == s;
    }
  }

  /** A `%` followed by something other than an ASCII escape makes decoding
      fail, whatever precedes it. */
  lemma {:induction false} DecodeMalformed(p: string, t: string)
    requires '%' !in p && |t| >= 1 && t[0] == '%' && !StartsWithEscape(t)
    ensures PercentDecode(p + t).Err? && DecodeOr(p + t) == p + t
  {
    if p != [] {
      DecodeMalformed(p[1..], t);
      assert (p + t)[1..] == p[1..] + t;
    } else {
      assert p + t == t;
    }
  }
}
