/** The cloud storage helper without its host: the path extraction that
    `deleteImage` relies on, the cloud path and request `uploadImage` builds,
    the classification of the host's upload and delete responses, and the
    aggregation of `uploadMultipleImages`. The clock, the random draw and
    every host response are inputs. */
module Cloud {
  import opened Common
  import opened Strings
  import opened Uri
  import Lists

  const CLOUD_ENV_ID: string := "default"
  const CLOUD_UPLOAD_URL: string := "https://" + CLOUD_ENV_ID + ".tcb.qcloud.la/upload"
  /** Milliseconds an upload may take before it is reported as timed out. */
  const UPLOAD_TIMEOUT: nat := 30000

  // ---------------------------------------------------------------------
  // extractCloudPath

  predicate IsSchemeStart(c: char) {
    'a' <= c <= 'z' || 'A' <= c <= 'Z'
  }

  predicate IsSchemeChar(c: char) {
    IsSchemeStart(c) || '0' <= c <= '9' || c == '+' || c == '-' || c == '.'
  }

  /** A URL scheme: a letter, then letters, digits, `+`, `-` or `.`. */
  predicate IsScheme(s: string) {
    |s| >= 1 && IsSchemeStart(s[0]) && forall i :: 1 <= i < |s| ==> IsSchemeChar(s[i])
  }

  /** `c` in lower case, for ASCII letters. */
  function LowerAscii(c: char): char {
    if 'A' <= c <= 'Z' then (c as int - 'A' as int + 'a' as int) as char else c
  }

  /** `s` spells the lower-case word `w`, ignoring the case of its letters. */
  predicate SpellsIgnoringCase(s: string, w: string) {
    |s| == |w| && forall i :: 0 <= i < |s| ==> LowerAscii(s[i]) == w[i]
  }

  /** The special schemes whose URLs always have a non-empty host, whatever
      the number of slashes before it; `file` is left to the general rules. */
  predicate IsSpecialScheme(s: string) {
    SpellsIgnoringCase(s, "http") || SpellsIgnoringCase(s, "https") || SpellsIgnoringCase(s, "ws") ||
    SpellsIgnoringCase(s, "wss") || SpellsIgnoringCase(s, "ftp")
  }

  /** A special URL reads `\` as `/`. */
  predicate IsSlash(c: char) {
    c == '/' || c == '\\'
  }

  /** What is left once the leading slashes are skipped. */
  function DropSlashes(s: string): (r: string)
    ensures |r| <= |s| && r == s[|s| - |r|..]
    ensures r == [] || !IsSlash(r[0])
    ensures forall i :: 0 <= i < |s| - |r| ==> IsSlash(s[i])
  {
    if s != [] && IsSlash(s[0]) then DropSlashes(s[1..]) else s
  }

  /** A special URL's path, with every backslash read as a slash. */
  function SlashBackslashes(p: string): (r: string)
    ensures |r| == |p|
    ensures forall i :: 0 <= i < |p| ==> r[i] == if p[i] == '\\' then '/' else p[i]
    ensures '?' !in p && '#' !in p ==> '?' !in r && '#' !in r
    ensures '\\' !in p ==> r == p
  {
    seq(|p|, i requires 0 <= i < |p| => if p[i] == '\\' then '/' else p[i])
  }

  /** What a special URL keeps of its text once the slashes after the colon
      are skipped: the host runs to the next slash, `?` or `#` and must not
      be empty, and the path runs from there to the first `?` or `#`. */
  function SpecialPath(authority: string): (p: Option<string>)
    ensures p.Some? ==> '?' !in p.value && '#' !in p.value
  {
    var host := TakeUntil(authority, {'/', '\\', '?', '#'});
    if host == [] then None
    else Some(SlashBackslashes(TakeUntil(authority[|host|..], {'?', '#'})))
  }

  /** The pathname the URL parser finds in what follows `scheme:`, or `None`
      when it refuses the URL. With a special scheme every slash after the
      colon is skipped first. With any other scheme, after `//` the host runs
      to the first `/`, `?` or `#` and may be empty, and the path runs from
      there to the first `?` or `#`; without `//` the path is everything
      before the first `?` or `#`. */
  function Pathname(scheme: string, rest: string): (p: Option<string>)
    ensures p.Some? ==> '?' !in p.value && '#' !in p.value
  {
    if IsSpecialScheme(scheme) then SpecialPath(DropSlashes(rest))
    else if StartsWith(rest, "//") then
      var authority := rest[2..];
      var host := TakeUntil(authority, {'/', '?', '#'});
      Some(TakeUntil(authority[|host|..], {'?', '#'}))
    else Some(TakeUntil(rest, {'?', '#'}))
  }

  /** Remove one leading `/`. */
  function StripSlash(p: string): string {
    if |p| > 0 && p[0] == '/' then p[1..] else p
  }

  /** The characters `.` does not match in a regular expression. */
  predicate IsLineTerminator(c: char) {
    c == '\n' || c == '\r' || c == '\U{2028}' || c == '\U{2029}'
  }

  /** The part `[^/]+\/(.+?)(?:\?.*)?$` of the fallback pattern, on what
      follows `://`: a non-empty host without `/`, a `/`, then a non-empty
      tail free of line terminators, of which the capture is everything
      before the first `?` that is not its first character. */
  function HostAndPath(after: string): (m: Option<string>)
    ensures m.Some? ==> |m.value| >= 1
  {
    var host := TakeUntil(after, {'/'});
    if host == [] || |host| == |after| then None
    else
      var tail := after[|host| + 1..];
      if tail == [] || exists i :: 0 <= i < |tail| && IsLineTerminator(tail[i]) then None
      else Some([tail[0]] + TakeUntil(tail[1..], {'?'}))
  }

  /** The fallback pattern `^[^:]+:\/\/[^/]+\/(.+?)(?:\?.*)?$` and its
      capture: the text before the first `:` must be non-empty and be
      followed by `://`. */
  function FallbackMatch(url: string): (m: Option<string>)
    ensures m.Some? ==> |m.value| >= 1
  {
    match IndexOfAny(url, {':'})
    case None => None
    case Some(c) =>
      if c == 0 || !StartsWith(url[c..], "://") then None
      else HostAndPath(url[c + 3..])
  }

  /** `extractCloudPath`: the decoded storage path an image URL names, or
      `""` when it names none. A string without `://` is already a path, less
      its query. A URL with a valid scheme that the parser accepts loses the
      leading `/` of its pathname. Anything else goes through the fallback
      pattern. */
  function ExtractCloudPath(url: string): string {
    if url == [] then []
    else if !Includes(url, "://") then DecodeOr(TakeUntil(url, {'?'}))
    else
      var colon := IndexOfAny(url, {':'});
      var parsed := if colon.Some? && IsScheme(url[..colon.value])
        then Pathname(url[..colon.value], url[colon.value + 1..]) else None;
      match parsed
      case Some(p) => DecodeOr(StripSlash(p))
      case None =>
        match FallbackMatch(url)
        case None => []
        case Some(m) => DecodeOr(m)
  }

  /** A path that holds no `://`, no `?` and no `%` is its own cloud path,
      and a query after it is dropped. */
  lemma BarePath(p: string, query: string)
    requires '?' !in p && '%' !in p && !Includes(p + query, "://")
    requires query == [] || query[0] == '?'
    ensures ExtractCloudPath(p + query) == p
  {
    TakeUntilPrefix(p, query, {'?'});
    DecodePlain(p);
  }

  /** A path without `:`, `?` or `%` is its own cloud path. */
  lemma BareWholePath(p: string)
    requires ':' !in p && '?' !in p && '%' !in p
    ensures ExtractCloudPath(p) == p
  {
    assert p + [] == p;
    NoColonNoScheme(p);
    BarePath(p, []);
  }

  /** `prefix:` followed by `//`: the first colon ends `prefix`, and `://`
      occurs. */
  lemma SplitAtColon(prefix: string, rest: string)
    requires ':' !in prefix && StartsWith(rest, "//")
    ensures var url := prefix + ":" + rest;
      IndexOfAny(url, {':'}) == Some(|prefix|) && url[..|prefix|] == prefix &&
      url[|prefix| + 1..] == rest && StartsWith(url[|prefix|..], "://") &&
      Includes(url, "://")
  {
    var url := prefix + ":" + rest;
    assert url == prefix + (":" + rest);
    FirstStop(prefix, ":" + rest, {':'});
    assert url[..|prefix|] == prefix;
    assert url[|prefix| + 1..] == rest;
    assert url[|prefix|..][..3] == "://";
    assert OccursAt(url, "://", |prefix|);
  }

  /** A URL whose scheme is valid is parsed: its pathname, less the leading
      `/`, decoded; when the parser refuses it, the fallback pattern decides. */
  lemma SchemeBranch(scheme: string, rest: string)
    requires IsScheme(scheme) && StartsWith(rest, "//")
    ensures ExtractCloudPath(scheme + ":" + rest) ==
      match Pathname(scheme, rest)
      case Some(p) => DecodeOr(StripSlash(p))
      case None =>
        match FallbackMatch(scheme + ":" + rest)
        case None => []
        case Some(m) => DecodeOr(m)
  {
    assert forall i :: 0 <= i < |scheme| ==> IsSchemeChar(scheme[i]);
    SplitAtColon(scheme, rest);
  }

  /** A URL whose text before `:` is no scheme goes through the fallback
      pattern. */
  lemma FallbackBranch(prefix: string, rest: string)
    requires |prefix| >= 1 && ':' !in prefix && !IsScheme(prefix) && StartsWith(rest, "//")
    ensures ExtractCloudPath(prefix + ":" + rest) ==
      match HostAndPath(rest[2..])
      case None => []
      case Some(m) => DecodeOr(m)
  {
    SplitAtColon(prefix, rest);
    var url := prefix + ":" + rest;
    assert url[|prefix| + 3..] == rest[2..];
  }

  /** With a scheme that is not special, after `//` the host runs up to the
      `/` that starts the path. */
  lemma PathnameOfPlain(scheme: string, host: string, p: string, query: string)
    requires !IsSpecialScheme(scheme)
    requires forall i :: 0 <= i < |host| ==> host[i] != '/' && host[i] != '?' && host[i] != '#'
    requires '?' !in p && '#' !in p
    requires query == [] || query[0] == '?'
    ensures Pathname(scheme, "//" + host + "/" + p + query) == Some("/" + p)
  {
    var rest := "//" + host + "/" + p + query;
    assert rest[..2] == "//";
    var authority := rest[2..];
    assert authority == host + ("/" + p + query);
    TakeUntilPrefix(host, "/" + p + query, {'/', '?', '#'});
    assert authority[|host|..] == ("/" + p) + query;
    PathStopFree(p);
    TakeUntilPrefix("/" + p, query, {'?', '#'});
  }

  /** `/` and a path free of `?` and `#` hold no `?` or `#`. */
  lemma PathStopFree(p: string)
    requires '?' !in p && '#' !in p
    ensures forall i :: 0 <= i < |"/" + p| ==> ("/" + p)[i] !in {'?', '#'}
  {
    forall i | 0 <= i < |"/" + p| ensures ("/" + p)[i] !in {'?', '#'} {
      if i > 0 { assert ("/" + p)[i] == p[i - 1]; }
    }
  }

  /** Two slashes before a text that starts with no slash are skipped. */
  lemma DropTwoSlashes(authority: string)
    requires authority != [] && !IsSlash(authority[0])
    ensures DropSlashes("//" + authority) == authority
  {
    var rest := "//" + authority;
    assert rest[1..] == "/" + authority && ("/" + authority)[1..] == authority;
  }

  /** A non-empty host without slashes runs up to the `/` that starts the
      path. */
  lemma SpecialPathOf(host: string, p: string, query: string)
    requires |host| >= 1 && forall i :: 0 <= i < |host| ==> host[i] !in {'/', '\\', '?', '#'}
    requires '?' !in p && '#' !in p && '\\' !in p
    requires query == [] || query[0] == '?'
    ensures SpecialPath(host + "/" + p + query) == Some("/" + p)
  {
    var authority := host + "/" + p + query;
    assert authority == host + ("/" + p + query);
    TakeUntilPrefix(host, "/" + p + query, {'/', '\\', '?', '#'});
    assert authority[|host|..] == ("/" + p) + query;
    PathStopFree(p);
    TakeUntilPrefix("/" + p, query, {'?', '#'});
    assert '\\' !in "/" + p by {
      assert forall i :: 1 <= i < |"/" + p| ==> ("/" + p)[i] == p[i - 1];
    }
  }

  /** With a special scheme the two slashes are skipped, and a non-empty host
      without slashes runs up to the `/` that starts the path. */
  lemma PathnameOfSpecial(scheme: string, host: string, p: string, query: string)
    requires IsSpecialScheme(scheme)
    requires |host| >= 1 && forall i :: 0 <= i < |host| ==> host[i] !in {'/', '\\', '?', '#'}
    requires '?' !in p && '#' !in p && '\\' !in p
    requires query == [] || query[0] == '?'
    ensures Pathname(scheme, "//" + host + "/" + p + query) == Some("/" + p)
  {
    var authority := host + "/" + p + query;
    assert "//" + host + "/" + p + query == "//" + authority;
    assert authority[0] == host[0];
    DropTwoSlashes(authority);
    SpecialPathOf(host, p, query);
  }

  /** A URL `scheme://host/path?query` gives back its path: the host and the
      query are dropped and the percent-encoded path is decoded. A special
      scheme needs a host, since its parser skips slashes until one starts. */
  lemma SchemeUrlPath(scheme: string, host: string, path: string, query: string)
    requires IsScheme(scheme)
    requires forall i :: 0 <= i < |host| ==> host[i] != '/' && host[i] != '?' && host[i] != '#'
    requires IsSpecialScheme(scheme) ==> |host| >= 1 && '\\' !in host
    requires query == [] || query[0] == '?'
    ensures ExtractCloudPath(scheme + "://" + host + "/" + PercentEncode(path) + query) == path
  {
    var encoded := PercentEncode(path);
    var rest := "//" + host + "/" + encoded + query;
    assert scheme + "://" + host + "/" + encoded + query == scheme + ":" + rest;
    assert rest[..2] == "//";
    SchemeBranch(scheme, rest);
    if IsSpecialScheme(scheme) {
      PathnameOfSpecial(scheme, host, encoded, query);
    } else {
      PathnameOfPlain(scheme, host, encoded, query);
    }
    assert StripSlash("/" + encoded) == encoded;
    DecodeEncode(path);
  }

  /** `prefix://host/mid query` as `prefix`, the colon, and the rest; only a
      regrouping, split off to keep each proof small. */
  lemma Regroup(prefix: string, host: string, mid: string, query: string)
    ensures prefix + "://" + host + "/" + mid + query == prefix + ":" + ("//" + (host + "/" + mid + query))
  {
  }

  /** Encoding keeps a path free of line terminators. */
  lemma {:induction false} EncodeNoTerminator(s: string)
    requires forall i :: 0 <= i < |s| ==> !IsLineTerminator(s[i])
    ensures forall i :: 0 <= i < |PercentEncode(s)| ==> !IsLineTerminator(PercentEncode(s)[i])
  {
    if s != [] {
      EncodeNoTerminator(s[1..]);
      var e := EncodeChar(s[0]);
      assert forall i :: 0 <= i < |e| ==> !IsLineTerminator(e[i]);
      assert PercentEncode(s) == e + PercentEncode(s[1..]);
    }
  }

  lemma NoTerminatorConcat(a: string, b: string)
    requires forall i :: 0 <= i < |a| ==> !IsLineTerminator(a[i])
    requires forall i :: 0 <= i < |b| ==> !IsLineTerminator(b[i])
    ensures forall i :: 0 <= i < |a + b| ==> !IsLineTerminator((a + b)[i])
  {
    forall i | 0 <= i < |a + b| ensures !IsLineTerminator((a + b)[i]) {
      if i < |a| { assert (a + b)[i] == a[i]; } else { assert (a + b)[i] == b[i - |a|]; }
    }
  }

  /** The host of the fallback pattern runs to the first `/`. */
  lemma HostThenRest(host: string, rest: string)
    requires |host| >= 1 && '/' !in host
    ensures TakeUntil(host + "/" + rest, {'/'}) == host
    ensures (host + "/" + rest)[|host| + 1..] == rest
  {
    assert host + "/" + rest == host + ("/" + rest);
    TakeUntilPrefix(host, "/" + rest, {'/'});
  }

  /** The lazy capture takes the first character and everything up to the
      query. */
  lemma CaptureBeforeQuery(encoded: string, query: string)
    requires |encoded| >= 1 && '?' !in encoded
    requires query == [] || query[0] == '?'
    ensures [(encoded + query)[0]] + TakeUntil((encoded + query)[1..], {'?'}) == encoded
  {
    assert (encoded + query)[1..] == encoded[1..] + query;
    TakeUntilPrefix(encoded[1..], query, {'?'});
    assert [encoded[0]] + encoded[1..] == encoded;
  }

  /** The fallback capture of `host/encoded?query`. */
  lemma HostAndPathOf(host: string, encoded: string, query: string)
    requires |host| >= 1 && '/' !in host
    requires |encoded| >= 1 && '?' !in encoded
    requires query == [] || query[0] == '?'
    requires forall i :: 0 <= i < |encoded + query| ==> !IsLineTerminator((encoded + query)[i])
    ensures HostAndPath(host + "/" + encoded + query) == Some(encoded)
  {
    var rest := encoded + query;
    assert host + "/" + encoded + query == host + "/" + rest;
    HostThenRest(host, rest);
    CaptureBeforeQuery(encoded, query);
  }

  /** With a text before `://` that is no scheme, the fallback pattern keeps
      everything after the host up to the query, decoded. */
  lemma FallbackEncoded(prefix: string, host: string, encoded: string, query: string)
    requires |prefix| >= 1 && ':' !in prefix && !IsScheme(prefix)
    requires |host| >= 1 && '/' !in host
    requires |encoded| >= 1 && '?' !in encoded
    requires query == [] || query[0] == '?'
    requires forall i :: 0 <= i < |encoded + query| ==> !IsLineTerminator((encoded + query)[i])
    ensures ExtractCloudPath(prefix + "://" + host + "/" + encoded + query) == DecodeOr(encoded)
  {
    var rest := "//" + (host + "/" + encoded + query);
    Regroup(prefix, host, encoded, query);
    assert rest[..2] == "//" && rest[2..] == host + "/" + encoded + query;
    FallbackBranch(prefix, rest);
    HostAndPathOf(host, encoded, query);
  }

  /** With a text before `://` that is no scheme, the fallback pattern takes
      over and gives back the path, as a scheme URL does. */
  lemma FallbackPath(prefix: string, host: string, path: string, query: string)
    requires |prefix| >= 1 && ':' !in prefix && !IsScheme(prefix)
    requires |host| >= 1 && '/' !in host
    requires |path| >= 1 && forall i :: 0 <= i < |path| ==> !IsLineTerminator(path[i])
    requires query == [] || query[0] == '?'
    requires forall i :: 0 <= i < |query| ==> !IsLineTerminator(query[i])
    ensures ExtractCloudPath(prefix + "://" + host + "/" + PercentEncode(path) + query) == path
  {
    var encoded := PercentEncode(path);
    EncodeNoTerminator(path);
    NoTerminatorConcat(encoded, query);
    FallbackEncoded(prefix, host, encoded, query);
    DecodeEncode(path);
  }

  /** Encoding distributes over concatenation. */
  lemma {:induction false} EncodeAppend(a: string, b: string)
    ensures PercentEncode(a + b) == PercentEncode(a) + PercentEncode(b)
  {
    if a != [] {
      EncodeAppend(a[1..], b);
      assert (a + b)[1..] == a[1..] + b;
    } else {
      assert a + b == b;
    }
  }

  lemma PlainLongName()
    ensures PercentEncode("path/to/abc-123.jpg") == "path/to/abc-123.jpg"
  {
    EncodePlain("path/to/abc-123.jpg");
  }

  lemma PlainShortName()
    ensures PercentEncode("abc-123.jpg") == "abc-123.jpg"
  {
    EncodePlain("abc-123.jpg");
  }

  /** Two plain words around one space encode to the words around `%20`. */
  lemma EncodeSpaced(a: string, b: string)
    requires forall i :: 0 <= i < |a| ==> !MustEscape(a[i])
    requires forall i :: 0 <= i < |b| ==> !MustEscape(b[i])
    ensures PercentEncode(a + [' '] + b) == a + "%20" + b
  {
    EncodePlain(a);
    EncodePlain(b);
    EncodeAppend(a, [' '] + b);
    EncodeAppend([' '], b);
    assert [' '][1..] == [];
    assert PercentEncode([' ']) == EncodeChar(' ') + PercentEncode([]);
    assert a + [' '] + b == a + ([' '] + b);
    Lists.Associate(a, "%20", b);
  }

  // Only splits a literal equality off the examples, to keep each proof small.
  lemma SpacedSpelling()
    ensures "abc" + [' '] + "def.jpg" == "abc def.jpg"
    ensures "abc" + "%20" + "def.jpg" == "abc%20def.jpg"
  {
  }

  lemma SpacedName()
    ensures PercentEncode("abc def.jpg") == "abc%20def.jpg"
  {
    EncodeSpaced("abc", "def.jpg");
    SpacedSpelling();
  }

  /** The helper's own example URLs, spelled out as their parts; each of
      these only splits a literal equality off the examples, to keep each
      proof small. */
  lemma SpelledHttpsQuery()
    ensures "https://example.com/path/to/abc-123.jpg?sign=xxx" ==
      "https" + "://" + "example.com" + "/" + "path/to/abc-123.jpg" + "?sign=xxx"
  {
  }

  lemma SpelledExampleOrigin()
    ensures "https" + "://" + "example.com" + "/" == "https://example.com/"
  {
  }

  lemma SpelledParametersTail()
    ensures "https://example.com/abc-123.jpg?sign=xxx&token=yyy" ==
      "https://example.com/" + ("abc-123.jpg" + "?sign=xxx&token=yyy")
  {
  }

  lemma SpelledHttpsParameters()
    ensures "https://example.com/abc-123.jpg?sign=xxx&token=yyy" ==
      "https" + "://" + "example.com" + "/" + "abc-123.jpg" + "?sign=xxx&token=yyy"
  {
    SpelledExampleOrigin();
    SpelledParametersTail();
  }

  lemma SpelledHttpsPlain()
    ensures "https://example.com/abc-123.jpg" ==
      "https" + "://" + "example.com" + "/" + "abc-123.jpg" + ""
  {
  }

  lemma SpelledCloudScheme()
    ensures "cloud://env-id.123/path/to/abc-123.jpg?sign=xxx" ==
      "cloud" + "://" + "env-id.123" + "/" + "path/to/abc-123.jpg" + "?sign=xxx"
  {
  }

  lemma SpelledEscaped()
    ensures "https://example.com/abc%20def.jpg?sign=xxx" ==
      "https" + "://" + "example.com" + "/" + "abc%20def.jpg" + "?sign=xxx"
  {
  }

  /** An `https` URL with a query loses its host and query. */
  lemma ExampleHttpsQuery()
    ensures ExtractCloudPath("https://example.com/path/to/abc-123.jpg?sign=xxx") == "path/to/abc-123.jpg"
  {
    SchemeUrlPath("https", "example.com", "path/to/abc-123.jpg", "?sign=xxx");
    PlainLongName();
    SpelledHttpsQuery();
  }

  /** A query of several parameters is dropped whole. */
  lemma ExampleHttpsParameters()
    ensures ExtractCloudPath("https://example.com/abc-123.jpg?sign=xxx&token=yyy") == "abc-123.jpg"
  {
    SchemeUrlPath("https", "example.com", "abc-123.jpg", "?sign=xxx&token=yyy");
    PlainShortName();
    SpelledHttpsParameters();
  }

  /** Without a query only the host goes. */
  lemma ExampleHttpsPlain()
    ensures ExtractCloudPath("https://example.com/abc-123.jpg") == "abc-123.jpg"
  {
    SchemeUrlPath("https", "example.com", "abc-123.jpg", "");
    PlainShortName();
    SpelledHttpsPlain();
  }

  /** A `cloud://` URL drops its environment id like any host. */
  lemma ExampleCloudScheme()
    ensures ExtractCloudPath("cloud://env-id.123/path/to/abc-123.jpg?sign=xxx") == "path/to/abc-123.jpg"
  {
    SchemeUrlPath("cloud", "env-id.123", "path/to/abc-123.jpg", "?sign=xxx");
    PlainLongName();
    SpelledCloudScheme();
  }

  /** An escape in the path is decoded. */
  lemma ExampleEscaped()
    ensures ExtractCloudPath("https://example.com/abc%20def.jpg?sign=xxx") == "abc def.jpg"
  {
    SchemeUrlPath("https", "example.com", "abc def.jpg", "?sign=xxx");
    SpacedName();
    SpelledEscaped();
  }

  /** A bare path is kept. */
  lemma ExampleBarePath()
    ensures ExtractCloudPath("clothing/abc-123.jpg") == "clothing/abc-123.jpg"
  {
    BareWholePath("clothing/abc-123.jpg");
  }

  lemma HttpsIsSpecial()
    ensures IsScheme("https") && IsSpecialScheme("https")
  {
    assert SpellsIgnoringCase("https", "https");
  }

  /** Leading slashes are skipped whatever follows them. */
  lemma {:induction false} DropLeadingSlashes(pre: string, x: string)
    requires forall i :: 0 <= i < |pre| ==> IsSlash(pre[i])
    ensures DropSlashes(pre + x) == DropSlashes(x)
  {
    if pre != [] {
      assert (pre + x)[1..] == pre[1..] + x;
      DropLeadingSlashes(pre[1..], x);
    } else {
      assert pre + x == x;
    }
  }

  /** A valid scheme whose parse succeeds: the pathname decides. */
  lemma SchemeAccepted(scheme: string, rest: string, p: string)
    requires IsScheme(scheme) && StartsWith(rest, "//") && Pathname(scheme, rest) == Some(p)
    ensures ExtractCloudPath(scheme + ":" + rest) == DecodeOr(StripSlash(p))
  {
    SchemeBranch(scheme, rest);
  }

  /** A valid scheme whose parse fails: the fallback pattern decides. */
  lemma SchemeRefused(scheme: string, rest: string)
    requires IsScheme(scheme) && StartsWith(rest, "//") && Pathname(scheme, rest).None?
    ensures ExtractCloudPath(scheme + ":" + rest) ==
      match FallbackMatch(scheme + ":" + rest)
      case None => []
      case Some(m) => DecodeOr(m)
  {
    SchemeBranch(scheme, rest);
  }

  /** A host alone leaves an empty special path. */
  lemma SpecialPathHostOnly(host: string)
    requires |host| >= 1 && forall i :: 0 <= i < |host| ==> host[i] !in {'/', '\\', '?', '#'}
    ensures SpecialPath(host) == Some([])
  {
    TakeUntilPrefix(host, [], {'/', '\\', '?', '#'});
    assert host + [] == host;
  }

  /** Slashes beyond the two after a special scheme are skipped, so in
      `scheme:///host` the host is what follows them and the path is empty. */
  lemma SpecialExtraSlashes(scheme: string, host: string)
    requires IsScheme(scheme) && IsSpecialScheme(scheme)
    requires |host| >= 1 && forall i :: 0 <= i < |host| ==> host[i] !in {'/', '\\', '?', '#'}
    ensures ExtractCloudPath(scheme + ":///" + host) == ""
  {
    var rest := "///" + host;
    assert scheme + ":///" + host == scheme + ":" + rest;
    assert rest[..2] == "//";
    DropLeadingSlashes("///", host);
    assert !IsSlash(host[0]);
    assert DropSlashes(host) == host;
    SpecialPathHostOnly(host);
    SchemeAccepted(scheme, rest, []);
  }

  // Only regroups a concatenation, to keep each proof small.
  lemma ColonSlashes(s: string)
    ensures s + "://" == s + ":" + "//"
  {
  }

  /** Without a host the fallback pattern does not match. */
  lemma FallbackNoHost(prefix: string)
    requires |prefix| >= 1 && ':' !in prefix
    ensures FallbackMatch(prefix + ":" + "//") == None
  {
    SplitAtColon(prefix, "//");
    assert (prefix + ":" + "//")[|prefix| + 3..] == [];
  }

  /** Two slashes alone leave no special path. */
  lemma SpecialPathSlashesOnly()
    ensures SpecialPath(DropSlashes("//")) == None
  {
    DropLeadingSlashes("//", []);
    assert "//" + [] == "//";
  }

  /** A special URL with no host at all is refused, and the fallback pattern
      finds no host either. */
  lemma SpecialMissingHost(scheme: string)
    requires IsScheme(scheme) && IsSpecialScheme(scheme)
    ensures ExtractCloudPath(scheme + "://") == ""
  {
    assert ':' !in scheme by {
      assert forall i :: 0 <= i < |scheme| ==> IsSchemeChar(scheme[i]);
    }
    SpecialPathSlashesOnly();
    SchemeRefused(scheme, "//");
    FallbackNoHost(scheme);
    ColonSlashes(scheme);
  }

  // Only splits a literal equality off the examples, to keep each proof small.
  lemma SpelledExtraSlashes()
    ensures "https" + ":///" + "x" == "https:///x"
    ensures "https" + "://" == "https://"
  {
  }

  /** `https:///x` names the host `x` and no path; `https://` names nothing. */
  lemma ExampleSpecialSlashes()
    ensures ExtractCloudPath("https:///x") == ""
    ensures ExtractCloudPath("https://") == ""
  {
    HttpsIsSpecial();
    SpecialExtraSlashes("https", "x");
    SpecialMissingHost("https");
    SpelledExtraSlashes();
  }

  // ---------------------------------------------------------------------
  // uploadImage: the cloud path, the request, the response classification

  /** A file picked for upload: its declared name and, when the picker gave
      one, its local temporary path. */
  datatype UploadFile = UploadFile(name: string, tempFilePath: Option<string>)

  /** `Math.floor(draw * 10000)` for a random draw in [0, 1). */
  function RandomSuffix(draw: real): (r: nat)
    requires 0.0 <= draw < 1.0
    ensures r < 10000
    ensures r as real <= draw * 10000.0 < r as real + 1.0
  {
    (draw * 10000.0).Floor
  }

  /** `name.split('.').pop() || 'jpg'`: the text after the last `.`, the whole
      name when it has no `.`, and `jpg` when that text is empty. */
  function FileExtension(name: string): (ext: string)
    ensures |ext| >= 1 && '.' !in ext
    ensures ext == "jpg" || (EndsWith(name, ext) && (|ext| == |name| || name[|name| - |ext| - 1] == '.'))
  {
    var last := LastSegment(name, '.');
    if last == [] then "jpg" else last
  }

  /** The extension is the text after the last dot, when there is any. */
  lemma ExtensionAfterDot(base: string, ext: string)
    requires |ext| >= 1 && '.' !in ext
    ensures FileExtension(base + "." + ext) == ext
  {
    LastSegmentAfter(base, '.', ext);
  }

  /** A name without a dot is its own extension. */
  lemma ExtensionWholeName(name: string)
    requires |name| >= 1 && '.' !in name
    ensures FileExtension(name) == name
  {
  }

  /** A name that ends in a dot, or is empty, gets the default extension. */
  lemma ExtensionDefault(base: string)
    ensures FileExtension(base + ".") == "jpg"
    ensures FileExtension("") == "jpg"
  {
    LastSegmentAfter(base, '.', []);
    assert base + ['.'] + [] == base + ".";
  }

  /** `clothing/{timestamp}-{random}.{ext}`. */
  function CloudPathFor(timestamp: nat, random: nat, name: string): string {
    "clothing/" + (NatToString(timestamp) + "-" + (NatToString(random) + "." + FileExtension(name)))
  }

  /** Two digit strings each followed by the same separator split alike. */
  lemma DigitsThenSeparator(a: string, b: string, sep: char, x: string, y: string)
    requires AllDigits(a) && AllDigits(b) && !IsDigit(sep)
    requires a + [sep] + x == b + [sep] + y
    ensures a == b && x == y
  {
    var s := a + [sep] + x;
    assert forall i :: 0 <= i < |a| ==> IsDigit(a[i]);
    assert forall i :: 0 <= i < |b| ==> IsDigit(b[i]);
    FirstStop(a, [sep] + x, {sep});
    FirstStop(b, [sep] + y, {sep});
    assert a + ([sep] + x) == s && b + ([sep] + y) == s;
    assert a == s[..|a|] && b == (b + [sep] + y)[..|b|];
    assert x == s[|a| + 1..] && y == (b + [sep] + y)[|b| + 1..];
  }

  /** The common prefix of two texts can be dropped. */
  lemma DropPrefix(p: string, x: string, y: string)
    requires p + x == p + y
    ensures x == y
  {
    assert x == (p + x)[|p|..] && y == (p + y)[|p|..];
  }

  /** Different timestamps or random suffixes give different cloud paths,
      whatever the names: the path determines both numbers and the
      extension. */
  lemma CloudPathInjective(t1: nat, r1: nat, n1: string, t2: nat, r2: nat, n2: string)
    requires CloudPathFor(t1, r1, n1) == CloudPathFor(t2, r2, n2)
    ensures t1 == t2 && r1 == r2 && FileExtension(n1) == FileExtension(n2)
  {
    var x1 := NatToString(r1) + "." + FileExtension(n1);
    var x2 := NatToString(r2) + "." + FileExtension(n2);
    DropPrefix("clothing/", NatToString(t1) + "-" + x1, NatToString(t2) + "-" + x2);
    DigitsThenSeparator(NatToString(t1), NatToString(t2), '-', x1, x2);
    NatToStringInjective(t1, t2);
    DigitsThenSeparator(NatToString(r1), NatToString(r2), '.', FileExtension(n1), FileExtension(n2));
    NatToStringInjective(r1, r2);
  }

  /** Text that holds none of `:`, `?` and `%`. */
  predicate Unescaped(s: string) {
    ':' !in s && '?' !in s && '%' !in s
  }

  lemma UnescapedConcat(a: string, b: string)
    requires Unescaped(a) && Unescaped(b)
    ensures Unescaped(a + b)
  {
  }

  lemma DigitsUnescaped(s: string)
    requires AllDigits(s)
    ensures Unescaped(s)
  {
    assert forall i :: 0 <= i < |s| ==> IsDigit(s[i]);
  }

  lemma CloudPathUnescaped(timestamp: nat, random: nat, name: string)
    requires Unescaped(FileExtension(name))
    ensures Unescaped(CloudPathFor(timestamp, random, name))
  {
    var t := NatToString(timestamp);
    var r := NatToString(random);
    var ext := FileExtension(name);
    DigitsUnescaped(t);
    DigitsUnescaped(r);
    assert Unescaped(".") && Unescaped("-") && Unescaped("clothing/");
    UnescapedConcat(r, ".");
    UnescapedConcat(r + ".", ext);
    UnescapedConcat(t, "-");
    UnescapedConcat(t + "-", r + "." + ext);
    UnescapedConcat("clothing/", t + "-" + (r + "." + ext));
  }

  /** A cloud path whose extension holds no `:`, `?` or `%` is read back
      unchanged by `deleteImage`'s extraction. */
  lemma CloudPathExtracts(timestamp: nat, random: nat, name: string)
    requires Unescaped(FileExtension(name))
    ensures ExtractCloudPath(CloudPathFor(timestamp, random, name)) == CloudPathFor(timestamp, random, name)
  {
    CloudPathUnescaped(timestamp, random, name);
    BareWholePath(CloudPathFor(timestamp, random, name));
  }

  /** What `uploadImage` hands to the host's upload primitive. */
  datatype UploadRequest = UploadRequest(url: string, filePath: string, fieldName: string, cloudPath: string)

  /** The request for `file` at time `timestamp` with random draw `draw`: the
      temporary path when the file has one, else its name, is uploaded to the
      fixed upload endpoint under field `file`. */
  function UploadRequestFor(file: UploadFile, timestamp: nat, draw: real): UploadRequest
    requires 0.0 <= draw < 1.0
  {
    UploadRequest(
      CLOUD_UPLOAD_URL,
      if Truthy(file.tempFilePath) then file.tempFilePath.value else file.name,
      "file",
      CloudPathFor(timestamp, RandomSuffix(draw), file.name))
  }

  lemma UploadUrlText()
    ensures CLOUD_UPLOAD_URL == "https://default.tcb.qcloud.la/upload"
  {
  }

  /** A cloud path starts with the `clothing/` folder and ends with the
      file's extension. */
  lemma CloudPathShape(timestamp: nat, random: nat, name: string)
    ensures StartsWith(CloudPathFor(timestamp, random, name), "clothing/")
    ensures EndsWith(CloudPathFor(timestamp, random, name), FileExtension(name))
  {
    var ext := FileExtension(name);
    var t := NatToString(timestamp);
    var r := NatToString(random);
    EndsWithConcat(r + ".", ext, ext);
    EndsWithConcat(t + "-", r + "." + ext, ext);
    EndsWithConcat("clothing/", t + "-" + (r + "." + ext), ext);
    assert ("clothing/" + (t + "-" + (r + "." + ext)))[..9] == "clothing/";
  }

  /** Every request goes to `https://default.tcb.qcloud.la/upload` under
      the field `file`, uploads the temporary path when the file has a
      non-empty one and its name otherwise, and stores it under a `clothing/`
      path carrying the file's extension. */
  lemma UploadRequestShape(file: UploadFile, timestamp: nat, draw: real)
    requires 0.0 <= draw < 1.0
    ensures var req := UploadRequestFor(file, timestamp, draw);
      req.url == "https://default.tcb.qcloud.la/upload" &&
      StartsWith(req.cloudPath, "clothing/") &&
      EndsWith(req.cloudPath, FileExtension(file.name)) &&
      req.fieldName == "file" &&
      req.filePath == (if Truthy(file.tempFilePath) then file.tempFilePath.value else file.name)
  {
    UploadUrlText();
    CloudPathShape(timestamp, RandomSuffix(draw), file.name);
  }

  /** The parsed JSON body of an upload response, by the two fields the
      helper reads. A body that parses to a number, a string or an array has
      neither field. */
  datatype UploadBody = UploadBody(url: Option<string>, message: Option<string>)

  /** How one upload settles: the host's success callback with a status code
      and the body (`None` when `JSON.parse` throws or yields `null`, so that
      reading its fields throws), the host's failure callback with its
      message, or the timer, whichever comes first. */
  datatype UploadOutcome =
    | Responded(statusCode: int, body: Option<UploadBody>)
    | HostFailed(errMsg: Option<string>)
    | TimedOut

  const UPLOAD_FAILED: string := "Upload failed"
  const INVALID_RESPONSE: string := "Invalid response data"
  const TIMEOUT_MESSAGE: string := "Upload timeout after 30000ms"

  /** `s || fallback` on a string that may be missing. */
  function OrElse(s: Option<string>, fallback: string): (r: string)
    ensures Truthy(s) ==> r == s.value
    ensures !Truthy(s) ==> r == fallback
  {
    if Truthy(s) then s.value else fallback
  }

  /** The result `uploadImage` resolves with: the URL only for status 200
      and a non-empty `url` field; otherwise the body's message or `Upload
      failed`, `Invalid response data` for a body without fields, the host's
      message or `Upload failed` for a host failure, and the timeout message. */
  function ClassifyUpload(o: UploadOutcome): (r: Result<string>)
    ensures r.Ok? <==> o.Responded? && o.statusCode == 200 && o.body.Some? && Truthy(o.body.value.url)
    ensures r.Ok? ==> r.value == o.body.value.url.value && r.value != ""
    ensures r.Err? ==> r.error != ""
    ensures o.Responded? && o.body.None? ==> r == Err(INVALID_RESPONSE)
    ensures o.Responded? && o.body.Some? && r.Err? ==> r.error == OrElse(o.body.value.message, UPLOAD_FAILED)
    ensures o.HostFailed? ==> r == Err(OrElse(o.errMsg, UPLOAD_FAILED))
    ensures o.TimedOut? ==> r == Err(TIMEOUT_MESSAGE)
  {
    match o
    case Responded(status, body) =>
      if body.None? then Err(INVALID_RESPONSE)
      else if status == 200 && Truthy(body.value.url) then Ok(body.value.url.value)
      else Err(OrElse(body.value.message, UPLOAD_FAILED))
    case HostFailed(errMsg) => Err(OrElse(errMsg, UPLOAD_FAILED))
    case TimedOut => Err(TIMEOUT_MESSAGE)
  }

  /** The timeout message carries the limit in milliseconds. */
  lemma TimeoutMessageText()
    ensures TIMEOUT_MESSAGE == "Upload timeout after " + NatToString(UPLOAD_TIMEOUT) + "ms"
  {
    assert NatToString(30000) == "30000";
  }

  /** Every failing response reports its body's message when that is a
      non-empty string, and `Upload failed` otherwise, whatever its status and
      `url`; a host failure likewise reports its own message or `Upload
      failed`. */
  lemma UploadFailureMessages(status: int, url: Option<string>, message: Option<string>, errMsg: Option<string>)
    requires status != 200 || !Truthy(url)
    ensures ClassifyUpload(Responded(status, Some(UploadBody(url, message)))) ==
      Err(if Truthy(message) then message.value else UPLOAD_FAILED)
    ensures ClassifyUpload(HostFailed(errMsg)) == Err(if Truthy(errMsg) then errMsg.value else UPLOAD_FAILED)
  {
  }

  // ---------------------------------------------------------------------
  // deleteImage

  /** One entry of the host's delete response. */
  datatype FileStatus = FileStatus(status: Option<int>, errMsg: Option<string>)

  /** How the host's delete settles: the success callback with its file list
      (`None` when the response has none), or the failure callback. */
  datatype DeleteOutcome =
    | DeleteResponded(fileList: Option<seq<FileStatus>>)
    | DeleteFailed(errMsg: Option<string>)

  const INVALID_URL: string := "Invalid URL"
  const DELETE_FAILED: string := "Delete failed"

  /** The result of a delete the host answered: success exactly when the
      first file status is 0; otherwise that file's message, the host's
      message, or `Delete failed`. */
  function ClassifyDelete(o: DeleteOutcome): (r: Result<()>)
    ensures r.Ok? <==>
      (o.DeleteResponded? && o.fileList.Some? && |o.fileList.value| >= 1 && o.fileList.value[0].status == Some(0))
    ensures r.Err? ==> r.error != ""
    ensures o.DeleteResponded? && o.fileList.Some? && |o.fileList.value| >= 1 && r.Err? ==>
      r.error == OrElse(o.fileList.value[0].errMsg, DELETE_FAILED)
    ensures o.DeleteResponded? && (o.fileList.None? || o.fileList.value == []) ==> r == Err(DELETE_FAILED)
    ensures o.DeleteFailed? ==> r == Err(OrElse(o.errMsg, DELETE_FAILED))
  {
    match o
    case DeleteResponded(files) =>
      if files.Some? && |files.value| >= 1 && files.value[0].status == Some(0) then Ok(())
      else if files.Some? && |files.value| >= 1 then Err(OrElse(files.value[0].errMsg, DELETE_FAILED))
      else Err(DELETE_FAILED)
    case DeleteFailed(errMsg) => Err(OrElse(errMsg, DELETE_FAILED))
  }

  /** The one cloud path `deleteImage` asks the host to delete, or `None`
      when the URL names none and the host is not called. */
  function DeleteTarget(url: string): (target: Option<string>)
    ensures target.Some? ==> target.value != "" && target.value == ExtractCloudPath(url)
    ensures target.None? <==> ExtractCloudPath(url) == ""
  {
    var path := ExtractCloudPath(url);
    if path == [] then None else Some(path)
  }

  /** `deleteImage(url)`, given how the host's delete would settle. */
  function DeleteImage(url: string, outcome: DeleteOutcome): (r: Result<()>)
    ensures DeleteTarget(url).None? ==> r == Err(INVALID_URL)
    ensures DeleteTarget(url).Some? ==> r == ClassifyDelete(outcome)
    ensures r.Ok? ==> DeleteTarget(url).Some?
  {
    if DeleteTarget(url).None? then Err(INVALID_URL) else ClassifyDelete(outcome)
  }

  /** The empty string is refused before the host is asked; a cloud path of
      an upload is passed to the host as it is. */
  lemma DeleteTargets(timestamp: nat, random: nat, name: string, outcome: DeleteOutcome)
    requires Unescaped(FileExtension(name))
    ensures DeleteImage("", outcome) == Err("Invalid URL")
    ensures DeleteTarget(CloudPathFor(timestamp, random, name)) == Some(CloudPathFor(timestamp, random, name))
  {
    CloudPathExtracts(timestamp, random, name);
  }

  // ---------------------------------------------------------------------
  // uploadMultipleImages

  /** The error of the last failure among the uploads that settled in
      `order`, or `None` when they all succeeded. */
  function LastFailure(outcomes: seq<UploadOutcome>, order: seq<nat>): (r: Option<string>)
    requires forall k :: 0 <= k < |order| ==> order[k] < |outcomes|
    ensures r.Some? ==> |r.value| >= 1
  {
    if order == [] then None
    else
      var last := |order| - 1;
      match ClassifyUpload(outcomes[order[last]])
      case Err(msg) => Some(msg)
      case Ok(_) => LastFailure(outcomes, order[..last])
  }

  /** No error is kept exactly when every settled upload succeeded; a kept
      error is that of a failure after which only successes settled. */
  lemma {:induction false} LastFailureMeaning(outcomes: seq<UploadOutcome>, order: seq<nat>)
    requires forall k :: 0 <= k < |order| ==> order[k] < |outcomes|
    ensures var e := LastFailure(outcomes, order);
      && (e.None? <==> forall k :: 0 <= k < |order| ==> ClassifyUpload(outcomes[order[k]]).Ok?)
      && (e.Some? ==>
        exists k :: (0 <= k < |order| && ClassifyUpload(outcomes[order[k]]) == Err(e.value) &&
          forall j :: k < j < |order| ==> ClassifyUpload(outcomes[order[j]]).Ok?))
  {
    if order != [] {
      var last := |order| - 1;
      var init := order[..last];
      assert forall k :: 0 <= k < last ==> init[k] == order[k];
      LastFailureMeaning(outcomes, init);
      if ClassifyUpload(outcomes[order[last]]).Err? {
        assert ClassifyUpload(outcomes[order[last]]) == Err(LastFailure(outcomes, order).value);
      }
    }
  }

  /** One more settled upload: its error replaces the kept one. */
  lemma LastFailureStep(outcomes: seq<UploadOutcome>, order: seq<nat>, k: nat)
    requires forall j :: 0 <= j < |order| ==> order[j] < |outcomes|
    requires k < |order|
    ensures LastFailure(outcomes, order[..k + 1]) ==
      match ClassifyUpload(outcomes[order[k]])
      case Err(m) => Some(m)
      case Ok(_) => LastFailure(outcomes, order[..k])
  {
    assert order[..k + 1][..k] == order[..k];
  }

  /** A failure that settled is the failure of some file. */
  lemma FailureWitness(outcomes: seq<UploadOutcome>, order: seq<nat>)
    requires forall k :: 0 <= k < |order| ==> order[k] < |outcomes|
    requires LastFailure(outcomes, order).Some?
    ensures exists i :: 0 <= i < |outcomes| && ClassifyUpload(outcomes[i]).Err?
  {
    LastFailureMeaning(outcomes, order);
    var k :| 0 <= k < |order| && ClassifyUpload(outcomes[order[k]]).Err?;
    assert order[k] < |outcomes|;
  }

  /** When every file settles and none of them failed, every upload succeeded. */
  lemma NoFailureAllOk(outcomes: seq<UploadOutcome>, order: seq<nat>)
    requires forall k :: 0 <= k < |order| ==> order[k] < |outcomes|
    requires forall i :: 0 <= i < |outcomes| ==> i in order
    requires LastFailure(outcomes, order).None?
    ensures forall i :: 0 <= i < |outcomes| ==> ClassifyUpload(outcomes[i]).Ok?
  {
    LastFailureMeaning(outcomes, order);
    forall i | 0 <= i < |outcomes| ensures ClassifyUpload(outcomes[i]).Ok? {
      assert i in order;
      var j :| 0 <= j < |order| && order[j] == i;
    }
  }

  /** The slot `uploadMultipleImages` writes for one settled upload. */
  function Slot(o: UploadOutcome): Option<string> {
    match ClassifyUpload(o)
    case Ok(url) => Some(url)
    case Err(_) => None
  }

  /** `results.filter(url => url !== null)`. */
  function Present(s: seq<Option<string>>): (r: seq<string>)
    ensures |r| <= |s|
    ensures forall x :: x in r <==> Some(x) in s
    ensures (forall i :: 0 <= i < |s| ==> s[i].Some?) ==> |r| == |s| && forall i :: 0 <= i < |s| ==> r[i] == s[i].value
  {
    if s == [] then [] else (if s[0].Some? then [s[0].value] else []) + Present(s[1..])
  }

  /** The concurrent part of `uploadMultipleImages`: the uploads settle in
      `order`; each settled upload writes its own slot of `results`, and each
      failure sets `hasError` and overwrites `errorMessage`. */
  method SettleUploads(outcomes: seq<UploadOutcome>, order: seq<nat>)
    returns (results: array<Option<string>>, hasError: bool, errorMessage: string)
    requires forall k :: 0 <= k < |order| ==> order[k] < |outcomes|
    ensures fresh(results) && results.Length == |outcomes|
    ensures forall j :: 0 <= j < |order| ==> results[order[j]] == Slot(outcomes[order[j]])
    ensures LastFailure(outcomes, order) == if hasError then Some(errorMessage) else None
  {
    results := new Option<string>[|outcomes|](_ => None);
    hasError := false;
    errorMessage := "";
    var k := 0;
    while k < |order|
      invariant 0 <= k <= |order|
      invariant forall j :: 0 <= j < k ==> results[order[j]] == Slot(outcomes[order[j]])
      invariant LastFailure(outcomes, order[..k]) == if hasError then Some(errorMessage) else None
    {
      var index := order[k];
      var result := ClassifyUpload(outcomes[index]);
      match result {
        case Ok(url) =>
          results[index] := Some(url);
        case Err(e) =>
          hasError := true;
          errorMessage := e;
          results[index] := None;
      }
      LastFailureStep(outcomes, order, k);
      k := k + 1;
    }
    assert order[..k] == order;
  }

  /** `uploadMultipleImages`: the uploads settle in `order`, a permutation of
      the file indices (every upload settles exactly once). The result fails
      when any upload failed, with the error of the failure that settled
      last; otherwise it lists every URL in file order. */
  method UploadMultipleImages(outcomes: seq<UploadOutcome>, order: seq<nat>) returns (r: Result<seq<string>>)
    requires |order| == |outcomes|
    requires forall k :: 0 <= k < |order| ==> order[k] < |outcomes|
    requires forall i :: 0 <= i < |outcomes| ==> i in order
    ensures |outcomes| == 0 ==> r == Ok([])
    ensures r.Err? <==> exists i :: 0 <= i < |outcomes| && ClassifyUpload(outcomes[i]).Err?
    ensures r.Err? ==> LastFailure(outcomes, order) == Some(r.error)
    ensures r.Ok? ==>
      (|r.value| == |outcomes| && forall i :: 0 <= i < |outcomes| ==> ClassifyUpload(outcomes[i]) == Ok(r.value[i]))
  {
    if |outcomes| == 0 {
      return Ok([]);
    }
    var results, hasError, errorMessage := SettleUploads(outcomes, order);
    if hasError {
      FailureWitness(outcomes, order);
      return Err(errorMessage);
    }
    NoFailureAllOk(outcomes, order);
    forall i | 0 <= i < |outcomes| ensures results[i] == Slot(outcomes[i]) {
      assert i in order;
      var j :| 0 <= j < |order| && order[j] == i;
    }
    return Ok(Present(results[..]));
  }
}
