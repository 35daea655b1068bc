/** URL canonicalisation (web.py) over already split URLs. A string is its UTF-8 bytes, each written as the
    character of that code, so percent-decoding and percent-encoding work byte by byte (RFC 3986 section 2.1). */
module WebUrl {
  import opened Wrappers

  predicate IsBytes(s: string) {
    forall i | 0 <= i < |s| :: s[i] as int < 256
  }

  // ----- Percent-encoding -----

  function HexDigit(n: nat): (c: char)
    requires n < 16
    ensures HexValue(c) == Some(n)
  {
    if n < 10 then '0' + n as char else 'A' + (n - 10) as char
  }

  function HexValue(c: char): (v: Option<nat>)
    ensures v.Some? ==> v.value < 16
  {
    if '0' <= c <= '9' then Some(c as int - '0' as int)
    else if 'A' <= c <= 'F' then Some(c as int - 'A' as int + 10)
    else if 'a' <= c <= 'f' then Some(c as int - 'a' as int + 10)
    else None
  }

  /** Letters, digits and `/~._-` stand for themselves. */
  predicate Unreserved(c: char) {
    'a' <= c <= 'z' || 'A' <= c <= 'Z' || '0' <= c <= '9' || c == '/' || c == '~' || c == '.' || c == '_' || c == '-'
  }

  function QuoteByte(c: char): (r: string)
    requires c as int < 256
  {
    if Unreserved(c) then [c] else ['%', HexDigit(c as int / 16), HexDigit(c as int % 16)]
  }

  /** `quote(path, safe="/~._-")`. */
  function Quote(s: string): string
    requires IsBytes(s)
  {
    if s == [] then [] else QuoteByte(s[0]) + Quote(s[1..])
  }

  predicate Escape(s: string) {
    |s| >= 3 && s[0] == '%' && HexValue(s[1]).Some? && HexValue(s[2]).Some?
  }

  /** `unquote`: each well-formed escape becomes its byte, everything else stays. */
  function Unquote(s: string): (r: string)
    ensures IsBytes(s) ==> IsBytes(r)
    ensures |r| <= |s|
  {
    if s == [] then []
    else if Escape(s) then [(HexValue(s[1]).value * 16 + HexValue(s[2]).value) as char] + Unquote(s[3..])
    else [s[0]] + Unquote(s[1..])
  }

  /** Percent-decoding inverts percent-encoding on every path. */
  lemma {:induction false} UnquoteQuote(s: string)
    requires IsBytes(s)
    ensures Unquote(Quote(s)) == s
  {
    if s != [] {
      UnquoteQuote(s[1..]);
      UnquoteByte(s[0], Quote(s[1..]));
      assert s == [s[0]] + s[1..];
    }
  }

  lemma UnquoteByte(c: char, rest: string)
    requires c as int < 256
    ensures Unquote(QuoteByte(c) + rest) == [c] + Unquote(rest)
  {
    var q := QuoteByte(c) + rest;
    if Unreserved(c) {
      assert q[0] == c && q[1..] == rest;
    } else {
      var hi, lo := HexDigit(c as int / 16), HexDigit(c as int % 16);
      assert q[0] == '%' && q[1] == hi && q[2] == lo && q[3..] == rest;
      assert c as int / 16 * 16 + c as int % 16 == c as int;
    }
  }

  /** Text without a percent sign decodes to itself. */
  lemma {:induction false} UnquotePlain(s: string)
    requires '%' !in s
    ensures Unquote(s) == s
  {
    if s != [] {
      assert s[0] in s;
      assert '%' !in s[1..];
      UnquotePlain(s[1..]);
      assert s == [s[0]] + s[1..];
    }
  }

  /** What encoding produces: unreserved characters, percent signs and hexadecimal digits. */
  lemma {:induction false} QuoteSafe(s: string)
    requires IsBytes(s)
    ensures forall c | c in Quote(s) :: Unreserved(c) || c == '%'
    ensures IsBytes(Quote(s))
    ensures s != [] ==> Quote(s) != []
  {
    if s != [] {
      QuoteSafe(s[1..]);
      forall c | c in QuoteByte(s[0]) ensures Unreserved(c) || c == '%' {
      }
    }
  }

  // ----- Canonical URLs -----

  datatype Scheme = Http | Https | Ws | Wss {
    function DefaultPort(): int { if Https? || Wss? then 443 else 80 }
  }

  /** A URL as `urlsplit` gives it; `port` is None when absent. A scheme outside the four is None. */
  datatype Parts = Parts(scheme: Option<Scheme>, host: string, credentials: bool, port: Option<int>, path: string,
                         query: string, fragment: string)

  /** The pieces left abstract: IDNA, the two path patterns, the query check and the text of a URL. */
  datatype Syntax = Syntax(
    idna: string -> Option<string>,
    statePath: string -> bool,
    browserStatePath: string -> bool,
    queryAccepted: string -> bool,
    validUtf8: string -> bool,
    text: Parts -> string)

  /** What those pieces promise. IDNA and lower-casing change nothing the second time, and the text of a canonical
      URL contains nothing but its parts and plain punctuation. */
  ghost predicate Lawful(x: Syntax) {
    && (forall h :: x.idna(h).Some? ==> x.idna(x.idna(h).value) == x.idna(h))
    && (forall u: Parts ::
          u.scheme.Some? && PlainText(u.path) && PlainText(u.query) && HostText(u.host) ==> PlainText(x.text(u)))
  }

  /** No control character, space, delete or backslash. */
  predicate PlainText(s: string) {
    forall c | c in s :: c > ' ' && c != 127 as char && c != '\\'
  }

  predicate HostText(s: string) {
    s != "" && forall c | c in s :: 'a' <= c <= 'z' || '0' <= c <= '9' || c == '.' || c == ':' || c == '-'
  }

  predicate HasDouble(s: string) {
    exists i | 0 <= i < |s| - 1 :: s[i] == '/' && s[i + 1] == '/'
  }

  /** Some segment between slashes is `.` or `..`. */
  predicate HasDots(s: string) {
    exists i, j | 0 <= i <= j <= |s| ::
      (i == 0 || s[i - 1] == '/') && (j == |s| || s[j] == '/') && (s[i..j] == "." || s[i..j] == "..")
  }

  predicate AmbiguousPath(p: string) {
    '%' in p || HasDouble(p) || HasDots(p) || !PlainText(p)
  }

  datatype UrlError = InvalidUrl | SchemeCredentialsOrFragment | InvalidHost | InvalidPort | AmbiguousPathError
                    | StateChangingPath | SensitiveQuery

  datatype Canonical = Accepted(url: Parts) | Refused(error: UrlError)

  const MAX_URL := 2048

  /** `len` of a string counts characters: continuation bytes do not start one. */
  function CharCount(s: string): (n: nat)
    ensures n <= |s|
  {
    if s == [] then 0 else CharCount(s[1..]) + if 128 <= s[0] as int < 192 then 0 else 1
  }

  lemma {:induction false} CharCountConcat(a: string, b: string)
    ensures CharCount(a + b) == CharCount(a) + CharCount(b)
  {
    if a == [] {
      assert a + b == b;
    } else {
      assert (a + b)[1..] == a[1..] + b;
      CharCountConcat(a[1..], b);
    }
  }

  lemma {:induction false} AsciiCount(s: string)
    requires forall i | 0 <= i < |s| :: s[i] as int < 128
    ensures CharCount(s) == |s|
  {
    if s != [] {
      AsciiCount(s[1..]);
    }
  }

  function PathOf(u: Parts): string {
    Unquote(if u.path == "" then "/" else u.path)
  }

  function PortOf(u: Parts): int
    requires u.scheme.Some?
  {
    if u.port.Some? then u.port.value else u.scheme.value.DefaultPort()
  }

  predicate SchemeAllowed(u: Parts, browser: bool) {
    u.scheme.Some? && (browser || u.scheme.value in {Http, Https})
  }

  /** What is wrong with the parts of a URL, in the order in which it is noticed. */
  function PartsError(x: Syntax, u: Parts, browser: bool): Option<UrlError>
    requires IsBytes(u.path)
  {
    if !SchemeAllowed(u, browser) || u.host == "" || u.credentials || u.fragment != "" then
      Some(SchemeCredentialsOrFragment)
    else if x.idna(u.host).None? then Some(InvalidUrl)
    else if HostRefused(x.idna(u.host).value) then Some(InvalidHost)
    else if !(1 <= PortOf(u) <= 65535) then Some(InvalidPort)
    else PathError(x, PathOf(u), u.query, browser)
  }

  predicate HostRefused(host: string) {
    !HostText(host) || host[|host| - 1] == '.'
  }

  function PathError(x: Syntax, path: string, query: string, browser: bool): Option<UrlError> {
    if !x.validUtf8(path) then Some(InvalidUrl)
    else if AmbiguousPath(path) then Some(AmbiguousPathError)
    else if (if browser then x.browserStatePath(path) else x.statePath(path)) then Some(StateChangingPath)
    else if query != "" && !x.queryAccepted(query) then Some(SensitiveQuery)
    else None
  }

  /** The canonical parts of an acceptable URL. */
  function CanonicalParts(x: Syntax, u: Parts, browser: bool): Parts
    requires IsBytes(u.path) && PartsError(x, u, browser).None?
  {
    Parts(u.scheme, x.idna(u.host).value, false,
          if PortOf(u) == u.scheme.value.DefaultPort() then None else Some(PortOf(u)), Quote(PathOf(u)), u.query, "")
  }

  /** `canonical_url` of the URL spelled `text` and split into `u`. */
  function CanonicalUrl(x: Syntax, text: string, u: Parts, browser: bool): Canonical
    requires IsBytes(u.path)
  {
    if CharCount(text) > MAX_URL || !PlainText(text) then Refused(InvalidUrl)
    else if PartsError(x, u, browser).Some? then Refused(PartsError(x, u, browser).value)
    else Accepted(CanonicalParts(x, u, browser))
  }

  /** The canonical parts are acceptable and canonical. */
  lemma CanonicalPartsFixed(x: Syntax, u: Parts, browser: bool)
    requires Lawful(x) && IsBytes(u.path) && PartsError(x, u, browser).None?
    ensures var c := CanonicalParts(x, u, browser);
            && IsBytes(c.path) && PathOf(c) == PathOf(u)
            && PartsError(x, c, browser).None? && CanonicalParts(x, c, browser) == c
  {
    var c := CanonicalParts(x, u, browser);
    QuoteSafe(PathOf(u));
    UnquoteQuote(PathOf(u));
    DecodedNonempty(u);
    assert PathOf(c) == PathOf(u);
    assert x.idna(c.host) == x.idna(u.host);
    assert PortOf(c) == PortOf(u);
  }

  /** The canonical parts print as plain text if the URL was plain. */
  lemma CanonicalText(x: Syntax, text: string, u: Parts, browser: bool)
    requires Lawful(x) && IsBytes(u.path) && PartsError(x, u, browser).None?
    requires PlainText(text) && forall c | c in u.query :: c in text
    ensures PlainText(x.text(CanonicalParts(x, u, browser)))
  {
    var c := CanonicalParts(x, u, browser);
    QuoteSafe(PathOf(u));
    assert PlainText(c.path) && PlainText(c.query) && HostText(c.host) && c.scheme.Some?;
  }

  lemma AcceptedAsIs(x: Syntax, text: string, c: Parts, browser: bool)
    requires IsBytes(c.path) && PartsError(x, c, browser).None? && CanonicalParts(x, c, browser) == c && PlainText(text)
    ensures CanonicalUrl(x, text, c, browser) == Accepted(c) <==> CharCount(text) <= MAX_URL
  {
  }

  /** Canonicalising twice is canonicalising once, exactly for URLs whose canonical text is not too long. The text's
      characters include those of its query. */
  lemma CanonicalFixedPoint(x: Syntax, text: string, u: Parts, browser: bool)
    requires Lawful(x) && IsBytes(u.path)
    requires forall c | c in u.query :: c in text
    requires CanonicalUrl(x, text, u, browser).Accepted?
    ensures var c := CanonicalUrl(x, text, u, browser).url;
            IsBytes(c.path)
            && (CanonicalUrl(x, x.text(c), c, browser) == Accepted(c) <==> CharCount(x.text(c)) <= MAX_URL)
  {
    var c := CanonicalParts(x, u, browser);
    CanonicalPartsFixed(x, u, browser);
    CanonicalText(x, text, u, browser);
    AcceptedAsIs(x, x.text(c), c, browser);
  }

  // ----- What a URL is answered, character by character -----

  /** `c` is the digit for `n`, in upper or in lower case. */
  ghost predicate StandsFor(c: char, n: int) {
    || (0 <= n < 10 && c as int == '0' as int + n)
    || (10 <= n < 16 && (c as int == 'A' as int + n - 10 || c as int == 'a' as int + n - 10))
  }

  /** `r` is `s` with every percent sign and two hexadecimal digits replaced by the byte they name. */
  ghost predicate Decodes(s: string, r: string) {
    if s == "" then r == ""
    else if |s| >= 3 && s[0] == '%' && exists hi, lo :: StandsFor(s[1], hi) && StandsFor(s[2], lo) then
      && r != "" && (exists hi, lo :: StandsFor(s[1], hi) && StandsFor(s[2], lo) && r[0] as int == 16 * hi + lo)
      && Decodes(s[3..], r[1..])
    else r != "" && r[0] == s[0] && Decodes(s[1..], r[1..])
  }

  /** A letter, a digit, or one of `/ ~ . _ -`. */
  ghost predicate Literal(c: char) {
    || 'A' <= c <= 'Z' || 'a' <= c <= 'z' || '0' <= c <= '9'
    || c == '/' || c == '~' || c == '.' || c == '_' || c == '-'
  }

  /** `r` is `s` with every other byte replaced by a percent sign and its two upper-case digits. */
  ghost predicate Encodes(s: string, r: string) {
    if s == "" then r == ""
    else if Literal(s[0]) then r != "" && r[0] == s[0] && Encodes(s[1..], r[1..])
    else
      && |r| >= 3 && r[0] == '%' && r[1] <= 'F' && r[2] <= 'F'
      && StandsFor(r[1], s[0] as int / 16) && StandsFor(r[2], s[0] as int % 16)
      && Encodes(s[1..], r[3..])
  }

  lemma HexRead(c: char)
    ensures HexValue(c).Some? ==> StandsFor(c, HexValue(c).value)
    ensures forall n :: StandsFor(c, n) ==> HexValue(c) == Some(n)
  {
  }

  lemma {:induction false} UnquoteDecodes(s: string)
    ensures Decodes(s, Unquote(s))
  {
    if s != "" {
      if |s| >= 3 {
        HexRead(s[1]);
        HexRead(s[2]);
      }
      if Escape(s) {
        UnquoteDecodes(s[3..]);
        assert StandsFor(s[1], HexValue(s[1]).value) && StandsFor(s[2], HexValue(s[2]).value);
      } else {
        UnquoteDecodes(s[1..]);
      }
    }
  }

  lemma StandsOnce(c: char, m: int, n: int)
    requires StandsFor(c, m) && StandsFor(c, n)
    ensures m == n
  {
  }

  /** A text decodes in one way. */
  lemma {:induction false} DecodesOnce(s: string, r: string, t: string)
    requires Decodes(s, r) && Decodes(s, t)
    ensures r == t
  {
    if s != "" {
      assert r == [r[0]] + r[1..] && t == [t[0]] + t[1..];
      if |s| >= 3 && s[0] == '%' && exists hi, lo :: StandsFor(s[1], hi) && StandsFor(s[2], lo) {
        var hi, lo :| StandsFor(s[1], hi) && StandsFor(s[2], lo) && r[0] as int == 16 * hi + lo;
        var up, down :| StandsFor(s[1], up) && StandsFor(s[2], down) && t[0] as int == 16 * up + down;
        StandsOnce(s[1], hi, up);
        StandsOnce(s[2], lo, down);
        DecodesOnce(s[3..], r[1..], t[1..]);
      } else {
        DecodesOnce(s[1..], r[1..], t[1..]);
      }
    }
  }

  lemma {:induction false} QuoteEncodes(s: string)
    requires IsBytes(s)
    ensures Encodes(s, Quote(s))
  {
    if s != "" {
      QuoteEncodes(s[1..]);
      assert Quote(s)[|QuoteByte(s[0])|..] == Quote(s[1..]);
    }
  }

  /** The positions at which a character starts. */
  ghost function Starts(s: string): set<int> {
    set i | 0 <= i < |s| && (s[i] as int < 128 || 192 <= s[i] as int)
  }

  /** The length of a string is the number of bytes that are not continuation bytes. */
  lemma {:induction false} CountsStarts(s: string)
    ensures CharCount(s) == |Starts(s)|
  {
    if s != "" {
      var n := |s| - 1;
      CountsStarts(s[..n]);
      CharCountConcat(s[..n], s[n..]);
      StartsLast(s, n);
    }
  }

  lemma StartsLast(s: string, n: nat)
    requires n + 1 == |s|
    ensures |Starts(s)| == |Starts(s[..n])| + CharCount(s[n..]) && s[..n] + s[n..] == s
  {
    var last: set<int> := if s[n] as int < 128 || 192 <= s[n] as int then {n} else {};
    assert Starts(s) == Starts(s[..n]) + last;
    assert CharCount(s[n..]) == CharCount(s[n..][1..]) + |last|;
  }

  ghost predicate Printable(s: string) {
    forall i | 0 <= i < |s| :: ' ' < s[i] && s[i] != 127 as char && s[i] != '\\'
  }

  ghost predicate SchemeFits(u: Parts, browser: bool) {
    u.scheme == Some(Http) || u.scheme == Some(Https) || (browser && (u.scheme == Some(Ws) || u.scheme == Some(Wss)))
  }

  ghost function UsualPort(u: Parts): int {
    if u.scheme == Some(Https) || u.scheme == Some(Wss) then 443 else 80
  }

  ghost function PortAsked(u: Parts): int {
    match u.port
    case Some(n) => n
    case None => UsualPort(u)
  }

  ghost predicate NamesHost(h: string) {
    && |h| > 0 && h[|h| - 1] != '.'
    && forall i | 0 <= i < |h| :: 'a' <= h[i] <= 'z' || '0' <= h[i] <= '9' || h[i] == '.' || h[i] == ':' || h[i] == '-'
  }

  /** No percent sign, no empty segment, and no segment that is `.` or `..`. */
  ghost predicate Unambiguous(p: string) {
    && Printable(p)
    && (forall i | 0 <= i < |p| :: p[i] != '%' && (p[i] == '/' ==> i + 1 == |p| || p[i + 1] != '/'))
    && (forall i | 0 <= i < |p| :: !Dotted(p, i))
  }

  /** A segment `.` or `..` starts at `i`. */
  ghost predicate Dotted(p: string, i: nat)
    requires i < |p|
  {
    && p[i] == '.' && (i == 0 || p[i - 1] == '/')
    && (i + 1 == |p| || p[i + 1] == '/' || (p[i + 1] == '.' && (i + 2 == |p| || p[i + 2] == '/')))
  }

  /** The answer to a URL whose path decodes to `path`, for the first reason that holds. */
  ghost predicate Answers(x: Syntax, text: string, u: Parts, browser: bool, path: string, r: Canonical) {
    if |Starts(text)| > 2048 || !Printable(text) then r == Refused(InvalidUrl)
    else if !SchemeFits(u, browser) || |u.host| == 0 || u.credentials || |u.fragment| > 0 then
      r == Refused(SchemeCredentialsOrFragment)
    else
      match x.idna(u.host)
      case None => r == Refused(InvalidUrl)
      case Some(host) =>
        if !NamesHost(host) then r == Refused(InvalidHost)
        else if PortAsked(u) < 1 || 65535 < PortAsked(u) then r == Refused(InvalidPort)
        else AnswersPath(x, u, browser, host, path, r)
  }

  ghost predicate AnswersPath(x: Syntax, u: Parts, browser: bool, host: string, path: string, r: Canonical) {
    if !x.validUtf8(path) then r == Refused(InvalidUrl)
    else if !Unambiguous(path) then r == Refused(AmbiguousPathError)
    else if (browser && x.browserStatePath(path)) || (!browser && x.statePath(path)) then
      r == Refused(StateChangingPath)
    else if |u.query| > 0 && !x.queryAccepted(u.query) then r == Refused(SensitiveQuery)
    else r.Accepted? && Written(u, host, path, r.url)
  }

  /** The same scheme, query and path, the normalised host, and a port only if it is not the usual one. */
  ghost predicate Written(u: Parts, host: string, path: string, c: Parts) {
    && c.scheme == u.scheme && c.host == host && c.query == u.query && !c.credentials && c.fragment == ""
    && (PortAsked(u) == UsualPort(u) ==> c.port.None?)
    && (PortAsked(u) != UsualPort(u) ==> c.port == Some(PortAsked(u)))
    && Encodes(path, c.path)
  }

  lemma PlainPrints(s: string)
    ensures PlainText(s) <==> Printable(s)
  {
    if Printable(s) {
      forall c | c in s ensures c > ' ' && c != 127 as char && c != '\\' {
        var i :| 0 <= i < |s| && s[i] == c;
        assert s[i] > ' ';
      }
    } else {
      var i :| 0 <= i < |s| && !(' ' < s[i] && s[i] != 127 as char && s[i] != '\\');
      assert s[i] in s;
    }
  }

  lemma HostNamed(h: string)
    ensures HostRefused(h) <==> !NamesHost(h)
  {
    if HostText(h) {
      assert forall i | 0 <= i < |h| :: h[i] in h;
    } else if h != "" {
      var c :| c in h && !('a' <= c <= 'z' || '0' <= c <= '9' || c == '.' || c == ':' || c == '-');
      var i :| 0 <= i < |h| && h[i] == c;
      assert !NamesHost(h);
    }
  }

  lemma DotsFound(p: string, i: nat)
    requires i < |p| && Dotted(p, i)
    ensures HasDots(p)
  {
    if i + 1 == |p| || p[i + 1] == '/' {
      assert p[i..i + 1] == ".";
    } else {
      assert p[i..i + 2] == "..";
    }
  }

  lemma DotsMean(p: string)
    requires HasDots(p)
    ensures exists i | 0 <= i < |p| :: Dotted(p, i)
  {
    var i, j :| 0 <= i <= j <= |p| && (i == 0 || p[i - 1] == '/') && (j == |p| || p[j] == '/')
                && (p[i..j] == "." || p[i..j] == "..");
    assert p[i] == p[i..j][0];
    assert j == i + 2 ==> p[i + 1] == p[i..j][1];
    assert Dotted(p, i);
  }

  lemma DoubleMeans(p: string)
    ensures '%' in p || HasDouble(p)
            <==> !forall i | 0 <= i < |p| :: p[i] != '%' && (p[i] == '/' ==> i + 1 == |p| || p[i + 1] != '/')
  {
    if '%' in p {
      var i :| 0 <= i < |p| && p[i] == '%';
    }
  }

  lemma AmbiguityMeans(p: string)
    ensures AmbiguousPath(p) <==> !Unambiguous(p)
  {
    PlainPrints(p);
    DoubleMeans(p);
    if HasDots(p) {
      DotsMean(p);
    } else {
      forall i | 0 <= i < |p| ensures !Dotted(p, i) {
        if Dotted(p, i) {
          DotsFound(p, i);
        }
      }
    }
  }

  lemma PartsFit(u: Parts, browser: bool)
    ensures SchemeAllowed(u, browser) <==> SchemeFits(u, browser)
    ensures u.scheme.Some? ==> PortOf(u) == PortAsked(u) && u.scheme.value.DefaultPort() == UsualPort(u)
  {
    if u.scheme.Some? {
      match u.scheme.value
      case Http =>
      case Https =>
      case Ws =>
      case Wss =>
    }
  }

  /** Every URL is answered for the first reason that holds of its text, its parts and its decoded path, and an accepted
      one is written with that path encoded again. */
  lemma UrlAnswers(x: Syntax, text: string, u: Parts, browser: bool)
    requires IsBytes(u.path)
    ensures exists path ::
              Decodes(if |u.path| == 0 then "/" else u.path, path)
              && Answers(x, text, u, browser, path, CanonicalUrl(x, text, u, browser))
  {
    var path := PathOf(u);
    UnquoteDecodes(if u.path == "" then "/" else u.path);
    if u.scheme.Some? && x.idna(u.host).Some? {
      PathAnswers(x, u, browser);
    }
    CountsStarts(text);
    PlainPrints(text);
    PartsFit(u, browser);
    if x.idna(u.host).Some? {
      HostNamed(x.idna(u.host).value);
    }
    assert Answers(x, text, u, browser, path, CanonicalUrl(x, text, u, browser));
  }

  lemma PathAnswers(x: Syntax, u: Parts, browser: bool)
    requires IsBytes(u.path) && u.scheme.Some? && x.idna(u.host).Some?
    ensures var path, host := PathOf(u), x.idna(u.host).value;
            && (PathError(x, path, u.query, browser).Some? ==>
                  AnswersPath(x, u, browser, host, path, Refused(PathError(x, path, u.query, browser).value)))
            && (PartsError(x, u, browser).None? ==>
                  AnswersPath(x, u, browser, host, path, Accepted(CanonicalParts(x, u, browser))))
  {
    AmbiguityMeans(PathOf(u));
    if PartsError(x, u, browser).None? {
      PartsWritten(x, u, browser);
    }
  }

  lemma PartsWritten(x: Syntax, u: Parts, browser: bool)
    requires IsBytes(u.path) && PartsError(x, u, browser).None?
    ensures Written(u, x.idna(u.host).value, PathOf(u), CanonicalParts(x, u, browser))
  {
    PartsFit(u, browser);
    QuoteEncodes(PathOf(u));
  }

  // ----- A URL that grows -----

  /** Every byte that does not stand for itself becomes three characters. */
  lemma {:induction false} QuoteTriples(s: string)
    requires IsBytes(s) && forall c | c in s :: !Unreserved(c)
    ensures |Quote(s)| == 3 * |s| && forall i | 0 <= i < |Quote(s)| :: Quote(s)[i] as int < 128
  {
    if s != [] {
      assert s[0] in s;
      QuoteTriples(s[1..]);
    }
  }

  /** A slash and so many exclamation marks. */
  function Marks(n: nat): (s: string)
    ensures |s| == n + 1 && s[0] == '/' && IsBytes(s) && forall i | 1 <= i <= n :: s[i] == '!'
  {
    "/" + seq(n, _ => '!')
  }

  lemma MarksQuoted(n: nat)
    ensures CharCount(Quote(Marks(n))) == 3 * n + 1
  {
    var s := Marks(n);
    QuoteTriples(s[1..]);
    AsciiCount(Quote(s));
  }

  lemma MarksPlain(n: nat)
    ensures Unquote(Marks(n)) == Marks(n) && !AmbiguousPath(Marks(n))
  {
    var s := Marks(n);
    UnquotePlain(s);
    forall i, j | 0 <= i <= j <= |s| && (i == 0 || s[i - 1] == '/') ensures s[i..j] != "." && s[i..j] != ".." {
      assert i < j ==> s[i..j][0] == s[i];
    }
  }

  function HttpsUrl(host: string, path: string): Parts {
    Parts(Some(Https), host, false, None, path, "", "")
  }

  predicate PrintsAs(x: Syntax, prefix: string, host: string, path: string) {
    x.text(HttpsUrl(host, path)) == prefix + path
  }

  predicate ReadOnlyPath(x: Syntax, path: string, browser: bool) {
    if browser then !x.browserStatePath(path) else !x.statePath(path)
  }

  lemma HttpsAccepted(x: Syntax, text: string, host: string, path: string, browser: bool)
    requires HostText(host) && host[|host| - 1] != '.' && x.idna(host) == Some(host)
    requires path != "" && IsBytes(path) && Unquote(path) == path && !AmbiguousPath(path) && x.validUtf8(path)
    requires ReadOnlyPath(x, path, browser) && CharCount(text) <= MAX_URL && PlainText(text)
    ensures CanonicalUrl(x, text, HttpsUrl(host, path), browser) == Accepted(HttpsUrl(host, Quote(path)))
  {
  }

  lemma HttpsTooLong(x: Syntax, prefix: string, host: string, path: string, browser: bool)
    requires PrintsAs(x, prefix, host, path) && IsBytes(path) && CharCount(path) > MAX_URL
    ensures CanonicalUrl(x, x.text(HttpsUrl(host, path)), HttpsUrl(host, path), browser) == Refused(InvalidUrl)
  {
    CharCountConcat(prefix, path);
  }

  lemma MarkedText(prefix: string, n: nat)
    requires prefix == "https://shop.example" && n <= 2027
    ensures CharCount(prefix + Marks(n)) <= MAX_URL && PlainText(prefix + Marks(n))
  {
    assert PlainText(prefix) && PlainText(Marks(n));
  }

  /** An https URL with a path of, say, a thousand exclamation marks is accepted, and its canonical form is too long. */
  lemma LongPath(x: Syntax, prefix: string, host: string, n: nat, browser: bool)
    requires prefix == "https://shop.example" && HostText(host) && host[|host| - 1] != '.' && x.idna(host) == Some(host)
    requires 683 <= n <= 2027 && x.validUtf8(Marks(n)) && ReadOnlyPath(x, Marks(n), browser)
    requires PrintsAs(x, prefix, host, Quote(Marks(n)))
    ensures var text, u, c := prefix + Marks(n), HttpsUrl(host, Marks(n)), HttpsUrl(host, Quote(Marks(n)));
            && CanonicalUrl(x, text, u, browser) == Accepted(c) && IsBytes(c.path)
            && CanonicalUrl(x, x.text(c), c, browser) == Refused(InvalidUrl)
  {
    var path := Marks(n);
    MarksPlain(n);
    MarksQuoted(n);
    QuoteSafe(path);
    MarkedText(prefix, n);
    HttpsAccepted(x, prefix + path, host, path, browser);
    HttpsTooLong(x, prefix, host, Quote(path), browser);
  }

  lemma DecodedNonempty(u: Parts)
    ensures PathOf(u) != ""
  {
  }

  /** Spellings that differ only in percent-encoding, in an explicit default port or in how the host is written
      have one canonical form (RFC 3986 sections 6.2.2 and 6.2.3). */
  lemma SpellingsConverge(x: Syntax, t1: string, u1: Parts, t2: string, u2: Parts, browser: bool)
    requires IsBytes(u1.path) && IsBytes(u2.path)
    requires CanonicalUrl(x, t1, u1, browser).Accepted? && CanonicalUrl(x, t2, u2, browser).Accepted?
    ensures CanonicalUrl(x, t1, u1, browser) == CanonicalUrl(x, t2, u2, browser)
            <==> u1.scheme == u2.scheme && x.idna(u1.host) == x.idna(u2.host) && PortOf(u1) == PortOf(u2)
                 && PathOf(u1) == PathOf(u2) && u1.query == u2.query
  {
    UnquoteQuote(PathOf(u1));
    UnquoteQuote(PathOf(u2));
    var c1, c2 := CanonicalParts(x, u1, browser), CanonicalParts(x, u2, browser);
    assert c1 == c2 ==> PortOf(c1) == PortOf(c2) && PathOf(u1) == Unquote(c1.path) == Unquote(c2.path) == PathOf(u2);
  }
}
