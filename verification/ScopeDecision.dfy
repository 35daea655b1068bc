/** Whether a program admits a URL, an address or a whole session plan (programs.py). */
module ScopeDecision {
  import opened Wrappers
  import opened ProgramPolicy
  import WebUrl

  /** An address as `ipaddress` classifies it; `special` is multicast, unspecified or link-local. */
  datatype Address = Address(version: int, value: int, special: bool, global: bool)

  datatype Network = Network(version: int, first: int, last: int)

  /** The syntax left abstract: URLs, host normalisation, reading a host as an address, and reading a CIDR. */
  datatype Reader = Reader(url: WebUrl.Syntax, host: string -> Option<string>, address: string -> Option<Address>,
                           network: string -> Network)

  // ----- Addresses -----

  predicate Within(a: Address, n: Network) {
    a.version == n.version && n.first <= a.value <= n.last
  }

  /** `address_allowed` for a list of private networks. */
  predicate AddressAllowed(x: Reader, allowPrivate: bool, cidrs: seq<string>, a: Address) {
    !a.special && (a.global || (allowPrivate && exists c | c in cidrs :: Within(a, x.network(c))))
  }

  // ----- URLs -----

  datatype Reason = UrlRefused(error: WebUrl.UrlError) | HostRefused | Excluded | OutOfScope | MethodBlocked
    | PrivateNotApproved

  datatype Decision = Decision(matched: Option<Rule>, excluded: Option<Rule>, methodAllowed: bool,
                               reason: Option<Reason>) {
    predicate Allowed() { reason.None? }
  }

  /** What a canonical URL asks for, once its host is normalised and its path decoded. */
  datatype Endpoint = Endpoint(scheme: WebUrl.Scheme, host: string, port: int, path: string)

  function SchemeText(s: WebUrl.Scheme): string {
    match s
    case Http => "http"
    case Https => "https"
    case Ws => "ws"
    case Wss => "wss"
  }

  predicate EndsWith(s: string, suffix: string) {
    |s| >= |suffix| && s[|s| - |suffix|..] == suffix
  }

  predicate StartsWith(s: string, prefix: string) {
    |s| >= |prefix| && s[..|prefix|] == prefix
  }

  /** A wildcard covers every nested subdomain and not the apex. */
  predicate HostMatches(target: string, host: string) {
    if StartsWith(target, "*.") then EndsWith(host, "." + target[2..]) else host == target
  }

  predicate PathMatches(p: string, path: string) {
    if EndsWith(p, "/*") then StartsWith(path, p[..|p| - 1]) else path == p
  }

  lemma DotBeforeBase(base: string, sub: string)
    ensures ("." + base)[0] == '.' && EndsWith(sub + "." + base, "." + base)
  {
    var host := sub + "." + base;
    assert host[|sub|..] == "." + base;
  }

  /** A wildcard rule covers exactly the hosts that end in a dot and its base: every nested subdomain, never the
      apex. */
  lemma WildcardExactly(base: string, host: string)
    ensures HostMatches("*." + base, host) <==> exists sub: string :: host == sub + "." + base
    ensures !HostMatches("*." + base, base)
  {
    var target := "*." + base;
    assert target[..2] == "*." && target[2..] == base;
    if EndsWith(host, "." + base) {
      var sub := host[..|host| - |base| - 1];
      assert host == sub + "." + base;
    }
    if sub: string :| host == sub + "." + base {
      DotBeforeBase(base, sub);
    }
  }

  /** A subtree rule covers exactly what lies below its directory, not the directory's own name without the slash. */
  lemma SubtreeExactly(directory: string, path: string)
    ensures PathMatches(directory + "/*", path) <==> exists rest: string :: path == directory + "/" + rest
  {
    var p := directory + "/*";
    assert EndsWith(p, "/*") && p[..|p| - 1] == directory + "/";
    if StartsWith(path, directory + "/") {
      assert path == directory + "/" + path[|directory| + 1..];
    }
    if rest: string :| path == directory + "/" + rest {
      assert path[..|directory| + 1] == directory + "/";
    }
  }

  predicate PortMatches(ports: Option<seq<int>>, e: Endpoint, exclusion: bool) {
    if ports.Some? then e.port in ports.value else exclusion || e.port == e.scheme.DefaultPort()
  }

  predicate Matches(r: Rule, e: Endpoint, exclusion: bool) {
    && HostMatches(r.host, e.host) && SchemeText(e.scheme) in r.schemes && PortMatches(r.ports, e, exclusion)
    && exists p | p in r.paths :: PathMatches(p, e.path)
  }

  function FirstMatch(rules: seq<Rule>, e: Endpoint, exclusion: bool): (m: Option<Rule>)
    ensures m.Some? <==> exists r | r in rules :: Matches(r, e, exclusion)
    ensures m.Some? ==> m.value in rules && Matches(m.value, e, exclusion)
  {
    if rules == [] then None
    else if Matches(rules[0], e, exclusion) then Some(rules[0])
    else
      assert forall r :: r in rules <==> r == rules[0] || r in rules[1..];
      FirstMatch(rules[1..], e, exclusion)
  }

  /** What to judge of the canonical URL `c`, unless its host is not acceptable to a rule. */
  function EndpointOf(x: Reader, c: WebUrl.Parts): Option<Endpoint>
    requires c.scheme.Some?
  {
    if x.host(c.host).None? then None
    else Some(Endpoint(c.scheme.value, x.host(c.host).value,
                       if c.port.Some? && c.port.value != 0 then c.port.value
                         else c.scheme.value.DefaultPort(), WebUrl.Unquote(c.path)))
  }

  predicate AddressOk(x: Reader, p: Policy, host: string) {
    x.address(host).Some? ==> AddressAllowed(x, p.allowPrivate, p.privateCidrs, x.address(host).value)
  }

  function Judge(x: Reader, p: Policy, e: Endpoint, methodAllowed: bool): Decision {
    var matched, excluded := FirstMatch(p.inScope, e, false), FirstMatch(p.outOfScope, e, true);
    Decision(matched, excluded, methodAllowed,
             if excluded.Some? then Some(Excluded)
             else if matched.None? then Some(OutOfScope)
             else if !methodAllowed then Some(MethodBlocked)
             else if !AddressOk(x, p, e.host) then Some(PrivateNotApproved)
             else None)
  }

  /** `scope_decision` on the URL spelled `text` and split into `u`. */
  function Decide(x: Reader, p: Policy, text: string, u: WebUrl.Parts, m: string): Decision
    requires WebUrl.IsBytes(u.path)
  {
    var canonical := WebUrl.CanonicalUrl(x.url, text, u, true);
    if canonical.Refused? then Decision(None, None, m in p.allowedMethods, Some(UrlRefused(canonical.error)))
    else if EndpointOf(x, canonical.url).None? then Decision(None, None, m in p.allowedMethods, Some(HostRefused))
    else Judge(x, p, EndpointOf(x, canonical.url).value, m in p.allowedMethods)
  }

  /** The conditions for admitting an endpoint. */
  predicate Admitted(x: Reader, p: Policy, e: Endpoint, m: string) {
    && (exists r | r in p.inScope :: Matches(r, e, false))
    && (forall r | r in p.outOfScope :: !Matches(r, e, true))
    && m in p.allowedMethods
    && AddressOk(x, p, e.host)
  }

  /** A URL is admitted exactly when it is canonicalisable and some inclusion covers it, no exclusion does, the
      method is allowed and, for a numeric host, the address is. */
  lemma AllowedExactly(x: Reader, p: Policy, text: string, u: WebUrl.Parts, m: string)
    requires WebUrl.IsBytes(u.path)
    ensures Decide(x, p, text, u, m).Allowed() <==>
              var c := WebUrl.CanonicalUrl(x.url, text, u, true);
              c.Accepted? && EndpointOf(x, c.url).Some? && Admitted(x, p, EndpointOf(x, c.url).value, m)
  {
  }

  // ----- What a URL is decided, read off the rules -----

  /** `*.` stands for one or more labels; anything else is the host itself. */
  ghost predicate CoversHost(target: string, host: string) {
    if |target| >= 2 && target[0] == '*' && target[1] == '.' then
      |host| >= |target| - 1 && host[|host| - (|target| - 1)..] == target[1..]
    else host == target
  }

  /** A slash and a star at the end stand for everything below; anything else is the path itself. */
  ghost predicate CoversPath(pattern: string, path: string) {
    if |pattern| >= 2 && pattern[|pattern| - 2] == '/' && pattern[|pattern| - 1] == '*' then
      |path| >= |pattern| - 1 && path[..|pattern| - 1] == pattern[..|pattern| - 1]
    else path == pattern
  }

  ghost predicate CoversScheme(schemes: seq<string>, s: WebUrl.Scheme) {
    || (s == WebUrl.Http && "http" in schemes) || (s == WebUrl.Https && "https" in schemes)
    || (s == WebUrl.Ws && "ws" in schemes) || (s == WebUrl.Wss && "wss" in schemes)
  }

  /** An inclusion without ports means the usual one, an exclusion without ports means every one. */
  ghost predicate CoversPort(ports: Option<seq<int>>, s: WebUrl.Scheme, port: int, exclusion: bool) {
    match ports
    case Some(listed) => exists i | 0 <= i < |listed| :: listed[i] == port
    case None => exclusion || port == if s == WebUrl.Https || s == WebUrl.Wss then 443 else 80
  }

  ghost predicate Covers(r: Rule, e: Endpoint, exclusion: bool) {
    && CoversHost(r.host, e.host) && CoversScheme(r.schemes, e.scheme)
    && CoversPort(r.ports, e.scheme, e.port, exclusion)
    && exists i | 0 <= i < |r.paths| :: CoversPath(r.paths[i], e.path)
  }

  /** The first rule that covers, if one does. */
  ghost predicate FirstCovering(rules: seq<Rule>, e: Endpoint, exclusion: bool, m: Option<Rule>) {
    match m
    case None => forall i | 0 <= i < |rules| :: !Covers(rules[i], e, exclusion)
    case Some(r) => exists i | 0 <= i < |rules| ::
      rules[i] == r && Covers(r, e, exclusion) && forall j | 0 <= j < i :: !Covers(rules[j], e, exclusion)
  }

  ghost predicate Inside(a: Address, n: Network) {
    n.version == a.version && n.first <= a.value && a.value <= n.last
  }

  /** A numeric host must be reachable: globally, or in a private network the program names, and never as a multicast,
      unspecified or link-local address. */
  ghost predicate Reachable(x: Reader, allowPrivate: bool, cidrs: seq<string>, a: Address) {
    && !a.special
    && (!a.global ==> allowPrivate && exists i | 0 <= i < |cidrs| :: Inside(a, x.network(cidrs[i])))
  }

  ghost predicate Listed(texts: seq<string>, t: string) {
    exists i | 0 <= i < |texts| :: texts[i] == t
  }

  /** The decision on an endpoint, with the first reason that holds. */
  ghost predicate Judged(x: Reader, p: Policy, e: Endpoint, m: string, d: Decision) {
    && FirstCovering(p.inScope, e, false, d.matched) && FirstCovering(p.outOfScope, e, true, d.excluded)
    && (d.methodAllowed <==> Listed(p.allowedMethods, m))
    && (d.excluded.Some? ==> d.reason == Some(Excluded))
    && (d.excluded.None? && d.matched.None? ==> d.reason == Some(OutOfScope))
    && (d.excluded.None? && d.matched.Some? && !Listed(p.allowedMethods, m) ==> d.reason == Some(MethodBlocked))
    && (d.excluded.None? && d.matched.Some? && Listed(p.allowedMethods, m) ==>
          match x.address(e.host)
          case None => d.reason == None
          case Some(a) =>
            d.reason == if Reachable(x, p.allowPrivate, p.privateCidrs, a) then None else Some(PrivateNotApproved))
  }

  /** What there is to judge of a canonical URL: its scheme, its host as rules write it, its port or else the usual
      one, and its decoded path. */
  ghost predicate Asks(c: WebUrl.Parts, host: string, e: Endpoint) {
    && c.scheme == Some(e.scheme) && e.host == host && WebUrl.Decodes(c.path, e.path)
    && (c.port.Some? && c.port.value != 0 ==> e.port == c.port.value)
    && (c.port.None? || c.port.value == 0 ==>
          e.port == if e.scheme == WebUrl.Https || e.scheme == WebUrl.Wss then 443 else 80)
  }

  ghost predicate Decided(x: Reader, p: Policy, canonical: WebUrl.Canonical, m: string, d: Decision) {
    match canonical
    case Refused(error) => d == Decision(None, None, Listed(p.allowedMethods, m), Some(UrlRefused(error)))
    case Accepted(c) =>
      match x.host(c.host)
      case None => d == Decision(None, None, Listed(p.allowedMethods, m), Some(HostRefused))
      case Some(host) => exists e :: Asks(c, host, e) && Judged(x, p, e, m, d)
  }

  lemma CoversMeans(r: Rule, e: Endpoint, exclusion: bool)
    ensures Matches(r, e, exclusion) <==> Covers(r, e, exclusion)
  {
    HostMeans(r.host, e.host);
    PathsMean(r.paths, e.path);
    SchemeMeans(r.schemes, e.scheme);
    PortMeans(r.ports, e, exclusion);
  }

  lemma PortMeans(ports: Option<seq<int>>, e: Endpoint, exclusion: bool)
    ensures PortMatches(ports, e, exclusion) <==> CoversPort(ports, e.scheme, e.port, exclusion)
  {
    match e.scheme
    case Http =>
    case Https =>
    case Ws =>
    case Wss =>
  }

  lemma PathsMean(paths: seq<string>, path: string)
    ensures (exists q | q in paths :: PathMatches(q, path))
            <==> exists i | 0 <= i < |paths| :: CoversPath(paths[i], path)
  {
    if q :| q in paths && PathMatches(q, path) {
      PathMeans(q, path);
      var i :| 0 <= i < |paths| && paths[i] == q;
      assert CoversPath(paths[i], path);
    }
    if i :| 0 <= i < |paths| && CoversPath(paths[i], path) {
      PathMeans(paths[i], path);
    }
  }

  lemma SchemeMeans(schemes: seq<string>, s: WebUrl.Scheme)
    ensures SchemeText(s) in schemes <==> CoversScheme(schemes, s)
  {
  }

  lemma HostMeans(target: string, host: string)
    ensures HostMatches(target, host) <==> CoversHost(target, host)
  {
    if |target| >= 2 {
      assert target[..2] == "*." <==> target[0] == '*' && target[1] == '.';
      if target[..2] == "*." {
        assert "." + target[2..] == target[1..];
      }
    }
  }

  lemma PathMeans(pattern: string, path: string)
    ensures PathMatches(pattern, path) <==> CoversPath(pattern, path)
  {
    if |pattern| >= 2 {
      var n := |pattern|;
      assert pattern[n - 2..] == [pattern[n - 2], pattern[n - 1]];
    }
  }

  lemma {:induction false} FirstCovers(rules: seq<Rule>, e: Endpoint, exclusion: bool)
    ensures FirstCovering(rules, e, exclusion, FirstMatch(rules, e, exclusion))
  {
    if rules != [] {
      var m, rest := FirstMatch(rules, e, exclusion), rules[1..];
      CoversMeans(rules[0], e, exclusion);
      FirstCovers(rest, e, exclusion);
      if Covers(rules[0], e, exclusion) {
        assert rules[0] == m.value;
      } else if m.Some? {
        var i :| 0 <= i < |rest| && rest[i] == m.value && Covers(m.value, e, exclusion)
                 && forall j | 0 <= j < i :: !Covers(rest[j], e, exclusion);
        forall j | 0 <= j < i + 1 ensures !Covers(rules[j], e, exclusion) {
          assert j > 0 ==> rules[j] == rest[j - 1];
        }
        assert rules[i + 1] == rest[i];
      } else {
        forall j | 0 <= j < |rules| ensures !Covers(rules[j], e, exclusion) {
          assert j > 0 ==> rules[j] == rest[j - 1];
        }
      }
    }
  }

  lemma ReachableMeans(x: Reader, allowPrivate: bool, cidrs: seq<string>, a: Address)
    ensures AddressAllowed(x, allowPrivate, cidrs, a) <==> Reachable(x, allowPrivate, cidrs, a)
  {
    if c :| c in cidrs && Within(a, x.network(c)) {
      var i :| 0 <= i < |cidrs| && cidrs[i] == c;
      assert Inside(a, x.network(cidrs[i]));
    }
  }

  lemma JudgeRead(x: Reader, p: Policy, e: Endpoint, m: string)
    ensures Judged(x, p, e, m, Judge(x, p, e, m in p.allowedMethods))
  {
    FirstCovers(p.inScope, e, false);
    FirstCovers(p.outOfScope, e, true);
    if x.address(e.host).Some? {
      ReachableMeans(x, p.allowPrivate, p.privateCidrs, x.address(e.host).value);
    }
  }

  /** Every decision is what the rules, the methods and the private networks of the program say of the canonical URL:
      the first inclusion and the first exclusion that cover it, and the first reason against it. */
  lemma DecisionRead(x: Reader, p: Policy, text: string, u: WebUrl.Parts, m: string)
    requires WebUrl.IsBytes(u.path)
    ensures Decided(x, p, WebUrl.CanonicalUrl(x.url, text, u, true), m, Decide(x, p, text, u, m))
  {
    var canonical := WebUrl.CanonicalUrl(x.url, text, u, true);
    if canonical.Accepted? && x.host(canonical.url.host).Some? {
      var e := EndpointOf(x, canonical.url).value;
      WebUrl.UnquoteDecodes(canonical.url.path);
      EndpointAsked(x, canonical.url);
      JudgeRead(x, p, e, m);
    }
  }

  lemma EndpointAsked(x: Reader, c: WebUrl.Parts)
    requires c.scheme.Some? && x.host(c.host).Some? && WebUrl.Decodes(c.path, WebUrl.Unquote(c.path))
    ensures Asks(c, x.host(c.host).value, EndpointOf(x, c).value)
  {
    match c.scheme.value
    case Http =>
    case Https =>
    case Ws =>
    case Wss =>
  }

  // ----- Canonical forms -----

  /** A URL and its canonical form get the same decision, exactly when the canonical form is not too long. */
  lemma CanonicalDecision(x: Reader, p: Policy, text: string, u: WebUrl.Parts, m: string)
    requires WebUrl.Lawful(x.url) && WebUrl.IsBytes(u.path) && (forall ch | ch in u.query :: ch in text)
    requires WebUrl.CanonicalUrl(x.url, text, u, true).Accepted?
    ensures var c := WebUrl.CanonicalUrl(x.url, text, u, true).url;
            && WebUrl.IsBytes(c.path)
            && (Decide(x, p, x.url.text(c), c, m) == Decide(x, p, text, u, m)
                <==> WebUrl.CharCount(x.url.text(c)) <= WebUrl.MAX_URL)
  {
    WebUrl.CanonicalFixedPoint(x.url, text, u, true);
  }

  lemma NoWildcardHost(host: string, star: string)
    requires WebUrl.HostText(host) && star == "*."
    ensures !StartsWith(host, star)
  {
    assert host[0] in host;
    assert |host| >= 2 ==> host[..2][0] == host[0];
  }

  lemma WholeHostMatches(host: string, all: string, paths: seq<string>, schemes: seq<string>, path: string)
    requires all == "/*" && paths == [all] && schemes == ["https"] && path != "" && path[0] == '/'
             && !StartsWith(host, "*.")
    ensures Matches(Rule(host, schemes, None, paths), Endpoint(WebUrl.Https, host, 443, path), false)
  {
    assert all in paths && all[..1] == "/" && path[..1] == "/" && PathMatches(all, path);
  }

  /** A URL with a path of, say, a thousand exclamation marks is admitted, and its canonical form is refused. */
  lemma LongPathDecided(x: Reader, p: Policy, prefix: string, host: string, n: nat, m: string)
    requires prefix == "https://shop.example" && WebUrl.HostText(host) && host[|host| - 1] != '.'
             && x.url.idna(host) == Some(host)
    requires 683 <= n <= 2027 && x.url.validUtf8(WebUrl.Marks(n)) && WebUrl.ReadOnlyPath(x.url, WebUrl.Marks(n), true)
    requires WebUrl.PrintsAs(x.url, prefix, host, WebUrl.Quote(WebUrl.Marks(n)))
    requires x.host(host) == Some(host) && x.address(host).None? && m in p.allowedMethods
    requires Rule(host, ["https"], None, ["/*"]) in p.inScope && p.outOfScope == []
    ensures var text, u := prefix + WebUrl.Marks(n), WebUrl.HttpsUrl(host, WebUrl.Marks(n));
            && Decide(x, p, text, u, m).Allowed()
            && var c := WebUrl.CanonicalUrl(x.url, text, u, true).url;
               WebUrl.IsBytes(c.path) && Decide(x, p, x.url.text(c), c, m).reason == Some(UrlRefused(WebUrl.InvalidUrl))
  {
    var path := WebUrl.Marks(n);
    WebUrl.LongPath(x.url, prefix, host, n, true);
    WebUrl.UnquoteQuote(path);
    NoWildcardHost(host, "*.");
    WholeHostMatches(host, "/*", ["/*"], ["https"], path);
    AllowedExactly(x, p, prefix + path, WebUrl.HttpsUrl(host, path), m);
  }

  /** Spellings of one URL get one decision: the path as decoded, the port with its default filled in, the host as
      IDNA writes it. */
  lemma SpellingsDecideAlike(x: Reader, p: Policy, t1: string, u1: WebUrl.Parts, t2: string, u2: WebUrl.Parts,
                             m: string)
    requires WebUrl.IsBytes(u1.path) && WebUrl.IsBytes(u2.path)
    requires WebUrl.CanonicalUrl(x.url, t1, u1, true).Accepted? && WebUrl.CanonicalUrl(x.url, t2, u2, true).Accepted?
    requires u1.scheme == u2.scheme && x.url.idna(u1.host) == x.url.idna(u2.host)
    requires WebUrl.PortOf(u1) == WebUrl.PortOf(u2) && WebUrl.PathOf(u1) == WebUrl.PathOf(u2)
    ensures Decide(x, p, t1, u1, m) == Decide(x, p, t2, u2, m)
  {
    WebUrl.UnquoteQuote(WebUrl.PathOf(u1));
    WebUrl.UnquoteQuote(WebUrl.PathOf(u2));
    var c1, c2 := WebUrl.CanonicalParts(x.url, u1, true), WebUrl.CanonicalParts(x.url, u2, true);
    assert EndpointOf(x, c1) == EndpointOf(x, c2);
  }

  /** A stricter program admits no more: dropping inclusions, adding exclusions, removing methods or private networks
      never turns a refusal into an admission. */
  lemma StricterAdmitsLess(x: Reader, strict: Policy, loose: Policy, text: string, u: WebUrl.Parts, m: string)
    requires WebUrl.IsBytes(u.path)
    requires forall r | r in strict.inScope :: r in loose.inScope
    requires forall r | r in loose.outOfScope :: r in strict.outOfScope
    requires forall s | s in strict.allowedMethods :: s in loose.allowedMethods
    requires strict.allowPrivate ==> loose.allowPrivate
    requires forall c | c in strict.privateCidrs :: c in loose.privateCidrs
    ensures Decide(x, strict, text, u, m).Allowed() ==> Decide(x, loose, text, u, m).Allowed()
  {
    AllowedExactly(x, strict, text, u, m);
    AllowedExactly(x, loose, text, u, m);
  }

  // ----- Session plans -----

  datatype Url = Url(text: string, parts: WebUrl.Parts)

  datatype Plan = Plan(identity: string, methods: seq<string>, posts: bool, budgets: Budgets, allowPrivate: bool,
                       cidrs: seq<string>, urls: seq<Url>)

  datatype PlanError = IdentityNotAllowed | MethodsExceed | PostBlocked | BudgetExceeds | PrivateExceeds
    | Refused(reason: Reason)

  predicate BudgetsWithin(a: Budgets, b: Budgets) {
    && a.perMinute <= b.perMinute && a.concurrent <= b.concurrent && a.perSession <= b.perSession
    && a.downloadBytes <= b.downloadBytes && a.responseBytes <= b.responseBytes && a.runtimeSeconds <= b.runtimeSeconds
  }

  predicate Subnet(n: Network, p: Network) {
    n.version == p.version && p.first <= n.first && n.last <= p.last
  }

  predicate Contained(x: Reader, c: string, parents: seq<string>) {
    exists q | q in parents :: Subnet(x.network(c), x.network(q))
  }

  predicate WellSplit(urls: seq<Url>) {
    forall u | u in urls :: WebUrl.IsBytes(u.parts.path)
  }

  predicate AllowedAt(x: Reader, p: Policy, u: Url, m: string)
    requires WebUrl.IsBytes(u.parts.path)
  {
    Decide(x, p, u.text, u.parts, m).Allowed()
  }

  /** `r` refuses `u` under its first refused method. */
  ghost predicate FirstRefusal(x: Reader, p: Policy, u: Url, methods: seq<string>, r: Reason)
    requires WebUrl.IsBytes(u.parts.path)
  {
    exists j | 0 <= j < |methods| :: Decide(x, p, u.text, u.parts, methods[j]).reason == Some(r)
                                     && forall l | 0 <= l < j :: AllowedAt(x, p, u, methods[l])
  }

  /** The first refusal among the methods decides them all. */
  lemma RefusalFound(x: Reader, p: Policy, u: Url, methods: seq<string>, j: nat, r: Reason)
    requires WebUrl.IsBytes(u.parts.path) && j < |methods| && forall l | 0 <= l < j :: AllowedAt(x, p, u, methods[l])
    requires Decide(x, p, u.text, u.parts, methods[j]).reason == Some(r)
    ensures FirstRefusal(x, p, u, methods, r) && methods[j] in methods && !AllowedAt(x, p, u, methods[j])
  {
  }

  method RefusedMethod(x: Reader, p: Policy, u: Url, methods: seq<string>) returns (r: Option<Reason>)
    requires WebUrl.IsBytes(u.parts.path)
    ensures r.None? <==> forall m | m in methods :: AllowedAt(x, p, u, m)
    ensures r.Some? ==> FirstRefusal(x, p, u, methods, r.value)
  {
    r := None;
    for j := 0 to |methods|
      invariant r.None? && forall l | 0 <= l < j :: AllowedAt(x, p, u, methods[l])
    {
      r := Decide(x, p, u.text, u.parts, methods[j]).reason;
      if r.Some? {
        RefusalFound(x, p, u, methods, j, r.value);
        return;
      }
    }
  }

  method RefusedUrl(x: Reader, p: Policy, urls: seq<Url>, methods: seq<string>) returns (r: Option<Reason>)
    requires WellSplit(urls)
    ensures r.None? <==> forall u, m | u in urls && m in methods :: AllowedAt(x, p, u, m)
    ensures r.Some? ==> exists i | 0 <= i < |urls| :: FirstRefusal(x, p, urls[i], methods, r.value)
                                                      && forall u, m | u in urls[..i] && m in methods ::
                                                        AllowedAt(x, p, u, m)
  {
    r := None;
    for i := 0 to |urls|
      invariant r.None? && forall u, m | u in urls[..i] && m in methods :: AllowedAt(x, p, u, m)
    {
      assert urls[..i + 1] == urls[..i] + [urls[i]];
      r := RefusedMethod(x, p, urls[i], methods);
      if r.Some? {
        return;
      }
    }
    assert urls[..|urls|] == urls;
  }

  /** A plan asks for nothing its program does not give. */
  predicate PlanWithin(x: Reader, p: Policy, plan: Plan)
    requires WellSplit(plan.urls)
  {
    && plan.identity in p.identities
    && plan.methods != [] && (forall m | m in plan.methods :: m in p.allowedMethods)
    && !plan.posts && BudgetsWithin(plan.budgets, p.budgets)
    && (plan.allowPrivate ==> p.allowPrivate)
    && (forall c | c in plan.cidrs :: Contained(x, c, p.privateCidrs))
    && (forall u, m | u in plan.urls && m in plan.methods :: AllowedAt(x, p, u, m))
  }

  /** What a plan is told, for the first thing it asks that its program does not give. */
  ghost predicate PlanAnswers(x: Reader, p: Policy, plan: Plan, e: Option<PlanError>) {
    if !Listed(p.identities, plan.identity) then e == Some(IdentityNotAllowed)
    else if |plan.methods| == 0 || exists i | 0 <= i < |plan.methods| :: !Listed(p.allowedMethods, plan.methods[i]) then
      e == Some(MethodsExceed)
    else if plan.posts then e == Some(PostBlocked)
    else if !Affordable(plan.budgets, p.budgets) then e == Some(BudgetExceeds)
    else if plan.allowPrivate && !p.allowPrivate then e == Some(PrivateExceeds)
    else if !NetworksInside(x, plan.cidrs, p.privateCidrs) then e == Some(PrivateExceeds)
    else e.Some? ==> e.value.Refused?
  }

  ghost predicate Affordable(plan: Budgets, given: Budgets) {
    match plan
    case Budgets(perMinute, concurrent, perSession, downloadBytes, responseBytes, runtimeSeconds) =>
      && !(perMinute > given.perMinute) && !(concurrent > given.concurrent) && !(perSession > given.perSession)
      && !(downloadBytes > given.downloadBytes) && !(responseBytes > given.responseBytes)
      && !(runtimeSeconds > given.runtimeSeconds)
  }

  /** Every network lies in one of the parents: same version, no address before it or after it. */
  ghost predicate NetworksInside(x: Reader, cidrs: seq<string>, parents: seq<string>) {
    forall i | 0 <= i < |cidrs| :: InOne(x, x.network(cidrs[i]), parents)
  }

  ghost predicate InOne(x: Reader, n: Network, parents: seq<string>) {
    exists j | 0 <= j < |parents| ::
      && n.version == x.network(parents[j]).version
      && x.network(parents[j]).first <= n.first && n.last <= x.network(parents[j]).last
  }

  lemma MethodsGiven(methods: seq<string>, allowed: seq<string>)
    ensures (exists m | m in methods :: m !in allowed)
            <==> exists i | 0 <= i < |methods| :: !Listed(allowed, methods[i])
  {
    forall m ensures m in allowed <==> Listed(allowed, m) {
    }
    if i :| 0 <= i < |methods| && !Listed(allowed, methods[i]) {
      assert methods[i] in methods;
    }
  }

  lemma NetworksContained(x: Reader, cidrs: seq<string>, parents: seq<string>)
    ensures NetworksInside(x, cidrs, parents) <==> forall k | 0 <= k < |cidrs| :: Contained(x, cidrs[k], parents)
  {
    forall c ensures Contained(x, c, parents) <==> InOne(x, x.network(c), parents) {
      if q :| q in parents && Subnet(x.network(c), x.network(q)) {
        var j :| 0 <= j < |parents| && parents[j] == q;
        assert Subnet(x.network(c), x.network(parents[j]));
      }
    }
  }

  /** `validate_program_plan`. A refused URL is the first one, under its first refused method. */
  method ValidatePlan(x: Reader, p: Policy, plan: Plan) returns (e: Option<PlanError>)
    requires WellSplit(plan.urls)
    ensures e.None? <==> PlanWithin(x, p, plan)
    ensures PlanAnswers(x, p, plan, e)
    ensures e.Some? && e.value.Refused? ==>
              exists i | 0 <= i < |plan.urls| :: FirstRefusal(x, p, plan.urls[i], plan.methods, e.value.reason)
                                                 && forall u, m | u in plan.urls[..i] && m in plan.methods ::
                                                   AllowedAt(x, p, u, m)
  {
    MethodsGiven(plan.methods, p.allowedMethods);
    NetworksContained(x, plan.cidrs, p.privateCidrs);
    if plan.identity !in p.identities {
      return Some(IdentityNotAllowed);
    }
    if plan.methods == [] || exists m | m in plan.methods :: m !in p.allowedMethods {
      return Some(MethodsExceed);
    }
    if plan.posts {
      return Some(PostBlocked);
    }
    if !BudgetsWithin(plan.budgets, p.budgets) {
      return Some(BudgetExceeds);
    }
    if plan.allowPrivate && !p.allowPrivate {
      return Some(PrivateExceeds);
    }
    e := None;
    for n := 0 to |plan.cidrs|
      invariant e.None? && forall k | 0 <= k < n :: Contained(x, plan.cidrs[k], p.privateCidrs)
    {
      if !Contained(x, plan.cidrs[n], p.privateCidrs) {
        return Some(PrivateExceeds);
      }
    }
    var refused := RefusedUrl(x, p, plan.urls, plan.methods);
    if refused.Some? {
      e := Some(Refused(refused.value));
    }
  }

  /** Every address that an accepted plan's own private networks admit is admitted by its program. */
  lemma PlanAddressesInside(x: Reader, p: Policy, plan: Plan, a: Address)
    requires WellSplit(plan.urls) && PlanWithin(x, p, plan) && AddressAllowed(x, plan.allowPrivate, plan.cidrs, a)
    ensures AddressAllowed(x, p.allowPrivate, p.privateCidrs, a)
  {
    if !a.global {
      var c :| c in plan.cidrs && Within(a, x.network(c));
      var q :| q in p.privateCidrs && Subnet(x.network(c), x.network(q));
      assert Within(a, x.network(q));
    }
  }

  // ----- Checking a URL against a grant -----

  /** What can be wrong with a grant itself: past its expiry, its file changed or gone, or its program no longer
      bound. */
  datatype GrantError = GrantExpired | GrantChanged | ProgramUnbound

  /** A granted plan: its canonical allowed URLs, the URLs it excludes as they were written, its program if it is bound
      to one, and what `live` finds wrong with it, if anything. */
  datatype Grant = Grant(plan: Plan, excluded: seq<string>, program: Option<Policy>, live: Option<GrantError>)

  datatype UrlCheck = Accepted(url: string) | NotLive(grantError: GrantError) | UrlExcluded
                    | NotCanonical(urlError: WebUrl.UrlError) | UrlNotApproved | PlanMethodBlocked
                      | Denied(reason: Reason)

  /** How texts split into parts; splitting what a canonical URL prints gives its parts back. */
  type Splitter = string -> WebUrl.Parts

  ghost predicate Splits(x: Reader, split: Splitter) {
    && (forall t :: WebUrl.IsBytes(split(t).path))
    && (forall t | SplitCanonical(x, split, t).Accepted? ::
          WebUrl.IsBytes(SplitCanonical(x, split, t).url.path)
          && split(x.url.text(SplitCanonical(x, split, t).url)) == SplitCanonical(x, split, t).url)
  }

  function SplitCanonical(x: Reader, split: Splitter, t: string): WebUrl.Canonical {
    if WebUrl.IsBytes(split(t).path) then WebUrl.CanonicalUrl(x.url, t, split(t), true)
      else WebUrl.Refused(WebUrl.InvalidUrl)
  }

  /** `canonical_url` as text. */
  function CanonicalText(x: Reader, split: Splitter, t: string): Option<string> {
    var c := SplitCanonical(x, split, t);
    if c.Accepted? then Some(x.url.text(c.url)) else None
  }

  /** Some excluded URL is a spelling of `text`. */
  predicate SpelledOut(x: Reader, split: Splitter, excluded: seq<string>, text: string) {
    exists e | e in excluded :: CanonicalText(x, split, e) == Some(text)
  }

  predicate Allows(plan: Plan, text: string) {
    exists u | u in plan.urls :: u.text == text
  }

  /** The program a grant is bound to, if any, admits the canonical URL under a method of the plan. */
  predicate ProgramAdmits(x: Reader, g: Grant, u: Url, m: string)
    requires WebUrl.IsBytes(u.parts.path)
  {
    g.program.Some? ==> m in g.plan.methods && AllowedAt(x, g.program.value, u, m)
  }

  function CanonicalOf(x: Reader, split: Splitter, value: string): Url
    requires SplitCanonical(x, split, value).Accepted?
  {
    var c := SplitCanonical(x, split, value).url;
    Url(x.url.text(c), c)
  }

  method FindSpelling(x: Reader, split: Splitter, excluded: seq<string>, text: string) returns (found: bool)
    ensures found <==> SpelledOut(x, split, excluded, text)
  {
    found := false;
    for i := 0 to |excluded|
      invariant !found && forall k | 0 <= k < i :: CanonicalText(x, split, excluded[k]) != Some(text)
    {
      if CanonicalText(x, split, excluded[i]) == Some(text) {
        assert excluded[i] in excluded;
        return true;
      }
    }
  }

  /** `t` is a URL whose canonical form prints as `text`. */
  ghost predicate Spells(x: Reader, split: Splitter, t: string, text: string) {
    && WebUrl.IsBytes(split(t).path)
    && match WebUrl.CanonicalUrl(x.url, t, split(t), true)
       case Accepted(c) => x.url.text(c) == text
       case Refused(_) => false
  }

  /** What a URL is told, for the first thing that stands against it: the grant, an exclusion as written, its own form,
      an exclusion in another spelling, the plan, the plan's methods, or the program. */
  ghost predicate CheckAnswers(x: Reader, split: Splitter, g: Grant, value: string, m: string, r: UrlCheck)
    requires WebUrl.IsBytes(split(value).path)
  {
    match g.live
    case Some(error) => r == NotLive(error)
    case None =>
      if Listed(g.excluded, value) then r == UrlExcluded
      else
        match WebUrl.CanonicalUrl(x.url, value, split(value), true)
        case Refused(error) => r == NotCanonical(error)
        case Accepted(c) => CanonicalAnswers(x, split, g, c, x.url.text(c), m, r)
  }

  ghost predicate CanonicalAnswers(x: Reader, split: Splitter, g: Grant, c: WebUrl.Parts, text: string, m: string,
                                   r: UrlCheck) {
    if exists i | 0 <= i < |g.excluded| :: Spells(x, split, g.excluded[i], text) then r == UrlExcluded
    else if forall i | 0 <= i < |g.plan.urls| :: g.plan.urls[i].text != text then r == UrlNotApproved
    else
      match g.program
      case None => r == Accepted(text)
      case Some(p) =>
        if !Listed(g.plan.methods, m) then r == PlanMethodBlocked
        else
          && WebUrl.IsBytes(c.path)
          && match Decide(x, p, text, c, m).reason
             case None => r == Accepted(text)
             case Some(reason) => r == Denied(reason)
  }

  lemma SpellingsMean(x: Reader, split: Splitter, excluded: seq<string>, text: string)
    requires Splits(x, split)
    ensures SpelledOut(x, split, excluded, text)
            <==> exists i | 0 <= i < |excluded| :: Spells(x, split, excluded[i], text)
  {
    forall e ensures CanonicalText(x, split, e) == Some(text) <==> Spells(x, split, e, text) {
    }
    if e :| e in excluded && CanonicalText(x, split, e) == Some(text) {
      var i :| 0 <= i < |excluded| && excluded[i] == e;
      assert Spells(x, split, excluded[i], text);
    }
    if i :| 0 <= i < |excluded| && Spells(x, split, excluded[i], text) {
      assert excluded[i] in excluded && CanonicalText(x, split, excluded[i]) == Some(text);
    }
  }

  lemma AllowsMeans(plan: Plan, text: string)
    ensures Allows(plan, text) <==> !forall i | 0 <= i < |plan.urls| :: plan.urls[i].text != text
  {
    if u :| u in plan.urls && u.text == text {
      var i :| 0 <= i < |plan.urls| && plan.urls[i] == u;
    }
  }

  /** `check_url`: accepts exactly a URL whose canonical form is on the plan and admitted by the program, under a live
      grant, unless it or any other spelling of it is excluded. */
  method CheckUrl(x: Reader, split: Splitter, g: Grant, value: string, m: string) returns (r: UrlCheck)
    requires Splits(x, split)
    ensures r.Accepted? <==>
              && g.live.None? && value !in g.excluded && SplitCanonical(x, split, value).Accepted?
              && !SpelledOut(x, split, g.excluded, CanonicalOf(x, split, value).text)
              && Allows(g.plan, CanonicalOf(x, split, value).text)
              && ProgramAdmits(x, g, CanonicalOf(x, split, value), m)
    ensures CheckAnswers(x, split, g, value, m, r)
    ensures r.Accepted? ==> r.url == CanonicalOf(x, split, value).text
    ensures r.Denied? ==> SplitCanonical(x, split, value).Accepted? && Allows(g.plan, CanonicalOf(x, split, value).text)
                          && g.program.Some? && m in g.plan.methods
                            && !AllowedAt(x, g.program.value, CanonicalOf(x, split, value), m)
  {
    if g.live.Some? {
      return NotLive(g.live.value);
    }
    if value in g.excluded {
      return UrlExcluded;
    }
    var canonical := SplitCanonical(x, split, value);
    if canonical.Refused? {
      return NotCanonical(canonical.error);
    }
    var u := CanonicalOf(x, split, value);
    SpellingsMean(x, split, g.excluded, u.text);
    AllowsMeans(g.plan, u.text);
    var excluded := FindSpelling(x, split, g.excluded, u.text);
    if excluded {
      return UrlExcluded;
    }
    if !Allows(g.plan, u.text) {
      return UrlNotApproved;
    }
    r := CheckProgram(x, g, u, m);
  }

  method CheckProgram(x: Reader, g: Grant, u: Url, m: string) returns (r: UrlCheck)
    requires WebUrl.IsBytes(u.parts.path)
    ensures r.Accepted? <==> ProgramAdmits(x, g, u, m)
    ensures r.Accepted? ==> r.url == u.text
    ensures !r.Accepted? ==> r.PlanMethodBlocked? || r.Denied?
    ensures r.PlanMethodBlocked? <==> g.program.Some? && m !in g.plan.methods
    ensures r.Denied? ==> g.program.Some? && m in g.plan.methods && !AllowedAt(x, g.program.value, u, m)
                          && Decide(x, g.program.value, u.text, u.parts, m).reason == Some(r.reason)
  {
    if g.program.Some? {
      if m !in g.plan.methods {
        return PlanMethodBlocked;
      }
      var d := Decide(x, g.program.value, u.text, u.parts, m);
      if !d.Allowed() {
        return Denied(d.reason.value);
      }
    }
    r := Accepted(u.text);
  }

  /** Once a plan has been validated against its program, a URL it allows is never denied for being out of scope: the
      check against the program can only repeat what validation found. */
  lemma ValidatedNeverDenied(x: Reader, split: Splitter, p: Policy, plan: Plan, value: string, m: string)
    requires Splits(x, split) && WellSplit(plan.urls) && PlanWithin(x, p, plan)
    requires forall u | u in plan.urls :: u.parts == split(u.text)
    requires m in plan.methods && SplitCanonical(x, split, value).Accepted?
             && Allows(plan, CanonicalOf(x, split, value).text)
    ensures var u := CanonicalOf(x, split, value);
            WebUrl.IsBytes(u.parts.path) && AllowedAt(x, p, u, m)
  {
    var c := CanonicalOf(x, split, value);
    var u :| u in plan.urls && u.text == c.text;
    assert u.parts == c.parts;
  }
}
