/** Policy normalisation and scope decisions (programs.py), over parsed policy trees. */
module ProgramPolicy {
  import opened Wrappers
  import opened Collections
  import opened Strings
  import WebUrl

  // ----- Policies -----

  /** A scope rule as written; absent keys are None. */
  datatype RawRule = RawRule(host: Option<string>, schemes: Option<seq<string>>, ports: Option<seq<int>>,
                             paths: Option<seq<string>>)

  datatype Rule = Rule(host: string, schemes: seq<string>, ports: Option<seq<int>>, paths: seq<string>)

  datatype Budgets = Budgets(perMinute: int, concurrent: int, perSession: int, downloadBytes: int, responseBytes: int,
                             runtimeSeconds: int)

  datatype RawPolicy = RawPolicy(
    schemaVersion: Option<int>, programId: Option<string>, name: Option<string>, policySource: Option<string>,
    inScope: Option<seq<RawRule>>, outOfScope: Option<seq<RawRule>>,
    allowedMethods: Option<seq<string>>, budgets: Budgets,
    prohibited: Option<seq<string>>, excludedCategories: Option<seq<string>>, identities: Option<seq<string>>,
    allowPrivate: Option<bool>, privateCidrs: Option<seq<string>>,
    submissionUrl: Option<string>, disclosure: Option<bool>)

  datatype Policy = Policy(
    programId: string, name: string, policySource: Option<string>,
    inScope: seq<Rule>, outOfScope: seq<Rule>,
    allowedMethods: seq<string>, budgets: Budgets,
    prohibited: seq<string>, excludedCategories: seq<string>, identities: seq<string>,
    allowPrivate: bool, privateCidrs: seq<string>,
    submissionUrl: Option<string>, disclosure: bool)

  /** A value that may be written as null. */
  datatype Nullable = Null | Text(text: string)

  datatype RawScope = RawScope(inScope: Option<seq<RawRule>>, outOfScope: Option<seq<RawRule>>)

  datatype RawNetwork = RawNetwork(
    allowedMethods: Option<seq<string>>, perMinute: Option<int>, concurrent: Option<int>, perSession: Option<int>,
    downloadBytes: Option<int>, responseBytes: Option<int>, runtimeSeconds: Option<int>)

  datatype RawReporting = RawReporting(submissionUrl: Option<Nullable>, disclosure: Option<bool>)

  /** A policy tree as parsed, with its nested mappings; absent keys are None. */
  datatype RawTree = RawTree(
    schemaVersion: Option<int>, programId: Option<string>, name: Option<string>, policySource: Option<Nullable>,
    scope: Option<RawScope>, network: Option<RawNetwork>, prohibited: Option<seq<string>>,
    excludedCategories: Option<seq<string>>, identities: Option<seq<string>>, reporting: Option<RawReporting>,
    allowPrivate: Option<bool>, privateCidrs: Option<seq<string>>)

  datatype PolicyError =
    | UnsupportedSchema | InvalidProgramId | InvalidName | InvalidSource | InvalidList | MethodNotSupported
      | InvalidBudget | InvalidByteLimits | InvalidIdentity | PrivateTargetsRequired | InvalidCidr | CidrTooBroad
        | InvalidSubmissionUrl | InvalidRules | HostRequired | InvalidHost | InvalidSchemes | InvalidPorts
          | InvalidPaths | InvalidPath

  datatype Checked<+T> = Good(value: T) | Bad(error: PolicyError)

  /** The syntax left abstract: host and CIDR normalisation, URL canonicalisation, UTF-8 validity, and the checks of
      identifiers and free text. */
  datatype Syntax = Syntax(
    host: string -> Option<string>,
    network: string -> Option<string>,
    tooBroad: string -> bool,
    submissionUrl: string -> Option<string>,
    validUtf8: string -> bool,
    tag: string -> bool,
    programId: string -> bool,
    plainLine: string -> bool,
    builtIn: set<string>,
    methods: set<string>,
    identityLabels: set<string>)

  const MAX_TEXT := 128
  const MAX_PATH := 2048
  const MAX_HOST := 253

  /** Normalising twice is normalising once for a CIDR, for a host that stays within 253 characters (its length is
      tested before IDNA, which may lengthen it) and for a submission URL that stays within 2048; printed networks and
      the built-in prohibitions are acceptable list entries. */
  ghost predicate Lawful(x: Syntax) {
    && (forall h :: x.host(h).Some? ==>
          (x.host(x.host(h).value) == x.host(h) <==> WebUrl.CharCount(x.host(h).value) <= MAX_HOST))
    && (forall n :: x.network(n).Some? ==>
          x.network(x.network(n).value) == x.network(n) && 1 <= WebUrl.CharCount(x.network(n).value) <= MAX_TEXT
          && x.tooBroad(x.network(n).value) == x.tooBroad(n))
    && (forall u :: x.submissionUrl(u).Some? ==>
          (x.submissionUrl(x.submissionUrl(u).value) == x.submissionUrl(u)
           <==> WebUrl.CharCount(x.submissionUrl(u).value) <= WebUrl.MAX_URL))
    && (forall s | s in x.builtIn :: x.tag(s) && 1 <= WebUrl.CharCount(s) <= MAX_TEXT)
  }

  // ----- Lists of strings -----

  /** `_strings`: a short list of short strings, sorted and without repeats. */
  function StringList(value: seq<string>, maximum: nat, accept: string -> bool): Checked<seq<string>> {
    if |value| <= maximum && forall s | s in value :: 1 <= WebUrl.CharCount(s) <= MAX_TEXT && accept(s) then
      Good(SortedSet(value)) else Bad(InvalidList)
  }

  /** A checked list checks to itself. */
  lemma StringListFixed(value: seq<string>, maximum: nat, accept: string -> bool)
    requires StringList(value, maximum, accept).Good?
    ensures StringList(StringList(value, maximum, accept).value, maximum, accept) == StringList(value, maximum, accept)
  {
    SortedSetFixed(value);
    SortedSetSize(value);
  }

  // ----- Scope paths -----

  predicate IsSubtree(value: string) {
    |value| >= 2 && value[|value| - 2..] == "/*"
  }

  predicate DecodedRefused(p: string) {
    '%' in p || '?' in p || '#' in p || '*' in p || WebUrl.HasDouble(p) || WebUrl.HasDots(p) || !WebUrl.PlainText(p)
  }

  /** `_path`: percent-decoded, with a trailing slash and star kept as the mark of a subtree. */
  function ScopePath(x: Syntax, value: string): Option<string> {
    if value == "" || value[0] != '/' || WebUrl.CharCount(value) > MAX_PATH then None else
    var prefix := if IsSubtree(value) then value[..|value| - 1] else value;
    if '*' in prefix || '?' in value || '#' in value then None else
    var decoded := WebUrl.Unquote(prefix);
    if !x.validUtf8(decoded) || DecodedRefused(decoded) then None
    else Some(if IsSubtree(value) then decoded + "*" else decoded)
  }

  /** Decoding an escape takes at least as many characters away as it adds. */
  lemma {:induction false} UnquoteShorter(s: string)
    ensures WebUrl.CharCount(WebUrl.Unquote(s)) <= WebUrl.CharCount(s)
    decreases |s|
  {
    if s == [] {
    } else if WebUrl.Escape(s) {
      UnquoteShorter(s[3..]);
      var u := WebUrl.Unquote(s);
      assert u[1..] == WebUrl.Unquote(s[3..]);
      assert s == s[..3] + s[3..];
      WebUrl.CharCountConcat(s[..3], s[3..]);
      WebUrl.AsciiCount(s[..3]);
    } else {
      UnquoteShorter(s[1..]);
      var u := WebUrl.Unquote(s);
      assert u[0] == s[0] && u[1..] == WebUrl.Unquote(s[1..]);
    }
  }

  /** A slash is never part of an escape, so it survives at either end. */
  lemma {:induction false} UnquoteKeepsSlashes(s: string)
    requires s != ""
    ensures WebUrl.Unquote(s) != ""
    ensures s[0] == '/' ==> WebUrl.Unquote(s)[0] == '/'
    ensures s[|s| - 1] == '/' ==> WebUrl.Unquote(s)[|WebUrl.Unquote(s)| - 1] == '/'
    decreases |s|
  {
    if WebUrl.Escape(s) {
      if |s| > 3 {
        UnquoteKeepsSlashes(s[3..]);
      }
    } else if |s| > 1 {
      UnquoteKeepsSlashes(s[1..]);
    }
  }

  /** A decoded directory with the mark of a subtree. */
  lemma SubtreeFixed(x: Syntax, decoded: string)
    requires decoded != "" && decoded[0] == decoded[|decoded| - 1] == '/' && WebUrl.CharCount(decoded) + 1 <= MAX_PATH
    requires x.validUtf8(decoded) && !DecodedRefused(decoded)
    ensures ScopePath(x, decoded + "*") == Some(decoded + "*")
  {
    var out := decoded + "*";
    WebUrl.UnquotePlain(decoded);
    WebUrl.CharCountConcat(decoded, "*");
    assert out[..|out| - 1] == decoded;
    assert out[|out| - 2..] == "/*";
  }

  /** A normalised scope path normalises to itself. */
  lemma ScopePathFixed(x: Syntax, value: string)
    requires ScopePath(x, value).Some?
    ensures ScopePath(x, ScopePath(x, value).value) == ScopePath(x, value)
  {
    var subtree := IsSubtree(value);
    var prefix := if subtree then value[..|value| - 1] else value;
    var decoded := WebUrl.Unquote(prefix);
    UnquoteKeepsSlashes(prefix);
    UnquoteShorter(prefix);
    if subtree {
      assert value == prefix + "*";
      WebUrl.CharCountConcat(prefix, "*");
      SubtreeFixed(x, decoded);
    } else {
      WebUrl.UnquotePlain(decoded);
      NoStarNoSubtree(decoded);
    }
  }

  lemma NoStarNoSubtree(s: string)
    ensures IsSubtree(s) ==> '*' in s
  {
    if IsSubtree(s) {
      assert s[|s| - 2..][1] == s[|s| - 1];
    }
  }

  // ----- Rules -----

  /** The distinct ports of a list among 1 to `n`, ascending. */
  function PortsUpTo(n: nat, ports: seq<int>): (r: seq<int>)
    ensures |r| <= n
    ensures forall p :: p in r <==> p in ports && 1 <= p <= n
  {
    if n == 0 then [] else PortsUpTo(n - 1, ports) + if n in ports then [n] else []
  }

  const MAX_PORT: nat := 65535

  lemma {:induction false} PortsDependOnMembers(n: nat, a: seq<int>, b: seq<int>)
    requires forall p | 1 <= p <= n :: p in a <==> p in b
    ensures PortsUpTo(n, a) == PortsUpTo(n, b)
  {
    if n != 0 {
      PortsDependOnMembers(n - 1, a, b);
    }
  }

  lemma {:induction false} PortsDistinct(n: nat, ports: seq<int>)
    ensures Distinct(PortsUpTo(n, ports))
    ensures |PortsUpTo(n, ports)| <= |ports|
  {
    PortsAscend(n, ports);
    var r := PortsUpTo(n, ports);
    ElementsSize(r);
    ElementsSize(ports);
    SubsetSize(Elements(r), Elements(ports));
  }

  lemma {:induction false} PortsAscend(n: nat, ports: seq<int>)
    ensures forall i, j :: 0 <= i < j < |PortsUpTo(n, ports)| ==> PortsUpTo(n, ports)[i] < PortsUpTo(n, ports)[j]
  {
    if n != 0 {
      PortsAscend(n - 1, ports);
      var r := PortsUpTo(n - 1, ports);
      forall i | 0 <= i < |r| ensures r[i] < n {
        assert r[i] in r;
      }
    }
  }

  function PortList(ports: seq<int>): Checked<seq<int>> {
    if 1 <= |ports| <= 100 && forall p | p in ports :: 1 <= p <= MAX_PORT then Good(PortsUpTo(MAX_PORT, ports))
      else Bad(InvalidPorts)
  }

  lemma PortListFixed(ports: seq<int>)
    requires PortList(ports).Good?
    ensures PortList(PortList(ports).value) == PortList(ports)
  {
    var r, top := PortList(ports).value, MAX_PORT;
    PortsDistinct(top, ports);
    assert ports[0] in ports;
    assert ports[0] in r;
    PortsDependOnMembers(top, r, ports);
  }

  predicate SchemeName(s: string) {
    s == "http" || s == "https" || s == "ws" || s == "wss"
  }

  function DefaultSchemes(excluded: bool): seq<string> {
    if excluded then ["http", "https", "ws", "wss"] else ["https"]
  }

  function DefaultPaths(excluded: bool): seq<string> {
    if excluded then ["/*"] else ["/"]
  }

  /** An exclusion covers every scheme and path unless it says otherwise; an inclusion only https and the root. */
  function SchemesOf(r: RawRule, excluded: bool): seq<string> {
    if r.schemes.Some? then r.schemes.value else DefaultSchemes(excluded)
  }

  function PathsOf(r: RawRule, excluded: bool): seq<string> {
    if r.paths.Some? then r.paths.value else DefaultPaths(excluded)
  }

  function PathValues(x: Syntax, paths: seq<string>): (r: seq<string>)
    requires forall p | p in paths :: ScopePath(x, p).Some?
    ensures |r| == |paths|
    ensures forall i :: 0 <= i < |r| ==> r[i] == ScopePath(x, paths[i]).value
  {
    seq(|paths|, i requires 0 <= i < |paths| => ScopePath(x, paths[i]).value)
  }

  function PathList(x: Syntax, paths: seq<string>): Checked<seq<string>> {
    if !(1 <= |paths| <= 100) then Bad(InvalidPaths)
    else if exists p | p in paths :: ScopePath(x, p).None? then Bad(InvalidPath)
    else Good(SortedSet(PathValues(x, paths)))
  }

  lemma NormalPaths(x: Syntax, paths: seq<string>)
    requires forall p | p in paths :: ScopePath(x, p).Some?
    ensures forall p | p in PathValues(x, paths) :: ScopePath(x, p) == Some(p)
  {
    var values := PathValues(x, paths);
    forall p | p in values ensures ScopePath(x, p) == Some(p) {
      var i :| 0 <= i < |values| && values[i] == p;
      assert paths[i] in paths;
      ScopePathFixed(x, paths[i]);
    }
  }

  lemma NormalPathsStay(x: Syntax, r: seq<string>)
    requires 1 <= |r| <= 100 && (forall p | p in r :: ScopePath(x, p) == Some(p)) && Distinct(r) && SortedBy(Order(), r)
    ensures PathList(x, r) == Good(r)
  {
    assert PathValues(x, r) == r;
    SortedSetFixed(r);
  }

  lemma PathListFixed(x: Syntax, paths: seq<string>)
    requires PathList(x, paths).Good?
    ensures PathList(x, PathList(x, paths).value) == PathList(x, paths)
  {
    var values := PathValues(x, paths);
    NormalPaths(x, paths);
    SortedSetSize(values);
    assert values[0] in SortedSet(values);
    NormalPathsStay(x, SortedSet(values));
  }

  function SchemeList(schemes: seq<string>): Checked<seq<string>> {
    var r := StringList(schemes, 100, (s: string) => true);
    if r.Bad? then r
    else if r.value == [] || exists s | s in r.value :: !SchemeName(s) then Bad(InvalidSchemes)
    else r
  }

  lemma SchemeListFixed(schemes: seq<string>)
    requires SchemeList(schemes).Good?
    ensures SchemeList(SchemeList(schemes).value) == SchemeList(schemes)
  {
    StringListFixed(schemes, 100, (s: string) => true);
  }

  function OneRule(x: Syntax, r: RawRule, excluded: bool): Checked<Rule> {
    if r.host.None? then Bad(HostRequired) else
    var host := x.host(r.host.value);
    if host.None? then Bad(InvalidHost) else
    var schemes := SchemeList(SchemesOf(r, excluded));
    if schemes.Bad? then Bad(schemes.error) else
    var ports := if r.ports.Some? then PortList(r.ports.value) else Good([]);
    if ports.Bad? then Bad(ports.error) else
    var paths := PathList(x, PathsOf(r, excluded));
    if paths.Bad? then Bad(paths.error) else
    Good(Rule(host.value, schemes.value, if r.ports.Some? then Some(ports.value) else None, paths.value))
  }

  function RawOf(r: Rule): RawRule {
    RawRule(Some(r.host), Some(r.schemes), r.ports, Some(r.paths))
  }

  /** The conditions under which a rule is accepted as `out`. */
  predicate RuleIs(x: Syntax, r: RawRule, excluded: bool, out: Rule) {
    && r.host.Some? && x.host(r.host.value) == Some(out.host)
    && SchemeList(SchemesOf(r, excluded)) == Good(out.schemes)
    && (if r.ports.Some? then out.ports.Some? && PortList(r.ports.value) == Good(out.ports.value) else out.ports.None?)
    && PathList(x, PathsOf(r, excluded)) == Good(out.paths)
  }

  lemma OneRuleExactly(x: Syntax, r: RawRule, excluded: bool, out: Rule)
    ensures OneRule(x, r, excluded) == Good(out) <==> RuleIs(x, r, excluded, out)
  {
  }

  /** A rule's host is short enough to be read again. */
  predicate ShortHost(out: Rule) {
    WebUrl.CharCount(out.host) <= MAX_HOST
  }

  lemma RuleIsFixed(x: Syntax, r: RawRule, excluded: bool, out: Rule)
    requires Lawful(x) && RuleIs(x, r, excluded, out)
    ensures RuleIs(x, RawOf(out), excluded, out) <==> ShortHost(out)
  {
    SchemeListFixed(SchemesOf(r, excluded));
    if r.ports.Some? {
      PortListFixed(r.ports.value);
    }
    PathListFixed(x, PathsOf(r, excluded));
  }

  /** A normalised rule normalises to itself exactly when its host is short enough. */
  lemma OneRuleFixed(x: Syntax, r: RawRule, excluded: bool, out: Rule)
    requires Lawful(x) && OneRule(x, r, excluded) == Good(out)
    ensures OneRule(x, RawOf(out), excluded) == Good(out) <==> ShortHost(out)
  {
    OneRuleExactly(x, r, excluded, out);
    RuleIsFixed(x, r, excluded, out);
    OneRuleExactly(x, RawOf(out), excluded, out);
  }

  /** The first failure decides the error. */
  function Combined(results: seq<Checked<Rule>>): (c: Checked<seq<Rule>>)
    ensures c.Good? ==> |c.value| == |results|
  {
    if results == [] then Good([])
    else
      var front, last := Combined(results[..|results| - 1]), results[|results| - 1];
      if front.Bad? then front else if last.Bad? then Bad(last.error) else Good(front.value + [last.value])
  }

  /** Results combine to a list exactly when each is good. */
  lemma {:induction false} CombinedExactly(results: seq<Checked<Rule>>, out: seq<Rule>)
    requires |out| == |results|
    ensures Combined(results) == Good(out) <==> forall i | 0 <= i < |results| :: results[i] == Good(out[i])
  {
    if results != [] {
      var n := |results| - 1;
      CombinedExactly(results[..n], out[..n]);
      assert out == out[..n] + [out[n]];
      assert forall i | 0 <= i < n :: results[..n][i] == results[i] && out[..n][i] == out[i];
    }
  }

  function Results(x: Syntax, rules: seq<RawRule>, excluded: bool): (r: seq<Checked<Rule>>)
    ensures |r| == |rules|
    ensures forall i :: 0 <= i < |r| ==> r[i] == OneRule(x, rules[i], excluded)
  {
    seq(|rules|, i requires 0 <= i < |rules| => OneRule(x, rules[i], excluded))
  }

  function EachRule(x: Syntax, rules: seq<RawRule>, excluded: bool): Checked<seq<Rule>> {
    Combined(Results(x, rules, excluded))
  }

  function RawsOf(rules: seq<Rule>): (r: seq<RawRule>)
    ensures |r| == |rules|
    ensures forall i :: 0 <= i < |r| ==> r[i] == RawOf(rules[i])
  {
    seq(|rules|, i requires 0 <= i < |rules| => RawOf(rules[i]))
  }

  predicate ShortHosts(rules: seq<Rule>) {
    forall i | 0 <= i < |rules| :: ShortHost(rules[i])
  }

  lemma EachRuleFixed(x: Syntax, rules: seq<RawRule>, excluded: bool, out: seq<Rule>)
    requires Lawful(x) && EachRule(x, rules, excluded) == Good(out)
    ensures EachRule(x, RawsOf(out), excluded) == Good(out) <==> ShortHosts(out)
  {
    var before, after := Results(x, rules, excluded), Results(x, RawsOf(out), excluded);
    CombinedExactly(before, out);
    CombinedExactly(after, out);
    forall i | 0 <= i < |out| ensures after[i] == Good(out[i]) <==> ShortHost(out[i]) {
      assert before[i] == Good(out[i]);
      OneRuleFixed(x, rules[i], excluded, out[i]);
    }
  }

  function Rules(x: Syntax, rules: seq<RawRule>, excluded: bool): Checked<seq<Rule>> {
    if |rules| > 100 then Bad(InvalidRules) else EachRule(x, rules, excluded)
  }

  /** A normalised rule list normalises to itself exactly when all its hosts are short enough. */
  lemma RulesFixed(x: Syntax, rules: seq<RawRule>, excluded: bool, out: seq<Rule>)
    requires Lawful(x) && Rules(x, rules, excluded) == Good(out)
    ensures Rules(x, RawsOf(out), excluded) == Good(out) <==> ShortHosts(out)
  {
    EachRuleFixed(x, rules, excluded, out);
  }

  /** The host of a rule does not grow past 253 characters when it is normalised. */
  predicate HostStaysShort(x: Syntax, r: RawRule) {
    r.host.Some? && x.host(r.host.value).Some? ==> WebUrl.CharCount(x.host(r.host.value).value) <= MAX_HOST
  }

  predicate HostsStayShort(x: Syntax, rules: seq<RawRule>) {
    forall i | 0 <= i < |rules| :: HostStaysShort(x, rules[i])
  }

  lemma HostKept(x: Syntax, r: RawRule, excluded: bool, out: Rule)
    requires OneRule(x, r, excluded) == Good(out)
    ensures ShortHost(out) <==> HostStaysShort(x, r)
  {
    OneRuleExactly(x, r, excluded, out);
  }

  lemma HostsKept(x: Syntax, rules: seq<RawRule>, excluded: bool, out: seq<Rule>)
    requires EachRule(x, rules, excluded) == Good(out)
    ensures ShortHosts(out) <==> HostsStayShort(x, rules)
  {
    CombinedExactly(Results(x, rules, excluded), out);
    forall i | 0 <= i < |rules| ensures ShortHost(out[i]) <==> HostStaysShort(x, rules[i]) {
      HostKept(x, rules[i], excluded, out[i]);
    }
  }

  // ----- Networks and prohibitions -----

  function Networks(x: Syntax, cidrs: seq<string>): (r: seq<string>)
    requires forall c | c in cidrs :: x.network(c).Some?
    ensures |r| == |cidrs|
    ensures forall i :: 0 <= i < |r| ==> r[i] == x.network(cidrs[i]).value
  {
    seq(|cidrs|, i requires 0 <= i < |cidrs| => x.network(cidrs[i]).value)
  }

  predicate AllNetworks(x: Syntax, cidrs: seq<string>) {
    forall c | c in cidrs :: x.network(c).Some?
  }

  predicate NoneTooBroad(x: Syntax, cidrs: seq<string>) {
    forall c | c in cidrs :: !x.tooBroad(c)
  }

  /** Parsed and printed back in order. */
  function Printed(x: Syntax, listed: seq<string>, allowPrivate: bool): Checked<seq<string>> {
    if listed != [] && !allowPrivate then Bad(PrivateTargetsRequired)
    else if !AllNetworks(x, listed) then Bad(InvalidCidr)
    else if !NoneTooBroad(x, listed) then Bad(CidrTooBroad)
    else Good(Sort(Order(), Networks(x, listed)))
  }

  /** Two spellings of one network are both kept. */
  function CidrList(x: Syntax, cidrs: seq<string>, allowPrivate: bool): Checked<seq<string>> {
    var listed := StringList(cidrs, 30, (s: string) => true);
    if listed.Bad? then listed else Printed(x, listed.value, allowPrivate)
  }

  /** Networks as printed: each prints to itself. */
  ghost predicate PrintedAlready(x: Syntax, cidrs: seq<string>) {
    forall c | c in cidrs :: x.network(c) == Some(c) && 1 <= WebUrl.CharCount(c) <= MAX_TEXT && !x.tooBroad(c)
  }

  lemma PrintedNetworks(x: Syntax, listed: seq<string>, allowPrivate: bool, out: seq<string>)
    requires Lawful(x) && Printed(x, listed, allowPrivate) == Good(out)
    ensures |out| == |listed| && PrintedAlready(x, out) && SortedBy(Order(), out)
  {
    var printed := Networks(x, listed);
    SameMembers(out, printed);
    OrderTotal();
    SortSorted(Order(), printed);
    forall c | c in out ensures x.network(c) == Some(c) && 1 <= WebUrl.CharCount(c) <= MAX_TEXT && !x.tooBroad(c) {
      var i :| 0 <= i < |listed| && printed[i] == c;
      assert listed[i] in listed;
    }
  }

  /** Printed networks print to themselves. */
  lemma PrintedFixed(x: Syntax, out: seq<string>, allowPrivate: bool)
    requires PrintedAlready(x, out) && SortedBy(Order(), out) && (out != [] ==> allowPrivate)
    ensures Printed(x, out, allowPrivate) == Good(out)
  {
    assert Networks(x, out) == out;
    SortIdentity(Order(), out);
  }

  predicate ShortTexts(cidrs: seq<string>) {
    |cidrs| <= 30 && forall c | c in cidrs :: 1 <= WebUrl.CharCount(c) <= MAX_TEXT
  }

  lemma CidrListExactly(x: Syntax, cidrs: seq<string>, allowPrivate: bool, out: seq<string>)
    ensures CidrList(x, cidrs, allowPrivate) == Good(out)
            <==> ShortTexts(cidrs) && Printed(x, SortedSet(cidrs), allowPrivate) == Good(out)
  {
  }

  /** The list of networks checks to itself exactly when no network is in it twice. */
  lemma CidrListFixed(x: Syntax, cidrs: seq<string>, allowPrivate: bool, out: seq<string>)
    requires Lawful(x) && CidrList(x, cidrs, allowPrivate) == Good(out)
    ensures CidrList(x, out, allowPrivate) == Good(out) <==> Distinct(out)
  {
    CidrListExactly(x, cidrs, allowPrivate, out);
    CidrListExactly(x, out, allowPrivate, out);
    SortedSetSize(cidrs);
    PrintedNetworks(x, SortedSet(cidrs), allowPrivate, out);
    RelistedNetworks(x, out, allowPrivate);
    SortedSetFixed(out);
  }

  /** Listing printed networks again removes repeats and nothing else. */
  lemma RelistedNetworks(x: Syntax, out: seq<string>, allowPrivate: bool)
    requires PrintedAlready(x, out) && (out != [] ==> allowPrivate)
    ensures Printed(x, SortedSet(out), allowPrivate) == Good(SortedSet(out))
  {
    var again := SortedSet(out);
    assert PrintedAlready(x, again);
    if again != [] {
      assert again[0] in out;
    }
    PrintedFixed(x, again, allowPrivate);
  }

  /** The built-in prohibitions are always among the prohibited actions. */
  function ProhibitedList(x: Syntax, actions: seq<string>): Checked<seq<string>> {
    var listed := StringList(actions, 100, x.tag);
    if listed.Bad? then listed else Good(Listed(x.builtIn + Elements(listed.value)))
  }

  /** The merged list checks to itself exactly when merging did not make it too long. */
  lemma ProhibitedListFixed(x: Syntax, actions: seq<string>)
    requires Lawful(x) && ProhibitedList(x, actions).Good?
    ensures var out := ProhibitedList(x, actions).value;
            ProhibitedList(x, out) == Good(out) <==> |out| <= 100
  {
    var out := ProhibitedList(x, actions).value;
    assert forall s | s in out :: 1 <= WebUrl.CharCount(s) <= MAX_TEXT && x.tag(s);
    SortedSetFixed(out);
    assert x.builtIn + Elements(out) == Elements(out);
    if |out| <= 100 {
      ListingUnique(Listed(x.builtIn + Elements(SortedSet(out))), out);
    }
  }

  /** No network is written in two ways. */
  predicate OneSpelling(x: Syntax, cidrs: seq<string>) {
    forall c, d | c in cidrs && d in cidrs && c != d :: x.network(c) != x.network(d)
  }

  lemma DistinctNetworks(x: Syntax, listed: seq<string>)
    requires Distinct(listed) && AllNetworks(x, listed)
    ensures Distinct(Networks(x, listed)) <==> OneSpelling(x, listed)
  {
    var printed := Networks(x, listed);
    if Distinct(printed) {
      forall c, d | c in listed && d in listed && c != d ensures x.network(c) != x.network(d) {
        var i :| 0 <= i < |listed| && listed[i] == c;
        var j :| 0 <= j < |listed| && listed[j] == d;
        assert printed[i] != printed[j];
      }
    }
  }

  /** The printed list repeats a network exactly when the list given writes one in two ways. */
  lemma RepeatedNetworks(x: Syntax, cidrs: seq<string>, allowPrivate: bool, out: seq<string>)
    requires CidrList(x, cidrs, allowPrivate) == Good(out)
    ensures Distinct(out) <==> OneSpelling(x, cidrs)
  {
    var listed := SortedSet(cidrs);
    CidrListExactly(x, cidrs, allowPrivate, out);
    SortedSetSize(cidrs);
    DistinctNetworks(x, listed);
    SameMembers(out, Networks(x, listed));
    assert forall c :: c in listed <==> c in cidrs;
  }

  lemma MergedSize(x: Syntax, actions: seq<string>)
    requires ProhibitedList(x, actions).Good?
    ensures |ProhibitedList(x, actions).value| == |x.builtIn + Elements(actions)|
  {
    SortedSetSize(actions);
    var out := ProhibitedList(x, actions).value;
    ElementsSize(out);
    assert Elements(SortedSet(actions)) == Elements(actions);
    assert Elements(out) == x.builtIn + Elements(actions);
  }

  // ----- Whole policies -----

  predicate BudgetsOk(b: Budgets) {
    && 1 <= b.perMinute <= 120 && 1 <= b.concurrent <= 4 && 1 <= b.perSession <= 300
    && 1 <= b.downloadBytes <= 33554432 && 1 <= b.responseBytes <= 8388608 && 1 <= b.runtimeSeconds <= 120
  }

  function MethodList(x: Syntax, methods: seq<string>): Checked<seq<string>> {
    var r := StringList(methods, 100, (s: string) => true);
    if r.Bad? then r
    else if r.value == [] || exists m | m in r.value :: m !in x.methods then Bad(MethodNotSupported)
    else r
  }

  function IdentityList(x: Syntax, labels: seq<string>): Checked<seq<string>> {
    var r := StringList(labels, 100, (s: string) => true);
    if r.Bad? then r
    else if r.value == [] || exists i | i in r.value :: i !in x.identityLabels then Bad(InvalidIdentity)
    else r
  }

  lemma NamedListsFixed(x: Syntax, methods: seq<string>, labels: seq<string>)
    ensures MethodList(x, methods).Good? ==> MethodList(x, MethodList(x, methods).value) == MethodList(x, methods)
    ensures IdentityList(x, labels).Good? ==> IdentityList(x, IdentityList(x, labels).value) == IdentityList(x, labels)
  {
    if MethodList(x, methods).Good? {
      StringListFixed(methods, 100, (s: string) => true);
    }
    if IdentityList(x, labels).Good? {
      StringListFixed(labels, 100, (s: string) => true);
    }
  }

  function Default<T>(o: Option<T>, d: T): T {
    if o.Some? then o.value else d
  }

  /** The lists of a policy, checked in the order the validator reads them after the scalar fields. */
  datatype Lists = Lists(methods: seq<string>, identities: seq<string>, cidrs: seq<string>, inScope: seq<Rule>,
                         outOfScope: seq<Rule>, prohibited: seq<string>, excludedCategories: seq<string>)

  /** The first failure among the checks decides, in the order given. */
  function Gathered(methods: Checked<seq<string>>, budgets: bool, bytes: bool, identities: Checked<seq<string>>,
                    cidrs: Checked<seq<string>>, url: bool, inScope: Checked<seq<Rule>>, outOfScope: Checked<seq<Rule>>,
                    prohibited: Checked<seq<string>>, excluded: Checked<seq<string>>): Checked<Lists>
  {
    if methods.Bad? then Bad(methods.error)
    else if !budgets then Bad(InvalidBudget)
    else if !bytes then Bad(InvalidByteLimits)
    else if identities.Bad? then Bad(identities.error)
    else if cidrs.Bad? then Bad(cidrs.error)
    else if !url then Bad(InvalidSubmissionUrl)
    else if inScope.Bad? then Bad(inScope.error)
    else if outOfScope.Bad? then Bad(outOfScope.error)
    else if prohibited.Bad? then Bad(prohibited.error)
    else if excluded.Bad? then Bad(excluded.error)
    else Good(Lists(methods.value, identities.value, cidrs.value, inScope.value, outOfScope.value, prohibited.value,
                    excluded.value))
  }

  function CheckedLists(x: Syntax, r: RawPolicy): Checked<Lists> {
    Gathered(MethodList(x, Default(r.allowedMethods, DefaultMethods())),
             BudgetsOk(r.budgets), r.budgets.responseBytes <= r.budgets.downloadBytes,
             IdentityList(x, Default(r.identities, DefaultIdentities())),
             CidrList(x, Default(r.privateCidrs, []), Default(r.allowPrivate, false)),
             r.submissionUrl.Some? ==> x.submissionUrl(r.submissionUrl.value).Some?,
             Rules(x, Default(r.inScope, []), false), Rules(x, Default(r.outOfScope, []), true),
             ProhibitedList(x, Default(r.prohibited, [])),
             StringList(Default(r.excludedCategories, []), 100, x.tag))
  }

  function DefaultMethods(): seq<string> {
    ["GET", "HEAD", "OPTIONS"]
  }

  function DefaultIdentities(): seq<string> {
    ["anonymous"]
  }

  predicate NameOk(x: Syntax, name: string) {
    1 <= WebUrl.CharCount(name) <= 256 && x.plainLine(name)
  }

  predicate SourceOk(x: Syntax, source: Option<string>) {
    source.Some? ==> WebUrl.CharCount(source.value) <= 2048 && x.plainLine(source.value)
  }

  /** What is wrong with the scalar fields, in the order in which it is noticed. */
  function ScalarError(x: Syntax, r: RawPolicy): Option<PolicyError> {
    if Default(r.schemaVersion, 1) != 1 then Some(UnsupportedSchema)
    else if r.programId.None? || !x.programId(r.programId.value) then Some(InvalidProgramId)
    else if !NameOk(x, Default(r.name, r.programId.value)) then Some(InvalidName)
    else if !SourceOk(x, r.policySource) then Some(InvalidSource)
    else None
  }

  /** `validate_profile`. */
  function Validate(x: Syntax, r: RawPolicy): Checked<Policy> {
    if ScalarError(x, r).Some? then Bad(ScalarError(x, r).value)
    else Assembled(r, Default(r.name, r.programId.value), CheckedLists(x, r), Submitted(x, r.submissionUrl))
  }

  function Assembled(r: RawPolicy, name: string, lists: Checked<Lists>, url: Option<string>): Checked<Policy>
    requires r.programId.Some?
  {
    if lists.Bad? then Bad(lists.error) else
    var l := lists.value;
    Good(Policy(r.programId.value, name, r.policySource, l.inScope, l.outOfScope, l.methods, r.budgets, l.prohibited,
                l.excludedCategories, l.identities, Default(r.allowPrivate, false), l.cidrs, url,
                  Default(r.disclosure, true)))
  }

  /** The policy written out again, every key present. */
  function Written(p: Policy): RawPolicy {
    RawPolicy(Some(1), Some(p.programId), Some(p.name), p.policySource, Some(RawsOf(p.inScope)),
              Some(RawsOf(p.outOfScope)), Some(p.allowedMethods), p.budgets, Some(p.prohibited),
                Some(p.excludedCategories), Some(p.identities),
              Some(p.allowPrivate), Some(p.privateCidrs), p.submissionUrl, Some(p.disclosure))
  }

  // ----- Policy trees -----

  function TextOf(o: Option<Nullable>): Option<string> {
    if o.Some? && o.value.Text? then Some(o.value.text) else None
  }

  function NullableOf(o: Option<string>): Nullable {
    if o.Some? then Text(o.value) else Null
  }

  const NO_SCOPE := RawScope(None, None)
  const NO_NETWORK := RawNetwork(None, None, None, None, None, None, None)
  const NO_REPORTING := RawReporting(None, None)

  function BudgetsOf(n: RawNetwork): Budgets {
    Budgets(Default(n.perMinute, 20), Default(n.concurrent, 2), Default(n.perSession, 60),
            Default(n.downloadBytes, 8388608), Default(n.responseBytes, 2097152), Default(n.runtimeSeconds, 45))
  }

  /** What the validator reads of a tree: its nested mappings opened and the default budgets filled in. */
  function Flat(t: RawTree): RawPolicy {
    var scope, network := Default(t.scope, NO_SCOPE), Default(t.network, NO_NETWORK);
    var reporting := Default(t.reporting, NO_REPORTING);
    RawPolicy(t.schemaVersion, t.programId, t.name, TextOf(t.policySource), scope.inScope, scope.outOfScope,
              network.allowedMethods, BudgetsOf(network), t.prohibited, t.excludedCategories, t.identities,
              t.allowPrivate, t.privateCidrs, TextOf(reporting.submissionUrl), reporting.disclosure)
  }

  function WrittenNetwork(p: Policy): RawNetwork {
    var b := p.budgets;
    RawNetwork(Some(p.allowedMethods), Some(b.perMinute), Some(b.concurrent), Some(b.perSession), Some(b.downloadBytes),
               Some(b.responseBytes), Some(b.runtimeSeconds))
  }

  /** The tree a policy is printed from: every key is present. */
  function WrittenTree(p: Policy): RawTree {
    RawTree(Some(1), Some(p.programId), Some(p.name), Some(NullableOf(p.policySource)),
            Some(RawScope(Some(RawsOf(p.inScope)), Some(RawsOf(p.outOfScope)))), Some(WrittenNetwork(p)),
              Some(p.prohibited),
            Some(p.excludedCategories), Some(p.identities),
              Some(RawReporting(Some(NullableOf(p.submissionUrl)), Some(p.disclosure))),
            Some(p.allowPrivate), Some(p.privateCidrs))
  }

  lemma FlatWritten(p: Policy)
    ensures Flat(WrittenTree(p)) == Written(p)
  {
  }

  function Present<T>(o: Option<T>): nat {
    if o.Some? then 1 else 0
  }

  function ListNodes<T>(o: Option<seq<T>>): nat {
    if o.Some? then 1 + |o.value| else 0
  }

  function RuleNodes(r: RawRule): nat {
    1 + Present(r.host) + ListNodes(r.schemes) + ListNodes(r.ports) + ListNodes(r.paths)
  }

  function RulesNodes(rules: seq<RawRule>): nat {
    if rules == [] then 0 else RulesNodes(rules[..|rules| - 1]) + RuleNodes(rules[|rules| - 1])
  }

  function ScopeNodes(s: RawScope): nat {
    1 + (if s.inScope.Some? then 1 + RulesNodes(s.inScope.value) else 0)
    + if s.outOfScope.Some? then 1 + RulesNodes(s.outOfScope.value) else 0
  }

  function NetworkNodes(n: RawNetwork): nat {
    1 + ListNodes(n.allowedMethods) + Present(n.perMinute) + Present(n.concurrent) + Present(n.perSession)
    + Present(n.downloadBytes) + Present(n.responseBytes) + Present(n.runtimeSeconds)
  }

  function ReportingNodes(r: RawReporting): nat {
    1 + Present(r.submissionUrl) + Present(r.disclosure)
  }

  /** The nodes `bounded_tree` counts: the tree itself, every value of a mapping and every element of a list. */
  function Nodes(t: RawTree): nat {
    1 + Present(t.schemaVersion) + Present(t.programId) + Present(t.name) + Present(t.policySource)
    + (if t.scope.Some? then ScopeNodes(t.scope.value) else 0) + (if t.network.Some? then NetworkNodes(t.network.value)
                                                                  else 0)
    + ListNodes(t.prohibited) + ListNodes(t.excludedCategories) + ListNodes(t.identities)
    + (if t.reporting.Some? then ReportingNodes(t.reporting.value)
       else 0) + Present(t.allowPrivate) + ListNodes(t.privateCidrs)
  }

  const MAX_NODES := 10000

  // ----- When validation is a fixed point -----

  /** What a policy as written needs for its normal form to be accepted again, unchanged: few enough prohibitions once
      merged with the built-in ones, no network in two spellings, and short enough hosts and submission URL once
      normalised. */
  predicate Stable(x: Syntax, r: RawPolicy) {
    && |x.builtIn + Elements(Default(r.prohibited, []))| <= 100
    && OneSpelling(x, Default(r.privateCidrs, []))
    && HostsStayShort(x, Default(r.inScope, [])) && HostsStayShort(x, Default(r.outOfScope, []))
    && (Submitted(x, r.submissionUrl).Some? ==> WebUrl.CharCount(Submitted(x, r.submissionUrl).value) <= WebUrl.MAX_URL)
  }

  /** The same, said of the policy accepted. */
  ghost predicate Settled(p: Policy) {
    && |p.prohibited| <= 100 && Distinct(p.privateCidrs) && ShortHosts(p.inScope) && ShortHosts(p.outOfScope)
    && (p.submissionUrl.Some? ==> WebUrl.CharCount(p.submissionUrl.value) <= WebUrl.MAX_URL)
  }

  /** The conditions under which the lists of a policy are accepted as `l`. */
  predicate ListsAre(x: Syntax, r: RawPolicy, l: Lists) {
    && BudgetsOk(r.budgets) && r.budgets.responseBytes <= r.budgets.downloadBytes
    && (r.submissionUrl.Some? ==> x.submissionUrl(r.submissionUrl.value).Some?)
    && MethodList(x, Default(r.allowedMethods, DefaultMethods())) == Good(l.methods)
    && IdentityList(x, Default(r.identities, DefaultIdentities())) == Good(l.identities)
    && CidrList(x, Default(r.privateCidrs, []), Default(r.allowPrivate, false)) == Good(l.cidrs)
    && Rules(x, Default(r.inScope, []), false) == Good(l.inScope)
    && Rules(x, Default(r.outOfScope, []), true) == Good(l.outOfScope)
    && ProhibitedList(x, Default(r.prohibited, [])) == Good(l.prohibited)
    && StringList(Default(r.excludedCategories, []), 100, x.tag) == Good(l.excludedCategories)
  }

  lemma ListsExactly(x: Syntax, r: RawPolicy, l: Lists)
    ensures CheckedLists(x, r) == Good(l) <==> ListsAre(x, r, l)
  {
  }

  /** `r` with every list as accepted and every default filled in. */
  ghost predicate Rewrites(x: Syntax, r: RawPolicy, l: Lists, w: RawPolicy) {
    && w.allowedMethods == Some(l.methods) && w.identities == Some(l.identities) && w.privateCidrs == Some(l.cidrs)
    && w.inScope == Some(RawsOf(l.inScope)) && w.outOfScope == Some(RawsOf(l.outOfScope))
    && w.prohibited == Some(l.prohibited) && w.excludedCategories == Some(l.excludedCategories)
    && w.budgets == r.budgets && w.allowPrivate == Some(Default(r.allowPrivate, false))
    && w.submissionUrl == Submitted(x, r.submissionUrl)
  }

  lemma ListsFixed(x: Syntax, r: RawPolicy, l: Lists, w: RawPolicy)
    requires Lawful(x) && ListsAre(x, r, l) && Rewrites(x, r, l, w)
    ensures ListsAre(x, w, l)
            <==> |l.prohibited| <= 100 && Distinct(l.cidrs) && ShortHosts(l.inScope) && ShortHosts(l.outOfScope)
                 && (w.submissionUrl.Some? ==> x.submissionUrl(w.submissionUrl.value).Some?)
  {
    NamedListsFixed(x, Default(r.allowedMethods, DefaultMethods()), Default(r.identities, DefaultIdentities()));
    CidrListFixed(x, Default(r.privateCidrs, []), Default(r.allowPrivate, false), l.cidrs);
    RulesFixed(x, Default(r.inScope, []), false, l.inScope);
    RulesFixed(x, Default(r.outOfScope, []), true, l.outOfScope);
    ProhibitedListFixed(x, Default(r.prohibited, []));
    StringListFixed(Default(r.excludedCategories, []), 100, x.tag);
  }

  function ListsOf(p: Policy): Lists {
    Lists(p.allowedMethods, p.identities, p.privateCidrs, p.inScope, p.outOfScope, p.prohibited, p.excludedCategories)
  }

  /** The submission URL as kept. */
  function Submitted(x: Syntax, url: Option<string>): Option<string> {
    if url.Some? then x.submissionUrl(url.value) else None
  }

  predicate ScalarsAre(x: Syntax, r: RawPolicy, p: Policy) {
    && Default(r.schemaVersion, 1) == 1
    && r.programId == Some(p.programId) && p.name == Default(r.name, p.programId) && p.policySource == r.policySource
    && x.programId(p.programId) && NameOk(x, p.name) && SourceOk(x, p.policySource)
    && p.budgets == r.budgets && p.allowPrivate == Default(r.allowPrivate, false)
      && p.disclosure == Default(r.disclosure, true)
  }

  /** The conditions under which a policy is accepted as `p`. */
  predicate PolicyIs(x: Syntax, r: RawPolicy, p: Policy) {
    ScalarsAre(x, r, p) && CheckedLists(x, r) == Good(ListsOf(p)) && p.submissionUrl == Submitted(x, r.submissionUrl)
  }

  lemma AssembledExactly(r: RawPolicy, name: string, lists: Checked<Lists>, url: Option<string>, p: Policy)
    requires r.programId.Some?
    ensures Assembled(r, name, lists, url) == Good(p) <==>
              && lists == Good(ListsOf(p)) && r.programId == Some(p.programId) && p.name == name
                && p.policySource == r.policySource
              && p.budgets == r.budgets && p.allowPrivate == Default(r.allowPrivate, false)
              && p.disclosure == Default(r.disclosure, true) && p.submissionUrl == url
  {
  }

  lemma ScalarsExactly(x: Syntax, r: RawPolicy, p: Policy)
    ensures ScalarError(x, r).None? && r.programId == Some(p.programId) && p.name == Default(r.name, p.programId)
            && p.policySource == r.policySource && p.budgets == r.budgets
              && p.allowPrivate == Default(r.allowPrivate, false)
            && p.disclosure == Default(r.disclosure, true)
            <==> ScalarsAre(x, r, p)
  {
  }

  lemma ValidateExactly(x: Syntax, r: RawPolicy, p: Policy)
    ensures Validate(x, r) == Good(p) <==> PolicyIs(x, r, p)
  {
    ScalarsExactly(x, r, p);
    if ScalarError(x, r).None? {
      AssembledExactly(r, Default(r.name, r.programId.value), CheckedLists(x, r), Submitted(x, r.submissionUrl), p);
    }
  }

  lemma WrittenLists(x: Syntax, r: RawPolicy, l: Lists, w: RawPolicy)
    requires Lawful(x) && CheckedLists(x, r) == Good(l) && Rewrites(x, r, l, w)
    ensures CheckedLists(x, w) == Good(l)
            <==> |l.prohibited| <= 100 && Distinct(l.cidrs) && ShortHosts(l.inScope) && ShortHosts(l.outOfScope)
                 && (w.submissionUrl.Some? ==> x.submissionUrl(w.submissionUrl.value).Some?)
  {
    ListsExactly(x, r, l);
    ListsExactly(x, w, l);
    ListsFixed(x, r, l, w);
  }

  lemma WrittenRewrites(x: Syntax, r: RawPolicy, p: Policy)
    requires ScalarsAre(x, r, p) && p.submissionUrl == Submitted(x, r.submissionUrl)
    ensures Rewrites(x, r, ListsOf(p), Written(p)) && ScalarsAre(x, Written(p), p)
  {
  }

  /** A kept submission URL is accepted again as itself exactly when it is short enough. */
  lemma SubmittedFixed(x: Syntax, url: Option<string>, kept: Option<string>)
    requires Lawful(x) && kept == Submitted(x, url)
    ensures (kept.Some? ==> x.submissionUrl(kept.value).Some?) && kept == Submitted(x, kept)
            <==> (kept.Some? ==> WebUrl.CharCount(kept.value) <= WebUrl.MAX_URL)
  {
  }

  lemma PolicyFixed(x: Syntax, r: RawPolicy, p: Policy)
    requires Lawful(x) && PolicyIs(x, r, p)
    ensures PolicyIs(x, Written(p), p) <==> Settled(p)
  {
    WrittenRewrites(x, r, p);
    WrittenLists(x, r, ListsOf(p), Written(p));
    SubmittedFixed(x, r.submissionUrl, p.submissionUrl);
  }

  lemma StableExactly(x: Syntax, r: RawPolicy, p: Policy)
    requires PolicyIs(x, r, p)
    ensures Stable(x, r) <==> Settled(p)
  {
    ListsExactly(x, r, ListsOf(p));
    RepeatedNetworks(x, Default(r.privateCidrs, []), Default(r.allowPrivate, false), p.privateCidrs);
    MergedSize(x, Default(r.prohibited, []));
    HostsKept(x, Default(r.inScope, []), false, p.inScope);
    HostsKept(x, Default(r.outOfScope, []), true, p.outOfScope);
  }

  /** Validating an accepted policy's output accepts it and returns it unchanged, exactly when the policy as written
      is stable. */
  lemma ValidateFixedPoint(x: Syntax, r: RawPolicy, p: Policy)
    requires Lawful(x) && Validate(x, r) == Good(p)
    ensures Validate(x, Written(p)) == Good(p) <==> Stable(x, r)
  {
    ValidateExactly(x, r, p);
    StableExactly(x, r, p);
    PolicyFixed(x, r, p);
    ValidateExactly(x, Written(p), p);
  }
}
