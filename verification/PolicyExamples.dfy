/** Policies whose normal form is not accepted again, or is not the same: one for each condition of stability, and one
    whose normal form has too many nodes to be parsed. */
module PolicyExamples {
  import opened Wrappers
  import opened Collections
  import opened Strings
  import opened ProgramPolicy
  import WebUrl
  import Stores = ProgramStore

  // ----- A policy that says little -----

  /** A policy tree with an id, and otherwise only what is given. */
  function Basic(id: string, scope: Option<RawScope>, prohibited: Option<seq<string>>, allowPrivate: Option<bool>,
                 cidrs: Option<seq<string>>, reporting: Option<RawReporting>): RawTree
  {
    RawTree(None, Some(id), None, None, scope, None, prohibited, None, None, reporting, allowPrivate, cidrs)
  }

  /** The id is acceptable, also as a name, and the defaults are what they are in the program. */
  predicate Familiar(x: Syntax, id: string) {
    && x.programId(id) && NameOk(x, id)
    && (forall m | m in DefaultMethods() :: m in x.methods)
    && (forall i | i in DefaultIdentities() :: i in x.identityLabels)
    && x.validUtf8("/")
  }

  lemma Ascii(s: string)
    requires 1 <= |s| <= MAX_TEXT && s[0] as int < 128
    ensures 1 <= WebUrl.CharCount(s) <= MAX_TEXT
  {
  }

  predicate AsciiTexts(values: seq<string>) {
    1 <= |values| <= 100 && forall s | s in values :: 1 <= |s| <= MAX_TEXT && s[0] as int < 128
  }

  lemma AsciiList(values: seq<string>, maximum: nat, accept: string -> bool)
    requires AsciiTexts(values) && |values| <= maximum && forall s | s in values :: accept(s)
    ensures StringList(values, maximum, accept) == Good(SortedSet(values)) && SortedSet(values) != []
  {
    forall s | s in values ensures 1 <= WebUrl.CharCount(s) <= MAX_TEXT {
      Ascii(s);
    }
    assert values[0] in values;
  }

  lemma DefaultTexts()
    ensures AsciiTexts(DefaultMethods()) && AsciiTexts(DefaultIdentities())
  {
  }

  lemma NamedLists(x: Syntax, methods: seq<string>, labels: seq<string>)
    requires AsciiTexts(methods) && AsciiTexts(labels)
    requires (forall m | m in methods :: m in x.methods) && (forall i | i in labels :: i in x.identityLabels)
    ensures MethodList(x, methods).Good? && IdentityList(x, labels).Good?
  {
    AsciiList(methods, 100, (s: string) => true);
    AsciiList(labels, 100, (s: string) => true);
  }

  lemma DefaultLists(x: Syntax, id: string)
    requires Familiar(x, id)
    ensures MethodList(x, DefaultMethods()).Good? && IdentityList(x, DefaultIdentities()).Good?
  {
    DefaultTexts();
    NamedLists(x, DefaultMethods(), DefaultIdentities());
  }

  function ScopeRules(scope: Option<RawScope>): seq<RawRule> {
    Default(Default(scope, NO_SCOPE).inScope, [])
  }

  /** Such a policy is accepted if each of its lists is. */
  lemma BasicAccepted(x: Syntax, id: string, scope: Option<RawScope>, prohibited: Option<seq<string>>,
                      allowPrivate: Option<bool>, cidrs: Option<seq<string>>, reporting: Option<RawReporting>)
    requires Familiar(x, id) && Default(scope, NO_SCOPE).outOfScope.None?
    requires Rules(x, ScopeRules(scope), false).Good?
    requires ProhibitedList(x, Default(prohibited, [])).Good?
    requires CidrList(x, Default(cidrs, []), Default(allowPrivate, false)).Good?
    requires var url := TextOf(Default(reporting, NO_REPORTING).submissionUrl);
             url.Some? ==> x.submissionUrl(url.value).Some?
    ensures var v := Validate(x, Flat(Basic(id, scope, prohibited, allowPrivate, cidrs, reporting)));
            v.Good? && Rules(x, ScopeRules(scope), false) == Good(v.value.inScope)
  {
    var r := Flat(Basic(id, scope, prohibited, allowPrivate, cidrs, reporting));
    DefaultLists(x, id);
    var l := Lists(MethodList(x, DefaultMethods()).value, IdentityList(x, DefaultIdentities()).value,
                   CidrList(x, Default(cidrs, []), Default(allowPrivate, false)).value,
                     Rules(x, ScopeRules(scope), false).value,
                   [], ProhibitedList(x, Default(prohibited, [])).value, SortedSet([]));
    NothingExcluded(x);
    ListsExactly(x, r, l);
    var p := Policy(id, id, None, l.inScope, [], l.methods, r.budgets, l.prohibited, l.excludedCategories, l.identities,
                    Default(r.allowPrivate, false), l.cidrs, Submitted(x, r.submissionUrl),
                      Default(r.disclosure, true));
    ValidateExactly(x, r, p);
  }

  lemma NothingExcluded(x: Syntax)
    ensures Rules(x, [], true) == Good([])
    ensures StringList([], 100, x.tag) == Good(SortedSet([]))
  {
    var none: seq<RawRule> := [];
    CombinedExactly(Results(x, none, true), []);
  }

  lemma NoProhibitions(x: Syntax)
    ensures ProhibitedList(x, []).Good?
  {
    var none: seq<string> := [];
    assert StringList(none, 100, x.tag).Good?;
  }

  lemma NoNetworks(x: Syntax)
    ensures CidrList(x, [], false).Good? && OneSpelling(x, [])
  {
    var none: seq<string> := [];
    SortedSetSize(none);
    CidrListExactly(x, none, false, []);
    assert Printed(x, SortedSet(none), false).Good?;
    CidrListExactly(x, none, false, Printed(x, SortedSet(none), false).value);
  }

  lemma NoRules(x: Syntax)
    ensures Rules(x, [], false) == Good([]) && HostsStayShort(x, [])
  {
    var none: seq<RawRule> := [];
    CombinedExactly(Results(x, none, false), []);
  }

  // ----- Too many prohibitions -----

  const BUILT_IN := {"automated_scanning", "dos", "ddos", "social_engineering", "physical_attack",
                     "large_scale_data_access", "destructive_testing", "credential_spraying"}

  /** One to a hundred letters. */
  function Tag(n: nat): (s: string)
    ensures |s| == n && forall i :: 0 <= i < n ==> s[i] == 'a'
  {
    seq(n, _ => 'a')
  }

  function Tags(n: nat): (s: seq<string>)
    ensures |s| == n && forall i :: 0 <= i < n ==> s[i] == Tag(i + 1)
  {
    seq(n, i requires 0 <= i < n => Tag(i + 1))
  }

  /** A word with a letter other than `a` is no tag of ours. */
  lemma OtherWord(n: nat, word: string, k: nat)
    requires k < |word| && word[k] != 'a'
    ensures Tag(n) != word
  {
  }

  lemma TagsNotBuiltIn(n: nat)
    ensures Tag(n) !in BUILT_IN
  {
    OtherWord(n, "automated_scanning", 1);
    OtherWord(n, "dos", 0);
    OtherWord(n, "ddos", 0);
    OtherWord(n, "social_engineering", 0);
    OtherWord(n, "physical_attack", 0);
    OtherWord(n, "large_scale_data_access", 0);
    OtherWord(n, "destructive_testing", 0);
    OtherWord(n, "credential_spraying", 0);
  }

  lemma TagsSize(n: nat, builtIn: set<string>)
    requires forall i: nat :: Tag(i) !in builtIn
    ensures |Elements(Tags(n))| == n && |builtIn + Elements(Tags(n))| == |builtIn| + n
  {
    var tags := Tags(n);
    forall i, j | 0 <= i < j < n ensures tags[i] != tags[j] {
      assert |tags[i]| != |tags[j]|;
    }
    ElementsSize(tags);
    assert builtIn !! Elements(tags);
  }

  /** Validating the output of an unstable policy does not return it. */
  lemma NotFixed(x: Syntax, r: RawPolicy)
    requires Lawful(x) && Validate(x, r).Good? && !Stable(x, r)
    ensures Validate(x, Written(Validate(x, r).value)) != Validate(x, r)
  {
    ValidateFixedPoint(x, r, Validate(x, r).value);
  }

  lemma ProhibitedAccepted(x: Syntax, id: string, actions: seq<string>)
    requires Familiar(x, id) && ProhibitedList(x, actions).Good?
    ensures Validate(x, Flat(Basic(id, None, Some(actions), None, None, None))).Good?
  {
    NoRules(x);
    NoNetworks(x);
    BasicAccepted(x, id, None, Some(actions), None, None, None);
  }

  lemma TagsListed(x: Syntax)
    requires forall n: nat | 1 <= n <= 100 :: x.tag(Tag(n))
    ensures ProhibitedList(x, Tags(100)).Good?
  {
    var tags := Tags(100);
    forall s | s in tags ensures 1 <= |s| <= MAX_TEXT && s[0] as int < 128 && x.tag(s) {
      var i :| 0 <= i < 100 && tags[i] == s;
      assert s == Tag(i + 1);
    }
    AsciiList(tags, 100, x.tag);
  }

  lemma TagsTooMany(builtIn: set<string>)
    requires builtIn == BUILT_IN
    ensures |builtIn + Elements(Tags(100))| > 100
  {
    forall i: nat ensures Tag(i) !in builtIn {
      TagsNotBuiltIn(i);
    }
    TagsSize(100, builtIn);
    assert "dos" in builtIn;
  }

  /** A hundred tags of one to a hundred letters, added to the prohibitions built in: the policy is accepted, and what
      it becomes is not. */
  lemma TooManyProhibitions(x: Syntax, id: string)
    requires Lawful(x) && Familiar(x, id) && x.builtIn == BUILT_IN && forall n: nat | 1 <= n <= 100 :: x.tag(Tag(n))
    ensures var r := Flat(Basic(id, None, Some(Tags(100)), None, None, None));
            Validate(x, r).Good? && !Stable(x, r) && Validate(x, Written(Validate(x, r).value)) != Validate(x, r)
  {
    var tags := Tags(100);
    TagsListed(x);
    TagsTooMany(x.builtIn);
    ProhibitedAccepted(x, id, tags);
    NotFixed(x, Flat(Basic(id, None, Some(tags), None, None, None)));
  }

  // ----- One network in two spellings -----

  lemma NetworksAccepted(x: Syntax, id: string, cidrs: seq<string>)
    requires Familiar(x, id) && CidrList(x, cidrs, true).Good?
    ensures Validate(x, Flat(Basic(id, None, None, Some(true), Some(cidrs), None))).Good?
  {
    NoRules(x);
    NoProhibitions(x);
    BasicAccepted(x, id, None, None, Some(true), Some(cidrs), None);
  }

  lemma BothListed(x: Syntax, cidrs: seq<string>, net: string)
    requires 1 <= |cidrs| <= 30
             && forall c | c in cidrs ::
                  1 <= WebUrl.CharCount(c) <= MAX_TEXT && x.network(c) == Some(net) && !x.tooBroad(c)
    ensures CidrList(x, cidrs, true).Good?
  {
    var listed := SortedSet(cidrs);
    assert AllNetworks(x, listed) && NoneTooBroad(x, listed);
    CidrListExactly(x, cidrs, true, Printed(x, listed, true).value);
  }

  /** A list that starts with two spellings of one network: the policy is accepted, and what it becomes is not fixed. */
  lemma Respelled(x: Syntax, id: string, cidrs: seq<string>, net: string)
    requires Lawful(x) && Familiar(x, id) && 2 <= |cidrs| <= 30 && cidrs[0] != cidrs[1]
    requires forall c | c in cidrs ::
               1 <= WebUrl.CharCount(c) <= MAX_TEXT && x.network(c) == Some(net) && !x.tooBroad(c)
    ensures var r := Flat(Basic(id, None, None, Some(true), Some(cidrs), None));
            Validate(x, r).Good? && !Stable(x, r) && Validate(x, Written(Validate(x, r).value)) != Validate(x, r)
  {
    BothListed(x, cidrs, net);
    NetworksAccepted(x, id, cidrs);
    assert cidrs[0] in cidrs && cidrs[1] in cidrs && x.network(cidrs[0]) == x.network(cidrs[1]);
    NotFixed(x, Flat(Basic(id, None, None, Some(true), Some(cidrs), None)));
  }

  /** One private network, written with a prefix length and with a mask. */
  lemma TwoSpellings(x: Syntax, id: string, net: string, masked: string)
    requires net == "10.0.0.0/8" && masked == "10.0.0.0/255.0.0.0"
    requires Lawful(x) && Familiar(x, id) && x.network(net) == x.network(masked) == Some(net) && !x.tooBroad(net)
             && !x.tooBroad(masked)
    ensures var r := Flat(Basic(id, None, None, Some(true), Some([net, masked]), None));
            Validate(x, r).Good? && !Stable(x, r) && Validate(x, Written(Validate(x, r).value)) != Validate(x, r)
  {
    Ascii(net);
    Ascii(masked);
    assert |net| != |masked|;
    Respelled(x, id, [net, masked], net);
  }

  // ----- A submission URL that grows -----

  /** A submission URL whose canonical form is longer than 2048 characters. */
  lemma LongSubmission(x: Syntax, id: string, url: string)
    requires Lawful(x) && Familiar(x, id) && x.submissionUrl(url).Some?
             && WebUrl.CharCount(x.submissionUrl(url).value) > WebUrl.MAX_URL
    ensures var r := Flat(Basic(id, None, None, None, None, Some(RawReporting(Some(Text(url)), None))));
            Validate(x, r).Good? && !Stable(x, r) && Validate(x, Written(Validate(x, r).value)) != Validate(x, r)
  {
    var reporting := Some(RawReporting(Some(Text(url)), None));
    var r := Flat(Basic(id, None, None, None, None, reporting));
    NoRules(x);
    NoProhibitions(x);
    NoNetworks(x);
    BasicAccepted(x, id, None, None, None, None, reporting);
    ValidateFixedPoint(x, r, Validate(x, r).value);
  }

  /** What a policy keeps of a submission URL is its canonical text, if it has one. */
  predicate SubmitsAs(x: Syntax, y: WebUrl.Syntax, text: string, u: WebUrl.Parts)
    requires WebUrl.IsBytes(u.path)
  {
    var c := WebUrl.CanonicalUrl(y, text, u, true);
    x.submissionUrl(text) == if c.Accepted? then Some(y.text(c.url)) else None
  }

  /** A URL with a path of 683 to 2027 exclamation marks is such a URL. */
  lemma LongSubmissionPath(x: Syntax, id: string, y: WebUrl.Syntax, prefix: string, host: string, n: nat)
    requires Lawful(x) && Familiar(x, id)
    requires prefix == "https://shop.example" && WebUrl.HostText(host) && host[|host| - 1] != '.'
             && y.idna(host) == Some(host)
    requires 683 <= n <= 2027 && y.validUtf8(WebUrl.Marks(n)) && WebUrl.ReadOnlyPath(y, WebUrl.Marks(n), true)
    requires WebUrl.PrintsAs(y, prefix, host, WebUrl.Quote(WebUrl.Marks(n)))
    requires SubmitsAs(x, y, prefix + WebUrl.Marks(n), WebUrl.HttpsUrl(host, WebUrl.Marks(n)))
    ensures var url := prefix + WebUrl.Marks(n);
            var r := Flat(Basic(id, None, None, None, None, Some(RawReporting(Some(Text(url)), None))));
            Validate(x, r).Good? && !Stable(x, r) && Validate(x, Written(Validate(x, r).value)) != Validate(x, r)
  {
    WebUrl.LongPath(y, prefix, host, n, true);
    WebUrl.MarksQuoted(n);
    WebUrl.CharCountConcat(prefix, WebUrl.Quote(WebUrl.Marks(n)));
    LongSubmission(x, id, prefix + WebUrl.Marks(n));
  }

  // ----- Scope rules -----

  function Scoped(rules: seq<RawRule>): Option<RawScope> {
    Some(RawScope(Some(rules), None))
  }

  lemma RulesAccepted(x: Syntax, id: string, rules: seq<RawRule>, out: seq<Rule>)
    requires Familiar(x, id) && Rules(x, rules, false) == Good(out)
    ensures var v := Validate(x, Flat(Basic(id, Scoped(rules), None, None, None, None)));
            v.Good? && v.value.inScope == out
  {
    NoProhibitions(x);
    NoNetworks(x);
    BasicAccepted(x, id, Scoped(rules), None, None, None, None);
  }

  /** A rule with a host and, possibly, ports. */
  function HostRule(host: string, ports: Option<seq<int>>): RawRule {
    RawRule(Some(host), None, ports, None)
  }

  lemma SingleScheme(schemes: seq<string>)
    requires |schemes| == 1 && SchemeName(schemes[0])
    ensures SchemeList(schemes).Good? && |SchemeList(schemes).value| == 1
  {
    assert schemes[0] in schemes;
    Ascii(schemes[0]);
    SortedSetSize(schemes);
    assert schemes[0] in SortedSet(schemes);
  }

  lemma SinglePath(x: Syntax, paths: seq<string>)
    requires |paths| == 1 && ScopePath(x, paths[0]).Some?
    ensures PathList(x, paths).Good? && |PathList(x, paths).value| == 1
  {
    var values := PathValues(x, paths);
    SortedSetSize(values);
    assert values[0] in SortedSet(values);
  }

  lemma RootPath(x: Syntax, root: string)
    requires root == "/" && x.validUtf8(root)
    ensures ScopePath(x, root) == Some(root)
  {
    WebUrl.UnquotePlain(root);
    NoStarNoSubtree(root);
    assert WebUrl.CharCount(root) <= |root|;
  }

  /** Left to its defaults, a rule gets one scheme and one path. */
  lemma HostRuleAccepted(x: Syntax, h: string, host: string, ports: Option<seq<int>>)
    requires x.host(h) == Some(host) && x.validUtf8("/") && (ports.Some? ==> PortList(ports.value).Good?)
    ensures var c := OneRule(x, HostRule(h, ports), false);
            && c.Good? && c.value.host == host && |c.value.schemes| == 1 && |c.value.paths| == 1
            && c.value.ports == if ports.Some? then Some(PortList(ports.value).value) else None
  {
    SingleScheme(DefaultSchemes(false));
    var paths := DefaultPaths(false);
    RootPath(x, paths[0]);
    SinglePath(x, paths);
  }

  // ----- A host that grows -----

  lemma OneRuleListed(x: Syntax, rule: RawRule)
    requires OneRule(x, rule, false).Good?
    ensures Rules(x, [rule], false) == Good([OneRule(x, rule, false).value])
  {
    CombinedExactly(Results(x, [rule], false), [OneRule(x, rule, false).value]);
  }

  /** A host within 253 characters whose IDNA form is longer: accepted, and not accepted again. */
  lemma LongHost(x: Syntax, id: string, h: string, host: string)
    requires Lawful(x) && Familiar(x, id) && x.host(h) == Some(host) && WebUrl.CharCount(host) > MAX_HOST
    ensures var r := Flat(Basic(id, Scoped([HostRule(h, None)]), None, None, None, None));
            Validate(x, r).Good? && !Stable(x, r) && Validate(x, Written(Validate(x, r).value)) != Validate(x, r)
  {
    var rules := [HostRule(h, None)];
    HostRuleAccepted(x, h, host, None);
    OneRuleListed(x, HostRule(h, None));
    RulesAccepted(x, id, rules, [OneRule(x, HostRule(h, None), false).value]);
    assert !HostStaysShort(x, rules[0]);
    NotFixed(x, Flat(Basic(id, Scoped(rules), None, None, None, None)));
  }

  // ----- A syntax in which both happen -----

  /** Hosts and URLs are written as they are read, but for one of each. */
  function Sample(host: string, longHost: string, url: string, longUrl: string): Syntax {
    Syntax((h: string) => if WebUrl.CharCount(h) > MAX_HOST then None else Some(if h == host then longHost else h),
           (n: string) => None, (n: string) => false,
           (u: string) => if WebUrl.CharCount(u) > WebUrl.MAX_URL then None else Some(if u == url then longUrl else u),
           (s: string) => true, (s: string) => true, (s: string) => true, (s: string) => true, {},
           Elements(DefaultMethods()), Elements(DefaultIdentities()))
  }

  lemma SampleLawful(host: string, longHost: string, url: string, longUrl: string, id: string)
    requires WebUrl.CharCount(longHost) > MAX_HOST && WebUrl.CharCount(longUrl) > WebUrl.MAX_URL
    requires 1 <= WebUrl.CharCount(id) <= 256
    ensures Lawful(Sample(host, longHost, url, longUrl)) && Familiar(Sample(host, longHost, url, longUrl), id)
  {
  }

  /** The bytes of `n` letters u with a diaeresis. */
  function Umlauts(n: nat): (s: string)
    ensures WebUrl.CharCount(s) == n
  {
    if n == 0 then "" else "\U{C3}\U{BC}" + Umlauts(n - 1)
  }

  /** Their IDNA form, as long as a label may be for 57 of them. */
  function Punycode(n: nat): (s: string)
    ensures |s| == n + 6 && forall c | c in s :: c as int < 128
  {
    "xn--td" + seq(n, _ => 'a')
  }

  /** Four labels. */
  function Labels(s: string): string {
    s + "." + s + "." + s + "." + s
  }

  lemma LabelsCount(s: string)
    ensures WebUrl.CharCount(Labels(s)) == 4 * WebUrl.CharCount(s) + 3
  {
    WebUrl.CharCountConcat(s, ".");
    WebUrl.CharCountConcat(s + ".", s);
    WebUrl.CharCountConcat(s + "." + s, ".");
    WebUrl.CharCountConcat(s + "." + s + ".", s);
    WebUrl.CharCountConcat(s + "." + s + "." + s, ".");
    WebUrl.CharCountConcat(s + "." + s + "." + s + ".", s);
  }

  lemma UmlautLengths(n: nat)
    ensures WebUrl.CharCount(Labels(Umlauts(n))) == 4 * n + 3 && WebUrl.CharCount(Labels(Punycode(n))) == 4 * n + 27
  {
    LabelsCount(Umlauts(n));
    LabelsCount(Punycode(n));
    WebUrl.AsciiCount(Punycode(n));
  }

  lemma SampleHost(id: string, host: string, longHost: string, url: string, longUrl: string)
    requires WebUrl.CharCount(host) <= MAX_HOST < WebUrl.CharCount(longHost)
    requires WebUrl.CharCount(longUrl) > WebUrl.MAX_URL && 1 <= WebUrl.CharCount(id) <= 256
    ensures var x, r := Sample(host, longHost, url, longUrl), Flat(Basic(id, Scoped([HostRule(host, None)]), None, None,
                                                                         None, None));
            && Lawful(x) && Validate(x, r).Good? && !Stable(x, r)
            && Validate(x, Written(Validate(x, r).value)) != Validate(x, r)
  {
    SampleLawful(host, longHost, url, longUrl, id);
    LongHost(Sample(host, longHost, url, longUrl), id, host, longHost);
  }

  /** A host of, say, four labels of 57 such letters has 231 characters, and IDNA writes it in 255. */
  lemma UmlautHost(id: string, host: string, longHost: string, n: nat, url: string, longUrl: string)
    requires n == 57 && host == Labels(Umlauts(n)) && longHost == Labels(Punycode(n))
    requires WebUrl.CharCount(longUrl) > WebUrl.MAX_URL && 1 <= WebUrl.CharCount(id) <= 256
    ensures var x, r := Sample(host, longHost, url, longUrl), Flat(Basic(id, Scoped([HostRule(host, None)]), None, None,
                                                                         None, None));
            && Lawful(x) && Validate(x, r).Good? && !Stable(x, r)
            && Validate(x, Written(Validate(x, r).value)) != Validate(x, r)
  {
    UmlautLengths(n);
    SampleHost(id, host, longHost, url, longUrl);
  }

  /** A URL with a path of 683 to 2027 exclamation marks, each of which is quoted. */
  lemma MarkedUrl(id: string, host: string, longHost: string, prefix: string, n: nat)
    requires prefix == "https://shop.example" && 683 <= n <= 2027
    requires WebUrl.CharCount(longHost) > MAX_HOST && 1 <= WebUrl.CharCount(id) <= 256
    ensures var url, longUrl := prefix + WebUrl.Marks(n), prefix + WebUrl.Quote(WebUrl.Marks(n));
            var x, r := Sample(host, longHost, url, longUrl), Flat(Basic(id, None, None, None, None,
                                                                         Some(RawReporting(Some(Text(url)), None))));
            && Lawful(x) && Validate(x, r).Good? && !Stable(x, r)
            && Validate(x, Written(Validate(x, r).value)) != Validate(x, r)
  {
    var url, longUrl := prefix + WebUrl.Marks(n), prefix + WebUrl.Quote(WebUrl.Marks(n));
    WebUrl.MarksQuoted(n);
    WebUrl.CharCountConcat(prefix, WebUrl.Quote(WebUrl.Marks(n)));
    WebUrl.MarkedText(prefix, n);
    SampleLawful(host, longHost, url, longUrl, id);
    LongSubmission(Sample(host, longHost, url, longUrl), id, url);
  }

  // ----- Too many nodes -----

  function FirstPorts(n: nat): (r: seq<int>)
    ensures |r| == n && forall i :: 0 <= i < n ==> r[i] == i + 1
  {
    seq(n, i => i + 1)
  }

  lemma FirstPortsListed(n: nat)
    requires 1 <= n <= 100
    ensures PortList(FirstPorts(n)).Good? && |PortList(FirstPorts(n)).value| == n
  {
    var ports, top := FirstPorts(n), MAX_PORT;
    var r := PortsUpTo(top, ports);
    PortsDistinct(top, ports);
    ElementsSize(r);
    ElementsSize(ports);
    forall p ensures p in r <==> p in ports {
    }
    assert Elements(r) == Elements(ports);
  }

  /** So many copies of one rule. */
  function Copies<T>(n: nat, rule: T): (r: seq<T>)
    ensures |r| == n && forall i :: 0 <= i < n ==> r[i] == rule
  {
    seq(n, _ => rule)
  }

  lemma {:induction false} EqualRules(rules: seq<RawRule>, nodes: nat)
    requires forall i | 0 <= i < |rules| :: RuleNodes(rules[i]) == nodes
    ensures RulesNodes(rules) == |rules| * nodes
  {
    if rules != [] {
      var n := |rules| - 1;
      assert forall i | 0 <= i < n :: rules[..n][i] == rules[i];
      EqualRules(rules[..n], nodes);
      assert (n + 1) * nodes == n * nodes + nodes;
    }
  }

  lemma CopiesAccepted(x: Syntax, n: nat, rule: RawRule, out: Rule)
    requires n <= 100 && OneRule(x, rule, false) == Good(out)
    ensures Rules(x, Copies(n, rule), false) == Good(Copies(n, out))
  {
    CombinedExactly(Results(x, Copies(n, rule), false), Copies(n, out));
  }

  /** Ninety-seven rules for one host and a hundred ports. */
  function ManyRules(h: string): seq<RawRule> {
    Copies(97, HostRule(h, Some(FirstPorts(100))))
  }

  lemma ManyRulesNodes(id: string, h: string)
    ensures Nodes(Basic(id, Scoped(ManyRules(h)), None, None, None, None)) == 9995
  {
    EqualRules(ManyRules(h), 103);
  }

  lemma FilledInNodes(p: Policy, out: Rule)
    requires p.inScope == Copies(97, out) && out.ports.Some? && |out.ports.value| == 100
             && |out.schemes| == |out.paths| == 1
    ensures Nodes(WrittenTree(p)) > MAX_NODES
  {
    EqualRules(RawsOf(p.inScope), 107);
  }

  lemma FewBuiltIn(builtIn: set<string>)
    requires builtIn == BUILT_IN
    ensures |builtIn| <= 8
  {
  }

  lemma ManyRulesAccepted(x: Syntax, id: string, h: string)
    requires Familiar(x, id) && x.host(h) == Some(h)
    ensures var v := Validate(x, Flat(Basic(id, Scoped(ManyRules(h)), None, None, None, None)));
            v.Good? && v.value.inScope != [] && Nodes(WrittenTree(v.value)) > MAX_NODES
  {
    var ports := FirstPorts(100);
    var rule := HostRule(h, Some(ports));
    FirstPortsListed(100);
    HostRuleAccepted(x, h, h, Some(ports));
    var out := OneRule(x, rule, false).value;
    CopiesAccepted(x, 97, rule, out);
    RulesAccepted(x, id, ManyRules(h), Copies(97, out));
    FilledInNodes(Validate(x, Flat(Basic(id, Scoped(ManyRules(h)), None, None, None, None))).value, out);
  }

  lemma ManyRulesStable(x: Syntax, id: string, rules: seq<RawRule>)
    requires x.builtIn == BUILT_IN && HostsStayShort(x, rules)
    ensures Stable(x, Flat(Basic(id, Scoped(rules), None, None, None, None)))
  {
    var none: seq<string> := [];
    FewBuiltIn(x.builtIn);
    assert x.builtIn + Elements(none) == x.builtIn;
  }

  /** The tree of such a policy has 9995 nodes, and with the schemes and paths filled in more than may be parsed: the
      policy is accepted and stable, and its normal form cannot be read. */
  lemma TooManyNodes(x: Syntax, id: string, h: string)
    requires Familiar(x, id) && x.builtIn == BUILT_IN && x.host(h) == Some(h) && WebUrl.CharCount(h) <= MAX_HOST
    ensures var t := Basic(id, Scoped(ManyRules(h)), None, None, None, None);
            && Nodes(t) == 9995 && Stable(x, Flat(t)) && Validate(x, Flat(t)).Good?
            && Validate(x, Flat(t)).value.inScope != [] && Nodes(WrittenTree(Validate(x, Flat(t)).value)) > MAX_NODES
  {
    ManyRulesNodes(id, h);
    ManyRulesAccepted(x, id, h);
    ManyRulesStable(x, id, ManyRules(h));
  }

  /** Reviewed and approved without a change, its source is not accepted. */
  lemma UnmodifiedRefused(f: Stores.Format, x: Syntax, tree: string -> Option<RawTree>, s: Stores.Store,
                          v: Stores.Review, key: nat, id: string, h: string)
    requires Stores.Lawful(f) && Stores.ReadsTrees(f, x, tree) && Stores.WellReviewed(f, v)
             && Stores.ApproveStep(f, s, v, key).Fine?
    requires Familiar(x, id) && x.builtIn == BUILT_IN && x.host(h) == Some(h) && WebUrl.CharCount(h) <= MAX_HOST
    requires tree(v.raw) == Some(Basic(id, Scoped(ManyRules(h)), None, None, None, None))
    ensures Stable(x, Flat(tree(v.raw).value))
            && !Stores.Approved(f, Stores.ApproveStep(f, s, v, key).value, v.ident, false).Fine?
  {
    TooManyNodes(x, id, h);
    Stores.UnmodifiedAccepted(f, x, tree, s, v, key);
    assert Stores.ValidatesUnder(f, x, tree(v.raw).value);
  }

  /** Created as a program, it cannot be approved and used. */
  lemma CreatedStuck(f: Stores.Format, x: Syntax, tree: string -> Option<RawTree>, s: Stores.Store, key: nat,
                     id: string, h: string)
    requires Stores.Lawful(f) && Stores.ReadsTrees(f, x, tree)
    requires Familiar(x, id) && x.builtIn == BUILT_IN && x.host(h) == Some(h) && WebUrl.CharCount(h) <= MAX_HOST
    requires var t := Basic(id, Scoped(ManyRules(h)), None, None, None, None);
             Stores.CreateStep(f, s, t).Fine? && f.identOk(f.validate(t).value.programId)
             && f.approvalSize(f.canonicalJson(f.validate(t).value)) <= Stores.FILE_BYTES
    ensures var t := Basic(id, Scoped(ManyRules(h)), None, None, None, None);
            Stable(x, Flat(t)) && !Stores.Launches(f, Stores.CreateStep(f, s, t).value, f.validate(t).value, key)
  {
    var t := Basic(id, Scoped(ManyRules(h)), None, None, None, None);
    TooManyNodes(x, id, h);
    assert Stores.ValidatesUnder(f, x, t);
    Stores.CreatedLaunches(f, x, tree, s, t, key);
  }
}
