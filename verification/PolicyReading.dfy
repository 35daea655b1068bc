/** What validating a policy answers (programs.py), field by field: each accepted field said of the one given, and each
    refusal with the first reason that holds. */
module PolicyReading {
  import opened Wrappers
  import opened Collections
  import opened ProgramPolicy
  import Strings
  import WebUrl

  // ----- Lists of texts -----

  ghost predicate Has(texts: seq<string>, s: string) {
    exists i | 0 <= i < |texts| :: texts[i] == s
  }

  ghost predicate Ascending(texts: seq<string>) {
    forall i, j | 0 <= i < j < |texts| :: Strings.Precedes(texts[i], texts[j])
  }

  /** The same texts, each once, in order. */
  ghost predicate Listing(given: seq<string>, kept: seq<string>) {
    Ascending(kept) && forall s :: Has(kept, s) <==> Has(given, s)
  }

  ghost predicate Short(given: seq<string>, maximum: nat) {
    |given| <= maximum && forall i | 0 <= i < |given| :: 0 < |WebUrl.Starts(given[i])| < 129
  }

  ghost predicate TextsRead(given: seq<string>, maximum: nat, accept: string -> bool, c: Checked<seq<string>>) {
    if Short(given, maximum) && forall i | 0 <= i < |given| :: accept(given[i]) then
      c.Good? && Listing(given, c.value)
    else c == Bad(InvalidList)
  }

  /** A nonempty list of names all of which are known. */
  ghost predicate NamesRead(given: seq<string>, known: set<string>, error: PolicyError, c: Checked<seq<string>>) {
    if !Short(given, 100) then c == Bad(InvalidList)
    else if |given| == 0 || exists i | 0 <= i < |given| :: given[i] !in known then c == Bad(error)
    else c.Good? && Listing(given, c.value)
  }

  lemma InHas(texts: seq<string>, s: string)
    ensures s in texts <==> Has(texts, s)
  {
  }

  lemma SortedAscends(texts: seq<string>)
    requires Distinct(texts) && SortedBy(Strings.Order(), texts)
    ensures Ascending(texts)
  {
    forall i, j | 0 <= i < j < |texts| ensures Strings.Precedes(texts[i], texts[j]) {
      assert Strings.Order()(texts[i], texts[j]) && texts[i] != texts[j];
      Strings.LeqPrecedes(texts[i], texts[j]);
    }
  }

  lemma SetListed(given: seq<string>)
    ensures Listing(given, Strings.SortedSet(given))
  {
    var kept := Strings.SortedSet(given);
    SortedAscends(kept);
    forall s ensures Has(kept, s) <==> Has(given, s) {
      InHas(kept, s);
      InHas(given, s);
    }
  }

  lemma TextsAre(given: seq<string>, maximum: nat, accept: string -> bool)
    ensures TextsRead(given, maximum, accept, StringList(given, maximum, accept))
  {
    SetListed(given);
    forall s ensures WebUrl.CharCount(s) == |WebUrl.Starts(s)| {
      WebUrl.CountsStarts(s);
    }
    assert forall i | 0 <= i < |given| :: given[i] in given;
  }

  lemma AnyTexts(given: seq<string>, maximum: nat)
    ensures var c := StringList(given, maximum, (s: string) => true);
            if Short(given, maximum) then c.Good? && Listing(given, c.value) else c == Bad(InvalidList)
  {
    TextsAre(given, maximum, (s: string) => true);
  }

  lemma ListingEmpty(given: seq<string>, kept: seq<string>)
    requires Listing(given, kept)
    ensures kept == [] <==> given == []
  {
    if given != [] {
      assert Has(given, given[0]) && Has(kept, given[0]);
    }
    if kept != [] {
      assert Has(kept, kept[0]) && Has(given, kept[0]);
    }
  }

  lemma NamesMean(given: seq<string>, kept: seq<string>, known: set<string>)
    requires Listing(given, kept)
    ensures kept == [] || (exists m | m in kept :: m !in known)
            <==> |given| == 0 || exists i | 0 <= i < |given| :: given[i] !in known
  {
    ListingEmpty(given, kept);
    if m :| m in kept && m !in known {
      assert Has(kept, m) && Has(given, m);
    }
    if i :| 0 <= i < |given| && given[i] !in known {
      assert Has(given, given[i]) && Has(kept, given[i]);
    }
  }

  lemma MethodsAre(x: Syntax, given: seq<string>)
    ensures NamesRead(given, x.methods, MethodNotSupported, MethodList(x, given))
  {
    AnyTexts(given, 100);
    if Short(given, 100) {
      NamesMean(given, StringList(given, 100, (s: string) => true).value, x.methods);
    }
  }

  lemma IdentitiesAre(x: Syntax, given: seq<string>)
    ensures NamesRead(given, x.identityLabels, InvalidIdentity, IdentityList(x, given))
  {
    AnyTexts(given, 100);
    if Short(given, 100) {
      NamesMean(given, StringList(given, 100, (s: string) => true).value, x.identityLabels);
    }
  }

  lemma SchemesAre(given: seq<string>)
    ensures NamesRead(given, {"http", "https", "ws", "wss"}, InvalidSchemes, SchemeList(given))
  {
    AnyTexts(given, 100);
    if Short(given, 100) {
      NamesMean(given, StringList(given, 100, (s: string) => true).value, {"http", "https", "ws", "wss"});
    }
  }

  // ----- Scope paths -----

  ghost predicate Without(s: string, c: char) {
    forall i | 0 <= i < |s| :: s[i] != c
  }

  ghost predicate EndsInStar(s: string) {
    |s| > 1 && s[|s| - 2] == '/' && s[|s| - 1] == '*'
  }

  /** A path is kept decoded, with its star if it ends in a slash and a star, unless a star, question mark or hash is
      elsewhere in it or it decodes to something ambiguous. */
  ghost predicate PathReads(x: Syntax, value: string, kept: Option<string>) {
    if |value| == 0 || value[0] != '/' || 2048 < |WebUrl.Starts(value)| then kept == None
    else
      var prefix := if EndsInStar(value) then value[..|value| - 1] else value;
      if !Without(prefix, '*') || !Without(value, '?') || !Without(value, '#') then kept == None
      else exists decoded :: WebUrl.Decodes(prefix, decoded) && PrefixReads(x, value, decoded, kept)
  }

  ghost predicate PrefixReads(x: Syntax, value: string, decoded: string, kept: Option<string>) {
    if x.validUtf8(decoded) && WebUrl.Unambiguous(decoded) && Without(decoded, '*') && Without(decoded, '?')
       && Without(decoded, '#') then
      kept == Some(if EndsInStar(value) then decoded + "*" else decoded)
    else kept == None
  }

  lemma WithoutMeans(s: string, c: char)
    ensures Without(s, c) <==> c !in s
  {
  }

  lemma DecodedMeans(p: string)
    ensures DecodedRefused(p)
            <==> !(WebUrl.Unambiguous(p) && Without(p, '*') && Without(p, '?') && Without(p, '#'))
  {
    WebUrl.AmbiguityMeans(p);
    WithoutMeans(p, '*');
    WithoutMeans(p, '?');
    WithoutMeans(p, '#');
  }

  lemma StarMeans(s: string)
    ensures IsSubtree(s) <==> EndsInStar(s)
  {
    if |s| >= 2 {
      assert s[|s| - 2..] == [s[|s| - 2], s[|s| - 1]];
    }
  }

  lemma PathIs(x: Syntax, value: string)
    ensures PathReads(x, value, ScopePath(x, value))
  {
    hide WebUrl.Decodes, WebUrl.Unambiguous, WebUrl.Unquote, WebUrl.Starts, Without, DecodedRefused;
    WebUrl.CountsStarts(value);
    StarMeans(value);
    if value != "" && value[0] == '/' && WebUrl.CharCount(value) <= MAX_PATH {
      var prefix := if IsSubtree(value) then value[..|value| - 1] else value;
      WithoutMeans(prefix, '*');
      WithoutMeans(value, '?');
      WithoutMeans(value, '#');
      WebUrl.UnquoteDecodes(prefix);
      DecodedMeans(WebUrl.Unquote(prefix));
      if '*' !in prefix && '?' !in value && '#' !in value {
        assert PrefixReads(x, value, WebUrl.Unquote(prefix), ScopePath(x, value));
      }
    }
  }

  /** A path reads in one way. */
  lemma PathOnce(x: Syntax, value: string, kept: Option<string>)
    requires PathReads(x, value, kept)
    ensures kept == ScopePath(x, value)
  {
    hide WebUrl.Decodes, WebUrl.Unambiguous, WebUrl.Unquote, WebUrl.Starts, Without, DecodedRefused;
    WebUrl.CountsStarts(value);
    StarMeans(value);
    if value != "" && value[0] == '/' && WebUrl.CharCount(value) <= MAX_PATH {
      var prefix := if IsSubtree(value) then value[..|value| - 1] else value;
      WithoutMeans(prefix, '*');
      WithoutMeans(value, '?');
      WithoutMeans(value, '#');
      if '*' !in prefix && '?' !in value && '#' !in value {
        var decoded :| WebUrl.Decodes(prefix, decoded) && PrefixReads(x, value, decoded, kept);
        WebUrl.UnquoteDecodes(prefix);
        WebUrl.DecodesOnce(prefix, decoded, WebUrl.Unquote(prefix));
        DecodedMeans(decoded);
      }
    }
  }

  // ----- Rules -----

  ghost predicate PathsRead(x: Syntax, given: seq<string>, c: Checked<seq<string>>) {
    if |given| == 0 || 100 < |given| then c == Bad(InvalidPaths)
    else if exists i | 0 <= i < |given| :: PathReads(x, given[i], None) then c == Bad(InvalidPath)
    else
      && c.Good? && Ascending(c.value)
      && forall s :: Has(c.value, s) <==> exists i | 0 <= i < |given| :: PathReads(x, given[i], Some(s))
  }

  ghost predicate PortsRead(given: seq<int>, c: Checked<seq<int>>) {
    if |given| == 0 || 100 < |given| || exists i | 0 <= i < |given| :: given[i] < 1 || 65535 < given[i] then
      c == Bad(InvalidPorts)
    else
      && c.Good? && (forall i, j | 0 <= i < j < |c.value| :: c.value[i] < c.value[j])
      && (forall p :: p in c.value <==> p in given)
  }

  ghost function Or<T>(o: Option<T>, d: T): T {
    match o
    case Some(v) => v
    case None => d
  }

  /** What a rule means where it says nothing: an exclusion every scheme and path, an inclusion https and the root. */
  ghost function SchemesMeant(r: RawRule, excluded: bool): seq<string> {
    Or(r.schemes, if excluded then ["http", "https", "ws", "wss"] else ["https"])
  }

  ghost function PathsMeant(r: RawRule, excluded: bool): seq<string> {
    Or(r.paths, if excluded then ["/*"] else ["/"])
  }

  datatype Parts = Parts(schemes: Checked<seq<string>>, ports: Checked<seq<int>>, paths: Checked<seq<string>>)

  ghost predicate PartsRead(x: Syntax, r: RawRule, excluded: bool, d: Parts) {
    && NamesRead(SchemesMeant(r, excluded), {"http", "https", "ws", "wss"}, InvalidSchemes, d.schemes)
    && (r.ports.Some? ==> PortsRead(r.ports.value, d.ports))
    && PathsRead(x, PathsMeant(r, excluded), d.paths)
  }

  ghost predicate RuleReads(x: Syntax, r: RawRule, excluded: bool, c: Checked<Rule>) {
    if r.host.None? then c == Bad(HostRequired)
    else if x.host(r.host.value).None? then c == Bad(InvalidHost)
    else exists d :: PartsRead(x, r, excluded, d) && RuleMade(x.host(r.host.value).value, r.ports.Some?, d, c)
  }

  ghost predicate RuleMade(host: string, ported: bool, d: Parts, c: Checked<Rule>) {
    if d.schemes.Bad? then c == Bad(d.schemes.error)
    else if ported && d.ports.Bad? then c == Bad(d.ports.error)
    else if d.paths.Bad? then c == Bad(d.paths.error)
    else
      && c.Good? && c.value.host == host && c.value.schemes == d.schemes.value && c.value.paths == d.paths.value
      && (ported ==> c.value.ports == Some(d.ports.value)) && (!ported ==> c.value.ports == None)
  }

  /** The first rule that is refused decides; otherwise every rule is kept, in order. */
  ghost predicate RulesRead(x: Syntax, given: seq<RawRule>, excluded: bool, c: Checked<seq<Rule>>) {
    if 100 < |given| then c == Bad(InvalidRules)
    else
      match c
      case Good(rules) =>
        |rules| == |given| && forall i | 0 <= i < |given| :: RuleReads(x, given[i], excluded, Good(rules[i]))
      case Bad(error) => exists i | 0 <= i < |given| ::
        && RuleReads(x, given[i], excluded, Bad(error))
        && forall j | 0 <= j < i :: RuleKept(x, given[j], excluded)
  }

  ghost predicate RuleKept(x: Syntax, r: RawRule, excluded: bool) {
    exists kept :: RuleReads(x, r, excluded, Good(kept))
  }

  lemma PathsAre(x: Syntax, given: seq<string>)
    ensures PathsRead(x, given, PathList(x, given))
  {
    if 1 <= |given| <= 100 {
      if i :| 0 <= i < |given| && PathReads(x, given[i], None) {
        PathOnce(x, given[i], None);
        assert given[i] in given;
      } else {
        forall p | p in given ensures ScopePath(x, p).Some? {
          PathIs(x, p);
        }
        PathsKept(x, given);
      }
    }
  }

  lemma PathsKept(x: Syntax, given: seq<string>)
    requires forall p | p in given :: ScopePath(x, p).Some?
    ensures var kept := Strings.SortedSet(PathValues(x, given));
            && Ascending(kept)
            && forall s :: Has(kept, s) <==> exists i | 0 <= i < |given| :: PathReads(x, given[i], Some(s))
  {
    var values := PathValues(x, given);
    SetListed(values);
    forall s ensures Has(values, s) <==> exists i | 0 <= i < |given| :: PathReads(x, given[i], Some(s)) {
      if i :| 0 <= i < |values| && values[i] == s {
        assert given[i] in given;
        PathIs(x, given[i]);
        assert PathReads(x, given[i], Some(s));
      }
      if i :| 0 <= i < |given| && PathReads(x, given[i], Some(s)) {
        PathOnce(x, given[i], Some(s));
        assert values[i] == s;
      }
    }
  }

  lemma PortsAre(given: seq<int>)
    ensures PortsRead(given, PortList(given))
  {
    var top := MAX_PORT;
    PortsAscend(top, given);
    if exists i | 0 <= i < |given| :: given[i] < 1 || 65535 < given[i] {
      var i :| 0 <= i < |given| && (given[i] < 1 || 65535 < given[i]);
      assert given[i] in given;
    } else if 1 <= |given| <= 100 {
      assert forall p | p in given :: 1 <= p <= MAX_PORT;
    }
  }

  lemma RuleIsRead(x: Syntax, r: RawRule, excluded: bool)
    ensures RuleReads(x, r, excluded, OneRule(x, r, excluded))
  {
    if r.host.Some? && x.host(r.host.value).Some? {
      var schemes, paths := SchemeList(SchemesOf(r, excluded)), PathList(x, PathsOf(r, excluded));
      var ports := if r.ports.Some? then PortList(r.ports.value) else Good([]);
      var d := Parts(schemes, ports, paths);
      SchemesAre(SchemesOf(r, excluded));
      PathsAre(x, PathsOf(r, excluded));
      if r.ports.Some? {
        PortsAre(r.ports.value);
      }
      assert PartsRead(x, r, excluded, d);
      assert RuleMade(x.host(r.host.value).value, r.ports.Some?, d, OneRule(x, r, excluded));
    }
  }

  lemma RulesAre(x: Syntax, given: seq<RawRule>, excluded: bool)
    ensures RulesRead(x, given, excluded, Rules(x, given, excluded))
  {
    if |given| <= 100 {
      var results := Results(x, given, excluded);
      forall i | 0 <= i < |given| ensures RuleReads(x, given[i], excluded, results[i]) {
        RuleIsRead(x, given[i], excluded);
      }
      match Combined(results)
      case Good(rules) => CombinedExactly(results, rules);
      case Bad(error) =>
        var i := FirstBad(results, error);
        forall j | 0 <= j < i ensures RuleKept(x, given[j], excluded) {
          assert RuleReads(x, given[j], excluded, Good(results[j].value));
        }
    }
  }

  lemma {:induction false} FirstBad(results: seq<Checked<Rule>>, error: PolicyError) returns (i: nat)
    requires Combined(results) == Bad(error)
    ensures i < |results| && results[i] == Bad(error) && forall j | 0 <= j < i :: results[j].Good?
  {
    var n := |results| - 1;
    if Combined(results[..n]).Bad? {
      i := FirstBad(results[..n], error);
    } else {
      i := n;
      CombinedExactly(results[..n], Combined(results[..n]).value);
    }
  }

  // ----- Networks and prohibitions -----

  ghost predicate CidrsRead(x: Syntax, given: seq<string>, private: bool, c: Checked<seq<string>>) {
    if !Short(given, 30) then c == Bad(InvalidList)
    else if |given| > 0 && !private then c == Bad(PrivateTargetsRequired)
    else if exists i | 0 <= i < |given| :: x.network(given[i]).None? then c == Bad(InvalidCidr)
    else if exists i | 0 <= i < |given| :: x.tooBroad(given[i]) then c == Bad(CidrTooBroad)
    else c.Good? && exists listed :: Listing(given, listed) && PrintsOf(x, listed, c.value)
  }

  /** Each text's network as printed, in order; two spellings of one network are both kept. */
  ghost predicate PrintsOf(x: Syntax, listed: seq<string>, kept: seq<string>) {
    && (forall i, j | 0 <= i < j < |kept| :: kept[i] == kept[j] || Strings.Precedes(kept[i], kept[j]))
    && (forall i | 0 <= i < |listed| :: x.network(listed[i]).Some?)
    && multiset(kept) == multiset(seq(|listed|, i requires 0 <= i < |listed| => Or(x.network(listed[i]), "")))
  }

  /** What the program prohibits, and the built-in prohibitions, in order. */
  ghost predicate ProhibitedRead(x: Syntax, given: seq<string>, c: Checked<seq<string>>) {
    if Short(given, 100) && forall i | 0 <= i < |given| :: x.tag(given[i]) then
      c.Good? && Ascending(c.value) && forall s :: Has(c.value, s) <==> s in x.builtIn || Has(given, s)
    else c == Bad(InvalidList)
  }

  lemma CidrsAre(x: Syntax, given: seq<string>, private: bool)
    ensures CidrsRead(x, given, private, CidrList(x, given, private))
  {
    AnyTexts(given, 30);
    if Short(given, 30) {
      var listed := StringList(given, 30, (s: string) => true).value;
      ListingEmpty(given, listed);
      NetworksMean(x, given, listed);
      if CidrList(x, given, private).Good? {
        PrintsKept(x, listed, private);
      }
    }
  }

  lemma NetworksMean(x: Syntax, given: seq<string>, listed: seq<string>)
    requires Listing(given, listed)
    ensures AllNetworks(x, listed) <==> !exists i | 0 <= i < |given| :: x.network(given[i]).None?
    ensures NoneTooBroad(x, listed) <==> !exists i | 0 <= i < |given| :: x.tooBroad(given[i])
  {
    forall s ensures s in listed <==> Has(given, s) {
      InHas(listed, s);
    }
    assert forall i | 0 <= i < |given| :: Has(given, given[i]);
  }

  lemma PrintsKept(x: Syntax, listed: seq<string>, private: bool)
    requires Printed(x, listed, private).Good?
    ensures PrintsOf(x, listed, Printed(x, listed, private).value)
  {
    var prints, kept := Networks(x, listed), Printed(x, listed, private).value;
    Strings.OrderTotal();
    SortSorted(Strings.Order(), prints);
    assert forall i | 0 <= i < |listed| :: listed[i] in listed;
    assert prints == seq(|listed|, i requires 0 <= i < |listed| => Or(x.network(listed[i]), ""));
    forall i, j | 0 <= i < j < |kept| ensures kept[i] == kept[j] || Strings.Precedes(kept[i], kept[j]) {
      assert Strings.Order()(kept[i], kept[j]);
      Strings.LeqPrecedes(kept[i], kept[j]);
    }
  }

  lemma ProhibitedAre(x: Syntax, given: seq<string>)
    ensures ProhibitedRead(x, given, ProhibitedList(x, given))
  {
    TextsAre(given, 100, x.tag);
    if ProhibitedList(x, given).Good? {
      var own, kept := StringList(given, 100, x.tag).value, ProhibitedList(x, given).value;
      SortedAscends(kept);
      forall s ensures Has(kept, s) <==> s in x.builtIn || Has(given, s) {
        InHas(kept, s);
        InHas(own, s);
      }
    }
  }

  // ----- Whole policies -----

  datatype Readings = Readings(methods: Checked<seq<string>>, identities: Checked<seq<string>>,
                               cidrs: Checked<seq<string>>, inScope: Checked<seq<Rule>>,
                               outOfScope: Checked<seq<Rule>>, prohibited: Checked<seq<string>>,
                               excluded: Checked<seq<string>>)

  /** What each list of a policy reads as, with what an absent one means. */
  ghost predicate ListsRead(x: Syntax, r: RawPolicy, d: Readings) {
    && NamesRead(Or(r.allowedMethods, ["GET", "HEAD", "OPTIONS"]), x.methods, MethodNotSupported, d.methods)
    && NamesRead(Or(r.identities, ["anonymous"]), x.identityLabels, InvalidIdentity, d.identities)
    && CidrsRead(x, Or(r.privateCidrs, []), r.allowPrivate == Some(true), d.cidrs)
    && RulesRead(x, Or(r.inScope, []), false, d.inScope) && RulesRead(x, Or(r.outOfScope, []), true, d.outOfScope)
    && ProhibitedRead(x, Or(r.prohibited, []), d.prohibited)
    && TextsRead(Or(r.excludedCategories, []), 100, x.tag, d.excluded)
  }

  /** Every budget at least one and at most its ceiling. */
  ghost predicate InCeilings(b: Budgets) {
    match b
    case Budgets(perMinute, concurrent, perSession, downloadBytes, responseBytes, runtimeSeconds) =>
      && 0 < perMinute <= 120 && 0 < concurrent <= 4 && 0 < perSession <= 300 && 0 < runtimeSeconds <= 120
      && 0 < downloadBytes <= 32 * 1024 * 1024 && 0 < responseBytes <= 8 * 1024 * 1024
  }

  /** The answer once the scalar fields are fine, for the first reason that holds. */
  ghost predicate BodyAnswers(x: Syntax, r: RawPolicy, d: Readings, c: Checked<Policy>) {
    if d.methods.Bad? then c == Bad(d.methods.error)
    else if !InCeilings(r.budgets) then c == Bad(InvalidBudget)
    else if r.budgets.responseBytes > r.budgets.downloadBytes then c == Bad(InvalidByteLimits)
    else if d.identities.Bad? then c == Bad(d.identities.error)
    else if d.cidrs.Bad? then c == Bad(d.cidrs.error)
    else if r.submissionUrl.Some? && x.submissionUrl(r.submissionUrl.value).None? then c == Bad(InvalidSubmissionUrl)
    else if d.inScope.Bad? then c == Bad(d.inScope.error)
    else if d.outOfScope.Bad? then c == Bad(d.outOfScope.error)
    else if d.prohibited.Bad? then c == Bad(d.prohibited.error)
    else if d.excluded.Bad? then c == Bad(d.excluded.error)
    else c.Good? && Takes(x, r, d, c.value)
  }

  /** The accepted policy has each list as read and each other field as given or meant. */
  ghost predicate Takes(x: Syntax, r: RawPolicy, d: Readings, p: Policy) {
    && r.programId == Some(p.programId) && p.name == Or(r.name, p.programId) && p.policySource == r.policySource
    && Good(p.allowedMethods) == d.methods && Good(p.identities) == d.identities && Good(p.privateCidrs) == d.cidrs
    && Good(p.inScope) == d.inScope && Good(p.outOfScope) == d.outOfScope && Good(p.prohibited) == d.prohibited
    && Good(p.excludedCategories) == d.excluded && p.budgets == r.budgets
    && (p.allowPrivate <==> r.allowPrivate == Some(true)) && (p.disclosure <==> r.disclosure != Some(false))
    && match r.submissionUrl
       case None => p.submissionUrl == None
       case Some(u) => p.submissionUrl == x.submissionUrl(u)
  }

  /** The whole answer: the schema, the id, the name and the source first, then the rest. */
  ghost predicate Answers(x: Syntax, r: RawPolicy, c: Checked<Policy>) {
    if r.schemaVersion.Some? && r.schemaVersion.value != 1 then c == Bad(UnsupportedSchema)
    else
      match r.programId
      case None => c == Bad(InvalidProgramId)
      case Some(id) =>
        var name := Or(r.name, id);
        if !x.programId(id) then c == Bad(InvalidProgramId)
        else if |WebUrl.Starts(name)| == 0 || 256 < |WebUrl.Starts(name)| || !x.plainLine(name) then
          c == Bad(InvalidName)
        else if !SourceFine(x, r.policySource) then c == Bad(InvalidSource)
        else exists d :: ListsRead(x, r, d) && BodyAnswers(x, r, d, c)
  }

  ghost predicate SourceFine(x: Syntax, source: Option<string>) {
    match source
    case None => true
    case Some(s) => |WebUrl.Starts(s)| <= 2048 && x.plainLine(s)
  }

  ghost function Read(x: Syntax, r: RawPolicy): Readings {
    Readings(MethodList(x, Default(r.allowedMethods, DefaultMethods())),
             IdentityList(x, Default(r.identities, DefaultIdentities())),
             CidrList(x, Default(r.privateCidrs, []), Default(r.allowPrivate, false)),
             Rules(x, Default(r.inScope, []), false), Rules(x, Default(r.outOfScope, []), true),
             ProhibitedList(x, Default(r.prohibited, [])),
             StringList(Default(r.excludedCategories, []), 100, x.tag))
  }

  lemma ReadIs(x: Syntax, r: RawPolicy)
    ensures ListsRead(x, r, Read(x, r))
  {
    MethodsAre(x, Default(r.allowedMethods, DefaultMethods()));
    IdentitiesAre(x, Default(r.identities, DefaultIdentities()));
    CidrsAre(x, Default(r.privateCidrs, []), Default(r.allowPrivate, false));
    RulesAre(x, Default(r.inScope, []), false);
    RulesAre(x, Default(r.outOfScope, []), true);
    ProhibitedAre(x, Default(r.prohibited, []));
    TextsAre(Default(r.excludedCategories, []), 100, x.tag);
  }

  lemma BodyIs(x: Syntax, r: RawPolicy)
    requires r.programId.Some?
    ensures BodyAnswers(x, r, Read(x, r),
                        Assembled(r, Default(r.name, r.programId.value), CheckedLists(x, r),
                                  Submitted(x, r.submissionUrl)))
  {
  }

  /** Validation answers so for every policy. */
  lemma ValidateAnswers(x: Syntax, r: RawPolicy)
    ensures Answers(x, r, Validate(x, r))
  {
    if r.programId.Some? {
      WebUrl.CountsStarts(Or(r.name, r.programId.value));
      ReadIs(x, r);
      BodyIs(x, r);
    }
    if r.policySource.Some? {
      WebUrl.CountsStarts(r.policySource.value);
    }
  }

  // ----- What every accepted policy is -----

  /** The methods, identities and prohibitions the program knows. */
  ghost predicate Standard(x: Syntax) {
    && x.methods == {"GET", "HEAD", "OPTIONS"} && x.identityLabels == {"anonymous", "user_a", "user_b"}
    && x.builtIn == {"automated_scanning", "dos", "ddos", "social_engineering", "physical_attack",
                     "large_scale_data_access", "destructive_testing", "credential_spraying"}
  }

  ghost predicate OnlyReads(p: Policy) {
    |p.allowedMethods| > 0
    && forall i | 0 <= i < |p.allowedMethods| ::
         p.allowedMethods[i] == "GET" || p.allowedMethods[i] == "HEAD" || p.allowedMethods[i] == "OPTIONS"
  }

  ghost predicate Prohibits(p: Policy) {
    && Has(p.prohibited, "automated_scanning") && Has(p.prohibited, "dos") && Has(p.prohibited, "ddos")
    && Has(p.prohibited, "social_engineering") && Has(p.prohibited, "physical_attack")
    && Has(p.prohibited, "large_scale_data_access") && Has(p.prohibited, "destructive_testing")
    && Has(p.prohibited, "credential_spraying")
  }

  /** Whatever a policy says, once accepted it allows only reading methods, prohibits all that is built in, keeps every
      budget within its ceiling, and names private networks only if it allows private targets. */
  lemma AcceptedPolicy(x: Syntax, r: RawPolicy, p: Policy)
    requires Standard(x) && Validate(x, r) == Good(p)
    ensures OnlyReads(p) && Prohibits(p) && InCeilings(p.budgets)
    ensures p.budgets.responseBytes <= p.budgets.downloadBytes
    ensures p.privateCidrs != [] ==> p.allowPrivate
  {
    AcceptedReads(x, r, p);
    BuiltInKept(x, Default(r.prohibited, []), p);
  }

  lemma AcceptedReads(x: Syntax, r: RawPolicy, p: Policy)
    requires x.methods == {"GET", "HEAD", "OPTIONS"} && Validate(x, r) == Good(p)
    ensures OnlyReads(p) && InCeilings(p.budgets) && p.budgets.responseBytes <= p.budgets.downloadBytes
    ensures p.privateCidrs != [] ==> p.allowPrivate
    ensures ProhibitedList(x, Default(r.prohibited, [])) == Good(p.prohibited)
  {
    var methods := Default(r.allowedMethods, DefaultMethods());
    ValidateExactly(x, r, p);
    ListsExactly(x, r, ListsOf(p));
    MethodsAre(x, methods);
    MethodsKept(x, methods, p);
  }

  lemma BuiltInKept(x: Syntax, given: seq<string>, p: Policy)
    requires Standard(x) && ProhibitedList(x, given) == Good(p.prohibited)
    ensures Prohibits(p)
  {
    forall s | s in x.builtIn ensures Has(p.prohibited, s) {
      InHas(p.prohibited, s);
    }
  }

  lemma MethodsKept(x: Syntax, given: seq<string>, p: Policy)
    requires x.methods == {"GET", "HEAD", "OPTIONS"}
    requires NamesRead(given, x.methods, MethodNotSupported, Good(p.allowedMethods))
    ensures OnlyReads(p)
  {
    ListingEmpty(given, p.allowedMethods);
    forall i | 0 <= i < |p.allowedMethods| ensures p.allowedMethods[i] in x.methods {
      assert Has(p.allowedMethods, p.allowedMethods[i]) && Has(given, p.allowedMethods[i]);
    }
  }

  // ----- Trees -----

  /** What a tree says, with the default budgets. */
  ghost predicate FlatReads(t: RawTree, r: RawPolicy) {
    && r.schemaVersion == t.schemaVersion && r.programId == t.programId && r.name == t.name
    && (r.policySource.Some? ==> t.policySource == Some(Text(r.policySource.value)))
    && (r.policySource.None? ==> t.policySource == None || t.policySource == Some(Null))
    && (r.inScope == match t.scope case None => None case Some(s) => s.inScope)
    && (r.outOfScope == match t.scope case None => None case Some(s) => s.outOfScope)
    && NetworkReads(t.network, r.allowedMethods, r.budgets)
    && r.prohibited == t.prohibited && r.excludedCategories == t.excludedCategories && r.identities == t.identities
    && r.allowPrivate == t.allowPrivate && r.privateCidrs == t.privateCidrs
    && ReportingReads(t.reporting, r.submissionUrl, r.disclosure)
  }

  ghost predicate NetworkReads(n: Option<RawNetwork>, methods: Option<seq<string>>, b: Budgets) {
    match n
    case None => methods == None && b == Budgets(20, 2, 60, 8 * 1024 * 1024, 2 * 1024 * 1024, 45)
    case Some(w) =>
      && methods == w.allowedMethods && b.perMinute == Or(w.perMinute, 20) && b.concurrent == Or(w.concurrent, 2)
      && b.perSession == Or(w.perSession, 60) && b.downloadBytes == Or(w.downloadBytes, 8 * 1024 * 1024)
      && b.responseBytes == Or(w.responseBytes, 2 * 1024 * 1024) && b.runtimeSeconds == Or(w.runtimeSeconds, 45)
  }

  ghost predicate ReportingReads(w: Option<RawReporting>, url: Option<string>, disclosure: Option<bool>) {
    match w
    case None => url == None && disclosure == None
    case Some(v) =>
      && disclosure == v.disclosure
      && (url.Some? ==> v.submissionUrl == Some(Text(url.value)))
      && (url.None? ==> v.submissionUrl == None || v.submissionUrl == Some(Null))
  }

  lemma FlatRead(t: RawTree)
    ensures FlatReads(t, Flat(t))
  {
  }

  /** A tree of values as a parser counts them: a scalar, or a mapping or list with values in it. */
  datatype Shape = Shape(values: seq<Shape>)

  ghost function Count(s: Shape): nat {
    1 + CountAll(s.values)
  }

  ghost function CountAll(values: seq<Shape>): nat {
    if values == [] then 0 else CountAll(values[..|values| - 1]) + Count(values[|values| - 1])
  }

  const SCALAR := Shape([])

  ghost function ListShape(n: nat): Shape {
    Shape(seq(n, _ => SCALAR))
  }

  ghost function Value<T>(o: Option<T>): seq<Shape> {
    if o.Some? then [SCALAR] else []
  }

  ghost function Values<T>(o: Option<seq<T>>): seq<Shape> {
    if o.Some? then [ListShape(|o.value|)] else []
  }

  ghost function RuleShape(r: RawRule): Shape {
    Shape(Value(r.host) + Values(r.schemes) + Values(r.ports) + Values(r.paths))
  }

  ghost function RulesShape(o: Option<seq<RawRule>>): seq<Shape> {
    if o.None? then [] else [Shape(seq(|o.value|, i requires 0 <= i < |o.value| => RuleShape(o.value[i])))]
  }

  ghost function ScopeShape(o: Option<RawScope>): seq<Shape> {
    if o.None? then [] else [Shape(RulesShape(o.value.inScope) + RulesShape(o.value.outOfScope))]
  }

  ghost function NetworkShape(o: Option<RawNetwork>): seq<Shape> {
    if o.None? then []
    else
      var n := o.value;
      [Shape(Values(n.allowedMethods) + Value(n.perMinute) + Value(n.concurrent) + Value(n.perSession)
             + Value(n.downloadBytes) + Value(n.responseBytes) + Value(n.runtimeSeconds))]
  }

  ghost function ReportingShape(o: Option<RawReporting>): seq<Shape> {
    if o.None? then [] else [Shape(Value(o.value.submissionUrl) + Value(o.value.disclosure))]
  }

  ghost function TreeShape(t: RawTree): Shape {
    Shape(Value(t.schemaVersion) + Value(t.programId) + Value(t.name) + Value(t.policySource)
          + ScopeShape(t.scope) + NetworkShape(t.network)
          + Values(t.prohibited) + Values(t.excludedCategories) + Values(t.identities)
          + ReportingShape(t.reporting) + Value(t.allowPrivate) + Values(t.privateCidrs))
  }

  lemma {:induction false} CountConcat(a: seq<Shape>, b: seq<Shape>)
    ensures CountAll(a + b) == CountAll(a) + CountAll(b)
  {
    if b == [] {
      assert a + b == a;
    } else {
      assert (a + b)[..|a + b| - 1] == a + b[..|b| - 1];
      CountConcat(a, b[..|b| - 1]);
    }
  }

  lemma CountOne(s: Shape)
    ensures CountAll([s]) == Count(s)
  {
    assert [s][..0] == [];
  }

  lemma {:induction false} ScalarsCount(n: nat)
    ensures CountAll(seq(n, _ => SCALAR)) == n
  {
    if n > 0 {
      ScalarsCount(n - 1);
      assert seq(n, _ => SCALAR)[..n - 1] == seq(n - 1, _ => SCALAR);
    }
  }

  lemma ValueCount<T>(o: Option<T>)
    ensures CountAll(Value(o)) == Present(o)
  {
    CountOne(SCALAR);
  }

  lemma ValuesCount<T>(o: Option<seq<T>>)
    ensures CountAll(Values(o)) == ListNodes(o)
  {
    if o.Some? {
      CountOne(ListShape(|o.value|));
      ScalarsCount(|o.value|);
    }
  }

  lemma RuleCount(r: RawRule)
    ensures Count(RuleShape(r)) == RuleNodes(r)
  {
    var a, b := Value(r.host) + Values(r.schemes), Value(r.host) + Values(r.schemes) + Values(r.ports);
    CountConcat(Value(r.host), Values(r.schemes));
    CountConcat(a, Values(r.ports));
    CountConcat(b, Values(r.paths));
    ValueCount(r.host);
    ValuesCount(r.schemes);
    ValuesCount(r.ports);
    ValuesCount(r.paths);
  }

  ghost function RuleShapes(rules: seq<RawRule>): seq<Shape> {
    seq(|rules|, i requires 0 <= i < |rules| => RuleShape(rules[i]))
  }

  lemma {:induction false} RuleShapesCount(rules: seq<RawRule>)
    ensures CountAll(RuleShapes(rules)) == RulesNodes(rules)
  {
    if rules != [] {
      var n := |rules| - 1;
      RuleShapesCount(rules[..n]);
      RuleCount(rules[n]);
      assert RuleShapes(rules)[..n] == RuleShapes(rules[..n]);
    }
  }

  lemma RulesCount(o: Option<seq<RawRule>>)
    ensures CountAll(RulesShape(o)) == if o.Some? then 1 + RulesNodes(o.value) else 0
  {
    if o.Some? {
      CountOne(RulesShape(o)[0]);
      RuleShapesCount(o.value);
    }
  }

  lemma ScopeCount(o: Option<RawScope>)
    ensures CountAll(ScopeShape(o)) == if o.Some? then ScopeNodes(o.value) else 0
  {
    if o.Some? {
      CountOne(ScopeShape(o)[0]);
      CountConcat(RulesShape(o.value.inScope), RulesShape(o.value.outOfScope));
      RulesCount(o.value.inScope);
      RulesCount(o.value.outOfScope);
    }
  }

  lemma NetworkCount(o: Option<RawNetwork>)
    ensures CountAll(NetworkShape(o)) == if o.Some? then NetworkNodes(o.value) else 0
  {
    if o.Some? {
      var n := o.value;
      var a := Values(n.allowedMethods) + Value(n.perMinute);
      var b := a + Value(n.concurrent);
      var c := b + Value(n.perSession);
      var d := c + Value(n.downloadBytes);
      var e := d + Value(n.responseBytes);
      CountOne(NetworkShape(o)[0]);
      CountConcat(Values(n.allowedMethods), Value(n.perMinute));
      CountConcat(a, Value(n.concurrent));
      CountConcat(b, Value(n.perSession));
      CountConcat(c, Value(n.downloadBytes));
      CountConcat(d, Value(n.responseBytes));
      CountConcat(e, Value(n.runtimeSeconds));
      ValuesCount(n.allowedMethods);
      ValueCount(n.perMinute);
      ValueCount(n.concurrent);
      ValueCount(n.perSession);
      ValueCount(n.downloadBytes);
      ValueCount(n.responseBytes);
      ValueCount(n.runtimeSeconds);
    }
  }

  lemma ReportingCount(o: Option<RawReporting>)
    ensures CountAll(ReportingShape(o)) == if o.Some? then ReportingNodes(o.value) else 0
  {
    if o.Some? {
      CountOne(ReportingShape(o)[0]);
      CountConcat(Value(o.value.submissionUrl), Value(o.value.disclosure));
      ValueCount(o.value.submissionUrl);
      ValueCount(o.value.disclosure);
    }
  }

  /** The nodes of a policy tree are one for the tree and one for every value and list element in it, at any depth. */
  lemma NodesCount(t: RawTree)
    ensures Nodes(t) == Count(TreeShape(t))
  {
    var a := Value(t.schemaVersion) + Value(t.programId);
    var b := a + Value(t.name);
    var c := b + Value(t.policySource);
    var d := c + ScopeShape(t.scope);
    var e := d + NetworkShape(t.network);
    CountConcat(Value(t.schemaVersion), Value(t.programId));
    CountConcat(a, Value(t.name));
    CountConcat(b, Value(t.policySource));
    CountConcat(c, ScopeShape(t.scope));
    CountConcat(d, NetworkShape(t.network));
    LastCount(t, e);
    ValueCount(t.schemaVersion);
    ValueCount(t.programId);
    ValueCount(t.name);
    ValueCount(t.policySource);
    ScopeCount(t.scope);
    NetworkCount(t.network);
  }

  lemma LastCount(t: RawTree, e: seq<Shape>)
    ensures CountAll(e + Values(t.prohibited) + Values(t.excludedCategories) + Values(t.identities)
                     + ReportingShape(t.reporting) + Value(t.allowPrivate) + Values(t.privateCidrs))
            == CountAll(e) + ListNodes(t.prohibited) + ListNodes(t.excludedCategories) + ListNodes(t.identities)
               + (if t.reporting.Some? then ReportingNodes(t.reporting.value) else 0)
               + Present(t.allowPrivate) + ListNodes(t.privateCidrs)
  {
    var f := e + Values(t.prohibited);
    var g := f + Values(t.excludedCategories);
    var h := g + Values(t.identities);
    var i := h + ReportingShape(t.reporting);
    var j := i + Value(t.allowPrivate);
    CountConcat(e, Values(t.prohibited));
    CountConcat(f, Values(t.excludedCategories));
    CountConcat(g, Values(t.identities));
    CountConcat(h, ReportingShape(t.reporting));
    CountConcat(i, Value(t.allowPrivate));
    CountConcat(j, Values(t.privateCidrs));
    ValuesCount(t.prohibited);
    ValuesCount(t.excludedCategories);
    ValuesCount(t.identities);
    ReportingCount(t.reporting);
    ValueCount(t.allowPrivate);
    ValuesCount(t.privateCidrs);
  }
}
