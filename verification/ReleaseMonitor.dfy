/** The persisted release monitor (full_hunt/release_monitor.py) and the regression specifications it asks for
    (full_hunt/regression.py). */
module ReleaseMonitor {
  import opened Wrappers
  import opened Collections
  import R = RegressionSpec

  // ----- Releases, candidates and retests -----

  datatype Release = Release(target: string, version: string, fingerprint: string)

  datatype Status = Affected | Fixed | Regression | Blocked | Inconclusive

  datatype Blocker = ProviderUnavailable | IdentityUnresolved | PrepareFailed | BuildFailed | StartFailed
                   | BootstrapFailed | ControlFailed | ScenarioIncompatible | SourceChanged | RetestInconclusive

  /** What a specification is generated from, besides the history. */
  datatype Materials = Materials(capabilities: R.Json, assertions: R.Json, control: R.Json, probe: R.Json,
                                 invariant_: R.Json, budget: R.Json, policy: R.Json, evidence: R.Json)

  datatype Candidate = Candidate(
    id: string, rootCause: string, scenario: string, invariantHash: string, budget: int,
    wellNamed: bool, priorEligible: bool, scenarioGiven: bool, assertionsHold: bool, revisionSupported: bool,
      safetyGate: bool,
    materials: Materials)

  /** `_eligible_candidate`. */
  predicate EligibleCandidate(c: Candidate) {
    && c.wellNamed && c.priorEligible && c.scenarioGiven && c.assertionsHold && c.revisionSupported && c.safetyGate
    && c.rootCause != "" && c.scenario != "" && 1 <= c.budget <= 12
  }

  datatype FinalUrl = FinalUrl(http: bool, loopback: bool, credentials: bool, fragment: bool)

  /** What the provider reports of one retest; a missing or mistyped value is None or false. */
  datatype Evidence = Evidence(
    fixtureValid: bool, controlPassed: bool, sourceValid: bool,
    probeMissing: bool, probeEmpty: bool, statusOnly: bool, timedOut: bool, apiError: bool, routeChanged: bool,
    deterministic: bool, ambiguous: bool, probeValid: bool,
    requests: Option<int>, finalUrls: seq<FinalUrl>, violation: Option<bool>)

  datatype Validation = Raised(reason: Blocker) | Malformed | Observed(evidence: Evidence)

  /** The target's side of one check: what preparing and bootstrapping a release raise, and what validating a candidate
      against it reports. */
  datatype Provider = Provider(prepare: Release -> Option<Blocker>, bootstrap: Release -> Option<Blocker>,
                               validate: (Candidate, Release) -> Validation)

  datatype Note = Absent | Generated(spec: R.Spec) | Unavailable

  datatype Retest = Retest(candidate: string, release: Release, status: Status, blocker: Option<Blocker>,
                           rootCause: string, scenario: string, invariantHash: string, evidence: Option<Evidence>,
                           regression: Note)

  // ----- Classification -----

  predicate LocalUrls(urls: seq<FinalUrl>) {
    urls != []
    && forall i | 0 <= i < |urls| :: urls[i].http && urls[i].loopback && !urls[i].credentials && !urls[i].fragment
  }

  predicate Unclear(e: Evidence) {
    e.probeMissing || e.probeEmpty || e.statusOnly || e.timedOut || e.apiError || e.routeChanged || !e.deterministic
      || e.ambiguous || !e.probeValid
  }

  /** `_classify_retest`. */
  function Classify(v: Validation, budget: int): (Status, Option<Blocker>) {
    match v
    case Raised(reason) => (Status.Blocked, Some(reason))
    case Malformed => (Inconclusive, Some(RetestInconclusive))
    case Observed(e) =>
      if !e.fixtureValid then (Status.Blocked, Some(ScenarioIncompatible))
      else if !e.controlPassed then (Status.Blocked, Some(ControlFailed))
      else if !e.sourceValid then (Status.Blocked, Some(SourceChanged))
      else if Unclear(e) then (Inconclusive, Some(RetestInconclusive))
      else if e.requests.None? || !(0 <= e.requests.value <= budget) then (Status.Blocked, Some(ScenarioIncompatible))
      else if !LocalUrls(e.finalUrls) then (Status.Blocked, Some(ScenarioIncompatible))
      else if e.violation == Some(true) then (Affected, None)
      else if e.violation == Some(false) then (Fixed, None)
      else (Inconclusive, Some(RetestInconclusive))
  }

  /** A retest that can be trusted: every precondition held, the probe was clear, within budget and local. */
  predicate Trustworthy(v: Validation, budget: int) {
    && v.Observed? && v.evidence.fixtureValid && v.evidence.controlPassed && v.evidence.sourceValid
      && !Unclear(v.evidence)
    && v.evidence.requests.Some? && 0 <= v.evidence.requests.value <= budget && LocalUrls(v.evidence.finalUrls)
  }

  /** A definite verdict needs trustworthy evidence, and then is what was observed; no verdict comes with a blocker. */
  lemma ClassifyExactly(v: Validation, budget: int)
    ensures Classify(v, budget).0 == Affected <==> Trustworthy(v, budget) && v.evidence.violation == Some(true)
    ensures Classify(v, budget).0 == Fixed <==> Trustworthy(v, budget) && v.evidence.violation == Some(false)
    ensures Classify(v, budget).1.None? <==> Classify(v, budget).0 in {Affected, Fixed}
  {
  }

  predicate Same(a: Retest, c: Candidate) {
    a.rootCause == c.rootCause && a.scenario == c.scenario && a.invariantHash == c.invariantHash
  }

  predicate SameInvariant(a: Retest, b: Retest) {
    a.rootCause == b.rootCause && a.scenario == b.scenario && a.invariantHash == b.invariantHash
  }

  predicate FixedBefore(history: seq<Retest>, c: Candidate) {
    exists i | 0 <= i < |history| :: history[i].status == Fixed && Same(history[i], c)
  }

  function PreparationError(p: Provider, r: Release): Option<Blocker> {
    if p.prepare(r).Some? then p.prepare(r) else p.bootstrap(r)
  }

  /** The evidence a record keeps: none if there is no report to keep. */
  function Reported(v: Validation): Option<Evidence> {
    if v.Observed? then Some(v.evidence) else None
  }

  /** One retest, before any specification is asked for: an affected candidate whose fix is on record is a
      regression. */
  function Retested(p: Provider, history: seq<Retest>, c: Candidate, r: Release): Retest {
    var failed := PreparationError(p, r);
    var (status, blocker) := if failed.Some? then (Status.Blocked, failed) else Classify(p.validate(c, r), c.budget);
    Retest(c.id, r, if status == Affected && FixedBefore(history, c) then Regression else status, blocker,
           c.rootCause, c.scenario, c.invariantHash, if failed.Some? then None else Reported(p.validate(c, r)), Absent)
  }

  // ----- Specifications -----

  function ReferenceTo(t: Retest): R.Reference {
    R.Reference(t.release.version, t.release.fingerprint)
  }

  /** The releases of the retests with one of two statuses, in order. */
  function Listed(records: seq<Retest>, a: Status, b: Status): seq<R.Reference> {
    if records == [] then []
    else Listed(records[..|records| - 1], a, b)
         + if records[|records| - 1].status in {a, b} then [ReferenceTo(records[|records| - 1])] else []
  }

  datatype SpecError = StatusIneligible | InvalidSpec

  datatype Produced = Spec(spec: R.Spec) | Refused(error: SpecError)

  /** What a specification is validated and redacted with. */
  datatype Rules = Rules(patterns: R.Patterns, clean: R.Document -> R.Document, target: string)

  function Records(latest: Retest, history: seq<Retest>): seq<Retest> {
    if history == [] || history[|history| - 1] != latest then history + [latest] else history
  }

  function DocumentOf(x: Rules, c: Candidate, records: seq<Retest>): R.Document {
    R.Document(R.Int(1), R.Str(x.target), R.Str(c.id), R.Str(c.rootCause), R.Str(c.scenario), c.materials.capabilities,
               c.materials.assertions, c.materials.control, c.materials.probe, c.materials.invariant_,
                 c.materials.budget,
               c.materials.policy, R.Arr(R.ReferenceDicts(Listed(records, Affected, Regression))),
               R.Arr(R.ReferenceDicts(Listed(records, Fixed, Fixed))), c.materials.evidence, map[])
  }

  /** The generator's own tests of the latest retest and its history. */
  predicate StatusEligible(latest: Retest, history: seq<Retest>) {
    var records := Records(latest, history);
    latest.status == Fixed
    || (latest.status == Regression && exists i | 0 <= i < |records| - 1 :: records[i].status == Fixed)
  }

  /** `generate`. */
  function Generate(x: Rules, c: Candidate, latest: Retest, history: seq<Retest>): Produced {
    if !StatusEligible(latest, history) then Refused(StatusIneligible)
    else
      var spec := R.FromDict(x.patterns, DocumentOf(x, c, Records(latest, history)));
      if spec.None? then Refused(InvalidSpec)
      else
        var safe := R.FromDict(x.patterns, x.clean(R.ToDict(spec.value)));
        if safe.None? then Refused(InvalidSpec) else Spec(safe.value)
  }

  /** The retest as recorded: a fix or a regression comes with a specification, if one can be generated. */
  function Noted(x: Rules, c: Candidate, t: Retest, history: seq<Retest>): Retest {
    if t.status !in {Fixed, Regression} then t
    else
      var made := Generate(x, c, t, history);
      t.(regression := if made.Spec? then Generated(made.spec) else Unavailable)
  }

  // ----- What a history keeps -----

  /** What a record says was seen is in its evidence: a fix no violation, anything affected one. */
  predicate Backed(t: Retest) {
    && (t.status == Fixed ==> t.evidence.Some? && t.evidence.value.violation == Some(false))
    && (t.status in {Affected, Regression} ==> t.evidence.Some? && t.evidence.value.violation == Some(true))
    && (t.status in {Fixed, Affected, Regression} ==> !Unclear(t.evidence.value) && t.evidence.value.controlPassed)
  }

  /** Every regression has an earlier fix of the same invariant, nothing is plainly affected once its fix is on record,
      a specification was asked for exactly for fixes and regressions, and every record is backed by its evidence. */
  ghost predicate SoundHistory(h: seq<Retest>) {
    && (forall j | 0 <= j < |h| && h[j].status == Regression ::
          exists i | 0 <= i < j :: h[i].status == Fixed && SameInvariant(h[i], h[j]))
    && (forall i, j | 0 <= i < j < |h| && h[i].status == Fixed && SameInvariant(h[i], h[j]) :: h[j].status != Affected)
    && (forall j | 0 <= j < |h| :: h[j].regression.Absent? <==> h[j].status !in {Fixed, Regression})
    && (forall j | 0 <= j < |h| :: Backed(h[j]))
  }

  /** One more retest keeps a history sound if it is a regression only after a fix, affected only before one, and comes
      with a specification exactly when it should. */
  lemma HistoryGrows(h: seq<Retest>, t: Retest)
    requires SoundHistory(h)
    requires t.status == Regression ==> exists i | 0 <= i < |h| :: h[i].status == Fixed && SameInvariant(h[i], t)
    requires t.status == Affected ==> forall i | 0 <= i < |h| && h[i].status == Fixed :: !SameInvariant(h[i], t)
    requires (t.regression.Absent? <==> t.status !in {Fixed, Regression}) && Backed(t)
    ensures SoundHistory(h + [t])
  {
    var next := h + [t];
    forall j | 0 <= j < |next| && next[j].status == Regression
      ensures exists i | 0 <= i < j :: next[i].status == Fixed && SameInvariant(next[i], next[j])
    {
      var i :| 0 <= i < j && h[i].status == Fixed && SameInvariant(h[i], next[j]);
      assert next[i].status == Fixed && SameInvariant(next[i], next[j]);
    }
  }

  lemma SameAs(h: seq<Retest>, c: Candidate, t: Retest)
    requires t.rootCause == c.rootCause && t.scenario == c.scenario && t.invariantHash == c.invariantHash
    ensures FixedBefore(h, c) <==> exists i | 0 <= i < |h| :: h[i].status == Fixed && SameInvariant(h[i], t)
  {
    if i :| 0 <= i < |h| && h[i].status == Fixed && Same(h[i], c) {
      assert SameInvariant(h[i], t);
    }
    if i :| 0 <= i < |h| && h[i].status == Fixed && SameInvariant(h[i], t) {
      assert Same(h[i], c);
    }
  }

  lemma RetestKeeps(x: Rules, p: Provider, h: seq<Retest>, c: Candidate, r: Release)
    requires SoundHistory(h)
    ensures SoundHistory(h + [Noted(x, c, Retested(p, h, c, r), h)])
  {
    var t := Noted(x, c, Retested(p, h, c, r), h);
    RegressionFixed(p, h, c, r);
    AffectedUnfixed(p, h, c, r);
    RetestBacked(p, h, c, r);
    SameAs(h, c, t);
    HistoryGrows(h, t);
  }

  lemma RetestBacked(p: Provider, h: seq<Retest>, c: Candidate, r: Release)
    ensures Backed(Retested(p, h, c, r))
  {
    ClassifyExactly(p.validate(c, r), c.budget);
  }

  lemma AffectedUnfixed(p: Provider, h: seq<Retest>, c: Candidate, r: Release)
    ensures Retested(p, h, c, r).status == Affected ==> !FixedBefore(h, c)
  {
  }

  /** A retest is a regression exactly when its evidence says affected and a fix of the same invariant is on record. */
  lemma RegressionFixed(p: Provider, h: seq<Retest>, c: Candidate, r: Release)
    ensures Retested(p, h, c, r).status == Regression <==>
              PreparationError(p, r).None? && Classify(p.validate(c, r), c.budget).0 == Affected && FixedBefore(h, c)
  {
    ClassifyExactly(p.validate(c, r), c.budget);
  }

  /** A fix or a regression is never the retest before it again, and always passes the generator's own tests. */
  lemma AlwaysEligible(p: Provider, h: seq<Retest>, c: Candidate, r: Release)
    requires SoundHistory(h) && Retested(p, h, c, r).status in {Fixed, Regression}
    ensures Records(Retested(p, h, c, r), h) == h + [Retested(p, h, c, r)]
    ensures StatusEligible(Retested(p, h, c, r), h)
  {
    var t := Retested(p, h, c, r);
    if h != [] {
      assert h[|h| - 1] != t;
    }
    if t.status == Regression {
      RegressionFixed(p, h, c, r);
      var i :| 0 <= i < |h| && h[i].status == Fixed && Same(h[i], c);
      assert (h + [t])[i].status == Fixed;
    }
  }

  /** The records before the latest retest: all of the history, unless the retest is its last. */
  ghost function Earlier(latest: Retest, history: seq<Retest>): seq<Retest> {
    if history != [] && history[|history| - 1] == latest then history[..|history| - 1] else history
  }

  /** The generator refuses a retest for its status exactly unless it is a fix, or a regression with a fix before it. */
  lemma EligibleExactly(x: Rules, c: Candidate, latest: Retest, history: seq<Retest>)
    ensures Generate(x, c, latest, history) == Refused(StatusIneligible)
            <==> latest.status != Fixed
                 && !(latest.status == Regression && exists i | 0 <= i < |Earlier(latest, history)| ::
                        Earlier(latest, history)[i].status == Fixed)
  {
    var records := Records(latest, history);
    assert records[..|records| - 1] == Earlier(latest, history);
    assert forall i | 0 <= i < |records| - 1 :: records[i] == Earlier(latest, history)[i];
  }

  lemma ListedLast(h: seq<Retest>, t: Retest, a: Status, b: Status)
    ensures Listed(h + [t], a, b) == Listed(h, a, b) + if t.status in {a, b} then [ReferenceTo(t)] else []
  {
    assert (h + [t])[..|h|] == h;
  }

  /** What is generated is a valid specification: what redaction leaves of the one read from the document, read again. A
      redaction that changes nothing leaves that one. */
  lemma GeneratedFrom(x: Rules, c: Candidate, t: Retest, h: seq<Retest>, d: R.Document)
    requires StatusEligible(t, h) && d == DocumentOf(x, c, Records(t, h))
    ensures var made, read := Generate(x, c, t, h), R.FromDict(x.patterns, d);
            && (made.Refused? ==> made.error == InvalidSpec)
            && (made.Spec? ==> read.Some? && R.FromDict(x.patterns, x.clean(R.ToDict(read.value))) == Some(made.spec)
                               && R.Valid(x.patterns, made.spec)
                                 && R.FromDict(x.patterns, R.ToDict(made.spec)) == Some(made.spec))
            && (read.Some? && x.clean(R.ToDict(read.value)) == R.ToDict(read.value) ==> made == Spec(read.value))
  {
    R.ReadWell(x.patterns, d);
    var read := R.FromDict(x.patterns, d);
    if read.Some? {
      R.ReadWell(x.patterns, x.clean(R.ToDict(read.value)));
    }
  }

  /** Redaction keeps the release lists of a document. */
  predicate ListsKept(x: Rules, w: R.Document) {
    x.clean(w).knownAffected == w.knownAffected && x.clean(w).knownFixed == w.knownFixed
  }

  /** The lists of a specification that is read, redacted and read again are those of the document. */
  lemma ListsSurvive(x: Rules, d: R.Document, affected: seq<R.Reference>, fixed: seq<R.Reference>)
    requires d.knownAffected == R.Arr(R.ReferenceDicts(affected)) && d.knownFixed == R.Arr(R.ReferenceDicts(fixed))
    requires var read := R.FromDict(x.patterns, d);
             read.Some? && ListsKept(x, R.ToDict(read.value))
               && R.FromDict(x.patterns, x.clean(R.ToDict(read.value))).Some?
    ensures var w := R.ToDict(R.FromDict(x.patterns, d).value);
            var made := R.FromDict(x.patterns, x.clean(w)).value;
            && made.knownAffected == affected && made.knownFixed == fixed
            && (x.clean(w).candidateId == d.candidateId ==> R.Str(made.candidate) == d.candidateId)
            && (x.clean(w).rootCauseId == d.rootCauseId ==> R.Str(made.rootCause) == d.rootCauseId)
            && (x.clean(w).scenarioId == d.scenarioId ==> R.Str(made.scenario) == d.scenarioId)
  {
    R.ReadReferences(x.patterns, d, affected, fixed);
    R.ReadReferences(x.patterns, x.clean(R.ToDict(R.FromDict(x.patterns, d).value)), affected, fixed);
  }

  /** A specification generated for a retest lists exactly the fixed and the affected releases of the history, in order,
      the latest among them, whenever redaction leaves the two lists as they are, whatever else it changes; and it names
      the candidate, root cause and scenario that redaction leaves as they are. */
  lemma GeneratedLists(x: Rules, p: Provider, h: seq<Retest>, c: Candidate, r: Release, d: R.Document)
    requires SoundHistory(h) && Retested(p, h, c, r).status in {Fixed, Regression}
    requires d == DocumentOf(x, c, h + [Retested(p, h, c, r)])
    requires var read := R.FromDict(x.patterns, d); read.Some? ==> ListsKept(x, R.ToDict(read.value))
    ensures var t := Retested(p, h, c, r);
            var made := Generate(x, c, t, h);
            && (made.Refused? ==> made.error == InvalidSpec)
            && (made.Spec? ==>
                  && R.FromDict(x.patterns, d).Some?
                  && made.spec.knownFixed == Listed(h, Fixed, Fixed) + (if t.status == Fixed then [ReferenceTo(t)]
                                                                        else [])
                  && made.spec.knownAffected == Listed(h, Affected, Regression) + (if t.status == Regression then
                                                                                   [ReferenceTo(t)] else [])
                  && var safe := x.clean(R.ToDict(R.FromDict(x.patterns, d).value));
                     && (safe.candidateId == d.candidateId ==> made.spec.candidate == c.id)
                     && (safe.rootCauseId == d.rootCauseId ==> made.spec.rootCause == c.rootCause)
                     && (safe.scenarioId == d.scenarioId ==> made.spec.scenario == c.scenario))
  {
    var t := Retested(p, h, c, r);
    AlwaysEligible(p, h, c, r);
    GeneratedFrom(x, c, t, h, d);
    ListedLast(h, t, Fixed, Fixed);
    ListedLast(h, t, Affected, Regression);
    if Generate(x, c, t, h).Spec? {
      ListsSurvive(x, d, Listed(h + [t], Affected, Regression), Listed(h + [t], Fixed, Fixed));
    }
  }

  // ----- The monitor's state -----

  datatype State = State(known: seq<Release>, latest: Option<Release>, histories: map<string, seq<Retest>>)

  const START := State([], None, map[])

  function HistoryOf(s: State, id: string): seq<Retest> {
    if id in s.histories then s.histories[id] else []
  }

  function AfterCandidate(x: Rules, p: Provider, s: State, c: Candidate, r: Release): State {
    var h := HistoryOf(s, c.id);
    s.(histories := s.histories[c.id := h + [Noted(x, c, Retested(p, h, c, r), h)]])
  }

  function AfterCandidates(x: Rules, p: Provider, s: State, cs: seq<Candidate>, r: Release): State {
    if cs == [] then s else AfterCandidate(x, p, AfterCandidates(x, p, s, cs[..|cs| - 1], r), cs[|cs| - 1], r)
  }

  function AfterRelease(x: Rules, p: Provider, s: State, cs: seq<Candidate>, r: Release): State {
    AfterCandidates(x, p, State(s.known + [r], Some(r), s.histories), cs, r)
  }

  function AfterReleases(x: Rules, p: Provider, s: State, cs: seq<Candidate>, rs: seq<Release>): State {
    if rs == [] then s else AfterRelease(x, p, AfterReleases(x, p, s, cs, rs[..|rs| - 1]), cs, rs[|rs| - 1])
  }

  predicate Known(s: State, fingerprint: string) {
    exists r | r in s.known :: r.fingerprint == fingerprint
  }

  predicate ValidList(target: string, rs: seq<Release>) {
    && (forall i | 0 <= i < |rs| :: rs[i].target == target)
    && (forall i, j | 0 <= i < j < |rs| :: rs[i].fingerprint != rs[j].fingerprint)
  }

  function Unseen(s: State): Release -> bool {
    (r: Release) => !Known(s, r.fingerprint)
  }

  /** What one check is given: the provider's listing and its candidates, either of which may fail, and its answers. */
  datatype Inputs = Inputs(releases: Option<seq<Release>>, candidates: Option<seq<Candidate>>, provider: Provider)

  datatype RunStatus = MonitorBlocked(reason: Blocker) | NoNewRelease | ReleasesProcessed

  /** `check`. */
  function Checked(x: Rules, s: State, i: Inputs): (State, RunStatus) {
    if i.releases.None? then (s, MonitorBlocked(ProviderUnavailable))
    else if !ValidList(x.target, i.releases.value) then (s, MonitorBlocked(IdentityUnresolved))
    else
      var listed := i.releases.value;
      var unseen := Filter(Unseen(s), listed);
      if unseen == [] then (s.(latest := if listed == [] then s.latest else Some(listed[|listed| - 1])), NoNewRelease)
      else if i.candidates.None? then (s, MonitorBlocked(ProviderUnavailable))
      else (AfterReleases(x, i.provider, s, Filter(EligibleCandidate, i.candidates.value), unseen), ReleasesProcessed)
  }

  // ----- What every check keeps -----

  ghost predicate DistinctReleases(rs: seq<Release>) {
    forall i, j | 0 <= i < j < |rs| :: rs[i].fingerprint != rs[j].fingerprint
  }

  ghost predicate SoundHistories(s: State) {
    forall id | id in s.histories :: SoundHistory(s.histories[id])
  }

  ghost predicate Sound(s: State) {
    DistinctReleases(s.known) && SoundHistories(s)
  }

  /** Releases and retests are only ever added. */
  ghost predicate Grows(s: State, t: State) {
    s.known <= t.known && forall id | id in s.histories :: id in t.histories && s.histories[id] <= t.histories[id]
  }

  lemma GrowsTransitive(s: State, t: State, u: State)
    requires Grows(s, t) && Grows(t, u)
    ensures Grows(s, u)
  {
    forall id | id in s.histories ensures id in u.histories && s.histories[id] <= u.histories[id] {
      assert id in t.histories;
    }
  }

  lemma CandidateKeeps(x: Rules, p: Provider, s: State, c: Candidate, r: Release)
    requires SoundHistories(s)
    ensures SoundHistories(AfterCandidate(x, p, s, c, r)) && Grows(s, AfterCandidate(x, p, s, c, r))
    ensures AfterCandidate(x, p, s, c, r).known == s.known
  {
    RetestKeeps(x, p, HistoryOf(s, c.id), c, r);
  }

  lemma {:induction false} CandidatesKeep(x: Rules, p: Provider, s: State, cs: seq<Candidate>, r: Release)
    requires SoundHistories(s)
    ensures SoundHistories(AfterCandidates(x, p, s, cs, r)) && Grows(s, AfterCandidates(x, p, s, cs, r))
    ensures AfterCandidates(x, p, s, cs, r).known == s.known
  {
    if cs != [] {
      var front := AfterCandidates(x, p, s, cs[..|cs| - 1], r);
      CandidatesKeep(x, p, s, cs[..|cs| - 1], r);
      CandidateKeeps(x, p, front, cs[|cs| - 1], r);
      GrowsTransitive(s, front, AfterCandidates(x, p, s, cs, r));
    }
  }

  lemma ReleaseKeeps(x: Rules, p: Provider, s: State, cs: seq<Candidate>, r: Release)
    requires SoundHistories(s)
    ensures SoundHistories(AfterRelease(x, p, s, cs, r)) && Grows(s, AfterRelease(x, p, s, cs, r))
    ensures AfterRelease(x, p, s, cs, r).known == s.known + [r]
  {
    var seen := State(s.known + [r], Some(r), s.histories);
    CandidatesKeep(x, p, seen, cs, r);
    GrowsTransitive(s, seen, AfterRelease(x, p, s, cs, r));
  }

  lemma KnownNext(known: seq<Release>, rs: seq<Release>)
    requires rs != []
    ensures known + rs == known + rs[..|rs| - 1] + [rs[|rs| - 1]]
  {
  }

  lemma {:induction false} ReleasesKeep(x: Rules, p: Provider, s: State, cs: seq<Candidate>, rs: seq<Release>)
    requires SoundHistories(s)
    ensures SoundHistories(AfterReleases(x, p, s, cs, rs)) && Grows(s, AfterReleases(x, p, s, cs, rs))
    ensures AfterReleases(x, p, s, cs, rs).known == s.known + rs
  {
    if rs != [] {
      var n := |rs| - 1;
      var front := AfterReleases(x, p, s, cs, rs[..n]);
      ReleasesKeep(x, p, s, cs, rs[..n]);
      ReleaseKeeps(x, p, front, cs, rs[n]);
      GrowsTransitive(s, front, AfterReleases(x, p, s, cs, rs));
      KnownNext(s.known, rs);
    }
  }

  lemma {:induction false} FilterDistinctReleases(keep: Release -> bool, rs: seq<Release>)
    requires DistinctReleases(rs)
    ensures DistinctReleases(Filter(keep, rs))
  {
    if rs != [] {
      var n := |rs| - 1;
      FilterDistinctReleases(keep, rs[..n]);
      var rest := Filter(keep, rs[..n]);
      forall i | 0 <= i < |rest| ensures rest[i].fingerprint != rs[n].fingerprint {
        assert rest[i] in rs[..n];
      }
    }
  }

  lemma FreshDistinct(s: State, rs: seq<Release>)
    requires DistinctReleases(s.known) && DistinctReleases(rs)
    ensures DistinctReleases(s.known + Filter(Unseen(s), rs))
  {
    var unseen := Filter(Unseen(s), rs);
    FilterDistinctReleases(Unseen(s), rs);
    var all := s.known + unseen;
    forall i, j | 0 <= i < j < |all| ensures all[i].fingerprint != all[j].fingerprint {
      if i < |s.known| <= j {
        assert all[i] in s.known && unseen[j - |s.known|] in unseen;
        assert !Known(s, all[j].fingerprint);
      }
    }
  }

  /** Every check, whatever the provider answers, keeps release fingerprints distinct and every candidate's history
      sound, only adds to both, and when releases were processed makes all listed ones known. */
  lemma CheckKeeps(x: Rules, s: State, i: Inputs)
    requires Sound(s)
    ensures var (t, status) := Checked(x, s, i);
            && Sound(t) && Grows(s, t)
            && (status.ReleasesProcessed? ==> t.known == s.known + Filter(Unseen(s), i.releases.value))
            && (!status.ReleasesProcessed? ==> t.known == s.known && t.histories == s.histories)
            && (!status.MonitorBlocked? ==> forall r | r in i.releases.value :: Known(t, r.fingerprint))
  {
    var (t, status) := Checked(x, s, i);
    if status.ReleasesProcessed? {
      var listed, unseen := i.releases.value, Filter(Unseen(s), i.releases.value);
      ReleasesKeep(x, i.provider, s, Filter(EligibleCandidate, i.candidates.value), unseen);
      FreshDistinct(s, listed);
      forall r | r in listed ensures Known(t, r.fingerprint) {
        ListedKnown(s, listed, unseen, t, r);
      }
    } else if status.NoNewRelease? {
      forall r | r in i.releases.value ensures Known(t, r.fingerprint) {
        assert !Unseen(s)(r);
      }
    }
  }

  lemma ListedKnown(s: State, listed: seq<Release>, unseen: seq<Release>, t: State, r: Release)
    requires r in listed && t.known == s.known + unseen && (Unseen(s)(r) ==> r in unseen)
    ensures Known(t, r.fingerprint)
  {
    if Known(s, r.fingerprint) {
      var k :| k in s.known && k.fingerprint == r.fingerprint;
      assert k in t.known;
    } else {
      assert r in t.known;
    }
  }

  /** The states of a run of checks from an empty state. */
  ghost predicate Run(x: Rules, states: seq<State>, inputs: seq<Inputs>) {
    && |states| == |inputs| + 1 && states[0] == START
    && forall i | 0 <= i < |inputs| :: states[i + 1] == Checked(x, states[i], inputs[i]).0
  }

  /** Every state of every run is sound, and later states extend earlier ones. */
  lemma {:induction false} RunSound(x: Rules, states: seq<State>, inputs: seq<Inputs>, m: nat, n: nat)
    requires Run(x, states, inputs) && m <= n <= |inputs|
    ensures Sound(states[n]) && Grows(states[m], states[n])
  {
    if n > 0 {
      RunSound(x, states, inputs, if m < n then m else n - 1, n - 1);
      CheckKeeps(x, states[n - 1], inputs[n - 1]);
      if m < n {
        GrowsTransitive(states[m], states[n - 1], states[n]);
      }
    }
  }

  // ----- What a check answers, read off its inputs -----

  /** The listed releases whose fingerprint no known release has, in order. */
  ghost function News(known: seq<Release>, listed: seq<Release>): seq<Release> {
    if listed == [] then []
    else
      var n := |listed| - 1;
      News(known, listed[..n])
      + if exists k | 0 <= k < |known| :: known[k].fingerprint == listed[n].fingerprint then [] else [listed[n]]
  }

  /** Who is retested: a named, previously accepted candidate with a scenario whose source assertions all hold. */
  ghost predicate Ready(c: Candidate) {
    && c.wellNamed && c.priorEligible && c.scenarioGiven && c.assertionsHold && c.revisionSupported && c.safetyGate
    && |c.rootCause| > 0 && |c.scenario| > 0 && 0 < c.budget < 13
  }

  /** The candidates of one id that are retested against one release, in order. */
  ghost function TurnsAt(cs: seq<Candidate>, r: Release, id: string): seq<(Candidate, Release)> {
    if cs == [] then []
    else
      var n := |cs| - 1;
      TurnsAt(cs[..n], r, id) + if cs[n].id == id && Ready(cs[n]) then [(cs[n], r)] else []
  }

  /** The retests of one id over so many releases, release by release. */
  ghost function Turns(cs: seq<Candidate>, rs: seq<Release>, id: string): seq<(Candidate, Release)> {
    if rs == [] then [] else Turns(cs, rs[..|rs| - 1], id) + TurnsAt(cs, rs[|rs| - 1], id)
  }

  ghost predicate Held(e: Evidence) {
    e.fixtureValid && e.controlPassed && e.sourceValid
  }

  /** The probe answered, deterministically and about what was asked. */
  ghost predicate Clear(e: Evidence) {
    && e.probeValid && e.deterministic
    && !e.probeMissing && !e.probeEmpty && !e.statusOnly && !e.timedOut && !e.apiError && !e.routeChanged
    && !e.ambiguous
  }

  /** It kept to its requests and ended on this machine, over plain HTTP. */
  ghost predicate Contained(e: Evidence, budget: int) {
    && e.requests.Some? && 0 <= e.requests.value <= budget && |e.finalUrls| > 0
    && forall i | 0 <= i < |e.finalUrls| :: e.finalUrls[i] == FinalUrl(true, true, false, false)
  }

  ghost predicate FixOnRecord(h: seq<Retest>, c: Candidate) {
    exists i | 0 <= i < |h| ::
      && h[i].status == Fixed && h[i].rootCause == c.rootCause && h[i].scenario == c.scenario
      && h[i].invariantHash == c.invariantHash
  }

  /** What the evidence of a retest says, written out. */
  ghost predicate Verdict(h: seq<Retest>, c: Candidate, e: Evidence, status: Status, blocker: Option<Blocker>) {
    && (!e.fixtureValid ==> status == Status.Blocked && blocker == Some(ScenarioIncompatible))
    && (e.fixtureValid && !e.controlPassed ==> status == Status.Blocked && blocker == Some(ControlFailed))
    && (e.fixtureValid && e.controlPassed && !e.sourceValid ==>
          status == Status.Blocked && blocker == Some(SourceChanged))
    && (Held(e) && !Clear(e) ==> status == Inconclusive && blocker == Some(RetestInconclusive))
    && (Held(e) && Clear(e) && !Contained(e, c.budget) ==>
          status == Status.Blocked && blocker == Some(ScenarioIncompatible))
    && (Held(e) && Clear(e) && Contained(e, c.budget) ==> Observation(h, c, e.violation, status, blocker))
  }

  ghost predicate Observation(h: seq<Retest>, c: Candidate, violation: Option<bool>, status: Status,
                              blocker: Option<Blocker>) {
    && (violation == Some(true) ==> status == (if FixOnRecord(h, c) then Regression else Affected) && blocker.None?)
    && (violation == Some(false) ==> status == Fixed && blocker.None?)
    && (violation.None? ==> status == Inconclusive && blocker == Some(RetestInconclusive))
  }

  /** A retest that could not be made, or made no sense, says why and keeps no evidence. */
  ghost predicate Stopped(t: Retest, status: Status, blocker: Blocker) {
    t.status == status && t.blocker == Some(blocker) && t.evidence.None?
  }

  ghost predicate Outcome(p: Provider, h: seq<Retest>, c: Candidate, r: Release, t: Retest) {
    && (p.prepare(r).Some? ==> Stopped(t, Status.Blocked, p.prepare(r).value))
    && (p.prepare(r).None? && p.bootstrap(r).Some? ==> Stopped(t, Status.Blocked, p.bootstrap(r).value))
    && (p.prepare(r).None? && p.bootstrap(r).None? ==>
          match p.validate(c, r)
          case Raised(reason) => Stopped(t, Status.Blocked, reason)
          case Malformed => Stopped(t, Inconclusive, RetestInconclusive)
          case Observed(e) => t.evidence == Some(e) && Verdict(h, c, e, t.status, t.blocker))
  }

  /** The version and fingerprint of the release of each retest that found a fix, in order. */
  ghost function FixedAt(h: seq<Retest>): seq<R.Reference> {
    if h == [] then []
    else
      var n := |h| - 1;
      FixedAt(h[..n])
      + if h[n].status == Fixed then [R.Reference(h[n].release.version, h[n].release.fingerprint)] else []
  }

  /** And of each that found a violation, first or again. */
  ghost function AffectedAt(h: seq<Retest>): seq<R.Reference> {
    if h == [] then []
    else
      var n := |h| - 1;
      AffectedAt(h[..n])
      + if h[n].status == Affected || h[n].status == Regression then
          [R.Reference(h[n].release.version, h[n].release.fingerprint)]
        else []
  }

  ghost function Paper(x: Rules, c: Candidate, affected: seq<R.Reference>, fixed: seq<R.Reference>): R.Document {
    R.Document(
      schemaVersion := R.Int(1), targetId := R.Str(x.target), candidateId := R.Str(c.id),
      rootCauseId := R.Str(c.rootCause), scenarioId := R.Str(c.scenario),
      requiredCapabilities := c.materials.capabilities, sourceAssertions := c.materials.assertions,
      controlExpectation := c.materials.control, probeExpectation := c.materials.probe,
      invariant_ := c.materials.invariant_, requestBudget := c.materials.budget, safetyPolicy := c.materials.policy,
      knownAffected := R.Arr(R.ReferenceDicts(affected)), knownFixed := R.Arr(R.ReferenceDicts(fixed)),
      generatedFromEvidence := c.materials.evidence, others := map[])
  }

  /** What is kept of a document: what is read of it after redaction, if it can be read before and after. */
  ghost function Kept(x: Rules, d: R.Document): Note {
    match R.FromDict(x.patterns, d)
    case None => Unavailable
    case Some(spec) =>
      match R.FromDict(x.patterns, x.clean(R.ToDict(spec)))
      case None => Unavailable
      case Some(safe) => Generated(safe)
  }

  /** One record: about this candidate and this release, with what the provider saw, and for a fix or a regression a
      specification that lists the fixed and the affected releases up to and with this one. */
  ghost predicate Shows(x: Rules, p: Provider, h: seq<Retest>, c: Candidate, r: Release, t: Retest) {
    && t.candidate == c.id && t.release == r
    && t.rootCause == c.rootCause && t.scenario == c.scenario && t.invariantHash == c.invariantHash
    && Outcome(p, h, c, r, t)
    && (t.status != Fixed && t.status != Regression ==> t.regression == Absent)
    && (t.status == Fixed || t.status == Regression ==>
          t.regression == Kept(x, Paper(x, c, AffectedAt(h + [t]), FixedAt(h + [t]))))
  }

  /** `g` is `h` and a record for each turn, each made with the records before it. */
  ghost predicate Follows(x: Rules, p: Provider, h: seq<Retest>, g: seq<Retest>, turns: seq<(Candidate, Release)>) {
    && |g| == |h| + |turns| && g[..|h|] == h
    && forall n | 0 <= n < |turns| :: Shows(x, p, g[..|h| + n], turns[n].0, turns[n].1, g[|h| + n])
  }

  ghost predicate Gained(x: Rules, p: Provider, s: State, t: State, id: string, turns: seq<(Candidate, Release)>) {
    && (id in t.histories <==> id in s.histories || turns != [])
    && (id in t.histories ==> Follows(x, p, if id in s.histories then s.histories[id] else [], t.histories[id], turns))
  }

  /** A release of another target, or two with one fingerprint. */
  ghost predicate Unresolved(target: string, listed: seq<Release>) {
    || (exists i | 0 <= i < |listed| :: listed[i].target != target)
    || (exists i, j | 0 <= i < j < |listed| :: listed[i].fingerprint == listed[j].fingerprint)
  }

  /** The whole answer of a check: a failing provider or an unusable listing changes nothing, a listing without news
      only says what is latest, and otherwise every new release is known and every ready candidate retested against
      each. */
  ghost predicate Answers(x: Rules, s: State, i: Inputs, t: State, status: RunStatus) {
    && (i.releases.None? ==> t == s && status == MonitorBlocked(ProviderUnavailable))
    && (i.releases.Some? && Unresolved(x.target, i.releases.value) ==>
          t == s && status == MonitorBlocked(IdentityUnresolved))
    && (i.releases.Some? && !Unresolved(x.target, i.releases.value) ==>
          AnswersListed(x, s, i, i.releases.value, News(s.known, i.releases.value), t, status))
  }

  ghost predicate AnswersListed(x: Rules, s: State, i: Inputs, listed: seq<Release>, news: seq<Release>, t: State,
                                status: RunStatus) {
    && (news == [] ==>
          && status == NoNewRelease && t.known == s.known && t.histories == s.histories
          && t.latest == if listed == [] then s.latest else Some(listed[|listed| - 1]))
    && (news != [] && i.candidates.None? ==> t == s && status == MonitorBlocked(ProviderUnavailable))
    && (news != [] && i.candidates.Some? ==>
          && status == ReleasesProcessed && t.known == s.known + news && t.latest == Some(news[|news| - 1])
          && forall id :: Gained(x, i.provider, s, t, id, Turns(i.candidates.value, news, id)))
  }

  lemma {:induction false} NewsFound(s: State, listed: seq<Release>)
    ensures Filter(Unseen(s), listed) == News(s.known, listed)
  {
    if listed != [] {
      var n := |listed| - 1;
      NewsFound(s, listed[..n]);
      assert Known(s, listed[n].fingerprint)
             <==> exists k | 0 <= k < |s.known| :: s.known[k].fingerprint == listed[n].fingerprint by {
        if r :| r in s.known && r.fingerprint == listed[n].fingerprint {
          var k :| 0 <= k < |s.known| && s.known[k] == r;
          assert s.known[k].fingerprint == listed[n].fingerprint;
        }
      }
    }
  }

  lemma {:induction false} ListedAt(h: seq<Retest>)
    ensures Listed(h, Fixed, Fixed) == FixedAt(h)
    ensures Listed(h, Affected, Regression) == AffectedAt(h)
  {
    if h != [] {
      ListedAt(h[..|h| - 1]);
    }
  }

  lemma RetestOutcome(p: Provider, h: seq<Retest>, c: Candidate, r: Release)
    ensures Outcome(p, h, c, r, Retested(p, h, c, r))
  {
    assert FixedBefore(h, c) <==> FixOnRecord(h, c) by {
      if i :| 0 <= i < |h| && h[i].status == Fixed && Same(h[i], c) {
        assert h[i].rootCause == c.rootCause;
      }
    }
    var v := p.validate(c, r);
    if v.Observed? {
      LocalMeans(v.evidence);
    }
  }

  lemma LocalMeans(e: Evidence)
    ensures Unclear(e) <==> !Clear(e)
    ensures forall budget ::
              e.requests.Some? && 0 <= e.requests.value <= budget && LocalUrls(e.finalUrls) <==> Contained(e, budget)
  {
  }

  lemma KeptIs(x: Rules, c: Candidate, t: Retest, h: seq<Retest>)
    requires StatusEligible(t, h) && Records(t, h) == h + [t]
    ensures var made := Generate(x, c, t, h);
            Kept(x, Paper(x, c, AffectedAt(h + [t]), FixedAt(h + [t])))
              == if made.Spec? then Generated(made.spec) else Unavailable
  {
    ListedAt(h + [t]);
    assert DocumentOf(x, c, h + [t]) == Paper(x, c, AffectedAt(h + [t]), FixedAt(h + [t]));
  }

  lemma {:induction false} SameLists(h: seq<Retest>, t: Retest, u: Retest)
    requires t.status == u.status && t.release == u.release
    ensures AffectedAt(h + [t]) == AffectedAt(h + [u]) && FixedAt(h + [t]) == FixedAt(h + [u])
  {
    assert (h + [t])[..|h|] == h && (h + [u])[..|h|] == h;
  }

  /** One retest, recorded after a sound history. */
  lemma RetestShows(x: Rules, p: Provider, h: seq<Retest>, c: Candidate, r: Release)
    requires SoundHistory(h)
    ensures Shows(x, p, h, c, r, Noted(x, c, Retested(p, h, c, r), h))
  {
    var t := Retested(p, h, c, r);
    RetestOutcome(p, h, c, r);
    if t.status in {Fixed, Regression} {
      AlwaysEligible(p, h, c, r);
      KeptIs(x, c, t, h);
      SameLists(h, t, Noted(x, c, t, h));
    }
  }

  lemma FollowsOne(x: Rules, p: Provider, h: seq<Retest>, g: seq<Retest>, turns: seq<(Candidate, Release)>,
                   c: Candidate, r: Release, t: Retest)
    requires Follows(x, p, h, g, turns) && Shows(x, p, g, c, r, t)
    ensures Follows(x, p, h, g + [t], turns + [(c, r)])
  {
    var f, more := g + [t], turns + [(c, r)];
    forall n | 0 <= n < |more| ensures Shows(x, p, f[..|h| + n], more[n].0, more[n].1, f[|h| + n]) {
      assert f[..|h| + n] == g[..|h| + n];
      assert n == |turns| ==> g[..|h| + n] == g;
    }
  }

  lemma FollowsAll(x: Rules, p: Provider, h: seq<Retest>, g: seq<Retest>, f: seq<Retest>,
                   turns: seq<(Candidate, Release)>, more: seq<(Candidate, Release)>)
    requires Follows(x, p, h, g, turns) && Follows(x, p, g, f, more)
    ensures Follows(x, p, h, f, turns + more)
  {
    var all := turns + more;
    forall n | 0 <= n < |all| ensures Shows(x, p, f[..|h| + n], all[n].0, all[n].1, f[|h| + n]) {
      if n < |turns| {
        assert f[..|h| + n] == f[..|g|][..|h| + n] == g[..|h| + n];
        assert f[|h| + n] == f[..|g|][|h| + n];
      } else {
        assert |h| + n == |g| + (n - |turns|);
      }
    }
    assert f[..|h|] == f[..|g|][..|h|];
  }

  lemma FollowsNone(x: Rules, p: Provider, h: seq<Retest>)
    ensures Follows(x, p, h, h, [])
  {
  }

  lemma {:induction false} CandidatesGain(x: Rules, p: Provider, s: State, cs: seq<Candidate>, r: Release, id: string)
    requires SoundHistories(s)
    ensures Gained(x, p, s, AfterCandidates(x, p, s, Filter(EligibleCandidate, cs), r), id, TurnsAt(cs, r, id))
  {
    if cs == [] {
      FollowsNone(x, p, HistoryOf(s, id));
    } else {
      var n := |cs| - 1;
      var front := Filter(EligibleCandidate, cs[..n]);
      var t := AfterCandidates(x, p, s, front, r);
      CandidatesGain(x, p, s, cs[..n], r, id);
      CandidatesKeep(x, p, s, front, r);
      LastCandidate(x, p, s, cs, r);
      if Ready(cs[n]) {
        CandidateGains(x, p, s, t, cs[n], r, id, TurnsAt(cs[..n], r, id));
      } else {
        assert TurnsAt(cs, r, id) == TurnsAt(cs[..n], r, id);
      }
    }
  }

  lemma LastCandidate(x: Rules, p: Provider, s: State, cs: seq<Candidate>, r: Release)
    requires cs != []
    ensures var c, front := cs[|cs| - 1], Filter(EligibleCandidate, cs[..|cs| - 1]);
            && Filter(EligibleCandidate, cs) == front + (if Ready(c) then [c] else [])
            && AfterCandidates(x, p, s, front + [c], r)
                 == AfterCandidate(x, p, AfterCandidates(x, p, s, front, r), c, r)
  {
    var c, front := cs[|cs| - 1], Filter(EligibleCandidate, cs[..|cs| - 1]);
    assert EligibleCandidate(c) <==> Ready(c);
    assert (front + [c])[..|front|] == front;
  }

  lemma CandidateGains(x: Rules, p: Provider, s: State, t: State, c: Candidate, r: Release, id: string,
                       turns: seq<(Candidate, Release)>)
    requires SoundHistories(t) && Gained(x, p, s, t, id, turns)
    ensures Gained(x, p, s, AfterCandidate(x, p, t, c, r), id, turns + if c.id == id then [(c, r)] else [])
  {
    if c.id == id {
      RetestShows(x, p, HistoryOf(t, id), c, r);
      GainsOne(x, p, s, t, c, r, turns);
    } else {
      assert turns + [] == turns;
    }
  }

  lemma GainsOne(x: Rules, p: Provider, s: State, t: State, c: Candidate, r: Release,
                 turns: seq<(Candidate, Release)>)
    requires Gained(x, p, s, t, c.id, turns)
    requires var g := HistoryOf(t, c.id); Shows(x, p, g, c, r, Noted(x, c, Retested(p, g, c, r), g))
    ensures Gained(x, p, s, AfterCandidate(x, p, t, c, r), c.id, turns + [(c, r)])
  {
    var g := HistoryOf(t, c.id);
    assert Follows(x, p, HistoryOf(s, c.id), g, turns) by {
      if c.id !in t.histories {
        FollowsNone(x, p, []);
      }
    }
    FollowsOne(x, p, HistoryOf(s, c.id), g, turns, c, r, Noted(x, c, Retested(p, g, c, r), g));
  }

  lemma GainsBoth(x: Rules, p: Provider, s: State, t: State, u: State, id: string,
                  turns: seq<(Candidate, Release)>, more: seq<(Candidate, Release)>)
    requires Gained(x, p, s, t, id, turns) && Gained(x, p, t, u, id, more)
    ensures Gained(x, p, s, u, id, turns + more)
  {
    if id in u.histories && id in t.histories {
      FollowsAll(x, p, HistoryOf(s, id), t.histories[id], u.histories[id], turns, more);
    } else if id in u.histories {
      assert turns + more == more;
    }
  }

  lemma {:induction false} ReleasesGain(x: Rules, p: Provider, s: State, cs: seq<Candidate>, rs: seq<Release>,
                                        id: string)
    requires SoundHistories(s)
    ensures Gained(x, p, s, AfterReleases(x, p, s, Filter(EligibleCandidate, cs), rs), id, Turns(cs, rs, id))
  {
    if rs == [] {
      FollowsNone(x, p, HistoryOf(s, id));
    } else {
      var n, eligible := |rs| - 1, Filter(EligibleCandidate, cs);
      var t := AfterReleases(x, p, s, eligible, rs[..n]);
      ReleasesGain(x, p, s, cs, rs[..n], id);
      ReleasesKeep(x, p, s, eligible, rs[..n]);
      var seen := State(t.known + [rs[n]], Some(rs[n]), t.histories);
      CandidatesGain(x, p, seen, cs, rs[n], id);
      assert Gained(x, p, t, AfterRelease(x, p, t, eligible, rs[n]), id, TurnsAt(cs, rs[n], id));
      GainsBoth(x, p, s, t, AfterRelease(x, p, t, eligible, rs[n]), id, Turns(cs, rs[..n], id), TurnsAt(cs, rs[n], id));
    }
  }

  lemma {:induction false} LatestKept(x: Rules, p: Provider, s: State, cs: seq<Candidate>, r: Release)
    ensures AfterCandidates(x, p, s, cs, r).latest == s.latest
  {
    if cs != [] {
      LatestKept(x, p, s, cs[..|cs| - 1], r);
    }
  }

  /** Every check answers as written out above, from every state whose histories are sound. */
  lemma CheckAnswers(x: Rules, s: State, i: Inputs)
    requires Sound(s)
    ensures Answers(x, s, i, Checked(x, s, i).0, Checked(x, s, i).1)
  {
    if i.releases.Some? && !Unresolved(x.target, i.releases.value) {
      var news := News(s.known, i.releases.value);
      NewsFound(s, i.releases.value);
      if news != [] && i.candidates.Some? {
        var cs, n := i.candidates.value, |news| - 1;
        var eligible := Filter(EligibleCandidate, cs);
        ReleasesKeep(x, i.provider, s, eligible, news);
        forall id ensures Gained(x, i.provider, s, Checked(x, s, i).0, id, Turns(cs, news, id)) {
          ReleasesGain(x, i.provider, s, cs, news, id);
        }
        var before := AfterReleases(x, i.provider, s, eligible, news[..n]);
        LatestKept(x, i.provider, State(before.known + [news[n]], Some(news[n]), before.histories), eligible, news[n]);
      }
    }
  }

  /** So does every check of every run. */
  lemma RunAnswers(x: Rules, states: seq<State>, inputs: seq<Inputs>, n: nat)
    requires Run(x, states, inputs) && n < |inputs|
    ensures Answers(x, states[n], inputs[n], states[n + 1], Checked(x, states[n], inputs[n]).1)
  {
    RunSound(x, states, inputs, n, n);
    CheckAnswers(x, states[n], inputs[n]);
  }

  // ----- The monitor as an object -----

  class ReleaseMonitor {
    const rules: Rules
    var known: seq<Release>
    var latest: Option<Release>
    var histories: map<string, seq<Retest>>

    function View(): State
      reads this
    {
      State(known, latest, histories)
    }

    constructor (rules: Rules)
      ensures this.rules == rules && View() == START
    {
      this.rules := rules;
      known, latest, histories := [], None, map[];
    }

    method RetestCandidate(p: Provider, history: seq<Retest>, c: Candidate, r: Release,
                           failed: Option<Blocker>) returns (t: Retest)
      requires failed == PreparationError(p, r)
      ensures t == Retested(p, history, c, r)
    {
      var status, blocker, evidence := Status.Blocked, failed, None;
      if failed.None? {
        var v := p.validate(c, r);
        var verdict := Classify(v, c.budget);
        status, blocker, evidence := verdict.0, verdict.1, Reported(v);
      }
      if status == Affected {
        var fixed := false;
        for i := |history| downto 0
          invariant fixed <==> exists k | i <= k < |history| :: history[k].status == Fixed && Same(history[k], c)
        {
          if history[i].status == Fixed && Same(history[i], c) {
            fixed := true;
          }
        }
        if fixed {
          status := Regression;
        }
      }
      t := Retest(c.id, r, status, blocker, c.rootCause, c.scenario, c.invariantHash, evidence, Absent);
    }

    method CheckRelease(p: Provider, eligible: seq<Candidate>, r: Release)
      modifies this
      ensures View() == AfterRelease(rules, p, old(View()), eligible, r)
    {
      known, latest := known + [r], Some(r);
      var failed := p.prepare(r);
      if failed.None? {
        failed := p.bootstrap(r);
      }
      ghost var base := View();
      for i := 0 to |eligible|
        invariant View() == AfterCandidates(rules, p, base, eligible[..i], r)
      {
        assert eligible[..i + 1][..i] == eligible[..i];
        var c := eligible[i];
        var prior := if c.id in histories then histories[c.id] else [];
        var record := RetestCandidate(p, prior, c, r, failed);
        if record.status == Fixed || record.status == Regression {
          var made := Generate(rules, c, record, prior);
          record := record.(regression := if made.Spec? then Generated(made.spec) else Unavailable);
        }
        histories := histories[c.id := prior + [record]];
      }
      assert eligible[..|eligible|] == eligible;
    }

    method CheckReleases(p: Provider, eligible: seq<Candidate>, unseen: seq<Release>)
      modifies this
      ensures View() == AfterReleases(rules, p, old(View()), eligible, unseen)
    {
      for k := 0 to |unseen|
        invariant View() == AfterReleases(rules, p, old(View()), eligible, unseen[..k])
      {
        assert unseen[..k + 1][..k] == unseen[..k];
        CheckRelease(p, eligible, unseen[k]);
      }
      assert unseen[..|unseen|] == unseen;
    }

    method Check(i: Inputs) returns (status: RunStatus)
      modifies this
      ensures (View(), status) == Checked(rules, old(View()), i)
      ensures Sound(old(View())) ==> Answers(rules, old(View()), i, View(), status)
    {
      ghost var before := View();
      if Sound(before) {
        CheckAnswers(rules, before, i);
      }
      if i.releases.None? {
        return MonitorBlocked(ProviderUnavailable);
      }
      var listed := i.releases.value;
      if !ValidList(rules.target, listed) {
        return MonitorBlocked(IdentityUnresolved);
      }
      var unseen := Filter(Unseen(View()), listed);
      if unseen == [] {
        if listed != [] {
          latest := Some(listed[|listed| - 1]);
        }
        return NoNewRelease;
      }
      if i.candidates.None? {
        return MonitorBlocked(ProviderUnavailable);
      }
      var eligible := Filter(EligibleCandidate, i.candidates.value);
      CheckReleases(i.provider, eligible, unseen);
      status := ReleasesProcessed;
    }
  }
}
