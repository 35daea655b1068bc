/** Version boundary search over immutable revisions (full_hunt/bisect.py). */
module VersionBisect {
  import opened Wrappers
  import opened Collections

  datatype Status = Unaffected | Affected | Blocked | Inconclusive

  datatype Mode = Introduced | Fixed {
    function Initial(): Status { if Introduced? then Unaffected else Affected }
    function Terminal(): Status { if Introduced? then Affected else Unaffected }
    function Found(): Verdict { if Introduced? then FirstAffectedFound else FirstFixedFound }
    /** The status a revision at position `i` has when the boundary is at `k`. */
    function Expected(i: int, k: int): Status { if i < k then Initial() else Terminal() }
  }

  /** Why `run` raises instead of returning a result. */
  datatype RunError = InvalidRequest | ProviderCrashed

  datatype Outcome<+T> = Done(value: T) | Stopped(reason: Reason) | Broken(error: RunError)

  datatype Verdict = FirstAffectedFound | FirstFixedFound | BisectBlocked | NonMonotonic | BoundaryNotFound

  datatype Revision = Revision(revision: string, version: Option<string>, commit: string, identity: string,
                               orderKey: int)

  /** Why a revision or a run is blocked; other public codes are carried as they are. */
  datatype Reason =
    | RevisionBlocked | InconclusiveRevision | ControlFailed | ImmutableRevisionRequired | InvalidObservation
    | ProviderFailed | CleanupFailed | PreconditionFailed | EndpointStatusMismatch | NonMonotonicObservation
    | Coded(code: string)

  datatype ControlStatus = Pass | Passed | OtherControl(name: string)

  datatype Observation = Observation(
    revision: Revision,
    status: Status,
    controlStatus: ControlStatus,
    candidateStatus: string,
    evidence: seq<string>,
    runtimeIdentity: Option<string>,
    blocker: Option<Reason>)
  {
    /** What the constructor insists on; a provider that breaks this raises from inside its hook. */
    predicate Valid() {
      && controlStatus != OtherControl("") && candidateStatus != ""
      && (forall e <- evidence :: e != "")
      && (Conclusive() ==> runtimeIdentity.Some? && runtimeIdentity.value != "" && evidence != [])
      && (!Conclusive() ==> blocker.Some?)
    }

    predicate Conclusive() {
      status.Affected? || status.Unaffected?
    }
  }

  /** What calling a provider hook does: return, raise LocalTargetError(code), or raise anything else. */
  datatype Reply<+T> = Returned(value: T) | Raised(code: Reason) | Crashed

  /** Either the compact observer or the five lifecycle hooks. Every hook may answer
      differently each time: `call` numbers the lifecycles run so far. A hook that returns
      something that is not the expected object returns None. */
  datatype Access =
    | Observer(observe: (string, Revision, nat) -> Reply<Option<Observation>>)
    | Lifecycle(
        resolve: (Revision, nat) -> Reply<Revision>,
        checkout: (Revision, nat) -> Reply<int>,
        build: (Revision, int, nat) -> Reply<int>,
        bootstrap: (Revision, int, nat) -> Reply<()>,
        validate: (string, Revision, int, nat) -> Reply<Option<Observation>>)

  datatype Provider = Provider(
    capabilities: string -> Reply<Option<map<Capability, bool>>>,
    orderedRevisions: (string, string, string) -> Reply<Option<seq<Revision>>>,
    access: Access,
    cleanup: Option<(Revision, nat) -> Reply<()>>)

  datatype Capability =
    | DeterministicValidation | SourceAssertions | ImmutableRevisions | RevisionOrdering | SafetyGate
    | OtherCapability(name: string)

  datatype BisectResult = BisectResult(
    mode: Mode,
    lowerBound: Option<Revision>,
    upperBound: Option<Revision>,
    boundaryRevision: Option<Revision>,
    observations: seq<Observation>,
    monotonic: Option<bool>,
    status: Verdict,
    blocker: Option<Reason>,
    cacheHits: nat)

  // ----- Pure checks -----

  predicate IsCommit(s: string) {
    |s| == 40 && forall c <- s :: '0' <= c <= '9' || 'a' <= c <= 'f'
  }

  predicate Contains(s: string, part: string) {
    exists i | 0 <= i <= |s| - |part| :: s[i..][..|part|] == part
  }

  predicate WellFormed(r: Revision) {
    IsCommit(r.commit) && r.identity != "" && Contains(r.identity, r.commit)
  }

  predicate Names(r: Revision, name: string) {
    name == r.revision || name == r.commit
  }

  predicate ValidRevisions(revs: seq<Revision>, start: string, end: string) {
    && 2 <= |revs|
    && (forall r <- revs :: WellFormed(r))
    && (forall i, j | 0 <= i < j < |revs| :: revs[i].orderKey < revs[j].orderKey)
    && (forall i, j | 0 <= i < j < |revs| :: revs[i].identity != revs[j].identity)
    && Names(revs[0], start)
    && Names(revs[|revs| - 1], end)
  }

  /** Passed its control with a conclusive status. */
  predicate Clean(o: Observation) {
    o.Conclusive() && (o.controlStatus.Pass? || o.controlStatus.Passed?)
  }

  function Problem(o: Observation): (p: Option<Reason>)
    ensures p.None? <==> Clean(o)
    ensures o.status in {Affected, Unaffected} && !Clean(o) ==> p == Some(ControlFailed)
    ensures o.status in {Status.Blocked, Inconclusive} && o.blocker.Some? ==> p == o.blocker
    ensures o.status == Status.Blocked && o.blocker.None? ==> p == Some(RevisionBlocked)
    ensures o.status == Inconclusive && o.blocker.None? ==> p == Some(InconclusiveRevision)
  {
    if o.status.Blocked? then Some(if o.blocker.Some? then o.blocker.value else RevisionBlocked)
    else if o.status.Inconclusive? then Some(if o.blocker.Some? then o.blocker.value else InconclusiveRevision)
    else if !(o.controlStatus.Pass? || o.controlStatus.Passed?) then Some(ControlFailed)
    else None
  }

  function BlockedBy(r: Revision, code: Reason): Observation {
    Observation(r, Blocked, OtherControl("BLOCKED"), "BLOCKED", [], None, Some(code))
  }

  function Checked(r: Revision, reply: Reply<Option<Observation>>): (o: Observation)
    ensures o.revision == r && o.Valid()
  {
    match reply
    case Raised(code) => BlockedBy(r, code)
    case Crashed => BlockedBy(r, ProviderFailed)
    case Returned(None) => BlockedBy(r, InvalidObservation)
    case Returned(Some(o)) => if !o.Valid() || o.revision != r then BlockedBy(r, InvalidObservation) else o
  }

  function Fail<T>(reply: Reply<T>): Reply<Option<Observation>>
    requires !reply.Returned?
  {
    match reply
    case Raised(code) => Raised(code)
    case Crashed => Crashed
  }

  /** The try block: observer, or resolve, checkout, build, bootstrap, validate. */
  function Attempt(a: Access, candidate: string, r: Revision, call: nat): Reply<Option<Observation>> {
    match a
    case Observer(observe) => observe(candidate, r, call)
    case Lifecycle(resolve, checkout, build, bootstrap, validate) =>
      var resolved := resolve(r, call);
      if !resolved.Returned? then Fail(resolved)
      else if resolved.value != r then Raised(ImmutableRevisionRequired) else
      var source := checkout(r, call);
      if !source.Returned? then Fail(source) else
      var runtime := build(r, source.value, call);
      if !runtime.Returned? then Fail(runtime) else
      var booted := bootstrap(r, runtime.value, call);
      if !booted.Returned? then Fail(booted) else
      validate(candidate, r, runtime.value, call)
  }

  /** One whole lifecycle: the attempt, then the cleanup, whose failure overrides the outcome. */
  function Observed(p: Provider, candidate: string, r: Revision, call: nat): (o: Observation)
    ensures o.revision == r && o.Valid()
  {
    var outcome := Checked(r, Attempt(p.access, candidate, r, call));
    if p.cleanup.None? then outcome else
    match p.cleanup.value(r, call)
    case Returned(_) => outcome
    case Raised(code) => BlockedBy(r, code)
    case Crashed => BlockedBy(r, CleanupFailed)
  }

  /** Halvings needed to bring a gap of `n` positions down to one: the base-two logarithm, rounded up. */
  function Log2Ceil(n: nat): nat {
    if n <= 1 then 0 else 1 + Log2Ceil((n + 1) / 2)
  }

  lemma {:induction false} Log2CeilMonotone(m: nat, n: nat)
    requires m <= n
    ensures Log2Ceil(m) <= Log2Ceil(n)
    decreases n
  {
    if 1 < m {
      Log2CeilMonotone((m + 1) / 2, (n + 1) / 2);
    }
  }

  function Middle(low: nat, high: nat): (m: nat)
    requires high - low > 1
    ensures low < m < high
  {
    (low + high) / 2
  }

  /** Both halves of a gap need fewer halvings than the gap. */
  lemma MiddleHalves(low: nat, high: nat)
    requires high - low > 1
    ensures Log2Ceil(Middle(low, high) - low) + 1 <= Log2Ceil(high - low)
    ensures Log2Ceil(high - Middle(low, high)) + 1 <= Log2Ceil(high - low)
  {
    Log2CeilMonotone(Middle(low, high) - low, (high - low + 1) / 2);
    Log2CeilMonotone(high - Middle(low, high), (high - low + 1) / 2);
  }

  /** Either half of a gap. */
  predicate HalfOf(low: nat, high: nat, newLow: nat, newHigh: nat)
    requires high - low > 1
  {
    (newLow == low && newHigh == Middle(low, high)) || (newLow == Middle(low, high) && newHigh == high)
  }

  lemma HalvesCost(low: nat, high: nat)
    requires high - low > 1
    ensures Log2Ceil(high - low) >= 1
    ensures forall l: nat, h: nat | HalfOf(low, high, l, h) ::
              l < h && h - l < high - low && Log2Ceil(h - l) + 1 <= Log2Ceil(high - low)
  {
    MiddleHalves(low, high);
  }

  function Power2(e: nat): nat {
    if e == 0 then 1 else 2 * Power2(e - 1)
  }

  /** Log2Ceil is the exact rounded-up logarithm. */
  lemma {:induction false} Log2CeilExact(n: nat)
    requires 1 <= n
    ensures n <= Power2(Log2Ceil(n))
    ensures 1 < n ==> Power2(Log2Ceil(n) - 1) < n
  {
    if 1 < n {
      Log2CeilExact((n + 1) / 2);
    }
  }

  // ----- What the cache says about a list of revisions -----

  type Key = (string, string)
  type Cache = map<Key, Observation>

  predicate Tested(cache: Cache, candidate: string, revs: seq<Revision>, i: int) {
    0 <= i < |revs| && (candidate, revs[i].identity) in cache
  }

  function At(cache: Cache, candidate: string, revs: seq<Revision>, i: int): Observation
    requires Tested(cache, candidate, revs, i)
  {
    cache[(candidate, revs[i].identity)]
  }

  /** Position `i` was tested, passed its control and has status `s`. */
  predicate Shows(cache: Cache, candidate: string, revs: seq<Revision>, i: int, s: Status) {
    Tested(cache, candidate, revs, i) && Clean(At(cache, candidate, revs, i))
      && At(cache, candidate, revs, i).status == s
  }

  /** Everything tested outside the gap `(low, high)` lies on its side, and nothing inside was tested. */
  ghost predicate Bracketed(cache: Cache, candidate: string, revs: seq<Revision>, mode: Mode, low: int, high: int) {
    forall i | Tested(cache, candidate, revs, i) ::
      (i <= low || high <= i) && Shows(cache, candidate, revs, i, mode.Expected(i, high))
  }

  /** The cache knows nothing but this candidate's observations of these revisions. */
  ghost predicate OnlyAbout(cache: Cache, candidate: string, revs: seq<Revision>) {
    forall k | k in cache ::
      exists i :: 0 <= i < |revs| && k == (candidate, revs[i].identity) && cache[k].revision == revs[i]
  }

  /** Which observations of a revision a provider may give for one candidate. */
  type Oracle = (Revision, Observation) -> bool

  /** Everything `p` may answer, over all numbers of lifecycles run before. */
  ghost function Says(p: Provider, candidate: string): Oracle {
    (r: Revision, o: Observation) => exists call: nat :: o == Observed(p, candidate, r, call)
  }

  /** Every cached observation is one the provider gave. */
  ghost predicate FromProvider(cache: Cache, said: Oracle, candidate: string, revs: seq<Revision>) {
    forall i | Tested(cache, candidate, revs, i) :: said(revs[i], At(cache, candidate, revs, i))
  }

  /** The provider reports the initial status before position `k` and the terminal one from `k` on, never blocked. */
  ghost predicate MonotoneAt(said: Oracle, revs: seq<Revision>, mode: Mode, k: int) {
    && 0 < k < |revs|
    && forall i, o | 0 <= i < |revs| && said(revs[i], o) :: Clean(o) && o.status == mode.Expected(i, k)
  }

  ghost predicate DistinctIdentities(revs: seq<Revision>) {
    forall a, b | 0 <= a < b < |revs| :: revs[a].identity != revs[b].identity
  }

  /** `after` is `before` plus, if `r` was not yet known, what the provider says of `r`. */
  ghost predicate ObservedInto(before: Cache, after: Cache, said: Oracle, candidate: string, r: Revision) {
    var key := (candidate, r.identity);
    if key in before then after == before
    else key in after && after == before[key := after[key]] && said(r, after[key]) && after[key].revision == r
  }

  /** What was observed stays as it is. */
  ghost predicate Extends(before: Cache, after: Cache) {
    forall k | k in before :: k in after && after[k] == before[k]
  }

  lemma ExtendsOn(a: Cache, b: Cache, c: Cache)
    requires Extends(a, b) && Extends(b, c)
    ensures Extends(a, c)
  {
  }

  /** Ends of the right status keep it. */
  lemma EndsKept(c0: Cache, start: Cache, cache: Cache, said: Oracle, candidate: string, revs: seq<Revision>,
                 mode: Mode)
    requires EndpointsChecked(c0, start, said, candidate, revs, mode, None) && Extends(start, cache)
    ensures !Mismatched(cache, candidate, revs, mode) && EndsClean(cache, candidate, revs)
    ensures c0 == map[] ==> EndsSaid(cache, said, candidate, revs)
  {
  }

  /** Observing revision `i` tests exactly that position more, and disturbs nothing. */
  lemma ObservedIntoKeeps(before: Cache, after: Cache, said: Oracle, candidate: string, revs: seq<Revision>, i: nat)
    requires i < |revs| && DistinctIdentities(revs)
    requires ObservedInto(before, after, said, candidate, revs[i])
    ensures Tested(after, candidate, revs, i)
    ensures forall j | Tested(before, candidate, revs, j) ::
              Tested(after, candidate, revs, j) && At(after, candidate, revs, j) == At(before, candidate, revs, j)
    ensures forall j | Tested(after, candidate, revs, j) :: j == i || Tested(before, candidate, revs, j)
    ensures OnlyAbout(before, candidate, revs) ==> OnlyAbout(after, candidate, revs)
    ensures FromProvider(before, said, candidate, revs) ==> FromProvider(after, said, candidate, revs)
  {
    forall j | Tested(after, candidate, revs, j) ensures j == i || Tested(before, candidate, revs, j) {
      if j != i {
        assert revs[j].identity != revs[i].identity;
      }
    }
    if OnlyAbout(before, candidate, revs) {
      forall k | k in after
        ensures exists j :: 0 <= j < |revs| && k == (candidate, revs[j].identity) && after[k].revision == revs[j]
      {
        if k in before {
          var j :| 0 <= j < |revs| && k == (candidate, revs[j].identity) && before[k].revision == revs[j];
          assert after[k] == before[k];
        } else {
          assert k == (candidate, revs[i].identity) && after[k].revision == revs[i];
        }
      }
    }
  }

  /** What a monotone provider must have said about a tested position. */
  lemma MonotoneShows(cache: Cache, said: Oracle, candidate: string, revs: seq<Revision>, mode: Mode, k: int, i: int)
    requires MonotoneAt(said, revs, mode, k) && FromProvider(cache, said, candidate, revs)
    requires Tested(cache, candidate, revs, i)
    ensures Shows(cache, candidate, revs, i, mode.Expected(i, k))
  {
    assert said(revs[i], At(cache, candidate, revs, i));
  }

  /** What the binary search keeps while it narrows the gap from the whole range to `(low, high)`. */
  ghost predicate Narrowed(start: Cache, cache: Cache, said: Oracle, candidate: string, revs: seq<Revision>,
                           mode: Mode, low: int, high: int, blocker: Option<Reason>) {
    && 0 <= low < high < |revs|
    && Shows(cache, candidate, revs, low, mode.Initial())
    && Shows(cache, candidate, revs, high, mode.Terminal())
    && (OnlyAbout(start, candidate, revs) ==> OnlyAbout(cache, candidate, revs))
    && (FromProvider(start, said, candidate, revs) ==> FromProvider(cache, said, candidate, revs))
    && (blocker.None? && Bracketed(start, candidate, revs, mode, 0, |revs| - 1)
        ==> Bracketed(cache, candidate, revs, mode, low, high))
    && (blocker.Some? ==> ProblemSeen(cache, candidate, revs, blocker))
    && (forall k | MonotoneAt(said, revs, mode, k) && FromProvider(start, said, candidate, revs) ::
          low < k <= high && blocker.None?)
  }

  ghost predicate ProblemSeen(cache: Cache, candidate: string, revs: seq<Revision>, blocker: Option<Reason>) {
    exists i :: Tested(cache, candidate, revs, i) && Problem(At(cache, candidate, revs, i)) == blocker
  }

  lemma NarrowedStart(cache: Cache, said: Oracle, candidate: string, revs: seq<Revision>, mode: Mode)
    requires 2 <= |revs|
    requires Shows(cache, candidate, revs, 0, mode.Initial())
             && Shows(cache, candidate, revs, |revs| - 1, mode.Terminal())
    ensures Narrowed(cache, cache, said, candidate, revs, mode, 0, |revs| - 1, None)
  {
  }

  /** Moving one end of the gap onto a newly tested position that shows the right status keeps the bracket. */
  lemma BracketedStep(before: Cache, after: Cache, candidate: string, revs: seq<Revision>,
                      mode: Mode, low: int, high: int, middle: int)
    requires 0 <= low < middle < high < |revs|
    requires Bracketed(before, candidate, revs, mode, low, high)
    requires forall j | Tested(after, candidate, revs, j) :: j == middle ||
               (Tested(before, candidate, revs, j) && At(after, candidate, revs, j) == At(before, candidate, revs, j))
    ensures Shows(after, candidate, revs, middle, mode.Terminal())
            ==> Bracketed(after, candidate, revs, mode, low, middle)
    ensures Shows(after, candidate, revs, middle, mode.Initial())
            ==> Bracketed(after, candidate, revs, mode, middle, high)
  {
    forall i | Tested(after, candidate, revs, i)
      ensures i == middle || ((i <= low || high <= i) && Shows(after, candidate, revs, i, mode.Expected(i, high)))
    {
    }
  }

  /** Testing a position inside the gap either stops the search or moves one end to it. */
  lemma NarrowedStep(start: Cache, before: Cache, after: Cache, said: Oracle, candidate: string, revs: seq<Revision>,
                     mode: Mode, low: int, high: int, middle: int)
    requires DistinctIdentities(revs)
    requires Narrowed(start, before, said, candidate, revs, mode, low, high, None)
    requires low < middle < high
    requires ObservedInto(before, after, said, candidate, revs[middle])
    ensures Tested(after, candidate, revs, middle)
    ensures var o := At(after, candidate, revs, middle);
            if !Clean(o) then Narrowed(start, after, said, candidate, revs, mode, low, high, Problem(o))
            else if o.status == mode.Terminal() then
              Narrowed(start, after, said, candidate, revs, mode, low, middle, None)
            else Narrowed(start, after, said, candidate, revs, mode, middle, high, None)
  {
    ObservedIntoKeeps(before, after, said, candidate, revs, middle);
    NarrowedStepFrom(start, before, after, said, candidate, revs, mode, low, high, middle);
  }

  lemma NarrowedStepFrom(start: Cache, before: Cache, after: Cache, said: Oracle, candidate: string,
                         revs: seq<Revision>, mode: Mode, low: int, high: int, middle: int)
    requires Narrowed(start, before, said, candidate, revs, mode, low, high, None)
    requires low < middle < high
    requires Tested(after, candidate, revs, middle)
    requires forall j | Tested(before, candidate, revs, j) ::
               Tested(after, candidate, revs, j) && At(after, candidate, revs, j) == At(before, candidate, revs, j)
    requires forall j | Tested(after, candidate, revs, j) :: j == middle || Tested(before, candidate, revs, j)
    requires OnlyAbout(before, candidate, revs) ==> OnlyAbout(after, candidate, revs)
    requires FromProvider(before, said, candidate, revs) ==> FromProvider(after, said, candidate, revs)
    ensures var o := At(after, candidate, revs, middle);
            if !Clean(o) then Narrowed(start, after, said, candidate, revs, mode, low, high, Problem(o))
            else if o.status == mode.Terminal() then
              Narrowed(start, after, said, candidate, revs, mode, low, middle, None)
            else Narrowed(start, after, said, candidate, revs, mode, middle, high, None)
  {
    var o := At(after, candidate, revs, middle);
    forall k | MonotoneAt(said, revs, mode, k) && FromProvider(start, said, candidate, revs)
      ensures low < k <= high && Clean(o) && o.status == mode.Expected(middle, k)
    {
      MonotoneShows(after, said, candidate, revs, mode, k, middle);
    }
    if Bracketed(start, candidate, revs, mode, 0, |revs| - 1) {
      BracketedStep(before, after, candidate, revs, mode, low, high, middle);
    }
    assert Shows(after, candidate, revs, low, mode.Initial());
    assert Shows(after, candidate, revs, high, mode.Terminal());
  }

  predicate Holds(caps: map<Capability, bool>, c: Capability) {
    c in caps && caps[c]
  }

  predicate Capable(caps: Option<map<Capability, bool>>) {
    && caps.Some?
    && Holds(caps.value, DeterministicValidation) && Holds(caps.value, SourceAssertions)
    && Holds(caps.value, ImmutableRevisions) && Holds(caps.value, RevisionOrdering) && Holds(caps.value, SafetyGate)
  }

  /** The provider answers the capability question with everything a bisection needs. */
  predicate Ready(p: Provider, candidate: string) {
    var capabilities := p.capabilities(candidate);
    capabilities.Returned? && Capable(capabilities.value)
  }

  /** The revisions a run works on, or why it cannot start. */
  function Revisions(p: Provider, candidate: string, start: string, end: string): (r: Outcome<seq<Revision>>)
    ensures r.Done? ==> ValidRevisions(r.value, start, end)
  {
    match p.orderedRevisions(candidate, start, end)
    case Crashed => Broken(ProviderCrashed)
    case Raised(_) => Stopped(ImmutableRevisionRequired)
    case Returned(None) => Stopped(ImmutableRevisionRequired)
    case Returned(Some(revs)) =>
      if ValidRevisions(revs, start, end) then Done(revs) else Stopped(ImmutableRevisionRequired)
  }

  /** The mode a request names, or None for a malformed request. */
  function Requested(candidate: string, modeName: string, start: string, end: string): Option<Mode> {
    if candidate == "" || start == "" || end == "" then None
    else if modeName == "introduced" then Some(Introduced)
    else if modeName == "fixed" then Some(Fixed)
    else None
  }

  function OrderLeq(): (Observation, Observation) -> bool {
    (a: Observation, b: Observation) => a.revision.orderKey <= b.revision.orderKey
  }

  /** The two endpoints leave the cache ready for the search. */
  lemma EndpointsObserved(c0: Cache, c1: Cache, c2: Cache, said: Oracle, candidate: string, revs: seq<Revision>,
                          mode: Mode)
    requires 2 <= |revs| && DistinctIdentities(revs)
    requires ObservedInto(c0, c1, said, candidate, revs[0])
    requires ObservedInto(c1, c2, said, candidate, revs[|revs| - 1])
    ensures Tested(c2, candidate, revs, 0) && Tested(c2, candidate, revs, |revs| - 1)
    ensures At(c2, candidate, revs, 0) == c1[(candidate, revs[0].identity)]
    ensures c0 == map[] ==> OnlyAbout(c2, candidate, revs) && FromProvider(c2, said, candidate, revs)
    ensures c0 == map[] && Shows(c2, candidate, revs, 0, mode.Initial())
            && Shows(c2, candidate, revs, |revs| - 1, mode.Terminal())
            ==> Bracketed(c2, candidate, revs, mode, 0, |revs| - 1)
    ensures forall k | MonotoneAt(said, revs, mode, k) && c0 == map[] ::
              Shows(c2, candidate, revs, 0, mode.Initial()) && Shows(c2, candidate, revs, |revs| - 1, mode.Terminal())
  {
    ObservedIntoKeeps(c0, c1, said, candidate, revs, 0);
    ObservedIntoKeeps(c1, c2, said, candidate, revs, |revs| - 1);
    forall k | MonotoneAt(said, revs, mode, k) && c0 == map[]
      ensures Shows(c2, candidate, revs, 0, mode.Initial()) && Shows(c2, candidate, revs, |revs| - 1, mode.Terminal())
    {
      MonotoneShows(c2, said, candidate, revs, mode, k, 0);
      MonotoneShows(c2, said, candidate, revs, mode, k, |revs| - 1);
    }
  }

  /** What testing both ends leaves: a bracketed range, or a witnessed reason to stop. */
  ghost predicate EndpointsChecked(c0: Cache, cache: Cache, said: Oracle, candidate: string, revs: seq<Revision>,
                                   mode: Mode, stop: Option<(Verdict, Reason)>) {
    && (c0 == map[] ==> EndsSaid(cache, said, candidate, revs))
    && match stop
    case None =>
      && Shows(cache, candidate, revs, 0, mode.Initial())
      && Shows(cache, candidate, revs, |revs| - 1, mode.Terminal())
      && (c0 == map[] ==> OnlyAbout(cache, candidate, revs) && FromProvider(cache, said, candidate, revs)
                          && Bracketed(cache, candidate, revs, mode, 0, |revs| - 1))
    case Some((verdict, reason)) =>
      && verdict in {BisectBlocked, BoundaryNotFound}
      && (verdict.BisectBlocked? ==> ProblemSeen(cache, candidate, revs, Some(reason)))
      && Tested(cache, candidate, revs, 0) && Tested(cache, candidate, revs, |revs| - 1)
      && (!EndsClean(cache, candidate, revs) ==>
            verdict.BisectBlocked? && Some(reason) == EndProblem(cache, candidate, revs))
      && (verdict.BoundaryNotFound? <==> EndsClean(cache, candidate, revs) && Mismatched(cache, candidate, revs, mode))
      && (verdict.BoundaryNotFound? ==> reason == EndpointStatusMismatch)
      && !(c0 == map[] && exists k :: MonotoneAt(said, revs, mode, k))
  }

  ghost predicate EndsClean(cache: Cache, candidate: string, revs: seq<Revision>) {
    && Tested(cache, candidate, revs, 0) && Clean(At(cache, candidate, revs, 0))
    && Tested(cache, candidate, revs, |revs| - 1) && Clean(At(cache, candidate, revs, |revs| - 1))
  }

  /** What is known of the ends the provider said. */
  ghost predicate EndsSaid(cache: Cache, said: Oracle, candidate: string, revs: seq<Revision>) {
    && Tested(cache, candidate, revs, 0) && said(revs[0], At(cache, candidate, revs, 0))
    && Tested(cache, candidate, revs, |revs| - 1) && said(revs[|revs| - 1], At(cache, candidate, revs, |revs| - 1))
  }

  /** What is wrong with the first end, or else with the last. */
  function EndProblem(cache: Cache, candidate: string, revs: seq<Revision>): Option<Reason>
    requires Tested(cache, candidate, revs, 0) && Tested(cache, candidate, revs, |revs| - 1)
  {
    var first := Problem(At(cache, candidate, revs, 0));
    if first.Some? then first else Problem(At(cache, candidate, revs, |revs| - 1))
  }

  ghost predicate Mismatched(cache: Cache, candidate: string, revs: seq<Revision>, mode: Mode) {
    !Shows(cache, candidate, revs, 0, mode.Initial()) || !Shows(cache, candidate, revs, |revs| - 1, mode.Terminal())
  }

  lemma EndpointsDecided(c0: Cache, cache: Cache, said: Oracle, candidate: string, revs: seq<Revision>, mode: Mode,
                         left: Observation, right: Observation, stop: Option<(Verdict, Reason)>)
    requires Tested(cache, candidate, revs, 0) && Tested(cache, candidate, revs, |revs| - 1)
    requires left == At(cache, candidate, revs, 0) && right == At(cache, candidate, revs, |revs| - 1)
    requires c0 == map[] ==> OnlyAbout(cache, candidate, revs) && FromProvider(cache, said, candidate, revs)
    requires c0 == map[] && Shows(cache, candidate, revs, 0, mode.Initial())
             && Shows(cache, candidate, revs, |revs| - 1, mode.Terminal())
             ==> Bracketed(cache, candidate, revs, mode, 0, |revs| - 1)
    requires stop == if !Clean(left) then Some((BisectBlocked, Problem(left).value))
                     else if !Clean(right) then Some((BisectBlocked, Problem(right).value))
                     else if left.status != mode.Initial() || right.status != mode.Terminal() then
                       Some((BoundaryNotFound, EndpointStatusMismatch))
                     else None
    ensures EndpointsChecked(c0, cache, said, candidate, revs, mode, stop)
  {
    if c0 == map[] && exists k :: MonotoneAt(said, revs, mode, k) {
      var k :| MonotoneAt(said, revs, mode, k);
      MonotoneShows(cache, said, candidate, revs, mode, k, 0);
      MonotoneShows(cache, said, candidate, revs, mode, k, |revs| - 1);
    }
  }

  /** What one neighbour does to the run: nothing, or an early verdict. */
  function WindowVerdict(o: Observation, expected: Status): Option<(Verdict, Reason)> {
    if !Clean(o) then Some((BisectBlocked, Problem(o).value))
    else if o.status != expected then Some((NonMonotonic, NonMonotonicObservation))
    else None
  }

  ghost predicate WindowShows(cache: Cache, candidate: string, revs: seq<Revision>, mode: Mode, high: int, first: int,
                              last: int) {
    forall i | first <= i < last :: Shows(cache, candidate, revs, i, mode.Expected(i, high))
  }

  /** What the window check leaves: the gap as it was, or a witnessed reason to stop. */
  ghost predicate Confirmed(start: Cache, cache: Cache, said: Oracle, candidate: string, revs: seq<Revision>,
                            mode: Mode, low: int, high: int, stop: Option<(Verdict, Reason)>) {
    match stop
    case None => Narrowed(start, cache, said, candidate, revs, mode, low, high, None)
    case Some((verdict, reason)) =>
      && verdict in {BisectBlocked, NonMonotonic}
      && (verdict.BisectBlocked? ==> ProblemSeen(cache, candidate, revs, Some(reason)))
      && (verdict.NonMonotonic? ==>
            reason == NonMonotonicObservation && exists i, j :: Inversion(cache, candidate, revs, mode, i, j))
      && !(FromProvider(start, said, candidate, revs) && exists k :: MonotoneAt(said, revs, mode, k))
  }

  /** Testing one position of the window. */
  lemma WindowStep(start: Cache, before: Cache, after: Cache, said: Oracle, candidate: string, revs: seq<Revision>,
                   mode: Mode, low: int, high: int, first: int, index: int)
    requires DistinctIdentities(revs) && high == low + 1 && 0 <= first <= index < |revs|
    requires Narrowed(start, before, said, candidate, revs, mode, low, high, None)
    requires WindowShows(before, candidate, revs, mode, high, first, index)
    requires ObservedInto(before, after, said, candidate, revs[index])
    ensures Tested(after, candidate, revs, index)
    ensures index in {low, high} ==> Tested(before, candidate, revs, index)
    ensures var stop := WindowVerdict(At(after, candidate, revs, index), mode.Expected(index, high));
            && Confirmed(start, after, said, candidate, revs, mode, low, high, stop)
            && (stop.None? ==> WindowShows(after, candidate, revs, mode, high, first, index + 1))
  {
    ObservedIntoKeeps(before, after, said, candidate, revs, index);
    WindowProvider(start, after, said, candidate, revs, mode, low, high, index);
    var o := At(after, candidate, revs, index);
    if !Clean(o) {
      assert ProblemSeen(after, candidate, revs, Problem(o));
    } else if o.status != mode.Expected(index, high) {
      WindowInversion(after, candidate, revs, mode, low, high, index);
    } else {
      WindowBracket(before, after, candidate, revs, mode, low, high, index);
      WindowGrows(before, after, candidate, revs, mode, high, first, index);
      assert Narrowed(start, after, said, candidate, revs, mode, low, high, None);
    }
  }

  lemma WindowGrows(before: Cache, after: Cache, candidate: string, revs: seq<Revision>, mode: Mode, high: int,
                    first: int, index: int)
    requires first <= index
    requires WindowShows(before, candidate, revs, mode, high, first, index)
    requires forall j | Tested(before, candidate, revs, j) ::
               Tested(after, candidate, revs, j) && At(after, candidate, revs, j) == At(before, candidate, revs, j)
    requires Shows(after, candidate, revs, index, mode.Expected(index, high))
    ensures WindowShows(after, candidate, revs, mode, high, first, index + 1)
  {
    forall i | first <= i < index ensures Shows(after, candidate, revs, i, mode.Expected(i, high)) {
      assert Shows(before, candidate, revs, i, mode.Expected(i, high));
    }
  }

  /** A monotone provider's boundary is the gap's upper end, so no neighbour contradicts it. */
  lemma WindowProvider(start: Cache, after: Cache, said: Oracle, candidate: string, revs: seq<Revision>,
                       mode: Mode, low: int, high: int, index: int)
    requires high == low + 1
    requires FromProvider(start, said, candidate, revs) ==> FromProvider(after, said, candidate, revs)
    requires forall k | MonotoneAt(said, revs, mode, k) && FromProvider(start, said, candidate, revs) :: low < k <= high
    requires Tested(after, candidate, revs, index)
    ensures FromProvider(start, said, candidate, revs) && (exists k :: MonotoneAt(said, revs, mode, k))
            ==> Shows(after, candidate, revs, index, mode.Expected(index, high))
  {
    if FromProvider(start, said, candidate, revs) && exists k :: MonotoneAt(said, revs, mode, k) {
      var k :| MonotoneAt(said, revs, mode, k);
      MonotoneShows(after, said, candidate, revs, mode, k, index);
    }
  }

  /** A clean neighbour on the wrong side, with the end of the gap on the other side, is an inversion. */
  lemma WindowInversion(cache: Cache, candidate: string, revs: seq<Revision>, mode: Mode, low: int, high: int,
                        index: int)
    requires high == low + 1
    requires Shows(cache, candidate, revs, low, mode.Initial()) && Shows(cache, candidate, revs, high, mode.Terminal())
    requires Tested(cache, candidate, revs, index) && Clean(At(cache, candidate, revs, index))
    requires At(cache, candidate, revs, index).status != mode.Expected(index, high)
    ensures exists i, j :: Inversion(cache, candidate, revs, mode, i, j)
  {
    if index < high {
      assert Inversion(cache, candidate, revs, mode, index, low);
    } else {
      assert Inversion(cache, candidate, revs, mode, high, index);
    }
  }

  lemma WindowBracket(before: Cache, after: Cache, candidate: string, revs: seq<Revision>, mode: Mode, low: int,
                      high: int, index: int)
    requires high == low + 1
    requires forall j | Tested(after, candidate, revs, j) :: j == index ||
               (Tested(before, candidate, revs, j) && At(after, candidate, revs, j) == At(before, candidate, revs, j))
    requires Shows(after, candidate, revs, index, mode.Expected(index, high))
    ensures Bracketed(before, candidate, revs, mode, low, high) ==> Bracketed(after, candidate, revs, mode, low, high)
  {
    if Bracketed(before, candidate, revs, mode, low, high) {
      forall i | Tested(after, candidate, revs, i) ensures Shows(after, candidate, revs, i, mode.Expected(i, high)) {
        if i != index {
          assert Shows(before, candidate, revs, i, mode.Expected(i, high));
        }
      }
    }
  }

  /** A boundary `h` as the result reports it: its immediate predecessor is the lower bound, every position in the
      window around it was tested clean on its own side and, on a fresh bisector, so was everything reported. */
  ghost predicate FoundAt(r: BisectResult, cache: Cache, candidate: string, revs: seq<Revision>, window: nat, h: int,
                          fresh_: bool) {
    && 0 < h < |revs|
    && r.lowerBound == Some(revs[h - 1])
    && r.upperBound == r.boundaryRevision == Some(revs[h])
    && WindowShows(cache, candidate, revs, r.mode, h, Max(0, h - window), Min(|revs|, h + window + 1))
    && (fresh_ ==> ObservationsAgree(r.observations, revs, r.mode, h))
  }

  ghost predicate SomeFoundAt(r: BisectResult, cache: Cache, candidate: string, revs: seq<Revision>, window: nat,
                              fresh_: bool) {
    exists h :: FoundAt(r, cache, candidate, revs, window, h, fresh_)
  }

  /** The whole promise of a run: every verdict carries its evidence, and a provider whose statuses
      change exactly once is never given any other verdict than that change. */
  ghost predicate Justified(r: BisectResult, c0: Cache, cache: Cache, said: Oracle, candidate: string,
                            revs: seq<Revision>, window: nat) {
    && (r.status in {FirstAffectedFound, FirstFixedFound} ==>
          r.status == r.mode.Found() && SomeFoundAt(r, cache, candidate, revs, window, c0 == map[]))
    && (r.status.NonMonotonic? ==>
          && r.monotonic == Some(false) && r.blocker == Some(NonMonotonicObservation)
          && exists i, j :: Inversion(cache, candidate, revs, r.mode, i, j))
    && (r.status.BisectBlocked? ==> r.boundaryRevision.None? && ProblemSeen(cache, candidate, revs, r.blocker))
    && (r.status.BoundaryNotFound? <==> EndsClean(cache, candidate, revs) && Mismatched(cache, candidate, revs, r.mode))
    && (r.status.BoundaryNotFound? ==> r.blocker == Some(EndpointStatusMismatch) && r.boundaryRevision.None?)
    && Tested(cache, candidate, revs, 0) && Tested(cache, candidate, revs, |revs| - 1)
    && (c0 == map[] ==> EndsSaid(cache, said, candidate, revs))
    && (!EndsClean(cache, candidate, revs)
        ==> r.status.BisectBlocked? && r.blocker == EndProblem(cache, candidate, revs))
    && (forall k | MonotoneAt(said, revs, r.mode, k) && c0 == map[] ::
          r.status == r.mode.Found() && r.boundaryRevision == Some(revs[k]))
  }

  /** On a fresh bisector, a provider that changes once changes where the search ended. */
  lemma BoundaryIs(c0: Cache, start: Cache, cache: Cache, said: Oracle, candidate: string, revs: seq<Revision>,
                   mode: Mode, low: int, high: int)
    requires EndpointsChecked(c0, start, said, candidate, revs, mode, None)
    requires Narrowed(start, cache, said, candidate, revs, mode, low, high, None) && high == low + 1
    ensures forall k | MonotoneAt(said, revs, mode, k) && c0 == map[] :: k == high
  {
  }

  lemma JustifyBoundary(c0: Cache, cache: Cache, said: Oracle, candidate: string, revs: seq<Revision>, window: nat,
                        high: int, r: BisectResult)
    requires r.status == r.mode.Found() && FoundAt(r, cache, candidate, revs, window, high, c0 == map[])
    requires forall k | MonotoneAt(said, revs, r.mode, k) && c0 == map[] :: k == high
    requires !Mismatched(cache, candidate, revs, r.mode) && EndsClean(cache, candidate, revs)
    requires c0 == map[] ==> EndsSaid(cache, said, candidate, revs)
    ensures Justified(r, c0, cache, said, candidate, revs, window)
  {
  }

  lemma JustifyFound(c0: Cache, start: Cache, cache: Cache, said: Oracle, candidate: string, revs: seq<Revision>,
                     mode: Mode, window: nat, low: int, high: int, r: BisectResult)
    requires EndpointsChecked(c0, start, said, candidate, revs, mode, None)
    requires Narrowed(start, cache, said, candidate, revs, mode, low, high, None) && high == low + 1
    requires Extends(start, cache)
    requires WindowShows(cache, candidate, revs, mode, high, Max(0, high - window), Min(|revs|, high + window + 1))
    requires r.mode == mode && r.status == mode.Found()
    requires r.lowerBound == Some(revs[high - 1]) && r.upperBound == r.boundaryRevision == Some(revs[high])
    requires forall o | o in r.observations :: o in cache.Values
    ensures Justified(r, c0, cache, said, candidate, revs, window)
  {
    if c0 == map[] {
      BracketedObservations(cache, candidate, revs, mode, low, high, r.observations);
    }
    BoundaryIs(c0, start, cache, said, candidate, revs, mode, low, high);
    EndsKept(c0, start, cache, said, candidate, revs, mode);
    JustifyBoundary(c0, cache, said, candidate, revs, window, high, r);
  }

  lemma JustifyEndpoints(c0: Cache, cache: Cache, said: Oracle, candidate: string, revs: seq<Revision>, window: nat,
                         stop: (Verdict, Reason), r: BisectResult)
    requires EndpointsChecked(c0, cache, said, candidate, revs, r.mode, Some(stop))
    requires r.status == stop.0 && r.blocker == Some(stop.1) && r.boundaryRevision.None?
    ensures Justified(r, c0, cache, said, candidate, revs, window)
  {
  }

  lemma JustifyStop(c0: Cache, start: Cache, cache: Cache, said: Oracle, candidate: string, revs: seq<Revision>,
                    window: nat, low: int, high: int, stop: (Verdict, Reason), r: BisectResult)
    requires EndpointsChecked(c0, start, said, candidate, revs, r.mode, None)
    requires Confirmed(start, cache, said, candidate, revs, r.mode, low, high, Some(stop)) && Extends(start, cache)
    requires r.status == stop.0 && r.blocker == Some(stop.1) && r.boundaryRevision.None?
    requires stop.0.NonMonotonic? ==> r.monotonic == Some(false)
    ensures Justified(r, c0, cache, said, candidate, revs, window)
  {
    EndsKept(c0, start, cache, said, candidate, revs, r.mode);
  }

  function Cost(p: Provider, candidate: string, start: string, end: string, window: nat): nat {
    var revs := Revisions(p, candidate, start, end);
    if revs.Done? then Log2Ceil(|revs.value| - 1) + 2 * window + 1 else 0
  }

  /** `dict.values()`: the cached observations in insertion order. */
  function Listing(cache: Cache, order: seq<Key>): (r: seq<Observation>)
    requires forall k | k in order :: k in cache
    ensures |r| == |order|
    ensures forall i | 0 <= i < |r| :: r[i] == cache[order[i]]
  {
    if order == [] then [] else [cache[order[0]]] + Listing(cache, order[1..])
  }

  lemma ListingCovers(cache: Cache, order: seq<Key>)
    requires Elements(order) == cache.Keys && Distinct(order)
    requires forall k | k in order :: k in cache
    ensures |Listing(cache, order)| == |cache|
    ensures forall o :: o in Listing(cache, order) <==> o in cache.Values
  {
    ElementsSize(order);
    var values := Listing(cache, order);
    forall o | o in cache.Values ensures o in values {
      var k :| k in cache && cache[k] == o;
      assert k in Elements(order);
      var i :| 0 <= i < |order| && order[i] == k;
      assert values[i] == o;
    }
  }

  lemma SortedListing(cache: Cache, order: seq<Key>)
    requires forall k | k in order :: k in cache
    ensures SortedBy(OrderLeq(), Sort(OrderLeq(), Listing(cache, order)))
    ensures |Sort(OrderLeq(), Listing(cache, order))| == |order|
    ensures forall o :: o in Sort(OrderLeq(), Listing(cache, order)) <==> o in Listing(cache, order)
  {
    var values := Listing(cache, order);
    SortSorted(OrderLeq(), values);
    SameMembers(Sort(OrderLeq(), values), values);
  }

  /** Each reported observation is of one of the revisions, passed control and is on its side of `h`. */
  ghost predicate ObservationsAgree(obs: seq<Observation>, revs: seq<Revision>, mode: Mode, h: int) {
    forall o | o in obs ::
      exists i :: 0 <= i < |revs| && o.revision == revs[i] && Clean(o) && o.status == mode.Expected(i, h)
  }

  ghost predicate Inversion(cache: Cache, candidate: string, revs: seq<Revision>, mode: Mode, i: int, j: int) {
    i < j && Shows(cache, candidate, revs, i, mode.Terminal()) && Shows(cache, candidate, revs, j, mode.Initial())
  }

  function Max(a: int, b: int): int { if a < b then b else a }
  function Min(a: int, b: int): int { if a < b then a else b }

  /** A fresh cache whose tested revisions are all bracketed gives only supporting observations. */
  lemma BracketedObservations(cache: Cache, candidate: string, revs: seq<Revision>, mode: Mode, low: int, h: int,
                              obs: seq<Observation>)
    requires OnlyAbout(cache, candidate, revs)
    requires Bracketed(cache, candidate, revs, mode, low, h)
    requires forall o | o in obs :: o in cache.Values
    ensures ObservationsAgree(obs, revs, mode, h)
  {
    forall o | o in obs
      ensures exists i :: 0 <= i < |revs| && o.revision == revs[i] && Clean(o) && o.status == mode.Expected(i, h)
    {
      var k :| k in cache && cache[k] == o;
      var i :| 0 <= i < |revs| && k == (candidate, revs[i].identity) && cache[k].revision == revs[i];
      assert Tested(cache, candidate, revs, i);
    }
  }

  // ----- What a run answers, in the provider's terms -----

  /** The reply is an observation of `r` with status `s`, its control passed, that the observation's own constructor
      accepts. */
  predicate GoodReply(reply: Reply<Option<Observation>>, r: Revision, s: Status) {
    reply.Returned? && reply.value.Some? && reply.value.value.revision == r && reply.value.value.status == s
    && (reply.value.value.controlStatus == Pass || reply.value.value.controlStatus == Passed)
    && reply.value.value.candidateStatus != "" && reply.value.value.evidence != [] && "" !in reply.value.value.evidence
    && reply.value.value.runtimeIdentity.Some? && reply.value.value.runtimeIdentity.value != ""
  }

  /** However often it is asked, the provider reports status `s` of the revision. */
  ghost predicate Reports(p: Provider, candidate: string, r: Revision, s: Status) {
    && (p.cleanup.Some? ==> forall call: nat :: p.cleanup.value(r, call).Returned?)
    && forall call: nat :: AttemptReports(p.access, candidate, r, call, s)
  }

  predicate AttemptReports(a: Access, candidate: string, r: Revision, call: nat, s: Status) {
    match a
    case Observer(observe) => GoodReply(observe(candidate, r, call), r, s)
    case Lifecycle(resolve, checkout, build, bootstrap, validate) =>
      && resolve(r, call) == Returned(r) && checkout(r, call).Returned?
      && build(r, checkout(r, call).value, call).Returned?
      && bootstrap(r, build(r, checkout(r, call).value, call).value, call).Returned?
      && GoodReply(validate(candidate, r, build(r, checkout(r, call).value, call).value, call), r, s)
  }

  /** An observation its own constructor refuses: a text missing or empty, a conclusive status without runtime and
      evidence, or another one without a reason. */
  predicate Unacceptable(reply: Reply<Option<Observation>>) {
    reply.Returned? && reply.value.Some?
    && var o := reply.value.value;
       || o.controlStatus == OtherControl("") || o.candidateStatus == "" || "" in o.evidence
       || (o.status in {Affected, Unaffected} && (o.runtimeIdentity in {None, Some("")} || o.evidence == []))
       || (o.status in {Status.Blocked, Inconclusive} && o.blocker == None)
  }

  /** An acceptable observation of `r` that says why there is no status. */
  predicate BlockedReply(reply: Reply<Option<Observation>>, r: Revision) {
    reply.Returned? && reply.value.Some?
    && var o := reply.value.value;
       && o.revision == r && o.status in {Status.Blocked, Inconclusive} && o.blocker != None
       && o.controlStatus != OtherControl("") && o.candidateStatus != "" && "" !in o.evidence
  }

  lemma ReportsSaid(p: Provider, candidate: string, r: Revision, s: Status, o: Observation)
    requires Reports(p, candidate, r, s) && s in {Affected, Unaffected} && Says(p, candidate)(r, o)
    ensures o.status == s && o.revision == r && (o.controlStatus == Pass || o.controlStatus == Passed)
  {
    var call: nat :| o == Observed(p, candidate, r, call);
    assert AttemptReports(p.access, candidate, r, call, s);
  }

  /** A revision that could not be observed, and why. */
  predicate Unobserved(o: Observation, r: Revision, reason: Reason) {
    && o.revision == r && o.status == Status.Blocked && o.blocker == Some(reason)
    && o.controlStatus == OtherControl("BLOCKED") && o.candidateStatus == "BLOCKED" && o.evidence == []
    && o.runtimeIdentity == None
  }

  /** What an observer that fails, or reports what it should not, leaves: a blocked revision and the reason. */
  lemma FailureSeen(p: Provider, candidate: string, r: Revision, call: nat)
    requires p.access.Observer?
    ensures var reply, o := p.access.observe(candidate, r, call), Observed(p, candidate, r, call);
            && (p.cleanup.None? || p.cleanup.value(r, call).Returned? ==>
                  && (reply.Raised? ==> Unobserved(o, r, reply.code))
                  && (reply.Crashed? ==> Unobserved(o, r, ProviderFailed))
                  && (Unacceptable(reply) ==> Unobserved(o, r, InvalidObservation))
                  && (BlockedReply(reply, r) ==> o == reply.value.value)
                  && (reply == Returned(None) || (reply.Returned? && reply.value.value.revision != r)
                      ==> Unobserved(o, r, InvalidObservation)))
            && (p.cleanup.Some? && p.cleanup.value(r, call).Raised?
                ==> Unobserved(o, r, p.cleanup.value(r, call).code))
            && (p.cleanup.Some? && p.cleanup.value(r, call).Crashed? ==> Unobserved(o, r, CleanupFailed))
  {
  }

  /** With lifecycle hooks, the first that fails decides, and a revision resolved to another one is refused. */
  lemma HookFailureSeen(p: Provider, candidate: string, r: Revision, call: nat)
    requires p.access.Lifecycle? && (p.cleanup.None? || p.cleanup.value(r, call).Returned?)
    ensures var a, o := p.access, Observed(p, candidate, r, call);
            var resolved, source := a.resolve(r, call), a.checkout(r, call);
            && (resolved.Raised? ==> Unobserved(o, r, resolved.code))
            && (resolved.Returned? && resolved.value != r ==> Unobserved(o, r, ImmutableRevisionRequired))
            && (resolved == Returned(r) && source.Raised? ==> o.blocker == Some(source.code))
            && (resolved == Returned(r) && source.Returned? ==>
                  var runtime := a.build(r, source.value, call);
                  && (runtime.Raised? ==> o.blocker == Some(runtime.code))
                  && (runtime.Returned? && a.bootstrap(r, runtime.value, call).Raised?
                      ==> o.blocker == Some(a.bootstrap(r, runtime.value, call).code)))
            && (resolved.Crashed? || (resolved == Returned(r) && source.Crashed?) ==> o.blocker == Some(ProviderFailed))
  {
  }

  /** The provider has every capability a bisection needs. */
  predicate Equipped(p: Provider, candidate: string) {
    p.capabilities(candidate).Returned? && p.capabilities(candidate).value.Some?
    && forall c | c in {DeterministicValidation, SourceAssertions, ImmutableRevisions, RevisionOrdering, SafetyGate} ::
      c in p.capabilities(candidate).value.value && p.capabilities(candidate).value.value[c]
  }

  predicate HexCommit(s: string) {
    |s| == 40 && forall i | 0 <= i < 40 :: s[i] in "0123456789abcdef"
  }

  /** The provider lists these revisions: at least two, in strictly ascending order, each with a commit named in its own
      identity, from the start asked for to the end. */
  ghost predicate Lists(p: Provider, candidate: string, start: string, end: string, revs: seq<Revision>) {
    && p.orderedRevisions(candidate, start, end) == Returned(Some(revs)) && |revs| > 1
    && (forall i | 0 <= i < |revs| ::
          HexCommit(revs[i].commit) && exists a, b :: revs[i].identity == a + revs[i].commit + b)
    && (forall i, j | 0 <= i < j < |revs| ::
          revs[i].orderKey < revs[j].orderKey && revs[i].identity != revs[j].identity)
    && (start == revs[0].revision || start == revs[0].commit)
    && (end == revs[|revs| - 1].revision || end == revs[|revs| - 1].commit)
  }

  lemma WellFormedExactly(v: Revision)
    ensures WellFormed(v) <==> HexCommit(v.commit) && exists a, b :: v.identity == a + v.commit + b
  {
    forall c: char ensures c in "0123456789abcdef" <==> '0' <= c <= '9' || 'a' <= c <= 'f' {
      HexDigit(c);
    }
    assert IsCommit(v.commit) <==> HexCommit(v.commit) by {
      if IsCommit(v.commit) {
        assert forall i | 0 <= i < 40 :: v.commit[i] in v.commit;
      }
    }
    if WellFormed(v) {
      var i :| 0 <= i <= |v.identity| - |v.commit| && v.identity[i..][..|v.commit|] == v.commit;
      assert v.identity == v.identity[..i] + v.commit + v.identity[i + |v.commit|..];
    }
    if HexCommit(v.commit) && exists a, b :: v.identity == a + v.commit + b {
      var a, b :| v.identity == a + v.commit + b;
      assert v.identity[|a|..][..|v.commit|] == v.commit;
    }
  }

  lemma ListsExactly(p: Provider, candidate: string, start: string, end: string, revs: seq<Revision>)
    requires p.orderedRevisions(candidate, start, end) == Returned(Some(revs))
    ensures Lists(p, candidate, start, end, revs) <==> ValidRevisions(revs, start, end)
  {
    forall i | 0 <= i < |revs| ensures
      WellFormed(revs[i]) <==> HexCommit(revs[i].commit) && exists a, b :: revs[i].identity == a + revs[i].commit + b
    {
      WellFormedExactly(revs[i]);
    }
    assert forall i | 0 <= i < |revs| :: revs[i] in revs;
  }

  /** What happens to a run's list of revisions. */
  lemma RevisionsListed(p: Provider, candidate: string, start: string, end: string)
    ensures var listed, revs := p.orderedRevisions(candidate, start, end), Revisions(p, candidate, start, end);
            && (revs.Broken? ==> listed.Crashed? && revs == Broken(ProviderCrashed))
            && (revs.Stopped? <==> listed.Raised? || listed == Returned(None)
                                   || (listed.Returned? && listed.value.Some?
                                       && !Lists(p, candidate, start, end, listed.value.value)))
            && (revs.Stopped? ==> revs.reason == ImmutableRevisionRequired)
            && (revs.Done? ==> listed == Returned(Some(revs.value)))
  {
    var listed := p.orderedRevisions(candidate, start, end);
    if listed.Returned? && listed.value.Some? {
      ListsExactly(p, candidate, start, end, listed.value.value);
    }
  }

  lemma HexDigit(c: char)
    ensures c in "0123456789abcdef" <==> '0' <= c <= '9' || 'a' <= c <= 'f'
  {
  }

  /** The provider reports `before` of every revision ahead of position `k` and `after` of the others. */
  ghost predicate Changes(p: Provider, candidate: string, revs: seq<Revision>, k: int, before: Status, after: Status) {
    0 < k < |revs| && forall i | 0 <= i < |revs| :: Reports(p, candidate, revs[i], if i < k then before else after)
  }

  lemma ChangesMonotone(p: Provider, candidate: string, revs: seq<Revision>, k: int)
    ensures Changes(p, candidate, revs, k, Unaffected, Affected)
            ==> MonotoneAt(Says(p, candidate), revs, Introduced, k)
    ensures Changes(p, candidate, revs, k, Affected, Unaffected) ==> MonotoneAt(Says(p, candidate), revs, Fixed, k)
  {
    forall i, o, s | 0 <= i < |revs| && Says(p, candidate)(revs[i], o) && Reports(p, candidate, revs[i], s)
                     && s in {Affected, Unaffected}
      ensures Clean(o) && o.status == s
    {
      ReportsSaid(p, candidate, revs[i], s, o);
    }
  }

  /** The boundary found: the first revision with the later status, and its predecessor. */
  predicate Boundary(r: BisectResult, status: Verdict, before: Revision, first: Revision) {
    && r.status == status && r.boundaryRevision == Some(first) && r.upperBound == Some(first)
    && r.lowerBound == Some(before)
  }

  lemma ChangePinned(r: BisectResult, c0: Cache, cache: Cache, said: Oracle, candidate: string, revs: seq<Revision>,
                     window: nat, k: int)
    requires Justified(r, c0, cache, said, candidate, revs, window) && c0 == map[] && MonotoneAt(said, revs, r.mode, k)
    ensures r.status == r.mode.Found() && r.boundaryRevision == Some(revs[k])
    ensures SomeFoundAt(r, cache, candidate, revs, window, true)
  {
  }

  lemma BoundaryFound(r: BisectResult, cache: Cache, candidate: string, revs: seq<Revision>, window: nat, k: int)
    requires SomeFoundAt(r, cache, candidate, revs, window, true) && DistinctIdentities(revs)
    requires 0 < k < |revs| && r.boundaryRevision == Some(revs[k])
    ensures Boundary(r, r.status, revs[k - 1], revs[k])
  {
    var h :| FoundAt(r, cache, candidate, revs, window, h, true);
    assert revs[h].identity == revs[k].identity;
  }

  /** If the provider reports `before` of the revisions it lists up to some point and `after` from there, the answer is
      `status` with that point. */
  ghost predicate FindsChange(r: Outcome<BisectResult>, p: Provider, candidate: string, start: string, end: string,
                              before: Status, after: Status, status: Verdict) {
    var listed := p.orderedRevisions(candidate, start, end);
    listed.Returned? && listed.value.Some? && Lists(p, candidate, start, end, listed.value.value) ==>
      var revs := listed.value.value;
      forall k | Changes(p, candidate, revs, k, before, after) ::
        r.Done? && Boundary(r.value, status, revs[k - 1], revs[k])
  }

  /** If the provider reports another status than `before` of the first revision it lists, or than `after` of the last,
      there is no boundary. */
  ghost predicate RefusesEnds(r: Outcome<BisectResult>, p: Provider, candidate: string, start: string, end: string,
                              before: Status, after: Status) {
    var listed := p.orderedRevisions(candidate, start, end);
    listed.Returned? && listed.value.Some? && Lists(p, candidate, start, end, listed.value.value) ==>
      var first, last := listed.value.value[0], listed.value.value[|listed.value.value| - 1];
      Reported(p, candidate, first) && Reported(p, candidate, last)
      && (Reports(p, candidate, first, after) || Reports(p, candidate, last, before)) ==>
        r.Done? && r.value.status == BoundaryNotFound && r.value.blocker == Some(EndpointStatusMismatch)
  }

  ghost predicate Reported(p: Provider, candidate: string, r: Revision) {
    Reports(p, candidate, r, Affected) || Reports(p, candidate, r, Unaffected)
  }

  lemma ChangeIsFound(r: BisectResult, c0: Cache, cache: Cache, p: Provider, candidate: string, revs: seq<Revision>,
                      window: nat, k: int)
    requires Justified(r, c0, cache, Says(p, candidate), candidate, revs, window) && c0 == map[]
             && DistinctIdentities(revs)
    ensures r.mode == Introduced && Changes(p, candidate, revs, k, Unaffected, Affected)
            ==> Boundary(r, FirstAffectedFound, revs[k - 1], revs[k])
    ensures r.mode == Fixed && Changes(p, candidate, revs, k, Affected, Unaffected)
            ==> Boundary(r, FirstFixedFound, revs[k - 1], revs[k])
  {
    ChangesMonotone(p, candidate, revs, k);
    if MonotoneAt(Says(p, candidate), revs, r.mode, k) {
      ChangePinned(r, c0, cache, Says(p, candidate), candidate, revs, window, k);
      BoundaryFound(r, cache, candidate, revs, window, k);
    }
  }

  lemma EndReported(p: Provider, candidate: string, r: Revision, s: Status, o: Observation)
    requires Says(p, candidate)(r, o) && Reports(p, candidate, r, s) && s in {Affected, Unaffected}
    ensures Clean(o) && o.status == s
  {
    ReportsSaid(p, candidate, r, s, o);
  }

  lemma EndReads(p: Provider, candidate: string, r: Revision, o: Observation)
    requires Says(p, candidate)(r, o) && Reported(p, candidate, r)
    ensures Clean(o)
    ensures Reports(p, candidate, r, Affected) ==> o.status == Affected
    ensures Reports(p, candidate, r, Unaffected) ==> o.status == Unaffected
  {
    if Reports(p, candidate, r, Affected) {
      EndReported(p, candidate, r, Affected, o);
    }
    if Reports(p, candidate, r, Unaffected) {
      EndReported(p, candidate, r, Unaffected, o);
    }
  }

  lemma EndsAreRefused(r: BisectResult, c0: Cache, cache: Cache, p: Provider, candidate: string, revs: seq<Revision>,
                       window: nat)
    requires Justified(r, c0, cache, Says(p, candidate), candidate, revs, window) && c0 == map[] && 2 <= |revs|
    requires Reported(p, candidate, revs[0]) && Reported(p, candidate, revs[|revs| - 1])
    requires var i, t := r.mode.Initial(), r.mode.Terminal();
             Reports(p, candidate, revs[0], t) || Reports(p, candidate, revs[|revs| - 1], i)
    ensures r.status == BoundaryNotFound && r.blocker == Some(EndpointStatusMismatch)
  {
    EndReads(p, candidate, revs[0], At(cache, candidate, revs, 0));
    EndReads(p, candidate, revs[|revs| - 1], At(cache, candidate, revs, |revs| - 1));
  }

  /** What a run in either mode answers, in the provider's terms. */
  ghost predicate Answers(r: Outcome<BisectResult>, p: Provider, candidate: string, modeName: string, start: string,
                          end: string) {
    && (modeName == "introduced" ==>
          && FindsChange(r, p, candidate, start, end, Unaffected, Affected, FirstAffectedFound)
          && RefusesEnds(r, p, candidate, start, end, Unaffected, Affected))
    && (modeName == "fixed" ==>
          && FindsChange(r, p, candidate, start, end, Affected, Unaffected, FirstFixedFound)
          && RefusesEnds(r, p, candidate, start, end, Affected, Unaffected))
  }

  lemma RunAnswers(r: BisectResult, c0: Cache, cache: Cache, p: Provider, candidate: string, modeName: string,
                   start: string, end: string, revs: seq<Revision>, window: nat)
    requires Justified(r, c0, cache, Says(p, candidate), candidate, revs, window) && c0 == map[]
    requires Revisions(p, candidate, start, end) == Done(revs)
    requires Requested(candidate, modeName, start, end) == Some(r.mode)
    ensures Answers(Done(r), p, candidate, modeName, start, end)
  {
    forall k ensures r.mode == Introduced && Changes(p, candidate, revs, k, Unaffected, Affected)
                     ==> Boundary(r, FirstAffectedFound, revs[k - 1], revs[k])
      ensures r.mode == Fixed && Changes(p, candidate, revs, k, Affected, Unaffected)
              ==> Boundary(r, FirstFixedFound, revs[k - 1], revs[k])
    {
      ChangeIsFound(r, c0, cache, p, candidate, revs, window, k);
    }
    var i, t := r.mode.Initial(), r.mode.Terminal();
    if Reported(p, candidate, revs[0]) && Reported(p, candidate, revs[|revs| - 1])
       && (Reports(p, candidate, revs[0], t) || Reports(p, candidate, revs[|revs| - 1], i)) {
      EndsAreRefused(r, c0, cache, p, candidate, revs, window);
    }
  }

  /** Why a request with a name, a start and an end is answered before any revision is tested. */
  ghost predicate StopsEarly(r: Outcome<BisectResult>, p: Provider, candidate: string, start: string, end: string) {
    var asked, listed := p.capabilities(candidate), p.orderedRevisions(candidate, start, end);
    && (asked.Crashed? ==> r == Broken(ProviderCrashed))
    && (asked.Raised? ==> BlockedWith(r, asked.code))
    && (asked.Returned? && !Equipped(p, candidate) ==> BlockedWith(r, PreconditionFailed))
    && (Equipped(p, candidate) ==>
          && (listed.Crashed? ==> r == Broken(ProviderCrashed))
          && (listed.Raised? || listed == Returned(None) ==> BlockedWith(r, ImmutableRevisionRequired))
          && (listed.Returned? && listed.value.Some? && !Lists(p, candidate, start, end, listed.value.value)
              ==> BlockedWith(r, ImmutableRevisionRequired)))
  }

  predicate BlockedWith(r: Outcome<BisectResult>, reason: Reason) {
    && r.Done? && r.value.status == BisectBlocked && r.value.blocker == Some(reason)
    && r.value.boundaryRevision.None? && r.value.lowerBound.None? && r.value.upperBound.None?
  }

  lemma EquippedReady(p: Provider, candidate: string)
    ensures Equipped(p, candidate) <==> Ready(p, candidate)
  {
    if Equipped(p, candidate) {
      var caps := p.capabilities(candidate).value.value;
      assert DeterministicValidation in caps && SourceAssertions in caps && ImmutableRevisions in caps
             && RevisionOrdering in caps && SafetyGate in caps;
    }
  }

  class VersionBisector {
    const provider: Provider
    const window: nat
    var cache: Cache
    /** The cache's keys in insertion order. */
    var order: seq<Key>
    var cacheHits: nat
    /** Provider lifecycles run so far, oldest first; each ends in one cleanup attempt. */
    var lifecycles: seq<(string, Revision)>

    ghost predicate Valid()
      reads this
    {
      && 1 <= window <= 3
      && Elements(order) == cache.Keys
      && Distinct(order)
      // each (candidate, identity) was put through the provider once
      && |lifecycles| == |order|
      && (forall i | 0 <= i < |order| :: order[i] == (lifecycles[i].0, lifecycles[i].1.identity))
    }

    constructor (provider: Provider, window: nat)
      requires 1 <= window <= 3
      ensures Valid()
      ensures this.provider == provider && this.window == window
      ensures cache == map[] && cacheHits == 0 && lifecycles == []
    {
      this.provider, this.window := provider, window;
      cache, order, cacheHits, lifecycles := map[], [], 0, [];
    }

    /** The keyword-only window argument is checked before anything is stored. */
    static method Create(provider: Provider, window: int) returns (b: VersionBisector?)
      ensures b == null <==> !(1 <= window <= 3)
      ensures b != null ==> fresh(b) && b.Valid() && b.cache == map[] && b.window == window && b.provider == provider
    {
      if 1 <= window <= 3 {
        b := new VersionBisector(provider, window);
      } else {
        b := null;
      }
    }

    method Observe(candidate: string, r: Revision) returns (o: Observation)
      requires Valid()
      modifies this`cache, this`order, this`cacheHits, this`lifecycles
      ensures Valid()
      ensures ObservedInto(old(cache), cache, Says(provider, candidate), candidate, r)
      ensures o == cache[(candidate, r.identity)] && Extends(old(cache), cache)
      ensures (candidate, r.identity) in old(cache) ==>
                lifecycles == old(lifecycles) && cacheHits == old(cacheHits) + 1
      ensures (candidate, r.identity) !in old(cache) ==>
                lifecycles == old(lifecycles) + [(candidate, r)] && cacheHits == old(cacheHits)
    {
      var key := (candidate, r.identity);
      if key in cache {
        cacheHits := cacheHits + 1;
        return cache[key];
      }
      o := Observed(provider, candidate, r, |lifecycles|);
      lifecycles := lifecycles + [(candidate, r)];
      assert key !in order by { assert key !in Elements(order); }
      cache := cache[key := o];
      order := order + [key];
    }

    /** One turn of the binary search: tests the middle of the gap and narrows it, or reports the problem. */
    method Halve(ghost start: Cache, candidate: string, revs: seq<Revision>, mode: Mode, low: nat, high: nat)
      returns (newLow: nat, newHigh: nat, blocker: Option<Reason>)
      requires Valid() && DistinctIdentities(revs) && high - low > 1
      requires Narrowed(start, cache, Says(provider, candidate), candidate, revs, mode, low, high, None)
      modifies this`cache, this`order, this`cacheHits, this`lifecycles
      ensures Valid()
      ensures Narrowed(start, cache, Says(provider, candidate), candidate, revs, mode, newLow, newHigh, blocker)
      ensures blocker.None? ==> HalfOf(low, high, newLow, newHigh)
      ensures Extends(old(cache), cache)
      ensures |lifecycles| <= old(|lifecycles|) + 1
    {
      var middle := Middle(low, high);
      var observed := Observe(candidate, revs[middle]);
      NarrowedStep(start, old(cache), cache, Says(provider, candidate), candidate, revs, mode, low, high, middle);
      blocker := Problem(observed);
      if blocker.Some? {
        newLow, newHigh := low, high;
      } else if observed.status == mode.Terminal() {
        newLow, newHigh := low, middle;
      } else {
        // a clean observation has either the initial or the terminal status
        newLow, newHigh := middle, high;
      }
    }

    /** The binary search. `blocker` is the problem that stopped it early, if any. */
    method Search(candidate: string, revs: seq<Revision>, mode: Mode)
      returns (low: nat, high: nat, blocker: Option<Reason>)
      requires Valid() && 2 <= |revs| && DistinctIdentities(revs)
      requires Shows(cache, candidate, revs, 0, mode.Initial())
               && Shows(cache, candidate, revs, |revs| - 1, mode.Terminal())
      modifies this`cache, this`order, this`cacheHits, this`lifecycles
      ensures Valid()
      ensures Narrowed(old(cache), cache, Says(provider, candidate), candidate, revs, mode, low, high, blocker)
      ensures Extends(old(cache), cache)
      ensures blocker.None? ==> high == low + 1
      ensures |lifecycles| <= old(|lifecycles|) + Log2Ceil(|revs| - 1)
    {
      ghost var start := cache;
      low, high, blocker := 0, |revs| - 1, None;
      NarrowedStart(cache, Says(provider, candidate), candidate, revs, mode);
      while high - low > 1
        invariant Valid() && low < high && blocker.None?
        invariant Narrowed(start, cache, Says(provider, candidate), candidate, revs, mode, low, high, None)
        invariant Extends(start, cache)
        invariant |lifecycles| + Log2Ceil(high - low) <= old(|lifecycles|) + Log2Ceil(|revs| - 1)
        decreases high - low
      {
        ghost var gap := high - low;
        ghost var before := cache;
        HalvesCost(low, high);
        low, high, blocker := Halve(start, candidate, revs, mode, low, high);
        ExtendsOn(start, before, cache);
        if blocker.Some? {
          return;
        }
        assert high - low < gap;
      }
    }

    /** Both ends of the range; `stop` is the verdict when they do not bracket a boundary. */
    method Endpoints(candidate: string, revs: seq<Revision>, mode: Mode) returns (stop: Option<(Verdict, Reason)>)
      requires Valid() && 2 <= |revs| && DistinctIdentities(revs)
      modifies this`cache, this`order, this`cacheHits, this`lifecycles
      ensures Valid()
      ensures EndpointsChecked(old(cache), cache, Says(provider, candidate), candidate, revs, mode, stop)
      ensures |lifecycles| <= old(|lifecycles|) + 2
    {
      ghost var c0 := cache;
      var left := Observe(candidate, revs[0]);
      ghost var c1 := cache;
      var right := Observe(candidate, revs[|revs| - 1]);
      EndpointsObserved(c0, c1, cache, Says(provider, candidate), candidate, revs, mode);
      var problem := if Problem(left).Some? then Problem(left) else Problem(right);
      stop := if problem.Some? then Some((BisectBlocked, problem.value))
              else if left.status != mode.Initial() || right.status != mode.Terminal() then
                Some((BoundaryNotFound, EndpointStatusMismatch))
              else None;
      EndpointsDecided(c0, cache, Says(provider, candidate), candidate, revs, mode, left, right, stop);
    }

    /** Search, then the neighbour window. */
    method Decide(candidate: string, revs: seq<Revision>, mode: Mode)
      returns (low: nat, high: nat, stop: Option<(Verdict, Reason)>)
      requires Valid() && 2 <= |revs| && DistinctIdentities(revs)
      requires Shows(cache, candidate, revs, 0, mode.Initial())
               && Shows(cache, candidate, revs, |revs| - 1, mode.Terminal())
      modifies this`cache, this`order, this`cacheHits, this`lifecycles
      ensures Valid()
      ensures low < high < |revs|
      ensures Confirmed(old(cache), cache, Says(provider, candidate), candidate, revs, mode, low, high, stop)
      ensures Extends(old(cache), cache)
      ensures stop.None? ==> high == low + 1
      ensures stop.None? ==> WindowShows(cache, candidate, revs, mode, high, Max(0, high - window),
                                         Min(|revs|, high + window + 1))
      ensures |lifecycles| <= old(|lifecycles|) + Log2Ceil(|revs| - 1) + 2 * window - 1
    {
      var blocker;
      ghost var start := cache;
      low, high, blocker := Search(candidate, revs, mode);
      ghost var found := cache;
      if blocker.Some? {
        stop := Some((BisectBlocked, blocker.value));
      } else {
        stop := CheckWindow(start, candidate, revs, mode, low, high);
        ExtendsOn(start, found, cache);
      }
    }

    /** The run proper, once the revisions are known. */
    method RunOn(candidate: string, mode: Mode, revs: seq<Revision>) returns (r: BisectResult)
      requires Valid() && 2 <= |revs| && DistinctIdentities(revs)
      modifies this`cache, this`order, this`cacheHits, this`lifecycles
      ensures Valid()
      ensures |r.observations| == |cache| && SortedBy(OrderLeq(), r.observations)
      ensures |lifecycles| <= old(|lifecycles|) + 1 + Log2Ceil(|revs| - 1) + 2 * window
      ensures r.mode == mode
      ensures Justified(r, old(cache), cache, Says(provider, candidate), candidate, revs, window)
    {
      ghost var c0, says := cache, Says(provider, candidate);
      var stop := Endpoints(candidate, revs, mode);
      if stop.Some? {
        var (verdict, reason) := stop.value;
        r := MakeResult(mode, verdict, Some(revs[0]), Some(revs[|revs| - 1]), None,
                        if verdict.BoundaryNotFound? then Some(true) else None, Some(reason));
        JustifyEndpoints(c0, cache, says, candidate, revs, window, stop.value, r);
        return;
      }
      r := Conclude(c0, candidate, mode, revs);
    }

    /** The rest of the run, once both ends are as they should be. */
    method Conclude(ghost c0: Cache, candidate: string, mode: Mode, revs: seq<Revision>) returns (r: BisectResult)
      requires Valid() && 2 <= |revs| && DistinctIdentities(revs)
      requires EndpointsChecked(c0, cache, Says(provider, candidate), candidate, revs, mode, None)
      modifies this`cache, this`order, this`cacheHits, this`lifecycles
      ensures Valid()
      ensures |r.observations| == |cache| && SortedBy(OrderLeq(), r.observations)
      ensures |lifecycles| <= old(|lifecycles|) + Log2Ceil(|revs| - 1) + 2 * window - 1
      ensures r.mode == mode
      ensures Justified(r, c0, cache, Says(provider, candidate), candidate, revs, window)
    {
      ghost var start, says := cache, Says(provider, candidate);
      var low, high, late := Decide(candidate, revs, mode);
      if late.Some? {
        var (verdict, reason) := late.value;
        r := MakeResult(mode, verdict, Some(revs[low]), Some(revs[high]), None,
                        if verdict.NonMonotonic? then Some(false) else None, Some(reason));
        JustifyStop(c0, start, cache, says, candidate, revs, window, low, high, late.value, r);
        return;
      }
      r := ReportFound(c0, start, candidate, mode, revs, low, high);
    }

    method ReportFound(ghost c0: Cache, ghost start: Cache, candidate: string, mode: Mode, revs: seq<Revision>,
                       ghost low: nat, high: nat)
      returns (r: BisectResult)
      requires Valid() && low < high < |revs| && high == low + 1
      requires EndpointsChecked(c0, start, Says(provider, candidate), candidate, revs, mode, None)
      requires Narrowed(start, cache, Says(provider, candidate), candidate, revs, mode, low, high, None)
      requires Extends(start, cache)
      requires WindowShows(cache, candidate, revs, mode, high, Max(0, high - window), Min(|revs|, high + window + 1))
      ensures |r.observations| == |cache| && SortedBy(OrderLeq(), r.observations) && r.mode == mode
      ensures Justified(r, c0, cache, Says(provider, candidate), candidate, revs, window)
    {
      r := MakeResult(mode, mode.Found(), Some(revs[high - 1]), Some(revs[high]), Some(revs[high]), Some(true), None);
      JustifyFound(c0, start, cache, Says(provider, candidate), candidate, revs, mode, window, low, high, r);
    }

    method MakeResult(mode: Mode, status: Verdict, lower: Option<Revision>, upper: Option<Revision>,
                      boundary: Option<Revision>, monotonic: Option<bool>, blocker: Option<Reason>)
      returns (r: BisectResult)
      requires Valid()
      ensures r == BisectResult(mode, lower, upper, boundary, r.observations, monotonic, status, blocker, cacheHits)
      ensures |r.observations| == |cache|
      ensures SortedBy(OrderLeq(), r.observations)
      ensures forall o :: o in r.observations <==> o in cache.Values
    {
      assert forall k | k in order :: k in cache by { assert forall k | k in order :: k in Elements(order); }
      var observations := Sort(OrderLeq(), Listing(cache, order));
      ListingCovers(cache, order);
      SortedListing(cache, order);
      r := BisectResult(mode, lower, upper, boundary, observations, monotonic, status, blocker, cacheHits);
    }

    method TestNeighbour(ghost start: Cache, candidate: string, revs: seq<Revision>, mode: Mode, ghost low: int,
                         high: int, ghost first: int, index: nat)
      returns (stop: Option<(Verdict, Reason)>)
      requires Valid() && DistinctIdentities(revs) && high == low + 1 && 0 <= first <= index < |revs|
      requires Narrowed(start, cache, Says(provider, candidate), candidate, revs, mode, low, high, None)
      requires WindowShows(cache, candidate, revs, mode, high, first, index)
      modifies this`cache, this`order, this`cacheHits, this`lifecycles
      ensures Valid()
      ensures Confirmed(start, cache, Says(provider, candidate), candidate, revs, mode, low, high, stop)
      ensures Extends(old(cache), cache)
      ensures stop.None? ==> WindowShows(cache, candidate, revs, mode, high, first, index + 1)
      ensures |lifecycles| <= old(|lifecycles|) + if index in {low, high} then 0 else 1
    {
      var observed := Observe(candidate, revs[index]);
      WindowStep(start, old(cache), cache, Says(provider, candidate), candidate, revs, mode, low, high, first, index);
      stop := WindowVerdict(observed, mode.Expected(index, high));
    }

    /** The neighbour window: every revision within `window` positions of `high` is tested again.
        `stop` is the verdict that ends the run early, with its reason. */
    method CheckWindow(ghost start: Cache, candidate: string, revs: seq<Revision>, mode: Mode, low: nat, high: nat)
      returns (stop: Option<(Verdict, Reason)>)
      requires Valid() && DistinctIdentities(revs) && high == low + 1
      requires Narrowed(start, cache, Says(provider, candidate), candidate, revs, mode, low, high, None)
      modifies this`cache, this`order, this`cacheHits, this`lifecycles
      ensures Valid()
      ensures Confirmed(start, cache, Says(provider, candidate), candidate, revs, mode, low, high, stop)
      ensures Extends(old(cache), cache)
      ensures stop.None? ==> WindowShows(cache, candidate, revs, mode, high, Max(0, high - window),
                                         Min(|revs|, high + window + 1))
      ensures |lifecycles| <= old(|lifecycles|) + 2 * window - 1
    {
      var first, last := Max(0, high - window), Min(|revs|, high + window + 1);
      stop := None;
      for index := first to last
        invariant Valid() && stop.None?
        invariant Narrowed(start, cache, Says(provider, candidate), candidate, revs, mode, low, high, None)
        invariant WindowShows(cache, candidate, revs, mode, high, first, index)
        invariant Extends(old(cache), cache)
        invariant |lifecycles| <= old(|lifecycles|) + index - first
                                  - (if low < index then 1 else 0) - (if high < index then 1 else 0)
      {
        ghost var before := cache;
        stop := TestNeighbour(start, candidate, revs, mode, low, high, first, index);
        ExtendsOn(old(cache), before, cache);
        if stop.Some? {
          return;
        }
      }
    }

    method Run(candidate: string, modeName: string, start: string, end: string) returns (r: Outcome<BisectResult>)
      requires Valid()
      modifies this`cache, this`order, this`cacheHits, this`lifecycles
      ensures Valid()
      ensures !r.Stopped?
      ensures r == Broken(InvalidRequest) <==>
              modeName !in {"introduced", "fixed"} || candidate == "" || start == "" || end == ""
      ensures r.Done? ==> |r.value.observations| == |cache| && SortedBy(OrderLeq(), r.value.observations)
      ensures r.Done? ==> Some(r.value.mode) == Requested(candidate, modeName, start, end)
      // every verdict reached over revisions is justified; otherwise the run was blocked before testing any
      ensures r.Done? && Revisions(provider, candidate, start, end).Done? && Ready(provider, candidate) ==>
                Justified(r.value, old(cache), cache, Says(provider, candidate), candidate,
                          Revisions(provider, candidate, start, end).value, window)
      ensures r.Done? && !(Revisions(provider, candidate, start, end).Done? && Ready(provider, candidate)) ==>
                r.value.status == BisectBlocked && r.value.blocker.Some? && cache == old(cache)
      // in the provider's own terms: why a run stops early, and what it finds on a fresh bisector
      ensures !r.Broken? || r == Broken(ProviderCrashed) ==> StopsEarly(r, provider, candidate, start, end)
      ensures r != Broken(InvalidRequest) && Equipped(provider, candidate) && old(cache) == map[] ==>
                Answers(r, provider, candidate, modeName, start, end)
      // cost: endpoints, halvings and the window's untested positions
      ensures |lifecycles| <= old(|lifecycles|) + Cost(provider, candidate, start, end, window)
    {
      var requested := Requested(candidate, modeName, start, end);
      if requested.None? {
        return Broken(InvalidRequest);
      }
      EquippedReady(provider, candidate);
      var mode := requested.value;
      var capabilities := provider.capabilities(candidate);
      if capabilities.Crashed? {
        return Broken(ProviderCrashed);
      }
      if !Ready(provider, candidate) {
        var reason := if capabilities.Raised? then capabilities.code else PreconditionFailed;
        var stopped := MakeResult(mode, BisectBlocked, None, None, None, None, Some(reason));
        return Done(stopped);
      }
      var revisions := Revisions(provider, candidate, start, end);
      RevisionsListed(provider, candidate, start, end);
      if revisions.Broken? {
        return Broken(ProviderCrashed);
      }
      if revisions.Stopped? {
        var stopped := MakeResult(mode, BisectBlocked, None, None, None, None, Some(revisions.reason));
        return Done(stopped);
      }
      ghost var c0 := cache;
      var found := RunOn(candidate, mode, revisions.value);
      r := Done(found);
      if c0 == map[] {
        RunAnswers(found, c0, cache, provider, candidate, modeName, start, end, revisions.value, window);
      }
    }
  }
}
