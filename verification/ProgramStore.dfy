/** The approval lifecycle of program policies (program_store.py). A file write is one step; the source file may be
    edited from outside at any time, also between the two phases of an approval. */
module ProgramStore {
  import opened Wrappers
  import Policies = ProgramPolicy

  type Policy = Policies.Policy

  /** Reading and printing, left abstract: validation of a policy tree, reading a file, canonical JSON, SHA-256, the
      syntax of program ids, and the size of the approval file around a canonical profile. */
  datatype Format = Format(
    validate: Policies.RawTree -> Option<Policy>,
    parse: string -> Option<Policy>,
    canonicalJson: Policy -> string,
    sha: string -> nat,
    identOk: string -> bool,
    approvalSize: string -> nat)

  const POLICY_BYTES := 65536
  const FILE_BYTES := 3 * POLICY_BYTES

  /** Hashes collide only on equal text, and different policies print differently. */
  ghost predicate Lawful(f: Format) {
    && (forall a, b :: f.sha(a) == f.sha(b) ==> a == b)
    && (forall p, q :: f.canonicalJson(p) == f.canonicalJson(q) ==> p == q)
  }

  datatype Approval = Approval(revoked: bool, canonical: string, sha: nat, sourceSha: nat, id: nat)

  datatype Reference = Reference(ident: string, id: nat, sha: nat)

  datatype Store = Store(sources: map<string, string>, approvals: map<string, Approval>, active: Option<Reference>)

  /** What the reviewer was shown: the source bytes read in the first phase of an approval. */
  datatype Review = Review(ident: string, raw: string)

  datatype StoreError = InvalidIdent | InvalidPolicy | TooLarge | Exists | Missing | NotApproved | Revoked
                      | InvalidApproval | Changed | NotActive | ApprovalChanged | DirectoryMismatch | EmptyScope

  datatype Answer<+T> = Fine(value: T) | Rejected(error: StoreError)

  const EMPTY := Store(map[], map[], None)

  // ----- Reading the store -----

  function Source(s: Store, ident: string): Answer<string> {
    if ident !in s.sources then Rejected(Missing)
    else if |s.sources[ident]| > FILE_BYTES then Rejected(TooLarge)
    else Fine(s.sources[ident])
  }

  /** The canonical text of the policy in a file. */
  function CanonicalText(f: Format, raw: string): Option<string> {
    if f.parse(raw).Some? then Some(f.canonicalJson(f.parse(raw).value)) else None
  }

  function ReferenceOf(ident: string, a: Approval): Reference {
    Reference(ident, a.id, a.sha)
  }

  /** The profile an approval speaks for, unless its own text does not read back as itself. */
  function ApprovedProfile(f: Format, ident: string, a: Approval): Answer<Policy> {
    if a.revoked then Rejected(Revoked)
    else if f.sha(a.canonical) != a.sha then Rejected(InvalidApproval)
    else if f.parse(a.canonical).None? then Rejected(InvalidPolicy)
    else if f.parse(a.canonical).value.programId != ident || CanonicalText(f, a.canonical) != Some(a.canonical) then
      Rejected(InvalidApproval)
    else Fine(f.parse(a.canonical).value)
  }

  /** Whether the source still is what was approved. */
  function SourceError(f: Format, s: Store, ident: string, a: Approval): Option<StoreError> {
    if Source(s, ident).Rejected? then Some(Source(s, ident).error)
    else if f.sha(s.sources[ident]) != a.sourceSha then Some(Changed)
    else if f.parse(s.sources[ident]).None? then Some(InvalidPolicy)
    else if CanonicalText(f, s.sources[ident]) != Some(a.canonical) then Some(Changed)
    else None
  }

  /** `approved`. */
  function Approved(f: Format, s: Store, ident: string, requireActive: bool): Answer<Policy> {
    if !f.identOk(ident) then Rejected(InvalidIdent)
    else if ident !in s.approvals then Rejected(NotApproved)
    else
      var a := s.approvals[ident];
      var profile := ApprovedProfile(f, ident, a);
      if profile.Rejected? then profile
      else if SourceError(f, s, ident, a).Some? then Rejected(SourceError(f, s, ident, a).value)
      else if requireActive && s.active != Some(ReferenceOf(ident, a)) then Rejected(NotActive)
      else profile
  }

  /** `bound`. */
  function Bound(f: Format, s: Store, ref: Reference): Answer<Policy> {
    var profile := Approved(f, s, ref.ident, true);
    if profile.Rejected? then profile
    else if ref.id != s.approvals[ref.ident].id || ref.sha != s.approvals[ref.ident].sha then Rejected(ApprovalChanged)
    else profile
  }

  // ----- Changing the store -----

  datatype Event =
    | Create(tree: Policies.RawTree)
    | Edit(target: string, content: Option<string>)
    | Approve(review: Review, key: nat)
    | Use(ident: string)
    | Revoke(ident: string)

  /** The first phase of an approval. */
  function Reviewed(f: Format, s: Store, ident: string): Answer<Review> {
    if !f.identOk(ident) then Rejected(InvalidIdent)
    else if Source(s, ident).Rejected? then Rejected(Source(s, ident).error)
    else
      var raw := s.sources[ident];
      if f.parse(raw).None? then Rejected(InvalidPolicy)
      else if f.parse(raw).value.programId != ident then Rejected(DirectoryMismatch)
      else if f.parse(raw).value.inScope == [] then Rejected(EmptyScope)
      else Fine(Review(ident, raw))
  }

  /** What the first phase has checked about a review. */
  predicate WellReviewed(f: Format, v: Review) {
    && f.identOk(v.ident) && f.parse(v.raw).Some?
    && f.parse(v.raw).value.programId == v.ident && f.parse(v.raw).value.inScope != []
    && |v.raw| <= FILE_BYTES
  }

  lemma ReviewsAreWell(f: Format, s: Store, ident: string)
    ensures Reviewed(f, s, ident).Fine? <==> ident in s.sources && WellReviewed(f, Review(ident, s.sources[ident]))
    ensures Reviewed(f, s, ident).Fine? ==> Reviewed(f, s, ident).value == Review(ident, s.sources[ident])
  {
  }

  function Canonical(f: Format, v: Review): string
    requires WellReviewed(f, v)
  {
    f.canonicalJson(f.parse(v.raw).value)
  }

  function ApprovalOf(f: Format, v: Review, key: nat, revoked: bool): Approval
    requires WellReviewed(f, v)
  {
    Approval(revoked, Canonical(f, v), f.sha(Canonical(f, v)), f.sha(v.raw), key)
  }

  function CreateStep(f: Format, s: Store, tree: Policies.RawTree): Answer<Store> {
    if f.validate(tree).None? then Rejected(InvalidPolicy)
    else
      var p := f.validate(tree).value;
      if |f.canonicalJson(p)| + 1 > POLICY_BYTES then Rejected(TooLarge)
      else if p.programId in s.sources then Rejected(Exists)
      else Fine(s.(sources := s.sources[p.programId := f.canonicalJson(p) + "\n"]))
  }

  /** The second phase of an approval. */
  function ApproveStep(f: Format, s: Store, v: Review, key: nat): Answer<Store>
    requires WellReviewed(f, v)
  {
    if Source(s, v.ident).Rejected? then Rejected(Source(s, v.ident).error)
    else if s.sources[v.ident] != v.raw then Rejected(Changed)
    else if f.approvalSize(Canonical(f, v)) > FILE_BYTES then Rejected(TooLarge)
    else Fine(s.(approvals := s.approvals[v.ident := ApprovalOf(f, v, key, false)]))
  }

  function UseStep(f: Format, s: Store, ident: string): Answer<Store> {
    var profile := Approved(f, s, ident, false);
    if profile.Rejected? then Rejected(profile.error)
    else Fine(s.(active := Some(ReferenceOf(ident, s.approvals[ident]))))
  }

  function RevokeStep(f: Format, s: Store, ident: string): Answer<Store> {
    if !f.identOk(ident) then Rejected(InvalidIdent)
    else if ident !in s.approvals then Rejected(NotApproved)
    else Fine(s.(approvals := s.approvals[ident := s.approvals[ident].(revoked := true)]))
  }

  /** An event that can happen: the second phase of an approval follows a first. */
  predicate Legal(f: Format, e: Event) {
    e.Approve? ==> WellReviewed(f, e.review)
  }

  function Step(f: Format, s: Store, e: Event): Answer<Store>
    requires Legal(f, e)
  {
    match e
    case Create(tree) => CreateStep(f, s, tree)
    case Edit(target, content) =>
      Fine(s.(sources := if content.Some? then s.sources[target := content.value] else s.sources - {target}))
    case Approve(v, key) => ApproveStep(f, s, v, key)
    case Use(ident) => UseStep(f, s, ident)
    case Revoke(ident) => RevokeStep(f, s, ident)
  }

  // ----- Whole runs -----

  predicate Run(f: Format, events: seq<Event>) {
    forall i | 0 <= i < |events| :: Legal(f, events[i])
  }

  function After(f: Format, events: seq<Event>): Store
    requires Run(f, events)
  {
    if events == [] then EMPTY
    else
      var s := After(f, events[..|events| - 1]);
      var next := Step(f, s, events[|events| - 1]);
      if next.Fine? then next.value else s
  }

  /** Event `i` was carried out. */
  predicate Took(f: Format, events: seq<Event>, i: nat)
    requires Run(f, events) && i < |events|
  {
    Step(f, After(f, events[..i]), events[i]).Fine?
  }

  /** An approval or a revocation for `ident`. */
  predicate Decides(e: Event, ident: string) {
    (e.Approve? && e.review.ident == ident) || (e.Revoke? && e.ident == ident)
  }

  predicate DecidedAt(f: Format, events: seq<Event>, ident: string, i: nat)
    requires Run(f, events)
  {
    i < |events| && Decides(events[i], ident) && Took(f, events, i)
  }

  /** Event `i` is the last approval or revocation carried out for `ident`. */
  ghost predicate LastDecision(f: Format, events: seq<Event>, ident: string, i: nat)
    requires Run(f, events)
  {
    DecidedAt(f, events, ident, i) && forall j | i < j < |events| :: !DecidedAt(f, events, ident, j)
  }

  /** The approval record of `ident` is what its last decision left. */
  ghost predicate Recorded(f: Format, events: seq<Event>, ident: string)
    requires Run(f, events)
  {
    var s := After(f, events);
    if ident !in s.approvals then forall i | 0 <= i < |events| :: !DecidedAt(f, events, ident, i)
    else
      exists i | 0 <= i < |events| :: LastDecision(f, events, ident, i)
                                      && (s.approvals[ident].revoked <==> events[i].Revoke?)
                                      && (events[i].Approve? ==>
                                            s.approvals[ident] == ApprovalOf(f, events[i].review, events[i].key, false))
  }

  lemma DecidedPrefix(f: Format, events: seq<Event>, ident: string, i: nat)
    requires Run(f, events) && i < |events| - 1
    ensures DecidedAt(f, events[..|events| - 1], ident, i) == DecidedAt(f, events, ident, i)
  {
    assert events[..|events| - 1][..i] == events[..i];
  }

  lemma LastStays(f: Format, events: seq<Event>, ident: string, i: nat)
    requires Run(f, events) && events != [] && LastDecision(f, events[..|events| - 1], ident, i)
    requires !DecidedAt(f, events, ident, |events| - 1)
    ensures LastDecision(f, events, ident, i)
  {
    DecidedPrefix(f, events, ident, i);
    forall j | i < j < |events| ensures !DecidedAt(f, events, ident, j) {
      if j < |events| - 1 {
        DecidedPrefix(f, events, ident, j);
      }
    }
  }

  lemma NeverStays(f: Format, events: seq<Event>, front: seq<Event>, ident: string)
    requires Run(f, events) && events != [] && front == events[..|events| - 1]
             && !DecidedAt(f, events, ident, |events| - 1)
    requires forall i | 0 <= i < |front| :: !DecidedAt(f, front, ident, i)
    ensures forall i | 0 <= i < |events| :: !DecidedAt(f, events, ident, i)
  {
    forall i | 0 <= i < |front| ensures !DecidedAt(f, events, ident, i) {
      DecidedPrefix(f, events, ident, i);
    }
  }

  lemma StepRecord(f: Format, s: Store, e: Event, ident: string)
    requires Legal(f, e) && Step(f, s, e).Fine?
    ensures var t := Step(f, s, e).value;
            if Decides(e, ident)
            then ident in t.approvals && (t.approvals[ident].revoked <==> e.Revoke?)
                 && (e.Approve? ==> t.approvals[ident] == ApprovalOf(f, e.review, e.key, false))
            else (ident in t.approvals <==> ident in s.approvals)
                 && (ident in s.approvals ==> t.approvals[ident] == s.approvals[ident])
  {
  }

  lemma {:induction false} RunRecords(f: Format, events: seq<Event>, ident: string)
    requires Run(f, events)
    ensures Recorded(f, events, ident)
  {
    if events != [] {
      var n := |events| - 1;
      var front := events[..n];
      RunRecords(f, front, ident);
      var s, e := After(f, front), events[n];
      if Step(f, s, e).Fine? {
        StepRecord(f, s, e, ident);
      }
      if DecidedAt(f, events, ident, n) {
        assert LastDecision(f, events, ident, n);
      } else if ident in s.approvals {
        var i :| 0 <= i < n && LastDecision(f, front, ident, i)
                 && (s.approvals[ident].revoked <==> front[i].Revoke?)
                 && (front[i].Approve? ==> s.approvals[ident] == ApprovalOf(f, front[i].review, front[i].key, false));
        LastStays(f, events, ident, i);
        assert front[i] == events[i];
      } else {
        NeverStays(f, events, front, ident);
      }
    }
  }

  /** The last decision for `ref`'s program is the approval that issued `ref`. */
  ghost predicate Stands(f: Format, events: seq<Event>, ref: Reference, v: Review)
    requires Run(f, events)
  {
    && WellReviewed(f, v) && v.ident == ref.ident && ref.sha == f.sha(Canonical(f, v))
    && exists i | 0 <= i < |events| :: LastDecision(f, events, ref.ident, i) && events[i] == Event.Approve(v, ref.id)
  }

  /** What a reference needs in order to bind `p`, if `v` was reviewed. */
  ghost predicate Holds(f: Format, s: Store, ref: Reference, v: Review, p: Policy) {
    && ref.ident in s.sources && s.sources[ref.ident] == v.raw && s.active == Some(ref)
    && f.parse(v.raw) == Some(p) && f.parse(f.canonicalJson(p)) == Some(p)
  }

  /** A reference binds a profile exactly when the last approval or revocation for its program is the approval with its
      id, the source bytes are those the reviewer was shown, it is the active reference, and the approved profile reads
      back from its canonical text unchanged. */
  lemma BindsExactly(f: Format, events: seq<Event>, ref: Reference, p: Policy)
    requires Lawful(f) && Run(f, events)
    ensures Bound(f, After(f, events), ref) == Fine(p)
            <==> exists v: Review :: Stands(f, events, ref, v) && Holds(f, After(f, events), ref, v, p)
  {
    if Bound(f, After(f, events), ref) == Fine(p) {
      BoundStands(f, events, ref, p);
    }
    if v: Review :| Stands(f, events, ref, v) && Holds(f, After(f, events), ref, v, p) {
      var i :| 0 <= i < |events| && LastDecision(f, events, ref.ident, i) && events[i] == Event.Approve(v, ref.id);
      OneLast(f, events, ref.ident, i);
    }
  }

  lemma BoundStands(f: Format, events: seq<Event>, ref: Reference, p: Policy)
    requires Lawful(f) && Run(f, events) && Bound(f, After(f, events), ref) == Fine(p)
    ensures exists v: Review :: Stands(f, events, ref, v) && Holds(f, After(f, events), ref, v, p)
  {
    var s, ident := After(f, events), ref.ident;
    RunRecords(f, events, ident);
    var i :| 0 <= i < |events| && LastDecision(f, events, ident, i)
             && (s.approvals[ident].revoked <==> events[i].Revoke?)
             && (events[i].Approve? ==> s.approvals[ident] == ApprovalOf(f, events[i].review, events[i].key, false));
    var v := events[i].review;
    BoundRecord(f, s, ref, v, p);
    assert Stands(f, events, ref, v);
  }

  /** A program has at most one last decision, so its record is that decision's. */
  lemma OneLast(f: Format, events: seq<Event>, ident: string, i: nat)
    requires Run(f, events) && LastDecision(f, events, ident, i)
    ensures ident in After(f, events).approvals
    ensures events[i].Approve?
            ==> After(f, events).approvals[ident] == ApprovalOf(f, events[i].review, events[i].key, false)
  {
    RunRecords(f, events, ident);
    var s := After(f, events);
    var j :| 0 <= j < |events| && LastDecision(f, events, ident, j)
             && (s.approvals[ident].revoked <==> events[j].Revoke?)
             && (events[j].Approve? ==> s.approvals[ident] == ApprovalOf(f, events[j].review, events[j].key, false));
    assert i == j;
  }

  lemma BoundRecord(f: Format, s: Store, ref: Reference, v: Review, p: Policy)
    requires Lawful(f) && WellReviewed(f, v) && v.ident == ref.ident
    requires ref.ident in s.approvals && s.approvals[ref.ident].canonical == Canonical(f, v)
    requires s.approvals[ref.ident].sourceSha == f.sha(v.raw)
    requires Bound(f, s, ref) == Fine(p)
    ensures Holds(f, s, ref, v, p)
  {
    assert f.canonicalJson(p) == Canonical(f, v);
  }

  /** Keys are never issued twice. */
  predicate FreshKeys(events: seq<Event>) {
    forall i, j | 0 <= i < j < |events| :: events[i].Approve? && events[j].Approve? ==> events[i].key != events[j].key
  }

  /** A reference that stands stands on the approval it was issued by, and nothing is decided after that. */
  lemma StandsLast(f: Format, events: seq<Event>, ref: Reference, v: Review, i: nat, j: nat)
    requires Run(f, events) && FreshKeys(events) && Stands(f, events, ref, v)
    requires i < j < |events| && events[i].Approve? && events[i].key == ref.id
    ensures events[i].review.ident == ref.ident && !DecidedAt(f, events, ref.ident, j)
  {
    var k :| 0 <= k < |events| && LastDecision(f, events, ref.ident, k) && events[k] == Event.Approve(v, ref.id);
    assert k == i;
  }

  /** A reference issued by the approval at `i` never binds again once another approval or a revocation for the same
      program has been carried out, whatever happens afterwards. */
  lemma NeverAgain(f: Format, events: seq<Event>, i: nat, j: nat, ref: Reference)
    requires Lawful(f) && Run(f, events) && FreshKeys(events)
    requires i < j < |events| && events[i].Approve? && events[i].key == ref.id
    requires Decides(events[j], events[i].review.ident) && Took(f, events, j)
    ensures Bound(f, After(f, events), ref).Rejected?
  {
    if Bound(f, After(f, events), ref).Fine? {
      var p := Bound(f, After(f, events), ref).value;
      BindsExactly(f, events, ref, p);
      var v: Review :| Stands(f, events, ref, v);
      StandsLast(f, events, ref, v, i, j);
      assert false;
    }
  }

  // ----- Approving unmodified source -----

  /** Once approved, an unmodified source is accepted by `approved` exactly when its profile reads back unchanged from
      its canonical text. */
  lemma ApprovedAgain(f: Format, s: Store, v: Review, key: nat)
    requires Lawful(f) && WellReviewed(f, v) && ApproveStep(f, s, v, key).Fine?
    ensures var p := f.parse(v.raw).value;
            Approved(f, ApproveStep(f, s, v, key).value, v.ident, false) == Fine(p)
            <==> f.parse(f.canonicalJson(p)) == Some(p)
    ensures Approved(f, ApproveStep(f, s, v, key).value, v.ident, false).Fine? ==>
              Approved(f, ApproveStep(f, s, v, key).value, v.ident, false) == Fine(f.parse(v.raw).value)
  {
    var p, t := f.parse(v.raw).value, ApproveStep(f, s, v, key).value;
    assert t.approvals[v.ident] == ApprovalOf(f, v, key, false);
    if Approved(f, t, v.ident, false).Fine? {
      assert f.canonicalJson(f.parse(f.canonicalJson(p)).value) == f.canonicalJson(p);
    }
  }

  function Kept(c: Policies.Checked<Policy>): Option<Policy> {
    if c.Good? then Some(c.value) else None
  }

  predicate ValidatesUnder(f: Format, x: Policies.Syntax, t: Policies.RawTree) {
    f.validate(t) == Kept(Policies.Validate(x, Policies.Flat(t)))
  }

  /** `parse_policy`: a file of at most 64 KiB, whose tree has at most 10,000 nodes. */
  predicate ParsesAsTree(f: Format, tree: string -> Option<Policies.RawTree>, raw: string) {
    f.parse(raw) == if |raw| <= POLICY_BYTES && tree(raw).Some? && Policies.Nodes(tree(raw).value) <= Policies.MAX_NODES
                    then f.validate(tree(raw).value) else None
  }

  predicate PrintsAsTree(f: Format, tree: string -> Option<Policies.RawTree>, p: Policy) {
    tree(f.canonicalJson(p)) == tree(f.canonicalJson(p) + "\n") == Some(Policies.WrittenTree(p))
  }

  /** `f` reads files as trees and validates them under `x`; canonical JSON, with or without a final line feed, reads as
      the tree it was printed from. */
  ghost predicate ReadsTrees(f: Format, x: Policies.Syntax, tree: string -> Option<Policies.RawTree>) {
    && Policies.Lawful(x)
    && (forall t :: ValidatesUnder(f, x, t))
    && (forall raw :: ParsesAsTree(f, tree, raw))
    && (forall p :: PrintsAsTree(f, tree, p))
  }

  /** The normal form of a policy is small enough to be parsed: its filled-in tree, and its text. */
  predicate FewNodes(p: Policy) {
    Policies.Nodes(Policies.WrittenTree(p)) <= Policies.MAX_NODES
  }

  predicate Parseable(f: Format, p: Policy) {
    FewNodes(p) && |f.canonicalJson(p)| <= POLICY_BYTES
  }

  /** Validating the tree printed from a valid policy gives it back exactly when the tree it came from is stable. */
  lemma ValidatedAgain(f: Format, x: Policies.Syntax, tree: string -> Option<Policies.RawTree>, t: Policies.RawTree,
                       p: Policy)
    requires ReadsTrees(f, x, tree) && f.validate(t) == Some(p)
    ensures f.validate(Policies.WrittenTree(p)) == Some(p) <==> Policies.Stable(x, Policies.Flat(t))
  {
    assert ValidatesUnder(f, x, t) && ValidatesUnder(f, x, Policies.WrittenTree(p));
    Policies.FlatWritten(p);
    Policies.ValidateFixedPoint(x, Policies.Flat(t), p);
  }

  /** The profile of a file reads back unchanged exactly when the file's policy is stable and its normal form is small
      enough to be parsed. */
  lemma ReadsBack(f: Format, x: Policies.Syntax, tree: string -> Option<Policies.RawTree>, raw: string)
    requires ReadsTrees(f, x, tree) && f.parse(raw).Some?
    ensures ParsesAsTree(f, tree, raw)
    ensures var p := f.parse(raw).value;
            f.parse(f.canonicalJson(p)) == Some(p)
            <==> Policies.Stable(x, Policies.Flat(tree(raw).value)) && Parseable(f, p)
  {
    var p := f.parse(raw).value;
    assert ParsesAsTree(f, tree, raw) && ParsesAsTree(f, tree, f.canonicalJson(p)) && PrintsAsTree(f, tree, p);
    ValidatedAgain(f, x, tree, tree(raw).value, p);
  }

  /** Approving an unmodified source is accepted by `approved` exactly when the policy in it is stable and its normal
      form is small enough to be parsed. */
  lemma UnmodifiedAccepted(f: Format, x: Policies.Syntax, tree: string -> Option<Policies.RawTree>, s: Store, v: Review,
                           key: nat)
    requires Lawful(f) && ReadsTrees(f, x, tree) && WellReviewed(f, v) && ApproveStep(f, s, v, key).Fine?
    ensures ParsesAsTree(f, tree, v.raw)
    ensures Approved(f, ApproveStep(f, s, v, key).value, v.ident, false).Fine? <==>
              Policies.Stable(x, Policies.Flat(tree(v.raw).value)) && Parseable(f, f.parse(v.raw).value)
  {
    ApprovedAgain(f, s, v, key);
    ReadsBack(f, x, tree, v.raw);
  }

  /** Creating a program, approving the file just created under `key`, and making it the active one. */
  function Launched(f: Format, s: Store, v: Review, key: nat): Answer<Store>
    requires WellReviewed(f, v)
  {
    var approved := ApproveStep(f, s, v, key);
    if approved.Rejected? then approved else UseStep(f, approved.value, v.ident)
  }

  function CreatedReview(f: Format, p: Policy): Review {
    Review(p.programId, f.canonicalJson(p) + "\n")
  }

  function IssuedReference(f: Format, p: Policy, key: nat): Reference {
    Reference(p.programId, key, f.sha(f.canonicalJson(p)))
  }

  ghost predicate Launches(f: Format, s: Store, p: Policy, key: nat) {
    var v := CreatedReview(f, p);
    WellReviewed(f, v) && Launched(f, s, v, key).Fine?
      && Bound(f, Launched(f, s, v, key).value, IssuedReference(f, p, key)) == Fine(p)
  }

  /** A created program with something in scope, whose approval fits in a file, can be approved, used and bound to the
      very profile `create` reported, exactly when the policy it was created from is stable and its filled-in tree has
      few enough nodes. */
  lemma CreatedLaunches(f: Format, x: Policies.Syntax, tree: string -> Option<Policies.RawTree>, s: Store,
                        t: Policies.RawTree, key: nat)
    requires Lawful(f) && ReadsTrees(f, x, tree) && CreateStep(f, s, t).Fine?
    requires var p := f.validate(t).value;
             p.inScope != [] && f.identOk(p.programId) && f.approvalSize(f.canonicalJson(p)) <= FILE_BYTES
    ensures Launches(f, CreateStep(f, s, t).value, f.validate(t).value, key)
            <==> Policies.Stable(x, Policies.Flat(t)) && FewNodes(f.validate(t).value)
  {
    var p := f.validate(t).value;
    CreatedReads(f, x, tree, t, p);
    LaunchesExactly(f, CreateStep(f, s, t).value, p, key);
  }

  /** Whether the file just created launches depends only on its reading back as the profile it was written from. */
  lemma LaunchesExactly(f: Format, t: Store, p: Policy, key: nat)
    requires Lawful(f) && f.identOk(p.programId) && p.inScope != [] && f.approvalSize(f.canonicalJson(p)) <= FILE_BYTES
    requires |f.canonicalJson(p)| + 1 <= POLICY_BYTES && f.parse(f.canonicalJson(p))
             == f.parse(f.canonicalJson(p) + "\n")
    requires p.programId in t.sources && t.sources[p.programId] == f.canonicalJson(p) + "\n"
    ensures Launches(f, t, p, key) <==> f.parse(f.canonicalJson(p)) == Some(p)
  {
    var v := CreatedReview(f, p);
    if f.parse(f.canonicalJson(p)) == Some(p) {
      ApprovedAgain(f, t, v, key);
    }
    if Launches(f, t, p, key) {
      BoundRecord(f, Launched(f, t, v, key).value, IssuedReference(f, p, key), v, p);
    }
  }

  lemma CreatedReads(f: Format, x: Policies.Syntax, tree: string -> Option<Policies.RawTree>, t: Policies.RawTree,
                     p: Policy)
    requires ReadsTrees(f, x, tree) && f.validate(t) == Some(p) && |f.canonicalJson(p)| + 1 <= POLICY_BYTES
    ensures f.parse(f.canonicalJson(p) + "\n") == Some(p) <==> Policies.Stable(x, Policies.Flat(t)) && FewNodes(p)
    ensures f.parse(f.canonicalJson(p)) == f.parse(f.canonicalJson(p) + "\n")
  {
    var text := f.canonicalJson(p);
    assert ParsesAsTree(f, tree, text) && ParsesAsTree(f, tree, text + "\n") && PrintsAsTree(f, tree, p);
    ValidatedAgain(f, x, tree, t, p);
  }

  // ----- What each operation answers, read off the files -----

  /** A created file holds the canonical text of its profile and a line feed. */
  ghost predicate CreateAnswers(f: Format, s: Store, tree: Policies.RawTree, error: Option<StoreError>, t: Store) {
    && t.approvals == s.approvals && t.active == s.active && (error.Some? ==> t.sources == s.sources)
    && match f.validate(tree)
       case None => error == Some(InvalidPolicy)
       case Some(p) =>
         if |f.canonicalJson(p)| >= 65536 then error == Some(TooLarge)
         else if p.programId in s.sources.Keys then error == Some(Exists)
         else error.None? && t.sources == s.sources[p.programId := f.canonicalJson(p) + "\n"]
  }

  /** What the reviewer is shown, or the first reason against showing it. */
  ghost predicate ReviewAnswers(f: Format, s: Store, ident: string, r: Answer<Review>) {
    if !f.identOk(ident) then r == Rejected(InvalidIdent)
    else if ident !in s.sources.Keys then r == Rejected(Missing)
    else if |s.sources[ident]| > 196608 then r == Rejected(TooLarge)
    else
      match f.parse(s.sources[ident])
      case None => r == Rejected(InvalidPolicy)
      case Some(p) =>
        if p.programId != ident then r == Rejected(DirectoryMismatch)
        else if |p.inScope| == 0 then r == Rejected(EmptyScope)
        else r == Fine(Review(ident, s.sources[ident]))
  }

  /** An approval is written only over the very bytes that were reviewed: their canonical text, both hashes and the
      new key. */
  ghost predicate CommitAnswers(f: Format, s: Store, v: Review, key: nat, error: Option<StoreError>, t: Store)
    requires f.parse(v.raw).Some?
  {
    var text := f.canonicalJson(f.parse(v.raw).value);
    && t.sources == s.sources && t.active == s.active && (error.Some? ==> t.approvals == s.approvals)
    && if v.ident !in s.sources.Keys then error == Some(Missing)
       else if |s.sources[v.ident]| > 196608 then error == Some(TooLarge)
       else if s.sources[v.ident] != v.raw then error == Some(Changed)
       else if f.approvalSize(text) > 196608 then error == Some(TooLarge)
       else
         && error.None?
         && t.approvals == s.approvals[v.ident := Approval(revoked := false, canonical := text, sha := f.sha(text),
                                                           sourceSha := f.sha(v.raw), id := key)]
  }

  /** Whether an approval is in force for `p`: not revoked, its text intact and canonical for a policy of this name, and
      the source file what was approved; or the first reason why it is not. */
  ghost predicate InForce(f: Format, s: Store, ident: string, a: Approval, r: Answer<Policy>) {
    if a.revoked then r == Rejected(Revoked)
    else if f.sha(a.canonical) != a.sha then r == Rejected(InvalidApproval)
    else
      match f.parse(a.canonical)
      case None => r == Rejected(InvalidPolicy)
      case Some(p) =>
        if p.programId != ident || f.canonicalJson(p) != a.canonical then r == Rejected(InvalidApproval)
        else if ident !in s.sources.Keys then r == Rejected(Missing)
        else if |s.sources[ident]| > 196608 then r == Rejected(TooLarge)
        else SourceInForce(f, s.sources[ident], a, p, r)
  }

  ghost predicate SourceInForce(f: Format, raw: string, a: Approval, p: Policy, r: Answer<Policy>) {
    if f.sha(raw) != a.sourceSha then r == Rejected(Changed)
    else
      match f.parse(raw)
      case None => r == Rejected(InvalidPolicy)
      case Some(q) => r == if f.canonicalJson(q) == a.canonical then Fine(p) else Rejected(Changed)
  }

  ghost predicate ApprovedAnswers(f: Format, s: Store, ident: string, r: Answer<Policy>) {
    if !f.identOk(ident) then r == Rejected(InvalidIdent)
    else if ident !in s.approvals.Keys then r == Rejected(NotApproved)
    else InForce(f, s, ident, s.approvals[ident], r)
  }

  /** Only a program whose approval is in force becomes the active one, under that approval's id and hash. */
  ghost predicate UseAnswers(f: Format, s: Store, ident: string, error: Option<StoreError>, t: Store) {
    && t.sources == s.sources && t.approvals == s.approvals
    && match error
       case Some(e) => t.active == s.active && ApprovedAnswers(f, s, ident, Rejected(e))
       case None =>
         && ident in s.approvals.Keys && (exists p :: ApprovedAnswers(f, s, ident, Fine(p)))
         && t.active == Some(Reference(ident, s.approvals[ident].id, s.approvals[ident].sha))
  }

  /** A revoked approval keeps its text, hashes and id. */
  ghost predicate RevokeAnswers(f: Format, s: Store, ident: string, error: Option<StoreError>, t: Store) {
    && t.sources == s.sources && t.active == s.active && (error.Some? ==> t.approvals == s.approvals)
    && if !f.identOk(ident) then error == Some(InvalidIdent)
       else if ident !in s.approvals.Keys then error == Some(NotApproved)
       else
         var a := s.approvals[ident];
         && error.None?
         && t.approvals == s.approvals[ident := Approval(true, a.canonical, a.sha, a.sourceSha, a.id)]
  }

  /** A reference binds the profile of an approval in force that has its id and hash and is the active one. */
  ghost predicate BoundAnswers(f: Format, s: Store, ref: Reference, r: Answer<Policy>) {
    exists approved ::
      && ApprovedAnswers(f, s, ref.ident, approved)
      && (approved.Rejected? ==> r == approved)
      && (approved.Fine? ==>
            && ref.ident in s.approvals.Keys
            && var a := s.approvals[ref.ident];
               if s.active != Some(Reference(ref.ident, a.id, a.sha)) then r == Rejected(NotActive)
               else if ref.id != a.id || ref.sha != a.sha then r == Rejected(ApprovalChanged)
               else r == approved)
  }

  lemma ApprovedRead(f: Format, s: Store, ident: string)
    ensures ApprovedAnswers(f, s, ident, Approved(f, s, ident, false))
    ensures Approved(f, s, ident, false).Fine? ==> ident in s.approvals
  {
  }

  /** `bound` answers so in every store. */
  lemma BoundRead(f: Format, s: Store, ref: Reference)
    ensures BoundAnswers(f, s, ref, Bound(f, s, ref))
  {
    ApprovedRead(f, s, ref.ident);
  }

  // ----- The store as an object -----

  class ProgramStore {
    const f: Format
    var sources: map<string, string>
    var approvals: map<string, Approval>
    var active: Option<Reference>

    function View(): Store
      reads this
    {
      Store(sources, approvals, active)
    }

    constructor (f: Format)
      ensures this.f == f && View() == EMPTY
    {
      this.f := f;
      sources, approvals, active := map[], map[], None;
    }

    /** `next` is what the event makes of `before`; a rejected event changes nothing. */
    ghost predicate Follows(before: Store, e: Event, error: Option<StoreError>, next: Store)
      requires Legal(f, e)
    {
      if error.None? then Step(f, before, e) == Fine(next)
      else Step(f, before, e) == Rejected(error.value) && next == before
    }

    method Create(tree: Policies.RawTree) returns (error: Option<StoreError>)
      modifies this`sources
      ensures Follows(old(View()), Event.Create(tree), error, View())
      ensures CreateAnswers(f, old(View()), tree, error, View())
    {
      var profile := f.validate(tree);
      if profile.None? {
        return Some(InvalidPolicy);
      }
      var text := f.canonicalJson(profile.value) + "\n";
      if |text| > POLICY_BYTES {
        return Some(TooLarge);
      }
      if profile.value.programId in sources {
        return Some(Exists);
      }
      sources := sources[profile.value.programId := text];
      error := None;
    }

    /** The source file changed from outside, or removed. */
    method Edit(target: string, content: Option<string>)
      modifies this`sources
      ensures Follows(old(View()), Event.Edit(target, content), None, View())
      ensures sources == if content.Some? then old(sources)[target := content.value] else old(sources) - {target}
    {
      if content.Some? {
        sources := sources[target := content.value];
      } else {
        sources := sources - {target};
      }
    }

    /** The first phase of `approve`: what the reviewer is shown. */
    method BeginApprove(ident: string) returns (r: Answer<Review>)
      ensures r == Reviewed(f, View(), ident)
      ensures ReviewAnswers(f, View(), ident, r)
      ensures r.Fine? ==> WellReviewed(f, r.value) && ident in sources && r.value.raw == sources[ident]
    {
      if !f.identOk(ident) {
        return Rejected(InvalidIdent);
      }
      var raw := ReadSource(ident);
      if raw.Rejected? {
        return Rejected(raw.error);
      }
      var profile := f.parse(raw.value);
      if profile.None? {
        return Rejected(InvalidPolicy);
      }
      if profile.value.programId != ident {
        return Rejected(DirectoryMismatch);
      }
      if profile.value.inScope == [] {
        return Rejected(EmptyScope);
      }
      r := Fine(Review(ident, raw.value));
    }

    method ReadSource(ident: string) returns (r: Answer<string>)
      ensures r == Source(View(), ident)
    {
      if ident !in sources {
        return Rejected(Missing);
      }
      if |sources[ident]| > FILE_BYTES {
        return Rejected(TooLarge);
      }
      r := Fine(sources[ident]);
    }

    /** The second phase, after the reviewer has confirmed `v` under a new key. */
    method CommitApprove(v: Review, key: nat) returns (error: Option<StoreError>)
      requires WellReviewed(f, v)
      modifies this`approvals
      ensures Follows(old(View()), Event.Approve(v, key), error, View())
      ensures CommitAnswers(f, old(View()), v, key, error, View())
      ensures error.None? ==> v.ident in sources && sources[v.ident] == v.raw
    {
      var raw := ReadSource(v.ident);
      if raw.Rejected? {
        return Some(raw.error);
      }
      if raw.value != v.raw {
        return Some(Changed);
      }
      var canonical := Canonical(f, v);
      if f.approvalSize(canonical) > FILE_BYTES {
        return Some(TooLarge);
      }
      approvals := approvals[v.ident := Approval(false, canonical, f.sha(canonical), f.sha(v.raw), key)];
      error := None;
    }

    method Use(ident: string) returns (error: Option<StoreError>)
      modifies this`active
      ensures Follows(old(View()), Event.Use(ident), error, View())
      ensures UseAnswers(f, old(View()), ident, error, View())
    {
      ApprovedRead(f, View(), ident);
      var profile := Approved(f, View(), ident, false);
      if profile.Rejected? {
        return Some(profile.error);
      }
      active := Some(Reference(ident, approvals[ident].id, approvals[ident].sha));
      error := None;
    }

    method Revoke(ident: string) returns (error: Option<StoreError>)
      modifies this`approvals
      ensures Follows(old(View()), Event.Revoke(ident), error, View())
      ensures RevokeAnswers(f, old(View()), ident, error, View())
    {
      if !f.identOk(ident) {
        return Some(InvalidIdent);
      }
      if ident !in approvals {
        return Some(NotApproved);
      }
      approvals := approvals[ident := approvals[ident].(revoked := true)];
      error := None;
    }
  }
}
