/** Guarded promotion of a scout proposal into the candidate lifecycle (scout_controller.py). The log is append-only,
    in the order of its timestamps; a call may stop before any of its writes. */
module Promotion {
  import opened Wrappers
  import Collections

  datatype Proposal = Proposal(id: nat, program: nat, reference: Option<nat>, asset: nat, category: nat,
                               evidence: seq<nat>)

  /** What the ledger shows of a proposal; `Underway` is any status the pipeline gave it. */
  datatype Status = Underway | BlockedScope | ProgramExcluded | NeedsMoreEvidence | PromotedStatus

  datatype Body =
    | Proposed(proposal: Proposal)
    | Dedup(target: nat, duplicate: bool)
    | Triage(target: nat, eligible: bool, score: real)
    | Portfolio(members: seq<nat>)
    | Candidate(target: nat, evidence: seq<nat>)
    | Promotion(target: nat, candidate: nat, recovered: bool)
    | State(target: nat, status: Status)
    | Plan(target: nat, owner: nat, fingerprint: nat)
    | Analysis(program: Option<nat>)
    | Other

  datatype Record = Record(id: nat, body: Body)

  type Log = seq<Record>

  /** An approved, active program: its exact reference, the assets it admits and the categories it excludes. */
  datatype Profile = Profile(reference: nat, scope: set<nat>, excluded: set<nat>)

  datatype Error = ProposalNotFound | NoProgram | ApprovalChanged | OutsideProgram | Excluded | Duplicate
                 | TriageRequired | SelectionRequired | EvidenceUnreadable | EvidenceMismatch | DuplicatePlan
                   | PlanRejected | CandidateRejected

  // ----- Reading the log -----

  function FindProposal(log: Log, p: nat): (r: Option<Proposal>)
    ensures r.Some? ==> r.value.id == p
  {
    if log == [] then None
    else if log[0].body.Proposed? && log[0].body.proposal.id == p then Some(log[0].body.proposal)
    else FindProposal(log[1..], p)
  }

  predicate DedupOf(b: Body, p: nat) {
    b.Dedup? && b.target == p
  }

  predicate TriageOf(b: Body, p: nat) {
    b.Triage? && b.target == p
  }

  predicate PromotionOf(b: Body, p: nat) {
    b.Promotion? && b.target == p
  }

  predicate CandidateOf(b: Body, p: nat) {
    b.Candidate? && b.target == p
  }

  /** The last record of the log whose payload is `wanted`. */
  function Latest(log: Log, wanted: Body -> bool): (r: Option<Record>)
    ensures r.Some? ==> r.value in log && wanted(r.value.body)
    ensures r.None? <==> forall x | x in log :: !wanted(x.body)
  {
    if log == [] then None
    else
      assert log == log[..|log| - 1] + [log[|log| - 1]];
      if wanted(log[|log| - 1].body) then Some(log[|log| - 1]) else Latest(log[..|log| - 1], wanted)
  }

  predicate IsDuplicate(log: Log, p: nat) {
    var r := Latest(log, b => DedupOf(b, p));
    r.Some? && r.value.body.duplicate
  }

  predicate IsSelected(log: Log, p: nat) {
    exists r | r in log :: r.body.Portfolio? && p in r.body.members
  }

  /** The candidate with the least id among those that name the proposal, whoever made them. */
  function Existing(log: Log, p: nat): (r: Option<nat>)
    ensures r.Some? ==> exists x | x in log :: CandidateOf(x.body, p) && x.id == r.value
    ensures forall x | x in log && CandidateOf(x.body, p) :: r.Some? && r.value <= x.id
  {
    if log == [] then None
    else
      assert log == log[..|log| - 1] + [log[|log| - 1]];
      var front, last := Existing(log[..|log| - 1], p), log[|log| - 1];
      if CandidateOf(last.body, p) && (front.None? || last.id < front.value) then Some(last.id) else front
  }

  function Lookup(log: Log, id: nat): (r: Option<Body>)
    ensures r.Some? <==> exists x | x in log :: x.id == id
    ensures r.Some? ==> exists x | x in log :: x.id == id && x.body == r.value
  {
    if log == [] then None
    else
      assert log == log[..|log| - 1] + [log[|log| - 1]];
      if log[|log| - 1].id == id then Some(log[|log| - 1].body) else Lookup(log[..|log| - 1], id)
  }

  // ----- The gates, as explained to an operator -----

  predicate CountsAsEvidence(log: Log, id: nat, reference: nat) {
    var b := Lookup(log, id);
    b.Some? && b.value.Analysis? && (b.value.program == None || b.value.program == Some(reference))
  }

  datatype Gates = Gates(exactApproval: bool, scopeValid: bool, categoryAllowed: bool, notDuplicate: bool,
                         eligible: bool, selected: bool, evidence: bool) {
    predicate Ready() { Open() && evidence }
    predicate Open() { exactApproval && scopeValid && categoryAllowed && notDuplicate && eligible && selected }
  }

  /** `explain`. Evidence that cannot be read is passed over. */
  function Explain(log: Log, profiles: map<nat, Profile>, p: Proposal): Gates {
    var known := p.program in profiles;
    var triage := Latest(log, b => TriageOf(b, p.id));
    Gates(known && p.reference == Some(profiles[p.program].reference),
          known && p.asset in profiles[p.program].scope,
          known && p.category !in profiles[p.program].excluded,
          !IsDuplicate(log, p.id),
          triage.Some? && triage.value.body.eligible,
          IsSelected(log, p.id),
          known && exists id | id in p.evidence :: CountsAsEvidence(log, id, profiles[p.program].reference))
  }

  // ----- Promotion -----

  /** What a call is given: the programs approved and active, the triage threshold, whether the candidate's text fields
      are acceptable, the experiment plan if there is an acceptable one, how many writes it may complete before it is
      stopped, and two new record ids. */
  datatype Call = Call(target: nat, profiles: map<nat, Profile>, threshold: real, fieldsAccepted: bool,
                       plan: Option<nat>, writes: nat, first: nat, second: nat)

  datatype Outcome =
    | Rejected(error: Error)
    | MoreEvidence
    | AlreadyPromoted(candidate: nat)
    | Promoted(candidate: nat, promotion: nat)
    | Stopped

  /** A candidate made by promoting a proposal. */
  datatype Made = Made(target: nat, candidate: nat)

  /** The ledger: promotion rows (proposal to record), plan rows (proposal and fingerprint to record), and the status of
      each proposal it knows. */
  datatype Ledger = Ledger(promotions: map<nat, nat>, plans: map<(nat, nat), nat>, statuses: map<nat, Status>)

  /** The log, the ledger, and, as history, the candidates promotion has made. */
  datatype World = World(log: Log, ledger: Ledger, made: seq<Made>)

  predicate EligibleAt(log: Log, p: nat, threshold: real) {
    var r := Latest(log, b => TriageOf(b, p));
    r.Some? && r.value.body.eligible && r.value.body.score >= threshold
  }

  /** The checks before any candidate is looked for, in order. */
  function Guard(log: Log, c: Call, p: Proposal): Option<Error> {
    if p.program !in c.profiles then Some(NoProgram)
    else
      var profile := c.profiles[p.program];
      if p.reference != Some(profile.reference) then Some(ApprovalChanged)
      else if p.asset !in profile.scope then Some(OutsideProgram)
      else if p.category in profile.excluded then Some(Excluded)
      else if IsDuplicate(log, p.id) then Some(Duplicate)
      else if !EligibleAt(log, p.id, c.threshold) then Some(TriageRequired)
      else if !IsSelected(log, p.id) then Some(SelectionRequired)
      else None
  }

  datatype Evidence = Found(ids: seq<nat>) | Bad(error: Error)

  /** The analysis records among `ids`, without repeats, unless one cannot be read or belongs to another program. */
  function Gather(log: Log, ids: seq<nat>, reference: nat): Evidence {
    if ids == [] then Found([])
    else
      var front := Gather(log, ids[..|ids| - 1], reference);
      var id := ids[|ids| - 1];
      if front.Bad? || id in ids[..|ids| - 1] then front
      else if Lookup(log, id).None? then Bad(EvidenceUnreadable)
      else if !Lookup(log, id).value.Analysis? then front
      else if CountsAsEvidence(log, id, reference) then Found(front.ids + [id])
      else Bad(EvidenceMismatch)
  }

  // ----- Writes -----

  /** One write of a call: a record saved, a promotion row, a plan row, or a status. */
  datatype Write =
    | Save(record: Record)
    | PromotionRow(target: nat, id: nat)
    | PlanRow(target: nat, fingerprint: nat, id: nat)
    | StatusRow(target: nat, status: Status)

  /** INSERT OR IGNORE with a unique record besides. */
  function Inserted<K>(rows: map<K, nat>, k: K, record: nat): map<K, nat> {
    if record in rows.Values then rows else Collections.Kept(rows, k, record)
  }

  function WithStatus(statuses: map<nat, Status>, p: nat, s: Status): map<nat, Status> {
    if p in statuses then statuses[p := s] else statuses
  }

  function MadeWith(made: seq<Made>, r: Record): seq<Made> {
    if r.body.Candidate? then made + [Made(r.body.target, r.id)] else made
  }

  function RowWritten(l: Ledger, x: Write): Ledger {
    match x
    case Save(_) => l
    case PromotionRow(p, record) =>
      l.(promotions := Inserted(l.promotions, p, record), statuses := WithStatus(l.statuses, p, PromotedStatus))
    case PlanRow(p, fingerprint, record) => l.(plans := Inserted(l.plans, (p, fingerprint), record))
    case StatusRow(p, s) => l.(statuses := WithStatus(l.statuses, p, s))
  }

  function Written(w: World, x: Write): World {
    if x.Save? then World(w.log + [x.record], w.ledger, MadeWith(w.made, x.record))
    else w.(ledger := RowWritten(w.ledger, x))
  }

  function Performed(w: World, xs: seq<Write>): World {
    if xs == [] then w else Written(Performed(w, xs[..|xs| - 1]), xs[|xs| - 1])
  }

  /** The writes of a call, as far as it gets with them. */
  function Ended(w: World, xs: seq<Write>, writes: nat, o: Outcome): (World, Outcome) {
    if writes < |xs| then (Performed(w, xs[..writes]), Stopped) else (Performed(w, xs), o)
  }

  // ----- What a call sets out to write -----

  /** `_save_state`. */
  function StateWrites(id: nat, p: nat, status: Status): seq<Write> {
    [Save(Record(id, Body.State(p, status))), StatusRow(p, status)]
  }

  /** The candidate exists: a missing promotion record is supplied. */
  function Recovery(log: Log, c: Call, candidate: nat): seq<Write> {
    if Latest(log, b => PromotionOf(b, c.target)).Some? then []
    else [Save(Record(c.first, Body.Promotion(c.target, candidate, true))), PromotionRow(c.target, c.first)]
  }

  predicate PlanKnown(log: Log, program: nat, fingerprint: nat) {
    exists r | r in log :: r.body.Plan? && r.body.owner == program && r.body.fingerprint == fingerprint
  }

  function PlanWrites(log: Log, c: Call, program: nat, fingerprint: nat): seq<Write> {
    if PlanKnown(log, program, fingerprint) then []
    else [Save(Record(c.first, Body.Plan(c.target, program, fingerprint))), PlanRow(c.target, fingerprint, c.first)]
  }

  function PlanError(log: Log, c: Call): Option<Error> {
    if IsDuplicate(log, c.target) then Some(DuplicatePlan) else if c.plan.None? then Some(PlanRejected) else None
  }

  /** No evidence: an experiment is planned, once, and the proposal is marked. */
  function Planned(log: Log, c: Call, program: nat): (seq<Write>, Outcome) {
    if PlanError(log, c).Some? then ([], Rejected(PlanError(log, c).value))
    else (PlanWrites(log, c, program, c.plan.value) + StateWrites(c.second, c.target, NeedsMoreEvidence), MoreEvidence)
  }

  function Shortened(evidence: seq<nat>): seq<nat> {
    if |evidence| > 20 then evidence[..20] else evidence
  }

  function Creation(c: Call, evidence: seq<nat>): seq<Write> {
    [Save(Record(c.first, Body.Candidate(c.target, Shortened(evidence)))),
     Save(Record(c.second, Body.Promotion(c.target, c.first, false))),
     PromotionRow(c.target, c.second)]
  }

  function Refusal(c: Call, e: Error): seq<Write> {
    match e
    case OutsideProgram => StateWrites(c.first, c.target, BlockedScope)
    case Excluded => StateWrites(c.first, c.target, ProgramExcluded)
    case _ => []
  }

  /** What `promote` decides to do before it writes anything. */
  datatype Choice =
    | Blocking(error: Error)
    | Failing(error: Error)
    | Recovering(candidate: nat)
    | Planning(owner: nat)
    | Creating(evidence: seq<nat>)

  function Choose(log: Log, c: Call): Choice {
    var found := FindProposal(log, c.target);
    if found.None? then Failing(ProposalNotFound)
    else
      var p := found.value;
      var blocked := Guard(log, c, p);
      if blocked.Some? then Blocking(blocked.value)
      else if Existing(log, c.target).Some? then Recovering(Existing(log, c.target).value)
      else
        var evidence := Gather(log, p.evidence, c.profiles[p.program].reference);
        if evidence.Bad? then Failing(evidence.error)
        else if evidence.ids == [] then Planning(p.program)
        else if !c.fieldsAccepted then Failing(CandidateRejected)
        else Creating(evidence.ids)
  }

  /** The writes a choice leads to, and the answer if they all are made. */
  function Carried(log: Log, c: Call, d: Choice): (seq<Write>, Outcome) {
    match d
    case Blocking(e) => (Refusal(c, e), Rejected(e))
    case Failing(e) => ([], Rejected(e))
    case Recovering(candidate) => (Recovery(log, c, candidate), AlreadyPromoted(candidate))
    case Planning(owner) => Planned(log, c, owner)
    case Creating(evidence) => (Creation(c, evidence), Promoted(c.first, c.second))
  }

  function Intended(log: Log, c: Call): (seq<Write>, Outcome) {
    Carried(log, c, Choose(log, c))
  }

  /** `promote`. */
  function Attempt(w: World, c: Call): (World, Outcome) {
    var (xs, o) := Intended(w.log, c);
    Ended(w, xs, c.writes, o)
  }

  // ----- What the checks mean -----

  /** Promotion's checks and the explained gates are the same, but for the score threshold. */
  lemma GuardExactly(log: Log, c: Call, p: Proposal)
    ensures Guard(log, c, p).None? <==> Explain(log, c.profiles, p).Open() && EligibleAt(log, p.id, c.threshold)
  {
  }

  predicate Readable(log: Log, ids: seq<nat>) {
    forall id | id in ids :: Lookup(log, id).Some?
  }

  /** No readable analysis among `ids` belongs to another program. */
  predicate NoneForeign(log: Log, ids: seq<nat>, reference: nat) {
    forall id | id in ids :: Lookup(log, id).Some? && Lookup(log, id).value.Analysis?
      ==> CountsAsEvidence(log, id, reference)
  }

  lemma {:induction false} GatherExactly(log: Log, ids: seq<nat>, reference: nat)
    ensures Gather(log, ids, reference).Found? <==> Readable(log, ids) && NoneForeign(log, ids, reference)
    ensures Gather(log, ids, reference).Found? ==>
              forall id :: id in Gather(log, ids, reference).ids <==> id in ids && CountsAsEvidence(log, id, reference)
  {
    if ids != [] {
      var n := |ids| - 1;
      GatherExactly(log, ids[..n], reference);
      assert ids == ids[..n] + [ids[n]];
    }
  }

  /** A fresh success happens exactly when every explained gate is open, the score reaches the threshold, all cited
      evidence is readable and none of it foreign, no candidate exists, the candidate's text is acceptable and the call
      runs to its end. */
  lemma FreshExactly(w: World, c: Call)
    ensures Attempt(w, c).1.Promoted? <==>
              var found := FindProposal(w.log, c.target);
              && found.Some?
              && Explain(w.log, c.profiles, found.value).Ready() && EligibleAt(w.log, c.target, c.threshold)
              && Readable(w.log, found.value.evidence)
              && NoneForeign(w.log, found.value.evidence, c.profiles[found.value.program].reference)
              && Existing(w.log, c.target).None? && c.fieldsAccepted && c.writes >= 3
  {
    var found := FindProposal(w.log, c.target);
    if found.Some? {
      var p := found.value;
      GuardExactly(w.log, c, p);
      if p.program in c.profiles {
        var reference := c.profiles[p.program].reference;
        GatherExactly(w.log, p.evidence, reference);
        SomeEvidence(w.log, p.evidence, reference);
      }
    }
  }

  lemma SomeEvidence(log: Log, ids: seq<nat>, reference: nat)
    ensures Gather(log, ids, reference).Found? ==>
              (Gather(log, ids, reference).ids != [] <==> exists id | id in ids :: CountsAsEvidence(log, id, reference))
  {
    GatherExactly(log, ids, reference);
    var found := Gather(log, ids, reference);
    if found.Found? && found.ids != [] {
      assert found.ids[0] in found.ids;
    }
  }

  // ----- What every step keeps -----

  predicate Names(log: Log, candidate: nat, p: nat) {
    exists x | x in log :: x.id == candidate && CandidateOf(x.body, p)
  }

  predicate Records(log: Log, promotion: nat, p: nat) {
    exists x | x in log :: x.id == promotion && PromotionOf(x.body, p)
  }

  ghost predicate DistinctIds(log: Log) {
    forall i, j | 0 <= i < j < |log| :: log[i].id != log[j].id
  }

  /** At most one promotion record per proposal. */
  ghost predicate OnePromotion(log: Log) {
    forall i, j | 0 <= i < j < |log| :: log[i].body.Promotion? && log[j].body.Promotion?
      ==> log[i].body.target != log[j].body.target
  }

  /** Every promotion record names a candidate of its proposal. */
  ghost predicate CandidatesExist(log: Log) {
    forall r | r in log && r.body.Promotion? :: Names(log, r.body.candidate, r.body.target)
  }

  /** Promotion has made at most one candidate per proposal, and it is in the log. */
  ghost predicate MadeOnce(w: World) {
    && (forall i, j | 0 <= i < j < |w.made| :: w.made[i].target != w.made[j].target)
    && (forall m | m in w.made :: Names(w.log, m.candidate, m.target))
  }

  /** A program plans an experiment once. */
  ghost predicate OnePlan(log: Log) {
    forall i, j | 0 <= i < j < |log| :: log[i].body.Plan? && log[j].body.Plan? && log[i].body.owner == log[j].body.owner
                                        ==> log[i].body.fingerprint != log[j].body.fingerprint
  }

  predicate PlanRecorded(log: Log, plan: nat, p: nat, fingerprint: nat) {
    exists x | x in log :: x.id == plan && x.body.Plan? && x.body.target == p && x.body.fingerprint == fingerprint
  }

  ghost predicate LedgerTrue(w: World) {
    && (forall p | p in w.ledger.promotions :: Records(w.log, w.ledger.promotions[p], p))
    && (forall k | k in w.ledger.plans :: PlanRecorded(w.log, w.ledger.plans[k], k.0, k.1))
  }

  ghost predicate Safe(w: World) {
    && DistinctIds(w.log) && OnePromotion(w.log) && OnePlan(w.log) && CandidatesExist(w.log) && MadeOnce(w)
    && LedgerTrue(w)
  }

  predicate Fresh(log: Log, id: nat) {
    forall r | r in log :: r.id != id
  }

  /** What may be appended: not a second promotion of a proposal, nor one of a candidate that does not exist, nor a plan
      made before. */
  predicate Admissible(log: Log, r: Record) {
    && Fresh(log, r.id)
    && (r.body.Promotion? ==>
          Latest(log, b => PromotionOf(b, r.body.target)).None? && Names(log, r.body.candidate, r.body.target))
    && (r.body.Plan? ==> !PlanKnown(log, r.body.owner, r.body.fingerprint))
  }

  lemma AppendOnce(log: Log, r: Record)
    requires DistinctIds(log) && OnePromotion(log) && OnePlan(log) && Admissible(log, r)
    ensures DistinctIds(log + [r]) && OnePromotion(log + [r]) && OnePlan(log + [r])
  {
    forall i | 0 <= i < |log| ensures log[i].id != r.id {
      assert log[i] in log;
    }
    if r.body.Promotion? {
      forall i | 0 <= i < |log| && log[i].body.Promotion? ensures log[i].body.target != r.body.target {
        assert log[i] in log;
        assert !(b => PromotionOf(b, r.body.target))(log[i].body);
      }
    }
    if r.body.Plan? {
      forall i | 0 <= i < |log| && log[i].body.Plan? && log[i].body.owner == r.body.owner
        ensures log[i].body.fingerprint != r.body.fingerprint
      {
        assert log[i] in log;
      }
    }
  }

  lemma AppendSafe(w: World, r: Record)
    requires Safe(w) && Admissible(w.log, r)
    ensures Safe(w.(log := w.log + [r]))
  {
    AppendOnce(w.log, r);
    GrownNames(w.log, r);
    var log := w.log + [r];
    forall x | x in log && x.body.Promotion? ensures Names(log, x.body.candidate, x.body.target) {
      assert Names(w.log, x.body.candidate, x.body.target);
    }
  }

  lemma GrownNames(log: Log, r: Record)
    ensures forall candidate, p :: Names(log, candidate, p) ==> Names(log + [r], candidate, p)
    ensures forall promotion, p :: Records(log, promotion, p) ==> Records(log + [r], promotion, p)
    ensures forall plan, p, mark :: PlanRecorded(log, plan, p, mark) ==> PlanRecorded(log + [r], plan, p, mark)
    ensures forall p :: CandidateOf(r.body, p) ==> Names(log + [r], r.id, p)
    ensures forall p :: PromotionOf(r.body, p) ==> Records(log + [r], r.id, p)
    ensures r.body.Plan? ==> PlanRecorded(log + [r], r.id, r.body.target, r.body.fingerprint)
  {
    forall candidate, p | Names(log, candidate, p) ensures Names(log + [r], candidate, p) {
      var x :| x in log && x.id == candidate && CandidateOf(x.body, p);
      assert x in log + [r];
    }
    forall promotion, p | Records(log, promotion, p) ensures Records(log + [r], promotion, p) {
      var x :| x in log && x.id == promotion && PromotionOf(x.body, p);
      assert x in log + [r];
    }
    forall plan, p, mark | PlanRecorded(log, plan, p, mark) ensures PlanRecorded(log + [r], plan, p, mark) {
      var x :| x in log && x.id == plan && x.body.Plan? && x.body.target == p && x.body.fingerprint == mark;
      assert x in log + [r];
    }
    assert r in log + [r];
  }

  lemma MadeSafe(w: World, p: nat, candidate: nat)
    requires Safe(w) && Names(w.log, candidate, p) && forall m | m in w.made :: m.target != p
    ensures Safe(w.(made := w.made + [Made(p, candidate)]))
  {
    forall i | 0 <= i < |w.made| ensures w.made[i].target != p {
      assert w.made[i] in w.made;
    }
  }

  /** What a write needs in order to keep the world safe. */
  ghost predicate Due(w: World, x: Write) {
    match x
    case Save(r) => Admissible(w.log, r) && (r.body.Candidate? ==> forall m | m in w.made :: m.target != r.body.target)
    case PromotionRow(p, record) => Records(w.log, record, p)
    case PlanRow(p, fingerprint, record) => PlanRecorded(w.log, record, p, fingerprint)
    case StatusRow(_, _) => true
  }

  lemma WriteSafe(w: World, x: Write)
    requires Safe(w) && Due(w, x)
    ensures Safe(Written(w, x))
  {
    match x {
      case Save(r) =>
        AppendSafe(w, r);
        GrownNames(w.log, r);
        if r.body.Candidate? {
          MadeSafe(w.(log := w.log + [r]), r.body.target, r.id);
        }
      case PromotionRow(p, record) =>
      case PlanRow(p, fingerprint, record) =>
      case StatusRow(p, s) =>
    }
  }

  lemma PerformedNext(w: World, xs: seq<Write>, n: nat)
    requires n < |xs|
    ensures Performed(w, xs[..n + 1]) == Written(Performed(w, xs[..n]), xs[n])
  {
    assert xs[..n + 1][..n] == xs[..n];
  }

  ghost predicate DueAt(w: World, xs: seq<Write>, i: nat)
    requires i < |xs|
  {
    Due(Performed(w, xs[..i]), xs[i])
  }

  /** Every write is due when its turn comes. */
  ghost predicate AllDue(w: World, xs: seq<Write>) {
    forall i | 0 <= i < |xs| :: DueAt(w, xs, i)
  }

  /** Wherever a list of due writes is cut off, the world is safe. */
  lemma {:induction false} CutOffSafe(w: World, xs: seq<Write>, n: nat)
    requires Safe(w) && AllDue(w, xs) && n <= |xs|
    ensures Safe(Performed(w, xs[..n]))
  {
    if n > 0 {
      CutOffSafe(w, xs, n - 1);
      PerformedNext(w, xs, n - 1);
      assert DueAt(w, xs, n - 1);
      WriteSafe(Performed(w, xs[..n - 1]), xs[n - 1]);
    }
  }

  lemma EndedSafe(w: World, xs: seq<Write>, writes: nat, o: Outcome)
    requires Safe(w) && AllDue(w, xs)
    ensures Safe(Ended(w, xs, writes, o).0)
  {
    CutOffSafe(w, xs, if writes < |xs| then writes else |xs|);
    assert xs[..|xs|] == xs;
  }

  predicate FreshCall(w: World, c: Call) {
    Fresh(w.log, c.first) && Fresh(w.log, c.second) && c.first != c.second
  }

  lemma FirstWrite(w: World, xs: seq<Write>)
    requires xs != []
    ensures Performed(w, xs[..0]) == w && Performed(w, xs[..1]) == Written(w, xs[0])
  {
    PerformedNext(w, xs, 0);
  }

  lemma Pair(w: World, x: Write, y: Write)
    ensures Performed(w, [x, y]) == Written(Written(w, x), y)
    ensures Due(w, x) && Due(Written(w, x), y) ==> AllDue(w, [x, y])
  {
    var xs := [x, y];
    FirstWrite(w, xs);
    PerformedNext(w, xs, 1);
    assert xs[..2] == xs;
  }

  lemma Triple(w: World, x: Write, y: Write, z: Write)
    ensures Performed(w, [x, y, z]) == Written(Written(Written(w, x), y), z)
    ensures Due(w, x) && Due(Written(w, x), y) && Due(Written(Written(w, x), y), z) ==> AllDue(w, [x, y, z])
  {
    var xs := [x, y, z];
    FirstWrite(w, xs);
    PerformedNext(w, xs, 1);
    PerformedNext(w, xs, 2);
    assert xs[..3] == xs;
  }

  lemma {:induction false} PerformedConcat(w: World, xs: seq<Write>, ys: seq<Write>)
    ensures Performed(w, xs + ys) == Performed(Performed(w, xs), ys)
  {
    if ys == [] {
      assert xs + ys == xs;
    } else {
      assert (xs + ys)[..|xs + ys| - 1] == xs + ys[..|ys| - 1];
      PerformedConcat(w, xs, ys[..|ys| - 1]);
    }
  }

  lemma ConcatDueAt(w: World, xs: seq<Write>, ys: seq<Write>, i: nat)
    requires i < |xs + ys|
    ensures if i < |xs| then DueAt(w, xs + ys, i) == DueAt(w, xs, i)
            else DueAt(w, xs + ys, i) == DueAt(Performed(w, xs), ys, i - |xs|)
  {
    var all := xs + ys;
    if i < |xs| {
      assert all[..i] == xs[..i];
    } else {
      assert all[..i] == xs + ys[..i - |xs|];
      PerformedConcat(w, xs, ys[..i - |xs|]);
    }
  }

  lemma ConcatDue(w: World, xs: seq<Write>, ys: seq<Write>)
    requires AllDue(w, xs) && AllDue(Performed(w, xs), ys)
    ensures AllDue(w, xs + ys)
  {
    forall i | 0 <= i < |xs + ys| ensures DueAt(w, xs + ys, i) {
      ConcatDueAt(w, xs, ys, i);
    }
  }

  lemma RecoveryDue(w: World, c: Call, candidate: nat)
    requires FreshCall(w, c) && Names(w.log, candidate, c.target)
    ensures AllDue(w, Recovery(w.log, c, candidate))
  {
    var r := Record(c.first, Body.Promotion(c.target, candidate, true));
    GrownNames(w.log, r);
    if Latest(w.log, b => PromotionOf(b, c.target)).None? {
      Pair(w, Save(r), PromotionRow(c.target, c.first));
    }
  }

  lemma CreationDue(w: World, c: Call, evidence: seq<nat>)
    requires Safe(w) && FreshCall(w, c) && Existing(w.log, c.target).None?
    ensures AllDue(w, Creation(c, evidence))
  {
    var candidate := Record(c.first, Body.Candidate(c.target, Shortened(evidence)));
    var promotion := Record(c.second, Body.Promotion(c.target, c.first, false));
    GrownNames(w.log, candidate);
    NoneMade(w, c.target);
    NonePromoted(w, c.target, candidate);
    GrownNames(w.log + [candidate], promotion);
    Triple(w, Save(candidate), Save(promotion), PromotionRow(c.target, c.second));
  }

  lemma NoneMade(w: World, p: nat)
    requires Safe(w) && Existing(w.log, p).None?
    ensures forall m | m in w.made :: m.target != p
  {
    forall m | m in w.made ensures m.target != p {
      assert Names(w.log, m.candidate, m.target);
    }
  }

  lemma NonePromoted(w: World, p: nat, r: Record)
    requires Safe(w) && Existing(w.log, p).None? && !r.body.Promotion?
    ensures Latest(w.log + [r], b => PromotionOf(b, p)).None?
  {
    forall x | x in w.log + [r] ensures !PromotionOf(x.body, p) {
      if x in w.log && x.body.Promotion? {
        assert Names(w.log, x.body.candidate, x.body.target);
      }
    }
  }

  lemma StateDue(w: World, id: nat, p: nat, status: Status)
    requires Fresh(w.log, id)
    ensures AllDue(w, StateWrites(id, p, status))
  {
    Pair(w, Save(Record(id, Body.State(p, status))), StatusRow(p, status));
  }

  lemma PlanDue(w: World, c: Call, program: nat, fingerprint: nat)
    requires FreshCall(w, c)
    ensures var xs := PlanWrites(w.log, c, program, fingerprint);
            AllDue(w, xs) && Fresh(Performed(w, xs).log, c.second)
  {
    if !PlanKnown(w.log, program, fingerprint) {
      var r := Record(c.first, Body.Plan(c.target, program, fingerprint));
      var x, y := Save(r), PlanRow(c.target, fingerprint, c.first);
      GrownNames(w.log, r);
      Pair(w, x, y);
    }
  }

  lemma PlannedDue(w: World, c: Call, program: nat)
    requires FreshCall(w, c)
    ensures AllDue(w, Planned(w.log, c, program).0)
  {
    if c.plan.Some? {
      var xs := PlanWrites(w.log, c, program, c.plan.value);
      PlanDue(w, c, program, c.plan.value);
      StateDue(Performed(w, xs), c.second, c.target, NeedsMoreEvidence);
      ConcatDue(w, xs, StateWrites(c.second, c.target, NeedsMoreEvidence));
    }
  }

  lemma ChoiceMeans(log: Log, c: Call)
    ensures var d, p := Choose(log, c), FindProposal(log, c.target);
            && (d.Recovering? ==> Existing(log, c.target) == Some(d.candidate))
            && (d.Planning? || d.Creating? ==> Existing(log, c.target).None?)
            && (d.Creating? ==> p.Some? && p.value.program in c.profiles && d.evidence != []
                                && Gather(log, p.value.evidence, c.profiles[p.value.program].reference)
                                  == Found(d.evidence))
  {
  }

  lemma CarriedDue(w: World, c: Call, d: Choice)
    requires Safe(w) && FreshCall(w, c)
    requires d.Recovering? ==> Names(w.log, d.candidate, c.target)
    requires d.Creating? ==> Existing(w.log, c.target).None?
    ensures AllDue(w, Carried(w.log, c, d).0)
  {
    match d {
      case Blocking(e) =>
        StateDue(w, c.first, c.target, BlockedScope);
        StateDue(w, c.first, c.target, ProgramExcluded);
      case Failing(_) =>
      case Recovering(candidate) => RecoveryDue(w, c, candidate);
      case Planning(owner) => PlannedDue(w, c, owner);
      case Creating(evidence) => CreationDue(w, c, evidence);
    }
  }

  /** Whichever of its writes a call stops before, promotion has made at most one candidate, one promotion record and
      one plan of each kind, and the ledger's rows are records of the log. */
  lemma PromoteSafe(w: World, c: Call)
    requires Safe(w) && FreshCall(w, c)
    ensures Safe(Attempt(w, c).0)
  {
    ChoiceMeans(w.log, c);
    CarriedDue(w, c, Choose(w.log, c));
    EndedSafe(w, Intended(w.log, c).0, c.writes, Intended(w.log, c).1);
  }

  // ----- What an outcome means -----

  /** The proposal has a promotion record, and only one. */
  ghost predicate PromotedOnce(log: Log, p: nat) {
    exists i | 0 <= i < |log| :: PromotionOf(log[i].body, p) && forall j | 0 <= j < |log| && j != i ::
      !PromotionOf(log[j].body, p)
  }

  lemma RecordedOnce(log: Log, p: nat)
    requires OnePromotion(log) && Latest(log, b => PromotionOf(b, p)).Some?
    ensures PromotedOnce(log, p)
  {
    var r := Latest(log, b => PromotionOf(b, p)).value;
    var i :| 0 <= i < |log| && log[i] == r;
    forall j | 0 <= j < |log| && j != i ensures !PromotionOf(log[j].body, p) {
      if j < i {
        assert !(log[j].body.Promotion? && log[i].body.Promotion?) || log[j].body.target != log[i].body.target;
      }
    }
  }

  lemma LastMatches(log: Log, r: Record, wanted: Body -> bool)
    requires wanted(r.body)
    ensures Latest(log + [r], wanted) == Some(r)
  {
  }

  /** A call that reports success leaves exactly one promotion record of its proposal, which names a candidate of it in
      the log, and reports such a candidate. */
  lemma SuccessMeans(w: World, c: Call)
    requires Safe(w) && FreshCall(w, c)
    ensures var (t, o) := Attempt(w, c);
            o.AlreadyPromoted? || o.Promoted? ==>
              && PromotedOnce(t.log, c.target) && Names(t.log, o.candidate, c.target)
              && var r := Latest(t.log, b => PromotionOf(b, c.target));
                 r.Some? && Names(t.log, r.value.body.candidate, c.target)
                 && (o.Promoted? ==> r.value.id == o.promotion && r.value.body.candidate == o.candidate)
  {
    PromoteSafe(w, c);
    ChoiceMeans(w.log, c);
    var t, d := Attempt(w, c).0, Choose(w.log, c);
    if d.Creating? {
      CreatedMeans(w, c, d.evidence);
    } else if d.Recovering? {
      RecoveredMeans(w, c, d.candidate);
    }
    if Latest(t.log, b => PromotionOf(b, c.target)).Some? {
      RecordedOnce(t.log, c.target);
    }
  }

  lemma CreatedMeans(w: World, c: Call, evidence: seq<nat>)
    ensures var t := Performed(w, Creation(c, evidence));
            && Latest(t.log, b => PromotionOf(b, c.target))
              == Some(Record(c.second, Body.Promotion(c.target, c.first, false)))
            && Names(t.log, c.first, c.target)
  {
    var candidate := Record(c.first, Body.Candidate(c.target, Shortened(evidence)));
    var promotion := Record(c.second, Body.Promotion(c.target, c.first, false));
    Triple(w, Save(candidate), Save(promotion), PromotionRow(c.target, c.second));
    LastMatches(w.log + [candidate], promotion, b => PromotionOf(b, c.target));
    GrownNames(w.log, candidate);
    GrownNames(w.log + [candidate], promotion);
  }

  lemma RecoveredLog(w: World, c: Call, candidate: nat)
    ensures var t := Performed(w, Recovery(w.log, c, candidate));
            if Latest(w.log, b => PromotionOf(b, c.target)).Some? then t == w
            else t.log == w.log + [Record(c.first, Body.Promotion(c.target, candidate, true))]
  {
    Pair(w, Save(Record(c.first, Body.Promotion(c.target, candidate, true))), PromotionRow(c.target, c.first));
  }

  lemma RecoveredMeans(w: World, c: Call, candidate: nat)
    requires Safe(w) && Names(w.log, candidate, c.target)
    ensures var t := Performed(w, Recovery(w.log, c, candidate));
            var r := Latest(t.log, b => PromotionOf(b, c.target));
            r.Some? && Names(t.log, candidate, c.target) && Names(t.log, r.value.body.candidate, c.target)
  {
    var wanted := b => PromotionOf(b, c.target);
    RecoveredLog(w, c, candidate);
    if Latest(w.log, wanted).None? {
      var r := Record(c.first, Body.Promotion(c.target, candidate, true));
      LastMatches(w.log, r, wanted);
      GrownNames(w.log, r);
    } else {
      var r := Latest(w.log, wanted).value;
      assert Names(w.log, r.body.candidate, r.body.target);
    }
  }

  /** The status an outcome leaves in the ledger, if it sets one. */
  function StatusLeft(o: Outcome): Option<Status> {
    match o
    case Rejected(OutsideProgram) => Some(BlockedScope)
    case Rejected(Excluded) => Some(ProgramExcluded)
    case MoreEvidence => Some(NeedsMoreEvidence)
    case Promoted(_, _) => Some(PromotedStatus)
    case _ => None
  }

  lemma StateLeft(w: World, id: nat, p: nat, status: Status)
    requires p in w.ledger.statuses
    ensures var t := Performed(w, StateWrites(id, p, status)); t.ledger.statuses == w.ledger.statuses[p := status]
  {
    Pair(w, Save(Record(id, Body.State(p, status))), StatusRow(p, status));
  }

  lemma PlanLeaves(w: World, c: Call, program: nat, fingerprint: nat)
    ensures Performed(w, PlanWrites(w.log, c, program, fingerprint)).ledger.statuses == w.ledger.statuses
  {
    if !PlanKnown(w.log, program, fingerprint) {
      Pair(w, Save(Record(c.first, Body.Plan(c.target, program, fingerprint))),
           PlanRow(c.target, fingerprint, c.first));
    }
  }

  lemma PlannedLeft(w: World, c: Call, program: nat)
    requires c.target in w.ledger.statuses && Planned(w.log, c, program).1.MoreEvidence?
    ensures Performed(w, Planned(w.log, c, program).0).ledger.statuses
            == w.ledger.statuses[c.target := NeedsMoreEvidence]
  {
    var xs, ys := PlanWrites(w.log, c, program, c.plan.value), StateWrites(c.second, c.target, NeedsMoreEvidence);
    PerformedConcat(w, xs, ys);
    PlanLeaves(w, c, program, c.plan.value);
    StateLeft(Performed(w, xs), c.second, c.target, NeedsMoreEvidence);
  }

  /** What all the writes of a call leave in `t`, for the answer `o`. */
  ghost predicate Leaves(w: World, p: nat, t: World, o: Outcome) {
    && (StatusLeft(o).Some? ==>
          p in w.ledger.statuses && t.ledger.statuses == w.ledger.statuses[p := StatusLeft(o).value])
    && (o.Rejected? && StatusLeft(o).None? ==> t == w)
    && (o.AlreadyPromoted? ==>
          p in w.ledger.statuses && (t == w || t.ledger.statuses == w.ledger.statuses[p := PromotedStatus]))
  }

  lemma RefusalLeaves(w: World, c: Call, e: Error)
    requires c.target in w.ledger.statuses
    ensures Leaves(w, c.target, Performed(w, Refusal(c, e)), Rejected(e))
  {
    StateLeft(w, c.first, c.target, BlockedScope);
    StateLeft(w, c.first, c.target, ProgramExcluded);
  }

  lemma PlannedLeaves(w: World, c: Call, program: nat)
    requires c.target in w.ledger.statuses
    ensures var (xs, o) := Planned(w.log, c, program); Leaves(w, c.target, Performed(w, xs), o)
  {
    if PlanError(w.log, c).None? {
      PlannedLeft(w, c, program);
    }
  }

  lemma CarriedLeaves(w: World, c: Call, d: Choice)
    requires c.target in w.ledger.statuses && (d.Failing? ==> StatusLeft(Rejected(d.error)).None?)
    ensures var (xs, o) := Carried(w.log, c, d); Leaves(w, c.target, Performed(w, xs), o)
  {
    match d {
      case Blocking(e) => RefusalLeaves(w, c, e);
      case Failing(_) =>
      case Recovering(candidate) => RecoveredLeft(w, c, candidate);
      case Planning(owner) => PlannedLeaves(w, c, owner);
      case Creating(evidence) => CreatedLeft(w, c, evidence);
    }
  }

  lemma {:induction false} GatherErrors(log: Log, ids: seq<nat>, reference: nat)
    ensures var e := Gather(log, ids, reference);
            e.Bad? ==> e.error == EvidenceUnreadable || e.error == EvidenceMismatch
  {
    if ids != [] {
      GatherErrors(log, ids[..|ids| - 1], reference);
    }
  }

  lemma FailureLeavesNone(log: Log, c: Call)
    ensures var d := Choose(log, c); d.Failing? ==> StatusLeft(Rejected(d.error)).None?
  {
    var p := FindProposal(log, c.target);
    if p.Some? && p.value.program in c.profiles {
      GatherErrors(log, p.value.evidence, c.profiles[p.value.program].reference);
    }
  }

  /** A call that runs to its end leaves its proposal's ledger status as its outcome says; one that is rejected for any
      other reason, or finds the proposal promoted and recorded, writes nothing at all. */
  lemma OutcomeStatus(w: World, c: Call)
    requires c.target in w.ledger.statuses && !Attempt(w, c).1.Stopped?
    ensures Leaves(w, c.target, Attempt(w, c).0, Attempt(w, c).1)
  {
    FailureLeavesNone(w.log, c);
    CarriedLeaves(w, c, Choose(w.log, c));
  }

  lemma CreatedLeft(w: World, c: Call, evidence: seq<nat>)
    requires c.target in w.ledger.statuses
    ensures Performed(w, Creation(c, evidence)).ledger.statuses == w.ledger.statuses[c.target := PromotedStatus]
  {
    Triple(w, Save(Record(c.first, Body.Candidate(c.target, Shortened(evidence)))),
           Save(Record(c.second, Body.Promotion(c.target, c.first, false))), PromotionRow(c.target, c.second));
  }

  lemma RecoveredLeft(w: World, c: Call, candidate: nat)
    requires c.target in w.ledger.statuses
    ensures var t := Performed(w, Recovery(w.log, c, candidate));
            t == w || t.ledger.statuses == w.ledger.statuses[c.target := PromotedStatus]
  {
    Pair(w, Save(Record(c.first, Body.Promotion(c.target, candidate, true))), PromotionRow(c.target, c.first));
  }

  ghost predicate NoRepeats(ids: seq<nat>) {
    forall i, j | 0 <= i < j < |ids| :: ids[i] != ids[j]
  }

  lemma {:induction false} GatherNoRepeats(log: Log, ids: seq<nat>, reference: nat)
    ensures Gather(log, ids, reference).Found? ==> NoRepeats(Gather(log, ids, reference).ids)
  {
    if ids != [] {
      var front := ids[..|ids| - 1];
      GatherNoRepeats(log, front, reference);
      GatherExactly(log, front, reference);
      var found := Gather(log, front, reference);
      if found.Found? {
        forall i | 0 <= i < |found.ids| ensures found.ids[i] in front {
          assert found.ids[i] in found.ids;
        }
      }
    }
  }

  /** Evidence fit for a candidate: one to twenty of the proposal's own analyses, each once, none foreign. */
  ghost predicate FitEvidence(log: Log, evidence: seq<nat>, cited: seq<nat>, reference: nat) {
    1 <= |evidence| <= 20 && NoRepeats(evidence)
    && forall id | id in evidence :: id in cited && CountsAsEvidence(log, id, reference)
  }

  lemma ShortenedFits(log: Log, cited: seq<nat>, reference: nat)
    requires Gather(log, cited, reference).Found? && Gather(log, cited, reference).ids != []
    ensures FitEvidence(log, Shortened(Gather(log, cited, reference).ids), cited, reference)
  {
    GatherExactly(log, cited, reference);
    GatherNoRepeats(log, cited, reference);
    var ids := Gather(log, cited, reference).ids;
    assert forall id | id in ids[..if |ids| > 20 then 20 else |ids|] :: id in ids;
  }

  /** The candidate a promotion creates, stopped or not, cites fit evidence. */
  lemma CreatedEvidence(w: World, c: Call)
    requires |Attempt(w, c).0.made| > |w.made|
    ensures var p := FindProposal(w.log, c.target);
            && p.Some? && p.value.program in c.profiles
            && |Attempt(w, c).0.log| > |w.log|
            && var made := Attempt(w, c).0.log[|w.log|];
               made.id == c.first && CandidateOf(made.body, c.target)
               && FitEvidence(w.log, made.body.evidence, p.value.evidence, c.profiles[p.value.program].reference)
  {
    OnlyCreationMakes(w, c);
    ChoiceMeans(w.log, c);
    var p := FindProposal(w.log, c.target).value;
    var reference := c.profiles[p.program].reference;
    ShortenedFits(w.log, p.evidence, reference);
    var ids := Choose(w.log, c).evidence;
    CreationLog(w, c, ids, if c.writes < 3 then c.writes else 3);
    assert Creation(c, ids)[..3] == Creation(c, ids);
  }

  lemma CreationLog(w: World, c: Call, evidence: seq<nat>, n: nat)
    requires n <= 3
    ensures var candidate := Record(c.first, Body.Candidate(c.target, Shortened(evidence)));
            var t := Performed(w, Creation(c, evidence)[..n]);
            if n == 0 then t == w else w.log + [candidate] <= t.log
  {
    var xs := Creation(c, evidence);
    FirstWrite(w, xs);
    if n > 1 {
      PerformedNext(w, xs, 1);
    }
    if n > 2 {
      PerformedNext(w, xs, 2);
    }
  }

  predicate MakesNone(x: Write) {
    x.Save? ==> !x.record.body.Candidate?
  }

  lemma {:induction false} NothingMade(w: World, xs: seq<Write>, n: nat)
    requires n <= |xs| && forall i | 0 <= i < |xs| :: MakesNone(xs[i])
    ensures Performed(w, xs[..n]).made == w.made
  {
    if n > 0 {
      NothingMade(w, xs, n - 1);
      PerformedNext(w, xs, n - 1);
    }
  }

  lemma OnlyCreationMakes(w: World, c: Call)
    requires |Attempt(w, c).0.made| > |w.made|
    ensures Choose(w.log, c).Creating?
  {
    var xs := Intended(w.log, c).0;
    var n := if c.writes < |xs| then c.writes else |xs|;
    assert xs[..|xs|] == xs;
    if forall i | 0 <= i < |xs| :: MakesNone(xs[i]) {
      NothingMade(w, xs, n);
      assert false;
    }
  }

  lemma LeastNamed(log: Log, p: nat, named: nat)
    requires Existing(log, p).Some? && Names(log, named, p)
    ensures Existing(log, p).value == named <==> forall x | x in log && CandidateOf(x.body, p) :: named <= x.id
  {
    var least := Existing(log, p).value;
    var first :| first in log && CandidateOf(first.body, p) && first.id == least;
    var other :| other in log && other.id == named && CandidateOf(other.body, p);
  }

  lemma ExistingStays(log: Log, r: Record, p: nat)
    requires !r.body.Candidate?
    ensures Existing(log + [r], p) == Existing(log, p)
  {
    assert (log + [r])[..|log|] == log;
  }

  lemma RecoveredCandidate(w: World, c: Call, candidate: nat)
    requires Safe(w) && Existing(w.log, c.target) == Some(candidate)
    ensures var t := Performed(w, Recovery(w.log, c, candidate));
            var r := Latest(t.log, b => PromotionOf(b, c.target));
            && r.Some?
            && (candidate == r.value.body.candidate
                <==> forall x | x in t.log && CandidateOf(x.body, c.target) :: r.value.body.candidate <= x.id)
  {
    RecoveredMeans(w, c, candidate);
    RecoveredLog(w, c, candidate);
    var t := Performed(w, Recovery(w.log, c, candidate));
    ExistingStays(w.log, Record(c.first, Body.Promotion(c.target, candidate, true)), c.target);
    LeastNamed(t.log, c.target, Latest(t.log, b => PromotionOf(b, c.target)).value.body.candidate);
  }

  /** A proposal reported as already promoted is reported with the candidate its promotion record names, exactly when no
      candidate of the proposal has a smaller id than that one. */
  lemma ReportedCandidate(w: World, c: Call)
    requires Safe(w) && Attempt(w, c).1.AlreadyPromoted?
    ensures var (t, o) := Attempt(w, c);
            var r := Latest(t.log, b => PromotionOf(b, c.target));
            && r.Some?
            && (o.candidate == r.value.body.candidate
                <==> forall x | x in t.log && CandidateOf(x.body, c.target) :: r.value.body.candidate <= x.id)
  {
    RecoveredCandidate(w, c, Existing(w.log, c.target).value);
  }

  // ----- A smaller candidate -----

  lemma LatestStays(log: Log, r: Record, wanted: Body -> bool)
    requires !wanted(r.body)
    ensures Latest(log + [r], wanted) == Latest(log, wanted)
  {
    assert (log + [r])[..|log|] == log;
  }

  predicate LaterKind(b: Body) {
    b.Candidate? || b.Promotion?
  }

  /** Candidates and promotions change nothing that the checks read. */
  lemma GuardStays(log: Log, r: Record, c: Call, p: Proposal)
    requires LaterKind(r.body)
    ensures Guard(log + [r], c, p) == Guard(log, c, p)
  {
    LatestStays(log, r, b => DedupOf(b, p.id));
    LatestStays(log, r, b => TriageOf(b, p.id));
    assert IsSelected(log + [r], p.id) == IsSelected(log, p.id) by {
      if x :| x in log && x.body.Portfolio? && p.id in x.body.members {
        assert x in log + [r];
      }
    }
  }

  /** A proposal that passes the checks and is promoted and recorded already: nothing is written. */
  lemma RecoversQuietly(w: World, c: Call)
    requires var p := FindProposal(w.log, c.target); p.Some? && Guard(w.log, c, p.value).None?
    requires Existing(w.log, c.target).Some? && Latest(w.log, b => PromotionOf(b, c.target)).Some?
    ensures Attempt(w, c) == (w, AlreadyPromoted(Existing(w.log, c.target).value))
  {
  }

  lemma PromotedLog(w: World, c: Call)
    requires Attempt(w, c).1.Promoted?
    ensures Choose(w.log, c).Creating?
    ensures var candidate := Record(c.first, Body.Candidate(c.target, Shortened(Choose(w.log, c).evidence)));
            Attempt(w, c).0.log == w.log + [candidate] + [Record(c.second, Body.Promotion(c.target, c.first, false))]
  {
    var d := Choose(w.log, c);
    Triple(w, Save(Record(c.first, Body.Candidate(c.target, Shortened(d.evidence)))),
           Save(Record(c.second, Body.Promotion(c.target, c.first, false))), PromotionRow(c.target, c.second));
  }

  /** Promoting a proposal changes nothing its checks read, nor does a candidate filed afterwards. */
  lemma StillPasses(log: Log, a: Record, b: Record, r: Record, c: Call)
    requires LaterKind(a.body) && LaterKind(b.body) && LaterKind(r.body)
    requires var p := FindProposal(log, c.target); p.Some? && Guard(log, c, p.value).None?
    ensures var p := FindProposal(log + [a] + [b] + [r], c.target);
            p.Some? && Guard(log + [a] + [b] + [r], c, p.value).None?
  {
    var p := FindProposal(log, c.target).value;
    FindStays(log, log + [a] + [b] + [r], c.target);
    GuardStays(log, a, c, p);
    GuardStays(log + [a], b, c, p);
    GuardStays(log + [a] + [b], r, c, p);
  }

  lemma GuardSame(log: Log, a: Call, b: Call, p: Proposal)
    requires SameChecks(a, b)
    ensures Guard(log, a, p) == Guard(log, b, p)
  {
  }

  predicate SameChecks(a: Call, b: Call) {
    a.target == b.target && a.profiles == b.profiles && a.threshold == b.threshold
  }

  /** After a promotion, a second candidate of the proposal with a smaller id: a repeated call reports that one, and the
      promotion record names the other. */
  lemma SmallerCandidate(w: World, c: Call, r: Record, again: Call)
    requires Attempt(w, c).1.Promoted? && SameChecks(c, again) && CandidateOf(r.body, c.target) && r.id < c.first
    ensures var t := Step(Attempt(w, c).0, Appends(r));
            && Attempt(t, again) == (t, AlreadyPromoted(Existing(t.log, c.target).value))
            && Existing(t.log, c.target).value <= r.id
            && Latest(t.log, b => PromotionOf(b, c.target))
              == Some(Record(c.second, Body.Promotion(c.target, c.first, false)))
  {
    PromotedLog(w, c);
    var candidate := Record(c.first, Body.Candidate(c.target, Shortened(Choose(w.log, c).evidence)));
    var promotion := Record(c.second, Body.Promotion(c.target, c.first, false));
    var t := Step(Attempt(w, c).0, Appends(r));
    StillPasses(w.log, candidate, promotion, r, c);
    GuardSame(t.log, c, again, FindProposal(t.log, c.target).value);
    LastMatches(w.log + [candidate], promotion, b => PromotionOf(b, c.target));
    LatestStays(w.log + [candidate] + [promotion], r, b => PromotionOf(b, c.target));
    assert r in t.log;
    RecoversQuietly(t, again);
  }

  /** A log that promotes: a proposal citing one analysis, triaged and selected. */
  function ExampleLog(proposed: Record, analysis: Record, triage: Record, portfolio: Record): Log {
    [proposed] + [analysis] + [triage] + [portfolio]
  }

  lemma LookupSteps(log: Log, r: Record, id: nat)
    ensures Lookup(log + [r], id) == if r.id == id then Some(r.body) else Lookup(log, id)
    ensures Existing(log + [r], id)
            == if CandidateOf(r.body, id) && (Existing(log, id).None? || r.id < Existing(log, id).value) then Some(r.id)
               else Existing(log, id)
  {
    assert (log + [r])[..|log|] == log;
  }

  lemma GatherOne(log: Log, ids: seq<nat>, reference: nat)
    requires |ids| == 1 && CountsAsEvidence(log, ids[0], reference)
    ensures Gather(log, ids, reference) == Found(ids)
  {
    assert ids[..0] == [];
  }

  predicate Exemplary(proposed: Record, analysis: Record, triage: Record, portfolio: Record, c: Call) {
    && proposed.body.Proposed? && analysis.body == Analysis(None) && portfolio.body == Body.Portfolio([c.target])
    && triage.body.Triage? && triage.body.target == c.target && triage.body.eligible && triage.body.score >= c.threshold
    && var p := proposed.body.proposal;
       && p.id == c.target && |p.evidence| == 1 && p.evidence[0] == analysis.id
         && analysis.id !in {triage.id, portfolio.id}
       && p.program in c.profiles && p.reference == Some(c.profiles[p.program].reference)
       && p.asset in c.profiles[p.program].scope && p.category !in c.profiles[p.program].excluded
  }

  lemma ExampleGuard(proposed: Record, analysis: Record, triage: Record, portfolio: Record, c: Call)
    requires Exemplary(proposed, analysis, triage, portfolio, c)
    ensures var log := ExampleLog(proposed, analysis, triage, portfolio);
            FindProposal(log, c.target) == Some(proposed.body.proposal) && Guard(log, c, proposed.body.proposal).None?
  {
    var log2 := [proposed] + [analysis];
    var log := ExampleLog(proposed, analysis, triage, portfolio);
    LastMatches(log2, triage, b => TriageOf(b, c.target));
    LatestStays(log2 + [triage], portfolio, b => TriageOf(b, c.target));
    assert forall x | x in log :: !DedupOf(x.body, c.target);
    assert portfolio in log;
    assert log[0] == proposed;
  }

  lemma ExampleEvidence(proposed: Record, analysis: Record, triage: Record, portfolio: Record, c: Call)
    requires Exemplary(proposed, analysis, triage, portfolio, c)
    ensures var log, p := ExampleLog(proposed, analysis, triage, portfolio), proposed.body.proposal;
            Existing(log, c.target).None? && Gather(log, p.evidence, c.profiles[p.program].reference)
              == Found(p.evidence)
  {
    var one, log, p := [proposed], ExampleLog(proposed, analysis, triage, portfolio), proposed.body.proposal;
    LookupSteps(one, analysis, analysis.id);
    LookupSteps(one + [analysis], triage, analysis.id);
    LookupSteps(one + [analysis] + [triage], portfolio, analysis.id);
    assert forall x | x in log :: !CandidateOf(x.body, c.target);
    assert Existing(log, c.target).None?;
    GatherOne(log, p.evidence, c.profiles[p.program].reference);
  }

  /** From such a log the proposal is promoted with candidate 6; a candidate 5 is filed for it, and the next call
      reports 5 while the promotion record names 6. */
  lemma ReportedExample(proposed: Record, analysis: Record, triage: Record, portfolio: Record, c: Call, again: Call)
    requires Exemplary(proposed, analysis, triage, portfolio, c) && SameChecks(c, again)
    requires c.fieldsAccepted && c.writes == 3 && c.first == 6
    ensures var w := World(ExampleLog(proposed, analysis, triage, portfolio), START.ledger, []);
            var t := Step(Attempt(w, c).0, Appends(Record(5, Body.Candidate(c.target, [analysis.id]))));
            && Attempt(w, c).1 == Promoted(6, c.second) && Attempt(t, again) == (t, AlreadyPromoted(5))
            && Latest(t.log, b => PromotionOf(b, c.target))
              == Some(Record(c.second, Body.Promotion(c.target, 6, false)))
  {
    var w := World(ExampleLog(proposed, analysis, triage, portfolio), START.ledger, []);
    var r := Record(5, Body.Candidate(c.target, [analysis.id]));
    ExampleGuard(proposed, analysis, triage, portfolio, c);
    ExampleEvidence(proposed, analysis, triage, portfolio, c);
    CreatesFresh(w, c);
    ExampleLeast(w, c, r);
    SmallerCandidate(w, c, r, again);
  }

  lemma CreatesFresh(w: World, c: Call)
    requires var p := FindProposal(w.log, c.target);
             && p.Some? && Guard(w.log, c, p.value).None?
             && var evidence := Gather(w.log, p.value.evidence, c.profiles[p.value.program].reference);
                evidence.Found? && evidence.ids != []
    requires Existing(w.log, c.target).None? && c.fieldsAccepted && c.writes == 3
    ensures Attempt(w, c).1 == Promoted(c.first, c.second)
  {
  }

  lemma ExampleLeast(w: World, c: Call, r: Record)
    requires Attempt(w, c).1.Promoted? && Existing(w.log, c.target).None? && CandidateOf(r.body, c.target)
             && r.id < c.first
    ensures Existing(Step(Attempt(w, c).0, Appends(r)).log, c.target) == Some(r.id)
  {
    PromotedLog(w, c);
    var candidate := Record(c.first, Body.Candidate(c.target, Shortened(Choose(w.log, c).evidence)));
    var promotion := Record(c.second, Body.Promotion(c.target, c.first, false));
    LookupSteps(w.log, candidate, c.target);
    LookupSteps(w.log + [candidate], promotion, c.target);
    LookupSteps(w.log + [candidate] + [promotion], r, c.target);
  }

  // ----- Whole runs -----

  /** A call; a record that something other than promotion appends; or a status that something else gives a proposal in
      the ledger. */
  datatype Event = Calls(call: Call) | Appends(record: Record) | Indexes(proposal: nat, status: Status)

  predicate Possible(w: World, e: Event) {
    match e
    case Calls(c) => FreshCall(w, c)
    case Appends(r) => Admissible(w.log, r) && !r.body.Promotion?
    case Indexes(_, _) => true
  }

  function Step(w: World, e: Event): World {
    match e
    case Calls(c) => Attempt(w, c).0
    case Appends(r) => w.(log := w.log + [r])
    case Indexes(p, s) => w.(ledger := w.ledger.(statuses := w.ledger.statuses[p := s]))
  }

  const START := World([], Ledger(map[], map[], map[]), [])

  ghost predicate Run(worlds: seq<World>, events: seq<Event>) {
    && |worlds| == |events| + 1 && worlds[0] == START
    && forall i | 0 <= i < |events| :: Possible(worlds[i], events[i]) && worlds[i + 1] == Step(worlds[i], events[i])
  }

  /** Over any run of calls, each of which may stop before any of its writes, with anything but promotion records and
      repeated plans appended in between: promotion makes at most one candidate and at most one promotion record per
      proposal, every promotion record names a candidate that exists, a program plans an experiment once, and the
      ledger's rows are records of the log. */
  lemma {:induction false} RunSafe(worlds: seq<World>, events: seq<Event>, n: nat)
    requires Run(worlds, events) && n <= |events|
    ensures Safe(worlds[n])
  {
    if n > 0 {
      RunSafe(worlds, events, n - 1);
      var w := worlds[n - 1];
      match events[n - 1] {
        case Calls(c) => PromoteSafe(w, c);
        case Appends(r) => AppendSafe(w, r);
        case Indexes(_, _) =>
      }
    }
  }

  predicate Extends(a: Log, b: Log) {
    a <= b
  }

  lemma ExtendsTransitive(a: Log, b: Log, c: Log)
    requires Extends(a, b) && Extends(b, c)
    ensures Extends(a, c)
  {
  }

  lemma {:induction false} PerformedExtends(w: World, xs: seq<Write>)
    ensures Extends(w.log, Performed(w, xs).log)
  {
    if xs != [] {
      PerformedExtends(w, xs[..|xs| - 1]);
    }
  }

  lemma StepExtends(w: World, e: Event)
    ensures Extends(w.log, Step(w, e).log)
  {
    if e.Calls? {
      var xs := Intended(w.log, e.call).0;
      PerformedExtends(w, xs);
      PerformedExtends(w, xs[..if e.call.writes < |xs| then e.call.writes else |xs|]);
    }
  }

  predicate Follows(a: World, b: World) {
    Extends(a.log, b.log)
  }

  /** If each step extends the log, so do all of them together. */
  lemma {:induction false} ChainExtends(worlds: seq<World>, m: nat, n: nat)
    requires m <= n < |worlds| && forall i | 0 <= i < |worlds| - 1 :: Follows(worlds[i], worlds[i + 1])
    ensures Follows(worlds[m], worlds[n])
  {
    if m < n {
      ChainExtends(worlds, m, n - 1);
      ExtendsTransitive(worlds[m].log, worlds[n - 1].log, worlds[n].log);
    }
  }

  lemma RunExtends(worlds: seq<World>, events: seq<Event>, m: nat, n: nat)
    requires Run(worlds, events) && m <= n <= |events|
    ensures Extends(worlds[m].log, worlds[n].log)
  {
    forall i | 0 <= i < |events| ensures Follows(worlds[i], worlds[i + 1]) {
      StepExtends(worlds[i], events[i]);
    }
    ChainExtends(worlds, m, n);
  }

  lemma {:induction false} FindStays(a: Log, b: Log, p: nat)
    requires Extends(a, b) && FindProposal(a, p).Some?
    ensures FindProposal(b, p) == FindProposal(a, p)
  {
    assert a[0] == b[0];
    if !(a[0].body.Proposed? && a[0].body.proposal.id == p) {
      FindStays(a[1..], b[1..], p);
    }
  }

  /** A call that was stopped once a candidate of its proposal was in the log is completed by a later one: once its
      checks pass again, whatever happened in between, a call for the same proposal that runs to its end reports it as
      promoted, with one promotion record. */
  lemma StoppedIsRecovered(worlds: seq<World>, events: seq<Event>, m: nat, n: nat, c: Call)
    requires Run(worlds, events) && m < n <= |events| && events[m].Calls? && events[m].call.target == c.target
    requires Attempt(worlds[m], events[m].call).1.Stopped? && Existing(worlds[m + 1].log, c.target).Some?
    requires FreshCall(worlds[n], c) && c.writes >= 2
    requires var found := FindProposal(worlds[n].log, c.target);
             found.Some? && Guard(worlds[n].log, c, found.value).None?
    ensures var (t, o) := Attempt(worlds[n], c);
            o.AlreadyPromoted? && PromotedOnce(t.log, c.target) && Names(t.log, o.candidate, c.target)
  {
    RunSafe(worlds, events, n);
    RunExtends(worlds, events, m + 1, n);
    ExistingLater(worlds[m + 1].log, worlds[n].log, c.target);
    RecoversLater(worlds[n], c);
  }

  lemma ExistingLater(a: Log, b: Log, p: nat)
    requires Extends(a, b) && Existing(a, p).Some?
    ensures Existing(b, p).Some?
  {
    var x :| x in a && CandidateOf(x.body, p);
    assert x in b;
  }

  lemma RecoversLater(w: World, c: Call)
    requires Safe(w) && FreshCall(w, c) && c.writes >= 2 && Existing(w.log, c.target).Some?
    requires var found := FindProposal(w.log, c.target); found.Some? && Guard(w.log, c, found.value).None?
    ensures var (t, o) := Attempt(w, c);
            o.AlreadyPromoted? && PromotedOnce(t.log, c.target) && Names(t.log, o.candidate, c.target)
  {
    SuccessMeans(w, c);
  }

  // ----- What a call answers, read off the records of the log -----

  /** The first record that proposes `p` proposes `q`. */
  ghost predicate Proposes(log: Log, p: nat, q: Proposal) {
    exists i | 0 <= i < |log| :: log[i].body == Proposed(q) && q.id == p
      && forall j | 0 <= j < i :: !(log[j].body.Proposed? && log[j].body.proposal.id == p)
  }

  /** The last deduplication of `p` takes it for a duplicate. */
  ghost predicate LastDuplicate(log: Log, p: nat) {
    exists i | 0 <= i < |log| :: log[i].body == Dedup(p, true)
      && forall j | i < j < |log| :: !(log[j].body.Dedup? && log[j].body.target == p)
  }

  /** The last triage of `p` finds it eligible, with a score that reaches the threshold. */
  ghost predicate LastEligible(log: Log, p: nat, threshold: real) {
    exists i | 0 <= i < |log| :: log[i].body.Triage? && log[i].body.target == p && log[i].body.eligible
      && log[i].body.score >= threshold
      && forall j | i < j < |log| :: !(log[j].body.Triage? && log[j].body.target == p)
  }

  ghost predicate InPortfolio(log: Log, p: nat) {
    exists i | 0 <= i < |log| :: log[i].body.Portfolio? && p in log[i].body.members
  }

  ghost predicate HasCandidate(log: Log, p: nat) {
    exists i | 0 <= i < |log| :: log[i].body.Candidate? && log[i].body.target == p
  }

  ghost predicate HasPromotion(log: Log, p: nat) {
    exists i | 0 <= i < |log| :: log[i].body.Promotion? && log[i].body.target == p
  }

  ghost predicate Held(log: Log, id: nat) {
    exists i | 0 <= i < |log| :: log[i].id == id
  }

  /** An analysis of no program, or of the one whose approved reference is given. */
  ghost predicate OwnAnalysis(log: Log, id: nat, reference: nat) {
    exists i | 0 <= i < |log| ::
      log[i].id == id && (log[i].body == Analysis(None) || log[i].body == Analysis(Some(reference)))
  }

  ghost predicate ForeignAnalysis(log: Log, id: nat, reference: nat) {
    exists i | 0 <= i < |log| ::
      log[i].id == id && log[i].body.Analysis? && log[i].body.program.Some? && log[i].body.program.value != reference
  }

  lemma FirstProposes(log: Log, p: nat)
    ensures FindProposal(log, p).Some? ==> Proposes(log, p, FindProposal(log, p).value)
    ensures FindProposal(log, p).None? ==> forall i | 0 <= i < |log| ::
              !(log[i].body.Proposed? && log[i].body.proposal.id == p)
  {
    if log != [] && !(log[0].body.Proposed? && log[0].body.proposal.id == p) {
      FirstProposes(log[1..], p);
      if FindProposal(log, p).Some? {
        var q := FindProposal(log, p).value;
        var i :| 0 <= i < |log[1..]| && log[1..][i].body == Proposed(q) && q.id == p
                 && forall j | 0 <= j < i :: !(log[1..][j].body.Proposed? && log[1..][j].body.proposal.id == p);
        assert log[i + 1].body == Proposed(q);
        forall j | 0 <= j < i + 1 ensures !(log[j].body.Proposed? && log[j].body.proposal.id == p) {
          if j > 0 {
            assert log[1..][j - 1] == log[j];
          }
        }
      } else {
        forall i | 0 <= i < |log| ensures !(log[i].body.Proposed? && log[i].body.proposal.id == p) {
          if i > 0 {
            assert log[1..][i - 1] == log[i];
          }
        }
      }
    }
  }

  /** Record `i` is the last of its kind. */
  ghost predicate LastAt(log: Log, wanted: Body -> bool, i: int) {
    0 <= i < |log| && wanted(log[i].body) && forall j | i < j < |log| :: !wanted(log[j].body)
  }

  lemma {:induction false} LatestAt(log: Log, wanted: Body -> bool) returns (i: int)
    ensures Latest(log, wanted).Some? ==> LastAt(log, wanted, i) && log[i] == Latest(log, wanted).value
    ensures Latest(log, wanted).None? ==> forall k | 0 <= k < |log| :: !wanted(log[k].body)
  {
    i := |log| - 1;
    if log != [] && !wanted(log[i].body) {
      i := LatestAt(log[..|log| - 1], wanted);
    }
  }

  lemma DuplicateRead(log: Log, p: nat)
    ensures IsDuplicate(log, p) <==> LastDuplicate(log, p)
  {
    var i := LatestAt(log, b => DedupOf(b, p));
  }

  lemma EligibleRead(log: Log, p: nat, threshold: real)
    ensures EligibleAt(log, p, threshold) <==> LastEligible(log, p, threshold)
  {
    var i := LatestAt(log, b => TriageOf(b, p));
  }

  lemma SelectedRead(log: Log, p: nat)
    ensures IsSelected(log, p) <==> InPortfolio(log, p)
  {
  }

  lemma {:induction false} LookupRead(log: Log, id: nat)
    requires DistinctIds(log)
    ensures forall i | 0 <= i < |log| && log[i].id == id :: Lookup(log, id) == Some(log[i].body)
    ensures Lookup(log, id).Some? <==> Held(log, id)
  {
    if log != [] && log[|log| - 1].id != id {
      LookupRead(log[..|log| - 1], id);
    }
  }

  /** Where an id is cited first. */
  function Position(cited: seq<nat>, id: nat): (i: nat)
    requires id in cited
    ensures i < |cited| && cited[i] == id && forall j | 0 <= j < i :: cited[j] != id
  {
    if cited[0] == id then 0 else 1 + Position(cited[1..], id)
  }

  lemma PositionKept(cited: seq<nat>, x: nat, id: nat)
    requires id in cited
    ensures Position(cited + [x], id) == Position(cited, id)
  {
    var i, k := Position(cited + [x], id), Position(cited, id);
    assert (cited + [x])[k] == id;
  }

  lemma PositionLast(cited: seq<nat>, x: nat)
    requires x !in cited
    ensures Position(cited + [x], x) == |cited|
  {
    assert (cited + [x])[|cited|] == x;
  }

  /** The ids are in the order in which they are cited first. */
  ghost predicate InOrder(cited: seq<nat>, ids: seq<nat>) {
    && (forall id | id in ids :: id in cited)
    && forall a, b | 0 <= a < b < |ids| :: Position(cited, ids[a]) < Position(cited, ids[b])
  }

  /** The id can be read, and is not an analysis of another program. */
  ghost predicate Usable(log: Log, id: nat, reference: nat) {
    Held(log, id) && !ForeignAnalysis(log, id, reference)
  }

  lemma OwnRead(log: Log, id: nat, reference: nat)
    requires DistinctIds(log)
    ensures CountsAsEvidence(log, id, reference) <==> OwnAnalysis(log, id, reference)
    ensures ForeignAnalysis(log, id, reference)
            <==> Lookup(log, id).Some? && Lookup(log, id).value.Analysis? && !CountsAsEvidence(log, id, reference)
    ensures Lookup(log, id).Some? <==> Held(log, id)
  {
    LookupRead(log, id);
  }

  lemma InOrderMore(cited: seq<nat>, x: nat, ids: seq<nat>)
    requires InOrder(cited, ids) && x !in cited
    ensures InOrder(cited + [x], ids) && InOrder(cited + [x], ids + [x])
  {
    PositionLast(cited, x);
    forall id | id in ids ensures Position(cited + [x], id) == Position(cited, id) {
      PositionKept(cited, x, id);
    }
    assert forall a | 0 <= a < |ids| :: ids[a] in ids;
  }

  lemma InOrderAgain(cited: seq<nat>, x: nat, ids: seq<nat>)
    requires InOrder(cited, ids)
    ensures InOrder(cited + [x], ids)
  {
    forall id | id in ids ensures Position(cited + [x], id) == Position(cited, id) {
      PositionKept(cited, x, id);
    }
    assert forall a | 0 <= a < |ids| :: ids[a] in ids;
  }

  lemma {:induction false} GatherInOrder(log: Log, cited: seq<nat>, reference: nat)
    ensures Gather(log, cited, reference).Found? ==> InOrder(cited, Gather(log, cited, reference).ids)
  {
    if cited != [] {
      var front, x := cited[..|cited| - 1], cited[|cited| - 1];
      assert cited == front + [x];
      GatherInOrder(log, front, reference);
      var found := Gather(log, front, reference);
      if found.Found? {
        InOrderAgain(front, x, found.ids);
        if x !in front {
          InOrderMore(front, x, found.ids);
        }
      }
    }
  }

  /** The first citation that cannot be used, if there is one, decides why the evidence is refused. */
  ghost predicate RefusedFor(log: Log, cited: seq<nat>, reference: nat, e: Error) {
    exists i | 0 <= i < |cited| ::
      && !Usable(log, cited[i], reference) && (forall j | 0 <= j < i :: Usable(log, cited[j], reference))
      && e == (if Held(log, cited[i]) then EvidenceMismatch else EvidenceUnreadable)
  }

  lemma {:induction false} GatherRefuses(log: Log, cited: seq<nat>, reference: nat)
    requires DistinctIds(log)
    ensures var g := Gather(log, cited, reference);
            if g.Bad? then RefusedFor(log, cited, reference, g.error)
            else forall j | 0 <= j < |cited| :: Usable(log, cited[j], reference)
  {
    if cited != [] {
      var n := |cited| - 1;
      var front, x := cited[..n], cited[n];
      GatherRefuses(log, front, reference);
      OwnRead(log, x, reference);
      var g := Gather(log, front, reference);
      if g.Bad? {
        var i :| 0 <= i < |front| && !Usable(log, front[i], reference)
                 && (forall j | 0 <= j < i :: Usable(log, front[j], reference))
                 && g.error == (if Held(log, front[i]) then EvidenceMismatch else EvidenceUnreadable);
        assert front[i] == cited[i];
        assert forall j | 0 <= j < i :: front[j] == cited[j];
      } else {
        assert forall j | 0 <= j < n :: front[j] == cited[j];
        if x in front {
          var k :| 0 <= k < n && front[k] == x;
        }
      }
    }
  }

  /** What a created candidate cites: one to twenty of the proposal's own analyses, each once, in the order in which
      they are cited first, and all of them up to the last, unless there are more than twenty. */
  ghost predicate Cites(log: Log, cited: seq<nat>, reference: nat, ids: seq<nat>) {
    && 1 <= |ids| <= 20 && NoRepeats(ids) && InOrder(cited, ids)
    && (forall id | id in ids :: id in cited && OwnAnalysis(log, id, reference))
    && forall id | id in cited && OwnAnalysis(log, id, reference) && id !in ids ::
         |ids| == 20 && Position(cited, ids[19]) < Position(cited, id)
  }

  lemma GatherCites(log: Log, cited: seq<nat>, reference: nat)
    requires DistinctIds(log) && Gather(log, cited, reference).Found? && Gather(log, cited, reference).ids != []
    ensures Cites(log, cited, reference, Shortened(Gather(log, cited, reference).ids))
  {
    var all := Gather(log, cited, reference).ids;
    GatherExactly(log, cited, reference);
    GatherNoRepeats(log, cited, reference);
    GatherInOrder(log, cited, reference);
    forall id | id in cited ensures CountsAsEvidence(log, id, reference) <==> OwnAnalysis(log, id, reference) {
      OwnRead(log, id, reference);
    }
    ShortenedCites(log, cited, reference, all);
  }

  lemma ShortenedCites(log: Log, cited: seq<nat>, reference: nat, all: seq<nat>)
    requires all != [] && NoRepeats(all) && InOrder(cited, all)
    requires forall id :: id in all <==> id in cited && OwnAnalysis(log, id, reference)
    ensures Cites(log, cited, reference, Shortened(all))
  {
    var ids := Shortened(all);
    assert forall i | 0 <= i < |ids| :: ids[i] == all[i] && all[i] in all;
    forall id | id in cited && OwnAnalysis(log, id, reference) && id !in ids
      ensures |ids| == 20 && Position(cited, ids[19]) < Position(cited, id)
    {
      var k :| 0 <= k < |all| && all[k] == id;
      assert k >= |ids|;
    }
  }

  /** A state event saved, and the status it sets in the ledger. */
  ghost predicate StateSaved(w: World, id: nat, p: nat, status: Status, t: World) {
    t.log == w.log + [Record(id, Body.State(p, status))] && t.ledger.promotions == w.ledger.promotions
    && t.ledger.plans == w.ledger.plans && StatusSet(w, p, status, t)
  }

  ghost predicate StatusSet(w: World, p: nat, status: Status, t: World) {
    t.ledger.statuses.Keys == w.ledger.statuses.Keys
    && forall q | q in w.ledger.statuses && q in t.ledger.statuses ::
      t.ledger.statuses[q] == if q == p then status else w.ledger.statuses[q]
  }

  /** A promotion record saved after `before`, and its row in the ledger. */
  ghost predicate PromotionSaved(w: World, before: Log, promotion: Record, p: nat, t: World) {
    && t.log == before + [promotion] && t.ledger.plans == w.ledger.plans && StatusSet(w, p, PromotedStatus, t)
    && (p in w.ledger.promotions ==> t.ledger.promotions == w.ledger.promotions)
    && (p !in w.ledger.promotions && promotion.id !in w.ledger.promotions.Values ==>
          t.ledger.promotions == w.ledger.promotions[p := promotion.id])
  }

  /** The candidate of `p` with the least id. */
  ghost predicate LeastCandidate(log: Log, p: nat, id: nat) {
    && (exists i | 0 <= i < |log| :: log[i].body.Candidate? && log[i].body.target == p && log[i].id == id)
    && forall i | 0 <= i < |log| && log[i].body.Candidate? && log[i].body.target == p :: id <= log[i].id
  }

  ghost predicate PlannedBefore(log: Log, program: nat, fingerprint: nat) {
    exists i | 0 <= i < |log| ::
      log[i].body.Plan? && log[i].body.owner == program && log[i].body.fingerprint == fingerprint
  }

  /** A call that could make all its writes, for a proposal without usable analyses: the plan, unless it is known, and
      the proposal's new status. */
  ghost predicate AnsweredPlanning(w: World, c: Call, program: nat, t: World, o: Outcome) {
    if c.plan.None? then o == Rejected(PlanRejected) && t == w
    else
      var plan := Record(c.first, Body.Plan(c.target, program, c.plan.value));
      var before := w.log + if PlannedBefore(w.log, program, c.plan.value) then [] else [plan];
      && o == MoreEvidence && t.log == before + [Record(c.second, Body.State(c.target, NeedsMoreEvidence))]
      && t.ledger.promotions == w.ledger.promotions && StatusSet(w, c.target, NeedsMoreEvidence, t)
  }

  /** The same, for one with analyses of its own. */
  ghost predicate AnsweredCreating(w: World, c: Call, q: Proposal, reference: nat, t: World, o: Outcome) {
    if !c.fieldsAccepted then o == Rejected(CandidateRejected) && t == w
    else
      && o == Promoted(c.first, c.second)
      && |t.log| == |w.log| + 2 && t.log[|w.log|].id == c.first
      && var b := t.log[|w.log|].body;
         && b.Candidate? && b.target == c.target && Cites(w.log, q.evidence, reference, b.evidence)
         && PromotionSaved(w, w.log + [Record(c.first, b)],
                           Record(c.second, Body.Promotion(c.target, c.first, false)), c.target, t)
  }

  /** The same, for one whose candidate exists. */
  ghost predicate AnsweredRecovering(w: World, c: Call, t: World, o: Outcome) {
    && o.AlreadyPromoted? && LeastCandidate(w.log, c.target, o.candidate)
    && if HasPromotion(w.log, c.target) then t == w
       else PromotionSaved(w, w.log, Record(c.first, Body.Promotion(c.target, o.candidate, true)), c.target, t)
  }

  /** The same, for one that passes the checks: an existing candidate, evidence that cannot be used, analyses of its
      own, or none. */
  ghost predicate AnsweredOpen(w: World, c: Call, q: Proposal, reference: nat, t: World, o: Outcome) {
    if HasCandidate(w.log, c.target) then AnsweredRecovering(w, c, t, o)
    else if exists j | 0 <= j < |q.evidence| :: !Usable(w.log, q.evidence[j], reference) then
      t == w && o.Rejected? && RefusedFor(w.log, q.evidence, reference, o.error)
    else if exists id | id in q.evidence :: OwnAnalysis(w.log, id, reference) then
      AnsweredCreating(w, c, q, reference, t, o)
    else AnsweredPlanning(w, c, q.program, t, o)
  }

  /** The answer to a call that could make all its writes, check by check. */
  ghost predicate AnsweredFor(w: World, c: Call, q: Proposal, t: World, o: Outcome) {
    if q.program !in c.profiles then o == Rejected(NoProgram) && t == w
    else
      var profile := c.profiles[q.program];
      if q.reference != Some(profile.reference) then o == Rejected(ApprovalChanged) && t == w
      else if q.asset !in profile.scope then
        o == Rejected(OutsideProgram) && StateSaved(w, c.first, c.target, BlockedScope, t)
      else if q.category in profile.excluded then
        o == Rejected(Excluded) && StateSaved(w, c.first, c.target, ProgramExcluded, t)
      else if LastDuplicate(w.log, c.target) then o == Rejected(Duplicate) && t == w
      else if !LastEligible(w.log, c.target, c.threshold) then o == Rejected(TriageRequired) && t == w
      else if !InPortfolio(w.log, c.target) then o == Rejected(SelectionRequired) && t == w
      else AnsweredOpen(w, c, q, profile.reference, t, o)
  }

  ghost predicate Answered(w: World, c: Call, t: World, o: Outcome) {
    && ((exists i | 0 <= i < |w.log| :: w.log[i].body.Proposed? && w.log[i].body.proposal.id == c.target)
        || (o == Rejected(ProposalNotFound) && t == w))
    && forall q | Proposes(w.log, c.target, q) :: AnsweredFor(w, c, q, t, o)
  }

  lemma ProposesOne(log: Log, p: nat, a: Proposal, b: Proposal)
    requires Proposes(log, p, a) && Proposes(log, p, b)
    ensures a == b
  {
    var i :| 0 <= i < |log| && log[i].body == Proposed(a) && a.id == p
             && forall j | 0 <= j < i :: !(log[j].body.Proposed? && log[j].body.proposal.id == p);
    var k :| 0 <= k < |log| && log[k].body == Proposed(b) && b.id == p
             && forall j | 0 <= j < k :: !(log[j].body.Proposed? && log[j].body.proposal.id == p);
    assert !(i < k) && !(k < i);
  }

  lemma StatesWritten(w: World, id: nat, p: nat, status: Status)
    ensures StateSaved(w, id, p, status, Performed(w, StateWrites(id, p, status)))
  {
    Pair(w, Save(Record(id, Body.State(p, status))), StatusRow(p, status));
  }

  lemma PlanWritten(w: World, c: Call, program: nat)
    requires c.plan.Some? && !IsDuplicate(w.log, c.target)
    ensures var (xs, o) := Planned(w.log, c, program); AnsweredPlanning(w, c, program, Performed(w, xs), o)
  {
    var f := c.plan.value;
    var xs, ys := PlanWrites(w.log, c, program, f), StateWrites(c.second, c.target, NeedsMoreEvidence);
    PerformedConcat(w, xs, ys);
    StatesWritten(Performed(w, xs), c.second, c.target, NeedsMoreEvidence);
    Pair(w, Save(Record(c.first, Body.Plan(c.target, program, f))), PlanRow(c.target, f, c.first));
    assert PlanKnown(w.log, program, f) <==> PlannedBefore(w.log, program, f);
    assert w.log + [] == w.log;
  }

  lemma PromotionWritten(w: World, before: World, promotion: Record, p: nat)
    requires before.ledger == w.ledger && !promotion.body.Candidate?
    ensures PromotionSaved(w, before.log, promotion, p,
                           Written(Written(before, Save(promotion)), PromotionRow(p, promotion.id)))
  {
  }

  lemma CreationWritten(w: World, c: Call, q: Proposal, reference: nat)
    requires DistinctIds(w.log) && c.fieldsAccepted
    requires Gather(w.log, q.evidence, reference).Found? && Gather(w.log, q.evidence, reference).ids != []
    ensures AnsweredCreating(w, c, q, reference, Performed(w, Creation(c, Gather(w.log, q.evidence, reference).ids)),
                             Promoted(c.first, c.second))
  {
    var ids := Gather(w.log, q.evidence, reference).ids;
    var candidate := Record(c.first, Body.Candidate(c.target, Shortened(ids)));
    var promotion := Record(c.second, Body.Promotion(c.target, c.first, false));
    GatherCites(w.log, q.evidence, reference);
    Triple(w, Save(candidate), Save(promotion), PromotionRow(c.target, c.second));
    PromotionWritten(w, Written(w, Save(candidate)), promotion, c.target);
  }

  lemma PromotionRead(log: Log, p: nat)
    ensures Latest(log, b => PromotionOf(b, p)).Some? <==> HasPromotion(log, p)
  {
    var i := LatestAt(log, b => PromotionOf(b, p));
  }

  lemma RecoveryWritten(w: World, c: Call)
    requires Existing(w.log, c.target).Some?
    ensures var id := Existing(w.log, c.target).value;
            AnsweredRecovering(w, c, Performed(w, Recovery(w.log, c, id)), AlreadyPromoted(id))
  {
    var id := Existing(w.log, c.target).value;
    var promotion := Record(c.first, Body.Promotion(c.target, id, true));
    PromotionRead(w.log, c.target);
    Pair(w, Save(promotion), PromotionRow(c.target, c.first));
    PromotionWritten(w, w, promotion, c.target);
    LeastRead(w.log, c.target);
  }

  lemma LeastRead(log: Log, p: nat)
    ensures Existing(log, p).Some? <==> HasCandidate(log, p)
    ensures Existing(log, p).Some? ==> LeastCandidate(log, p, Existing(log, p).value)
  {
    if Existing(log, p).Some? {
      var x :| x in log && CandidateOf(x.body, p) && x.id == Existing(log, p).value;
      var i :| 0 <= i < |log| && log[i] == x;
    }
    forall i | 0 <= i < |log| && log[i].body.Candidate? && log[i].body.target == p
      ensures Existing(log, p).Some? && Existing(log, p).value <= log[i].id
    {
      assert log[i] in log;
    }
  }

  lemma EvidenceRead(log: Log, cited: seq<nat>, reference: nat)
    requires DistinctIds(log)
    ensures var g := Gather(log, cited, reference);
            && (g.Bad? <==> exists j | 0 <= j < |cited| :: !Usable(log, cited[j], reference))
            && (g.Bad? ==> RefusedFor(log, cited, reference, g.error))
            && (g.Found? ==> (g.ids != [] <==> exists id | id in cited :: OwnAnalysis(log, id, reference)))
  {
    GatherRefuses(log, cited, reference);
    SomeEvidence(log, cited, reference);
    forall id | id in cited ensures CountsAsEvidence(log, id, reference) <==> OwnAnalysis(log, id, reference) {
      OwnRead(log, id, reference);
    }
  }

  /** With four writes allowed, a call makes all of its. */
  lemma WholeAttempt(w: World, c: Call)
    requires c.writes >= 4
    ensures var (xs, o) := Carried(w.log, c, Choose(w.log, c)); Attempt(w, c) == (Performed(w, xs), o)
  {
  }

  lemma OpenChoice(w: World, c: Call, q: Proposal)
    requires FindProposal(w.log, c.target) == Some(q) && Guard(w.log, c, q).None?
    ensures var g := Gather(w.log, q.evidence, c.profiles[q.program].reference);
            Choose(w.log, c) == if Existing(w.log, c.target).Some? then Recovering(Existing(w.log, c.target).value)
                                else if g.Bad? then Failing(g.error)
                                else if g.ids == [] then Planning(q.program)
                                else if !c.fieldsAccepted then Failing(CandidateRejected)
                                else Creating(g.ids)
  {
  }

  lemma OpenAnswered(w: World, c: Call, q: Proposal)
    requires DistinctIds(w.log) && c.writes >= 4 && FindProposal(w.log, c.target) == Some(q)
             && Guard(w.log, c, q).None?
    ensures AnsweredOpen(w, c, q, c.profiles[q.program].reference, Attempt(w, c).0, Attempt(w, c).1)
  {
    WholeAttempt(w, c);
    OpenChoice(w, c, q);
    LeastRead(w.log, c.target);
    EvidenceRead(w.log, q.evidence, c.profiles[q.program].reference);
    ChoiceAnswered(w, c, q, Choose(w.log, c), c.profiles[q.program].reference);
  }

  predicate Recovers(log: Log, c: Call, d: Choice) {
    d.Recovering? && Existing(log, c.target) == Some(d.candidate)
  }

  predicate Creates(log: Log, c: Call, q: Proposal, d: Choice, reference: nat) {
    d.Creating? && Gather(log, q.evidence, reference) == Found(d.evidence) && d.evidence != [] && c.fieldsAccepted
  }

  lemma ChoiceAnswered(w: World, c: Call, q: Proposal, d: Choice, reference: nat)
    requires DistinctIds(w.log) && !IsDuplicate(w.log, c.target)
    ensures var (xs, o) := Carried(w.log, c, d);
            && (Recovers(w.log, c, d) ==> AnsweredRecovering(w, c, Performed(w, xs), o))
            && (d.Failing? ==> Performed(w, xs) == w && o == Rejected(d.error))
            && (d.Planning? ==> AnsweredPlanning(w, c, d.owner, Performed(w, xs), o))
            && (Creates(w.log, c, q, d, reference) ==> AnsweredCreating(w, c, q, reference, Performed(w, xs), o))
  {
    if Recovers(w.log, c, d) {
      RecoveryWritten(w, c);
    }
    if d.Planning? && c.plan.Some? {
      PlanWritten(w, c, d.owner);
    }
    if Creates(w.log, c, q, d, reference) {
      CreationWritten(w, c, q, reference);
    }
  }

  /** Whatever the log of distinct ids and the call, what `promote` answers and writes can be read off the records. */
  lemma AttemptAnswers(w: World, c: Call)
    requires DistinctIds(w.log) && c.writes >= 4
    ensures Answered(w, c, Attempt(w, c).0, Attempt(w, c).1)
  {
    FirstProposes(w.log, c.target);
    var found := FindProposal(w.log, c.target);
    if found.Some? {
      var q := found.value;
      DuplicateRead(w.log, c.target);
      EligibleRead(w.log, c.target, c.threshold);
      SelectedRead(w.log, c.target);
      StatesWritten(w, c.first, c.target, BlockedScope);
      StatesWritten(w, c.first, c.target, ProgramExcluded);
      if Guard(w.log, c, q).None? {
        OpenAnswered(w, c, q);
      }
      assert AnsweredFor(w, c, q, Attempt(w, c).0, Attempt(w, c).1);
      forall other | Proposes(w.log, c.target, other) ensures other == q {
        ProposesOne(w.log, c.target, q, other);
      }
    }
  }

  lemma EndedShort(w: World, xs: seq<Write>, writes: nat, o: Outcome)
    requires o != Stopped && |xs| <= 4
    ensures var (t, answer) := Ended(w, xs, writes, o);
            if answer == Stopped then writes < 4 && Extends(t.log, Performed(w, xs).log) && (writes == 0 ==> t == w)
            else t == Performed(w, xs) && answer == o
  {
    if writes < |xs| {
      assert xs == xs[..writes] + xs[writes..];
      PerformedConcat(w, xs[..writes], xs[writes..]);
      PerformedExtends(Performed(w, xs[..writes]), xs[writes..]);
    }
  }

  lemma IntendedShort(log: Log, c: Call)
    ensures |Intended(log, c).0| <= 4 && Intended(log, c).1 != Stopped
    ensures Intended(log, c.(writes := 4)) == Intended(log, c)
  {
    assert Choose(log, c.(writes := 4)) == Choose(log, c);
  }

  /** A call allowed fewer writes either makes all of its, and answers the same, or is stopped with the first of them
      made. */
  lemma StopsShort(w: World, c: Call)
    ensures var (t, o) := Attempt(w, c);
            var (whole, answer) := Attempt(w, c.(writes := 4));
            if o == Stopped then c.writes < 4 && Extends(t.log, whole.log) && (c.writes == 0 ==> t == w)
            else t == whole && o == answer
  {
    var (xs, o) := Intended(w.log, c);
    IntendedShort(w.log, c);
    EndedShort(w, xs, c.writes, o);
    EndedShort(w, xs, 4, o);
  }

  // ----- The controller as an object -----

  class ScoutController {
    var log: Log
    var ledger: Ledger
    ghost var made: seq<Made>

    ghost function View(): World
      reads this
    {
      World(log, ledger, made)
    }

    constructor ()
      ensures View() == START
    {
      log, ledger, made := [], Ledger(map[], map[], map[]), [];
    }

    method Save(id: nat, b: Body)
      modifies this`log, this`made
      ensures View() == Written(old(View()), Write.Save(Record(id, b)))
    {
      log := log + [Record(id, b)];
      made := MadeWith(made, Record(id, b));
    }

    /** The ledger's `record_promotion`, `record_experiment_plan` and `update_state`. */
    method RecordPromotion(p: nat, record: nat)
      modifies this`ledger
      ensures View() == Written(old(View()), PromotionRow(p, record))
    {
      if p !in ledger.promotions && record !in ledger.promotions.Values {
        ledger := ledger.(promotions := ledger.promotions[p := record]);
      }
      UpdateState(p, PromotedStatus);
    }

    method RecordPlan(p: nat, fingerprint: nat, record: nat)
      modifies this`ledger
      ensures View() == Written(old(View()), PlanRow(p, fingerprint, record))
    {
      if (p, fingerprint) !in ledger.plans && record !in ledger.plans.Values {
        ledger := ledger.(plans := ledger.plans[(p, fingerprint) := record]);
      }
    }

    method UpdateState(p: nat, s: Status)
      modifies this`ledger
      ensures View() == Written(old(View()), StatusRow(p, s))
    {
      if p in ledger.statuses {
        ledger := ledger.(statuses := ledger.statuses[p := s]);
      }
    }

    method Proposal(p: nat) returns (r: Option<Proposal>)
      ensures r == FindProposal(log, p)
    {
      r := None;
      for i := 0 to |log|
        invariant r.None? && FindProposal(log, p) == FindProposal(log[i..], p)
      {
        if log[i].body.Proposed? && log[i].body.proposal.id == p {
          return Some(log[i].body.proposal);
        }
      }
    }

    /** The last record of one kind for a proposal, as `_latest` keeps it. */
    method LatestOf(wanted: Body -> bool) returns (r: Option<Record>)
      ensures r == Latest(log, wanted)
    {
      r := None;
      for i := 0 to |log|
        invariant r == Latest(log[..i], wanted)
      {
        assert log[..i + 1][..i] == log[..i];
        if wanted(log[i].body) {
          r := Some(log[i]);
        }
      }
      assert log[..|log|] == log;
    }

    method Selected(p: nat) returns (r: bool)
      ensures r == IsSelected(log, p)
    {
      r := false;
      for i := 0 to |log|
        invariant !r && forall k | 0 <= k < i :: !(log[k].body.Portfolio? && p in log[k].body.members)
      {
        if log[i].body.Portfolio? && p in log[i].body.members {
          assert log[i] in log;
          return true;
        }
      }
    }

    method ExistingCandidate(p: nat) returns (r: Option<nat>)
      ensures r == Existing(log, p)
    {
      r := None;
      for i := 0 to |log|
        invariant r == Existing(log[..i], p)
      {
        assert log[..i + 1][..i] == log[..i];
        if CandidateOf(log[i].body, p) && (r.None? || log[i].id < r.value) {
          r := Some(log[i].id);
        }
      }
      assert log[..|log|] == log;
    }

    method EvidenceOf(ids: seq<nat>, reference: nat) returns (r: Evidence)
      ensures r == Gather(log, ids, reference)
    {
      var found: seq<nat> := [];
      for i := 0 to |ids|
        invariant Gather(log, ids[..i], reference) == Found(found)
      {
        assert ids[..i + 1][..i] == ids[..i];
        if ids[i] !in ids[..i] {
          var b := Lookup(log, ids[i]);
          if b.None? {
            GatherStops(log, ids, i + 1, reference);
            return Bad(EvidenceUnreadable);
          }
          if b.value.Analysis? {
            if b.value.program.Some? && b.value.program.value != reference {
              GatherStops(log, ids, i + 1, reference);
              return Bad(EvidenceMismatch);
            }
            found := found + [ids[i]];
          }
        }
      }
      assert ids[..|ids|] == ids;
      r := Found(found);
    }

    /** The checks of `promote` up to the portfolio selection. */
    method Check(c: Call, p: Proposal) returns (e: Option<Error>)
      ensures e == Guard(log, c, p)
    {
      if p.program !in c.profiles {
        return Some(NoProgram);
      }
      var profile := c.profiles[p.program];
      if p.reference != Some(profile.reference) {
        return Some(ApprovalChanged);
      }
      if p.asset !in profile.scope {
        return Some(OutsideProgram);
      }
      if p.category in profile.excluded {
        return Some(Excluded);
      }
      var relation := LatestOf(b => DedupOf(b, p.id));
      if relation.Some? && relation.value.body.duplicate {
        return Some(Duplicate);
      }
      var triage := LatestOf(b => TriageOf(b, p.id));
      if triage.None? || !triage.value.body.eligible || triage.value.body.score < c.threshold {
        return Some(TriageRequired);
      }
      var selected := Selected(p.id);
      if !selected {
        return Some(SelectionRequired);
      }
      e := None;
    }

    /** `_save_state`, for a call that may still complete `writes` writes. */
    method SaveState(id: nat, p: nat, status: Status, writes: nat, o: Outcome) returns (r: Outcome)
      modifies this
      ensures (View(), r) == Ended(old(View()), StateWrites(id, p, status), writes, o)
    {
      Pair(View(), Write.Save(Record(id, Body.State(p, status))), StatusRow(p, status));
      FirstWrite(View(), StateWrites(id, p, status));
      if writes == 0 {
        return Stopped;
      }
      Save(id, Body.State(p, status));
      if writes == 1 {
        return Stopped;
      }
      UpdateState(p, status);
      r := o;
    }

    method Recover(c: Call, candidate: nat) returns (o: Outcome)
      modifies this
      ensures (View(), o) == Ended(old(View()), Recovery(old(log), c, candidate), c.writes, AlreadyPromoted(candidate))
    {
      var previous := LatestOf(b => PromotionOf(b, c.target));
      if previous.None? {
        Pair(View(), Write.Save(Record(c.first, Body.Promotion(c.target, candidate, true))),
             PromotionRow(c.target, c.first));
        FirstWrite(View(), Recovery(log, c, candidate));
        if c.writes == 0 {
          return Stopped;
        }
        Save(c.first, Body.Promotion(c.target, candidate, true));
        if c.writes == 1 {
          return Stopped;
        }
        RecordPromotion(c.target, c.first);
      }
      o := AlreadyPromoted(candidate);
    }

    method Create(c: Call, evidence: seq<nat>) returns (o: Outcome)
      modifies this
      ensures (View(), o) == Ended(old(View()), Creation(c, evidence), c.writes, Promoted(c.first, c.second))
    {
      CreationSteps(View(), c, evidence);
      if c.writes == 0 {
        return Stopped;
      }
      Save(c.first, Body.Candidate(c.target, if |evidence| > 20 then evidence[..20] else evidence));
      if c.writes == 1 {
        return Stopped;
      }
      Save(c.second, Body.Promotion(c.target, c.first, false));
      if c.writes == 2 {
        return Stopped;
      }
      RecordPromotion(c.target, c.second);
      o := Promoted(c.first, c.second);
    }

    /** `plan_experiment`, without the state event that `promote` adds; `done` of the writes were made. */
    method PlanExperiment(c: Call, program: nat) returns (e: Option<Error>, done: nat, stopped: bool)
      modifies this
      ensures e == PlanError(old(log), c)
      ensures e.Some? ==> View() == old(View()) && !stopped
      ensures e.None? ==> var xs := PlanWrites(old(log), c, program, c.plan.value);
                          stopped == (c.writes < |xs|)
                          && View() == Performed(old(View()), if stopped then xs[..c.writes] else xs) && done == |xs|
    {
      e, done, stopped := None, 0, false;
      var relation := LatestOf(b => DedupOf(b, c.target));
      if relation.Some? && relation.value.body.duplicate {
        return Some(DuplicatePlan), 0, false;
      }
      if c.plan.None? {
        return Some(PlanRejected), 0, false;
      }
      if !exists r | r in log :: r.body.Plan? && r.body.owner == program && r.body.fingerprint == c.plan.value {
        var b := Body.Plan(c.target, program, c.plan.value);
        Pair(View(), Write.Save(Record(c.first, b)), PlanRow(c.target, c.plan.value, c.first));
        FirstWrite(View(), PlanWrites(log, c, program, c.plan.value));
        done := 2;
        if c.writes == 0 {
          return None, done, true;
        }
        Save(c.first, b);
        if c.writes == 1 {
          return None, done, true;
        }
        RecordPlan(c.target, c.plan.value, c.first);
      }
    }

    method Plan(c: Call, program: nat) returns (o: Outcome)
      modifies this
      ensures var (xs, end) := Planned(old(log), c, program); (View(), o) == Ended(old(View()), xs, c.writes, end)
    {
      ghost var w := View();
      var e, done, stopped := PlanExperiment(c, program);
      if e.Some? {
        return Rejected(e.value);
      }
      ghost var xs, ys := PlanWrites(w.log, c, program, c.plan.value),
        StateWrites(c.second, c.target, NeedsMoreEvidence);
      EndedConcat(w, xs, ys, c.writes, MoreEvidence);
      if stopped {
        return Stopped;
      }
      o := SaveState(c.second, c.target, NeedsMoreEvidence, c.writes - done, MoreEvidence);
    }

    method Promote(c: Call) returns (o: Outcome)
      modifies this
      ensures (View(), o) == Attempt(old(View()), c)
      ensures DistinctIds(old(log)) && c.writes >= 4 ==> Answered(old(View()), c, View(), o)
    {
      if DistinctIds(log) && c.writes >= 4 {
        AttemptAnswers(View(), c);
      }
      var found := Proposal(c.target);
      if found.None? {
        return Rejected(ProposalNotFound);
      }
      var p := found.value;
      var blocked := Check(c, p);
      if blocked == Some(OutsideProgram) {
        o := SaveState(c.first, c.target, BlockedScope, c.writes, Rejected(OutsideProgram));
        return;
      }
      if blocked == Some(Excluded) {
        o := SaveState(c.first, c.target, ProgramExcluded, c.writes, Rejected(Excluded));
        return;
      }
      if blocked.Some? {
        return Rejected(blocked.value);
      }
      o := Proceed(c, p);
    }

    /** The rest of `promote`, for a proposal that passes the checks. */
    method Proceed(c: Call, p: Proposal) returns (o: Outcome)
      requires FindProposal(log, c.target) == Some(p) && Guard(log, c, p).None?
      modifies this
      ensures (View(), o) == Attempt(old(View()), c)
    {
      var existing := ExistingCandidate(c.target);
      if existing.Some? {
        o := Recover(c, existing.value);
        return;
      }
      var evidence := EvidenceOf(p.evidence, c.profiles[p.program].reference);
      if evidence.Bad? {
        return Rejected(evidence.error);
      }
      if evidence.ids == [] {
        o := Plan(c, p.program);
      } else if !c.fieldsAccepted {
        o := Rejected(CandidateRejected);
      } else {
        o := Create(c, evidence.ids);
      }
    }
  }

  lemma CreationSteps(w: World, c: Call, evidence: seq<nat>)
    ensures var xs := Creation(c, evidence);
            && Performed(w, xs[..0]) == w && Performed(w, xs[..1]) == Written(w, xs[0])
            && Performed(w, xs[..2]) == Written(Written(w, xs[0]), xs[1])
            && Performed(w, xs) == Written(Written(Written(w, xs[0]), xs[1]), xs[2])
  {
    var xs := Creation(c, evidence);
    FirstWrite(w, xs);
    PerformedNext(w, xs, 1);
    PerformedNext(w, xs, 2);
    assert xs[..3] == xs;
  }

  /** Writing two lists one after the other, stopped in the first or in the second. */
  lemma EndedConcat(w: World, xs: seq<Write>, ys: seq<Write>, writes: nat, o: Outcome)
    ensures Ended(w, xs + ys, writes, o)
            == if writes < |xs| then (Performed(w, xs[..writes]), Stopped)
              else Ended(Performed(w, xs), ys, writes - |xs|, o)
  {
    PerformedConcat(w, xs, ys);
    if writes < |xs| {
      assert (xs + ys)[..writes] == xs[..writes];
    } else if writes < |xs + ys| {
      assert (xs + ys)[..writes] == xs + ys[..writes - |xs|];
      PerformedConcat(w, xs, ys[..writes - |xs|]);
    }
  }

  /** The first piece of evidence that cannot be used decides. */
  lemma {:induction false} GatherStops(log: Log, ids: seq<nat>, n: nat, reference: nat)
    requires n <= |ids| && Gather(log, ids[..n], reference).Bad?
    ensures Gather(log, ids, reference) == Gather(log, ids[..n], reference)
    decreases |ids|
  {
    if n == |ids| {
      assert ids[..n] == ids;
    } else {
      var front := ids[..|ids| - 1];
      assert front[..n] == ids[..n];
      GatherStops(log, front, n, reference);
    }
  }
}
