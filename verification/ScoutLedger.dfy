/** The rebuildable index over the append-only event log (scout_ledger.py). Tables are maps, a transaction is one
    step, and record ids are numbers whose order is the order of the hexadecimal text. */
module ScoutLedger {
  import opened Wrappers
  import opened Collections

  // ----- Events and tables -----

  datatype Status = Proposed | Deduped | Triaged | BlockedScope | NeedsMoreEvidence | NotWanted | Selected | Promoted

  datatype Verdict = Eligible | OutOfScope | LowEvidence | ProgramExcluded | BelowThreshold | IdentityUnavailable
    | BudgetExceeded

  datatype FactKind = Outcome | Snapshot | Plan | Performance

  datatype Member = Member(proposal: nat, reason: nat, expected: real)

  /** The payload of a record. `columns` are the values a table keeps unique, besides its record id. */
  datatype Body =
    | Proposal(proposal: nat, facts: nat, initial: Status)
    | Dedup(proposal: nat, duplicate: bool, duplicateOf: Option<nat>, similarity: real)
    | Triage(proposal: nat, score: real, cost: real, expected: real, verdict: Verdict)
    | Portfolio(run: nat, facts: nat, members: seq<Member>, modelCalls: nat)
    | Promotion(proposal: nat, candidate: nat)
    | State(proposal: nat, status: Status)
    | Evaluation(input: nat, cacheKey: Option<nat>, facts: nat)
    | Fact(kind: FactKind, columns: seq<nat>, authorizing: bool)
    | Other

  datatype Record = Record(id: nat, at: int, body: Body)

  datatype Row = Row(record: nat, facts: nat, status: Status, dedupGroup: Option<nat>, score: Option<real>,
                     expected: Option<real>, selected: bool)

  /** The tables whose rows are inserted unless a unique column is taken. Each is keyed by record. */
  datatype Kind = Dedups | Triages | Runs | Promotions | Facts

  datatype Tables = Tables(
    proposals: map<nat, Row>,
    dedups: map<nat, Body>,
    triages: map<nat, Body>,
    runs: map<nat, Body>,
    members: map<(nat, nat), Member>,
    usage: set<nat>,
    promotions: map<nat, Body>,
    evaluations: map<nat, Body>,
    cache: map<nat, Body>,
    facts: map<nat, Body>)

  const EMPTY := Tables(map[], map[], map[], map[], map[], {}, map[], map[], map[], map[])

  // ----- What one event does -----

  function WithStatus(rows: map<nat, Row>, p: nat, s: Status): map<nat, Row> {
    if p in rows then rows[p := rows[p].(status := s)] else rows
  }

  predicate Final(s: Status) {
    s == Selected || s == Promoted || s == Deduped
  }

  function StatusOf(v: Verdict): Status {
    match v
    case Eligible => Triaged
    case OutOfScope => BlockedScope
    case LowEvidence => NeedsMoreEvidence
    case ProgramExcluded | BelowThreshold | IdentityUnavailable | BudgetExceeded => NotWanted
  }

  function NewRow(id: nat, b: Body): Row
    requires b.Proposal?
  {
    Row(id, b.facts, b.initial, None, None, None, false)
  }

  /** The proposal has a row, or the record has created one. */
  predicate Known(rows: map<nat, Row>, id: nat, p: nat) {
    p in rows || exists q | q in rows :: rows[q].record == id
  }

  function InsertedRow(rows: map<nat, Row>, id: nat, b: Body): map<nat, Row>
    requires b.Proposal?
  {
    if Known(rows, id, b.proposal) then rows else rows[b.proposal := NewRow(id, b)]
  }

  predicate Listed(members: seq<Member>, p: nat) {
    members != [] && (members[|members| - 1].proposal == p || Listed(members[..|members| - 1], p))
  }

  /** What an event does to the row of a proposal. */
  function RowStep(row: Row, b: Body, p: nat): Row {
    match b
    case Dedup(q, duplicate, of, _) => if q == p && duplicate then row.(dedupGroup := of, status := Deduped) else row
    case Triage(q, score, _, expected, verdict) =>
      if q == p && !Final(row.status) then
        row.(score := Some(score), expected := Some(expected), status := StatusOf(verdict)) else row
    case Portfolio(_, _, members, _) => if Listed(members, p) then row.(selected := true, status := Selected) else row
    case Promotion(q, _) => if q == p then row.(status := Promoted) else row
    case State(q, s) => if q == p then row.(status := s) else row
    case _ => row
  }

  function Rows(rows: map<nat, Row>, b: Body): map<nat, Row> {
    map p | p in rows :: RowStep(rows[p], b, p)
  }

  function RowsAfter(rows: map<nat, Row>, id: nat, b: Body): map<nat, Row> {
    if b.Proposal? then InsertedRow(rows, id, b) else Rows(rows, b)
  }

  function MembersKept(kept: map<(nat, nat), Member>, run: nat, members: seq<Member>): map<(nat, nat), Member> {
    if members == [] then kept
    else Kept(MembersKept(kept, run, members[..|members| - 1]), (run, members[|members| - 1].proposal),
              members[|members| - 1])
  }

  /** Two events of one table that share a value of a column it keeps unique. */
  predicate Clash(a: Body, b: Body) {
    match (a, b)
    case (Portfolio(r, _, _, _), Portfolio(s, _, _, _)) => r == s
    case (Promotion(p, c), Promotion(q, d)) => p == q || c == d
    case (Fact(k, x, _), Fact(l, y, _)) => k == l && exists i | 0 <= i < |x| && i < |y| :: x[i] == y[i]
    case _ => false
  }

  predicate Taken(m: map<nat, Body>, id: nat, b: Body) {
    id in m || exists r | r in m :: Clash(m[r], b)
  }

  function TableOf(b: Body): Option<Kind> {
    match b
    case Dedup(_, _, _, _) => Some(Dedups)
    case Triage(_, _, _, _, _) => Some(Triages)
    case Portfolio(_, _, _, _) => Some(Runs)
    case Promotion(_, _) => Some(Promotions)
    case Fact(_, _, _) => Some(Facts)
    case _ => None
  }

  /** INSERT OR IGNORE into the table of the event. */
  function Inserted(k: Kind, m: map<nat, Body>, id: nat, b: Body): map<nat, Body> {
    if TableOf(b) == Some(k) && !Taken(m, id, b) then m[id := b] else m
  }

  // What an event does to each of the tables other than the proposals and these.

  function MembersAfter(m: map<(nat, nat), Member>, b: Body): map<(nat, nat), Member> {
    if b.Portfolio? then MembersKept(m, b.run, b.members) else m
  }

  function UsageAfter(m: set<nat>, id: nat, b: Body): set<nat> {
    if b.Portfolio? && b.modelCalls > 0 then m + {id} else m
  }

  function EvaluationsAfter(m: map<nat, Body>, b: Body): map<nat, Body> {
    if b.Evaluation? then m[b.input := b] else m
  }

  function CacheAfter(m: map<nat, Body>, b: Body): map<nat, Body> {
    if b.Evaluation? && b.cacheKey.Some? then m[b.cacheKey.value := b] else m
  }

  function Others(t: Tables, id: nat, b: Body): Tables {
    Tables(t.proposals, Inserted(Dedups, t.dedups, id, b), Inserted(Triages, t.triages, id, b),
           Inserted(Runs, t.runs, id, b), MembersAfter(t.members, b), UsageAfter(t.usage, id, b),
           Inserted(Promotions, t.promotions, id, b), EvaluationsAfter(t.evaluations, b), CacheAfter(t.cache, b),
           Inserted(Facts, t.facts, id, b))
  }

  /** `_record_event`. */
  function Apply(t: Tables, r: Record): Tables {
    Others(t, r.id, r.body).(proposals := RowsAfter(t.proposals, r.id, r.body))
  }

  /** An experiment plan that authorises something is refused. */
  predicate Acceptable(r: Record) {
    !(r.body.Fact? && r.body.kind == Plan && r.body.authorizing)
  }

  predicate AllAcceptable(s: seq<Record>) {
    forall i | 0 <= i < |s| :: Acceptable(s[i])
  }

  function Fold(t: Tables, s: seq<Record>): Tables {
    if s == [] then t else Apply(Fold(t, s[..|s| - 1]), s[|s| - 1])
  }

  lemma {:induction false} FoldConcat(t: Tables, a: seq<Record>, b: seq<Record>)
    ensures Fold(t, a + b) == Fold(Fold(t, a), b)
  {
    if b == [] {
      assert a + b == a;
    } else {
      var n := |b| - 1;
      assert (a + b)[..|a + b| - 1] == a + b[..n];
      FoldConcat(t, a, b[..n]);
    }
  }

  /** No two promotion rows share a proposal or a candidate. */
  ghost predicate PromotionsApart(m: map<nat, Body>) {
    && (forall k | k in m :: m[k].Promotion?)
    && (forall j, k | j in m && k in m && j != k :: !Clash(m[j], m[k]))
  }

  lemma InsertedApart(m: map<nat, Body>, id: nat, b: Body)
    requires PromotionsApart(m)
    ensures PromotionsApart(Inserted(Promotions, m, id, b))
  {
  }

  /** Whatever events are indexed, in whatever order, a proposal and a candidate each keep at most one promotion row. */
  lemma {:induction false} FoldPromotions(t: Tables, s: seq<Record>)
    requires PromotionsApart(t.promotions)
    ensures PromotionsApart(Fold(t, s).promotions)
  {
    if s != [] {
      FoldPromotions(t, s[..|s| - 1]);
      InsertedApart(Fold(t, s[..|s| - 1]).promotions, s[|s| - 1].id, s[|s| - 1].body);
    }
  }

  // ----- What each kind of event leaves, column by column -----

  /** The rows after an event are those before, but for what `changed` says of the row of each proposal. */
  ghost predicate RowsChanged(rows: map<nat, Row>, after: map<nat, Row>, changed: (nat, Row, Row) -> bool) {
    after.Keys == rows.Keys && forall p: nat | p in rows && p in after :: changed(p, rows[p], after[p])
  }

  /** A decided proposal keeps its row; any other takes the scores, and the status the verdict stands for. */
  predicate TriagedTo(b: Body, row: Row, after: Row)
    requires b.Triage?
  {
    if row.status in {Selected, Promoted, Deduped} then after == row
    else
      && after == row.(score := Some(b.score), expected := Some(b.expected), status := after.status)
      && (b.verdict == Eligible ==> after.status == Triaged)
      && (b.verdict == OutOfScope ==> after.status == BlockedScope)
      && (b.verdict == LowEvidence ==> after.status == NeedsMoreEvidence)
      && (b.verdict in {ProgramExcluded, BelowThreshold, IdentityUnavailable, BudgetExceeded}
          ==> after.status == NotWanted)
  }

  predicate IsMember(members: seq<Member>, p: nat) {
    exists i | 0 <= i < |members| :: members[i].proposal == p
  }

  /** A record is added to a table of records unless it is there already or `clash` with one that is. */
  ghost predicate RecordAdded(m: map<nat, Body>, after: map<nat, Body>, id: nat, b: Body, clash: Body -> bool) {
    if id in m || exists k | k in m :: clash(m[k]) then after == m else after == m[id := b]
  }

  /** The first member of each proposal is added to the run, unless the run has one. */
  ghost predicate MembersAdded(m: map<(nat, nat), Member>, after: map<(nat, nat), Member>, run: nat,
                               members: seq<Member>)
  {
    && (forall k | k in m :: k in after && after[k] == m[k])
    && (forall k | k in after && k !in m :: k.0 == run && IsMember(members, k.1))
    && forall i | FirstMember(members, i) && (run, members[i].proposal) !in m ::
         (run, members[i].proposal) in after && after[(run, members[i].proposal)] == members[i]
  }

  /** What an event leaves of `t`. */
  ghost predicate Affects(t: Tables, r: Record, u: Tables) {
    match r.body
    case Proposal(p, facts, initial) =>
      if p in t.proposals || exists q | q in t.proposals :: t.proposals[q].record == r.id then u == t
      else u == t.(proposals := t.proposals[p := Row(r.id, facts, initial, None, None, None, false)])
    case Dedup(p, duplicate, of, _) =>
      && u == t.(proposals := u.proposals, dedups := u.dedups)
      && RecordAdded(t.dedups, u.dedups, r.id, r.body, (b: Body) => false)
      && RowsChanged(t.proposals, u.proposals, (q: nat, row: Row, after: Row) =>
            after == if q == p && duplicate then row.(dedupGroup := of, status := Deduped) else row)
    case Triage(p, _, _, _, _) =>
      && u == t.(proposals := u.proposals, triages := u.triages)
      && RecordAdded(t.triages, u.triages, r.id, r.body, (b: Body) => false)
      && RowsChanged(t.proposals, u.proposals, (q: nat, row: Row, after: Row) =>
            if q == p then TriagedTo(r.body, row, after) else after == row)
    case Portfolio(run, _, members, calls) =>
      && u == t.(proposals := u.proposals, runs := u.runs, members := u.members, usage := u.usage)
      && RecordAdded(t.runs, u.runs, r.id, r.body, (b: Body) => b.Portfolio? && b.run == run)
      && MembersAdded(t.members, u.members, run, members)
      && u.usage == (if calls > 0 then t.usage + {r.id} else t.usage)
      && RowsChanged(t.proposals, u.proposals, (q: nat, row: Row, after: Row) =>
            after == if IsMember(members, q) then row.(selected := true, status := Selected) else row)
    case Promotion(p, candidate) =>
      && u == t.(proposals := u.proposals, promotions := u.promotions)
      && RecordAdded(t.promotions, u.promotions, r.id, r.body,
                     (b: Body) => b.Promotion? && (b.proposal == p || b.candidate == candidate))
      && RowsChanged(t.proposals, u.proposals, (q: nat, row: Row, after: Row) =>
            after == if q == p then row.(status := Promoted) else row)
    case State(p, status) =>
      && u == t.(proposals := u.proposals)
      && RowsChanged(t.proposals, u.proposals, (q: nat, row: Row, after: Row) =>
            after == if q == p then row.(status := status) else row)
    case Evaluation(input, key, _) =>
      u == t.(evaluations := t.evaluations[input := r.body],
              cache := if key.Some? then t.cache[key.value := r.body] else t.cache)
    case Fact(kind, columns, _) =>
      && u == t.(facts := u.facts)
      && RecordAdded(t.facts, u.facts, r.id, r.body,
                     (b: Body) => b.Fact? && b.kind == kind && SharesColumn(b.columns, columns))
    case Other => u == t
  }

  predicate SharesColumn(a: seq<nat>, b: seq<nat>) {
    exists i | 0 <= i < |a| && i < |b| :: a[i] == b[i]
  }

  lemma {:induction false} ListedRead(members: seq<Member>, p: nat)
    ensures Listed(members, p) <==> IsMember(members, p)
  {
    if members != [] {
      var n := |members| - 1;
      ListedRead(members[..n], p);
      if i :| 0 <= i < |members| && members[i].proposal == p {
        assert i < n ==> members[..n][i] == members[i];
      }
    }
  }

  /** Member `i` is the first of its proposal. */
  ghost predicate FirstMember(members: seq<Member>, i: int) {
    0 <= i < |members| && forall j | 0 <= j < i :: members[j].proposal != members[i].proposal
  }

  lemma {:induction false} MembersRead(m: map<(nat, nat), Member>, run: nat, members: seq<Member>)
    ensures MembersAdded(m, MembersKept(m, run, members), run, members)
  {
    if members != [] {
      var n := |members| - 1;
      MembersRead(m, run, members[..n]);
      MemberRead(m, MembersKept(m, run, members[..n]), run, members);
    }
  }

  lemma MemberRead(m: map<(nat, nat), Member>, before: map<(nat, nat), Member>, run: nat, members: seq<Member>)
    requires members != [] && MembersAdded(m, before, run, members[..|members| - 1])
    ensures MembersAdded(m, Kept(before, (run, members[|members| - 1].proposal), members[|members| - 1]), run, members)
  {
    var n := |members| - 1;
    var front, last := members[..n], members[n];
    var so := Kept(before, (run, last.proposal), last);
    assert IsMember(members, last.proposal);
    forall p: nat | IsMember(front, p) ensures IsMember(members, p) {
      var i :| 0 <= i < n && front[i].proposal == p;
      assert members[i].proposal == p;
    }
    forall i | FirstMember(members, i) && (run, members[i].proposal) !in m
      ensures (run, members[i].proposal) in so && so[(run, members[i].proposal)] == members[i]
    {
      if i < n {
        assert FirstMember(front, i) && front[i] == members[i];
      } else {
        assert !IsMember(front, last.proposal) by {
          assert forall j | 0 <= j < n :: front[j] == members[j];
        }
      }
    }
  }

  lemma RowsRead(rows: map<nat, Row>, b: Body)
    requires !b.Proposal?
    ensures Rows(rows, b).Keys == rows.Keys && forall p | p in rows :: Rows(rows, b)[p] == RowStep(rows[p], b, p)
  {
  }

  lemma ProposalAffects(t: Tables, r: Record)
    requires r.body.Proposal?
    ensures Affects(t, r, Apply(t, r))
  {
  }

  lemma DedupAffects(t: Tables, r: Record)
    requires r.body.Dedup?
    ensures Affects(t, r, Apply(t, r))
  {
    RowsRead(t.proposals, r.body);
    var b, u := r.body, Apply(t, r);
    forall q | q in t.proposals
      ensures RowStep(t.proposals[q], b, q)
              == if q == b.proposal && b.duplicate then t.proposals[q].(dedupGroup := b.duplicateOf, status := Deduped)
                 else t.proposals[q]
    {
    }
    assert u == t.(proposals := u.proposals, dedups := u.dedups);
  }

  lemma TriageAffects(t: Tables, r: Record)
    requires r.body.Triage?
    ensures Affects(t, r, Apply(t, r))
  {
    RowsRead(t.proposals, r.body);
    var p, u := r.body.proposal, Apply(t, r);
    if p in t.proposals {
      TriageRead(t.proposals[p], r.body);
    }
    forall q | q in t.proposals && q != p ensures RowStep(t.proposals[q], r.body, q) == t.proposals[q] {
    }
    assert u == t.(proposals := u.proposals, triages := u.triages);
  }

  lemma TriageRead(row: Row, b: Body)
    requires b.Triage?
    ensures TriagedTo(b, row, RowStep(row, b, b.proposal))
  {
  }

  lemma StateAffects(t: Tables, r: Record)
    requires r.body.State?
    ensures Affects(t, r, Apply(t, r))
  {
    RowsRead(t.proposals, r.body);
    var b, u := r.body, Apply(t, r);
    forall q | q in t.proposals
      ensures RowStep(t.proposals[q], b, q)
              == if q == b.proposal then t.proposals[q].(status := b.status) else t.proposals[q]
    {
    }
    assert u == t.(proposals := u.proposals);
  }

  lemma PromotionAffects(t: Tables, r: Record)
    requires r.body.Promotion?
    ensures Affects(t, r, Apply(t, r))
  {
    RowsRead(t.proposals, r.body);
    var b, u := r.body, Apply(t, r);
    forall q | q in t.proposals
      ensures RowStep(t.proposals[q], b, q)
              == if q == b.proposal then t.proposals[q].(status := Promoted) else t.proposals[q]
    {
    }
    assert u == t.(proposals := u.proposals, promotions := u.promotions);
  }

  lemma FactAffects(t: Tables, r: Record)
    requires r.body.Evaluation? || r.body.Fact? || r.body.Other?
    ensures Affects(t, r, Apply(t, r))
  {
    assert Rows(t.proposals, r.body) == t.proposals;
  }

  /** Applying an event leaves what its kind says. */
  lemma ApplyAffects(t: Tables, r: Record)
    ensures Affects(t, r, Apply(t, r))
  {
    match r.body {
      case Proposal(_, _, _) => ProposalAffects(t, r);
      case Dedup(_, _, _, _) => DedupAffects(t, r);
      case Triage(_, _, _, _, _) => TriageAffects(t, r);
      case Portfolio(_, _, _, _) => PortfolioAffects(t, r);
      case Promotion(_, _) => PromotionAffects(t, r);
      case State(_, _) => StateAffects(t, r);
      case _ => FactAffects(t, r);
    }
  }

  lemma PortfolioAffects(t: Tables, r: Record)
    requires r.body.Portfolio?
    ensures Affects(t, r, Apply(t, r))
  {
    MembersRead(t.members, r.body.run, r.body.members);
    forall p ensures Listed(r.body.members, p) <==> IsMember(r.body.members, p) {
      ListedRead(r.body.members, p);
    }
  }

  /** So every event of a fold takes effect on what the earlier ones left. */
  lemma FoldAffects(t: Tables, s: seq<Record>, n: nat)
    requires n < |s|
    ensures Affects(Fold(t, s[..n]), s[n], Fold(t, s[..n + 1]))
  {
    assert s[..n + 1][..n] == s[..n];
    ApplyAffects(Fold(t, s[..n]), s[n]);
  }

  // ----- The index -----

  datatype Index = Index(tables: Tables, indexed: set<nat>)

  const NOTHING := Index(EMPTY, {})

  function Ids(s: seq<Record>): set<nat> {
    set r | r in s :: r.id
  }

  lemma IdsConcat(a: seq<Record>, b: seq<Record>)
    ensures Ids(a + b) == Ids(a) + Ids(b)
  {
  }

  lemma IdsOf(s: seq<Record>)
    ensures forall r | r in s :: r.id in Ids(s)
  {
  }

  /** All of `records` recorded in order and marked as indexed. */
  function Batched(ix: Index, records: seq<Record>): Index {
    Index(Fold(ix.tables, records), ix.indexed + Ids(records))
  }

  predicate Before(a: Record, b: Record) {
    a.at < b.at || (a.at == b.at && a.id < b.id)
  }

  /** The order of a sync: by time, then by id. */
  function Order(): (Record, Record) -> bool {
    (a: Record, b: Record) => Before(a, b) || (a.at == b.at && a.id == b.id)
  }

  lemma OrderTotal()
    ensures TotalPreorder(Order())
  {
  }

  function Unindexed(ix: Index): Record -> bool {
    (r: Record) => r.id !in ix.indexed
  }

  /** What a sync records: the listed records not indexed yet, in order. */
  function Pending(ix: Index, listing: seq<Record>): seq<Record> {
    Sort(Order(), Filter(Unindexed(ix), listing))
  }

  /** A sync is all or nothing. */
  function Synced(ix: Index, listing: seq<Record>): Index {
    if AllAcceptable(Pending(ix, listing)) then Batched(ix, Pending(ix, listing)) else ix
  }

  lemma PendingMembers(ix: Index, listing: seq<Record>)
    ensures forall r :: r in Pending(ix, listing) <==> r in listing && r.id !in ix.indexed
  {
    SameMembers(Pending(ix, listing), Filter(Unindexed(ix), listing));
  }

  /** By time, and by id where the times are the same. */
  predicate Oldest(s: seq<Record>) {
    forall i, j | 0 <= i < j < |s| :: s[i].at < s[j].at || (s[i].at == s[j].at && s[i].id <= s[j].id)
  }

  /** `next` is `ix` with every listed record it had not indexed, oldest first. */
  ghost predicate CatchesUp(ix: Index, listing: seq<Record>, next: Index) {
    exists s :: next == Batched(ix, s) && Oldest(s) && forall r :: r in s <==> r in listing && r.id !in ix.indexed
  }

  lemma PendingOldest(ix: Index, listing: seq<Record>)
    ensures Oldest(Pending(ix, listing))
    ensures forall r :: r in Pending(ix, listing) <==> r in listing && r.id !in ix.indexed
  {
    OrderTotal();
    SortSorted(Order(), Filter(Unindexed(ix), listing));
    PendingMembers(ix, listing);
    var s := Pending(ix, listing);
    forall i, j | 0 <= i < j < |s| ensures s[i].at < s[j].at || (s[i].at == s[j].at && s[i].id <= s[j].id) {
      assert Order()(s[i], s[j]);
    }
  }

  lemma {:induction false} FilterNone(keep: Record -> bool, s: seq<Record>)
    requires forall i | 0 <= i < |s| :: !keep(s[i])
    ensures Filter(keep, s) == []
  {
    if s != [] {
      FilterNone(keep, s[..|s| - 1]);
    }
  }

  /** Whatever the index and the log, a sync that goes through leaves nothing for the next: a repeated sync, over the
      same records listed in any order, changes nothing. */
  lemma SyncTwice(ix: Index, first: seq<Record>, second: seq<Record>)
    requires forall r :: r in second ==> r in first
    requires AllAcceptable(Pending(ix, first))
    ensures Synced(Synced(ix, first), second) == Synced(ix, first)
  {
    var done, pending := Synced(ix, first), Pending(ix, first);
    PendingMembers(ix, first);
    forall i | 0 <= i < |second| ensures second[i].id in done.indexed {
      assert second[i] in second;
      if second[i].id !in ix.indexed {
        assert second[i] in pending;
      }
    }
    FilterNone(Unindexed(done), second);
    assert Ids([]) == {};
  }

  // ----- The ledger as an object -----

  /** The rows once each listed proposal has been selected. */
  function SelectedRows(rows: map<nat, Row>, members: seq<Member>): map<nat, Row> {
    map p | p in rows :: if Listed(members, p) then rows[p].(selected := true, status := Selected) else rows[p]
  }

  lemma SelectedNone(rows: map<nat, Row>)
    ensures SelectedRows(rows, []) == rows
  {
  }

  lemma SelectedOne(rows: map<nat, Row>, members: seq<Member>)
    requires members != []
    ensures var p, so := members[|members| - 1].proposal, SelectedRows(rows, members[..|members| - 1]);
            SelectedRows(rows, members) == if p in so then so[p := so[p].(selected := true, status := Selected)] else so
  {
  }

  lemma SelectedAll(rows: map<nat, Row>, b: Body)
    requires b.Portfolio?
    ensures SelectedRows(rows, b.members) == Rows(rows, b)
  {
  }

  lemma OtherRows(rows: map<nat, Row>, b: Body)
    requires b.Evaluation? || b.Fact? || b.Other?
    ensures Rows(rows, b) == rows
  {
  }

  lemma StatusRows(rows: map<nat, Row>, b: Body)
    ensures b.Promotion? ==> WithStatus(rows, b.proposal, Promoted) == Rows(rows, b)
    ensures b.State? ==> WithStatus(rows, b.proposal, b.status) == Rows(rows, b)
  {
  }

  class ScoutLedger {
    var proposals: map<nat, Row>
    var dedups: map<nat, Body>
    var triages: map<nat, Body>
    var runs: map<nat, Body>
    var members: map<(nat, nat), Member>
    var usage: set<nat>
    var promotions: map<nat, Body>
    var evaluations: map<nat, Body>
    var cache: map<nat, Body>
    var facts: map<nat, Body>
    var indexed: set<nat>

    function View(): Tables
      reads this
    {
      Tables(proposals, dedups, triages, runs, members, usage, promotions, evaluations, cache, facts)
    }

    function State(): Index
      reads this
    {
      Index(View(), indexed)
    }

    constructor ()
      ensures State() == NOTHING
    {
      proposals, dedups, triages, runs, members, usage := map[], map[], map[], map[], map[], {};
      promotions, evaluations, cache, facts, indexed := map[], map[], map[], map[], {};
    }

    /** `update_state` without a record: the status changes and nothing is marked. */
    method UpdateState(p: nat, s: Status)
      modifies this`proposals
      ensures View() == old(View()).(proposals := WithStatus(old(proposals), p, s))
    {
      if p in proposals {
        proposals := proposals[p := proposals[p].(status := s)];
      }
    }

    method RecordProposal(r: Record)
      requires r.body.Proposal?
      modifies this`proposals
      ensures View() == Apply(old(View()), r)
    {
      if r.body.proposal !in proposals && !exists p | p in proposals :: proposals[p].record == r.id {
        proposals := proposals[r.body.proposal := NewRow(r.id, r.body)];
      }
    }

    method RecordDedup(r: Record)
      requires r.body.Dedup?
      modifies this`proposals, this`dedups
      ensures View() == Apply(old(View()), r)
    {
      if r.id !in dedups {
        dedups := dedups[r.id := r.body];
      }
      var p := r.body.proposal;
      if r.body.duplicate && p in proposals {
        proposals := proposals[p := proposals[p].(dedupGroup := r.body.duplicateOf, status := Deduped)];
      }
      assert proposals == Rows(old(proposals), r.body);
    }

    method RecordTriage(r: Record)
      requires r.body.Triage?
      modifies this`proposals, this`triages
      ensures View() == Apply(old(View()), r)
      ensures forall p | p in old(proposals) :: p in proposals && if p == r.body.proposal
              then TriagedTo(r.body, old(proposals)[p], proposals[p]) else proposals[p] == old(proposals)[p]
    {
      if r.id !in triages {
        triages := triages[r.id := r.body];
      }
      var p := r.body.proposal;
      if p in proposals && proposals[p].status !in {Selected, Promoted, Deduped} {
        proposals := proposals[p := proposals[p].(score := Some(r.body.score), expected := Some(r.body.expected),
                                                  status := StatusOf(r.body.verdict))];
      }
      assert proposals == Rows(old(proposals), r.body);
    }

    method RecordRun(r: Record)
      requires r.body.Portfolio?
      modifies this`runs
      ensures runs == Inserted(Runs, old(runs), r.id, r.body)
    {
      if r.id !in runs && !exists k | k in runs :: Clash(runs[k], r.body) {
        runs := runs[r.id := r.body];
      }
    }

    /** The members of a run, one after the other. */
    method RecordMembers(run: nat, chosen: seq<Member>)
      modifies this`proposals, this`members
      ensures members == MembersKept(old(members), run, chosen) && proposals == SelectedRows(old(proposals), chosen)
    {
      SelectedNone(proposals);
      for i := 0 to |chosen|
        invariant members == MembersKept(old(members), run, chosen[..i])
                  && proposals == SelectedRows(old(proposals), chosen[..i])
      {
        assert chosen[..i + 1][..i] == chosen[..i];
        var m := chosen[i];
        if (run, m.proposal) !in members {
          members := members[(run, m.proposal) := m];
        }
        SelectedOne(old(proposals), chosen[..i + 1]);
        if m.proposal in proposals {
          proposals := proposals[m.proposal := proposals[m.proposal].(selected := true, status := Selected)];
        }
      }
      assert chosen[..|chosen|] == chosen;
    }

    method RecordPortfolio(r: Record)
      requires r.body.Portfolio?
      modifies this`proposals, this`runs, this`members, this`usage
      ensures View() == Apply(old(View()), r)
    {
      SelectedAll(proposals, r.body);
      RecordRun(r);
      RecordMembers(r.body.run, r.body.members);
      if r.body.modelCalls > 0 {
        usage := usage + {r.id};
      }
    }

    method RecordPromotion(r: Record)
      requires r.body.Promotion?
      modifies this`proposals, this`promotions
      ensures View() == Apply(old(View()), r)
    {
      if r.id !in promotions && !exists k | k in promotions :: Clash(promotions[k], r.body) {
        promotions := promotions[r.id := r.body];
      }
      StatusRows(proposals, r.body);
      UpdateState(r.body.proposal, Promoted);
    }

    method RecordState(r: Record)
      requires r.body.State?
      modifies this`proposals
      ensures View() == Apply(old(View()), r)
    {
      StatusRows(proposals, r.body);
      UpdateState(r.body.proposal, r.body.status);
    }

    method RecordEvaluation(r: Record)
      requires r.body.Evaluation?
      modifies this`evaluations, this`cache
      ensures View() == Apply(old(View()), r)
    {
      OtherRows(proposals, r.body);
      evaluations := evaluations[r.body.input := r.body];
      if r.body.cacheKey.Some? {
        cache := cache[r.body.cacheKey.value := r.body];
      }
    }

    method RecordFact(r: Record)
      requires r.body.Fact?
      modifies this`facts
      ensures View() == Apply(old(View()), r)
    {
      OtherRows(proposals, r.body);
      if r.id !in facts && !exists k | k in facts :: Clash(facts[k], r.body) {
        facts := facts[r.id := r.body];
      }
    }

    /** `_record_event`: the record's rows, and its mark; an authorising plan is refused. */
    method RecordEvent(r: Record) returns (ok: bool)
      modifies this
      ensures ok == Acceptable(r)
      ensures ok ==> State() == Index(Apply(old(View()), r), old(indexed) + {r.id})
      ensures ok ==> Affects(old(View()), r, View()) && indexed == old(indexed) + {r.id}
      ensures !ok <==> r.body.Fact? && r.body.kind == Plan && r.body.authorizing
    {
      ok := Acceptable(r);
      if !ok {
        return;
      }
      ApplyAffects(View(), r);
      match r.body {
        case Proposal(_, _, _) => RecordProposal(r);
        case Dedup(_, _, _, _) => RecordDedup(r);
        case Triage(_, _, _, _, _) => RecordTriage(r);
        case Portfolio(_, _, _, _) => RecordPortfolio(r);
        case Promotion(_, _) => RecordPromotion(r);
        case State(_, _) => RecordState(r);
        case Evaluation(_, _, _) => RecordEvaluation(r);
        case Fact(_, _, _) => RecordFact(r);
        case Other => OtherRows(proposals, r.body);
      }
      indexed := indexed + {r.id};
    }

    method Restore(ix: Index)
      modifies this
      ensures State() == ix
    {
      var t := ix.tables;
      proposals, dedups, triages, runs, members, usage := t.proposals, t.dedups, t.triages, t.runs, t.members, t.usage;
      promotions, evaluations, cache, facts, indexed := t.promotions, t.evaluations, t.cache, t.facts, ix.indexed;
      assert View() == t;
    }

    /** `record_batch`: every record in the order given, or, if one is refused, none. */
    method RecordBatch(records: seq<Record>) returns (ok: bool)
      modifies this
      ensures ok == AllAcceptable(records)
      ensures State() == if ok then Batched(old(State()), records) else old(State())
    {
      var saved := State();
      assert Ids(records[..0]) == {};
      for i := 0 to |records|
        invariant AllAcceptable(records[..i]) && State() == Batched(saved, records[..i])
      {
        assert records[..i + 1] == records[..i] + [records[i]];
        IdsConcat(records[..i], [records[i]]);
        assert Ids([records[i]]) == {records[i].id};
        ok := RecordEvent(records[i]);
        if !ok {
          Restore(saved);
          return;
        }
      }
      assert records[..|records|] == records;
      ok := true;
    }

    /** `sync`: everything listed and not indexed yet, oldest first. */
    method Sync(listing: seq<Record>) returns (ok: bool)
      modifies this
      ensures ok == AllAcceptable(Pending(old(State()), listing))
      ensures State() == Synced(old(State()), listing)
      ensures ok ==> CatchesUp(old(State()), listing, State())
      ensures !ok ==> State() == old(State())
    {
      PendingOldest(State(), listing);
      var missing: seq<Record> := [];
      for i := 0 to |listing|
        invariant missing == Filter(Unindexed(State()), listing[..i]) && State() == old(State())
      {
        assert listing[..i + 1][..i] == listing[..i];
        if listing[i].id !in indexed {
          missing := missing + [listing[i]];
        }
      }
      assert listing[..|listing|] == listing;
      ok := RecordBatch(Sort(Order(), missing));
    }
  }
}
