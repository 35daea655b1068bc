/** What the events of the ledger do to one proposal's row (scout_ledger.py). */
module LedgerRows {
  import opened Wrappers
  import opened ScoutLedger

  // ----- Each table by itself -----

  function RowsFold(rows: map<nat, Row>, s: seq<Record>): map<nat, Row> {
    if s == [] then rows else RowsAfter(RowsFold(rows, s[..|s| - 1]), s[|s| - 1].id, s[|s| - 1].body)
  }

  function TableFold(k: Kind, m: map<nat, Body>, s: seq<Record>): map<nat, Body> {
    if s == [] then m else Inserted(k, TableFold(k, m, s[..|s| - 1]), s[|s| - 1].id, s[|s| - 1].body)
  }

  function MembersFold(m: map<(nat, nat), Member>, s: seq<Record>): map<(nat, nat), Member> {
    if s == [] then m else MembersAfter(MembersFold(m, s[..|s| - 1]), s[|s| - 1].body)
  }

  function UsageFold(m: set<nat>, s: seq<Record>): set<nat> {
    if s == [] then m else UsageAfter(UsageFold(m, s[..|s| - 1]), s[|s| - 1].id, s[|s| - 1].body)
  }

  function EvaluationsFold(m: map<nat, Body>, s: seq<Record>): map<nat, Body> {
    if s == [] then m else EvaluationsAfter(EvaluationsFold(m, s[..|s| - 1]), s[|s| - 1].body)
  }

  function CacheFold(m: map<nat, Body>, s: seq<Record>): map<nat, Body> {
    if s == [] then m else CacheAfter(CacheFold(m, s[..|s| - 1]), s[|s| - 1].body)
  }

  /** No table looks at another. */
  lemma {:induction false} FoldParts(t: Tables, s: seq<Record>)
    ensures Fold(t, s) == Tables(RowsFold(t.proposals, s), TableFold(Dedups, t.dedups, s),
                                 TableFold(Triages, t.triages, s), TableFold(Runs, t.runs, s),
                                 MembersFold(t.members, s), UsageFold(t.usage, s),
                                 TableFold(Promotions, t.promotions, s), EvaluationsFold(t.evaluations, s),
                                 CacheFold(t.cache, s), TableFold(Facts, t.facts, s))
  {
    if s != [] {
      FoldParts(t, s[..|s| - 1]);
    }
  }

  lemma RowsKeepRecords(rows: map<nat, Row>, b: Body)
    ensures Rows(rows, b).Keys == rows.Keys && forall p | p in rows :: Rows(rows, b)[p].record == rows[p].record
  {
  }

  lemma ClashSymmetric(a: Body, b: Body)
    ensures Clash(a, b) <==> Clash(b, a)
  {
  }

  lemma FoldLast(t: Tables, s: seq<Record>, r: Record)
    ensures Fold(t, s + [r]) == Apply(Fold(t, s), r)
  {
    assert (s + [r])[..|s|] == s;
  }

  lemma FoldOne(t: Tables, r: Record)
    ensures Fold(t, [r]) == Apply(t, r)
  {
    var one := [r];
    assert one[..0] == [] && one[0] == r;
  }

  // ----- State events applied again -----

  predicate AllStates(us: seq<Record>) {
    forall i | 0 <= i < |us| :: us[i].body.State?
  }

  /** The status the last of the state events gives a proposal. */
  function LastStatus(us: seq<Record>, p: nat): Option<Status>
    requires AllStates(us)
  {
    if us == [] then None
    else if us[|us| - 1].body.proposal == p then Some(us[|us| - 1].body.status)
    else LastStatus(us[..|us| - 1], p)
  }

  function Overridden(rows: map<nat, Row>, us: seq<Record>): map<nat, Row>
    requires AllStates(us)
  {
    map p | p in rows :: if LastStatus(us, p).Some? then rows[p].(status := LastStatus(us, p).value) else rows[p]
  }

  lemma {:induction false} FoldStates(t: Tables, us: seq<Record>)
    requires AllStates(us)
    ensures Fold(t, us) == t.(proposals := Overridden(t.proposals, us))
  {
    if us == [] {
      assert Overridden(t.proposals, us) == t.proposals;
    } else {
      var front, last := us[..|us| - 1], us[|us| - 1].body;
      FoldStates(t, front);
      StatusRows(Overridden(t.proposals, front), last);
      assert WithStatus(Overridden(t.proposals, front), last.proposal, last.status) == Overridden(t.proposals, us);
    }
  }

  // ----- One proposal at a time -----

  function RowAfter(row: Row, s: seq<Record>, p: nat): Row {
    if s == [] then row else RowStep(RowAfter(row, s[..|s| - 1], p), s[|s| - 1].body, p)
  }

  /** The event sets the status of `p` whatever it was. */
  predicate Settles(b: Body, p: nat) {
    match b
    case Dedup(q, duplicate, _, _) => q == p && duplicate
    case Portfolio(_, _, members, _) => Listed(members, p)
    case Promotion(q, _) => q == p
    case State(q, _) => q == p
    case _ => false
  }

  function LastTriage(s: seq<Record>, p: nat): (b: Option<Body>)
    ensures b.Some? ==> b.value.Triage?
  {
    if s == [] then None
    else if s[|s| - 1].body.Triage? && s[|s| - 1].body.proposal == p then Some(s[|s| - 1].body)
    else LastTriage(s[..|s| - 1], p)
  }

  /** While nothing settles a proposal its last triage decides, and none does once it is selected, promoted or
      deduplicated. */
  lemma {:induction false} LastTriageDecides(row: Row, s: seq<Record>, p: nat)
    requires forall r | r in s :: !Settles(r.body, p)
    ensures var last := LastTriage(s, p);
            RowAfter(row, s, p) == if Final(row.status) || last.None? then row
                                   else row.(score := Some(last.value.score), expected := Some(last.value.expected),
                                             status := StatusOf(last.value.verdict))
    ensures LastTriage(s, p).None? ==> RowAfter(row, s, p) == row
    ensures LastTriage(s, p).Some? ==> TriagedTo(LastTriage(s, p).value, row, RowAfter(row, s, p))
  {
    if s != [] {
      assert s[|s| - 1] in s;
      LastTriageDecides(row, s[..|s| - 1], p);
    }
  }

  /** The event neither settles nor triages `p`. */
  predicate Passes(b: Body, p: nat) {
    && !(b.State? && b.proposal == p) && !(b.Promotion? && b.proposal == p) && !(b.Triage? && b.proposal == p)
    && !(b.Dedup? && b.proposal == p && b.duplicate) && !(b.Portfolio? && IsMember(b.members, p))
  }

  lemma PassedBy(row: Row, b: Body, p: nat)
    requires Passes(b, p)
    ensures RowStep(row, b, p) == row
  {
    if b.Portfolio? {
      ListedRead(b.members, p);
    }
  }

  lemma {:induction false} AllPass(row: Row, s: seq<Record>, p: nat)
    requires forall i | 0 <= i < |s| :: Passes(s[i].body, p)
    ensures RowAfter(row, s, p) == row
  {
    if s != [] {
      AllPass(row, s[..|s| - 1], p);
      PassedBy(row, s[|s| - 1].body, p);
    }
  }

  /** A triage among events that have nothing to do with the proposal: it decides the row of one that is undecided, and
      leaves that of one that is selected, promoted or deduplicated. */
  lemma {:induction false} TriageTaken(row: Row, s: seq<Record>, p: nat, k: nat)
    requires k < |s| && s[k].body.Triage? && s[k].body.proposal == p
    requires forall i | 0 <= i < |s| && i != k :: Passes(s[i].body, p)
    ensures TriagedTo(s[k].body, row, RowAfter(row, s, p))
  {
    var n := |s| - 1;
    if k == n {
      AllPass(row, s[..n], p);
      TriageRead(row, s[k].body);
    } else {
      TriageTaken(row, s[..n], p, k);
      PassedBy(RowAfter(row, s[..n], p), s[n].body, p);
    }
  }

  /** The status a settling event gives. */
  function SettledStatus(b: Body): Status {
    match b
    case Dedup(_, _, _, _) => Deduped
    case Portfolio(_, _, _, _) => Selected
    case State(_, s) => s
    case _ => Promoted
  }

  /** Where the first event is that settles `p`, the end of the list if there is none. */
  function FirstSettlement(s: seq<Record>, p: nat): (f: nat)
    ensures f <= |s|
  {
    if s == [] then 0
    else
      var f := FirstSettlement(s[..|s| - 1], p);
      if f < |s| - 1 || Settles(s[|s| - 1].body, p) then f else |s|
  }

  predicate SettledIn(s: seq<Record>, p: nat) {
    FirstSettlement(s, p) < |s|
  }

  function LastSettlement(s: seq<Record>, p: nat): Option<Status> {
    if s == [] then None
    else if Settles(s[|s| - 1].body, p) then Some(SettledStatus(s[|s| - 1].body))
    else LastSettlement(s[..|s| - 1], p)
  }

  predicate TriageOf(b: Body, p: nat) {
    b.Triage? && b.proposal == p
  }

  /** A triage that takes effect after `p` has been settled: the last settlement before it is not final. */
  predicate Retriaged(s: seq<Record>, p: nat) {
    exists k | 0 <= k < |s| :: TriageOf(s[k].body, p) && LastSettlement(s[..k], p).Some?
      && !Final(LastSettlement(s[..k], p).value)
  }

  predicate Rescored(row: Row, b: Body)
    requires b.Triage?
  {
    row.score == Some(b.score) && row.expected == Some(b.expected)
  }

  /** The scores of a row come out alike for either of two statuses it may start with, once it has been settled: both
      statuses take the triages before the settlement or neither does, or there is none, or the last of them changes
      nothing, or a later one takes effect. */
  predicate ScoresMeet(row: Row, s: Status, events: seq<Record>, p: nat) {
    var last := LastTriage(events[..FirstSettlement(events, p)], p);
    Final(row.status) == Final(s) || last.None? || Rescored(row, last.value) || Retriaged(events, p)
  }

  /** The events erase the difference between the status of a row and `s`: there is none, or the row is settled and its
      scores meet, or it is not settled but triaged with neither status final. */
  predicate Erases(row: Row, s: Status, events: seq<Record>, p: nat) {
    || row.status == s
    || (if SettledIn(events, p) then ScoresMeet(row, s, events, p)
        else !Final(row.status) && !Final(s) && LastTriage(events, p).Some?)
  }

  lemma {:induction false} NotSettled(s: seq<Record>, p: nat)
    requires !SettledIn(s, p)
    ensures forall r | r in s :: !Settles(r.body, p)
    ensures LastSettlement(s, p).None? && !Retriaged(s, p)
  {
    if s != [] {
      var n := |s| - 1;
      NotSettled(s[..n], p);
      assert s == s[..n] + [s[n]];
      forall k | 0 <= k < |s| ensures LastSettlement(s[..k], p).None? {
        NoneBefore(s, p, k);
      }
    }
  }

  lemma {:induction false} NoneBefore(s: seq<Record>, p: nat, k: nat)
    requires LastSettlement(s, p).None? && k <= |s|
    ensures LastSettlement(s[..k], p).None?
  {
    if k < |s| {
      NoneBefore(s[..|s| - 1], p, k);
      assert s[..|s| - 1][..k] == s[..k];
    } else {
      assert s[..k] == s;
    }
  }

  lemma RetriagedNext(s: seq<Record>, p: nat)
    requires s != []
    ensures var n := |s| - 1;
            Retriaged(s, p) <==> Retriaged(s[..n], p)
                                 || (TriageOf(s[n].body, p) && LastSettlement(s[..n], p).Some?
                                     && !Final(LastSettlement(s[..n], p).value))
  {
    var front := s[..|s| - 1];
    assert forall k | 0 <= k < |front| :: front[..k] == s[..k];
  }

  /** Rows that agree but for their status and scores. */
  predicate Twins(a: Row, b: Row) {
    b == a.(status := b.status, score := b.score, expected := b.expected)
  }

  predicate SameScores(a: Row, b: Row) {
    a.score == b.score && a.expected == b.expected
  }

  /** What is known of two twins once their proposal has been settled. */
  ghost predicate Met(a: Row, b: Row, row: Row, s: Status, events: seq<Record>, p: nat) {
    && Twins(a, b) && a.status == b.status
    && LastSettlement(events, p).Some? && Final(a.status) == Final(LastSettlement(events, p).value)
    && (SameScores(a, b) <==> ScoresMeet(row, s, events, p))
  }

  /** Whether the scores meet, when the event at the end is the first that settles. */
  lemma FirstScores(row: Row, s: Status, events: seq<Record>, p: nat)
    requires events != [] && FirstSettlement(events, p) == |events| - 1
    ensures var front := events[..|events| - 1];
            && Settles(events[|events| - 1].body, p) && !SettledIn(front, p)
            && (ScoresMeet(row, s, events, p)
                <==> Final(row.status) == Final(s) || LastTriage(front, p).None?
                     || Rescored(row, LastTriage(front, p).value))
  {
    NotSettled(events[..|events| - 1], p);
    RetriagedNext(events, p);
  }

  /** One settled step of two twins. */
  lemma SettledStep(a: Row, b: Row, e: Body, p: nat)
    requires Twins(a, b) && Settles(e, p)
    ensures var a1, b1 := RowStep(a, e, p), RowStep(b, e, p);
            Twins(a1, b1) && a1.status == b1.status == SettledStatus(e) && (SameScores(a1, b1) <==> SameScores(a, b))
  {
  }

  /** One step of two twins with the same status that does not settle them. */
  lemma TwinStep(a: Row, b: Row, e: Body, p: nat)
    requires Twins(a, b) && a.status == b.status && !Settles(e, p)
    ensures var a1, b1 := RowStep(a, e, p), RowStep(b, e, p);
            && Twins(a1, b1) && a1.status == b1.status && Final(a1.status) == Final(a.status)
            && (SameScores(a1, b1) <==> SameScores(a, b) || (TriageOf(e, p) && !Final(a.status)))
  {
  }

  /** The event that settles a proposal first. */
  lemma FirstMeeting(row: Row, s: Status, events: seq<Record>, p: nat)
    requires events != [] && FirstSettlement(events, p) == |events| - 1
    ensures Met(RowAfter(row, events, p), RowAfter(row.(status := s), events, p), row, s, events, p)
  {
    var front := events[..|events| - 1];
    FirstScores(row, s, events, p);
    NotSettled(front, p);
    LastTriageDecides(row, front, p);
    LastTriageDecides(row.(status := s), front, p);
    SettledStep(RowAfter(row, front, p), RowAfter(row.(status := s), front, p), events[|events| - 1].body, p);
  }

  lemma {:induction false} Meeting(row: Row, s: Status, events: seq<Record>, p: nat)
    requires SettledIn(events, p)
    ensures Met(RowAfter(row, events, p), RowAfter(row.(status := s), events, p), row, s, events, p)
  {
    var n := |events| - 1;
    if FirstSettlement(events, p) == n {
      FirstMeeting(row, s, events, p);
    } else {
      Meeting(row, s, events[..n], p);
      MetStep(RowAfter(row, events[..n], p), RowAfter(row.(status := s), events[..n], p), row, s, events, p);
    }
  }

  /** Later events leave it settled; whether the scores meet changes only with a triage that takes effect. */
  lemma ScoresLater(row: Row, s: Status, events: seq<Record>, p: nat)
    requires events != [] && FirstSettlement(events, p) < |events| - 1
    ensures var front, e := events[..|events| - 1], events[|events| - 1].body;
            ScoresMeet(row, s, events, p)
            <==> ScoresMeet(row, s, front, p)
                 || (TriageOf(e, p) && LastSettlement(front, p).Some? && !Final(LastSettlement(front, p).value))
  {
    var front := events[..|events| - 1];
    RetriagedNext(events, p);
    assert front[..FirstSettlement(front, p)] == events[..FirstSettlement(events, p)];
  }

  lemma MetStep(a: Row, b: Row, row: Row, s: Status, events: seq<Record>, p: nat)
    requires events != [] && Met(a, b, row, s, events[..|events| - 1], p) && FirstSettlement(events, p) < |events| - 1
    ensures Met(RowStep(a, events[|events| - 1].body, p), RowStep(b, events[|events| - 1].body, p), row, s, events, p)
  {
    var e := events[|events| - 1].body;
    ScoresLater(row, s, events, p);
    if Settles(e, p) {
      SettledStep(a, b, e, p);
    } else {
      TwinStep(a, b, e, p);
    }
  }

  /** Changing the status of a row ahead of some events changes nothing in the end exactly when they erase the
      change. */
  lemma ErasesExactly(row: Row, s: Status, events: seq<Record>, p: nat)
    ensures RowAfter(row.(status := s), events, p) == RowAfter(row, events, p) <==> Erases(row, s, events, p)
  {
    if SettledIn(events, p) {
      Meeting(row, s, events, p);
    } else {
      NotSettled(events, p);
      LastTriageDecides(row, events, p);
      LastTriageDecides(row.(status := s), events, p);
    }
  }

  /** Rows of the same proposals, created by the same records. */
  ghost predicate AlikeRows(a: map<nat, Row>, b: map<nat, Row>) {
    a.Keys == b.Keys && forall p | p in a && p in b :: a[p].record == b[p].record
  }

  /** Known rows took one step each, and any new row is the same. */
  ghost predicate SteppedRows(a: map<nat, Row>, b: map<nat, Row>, a1: map<nat, Row>, b1: map<nat, Row>, e: Body) {
    && AlikeRows(a1, b1) && a.Keys <= a1.Keys && b.Keys <= b1.Keys
    && (forall p | p in a && p in a1 :: a1[p] == RowStep(a[p], e, p))
    && (forall p | p in b && p in b1 :: b1[p] == RowStep(b[p], e, p))
    && (forall p | p in a1 && p in b1 && p !in a :: a1[p] == b1[p])
  }

  lemma SameRecords(a: map<nat, Row>, b: map<nat, Row>, id: nat)
    requires AlikeRows(a, b)
    ensures (exists p | p in a :: a[p].record == id) <==> exists p | p in b :: b[p].record == id
  {
  }

  lemma InsertedAlike(a: map<nat, Row>, b: map<nat, Row>, id: nat, e: Body)
    requires AlikeRows(a, b) && e.Proposal?
    ensures SteppedRows(a, b, InsertedRow(a, id, e), InsertedRow(b, id, e), e)
  {
    SameRecords(a, b, id);
  }

  /** An event acts on each known row by itself, and on new rows alike. */
  lemma AfterAlike(a: map<nat, Row>, b: map<nat, Row>, id: nat, e: Body)
    requires AlikeRows(a, b)
    ensures SteppedRows(a, b, RowsAfter(a, id, e), RowsAfter(b, id, e), e)
  {
    if e.Proposal? {
      InsertedAlike(a, b, id, e);
    }
  }

  /** Known rows went their own way over the events, and any new row is the same. */
  ghost predicate Followed(a: map<nat, Row>, b: map<nat, Row>, a1: map<nat, Row>, b1: map<nat, Row>, s: seq<Record>) {
    && AlikeRows(a1, b1) && a.Keys <= a1.Keys && b.Keys <= b1.Keys
    && (forall p | p in a && p in a1 :: a1[p] == RowAfter(a[p], s, p))
    && (forall p | p in b && p in b1 :: b1[p] == RowAfter(b[p], s, p))
    && (forall p | p in a1 && p in b1 && p !in a :: a1[p] == b1[p])
  }

  lemma FollowedOn(a: map<nat, Row>, b: map<nat, Row>, a1: map<nat, Row>, b1: map<nat, Row>, a2: map<nat, Row>,
                   b2: map<nat, Row>, s: seq<Record>)
    requires s != [] && a.Keys == b.Keys && Followed(a, b, a1, b1, s[..|s| - 1])
             && SteppedRows(a1, b1, a2, b2, s[|s| - 1].body)
    ensures Followed(a, b, a2, b2, s)
  {
    forall p | p in a && p in a2 ensures a2[p] == RowAfter(a[p], s, p) {
      assert p in a1;
    }
    forall p | p in b && p in b2 ensures b2[p] == RowAfter(b[p], s, p) {
      assert p in b1;
    }
    forall p | p in a2 && p in b2 && p !in a ensures a2[p] == b2[p] {
      if p in a1 {
        assert p in b1 && a1[p] == b1[p];
      }
    }
  }

  lemma {:induction false} FoldAlike(a: map<nat, Row>, b: map<nat, Row>, s: seq<Record>)
    requires AlikeRows(a, b)
    ensures Followed(a, b, RowsFold(a, s), RowsFold(b, s), s)
  {
    if s != [] {
      var front, last := s[..|s| - 1], s[|s| - 1];
      FoldAlike(a, b, front);
      AfterAlike(RowsFold(a, front), RowsFold(b, front), last.id, last.body);
      FollowedOn(a, b, RowsFold(a, front), RowsFold(b, front), RowsFold(a, s), RowsFold(b, s), s);
    }
  }

  lemma FollowedAgree(a: map<nat, Row>, b: map<nat, Row>, a1: map<nat, Row>, b1: map<nat, Row>, s: seq<Record>)
    requires a.Keys == b.Keys && Followed(a, b, a1, b1, s)
    ensures a1 == b1 <==> forall p | p in a && p in b :: RowAfter(a[p], s, p) == RowAfter(b[p], s, p)
  {
    if forall p | p in a && p in b :: RowAfter(a[p], s, p) == RowAfter(b[p], s, p) {
      forall p | p in a1 ensures p in b1 && a1[p] == b1[p] {
        assert p in a ==> p in b;
      }
    } else {
      var p :| p in a && p in b && RowAfter(a[p], s, p) != RowAfter(b[p], s, p);
      assert p in a1 && p in b1;
    }
  }

  /** Tables that differ at most in what the rows of their proposals say. */
  ghost predicate Alike(t: Tables, u: Tables) {
    u == t.(proposals := u.proposals) && AlikeRows(t.proposals, u.proposals)
  }

  /** Two alike ledgers agree after the same events exactly when each row they shared does. */
  lemma FoldsAgreeExactly(t: Tables, u: Tables, s: seq<Record>)
    requires Alike(t, u)
    ensures Fold(t, s) == Fold(u, s)
            <==> forall p | p in t.proposals && p in u.proposals ::
              RowAfter(t.proposals[p], s, p) == RowAfter(u.proposals[p], s, p)
  {
    FoldParts(t, s);
    FoldParts(u, s);
    FoldAlike(t.proposals, u.proposals, s);
    FollowedAgree(t.proposals, u.proposals, RowsFold(t.proposals, s), RowsFold(u.proposals, s), s);
  }

  /** No proposal ends up otherwise for having its last status among `us` set again before `backlog`: the backlog erases
      the change. */
  predicate Current(t: Tables, us: seq<Record>, backlog: seq<Record>)
    requires AllStates(us)
  {
    forall p | p in t.proposals :: LastStatus(us, p).Some?
      ==> Erases(t.proposals[p], LastStatus(us, p).value, backlog, p)
  }

  /** With no backlog, each status still is the last one set. */
  lemma CurrentNow(t: Tables, us: seq<Record>)
    requires AllStates(us)
    ensures Current(t, us, []) <==> forall p | p in t.proposals && LastStatus(us, p).Some? ::
            t.proposals[p].status == LastStatus(us, p).value
  {
  }

  /** Applying state events again, and then a backlog, gives what the backlog alone gives, exactly when they are
      current. */
  lemma ReappliedExactly(t: Tables, us: seq<Record>, backlog: seq<Record>)
    requires AllStates(us)
    ensures Fold(Fold(t, us), backlog) == Fold(t, backlog) <==> Current(t, us, backlog)
  {
    FoldStates(t, us);
    FoldsAgreeExactly(t, Fold(t, us), backlog);
    forall p | p in t.proposals && LastStatus(us, p).Some?
      ensures RowAfter(t.proposals[p].(status := LastStatus(us, p).value), backlog, p)
              == RowAfter(t.proposals[p], backlog, p)
              <==> Erases(t.proposals[p], LastStatus(us, p).value, backlog, p)
    {
      ErasesExactly(t.proposals[p], LastStatus(us, p).value, backlog, p);
    }
  }
}
