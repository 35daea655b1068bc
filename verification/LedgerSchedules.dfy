/** When an index filled in as events happen equals one rebuilt from the log (scout_ledger.py, scout_controller.py). */
module LedgerSchedules {
  import opened Wrappers
  import opened Collections
  import opened ScoutLedger
  import opened LedgerRows
  import opened LateRecords

  // ----- Records that commute -----

  /** Whatever the tables, the two records leave the same in either order. */
  ghost predicate Commute(a: Record, b: Record) {
    forall t: Tables :: Apply(Apply(t, a), b) == Apply(Apply(t, b), a)
  }

  predicate Touches(b: Body, p: nat) {
    match b
    case Proposal(q, _, _) => q == p
    case Dedup(q, _, _, _) => q == p
    case Triage(q, _, _, _, _) => q == p
    case Portfolio(_, _, members, _) => Listed(members, p)
    case Promotion(q, _) => q == p
    case State(q, _) => q == p
    case _ => false
  }

  ghost predicate RowsApart(a: Body, b: Body) {
    forall p: nat :: !(Touches(a, p) && Touches(b, p))
  }

  /** Two events of one kind write different rows of its table. */
  predicate TablesApart(a: Body, b: Body) {
    match (a, b)
    case (Evaluation(i, k, _), Evaluation(j, l, _)) => i != j && (k.Some? && l.Some? ==> k != l)
    case _ => !Clash(a, b)
  }

  /** Different records about different proposals and different rows. */
  ghost predicate Apart(a: Record, b: Record) {
    a.id != b.id && RowsApart(a.body, b.body) && TablesApart(a.body, b.body)
  }

  lemma UntouchedRow(row: Row, b: Body, p: nat)
    requires !Touches(b, p)
    ensures RowStep(row, b, p) == row
  {
  }

  lemma StepsCommute(row: Row, a: Body, b: Body, p: nat)
    requires RowsApart(a, b)
    ensures RowStep(RowStep(row, a, p), b, p) == RowStep(RowStep(row, b, p), a, p)
  {
    if !Touches(a, p) {
      UntouchedRow(row, a, p);
      UntouchedRow(RowStep(row, b, p), a, p);
    } else {
      UntouchedRow(row, b, p);
      UntouchedRow(RowStep(row, a, p), b, p);
    }
  }

  lemma UpdatesCommute(rows: map<nat, Row>, a: Body, b: Body)
    requires RowsApart(a, b)
    ensures Rows(Rows(rows, a), b) == Rows(Rows(rows, b), a)
  {
    forall p | p in rows ensures RowStep(RowStep(rows[p], a, p), b, p) == RowStep(RowStep(rows[p], b, p), a, p) {
      StepsCommute(rows[p], a, b, p);
    }
  }

  /** A new row and an update that does not touch it. */
  lemma InsertCommutes(rows: map<nat, Row>, id: nat, a: Body, b: Body)
    requires a.Proposal? && !b.Proposal? && RowsApart(a, b)
    ensures Rows(InsertedRow(rows, id, a), b) == InsertedRow(Rows(rows, b), id, a)
  {
    var q := a.proposal;
    assert Touches(a, q);
    RowsKeepRecords(rows, b);
    if Known(rows, id, q) {
      assert Known(Rows(rows, b), id, q);
    } else {
      var row := NewRow(id, a);
      UntouchedRow(row, b, q);
      assert Rows(rows[q := row], b) == Rows(rows, b)[q := row];
    }
  }

  lemma InsertsCommute(rows: map<nat, Row>, i: nat, a: Body, j: nat, b: Body)
    requires a.Proposal? && b.Proposal? && i != j && RowsApart(a, b)
    ensures InsertedRow(InsertedRow(rows, i, a), j, b) == InsertedRow(InsertedRow(rows, j, b), i, a)
  {
    assert Touches(a, a.proposal);
    assert a.proposal != b.proposal;
    InsertedOther(rows, i, a, j, b);
    InsertedOther(rows, j, b, i, a);
  }

  /** Whether a row is new does not depend on another new row. */
  lemma InsertedOther(rows: map<nat, Row>, i: nat, a: Body, j: nat, b: Body)
    requires a.Proposal? && b.Proposal? && i != j && a.proposal != b.proposal
    ensures Known(InsertedRow(rows, i, a), j, b.proposal) <==> Known(rows, j, b.proposal)
  {
    var so := InsertedRow(rows, i, a);
    if p :| p in rows && rows[p].record == j {
      assert p in so && so[p].record == j;
    }
  }

  lemma ProposalsCommute(rows: map<nat, Row>, a: Record, b: Record)
    requires a.id != b.id && RowsApart(a.body, b.body)
    ensures RowsAfter(RowsAfter(rows, a.id, a.body), b.id, b.body)
            == RowsAfter(RowsAfter(rows, b.id, b.body), a.id, a.body)
  {
    if a.body.Proposal? && b.body.Proposal? {
      InsertsCommute(rows, a.id, a.body, b.id, b.body);
    } else if a.body.Proposal? {
      InsertCommutes(rows, a.id, a.body, b.body);
    } else if b.body.Proposal? {
      assert RowsApart(b.body, a.body);
      InsertCommutes(rows, b.id, b.body, a.body);
    } else {
      UpdatesCommute(rows, a.body, b.body);
    }
  }

  lemma {:induction false} MembersKeys(kept: map<(nat, nat), Member>, run: nat, members: seq<Member>)
    ensures var r := MembersKept(kept, run, members);
            && (forall k | k in r :: k in kept || k.0 == run)
            && (forall k | k in kept :: k in r && r[k] == kept[k])
  {
    if members != [] {
      MembersKeys(kept, run, members[..|members| - 1]);
    }
  }

  lemma {:induction false} MembersPast(kept: map<(nat, nat), Member>, k: (nat, nat), v: Member, run: nat,
                                       members: seq<Member>)
    requires k.0 != run
    ensures MembersKept(Kept(kept, k, v), run, members) == Kept(MembersKept(kept, run, members), k, v)
  {
    MembersKeys(kept, run, members);
    if members != [] {
      MembersPast(kept, k, v, run, members[..|members| - 1]);
      MembersKeys(kept, run, members[..|members| - 1]);
    }
  }

  lemma {:induction false} MembersCommute(kept: map<(nat, nat), Member>, r: nat, xs: seq<Member>, s: nat,
                                          ys: seq<Member>)
    requires r != s
    ensures MembersKept(MembersKept(kept, r, xs), s, ys) == MembersKept(MembersKept(kept, s, ys), r, xs)
    decreases |xs|
  {
    if xs != [] {
      var n := |xs| - 1;
      MembersCommute(kept, r, xs[..n], s, ys);
      MembersPast(MembersKept(kept, r, xs[..n]), (r, xs[n].proposal), xs[n], s, ys);
    }
  }

  /** Whether a row is inserted does not depend on another that shares no column with it. */
  lemma TakenOther(k: Kind, m: map<nat, Body>, i: nat, a: Body, j: nat, b: Body)
    requires i != j && !Clash(a, b)
    ensures Taken(Inserted(k, m, i, a), j, b) <==> Taken(m, j, b)
  {
    var so := Inserted(k, m, i, a);
    if r :| r in m && Clash(m[r], b) {
      assert r in so && so[r] == m[r];
    }
  }

  lemma InsertionsCommute(k: Kind, m: map<nat, Body>, i: nat, a: Body, j: nat, b: Body)
    requires i != j && !Clash(a, b)
    ensures Inserted(k, Inserted(k, m, i, a), j, b) == Inserted(k, Inserted(k, m, j, b), i, a)
  {
    ClashSymmetric(a, b);
    TakenOther(k, m, i, a, j, b);
    TakenOther(k, m, j, b, i, a);
  }

  lemma MembershipsCommute(t: Tables, a: Record, b: Record)
    requires a.id != b.id && TablesApart(a.body, b.body)
    ensures MembersAfter(MembersAfter(t.members, a.body), b.body)
            == MembersAfter(MembersAfter(t.members, b.body), a.body)
    ensures UsageAfter(UsageAfter(t.usage, a.id, a.body), b.id, b.body)
            == UsageAfter(UsageAfter(t.usage, b.id, b.body), a.id, a.body)
  {
    if a.body.Portfolio? && b.body.Portfolio? {
      MembersCommute(t.members, a.body.run, a.body.members, b.body.run, b.body.members);
    }
  }

  lemma CachesCommute(t: Tables, a: Record, b: Record)
    requires TablesApart(a.body, b.body)
    ensures EvaluationsAfter(EvaluationsAfter(t.evaluations, a.body), b.body)
            == EvaluationsAfter(EvaluationsAfter(t.evaluations, b.body), a.body)
    ensures CacheAfter(CacheAfter(t.cache, a.body), b.body) == CacheAfter(CacheAfter(t.cache, b.body), a.body)
  {
  }

  lemma OthersCommute(t: Tables, a: Record, b: Record)
    requires a.id != b.id && TablesApart(a.body, b.body)
    ensures Others(Others(t, a.id, a.body), b.id, b.body) == Others(Others(t, b.id, b.body), a.id, a.body)
  {
    InsertionsCommute(Dedups, t.dedups, a.id, a.body, b.id, b.body);
    InsertionsCommute(Triages, t.triages, a.id, a.body, b.id, b.body);
    InsertionsCommute(Runs, t.runs, a.id, a.body, b.id, b.body);
    InsertionsCommute(Promotions, t.promotions, a.id, a.body, b.id, b.body);
    InsertionsCommute(Facts, t.facts, a.id, a.body, b.id, b.body);
    MembershipsCommute(t, a, b);
    CachesCommute(t, a, b);
  }

  /** Records that are apart commute. */
  lemma ApartCommute(a: Record, b: Record)
    requires Apart(a, b)
    ensures Commute(a, b)
  {
    forall t: Tables ensures Apply(Apply(t, a), b) == Apply(Apply(t, b), a) {
      ProposalsCommute(t.proposals, a, b);
      OthersCommute(t, a, b);
    }
  }

  /** A record that is not indexed as anything commutes with every other. */
  lemma OtherCommutes(a: Record, b: Record)
    requires a.body.Other? || b.body.Other?
    ensures Commute(a, b)
  {
    forall t: Tables ensures Apply(Apply(t, a), b) == Apply(Apply(t, b), a) {
      var o, u := if a.body.Other? then a else b, if a.body.Other? then b else a;
      OtherLeaves(t, o);
      OtherLeaves(Apply(t, u), o);
    }
  }

  lemma OtherLeaves(t: Tables, r: Record)
    requires r.body.Other?
    ensures Apply(t, r) == t
  {
    assert Rows(t.proposals, r.body) == t.proposals;
  }

  // ----- A log and its index -----

  ghost predicate Ascending(s: seq<Record>) {
    forall i, j | 0 <= i < j < |s| :: Before(s[i], s[j]) && s[i].id != s[j].id
  }

  lemma AscendingTail(a: seq<Record>)
    requires a != [] && Ascending(a)
    ensures Ascending(a[1..])
    ensures forall r :: r in a[1..] <==> r in a && r != a[0]
  {
    forall r | r in a && r != a[0] ensures r in a[1..] {
      var k :| 0 <= k < |a| && a[k] == r;
      assert a[1..][k - 1] == r;
    }
    forall k | 0 <= k < |a[1..]| ensures a[1..][k] == a[k + 1] && Before(a[0], a[1..][k]) {
    }
  }

  lemma HeadIn(a: seq<Record>)
    ensures a != [] ==> a[0] in a
  {
  }

  /** A set of records has one ascending listing. */
  lemma {:induction false} AscendingUnique(a: seq<Record>, b: seq<Record>)
    requires Ascending(a) && Ascending(b) && forall r :: r in a <==> r in b
    ensures a == b
  {
    if a == [] {
      HeadIn(b);
    } else {
      assert a[0] in b && a[0] in a;
      assert b[0] in a && b[0] in b;
      HeadFirst(a, b[0]);
      HeadFirst(b, a[0]);
      AscendingTail(a);
      AscendingTail(b);
      AscendingUnique(a[1..], b[1..]);
      assert a == [a[0]] + a[1..] && b == [b[0]] + b[1..];
    }
  }

  lemma HeadFirst(a: seq<Record>, r: Record)
    requires Ascending(a) && r in a
    ensures r == a[0] || Before(a[0], r)
  {
    var k :| 0 <= k < |a| && a[k] == r;
  }

  /** The records of the log whose ids are among `ids`, in order. */
  function Chosen(log: seq<Record>, ids: set<nat>): seq<Record> {
    if log == [] then []
    else if log[|log| - 1].id in ids then Chosen(log[..|log| - 1], ids) + [log[|log| - 1]]
    else Chosen(log[..|log| - 1], ids)
  }

  lemma {:induction false} ChosenMembers(log: seq<Record>, ids: set<nat>)
    ensures forall x :: x in Chosen(log, ids) <==> x in log && x.id in ids
  {
    if log != [] {
      ChosenMembers(log[..|log| - 1], ids);
      assert log == log[..|log| - 1] + [log[|log| - 1]];
    }
  }

  lemma {:induction false} ChosenAscending(log: seq<Record>, ids: set<nat>)
    requires Ascending(log)
    ensures Ascending(Chosen(log, ids))
  {
    if log != [] {
      var n := |log| - 1;
      ChosenAscending(log[..n], ids);
      ChosenMembers(log[..n], ids);
      var rest := Chosen(log[..n], ids);
      forall i | 0 <= i < |rest| ensures Before(rest[i], log[n]) && rest[i].id != log[n].id {
        assert rest[i] in log[..n];
      }
    }
  }

  lemma {:induction false} ChosenAlike(log: seq<Record>, a: set<nat>, b: set<nat>)
    requires forall i | 0 <= i < |log| :: log[i].id in a <==> log[i].id in b
    ensures Chosen(log, a) == Chosen(log, b)
  {
    if log != [] {
      ChosenAlike(log[..|log| - 1], a, b);
    }
  }

  lemma {:induction false} ChosenAll(log: seq<Record>, ids: set<nat>)
    requires forall i | 0 <= i < |log| :: log[i].id in ids
    ensures Chosen(log, ids) == log
  {
    if log != [] {
      ChosenAll(log[..|log| - 1], ids);
    }
  }

  lemma {:induction false} ChosenNone(log: seq<Record>, ids: set<nat>)
    requires forall i | 0 <= i < |log| :: log[i].id !in ids
    ensures Chosen(log, ids) == []
  {
    if log != [] {
      ChosenNone(log[..|log| - 1], ids);
    }
  }

  lemma WholeLog(log: seq<Record>)
    ensures Chosen(log, Ids(log)) == log
  {
    forall i | 0 <= i < |log| ensures log[i].id in Ids(log) {
      assert log[i] in log;
    }
    ChosenAll(log, Ids(log));
  }

  lemma {:induction false} ChosenConcat(a: seq<Record>, b: seq<Record>, ids: set<nat>)
    ensures Chosen(a + b, ids) == Chosen(a, ids) + Chosen(b, ids)
  {
    if b == [] {
      assert a + b == a;
    } else {
      assert (a + b)[..|a + b| - 1] == a + b[..|b| - 1];
      ChosenConcat(a, b[..|b| - 1], ids);
    }
  }

  // ----- Applying records out of order -----

  lemma CommuteAt(t: Tables, a: Record, b: Record)
    requires Commute(a, b)
    ensures Apply(Apply(t, a), b) == Apply(Apply(t, b), a)
  {
  }

  ghost predicate AllCommute(s: seq<Record>, r: Record) {
    forall i | 0 <= i < |s| :: Commute(s[i], r)
  }

  lemma {:induction false} CommutePast(t: Tables, s: seq<Record>, r: Record)
    requires AllCommute(s, r)
    ensures Apply(Fold(t, s), r) == Fold(Apply(t, r), s)
  {
    if s != [] {
      var n := |s| - 1;
      CommuteFront(s, r);
      CommutePast(t, s[..n], r);
      CommuteAt(Fold(t, s[..n]), s[n], r);
    }
  }

  lemma CommuteFront(s: seq<Record>, r: Record)
    requires s != [] && AllCommute(s, r)
    ensures AllCommute(s[..|s| - 1], r) && Commute(s[|s| - 1], r)
  {
  }

  /** Every record of the log among `late` commutes with the records after it that are among `early`. */
  ghost predicate LateCommute(log: seq<Record>, early: set<nat>, late: set<nat>) {
    forall i, j | 0 <= i < j < |log| :: log[i].id in late && log[j].id in early ==> Commute(log[i], log[j])
  }

  /** Applying some records of the log and then others is applying all of them in order, if the late ones commute with
      the early ones they come before. */
  lemma {:induction false} Merge(t: Tables, log: seq<Record>, early: set<nat>, late: set<nat>)
    requires early !! late && LateCommute(log, early, late)
    ensures Fold(t, Chosen(log, early + late)) == Fold(Fold(t, Chosen(log, early)), Chosen(log, late))
  {
    if log != [] {
      var n := |log| - 1;
      var front, r := log[..n], log[n];
      assert forall i | 0 <= i < n :: front[i] == log[i];
      Merge(t, front, early, late);
      MergeLast(t, front, r, early, late);
      ChosenLast(log, early + late);
      ChosenLast(log, early);
      ChosenLast(log, late);
    }
  }

  lemma ChosenLast(log: seq<Record>, ids: set<nat>)
    requires log != []
    ensures Chosen(log, ids)
            == Chosen(log[..|log| - 1], ids) + if log[|log| - 1].id in ids then [log[|log| - 1]] else []
  {
  }

  lemma MergeLast(t: Tables, front: seq<Record>, r: Record, early: set<nat>, late: set<nat>)
    requires early !! late && LateCommute(front + [r], early, late)
    requires Fold(t, Chosen(front, early + late)) == Fold(Fold(t, Chosen(front, early)), Chosen(front, late))
    ensures var last := [r];
            Fold(t, Chosen(front, early + late) + if r.id in early + late then last else [])
            == Fold(Fold(t, Chosen(front, early) + if r.id in early then last else []),
                    Chosen(front, late) + if r.id in late then last else [])
  {
    ChosenMembers(front, late);
    var e, l, all := Chosen(front, early), Chosen(front, late), Chosen(front, early + late);
    assert e + [] == e && l + [] == l && all + [] == all;
    FoldLast(t, all, r);
    if r.id in early {
      forall i | 0 <= i < |l| ensures Commute(l[i], r) {
        assert l[i] in l && l[i] in front;
        var k :| 0 <= k < |front| && front[k] == l[i];
        assert (front + [r])[k] == l[i] && (front + [r])[|front|] == r;
      }
      FoldLast(t, e, r);
      CommutePast(Fold(t, e), l, r);
    } else if r.id in late {
      FoldLast(Fold(t, e), l, r);
    }
  }

  /** The log, the ids of its records that have been applied, and the index. */
  datatype World = World(log: seq<Record>, applied: set<nat>, index: Index) {
    function Backlog(): seq<Record> { Chosen(log, Ids(log) - applied) }
    function Unmarked(): seq<Record> { Chosen(log, applied - index.indexed) }

    /** What a sync applies. */
    function Waiting(): seq<Record> { Chosen(log, Ids(log) - index.indexed) }
  }

  const START := World([], {}, NOTHING)

  /** The tables are those of applying the applied records in the order of the log; of these only state events may be
      unmarked, and nothing else is marked. */
  ghost predicate Tracks(w: World) {
    && Ascending(w.log)
    && w.index.tables == Fold(EMPTY, Chosen(w.log, w.applied))
    && w.index.indexed <= w.applied <= Ids(w.log)
    && forall r | r in w.log && r.id in w.applied :: r.id in w.index.indexed || r.body.State?
  }

  lemma UnmarkedStates(w: World)
    requires Tracks(w)
    ensures AllStates(w.Unmarked())
  {
    var us := w.Unmarked();
    ChosenMembers(w.log, w.applied - w.index.indexed);
    forall i | 0 <= i < |us| ensures us[i].body.State? {
      assert us[i] in us;
    }
  }

  predicate ListingOf(listing: seq<Record>, log: seq<Record>) {
    multiset(listing) == multiset(log)
  }

  lemma SortedAscending(s: seq<Record>, log: seq<Record>)
    requires Ascending(log) && SortedBy(Order(), s) && Distinct(s) && forall r | r in s :: r in log
    ensures Ascending(s)
  {
    forall i, j | 0 <= i < j < |s| ensures Before(s[i], s[j]) && s[i].id != s[j].id {
      assert Order()(s[i], s[j]);
      assert s[i] in s && s[j] in s;
      var k :| 0 <= k < |log| && log[k] == s[i];
      var l :| 0 <= l < |log| && log[l] == s[j];
      assert k != l;
      assert k < l || l < k;
    }
  }

  lemma {:induction false} FilterDistinct(keep: Record -> bool, s: seq<Record>)
    requires Distinct(s)
    ensures Distinct(Filter(keep, s))
  {
    if s != [] {
      var n := |s| - 1;
      FilterDistinct(keep, s[..n]);
      var rest := Filter(keep, s[..n]);
      forall i | 0 <= i < |rest| ensures rest[i] != s[n] {
        assert rest[i] in s[..n];
      }
    }
  }

  lemma PendingAscending(ix: Index, listing: seq<Record>, log: seq<Record>)
    requires Ascending(log) && ListingOf(listing, log)
    ensures Ascending(Pending(ix, listing))
    ensures forall r :: r in Pending(ix, listing) <==> r in log && r.id !in ix.indexed
  {
    SameMembers(listing, log);
    assert Distinct(log);
    FilterDistinct(Unindexed(ix), listing);
    var found, pending := Filter(Unindexed(ix), listing), Pending(ix, listing);
    SameMembers(pending, found);
    OrderTotal();
    SortSorted(Order(), found);
    SortedAscending(pending, log);
  }

  /** What a sync applies: the unmarked records of the log, in order, however they are listed. */
  lemma PendingIs(ix: Index, log: seq<Record>, listing: seq<Record>)
    requires Ascending(log) && ListingOf(listing, log)
    ensures Pending(ix, listing) == Chosen(log, Ids(log) - ix.indexed)
  {
    PendingAscending(ix, listing, log);
    ChosenAscending(log, Ids(log) - ix.indexed);
    ChosenMembers(log, Ids(log) - ix.indexed);
    IdsOf(log);
    AscendingUnique(Pending(ix, listing), Chosen(log, Ids(log) - ix.indexed));
  }

  lemma ChosenAcceptable(log: seq<Record>, ids: set<nat>)
    requires AllAcceptable(log)
    ensures AllAcceptable(Chosen(log, ids))
  {
    var s := Chosen(log, ids);
    ChosenMembers(log, ids);
    forall i | 0 <= i < |s| ensures Acceptable(s[i]) {
      assert s[i] in s;
      var k :| 0 <= k < |log| && log[k] == s[i];
    }
  }

  lemma SyncedIs(ix: Index, log: seq<Record>, listing: seq<Record>)
    requires Ascending(log) && AllAcceptable(log) && ListingOf(listing, log)
    ensures Synced(ix, listing) == Batched(ix, Chosen(log, Ids(log) - ix.indexed))
  {
    PendingIs(ix, log, listing);
    ChosenAcceptable(log, Ids(log) - ix.indexed);
  }

  /** Every record not applied yet commutes with the applied records that come after it. */
  ghost predicate BacklogCommutes(w: World) {
    LateCommute(w.log, w.applied, Ids(w.log) - w.applied)
  }

  /** A sync of an empty ledger is a rebuild: the fold of the log, with every record marked. */
  lemma RebuildIsFold(log: seq<Record>, listing: seq<Record>)
    requires Ascending(log) && ListingOf(listing, log) && AllAcceptable(log)
    ensures Synced(NOTHING, listing) == Index(Fold(EMPTY, log), Ids(log))
  {
    SyncedIs(NOTHING, log, listing);
    assert Ids(log) - {} == Ids(log);
    WholeLog(log);
  }

  // ----- Schedules -----

  /** Records appended to the log; records of the log indexed as a batch, in any order and whatever else is waiting; a
      state event saved and applied but not marked; a sync. */
  datatype Event = Append(records: seq<Record>) | Batch(records: seq<Record>) | SaveState(record: Record)
    | Sync(listing: seq<Record>)

  ghost predicate Possible(w: World, e: Event) {
    match e
    case Append(_) => true
    case Batch(records) => Distinct(records) && forall r | r in records :: r in w.log && r.id !in w.applied
    case SaveState(record) => record.body.State?
    case Sync(listing) => ListingOf(listing, w.log)
  }

  function Step(w: World, e: Event): World
    requires e.SaveState? ==> e.record.body.State?
  {
    match e
    case Append(records) => w.(log := w.log + records)
    case Batch(records) => World(w.log, w.applied + Ids(records), Batched(w.index, records))
    case SaveState(r) =>
      World(w.log + [r], w.applied + {r.id},
            w.index.(tables := w.index.tables.(proposals := WithStatus(w.index.tables.proposals, r.body.proposal,
                                                                       r.body.status))))
    case Sync(listing) => World(w.log, Ids(w.log), Synced(w.index, listing))
  }

  /** The log stays in order and acceptable. */
  ghost predicate InOrder(w: World) {
    Ascending(w.log) && AllAcceptable(w.log)
  }

  /** Records of the log, each once; of the applied ones, only state events are applied again. */
  ghost predicate Queue(w: World, records: seq<Record>) {
    Distinct(records) && forall r | r in records :: r in w.log && (r.id in w.applied ==> r.body.State?)
  }

  /** Applied one after the other, each record fits. */
  ghost predicate Timely(w: World, records: seq<Record>) {
    forall i | 0 <= i < |records| :: Fits(w.log, w.applied + Ids(records[..i]), records[i])
  }

  /** The backlog fits one record after the other, and commutes with the unmarked state events that come after. */
  ghost predicate BacklogFits(w: World) {
    Timely(w, w.Backlog()) && LateCommute(w.log, w.applied - w.index.indexed, Ids(w.log) - w.applied)
  }

  /** The records of a batch fit one after the other; so do those of a sync, or else its backlog fits and erases what
      applying the unmarked state events again changes. */
  ghost predicate Harmless(w: World, e: Event) {
    match e
    case Append(_) => true
    case Batch(records) => Timely(w, records)
    case SaveState(_) => true
    case Sync(_) =>
      || Timely(w, w.Waiting())
      || (BacklogFits(w) && AllStates(w.Unmarked()) && Current(w.index.tables, w.Unmarked(), w.Backlog()))
  }

  lemma AscendingIds(log: seq<Record>, r: Record, u: Record)
    requires Ascending(log) && r in log && u in log && r.id == u.id
    ensures r == u
  {
    var i :| 0 <= i < |log| && log[i] == r;
    var j :| 0 <= j < |log| && log[j] == u;
    assert !(i < j) && !(j < i);
  }

  lemma ChosenOne(log: seq<Record>, r: Record)
    requires Ascending(log) && r in log
    ensures Chosen(log, {r.id}) == [r]
  {
    var one := [r];
    ChosenAscending(log, {r.id});
    ChosenMembers(log, {r.id});
    forall x ensures x in Chosen(log, {r.id}) <==> x in one {
      if x in log && x.id == r.id {
        AscendingIds(log, x, r);
      }
    }
    AscendingUnique(Chosen(log, {r.id}), one);
  }

  ghost predicate CommutesLater(log: seq<Record>, ids: set<nat>, r: Record) {
    forall u | u in log && u.id in ids && Before(r, u) :: Commute(r, u)
  }

  lemma LateOne(log: seq<Record>, ids: set<nat>, r: Record)
    requires Ascending(log) && r in log && CommutesLater(log, ids, r)
    ensures LateCommute(log, ids, {r.id})
  {
    forall i, j | 0 <= i < j < |log| && log[i].id in {r.id} && log[j].id in ids ensures Commute(log[i], log[j]) {
      assert log[i] in log && log[j] in log;
      AscendingIds(log, log[i], r);
    }
  }

  /** One more record applied, if it commutes with the later ones applied before it. */
  lemma InsertOne(t: Tables, log: seq<Record>, ids: set<nat>, r: Record)
    requires Ascending(log) && r in log && r.id !in ids && CommutesLater(log, ids, r)
    ensures Fold(t, Chosen(log, ids + {r.id})) == Apply(Fold(t, Chosen(log, ids)), r)
  {
    LateOne(log, ids, r);
    Merge(t, log, ids, {r.id});
    ChosenOne(log, r);
    FoldLast(Fold(t, Chosen(log, ids)), [], r);
    assert [] + [r] == [r];
  }

  /** At its place in the log, the record may come after the later ones of `ids`. */
  ghost predicate LandsIn(log: seq<Record>, ids: set<nat>, r: Record) {
    forall k | 0 <= k < |log| && log[k] == r ::
      Lands(Fold(EMPTY, Chosen(log[..k], ids)), r, Chosen(log[k + 1..], ids))
  }

  /** The log around one of its records. */
  lemma ChosenAround(log: seq<Record>, ids: set<nat>, k: nat)
    requires Ascending(log) && k < |log| && log[k].id !in ids
    ensures var before, after := Chosen(log[..k], ids), Chosen(log[k + 1..], ids);
            && Chosen(log, ids) == before + after && Chosen(log, ids + {log[k].id}) == before + [log[k]] + after
            && log[k].id !in Ids(after)
  {
    var r, pre, post := log[k], log[..k], log[k + 1..];
    assert log == pre + [r] + post;
    forall i | 0 <= i < |pre| ensures pre[i].id != r.id {
      assert pre[i] == log[i];
    }
    forall i | 0 <= i < |post| ensures post[i].id != r.id {
      assert post[i] == log[k + 1 + i];
    }
    ChosenAlike(pre, ids, ids + {r.id});
    ChosenAlike(post, ids, ids + {r.id});
    ChosenSplit(pre, r, post, ids);
    ChosenSplit(pre, r, post, ids + {r.id});
    ChosenMembers(post, ids);
  }

  lemma ChosenSplit(pre: seq<Record>, r: Record, post: seq<Record>, ids: set<nat>)
    ensures var one := [r];
            Chosen(pre + one + post, ids) == Chosen(pre, ids) + (if r.id in ids then one else []) + Chosen(post, ids)
  {
    ChosenConcat(pre + [r], post, ids);
    ChosenLast(pre + [r], ids);
    assert (pre + [r])[..|pre|] == pre;
  }

  lemma OnePlace(log: seq<Record>, ids: set<nat>, k: nat)
    requires Ascending(log) && k < |log|
    ensures LandsIn(log, ids, log[k]) <==> Lands(Fold(EMPTY, Chosen(log[..k], ids)), log[k], Chosen(log[k + 1..], ids))
  {
    assert forall j | 0 <= j < |log| && log[j] == log[k] :: j == k;
  }

  /** A record applied late has the effect of its place in the log exactly when it lands. */
  lemma InsertOneExactly(log: seq<Record>, ids: set<nat>, r: Record)
    requires Ascending(log) && r in log && r.id !in ids
    ensures Apply(Fold(EMPTY, Chosen(log, ids)), r) == Fold(EMPTY, Chosen(log, ids + {r.id})) <==> LandsIn(log, ids, r)
  {
    var k :| 0 <= k < |log| && log[k] == r;
    var before, after := Chosen(log[..k], ids), Chosen(log[k + 1..], ids);
    ChosenAround(log, ids, k);
    OnePlace(log, ids, k);
    FoldConcat(EMPTY, before, after);
    FoldConcat(EMPTY, before + [r], after);
    FoldLast(EMPTY, before, r);
    LateExactly(Fold(EMPTY, before), r, after);
  }

  /** A record that commutes with the later ones lands. */
  lemma CommutingLands(log: seq<Record>, ids: set<nat>, r: Record)
    requires Ascending(log) && r in log && r.id !in ids && CommutesLater(log, ids, r)
    ensures LandsIn(log, ids, r)
  {
    InsertOne(EMPTY, log, ids, r);
    InsertOneExactly(log, ids, r);
  }

  /** The last status set still holds. */
  predicate Held(rows: map<nat, Row>, b: Body)
    requires b.State?
  {
    b.proposal in rows ==> rows[b.proposal].status == b.status
  }

  lemma HeldExactly(t: Tables, r: Record)
    requires r.body.State?
    ensures Apply(t, r) == t <==> Held(t.proposals, r.body)
  {
    StateApplied(t, r);
  }

  /** Of the records applied already, the log's tables have the status a state event sets; any other record lands. */
  ghost predicate Fits(log: seq<Record>, ids: set<nat>, r: Record) {
    if r.id in ids then r.body.State? && Held(Fold(EMPTY, Chosen(log, ids)).proposals, r.body)
    else LandsIn(log, ids, r)
  }

  /** One more record leaves the tables those of the log's order exactly when it fits. */
  lemma NextExactly(log: seq<Record>, ids: set<nat>, r: Record)
    requires Ascending(log) && r in log && (r.id in ids ==> r.body.State?)
    ensures Apply(Fold(EMPTY, Chosen(log, ids)), r) == Fold(EMPTY, Chosen(log, ids + {r.id})) <==> Fits(log, ids, r)
  {
    if r.id in ids {
      assert ids + {r.id} == ids;
      HeldExactly(Fold(EMPTY, Chosen(log, ids)), r);
    } else {
      InsertOneExactly(log, ids, r);
    }
  }

  /** Timely records applied so far. */
  /** The tables after the first `n` of the records are those of the log's order. */
  ghost predicate InStep(w: World, records: seq<Record>, n: nat)
    requires n <= |records|
  {
    Fold(w.index.tables, records[..n]) == Fold(EMPTY, Chosen(w.log, w.applied + Ids(records[..n])))
  }

  lemma QueueStart(w: World, records: seq<Record>)
    requires Tracks(w)
    ensures InStep(w, records, 0)
  {
    assert Ids(records[..0]) == {} && w.applied + {} == w.applied;
  }

  lemma QueueNext(w: World, records: seq<Record>, k: nat)
    requires Tracks(w) && Queue(w, records) && k < |records| && InStep(w, records, k)
    ensures InStep(w, records, k + 1) <==> Fits(w.log, w.applied + Ids(records[..k]), records[k])
  {
    OwnInQueue(w, records, k);
    NextExactly(w.log, w.applied + Ids(records[..k]), records[k]);
    FoldLast(w.index.tables, records[..k], records[k]);
    NextIds(w.applied, records, k);
  }

  lemma QueueStep(w: World, records: seq<Record>, k: nat)
    requires Tracks(w) && Queue(w, records) && Timely(w, records) && k < |records| && InStep(w, records, k)
    ensures InStep(w, records, k + 1)
  {
    QueueNext(w, records, k);
  }

  lemma {:induction false} QueueFold(w: World, records: seq<Record>, n: nat)
    requires Tracks(w) && Queue(w, records) && Timely(w, records) && n <= |records|
    ensures InStep(w, records, n)
  {
    if n == 0 {
      QueueStart(w, records);
    } else {
      var k: nat := n - 1;
      QueueFold(w, records, k);
      QueueStep(w, records, k);
    }
  }

  lemma NextIds(applied: set<nat>, records: seq<Record>, k: nat)
    requires k < |records|
    ensures records[..k + 1] == records[..k] + [records[k]]
    ensures applied + Ids(records[..k]) + {records[k].id} == applied + Ids(records[..k + 1])
  {
    assert records[..k + 1] == records[..k] + [records[k]];
    IdsConcat(records[..k], [records[k]]);
    assert Ids([records[k]]) == {records[k].id};
  }

  lemma OwnInQueue(w: World, records: seq<Record>, k: nat)
    requires Ascending(w.log) && Queue(w, records) && k < |records|
    ensures records[k] in w.log && (records[k].id in w.applied + Ids(records[..k]) ==> records[k].body.State?)
    ensures records[k].id !in Ids(records[..k])
  {
    assert records[k] in records;
    forall u | u in records[..k] ensures u.id != records[k].id {
      var j :| 0 <= j < k && records[j] == u;
      assert records[j] in records && records[j] != records[k];
      DistinctIds(w.log, u, records[k]);
    }
  }

  lemma DistinctIds(log: seq<Record>, r: Record, u: Record)
    requires Ascending(log) && r in log && u in log && r != u
    ensures r.id != u.id
  {
    if r.id == u.id {
      AscendingIds(log, r, u);
    }
  }

  lemma BatchTracks(w: World, records: seq<Record>)
    requires Tracks(w) && Possible(w, Batch(records)) && Timely(w, records)
    ensures Tracks(Step(w, Batch(records)))
    ensures Step(w, Batch(records)).Unmarked() == w.Unmarked()
  {
    QueueFold(w, records, |records|);
    assert records[..|records|] == records;
    BatchIds(w, records);
    ChosenAlike(w.log, w.applied - w.index.indexed, w.applied + Ids(records) - (w.index.indexed + Ids(records)));
  }

  /** A batch marks what it applies. */
  lemma BatchIds(w: World, records: seq<Record>)
    requires Tracks(w) && Possible(w, Batch(records))
    ensures Ids(records) <= Ids(w.log) && Ids(records) !! w.applied
    ensures w.applied + Ids(records) - (w.index.indexed + Ids(records)) == w.applied - w.index.indexed
  {
    IdsOf(w.log);
    forall x | x in Ids(records) ensures x in Ids(w.log) && x !in w.applied {
      var r :| r in records && r.id == x;
    }
  }

  lemma StateTracks(w: World, r: Record)
    requires Tracks(w) && r.body.State? && Ascending(w.log + [r])
    ensures Tracks(Step(w, SaveState(r)))
  {
    StateFold(w, r);
    SnocIds(w.log, r);
    SnocMarked(w.log, r, w.applied, w.index.indexed);
  }

  lemma SnocMarked(log: seq<Record>, r: Record, applied: set<nat>, indexed: set<nat>)
    requires r.body.State? && forall x | x in log && x.id in applied :: x.id in indexed || x.body.State?
    requires forall x | x in log :: x.id != r.id
    ensures forall x | x in log + [r] && x.id in applied + {r.id} :: x.id in indexed || x.body.State?
  {
  }

  lemma SnocChosen(log: seq<Record>, r: Record, ids: set<nat>)
    requires forall x | x in log :: x.id != r.id
    ensures Chosen(log + [r], ids + {r.id}) == Chosen(log, ids) + [r]
  {
    ChosenLast(log + [r], ids + {r.id});
    assert (log + [r])[..|log|] == log;
    forall i | 0 <= i < |log| ensures log[i].id in ids + {r.id} <==> log[i].id in ids {
      assert log[i] in log;
    }
    ChosenAlike(log, ids + {r.id}, ids);
  }

  lemma StateApplied(t: Tables, r: Record)
    requires r.body.State?
    ensures Apply(t, r) == t.(proposals := WithStatus(t.proposals, r.body.proposal, r.body.status))
  {
    StatusRows(t.proposals, r.body);
  }

  lemma StateFold(w: World, r: Record)
    requires Tracks(w) && r.body.State? && Ascending(w.log + [r])
    ensures Fold(EMPTY, Chosen(w.log + [r], w.applied + {r.id}))
            == w.index.tables.(proposals := WithStatus(w.index.tables.proposals, r.body.proposal, r.body.status))
  {
    FreshLast(w.log, r);
    SnocChosen(w.log, r, w.applied);
    FoldLast(EMPTY, Chosen(w.log, w.applied), r);
    StateApplied(w.index.tables, r);
  }

  lemma FreshLast(log: seq<Record>, r: Record)
    requires Ascending(log + [r])
    ensures Ascending(log) && forall x | x in log :: x.id != r.id
  {
    var all := log + [r];
    assert forall i | 0 <= i < |log| :: all[i] == log[i];
    forall x | x in log ensures x.id != r.id {
      var i :| 0 <= i < |log| && log[i] == x;
      assert all[i] == x && all[|log|] == r;
    }
  }

  lemma SnocIds(log: seq<Record>, r: Record)
    requires Ascending(log + [r])
    ensures Ascending(log) && Ids(log + [r]) == Ids(log) + {r.id} && r.id !in Ids(log)
            && forall x | x in log :: x.id != r.id
  {
    FreshLast(log, r);
    IdsConcat(log, [r]);
    assert Ids([r]) == {r.id};
  }

  lemma {:induction false} AscendingPrefix(a: seq<Record>, b: seq<Record>)
    requires Ascending(a + b)
    ensures Ascending(a) && forall x, y | x in a && y in b :: x.id != y.id
  {
    var all := a + b;
    assert forall i | 0 <= i < |a| :: all[i] == a[i];
    forall x, y | x in a && y in b ensures x.id != y.id {
      var i :| 0 <= i < |a| && a[i] == x;
      var j :| 0 <= j < |b| && b[j] == y;
      assert all[i] == x && all[|a| + j] == y;
    }
  }

  lemma NotAmong(log: seq<Record>, id: nat)
    requires forall x | x in log :: x.id != id
    ensures id !in Ids(log)
  {
  }

  lemma AppendTracks(w: World, records: seq<Record>)
    requires Tracks(w) && Ascending(w.log + records)
    ensures Tracks(Step(w, Append(records)))
    ensures Step(w, Append(records)).Unmarked() == w.Unmarked()
  {
    AscendingPrefix(w.log, records);
    IdsConcat(w.log, records);
    forall r | r in records ensures r.id !in w.applied {
      NotAmong(w.log, r.id);
    }
    AppendedNone(w.log, records, w.applied);
    AppendedNone(w.log, records, w.applied - w.index.indexed);
  }

  lemma AppendedNone(log: seq<Record>, records: seq<Record>, ids: set<nat>)
    requires forall r | r in records :: r.id !in ids
    ensures Chosen(log + records, ids) == Chosen(log, ids)
  {
    ChosenConcat(log, records, ids);
    forall i | 0 <= i < |records| ensures records[i].id !in ids {
      assert records[i] in records;
    }
    ChosenNone(records, ids);
  }

  /** A sync marks the whole log. */
  lemma SyncedMarks(ix: Index, log: seq<Record>, listing: seq<Record>)
    requires Ascending(log) && AllAcceptable(log) && ListingOf(listing, log) && ix.indexed <= Ids(log)
    ensures Synced(ix, listing).indexed == Ids(log)
  {
    SyncedIs(ix, log, listing);
    ChosenIds(log, Ids(log) - ix.indexed);
  }

  lemma Parts(all: set<nat>, applied: set<nat>, indexed: set<nat>)
    requires indexed <= applied <= all
    ensures (applied - indexed) + (all - applied) == all - indexed && applied + (all - applied) == all
    ensures applied - indexed !! all - applied && applied !! all - applied
  {
  }

  lemma SyncedTables(w: World, listing: seq<Record>)
    requires Tracks(w) && BacklogFits(w) && ListingOf(listing, w.log) && AllAcceptable(w.log)
    ensures Synced(w.index, listing).tables == Fold(Fold(w.index.tables, w.Unmarked()), w.Backlog())
  {
    var all := Ids(w.log);
    SyncedIs(w.index, w.log, listing);
    Parts(all, w.applied, w.index.indexed);
    Merge(w.index.tables, w.log, w.applied - w.index.indexed, all - w.applied);
  }

  lemma BacklogQueue(w: World)
    requires Ascending(w.log) && w.applied <= Ids(w.log)
    ensures Queue(w, w.Backlog()) && w.applied + Ids(w.Backlog()) == Ids(w.log)
  {
    var late := w.Backlog();
    ChosenMembers(w.log, Ids(w.log) - w.applied);
    ChosenAscending(w.log, Ids(w.log) - w.applied);
    ChosenIds(w.log, Ids(w.log) - w.applied);
    assert forall i, j | 0 <= i < j < |late| :: late[i].id != late[j].id;
  }

  lemma RebuiltTables(w: World)
    requires Tracks(w) && Timely(w, w.Backlog())
    ensures Fold(EMPTY, w.log) == Fold(w.index.tables, w.Backlog())
  {
    var late := w.Backlog();
    BacklogQueue(w);
    QueueFold(w, late, |late|);
    assert late[..|late|] == late;
    WholeLog(w.log);
  }

  /** Where the backlog fits, a sync gives the fold of the whole log exactly when the unmarked state events are current:
      the backlog erases whatever applying them again changes. */
  lemma SyncExactly(w: World, listing: seq<Record>)
    requires Tracks(w) && BacklogFits(w) && ListingOf(listing, w.log) && AllAcceptable(w.log)
    ensures AllStates(w.Unmarked())
    ensures Synced(w.index, listing).tables == Fold(EMPTY, w.log)
            <==> Current(w.index.tables, w.Unmarked(), w.Backlog())
  {
    UnmarkedStates(w);
    SyncedTables(w, listing);
    RebuiltTables(w);
    ReappliedExactly(w.index.tables, w.Unmarked(), w.Backlog());
  }

  lemma SyncTracks(w: World, listing: seq<Record>)
    requires Tracks(w) && Possible(w, Sync(listing)) && InOrder(w) && Harmless(w, Sync(listing))
    ensures Tracks(Step(w, Sync(listing)))
    ensures Step(w, Sync(listing)).Unmarked() == []
  {
    if Timely(w, w.Waiting()) {
      TimelySync(w, listing);
    } else {
      SyncExactly(w, listing);
    }
    SyncedMarks(w.index, w.log, listing);
    AllIndexed(Step(w, Sync(listing)));
  }

  lemma WaitingQueue(w: World)
    requires Tracks(w)
    ensures Queue(w, w.Waiting()) && w.applied + Ids(w.Waiting()) == Ids(w.log)
  {
    var late := w.Waiting();
    ChosenMembers(w.log, Ids(w.log) - w.index.indexed);
    ChosenAscending(w.log, Ids(w.log) - w.index.indexed);
    ChosenIds(w.log, Ids(w.log) - w.index.indexed);
    assert forall i, j | 0 <= i < j < |late| :: late[i].id != late[j].id;
  }

  /** A sync of records that fit one after the other gives what a rebuild gives. */
  lemma TimelySync(w: World, listing: seq<Record>)
    requires Tracks(w) && ListingOf(listing, w.log) && AllAcceptable(w.log) && Timely(w, w.Waiting())
    ensures Synced(w.index, listing).tables == Fold(EMPTY, w.log)
  {
    var late := w.Waiting();
    SyncedIs(w.index, w.log, listing);
    WaitingQueue(w);
    QueueFold(w, late, |late|);
    assert late[..|late|] == late;
    WholeLog(w.log);
  }

  lemma OneFits(w: World, r: Record)
    ensures Timely(w, [r]) <==> Fits(w.log, w.applied, r)
  {
    var one := [r];
    assert Ids(one[..0]) == {} && w.applied + {} == w.applied && one[0] == r;
  }

  /** With one record left to apply, a sync gives what a rebuild gives exactly when the record fits. */
  lemma LateSyncExactly(w: World, listing: seq<Record>, r: Record)
    requires Tracks(w) && ListingOf(listing, w.log) && AllAcceptable(w.log) && w.Waiting() == [r]
    ensures Synced(w.index, listing).tables == Fold(EMPTY, w.log) <==> Fits(w.log, w.applied, r)
  {
    SyncedIs(w.index, w.log, listing);
    WaitingQueue(w);
    assert r in w.Waiting();
    BatchedOne(w.index, r);
    OneId(r);
    WholeLog(w.log);
    NextExactly(w.log, w.applied, r);
  }

  lemma AllIndexed(t: World)
    requires Ascending(t.log) && t.applied == t.index.indexed == Ids(t.log) && t.index.tables == Fold(EMPTY, t.log)
    ensures Tracks(t) && t.Unmarked() == []
  {
    WholeLog(t.log);
    IdsOf(t.log);
    ChosenNone(t.log, t.applied - t.index.indexed);
  }

  lemma ChosenIds(log: seq<Record>, ids: set<nat>)
    requires ids <= Ids(log)
    ensures Ids(Chosen(log, ids)) == ids
  {
    ChosenMembers(log, ids);
    forall x | x in ids ensures x in Ids(Chosen(log, ids)) {
      var r :| r in log && r.id == x;
      assert r in Chosen(log, ids);
    }
  }

  lemma StepTracks(w: World, e: Event)
    requires Tracks(w) && Possible(w, e) && InOrder(w) && InOrder(Step(w, e)) && Harmless(w, e)
    ensures Tracks(Step(w, e))
  {
    match e {
      case Append(records) => AppendTracks(w, records);
      case Batch(records) => BatchTracks(w, records);
      case SaveState(r) => StateTracks(w, r);
      case Sync(listing) => SyncTracks(w, listing);
    }
  }

  /** The worlds of a schedule, from an empty log and ledger; the log grows in order. */
  ghost predicate Schedule(worlds: seq<World>, events: seq<Event>) {
    && |worlds| == |events| + 1 && worlds[0] == START
    && (forall i | 0 <= i < |events| :: Possible(worlds[i], events[i]) && worlds[i + 1] == Step(worlds[i], events[i]))
    && (forall i | 0 <= i <= |events| :: InOrder(worlds[i]))
  }

  lemma {:induction false} ScheduleTracks(worlds: seq<World>, events: seq<Event>, n: nat)
    requires Schedule(worlds, events) && n <= |events| && forall i | 0 <= i < n :: Harmless(worlds[i], events[i])
    ensures Tracks(worlds[n])
  {
    if n > 0 {
      ScheduleTracks(worlds, events, n - 1);
      StepTracks(worlds[n - 1], events[n - 1]);
    }
  }

  /** Indexing agrees with rebuilding: over any schedule of appends, batches of any records in any order, state events
      and syncs, if every batch and sync is harmless, the tables always are those of one sync of an empty ledger over
      what was applied. */
  lemma ScheduleAgrees(worlds: seq<World>, events: seq<Event>, n: nat, listing: seq<Record>)
    requires Schedule(worlds, events) && n <= |events| && forall i | 0 <= i < n :: Harmless(worlds[i], events[i])
    requires ListingOf(listing, Chosen(worlds[n].log, worlds[n].applied))
    ensures worlds[n].index.tables == Synced(NOTHING, listing).tables
  {
    ScheduleTracks(worlds, events, n);
    var w := worlds[n];
    assert InOrder(w);
    ChosenAscending(w.log, w.applied);
    ChosenAcceptable(w.log, w.applied);
    RebuildIsFold(Chosen(w.log, w.applied), listing);
  }

  /** When every event is marked as it is applied, no sync finds a state event overtaken: timely batches and backlogs
      are all that is needed. */
  lemma {:induction false} MarkedSchedules(worlds: seq<World>, events: seq<Event>, n: nat)
    requires Schedule(worlds, events) && n <= |events| && forall i | 0 <= i < n :: !events[i].SaveState?
    requires forall i | 0 <= i < n :: events[i].Batch? ==> Timely(worlds[i], events[i].records)
    requires forall i | 0 <= i < n :: events[i].Sync? ==> Timely(worlds[i], worlds[i].Backlog())
    ensures Tracks(worlds[n]) && worlds[n].Unmarked() == []
    ensures forall i | 0 <= i < n :: Harmless(worlds[i], events[i])
  {
    if n > 0 {
      MarkedSchedules(worlds, events, n - 1);
      var w, e := worlds[n - 1], events[n - 1];
      assert InOrder(w) && InOrder(worlds[n]);
      MarkedStep(w, e);
    }
  }

  lemma MarkedAll(w: World)
    requires Tracks(w) && w.Unmarked() == []
    ensures w.index.indexed == w.applied
  {
    ChosenMembers(w.log, w.applied - w.index.indexed);
    forall x | x in w.applied ensures x in w.index.indexed {
      var r :| r in w.log && r.id == x;
      assert r in w.Unmarked() <==> r.id !in w.index.indexed;
    }
  }

  lemma MarkedStep(w: World, e: Event)
    requires Tracks(w) && w.Unmarked() == [] && Possible(w, e) && InOrder(w) && InOrder(Step(w, e)) && !e.SaveState?
    requires e.Batch? ==> Timely(w, e.records)
    requires e.Sync? ==> Timely(w, w.Backlog())
    ensures Harmless(w, e) && Tracks(Step(w, e)) && Step(w, e).Unmarked() == []
  {
    MarkedAll(w);
    match e {
      case Append(records) => AppendTracks(w, records);
      case Batch(records) => BatchTracks(w, records);
      case Sync(listing) => SyncTracks(w, listing);
    }
  }

  // ----- When every step shows -----

  /** The tables are those of applying the applied records in the order of the log. */
  ghost predicate OnTrack(w: World) {
    w.index.tables == Fold(EMPTY, Chosen(w.log, w.applied))
  }

  /** Whatever is applied one after the other, a batch or what a sync finds waiting, the tables stay on track all the
      way exactly when each record fits. */
  lemma InTurnExactly(w: World, records: seq<Record>)
    requires Tracks(w) && Queue(w, records)
    ensures Timely(w, records) <==> forall n: nat | n <= |records| :: InStep(w, records, n)
  {
    if Timely(w, records) {
      forall n: nat | n <= |records| ensures InStep(w, records, n) {
        QueueFold(w, records, n);
      }
    } else {
      var i :| 0 <= i < |records| && !Fits(w.log, w.applied + Ids(records[..i]), records[i]);
      if InStep(w, records, i) {
        QueueNext(w, records, i);
        assert !InStep(w, records, i + 1);
      }
    }
  }

  /** An event that applies at most one record, or a sync whose backlog fits. */
  ghost predicate Decisive(w: World, e: Event) {
    match e
    case Append(_) => true
    case Batch(records) => |records| <= 1
    case SaveState(_) => true
    case Sync(_) => BacklogFits(w) || |w.Waiting()| <= 1
  }

  lemma BatchInStep(w: World, records: seq<Record>)
    ensures OnTrack(Step(w, Batch(records))) <==> InStep(w, records, |records|)
  {
    assert records[..|records|] == records;
  }

  lemma BatchDecides(w: World, records: seq<Record>)
    requires Tracks(w) && Possible(w, Batch(records)) && |records| <= 1
    ensures OnTrack(Step(w, Batch(records))) <==> Timely(w, records)
  {
    BatchInStep(w, records);
    QueueStart(w, records);
    if records != [] {
      QueueNext(w, records, 0);
    }
  }

  lemma SyncOnTrack(w: World, listing: seq<Record>)
    ensures OnTrack(Step(w, Sync(listing))) <==> Synced(w.index, listing).tables == Fold(EMPTY, w.log)
  {
    WholeLog(w.log);
  }

  lemma SyncDecides(w: World, listing: seq<Record>)
    requires Tracks(w) && ListingOf(listing, w.log) && InOrder(w) && Decisive(w, Sync(listing))
    ensures Synced(w.index, listing).tables == Fold(EMPTY, w.log) <==> Harmless(w, Sync(listing))
  {
    if Timely(w, w.Waiting()) {
      TimelySync(w, listing);
    } else if BacklogFits(w) {
      SyncExactly(w, listing);
    } else {
      var late := w.Waiting();
      assert late == [late[0]];
      OneFits(w, late[0]);
      LateSyncExactly(w, listing, late[0]);
    }
  }

  /** A step that applies at most one record keeps the index on track exactly when it is harmless. */
  lemma StepExactly(w: World, e: Event)
    requires Tracks(w) && Possible(w, e) && InOrder(w) && InOrder(Step(w, e)) && Decisive(w, e)
    ensures OnTrack(Step(w, e)) <==> Harmless(w, e)
  {
    match e {
      case Append(records) => AppendTracks(w, records);
      case Batch(records) => BatchDecides(w, records);
      case SaveState(r) => StateTracks(w, r);
      case Sync(listing) => {
        SyncOnTrack(w, listing);
        SyncDecides(w, listing);
      }
    }
  }

  lemma {:induction false} OnTrackSoFar(worlds: seq<World>, events: seq<Event>, n: nat)
    requires Schedule(worlds, events) && forall i | 0 <= i < |events| :: Decisive(worlds[i], events[i])
    requires n <= |events| && forall m: nat | m <= n :: OnTrack(worlds[m])
    ensures forall i | 0 <= i < n :: Harmless(worlds[i], events[i])
  {
    if n > 0 {
      OnTrackSoFar(worlds, events, n - 1);
      ScheduleTracks(worlds, events, n - 1);
      assert InOrder(worlds[n - 1]) && InOrder(worlds[n]) && OnTrack(worlds[n]);
      StepExactly(worlds[n - 1], events[n - 1]);
    }
  }

  /** Over any schedule whose events each apply at most one record, or sync a backlog that fits, the tables always are
      those of a rebuild exactly when every event is harmless. */
  lemma ScheduleExactly(worlds: seq<World>, events: seq<Event>)
    requires Schedule(worlds, events) && forall i | 0 <= i < |events| :: Decisive(worlds[i], events[i])
    ensures (forall n: nat | n <= |events| :: OnTrack(worlds[n]))
            <==> forall i | 0 <= i < |events| :: Harmless(worlds[i], events[i])
  {
    if forall n: nat | n <= |events| :: OnTrack(worlds[n]) {
      OnTrackSoFar(worlds, events, |events|);
    } else {
      var n: nat :| n <= |events| && !OnTrack(worlds[n]);
      assert !forall i | 0 <= i < n :: Harmless(worlds[i], events[i]) by {
        if forall i | 0 <= i < n :: Harmless(worlds[i], events[i]) {
          ScheduleTracks(worlds, events, n);
        }
      }
    }
  }

  // ----- Records that may wait -----

  /** A record that may be indexed after `u`, although it comes before it in the log. */
  ghost predicate MayWait(r: Record, u: Record) {
    r.body.Other? || u.body.Other? || Apart(r, u)
  }

  lemma WaitingCommutes(r: Record, u: Record)
    requires MayWait(r, u)
    ensures Commute(r, u)
  {
    if r.body.Other? || u.body.Other? {
      OtherCommutes(r, u);
    } else {
      ApartCommute(r, u);
    }
  }

  /** A batch is timely if its records may wait for the later records applied before them. */
  lemma WaitingTimely(w: World, records: seq<Record>)
    requires Ascending(w.log) && Possible(w, Batch(records))
    requires forall i | 0 <= i < |records| :: WaitsLater(w.log, w.applied + Ids(records[..i]), records[i])
    ensures Timely(w, records)
  {
    forall i | 0 <= i < |records| ensures Fits(w.log, w.applied + Ids(records[..i]), records[i]) {
      assert records[i] in records;
      OwnInQueue(w, records, i);
      WaitingLands(w.log, w.applied + Ids(records[..i]), records[i]);
    }
  }

  ghost predicate WaitsLater(log: seq<Record>, ids: set<nat>, r: Record) {
    forall u | u in log && u.id in ids && Before(r, u) :: MayWait(r, u)
  }

  lemma WaitingLands(log: seq<Record>, ids: set<nat>, r: Record)
    requires Ascending(log) && r in log && r.id !in ids && WaitsLater(log, ids, r)
    ensures LandsIn(log, ids, r)
  {
    forall u | u in log && u.id in ids && Before(r, u) ensures Commute(r, u) {
      WaitingCommutes(r, u);
    }
    CommutingLands(log, ids, r);
  }

  lemma BacklogOrder(w: World, i: nat, u: Record)
    requires Ascending(w.log) && i < |w.Backlog()| && u in w.log && u.id in Ids(w.Backlog()[..i])
    ensures Before(u, w.Backlog()[i])
  {
    var late := w.Backlog();
    ChosenAscending(w.log, Ids(w.log) - w.applied);
    ChosenMembers(w.log, Ids(w.log) - w.applied);
    var x :| x in late[..i] && x.id == u.id;
    var j :| 0 <= j < i && late[j] == x;
    assert x in late;
    AscendingIds(w.log, x, u);
  }

  lemma BacklogLater(w: World, i: nat)
    requires Ascending(w.log) && BacklogCommutes(w) && i < |w.Backlog()|
    ensures CommutesLater(w.log, w.applied + Ids(w.Backlog()[..i]), w.Backlog()[i])
  {
    var late, r := w.Backlog(), w.Backlog()[i];
    ChosenMembers(w.log, Ids(w.log) - w.applied);
    assert r in late;
    forall u | u in w.log && u.id in w.applied + Ids(late[..i]) && Before(r, u) ensures Commute(r, u) {
      assert u.id !in Ids(late[..i]) by {
        if u.id in Ids(late[..i]) {
          BacklogOrder(w, i, u);
        }
      }
      LaterCommutes(w, r, u);
    }
  }

  lemma LaterCommutes(w: World, r: Record, u: Record)
    requires Ascending(w.log) && BacklogCommutes(w) && r in w.log && u in w.log && Before(r, u)
    requires r.id in Ids(w.log) - w.applied && u.id in w.applied
    ensures Commute(r, u)
  {
    var k :| 0 <= k < |w.log| && w.log[k] == r;
    var l :| 0 <= l < |w.log| && w.log[l] == u;
    assert k < l;
  }

  /** A backlog that commutes with the later records applied before it fits. */
  lemma CommutingFits(w: World)
    requires Tracks(w) && BacklogCommutes(w)
    ensures BacklogFits(w)
  {
    var late := w.Backlog();
    BacklogQueue(w);
    ChosenMembers(w.log, Ids(w.log) - w.applied);
    forall i | 0 <= i < |late| ensures Fits(w.log, w.applied + Ids(late[..i]), late[i]) {
      assert late[i] in late;
      OwnInQueue(w, late, i);
      BacklogLater(w, i);
      CommutingLands(w.log, w.applied + Ids(late[..i]), late[i]);
    }
  }

  /** A backlog fits if its records may wait for the later records that were applied. */
  lemma WaitingBacklog(w: World)
    requires forall r, u | r in w.log && u in w.log && r.id !in w.applied && u.id in w.applied && Before(r, u) ::
             MayWait(r, u)
    requires Tracks(w)
    ensures BacklogFits(w)
  {
    var late := Ids(w.log) - w.applied;
    forall i, j | 0 <= i < j < |w.log| && w.log[i].id in late
      && w.log[j].id in w.applied ensures Commute(w.log[i], w.log[j]) {
      assert w.log[i] in w.log && w.log[j] in w.log && Before(w.log[i], w.log[j]);
      WaitingCommutes(w.log[i], w.log[j]);
    }
    CommutingFits(w);
  }

  /** Only records that are not indexed as anything wait to be applied. */
  ghost predicate OnlyOthersWait(w: World) {
    forall r | r in w.log && r.id !in w.applied :: r.body.Other?
  }

  lemma OthersMayWait(w: World)
    requires Tracks(w) && OnlyOthersWait(w)
    ensures BacklogFits(w)
  {
    WaitingBacklog(w);
  }

  lemma NothingAfter(earlier: seq<Record>, r: Record)
    requires Ascending(earlier + [r])
    ensures forall u | u in earlier + [r] :: !Before(r, u)
  {
    var all := earlier + [r];
    forall u | u in all ensures !Before(r, u) {
      var k :| 0 <= k < |all| && all[k] == u;
      assert k < |earlier| ==> Before(all[k], all[|earlier|]);
    }
  }

  /** The last record of the log makes a timely batch. */
  lemma LastTimely(w: World, earlier: seq<Record>, r: Record)
    requires Ascending(w.log) && w.log == earlier + [r] && r.id !in w.applied
    ensures Timely(w, [r])
  {
    NothingAfter(earlier, r);
    CommutingLands(w.log, w.applied, r);
    OneFits(w, r);
  }

  lemma LastBatch(w: World, earlier: seq<Record>, r: Record)
    requires Tracks(w) && w.log == earlier + [r] && r.id !in w.applied
    ensures Possible(w, Batch([r])) && Timely(w, [r]) && Tracks(Step(w, Batch([r])))
            && Step(w, Batch([r])).Unmarked() == w.Unmarked()
  {
    LastTimely(w, earlier, r);
    assert r in w.log;
    BatchTracks(w, [r]);
  }

  /** What a promotion does: it saves the candidate, which is never indexed live, and then the promotion, and indexes
      the promotion alone; a state event may follow. */
  function Promoting(w: World, candidate: Record, promotion: Record, state: Record): World
    requires state.body.State?
  {
    Step(Step(Step(w, Append([candidate] + [promotion])), Batch([promotion])), SaveState(state))
  }

  /** A promotion that leaves its candidate waiting, and a state event after it, are harmless, and so is the next sync
      if no state event has been overtaken. */
  lemma PromotingHarmless(w: World, candidate: Record, promotion: Record, state: Record)
    requires Tracks(w) && OnlyOthersWait(w) && candidate.body.Other? && promotion.body.Promotion? && state.body.State?
    requires Ascending(w.log + ([candidate] + [promotion]) + [state])
    ensures var w1 := Step(w, Append([candidate] + [promotion]));
            Possible(w1, Batch([promotion])) && Harmless(w1, Batch([promotion]))
    ensures var t := Promoting(w, candidate, promotion, state);
            Tracks(t) && OnlyOthersWait(t) && BacklogFits(t) && candidate in t.Backlog()
  {
    var w1 := Step(w, Append([candidate] + [promotion]));
    FreshLast(w1.log, state);
    PromotedAlone(w, candidate, promotion);
    StateAfter(Step(w1, Batch([promotion])), state, candidate);
  }

  lemma PromotedAlone(w: World, candidate: Record, promotion: Record)
    requires Tracks(w) && OnlyOthersWait(w) && candidate.body.Other?
    requires Ascending(w.log + ([candidate] + [promotion]))
    ensures var w1 := Step(w, Append([candidate] + [promotion]));
            && Tracks(w1) && Possible(w1, Batch([promotion])) && Timely(w1, [promotion])
            && Tracks(Step(w1, Batch([promotion]))) && OnlyOthersWait(Step(w1, Batch([promotion])))
            && candidate in w1.log && candidate.id !in w1.applied + {promotion.id}
  {
    var w1 := Step(w, Append([candidate] + [promotion]));
    AppendTracks(w, [candidate] + [promotion]);
    PairFresh(w, candidate, promotion);
    PairWaits(w, candidate, promotion);
    assert w1.log == w.log + [candidate] + [promotion];
    LastBatch(w1, w.log + [candidate], promotion);
  }

  lemma PairFresh(w: World, candidate: Record, promotion: Record)
    requires Tracks(w) && Ascending(w.log + ([candidate] + [promotion]))
    ensures candidate.id !in w.applied && promotion.id !in w.applied && candidate.id != promotion.id
  {
    var pair := [candidate] + [promotion];
    AscendingPrefix(w.log, pair);
    assert candidate in pair && promotion in pair;
    NotAmong(w.log, candidate.id);
    NotAmong(w.log, promotion.id);
    var all := w.log + pair;
    assert all[|w.log|] == candidate && all[|w.log| + 1] == promotion;
  }

  lemma PairWaits(w: World, candidate: Record, promotion: Record)
    requires OnlyOthersWait(w) && candidate.body.Other? && promotion.id !in w.applied
    ensures var w1, one := Step(w, Append([candidate] + [promotion])), [promotion];
            Possible(w1, Batch(one)) && OnlyOthersWait(Step(w1, Batch(one))) && candidate in w1.log
  {
    var log, one := w.log + ([candidate] + [promotion]), [promotion];
    assert log[|w.log|] == candidate && log[|w.log| + 1] == promotion;
    OneId(promotion);
    forall r | r in log ensures r in w.log || r == candidate || r == promotion {
    }
  }

  lemma OneId(r: Record)
    ensures Ids([r]) == {r.id}
  {
  }

  lemma StateAfter(w: World, state: Record, waiting: Record)
    requires Tracks(w) && OnlyOthersWait(w) && state.body.State? && Ascending(w.log + [state])
    requires waiting in w.log && waiting.id !in w.applied
    ensures var t := Step(w, SaveState(state));
            Tracks(t) && OnlyOthersWait(t) && BacklogFits(t) && waiting in t.Backlog()
  {
    var t := Step(w, SaveState(state));
    StateTracks(w, state);
    FreshLast(w.log, state);
    IdsOf(t.log);
    ChosenMembers(t.log, Ids(t.log) - t.applied);
    assert waiting in t.log;
    OthersMayWait(t);
  }

  // ----- Where indexing and rebuilding part -----

  /** Everything in the log has been applied. */
  ghost predicate UpToDate(w: World) {
    Tracks(w) && w.applied == Ids(w.log)
  }

  lemma UpToDateTables(w: World)
    requires UpToDate(w)
    ensures w.index.tables == Fold(EMPTY, w.log) && w.Backlog() == [] && BacklogFits(w)
  {
    WholeLog(w.log);
    ChosenNone(w.log, Ids(w.log) - w.applied);
  }

  /** The world after a record has been saved and indexed by itself. */
  function Recorded(w: World, r: Record): World {
    Step(Step(w, Append([r])), Batch([r]))
  }

  lemma RecordedTracks(w: World, r: Record)
    requires UpToDate(w) && Ascending(w.log + [r])
    ensures Tracks(Recorded(w, r)) && Recorded(w, r).Unmarked() == w.Unmarked() && r.id !in w.applied
  {
    AppendTracks(w, [r]);
    SnocIds(w.log, r);
    LastBatch(Step(w, Append([r])), w.log, r);
  }

  lemma BatchedOne(ix: Index, r: Record)
    ensures Batched(ix, [r]) == Index(Apply(ix.tables, r), ix.indexed + {r.id})
  {
    OneId(r);
    FoldLast(ix.tables, [], r);
    assert [] + [r] == [r];
  }

  lemma RecordedParts(w: World, r: Record)
    ensures Recorded(w, r) == World(w.log + [r], w.applied + {r.id},
                                    Index(Apply(w.index.tables, r), w.index.indexed + {r.id}))
  {
    OneId(r);
    BatchedOne(w.index, r);
  }

  lemma RecordedUpToDate(w: World, r: Record)
    requires UpToDate(w) && Ascending(w.log + [r])
    ensures UpToDate(Recorded(w, r)) && r.id !in w.index.indexed && Recorded(w, r).Unmarked() == w.Unmarked()
  {
    RecordedTracks(w, r);
    SnocIds(w.log, r);
    RecordedParts(w, r);
  }

  /** The world after a state event saved live, and then a triage recorded. */
  function Overtaken(w: World, state: Record, triage: Record): World
    requires state.body.State?
  {
    Recorded(Step(w, SaveState(state)), triage)
  }

  lemma StateUpToDate(w: World, state: Record)
    requires UpToDate(w) && state.body.State? && Ascending(w.log + [state])
    ensures var t := Step(w, SaveState(state));
            UpToDate(t) && AllStates(t.Unmarked())
            && LastStatus(t.Unmarked(), state.body.proposal) == Some(state.body.status)
  {
    var t := Step(w, SaveState(state));
    StateTracks(w, state);
    SnocIds(w.log, state);
    UnmarkedStates(t);
    StateLast(w.log, state, t.applied - t.index.indexed);
  }

  lemma StateLast(log: seq<Record>, state: Record, ids: set<nat>)
    requires AllStates(Chosen(log + [state], ids)) && state.body.State? && state.id in ids
    ensures LastStatus(Chosen(log + [state], ids), state.body.proposal) == Some(state.body.status)
  {
    ChosenLast(log + [state], ids);
    assert (log + [state])[..|log|] == log;
  }

  lemma TriagedRow(t: Tables, triage: Record)
    requires triage.body.Triage? && triage.body.proposal in t.proposals
             && !Final(t.proposals[triage.body.proposal].status)
    ensures var p := triage.body.proposal;
            p in Apply(t, triage).proposals && Apply(t, triage).proposals[p].status == StatusOf(triage.body.verdict)
  {
  }

  /** A proposal given a status by a live state event and triaged to another one afterwards: the index has the triage's
      status, as a rebuild would, and the next sync brings the state event's back. */
  lemma OvertakenState(w: World, state: Record, triage: Record, listing: seq<Record>)
    requires UpToDate(w) && state.body.State? && triage.body.Triage? && triage.body.proposal == state.body.proposal
    requires state.body.proposal in w.index.tables.proposals
    requires !Final(state.body.status) && StatusOf(triage.body.verdict) != state.body.status
    requires Ascending(w.log + [state]) && Ascending(w.log + [state] + [triage]) && AllAcceptable(w.log)
    requires ListingOf(listing, Overtaken(w, state, triage).log)
    ensures var t := Overtaken(w, state, triage);
            t.index.tables == Fold(EMPTY, t.log) && Synced(t.index, listing).tables != Fold(EMPTY, t.log)
  {
    var w1, t := Step(w, SaveState(state)), Overtaken(w, state, triage);
    StateUpToDate(w, state);
    RecordedUpToDate(w1, triage);
    RecordedParts(w1, triage);
    UpToDateTables(t);
    TriagedRow(w1.index.tables, triage);
    CurrentNow(t.index.tables, t.Unmarked());
    assert !Current(t.index.tables, t.Unmarked(), []);
    AcceptedToo(w.log, state, triage);
    SyncExactly(t, listing);
  }

  lemma AcceptedToo(log: seq<Record>, a: Record, b: Record)
    requires AllAcceptable(log) && Acceptable(a) && Acceptable(b)
    ensures AllAcceptable(log + [a] + [b])
  {
  }

  /** The world after a triage saved but not indexed, and then a portfolio recorded. */
  function Skipped(w: World, triage: Record, portfolio: Record): World {
    Recorded(Step(w, Append([triage])), portfolio)
  }

  lemma SkippedWorld(w: World, triage: Record, portfolio: Record, listing: seq<Record>)
    requires UpToDate(w) && w.Unmarked() == [] && triage.body.Triage? && portfolio.body.Portfolio?
    requires Ascending(w.log + [triage] + [portfolio]) && AllAcceptable(w.log)
    requires ListingOf(listing, Skipped(w, triage, portfolio).log)
    ensures var t := Skipped(w, triage, portfolio);
            && t.log == w.log + [triage] + [portfolio]
            && Synced(t.index, listing).tables == Apply(Apply(w.index.tables, portfolio), triage)
            && Fold(EMPTY, t.log) == Apply(Apply(w.index.tables, triage), portfolio)
  {
    var t, one := Skipped(w, triage, portfolio), [portfolio];
    UpToDateTables(w);
    AcceptedToo(w.log, triage, portfolio);
    SkippedPending(w, triage, portfolio);
    SyncedIs(t.index, t.log, listing);
    FoldLast(w.index.tables, [], portfolio);
    FoldLast(t.index.tables, [], triage);
    assert [] + one == one && [] + [triage] == [triage];
    FoldLast(EMPTY, w.log + [triage], portfolio);
    FoldLast(EMPTY, w.log, triage);
  }

  lemma SkippedPending(w: World, triage: Record, portfolio: Record)
    requires UpToDate(w) && w.Unmarked() == [] && Ascending(w.log + [triage] + [portfolio])
    ensures var t := Skipped(w, triage, portfolio); Chosen(t.log, Ids(t.log) - t.index.indexed) == [triage]
  {
    var t := Skipped(w, triage, portfolio);
    FreshLast(w.log + [triage], portfolio);
    FreshLast(w.log, triage);
    IdsConcat(w.log, [triage]);
    IdsConcat(w.log + [triage], [portfolio]);
    assert Ids([triage]) == {triage.id} && Ids([portfolio]) == {portfolio.id};
    NotAmong(w.log, triage.id);
    NotAmong(w.log + [triage], portfolio.id);
    MarkedAll(w);
    assert triage in t.log;
    assert Ids(t.log) - t.index.indexed == {triage.id};
    ChosenOne(t.log, triage);
  }

  lemma SelectedFirst(t: Tables, triage: Record, portfolio: Record, p: nat)
    requires triage.body.Triage? && triage.body.proposal == p && portfolio.body.Portfolio?
             && Listed(portfolio.body.members, p)
    requires p in t.proposals && !Final(t.proposals[p].status)
    ensures var late, early := Apply(Apply(t, portfolio), triage), Apply(Apply(t, triage), portfolio);
            && p in late.proposals && late.proposals[p].score == t.proposals[p].score
            && p in early.proposals && early.proposals[p].score == Some(triage.body.score)
  {
  }

  /** A triage may come after a portfolio unless the portfolio selects its proposal, whose row is not final and has
      other scores. */
  lemma SkippedLands(t: Tables, triage: Record, portfolio: Record)
    requires triage.body.Triage? && portfolio.body.Portfolio?
    ensures var p := triage.body.proposal;
            Lands(t, triage, [portfolio])
            <==> !Listed(portfolio.body.members, p) || p !in t.proposals || Final(t.proposals[p].status)
                 || Rescored(t.proposals[p], triage.body)
  {
    var p, one := triage.body.proposal, [portfolio];
    FoldOne(t, portfolio);
    if p in t.proposals {
      SkippedRow(t.proposals[p], triage.body, portfolio, p);
    }
    assert forall q | q in t.proposals && q != p :: RowLands(t.proposals[q], triage.body, one, q);
  }

  lemma SkippedRow(row: Row, b: Body, portfolio: Record, p: nat)
    requires TriageOf(b, p) && portfolio.body.Portfolio?
    ensures RowLands(row, b, [portfolio], p)
            <==> !Listed(portfolio.body.members, p) || Final(row.status) || Rescored(row, b)
  {
    var one := [portfolio];
    assert one[..0] == [] && one[0] == portfolio;
    assert forall s | true :: StatusAfter(s, one, p) == if Listed(portfolio.body.members, p) then Selected else s;
    assert LastTaken(row.status, one, p) == LastTaken(row.status, [], p);
  }

  /** A triage saved and not indexed, and a portfolio recorded after it: the next sync gives what a rebuild gives
      exactly when the portfolio does not select the triage's proposal, or the proposal has no row, or one that was
      final or scored so before. */
  lemma SkippedExactly(w: World, triage: Record, portfolio: Record, listing: seq<Record>)
    requires UpToDate(w) && w.Unmarked() == [] && triage.body.Triage? && portfolio.body.Portfolio?
    requires Ascending(w.log + [triage] + [portfolio]) && AllAcceptable(w.log)
    requires ListingOf(listing, Skipped(w, triage, portfolio).log)
    ensures var t, p, rows := Skipped(w, triage, portfolio), triage.body.proposal, w.index.tables.proposals;
            Synced(t.index, listing).tables == Fold(EMPTY, t.log)
            <==> !Listed(portfolio.body.members, p) || p !in rows || Final(rows[p].status)
                 || Rescored(rows[p], triage.body)
  {
    SkippedWorld(w, triage, portfolio, listing);
    SkippedLands(w.index.tables, triage, portfolio);
    FreshLast(w.log + [triage], portfolio);
    assert triage in w.log + [triage];
    LateByOne(w.index.tables, triage, portfolio);
  }

  /** A triage saved and not indexed, its proposal then selected by a portfolio that is: the next sync applies the
      triage without effect, and the row keeps its old score where a rebuild has the new one. */
  lemma SkippedTriage(w: World, triage: Record, portfolio: Record, listing: seq<Record>)
    requires UpToDate(w) && w.Unmarked() == [] && triage.body.Triage? && portfolio.body.Portfolio?
    requires var p := triage.body.proposal;
             && Listed(portfolio.body.members, p) && p in w.index.tables.proposals
               && !Final(w.index.tables.proposals[p].status)
             && w.index.tables.proposals[p].score != Some(triage.body.score)
    requires Ascending(w.log + [triage] + [portfolio]) && AllAcceptable(w.log)
    requires ListingOf(listing, Skipped(w, triage, portfolio).log)
    ensures var t, p := Skipped(w, triage, portfolio), triage.body.proposal;
            var synced, rebuilt := Synced(t.index, listing).tables, Fold(EMPTY, t.log);
            && p in synced.proposals && synced.proposals[p].score == w.index.tables.proposals[p].score
            && p in rebuilt.proposals && rebuilt.proposals[p].score == Some(triage.body.score)
            && synced != rebuilt && !Commute(triage, portfolio)
  {
    SkippedWorld(w, triage, portfolio, listing);
    SelectedFirst(w.index.tables, triage, portfolio, triage.body.proposal);
  }

  // ----- The shortest logs that part -----

  lemma EmptyUpToDate()
    ensures UpToDate(START) && START.Unmarked() == []
  {
    assert Ids([]) == {};
  }

  lemma FirstRow(t: Tables, r: Record)
    requires r.body.Proposal? && t.proposals == map[]
    ensures var p := r.body.proposal; p in Apply(t, r).proposals && Apply(t, r).proposals[p] == NewRow(r.id, r.body)
  {
  }

  /** A proposal recorded in an empty ledger. */
  lemma RecordedProposal(r: Record)
    requires r.body.Proposal?
    ensures var w, p := Recorded(START, r), r.body.proposal;
            && UpToDate(w) && w.Unmarked() == [] && w.log == [r] && p in w.index.tables.proposals
            && w.index.tables.proposals[p] == NewRow(r.id, r.body)
  {
    EmptyUpToDate();
    assert START.log + [r] == [r];
    RecordedUpToDate(START, r);
    RecordedParts(START, r);
    FirstRow(START.index.tables, r);
  }

  lemma ThreeInOrder(a: Record, b: Record, c: Record)
    requires Before(a, b) && Before(b, c) && a.id != b.id && b.id != c.id && a.id != c.id
    ensures Ascending([a] + [b] + [c]) && Ascending([a] + [b])
  {
  }

  lemma OvertakenAfter(w: World, proposal: Record, state: Record, triage: Record)
    requires UpToDate(w) && w.log == [proposal] && proposal.body.Proposal?
    requires state.body.State? && triage.body.Triage? && triage.body.proposal == state.body.proposal
    requires state.body.proposal in w.index.tables.proposals
    requires !Final(state.body.status) && StatusOf(triage.body.verdict) != state.body.status
    requires Before(proposal, state) && Before(state, triage)
    requires proposal.id != state.id && state.id != triage.id && proposal.id != triage.id
    ensures var t := Overtaken(w, state, triage);
            t.index.tables == Fold(EMPTY, t.log) && Synced(t.index, t.log).tables != Fold(EMPTY, t.log)
  {
    ThreeInOrder(proposal, state, triage);
    OvertakenState(w, state, triage, Overtaken(w, state, triage).log);
  }

  lemma SkippedAfter(w: World, proposal: Record, triage: Record, portfolio: Record)
    requires UpToDate(w) && w.Unmarked() == [] && w.log == [proposal] && proposal.body.Proposal?
    requires triage.body.Triage? && portfolio.body.Portfolio?
    requires Before(proposal, triage) && Before(triage, portfolio)
    requires proposal.id != triage.id && triage.id != portfolio.id && proposal.id != portfolio.id
    ensures var t, p, rows := Skipped(w, triage, portfolio), triage.body.proposal, w.index.tables.proposals;
            Synced(t.index, t.log).tables == Fold(EMPTY, t.log)
            <==> !Listed(portfolio.body.members, p) || p !in rows || Final(rows[p].status)
                 || Rescored(rows[p], triage.body)
  {
    ThreeInOrder(proposal, triage, portfolio);
    SkippedExactly(w, triage, portfolio, Skipped(w, triage, portfolio).log);
  }

  /** In an empty ledger: a proposal, a state event saved live, and a triage. */
  lemma OvertakenFirst(proposal: Record, state: Record, triage: Record)
    requires proposal.body.Proposal? && state.body.State? && triage.body.Triage?
    requires proposal.body.proposal == state.body.proposal == triage.body.proposal
    requires !Final(state.body.status) && StatusOf(triage.body.verdict) != state.body.status
    requires Before(proposal, state) && Before(state, triage)
    requires proposal.id != state.id && state.id != triage.id && proposal.id != triage.id
    ensures var t := Overtaken(Recorded(START, proposal), state, triage);
            t.index.tables == Fold(EMPTY, t.log) && Synced(t.index, t.log).tables != Fold(EMPTY, t.log)
  {
    RecordedProposal(proposal);
    OvertakenAfter(Recorded(START, proposal), proposal, state, triage);
  }

  /** In an empty ledger: a proposal, a triage that is not indexed, and a portfolio that selects the proposal. */
  lemma SkippedFirst(proposal: Record, triage: Record, portfolio: Record)
    requires proposal.body.Proposal? && triage.body.Triage? && portfolio.body.Portfolio?
    requires proposal.body.proposal == triage.body.proposal && Listed(portfolio.body.members, triage.body.proposal)
    requires Before(proposal, triage) && Before(triage, portfolio)
    requires proposal.id != triage.id && triage.id != portfolio.id && proposal.id != portfolio.id
    ensures var t := Skipped(Recorded(START, proposal), triage, portfolio);
            Synced(t.index, t.log).tables != Fold(EMPTY, t.log) <==> !Final(proposal.body.initial)
  {
    RecordedProposal(proposal);
    SkippedAfter(Recorded(START, proposal), proposal, triage, portfolio);
  }

  lemma OvertakenExample(proposal: Record, state: Record, triage: Record)
    requires proposal == Record(1, 1, Body.Proposal(1, 1, Proposed)) && state == Record(2, 2, Body.State(1, NotWanted))
    requires triage == Record(3, 3, Triage(1, 1.0, 1.0, 1.0, Eligible))
    ensures var t := Overtaken(Recorded(START, proposal), state, triage);
            t.index.tables == Fold(EMPTY, t.log) && Synced(t.index, t.log).tables != Fold(EMPTY, t.log)
  {
    OvertakenFirst(proposal, state, triage);
  }

  lemma SkippedExample(proposal: Record, triage: Record, portfolio: Record, members: seq<Member>)
    requires proposal == Record(1, 1, Body.Proposal(1, 1, Proposed)) && members == [Member(1, 1, 1.0)]
    requires triage == Record(2, 2, Triage(1, 1.0, 1.0, 1.0, Eligible))
    requires portfolio == Record(3, 3, Portfolio(1, 1, members, 0))
    ensures var t := Skipped(Recorded(START, proposal), triage, portfolio);
            Synced(t.index, t.log).tables != Fold(EMPTY, t.log)
  {
    assert Listed(members, 1);
    SkippedFirst(proposal, triage, portfolio);
  }
}
