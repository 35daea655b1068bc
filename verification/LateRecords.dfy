/** When a record applied after later ones has the effect of its place in the log (scout_ledger.py). */
module LateRecords {
  import opened Wrappers
  import opened Collections
  import opened ScoutLedger
  import opened LedgerRows

  // ----- What some events make of a row -----

  /** The status of a row that had the status `s` before the events. */
  function StatusAfter(s: Status, events: seq<Record>, p: nat): Status {
    if events == [] then s
    else
      var before, b := StatusAfter(s, events[..|events| - 1], p), events[|events| - 1].body;
      if Settles(b, p) then SettledStatus(b)
      else if TriageOf(b, p) && !Final(before) then StatusOf(b.verdict)
      else before
  }

  /** The last triage that takes effect on a row that had the status `s` before the events. */
  function LastTaken(s: Status, events: seq<Record>, p: nat): (b: Option<Body>)
    ensures b.Some? ==> b.value.Triage?
  {
    if events == [] then None
    else
      var front, b := events[..|events| - 1], events[|events| - 1].body;
      if TriageOf(b, p) && !Final(StatusAfter(s, front, p)) then Some(b) else LastTaken(s, front, p)
  }

  /** The group the last decision gives that takes `p` for a duplicate. */
  function LastGroup(events: seq<Record>, p: nat): Option<Option<nat>> {
    if events == [] then None
    else
      var b := events[|events| - 1].body;
      if b.Dedup? && b.proposal == p && b.duplicate then Some(b.duplicateOf)
      else LastGroup(events[..|events| - 1], p)
  }

  predicate Picks(b: Body, p: nat) {
    b.Portfolio? && Listed(b.members, p)
  }

  predicate Picked(events: seq<Record>, p: nat) {
    events != [] && (Picks(events[|events| - 1].body, p) || Picked(events[..|events| - 1], p))
  }

  /** A row with the scores of a triage, if there is one. */
  function Scored(row: Row, b: Option<Body>): Row
    requires b.Some? ==> b.value.Triage?
  {
    if b.Some? then row.(score := Some(b.value.score), expected := Some(b.value.expected)) else row
  }

  function Described(row: Row, events: seq<Record>, p: nat): Row {
    Scored(row, LastTaken(row.status, events, p)).(
    status := StatusAfter(row.status, events, p),
    dedupGroup := if LastGroup(events, p).Some? then LastGroup(events, p).value else row.dedupGroup,
    selected := row.selected || Picked(events, p))
  }

  /** The last settlement or triage taken decides the status, the last triage taken the scores, the last duplicate the
      group, and any portfolio the selection. */
  lemma {:induction false} RowAfterIs(row: Row, events: seq<Record>, p: nat)
    ensures RowAfter(row, events, p) == Described(row, events, p)
  {
    if events != [] {
      RowAfterIs(row, events[..|events| - 1], p);
    }
  }

  /** Statuses that are both final, or both not, take the same triages, and the same status unless nothing takes
      effect. */
  lemma {:induction false} SameFinality(s: Status, u: Status, events: seq<Record>, p: nat)
    requires Final(s) == Final(u)
    ensures LastTaken(s, events, p) == LastTaken(u, events, p)
    ensures Final(StatusAfter(s, events, p)) == Final(StatusAfter(u, events, p))
    ensures StatusAfter(s, events, p) == StatusAfter(u, events, p)
            || (StatusAfter(s, events, p) == s && StatusAfter(u, events, p) == u)
  {
    if events != [] {
      SameFinality(s, u, events[..|events| - 1], p);
    }
  }

  // ----- A triage that comes late to its row -----

  /** The scores of a row once the events have happened: those of the last triage taken, or its own. */
  predicate ScoredSo(row: Row, taken: Option<Body>, b: Body)
    requires b.Triage? && (taken.Some? ==> taken.value.Triage?)
  {
    if taken.Some? then taken.value.score == b.score && taken.value.expected == b.expected else Rescored(row, b)
  }

  /** A triage may come after the events. Where they leave the row final, it has no effect then, and must not have been
      missed: the row was final before, or a later triage replaced its scores, or they were the row's already. Where
      they do not, it has the last word, and must have had it in its place too. */
  predicate TriageLands(row: Row, b: Body, events: seq<Record>, p: nat)
    requires b.Triage?
  {
    var taken, was := LastTaken(row.status, events, p), row.status;
    if Final(StatusAfter(was, events, p)) then Final(was) || taken.Some? || Rescored(row, b)
    else
      && StatusAfter(if Final(was) then was else StatusOf(b.verdict), events, p) == StatusOf(b.verdict)
      && ((!Final(was) && taken.None?) || ScoredSo(row, taken, b))
  }

  lemma TriageExactly(row: Row, b: Body, events: seq<Record>, p: nat)
    requires TriageOf(b, p)
    ensures RowStep(RowAfter(row, events, p), b, p) == RowAfter(RowStep(row, b, p), events, p)
            <==> TriageLands(row, b, events, p)
  {
    RowAfterIs(row, events, p);
    RowAfterIs(RowStep(row, b, p), events, p);
    SameFinality(row.status, RowStep(row, b, p).status, events, p);
  }

  // ----- A settlement that comes late to its row -----

  /** An event that settles a row may come after others if the status it sets would have come back by itself, the
      scores do not depend on it, and a duplicate is in the group of the last later one. */
  predicate SettlingLands(row: Row, b: Body, events: seq<Record>, p: nat) {
    && StatusAfter(SettledStatus(b), events, p) == SettledStatus(b)
    && ScoresMeet(row, SettledStatus(b), events, p)
    && (b.Dedup? ==> LastGroup(events, p).None? || LastGroup(events, p).value == b.duplicateOf)
  }

  lemma ScoresExactly(row: Row, s: Status, events: seq<Record>, p: nat)
    ensures SameScores(Scored(row, LastTaken(row.status, events, p)), Scored(row, LastTaken(s, events, p)))
            <==> ScoresMeet(row, s, events, p)
  {
    var twin := row.(status := s);
    RowAfterIs(row, events, p);
    RowAfterIs(twin, events, p);
    if SettledIn(events, p) {
      Meeting(row, s, events, p);
    } else {
      NotSettled(events, p);
      LastTriageDecides(row, events, p);
      LastTriageDecides(twin, events, p);
      assert events[..|events|] == events;
    }
  }

  lemma SettlingExactly(row: Row, b: Body, events: seq<Record>, p: nat)
    requires Settles(b, p)
    ensures RowStep(RowAfter(row, events, p), b, p) == RowAfter(RowStep(row, b, p), events, p)
            <==> SettlingLands(row, b, events, p)
  {
    RowAfterIs(row, events, p);
    RowAfterIs(RowStep(row, b, p), events, p);
    ScoresExactly(row, SettledStatus(b), events, p);
  }

  /** The event may come to a row after the others. */
  predicate RowLands(row: Row, b: Body, events: seq<Record>, p: nat) {
    (TriageOf(b, p) ==> TriageLands(row, b, events, p)) && (Settles(b, p) ==> SettlingLands(row, b, events, p))
  }

  lemma NeitherLeaves(row: Row, b: Body, p: nat)
    requires !TriageOf(b, p) && !Settles(b, p)
    ensures RowStep(row, b, p) == row
  {
  }

  lemma RowExactly(row: Row, b: Body, events: seq<Record>, p: nat)
    ensures RowStep(RowAfter(row, events, p), b, p) == RowAfter(RowStep(row, b, p), events, p)
            <==> RowLands(row, b, events, p)
  {
    if TriageOf(b, p) {
      TriageExactly(row, b, events, p);
    } else if Settles(b, p) {
      SettlingExactly(row, b, events, p);
    } else {
      NeitherLeaves(row, b, p);
      NeitherLeaves(RowAfter(row, events, p), b, p);
    }
  }

  // ----- A record that comes late to the proposals -----

  /** Rows stay, and new ones are created by records of `ids`. */
  ghost predicate Grown(rows: map<nat, Row>, late: map<nat, Row>, ids: set<nat>) {
    && (forall p | p in rows :: p in late && late[p].record == rows[p].record)
    && (forall p | p in late && p !in rows :: late[p].record in ids)
  }

  lemma StepGrows(rows: map<nat, Row>, id: nat, b: Body)
    ensures Grown(rows, RowsAfter(rows, id, b), {id})
  {
    RowsKeepRecords(rows, b);
  }

  lemma GrownAgain(a: map<nat, Row>, b: map<nat, Row>, c: map<nat, Row>, some: set<nat>, more: set<nat>)
    requires Grown(a, b, some) && Grown(b, c, more)
    ensures Grown(a, c, some + more)
  {
  }

  lemma {:induction false} RowsGrow(rows: map<nat, Row>, events: seq<Record>)
    ensures Grown(rows, RowsFold(rows, events), Ids(events))
  {
    if events != [] {
      var n := |events| - 1;
      RowsGrow(rows, events[..n]);
      FrontIds(events);
      StepGrows(RowsFold(rows, events[..n]), events[n].id, events[n].body);
      GrownAgain(rows, RowsFold(rows, events[..n]), RowsFold(rows, events), Ids(events[..n]), {events[n].id});
    }
  }

  /** The events leave a row with neither scores, group nor selection so, and its status comes back. */
  predicate LeftNew(s: Status, events: seq<Record>, p: nat) {
    && StatusAfter(s, events, p) == s && LastTaken(s, events, p).None?
    && (LastGroup(events, p).None? || LastGroup(events, p).value.None?) && !Picked(events, p)
  }

  /** A proposal may come after the events if it is not inserted in its place either, or none of them inserts it and
      those about it leave its new row as it is; any other record, if it may come late to each row it would have
      found, and changes no row the events inserted. */
  predicate RowsLand(rows: map<nat, Row>, late: map<nat, Row>, id: nat, b: Body, events: seq<Record>) {
    if b.Proposal? then
      Known(rows, id, b.proposal) || (b.proposal !in late && LeftNew(b.initial, events, b.proposal))
    else
      && (forall p | p in rows :: RowLands(rows[p], b, events, p))
      && (forall p | p in late && p !in rows :: RowStep(late[p], b, p) == late[p])
  }

  lemma LateUpdate(rows: map<nat, Row>, id: nat, b: Body, events: seq<Record>)
    requires !b.Proposal?
    ensures Rows(RowsFold(rows, events), b) == RowsFold(Rows(rows, b), events)
            <==> RowsLand(rows, RowsFold(rows, events), id, b, events)
  {
    RowsKeepRecords(rows, b);
    FoldAlike(rows, Rows(rows, b), events);
    FollowedLate(rows, RowsFold(rows, events), RowsFold(Rows(rows, b), events), b, events);
  }

  /** The rows are those of applying the event last exactly when it may come late to each it would have found, and
      leaves the others. */
  lemma FollowedLate(rows: map<nat, Row>, late: map<nat, Row>, early: map<nat, Row>, b: Body, events: seq<Record>)
    requires Followed(rows, Rows(rows, b), late, early, events)
    ensures Rows(late, b) == early
            <==> (forall p | p in rows :: RowLands(rows[p], b, events, p))
                 && forall p | p in late && p !in rows :: RowStep(late[p], b, p) == late[p]
  {
    if Rows(late, b) == early {
      forall p | p in rows ensures RowLands(rows[p], b, events, p) {
        assert p in late;
        RowExactly(rows[p], b, events, p);
      }
    } else {
      var p :| p in late && RowStep(late[p], b, p) != early[p];
      if p in rows {
        RowExactly(rows[p], b, events, p);
      }
    }
  }

  lemma FrontIds(events: seq<Record>)
    requires events != []
    ensures Ids(events) == Ids(events[..|events| - 1]) + {events[|events| - 1].id}
  {
    var n := |events| - 1;
    assert events == events[..n] + [events[n]];
    IdsConcat(events[..n], [events[n]]);
  }

  lemma FreshStep(rows: map<nat, Row>, q: nat, row: Row, id: nat, u: Body)
    requires q !in rows && q !in RowsAfter(rows, id, u) && row.record != id
    ensures RowsAfter(rows[q := row], id, u) == RowsAfter(rows, id, u)[q := RowStep(row, u, q)]
  {
    if u.Proposal? {
      OtherKnown(rows, q, row, id, u.proposal);
    }
  }

  lemma OtherKnown(rows: map<nat, Row>, q: nat, row: Row, id: nat, p: nat)
    requires q !in rows && row.record != id
    ensures Known(rows[q := row], id, p) <==> p == q || Known(rows, id, p)
  {
    if r :| r in rows && rows[r].record == id {
      assert r in rows[q := row] && rows[q := row][r].record == id;
    }
  }

  /** A new row goes its own way over events that do not insert it. */
  lemma {:induction false} LateFresh(rows: map<nat, Row>, id: nat, b: Body, events: seq<Record>)
    requires b.Proposal? && id !in Ids(events) && b.proposal !in RowsFold(rows, events)
    ensures RowsFold(rows[b.proposal := NewRow(id, b)], events)
            == RowsFold(rows, events)[b.proposal := RowAfter(NewRow(id, b), events, b.proposal)]
  {
    if events != [] {
      var n := |events| - 1;
      FrontIds(events);
      LateFresh(rows, id, b, events[..n]);
      RowAfterIs(NewRow(id, b), events[..n], b.proposal);
      FreshStep(RowsFold(rows, events[..n]), b.proposal, RowAfter(NewRow(id, b), events[..n], b.proposal),
                events[n].id, events[n].body);
    }
  }

  lemma StillKnown(rows: map<nat, Row>, events: seq<Record>, id: nat, p: nat)
    requires Known(rows, id, p)
    ensures Known(RowsFold(rows, events), id, p)
  {
    RowsGrow(rows, events);
    if p !in rows {
      var q :| q in rows && rows[q].record == id;
      assert q in RowsFold(rows, events) && RowsFold(rows, events)[q].record == id;
    }
  }

  lemma LateProposal(rows: map<nat, Row>, id: nat, b: Body, events: seq<Record>)
    requires b.Proposal? && id !in Ids(events)
    ensures InsertedRow(RowsFold(rows, events), id, b) == RowsFold(InsertedRow(rows, id, b), events)
            <==> RowsLand(rows, RowsFold(rows, events), id, b, events)
  {
    var q, late, row := b.proposal, RowsFold(rows, events), NewRow(id, b);
    if Known(rows, id, q) {
      StillKnown(rows, events, id, q);
    } else if q in late {
      RowsGrow(rows, events);
      RowsGrow(rows[q := row], events);
      assert q in rows[q := row];
    } else {
      RowsGrow(rows, events);
      assert !Known(late, id, q);
      LateFresh(rows, id, b, events);
      RowAfterIs(row, events, q);
      assert late[q := row][q] == row;
    }
  }

  /** Applying a record to the proposals after the events, or in its place before them. */
  lemma RowsExactly(rows: map<nat, Row>, id: nat, b: Body, events: seq<Record>)
    requires id !in Ids(events)
    ensures RowsAfter(RowsFold(rows, events), id, b) == RowsFold(RowsAfter(rows, id, b), events)
            <==> RowsLand(rows, RowsFold(rows, events), id, b, events)
  {
    if b.Proposal? {
      LateProposal(rows, id, b, events);
    } else {
      LateUpdate(rows, id, b, events);
    }
  }

  // ----- A record that comes late to the other tables -----

  /** An insertion is ignored after the events exactly if it would have been ignored before. */
  predicate InsertionLands(k: Kind, m: map<nat, Body>, late: map<nat, Body>, id: nat, b: Body) {
    TableOf(b) == Some(k) ==> Taken(m, id, b) || !Taken(late, id, b)
  }

  lemma {:induction false} TableGrows(k: Kind, m: map<nat, Body>, events: seq<Record>)
    ensures var late := TableFold(k, m, events);
            && (forall r | r in m :: r in late && late[r] == m[r])
            && (forall r | r in late :: r in m || r in Ids(events))
  {
    if events != [] {
      TableGrows(k, m, events[..|events| - 1]);
      FrontIds(events);
    }
  }

  lemma StillTaken(k: Kind, m: map<nat, Body>, events: seq<Record>, id: nat, b: Body)
    requires Taken(m, id, b)
    ensures Taken(TableFold(k, m, events), id, b)
  {
    TableGrows(k, m, events);
    if id !in m {
      var r :| r in m && Clash(m[r], b);
      assert r in TableFold(k, m, events) && Clash(TableFold(k, m, events)[r], b);
    }
  }

  lemma TakenWith(m: map<nat, Body>, id: nat, b: Body, i: nat, a: Body)
    requires id !in m && i != id
    ensures Taken(m[id := b], i, a) <==> Taken(m, i, a) || Clash(b, a)
  {
    var so := m[id := b];
    if Clash(b, a) {
      assert id in so && Clash(so[id], a);
    } else if r :| r in m && Clash(m[r], a) {
      assert r in so && Clash(so[r], a);
    }
  }

  lemma StepFree(k: Kind, m: map<nat, Body>, i: nat, a: Body, id: nat, b: Body)
    requires !Taken(Inserted(k, m, i, a), id, b)
    ensures !Taken(m, id, b) && (Inserted(k, m, i, a) != m ==> !Clash(a, b))
  {
    var so := Inserted(k, m, i, a);
    assert forall r | r in m :: r in so && so[r] == m[r];
    if so != m {
      assert so[i] == a;
    }
  }

  lemma StepTaken(k: Kind, m: map<nat, Body>, i: nat, a: Body, id: nat, b: Body)
    requires !Taken(Inserted(k, m, i, a), id, b) && i != id
    ensures Inserted(k, m[id := b], i, a) == Inserted(k, m, i, a)[id := b]
  {
    StepFree(k, m, i, a, id, b);
    TakenWith(m, id, b, i, a);
    ClashSymmetric(a, b);
    if TableOf(a) == Some(k) && !Taken(m, i, a) {
      assert Inserted(k, m, i, a)[i] == a;
      assert m[id := b][i := a] == m[i := a][id := b];
    }
  }

  lemma {:induction false} LateInsertion(k: Kind, m: map<nat, Body>, id: nat, b: Body, events: seq<Record>)
    requires id !in Ids(events) && !Taken(TableFold(k, m, events), id, b)
    ensures TableFold(k, m[id := b], events) == TableFold(k, m, events)[id := b]
  {
    if events != [] {
      var n := |events| - 1;
      FrontIds(events);
      StepFree(k, TableFold(k, m, events[..n]), events[n].id, events[n].body, id, b);
      StepTaken(k, TableFold(k, m, events[..n]), events[n].id, events[n].body, id, b);
      LateInsertion(k, m, id, b, events[..n]);
    }
  }

  lemma InsertionExactly(k: Kind, m: map<nat, Body>, id: nat, b: Body, events: seq<Record>)
    requires id !in Ids(events)
    ensures Inserted(k, TableFold(k, m, events), id, b) == TableFold(k, Inserted(k, m, id, b), events)
            <==> InsertionLands(k, m, TableFold(k, m, events), id, b)
  {
    if TableOf(b) == Some(k) {
      if Taken(m, id, b) {
        StillTaken(k, m, events, id, b);
      } else if Taken(TableFold(k, m, events), id, b) {
        TableGrows(k, m, events);
        TableGrows(k, m[id := b], events);
        assert id in m[id := b];
      } else {
        LateInsertion(k, m, id, b, events);
      }
    }
  }

  /** The members a portfolio inserts, by themselves. */
  function OwnMembers(b: Body): map<(nat, nat), Member> {
    MembersAfter(map[], b)
  }

  lemma {:induction false} KeptMembers(m: map<(nat, nat), Member>, run: nat, members: seq<Member>)
    ensures MembersKept(m, run, members) == MembersKept(map[], run, members) + m
  {
    if members != [] {
      KeptMembers(m, run, members[..|members| - 1]);
    }
  }

  lemma AfterMembers(m: map<(nat, nat), Member>, b: Body)
    ensures MembersAfter(m, b) == OwnMembers(b) + m
  {
    if b.Portfolio? {
      KeptMembers(m, b.run, b.members);
    }
  }

  lemma {:induction false} FoldMembers(m: map<(nat, nat), Member>, events: seq<Record>)
    ensures MembersFold(m, events) == MembersFold(map[], events) + m
  {
    if events != [] {
      var n := |events| - 1;
      FoldMembers(m, events[..n]);
      AfterMembers(MembersFold(m, events[..n]), events[n].body);
      AfterMembers(MembersFold(map[], events[..n]), events[n].body);
    }
  }

  /** What a portfolio inserts, the events have not inserted otherwise. */
  predicate MembersLand(m: map<(nat, nat), Member>, late: map<(nat, nat), Member>, b: Body) {
    forall k | k in OwnMembers(b) && k in late && k !in m :: late[k] == OwnMembers(b)[k]
  }

  lemma MembersExactly(m: map<(nat, nat), Member>, b: Body, events: seq<Record>)
    ensures MembersAfter(MembersFold(m, events), b) == MembersFold(MembersAfter(m, b), events)
            <==> MembersLand(m, MembersFold(m, events), b)
  {
    var own, later := OwnMembers(b), MembersFold(map[], events);
    FoldMembers(m, events);
    AfterMembers(m, b);
    AfterMembers(MembersFold(m, events), b);
    FoldMembers(MembersAfter(m, b), events);
    MergedAlike(m, own, later);
  }

  /** Two maps under a third, in either order. */
  lemma MergedAlike<K, V>(m: map<K, V>, a: map<K, V>, b: map<K, V>)
    ensures a + (b + m) == b + (a + m) <==> forall k | k in a && k in b + m && k !in m :: (b + m)[k] == a[k]
  {
    if forall k | k in a && k in b + m && k !in m :: (b + m)[k] == a[k] {
      assert forall k | k in a + (b + m) :: (a + (b + m))[k] == (b + (a + m))[k];
    } else {
      var k :| k in a && k in b + m && k !in m && (b + m)[k] != a[k];
      assert (a + (b + m))[k] == b[k] && (b + (a + m))[k] == a[k];
    }
  }

  lemma {:induction false} UsageCommutes(m: set<nat>, id: nat, b: Body, events: seq<Record>)
    ensures UsageAfter(UsageFold(m, events), id, b) == UsageFold(UsageAfter(m, id, b), events)
  {
    if events != [] {
      UsageCommutes(m, id, b, events[..|events| - 1]);
    }
  }

  lemma {:induction false} FoldEvaluations(m: map<nat, Body>, events: seq<Record>)
    ensures EvaluationsFold(m, events) == m + EvaluationsFold(map[], events)
  {
    if events != [] {
      FoldEvaluations(m, events[..|events| - 1]);
    }
  }

  lemma {:induction false} FoldCache(m: map<nat, Body>, events: seq<Record>)
    ensures CacheFold(m, events) == m + CacheFold(map[], events)
  {
    if events != [] {
      FoldCache(m, events[..|events| - 1]);
    }
  }

  /** The events leave no other value under the key. */
  predicate Unreplaced(later: map<nat, Body>, k: nat, b: Body) {
    k in later ==> later[k] == b
  }

  /** An evaluation may come after the events if none of them replaces what it writes, or the last to do so writes the
      same. */
  predicate EvaluationLands(b: Body, events: seq<Record>) {
    b.Evaluation? ==>
      && Unreplaced(EvaluationsFold(map[], events), b.input, b)
      && (b.cacheKey.Some? ==> Unreplaced(CacheFold(map[], events), b.cacheKey.value, b))
  }

  lemma ReplacedAlike(m: map<nat, Body>, later: map<nat, Body>, k: nat, b: Body)
    ensures (m + later)[k := b] == m[k := b] + later <==> Unreplaced(later, k, b)
  {
    if k in later {
      assert (m[k := b] + later)[k] == later[k] && (m + later)[k := b][k] == b;
    }
  }

  lemma EvaluationExactly(m: map<nat, Body>, c: map<nat, Body>, b: Body, events: seq<Record>)
    ensures EvaluationsAfter(EvaluationsFold(m, events), b) == EvaluationsFold(EvaluationsAfter(m, b), events)
            && CacheAfter(CacheFold(c, events), b) == CacheFold(CacheAfter(c, b), events)
            <==> EvaluationLands(b, events)
  {
    FoldEvaluations(m, events);
    FoldEvaluations(EvaluationsAfter(m, b), events);
    FoldCache(c, events);
    FoldCache(CacheAfter(c, b), events);
    if b.Evaluation? {
      ReplacedAlike(m, EvaluationsFold(map[], events), b.input, b);
      if b.cacheKey.Some? {
        ReplacedAlike(c, CacheFold(map[], events), b.cacheKey.value, b);
      }
    }
  }

  // ----- A record that comes late -----

  /** Applied after the events instead of before them, where the tables were `t`, the record leaves the same. */
  predicate Lands(t: Tables, r: Record, events: seq<Record>) {
    var late := Fold(t, events);
    && RowsLand(t.proposals, late.proposals, r.id, r.body, events)
    && InsertionLands(Dedups, t.dedups, late.dedups, r.id, r.body)
    && InsertionLands(Triages, t.triages, late.triages, r.id, r.body)
    && InsertionLands(Runs, t.runs, late.runs, r.id, r.body)
    && InsertionLands(Promotions, t.promotions, late.promotions, r.id, r.body)
    && InsertionLands(Facts, t.facts, late.facts, r.id, r.body)
    && MembersLand(t.members, late.members, r.body)
    && EvaluationLands(r.body, events)
  }

  lemma LateExactly(t: Tables, r: Record, events: seq<Record>)
    requires r.id !in Ids(events)
    ensures Apply(Fold(t, events), r) == Fold(Apply(t, r), events) <==> Lands(t, r, events)
  {
    FoldParts(t, events);
    FoldParts(Apply(t, r), events);
    RowsExactly(t.proposals, r.id, r.body, events);
    InsertionExactly(Dedups, t.dedups, r.id, r.body, events);
    InsertionExactly(Triages, t.triages, r.id, r.body, events);
    InsertionExactly(Runs, t.runs, r.id, r.body, events);
    InsertionExactly(Promotions, t.promotions, r.id, r.body, events);
    InsertionExactly(Facts, t.facts, r.id, r.body, events);
    MembersExactly(t.members, r.body, events);
    UsageCommutes(t.usage, r.id, r.body, events);
    EvaluationExactly(t.evaluations, t.cache, r.body, events);
  }

  /** Two records leave the same in either order exactly when one may come after the other. */
  lemma LateByOne(t: Tables, r: Record, u: Record)
    requires r.id != u.id
    ensures Apply(Apply(t, u), r) == Apply(Apply(t, r), u) <==> Lands(t, r, [u])
  {
    var one := [u];
    FoldOne(t, u);
    FoldOne(Apply(t, r), u);
    assert r.id !in Ids(one);
    LateExactly(t, r, one);
  }
}
