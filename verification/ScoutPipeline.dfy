/** A budgeted scout run (scout_pipeline.py) with structural deduplication (scout_dedup.py). */
module ScoutPipeline {
  import opened Wrappers
  import opened Collections

  // ----- Proposals and their structure -----

  /** What two proposals must share to be duplicates, each part normalised. */
  datatype Shape = Shape(program: nat, origin: nat, asset: nat, category: nat, scout: nat, identity: nat, endpoint: nat,
                         resource: nat, invariant_: nat)

  /** What a scout puts forward: a structure, and the time it says it was created. */
  datatype Draft = Draft(shape: Shape, at: int)

  datatype Proposal = Proposal(id: nat, shape: Shape, at: int)

  datatype Reason = SameStructure | OtherProgram | StructureDiffers | NoPrior

  datatype Relation = Relation(proposal: nat, duplicateOf: Option<nat>, similarity: real, reason: Reason) {
    predicate Duplicate() { duplicateOf.Some? }
  }

  type Similarity = (Proposal, Proposal) -> real

  /** `compare`. Similarity is only looked at within a program. */
  function Compare(sim: Similarity, p: Proposal, e: Proposal): Relation {
    var same := p.shape.program == e.shape.program;
    var structural := same && p.shape == e.shape;
    Relation(p.id, if structural then Some(e.id) else None, if same then sim(p, e) else 0.0,
             if structural then SameStructure else if !same then OtherProgram else StructureDiffers)
  }

  /** The first of the relations that is a duplicate. */
  function FirstDuplicate(matches: seq<Relation>): (r: Option<Relation>)
    ensures r.Some? ==> r.value in matches && r.value.Duplicate()
    ensures r.None? ==> forall m | m in matches :: !m.Duplicate()
  {
    if matches == [] then None
    else if matches[0].Duplicate() then Some(matches[0])
    else FirstDuplicate(matches[1..])
  }

  /** The first of the most similar. */
  function Best(matches: seq<Relation>): (r: Relation)
    requires matches != []
    ensures r in matches
    ensures forall m | m in matches :: m.similarity <= r.similarity
  {
    if |matches| == 1 then matches[0]
    else
      assert matches == matches[..|matches| - 1] + [matches[|matches| - 1]];
      var front, last := Best(matches[..|matches| - 1]), matches[|matches| - 1];
      if last.similarity > front.similarity then last else front
  }

  function Comparisons(sim: Similarity, p: Proposal, existing: seq<Proposal>): seq<Relation> {
    if existing == [] then []
    else
      var n := |existing| - 1;
      Comparisons(sim, p, existing[..n]) + if existing[n].id != p.id then [Compare(sim, p, existing[n])] else []
  }

  /** `find`. */
  function Find(sim: Similarity, p: Proposal, existing: seq<Proposal>): Relation {
    var matches := Comparisons(sim, p, existing);
    if FirstDuplicate(matches).Some? then FirstDuplicate(matches).value
    else if matches == [] then Relation(p.id, None, 0.0, NoPrior)
    else Best(matches)
  }

  /** The first proposal of a structure. */
  function Earliest(ps: seq<Proposal>, s: Shape): (r: Option<Proposal>)
    ensures r.Some? ==>
              exists j | 0 <= j < |ps| ::
                ps[j] == r.value && ps[j].shape == s && forall k | 0 <= k < j :: ps[k].shape != s
    ensures r.None? ==> forall k | 0 <= k < |ps| :: ps[k].shape != s
  {
    if ps == [] then None
    else
      var n := |ps| - 1;
      var front := Earliest(ps[..n], s);
      if front.Some? then front else if ps[n].shape == s then Some(ps[n]) else None
  }

  lemma {:induction false} FirstDuplicateConcat(a: seq<Relation>, b: seq<Relation>)
    ensures FirstDuplicate(a + b) == if FirstDuplicate(a).Some? then FirstDuplicate(a) else FirstDuplicate(b)
  {
    if a == [] {
      assert a + b == b;
    } else {
      assert (a + b)[1..] == a[1..] + b;
      FirstDuplicateConcat(a[1..], b);
    }
  }

  lemma {:induction false} ComparisonsFirst(sim: Similarity, p: Proposal, existing: seq<Proposal>)
    requires forall e | e in existing :: e.id != p.id
    ensures var first := FirstDuplicate(Comparisons(sim, p, existing));
            var earliest := Earliest(existing, p.shape);
            && |Comparisons(sim, p, existing)| == |existing|
            && (first.Some? <==> earliest.Some?)
            && (first.Some? ==> first.value == Compare(sim, p, earliest.value))
  {
    if existing != [] {
      var n := |existing| - 1;
      assert existing[n] in existing;
      ComparisonsFirst(sim, p, existing[..n]);
      var last := [Compare(sim, p, existing[n])];
      FirstDuplicateConcat(Comparisons(sim, p, existing[..n]), last);
      assert last[1..] == [];
    }
  }

  /** A new proposal is a duplicate exactly when its structure exists, and then of the earliest proposal that has it. */
  lemma FindExactly(sim: Similarity, p: Proposal, existing: seq<Proposal>)
    requires forall e | e in existing :: e.id != p.id
    ensures var r, earliest := Find(sim, p, existing), Earliest(existing, p.shape);
            && r.proposal == p.id
            && r.duplicateOf == (if earliest.Some? then Some(earliest.value.id) else None)
            && (r.reason == SameStructure <==> earliest.Some?)
            && (r.reason == NoPrior <==> existing == [])
  {
    ComparisonsFirst(sim, p, existing);
    var matches := Comparisons(sim, p, existing);
    ComparedWithP(sim, p, existing);
    if FirstDuplicate(matches).None? && matches != [] {
      assert Best(matches) in matches;
    }
  }

  lemma {:induction false} ComparedWithP(sim: Similarity, p: Proposal, existing: seq<Proposal>)
    ensures forall m | m in Comparisons(sim, p, existing) ::
              exists e | e in existing :: e.id != p.id && m == Compare(sim, p, e)
  {
    if existing != [] {
      var n := |existing| - 1;
      ComparedWithP(sim, p, existing[..n]);
      assert existing == existing[..n] + [existing[n]];
    }
  }

  /** A proposal that is no duplicate is reported with the similarity nothing before it in its program exceeds. */
  lemma FindMostSimilar(sim: Similarity, p: Proposal, existing: seq<Proposal>, e: Proposal)
    requires (forall o | o in existing :: o.id != p.id) && e in existing && e.shape.program == p.shape.program
    requires !Find(sim, p, existing).Duplicate()
    ensures sim(p, e) <= Find(sim, p, existing).similarity
  {
    ComparedAll(sim, p, existing, e);
  }

  lemma {:induction false} ComparedAll(sim: Similarity, p: Proposal, existing: seq<Proposal>, e: Proposal)
    requires e in existing && e.id != p.id
    ensures Compare(sim, p, e) in Comparisons(sim, p, existing)
  {
    var n := |existing| - 1;
    if existing[n] != e {
      assert existing == existing[..n] + [existing[n]];
      ComparedAll(sim, p, existing[..n], e);
    }
  }

  // ----- What a proposal is told of those before it -----

  /** How alike two proposals are: not at all across programs. */
  ghost function Likeness(sim: Similarity, p: Proposal, e: Proposal): real {
    if p.shape.program != e.shape.program then 0.0 else sim(p, e)
  }

  /** `j` is the first other proposal of the same structure. */
  ghost predicate FirstAlike(p: Proposal, existing: seq<Proposal>, j: int) {
    && 0 <= j < |existing| && existing[j].id != p.id && existing[j].shape == p.shape
    && forall k | 0 <= k < j :: existing[k].id == p.id || existing[k].shape != p.shape
  }

  /** `j` is the first of the other proposals that are most alike. */
  ghost predicate MostAlike(sim: Similarity, p: Proposal, existing: seq<Proposal>, j: int) {
    && 0 <= j < |existing| && existing[j].id != p.id
    && (forall k | 0 <= k < |existing| && existing[k].id != p.id ::
          Likeness(sim, p, existing[k]) <= Likeness(sim, p, existing[j]))
    && (forall k | 0 <= k < j && existing[k].id != p.id ::
          Likeness(sim, p, existing[k]) < Likeness(sim, p, existing[j]))
  }

  /** The whole relation: of the first proposal with its structure, or of the first most like it, or of none. */
  ghost predicate Relates(sim: Similarity, p: Proposal, existing: seq<Proposal>, r: Relation) {
    && r.proposal == p.id
    && (r.reason == SameStructure ==>
          exists j :: FirstAlike(p, existing, j) && r.duplicateOf == Some(existing[j].id)
                      && r.similarity == sim(p, existing[j]))
    && (r.reason != SameStructure ==>
          && r.duplicateOf == None
          && forall j | 0 <= j < |existing| :: existing[j].id == p.id || existing[j].shape != p.shape)
    && (r.reason == NoPrior ==> r.similarity == 0.0 && forall j | 0 <= j < |existing| :: existing[j].id == p.id)
    && (r.reason == OtherProgram || r.reason == StructureDiffers ==>
          exists j :: MostAlike(sim, p, existing, j) && r.similarity == Likeness(sim, p, existing[j])
                      && (r.reason == OtherProgram <==> existing[j].shape.program != p.shape.program))
  }

  lemma {:induction false} FirstAlikeFound(sim: Similarity, p: Proposal, existing: seq<Proposal>)
    ensures var first := FirstDuplicate(Comparisons(sim, p, existing));
            && (first.Some? ==> exists j :: FirstAlike(p, existing, j) && first.value == Compare(sim, p, existing[j]))
            && (first.None? ==> forall j | 0 <= j < |existing| ::
                  existing[j].id == p.id || existing[j].shape != p.shape)
  {
    if existing != [] {
      var n := |existing| - 1;
      var front := existing[..n];
      FirstAlikeFound(sim, p, front);
      var last := if existing[n].id != p.id then [Compare(sim, p, existing[n])] else [];
      FirstDuplicateConcat(Comparisons(sim, p, front), last);
      assert last != [] ==> last[1..] == [];
      if FirstDuplicate(Comparisons(sim, p, front)).Some? {
        var j :| FirstAlike(p, front, j)
                 && FirstDuplicate(Comparisons(sim, p, front)).value == Compare(sim, p, front[j]);
        assert FirstAlike(p, existing, j);
      } else if existing[n].id != p.id && existing[n].shape == p.shape {
        assert FirstAlike(p, existing, n);
      }
    }
  }

  lemma MostAlikeNext(sim: Similarity, p: Proposal, front: seq<Proposal>, e: Proposal, j: int)
    requires MostAlike(sim, p, front, j)
    ensures if e.id != p.id && Likeness(sim, p, e) > Likeness(sim, p, front[j])
            then MostAlike(sim, p, front + [e], |front|) else MostAlike(sim, p, front + [e], j)
  {
  }

  lemma MostAlikeOnly(sim: Similarity, p: Proposal, front: seq<Proposal>, e: Proposal)
    requires e.id != p.id && forall j | 0 <= j < |front| :: front[j].id == p.id
    ensures MostAlike(sim, p, front + [e], |front|)
  {
  }

  /** The best comparison is with the first of those most alike. */
  ghost predicate BestIs(sim: Similarity, p: Proposal, existing: seq<Proposal>, j: int) {
    && MostAlike(sim, p, existing, j) && Comparisons(sim, p, existing) != []
    && Best(Comparisons(sim, p, existing)) == Compare(sim, p, existing[j])
  }

  lemma BestNext(sim: Similarity, p: Proposal, front: seq<Proposal>, e: Proposal, j: int)
    requires BestIs(sim, p, front, j)
    ensures if e.id != p.id && Likeness(sim, p, e) > Likeness(sim, p, front[j])
            then BestIs(sim, p, front + [e], |front|) else BestIs(sim, p, front + [e], j)
  {
    MostAlikeNext(sim, p, front, e, j);
    assert (front + [e])[..|front|] == front && (front + [e])[j] == front[j];
    if e.id != p.id {
      var matches := Comparisons(sim, p, front);
      assert (matches + [Compare(sim, p, e)])[..|matches|] == matches;
    } else {
      assert Comparisons(sim, p, front + [e]) == Comparisons(sim, p, front);
    }
  }

  lemma {:induction false} MostAlikeFound(sim: Similarity, p: Proposal, existing: seq<Proposal>)
    ensures if Comparisons(sim, p, existing) == [] then forall j | 0 <= j < |existing| :: existing[j].id == p.id
            else exists j :: BestIs(sim, p, existing, j)
  {
    hide MostAlike, Best, Compare;
    if existing != [] {
      var front, e := existing[..|existing| - 1], existing[|existing| - 1];
      assert existing == front + [e];
      MostAlikeFound(sim, p, front);
      if Comparisons(sim, p, front) != [] {
        var j :| BestIs(sim, p, front, j);
        BestNext(sim, p, front, e, j);
      } else if e.id != p.id {
        MostAlikeOnly(sim, p, front, e);
        BestOfOne(sim, p, front, e);
      }
    }
  }

  lemma BestOfOne(sim: Similarity, p: Proposal, front: seq<Proposal>, e: Proposal)
    requires Comparisons(sim, p, front) == [] && e.id != p.id && MostAlike(sim, p, front + [e], |front|)
    ensures BestIs(sim, p, front + [e], |front|)
  {
    assert (front + [e])[..|front|] == front;
  }

  /** Every relation found says so. */
  lemma FindRelates(sim: Similarity, p: Proposal, existing: seq<Proposal>)
    ensures Relates(sim, p, existing, Find(sim, p, existing))
  {
    FirstAlikeFound(sim, p, existing);
    MostAlikeFound(sim, p, existing);
    var matches := Comparisons(sim, p, existing);
    if FirstDuplicate(matches).None? && matches != [] {
      assert Best(matches) in matches && !Best(matches).Duplicate();
    }
  }

  /** The relations of the proposals from position `n` on, each to all before it. */
  function Found(sim: Similarity, ps: seq<Proposal>, n: nat): (r: seq<Relation>)
    requires n <= |ps|
    ensures |r| == |ps| - n && forall k | 0 <= k < |r| :: r[k] == Find(sim, ps[n + k], ps[..n + k])
  {
    seq(|ps| - n, k requires 0 <= k < |ps| - n => Find(sim, ps[n + k], ps[..n + k]))
  }

  lemma FoundMore(sim: Similarity, ps: seq<Proposal>, n: nat, p: Proposal)
    requires n <= |ps|
    ensures Found(sim, ps + [p], n) == Found(sim, ps, n) + [Find(sim, p, ps)]
  {
    var all := ps + [p];
    forall k | 0 <= k < |ps| - n ensures Found(sim, all, n)[k] == Found(sim, ps, n)[k] {
      assert all[..n + k] == ps[..n + k];
    }
    assert all[..|ps|] == ps;
  }

  /** From position `n` on, each proposal has the relation to those before it. */
  ghost predicate AllRelate(sim: Similarity, ps: seq<Proposal>, rs: seq<Relation>, n: nat) {
    |rs| == |ps| && forall k | n <= k < |ps| :: Relates(sim, ps[k], ps[..k], rs[k])
  }

  lemma FoundRelate(sim: Similarity, ps: seq<Proposal>, before: seq<Relation>, rs: seq<Relation>, n: nat)
    requires |before| == n <= |ps| && rs == before + Found(sim, ps, n)
    ensures AllRelate(sim, ps, rs, n)
  {
    forall k | n <= k < |ps| ensures Relates(sim, ps[k], ps[..k], rs[k]) {
      assert rs[k] == Found(sim, ps, n)[k - n];
      FindRelates(sim, ps[k], ps[..k]);
    }
  }

  // ----- Structural classes -----

  ghost predicate DistinctIds(ps: seq<Proposal>) {
    forall i, j | 0 <= i < j < |ps| :: ps[i].id != ps[j].id
  }

  /** Proposal `i` is flagged as a duplicate of the earliest proposal before it with its structure, if there is one. */
  predicate FlaggedRight(ps: seq<Proposal>, rs: seq<Relation>, i: nat)
    requires i < |ps| == |rs|
  {
    var earliest := Earliest(ps[..i], ps[i].shape);
    rs[i].proposal == ps[i].id && rs[i].duplicateOf == if earliest.Some? then Some(earliest.value.id) else None
  }

  /** The proposals from position `n` on are flagged right. */
  ghost predicate FlaggedSince(ps: seq<Proposal>, rs: seq<Relation>, n: nat) {
    |ps| == |rs| && DistinctIds(ps) && forall i | n <= i < |ps| :: FlaggedRight(ps, rs, i)
  }

  ghost predicate Classified(ps: seq<Proposal>, rs: seq<Relation>) {
    FlaggedSince(ps, rs, 0)
  }

  lemma FlaggedGrows(sim: Similarity, ps: seq<Proposal>, rs: seq<Relation>, n: nat, p: Proposal)
    requires FlaggedSince(ps, rs, n) && n <= |ps| && forall e | e in ps :: e.id != p.id
    ensures FlaggedSince(ps + [p], rs + [Find(sim, p, ps)], n)
  {
    var ps1, rs1 := ps + [p], rs + [Find(sim, p, ps)];
    FindExactly(sim, p, ps);
    forall i | n <= i < |ps1| ensures FlaggedRight(ps1, rs1, i) {
      if i < |ps| {
        assert ps1[..i] == ps[..i];
        assert FlaggedRight(ps, rs, i);
      } else {
        assert ps1[..i] == ps;
      }
    }
    forall i, j | 0 <= i < j < |ps1| ensures ps1[i].id != ps1[j].id {
      assert ps[i] in ps;
    }
  }

  /** A classified list that has grown by proposals flagged right is classified. */
  lemma ClassifiedGrows(ps: seq<Proposal>, rs: seq<Relation>, n: nat)
    requires FlaggedSince(ps, rs, n) && n <= |ps| && Classified(ps[..n], rs[..n])
    ensures Classified(ps, rs)
  {
    forall i | 0 <= i < n ensures FlaggedRight(ps, rs, i) {
      assert FlaggedRight(ps[..n], rs[..n], i);
      assert ps[..n][..i] == ps[..i];
    }
  }

  /** In a classified list every structure has exactly one unflagged proposal, its earliest, and every duplicate points
      at the unflagged one of its structure. */
  lemma OneRepresentative(ps: seq<Proposal>, rs: seq<Relation>, i: nat)
    requires Classified(ps, rs) && i < |ps|
    ensures exists j | 0 <= j <= i ::
              && ps[j].shape == ps[i].shape && !rs[j].Duplicate()
                && (forall k | 0 <= k < j :: ps[k].shape != ps[i].shape)
              && (i == j || rs[i].duplicateOf == Some(ps[j].id))
    ensures forall k | 0 <= k < |ps| && ps[k].shape == ps[i].shape && k != i :: rs[k].Duplicate() || rs[i].Duplicate()
  {
    assert FlaggedRight(ps, rs, i);
    var earliest := Earliest(ps[..i], ps[i].shape);
    if earliest.Some? {
      var j :| 0 <= j < i && ps[j] == earliest.value && ps[j].shape == ps[i].shape
        && forall k | 0 <= k < j :: ps[..i][k].shape != ps[i].shape;
      FirstUnflagged(ps, rs, j);
    }
    forall k | 0 <= k < |ps| && ps[k].shape == ps[i].shape && k != i ensures rs[k].Duplicate() || rs[i].Duplicate() {
      LaterFlagged(ps, rs, if i < k then i else k, if i < k then k else i);
    }
  }

  lemma LaterFlagged(ps: seq<Proposal>, rs: seq<Relation>, i: nat, k: nat)
    requires Classified(ps, rs) && i < k < |ps| && ps[i].shape == ps[k].shape
    ensures rs[k].Duplicate()
  {
    assert FlaggedRight(ps, rs, k);
    assert ps[..k][i] == ps[i];
  }

  lemma FirstUnflagged(ps: seq<Proposal>, rs: seq<Relation>, j: nat)
    requires Classified(ps, rs) && j < |ps| && forall k | 0 <= k < j :: ps[k].shape != ps[j].shape
    ensures !rs[j].Duplicate()
  {
    assert FlaggedRight(ps, rs, j);
  }

  // ----- Reading the proposals again -----

  /** The order in which a run reads the proposals of earlier ones: by the time they carry, then by id. */
  function ByTime(): (Proposal, Proposal) -> bool {
    (a: Proposal, b: Proposal) => a.at < b.at || (a.at == b.at && a.id <= b.id)
  }

  function Reread(ps: seq<Proposal>): seq<Proposal> {
    Sort(ByTime(), ps)
  }

  /** The relation a list has for a proposal; one without a relation is no duplicate. */
  function RelationOf(ps: seq<Proposal>, rs: seq<Relation>, p: Proposal): Relation
    requires |ps| == |rs|
  {
    if ps == [] then Relation(p.id, None, 0.0, NoPrior)
    else if ps[|ps| - 1] == p then rs[|ps| - 1]
    else RelationOf(ps[..|ps| - 1], rs[..|ps| - 1], p)
  }

  function RelationsFor(again: seq<Proposal>, ps: seq<Proposal>, rs: seq<Relation>): (r: seq<Relation>)
    requires |ps| == |rs|
    ensures |r| == |again| && forall i :: 0 <= i < |r| ==> r[i] == RelationOf(ps, rs, again[i])
  {
    seq(|again|, i requires 0 <= i < |again| => RelationOf(ps, rs, again[i]))
  }

  lemma RereadMembers(ps: seq<Proposal>)
    ensures forall p :: p in Reread(ps) <==> p in ps
    ensures DistinctIds(ps) ==> DistinctIds(Reread(ps))
    ensures SortedBy(ByTime(), Reread(ps)) && |Reread(ps)| == |ps|
  {
    var again := Reread(ps);
    SameMembers(again, ps);
    SortSorted(ByTime(), ps);
    if DistinctIds(ps) {
      assert Distinct(ps);
      forall i, j | 0 <= i < j < |again| ensures again[i].id != again[j].id {
        assert again[i] != again[j] && again[i] in ps && again[j] in ps;
        DifferentIds(ps, again[i], again[j]);
      }
    }
  }

  lemma DifferentIds(ps: seq<Proposal>, p: Proposal, q: Proposal)
    requires DistinctIds(ps) && p in ps && q in ps && p != q
    ensures p.id != q.id
  {
    var i :| 0 <= i < |ps| && ps[i] == p;
    var j :| 0 <= j < |ps| && ps[j] == q;
    assert i < j || j < i;
  }

  lemma {:induction false} RelationAt(ps: seq<Proposal>, rs: seq<Relation>, i: nat)
    requires |ps| == |rs| && DistinctIds(ps) && i < |ps|
    ensures RelationOf(ps, rs, ps[i]) == rs[i]
  {
    var n := |ps| - 1;
    if i < n {
      assert ps[..n][i] == ps[i];
      RelationAt(ps[..n], rs[..n], i);
    }
  }

  /** Flagged right among the first proposals of each structure: unflagged if it is the first, else a duplicate of
      it. */
  predicate FlaggedAs(r: Relation, p: Proposal, first: Option<Proposal>) {
    r.proposal == p.id && r.duplicateOf == if first == Some(p) || first.None? then None else Some(first.value.id)
  }

  lemma FlaggedByFirst(ps: seq<Proposal>, rs: seq<Relation>, i: nat)
    requires |ps| == |rs| && DistinctIds(ps) && i < |ps|
    ensures FlaggedRight(ps, rs, i) <==> FlaggedAs(rs[i], ps[i], Earliest(ps, ps[i].shape))
  {
    var s := ps[i].shape;
    var first := Earliest(ps, s);
    assert first.Some?;
    var j :| 0 <= j < |ps| && ps[j] == first.value && ps[j].shape == s && forall k | 0 <= k < j :: ps[k].shape != s;
    if j < i {
      EarliestPrefix(ps, i, j, s);
    } else {
      assert j == i;
    }
  }

  lemma EarliestPrefix(ps: seq<Proposal>, i: nat, j: nat, s: Shape)
    requires j < i <= |ps| && ps[j].shape == s && forall k | 0 <= k < j :: ps[k].shape != s
    ensures Earliest(ps[..i], s) == Some(ps[j])
  {
    assert ps[..i][j] == ps[j];
  }

  /** A classified list, without regard to its order but for the first of each structure. */
  lemma ClassifiedExactly(ps: seq<Proposal>, rs: seq<Relation>)
    requires |ps| == |rs| && DistinctIds(ps)
    ensures Classified(ps, rs) <==> forall i | 0 <= i < |ps| :: FlaggedAs(rs[i], ps[i], Earliest(ps, ps[i].shape))
  {
    forall i | 0 <= i < |ps| ensures FlaggedRight(ps, rs, i) <==> FlaggedAs(rs[i], ps[i], Earliest(ps, ps[i].shape)) {
      FlaggedByFirst(ps, rs, i);
    }
  }

  /** No later proposal of a structure carries an earlier time, or the same time and a smaller id, than the first. */
  ghost predicate FirstsFirst(ps: seq<Proposal>) {
    forall p | p in ps :: Earliest(ps, p.shape).Some? && ByTime()(Earliest(ps, p.shape).value, p)
  }

  lemma EarliestIn(ps: seq<Proposal>, p: Proposal)
    requires p in ps
    ensures var first := Earliest(ps, p.shape); first.Some? && first.value in ps && first.value.shape == p.shape
  {
    var k :| 0 <= k < |ps| && ps[k] == p;
    assert Earliest(ps, p.shape).Some?;
    var j :| 0 <= j < |ps| && ps[j] == Earliest(ps, p.shape).value && ps[j].shape == p.shape;
  }

  /** In a list read again the first of a structure is the least. */
  lemma LeastFirst(again: seq<Proposal>, p: Proposal)
    requires SortedBy(ByTime(), again) && p in again
    ensures Earliest(again, p.shape).Some? && ByTime()(Earliest(again, p.shape).value, p)
  {
    var k :| 0 <= k < |again| && again[k] == p;
    var first := Earliest(again, p.shape);
    assert first.Some?;
    var j :| 0 <= j < |again| && again[j] == first.value && again[j].shape == p.shape
      && forall l | 0 <= l < j :: again[l].shape != p.shape;
    assert j == k || (j < k && ByTime()(again[j], again[k]));
  }

  /** The firsts are the same after reading again exactly when they carry the least times and ids. */
  lemma FirstsKept(ps: seq<Proposal>, p: Proposal)
    requires DistinctIds(ps) && p in ps
    ensures Earliest(Reread(ps), p.shape) == Earliest(ps, p.shape)
            <==> forall q | q in ps && q.shape == p.shape :: ByTime()(Earliest(ps, p.shape).value, q)
  {
    var again := Reread(ps);
    RereadMembers(ps);
    EarliestIn(ps, p);
    EarliestIn(again, p);
    var first, least := Earliest(ps, p.shape).value, Earliest(again, p.shape).value;
    forall q | q in ps && q.shape == p.shape ensures ByTime()(least, q) {
      LeastFirst(again, q);
    }
    if first != least {
      DifferentIds(ps, first, least);
    }
  }

  lemma FirstsFirstExactly(ps: seq<Proposal>)
    requires DistinctIds(ps)
    ensures FirstsFirst(ps) <==> forall p | p in ps :: Earliest(Reread(ps), p.shape) == Earliest(ps, p.shape)
  {
    forall p | p in ps ensures Earliest(ps, p.shape).Some? {
      EarliestIn(ps, p);
    }
    forall p | p in ps
      ensures Earliest(Reread(ps), p.shape) == Earliest(ps, p.shape)
              <==> forall q | q in ps && q.shape == p.shape :: ByTime()(Earliest(ps, p.shape).value, q)
    {
      FirstsKept(ps, p);
    }
  }

  /** A classified list is classified when it is read again, exactly when no structure's first proposal is overtaken. */
  lemma RereadExactly(ps: seq<Proposal>, rs: seq<Relation>)
    requires Classified(ps, rs)
    ensures Classified(Reread(ps), RelationsFor(Reread(ps), ps, rs)) <==> FirstsFirst(ps)
  {
    RereadMembers(ps);
    FirstsFirstExactly(ps);
    var again := Reread(ps);
    var rs1 := RelationsFor(again, ps, rs);
    ClassifiedExactly(ps, rs);
    ClassifiedExactly(again, rs1);
    if FirstsFirst(ps) {
      forall i | 0 <= i < |again| ensures FlaggedAs(rs1[i], again[i], Earliest(again, again[i].shape)) {
        RelationKept(ps, rs, again[i]);
      }
    }
    if Classified(again, rs1) {
      forall p | p in ps ensures Earliest(again, p.shape) == Earliest(ps, p.shape) {
        FirstStays(ps, rs, again, rs1, p);
      }
    }
  }

  lemma RelationKept(ps: seq<Proposal>, rs: seq<Relation>, p: Proposal)
    requires |ps| == |rs| && DistinctIds(ps) && p in ps
    requires forall i | 0 <= i < |ps| :: FlaggedAs(rs[i], ps[i], Earliest(ps, ps[i].shape))
    ensures FlaggedAs(RelationOf(ps, rs, p), p, Earliest(ps, p.shape))
  {
    var i :| 0 <= i < |ps| && ps[i] == p;
    RelationAt(ps, rs, i);
  }

  /** The unflagged proposal of a structure is its first in either list. */
  lemma FirstStays(ps: seq<Proposal>, rs: seq<Relation>, again: seq<Proposal>, rs1: seq<Relation>, p: Proposal)
    requires |ps| == |rs| && |again| == |rs1| && DistinctIds(ps) && p in ps && forall q :: q in again <==> q in ps
    requires forall i | 0 <= i < |ps| :: FlaggedAs(rs[i], ps[i], Earliest(ps, ps[i].shape))
    requires forall i | 0 <= i < |again| :: FlaggedAs(rs1[i], again[i], Earliest(again, again[i].shape))
    requires forall i | 0 <= i < |again| :: rs1[i] == RelationOf(ps, rs, again[i])
    ensures Earliest(again, p.shape) == Earliest(ps, p.shape)
  {
    EarliestIn(ps, p);
    var first := Earliest(ps, p.shape).value;
    RelationKept(ps, rs, first);
    EarliestIn(again, first);
    var i :| 0 <= i < |again| && again[i] == first;
    assert FlaggedAs(rs1[i], again[i], Earliest(again, again[i].shape));
  }

  lemma PairClassified(sim: Similarity, a: Proposal, b: Proposal)
    requires a.id != b.id
    ensures Classified([a] + [b], [Find(sim, a, [])] + [Find(sim, b, [a])])
  {
    var none: seq<Proposal> := [];
    var one, r := [a], [Find(sim, a, none)];
    assert none + one == one && [] + r == r;
    FlaggedGrows(sim, none, [], 0, a);
    FlaggedGrows(sim, one, r, 0, b);
  }

  lemma PairOvertaken(ps: seq<Proposal>)
    requires |ps| == 2 && ps[0].shape == ps[1].shape && ps[1].at < ps[0].at
    ensures !FirstsFirst(ps)
  {
    EarliestPrefix(ps, 2, 0, ps[0].shape);
    assert ps[..2] == ps && ps[1] in ps;
    assert !ByTime()(Earliest(ps, ps[1].shape).value, ps[1]);
  }

  /** Two proposals of one structure, the second with the earlier time: each is flagged right as it is added, and the
      list is not classified when it is read again, because the flagged one then comes first. */
  lemma OutOfOrder(sim: Similarity, a: Proposal, b: Proposal)
    requires a.shape == b.shape && a.id != b.id && b.at < a.at
    ensures var ps, rs := [a] + [b], [Find(sim, a, [])] + [Find(sim, b, [a])];
            Classified(ps, rs) && !Classified(Reread(ps), RelationsFor(Reread(ps), ps, rs))
  {
    PairClassified(sim, a, b);
    PairOvertaken([a] + [b]);
    RereadExactly([a] + [b], [Find(sim, a, [])] + [Find(sim, b, [a])]);
  }

  lemma Appended(ps: seq<Proposal>, rs: seq<Relation>, ps1: seq<Proposal>, rs1: seq<Relation>)
    requires ps <= ps1 && rs <= rs1 && |ps| == |rs| && FlaggedSince(ps1, rs1, |ps|)
    ensures Classified(ps1, rs1) <==> Classified(ps, rs)
  {
    assert ps == ps1[..|ps|] && rs == rs1[..|ps|];
    if Classified(ps, rs) {
      ClassifiedGrows(ps1, rs1, |ps|);
    }
    if Classified(ps1, rs1) {
      forall i | 0 <= i < |ps| ensures FlaggedRight(ps, rs, i) {
        assert FlaggedRight(ps1, rs1, i);
        assert ps1[..i] == ps[..i];
      }
    }
  }

  // ----- Counting -----

  function Count(creators: seq<nat>, t: nat): nat {
    if creators == [] then 0 else Count(creators[..|creators| - 1], t) + if creators[|creators| - 1] == t then 1 else 0
  }

  lemma CountGrows(creators: seq<nat>, c: nat)
    ensures forall t :: Count(creators + [c], t) == Count(creators, t) + if t == c then 1 else 0
  {
    assert (creators + [c])[..|creators|] == creators;
  }

  function Sum(types: seq<nat>, creators: seq<nat>): nat {
    if types == [] then 0 else Count(creators, types[0]) + Sum(types[1..], creators)
  }

  lemma {:induction false} SumOfNone(types: seq<nat>)
    ensures Sum(types, []) == 0
  {
    if types != [] {
      SumOfNone(types[1..]);
    }
  }

  lemma {:induction false} SumGrows(types: seq<nat>, creators: seq<nat>, c: nat)
    requires Distinct(types)
    ensures Sum(types, creators + [c]) == Sum(types, creators) + if c in types then 1 else 0
  {
    if types != [] {
      assert (creators + [c])[..|creators|] == creators;
      SumGrows(types[1..], creators, c);
      assert c in types[1..] ==> types[0] != c;
      assert c in types <==> c == types[0] || c in types[1..];
    }
  }

  /** The counts per scout type sum to the number created. */
  lemma {:induction false} CountsSum(types: seq<nat>, creators: seq<nat>)
    requires Distinct(types) && forall c | c in creators :: c in types
    ensures Sum(types, creators) == |creators|
  {
    if creators == [] {
      SumOfNone(types);
    } else {
      var n := |creators| - 1;
      assert creators == creators[..n] + [creators[n]];
      CountsSum(types, creators[..n]);
      SumGrows(types, creators[..n], creators[n]);
    }
  }

  // ----- Inputs -----

  /** An input record; `key` is its kind and analyzer, `program` the reference it is bound to. */
  datatype Record = Record(id: nat, at: int, key: nat, program: Option<nat>, digest: nat)

  datatype Scout = Scout(kind: nat, version: nat)

  datatype Key = Key(digest: nat, kind: nat, version: nat, policy: nat, config: nat)

  predicate Before(a: Record, b: Record) {
    a.at < b.at || (a.at == b.at && a.id < b.id)
  }

  predicate Precedes(a: Record, r: Record) {
    Before(a, r) && a.key == r.key && a.program == r.program
  }

  /** `_previous_for`: the last compatible record of the history. */
  function Previous(r: Record, history: seq<Record>): Option<Record> {
    if history == [] then None
    else if Precedes(history[|history| - 1], r) then Some(history[|history| - 1])
    else Previous(r, history[..|history| - 1])
  }

  /** In a history in order, the previous record is the latest of the compatible earlier ones. */
  lemma {:induction false} PreviousIsLatest(r: Record, history: seq<Record>)
    requires forall i, j | 0 <= i < j < |history| :: Before(history[i], history[j])
    ensures Previous(r, history).None? <==> forall h | h in history :: !Precedes(h, r)
    ensures Previous(r, history).Some? ==>
              && Previous(r, history).value in history && Precedes(Previous(r, history).value, r)
              && forall h | h in history && Precedes(h, r) ::
                   h == Previous(r, history).value || Before(h, Previous(r, history).value)
  {
    if history != [] {
      var n := |history| - 1;
      assert history == history[..n] + [history[n]];
      PreviousIsLatest(r, history[..n]);
      forall h | h in history[..n] ensures Before(h, history[n]) {
        var i :| 0 <= i < n && history[..n][i] == h;
      }
    }
  }

  /** What a run is given. A scout's output for an input and an allowance is arbitrary: None when it raises or is
      malformed, and a list that may be longer than it was allowed. The clock may cut a run short before any record or
      scout. `ids` are the proposal ids issued, by position. */
  datatype Inputs = Inputs(
    records: seq<Record>, history: seq<Record>, single: bool, reference: nat, policy: nat, config: nat, force: bool,
    perScout: nat, perRun: nat, scouts: seq<Scout>,
    affected: (Record, Option<Record>) -> set<nat>,
    analyze: (nat, nat, nat) -> Option<seq<Draft>>,
    lateRecord: nat -> bool, lateScout: (nat, nat) -> bool,
    ids: nat -> nat)

  /** The ids from position `n` on are new to `ps` and differ. */
  ghost predicate FreshIds(ids: nat -> nat, ps: seq<Proposal>) {
    && (forall m: nat, n: nat | m < n :: Differ(ids, m, n))
    && (forall n: nat, e | n >= |ps| && e in ps :: Unlike(ids, n, e))
  }

  ghost predicate Differ(ids: nat -> nat, m: nat, n: nat) {
    ids(m) != ids(n)
  }

  ghost predicate Unlike(ids: nat -> nat, n: nat, e: Proposal) {
    ids(n) != e.id
  }

  lemma FreshGrows(ids: nat -> nat, ps: seq<Proposal>, p: Proposal)
    requires FreshIds(ids, ps) && p.id == ids(|ps|)
    ensures FreshIds(ids, ps + [p]) && forall e | e in ps :: e.id != p.id
  {
    forall e | e in ps ensures e.id != p.id {
      assert Unlike(ids, |ps|, e);
    }
    forall n: nat, e | n >= |ps + [p]| && e in ps + [p] ensures Unlike(ids, n, e) {
      assert Differ(ids, |ps|, n);
    }
  }

  lemma FreshAgain(ids: nat -> nat, ps: seq<Proposal>)
    requires FreshIds(ids, ps)
    ensures FreshIds(ids, Reread(ps))
  {
    RereadMembers(ps);
  }

  function Kinds(scouts: seq<Scout>): set<nat> {
    set s | s in scouts :: s.kind
  }

  // ----- What a run evaluates -----

  /** Scout `k` was asked about record `n`, allowed so many proposals, and these drafts of its were accepted. */
  datatype Visit = Visit(n: nat, k: nat, available: nat, drafts: seq<Draft>)

  /** The drafts accepted, in order. */
  function Drafts(visits: seq<Visit>): seq<Draft> {
    if visits == [] then [] else Drafts(visits[..|visits| - 1]) + visits[|visits| - 1].drafts
  }

  function Repeated(kind: nat, n: nat): (r: seq<nat>)
    ensures |r| == n && forall j | 0 <= j < n :: r[j] == kind
  {
    seq(n, _ => kind)
  }

  predicate InRange(i: Inputs, visits: seq<Visit>) {
    forall a | 0 <= a < |visits| :: visits[a].n < |i.records| && visits[a].k < |i.scouts|
  }

  /** The kind of scout behind each of the drafts. */
  function Makers(i: Inputs, visits: seq<Visit>): (r: seq<nat>)
    requires InRange(i, visits)
    ensures |r| == |Drafts(visits)|
  {
    if visits == [] then []
    else
      var last := visits[|visits| - 1];
      Makers(i, visits[..|visits| - 1]) + Repeated(i.scouts[last.k].kind, |last.drafts|)
  }

  /** The record is of no program, or of the run's. */
  predicate OwnRecord(i: Inputs, n: nat)
    requires n < |i.records|
  {
    i.records[n].program == None || i.records[n].program == Some(i.reference)
  }

  /** The run gets to record `n`: the clock leaves it the time, and no foreign record has ended a run over one. */
  predicate Reached(i: Inputs, n: nat)
    requires n < |i.records|
  {
    && OwnRecord(i, n) && (forall m | 0 <= m <= n :: !i.lateRecord(m))
    && (i.single ==> forall m | 0 <= m < n :: OwnRecord(i, m))
  }

  /** `a` comes before record `r`, with the same kind and analyzer, and the same program. */
  predicate Compatible(a: Record, r: Record) {
    (a.at < r.at || (a.at == r.at && a.id < r.id)) && a.key == r.key && a.program == r.program
  }

  /** What a scout of record `n` is told came before: the last compatible record of the history, or, in a run over all
      records, of the run's own earlier records of the program. */
  ghost predicate IsPrevious(i: Inputs, n: nat, previous: Option<Record>)
    requires n < |i.records|
  {
    var r := i.records[n];
    if i.single then
      match previous
      case None => forall m | 0 <= m < |i.history| :: !Compatible(i.history[m], r)
      case Some(h) => exists m | 0 <= m < |i.history| :: h == i.history[m] && Compatible(h, r)
                        && forall l | m < l < |i.history| :: !Compatible(i.history[l], r)
    else
      match previous
      case None => forall m | 0 <= m < n && OwnRecord(i, m) :: !Compatible(i.records[m], r)
      case Some(h) => exists m | 0 <= m < n :: OwnRecord(i, m) && h == i.records[m] && Compatible(h, r)
                        && forall l | m < l < n && OwnRecord(i, l) :: !Compatible(i.records[l], r)
  }

  function KeyOf(i: Inputs, n: nat, k: nat): Key
    requires n < |i.records| && k < |i.scouts|
  {
    Key(i.records[n].digest, i.scouts[k].kind, i.scouts[k].version, i.policy, i.config)
  }

  /** Scout `k` is due on record `n`: the record is reached, the clock leaves the scout the time, both budgets have room
      after what was accepted before, the scout is affected by the record, and its evaluation is forced or not
      cached. */
  ghost predicate Due(i: Inputs, cache: set<Key>, before: seq<Visit>, n: nat, k: nat)
    requires n < |i.records| && k < |i.scouts| && InRange(i, before)
  {
    && Reached(i, n) && (forall j | 0 <= j <= k :: !i.lateScout(n, j))
    && |Drafts(before)| < i.perRun && Count(Makers(i, before), i.scouts[k].kind) < i.perScout
    && (exists previous :: IsPrevious(i, n, previous) && i.scouts[k].kind in i.affected(i.records[n], previous))
    && (i.force || KeyOf(i, n, k) !in cache)
  }

  /** A due scout is allowed what both budgets leave; a longer answer, or none, counts for nothing. */
  ghost predicate Allowed(i: Inputs, before: seq<Visit>, v: Visit)
    requires v.n < |i.records| && v.k < |i.scouts| && InRange(i, before)
  {
    var output := i.analyze(v.n, v.k, v.available);
    && v.available <= i.perRun - |Drafts(before)|
    && v.available <= i.perScout - Count(Makers(i, before), i.scouts[v.k].kind)
    && (v.available == i.perRun - |Drafts(before)|
        || v.available == i.perScout - Count(Makers(i, before), i.scouts[v.k].kind))
    && v.drafts == if output.Some? && |output.value| <= v.available then output.value else []
  }

  predicate Ahead(v: Visit, n: nat, k: nat) {
    v.n < n || (v.n == n && v.k < k)
  }

  /** The first `a` of the visits are those ahead of scout `k` on record `n`. */
  ghost predicate SplitAt(visits: seq<Visit>, a: nat, n: nat, k: nat) {
    && a <= |visits| && (forall b | 0 <= b < a :: Ahead(visits[b], n, k))
    && forall b | a <= b < |visits| :: !Ahead(visits[b], n, k)
  }

  /** Ahead of scout `k` on record `n`, the visits are those that are due, record by record and scout by scout. */
  ghost predicate VisitedTo(i: Inputs, cache: set<Key>, visits: seq<Visit>, n: nat, k: nat) {
    && InRange(i, visits) && (forall a | 0 <= a < |visits| :: Ahead(visits[a], n, k))
    && (forall a, b | 0 <= a < b < |visits| :: Ahead(visits[a], visits[b].n, visits[b].k))
    && (forall a | 0 <= a < |visits| :: DueVisit(i, cache, visits, a))
    && forall a: nat, m: nat, j: nat | SplitAt(visits, a, m, j) && m < |i.records| && j < |i.scouts|
                                       && (m < n || (m == n && j < k)) ::
         DueIn(i, cache, visits, a, m, j) ==> a < |visits| && visits[a].n == m && visits[a].k == j
  }

  ghost predicate DueVisit(i: Inputs, cache: set<Key>, visits: seq<Visit>, a: nat)
    requires a < |visits| && InRange(i, visits)
  {
    Due(i, cache, visits[..a], visits[a].n, visits[a].k) && Allowed(i, visits[..a], visits[a])
  }

  ghost predicate DueIn(i: Inputs, cache: set<Key>, visits: seq<Visit>, a: nat, m: nat, j: nat)
    requires a <= |visits| && InRange(i, visits) && m < |i.records| && j < |i.scouts|
  {
    Due(i, cache, visits[..a], m, j)
  }

  /** All that was due was visited, and nothing else, in order. */
  ghost predicate Visited(i: Inputs, cache: set<Key>, visits: seq<Visit>) {
    VisitedTo(i, cache, visits, |i.records|, 0)
  }

  /** The proposals made of drafts, numbered from position `n` on. */
  function Named(ids: nat -> nat, n: nat, drafts: seq<Draft>): (r: seq<Proposal>)
    ensures |r| == |drafts|
    ensures forall j | 0 <= j < |r| :: r[j] == Proposal(ids(n + j), drafts[j].shape, drafts[j].at)
  {
    seq(|drafts|, j requires 0 <= j < |drafts| => Proposal(ids(n + j), drafts[j].shape, drafts[j].at))
  }

  lemma NothingVisited(i: Inputs, cache: set<Key>)
    ensures VisitedTo(i, cache, [], 0, 0)
  {
  }

  lemma SplitWhole(visits: seq<Visit>, a: nat, n: nat, k: nat, m: nat, j: nat)
    requires SplitAt(visits, a, m, j) && (n < m || (n == m && k <= j))
    requires forall b | 0 <= b < |visits| :: Ahead(visits[b], n, k)
    ensures a == |visits| && visits[..a] == visits
  {
    assert a < |visits| ==> !Ahead(visits[a], m, j);
    assert forall b | 0 <= b < |visits| :: Ahead(visits[b], m, j);
    assert visits[..|visits|] == visits;
  }

  lemma PassedOver(i: Inputs, cache: set<Key>, visits: seq<Visit>, n: nat, k: nat)
    requires VisitedTo(i, cache, visits, n, k) && n < |i.records| && k < |i.scouts|
    requires !Due(i, cache, visits, n, k)
    ensures VisitedTo(i, cache, visits, n, k + 1)
  {
    forall a: nat, m: nat, j: nat | SplitAt(visits, a, m, j) && m < |i.records| && j < |i.scouts|
                                    && (m < n || (m == n && j < k + 1)) && DueIn(i, cache, visits, a, m, j)
      ensures a < |visits| && visits[a].n == m && visits[a].k == j
    {
      if m == n && j == k {
        SplitWhole(visits, a, n, k, m, j);
      }
    }
  }

  lemma VisitMade(i: Inputs, cache: set<Key>, visits: seq<Visit>, v: Visit)
    requires VisitedTo(i, cache, visits, v.n, v.k) && v.n < |i.records| && v.k < |i.scouts|
    requires Due(i, cache, visits, v.n, v.k) && Allowed(i, visits, v)
    ensures VisitedTo(i, cache, visits + [v], v.n, v.k + 1)
  {
    var all := visits + [v];
    forall a | 0 <= a < |all| ensures DueVisit(i, cache, all, a) {
      if a < |visits| {
        assert all[..a] == visits[..a] && all[a] == visits[a];
        assert DueVisit(i, cache, visits, a);
      } else {
        assert all[..a] == visits;
      }
    }
    forall a, b | 0 <= a < b < |all| ensures Ahead(all[a], all[b].n, all[b].k) {
      assert all[a] == visits[a];
    }
    forall a: nat, m: nat, j: nat | SplitAt(all, a, m, j) && m < |i.records| && j < |i.scouts|
                                    && (m < v.n || (m == v.n && j < v.k + 1)) && DueIn(i, cache, all, a, m, j)
      ensures a < |all| && all[a].n == m && all[a].k == j
    {
      SplitKept(visits, v, a, m, j);
      assert all[..a] == visits[..a];
      if m < v.n || j < v.k {
        assert DueIn(i, cache, visits, a, m, j);
      } else {
        SplitWhole(visits, a, v.n, v.k, m, j);
      }
    }
  }

  lemma SplitKept(visits: seq<Visit>, v: Visit, a: nat, m: nat, j: nat)
    requires SplitAt(visits + [v], a, m, j) && (m < v.n || (m == v.n && j <= v.k))
    ensures a <= |visits| && SplitAt(visits, a, m, j)
  {
    assert (visits + [v])[|visits|] == v;
    assert forall b | 0 <= b < |visits| :: (visits + [v])[b] == visits[b];
  }

  /** Nothing more is due on record `n`, or, with `all`, on any later one. */
  lemma NoMore(i: Inputs, cache: set<Key>, visits: seq<Visit>, n: nat, k: nat, m: nat)
    requires VisitedTo(i, cache, visits, n, k) && n <= m <= |i.records|
    requires forall l, j | n <= l < m && 0 <= j < |i.scouts| && (l > n || j >= k) :: !Due(i, cache, visits, l, j)
    ensures VisitedTo(i, cache, visits, m, 0) || (m == n && k > 0)
  {
    if m > n || k == 0 {
      forall a: nat, l: nat, j: nat | SplitAt(visits, a, l, j) && l < |i.records| && j < |i.scouts|
                                      && l < m && DueIn(i, cache, visits, a, l, j)
        ensures a < |visits| && visits[a].n == l && visits[a].k == j
      {
        if !(l < n || (l == n && j < k)) {
          SplitWhole(visits, a, n, k, l, j);
        }
      }
    }
  }

  /** The key of each visit. */
  function KeysOf(i: Inputs, visits: seq<Visit>): (r: seq<Key>)
    requires InRange(i, visits)
    ensures |r| == |visits| && forall a | 0 <= a < |r| :: r[a] == KeyOf(i, visits[a].n, visits[a].k)
  {
    seq(|visits|, a requires 0 <= a < |visits| => KeyOf(i, visits[a].n, visits[a].k))
  }

  /** What a run's lists say of its visits: a key each, a proposal for each draft, and who made it. */
  ghost predicate Recorded(i: Inputs, visits: seq<Visit>, keys: seq<Key>, added: seq<Proposal>, since: nat,
                           creators: seq<nat>)
  {
    && InRange(i, visits) && creators == Makers(i, visits) && added == Named(i.ids, since, Drafts(visits))
    && keys == KeysOf(i, visits)
  }

  lemma RecordedMore(i: Inputs, visits: seq<Visit>, keys: seq<Key>, added: seq<Proposal>, since: nat,
                     creators: seq<nat>, v: Visit)
    requires Recorded(i, visits, keys, added, since, creators) && v.n < |i.records| && v.k < |i.scouts|
    ensures Recorded(i, visits + [v], keys + [KeyOf(i, v.n, v.k)],
                     added + Named(i.ids, since + |added|, v.drafts), since,
                     creators + Repeated(i.scouts[v.k].kind, |v.drafts|))
  {
    var all := visits + [v];
    assert all[..|visits|] == visits && all[|visits|] == v;
    assert Drafts(all) == Drafts(visits) + v.drafts;
    assert added + Named(i.ids, since + |added|, v.drafts) == Named(i.ids, since, Drafts(all));
  }

  /** Answers that count for nothing: none, or more than was allowed. */
  function Malformed(i: Inputs, visits: seq<Visit>): nat {
    if visits == [] then 0
    else
      var v := visits[|visits| - 1];
      var output := i.analyze(v.n, v.k, v.available);
      Malformed(i, visits[..|visits| - 1]) + if output.Some? && |output.value| <= v.available then 0 else 1
  }

  /** The first `n` records that are the run's own. */
  function OwnBefore(i: Inputs, n: nat): seq<Record>
    requires n <= |i.records|
  {
    if n == 0 then [] else OwnBefore(i, n - 1) + if OwnRecord(i, n - 1) then [i.records[n - 1]] else []
  }

  lemma CompatibleIs(a: Record, r: Record)
    ensures Compatible(a, r) <==> Precedes(a, r)
  {
  }

  lemma {:induction false} LastCompatible(r: Record, history: seq<Record>)
    ensures match Previous(r, history)
            case None => forall m | 0 <= m < |history| :: !Compatible(history[m], r)
            case Some(h) => exists m | 0 <= m < |history| :: h == history[m] && Compatible(h, r)
                              && forall l | m < l < |history| :: !Compatible(history[l], r)
  {
    if history != [] {
      var n := |history| - 1;
      CompatibleIs(history[n], r);
      if !Precedes(history[n], r) {
        LastCompatible(r, history[..n]);
        if Previous(r, history).Some? {
          var h := Previous(r, history).value;
          var m :| 0 <= m < n && h == history[..n][m] && Compatible(h, r)
                   && forall l | m < l < n :: !Compatible(history[..n][l], r);
          assert history[m] == h;
          assert forall l | m < l < n :: history[..n][l] == history[l];
        }
      }
    }
  }

  lemma {:induction false} LastOwn(i: Inputs, r: Record, n: nat)
    requires n <= |i.records|
    ensures match Previous(r, OwnBefore(i, n))
            case None => forall m | 0 <= m < n && OwnRecord(i, m) :: !Compatible(i.records[m], r)
            case Some(h) => exists m | 0 <= m < n :: OwnRecord(i, m) && h == i.records[m] && Compatible(h, r)
                              && forall l | m < l < n && OwnRecord(i, l) :: !Compatible(i.records[l], r)
  {
    if n > 0 {
      LastOwn(i, r, n - 1);
      CompatibleIs(i.records[n - 1], r);
      var front := OwnBefore(i, n - 1);
      if OwnRecord(i, n - 1) {
        assert OwnBefore(i, n)[..|front|] == front;
      } else {
        assert OwnBefore(i, n) == front;
      }
    }
  }

  lemma PreviousFound(i: Inputs, n: nat)
    requires n < |i.records|
    ensures IsPrevious(i, n, Previous(i.records[n], if i.single then i.history else OwnBefore(i, n)))
  {
    if i.single {
      LastCompatible(i.records[n], i.history);
    } else {
      LastOwn(i, i.records[n], n);
    }
  }

  lemma PreviousOne(i: Inputs, n: nat, a: Option<Record>, b: Option<Record>)
    requires n < |i.records| && IsPrevious(i, n, a) && IsPrevious(i, n, b)
    ensures a == b
  {
    if a.Some? && b.Some? {
      if i.single {
        var m :| 0 <= m < |i.history| && a.value == i.history[m] && Compatible(a.value, i.records[n])
                 && forall l | m < l < |i.history| :: !Compatible(i.history[l], i.records[n]);
        var k :| 0 <= k < |i.history| && b.value == i.history[k] && Compatible(b.value, i.records[n])
                 && forall l | k < l < |i.history| :: !Compatible(i.history[l], i.records[n]);
        assert !(m < k) && !(k < m);
      } else {
        var m :| 0 <= m < n && OwnRecord(i, m) && a.value == i.records[m] && Compatible(a.value, i.records[n])
                 && forall l | m < l < n && OwnRecord(i, l) :: !Compatible(i.records[l], i.records[n]);
        var k :| 0 <= k < n && OwnRecord(i, k) && b.value == i.records[k] && Compatible(b.value, i.records[n])
                 && forall l | k < l < n && OwnRecord(i, l) :: !Compatible(i.records[l], i.records[n]);
        assert !(m < k) && !(k < m);
      }
    }
  }

  /** A run over a named record that is another program's. */
  ghost predicate Refused(i: Inputs) {
    i.single && exists n | 0 <= n < |i.records| :: !OwnRecord(i, n) && forall m | 0 <= m <= n :: !i.lateRecord(m)
  }

  /** The records of other programs among the first `n`, up to where the clock stops the run. */
  function ForeignTo(i: Inputs, n: nat): set<nat>
    requires n <= |i.records|
  {
    set m: nat | m < n && !OwnRecord(i, m) && forall l | 0 <= l <= m :: !i.lateRecord(l)
  }

  /** How many of the first `n` records a run over all of them passes over as another program's. */
  function Skipped(i: Inputs, n: nat): nat
    requires n <= |i.records|
  {
    if i.single then 0 else |ForeignTo(i, n)|
  }

  datatype Next = Further | Stop | Refuse

  lemma ForeignNext(i: Inputs, n: nat)
    requires n < |i.records| && forall l | 0 <= l <= n :: !i.lateRecord(l)
    ensures ForeignTo(i, n + 1) == if OwnRecord(i, n) then ForeignTo(i, n) else ForeignTo(i, n) + {n}
  {
  }

  lemma ForeignStops(i: Inputs, n: nat)
    requires n < |i.records| && i.lateRecord(n)
    ensures ForeignTo(i, |i.records|) == ForeignTo(i, n)
  {
  }

  /** The run has come as far as record `n`. */
  ghost predicate OnTime(i: Inputs, n: nat)
    requires n <= |i.records|
  {
    (forall m | 0 <= m < n :: !i.lateRecord(m)) && (i.single ==> forall m | 0 <= m < n :: OwnRecord(i, m))
  }

  /** What record `n` does to a run that has come as far: it ends it, or is passed over, or is reached. */
  lemma RecordEnds(i: Inputs, cache: set<Key>, n: nat)
    requires n < |i.records| && OnTime(i, n)
    ensures i.lateRecord(n) ==> Walk(i, cache, |i.records|, 0) == Walk(i, cache, n, 0)
    ensures i.lateRecord(n) ==> !Refused(i) && ForeignTo(i, |i.records|) == ForeignTo(i, n)
    ensures !i.lateRecord(n) && !OwnRecord(i, n) && i.single ==> Walk(i, cache, |i.records|, 0) == Walk(i, cache, n, 0)
    ensures !i.lateRecord(n) && !OwnRecord(i, n) && i.single ==> Refused(i)
    ensures !i.lateRecord(n) && !OwnRecord(i, n) && !i.single ==> Walk(i, cache, n + 1, 0) == Walk(i, cache, n, 0)
    ensures !i.lateRecord(n) && !OwnRecord(i, n) && !i.single ==> |ForeignTo(i, n + 1)| == |ForeignTo(i, n)| + 1
    ensures !i.lateRecord(n) && OwnRecord(i, n) ==> Reached(i, n) && ForeignTo(i, n + 1) == ForeignTo(i, n)
    ensures !i.lateRecord(n) && (OwnRecord(i, n) || !i.single) ==> OnTime(i, n + 1)
  {
    if i.lateRecord(n) {
      StandsStill(i, cache, n, 0, |i.records|, 0);
      ForeignStops(i, n);
    } else {
      ForeignNext(i, n);
      if !OwnRecord(i, n) {
        StandsStill(i, cache, n, 0, if i.single then |i.records| else n + 1, 0);
      }
    }
  }

  lemma NoneForeign(i: Inputs)
    requires OnTime(i, |i.records|)
    ensures !Refused(i)
  {
  }

  /** What is evaluated without being forced was not cached. */
  lemma EvaluatedUncached(i: Inputs, cache: set<Key>, visits: seq<Visit>, keys: seq<Key>, added: seq<Proposal>,
                          since: nat, creators: seq<nat>)
    requires Visited(i, cache, visits) && Recorded(i, visits, keys, added, since, creators) && !i.force
    ensures Elements(keys) !! cache
  {
    forall key | key in keys ensures key !in cache {
      var a :| 0 <= a < |keys| && keys[a] == key;
      assert DueVisit(i, cache, visits, a);
    }
  }

  // ----- The walk of a run -----

  /** Both budgets have room for scout `k`. */
  ghost predicate HasRoom(i: Inputs, before: seq<Visit>, k: nat)
    requires k < |i.scouts| && InRange(i, before)
  {
    |Drafts(before)| < i.perRun && Count(Makers(i, before), i.scouts[k].kind) < i.perScout
  }

  /** The visit a due scout gets. */
  ghost function TurnTaken(i: Inputs, before: seq<Visit>, n: nat, k: nat): (v: Visit)
    requires n < |i.records| && k < |i.scouts| && InRange(i, before)
    requires HasRoom(i, before, k)
    ensures v.n == n && v.k == k && Allowed(i, before, v)
  {
    var run, own := i.perRun - |Drafts(before)|, i.perScout - Count(Makers(i, before), i.scouts[k].kind);
    var available := if run < own then run else own;
    var output := i.analyze(n, k, available);
    Visit(n, k, available, if output.Some? && |output.value| <= available then output.value else [])
  }

  /** The visits of a run up to scout `k` on record `n`: each due scout is visited in its turn. */
  ghost function Walk(i: Inputs, cache: set<Key>, n: nat, k: nat): (r: seq<Visit>)
    requires k <= |i.scouts| && if k == 0 then n <= |i.records| else n < |i.records|
    ensures InRange(i, r)
    decreases n, k
  {
    if k > 0 then
      var before := Walk(i, cache, n, k - 1);
      if Due(i, cache, before, n, k - 1) then before + [TurnTaken(i, before, n, k - 1)] else before
    else if n > 0 then Walk(i, cache, n - 1, |i.scouts|)
    else []
  }

  /** The walk visits exactly what is due. */
  lemma {:induction false} WalkVisited(i: Inputs, cache: set<Key>, n: nat, k: nat)
    requires k <= |i.scouts| && if k == 0 then n <= |i.records| else n < |i.records|
    ensures VisitedTo(i, cache, Walk(i, cache, n, k), n, k)
    decreases n, k
  {
    hide VisitedTo;
    if k > 0 {
      var before := Walk(i, cache, n, k - 1);
      WalkVisited(i, cache, n, k - 1);
      if Due(i, cache, before, n, k - 1) {
        VisitMade(i, cache, before, TurnTaken(i, before, n, k - 1));
      } else {
        PassedOver(i, cache, before, n, k - 1);
      }
    } else if n > 0 {
      WalkVisited(i, cache, n - 1, |i.scouts|);
      NoMore(i, cache, Walk(i, cache, n - 1, |i.scouts|), n - 1, |i.scouts|, n);
    } else {
      NothingVisited(i, cache);
    }
  }

  /** While nothing is due, the walk stands still. */
  lemma {:induction false} StandsStill(i: Inputs, cache: set<Key>, n: nat, k: nat, m: nat, j: nat)
    requires k <= |i.scouts| && if k == 0 then n <= |i.records| else n < |i.records|
    requires j <= |i.scouts| && if j == 0 then m <= |i.records| else m < |i.records|
    requires n < m || (n == m && k <= j)
    requires forall l, h | n <= l < |i.records| && 0 <= h < |i.scouts| && (l > n || h >= k)
                           && (l < m || (l == m && h < j)) :: !Due(i, cache, Walk(i, cache, n, k), l, h)
    ensures Walk(i, cache, m, j) == Walk(i, cache, n, k)
    decreases m, j
  {
    hide Due;
    if m != n || j != k {
      if j > 0 {
        StandsStill(i, cache, n, k, m, j - 1);
      } else {
        StandsStill(i, cache, n, k, m - 1, |i.scouts|);
      }
    }
  }

  lemma WalkNext(i: Inputs, cache: set<Key>, n: nat)
    requires n < |i.records|
    ensures Walk(i, cache, n + 1, 0) == Walk(i, cache, n, |i.scouts|)
  {
  }

  /** What seeing a scout's turn means: the record is done, the scout is passed over, or it is visited. */
  lemma ScoutSeen(i: Inputs, cache: set<Key>, visits: seq<Visit>, n: nat, k: nat, previous: Option<Record>)
    requires n < |i.records| && k < |i.scouts| && Reached(i, n) && IsPrevious(i, n, previous)
    requires visits == Walk(i, cache, n, k) && forall j | 0 <= j < k :: !i.lateScout(n, j)
    ensures var made, own := |Drafts(visits)|, Count(Makers(i, visits), i.scouts[k].kind);
            var passed := own >= i.perScout || i.scouts[k].kind !in i.affected(i.records[n], previous)
                          || (!i.force && KeyOf(i, n, k) in cache);
            if made >= i.perRun || i.lateScout(n, k) then Walk(i, cache, n + 1, 0) == visits
            else Walk(i, cache, n, k + 1) == if passed then visits else visits + [TurnTaken(i, visits, n, k)]
  {
    DueExactly(i, cache, visits, n, k, previous);
    if |Drafts(visits)| >= i.perRun || i.lateScout(n, k) {
      NotDueLater(i, cache, visits, n, k);
      StandsStill(i, cache, n, k, n + 1, 0);
    }
  }

  lemma SinceMore(was: seq<Proposal>, more: seq<Proposal>, since: nat)
    requires since <= |was|
    ensures (was + more)[since..] == was[since..] + more && |was| == since + |was[since..]|
  {
  }

  lemma MalformedMore(i: Inputs, visits: seq<Visit>, v: Visit)
    ensures var output := i.analyze(v.n, v.k, v.available);
            Malformed(i, visits + [v])
            == Malformed(i, visits) + if output.Some? && |output.value| <= v.available then 0 else 1
  {
    assert (visits + [v])[..|visits|] == visits;
  }

  /** Whether a scout is due, where the record is reached and the clock has not stopped an earlier scout. */
  lemma DueExactly(i: Inputs, cache: set<Key>, visits: seq<Visit>, n: nat, k: nat, previous: Option<Record>)
    requires n < |i.records| && k < |i.scouts| && InRange(i, visits) && Reached(i, n) && IsPrevious(i, n, previous)
    requires forall j | 0 <= j < k :: !i.lateScout(n, j)
    ensures Due(i, cache, visits, n, k)
            <==> !i.lateScout(n, k) && |Drafts(visits)| < i.perRun
                 && Count(Makers(i, visits), i.scouts[k].kind) < i.perScout
                 && i.scouts[k].kind in i.affected(i.records[n], previous)
                 && (i.force || KeyOf(i, n, k) !in cache)
  {
    forall other | IsPrevious(i, n, other) ensures other == previous {
      PreviousOne(i, n, other, previous);
    }
  }

  /** A run that has spent its budget, or is late at a scout, has nothing due at that scout or after it. */
  lemma NotDueLater(i: Inputs, cache: set<Key>, visits: seq<Visit>, n: nat, k: nat)
    requires n < |i.records| && k < |i.scouts| && InRange(i, visits)
    requires |Drafts(visits)| >= i.perRun || i.lateScout(n, k)
    ensures forall j | k <= j < |i.scouts| :: !Due(i, cache, visits, n, j)
  {
  }

  /** The counts of a run are within both budgets, and each scout's is of what it made. */
  ghost predicate Counted(i: Inputs, creators: seq<nat>, byScout: map<nat, nat>) {
    && |creators| <= i.perRun && byScout.Keys == Kinds(i.scouts) && (forall c | c in creators :: c in byScout)
    && (forall t | t in byScout :: byScout[t] == Count(creators, t) <= i.perScout)
  }

  lemma CountedMore(i: Inputs, creators: seq<nat>, byScout: map<nat, nat>, kind: nat)
    requires Counted(i, creators, byScout) && kind in byScout && byScout[kind] < i.perScout && |creators| < i.perRun
    ensures Counted(i, creators + [kind], byScout[kind := byScout[kind] + 1])
  {
    CountGrows(creators, kind);
  }

  /** What was there before is still there, and what was added is what was created. */
  ghost predicate Adds(sim: Similarity, earlier: seq<Proposal>, related: seq<Relation>, since: nat, ps: seq<Proposal>,
                       rs: seq<Relation>, made: nat) {
    && |earlier| == |related| == since && earlier <= ps && |ps| == since + made
    && rs == related + Found(sim, ps, since)
  }

  lemma AddsMore(sim: Similarity, earlier: seq<Proposal>, related: seq<Relation>, since: nat, ps: seq<Proposal>,
                 rs: seq<Relation>, made: nat, p: Proposal)
    requires Adds(sim, earlier, related, since, ps, rs, made)
    ensures Adds(sim, earlier, related, since, ps + [p], rs + [Find(sim, p, ps)], made + 1)
  {
    FoundMore(sim, ps, since, p);
    assert rs + [Find(sim, p, ps)] == related + (Found(sim, ps, since) + [Find(sim, p, ps)]);
  }

  /** What the run adds is flagged right, and the ids it is yet to issue are new. */
  ghost predicate FlaggedFresh(i: Inputs, ps: seq<Proposal>, rs: seq<Relation>, since: nat) {
    FlaggedSince(ps, rs, since) && since <= |ps| && FreshIds(i.ids, ps)
  }

  lemma FlaggedFreshMore(i: Inputs, sim: Similarity, ps: seq<Proposal>, rs: seq<Relation>, since: nat, p: Proposal)
    requires FlaggedFresh(i, ps, rs, since) && p.id == i.ids(|ps|)
    ensures FlaggedFresh(i, ps + [p], rs + [Find(sim, p, ps)], since)
  {
    FreshGrows(i.ids, ps, p);
    FlaggedGrows(sim, ps, rs, since, p);
  }

  lemma NamedNext(ids: nat -> nat, n: nat, drafts: seq<Draft>, k: nat)
    requires k < |drafts|
    ensures Named(ids, n, drafts[..k + 1])
            == Named(ids, n, drafts[..k]) + [Proposal(ids(n + k), drafts[k].shape, drafts[k].at)]
  {
  }

  lemma RepeatedNext(kind: nat, k: nat)
    ensures Repeated(kind, k + 1) == Repeated(kind, k) + [kind]
  {
  }

  // ----- The run -----

  class ScoutPipeline {
    const similarity: Similarity
    var proposals: seq<Proposal>
    var relations: seq<Relation>
    var cache: set<Key>
    // The current run, from the first `since` proposals on: what there was before it, and what it visited.
    ghost var since: nat
    ghost var earlier: seq<Proposal>
    ghost var related: seq<Relation>
    ghost var visits: seq<Visit>
    var creators: seq<nat>
    var byScout: map<nat, nat>
    var evaluations: seq<Key>
    var malformed: nat
    var mismatched: nat

    constructor (similarity: Similarity, proposals: seq<Proposal>, relations: seq<Relation>, cache: set<Key>)
      ensures this.similarity == similarity && this.proposals == proposals && this.relations == relations
              && this.cache == cache
    {
      this.similarity, this.proposals, this.relations, this.cache := similarity, proposals, relations, cache;
      creators, byScout, evaluations, malformed, mismatched, since := [], map[], [], 0, 0, |proposals|;
      visits, earlier, related := [], proposals, relations;
    }

    /** What the run adds is flagged right and comes after all there was, and the run is within its budgets and counts
        what it created. */
    ghost predicate Valid(i: Inputs)
      reads this
    {
      && FlaggedFresh(i, proposals, relations, since) && Counted(i, creators, byScout)
      && Adds(similarity, earlier, related, since, proposals, relations, |creators|)
    }

    /** The lists of the run say what its visits were. */
    ghost predicate Tells(i: Inputs)
      reads this
    {
      since <= |proposals| && Recorded(i, visits, evaluations, proposals[since..], since, creators)
      && malformed == Malformed(i, visits)
    }

    method AddProposal(i: Inputs, d: Draft, kind: nat)
      requires Valid(i) && kind in byScout && byScout[kind] < i.perScout && |creators| < i.perRun
      modifies this`proposals, this`relations, this`creators, this`byScout
      ensures Valid(i) && |creators| == |old(creators)| + 1 && byScout[kind] == old(byScout[kind]) + 1
      ensures proposals == old(proposals) + [Proposal(i.ids(|old(proposals)|), d.shape, d.at)]
      ensures creators == old(creators) + [kind]
    {
      var p := Proposal(i.ids(|proposals|), d.shape, d.at);
      hide Adds;
      FlaggedFreshMore(i, similarity, proposals, relations, since, p);
      AddsMore(similarity, earlier, related, since, proposals, relations, |creators|, p);
      CountedMore(i, creators, byScout, kind);
      relations := relations + [Find(similarity, p, proposals)];
      proposals := proposals + [p];
      creators := creators + [kind];
      byScout := byScout[kind := byScout[kind] + 1];
    }

    method AddProposals(i: Inputs, drafts: seq<Draft>, kind: nat)
      requires Valid(i) && kind in byScout && byScout[kind] + |drafts| <= i.perScout
               && |creators| + |drafts| <= i.perRun
      modifies this`proposals, this`relations, this`creators, this`byScout
      ensures Valid(i) && |creators| == |old(creators)| + |drafts|
      ensures proposals == old(proposals) + Named(i.ids, |old(proposals)|, drafts)
      ensures creators == old(creators) + Repeated(kind, |drafts|)
    {
      hide FlaggedFresh;
      for k := 0 to |drafts|
        invariant Valid(i) && |creators| == |old(creators)| + k && byScout[kind] == old(byScout[kind]) + k
        invariant proposals == old(proposals) + Named(i.ids, |old(proposals)|, drafts[..k])
        invariant creators == old(creators) + Repeated(kind, k)
      {
        NamedNext(i.ids, |old(proposals)|, drafts, k);
        RepeatedNext(kind, k);
        AddProposal(i, drafts[k], kind);
      }
    }

    /** One scout on one record, within what both budgets leave; output over that, or none, counts as malformed. */
    method Ask(i: Inputs, n: nat, k: nat) returns (available: nat, accepted: seq<Draft>)
      requires Valid(i) && Tells(i) && n < |i.records| && k < |i.scouts| && i.scouts[k].kind in byScout
      requires HasRoom(i, visits, k)
      modifies this`malformed
      ensures Visit(n, k, available, accepted) == TurnTaken(i, visits, n, k)
      ensures malformed == Malformed(i, visits + [Visit(n, k, available, accepted)])
    {
      hide FlaggedFresh, Malformed, KeysOf, Named, Adds;
      available := i.perScout - byScout[i.scouts[k].kind];
      if i.perRun - |creators| < available {
        available := i.perRun - |creators|;
      }
      var output := i.analyze(n, k, available);
      accepted := [];
      if output.Some? && |output.value| <= available {
        accepted := output.value;
      } else {
        malformed := malformed + 1;
      }
      MalformedMore(i, visits, Visit(n, k, available, accepted));
    }

    /** The accepted drafts become proposals, and the scout is recorded as evaluated on the record. */
    method Accept(i: Inputs, n: nat, k: nat, accepted: seq<Draft>, ghost v: Visit)
      requires Valid(i) && n < |i.records| && k < |i.scouts| && i.scouts[k].kind in byScout && since <= |proposals|
      requires byScout[i.scouts[k].kind] + |accepted| <= i.perScout && |creators| + |accepted| <= i.perRun
      requires Recorded(i, visits, evaluations, proposals[since..], since, creators)
      requires v.n == n && v.k == k && v.drafts == accepted
      modifies this`proposals, this`relations, this`creators, this`byScout, this`evaluations, this`visits
      ensures Valid(i) && since <= |proposals|
      ensures visits == old(visits) + [v] && evaluations == old(evaluations) + [KeyOf(i, n, k)]
      ensures Recorded(i, visits, evaluations, proposals[since..], since, creators)
    {
      hide FlaggedFresh, Recorded;
      RecordedMore(i, visits, evaluations, proposals[since..], since, creators, v);
      SinceMore(proposals, Named(i.ids, |proposals|, accepted), since);
      AddProposals(i, accepted, i.scouts[k].kind);
      evaluations := evaluations
                     + [Key(i.records[n].digest, i.scouts[k].kind, i.scouts[k].version, i.policy, i.config)];
      visits := visits + [v];
    }

    /** A scout is asked, and what is accepted of its answer is added. */
    method Evaluate(i: Inputs, n: nat, k: nat) returns (ghost v: Visit)
      requires Valid(i) && Tells(i) && n < |i.records| && k < |i.scouts| && i.scouts[k].kind in byScout
      requires HasRoom(i, visits, k)
      modifies this`proposals, this`relations, this`creators, this`byScout, this`evaluations, this`malformed,
               this`visits
      ensures Valid(i) && Tells(i)
      ensures visits == old(visits) + [v] && v == TurnTaken(i, old(visits), n, k)
      ensures evaluations == old(evaluations) + [KeyOf(i, n, k)]
    {
      var available, accepted := Ask(i, n, k);
      v := Visit(n, k, available, accepted);
      Accept(i, n, k, accepted, v);
    }

    /** The turn of scout `k` on record `n`: evaluated if it is due, passed over otherwise; false when the run's budget
        or the clock stops the record there. */
    method Turn(i: Inputs, n: nat, k: nat, previous: Option<Record>, affected: set<nat>) returns (go: bool)
      requires Valid(i) && Tells(i) && n < |i.records| && k < |i.scouts|
      requires affected == i.affected(i.records[n], previous) && Reached(i, n) && IsPrevious(i, n, previous)
      requires visits == Walk(i, cache, n, k) && forall j | 0 <= j < k :: !i.lateScout(n, j)
      modifies this`proposals, this`relations, this`creators, this`byScout, this`evaluations, this`malformed,
               this`visits
      ensures Valid(i) && Tells(i)
      ensures go ==> visits == Walk(i, cache, n, k + 1) && !i.lateScout(n, k)
      ensures !go ==> visits == Walk(i, cache, n + 1, 0)
    {
      var r, scout := i.records[n], i.scouts[k];
      ScoutSeen(i, cache, visits, n, k, previous);
      if |creators| >= i.perRun || i.lateScout(n, k) {
        return false;
      }
      if byScout[scout.kind] >= i.perScout || scout.kind !in affected
         || (!i.force && Key(r.digest, scout.kind, scout.version, i.policy, i.config) in cache) {
        return true;
      }
      var v := Evaluate(i, n, k);
      go := true;
    }

    /** All scouts on record `n`, in order, unless the run's budget or the clock stops them. */
    method Scan(i: Inputs, n: nat, previous: Option<Record>)
      requires Valid(i) && Tells(i) && n < |i.records|
      requires visits == Walk(i, cache, n, 0) && Reached(i, n) && IsPrevious(i, n, previous)
      modifies this`proposals, this`relations, this`creators, this`byScout, this`evaluations, this`malformed,
               this`visits
      ensures Valid(i) && Tells(i) && visits == Walk(i, cache, n + 1, 0)
    {
      hide *;
      var affected := i.affected(i.records[n], previous);
      for k := 0 to |i.scouts|
        invariant Valid(i) && Tells(i)
        invariant visits == Walk(i, cache, n, k) && forall j | 0 <= j < k :: !i.lateScout(n, j)
      {
        var go := Turn(i, n, k, previous, affected);
        if !go {
          return;
        }
      }
      WalkNext(i, cache, n);
    }

    /** The proposals of earlier runs, read again in their order. */
    method ReadAgain()
      requires |proposals| == |relations| && DistinctIds(proposals)
      modifies this`proposals, this`relations, this`since
      ensures proposals == Reread(old(proposals)) && since == |proposals| == |relations| == |old(proposals)|
      ensures relations == RelationsFor(proposals, old(proposals), old(relations))
      ensures DistinctIds(proposals)
    {
      RereadMembers(proposals);
      relations := RelationsFor(Reread(proposals), proposals, relations);
      proposals := Reread(proposals);
      since := |proposals|;
    }

    method Start(i: Inputs)
      requires FlaggedSince(proposals, relations, since) && since <= |proposals| && FreshIds(i.ids, proposals)
      requires since == |proposals|
      modifies this`creators, this`byScout, this`evaluations, this`malformed, this`mismatched, this`visits,
               this`earlier, this`related
      ensures Valid(i) && creators == [] && evaluations == [] && earlier == proposals && related == relations
      ensures Tells(i) && visits == [] && mismatched == 0
    {
      creators, evaluations, malformed, mismatched, visits := [], [], 0, 0, [];
      earlier, related := proposals, relations;
      byScout := map t | t in Kinds(i.scouts) :: 0;
    }

    /** `run`: false when a single named record belongs to another program. It reads the earlier proposals again and
        flags right all that it adds, so that a list in which every structure has its earliest proposal as its only
        unflagged one stays such a list exactly if it still is one when read again. It keeps both budgets whatever the
        scouts return, counts what it creates by scout type, and evaluates nothing that is cached unless forced. */
    method Run(i: Inputs) returns (ok: bool)
      requires |proposals| == |relations| && DistinctIds(proposals) && FreshIds(i.ids, proposals)
      modifies this
      ensures FlaggedSince(proposals, relations, |old(proposals)|) && |old(proposals)| <= |proposals|
      ensures AllRelate(similarity, proposals, relations, |old(proposals)|)
      ensures old(Classified(proposals, relations)) ==> (Classified(proposals, relations)
                                                         <==> FirstsFirst(old(proposals)))
      ensures Reread(old(proposals)) <= proposals && |proposals| == |old(proposals)| + |creators|
      ensures |creators| <= i.perRun
      ensures byScout.Keys == Kinds(i.scouts) && forall c | c in creators :: c in byScout
      ensures forall t | t in byScout :: byScout[t] == Count(creators, t) <= i.perScout
      ensures Visited(i, old(cache), visits) && Tells(i) && since == |old(proposals)|
      ensures mismatched == Skipped(i, |i.records|)
      ensures !i.force ==> Elements(evaluations) !! old(cache)
      ensures cache == if ok then old(cache) + Elements(evaluations) else old(cache)
      ensures ok <==> !Refused(i)
    {
      hide Recorded, VisitedTo, Refused, Walk, FlaggedSince, DistinctIds, FreshIds, Malformed, Makers, Drafts, Named,
           KeysOf, RelationsFor, Reread, Count;
      FreshAgain(i.ids, proposals);
      ReadAgain();
      Start(i);
      ghost var ps, rs := proposals, relations;
      ok := ScanAll(i);
      WalkVisited(i, cache, |i.records|, 0);
      FoundRelate(similarity, proposals, related, relations, since);
      if !i.force {
        EvaluatedUncached(i, cache, visits, evaluations, proposals[since..], since, creators);
      }
      if ok {
        cache := cache + Elements(evaluations);
      }
      if old(Classified(proposals, relations)) {
        RereadExactly(old(proposals), old(relations));
        Appended(ps, rs, proposals, relations);
      }
    }

    /** One record: it is passed over, or scanned, unless it ends the run. */
    method ScanRecord(i: Inputs, n: nat, seen: seq<Record>) returns (next: Next, more: seq<Record>)
      requires Valid(i) && Tells(i) && n < |i.records|
      requires OnTime(i, n) && visits == Walk(i, cache, n, 0) && seen == OwnBefore(i, n)
      requires mismatched == Skipped(i, n)
      modifies this`proposals, this`relations, this`creators, this`byScout, this`evaluations, this`malformed,
               this`mismatched, this`visits
      ensures Valid(i) && Tells(i)
      ensures next == Further ==> OnTime(i, n + 1) && visits == Walk(i, cache, n + 1, 0)
      ensures next == Further ==> more == OwnBefore(i, n + 1) && mismatched == Skipped(i, n + 1)
      ensures next != Further ==> visits == Walk(i, cache, |i.records|, 0) && mismatched == Skipped(i, |i.records|)
      ensures next != Further ==> (next == Refuse <==> Refused(i))
    {
      RecordEnds(i, cache, n);
      more := seen;
      var r := i.records[n];
      if i.lateRecord(n) {
        next := Stop;
      } else if r.program.Some? && r.program.value != i.reference {
        next := if i.single then Refuse else Further;
        mismatched := mismatched + if i.single then 0 else 1;
      } else {
        next, more := Further, seen + [r];
        PreviousFound(i, n);
        Scan(i, n, Previous(r, if i.single then i.history else seen));
      }
    }

    method ScanAll(i: Inputs) returns (ok: bool)
      requires Valid(i) && Tells(i) && visits == [] && mismatched == 0
      modifies this`proposals, this`relations, this`creators, this`byScout, this`evaluations, this`malformed,
               this`mismatched, this`visits
      ensures Valid(i) && Tells(i) && visits == Walk(i, cache, |i.records|, 0)
      ensures ok <==> !Refused(i)
      ensures mismatched == Skipped(i, |i.records|)
    {
      hide FlaggedFresh, Counted, Recorded;
      var seen: seq<Record> := [];
      for n := 0 to |i.records|
        invariant Valid(i) && Tells(i) && visits == Walk(i, cache, n, 0)
        invariant seen == OwnBefore(i, n) && mismatched == Skipped(i, n) && OnTime(i, n)
      {
        var next;
        next, seen := ScanRecord(i, n, seen);
        if next != Further {
          return next == Stop;
        }
      }
      NoneForeign(i);
      ok := true;
    }
  }
}
