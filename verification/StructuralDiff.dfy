/** The structural comparison of two analysis results (engine.py). */
module StructuralDiff {
  import opened Collections
  import Strings

  /** A parsed JSON value. A number is its value: 1 and 1.0 are the same. */
  datatype Json = Null | Bool(b: bool) | Num(n: real) | Str(s: string) | Arr(items: seq<Json>) | Obj(fields: map<string,
                                                                                                     Json>)

  datatype Step = Key(key: string) | Index(i: nat)

  datatype Change = Change(location: seq<Step>, before: Json, after: Json)

  /** `dict.get`: an absent key reads as null. */
  function Get(f: map<string, Json>, k: string): Json {
    if k in f then f[k] else Null
  }

  predicate Numeric(x: Json) {
    x.Bool? || x.Num?
  }

  function NumberOf(x: Json): real
    requires Numeric(x)
  {
    match x
    case Bool(b) => if b then 1.0 else 0.0
    case Num(n) => n
  }

  /** Python's `==`, under which true is 1 and false is 0. */
  predicate Same(x: Json, y: Json)
    decreases x
  {
    if Numeric(x) && Numeric(y) then NumberOf(x) == NumberOf(y)
    else
      match (x, y)
      case (Arr(a), Arr(b)) => |a| == |b| && forall i | 0 <= i < |a| :: Same(a[i], b[i])
      case (Obj(f), Obj(g)) => f.Keys == g.Keys && forall k | k in f :: Same(f[k], g[k])
      case _ => x == y
  }

  /** Two objects, or two lists of one length: the comparison descends into them. */
  predicate Paired(x: Json, y: Json) {
    (x.Obj? && y.Obj?) || (x.Arr? && y.Arr? && |x.items| == |y.items|)
  }

  /** The two trees agree when an absent key counts as null. */
  ghost predicate Agree(x: Json, y: Json)
    decreases Paired(x, y), x
  {
    if x.Obj? && y.Obj? then forall k | k in x.fields.Keys + y.fields.Keys :: Agree(Get(x.fields, k), Get(y.fields, k))
    else if Paired(x, y) then forall i | 0 <= i < |x.items| :: Agree(x.items[i], y.items[i])
    else Same(x, y)
  }

  function Under(s: Step, cs: seq<Change>): (r: seq<Change>)
    ensures |r| == |cs|
    ensures forall i :: 0 <= i < |r| ==> r[i] == Change([s] + cs[i].location, cs[i].before, cs[i].after)
  {
    if cs == [] then []
    else Under(s, cs[..|cs| - 1]) + [Change([s] + cs[|cs| - 1].location, cs[|cs| - 1].before, cs[|cs| - 1].after)]
  }

  /** The changes found below each item of a list, located in the list. */
  function ItemGroups(gs: seq<seq<Change>>): seq<Change> {
    if gs == [] then [] else ItemGroups(gs[..|gs| - 1]) + Under(Index(|gs| - 1), gs[|gs| - 1])
  }

  /** The changes found below each of some keys, located in the object. */
  function KeyGroups(keys: seq<string>, gs: seq<seq<Change>>): seq<Change>
    requires |keys| == |gs|
  {
    if gs == [] then [] else KeyGroups(keys[..|gs| - 1], gs[..|gs| - 1]) + Under(Key(keys[|gs| - 1]), gs[|gs| - 1])
  }

  function UnionKeys(x: Json, y: Json): (r: seq<string>)
    requires x.Obj? && y.Obj?
    ensures Distinct(r) && forall k :: k in r <==> k in x.fields || k in y.fields
  {
    Strings.Listed(x.fields.Keys + y.fields.Keys)
  }

  /** Everything `visit` records below one pair of values, at locations relative to it. */
  function Diff(x: Json, y: Json): seq<Change>
    decreases Paired(x, y), x
  {
    if Same(x, y) then []
    else if x.Obj? && y.Obj? then
      var keys := UnionKeys(x, y);
      KeyGroups(keys, seq(|keys|, i requires 0 <= i < |keys| => Diff(Get(x.fields, keys[i]), Get(y.fields, keys[i]))))
    else if Paired(x, y) then
      ItemGroups(seq(|x.items|, i requires 0 <= i < |x.items| => Diff(x.items[i], y.items[i])))
    else [Change([], x, y)]
  }

  /** The groups below the keys of two objects. */
  function KeyDiffs(x: Json, y: Json): (gs: seq<seq<Change>>)
    requires x.Obj? && y.Obj?
    ensures |gs| == |UnionKeys(x, y)|
    ensures forall i :: 0 <= i < |gs| ==>
              gs[i] == Diff(Get(x.fields, UnionKeys(x, y)[i]), Get(y.fields, UnionKeys(x, y)[i]))
    ensures !Same(x, y) ==> Diff(x, y) == KeyGroups(UnionKeys(x, y), gs)
  {
    var keys := UnionKeys(x, y);
    seq(|keys|, i requires 0 <= i < |keys| => Diff(Get(x.fields, keys[i]), Get(y.fields, keys[i])))
  }

  function ItemDiffs(x: Json, y: Json): (gs: seq<seq<Change>>)
    requires x.Arr? && Paired(x, y)
    ensures |gs| == |x.items|
    ensures forall i :: 0 <= i < |gs| ==> gs[i] == Diff(x.items[i], y.items[i])
    ensures !Same(x, y) ==> Diff(x, y) == ItemGroups(gs)
  {
    seq(|x.items|, i requires 0 <= i < |x.items| => Diff(x.items[i], y.items[i]))
  }

  // ----- No change is recorded exactly when the trees agree -----

  lemma {:induction false} SameAgree(x: Json, y: Json)
    requires Same(x, y)
    ensures Agree(x, y)
    decreases x
  {
    if x.Obj? && y.Obj? {
      forall k | k in x.fields.Keys + y.fields.Keys ensures Agree(Get(x.fields, k), Get(y.fields, k)) {
        SameAgree(x.fields[k], y.fields[k]);
      }
    } else if Paired(x, y) {
      forall i | 0 <= i < |x.items| ensures Agree(x.items[i], y.items[i]) {
        SameAgree(x.items[i], y.items[i]);
      }
    }
  }

  lemma {:induction false} ItemGroupsEmpty(gs: seq<seq<Change>>)
    ensures ItemGroups(gs) == [] <==> forall i | 0 <= i < |gs| :: gs[i] == []
  {
    if gs != [] {
      ItemGroupsEmpty(gs[..|gs| - 1]);
      assert forall i | 0 <= i < |gs| - 1 :: gs[..|gs| - 1][i] == gs[i];
    }
  }

  lemma {:induction false} KeyGroupsEmpty(keys: seq<string>, gs: seq<seq<Change>>)
    requires |keys| == |gs|
    ensures KeyGroups(keys, gs) == [] <==> forall i | 0 <= i < |gs| :: gs[i] == []
  {
    if gs != [] {
      KeyGroupsEmpty(keys[..|gs| - 1], gs[..|gs| - 1]);
      assert forall i | 0 <= i < |gs| - 1 :: gs[..|gs| - 1][i] == gs[i];
    }
  }

  lemma {:induction false} DiffEmptyIffAgree(x: Json, y: Json)
    ensures Diff(x, y) == [] <==> Agree(x, y)
    decreases Paired(x, y), x
  {
    if Same(x, y) {
      SameAgree(x, y);
    } else if x.Obj? && y.Obj? {
      var keys, gs := UnionKeys(x, y), KeyDiffs(x, y);
      forall i | 0 <= i < |keys| ensures gs[i] == [] <==> Agree(Get(x.fields, keys[i]), Get(y.fields, keys[i])) {
        DiffEmptyIffAgree(Get(x.fields, keys[i]), Get(y.fields, keys[i]));
      }
      ObjectsEmpty(x, y);
    } else if Paired(x, y) {
      forall i | 0 <= i < |x.items| ensures ItemDiffs(x, y)[i] == [] <==> Agree(x.items[i], y.items[i]) {
        DiffEmptyIffAgree(x.items[i], y.items[i]);
      }
      ListsEmpty(x, y);
    }
  }

  lemma ListsEmpty(x: Json, y: Json)
    requires x.Arr? && Paired(x, y)
    requires forall i | 0 <= i < |x.items| :: ItemDiffs(x, y)[i] == [] <==> Agree(x.items[i], y.items[i])
    ensures ItemGroups(ItemDiffs(x, y)) == [] <==> Agree(x, y)
  {
    ItemGroupsEmpty(ItemDiffs(x, y));
  }

  lemma AgreeByKeys(x: Json, y: Json)
    requires x.Obj? && y.Obj?
    ensures Agree(x, y) <==> forall i | 0 <= i < |UnionKeys(x, y)| ::
              Agree(Get(x.fields, UnionKeys(x, y)[i]), Get(y.fields, UnionKeys(x, y)[i]))
  {
    var keys := UnionKeys(x, y);
    assert forall i | 0 <= i < |keys| :: keys[i] in keys;
  }

  lemma ObjectsEmpty(x: Json, y: Json)
    requires x.Obj? && y.Obj?
    requires forall i | 0 <= i < |UnionKeys(x, y)| ::
               KeyDiffs(x, y)[i] == [] <==> Agree(Get(x.fields, UnionKeys(x, y)[i]), Get(y.fields, UnionKeys(x, y)[i]))
    ensures KeyGroups(UnionKeys(x, y), KeyDiffs(x, y)) == [] <==> Agree(x, y)
  {
    KeyGroupsEmpty(UnionKeys(x, y), KeyDiffs(x, y));
    AgreeByKeys(x, y);
  }

  // ----- The changes are a patch -----

  /** Replaces what is at `path`, adding the last key if it is absent. */
  function Put(x: Json, path: seq<Step>, v: Json): Json
    decreases |path|
  {
    if path == [] then v
    else
      match (x, path[0])
      case (Obj(f), Key(k)) => Obj(f[k := Put(Get(f, k), path[1..], v)])
      case (Arr(a), Index(i)) => if i < |a| then Arr(a[i := Put(a[i], path[1..], v)]) else x
      case _ => x
  }

  function Patched(x: Json, cs: seq<Change>): Json {
    if cs == [] then x else Put(Patched(x, cs[..|cs| - 1]), cs[|cs| - 1].location, cs[|cs| - 1].after)
  }

  lemma {:induction false} PatchedConcat(x: Json, a: seq<Change>, b: seq<Change>)
    ensures Patched(x, a + b) == Patched(Patched(x, a), b)
  {
    if b == [] {
      assert a + b == a;
    } else {
      assert (a + b)[..|a + b| - 1] == a + b[..|b| - 1];
      PatchedConcat(x, a, b[..|b| - 1]);
    }
  }

  /** Changes below one key touch that key alone. */
  lemma {:induction false} PatchedKey(f: map<string, Json>, k: string, cs: seq<Change>)
    ensures Patched(Obj(f), Under(Key(k), cs)) == if cs == [] then Obj(f) else Obj(f[k := Patched(Get(f, k), cs)])
  {
    if cs != [] {
      var front, last := cs[..|cs| - 1], cs[|cs| - 1];
      PatchedKey(f, k, front);
      UnderFront(Key(k), cs);
      var so := if front == [] then f else f[k := Patched(Get(f, k), front)];
      PutKey(so, k, last.location, last.after);
      assert Get(so, k) == Patched(Get(f, k), front);
      var v := Put(Get(so, k), last.location, last.after);
      assert so[k := v] == f[k := v];
    }
  }

  lemma UnderFront(s: Step, cs: seq<Change>)
    requires cs != []
    ensures var u := Under(s, cs);
            && u[..|u| - 1] == Under(s, cs[..|cs| - 1])
            && u[|u| - 1] == Change([s] + cs[|cs| - 1].location, cs[|cs| - 1].before, cs[|cs| - 1].after)
  {
  }

  lemma PutKey(f: map<string, Json>, k: string, path: seq<Step>, v: Json)
    ensures Put(Obj(f), [Key(k)] + path, v) == Obj(f[k := Put(Get(f, k), path, v)])
  {
    assert ([Key(k)] + path)[1..] == path;
  }

  lemma PutItem(a: seq<Json>, i: nat, path: seq<Step>, v: Json)
    requires i < |a|
    ensures Put(Arr(a), [Index(i)] + path, v) == Arr(a[i := Put(a[i], path, v)])
  {
    assert ([Index(i)] + path)[1..] == path;
  }

  lemma {:induction false} PatchedItem(a: seq<Json>, i: nat, cs: seq<Change>)
    requires i < |a|
    ensures Patched(Arr(a), Under(Index(i), cs)) == Arr(a[i := Patched(a[i], cs)])
  {
    if cs == [] {
      assert a[i := a[i]] == a;
    } else {
      var front, last := cs[..|cs| - 1], cs[|cs| - 1];
      PatchedItem(a, i, front);
      UnderFront(Index(i), cs);
      var so := a[i := Patched(a[i], front)];
      PutItem(so, i, last.location, last.after);
      var v := Put(so[i], last.location, last.after);
      assert so[i := v] == a[i := v];
    }
  }

  lemma PatchOneItem(x: Json, cs: seq<Change>, i: nat, more: seq<Change>)
    requires Patched(x, cs).Arr? && i < |Patched(x, cs).items|
    ensures var before := Patched(x, cs).items;
            Patched(x, cs + Under(Index(i), more)) == Arr(before[i := Patched(before[i], more)])
  {
    PatchedConcat(x, cs, Under(Index(i), more));
    PatchedItem(Patched(x, cs).items, i, more);
  }

  lemma PatchOneKey(x: Json, cs: seq<Change>, k: string, more: seq<Change>)
    requires Patched(x, cs).Obj?
    ensures var before := Patched(x, cs).fields;
            Patched(x, cs + Under(Key(k), more)) == if more == [] then Obj(before)
              else Obj(before[k := Patched(Get(before, k), more)])
  {
    PatchedConcat(x, cs, Under(Key(k), more));
    PatchedKey(Patched(x, cs).fields, k, more);
  }

  /** Patching a list patches each of its items on its own. */
  lemma {:induction false} ItemGroupsPatch(a: seq<Json>, gs: seq<seq<Change>>) returns (r: seq<Json>)
    requires |gs| <= |a|
    ensures Patched(Arr(a), ItemGroups(gs)) == Arr(r) && |r| == |a|
    ensures forall i | 0 <= i < |gs| :: r[i] == Patched(a[i], gs[i])
    ensures forall i | |gs| <= i < |a| :: r[i] == a[i]
    decreases |gs|
  {
    r := a;
    if gs != [] {
      var front, n := gs[..|gs| - 1], |gs| - 1;
      r := ItemGroupsPatch(a, front);
      PatchOneItem(Arr(a), ItemGroups(front), n, gs[n]);
      r := r[n := Patched(r[n], gs[n])];
    }
  }

  /** Patching an object patches each of its keys on its own. */
  function PatchedFields(f: map<string, Json>, keys: seq<string>, gs: seq<seq<Change>>): map<string, Json>
    requires |keys| == |gs|
  {
    if gs == [] then f
    else
      var n := |gs| - 1;
      var r := PatchedFields(f, keys[..n], gs[..n]);
      if gs[n] == [] then r else r[keys[n] := Patched(Get(r, keys[n]), gs[n])]
  }

  lemma {:induction false} KeyGroupsPatch(f: map<string, Json>, keys: seq<string>, gs: seq<seq<Change>>)
    requires |keys| == |gs|
    ensures Patched(Obj(f), KeyGroups(keys, gs)) == Obj(PatchedFields(f, keys, gs))
    decreases |gs|
  {
    if gs != [] {
      var n := |gs| - 1;
      KeyGroupsPatch(f, keys[..n], gs[..n]);
      PatchOneKey(Obj(f), KeyGroups(keys[..n], gs[..n]), keys[n], gs[n]);
    }
  }

  lemma {:induction false} PatchedFieldsAt(f: map<string, Json>, keys: seq<string>, gs: seq<seq<Change>>, k: string)
    requires |keys| == |gs| && Distinct(keys)
    ensures k !in keys ==> Get(PatchedFields(f, keys, gs), k) == Get(f, k)
    ensures forall i | 0 <= i < |keys| && keys[i] == k ::
              Get(PatchedFields(f, keys, gs), k) == Patched(Get(f, k), gs[i])
    ensures k in PatchedFields(f, keys, gs) ==> k in f || k in keys
    decreases |gs|
  {
    if gs != [] {
      var n := |gs| - 1;
      PatchedFieldsAt(f, keys[..n], gs[..n], k);
      assert keys == keys[..n] + [keys[n]];
      assert keys[n] !in keys[..n];
    }
  }

  lemma {:induction false} SameReflexive(x: Json)
    ensures Same(x, x)
    decreases x
  {
    match x
    case Arr(a) =>
      forall i | 0 <= i < |a| ensures Same(a[i], a[i]) {
        SameReflexive(a[i]);
      }
    case Obj(f) =>
      forall k | k in f ensures Same(f[k], f[k]) {
        SameReflexive(f[k]);
      }
    case _ =>
  }

  lemma ObjectsPatched(x: Json, y: Json)
    requires x.Obj? && y.Obj?
    requires forall i | 0 <= i < |UnionKeys(x, y)| ::
               Agree(Patched(Get(x.fields, UnionKeys(x, y)[i]), KeyDiffs(x, y)[i]), Get(y.fields, UnionKeys(x, y)[i]))
    ensures Agree(Patched(x, KeyGroups(UnionKeys(x, y), KeyDiffs(x, y))), y)
  {
    var keys, gs := UnionKeys(x, y), KeyDiffs(x, y);
    KeyGroupsPatch(x.fields, keys, gs);
    var r := PatchedFields(x.fields, keys, gs);
    forall k | k in r.Keys + y.fields.Keys ensures Agree(Get(r, k), Get(y.fields, k)) {
      PatchedFieldsAt(x.fields, keys, gs, k);
      assert k in keys;
      var i :| 0 <= i < |keys| && keys[i] == k;
    }
  }

  lemma ListsPatched(x: Json, y: Json)
    requires x.Arr? && Paired(x, y)
    requires forall i | 0 <= i < |x.items| :: Agree(Patched(x.items[i], ItemDiffs(x, y)[i]), y.items[i])
    ensures Agree(Patched(x, ItemGroups(ItemDiffs(x, y))), y)
  {
    var r := ItemGroupsPatch(x.items, ItemDiffs(x, y));
  }

  lemma LeafPatched(x: Json, y: Json)
    ensures Agree(Patched(x, [Change([], x, y)]), y)
  {
    SameReflexive(y);
    SameAgree(y, y);
    assert Patched(x, []) == x;
  }

  /** Applying the recorded changes to the first tree gives the second, an absent key counting as null. */
  lemma {:induction false} DiffIsPatch(x: Json, y: Json)
    ensures Agree(Patched(x, Diff(x, y)), y)
    decreases Paired(x, y), x
  {
    if Same(x, y) {
      SameAgree(x, y);
    } else if x.Obj? && y.Obj? {
      var keys, gs := UnionKeys(x, y), KeyDiffs(x, y);
      forall i | 0 <= i < |keys| ensures Agree(Patched(Get(x.fields, keys[i]), gs[i]), Get(y.fields, keys[i])) {
        DiffIsPatch(Get(x.fields, keys[i]), Get(y.fields, keys[i]));
      }
      ObjectsPatched(x, y);
    } else if Paired(x, y) {
      forall i | 0 <= i < |x.items| ensures Agree(Patched(x.items[i], ItemDiffs(x, y)[i]), y.items[i]) {
        DiffIsPatch(x.items[i], y.items[i]);
      }
      ListsPatched(x, y);
    } else {
      LeafPatched(x, y);
    }
  }

  // ----- Each change is a real difference, and they do not overlap -----

  /** What a tree holds one step down, null where there is nothing. */
  function Child(x: Json, s: Step): Json {
    match (x, s)
    case (Obj(f), Key(k)) => Get(f, k)
    case (Arr(a), Index(i)) => if i < |a| then a[i] else Null
    case _ => Null
  }

  function At(x: Json, path: seq<Step>): Json
    decreases |path|
  {
    if path == [] then x else At(Child(x, path[0]), path[1..])
  }

  ghost predicate Genuine(x: Json, y: Json, cs: seq<Change>) {
    forall c | c in cs :: c.before == At(x, c.location) && c.after == At(y, c.location) && !Agree(c.before, c.after)
  }

  ghost predicate Apart(cs: seq<Change>) {
    forall i, j | 0 <= i < |cs| && 0 <= j < |cs| && i != j :: !(cs[i].location <= cs[j].location)
  }

  /** Every change below `s` starts with `s`. */
  lemma UnderApart(s: Step, cs: seq<Change>)
    requires Apart(cs)
    ensures Apart(Under(s, cs))
    ensures forall c | c in Under(s, cs) :: c.location != [] && c.location[0] == s
  {
    var r := Under(s, cs);
    forall i, j | 0 <= i < |r| && 0 <= j < |r| && i != j ensures !(r[i].location <= r[j].location) {
      assert r[i].location[1..] == cs[i].location && r[j].location[1..] == cs[j].location;
    }
  }

  lemma ApartConcat(a: seq<Change>, b: seq<Change>, s: Step)
    requires Apart(a) && Apart(b)
    requires forall c | c in a :: c.location != [] && c.location[0] != s
    requires forall c | c in b :: c.location != [] && c.location[0] == s
    ensures Apart(a + b)
  {
    var r := a + b;
    forall i, j | 0 <= i < |r| && 0 <= j < |r| && i != j ensures !(r[i].location <= r[j].location) {
      assert i < |a| ==> r[i] in a;
      assert j < |a| ==> r[j] in a;
      assert i >= |a| ==> r[i] in b;
      assert j >= |a| ==> r[j] in b;
      if i < |a| && j < |a| {
        assert r[i] == a[i] && r[j] == a[j];
      } else if i >= |a| && j >= |a| {
        assert r[i] == b[i - |a|] && r[j] == b[j - |a|];
      }
    }
  }

  lemma {:induction false} KeyGroupsApart(keys: seq<string>, gs: seq<seq<Change>>)
    requires |keys| == |gs| && Distinct(keys) && forall i | 0 <= i < |gs| :: Apart(gs[i])
    ensures Apart(KeyGroups(keys, gs))
    ensures forall c | c in KeyGroups(keys, gs) :: c.location != [] && c.location[0].Key? && c.location[0].key in keys
    decreases |gs|
  {
    if gs != [] {
      var n := |gs| - 1;
      assert keys == keys[..n] + [keys[n]];
      KeyGroupsApart(keys[..n], gs[..n]);
      UnderApart(Key(keys[n]), gs[n]);
      assert keys[n] !in keys[..n];
      ApartConcat(KeyGroups(keys[..n], gs[..n]), Under(Key(keys[n]), gs[n]), Key(keys[n]));
    }
  }

  lemma {:induction false} ItemGroupsApart(gs: seq<seq<Change>>)
    requires forall i | 0 <= i < |gs| :: Apart(gs[i])
    ensures Apart(ItemGroups(gs))
    ensures forall c | c in ItemGroups(gs) :: c.location != [] && c.location[0].Index? && c.location[0].i < |gs|
    decreases |gs|
  {
    if gs != [] {
      var n := |gs| - 1;
      ItemGroupsApart(gs[..n]);
      UnderApart(Index(n), gs[n]);
      ApartConcat(ItemGroups(gs[..n]), Under(Index(n), gs[n]), Index(n));
    }
  }

  lemma ObjectsApart(x: Json, y: Json)
    requires x.Obj? && y.Obj? && forall i | 0 <= i < |KeyDiffs(x, y)| :: Apart(KeyDiffs(x, y)[i])
    ensures Apart(KeyGroups(UnionKeys(x, y), KeyDiffs(x, y)))
  {
    KeyGroupsApart(UnionKeys(x, y), KeyDiffs(x, y));
  }

  lemma ListsApart(x: Json, y: Json)
    requires x.Arr? && Paired(x, y) && forall i | 0 <= i < |x.items| :: Apart(ItemDiffs(x, y)[i])
    ensures Apart(ItemGroups(ItemDiffs(x, y)))
  {
    ItemGroupsApart(ItemDiffs(x, y));
  }

  /** No recorded location is inside another. */
  lemma {:induction false} DiffApart(x: Json, y: Json)
    ensures Apart(Diff(x, y))
    decreases Paired(x, y), x
  {
    if Same(x, y) {
    } else if x.Obj? && y.Obj? {
      var keys, gs := UnionKeys(x, y), KeyDiffs(x, y);
      forall i | 0 <= i < |gs| ensures Apart(gs[i]) {
        DiffApart(Get(x.fields, keys[i]), Get(y.fields, keys[i]));
      }
      ObjectsApart(x, y);
    } else if Paired(x, y) {
      forall i | 0 <= i < |x.items| ensures Apart(ItemDiffs(x, y)[i]) {
        DiffApart(x.items[i], y.items[i]);
      }
      ListsApart(x, y);
    }
  }

  lemma UnderGenuine(x: Json, y: Json, s: Step, cs: seq<Change>)
    requires Genuine(Child(x, s), Child(y, s), cs)
    ensures Genuine(x, y, Under(s, cs))
  {
    forall c | c in Under(s, cs)
      ensures c.before == At(x, c.location) && c.after == At(y, c.location) && !Agree(c.before, c.after)
    {
      var i :| 0 <= i < |cs| && Under(s, cs)[i] == c;
      assert cs[i] in cs && c.location[1..] == cs[i].location && c.location[0] == s;
    }
  }

  lemma {:induction false} KeyGroupsGenuine(x: Json, y: Json, keys: seq<string>, gs: seq<seq<Change>>)
    requires |keys| == |gs| && forall i | 0 <= i < |gs| ::
             Genuine(Child(x, Key(keys[i])), Child(y, Key(keys[i])), gs[i])
    ensures Genuine(x, y, KeyGroups(keys, gs))
    decreases |gs|
  {
    if gs != [] {
      var n := |gs| - 1;
      KeyGroupsGenuine(x, y, keys[..n], gs[..n]);
      UnderGenuine(x, y, Key(keys[n]), gs[n]);
    }
  }

  lemma {:induction false} ItemGroupsGenuine(x: Json, y: Json, gs: seq<seq<Change>>)
    requires forall i | 0 <= i < |gs| :: Genuine(Child(x, Index(i)), Child(y, Index(i)), gs[i])
    ensures Genuine(x, y, ItemGroups(gs))
    decreases |gs|
  {
    if gs != [] {
      var n := |gs| - 1;
      ItemGroupsGenuine(x, y, gs[..n]);
      UnderGenuine(x, y, Index(n), gs[n]);
    }
  }

  lemma ObjectsGenuine(x: Json, y: Json)
    requires x.Obj? && y.Obj?
    requires forall i | 0 <= i < |UnionKeys(x, y)| ::
               Genuine(Get(x.fields, UnionKeys(x, y)[i]), Get(y.fields, UnionKeys(x, y)[i]), KeyDiffs(x, y)[i])
    ensures Genuine(x, y, KeyGroups(UnionKeys(x, y), KeyDiffs(x, y)))
  {
    KeyGroupsGenuine(x, y, UnionKeys(x, y), KeyDiffs(x, y));
  }

  lemma ListsGenuine(x: Json, y: Json)
    requires x.Arr? && Paired(x, y) && forall i | 0 <= i < |x.items| ::
             Genuine(x.items[i], y.items[i], ItemDiffs(x, y)[i])
    ensures Genuine(x, y, ItemGroups(ItemDiffs(x, y)))
  {
    ItemGroupsGenuine(x, y, ItemDiffs(x, y));
  }

  /** Every recorded change quotes both trees at its location, where they disagree. */
  lemma {:induction false} DiffGenuine(x: Json, y: Json)
    ensures Genuine(x, y, Diff(x, y))
    decreases Paired(x, y), x
  {
    if Same(x, y) {
    } else if x.Obj? && y.Obj? {
      var keys, gs := UnionKeys(x, y), KeyDiffs(x, y);
      forall i | 0 <= i < |keys| ensures Genuine(Get(x.fields, keys[i]), Get(y.fields, keys[i]), gs[i]) {
        DiffGenuine(Get(x.fields, keys[i]), Get(y.fields, keys[i]));
      }
      ObjectsGenuine(x, y);
    } else if Paired(x, y) {
      forall i | 0 <= i < |x.items| ensures Genuine(x.items[i], y.items[i], ItemDiffs(x, y)[i]) {
        DiffGenuine(x.items[i], y.items[i]);
      }
      ListsGenuine(x, y);
    }
  }

  // ----- Where two trees differ, path by path -----

  ghost function One(b: bool): real {
    if b then 1.0 else 0.0
  }

  /** Equality as Python has it: a truth value equals the number 1 or 0. */
  ghost predicate Equal(x: Json, y: Json)
    decreases x
  {
    match x
    case Null => y == Null
    case Bool(b) => y == Bool(b) || y == Num(One(b))
    case Num(n) => y == Num(n) || (n == 1.0 && y == Bool(true)) || (n == 0.0 && y == Bool(false))
    case Str(s) => y == Str(s)
    case Arr(a) => y.Arr? && |y.items| == |a| && forall i | 0 <= i < |a| :: Equal(a[i], y.items[i])
    case Obj(f) =>
      && y.Obj? && (forall k | k in y.fields :: k in f)
      && forall k | k in f :: k in y.fields && Equal(f[k], y.fields[k])
  }

  /** What is under a key, null if nothing is. */
  ghost function Field(x: Json, k: string): Json
    requires x.Obj?
  {
    if k in x.fields.Keys then x.fields[k] else Null
  }

  /** A change belongs at `path`: following it through objects by key and through lists of one length by position ends
      at two values that are not equal and are neither two objects nor two lists of one length. */
  ghost predicate Differs(x: Json, y: Json, path: seq<Step>)
    decreases |path|
  {
    if path == [] then !Equal(x, y) && !(x.Obj? && y.Obj?) && !(x.Arr? && y.Arr? && |x.items| == |y.items|)
    else
      match path[0]
      case Key(k) =>
        x.Obj? && y.Obj? && (k in x.fields || k in y.fields) && Differs(Field(x, k), Field(y, k), path[1..])
      case Index(i) =>
        x.Arr? && y.Arr? && i < |x.items| == |y.items| && Differs(x.items[i], y.items[i], path[1..])
  }

  ghost predicate Marks(cs: seq<Change>, path: seq<Step>) {
    exists i | 0 <= i < |cs| :: cs[i].location == path
  }

  /** The first step in which two locations part: keys by their characters, positions by number. */
  ghost predicate StepAhead(a: Step, b: Step) {
    match (a, b)
    case (Key(k), Key(l)) => Strings.Precedes(k, l)
    case (Index(i), Index(j)) => i < j
    case _ => false
  }

  ghost predicate Ahead(p: seq<Step>, q: seq<Step>)
    decreases |p|
  {
    p != [] && q != [] && if p[0] == q[0] then Ahead(p[1..], q[1..]) else StepAhead(p[0], q[0])
  }

  ghost predicate InOrder(cs: seq<Change>) {
    forall i, j | 0 <= i < j < |cs| :: Ahead(cs[i].location, cs[j].location)
  }

  /** `cs` is all the differences of two trees, in order, with both values. */
  ghost predicate Reads(x: Json, y: Json, cs: seq<Change>) {
    (forall path :: Marks(cs, path) <==> Differs(x, y, path)) && InOrder(cs) && Genuine(x, y, cs)
  }

  lemma {:induction false} SameMeans(x: Json, y: Json)
    ensures Same(x, y) <==> Equal(x, y)
    decreases x
  {
    if x.Arr? && y.Arr? && |x.items| == |y.items| {
      forall i | 0 <= i < |x.items| ensures Same(x.items[i], y.items[i]) <==> Equal(x.items[i], y.items[i]) {
        SameMeans(x.items[i], y.items[i]);
      }
    } else if x.Obj? && y.Obj? {
      ObjectsSame(x, y);
      forall k | k in x.fields && k in y.fields
        ensures Same(x.fields[k], y.fields[k]) <==> Equal(x.fields[k], y.fields[k])
      {
        SameMeans(x.fields[k], y.fields[k]);
      }
    }
  }

  lemma ObjectsSame(x: Json, y: Json)
    requires x.Obj? && y.Obj?
    ensures x.fields.Keys == y.fields.Keys
            <==> (forall k | k in y.fields :: k in x.fields) && (forall k | k in x.fields :: k in y.fields)
  {
    assert forall k :: k in x.fields <==> k in x.fields.Keys;
    assert forall k :: k in y.fields <==> k in y.fields.Keys;
  }

  lemma {:induction false} EqualNowhere(x: Json, y: Json, path: seq<Step>)
    requires Equal(x, y)
    ensures !Differs(x, y, path)
    decreases |path|
  {
    if path != [] && Differs(x, y, path) {
      match path[0]
      case Key(k) => EqualNowhere(Field(x, k), Field(y, k), path[1..]);
      case Index(i) => EqualNowhere(x.items[i], y.items[i], path[1..]);
    }
  }

  lemma UnderMarks(s: Step, cs: seq<Change>, path: seq<Step>)
    ensures Marks(Under(s, cs), path) <==> path != [] && path[0] == s && Marks(cs, path[1..])
  {
    var u := Under(s, cs);
    if i :| 0 <= i < |u| && u[i].location == path {
      assert path[1..] == cs[i].location;
    }
    if path != [] && path[0] == s && Marks(cs, path[1..]) {
      var i :| 0 <= i < |cs| && cs[i].location == path[1..];
      assert path == [s] + path[1..];
      assert u[i].location == path;
    }
  }

  lemma ConcatMarks(a: seq<Change>, b: seq<Change>, path: seq<Step>)
    ensures Marks(a + b, path) <==> Marks(a, path) || Marks(b, path)
  {
    if i :| 0 <= i < |a| && a[i].location == path {
      assert (a + b)[i].location == path;
    }
    if i :| 0 <= i < |b| && b[i].location == path {
      assert (a + b)[|a| + i].location == path;
    }
  }

  ghost predicate KeyMarks(keys: seq<string>, gs: seq<seq<Change>>, path: seq<Step>)
    requires |keys| == |gs|
  {
    path != [] && exists i | 0 <= i < |gs| :: path[0] == Key(keys[i]) && Marks(gs[i], path[1..])
  }

  lemma {:induction false} KeyGroupsMark(keys: seq<string>, gs: seq<seq<Change>>, path: seq<Step>)
    requires |keys| == |gs|
    ensures Marks(KeyGroups(keys, gs), path) <==> KeyMarks(keys, gs, path)
    decreases |gs|
  {
    if gs != [] {
      var n := |gs| - 1;
      KeyGroupsMark(keys[..n], gs[..n], path);
      ConcatMarks(KeyGroups(keys[..n], gs[..n]), Under(Key(keys[n]), gs[n]), path);
      UnderMarks(Key(keys[n]), gs[n], path);
      if KeyMarks(keys[..n], gs[..n], path) {
        var i :| 0 <= i < n && path[0] == Key(keys[..n][i]) && Marks(gs[..n][i], path[1..]);
        assert path[0] == Key(keys[i]) && Marks(gs[i], path[1..]);
      }
      if KeyMarks(keys, gs, path) {
        var i :| 0 <= i < |gs| && path[0] == Key(keys[i]) && Marks(gs[i], path[1..]);
        assert i < n ==> path[0] == Key(keys[..n][i]) && Marks(gs[..n][i], path[1..]);
      }
    }
  }

  ghost predicate ItemMarks(gs: seq<seq<Change>>, path: seq<Step>) {
    path != [] && path[0].Index? && path[0].i < |gs| && Marks(gs[path[0].i], path[1..])
  }

  lemma {:induction false} ItemGroupsMark(gs: seq<seq<Change>>, path: seq<Step>)
    ensures Marks(ItemGroups(gs), path) <==> ItemMarks(gs, path)
  {
    if gs != [] {
      var n := |gs| - 1;
      ItemGroupsMark(gs[..n], path);
      ConcatMarks(ItemGroups(gs[..n]), Under(Index(n), gs[n]), path);
      UnderMarks(Index(n), gs[n], path);
    }
  }

  lemma {:induction false} DiffMarks(x: Json, y: Json, path: seq<Step>)
    ensures Marks(Diff(x, y), path) <==> Differs(x, y, path)
    decreases |path|
  {
    SameMeans(x, y);
    if Same(x, y) {
      EqualNowhere(x, y, path);
    } else if x.Obj? && y.Obj? {
      ObjectsMark(x, y, path);
      if path != [] && path[0].Key? {
        DiffMarks(Get(x.fields, path[0].key), Get(y.fields, path[0].key), path[1..]);
      }
    } else if Paired(x, y) {
      ItemGroupsMark(ItemDiffs(x, y), path);
      if path != [] && path[0].Index? && path[0].i < |x.items| {
        DiffMarks(x.items[path[0].i], y.items[path[0].i], path[1..]);
      }
    } else {
      LeafDiff(x, y);
      assert Diff(x, y)[0].location == [];
    }
  }

  lemma ObjectsMark(x: Json, y: Json, path: seq<Step>)
    requires x.Obj? && y.Obj?
    ensures Marks(KeyGroups(UnionKeys(x, y), KeyDiffs(x, y)), path)
            <==> path != [] && path[0].Key? && (path[0].key in x.fields || path[0].key in y.fields)
                 && Marks(Diff(Get(x.fields, path[0].key), Get(y.fields, path[0].key)), path[1..])
  {
    var keys, gs := UnionKeys(x, y), KeyDiffs(x, y);
    KeyGroupsMark(keys, gs, path);
    if path != [] && path[0].Key? && path[0].key in keys {
      var i :| 0 <= i < |keys| && keys[i] == path[0].key;
      assert path[0] == Key(keys[i]);
    }
    assert forall i | 0 <= i < |keys| :: keys[i] in keys;
  }

  lemma UnderOrdered(s: Step, cs: seq<Change>)
    requires InOrder(cs)
    ensures InOrder(Under(s, cs))
  {
    var u := Under(s, cs);
    forall i, j | 0 <= i < j < |u| ensures Ahead(u[i].location, u[j].location) {
      assert u[i].location[1..] == cs[i].location && u[j].location[1..] == cs[j].location;
    }
  }

  /** Everything in `a` starts with a step before `s`. */
  ghost predicate StartsAhead(a: seq<Change>, s: Step) {
    forall i | 0 <= i < |a| :: a[i].location != [] && a[i].location[0] != s && StepAhead(a[i].location[0], s)
  }

  lemma ConcatOrdered(a: seq<Change>, s: Step, b: seq<Change>)
    requires InOrder(a) && InOrder(b) && StartsAhead(a, s)
    ensures InOrder(a + Under(s, b))
  {
    UnderOrdered(s, b);
    var u := Under(s, b);
    var r := a + u;
    forall i, j | 0 <= i < j < |r| ensures Ahead(r[i].location, r[j].location) {
      if i < |a| <= j {
        assert r[i] == a[i] && r[j] == u[j - |a|] && u[j - |a|].location[0] == s;
      } else if |a| <= i {
        assert r[i] == u[i - |a|] && r[j] == u[j - |a|];
      }
    }
  }

  lemma KeyGroupsStart(keys: seq<string>, gs: seq<seq<Change>>, n: nat)
    requires |keys| == |gs| && n < |keys| && Distinct(keys) && SortedBy(Strings.Order(), keys)
    ensures StartsAhead(KeyGroups(keys[..n], gs[..n]), Key(keys[n]))
  {
    var a := KeyGroups(keys[..n], gs[..n]);
    forall k | 0 <= k < |a|
      ensures a[k].location != [] && a[k].location[0] != Key(keys[n]) && StepAhead(a[k].location[0], Key(keys[n]))
    {
      assert Marks(a, a[k].location);
      KeyGroupsMark(keys[..n], gs[..n], a[k].location);
      var i :| 0 <= i < n && a[k].location[0] == Key(keys[..n][i]);
      assert Strings.Order()(keys[i], keys[n]) && keys[i] != keys[n];
      Strings.LeqPrecedes(keys[i], keys[n]);
    }
  }

  lemma {:induction false} KeyGroupsOrdered(keys: seq<string>, gs: seq<seq<Change>>, n: nat)
    requires |keys| == |gs| && n <= |keys| && Distinct(keys) && SortedBy(Strings.Order(), keys)
    requires forall i | 0 <= i < |gs| :: InOrder(gs[i])
    ensures InOrder(KeyGroups(keys[..n], gs[..n]))
    decreases n
  {
    if n > 0 {
      KeyGroupsOrdered(keys, gs, n - 1);
      KeyGroupsStart(keys, gs, n - 1);
      assert keys[..n][..n - 1] == keys[..n - 1] && gs[..n][..n - 1] == gs[..n - 1];
      ConcatOrdered(KeyGroups(keys[..n - 1], gs[..n - 1]), Key(keys[n - 1]), gs[n - 1]);
    }
  }

  lemma ItemGroupsStart(gs: seq<seq<Change>>, n: nat)
    requires n <= |gs|
    ensures StartsAhead(ItemGroups(gs[..n]), Index(n))
  {
    var a := ItemGroups(gs[..n]);
    forall k | 0 <= k < |a|
      ensures a[k].location != [] && a[k].location[0] != Index(n) && StepAhead(a[k].location[0], Index(n))
    {
      assert Marks(a, a[k].location);
      ItemGroupsMark(gs[..n], a[k].location);
    }
  }

  lemma {:induction false} ItemGroupsOrdered(gs: seq<seq<Change>>, n: nat)
    requires n <= |gs| && forall i | 0 <= i < |gs| :: InOrder(gs[i])
    ensures InOrder(ItemGroups(gs[..n]))
    decreases n
  {
    if n > 0 {
      ItemGroupsOrdered(gs, n - 1);
      ItemGroupsStart(gs, n - 1);
      assert gs[..n][..n - 1] == gs[..n - 1];
      ConcatOrdered(ItemGroups(gs[..n - 1]), Index(n - 1), gs[n - 1]);
    }
  }

  lemma {:induction false} DiffOrdered(x: Json, y: Json)
    ensures InOrder(Diff(x, y))
    decreases Paired(x, y), x
  {
    if Same(x, y) {
    } else if x.Obj? && y.Obj? {
      var keys, gs := UnionKeys(x, y), KeyDiffs(x, y);
      forall i | 0 <= i < |gs| ensures InOrder(gs[i]) {
        DiffOrdered(Get(x.fields, keys[i]), Get(y.fields, keys[i]));
      }
      ObjectsOrdered(x, y);
    } else if Paired(x, y) {
      forall i | 0 <= i < |x.items| ensures InOrder(ItemDiffs(x, y)[i]) {
        DiffOrdered(x.items[i], y.items[i]);
      }
      ListsOrdered(x, y);
    }
  }

  lemma ListsOrdered(x: Json, y: Json)
    requires x.Arr? && Paired(x, y) && forall i | 0 <= i < |x.items| :: InOrder(ItemDiffs(x, y)[i])
    ensures InOrder(ItemGroups(ItemDiffs(x, y)))
  {
    var gs := ItemDiffs(x, y);
    ItemGroupsOrdered(gs, |gs|);
    assert gs[..|gs|] == gs;
  }

  lemma ObjectsOrdered(x: Json, y: Json)
    requires x.Obj? && y.Obj? && forall i | 0 <= i < |KeyDiffs(x, y)| :: InOrder(KeyDiffs(x, y)[i])
    ensures InOrder(KeyGroups(UnionKeys(x, y), KeyDiffs(x, y)))
  {
    var keys, gs := UnionKeys(x, y), KeyDiffs(x, y);
    KeyGroupsOrdered(keys, gs, |keys|);
    assert keys[..|keys|] == keys && gs[..|gs|] == gs;
  }

  /** What is recorded is every difference, once, in order of its location. */
  lemma DiffReads(x: Json, y: Json)
    ensures Reads(x, y, Diff(x, y))
  {
    forall path ensures Marks(Diff(x, y), path) <==> Differs(x, y, path) {
      DiffMarks(x, y, path);
    }
    DiffOrdered(x, y);
    DiffGenuine(x, y);
  }

  /** `path` is where the comparison of two trees ends: under the last key or item, and so on, until there is nothing
      more to descend into or nothing differs. */
  ghost predicate Ends(x: Json, y: Json, path: seq<Step>)
    decreases |path|
  {
    if Equal(x, y) || !((x.Obj? && y.Obj?) || (x.Arr? && y.Arr? && |x.items| == |y.items|)) then path == []
    else
      && path != []
      && match path[0]
         case Key(k) =>
           && x.Obj? && y.Obj? && (k in x.fields || k in y.fields)
           && (forall l | l in x.fields || l in y.fields :: l == k || Strings.Precedes(l, k))
           && Ends(Field(x, k), Field(y, k), path[1..])
         case Index(i) =>
           x.Arr? && y.Arr? && i + 1 == |x.items| == |y.items| && Ends(x.items[i], y.items[i], path[1..])
  }

  /** The last pair of values a comparison visits differs. */
  ghost predicate EndDiffers(x: Json, y: Json) {
    exists path :: Ends(x, y, path) && Differs(x, y, path)
  }

  lemma {:induction false} LastMeans(x: Json, y: Json) returns (path: seq<Step>)
    ensures Ends(x, y, path) && (Differs(x, y, path) <==> LastDiffers(x, y))
    decreases Paired(x, y), x
  {
    SameMeans(x, y);
    path := [];
    if !Same(x, y) && Paired(x, y) {
      DifferentNotEmpty(x, y);
      if x.Obj? {
        var keys := UnionKeys(x, y);
        var k := keys[|keys| - 1];
        var rest := LastMeans(Get(x.fields, k), Get(y.fields, k));
        path := [Key(k)] + rest;
        GreatestKey(x, y, k);
        LastOfKeys(x, y);
        assert path[1..] == rest;
      } else {
        var n := |x.items| - 1;
        var rest := LastMeans(x.items[n], y.items[n]);
        path := [Index(n)] + rest;
        LastOfItems(x, y);
        assert path[1..] == rest;
      }
    }
  }

  lemma GreatestKey(x: Json, y: Json, k: string)
    requires x.Obj? && y.Obj? && UnionKeys(x, y) != [] && k == UnionKeys(x, y)[|UnionKeys(x, y)| - 1]
    ensures k in x.fields || k in y.fields
    ensures forall l | l in x.fields || l in y.fields :: l == k || Strings.Precedes(l, k)
  {
    var keys := UnionKeys(x, y);
    assert k in keys;
    forall l | l in x.fields || l in y.fields ensures l == k || Strings.Precedes(l, k) {
      var i :| 0 <= i < |keys| && keys[i] == l;
      if i < |keys| - 1 {
        assert Strings.Order()(keys[i], keys[|keys| - 1]) && keys[i] != keys[|keys| - 1];
        Strings.LeqPrecedes(l, k);
      }
    }
  }

  lemma {:induction false} OneEnd(x: Json, y: Json, p: seq<Step>, q: seq<Step>)
    requires Ends(x, y, p) && Ends(x, y, q)
    ensures p == q
    decreases |p|
  {
    if p != [] {
      assert p == [p[0]] + p[1..] && q == [q[0]] + q[1..];
      match p[0]
      case Key(k) =>
        if q[0] != p[0] {
          Strings.PrecedesOneWay(k, q[0].key);
        }
        OneEnd(Field(x, k), Field(y, k), p[1..], q[1..]);
      case Index(i) => OneEnd(x.items[i], y.items[i], p[1..], q[1..]);
    }
  }

  /** Two hundred changes are too many unless the last pair visited is the two hundredth. */
  ghost predicate TooMany(x: Json, y: Json) {
    exists cs :: Reads(x, y, cs) && (|cs| > 200 || (|cs| == 200 && !EndDiffers(x, y)))
  }

  lemma {:induction false} AheadOneWay(p: seq<Step>, q: seq<Step>)
    requires Ahead(p, q)
    ensures !Ahead(q, p) && p != q
    decreases |p|
  {
    if p[0] == q[0] {
      AheadOneWay(p[1..], q[1..]);
    } else if p[0].Key? {
      Strings.PrecedesOneWay(p[0].key, q[0].key);
    }
  }

  ghost predicate LocationsOf(cs: seq<Change>, all: set<seq<Step>>) {
    forall path :: path in all <==> Marks(cs, path)
  }

  /** A list in order has as many changes as locations. */
  lemma {:induction false} OrderedCount(cs: seq<Change>, all: set<seq<Step>>)
    requires InOrder(cs) && LocationsOf(cs, all)
    ensures |all| == |cs|
    decreases |cs|
  {
    if cs == [] {
      assert all == {};
    } else {
      var n := |cs| - 1;
      var last := cs[n].location;
      assert Marks(cs, last);
      forall path ensures path in all - {last} <==> Marks(cs[..n], path) {
        if i :| 0 <= i < n && cs[..n][i].location == path {
          assert cs[i].location == path;
          AheadOneWay(cs[i].location, last);
        }
        if path != last && Marks(cs, path) {
          var i :| 0 <= i < |cs| && cs[i].location == path;
          assert cs[..n][i].location == path;
        }
      }
      OrderedCount(cs[..n], all - {last});
    }
  }

  /** The differences of two trees are so many. */
  lemma ReadsCount(x: Json, y: Json, cs: seq<Change>, ds: seq<Change>)
    requires Reads(x, y, cs) && Reads(x, y, ds)
    ensures |cs| == |ds|
  {
    var all := set i | 0 <= i < |cs| :: cs[i].location;
    OrderedCount(cs, all);
    assert LocationsOf(ds, all) by {
      forall path ensures path in all <==> Marks(ds, path) {
        assert Marks(cs, path) <==> Marks(ds, path);
      }
    }
    OrderedCount(ds, all);
  }

  /** The limit is exceeded exactly when there are too many differences. */
  lemma LimitMeans(x: Json, y: Json)
    ensures BeforeLast(x, y) >= LIMIT <==> TooMany(x, y)
  {
    DiffReads(x, y);
    var path := LastMeans(x, y);
    if EndDiffers(x, y) {
      var other :| Ends(x, y, other) && Differs(x, y, other);
      OneEnd(x, y, path, other);
    }
    if TooMany(x, y) {
      var cs :| Reads(x, y, cs) && (|cs| > 200 || (|cs| == 200 && !EndDiffers(x, y)));
      ReadsCount(x, y, cs, Diff(x, y));
    }
  }

  // ----- The comparison as it runs -----

  const LIMIT := 200

  /** The changes at their place in the whole tree. */
  function Located(location: seq<Step>, cs: seq<Change>): (r: seq<Change>)
    ensures |r| == |cs|
    ensures forall i :: 0 <= i < |r| ==> r[i] == Change(location + cs[i].location, cs[i].before, cs[i].after)
  {
    if cs == [] then []
    else Located(location, cs[..|cs| - 1])
         + [Change(location + cs[|cs| - 1].location, cs[|cs| - 1].before, cs[|cs| - 1].after)]
  }

  lemma {:induction false} LocatedUnder(location: seq<Step>, s: Step, cs: seq<Change>)
    ensures Located(location + [s], cs) == Located(location, Under(s, cs))
  {
    if cs != [] {
      LocatedUnder(location, s, cs[..|cs| - 1]);
      UnderFront(s, cs);
      assert location + [s] + cs[|cs| - 1].location == location + ([s] + cs[|cs| - 1].location);
    }
  }

  lemma {:induction false} LocatedConcat(location: seq<Step>, a: seq<Change>, b: seq<Change>)
    ensures Located(location, a + b) == Located(location, a) + Located(location, b)
  {
    if b == [] {
      assert a + b == a;
    } else {
      assert (a + b)[..|a + b| - 1] == a + b[..|b| - 1];
      LocatedConcat(location, a, b[..|b| - 1]);
    }
  }

  /** The last pair of values a comparison visits is itself recorded. */
  predicate LastDiffers(x: Json, y: Json)
    decreases Paired(x, y), x
  {
    if Same(x, y) then false
    else if x.Obj? && y.Obj? then
      var keys := UnionKeys(x, y);
      keys != [] && LastDiffers(Get(x.fields, keys[|keys| - 1]), Get(y.fields, keys[|keys| - 1]))
    else if Paired(x, y) then x.items != [] && LastDiffers(x.items[|x.items| - 1], y.items[|x.items| - 1])
    else true
  }

  function Bit(b: bool): nat {
    if b then 1 else 0
  }

  /** How many changes have been recorded when the last pair is visited. */
  function BeforeLast(x: Json, y: Json): int {
    |Diff(x, y)| - Bit(LastDiffers(x, y))
  }

  lemma NoKeysSame(x: Json, y: Json)
    requires x.Obj? && y.Obj? && UnionKeys(x, y) == []
    ensures Same(x, y)
  {
    assert forall k :: k in x.fields || k in y.fields ==> k in UnionKeys(x, y);
    assert x.fields.Keys == y.fields.Keys;
  }

  lemma DifferentNotEmpty(x: Json, y: Json)
    requires Paired(x, y) && !Same(x, y)
    ensures x.Obj? ==> UnionKeys(x, y) != []
    ensures x.Arr? ==> x.items != []
  {
    if x.Obj? && UnionKeys(x, y) == [] {
      NoKeysSame(x, y);
    }
  }

  lemma LastKeyGroup(keys: seq<string>, gs: seq<seq<Change>>)
    requires |keys| == |gs| && gs != []
    ensures |KeyGroups(keys, gs)| >= |gs[|gs| - 1]|
  {
  }

  lemma LastItemGroup(gs: seq<seq<Change>>)
    requires gs != []
    ensures |ItemGroups(gs)| >= |gs[|gs| - 1]|
  {
  }

  lemma {:induction false} LastRecorded(x: Json, y: Json)
    ensures LastDiffers(x, y) ==> |Diff(x, y)| >= 1
    decreases Paired(x, y), x
  {
    if Same(x, y) {
    } else if x.Obj? && y.Obj? {
      var keys, gs := UnionKeys(x, y), KeyDiffs(x, y);
      if keys != [] {
        LastRecorded(Get(x.fields, keys[|keys| - 1]), Get(y.fields, keys[|keys| - 1]));
        LastKeyGroup(keys, gs);
      }
    } else if Paired(x, y) {
      if x.items != [] {
        LastRecorded(x.items[|x.items| - 1], y.items[|x.items| - 1]);
        LastItemGroup(ItemDiffs(x, y));
      }
    }
  }

  lemma SameDiff(x: Json, y: Json)
    requires Same(x, y)
    ensures Diff(x, y) == [] && BeforeLast(x, y) == 0
  {
  }

  lemma LeafDiff(x: Json, y: Json)
    requires !Same(x, y) && !Paired(x, y)
    ensures Diff(x, y) == [Change([], x, y)] && BeforeLast(x, y) == 0
  {
  }

  lemma LastOfKeys(x: Json, y: Json)
    requires x.Obj? && y.Obj? && !Same(x, y) && UnionKeys(x, y) != []
    ensures var keys := UnionKeys(x, y);
            LastDiffers(x, y) == LastDiffers(Get(x.fields, keys[|keys| - 1]), Get(y.fields, keys[|keys| - 1]))
  {
  }

  lemma LastOfItems(x: Json, y: Json)
    requires x.Arr? && Paired(x, y) && !Same(x, y) && x.items != []
    ensures LastDiffers(x, y) == LastDiffers(x.items[|x.items| - 1], y.items[|x.items| - 1])
  {
  }

  /** What is recorded of two objects, and before their last key's last pair. */
  lemma ObjectDiff(x: Json, y: Json)
    requires x.Obj? && y.Obj? && !Same(x, y)
    ensures var keys, gs := UnionKeys(x, y), KeyDiffs(x, y);
            && keys != [] && Diff(x, y) == KeyGroups(keys, gs)
            && var late := LastDiffers(Get(x.fields, keys[|keys| - 1]), Get(y.fields, keys[|keys| - 1]));
               BeforeLast(x, y) == |KeyGroups(keys, gs)| - Bit(late) && (late ==> |gs[|gs| - 1]| >= 1)
  {
    DifferentNotEmpty(x, y);
    LastOfKeys(x, y);
    var keys := UnionKeys(x, y);
    LastRecorded(Get(x.fields, keys[|keys| - 1]), Get(y.fields, keys[|keys| - 1]));
  }

  lemma ListDiff(x: Json, y: Json)
    requires x.Arr? && Paired(x, y) && !Same(x, y)
    ensures var gs := ItemDiffs(x, y);
            && x.items != [] && Diff(x, y) == ItemGroups(gs)
            && var late := LastDiffers(x.items[|x.items| - 1], y.items[|x.items| - 1]);
               BeforeLast(x, y) == |ItemGroups(gs)| - Bit(late) && (late ==> |gs[|gs| - 1]| >= 1)
  {
    DifferentNotEmpty(x, y);
    LastOfItems(x, y);
    LastRecorded(x.items[|x.items| - 1], y.items[|x.items| - 1]);
  }

  lemma LeafLocated(x: Json, y: Json, location: seq<Step>)
    ensures Located(location, [Change([], x, y)]) == [Change(location, x, y)]
  {
    assert location + [] == location;
  }

  lemma NotNegative(x: Json, y: Json)
    ensures BeforeLast(x, y) >= 0
  {
    LastRecorded(x, y);
  }

  class Comparison {
    var changes: seq<Change>

    constructor ()
      ensures changes == []
    {
      changes := [];
    }

    /** `visit`: `ok` is false when it raised the change limit, which it does exactly when 200 changes have been
        recorded before its last pair is visited. */
    method Visit(x: Json, y: Json, location: seq<Step>) returns (ok: bool)
      requires |changes| <= LIMIT
      modifies this
      ensures ok <==> |old(changes)| + BeforeLast(x, y) < LIMIT
      ensures ok ==> changes == old(changes) + Located(location, Diff(x, y)) && |changes| <= LIMIT
      decreases Paired(x, y), x, 3
    {
      NotNegative(x, y);
      if |changes| >= LIMIT {
        return false;
      }
      if Same(x, y) {
        SameDiff(x, y);
        return true;
      }
      if x.Obj? && y.Obj? {
        ok := VisitObjects(x, y, location);
      } else if Paired(x, y) {
        ok := VisitLists(x, y, location);
      } else {
        LeafDiff(x, y);
        LeafLocated(x, y, location);
        changes := changes + [Change(location, x, y)];
        ok := true;
      }
    }

    method VisitObjects(x: Json, y: Json, location: seq<Step>) returns (ok: bool)
      requires |changes| < LIMIT && x.Obj? && y.Obj? && !Same(x, y)
      modifies this
      ensures ok <==> |old(changes)| + BeforeLast(x, y) < LIMIT
      ensures ok ==> changes == old(changes) + Located(location, Diff(x, y)) && |changes| <= LIMIT
      decreases Paired(x, y), x, 2
    {
      ObjectDiff(x, y);
      var keys := UnionKeys(x, y);
      ok := VisitKeys(x, y, location, keys, KeyDiffs(x, y),
                      LastDiffers(Get(x.fields, keys[|keys| - 1]), Get(y.fields, keys[|keys| - 1])));
    }

    method VisitLists(x: Json, y: Json, location: seq<Step>) returns (ok: bool)
      requires |changes| < LIMIT && x.Arr? && Paired(x, y) && !Same(x, y)
      modifies this
      ensures ok <==> |old(changes)| + BeforeLast(x, y) < LIMIT
      ensures ok ==> changes == old(changes) + Located(location, Diff(x, y)) && |changes| <= LIMIT
      decreases Paired(x, y), x, 2
    {
      ListDiff(x, y);
      ok := VisitItems(x, y, location, ItemDiffs(x, y), LastDiffers(x.items[|x.items| - 1], y.items[|x.items| - 1]));
    }

    /** The values of two objects under each of some keys. */
    method VisitKeys(x: Json, y: Json, location: seq<Step>, keys: seq<string>, ghost gs: seq<seq<Change>>,
                     ghost late: bool) returns (ok: bool)
      requires x.Obj? && y.Obj? && |changes| < LIMIT && |gs| == |keys| && keys != []
      requires forall i | 0 <= i < |keys| :: gs[i] == Diff(Get(x.fields, keys[i]), Get(y.fields, keys[i]))
      requires late == LastDiffers(Get(x.fields, keys[|keys| - 1]), Get(y.fields, keys[|keys| - 1]))
      requires late ==> |gs[|gs| - 1]| >= 1
      modifies this
      ensures ok <==> |old(changes)| + |KeyGroups(keys, gs)| - Bit(late) < LIMIT
      ensures ok ==> changes == old(changes) + Located(location, KeyGroups(keys, gs)) && |changes| <= LIMIT
      decreases Paired(x, y), x, 1
    {
      ok := true;
      for n := 0 to |keys|
        invariant ok && changes == old(changes) + Located(location, KeyGroups(keys[..n], gs[..n])) && |changes| <= LIMIT
        invariant n == |keys| ==> |changes| - Bit(late) < LIMIT
      {
        ok := VisitKey(x, y, location, keys, gs, late, n, old(changes));
        if !ok {
          return;
        }
      }
      assert keys[..|keys|] == keys && gs[..|gs|] == gs;
    }

    /** The values under one key; `start` is what was recorded before the first of them. */
    method VisitKey(x: Json, y: Json, location: seq<Step>, keys: seq<string>, ghost gs: seq<seq<Change>>,
                    ghost late: bool, n: nat, ghost start: seq<Change>) returns (ok: bool)
      requires x.Obj? && y.Obj? && |gs| == |keys| && n < |keys|
      requires gs[n] == Diff(Get(x.fields, keys[n]), Get(y.fields, keys[n]))
      requires n == |keys| - 1 ==> late == LastDiffers(Get(x.fields, keys[n]), Get(y.fields, keys[n]))
      requires late ==> |gs[|gs| - 1]| >= 1
      requires changes == start + Located(location, KeyGroups(keys[..n], gs[..n])) && |changes| <= LIMIT
      modifies this
      ensures !ok ==> |start| + |KeyGroups(keys, gs)| - Bit(late) >= LIMIT
      ensures ok ==> changes == start + Located(location, KeyGroups(keys[..n + 1], gs[..n + 1])) && |changes| <= LIMIT
      ensures ok && n == |keys| - 1 ==> |changes| - Bit(late) < LIMIT
      decreases Paired(x, y), x, 0
    {
      KeyStep(start, keys, gs, n, location);
      ok := Visit(Get(x.fields, keys[n]), Get(y.fields, keys[n]), location + [Key(keys[n])]);
    }

    method VisitItems(x: Json, y: Json, location: seq<Step>, ghost gs: seq<seq<Change>>,
                      ghost late: bool) returns (ok: bool)
      requires x.Arr? && Paired(x, y) && |changes| < LIMIT && |gs| == |x.items| && x.items != []
      requires forall i | 0 <= i < |gs| :: gs[i] == Diff(x.items[i], y.items[i])
      requires late == LastDiffers(x.items[|x.items| - 1], y.items[|x.items| - 1])
      requires late ==> |gs[|gs| - 1]| >= 1
      modifies this
      ensures ok <==> |old(changes)| + |ItemGroups(gs)| - Bit(late) < LIMIT
      ensures ok ==> changes == old(changes) + Located(location, ItemGroups(gs)) && |changes| <= LIMIT
      decreases Paired(x, y), x, 1
    {
      ok := true;
      for n := 0 to |x.items|
        invariant ok && changes == old(changes) + Located(location, ItemGroups(gs[..n])) && |changes| <= LIMIT
        invariant n == |x.items| ==> |changes| - Bit(late) < LIMIT
      {
        ItemStep(old(changes), gs, n, location);
        ok := Visit(x.items[n], y.items[n], location + [Index(n)]);
        if !ok {
          return;
        }
      }
      assert gs[..|gs|] == gs;
    }
  }

  lemma Associative(a: seq<Change>, b: seq<Change>, c: seq<Change>)
    ensures a + b + c == a + (b + c)
  {
  }

  lemma KeyGroupsNext(keys: seq<string>, gs: seq<seq<Change>>, n: nat, location: seq<Step>)
    requires |keys| == |gs| && n < |gs|
    ensures Located(location, KeyGroups(keys[..n + 1], gs[..n + 1]))
            == Located(location, KeyGroups(keys[..n], gs[..n])) + Located(location + [Key(keys[n])], gs[n])
    ensures |KeyGroups(keys[..n + 1], gs[..n + 1])| == |KeyGroups(keys[..n], gs[..n])| + |gs[n]|
  {
    assert keys[..n + 1][..n] == keys[..n] && gs[..n + 1][..n] == gs[..n];
    LocatedConcat(location, KeyGroups(keys[..n], gs[..n]), Under(Key(keys[n]), gs[n]));
    LocatedUnder(location, Key(keys[n]), gs[n]);
  }

  lemma ItemGroupsNext(gs: seq<seq<Change>>, n: nat, location: seq<Step>)
    requires n < |gs|
    ensures Located(location, ItemGroups(gs[..n + 1])) == Located(location, ItemGroups(gs[..n]))
            + Located(location + [Index(n)], gs[n])
    ensures |ItemGroups(gs[..n + 1])| == |ItemGroups(gs[..n])| + |gs[n]|
  {
    assert gs[..n + 1][..n] == gs[..n];
    LocatedConcat(location, ItemGroups(gs[..n]), Under(Index(n), gs[n]));
    LocatedUnder(location, Index(n), gs[n]);
  }

  /** What visiting the next key leaves to be found. */
  lemma KeyRest(keys: seq<string>, gs: seq<seq<Change>>, n: nat)
    requires |keys| == |gs| && n < |gs|
    ensures |KeyGroups(keys[..n + 1], gs[..n + 1])| + (if n < |gs| - 1 then |gs[|gs| - 1]|
                                                       else 0) <= |KeyGroups(keys, gs)|
    ensures n == |gs| - 1 ==> keys[..n + 1] == keys && gs[..n + 1] == gs
  {
    if n < |gs| - 1 {
      KeyGroupsGrow(keys[..|gs| - 1], gs[..|gs| - 1], n + 1);
      assert keys[..|gs| - 1][..n + 1] == keys[..n + 1] && gs[..|gs| - 1][..n + 1] == gs[..n + 1];
    } else {
      assert keys[..n + 1] == keys && gs[..n + 1] == gs;
    }
  }

  /** What visiting the next key adds, and leaves to be found. */
  lemma KeyStep(start: seq<Change>, keys: seq<string>, gs: seq<seq<Change>>, n: nat, location: seq<Step>)
    requires |keys| == |gs| && n < |gs|
    ensures var so := start + Located(location, KeyGroups(keys[..n], gs[..n]));
            && so + Located(location + [Key(keys[n])], gs[n])
              == start + Located(location, KeyGroups(keys[..n + 1], gs[..n + 1]))
            && |so| + |gs[n]| + (if n < |gs| - 1 then |gs[|gs| - 1]| else 0) <= |start| + |KeyGroups(keys, gs)|
            && (n == |gs| - 1 ==> |so| + |gs[n]| == |start| + |KeyGroups(keys, gs)|)
  {
    KeyGroupsNext(keys, gs, n, location);
    KeyRest(keys, gs, n);
    Associative(start, Located(location, KeyGroups(keys[..n], gs[..n])), Located(location + [Key(keys[n])], gs[n]));
  }

  lemma ItemStep(start: seq<Change>, gs: seq<seq<Change>>, n: nat, location: seq<Step>)
    requires n < |gs|
    ensures var so := start + Located(location, ItemGroups(gs[..n]));
            && so + Located(location + [Index(n)], gs[n]) == start + Located(location, ItemGroups(gs[..n + 1]))
            && |so| + |gs[n]| + (if n < |gs| - 1 then |gs[|gs| - 1]| else 0) <= |start| + |ItemGroups(gs)|
            && (n == |gs| - 1 ==> |so| + |gs[n]| == |start| + |ItemGroups(gs)|)
  {
    ItemGroupsNext(gs, n, location);
    if n < |gs| - 1 {
      ItemGroupsGrow(gs[..|gs| - 1], n + 1);
      assert gs[..|gs| - 1][..n + 1] == gs[..n + 1];
    } else {
      assert gs[..n + 1] == gs;
    }
    Associative(start, Located(location, ItemGroups(gs[..n])), Located(location + [Index(n)], gs[n]));
  }

  lemma {:induction false} KeyGroupsGrow(keys: seq<string>, gs: seq<seq<Change>>, n: nat)
    requires |keys| == |gs| && n <= |gs|
    ensures |KeyGroups(keys[..n], gs[..n])| <= |KeyGroups(keys, gs)|
    decreases |gs|
  {
    if n == |gs| {
      assert keys[..n] == keys && gs[..n] == gs;
    } else {
      KeyGroupsGrow(keys[..|gs| - 1], gs[..|gs| - 1], n);
      assert keys[..|gs| - 1][..n] == keys[..n] && gs[..|gs| - 1][..n] == gs[..n];
    }
  }

  lemma {:induction false} ItemGroupsGrow(gs: seq<seq<Change>>, n: nat)
    requires n <= |gs|
    ensures |ItemGroups(gs[..n])| <= |ItemGroups(gs)|
    decreases |gs|
  {
    if n == |gs| {
      assert gs[..n] == gs;
    } else {
      ItemGroupsGrow(gs[..|gs| - 1], n);
      assert gs[..|gs| - 1][..n] == gs[..n];
    }
  }

  datatype Record = Record(isAnalysis: bool, analyzer: string, result: Json)

  datatype CompareError = AnalysisRecordsRequired | DifferentAnalyzers | ChangeLimit

  datatype Comparing = Compared(changes: seq<Change>) | Refused(error: CompareError)

  /** `compare`: no change exactly when the results agree; otherwise a patch of at most 200 genuine changes that do
      not overlap. It refuses for too many changes exactly when 200 are recorded before the last pair is visited. */
  method Compare(before: Record, after: Record) returns (r: Comparing)
    ensures r == Refused(AnalysisRecordsRequired) <==> !before.isAnalysis || !after.isAnalysis
    ensures r == Refused(DifferentAnalyzers)
            <==> before.isAnalysis && after.isAnalysis && before.analyzer != after.analyzer
    ensures r == Refused(ChangeLimit) <==> before.isAnalysis && after.isAnalysis && before.analyzer == after.analyzer
                                           && BeforeLast(before.result, after.result) >= LIMIT
    ensures r.Compared? ==> r.changes == Diff(before.result, after.result) && |r.changes| <= LIMIT
    ensures r.Compared? ==> (r.changes == [] <==> Agree(before.result, after.result))
    ensures r.Compared? ==> Agree(Patched(before.result, r.changes), after.result)
    ensures r.Compared? ==> Apart(r.changes) && Reads(before.result, after.result, r.changes)
    ensures before.isAnalysis && after.isAnalysis && before.analyzer == after.analyzer ==>
              (r == Refused(ChangeLimit) <==> TooMany(before.result, after.result))
  {
    LimitMeans(before.result, after.result);
    DiffReads(before.result, after.result);
    if !before.isAnalysis || !after.isAnalysis {
      return Refused(AnalysisRecordsRequired);
    }
    if before.analyzer != after.analyzer {
      return Refused(DifferentAnalyzers);
    }
    var comparison := new Comparison();
    var ok := comparison.Visit(before.result, after.result, []);
    if !ok {
      return Refused(ChangeLimit);
    }
    DiffMeans(before.result, after.result);
    LocatedHere(Diff(before.result, after.result));
    r := Compared(comparison.changes);
  }

  /** What a comparison records: nothing exactly when the trees agree, and otherwise a patch of genuine changes that do
      not overlap. */
  lemma DiffMeans(x: Json, y: Json)
    ensures Diff(x, y) == [] <==> Agree(x, y)
    ensures Agree(Patched(x, Diff(x, y)), y)
    ensures Apart(Diff(x, y)) && Genuine(x, y, Diff(x, y))
  {
    DiffEmptyIffAgree(x, y);
    DiffIsPatch(x, y);
    DiffApart(x, y);
    DiffGenuine(x, y);
  }

  lemma LocatedHere(cs: seq<Change>)
    ensures Located([], cs) == cs
  {
    assert forall i | 0 <= i < |cs| :: [] + cs[i].location == cs[i].location;
  }

  // ----- Two hundred changes -----

  /** Groups of one change each, up to `n`, and of none from there on. */
  lemma {:induction false} SingleGroups(gs: seq<seq<Change>>, n: nat)
    requires n <= |gs|
    requires forall i | 0 <= i < |gs| :: |gs[i]| == if i < n then 1 else 0
    ensures |ItemGroups(gs)| == n
    decreases |gs|
  {
    if gs != [] {
      var k := |gs| - 1;
      assert forall i | 0 <= i < k :: gs[..k][i] == gs[i];
      SingleGroups(gs[..k], if n <= k then n else k);
    }
  }

  /** Lists of numbers that differ in their first `n` items and no others. */
  ghost predicate DifferFirst(a: seq<Json>, b: seq<Json>, n: nat) {
    && |a| == |b| && n <= |a| && (forall i | 0 <= i < |a| :: a[i].Num? && b[i].Num?)
    && (forall i | 0 <= i < |a| :: a[i].n != b[i].n <==> i < n)
  }

  lemma DifferingLists(a: seq<Json>, b: seq<Json>, n: nat)
    requires DifferFirst(a, b, n) && n > 0
    ensures |Diff(Arr(a), Arr(b))| == n && (LastDiffers(Arr(a), Arr(b)) <==> n == |a|)
  {
    var x, y := Arr(a), Arr(b);
    assert !Same(a[0], b[0]);
    var gs := ItemDiffs(x, y);
    forall i | 0 <= i < |gs| ensures |gs[i]| == if i < n then 1 else 0 {
      assert Same(a[i], b[i]) <==> i >= n;
    }
    SingleGroups(gs, n);
  }

  function Repeated(n: nat, v: real): (r: seq<Json>)
    ensures |r| == n && forall i :: 0 <= i < n ==> r[i] == Num(v)
  {
    seq(n, _ => Num(v))
  }

  /** Two hundred zeros against two hundred ones are two hundred changes, and not too many; with an equal item after
      them they still are two hundred changes, and too many. */
  lemma TwoHundredEitherWay(a: seq<Json>, b: seq<Json>, last: seq<Json>)
    requires a == Repeated(LIMIT, 0.0) && b == Repeated(LIMIT, 1.0) && last == Repeated(1, 2.0)
    ensures |Diff(Arr(a), Arr(b))| == LIMIT && BeforeLast(Arr(a), Arr(b)) < LIMIT
    ensures |Diff(Arr(a + last), Arr(b + last))| == LIMIT && BeforeLast(Arr(a + last), Arr(b + last)) >= LIMIT
  {
    DifferingLists(a, b, LIMIT);
    DifferingLists(a + last, b + last, LIMIT);
  }
}
