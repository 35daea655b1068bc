/** Facts about finite sets, sequences and sorting that several components share. */
module Collections {

  lemma SubsetSize<T>(a: set<T>, b: set<T>)
    requires a <= b
    ensures |a| <= |b|
  {
    assert b == a + (b - a);
  }

  lemma SubsetSameSize<T>(a: set<T>, b: set<T>)
    requires a <= b && |a| == |b|
    ensures a == b
  {
    assert b == a + (b - a);
    assert |b - a| == 0;
  }

  ghost predicate Distinct<T>(s: seq<T>) {
    forall i, j :: 0 <= i < j < |s| ==> s[i] != s[j]
  }

  function Elements<T>(s: seq<T>): (r: set<T>) {
    set x | x in s
  }

  lemma {:induction false} ElementsSize<T>(s: seq<T>)
    ensures |Elements(s)| <= |s|
    ensures Distinct(s) <==> |Elements(s)| == |s|
  {
    if s != [] {
      var n := |s| - 1;
      var front := s[..n];
      ElementsSize(front);
      assert s == front + [s[n]];
      assert Elements(s) == Elements(front) + {s[n]};
      if s[n] in front {
        var i :| 0 <= i < n && front[i] == s[n];
        assert s[i] == s[n];
        assert Elements(s) == Elements(front);
      } else if !Distinct(front) {
        var i, j :| 0 <= i < j < n && front[i] == front[j];
        assert s[i] == s[j];
      } else {
        assert forall i :: 0 <= i < n ==> s[i] == front[i] && front[i] in front;
      }
    }
  }

  /** `less` orders every pair of values one way or the other, transitively. */
  ghost predicate TotalPreorder<T(!new)>(leq: (T, T) -> bool) {
    && (forall x, y :: leq(x, y) || leq(y, x))
    && (forall x, y, z :: leq(x, y) && leq(y, z) ==> leq(x, z))
  }

  ghost predicate SortedBy<T>(leq: (T, T) -> bool, s: seq<T>) {
    forall i, j :: 0 <= i < j < |s| ==> leq(s[i], s[j])
  }

  /** Puts `x` after every element it does not precede, so equal keys keep their order. */
  function Insert<T>(leq: (T, T) -> bool, s: seq<T>, x: T): (r: seq<T>)
    ensures |r| == |s| + 1
    ensures multiset(r) == multiset(s) + multiset{x}
  {
    if s == [] || leq(s[|s| - 1], x) then s + [x]
    else
      assert s == s[..|s| - 1] + [s[|s| - 1]];
      Insert(leq, s[..|s| - 1], x) + [s[|s| - 1]]
  }

  /** Python's `sorted`: stable, ascending in `leq`. */
  function Sort<T>(leq: (T, T) -> bool, s: seq<T>): (r: seq<T>)
    ensures |r| == |s|
    ensures multiset(r) == multiset(s)
  {
    if s == [] then []
    else
      assert s == s[..|s| - 1] + [s[|s| - 1]];
      Insert(leq, Sort(leq, s[..|s| - 1]), s[|s| - 1])
  }

  lemma SameMembers<T>(a: seq<T>, b: seq<T>)
    requires multiset(a) == multiset(b)
    ensures |a| == |b|
    ensures forall x :: x in a <==> x in b
    ensures Elements(a) == Elements(b)
    ensures Distinct(a) <==> Distinct(b)
  {
    assert |a| == |multiset(a)| == |multiset(b)| == |b|;
    forall x ensures x in a <==> x in b {
      assert x in a <==> x in multiset(a);
      assert x in b <==> x in multiset(b);
    }
    ElementsSize(a);
    ElementsSize(b);
  }

  lemma {:induction false} InsertSorted<T(!new)>(leq: (T, T) -> bool, s: seq<T>, x: T)
    requires TotalPreorder(leq) && SortedBy(leq, s)
    ensures SortedBy(leq, Insert(leq, s, x))
  {
    if s == [] || leq(s[|s| - 1], x) {
      forall i | 0 <= i < |s| ensures leq(s[i], x) {
        assert i == |s| - 1 || leq(s[i], s[|s| - 1]);
      }
    } else {
      var n := |s| - 1;
      var front, last := s[..n], s[n];
      InsertSorted(leq, front, x);
      var r := Insert(leq, front, x);
      forall i | 0 <= i < |r| ensures leq(r[i], last) {
        assert r[i] in multiset(r);
        assert r[i] in multiset(front) || r[i] == x;
        if r[i] in front {
          var j :| 0 <= j < n && front[j] == r[i];
          assert s[j] == r[i];
        }
      }
    }
  }

  lemma {:induction false} SortSorted<T(!new)>(leq: (T, T) -> bool, s: seq<T>)
    requires TotalPreorder(leq)
    ensures SortedBy(leq, Sort(leq, s))
  {
    if s != [] {
      SortSorted(leq, s[..|s| - 1]);
      InsertSorted(leq, Sort(leq, s[..|s| - 1]), s[|s| - 1]);
    }
  }

  /** Sorting leaves a sorted sequence as it is. */
  lemma {:induction false} SortIdentity<T>(leq: (T, T) -> bool, s: seq<T>)
    requires SortedBy(leq, s)
    ensures Sort(leq, s) == s
  {
    if s != [] {
      SortIdentity(leq, s[..|s| - 1]);
    }
  }

  /** The elements of `s` that satisfy `keep`, in order. */
  function Filter<T(!new)>(keep: T -> bool, s: seq<T>): (r: seq<T>)
    ensures |r| <= |s|
    ensures forall x :: x in r <==> x in s && keep(x)
  {
    if s == [] then []
    else
      var rest := Filter(keep, s[..|s| - 1]);
      assert s == s[..|s| - 1] + [s[|s| - 1]];
      if keep(s[|s| - 1]) then rest + [s[|s| - 1]] else rest
  }

  /** INSERT OR IGNORE by primary key. */
  function Kept<K, V>(m: map<K, V>, k: K, v: V): map<K, V> {
    if k in m then m else m[k := v]
  }

  lemma {:induction false} FilterConcat<T(!new)>(keep: T -> bool, a: seq<T>, b: seq<T>)
    ensures Filter(keep, a + b) == Filter(keep, a) + Filter(keep, b)
  {
    if b == [] {
      assert a + b == a;
    } else {
      assert (a + b)[..|a + b| - 1] == a + b[..|b| - 1];
      FilterConcat(keep, a, b[..|b| - 1]);
    }
  }

  /** Elements that `keep` keeps are equal in the order. */
  ghost predicate Tied<T(!new)>(leq: (T, T) -> bool, keep: T -> bool) {
    forall x, y | keep(x) && keep(y) :: leq(x, y)
  }

  lemma {:induction false} InsertStable<T(!new)>(leq: (T, T) -> bool, keep: T -> bool, s: seq<T>, x: T)
    requires Tied(leq, keep)
    ensures Filter(keep, Insert(leq, s, x)) == Filter(keep, s + [x])
  {
    if s != [] && !leq(s[|s| - 1], x) {
      var front, last := s[..|s| - 1], [s[|s| - 1]];
      InsertStable(leq, keep, front, x);
      FilterConcat(keep, Insert(leq, front, x), last);
      FilterConcat(keep, front, [x]);
      assert s == front + last;
      FilterConcat(keep, front, last);
      FilterConcat(keep, s, [x]);
      assert last[..0] == [] && [x][..0] == [];
      assert !keep(x) || !keep(last[0]);
    }
  }

  /** Sorting keeps elements that are equal in the order in their order. */
  lemma {:induction false} SortStable<T(!new)>(leq: (T, T) -> bool, keep: T -> bool, s: seq<T>)
    requires Tied(leq, keep)
    ensures Filter(keep, Sort(leq, s)) == Filter(keep, s)
  {
    if s != [] {
      var front, x := s[..|s| - 1], s[|s| - 1];
      assert s == front + [x];
      SortStable(leq, keep, front);
      SortStableNext(leq, keep, front, x);
    }
  }

  lemma SortStableNext<T(!new)>(leq: (T, T) -> bool, keep: T -> bool, front: seq<T>, x: T)
    requires Tied(leq, keep) && Filter(keep, Sort(leq, front)) == Filter(keep, front)
    ensures Filter(keep, Sort(leq, front + [x])) == Filter(keep, front + [x])
  {
    assert (front + [x])[..|front|] == front;
    InsertAlike(leq, keep, Sort(leq, front), front, x);
  }

  lemma InsertAlike<T(!new)>(leq: (T, T) -> bool, keep: T -> bool, a: seq<T>, b: seq<T>, x: T)
    requires Tied(leq, keep) && Filter(keep, a) == Filter(keep, b)
    ensures Filter(keep, Insert(leq, a, x)) == Filter(keep, b + [x])
  {
    InsertStable(leq, keep, a, x);
    FilterConcat(keep, a, [x]);
    FilterConcat(keep, b, [x]);
  }
}
