/** The order of strings by character, and sets of strings listed in that order. */
module Strings {
  import opened Collections

  predicate Leq(a: string, b: string) {
    a == [] || (b != [] && (a[0] < b[0] || (a[0] == b[0] && Leq(a[1..], b[1..]))))
  }

  function Order(): (string, string) -> bool {
    (a: string, b: string) => Leq(a, b)
  }

  lemma {:induction false} LeqTotal(a: string, b: string)
    ensures Leq(a, b) || Leq(b, a)
  {
    if a != [] && b != [] && a[0] == b[0] {
      LeqTotal(a[1..], b[1..]);
    }
  }

  lemma {:induction false} LeqAntisymmetric(a: string, b: string)
    requires Leq(a, b) && Leq(b, a)
    ensures a == b
  {
    if a != [] {
      LeqAntisymmetric(a[1..], b[1..]);
      assert a == [a[0]] + a[1..] && b == [b[0]] + b[1..];
    }
  }

  lemma {:induction false} LeqTransitive(a: string, b: string, c: string)
    requires Leq(a, b) && Leq(b, c)
    ensures Leq(a, c)
  {
    if a != [] && a[0] == b[0] && b[0] == c[0] {
      LeqTransitive(a[1..], b[1..], c[1..]);
    }
  }

  /** `a` and `b` part after `k` characters, and `a` comes first. */
  ghost predicate PartAt(a: string, b: string, k: nat) {
    && k <= |a| && k <= |b| && a[..k] == b[..k]
    && if k == |a| then k < |b| else k < |b| && a[k] < b[k]
  }

  /** `a` comes first: it is a proper beginning of `b`, or has the smaller character where they part. */
  ghost predicate Precedes(a: string, b: string) {
    exists k: nat :: PartAt(a, b, k)
  }

  lemma {:induction false} LeqPrecedes(a: string, b: string)
    ensures Leq(a, b) && a != b <==> Precedes(a, b)
  {
    if a == [] {
      assert PartAt(a, b, 0) <==> a != b;
    } else if b != [] && a[0] == b[0] {
      LeqPrecedes(a[1..], b[1..]);
      assert a == [a[0]] + a[1..] && b == [b[0]] + b[1..];
      SharedHead(a, b);
    } else if b != [] {
      assert PartAt(a, b, 0) <==> a[0] < b[0];
      forall k: nat | PartAt(a, b, k) ensures k == 0 {
        PartHead(a, b, k);
      }
    }
  }

  lemma PartHead(a: string, b: string, k: nat)
    requires a != [] && b != [] && PartAt(a, b, k)
    ensures k == 0 <==> a[0] != b[0]
  {
    if k > 0 {
      assert a[0] == a[..k][0] && b[0] == b[..k][0];
    }
  }

  lemma PartLater(a: string, b: string, k: nat)
    requires a != [] && b != [] && a[0] == b[0]
    ensures PartAt(a, b, k + 1) <==> PartAt(a[1..], b[1..], k)
  {
    if k < |a| && k < |b| {
      assert a[..k + 1] == [a[0]] + a[1..][..k] && b[..k + 1] == [b[0]] + b[1..][..k];
      assert a[..k + 1][1..] == a[1..][..k] && b[..k + 1][1..] == b[1..][..k];
    }
  }

  lemma SharedHead(a: string, b: string)
    requires a != [] && b != [] && a[0] == b[0]
    ensures Precedes(a, b) <==> Precedes(a[1..], b[1..])
  {
    if Precedes(a, b) {
      var k: nat :| PartAt(a, b, k);
      PartHead(a, b, k);
      PartLater(a, b, k - 1);
    }
    if Precedes(a[1..], b[1..]) {
      var k: nat :| PartAt(a[1..], b[1..], k);
      PartLater(a, b, k);
    }
  }

  lemma PrecedesOneWay(a: string, b: string)
    requires Precedes(a, b)
    ensures !Precedes(b, a)
  {
    LeqPrecedes(a, b);
    LeqPrecedes(b, a);
    if Leq(b, a) {
      LeqAntisymmetric(a, b);
    }
  }

  lemma OrderTotal()
    ensures TotalPreorder(Order())
  {
    forall x, y ensures Order()(x, y) || Order()(y, x) {
      LeqTotal(x, y);
    }
    forall x, y, z | Order()(x, y) && Order()(y, z) ensures Order()(x, z) {
      LeqTransitive(x, y, z);
    }
  }

  lemma {:induction false} LeastExists(s: set<string>)
    requires s != {}
    ensures exists k | k in s :: forall o | o in s :: Leq(k, o)
  {
    var k :| k in s;
    LeqTotal(k, k);
    if s != {k} {
      var rest := s - {k};
      LeastExists(rest);
      var m :| m in rest && forall o | o in rest :: Leq(m, o);
      LeqTotal(k, m);
      var least := if Leq(k, m) then k else m;
      forall o | o in s ensures Leq(least, o) {
        if o in rest && least == k {
          LeqTransitive(k, m, o);
        }
      }
    }
  }

  function Least(s: set<string>): (k: string)
    requires s != {}
    ensures k in s && forall o | o in s :: Leq(k, o)
  {
    LeastExists(s);
    assert forall a, b | a in s && b in s && Leq(a, b) && Leq(b, a) :: a == b by {
      forall a, b | a in s && b in s && Leq(a, b) && Leq(b, a) ensures a == b {
        LeqAntisymmetric(a, b);
      }
    }
    var k :| k in s && forall o | o in s :: Leq(k, o);
    k
  }

  lemma ConsListing(k: string, rest: seq<string>, s: set<string>)
    requires k in s && (forall o | o in s :: Leq(k, o))
    requires (forall x :: x in rest <==> x in s - {k}) && Distinct(rest) && SortedBy(Order(), rest)
    ensures var r := [k] + rest;
            (forall x :: x in r <==> x in s) && Distinct(r) && SortedBy(Order(), r)
  {
    var r := [k] + rest;
    forall i, j | 0 <= i < j < |r| ensures r[i] != r[j] && Order()(r[i], r[j]) {
      assert r[j] == rest[j - 1] && rest[j - 1] in rest;
      if i > 0 {
        assert r[i] == rest[i - 1];
      }
    }
  }

  /** `sorted(s)` of a set of strings. */
  function Listed(s: set<string>): (r: seq<string>)
    ensures forall x :: x in r <==> x in s
    ensures Distinct(r) && SortedBy(Order(), r)
  {
    if s == {} then []
    else
      var k := Least(s);
      var rest := Listed(s - {k});
      ConsListing(k, rest, s);
      [k] + rest
  }

  /** `sorted(set(s))`. */
  function SortedSet(s: seq<string>): (r: seq<string>)
    ensures forall x :: x in r <==> x in s
    ensures Distinct(r) && SortedBy(Order(), r)
  {
    Listed(Elements(s))
  }

  lemma SortedSetSize(s: seq<string>)
    ensures |SortedSet(s)| == |Elements(s)| <= |s|
  {
    assert Elements(SortedSet(s)) == Elements(s);
    ElementsSize(s);
    ElementsSize(SortedSet(s));
  }

  /** A set has one sorted listing. */
  lemma {:induction false} ListingUnique(a: seq<string>, b: seq<string>)
    requires Distinct(a) && Distinct(b) && SortedBy(Order(), a) && SortedBy(Order(), b)
    requires forall x :: x in a <==> x in b
    ensures a == b
  {
    if a == [] {
      assert forall i | 0 <= i < |b| :: b[i] in a;
    } else {
      assert a[0] in a && a[0] in b;
      assert b[0] in b && b[0] in a;
      HeadLeast(a, b[0]);
      HeadLeast(b, a[0]);
      LeqAntisymmetric(a[0], b[0]);
      TailMembers(a);
      TailMembers(b);
      ListingUnique(a[1..], b[1..]);
      assert a == [a[0]] + a[1..] && b == [b[0]] + b[1..];
    }
  }

  lemma HeadLeast(a: seq<string>, x: string)
    requires SortedBy(Order(), a) && x in a
    ensures Leq(a[0], x)
  {
    var k :| 0 <= k < |a| && a[k] == x;
    LeqTotal(x, x);
    if k > 0 {
      assert Order()(a[0], a[k]);
    }
  }

  lemma TailMembers(a: seq<string>)
    requires a != [] && Distinct(a) && SortedBy(Order(), a)
    ensures forall x :: x in a[1..] <==> x in a && x != a[0]
    ensures Distinct(a[1..]) && SortedBy(Order(), a[1..])
  {
    forall x | x in a && x != a[0] ensures x in a[1..] {
      var k :| 0 <= k < |a| && a[k] == x;
      assert a[1..][k - 1] == x;
    }
    forall k | 0 <= k < |a[1..]| ensures a[1..][k] == a[k + 1] != a[0] {
    }
  }

  /** Sorting and deduplicating once is enough, and does nothing to a list already so. */
  lemma SortedSetFixed(s: seq<string>)
    ensures SortedSet(SortedSet(s)) == SortedSet(s)
    ensures SortedSet(s) == s <==> Distinct(s) && SortedBy(Order(), s)
  {
    ListingUnique(SortedSet(SortedSet(s)), SortedSet(s));
    if Distinct(s) && SortedBy(Order(), s) {
      ListingUnique(SortedSet(s), s);
    }
  }
}
