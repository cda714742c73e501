/** Python's stable `sorted`, for any key order. */
module Sorting {
  ghost predicate TotalPreorder<T(!new)>(leq: (T, T) -> bool) {
    && (forall a, b :: leq(a, b) || leq(b, a))
    && (forall a, b, c :: leq(a, b) && leq(b, c) ==> leq(a, c))
  }

  ghost predicate Sorted<T>(xs: seq<T>, leq: (T, T) -> bool) {
    forall i, j | 0 <= i < j < |xs| :: leq(xs[i], xs[j])
  }

  function Insert<T>(x: T, xs: seq<T>, leq: (T, T) -> bool): (r: seq<T>)
    ensures multiset(r) == multiset{x} + multiset(xs)
  {
    if xs == [] || leq(x, xs[0]) then [x] + xs
    else
      assert xs == [xs[0]] + xs[1..];
      [xs[0]] + Insert(x, xs[1..], leq)
  }

  function Sort<T>(xs: seq<T>, leq: (T, T) -> bool): (r: seq<T>)
    ensures multiset(r) == multiset(xs)
  {
    if xs == [] then []
    else
      assert xs == [xs[0]] + xs[1..];
      Insert(xs[0], Sort(xs[1..], leq), leq)
  }

  lemma {:induction false} InsertSorted<T(!new)>(x: T, xs: seq<T>, leq: (T, T) -> bool)
    requires TotalPreorder(leq) && Sorted(xs, leq)
    ensures Sorted(Insert(x, xs, leq), leq)
  {
    if xs != [] && !leq(x, xs[0]) {
      InsertSorted(x, xs[1..], leq);
      var rest := Insert(x, xs[1..], leq);
      forall j | 0 <= j < |rest| ensures leq(xs[0], rest[j]) {
        assert rest[j] in multiset(rest);
      }
    }
  }

  lemma {:induction false} SortSorted<T(!new)>(xs: seq<T>, leq: (T, T) -> bool)
    requires TotalPreorder(leq)
    ensures Sorted(Sort(xs, leq), leq)
  {
    if xs != [] {
      SortSorted(xs[1..], leq);
      InsertSorted(xs[0], Sort(xs[1..], leq), leq);
    }
  }

  /** The elements that stand neither before nor after one, in order. */
  function Peers<T>(xs: seq<T>, leq: (T, T) -> bool, y: T): seq<T> {
    if xs == [] then []
    else (if leq(xs[0], y) && leq(y, xs[0]) then [xs[0]] else []) + Peers(xs[1..], leq, y)
  }

  lemma {:induction false} InsertStable<T(!new)>(x: T, xs: seq<T>, leq: (T, T) -> bool, y: T)
    requires TotalPreorder(leq)
    ensures Peers(Insert(x, xs, leq), leq, y) == Peers([x] + xs, leq, y)
  {
    assert ([x] + xs)[1..] == xs;
    if xs != [] && !leq(x, xs[0]) {
      InsertStable(x, xs[1..], leq, y);
      assert ([x] + xs[1..])[1..] == xs[1..];
      assert !(leq(x, y) && leq(y, x) && leq(xs[0], y) && leq(y, xs[0]));
      assert ([xs[0]] + Insert(x, xs[1..], leq))[1..] == Insert(x, xs[1..], leq);
    }
  }

  /** Sorting is stable: elements of the same rank keep their order. */
  lemma {:induction false} SortStable<T(!new)>(xs: seq<T>, leq: (T, T) -> bool, y: T)
    requires TotalPreorder(leq)
    ensures Peers(Sort(xs, leq), leq, y) == Peers(xs, leq, y)
  {
    if xs != [] {
      SortStable(xs[1..], leq, y);
      InsertStable(xs[0], Sort(xs[1..], leq), leq, y);
      assert ([xs[0]] + Sort(xs[1..], leq))[1..] == Sort(xs[1..], leq);
    }
  }

  lemma SameElements<T>(xs: seq<T>, leq: (T, T) -> bool)
    ensures |Sort(xs, leq)| == |xs|
    ensures forall x :: x in Sort(xs, leq) <==> x in xs
  {
    var r := Sort(xs, leq);
    assert |multiset(r)| == |r| && |multiset(xs)| == |xs|;
    assert forall x :: x in r <==> x in multiset(r);
  }

  // ---- Sequences whose tags are pairwise different ----

  ghost predicate Distinct<T, K>(xs: seq<T>, tag: T -> K) {
    forall i, j | 0 <= i < j < |xs| :: tag(xs[i]) != tag(xs[j])
  }

  lemma HeadDiffers<T, K>(xs: seq<T>, tag: T -> K, x: T)
    requires xs != [] && Distinct(xs, tag) && x in xs[1..]
    ensures tag(xs[0]) != tag(x)
  {
    var i :| 0 <= i < |xs[1..]| && xs[1..][i] == x;
    assert xs[i + 1] == x;
  }

  lemma DistinctJoin<T, K>(a: seq<T>, b: seq<T>, tag: T -> K)
    requires Distinct(a, tag) && Distinct(b, tag)
    requires forall x, y | x in a && y in b :: tag(x) != tag(y)
    ensures Distinct(a + b, tag)
  {
    forall i, j | 0 <= i < j < |a + b| ensures tag((a + b)[i]) != tag((a + b)[j]) {
      if i < |a| <= j {
        assert (a + b)[i] in a && (a + b)[j] in b;
      }
    }
  }

  lemma {:induction false} InsertDistinct<T, K>(x: T, xs: seq<T>, leq: (T, T) -> bool, tag: T -> K)
    requires Distinct([x] + xs, tag)
    ensures Distinct(Insert(x, xs, leq), tag)
  {
    if xs != [] && !leq(x, xs[0]) {
      var s := [x] + xs;
      var t := [x] + xs[1..];
      assert forall i | 0 <= i < |t| :: t[i] == s[if i == 0 then 0 else i + 1];
      InsertDistinct(x, xs[1..], leq, tag);
      var rest := Insert(x, xs[1..], leq);
      forall y | y in rest ensures tag(xs[0]) != tag(y) {
        assert y in multiset(rest);
        if y != x {
          var i :| 0 <= i < |xs[1..]| && xs[1..][i] == y;
          assert s[1] == xs[0] && s[i + 2] == y;
        } else {
          assert s[0] == x && s[1] == xs[0];
        }
      }
      DistinctJoin([xs[0]], rest, tag);
    }
  }

  lemma {:induction false} SortDistinct<T, K>(xs: seq<T>, leq: (T, T) -> bool, tag: T -> K)
    requires Distinct(xs, tag)
    ensures Distinct(Sort(xs, leq), tag)
  {
    if xs != [] {
      var rest := Sort(xs[1..], leq);
      SortDistinct(xs[1..], leq, tag);
      SameElements(xs[1..], leq);
      forall y | y in rest ensures tag(xs[0]) != tag(y) {
        assert y in multiset(rest);
        var i :| 0 <= i < |xs[1..]| && xs[1..][i] == y;
        assert xs[i + 1] == y;
      }
      DistinctJoin([xs[0]], rest, tag);
      InsertDistinct(xs[0], rest, leq, tag);
    }
  }

  function TagSet<T, K(==)>(xs: seq<T>, tag: T -> K): set<K> {
    if xs == [] then {} else {tag(xs[0])} + TagSet(xs[1..], tag)
  }

  lemma {:induction false} TagSetMember<T, K>(xs: seq<T>, tag: T -> K, k: K)
    ensures k in TagSet(xs, tag) <==> exists x :: x in xs && tag(x) == k
  {
    if xs != [] {
      TagSetMember(xs[1..], tag, k);
      assert forall x :: x in xs <==> x == xs[0] || x in xs[1..];
    }
  }

  /** Pigeonhole: as many different tags as elements means no two elements share one. */
  lemma {:induction false} TagCount<T, K>(xs: seq<T>, tag: T -> K)
    ensures |TagSet(xs, tag)| <= |xs|
    ensures |TagSet(xs, tag)| == |xs| <==> Distinct(xs, tag)
  {
    if xs != [] {
      var rest := TagSet(xs[1..], tag);
      TagCount(xs[1..], tag);
      TagSetMember(xs[1..], tag, tag(xs[0]));
      if tag(xs[0]) in rest {
        assert {tag(xs[0])} + rest == rest;
        forall x | Distinct(xs, tag) && x in xs[1..] ensures tag(xs[0]) != tag(x) {
          HeadDiffers(xs, tag, x);
        }
      } else if Distinct(xs[1..], tag) {
        forall x | x in xs[1..] ensures tag(x) != tag(xs[0]) {
        }
        DistinctJoin([xs[0]], xs[1..], tag);
        assert xs == [xs[0]] + xs[1..];
      }
    }
  }

  lemma SubsetCount<T>(a: set<T>, b: set<T>)
    requires a <= b
    ensures |a| <= |b|
  {
    assert b == a + (b - a);
  }
}
