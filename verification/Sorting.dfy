/** Sorting as the callers rely on it: the same elements, in order, ties in any order. */
module Sorting {
  import opened Prelude

  ghost predicate SameElements<T>(a: seq<T>, b: seq<T>) {
    multiset(a) == multiset(b)
  }

  /** `b` holds what `a` holds, and no element comes after one it should precede. */
  ghost predicate IsOrdering<T(!new)>(leq: (T, T) -> bool, a: seq<T>, b: seq<T>) {
    SameElements(a, b) && Pairwise(leq, b)
  }

  ghost predicate TotalPreorder<T(!new)>(leq: (T, T) -> bool) {
    && (forall x, y :: leq(x, y) || leq(y, x))
    && (forall x, y, z :: leq(x, y) && leq(y, z) ==> leq(x, z))
  }

  method Sort<T(!new)>(leq: (T, T) -> bool, s: seq<T>) returns (r: seq<T>)
    requires TotalPreorder(leq)
    ensures IsOrdering(leq, s, r)
  {
    r := [];
    for i := 0 to |s|
      invariant IsOrdering(leq, s[..i], r)
    {
      assert s[..i + 1] == s[..i] + [s[i]];
      r := Insert(leq, s[i], r);
    }
    assert s[..|s|] == s;
  }

  method Insert<T(!new)>(leq: (T, T) -> bool, x: T, s: seq<T>) returns (r: seq<T>)
    requires TotalPreorder(leq) && Pairwise(leq, s)
    ensures IsOrdering(leq, s + [x], r)
  {
    var k := |s|;
    while k > 0 && leq(x, s[k - 1])
      invariant 0 <= k <= |s|
      invariant forall j :: k <= j < |s| ==> leq(x, s[j])
    {
      k := k - 1;
    }
    assert k > 0 ==> leq(s[k - 1], x);
    r := s[..k] + [x] + s[k..];
    Inserted(leq, x, s, k);
  }

  lemma Inserted<T(!new)>(leq: (T, T) -> bool, x: T, s: seq<T>, k: nat)
    requires TotalPreorder(leq) && Pairwise(leq, s)
    requires k <= |s| && (k > 0 ==> leq(s[k - 1], x)) && forall j :: k <= j < |s| ==> leq(x, s[j])
    ensures IsOrdering(leq, s + [x], s[..k] + [x] + s[k..])
  {
    assert s == s[..k] + s[k..];
    forall i | 0 <= i < k ensures leq(s[i], x) {
      assert i < k - 1 ==> leq(s[i], s[k - 1]);
    }
    PairsAfterInsert(leq, x, s, k);
  }

  lemma PairsAfterInsert<T(!new)>(leq: (T, T) -> bool, x: T, s: seq<T>, k: nat)
    requires k <= |s| && Pairwise(leq, s)
    requires (forall i :: 0 <= i < k ==> leq(s[i], x)) && forall j :: k <= j < |s| ==> leq(x, s[j])
    ensures Pairwise(leq, s[..k] + [x] + s[k..])
  {
    var r := s[..k] + [x] + s[k..];
    forall i, j | 0 <= i < j < |r| ensures leq(r[i], r[j]) {
      var i', j' := if i < k then i else i - 1, if j < k then j else j - 1;
      assert i != k ==> r[i] == s[i'];
      assert j != k ==> r[j] == s[j'];
      assert i != k && j != k ==> leq(s[i'], s[j']);
    }
  }

  lemma {:induction false} DistinctMeansOnce<T>(s: seq<T>)
    ensures Distinct(s) <==> forall x :: multiset(s)[x] <= 1
  {
    if s != [] {
      var n := |s| - 1;
      DistinctMeansOnce(s[..n]);
      assert s == s[..n] + [s[n]];
      assert forall x :: multiset(s)[x] == multiset(s[..n])[x] + if x == s[n] then 1 else 0;
      assert s[n] in s[..n] <==> multiset(s[..n])[s[n]] > 0;
      assert Distinct(s) ==> s[n] !in s[..n];
      assert Distinct(s) <==> Distinct(s[..n]) && s[n] !in s[..n] by {
        if Distinct(s[..n]) && s[n] !in s[..n] {
          assert forall i :: 0 <= i < n ==> s[i] in s[..n] && s[i] == s[..n][i];
        }
      }
      assert forall x :: multiset(s[..n])[x] <= multiset(s)[x];
      assert multiset(s)[s[n]] == multiset(s[..n])[s[n]] + 1;
    }
  }

  lemma OrderingKeeps<T(!new)>(leq: (T, T) -> bool, a: seq<T>, b: seq<T>)
    requires IsOrdering(leq, a, b)
    ensures |a| == |b|
    ensures forall x :: x in a <==> x in b
    ensures Distinct(a) ==> Distinct(b)
  {
    DistinctMeansOnce(a);
    DistinctMeansOnce(b);
    assert |multiset(a)| == |multiset(b)|;
    forall x ensures x in a <==> x in b {
      assert x in a <==> multiset(a)[x] > 0;
      assert x in b <==> multiset(b)[x] > 0;
    }
  }

  lemma {:induction false} FilterCounts<T(!new)>(p: T -> bool, s: seq<T>)
    ensures forall x :: multiset(Filter(p, s))[x] == if p(x) then multiset(s)[x] else 0
  {
    if s != [] {
      assert s == [s[0]] + s[1..];
      FilterCounts(p, s[1..]);
      assert forall x :: multiset(s)[x] == multiset(s[1..])[x] + if x == s[0] then 1 else 0;
    }
  }

  /** An arrangement has as many elements of a kind. */
  lemma SameElementsFilter<T(!new)>(p: T -> bool, a: seq<T>, b: seq<T>)
    requires SameElements(a, b)
    ensures |Filter(p, a)| == |Filter(p, b)|
  {
    FilterCounts(p, a);
    FilterCounts(p, b);
    assert forall x :: multiset(Filter(p, a))[x] == multiset(Filter(p, b))[x];
    assert multiset(Filter(p, a)) == multiset(Filter(p, b));
    assert |multiset(Filter(p, a))| == |Filter(p, a)| && |multiset(Filter(p, b))| == |Filter(p, b)|;
  }

  /** A strict order leaves no choice: the same elements have one arrangement. */
  lemma {:induction false} OneArrangement<T(!new)>(less: (T, T) -> bool, a: seq<T>, b: seq<T>)
    requires forall x, y :: less(x, y) ==> !less(y, x)
    requires Pairwise(less, a) && Pairwise(less, b)
    requires forall x :: x in a <==> x in b
    ensures a == b
  {
    if a == [] {
      HasFirst(b);
    } else {
      assert a[0] in b && a[0] in a;
      assert b[0] in a && b[0] in b;
      assert a[0] == b[0];
      forall x ensures x in a[1..] <==> x in b[1..] {
        assert x in a[1..] <==> x in a && x != a[0];
        assert x in b[1..] <==> x in b && x != b[0];
      }
      OneArrangement(less, a[1..], b[1..]);
    }
  }
}
