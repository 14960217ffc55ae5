/** Small vocabulary shared by every component: optional values and a few facts
    about sequences that Dafny does not know by itself. */
module Prelude {

  datatype Option<+T> = None | Some(value: T)

  function Max(a: int, b: int): int {
    if a < b then b else a
  }

  function Min(a: int, b: int): int {
    if a < b then a else b
  }

  /** The subsequence of `s` accepted by `p`, in order. */
  function Filter<T(!new)>(p: T -> bool, s: seq<T>): (r: seq<T>)
    ensures |r| <= |s|
    ensures forall x :: x in r <==> x in s && p(x)
  {
    if s == [] then [] else (if p(s[0]) then [s[0]] else []) + Filter(p, s[1..])
  }

  /** What each element goes by. */
  function Keys<T>(key: T -> int, s: seq<T>): (r: seq<int>)
    ensures |r| == |s| && forall i :: 0 <= i < |r| ==> r[i] == key(s[i])
  {
    seq(|s|, i requires 0 <= i < |s| => key(s[i]))
  }

  /** The first place where `p` holds. */
  function Find<T>(p: T -> bool, s: seq<T>): (r: Option<nat>)
    ensures r.Some? ==> r.value < |s| && p(s[r.value]) && forall i :: 0 <= i < r.value ==> !p(s[i])
    ensures r.None? ==> forall i :: 0 <= i < |s| ==> !p(s[i])
  {
    if s == [] then None
    else if p(s[0]) then Some(0)
    else match Find(p, s[1..]) case None => None case Some(i) => Some(i + 1)
  }

  lemma FindIs<T>(p: T -> bool, s: seq<T>, i: nat)
    requires i < |s| && p(s[i]) && forall k :: 0 <= k < i ==> !p(s[k])
    ensures Find(p, s) == Some(i)
  {
  }

  predicate Distinct<T(==)>(s: seq<T>) {
    forall i, j :: 0 <= i < j < |s| ==> s[i] != s[j]
  }

  predicate Pairwise<T(!new)>(ok: (T, T) -> bool, s: seq<T>) {
    forall i, j :: 0 <= i < j < |s| ==> ok(s[i], s[j])
  }

  lemma {:induction false} FilterAppended<T(!new)>(p: T -> bool, s: seq<T>, x: T)
    ensures Filter(p, s + [x]) == Filter(p, s) + if p(x) then [x] else []
  {
    if s != [] {
      assert (s + [x])[1..] == s[1..] + [x];
      FilterAppended(p, s[1..], x);
    } else {
      assert [x][1..] == [];
    }
  }

  /** Whatever holds of every pair in order still holds after dropping elements. */
  lemma {:induction false} FilterKeepsPairs<T(!new)>(ok: (T, T) -> bool, p: T -> bool, s: seq<T>)
    requires Pairwise(ok, s)
    ensures Pairwise(ok, Filter(p, s))
  {
    if s != [] {
      var rest := Filter(p, s[1..]);
      FilterKeepsPairs(ok, p, s[1..]);
      forall j | 0 <= j < |rest|
        ensures ok(s[0], rest[j])
      {
        assert rest[j] in s[1..];
      }
    }
  }

  /** Distinct values that all occur in a list are no more than its elements. */
  lemma {:induction false} DistinctFit(a: seq<int>, b: seq<int>)
    requires Distinct(a) && forall x :: x in a ==> x in b
    ensures |a| <= |b|
  {
    if a != [] {
      assert a[0] in a;
      var at :| 0 <= at < |b| && b[at] == a[0];
      var rest := b[..at] + b[at + 1..];
      forall x | x in a[1..] ensures x in rest {
        assert x in a && x != a[0] && x in b;
        var j :| 0 <= j < |b| && b[j] == x;
        assert if j < at then rest[j] == x else rest[j - 1] == x;
      }
      DistinctFit(a[1..], rest);
    }
  }

  /** So a list no longer than that holds each of them once, and nothing else. */
  lemma StaysDistinct(a: seq<int>, b: seq<int>)
    requires Distinct(a) && |a| == |b| && forall x :: x in a ==> x in b
    ensures Distinct(b)
  {
    forall i, j | 0 <= i < j < |b| ensures b[i] != b[j] {
      if b[i] == b[j] {
        var rest := b[..j] + b[j + 1..];
        forall x | x in a ensures x in rest {
          var k :| 0 <= k < |b| && b[k] == x;
          assert if k < j then rest[k] == x else if k > j then rest[k - 1] == x else rest[i] == x;
        }
        DistinctFit(a, rest);
        assert false;
      }
    }
  }

  // Extensionality, spelled out where the verifier needs the pointwise fact stated.

  lemma HasFirst<T>(s: seq<T>)
    ensures s != [] ==> exists x :: x in s
  {
    assert s != [] ==> s[0] in s;
  }

  lemma HasElement(s: set<int>)
    requires s != {}
    ensures exists x :: x in s
  {
    EmptyWhenNone(s);
  }

  lemma EmptyWhenNone(s: set<int>)
    ensures (forall x :: x !in s) ==> s == {}
  {
    if forall x :: x !in s {
      assert forall x :: x in s <==> x in {};
    }
  }

  lemma MapsEqual<V>(a: map<int, V>, b: map<int, V>)
    requires a.Keys == b.Keys && forall k :: k in a ==> a[k] == b[k]
    ensures a == b
  {
    assert forall k :: k in a <==> k in b;
    assert forall k :: k in a ==> a[k] == b[k];
  }
}
