/** Counting over sequences, and sums of counts over the values of a key. */
module Counting {
  import opened Prelude

  function CountIf<T(!new)>(p: T -> bool, s: seq<T>): (n: nat)
    ensures n == |Filter(p, s)|
  {
    if s == [] then 0 else (if p(s[0]) then 1 else 0) + CountIf(p, s[1..])
  }

  function Sum(f: int -> int, n: nat): int {
    if n == 0 then 0 else Sum(f, n - 1) + f(n - 1)
  }

  lemma {:induction false} CountWeakens<T(!new)>(p: T -> bool, q: T -> bool, s: seq<T>)
    requires forall x :: x in s && p(x) ==> q(x)
    ensures CountIf(p, s) <= CountIf(q, s)
  {
    if s != [] {
      CountWeakens(p, q, s[1..]);
    }
  }

  lemma CountSame<T(!new)>(p: T -> bool, q: T -> bool, s: seq<T>)
    requires forall x :: x in s ==> p(x) == q(x)
    ensures CountIf(p, s) == CountIf(q, s)
  {
    CountWeakens(p, q, s);
    CountWeakens(q, p, s);
  }

  lemma {:induction false} CountPositive<T(!new)>(p: T -> bool, s: seq<T>)
    ensures CountIf(p, s) > 0 <==> exists x :: x in s && p(x)
  {
    if s != [] {
      CountPositive(p, s[1..]);
    }
  }

  lemma {:induction false} CountSplits<T(!new)>(p: T -> bool, a: T -> bool, b: T -> bool, s: seq<T>)
    requires forall x :: x in s ==> (p(x) <==> a(x) || b(x)) && !(a(x) && b(x))
    ensures CountIf(p, s) == CountIf(a, s) + CountIf(b, s)
  {
    if s != [] {
      CountSplits(p, a, b, s[1..]);
    }
  }

  function OnKey<T(!new)>(p: T -> bool, key: T -> int, k: int): T -> bool {
    x => p(x) && key(x) == k
  }

  function InKeys<T(!new)>(p: T -> bool, key: T -> int, keys: seq<int>): T -> bool {
    x => p(x) && key(x) in keys
  }

  /** Counting by the value of a key, over distinct values, counts each element once. */
  lemma {:induction false} CountByKey<T(!new)>(p: T -> bool, key: T -> int, keys: seq<int>, s: seq<T>, f: int -> int)
    requires Distinct(keys)
    requires forall i :: 0 <= i < |keys| ==> f(i) == CountIf(OnKey(p, key, keys[i]), s)
    ensures Sum(f, |keys|) == CountIf(InKeys(p, key, keys), s)
  {
    if keys == [] {
      CountPositive(InKeys(p, key, keys), s);
    } else {
      var n := |keys| - 1;
      CountByKey(p, key, keys[..n], s, f);
      CountSplits(InKeys(p, key, keys), InKeys(p, key, keys[..n]), OnKey(p, key, keys[n]), s);
    }
  }

  /** Keys that cover every element counted. */
  lemma CountByKeyInFull<T(!new)>(p: T -> bool, key: T -> int, keys: seq<int>, s: seq<T>, f: int -> int)
    requires Distinct(keys)
    requires forall i :: 0 <= i < |keys| ==> f(i) == CountIf(OnKey(p, key, keys[i]), s)
    requires forall x :: x in s && p(x) ==> key(x) in keys
    ensures Sum(f, |keys|) == CountIf(p, s)
  {
    CountByKey(p, key, keys, s, f);
    CountSame(p, InKeys(p, key, keys), s);
  }
}
