/** Following a step function from a start for as long as it goes on. */
module Walk {
  import opened Prelude

  /** Where `k` steps lead, if the walk goes on that long. */
  function At<T>(step: T -> Option<T>, start: T, k: nat): Option<T> {
    if k == 0 then Some(start)
    else match At(step, start, k - 1) case None => None case Some(t) => step(t)
  }

  /** The labels of the places reached in `k` steps, without the start. */
  function Labels<T>(step: T -> Option<T>, number: T -> int, start: T, k: nat): seq<int> {
    if k == 0 then []
    else
      Labels(step, number, start, k - 1)
      + match At(step, start, k) case None => [] case Some(t) => [number(t)]
  }

  lemma {:induction false} FirstThenRest<T>(step: T -> Option<T>, number: T -> int, start: T, k: nat)
    requires step(start).Some?
    ensures At(step, start, k + 1) == At(step, step(start).value, k)
    ensures Labels(step, number, start, k + 1)
      == [number(step(start).value)] + Labels(step, number, step(start).value, k)
  {
    assert At(step, start, 0) == Some(start);
    assert At(step, start, 1) == step(start);
    if k > 0 {
      FirstThenRest(step, number, start, k - 1);
    }
  }

  lemma {:induction false} OverAtOnce<T>(step: T -> Option<T>, number: T -> int, start: T, k: nat)
    requires step(start).None?
    ensures At(step, start, k + 1).None? && Labels(step, number, start, k + 1) == []
  {
    assert At(step, start, 0) == Some(start);
    if k > 0 {
      OverAtOnce(step, number, start, k - 1);
    }
  }

  lemma {:induction false} StaysOver<T>(step: T -> Option<T>, number: T -> int, start: T, j: nat, k: nat)
    requires j <= k && At(step, start, j).None?
    ensures At(step, start, k).None? && Labels(step, number, start, k) == Labels(step, number, start, j)
  {
    if j < k {
      StaysOver(step, number, start, j, k - 1);
    }
  }

  /** A measure that falls with every step. */
  ghost predicate Falls<T(!new)>(step: T -> Option<T>, measure: T -> int) {
    forall t :: step(t).Some? ==> 0 <= measure(step(t).value) < measure(t)
  }

  lemma {:induction false} Ends<T(!new)>(step: T -> Option<T>, measure: T -> int, start: T)
    requires Falls(step, measure)
    ensures exists k: nat :: At(step, start, k).None?
    decreases measure(start)
  {
    if step(start).None? {
      OverAtOnce(step, measure, start, 0);
      assert At(step, start, 1).None?;
    } else {
      var next := step(start).value;
      Ends(step, measure, next);
      var k: nat :| At(step, next, k).None?;
      FirstThenRest(step, measure, start, k);
      assert At(step, start, k + 1).None?;
    }
  }

  /** What every step passes on holds wherever the walk comes. */
  ghost predicate Passes<T(!new)>(step: T -> Option<T>, holds: T -> bool) {
    forall t :: holds(t) && step(t).Some? ==> holds(step(t).value)
  }

  lemma {:induction false} HoldsAlong<T(!new)>(step: T -> Option<T>, number: T -> int, holds: T -> bool, start: T,
      k: nat)
    requires Passes(step, holds) && holds(start)
    ensures At(step, start, k).Some? ==> holds(At(step, start, k).value)
    ensures forall i :: 0 <= i < |Labels(step, number, start, k)| ==>
      exists t :: holds(t) && number(t) == Labels(step, number, start, k)[i]
  {
    if k > 0 {
      HoldsAlong(step, number, holds, start, k - 1);
    }
  }

  /** Labels that rise with every step come out in order, above that of the start. */
  predicate Rising(from: int, numbers: seq<int>) {
    forall i, j :: 0 <= i < j < |numbers| + 1 ==> ([from] + numbers)[i] < ([from] + numbers)[j]
  }

  lemma RisesOnce(from: int, numbers: seq<int>, x: int)
    requires Rising(from, numbers) && x > ([from] + numbers)[|numbers|]
    ensures Rising(from, numbers + [x])
    ensures ([from] + (numbers + [x]))[|numbers| + 1] == x
  {
    var all := [from] + numbers;
    assert [from] + (numbers + [x]) == all + [x];
    assert forall i :: 0 <= i < |numbers| ==> all[i] < all[|numbers|];
  }

  ghost predicate Rises<T(!new)>(step: T -> Option<T>, number: T -> int, holds: T -> bool) {
    forall t :: holds(t) && step(t).Some? ==> holds(step(t).value) && number(step(t).value) > number(t)
  }

  lemma {:induction false} RisingAlong<T(!new)>(step: T -> Option<T>, number: T -> int, holds: T -> bool, start: T,
      k: nat)
    requires Rises(step, number, holds) && holds(start)
    ensures Rising(number(start), Labels(step, number, start, k))
    ensures At(step, start, k).Some? ==>
      var numbers := [number(start)] + Labels(step, number, start, k);
      holds(At(step, start, k).value) && numbers[|numbers| - 1] == number(At(step, start, k).value)
  {
    if k > 0 {
      RisingAlong(step, number, holds, start, k - 1);
      var before, numbers := At(step, start, k - 1), Labels(step, number, start, k - 1);
      if before.Some? && step(before.value).Some? {
        RisesOnce(number(start), numbers, number(step(before.value).value));
      } else {
        assert Labels(step, number, start, k) == numbers;
      }
    }
  }
}
