/** The time window of the activity view and its buckets. Times are in milliseconds; division
    is the source's, rounding toward zero. */
module ActivityWindow {
  import opened Prelude

  const MINUTE := 60_000
  const HOUR := 3_600_000

  function Quotient(a: int, b: int): int
    requires b > 0
  {
    if a >= 0 then a / b else -((-a) / b)
  }

  function BucketMinutes(hours: int): nat {
    match hours
    case 1 => 5
    case 6 => 15
    case 24 => 30
    case 168 => 180
    case _ => 0
  }

  datatype Window = Window(start: int, end: int, width: int, origin: int)

  datatype Span = Span(start: int, end: int)

  function WindowOf(hours: int, now: int): Window
    requires BucketMinutes(hours) > 0
  {
    var start := now - hours * HOUR;
    var width := BucketMinutes(hours) * MINUTE;
    Window(start, now, width, Quotient(start, width) * width)
  }

  predicate Sound(w: Window) {
    w.width > 0 && w.start < w.end
    && w.origin == Quotient(w.start, w.width) * w.width
    && (w.end - w.start) % w.width == 0
  }

  function Count(w: Window): int
    requires w.width > 0
  {
    Quotient(w.end - w.origin + w.width - 1, w.width)
  }

  function Bucket(w: Window, i: int): Span {
    Span(Max(w.start, w.origin + i * w.width), Min(w.end, w.origin + (i + 1) * w.width))
  }

  /** The bucket a query gives a time: a quotient rounded toward zero, or down on the engines
      whose division is exact. */
  function IndexOf(w: Window, floors: bool, t: int): int
    requires w.width > 0
  {
    if floors then (t - w.origin) / w.width else Quotient(t - w.origin, w.width)
  }

  predicate InWindow(w: Window, t: int) {
    w.start <= t < w.end
  }

  predicate InSpan(s: Span, t: int) {
    s.start <= t < s.end
  }

  /** The buckets follow each other without gap, none is empty, and together they are the window. */
  ghost predicate Tiles(w: Window)
    requires w.width > 0
  {
    var n := Count(w);
    && n > 0
    && Bucket(w, 0).start == w.start && Bucket(w, n - 1).end == w.end
    && (forall i :: 0 <= i < n ==> Bucket(w, i).start < Bucket(w, i).end)
    && (forall i, j :: 0 <= i && j == i + 1 && j < n ==> Bucket(w, i).end == Bucket(w, j).start)
  }

  lemma DivisionBounds(a: int, b: int)
    requires b > 0
    ensures (a / b) * b <= a < (a / b) * b + b
  {
  }

  lemma QuotientIsUnique(a: int, b: int, q: int)
    requires b > 0 && q * b <= a < q * b + b
    ensures a / b == q
  {
    DivisionBounds(a, b);
    Steps(a / b, q, b);
    Steps(q, a / b, b);
  }

  lemma Steps(i: int, j: int, width: int)
    requires width > 0
    ensures i < j ==> i * width + width <= j * width
    ensures (i + 1) * width == i * width + width
  {
    if i < j {
      assert (j - i) * width >= width;
      assert (j - i) * width == j * width - i * width;
    }
  }

  /** Where the first bucket boundary lies: at or below the start when the start is not negative,
      within one width above it otherwise. */
  lemma OriginBounds(w: Window)
    requires Sound(w)
    ensures w.start >= 0 ==> w.origin <= w.start < w.origin + w.width
    ensures w.start < 0 ==> w.start <= w.origin < w.start + w.width
    ensures w.origin == w.start <==> w.start % w.width == 0
  {
    if w.start >= 0 {
      DivisionBounds(w.start, w.width);
    } else {
      DivisionBounds(-w.start, w.width);
      var q := -w.start / w.width;
      assert w.origin == -(q * w.width);
      if w.start % w.width == 0 {
        assert w.start == (w.start / w.width) * w.width;
        QuotientIsUnique(-w.start, w.width, -(w.start / w.width));
      }
      if w.origin == w.start { assert w.start == (-q) * w.width; QuotientIsUnique(w.start, w.width, -q); }
    }
  }

  /** The last bucket is the one that reaches the end. */
  lemma CountReachesEnd(w: Window)
    requires Sound(w)
    ensures Count(w) > 0
    ensures w.origin + (Count(w) - 1) * w.width < w.end <= w.origin + Count(w) * w.width
  {
    OriginBounds(w);
    var k := (w.end - w.start) / w.width;
    assert w.end - w.start == k * w.width;
    Steps(0, k, w.width);
    Steps(k, 1, w.width);
    DivisionBounds(w.end - w.origin + w.width - 1, w.width);
    var n := Count(w);
    Steps(n - 1, 0, w.width);
    Steps(n, 1, w.width);
  }

  lemma BucketBounds(w: Window, i: int)
    requires Sound(w) && w.origin <= w.start < w.origin + w.width && 0 <= i < Count(w)
    ensures Bucket(w, i) == Span(
      if i == 0 then w.start else w.origin + i * w.width,
      if i == Count(w) - 1 then w.end else w.origin + (i + 1) * w.width)
    ensures Bucket(w, i).start < Bucket(w, i).end
  {
    CountReachesEnd(w);
    MarksWithin(w, Count(w), i);
  }

  /** The boundaries between the first and the last lie strictly inside the window. */
  lemma MarksWithin(w: Window, n: int, i: int)
    requires w.width > 0 && w.origin <= w.start < w.origin + w.width && w.start < w.end
    requires w.origin + (n - 1) * w.width < w.end <= w.origin + n * w.width
    requires 0 <= i < n
    ensures i > 0 ==> w.start < w.origin + i * w.width < w.end
    ensures i < n - 1 ==> w.start < w.origin + (i + 1) * w.width < w.end
    ensures i == n - 1 ==> w.end <= w.origin + (i + 1) * w.width
    ensures (i + 1) * w.width == i * w.width + w.width
  {
    Steps(0, i, w.width);
    Steps(i, n - 1, w.width);
    Steps(i + 1, n - 1, w.width);
  }

  /** The buckets tile the window exactly when it does not start before the epoch, or starts on
      a bucket boundary. */
  lemma BucketsTile(w: Window)
    requires Sound(w)
    ensures Tiles(w) <==> w.start >= 0 || w.start % w.width == 0
  {
    OriginBounds(w);
    CountReachesEnd(w);
    if w.start >= 0 || w.start % w.width == 0 {
      forall i | 0 <= i < Count(w)
        ensures Bucket(w, i).start < Bucket(w, i).end
      {
        BucketBounds(w, i);
      }
      forall i, j | 0 <= i && j == i + 1 && j < Count(w)
        ensures Bucket(w, i).end == Bucket(w, j).start
      {
        BucketBounds(w, i);
        BucketBounds(w, j);
      }
      BucketBounds(w, 0);
      BucketBounds(w, Count(w) - 1);
    }
  }

  /** Every time in the window is given a bucket in range, and the bucket that contains it is
      that one alone. */
  lemma IndexIsBucket(w: Window, floors: bool, t: int)
    requires Sound(w) && (w.start >= 0 || w.start % w.width == 0)
    requires InWindow(w, t)
    ensures 0 <= IndexOf(w, floors, t) < Count(w)
    ensures forall i :: 0 <= i < Count(w) ==> (InSpan(Bucket(w, i), t) <==> i == IndexOf(w, floors, t))
  {
    OriginBounds(w);
    CountReachesEnd(w);
    DivisionBounds(t - w.origin, w.width);
    var k := IndexOf(w, floors, t);
    assert k == (t - w.origin) / w.width;
    assert k * w.width <= t - w.origin < k * w.width + w.width;
    Steps(k, 0, w.width);
    Steps(Count(w) - 1, k, w.width);
    forall i | 0 <= i < Count(w)
      ensures InSpan(Bucket(w, i), t) <==> i == k
    {
      BucketBounds(w, i);
      Steps(i, k, w.width);
      Steps(k, i, w.width);
    }
  }

  /** The range of a report, in hours, and the length of its buckets, in minutes. */
  predicate IsRange(hours: int, minutes: int) {
    || (hours == 1 && minutes == 5) || (hours == 6 && minutes == 15)
    || (hours == 24 && minutes == 30) || (hours == 168 && minutes == 180)
  }

  /** There is a report for these ranges only; its window is the last hours up to now, and holds as many buckets as fit,
      and one more when it starts after the epoch and not on a boundary. */
  lemma BucketCount(hours: int, now: int)
    ensures BucketMinutes(hours) > 0 <==> exists minutes :: IsRange(hours, minutes)
    ensures forall minutes :: IsRange(hours, minutes) ==>
      && BucketMinutes(hours) == minutes
      && var w := WindowOf(hours, now);
         && w.start == now - hours * 3_600_000 && w.end == now && w.width == minutes * 60_000
         && Count(w) == hours * 60 / minutes + (if w.start > 0 && w.start % w.width != 0 then 1 else 0)
  {
    assert IsRange(1, 5) && IsRange(6, 15) && IsRange(24, 30) && IsRange(168, 180);
    if BucketMinutes(hours) > 0 {
      CountOfRange(hours, now);
    }
  }

  lemma CountOfRange(hours: int, now: int)
    requires BucketMinutes(hours) > 0
    ensures var w := WindowOf(hours, now);
      Count(w) == hours * 60 / BucketMinutes(hours) + (if w.start > 0 && w.start % w.width != 0 then 1 else 0)
  {
    var w := WindowOf(hours, now);
    OriginBounds(w);
    CountReachesEnd(w);
    var n := hours * 60 / BucketMinutes(hours);
    assert w.end - w.start == n * w.width;
    var want := n + (if w.start > 0 && w.start % w.width != 0 then 1 else 0);
    var a := w.end - w.origin + w.width - 1;
    assert (n + 1) * w.width == n * w.width + w.width;
    QuotientIsUnique(a, w.width, want);
  }
}
