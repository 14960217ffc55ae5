/** The order in which playback visits an archive of `n` calls, in numbers alone: what is on screen,
    which call is heard, and what comes next. Calls are numbered from the oldest. */
module PlaybackTrail {
  import opened Prelude
  import opened Walk

  /** The most rows the server sends. */
  const PAGE := 500

  /** What is on screen: `rows` rows from `offset` on, asked for with `limit`; the call heard; and
      whether the end of the archive has been looked at again already. */
  datatype View = View(sort: int, limit: nat, offset: nat, rows: nat, q: int, refreshed: bool)

  /** The place of call number `q` in a listing sorted this way, and back. */
  function Place(n: nat, sort: int, q: int): int {
    if sort < 0 then n - 1 - q else q
  }

  /** How many rows the server sends for a limit and an offset. */
  function Sent(n: nat, limit: nat, offset: nat): int {
    Min(Min(PAGE, limit), n - offset)
  }

  /** The rows are there and hold the call; they are as the server sent them, or were collected from
      the first one on, the limit being their number. */
  predicate Fits(n: nat, v: View) {
    && v.limit >= 1 && (v.sort == -1 || v.sort >= 0)
    && v.rows > 0 && v.offset + v.rows <= n && 0 <= v.q < n
    && v.offset <= Place(n, v.sort, v.q) < v.offset + v.rows
    && (v.rows == Sent(n, v.limit, v.offset) || (v.offset == 0 && v.rows == v.limit))
  }

  predicate AtEdge(n: nat, v: View) {
    Place(n, v.sort, v.q) == if v.sort == -1 then v.offset else v.offset + v.rows - 1
  }

  /** There is a further page towards newer calls. */
  predicate Turns(n: nat, v: View) {
    if v.sort == -1 then v.offset >= v.limit else v.offset < n - v.limit
  }

  /** The whole archive, collected oldest first, longer than a page: asked for again it comes back
      cut to its first page, without the call just heard. */
  predicate Restarts(n: nat, v: View) {
    v.sort != -1 && v.rows > PAGE && v.rows == n && !v.refreshed
  }

  /** The offset of the page turned to, where there is one. */
  function TurnedOffset(v: View): nat {
    if v.sort != -1 then v.offset + v.limit else if v.offset >= v.limit then v.offset - v.limit else 0
  }

  /** A page is entered at its oldest row. */
  function Oldest(n: nat, sort: int, offset: nat, rows: int): int {
    Place(n, sort, if sort == -1 then offset + rows - 1 else offset)
  }

  function Asked(n: nat, v: View, offset: nat, refreshed: bool): View
    requires offset < n && v.limit > 0
  {
    var rows := Sent(n, v.limit, offset);
    View(v.sort, v.limit, offset, rows, Oldest(n, v.sort, offset, rows), refreshed)
  }

  /** The next call: the neighbouring row, the page turned to, the first row again, or none. */
  function NextView(n: nat, v: View): Option<View>
    requires Fits(n, v)
  {
    if !AtEdge(n, v) then Some(v.(q := v.q + 1))
    else if Turns(n, v) then Some(Asked(n, v, TurnedOffset(v), v.refreshed))
    else if Restarts(n, v) then Some(Asked(n, v, 0, true))
    else None
  }

  lemma NextFits(n: nat, v: View)
    requires Fits(n, v)
    ensures NextView(n, v).Some? ==> Fits(n, NextView(n, v).value)
  {
  }

  function Stepping(n: nat): View -> Option<View> {
    (v: View) => if Fits(n, v) then NextView(n, v) else None
  }

  function Number(): View -> int {
    (v: View) => v.q
  }

  /** What is on screen after `k` more calls, if playback goes on that long. */
  function Trail(n: nat, v: View, k: nat): Option<View> {
    At(Stepping(n), v, k)
  }

  /** The numbers of the calls visited in `k` steps. */
  function Visited(n: nat, v: View, k: nat): seq<int> {
    Labels(Stepping(n), Number(), v, k)
  }

  // --------------------------------------------------------------------- playback ends

  function ToGo(n: nat): View -> int {
    (v: View) => n - 1 - v.q + if Restarts(n, v) then 2 * n else 0
  }

  lemma TrailEnds(n: nat, v: View)
    ensures exists k: nat :: Trail(n, v, k).None?
  {
    forall t | Stepping(n)(t).Some? ensures 0 <= ToGo(n)(Stepping(n)(t).value) < ToGo(n)(t) {
    }
    Ends(Stepping(n), ToGo(n), v);
    var k: nat :| At(Stepping(n), v, k).None?;
    assert Trail(n, v, k).None?;
  }

  // ----------------------------------------------------------- in order, each call once

  /** Unless the listing restarts, the calls are visited in order, each at most once; one that does
      comes back to the oldest call after the newest. */
  lemma VisitsInOrder(n: nat, v: View)
    requires Fits(n, v)
    ensures (forall k: nat :: Rising(v.q, Visited(n, v, k))) <==> !Restarts(n, v)
  {
    if Restarts(n, v) {
      ComesBack(n, v);
    } else {
      var holds := (t: View) => Fits(n, t) && !Restarts(n, t);
      forall t | holds(t) && Stepping(n)(t).Some?
        ensures holds(Stepping(n)(t).value) && Number()(Stepping(n)(t).value) > Number()(t)
      {
        NextFits(n, t);
      }
      forall k: nat ensures Rising(v.q, Visited(n, v, k)) {
        RisingAlong(Stepping(n), Number(), holds, v, k);
      }
    }
  }

  lemma {:induction false} ComesBack(n: nat, v: View)
    requires Fits(n, v) && Restarts(n, v)
    ensures exists k: nat :: !Rising(v.q, Visited(n, v, k))
    decreases n - v.q
  {
    var w := NextView(n, v).value;
    if v.q < n - 1 {
      assert w == v.(q := v.q + 1);
      ComesBack(n, w);
      var k: nat :| !Rising(w.q, Visited(n, w, k));
      FirstThenRest(Stepping(n), Number(), v, k);
      NotRisingLater(v.q, w.q, Visited(n, w, k));
      assert !Rising(v.q, Visited(n, v, k + 1));
    } else {
      FirstThenRest(Stepping(n), Number(), v, 0);
      NotRisingFrom(v.q, 0);
      assert Visited(n, v, 1) == [0] + Visited(n, w, 0) == [0];
    }
  }

  lemma NotRisingFrom(from: int, next: int)
    requires next <= from
    ensures !Rising(from, [next])
  {
    var all := [from] + [next];
    assert !(all[0] < all[1]);
  }

  lemma NotRisingLater(from: int, next: int, numbers: seq<int>)
    requires !Rising(next, numbers)
    ensures !Rising(from, [next] + numbers)
  {
    var i, j :| 0 <= i < j < |numbers| + 1 && !(([next] + numbers)[i] < ([next] + numbers)[j]);
    var all := [from] + ([next] + numbers);
    assert all[i + 1] == ([next] + numbers)[i] && all[j + 1] == ([next] + numbers)[j];
  }

  // --------------------------------------------------------------- every later call

  /** What is left of an offset after turning back whole pages. */
  function Rest(offset: nat, limit: nat): nat
    requires limit > 0
  {
    if offset < limit then offset else Rest(offset - limit, limit)
  }

  lemma SubtractMultiple(x: int, m: int)
    requires 0 < m <= x
    ensures (x - m) % m == x % m
  {
    var d := x / m - (x - m) / m - 1;
    assert m * d == (x - m) % m - x % m by {
      assert x == m * (x / m) + x % m;
      assert x - m == m * ((x - m) / m) + (x - m) % m;
    }
    assert d >= 1 ==> m * d >= m;
    assert d <= -1 ==> m * d <= -m;
  }

  lemma {:induction false} RestIsRemainder(offset: nat, limit: nat)
    requires limit > 0
    ensures Rest(offset, limit) == offset % limit
  {
    if offset >= limit {
      RestIsRemainder(offset - limit, limit);
      SubtractMultiple(offset, limit);
    }
  }

  lemma {:induction false} RestAtMost(offset: nat, limit: nat)
    requires limit > 0
    ensures Rest(offset, limit) <= offset && (0 < offset < limit ==> Rest(offset, limit) != 0)
  {
    if offset >= limit {
      RestAtMost(offset - limit, limit);
    }
  }

  /** When no later call is passed over: newest first, the listing starts with the newest call, or on a
      whole page no longer than the server's; oldest first, the pages are no longer than the server's,
      or the listing goes to the end, or, being a full one, to within one more page of it. */
  predicate ReachesAll(n: nat, v: View)
    requires v.limit > 0
  {
    if v.sort == -1 then Rest(v.offset, v.limit) == 0 && (v.limit <= PAGE || v.offset == 0)
    else v.limit <= PAGE || v.offset + v.rows == n || (v.rows == v.limit && v.offset + v.rows + PAGE >= n)
  }

  ghost predicate VisitedEver(n: nat, v: View, j: int) {
    exists k: nat :: j in Visited(n, v, k)
  }

  /** On such a listing each step but the last visits the very next call, and leads to such a listing. */
  lemma NextIsVisited(n: nat, v: View)
    requires Fits(n, v) && ReachesAll(n, v) && v.q < n - 1
    ensures NextView(n, v).Some? && NextView(n, v).value.q == v.q + 1
    ensures Fits(n, NextView(n, v).value) && ReachesAll(n, NextView(n, v).value)
  {
    NextFits(n, v);
    RestAtMost(v.offset, v.limit);
  }

  lemma {:induction false} AllAreVisited(n: nat, v: View, j: int)
    requires Fits(n, v) && ReachesAll(n, v) && v.q < j < n
    ensures VisitedEver(n, v, j)
    decreases j - v.q
  {
    NextIsVisited(n, v);
    var w := NextView(n, v).value;
    if j == w.q {
      FirstThenRest(Stepping(n), Number(), v, 0);
      assert j in Visited(n, v, 1);
    } else {
      AllAreVisited(n, w, j);
      var k: nat :| j in Visited(n, w, k);
      FirstThenRest(Stepping(n), Number(), v, k);
      assert j in Visited(n, v, k + 1);
    }
  }

  // ----------------------------------------------------------------- calls passed over

  predicate AsSent(n: nat, v: View) {
    v.rows == Sent(n, v.limit, v.offset)
  }

  /** Call `j` is not visited any more from here. Newest first: it is the newest, and no page starts
      with it; or it lies behind; or just before a page too long for the server. Oldest first: it lies
      behind a page as the server sent it, or just after one it cut short, or so after the page that
      follows a long listing. */
  predicate Missed(n: nat, j: int, v: View) {
    && Fits(n, v) && 0 <= j < n
    && if v.sort == -1 then
         || (Rest(v.offset, v.limit) != 0 && j == n - 1)
         || j < v.q
         || (v.limit > PAGE && v.offset >= v.limit && j == n - v.offset)
       else
         || (AsSent(n, v) && j < v.q)
         || (AsSent(n, v) && v.limit > PAGE && v.rows == PAGE && j == v.offset + v.rows)
         || (!AsSent(n, v) && v.limit > PAGE && j == v.limit + PAGE)
  }

  lemma MissedStays(n: nat, j: int, v: View)
    requires Missed(n, j, v) && NextView(n, v).Some?
    ensures Missed(n, j, NextView(n, v).value)
  {
    NextFits(n, v);
  }

  /** One of the calls such a listing passes over. */
  function PassedOver(n: nat, v: View): int
    requires v.limit > 0
  {
    if v.sort == -1 then (if Rest(v.offset, v.limit) != 0 then n - 1 else n - v.offset)
    else if AsSent(n, v) then v.offset + v.rows
    else v.limit + PAGE
  }

  lemma MissedForGood(n: nat, v: View, j: int)
    requires Missed(n, j, v)
    ensures !VisitedEver(n, v, j)
  {
    var holds := (t: View) => Missed(n, j, t);
    forall t | holds(t) && Stepping(n)(t).Some? ensures holds(Stepping(n)(t).value) {
      MissedStays(n, j, t);
    }
    forall k: nat ensures j !in Visited(n, v, k) {
      HoldsAlong(Stepping(n), Number(), holds, v, k);
      forall i | 0 <= i < |Visited(n, v, k)| ensures Visited(n, v, k)[i] != j {
        var t :| holds(t) && Number()(t) == Visited(n, v, k)[i];
      }
    }
  }

  /** Every later call is visited exactly when the listing is such that none is passed over. */
  lemma VisitsAll(n: nat, v: View)
    requires Fits(n, v)
    ensures (forall j :: v.q < j < n ==> VisitedEver(n, v, j)) <==> ReachesAll(n, v)
  {
    if ReachesAll(n, v) {
      forall j | v.q < j < n ensures VisitedEver(n, v, j) {
        AllAreVisited(n, v, j);
      }
    } else {
      MissedForGood(n, v, PassedOver(n, v));
    }
  }

  /** The condition, in the two cases there are: a page asked for from the server, no longer than it
      sends; and a listing collected from the first row on, of any length. */
  lemma ReachesAllCases(n: nat, v: View)
    requires Fits(n, v)
    ensures v.limit <= PAGE ==> (ReachesAll(n, v) <==> v.sort != -1 || v.offset % v.limit == 0)
    ensures v.offset == 0 && v.rows == v.limit ==>
      (ReachesAll(n, v) <==> v.sort == -1 || v.rows <= PAGE || v.rows + PAGE >= n)
  {
    RestIsRemainder(v.offset, v.limit);
  }
}
