/** The activity view as a whole: which stored calls a viewer's count takes in, and that the
    report says of every bucket and talkgroup what counting the archive would say. */
module ActivityReport {
  import opened Prelude
  import opened Counting
  import opened ActivityWindow
  import opened Activity
  import Access
  import Delayer

  datatype System = System(ref: nat, delay: nat, name: string)

  datatype TalkgroupRow = TalkgroupRow(system: nat, ref: nat, delay: nat, title: string, name: string)

  /** The tables the query reads; `delayed` holds the calls pending release. */
  datatype Tables = Tables(calls: seq<Call>, systems: map<nat, System>, talkgroups: map<nat, TalkgroupRow>,
    delayed: set<nat>)

  /** `ids` are the talkgroups a viewer is limited to, if there is a limit; `floors` tells the engines
      whose division rounds down; system zero means every system. */
  datatype Query = Query(window: Window, floors: bool, system: nat, ids: Option<seq<nat>>, listener: bool)

  predicate HasSystem(db: Tables, talkgroup: nat) {
    talkgroup in db.talkgroups && db.talkgroups[talkgroup].system in db.systems
  }

  predicate Joined(db: Tables, c: Call) {
    HasSystem(db, c.talkgroup) && db.talkgroups[c.talkgroup].system == c.system
  }

  predicate Open(db: Tables, scope: Access.Scope, talkgroup: nat) {
    HasSystem(db, talkgroup)
    && Access.Grants(scope, db.systems[db.talkgroups[talkgroup].system].ref, db.talkgroups[talkgroup].ref)
  }

  // --- The talkgroups an access permits ---

  /** The identifiers collected, each once, are those of the talkgroups the access grants. */
  ghost predicate Permits(db: Tables, scope: Access.Scope, ids: seq<nat>) {
    Distinct(ids) && forall id :: id in ids <==> Open(db, scope, id)
  }

  predicate SystemOpen(db: Tables, scope: Access.Scope, system: nat) {
    exists id :: id in db.talkgroups && Open(db, scope, id) && db.talkgroups[id].system == system
  }

  /** Asks of every talkgroup, in any order, whether the access grants it. */
  method PermittedTalkgroups(db: Tables, scope: Access.Scope) returns (ids: seq<nat>, allowedSystems: set<nat>)
    ensures Permits(db, scope, ids)
    ensures forall s :: s in allowedSystems <==> SystemOpen(db, scope, s)
  {
    ids, allowedSystems := [], {};
    var pending := db.talkgroups.Keys;
    while pending != {}
      invariant pending <= db.talkgroups.Keys
      invariant Distinct(ids) && forall id ::
        id in ids <==> id in db.talkgroups && id !in pending && Open(db, scope, id)
      invariant forall s :: s in allowedSystems <==> exists id :: id in ids && db.talkgroups[id].system == s
    {
      HasElement(pending);
      var id :| id in pending;
      var t := db.talkgroups[id];
      ghost var before := ids;
      if t.system in db.systems {
        var granted := Access.HasAccess(scope, db.systems[t.system].ref, t.ref);
        if granted {
          ids := ids + [id];
          allowedSystems := allowedSystems + {t.system};
          assert forall x :: x in ids <==> x in before || x == id;
        }
      }
      pending := pending - {id};
    }
  }

  /** The systems listed, in the order the store gives them: all, or those with a permitted talkgroup. */
  method ListSystems(order: seq<nat>, limited: bool, allowedSystems: set<nat>) returns (systems: seq<nat>)
    ensures systems == Filter((s: nat) => !limited || s in allowedSystems, order)
  {
    systems := [];
    for i := 0 to |order|
      invariant systems == Filter((s: nat) => !limited || s in allowedSystems, order[..i])
    {
      assert order[..i + 1] == order[..i] + [order[i]];
      FilterAppended((s: nat) => !limited || s in allowedSystems, order[..i], order[i]);
      if !limited || order[i] in allowedSystems {
        systems := systems + [order[i]];
      }
    }
    assert order[..|order|] == order;
  }

  // --- Which calls are counted ---

  /** No pending row, and old enough for the delay of its talkgroup or else of its system. */
  predicate Released(db: Tables, c: Call, end: int) {
    c.id !in db.delayed
    && HasSystem(db, c.talkgroup)
    && var t := db.talkgroups[c.talkgroup];
       c.timestamp <= end - (if t.delay > 0 then t.delay else db.systems[t.system].delay) * MINUTE
  }

  predicate Counted(db: Tables, q: Query, c: Call) {
    && InWindow(q.window, c.timestamp)
    && (q.ids.Some? ==> |q.ids.value| > 0 && c.talkgroup in q.ids.value)
    && (q.system != 0 ==> c.system == q.system)
    && (q.listener ==> Released(db, c, q.window.end))
    && Joined(db, c)
  }

  function DetailsOf(db: Tables, talkgroup: nat): Details {
    if HasSystem(db, talkgroup) then
      var t := db.talkgroups[talkgroup];
      Details(t.system, db.systems[t.system].name, t.ref, t.title, t.name)
    else Details(0, "", 0, "", "")
  }

  function ViewOf(db: Tables, q: Query): View
    requires q.window.width > 0
  {
    View((c: Call) => Counted(db, q, c),
      (c: Call) => Key(IndexOf(q.window, q.floors, c.timestamp), c.system, c.talkgroup),
      (id: nat) => DetailsOf(db, id))
  }

  datatype Bar = Bar(span: Span, calls: nat)

  datatype Report = Report(total: nat, bars: seq<Bar>, talkgroups: seq<Group>)

  /** The report counted directly: of the calls, not of the rows. */
  ghost predicate Exact(v: View, calls: seq<Call>, spans: seq<Span>, r: Report) {
    && r.total == CountIf(Among(v, All()), calls)
    && |r.bars| == |spans|
    && (forall i :: 0 <= i < |spans| ==> r.bars[i] == Bar(spans[i], CountIf(Among(v, Bin(i)), calls)))
    && IsRanking(v, calls, |spans|, r.talkgroups)
  }

  /** What is reported does not depend on the order rows or talkgroups were visited in. */
  lemma OneReport(v: View, calls: seq<Call>, spans: seq<Span>, a: Report, b: Report)
    requires Exact(v, calls, spans, a) && Exact(v, calls, spans, b)
    ensures a == b
  {
    OneRanking(v, calls, |spans|, a.talkgroups, b.talkgroups);
    assert forall i :: 0 <= i < |spans| ==> a.bars[i] == b.bars[i];
  }

  // --- The sums agree ---

  function BarCalls(r: Report): int -> int {
    i => if 0 <= i < |r.bars| then r.bars[i].calls else 0
  }

  function GroupCalls(r: Report): int -> int {
    j => if 0 <= j < |r.talkgroups| then r.talkgroups[j].calls else 0
  }

  function CellCalls(g: Group): int -> int {
    i => if 0 <= i < |g.buckets| then g.buckets[i] else 0
  }

  ghost predicate BinsInRange(v: View, calls: seq<Call>, n: nat) {
    forall c :: c in calls && v.counted(c) ==> 0 <= v.key(c).bucket < n
  }

  function Indices(n: nat): (s: seq<int>)
    ensures |s| == n && Distinct(s)
    ensures forall i :: 0 <= i < n ==> s[i] == i && i in s
  {
    var s := seq(n, i => i);
    assert forall i :: 0 <= i < n ==> s[i] == i;
    s
  }

  function BinOf(v: View): Call -> int { (c: Call) => v.key(c).bucket }
  function TalkgroupOf(v: View): Call -> int { (c: Call) => v.key(c).talkgroup as int }

  lemma BarsAddUp(v: View, calls: seq<Call>, spans: seq<Span>, r: Report)
    requires Exact(v, calls, spans, r) && BinsInRange(v, calls, |spans|)
    ensures Sum(BarCalls(r), |r.bars|) == r.total
  {
    var ids := Indices(|spans|);
    forall i | 0 <= i < |ids| ensures BarCalls(r)(i) == CountIf(OnKey(Among(v, All()), BinOf(v), ids[i]), calls) {
      CountSame(Among(v, Bin(i)), OnKey(Among(v, All()), BinOf(v), ids[i]), calls);
    }
    CountByKeyInFull(Among(v, All()), BinOf(v), ids, calls, BarCalls(r));
  }

  lemma TimelineAddsUp(v: View, calls: seq<Call>, n: nat, id: nat)
    requires BinsInRange(v, calls, n)
    ensures Sum(CellCalls(TrueGroup(v, calls, n, id)), n) == TrueGroup(v, calls, n, id).calls
  {
    var ids, p, f := Indices(n), Among(v, Talkgroup(id)), CellCalls(TrueGroup(v, calls, n, id));
    forall i | 0 <= i < n ensures f(i) == CountIf(OnKey(p, BinOf(v), ids[i]), calls) {
      CountSame(Among(v, Cell(id, i)), OnKey(p, BinOf(v), ids[i]), calls);
    }
    CountByKeyInFull(p, BinOf(v), ids, calls, f);
  }

  function RankedIds(ranked: seq<Group>): (ids: seq<int>)
    ensures |ids| == |ranked| && forall j :: 0 <= j < |ranked| ==> ids[j] == ranked[j].id
  {
    seq(|ranked|, j requires 0 <= j < |ranked| => ranked[j].id)
  }

  lemma HeardIsRanked(v: View, calls: seq<Call>, n: nat, ranked: seq<Group>, c: Call)
    requires IsRanking(v, calls, n, ranked) && c in calls && v.counted(c)
    ensures TalkgroupOf(v)(c) in RankedIds(ranked)
  {
    assert Heard(v, calls, v.key(c).talkgroup);
    var j :| 0 <= j < |ranked| && ranked[j].id == v.key(c).talkgroup;
    assert RankedIds(ranked)[j] == TalkgroupOf(v)(c);
  }

  lemma TalkgroupsAddUp(v: View, calls: seq<Call>, n: nat, r: Report)
    requires IsRanking(v, calls, n, r.talkgroups) && r.total == CountIf(Among(v, All()), calls)
    ensures Sum(GroupCalls(r), |r.talkgroups|) == r.total
  {
    var p, ids := Among(v, All()), RankedIds(r.talkgroups);
    forall j | 0 <= j < |ids| ensures GroupCalls(r)(j) == CountIf(OnKey(p, TalkgroupOf(v), ids[j]), calls) {
      CountSame(Among(v, Talkgroup(r.talkgroups[j].id)), OnKey(p, TalkgroupOf(v), ids[j]), calls);
    }
    forall c | c in calls && p(c) ensures TalkgroupOf(v)(c) in ids {
      HeardIsRanked(v, calls, n, r.talkgroups, c);
    }
    CountByKeyInFull(p, TalkgroupOf(v), ids, calls, GroupCalls(r));
  }

  /** The total is the number of counted calls; the buckets add up to it, and so do the
      talkgroups; and each talkgroup's timeline adds up to its count. */
  lemma TotalsAgree(v: View, calls: seq<Call>, spans: seq<Span>, r: Report)
    requires Exact(v, calls, spans, r) && BinsInRange(v, calls, |spans|)
    ensures r.total == CountIf(v.counted, calls)
    ensures Sum(BarCalls(r), |r.bars|) == r.total
    ensures Sum(GroupCalls(r), |r.talkgroups|) == r.total
    ensures forall j :: 0 <= j < |r.talkgroups| ==> Sum(CellCalls(r.talkgroups[j]), |spans|) == r.talkgroups[j].calls
  {
    CountSame(v.counted, Among(v, All()), calls);
    BarsAddUp(v, calls, spans, r);
    TalkgroupsAddUp(v, calls, |spans|, r);
    forall j | 0 <= j < |r.talkgroups|
      ensures Sum(CellCalls(r.talkgroups[j]), |spans|) == r.talkgroups[j].calls
    {
      TimelineAddsUp(v, calls, |spans|, r.talkgroups[j].id);
    }
  }

  // --- The report ---

  function Spans(w: Window): (s: seq<Span>)
    requires Sound(w)
    ensures |s| == Count(w)
    ensures forall i :: 0 <= i < |s| ==> s[i] == Bucket(w, i)
  {
    CountReachesEnd(w);
    seq(Count(w), i => Bucket(w, i))
  }

  lemma TallyIsExact(v: View, calls: seq<Call>, rows: seq<Row>, spans: seq<Span>, t: Tally, r: Report)
    requires Groups(v, calls, rows) && TallyHolds(|spans|, rows, t)
    requires r.total == t.total && |r.bars| == |spans|
    requires forall i :: 0 <= i < |spans| ==> r.bars[i] == Bar(spans[i], t.buckets[i])
    requires forall g :: g in r.talkgroups <==> g.id in t.groups && g == t.groups[g.id]
    requires Pairwise(Ahead, r.talkgroups)
    ensures Exact(v, calls, spans, r)
  {
    RowsCountCalls(v, calls, rows, All());
    forall i | 0 <= i < |spans| ensures t.buckets[i] == CountIf(Among(v, Bin(i)), calls) {
      RowsCountCalls(v, calls, rows, Bin(i));
    }
    forall id | id in t.groups ensures t.groups[id] == TrueGroup(v, calls, |spans|, id) {
      GroupIsTrue(v, calls, rows, |spans|, id, t.groups[id]);
    }
    forall id ensures Heard(v, calls, id) <==> id in t.groups {
      ShownIsHeard(v, calls, rows, id);
    }
    RankedIsRanking(v, calls, |spans|, t.groups, r.talkgroups);
  }

  lemma RankedIsRanking(v: View, calls: seq<Call>, n: nat, groups: map<nat, Group>, ranked: seq<Group>)
    requires forall id :: Heard(v, calls, id) <==> id in groups
    requires forall id :: id in groups ==> groups[id] == TrueGroup(v, calls, n, id)
    requires forall g :: g in ranked <==> g.id in groups && g == groups[g.id]
    requires Pairwise(Ahead, ranked)
    ensures IsRanking(v, calls, n, ranked)
  {
    forall j | 0 <= j < |ranked|
      ensures ranked[j] == TrueGroup(v, calls, n, ranked[j].id) && ranked[j].id in groups
    {
      assert ranked[j] in ranked;
    }
    forall id ensures Heard(v, calls, id) <==> exists j :: 0 <= j < |ranked| && ranked[j].id == id {
      if id in groups {
        assert groups[id] in ranked;
      }
    }
  }

  lemma ShownIsHeard(v: View, calls: seq<Call>, rows: seq<Row>, id: nat)
    requires Groups(v, calls, rows)
    ensures Shows(id, rows) <==> Heard(v, calls, id)
  {
    if Shows(id, rows) {
      var k :| 0 <= k < |rows| && rows[k].key.talkgroup == id;
      RowHasCall(v, calls, rows, k);
    }
    if Heard(v, calls, id) {
      var c :| c in calls && v.counted(c) && v.key(c).talkgroup == id;
      CallHasRow(v, calls, rows, c);
    }
  }

  /** The rows' buckets are in range exactly when the calls' are. */
  lemma RangeOfRows(v: View, calls: seq<Call>, rows: seq<Row>, n: nat)
    requires Groups(v, calls, rows)
    ensures InRange(n, rows) <==> BinsInRange(v, calls, n)
  {
    forall k | 0 <= k < |rows|
      ensures exists c :: c in calls && v.counted(c) && v.key(c) == rows[k].key
    {
      assert IsRow(v, calls, rows[k]);
    }
  }

  /** The store answers every query with the groups of the calls it counts. */
  ghost predicate Answers(db: Tables, store: Query -> seq<Row>) {
    forall q: Query :: Sound(q.window) ==> Groups(ViewOf(db, q), db.calls, store(q))
  }

  /** The limit of the query is none without an access, and else the talkgroups it permits. */
  ghost predicate LimitedBy(db: Tables, access: Option<Access.Scope>, ids: Option<seq<nat>>) {
    if access.None? then ids.None? else ids.Some? && Permits(db, access.value, ids.value)
  }

  /** The report for a range of hours. There is none for other ranges, nor when a call falls outside
      the buckets. */
  method ReadScopedActivity(db: Tables, hours: int, system: nat, now: int, floors: bool,
      access: Option<Access.Scope>, listener: bool, store: Query -> seq<Row>, order: seq<nat>)
    returns (report: Option<Report>, systems: seq<nat>, ghost ids: Option<seq<nat>>)
    requires Answers(db, store)
    ensures BucketMinutes(hours) == 0 ==> report.None?
    ensures BucketMinutes(hours) > 0 ==>
      var w := WindowOf(hours, now);
      var v := ViewOf(db, Query(w, floors, system, ids, listener));
      && Sound(w) && LimitedBy(db, access, ids)
      && (report.Some? <==> BinsInRange(v, db.calls, Count(w)))
      && (report.Some? ==> Exact(v, db.calls, Spans(w), report.value))
      && systems == Filter((s: nat) => access.Some? ==> SystemOpen(db, access.value, s), order)
  {
    if BucketMinutes(hours) == 0 {
      return None, [], None;
    }
    var limit: Option<seq<nat>> := None;
    var allowedSystems: set<nat> := {};
    if access.Some? {
      var permitted;
      permitted, allowedSystems := PermittedTalkgroups(db, access.value);
      limit := Some(permitted);
    }
    ids := limit;
    systems := ListSystems(order, access.Some?, allowedSystems);
    SameFilter((s: nat) => !access.Some? || s in allowedSystems,
      (s: nat) => access.Some? ==> SystemOpen(db, access.value, s), order);
    var w := WindowOf(hours, now);
    var q := Query(w, floors, system, limit, listener);
    report := ReportOf(db, q, store(q));
  }

  /** Folds the rows of a query into the report. */
  method ReportOf(db: Tables, q: Query, rows: seq<Row>) returns (report: Option<Report>)
    requires Sound(q.window) && Groups(ViewOf(db, q), db.calls, rows)
    ensures report.Some? <==> BinsInRange(ViewOf(db, q), db.calls, Count(q.window))
    ensures report.Some? ==> Exact(ViewOf(db, q), db.calls, Spans(q.window), report.value)
  {
    var w := q.window;
    ghost var v := ViewOf(db, q);
    CountReachesEnd(w);
    RangeOfRows(v, db.calls, rows, Count(w));
    var tally := Aggregate(Count(w), rows);
    if tally.None? {
      return None;
    }
    var t := tally.value;
    var bars := seq(Count(w), i requires 0 <= i < Count(w) => Bar(Bucket(w, i), t.buckets[i]));
    var talkgroups := Rank(t.groups);
    var r := Report(t.total, bars, talkgroups);
    TallyIsExact(v, db.calls, rows, Spans(w), t, r);
    return Some(r);
  }

  lemma {:induction false} SameFilter(p: nat -> bool, q: nat -> bool, s: seq<nat>)
    requires forall x :: p(x) == q(x)
    ensures Filter(p, s) == Filter(q, s)
  {
    if s != [] {
      SameFilter(p, q, s[1..]);
    }
  }

  // --- What a bucket holds ---

  /** A window that does not start before the epoch, or starts on a boundary, always has a
      report, and each bucket counts the counted calls recorded in its own span. */
  lemma BucketsCountTheirSpan(db: Tables, q: Query, r: Report)
    requires Sound(q.window) && (q.window.start >= 0 || q.window.start % q.window.width == 0)
    ensures BinsInRange(ViewOf(db, q), db.calls, Count(q.window))
    ensures Exact(ViewOf(db, q), db.calls, Spans(q.window), r) ==>
      forall i :: 0 <= i < |r.bars| ==>
        r.bars[i].calls == CountIf((c: Call) => Counted(db, q, c) && InSpan(r.bars[i].span, c.timestamp), db.calls)
  {
    var v, w := ViewOf(db, q), q.window;
    forall c | c in db.calls && v.counted(c)
      ensures 0 <= v.key(c).bucket < Count(w)
      ensures forall i :: 0 <= i < Count(w) ==> (InSpan(Bucket(w, i), c.timestamp) <==> i == v.key(c).bucket)
    {
      IndexIsBucket(w, q.floors, c.timestamp);
    }
    if Exact(v, db.calls, Spans(w), r) {
      forall i | 0 <= i < |r.bars|
        ensures r.bars[i].calls
          == CountIf((c: Call) => Counted(db, q, c) && InSpan(r.bars[i].span, c.timestamp), db.calls)
      {
        CountSame(Among(v, Bin(i)), (c: Call) => Counted(db, q, c) && InSpan(r.bars[i].span, c.timestamp), db.calls);
      }
    }
  }

  // --- Listener and administrator ---

  function DelayedCall(db: Tables, c: Call): Delayer.Call
    requires HasSystem(db, c.talkgroup)
  {
    var t := db.talkgroups[c.talkgroup];
    Delayer.Call(c.id, c.timestamp, t.delay, db.systems[t.system].delay)
  }

  /** With the limit its access gives, a listener counts what the administrator counts, if the access
      grants the call's talkgroup, nothing holds the call back, and the delayer would let it through at
      the end of the window. */
  lemma ListenerCounts(db: Tables, q: Query, scope: Access.Scope, c: Call)
    requires q.listener && LimitedBy(db, Some(scope), q.ids)
    ensures Counted(db, q, c) <==>
      && Counted(db, q.(ids := None, listener := false), c)
      && (var t := db.talkgroups[c.talkgroup]; Access.Grants(scope, db.systems[t.system].ref, t.ref))
      && c.id !in db.delayed
      && !Delayer.CanDelay(DelayedCall(db, c), q.window.end)
  {
    HasFirst(q.ids.value);
    assert c.talkgroup in q.ids.value <==> Open(db, scope, c.talkgroup);
  }

  /** No count a listener sees exceeds the administrator's, cell by cell. */
  lemma ListenerAtMostAdmin(db: Tables, q: Query, mine: Report, admin: Report, i: int, j: int)
    requires Sound(q.window)
    requires Exact(ViewOf(db, q), db.calls, Spans(q.window), mine)
    requires Exact(ViewOf(db, q.(ids := None, listener := false)), db.calls, Spans(q.window), admin)
    ensures mine.total <= admin.total
    ensures 0 <= i < |mine.bars| ==>
      mine.bars[i].span == admin.bars[i].span && mine.bars[i].calls <= admin.bars[i].calls
    ensures 0 <= j < |mine.talkgroups| ==> exists k ::
      && 0 <= k < |admin.talkgroups| && admin.talkgroups[k].id == mine.talkgroups[j].id
      && AtMost(mine.talkgroups[j], admin.talkgroups[k])
  {
    var v, u := ViewOf(db, q), ViewOf(db, q.(ids := None, listener := false));
    FewerAmong(v, u, db.calls, All());
    FewerAmong(v, u, db.calls, Bin(i));
    if 0 <= j < |mine.talkgroups| {
      RankedWithin(v, u, db.calls, |Spans(q.window)|, mine.talkgroups, admin.talkgroups, j);
    }
  }

  lemma RankedWithin(v: View, u: View, calls: seq<Call>, n: nat, mine: seq<Group>, all: seq<Group>, j: nat)
    requires forall c :: c in calls ==> Narrower(v, u, c)
    requires forall id :: v.details(id) == u.details(id)
    requires IsRanking(v, calls, n, mine) && IsRanking(u, calls, n, all) && j < |mine|
    ensures exists k :: 0 <= k < |all| && all[k].id == mine[j].id && AtMost(mine[j], all[k])
  {
    var id := mine[j].id;
    assert Heard(v, calls, id);
    var c :| c in calls && v.counted(c) && v.key(c).talkgroup == id;
    assert Narrower(v, u, c);
    assert Heard(u, calls, id);
    var k :| 0 <= k < |all| && all[k].id == id;
    GroupAtMost(v, u, calls, n, id);
    assert mine[j] == TrueGroup(v, calls, n, mine[j].id) && all[k] == TrueGroup(u, calls, n, all[k].id);
  }

  predicate AtMost(a: Group, b: Group) {
    a.calls <= b.calls && a.lastCall <= b.lastCall && |a.buckets| == |b.buckets|
    && forall i :: 0 <= i < |a.buckets| ==> a.buckets[i] <= b.buckets[i]
  }

  predicate Narrower(v: View, u: View, c: Call) {
    v.counted(c) ==> u.counted(c) && v.key(c) == u.key(c)
  }

  lemma FewerAmong(v: View, u: View, calls: seq<Call>, q: Key -> bool)
    requires forall c :: c in calls ==> Narrower(v, u, c)
    ensures CountIf(Among(v, q), calls) <= CountIf(Among(u, q), calls)
  {
    CountWeakens(Among(v, q), Among(u, q), calls);
  }

  lemma GroupAtMost(v: View, u: View, calls: seq<Call>, n: nat, id: nat)
    requires forall c :: c in calls ==> Narrower(v, u, c)
    ensures AtMost(TrueGroup(v, calls, n, id), TrueGroup(u, calls, n, id))
  {
    FewerAmong(v, u, calls, Talkgroup(id));
    var p, q := Among(v, Talkgroup(id)), Among(u, Talkgroup(id));
    assert forall c :: c in calls && p(c) ==> q(c);
    forall i | 0 <= i < n
      ensures CountIf(Among(v, Cell(id, i)), calls) <= CountIf(Among(u, Cell(id, i)), calls)
    {
      FewerAmong(v, u, calls, Cell(id, i));
    }
  }
}
