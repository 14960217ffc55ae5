/** The activity view: rows the store has grouped by bucket and talkgroup, folded in whatever
    order they come into totals, a timeline and a ranking. */
module Activity {
  import opened Prelude
  import opened Counting
  import opened Sorting

  datatype Call = Call(id: nat, system: nat, talkgroup: nat, timestamp: int)

  datatype Key = Key(bucket: int, system: nat, talkgroup: nat)

  datatype Details = Details(system: nat, systemLabel: string, reference: nat, talkgroupLabel: string,
      talkgroupName: string)

  /** One row of the grouped query. */
  datatype Row = Row(key: Key, calls: nat, latest: int, details: Details)

  datatype Group = Group(id: nat, details: Details, calls: nat, lastCall: int, buckets: seq<nat>)

  datatype Tally = Tally(total: nat, buckets: seq<nat>, groups: map<nat, Group>)

  /** What the calls are counted by: which count, under which key, and what is shown of a talkgroup. */
  datatype View = View(counted: Call -> bool, key: Call -> Key, details: nat -> Details)

  // --- The rows of the query ---

  ghost predicate IsRow(v: View, calls: seq<Call>, r: Row) {
    && r.calls == CountIf(OfKey(v, r.key), calls)
    && (exists c :: c in calls && v.counted(c) && v.key(c) == r.key && c.timestamp == r.latest)
    && (forall c :: c in calls && v.counted(c) && v.key(c) == r.key ==> c.timestamp <= r.latest)
    && r.details == v.details(r.key.talkgroup)
  }

  ghost predicate AreRows(v: View, calls: seq<Call>, rows: seq<Row>) {
    && (forall i, j :: 0 <= i < j < |rows| ==> rows[i].key != rows[j].key)
    && (forall i :: 0 <= i < |rows| ==> IsRow(v, calls, rows[i]))
  }

  predicate HasKeyIn(rows: seq<Row>, k: Key) {
    exists i :: 0 <= i < |rows| && rows[i].key == k
  }

  /** One row for each key some counted call has, in any order. */
  ghost predicate Groups(v: View, calls: seq<Call>, rows: seq<Row>) {
    && AreRows(v, calls, rows)
    && (forall c :: c in calls && v.counted(c) ==> HasKeyIn(rows, v.key(c)))
  }

  // --- The fold ---

  function SumRows(q: Key -> bool, rows: seq<Row>): nat {
    if rows == [] then 0
    else
      var r := rows[|rows| - 1];
      SumRows(q, rows[..|rows| - 1]) + if q(r.key) then r.calls else 0
  }

  function LatestRow(id: nat, rows: seq<Row>): int {
    if rows == [] then 0
    else
      var r := rows[|rows| - 1];
      var before := LatestRow(id, rows[..|rows| - 1]);
      if r.key.talkgroup == id then Max(before, r.latest) else before
  }

  predicate Shows(id: nat, rows: seq<Row>) {
    exists k :: 0 <= k < |rows| && rows[k].key.talkgroup == id
  }

  predicate InRange(n: nat, rows: seq<Row>) {
    forall k :: 0 <= k < |rows| ==> 0 <= rows[k].key.bucket < n
  }

  function All(): Key -> bool { (k: Key) => true }
  function Bin(i: int): Key -> bool { (k: Key) => k.bucket == i }
  function Talkgroup(id: nat): Key -> bool { (k: Key) => k.talkgroup == id }
  function Cell(id: nat, i: int): Key -> bool { (k: Key) => k.talkgroup == id && k.bucket == i }

  ghost predicate GroupHolds(n: nat, rows: seq<Row>, id: nat, g: Group) {
    && g.id == id
    && g.calls == SumRows(Talkgroup(id), rows)
    && g.lastCall == LatestRow(id, rows)
    && |g.buckets| == n
    && (forall i :: 0 <= i < n ==> g.buckets[i] == SumRows(Cell(id, i), rows))
    && exists k :: 0 <= k < |rows| && rows[k].key.talkgroup == id && g.details == rows[k].details
  }

  ghost predicate TallyHolds(n: nat, rows: seq<Row>, t: Tally) {
    && t.total == SumRows(All(), rows)
    && |t.buckets| == n
    && (forall i :: 0 <= i < n ==> t.buckets[i] == SumRows(Bin(i), rows))
    && (forall id :: id in t.groups <==> Shows(id, rows))
    && (forall id :: id in t.groups ==> GroupHolds(n, rows, id, t.groups[id]))
  }

  function GroupAfter(n: nat, found: Option<Group>, r: Row): Group
    requires 0 <= r.key.bucket < n
    requires found.Some? ==> |found.value.buckets| == n
  {
    var g := match found case Some(g) => g case None => Group(r.key.talkgroup, r.details, 0, 0, seq(n, _ => 0));
    g.(calls := g.calls + r.calls, lastCall := Max(g.lastCall, r.latest),
       buckets := g.buckets[r.key.bucket := g.buckets[r.key.bucket] + r.calls])
  }

  function Lookup(groups: map<nat, Group>, id: nat): Option<Group> {
    if id in groups then Some(groups[id]) else None
  }

  lemma {:induction false} NothingShown(id: nat, q: Key -> bool, rows: seq<Row>)
    requires !Shows(id, rows) && forall k :: q(k) ==> k.talkgroup == id
    ensures SumRows(q, rows) == 0 && LatestRow(id, rows) == 0
  {
    if rows != [] {
      NothingShown(id, q, rows[..|rows| - 1]);
    }
  }

  lemma GroupTakesRow(n: nat, rows: seq<Row>, found: Option<Group>, r: Row)
    requires 0 <= r.key.bucket < n
    requires found.Some? <==> Shows(r.key.talkgroup, rows)
    requires found.Some? ==> GroupHolds(n, rows, r.key.talkgroup, found.value)
    ensures GroupHolds(n, rows + [r], r.key.talkgroup, GroupAfter(n, found, r))
  {
    var id := r.key.talkgroup;
    var all := rows + [r];
    assert all[..|rows|] == rows && all[|rows|] == r;
    if found.None? {
      NothingShown(id, Talkgroup(id), rows);
    }
    forall i | 0 <= i < n
      ensures GroupAfter(n, found, r).buckets[i] == SumRows(Cell(id, i), all)
    {
      if found.None? {
        NothingShown(id, Cell(id, i), rows);
      }
    }
    if found.Some? {
      var k :| 0 <= k < |rows| && rows[k].key.talkgroup == id && found.value.details == rows[k].details;
      assert all[k] == rows[k];
    }
  }

  function TallyAfter(n: nat, t: Tally, r: Row): Tally
    requires 0 <= r.key.bucket < n && |t.buckets| == n
    requires r.key.talkgroup in t.groups ==> |t.groups[r.key.talkgroup].buckets| == n
  {
    Tally(t.total + r.calls,
      t.buckets[r.key.bucket := t.buckets[r.key.bucket] + r.calls],
      t.groups[r.key.talkgroup := GroupAfter(n, Lookup(t.groups, r.key.talkgroup), r)])
  }

  lemma EmptyTallyHolds(n: nat)
    ensures TallyHolds(n, [], Tally(0, seq(n, _ => 0), map[]))
  {
  }

  lemma TallyTakesRow(n: nat, rows: seq<Row>, t: Tally, r: Row)
    requires 0 <= r.key.bucket < n && TallyHolds(n, rows, t)
    ensures TallyHolds(n, rows + [r], TallyAfter(n, t, r))
  {
    var id := r.key.talkgroup;
    var all := rows + [r];
    var u := TallyAfter(n, t, r);
    assert all[|rows|] == r && forall k :: 0 <= k < |rows| ==> all[k] == rows[k];
    forall i | 0 <= i < n ensures u.buckets[i] == SumRows(Bin(i), all) {
    }
    GroupTakesRow(n, rows, Lookup(t.groups, id), r);
    forall x ensures x in u.groups <==> Shows(x, all) {
      if Shows(x, rows) {
        var k :| 0 <= k < |rows| && rows[k].key.talkgroup == x;
        assert all[k] == rows[k];
      }
    }
    forall x | x in u.groups ensures GroupHolds(n, all, x, u.groups[x]) {
    }
  }

  /** The aggregation loop: nothing when some row's bucket is out of range, else the sums over
      all rows, whatever their order. */
  method Aggregate(n: nat, rows: seq<Row>) returns (r: Option<Tally>)
    ensures r.Some? <==> InRange(n, rows)
    ensures r.Some? ==> TallyHolds(n, rows, r.value)
  {
    var total: nat, buckets: seq<nat>, groups: map<nat, Group> := 0, seq(n, _ => 0), map[];
    EmptyTallyHolds(n);
    for k := 0 to |rows|
      invariant InRange(n, rows[..k])
      invariant TallyHolds(n, rows[..k], Tally(total, buckets, groups))
    {
      var row := rows[k];
      var i := row.key.bucket;
      if i < 0 || i >= n {
        return None;
      }
      ghost var before := Tally(total, buckets, groups);
      assert rows[..k + 1] == rows[..k] + [row];
      TallyTakesRow(n, rows[..k], before, row);
      var id := row.key.talkgroup;
      var g := if id in groups then groups[id] else Group(id, row.details, 0, 0, seq(n, _ => 0));
      g := g.(buckets := g.buckets[i := g.buckets[i] + row.calls]);
      g := g.(calls := g.calls + row.calls, lastCall := Max(g.lastCall, row.latest));
      assert g == GroupAfter(n, Lookup(before.groups, id), row);
      groups := groups[id := g];
      buckets := buckets[i := buckets[i] + row.calls];
      total := total + row.calls;
      assert Tally(total, buckets, groups) == TallyAfter(n, before, row);
    }
    assert rows[..|rows|] == rows;
    return Some(Tally(total, buckets, groups));
  }

  // --- What the sums are sums of ---

  function Among(v: View, q: Key -> bool): Call -> bool {
    (c: Call) => v.counted(c) && q(v.key(c))
  }

  /** The time of the last call among those accepted, and zero when none is later. */
  function LatestCall(p: Call -> bool, calls: seq<Call>): (t: int)
    ensures t >= 0
    ensures forall c :: c in calls && p(c) ==> c.timestamp <= t
    ensures t == 0 || exists c :: c in calls && p(c) && c.timestamp == t
  {
    if calls == [] then 0
    else
      var rest := LatestCall(p, calls[1..]);
      if p(calls[0]) then Max(calls[0].timestamp, rest) else rest
  }

  /** The counted calls of a choice of keys that have a row. */
  function Rowed(v: View, q: Key -> bool, rows: seq<Row>): Call -> bool {
    (c: Call) => v.counted(c) && q(v.key(c)) && HasKeyIn(rows, v.key(c))
  }

  function OfKey(v: View, k: Key): Call -> bool {
    (c: Call) => v.counted(c) && v.key(c) == k
  }

  lemma KeysOfOneMore(rows: seq<Row>, r: Row, k: Key)
    ensures HasKeyIn(rows + [r], k) <==> HasKeyIn(rows, k) || k == r.key
  {
    var all := rows + [r];
    assert all[|rows|] == r;
    if HasKeyIn(rows, k) {
      var i :| 0 <= i < |rows| && rows[i].key == k;
      assert all[i].key == k;
    }
  }

  lemma CountsOfOneMore(v: View, calls: seq<Call>, q: Key -> bool, rows: seq<Row>, r: Row)
    requires r.calls == CountIf(OfKey(v, r.key), calls) && !HasKeyIn(rows, r.key)
    ensures CountIf(Rowed(v, q, rows + [r]), calls)
      == CountIf(Rowed(v, q, rows), calls) + if q(r.key) then r.calls else 0
  {
    var here := (c: Call) => q(r.key) && OfKey(v, r.key)(c);
    forall c: Call ensures HasKeyIn(rows + [r], v.key(c)) <==> HasKeyIn(rows, v.key(c)) || v.key(c) == r.key {
      KeysOfOneMore(rows, r, v.key(c));
    }
    CountSplits(Rowed(v, q, rows + [r]), Rowed(v, q, rows), here, calls);
    CountPositive(here, calls);
    if q(r.key) {
      CountSame(here, OfKey(v, r.key), calls);
    }
  }

  /** Of `AreRows`, what the counts depend on. */
  predicate RowsCount(v: View, calls: seq<Call>, rows: seq<Row>) {
    && (forall i, j :: 0 <= i < j < |rows| ==> rows[i].key != rows[j].key)
    && (forall i :: 0 <= i < |rows| ==> rows[i].calls == CountIf(OfKey(v, rows[i].key), calls))
  }

  lemma {:induction false} RowsCountRowed(v: View, calls: seq<Call>, rows: seq<Row>, q: Key -> bool)
    requires RowsCount(v, calls, rows)
    ensures SumRows(q, rows) == CountIf(Rowed(v, q, rows), calls)
  {
    if rows == [] {
      CountPositive(Rowed(v, q, rows), calls);
    } else {
      var n := |rows| - 1;
      RowsCountRowed(v, calls, rows[..n], q);
      assert rows == rows[..n] + [rows[n]];
      CountsOfOneMore(v, calls, q, rows[..n], rows[n]);
    }
  }

  /** Summing the rows of any choice of keys counts the calls that have those keys. */
  lemma RowsCountCalls(v: View, calls: seq<Call>, rows: seq<Row>, q: Key -> bool)
    requires Groups(v, calls, rows)
    ensures SumRows(q, rows) == CountIf(Among(v, q), calls)
  {
    RowsCountRowed(v, calls, rows, q);
    CountSame(Among(v, q), Rowed(v, q, rows), calls);
  }

  lemma {:induction false} LatestRowBounds(id: nat, rows: seq<Row>)
    ensures LatestRow(id, rows) >= 0
    ensures forall i :: 0 <= i < |rows| && rows[i].key.talkgroup == id ==> rows[i].latest <= LatestRow(id, rows)
    ensures LatestRow(id, rows) == 0
         || exists i :: 0 <= i < |rows| && rows[i].key.talkgroup == id && rows[i].latest == LatestRow(id, rows)
  {
    if rows != [] {
      LatestRowBounds(id, rows[..|rows| - 1]);
    }
  }

  lemma RowsKnowLatest(v: View, calls: seq<Call>, rows: seq<Row>, id: nat)
    requires Groups(v, calls, rows)
    ensures LatestRow(id, rows) == LatestCall(Among(v, Talkgroup(id)), calls)
  {
    LatestRowBounds(id, rows);
    var p := Among(v, Talkgroup(id));
    var byRow, byCall := LatestRow(id, rows), LatestCall(p, calls);
    if byRow != 0 {
      var i :| 0 <= i < |rows| && rows[i].key.talkgroup == id && rows[i].latest == byRow;
      RowHasCall(v, calls, rows, i);
    }
    if byCall != 0 {
      var c :| c in calls && p(c) && c.timestamp == byCall;
      CallHasRow(v, calls, rows, c);
    }
  }

  lemma RowHasCall(v: View, calls: seq<Call>, rows: seq<Row>, i: nat)
    requires AreRows(v, calls, rows) && i < |rows|
    ensures exists c :: c in calls && Among(v, Talkgroup(rows[i].key.talkgroup))(c) && c.timestamp == rows[i].latest
    ensures rows[i].details == v.details(rows[i].key.talkgroup)
  {
    assert IsRow(v, calls, rows[i]);
  }

  lemma CallHasRow(v: View, calls: seq<Call>, rows: seq<Row>, c: Call)
    requires Groups(v, calls, rows) && c in calls && v.counted(c)
    ensures exists i :: 0 <= i < |rows| && rows[i].key.talkgroup == v.key(c).talkgroup && c.timestamp <= rows[i].latest
  {
    var i :| 0 <= i < |rows| && rows[i].key == v.key(c);
    assert IsRow(v, calls, rows[i]);
  }

  /** A talkgroup's part of the view, counted directly over the calls. */
  function TrueGroup(v: View, calls: seq<Call>, n: nat, id: nat): Group {
    Group(id, v.details(id), CountIf(Among(v, Talkgroup(id)), calls), LatestCall(Among(v, Talkgroup(id)), calls),
      seq(n, i requires 0 <= i < n => CountIf(Among(v, Cell(id, i)), calls)))
  }

  lemma TimelineIsTrue(v: View, calls: seq<Call>, rows: seq<Row>, n: nat, id: nat, buckets: seq<nat>)
    requires Groups(v, calls, rows)
    requires |buckets| == n && forall i :: 0 <= i < n ==> buckets[i] == SumRows(Cell(id, i), rows)
    ensures buckets == TrueGroup(v, calls, n, id).buckets
  {
    forall i | 0 <= i < n ensures buckets[i] == CountIf(Among(v, Cell(id, i)), calls) {
      RowsCountCalls(v, calls, rows, Cell(id, i));
    }
  }

  lemma GroupIsTrue(v: View, calls: seq<Call>, rows: seq<Row>, n: nat, id: nat, g: Group)
    requires Groups(v, calls, rows) && GroupHolds(n, rows, id, g)
    ensures g == TrueGroup(v, calls, n, id)
  {
    TimelineIsTrue(v, calls, rows, n, id, g.buckets);
    RowsCountCalls(v, calls, rows, Talkgroup(id));
    RowsKnowLatest(v, calls, rows, id);
    var k :| 0 <= k < |rows| && rows[k].key.talkgroup == id && g.details == rows[k].details;
    RowHasCall(v, calls, rows, k);
  }

  // --- The ranking ---

  predicate Ahead(a: Group, b: Group) {
    a.calls > b.calls || (a.calls == b.calls && a.id < b.id)
  }

  predicate NotBehind(a: Group, b: Group) {
    a.calls > b.calls || (a.calls == b.calls && a.id <= b.id)
  }

  predicate Heard(v: View, calls: seq<Call>, id: nat) {
    exists c :: c in calls && v.counted(c) && v.key(c).talkgroup == id
  }

  /** Each talkgroup with a counted call once, in strict order: more calls first, then lower id. */
  ghost predicate IsRanking(v: View, calls: seq<Call>, n: nat, ranked: seq<Group>) {
    && (forall j :: 0 <= j < |ranked| ==> ranked[j] == TrueGroup(v, calls, n, ranked[j].id))
    && (forall id :: Heard(v, calls, id) <==> exists j :: 0 <= j < |ranked| && ranked[j].id == id)
    && Pairwise(Ahead, ranked)
  }

  lemma OneRanking(v: View, calls: seq<Call>, n: nat, a: seq<Group>, b: seq<Group>)
    requires IsRanking(v, calls, n, a) && IsRanking(v, calls, n, b)
    ensures a == b
  {
    RankingMembers(v, calls, n, a);
    RankingMembers(v, calls, n, b);
    OneArrangement(Ahead, a, b);
  }

  lemma RankingMembers(v: View, calls: seq<Call>, n: nat, a: seq<Group>)
    requires IsRanking(v, calls, n, a)
    ensures forall g :: g in a <==> Heard(v, calls, g.id) && g == TrueGroup(v, calls, n, g.id)
  {
    forall g ensures g in a <==> Heard(v, calls, g.id) && g == TrueGroup(v, calls, n, g.id) {
      if Heard(v, calls, g.id) && g == TrueGroup(v, calls, n, g.id) {
        var j :| 0 <= j < |a| && a[j].id == g.id;
        assert a[j] == g;
      }
    }
  }

  /** The groups, taken out of the map in any order, then sorted. */
  method Rank(groups: map<nat, Group>) returns (ranked: seq<Group>)
    requires forall id :: id in groups ==> groups[id].id == id
    ensures forall g :: g in ranked <==> g.id in groups && g == groups[g.id]
    ensures Pairwise(Ahead, ranked)
  {
    var list: seq<Group> := [];
    var pending := groups.Keys;
    while pending != {}
      invariant pending <= groups.Keys
      invariant forall g :: g in list <==> g.id in groups && g.id !in pending && g == groups[g.id]
      invariant Distinct(list)
    {
      HasElement(pending);
      var id :| id in pending;
      list := list + [groups[id]];
      pending := pending - {id};
    }
    ranked := Sort(NotBehind, list);
    OrderingKeeps(NotBehind, list, ranked);
    forall i, j | 0 <= i < j < |ranked| ensures Ahead(ranked[i], ranked[j]) {
      assert NotBehind(ranked[i], ranked[j]) && ranked[i] != ranked[j];
      assert ranked[i] in ranked && ranked[j] in ranked;
    }
  }
}
