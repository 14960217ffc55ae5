/** The report for one system, and which calls a report takes in, said of the tables and the request. */
module ActivitySystems {
  import opened Prelude
  import opened Sorting
  import opened Counting
  import opened ActivityWindow
  import opened Activity
  import opened ActivityReport

  // --- What the administrator's report counts ---

  /** The call's talkgroup is there, it is the call's system's, and that is there too. */
  predicate Stored(db: Tables, c: Call) {
    c.talkgroup in db.talkgroups && db.talkgroups[c.talkgroup].system == c.system && c.system in db.systems
  }

  /** The administrator's report for the last hours counts the calls recorded in them, up to now, that are
      stored under a talkgroup of their system, and if a system is asked for, those of that system. */
  lemma AdminReportCounts(db: Tables, hours: int, now: int, floors: bool, system: nat, r: Report)
    requires BucketMinutes(hours) > 0
    requires var w := WindowOf(hours, now);
      Sound(w) && Exact(ViewOf(db, Query(w, floors, system, None, false)), db.calls, Spans(w), r)
    ensures r.total == CountIf((c: Call) =>
      now - hours * 3_600_000 <= c.timestamp < now && (system == 0 || c.system == system) && Stored(db, c), db.calls)
  {
    var v := ViewOf(db, Query(WindowOf(hours, now), floors, system, None, false));
    CountSame(Among(v, All()), (c: Call) =>
      now - hours * 3_600_000 <= c.timestamp < now && (system == 0 || c.system == system) && Stored(db, c), db.calls);
  }

  /** The talkgroups of a report come with the most calls first, and by identifier where they have as many. */
  lemma RankingOrder(v: View, calls: seq<Call>, spans: seq<Span>, r: Report, i: nat, j: nat)
    requires Exact(v, calls, spans, r) && i < j < |r.talkgroups|
    ensures var a, b := r.talkgroups[i], r.talkgroups[j];
      a.calls >= b.calls && a.id != b.id && (a.calls == b.calls ==> a.id < b.id)
  {
    assert Ahead(r.talkgroups[i], r.talkgroups[j]);
  }

  /** Each has counted calls, and its details as they are stored. */
  lemma RankedDetails(db: Tables, q: Query, r: Report, i: nat)
    requires Sound(q.window) && Exact(ViewOf(db, q), db.calls, Spans(q.window), r) && i < |r.talkgroups|
    ensures var g := r.talkgroups[i];
      && g.calls > 0 && g.id in db.talkgroups
      && var t := db.talkgroups[g.id];
         && t.system in db.systems && g.details.system == t.system
         && g.details.systemLabel == db.systems[t.system].name
         && g.details.reference == t.ref && g.details.talkgroupLabel == t.title && g.details.talkgroupName == t.name
  {
    GroupDetails(db, q, |Spans(q.window)|, r.talkgroups, i);
  }

  lemma GroupDetails(db: Tables, q: Query, n: nat, ranked: seq<Group>, i: nat)
    requires q.window.width > 0 && IsRanking(ViewOf(db, q), db.calls, n, ranked) && i < |ranked|
    ensures var g := ranked[i];
      g.calls > 0 && HasSystem(db, g.id) && g.details == DetailsOf(db, g.id)
  {
    var v, g := ViewOf(db, q), ranked[i];
    assert Heard(v, db.calls, g.id);
    var c :| c in db.calls && v.counted(c) && v.key(c).talkgroup == g.id;
    CountPositive(Among(v, Talkgroup(g.id)), db.calls);
    assert Among(v, Talkgroup(g.id))(c);
  }

  // --- One system ---

  function OfSystem(s: nat): Call -> bool { (c: Call) => c.system == s }

  lemma {:induction false} CountFiltered<T(!new)>(p: T -> bool, q: T -> bool, r: T -> bool, s: seq<T>)
    requires forall x :: p(x) <==> q(x) && r(x)
    ensures CountIf(p, s) == CountIf(q, Filter(r, s))
  {
    if s != [] {
      CountFiltered(p, q, r, s[1..]);
      var all, rest := Filter(r, s), Filter(r, s[1..]);
      if r(s[0]) {
        assert all == [s[0]] + rest;
        assert all[1..] == rest;
      } else {
        assert all == rest;
      }
    }
  }

  lemma LatestFiltered(p: Call -> bool, q: Call -> bool, r: Call -> bool, s: seq<Call>)
    requires forall x :: p(x) <==> q(x) && r(x)
    ensures LatestCall(p, s) == LatestCall(q, Filter(r, s))
  {
  }

  /** One view counts what the other does, of the calls of that system, under the same keys. */
  ghost predicate Restricts(v: View, u: View, s: nat) {
    && (forall c :: v.counted(c) <==> u.counted(c) && c.system == s)
    && (forall c :: v.key(c) == u.key(c))
    && (forall id :: v.details(id) == u.details(id))
  }

  lemma RestrictedCount(v: View, u: View, s: nat, q: Key -> bool, calls: seq<Call>)
    requires Restricts(v, u, s)
    ensures CountIf(Among(v, q), calls) == CountIf(Among(u, q), Filter(OfSystem(s), calls))
    ensures LatestCall(Among(v, q), calls) == LatestCall(Among(u, q), Filter(OfSystem(s), calls))
  {
    CountFiltered(Among(v, q), Among(u, q), OfSystem(s), calls);
    LatestFiltered(Among(v, q), Among(u, q), OfSystem(s), calls);
  }

  lemma RestrictedGroup(v: View, u: View, s: nat, calls: seq<Call>, n: nat, id: nat)
    requires Restricts(v, u, s)
    ensures TrueGroup(v, calls, n, id) == TrueGroup(u, Filter(OfSystem(s), calls), n, id)
    ensures Heard(v, calls, id) <==> Heard(u, Filter(OfSystem(s), calls), id)
  {
    RestrictedCount(v, u, s, Talkgroup(id), calls);
    forall i | 0 <= i < n
      ensures CountIf(Among(v, Cell(id, i)), calls) == CountIf(Among(u, Cell(id, i)), Filter(OfSystem(s), calls))
    {
      RestrictedCount(v, u, s, Cell(id, i), calls);
    }
  }

  predicate SameAt(v: View, u: View, a: seq<Call>, b: seq<Call>, n: nat, id: nat) {
    TrueGroup(v, a, n, id) == TrueGroup(u, b, n, id) && (Heard(v, a, id) <==> Heard(u, b, id))
  }

  lemma SameRanking(v: View, u: View, a: seq<Call>, b: seq<Call>, n: nat, ranked: seq<Group>)
    requires forall id: nat :: SameAt(v, u, a, b, n, id)
    ensures IsRanking(v, a, n, ranked) <==> IsRanking(u, b, n, ranked)
  {
    forall id: nat ensures TrueGroup(v, a, n, id) == TrueGroup(u, b, n, id) && (Heard(v, a, id) <==> Heard(u, b, id)) {
      assert SameAt(v, u, a, b, n, id);
    }
  }

  lemma RestrictedIsExact(v: View, u: View, s: nat, calls: seq<Call>, spans: seq<Span>, r: Report)
    requires Restricts(v, u, s)
    ensures Exact(v, calls, spans, r) <==> Exact(u, Filter(OfSystem(s), calls), spans, r)
  {
    RestrictedCount(v, u, s, All(), calls);
    forall i | 0 <= i < |spans|
      ensures CountIf(Among(v, Bin(i)), calls) == CountIf(Among(u, Bin(i)), Filter(OfSystem(s), calls))
    {
      RestrictedCount(v, u, s, Bin(i), calls);
    }
    forall id: nat ensures SameAt(v, u, calls, Filter(OfSystem(s), calls), |spans|, id) {
      RestrictedGroup(v, u, s, calls, |spans|, id);
    }
    SameRanking(v, u, calls, Filter(OfSystem(s), calls), |spans|, r.talkgroups);
  }

  lemma ViewsRestrict(db: Tables, q: Query, s: nat)
    requires q.window.width > 0 && q.system == 0 && s > 0
    ensures Restricts(ViewOf(db, q.(system := s)), ViewOf(db, q), s)
  {
  }

  /** The report for one system is the report of the calls of that system: its total, its bars, its talkgroups
      and their timelines. */
  lemma SystemReportIsOfItsCalls(db: Tables, q: Query, s: nat, r: Report)
    requires Sound(q.window) && q.system == 0 && s > 0
    ensures Exact(ViewOf(db, q.(system := s)), db.calls, Spans(q.window), r)
       <==> Exact(ViewOf(db, q), Filter(OfSystem(s), db.calls), Spans(q.window), r)
  {
    ViewsRestrict(db, q, s);
    RestrictedIsExact(ViewOf(db, q.(system := s)), ViewOf(db, q), s, db.calls, Spans(q.window), r);
  }

  /** Its talkgroups are those of the system in the report for all systems, with the same counts and times, in the
      same order. */
  lemma SystemRankingIsPart(db: Tables, q: Query, s: nat, mine: Report, all: Report)
    requires Sound(q.window) && q.system == 0 && s > 0
    requires Exact(ViewOf(db, q.(system := s)), db.calls, Spans(q.window), mine)
    requires Exact(ViewOf(db, q), db.calls, Spans(q.window), all)
    ensures mine.talkgroups == Filter((g: Group) => g.details.system == s, all.talkgroups)
  {
    var v, u, n := ViewOf(db, q.(system := s)), ViewOf(db, q), |Spans(q.window)|;
    var ours := (g: Group) => g.details.system == s;
    RankingMembers(v, db.calls, n, mine.talkgroups);
    RankingMembers(u, db.calls, n, all.talkgroups);
    FilterKeepsPairs(Ahead, ours, all.talkgroups);
    forall g ensures g in mine.talkgroups <==> g in Filter(ours, all.talkgroups) {
      PartOfRanking(db, q, s, n, g);
    }
    OneArrangement(Ahead, mine.talkgroups, Filter(ours, all.talkgroups));
  }

  lemma PartOfRanking(db: Tables, q: Query, s: nat, n: nat, g: Group)
    requires q.window.width > 0 && q.system == 0 && s > 0
    ensures var v, u := ViewOf(db, q.(system := s)), ViewOf(db, q);
      Heard(v, db.calls, g.id) && g == TrueGroup(v, db.calls, n, g.id)
      <==> Heard(u, db.calls, g.id) && g == TrueGroup(u, db.calls, n, g.id) && g.details.system == s
  {
    var v, u := ViewOf(db, q.(system := s)), ViewOf(db, q);
    if Heard(u, db.calls, g.id) {
      var c :| c in db.calls && u.counted(c) && u.key(c).talkgroup == g.id;
      assert Joined(db, c) && DetailsOf(db, g.id).system == c.system;
      if c.system == s {
        SameGroupOfSystem(db, q, s, n, g.id);
      }
    }
  }

  lemma SameGroupOfSystem(db: Tables, q: Query, s: nat, n: nat, id: nat)
    requires q.window.width > 0 && q.system == 0 && s > 0
    requires id in db.talkgroups && db.talkgroups[id].system == s
    ensures TrueGroup(ViewOf(db, q.(system := s)), db.calls, n, id) == TrueGroup(ViewOf(db, q), db.calls, n, id)
  {
    var v, u := ViewOf(db, q.(system := s)), ViewOf(db, q);
    SameCountsOfSystem(db, q, s, id, Talkgroup(id));
    forall i | 0 <= i < n ensures CountIf(Among(v, Cell(id, i)), db.calls) == CountIf(Among(u, Cell(id, i)), db.calls) {
      SameCountsOfSystem(db, q, s, id, Cell(id, i));
    }
  }

  lemma SameCountsOfSystem(db: Tables, q: Query, s: nat, id: nat, keys: Key -> bool)
    requires q.window.width > 0 && q.system == 0 && s > 0
    requires id in db.talkgroups && db.talkgroups[id].system == s && forall k :: keys(k) ==> k.talkgroup == id
    ensures var v, u := ViewOf(db, q.(system := s)), ViewOf(db, q);
      && CountIf(Among(v, keys), db.calls) == CountIf(Among(u, keys), db.calls)
      && LatestCall(Among(v, keys), db.calls) == LatestCall(Among(u, keys), db.calls)
  {
    SameCounts(ViewOf(db, q.(system := s)), ViewOf(db, q), keys, db.calls);
  }

  lemma SameCounts(v: View, u: View, keys: Key -> bool, calls: seq<Call>)
    requires forall c :: Among(v, keys)(c) <==> Among(u, keys)(c)
    ensures CountIf(Among(v, keys), calls) == CountIf(Among(u, keys), calls)
    ensures LatestCall(Among(v, keys), calls) == LatestCall(Among(u, keys), calls)
  {
    CountSame(Among(v, keys), Among(u, keys), calls);
  }

  function TotalsOf(reports: seq<Report>): int -> int {
    k => if 0 <= k < |reports| then reports[k].total else 0
  }

  function BarsOf(reports: seq<Report>, i: nat): int -> int {
    k => if 0 <= k < |reports| && i < |reports[k].bars| then reports[k].bars[i].calls else 0
  }

  /** Over all systems the totals add up to the total of the report for all, and so do the bars of each bucket. */
  lemma SystemsAddUp(db: Tables, q: Query, ids: seq<int>, reports: seq<Report>, all: Report)
    requires Sound(q.window) && q.system == 0 && Exact(ViewOf(db, q), db.calls, Spans(q.window), all)
    requires Distinct(ids) && |reports| == |ids|
    requires (forall k :: 0 <= k < |ids| ==> ids[k] > 0) && forall s :: s in db.systems ==> s in ids
    requires forall k :: 0 <= k < |ids| ==>
      Exact(ViewOf(db, q.(system := ids[k])), db.calls, Spans(q.window), reports[k])
    ensures Sum(TotalsOf(reports), |ids|) == all.total
    ensures forall i :: 0 <= i < |all.bars| ==>
      Sum(BarsOf(reports, i), |ids|) == all.bars[i].calls
  {
    PartsAddUp(db, q, ids, All(), TotalsOf(reports));
    forall i | 0 <= i < |all.bars| ensures Sum(BarsOf(reports, i), |ids|) == all.bars[i].calls {
      BarAddsUp(db, q, ids, reports, i);
    }
  }

  lemma BarAddsUp(db: Tables, q: Query, ids: seq<int>, reports: seq<Report>, i: nat)
    requires Sound(q.window) && q.system == 0 && Distinct(ids) && |reports| == |ids| && i < |Spans(q.window)|
    requires (forall k :: 0 <= k < |ids| ==> ids[k] > 0) && forall s :: s in db.systems ==> s in ids
    requires forall k :: 0 <= k < |ids| ==>
      Exact(ViewOf(db, q.(system := ids[k])), db.calls, Spans(q.window), reports[k])
    ensures Sum(BarsOf(reports, i), |ids|) == CountIf(Among(ViewOf(db, q), Bin(i)), db.calls)
  {
    PartsAddUp(db, q, ids, Bin(i), BarsOf(reports, i));
  }

  lemma PartsAddUp(db: Tables, q: Query, ids: seq<int>, keys: Key -> bool, f: int -> int)
    requires q.window.width > 0 && q.system == 0 && Distinct(ids)
    requires (forall k :: 0 <= k < |ids| ==> ids[k] > 0) && forall s :: s in db.systems ==> s in ids
    requires forall k :: 0 <= k < |ids| ==>
      f(k) == CountIf(Among(ViewOf(db, q.(system := ids[k])), keys), db.calls)
    ensures Sum(f, |ids|) == CountIf(Among(ViewOf(db, q), keys), db.calls)
  {
    var p, key := Among(ViewOf(db, q), keys), (c: Call) => c.system as int;
    forall k | 0 <= k < |ids| ensures f(k) == CountIf(OnKey(p, key, ids[k]), db.calls) {
      CountSame(Among(ViewOf(db, q.(system := ids[k])), keys), OnKey(p, key, ids[k]), db.calls);
    }
    CountByKeyInFull(p, key, ids, db.calls, f);
  }
}
