/** The configuration a client may see, cut down to its access, and the group and tag indexes
    built from it. */
module Scopes {
  import opened Prelude
  import opened Sorting
  import Access

  datatype Talkgroup = Talkgroup(ref: nat, order: nat, title: string, tagId: nat, groupIds: seq<nat>)
  datatype System = System(ref: nat, order: nat, talkgroups: seq<Talkgroup>)

  /** A group or a tag. */
  datatype Named = Named(id: nat, title: string)

  datatype ShownTalkgroup = ShownTalkgroup(ref: nat, order: nat, title: string, group: string,
    groups: seq<string>, tag: string)
  datatype ShownSystem = ShownSystem(ref: nat, order: nat, talkgroups: seq<ShownTalkgroup>)

  /** Which shown talkgroups render a configured one; which labels a shown one carries; which labels,
      systems and talkgroups belong together. */
  type Renderer = (Talkgroup, ShownTalkgroup) -> bool
  type Labeller = ShownTalkgroup -> seq<string>
  type Relation = (string, nat, nat) -> bool

  // --- Lookups: the first match in the list ---

  function ById(list: seq<Named>, id: nat): (r: Option<Named>)
    ensures r.Some? ==> r.value in list && r.value.id == id
    ensures r.None? ==> forall n :: n in list ==> n.id != id
  {
    if list == [] then None else if list[0].id == id then Some(list[0]) else ById(list[1..], id)
  }

  predicate HasTitle(list: seq<Named>, title: string) {
    exists n :: n in list && n.title == title
  }

  function SystemByRef(systems: seq<System>, ref: nat): (r: Option<System>)
    ensures r.Some? ==> r.value in systems && r.value.ref == ref
    ensures r.None? ==> forall s :: s in systems ==> s.ref != ref
  {
    if systems == [] then None
    else if systems[0].ref == ref then Some(systems[0])
    else SystemByRef(systems[1..], ref)
  }

  function TalkgroupByRef(talkgroups: seq<Talkgroup>, ref: nat): (r: Option<Talkgroup>)
    ensures r.Some? ==> r.value in talkgroups && r.value.ref == ref
    ensures r.None? ==> forall t :: t in talkgroups ==> t.ref != ref
  {
    if talkgroups == [] then None
    else if talkgroups[0].ref == ref then Some(talkgroups[0])
    else TalkgroupByRef(talkgroups[1..], ref)
  }

  /** References are unique: of systems, and of talkgroups within a system. */
  ghost predicate Unambiguous(systems: seq<System>) {
    && (forall a, b :: a in systems && b in systems && a.ref == b.ref ==> a == b)
    && (forall s, a, b :: s in systems && a in s.talkgroups && b in s.talkgroups && a.ref == b.ref ==> a == b)
  }

  // --- What is shown of a talkgroup ---

  predicate Names(groups: seq<Named>, id: nat, title: string) {
    ById(groups, id).Some? && ById(groups, id).value.title == title
  }

  function GroupLabels(groups: seq<Named>, ids: seq<nat>): (r: seq<string>)
    ensures forall l :: l in r ==> exists id :: id in ids && Names(groups, id, l)
    ensures forall id :: id in ids && ById(groups, id).Some? ==> ById(groups, id).value.title in r
  {
    assert forall id :: id in ids <==> ids != [] && (id == ids[0] || id in ids[1..]);
    if ids == [] then []
    else (if ById(groups, ids[0]).Some? then [ById(groups, ids[0]).value.title] else []) + GroupLabels(groups, ids[1..])
  }

  predicate Listable(tags: seq<Named>, t: Talkgroup) {
    ById(tags, t.tagId).Some?
  }

  function Show(groups: seq<Named>, tags: seq<Named>, t: Talkgroup): ShownTalkgroup
    requires Listable(tags, t)
  {
    var labels := GroupLabels(groups, t.groupIds);
    var group := if |labels| > 0 then labels[0] else "";
    ShownTalkgroup(t.ref, t.order, t.title, group, labels, ById(tags, t.tagId).value.title)
  }

  /** How a talkgroup of the configuration may be shown: in its own place, or in any when the list is sorted. */
  function Rendering(groups: seq<Named>, tags: seq<Named>, sorted: bool): Renderer {
    (t: Talkgroup, u: ShownTalkgroup) =>
      && Listable(tags, t) && u == Show(groups, tags, t).(order := u.order) && (sorted || u.order == t.order)
  }

  predicate Known(groups: seq<Named>, id: nat) {
    ById(groups, id).Some?
  }

  /** The labels are those of the groups, one for one. */
  predicate LabelsOf(groups: seq<Named>, ids: seq<nat>, labels: seq<string>) {
    |labels| == |ids| && forall i :: 0 <= i < |ids| ==> Names(groups, ids[i], labels[i])
  }

  lemma OneMoreLabel(groups: seq<Named>, ids: seq<nat>, labels: seq<string>, id: nat, title: string)
    requires LabelsOf(groups, ids, labels) && Names(groups, id, title)
    ensures LabelsOf(groups, [id] + ids, [title] + labels)
  {
  }

  /** The labels shown are those of the known groups, in the order of their identifiers. */
  lemma {:induction false} LabelsInOrder(groups: seq<Named>, ids: seq<nat>)
    ensures LabelsOf(groups, Filter((id: nat) => Known(groups, id), ids), GroupLabels(groups, ids))
  {
    var p := (id: nat) => Known(groups, id);
    if ids != [] {
      LabelsInOrder(groups, ids[1..]);
      if p(ids[0]) {
        OneMoreLabel(groups, Filter(p, ids[1..]), GroupLabels(groups, ids[1..]), ids[0],
          ById(groups, ids[0]).value.title);
      }
    }
  }

  /** What is shown of a talkgroup: its reference and title, the label of its tag, the labels of its groups in
      their order and the first of them, and, unless the list is sorted, its place. */
  lemma RenderedFields(groups: seq<Named>, tags: seq<Named>, sorted: bool, t: Talkgroup, u: ShownTalkgroup)
    requires Rendering(groups, tags, sorted)(t, u)
    ensures u.ref == t.ref && u.title == t.title && Names(tags, t.tagId, u.tag)
    ensures var known := Filter((id: nat) => Known(groups, id), t.groupIds);
      && LabelsOf(groups, known, u.groups)
      && (if known == [] then u.group == "" else Names(groups, known[0], u.group))
    ensures !sorted ==> u.order == t.order
  {
    LabelsInOrder(groups, t.groupIds);
  }

  predicate Allowed(access: Option<Access.Scope>, system: nat, talkgroup: nat) {
    access.None? || access.value.Unset? || Access.Grants(access.value, system, talkgroup)
  }

  ghost predicate Has(systems: seq<System>, system: nat, t: Talkgroup) {
    exists s :: s in systems && s.ref == system && t in s.talkgroups
  }

  ghost predicate Shows(out: seq<ShownSystem>, system: nat, t: ShownTalkgroup) {
    exists s :: s in out && s.ref == system && t in s.talkgroups
  }

  // --- The systems an access selects ---

  /** The listed talkgroups a system has, in the order they are listed. */
  function Pick(s: System, items: seq<Access.Item>): (r: seq<Talkgroup>)
    ensures forall t :: t in r ==> exists x :: x in items && Finds(s, x, t)
    ensures forall x, t :: x in items && Finds(s, x, t) ==> t in r
  {
    assert forall x :: x in items <==> items != [] && (x == items[0] || x in items[1..]);
    if items == [] then []
    else if items[0].Ref? && TalkgroupByRef(s.talkgroups, items[0].ref).Some? then
      var t := TalkgroupByRef(s.talkgroups, items[0].ref).value;
      assert Finds(s, items[0], t);
      [t] + Pick(s, items[1..])
    else Pick(s, items[1..])
  }

  predicate Finds(s: System, item: Access.Item, t: Talkgroup) {
    item.Ref? && TalkgroupByRef(s.talkgroups, item.ref) == Some(t)
  }

  function Selected(systems: seq<System>, e: Access.Entry): Option<System> {
    match e
    case Entry(Ref(id), talkgroups) =>
      (match SystemByRef(systems, id)
       case None => None
       case Some(s) =>
         match talkgroups
         case Wildcard => Some(s)
         case Listed(items) => Some(s.(talkgroups := Pick(s, items)))
         case Unusable => None)
    case _ => None
  }

  /** An entry selects the talkgroups it opens. */
  lemma SelectedIsOpened(systems: seq<System>, e: Access.Entry, system: nat, t: Talkgroup)
    requires Unambiguous(systems)
    ensures var s := Selected(systems, e);
      s.Some? && s.value.ref == system && t in s.value.talkgroups
      <==> Has(systems, system, t) && Access.Opens(e, system, t.ref)
  {
    if e.Entry? && e.id == Access.Ref(system) && SystemByRef(systems, system).Some? {
      var s := SystemByRef(systems, system).value;
      assert Has(systems, system, t) <==> t in s.talkgroups;
      if e.talkgroups.Listed? {
        var items := e.talkgroups.items;
        if t in s.talkgroups && Access.Ref(t.ref) in items {
          assert Finds(s, Access.Ref(t.ref), t);
        }
      }
    }
  }

  /** What the entries of a list select, entry by entry, repetitions included. */
  function SelectedAll(systems: seq<System>, entries: seq<Access.Entry>): seq<System> {
    if entries == [] then []
    else
      var n := |entries| - 1;
      var before := SelectedAll(systems, entries[..n]);
      match Selected(systems, entries[n]) case None => before case Some(s) => before + [s]
  }

  function RawOf(systems: seq<System>, access: Option<Access.Scope>): seq<System> {
    match access
    case None => systems
    case Some(Unset) => systems
    case Some(Everything) => systems
    case Some(Entries(entries)) => SelectedAll(systems, entries)
    case Some(_) => []
  }

  /** An entry of the list opens the talkgroup. */
  predicate AnyOpens(entries: seq<Access.Entry>, system: nat, talkgroup: nat) {
    exists k :: 0 <= k < |entries| && Access.Opens(entries[k], system, talkgroup)
  }

  lemma {:induction false} SelectedAllIsOpened(systems: seq<System>, entries: seq<Access.Entry>, system: nat,
      t: Talkgroup)
    requires Unambiguous(systems)
    ensures Has(SelectedAll(systems, entries), system, t) <==>
      Has(systems, system, t) && AnyOpens(entries, system, t.ref)
  {
    if entries != [] {
      var n := |entries| - 1;
      SelectedAllIsOpened(systems, entries[..n], system, t);
      SelectedIsOpened(systems, entries[n], system, t);
      assert AnyOpens(entries, system, t.ref)
        <==> (AnyOpens(entries[..n], system, t.ref) || Access.Opens(entries[n], system, t.ref));
    }
  }

  predicate InPlace(systems: seq<System>, s: System) {
    exists z :: z in systems && z.ref == s.ref && z.order == s.order
  }

  /** A selected system has the reference and the place of a configured one. */
  lemma {:induction false} SelectedInPlace(systems: seq<System>, entries: seq<Access.Entry>)
    ensures forall s :: s in SelectedAll(systems, entries) ==> InPlace(systems, s)
  {
    if entries != [] {
      var e := entries[|entries| - 1];
      SelectedInPlace(systems, entries[..|entries| - 1]);
      if Selected(systems, e).Some? {
        assert SystemByRef(systems, e.id.ref).value in systems;
      }
    }
  }

  /** The systems to show, before sorting, each with the talkgroups the access leaves it. */
  method RawSystems(systems: seq<System>, access: Option<Access.Scope>) returns (raw: seq<System>)
    requires Unambiguous(systems)
    ensures raw == RawOf(systems, access) && forall s :: s in raw ==> InPlace(systems, s)
    ensures forall system, t :: Has(raw, system, t) <==> Has(systems, system, t) && Allowed(access, system, t.ref)
  {
    raw := [];
    if access.None? || access.value.Unset? || access.value.Everything? {
      raw := systems;
    } else if access.value.Entries? {
      var entries := access.value.entries;
      for i := 0 to |entries|
        invariant raw == SelectedAll(systems, entries[..i])
      {
        assert entries[..i + 1][..i] == entries[..i];
        if Selected(systems, entries[i]).Some? {
          raw := raw + [Selected(systems, entries[i]).value];
        }
      }
      assert entries[..|entries|] == entries;
      SelectedInPlace(systems, entries);
      forall system, t
        ensures Has(raw, system, t) <==> Has(systems, system, t) && Allowed(access, system, t.ref)
      {
        SelectedAllIsOpened(systems, entries, system, t);
      }
    }
  }

  // --- Showing a system ---

  function TitleOrder(a: string, b: string): bool {
    a == "" || (b != "" && (a[0] < b[0] || (a[0] == b[0] && TitleOrder(a[1..], b[1..]))))
  }

  lemma {:induction false} TitleOrderTotal(a: string, b: string)
    ensures TitleOrder(a, b) || TitleOrder(b, a)
  {
    if a != "" && b != "" { TitleOrderTotal(a[1..], b[1..]); }
  }

  lemma {:induction false} TitleOrderTransitive(a: string, b: string, c: string)
    requires TitleOrder(a, b) && TitleOrder(b, c)
    ensures TitleOrder(a, c)
  {
    if a != "" && a[0] == b[0] && b[0] == c[0] { TitleOrderTransitive(a[1..], b[1..], c[1..]); }
  }

  /** They differ first at character `k`, where `a` has the smaller one. */
  predicate SmallerAt(a: string, b: string, k: nat) {
    k < |a| && k < |b| && a[..k] == b[..k] && a[k] < b[k]
  }

  lemma SmallerOnRest(a: string, b: string, k: nat)
    requires a != "" && b != "" && a[0] == b[0]
    ensures SmallerAt(a[1..], b[1..], k) <==> SmallerAt(a, b, k + 1)
  {
    if k < |a| && k < |b| {
      assert a[..k + 1] == [a[0]] + a[1..][..k];
      assert b[..k + 1] == [b[0]] + b[1..][..k];
    }
  }

  /** A title comes first when the other begins with it, or when it has the smaller character where they first
      differ. */
  lemma {:induction false} TitleOrderMeaning(a: string, b: string)
    ensures TitleOrder(a, b) <==> a <= b || exists k: nat :: SmallerAt(a, b, k)
  {
    if a != "" && b != "" {
      if a[0] == b[0] {
        TitleOrderMeaning(a[1..], b[1..]);
        assert a <= b <==> a[1..] <= b[1..];
        forall k: nat ensures SmallerAt(a[1..], b[1..], k) <==> SmallerAt(a, b, k + 1) {
          SmallerOnRest(a, b, k);
        }
        if k: nat :| SmallerAt(a, b, k) {
          assert k > 0 && SmallerAt(a[1..], b[1..], k - 1);
        }
      } else {
        assert a[0] < b[0] ==> SmallerAt(a, b, 0);
        assert forall k: nat :: k > 0 && SmallerAt(a, b, k) ==> a[..k][0] == b[..k][0];
      }
    } else {
      assert a == "" ==> a <= b;
    }
  }

  predicate ByTitle(a: Talkgroup, b: Talkgroup) {
    TitleOrder(a.title, b.title)
  }

  lemma ByTitleIsPreorder()
    ensures TotalPreorder(ByTitle)
  {
    forall x, y: Talkgroup ensures ByTitle(x, y) || ByTitle(y, x) {
      TitleOrderTotal(x.title, y.title);
    }
    forall x, y, z: Talkgroup | ByTitle(x, y) && ByTitle(y, z) ensures ByTitle(x, z) {
      TitleOrderTransitive(x.title, y.title, z.title);
    }
  }

  predicate ByOrder(a: ShownTalkgroup, b: ShownTalkgroup) { a.order <= b.order }
  predicate SystemsByOrder(a: ShownSystem, b: ShownSystem) { a.order <= b.order }

  /** Later in the order means not earlier by title. */
  predicate OrderFollowsTitle(ts: seq<ShownTalkgroup>) {
    forall a, b :: a in ts && b in ts && a.order <= b.order ==> TitleOrder(a.title, b.title)
  }

  ghost predicate Renderable(renders: Renderer, t: Talkgroup) {
    exists u :: renders(t, u)
  }

  predicate ShownIn(renders: Renderer, t: Talkgroup, out: seq<ShownTalkgroup>) {
    exists u :: u in out && renders(t, u)
  }

  predicate RenderedFrom(renders: Renderer, from: seq<Talkgroup>, u: ShownTalkgroup) {
    exists t :: t in from && renders(t, u)
  }

  /** The talkgroups shown are renderings of those given, and each of those that has one is shown. */
  ghost predicate ShownFrom(renders: Renderer, from: seq<Talkgroup>, out: seq<ShownTalkgroup>) {
    && (forall t {:trigger ShownIn(renders, t, out)} :: t in from && Renderable(renders, t) ==>
      ShownIn(renders, t, out))
    && (forall u {:trigger RenderedFrom(renders, from, u)} :: u in out ==> RenderedFrom(renders, from, u))
  }

  predicate SameElsewhere(a: Talkgroup, b: Talkgroup) {
    a == b.(order := a.order)
  }

  predicate HasTwin(t: Talkgroup, b: seq<Talkgroup>) {
    exists u :: u in b && SameElsewhere(u, t)
  }

  /** One list holds the talkgroups of the other, with other places in the order. */
  ghost predicate Renumbered(a: seq<Talkgroup>, b: seq<Talkgroup>) {
    && (forall t {:trigger HasTwin(t, b)} :: t in a ==> HasTwin(t, b))
    && (forall u {:trigger HasTwin(u, a)} :: u in b ==> HasTwin(u, a))
  }

  /** The last place of an element. */
  function LastPlace<T(==)>(s: seq<T>, x: T): (k: nat)
    requires x in s
    ensures k < |s| && s[k] == x && forall j :: k < j < |s| ==> s[j] != x
  {
    var n := |s| - 1;
    if s[n] == x then n
    else
      assert forall i :: 0 <= i < n ==> s[i] == s[..n][i];
      assert x in s[..n] by {
        var i :| 0 <= i < |s| && s[i] == x;
        assert s[..n][i] == x;
      }
      LastPlace(s[..n], x)
  }

  /** `r` is the sorted list, each talkgroup with the number of its last place in it. */
  ghost predicate Numbered(sorted: seq<Talkgroup>, r: seq<Talkgroup>) {
    |r| == |sorted| && forall i :: 0 <= i < |r| ==> r[i] == sorted[i].(order := LastPlace(sorted, sorted[i]) + 1)
  }

  /** Sorted by title and numbered from one; what is listed more than once is one talkgroup, and has the
      number it was given last. */
  method Renumber(tags: seq<Named>, from: seq<Talkgroup>) returns (r: seq<Talkgroup>, ghost sorted: seq<Talkgroup>)
    ensures Renumbered(from, r) && ListableIn(tags, r) == ListableIn(tags, from)
    ensures IsOrdering(ByTitle, from, sorted) && Numbered(sorted, r)
  {
    ByTitleIsPreorder();
    var s := Sort(ByTitle, from);
    r := seq(|s|, i requires 0 <= i < |s| => s[i].(order := LastPlace(s, s[i]) + 1));
    sorted := s;
    NumberedIsRenumbered(tags, from, s, r);
  }

  lemma NumberedIsRenumbered(tags: seq<Named>, from: seq<Talkgroup>, sorted: seq<Talkgroup>, r: seq<Talkgroup>)
    requires IsOrdering(ByTitle, from, sorted) && Numbered(sorted, r)
    ensures Renumbered(from, r) && ListableIn(tags, r) == ListableIn(tags, from)
  {
    OrderingKeeps(ByTitle, from, sorted);
    forall t | t in from ensures HasTwin(t, r) {
      assert t in sorted;
      var i :| 0 <= i < |sorted| && sorted[i] == t;
      assert r[i] in r && SameElsewhere(r[i], t);
    }
    forall u | u in r ensures HasTwin(u, from) {
      var i :| 0 <= i < |r| && r[i] == u;
      assert sorted[i] in sorted && SameElsewhere(sorted[i], u);
    }
    SameElementsFilter((t: Talkgroup) => Listable(tags, t), from, sorted);
    SameTags(tags, sorted, r);
  }

  // The places of a sorted list are ranks by title.

  function TitledBefore(title: string): Talkgroup -> bool {
    (t: Talkgroup) => !TitleOrder(title, t.title)
  }

  function TitledUpTo(title: string): Talkgroup -> bool {
    (t: Talkgroup) => TitleOrder(t.title, title)
  }

  /** Each place is above the number of talkgroups that come before by title and within the number of those
      that do not come after; and no two talkgroups share one. */
  ghost predicate RankedByTitle(from: seq<Talkgroup>, out: seq<ShownTalkgroup>) {
    && (forall u :: u in out ==> IsRank(from, u.title, u.order))
    && (forall u, v :: u in out && v in out && u.order == v.order ==> u == v)
  }

  predicate IsRank(from: seq<Talkgroup>, title: string, place: nat) {
    |Filter(TitledBefore(title), from)| < place <= |Filter(TitledUpTo(title), from)|
  }

  lemma {:induction false} FilterAtMost<T(!new)>(p: T -> bool, s: seq<T>, n: nat)
    requires n <= |s| && forall i :: n <= i < |s| ==> !p(s[i])
    ensures |Filter(p, s)| <= n
  {
    if s != [] {
      FilterAtMost(p, s[1..], if n > 0 then n - 1 else 0);
    }
  }

  lemma {:induction false} FilterAtLeast<T(!new)>(p: T -> bool, s: seq<T>, n: nat)
    requires n <= |s| && forall i :: 0 <= i < n ==> p(s[i])
    ensures |Filter(p, s)| >= n
  {
    if n > 0 {
      FilterAtLeast(p, s[1..], n - 1);
    }
  }

  lemma PlaceIsRank(from: seq<Talkgroup>, sorted: seq<Talkgroup>, k: nat)
    requires IsOrdering(ByTitle, from, sorted) && k < |sorted|
    ensures IsRank(from, sorted[k].title, k + 1)
  {
    var title := sorted[k].title;
    TitleOrderTotal(title, title);
    assert forall i :: k < i < |sorted| ==> ByTitle(sorted[k], sorted[i]);
    assert forall i :: 0 <= i < k ==> ByTitle(sorted[i], sorted[k]);
    FilterAtMost(TitledBefore(title), sorted, k);
    FilterAtLeast(TitledUpTo(title), sorted, k + 1);
    SameElementsFilter(TitledBefore(title), from, sorted);
    SameElementsFilter(TitledUpTo(title), from, sorted);
  }

  /** How many of the talkgroups can be shown. */
  function ListableIn(tags: seq<Named>, ts: seq<Talkgroup>): nat {
    |Filter((t: Talkgroup) => Listable(tags, t), ts)|
  }

  lemma {:induction false} SameTags(tags: seq<Named>, a: seq<Talkgroup>, b: seq<Talkgroup>)
    requires |a| == |b| && forall i :: 0 <= i < |a| ==> a[i].tagId == b[i].tagId
    ensures ListableIn(tags, a) == ListableIn(tags, b)
  {
    if a != [] {
      SameTags(tags, a[1..], b[1..]);
    }
  }

  /** What is shown of a list in its own order. */
  ghost predicate ShownAs(groups: seq<Named>, tags: seq<Named>, list: seq<Talkgroup>, out: seq<ShownTalkgroup>) {
    forall u :: u in out <==> Shown(groups, tags, list, u)
  }

  predicate Shown(groups: seq<Named>, tags: seq<Named>, list: seq<Talkgroup>, u: ShownTalkgroup) {
    exists k :: 0 <= k < |list| && Listable(tags, list[k]) && u == Show(groups, tags, list[k])
  }

  lemma ShownOneMore(groups: seq<Named>, tags: seq<Named>, list: seq<Talkgroup>, n: nat, u: ShownTalkgroup)
    requires n < |list|
    ensures Shown(groups, tags, list[..n + 1], u)
       <==> Shown(groups, tags, list[..n], u) || (Listable(tags, list[n]) && u == Show(groups, tags, list[n]))
  {
    var all := list[..n + 1];
    assert all[n] == list[n];
    if Shown(groups, tags, list[..n], u) {
      var k :| 0 <= k < n && Listable(tags, list[k]) && u == Show(groups, tags, list[k]);
      assert all[k] == list[k];
    }
  }

  method ShowTalkgroups(groups: seq<Named>, tags: seq<Named>, from: seq<Talkgroup>, sortTalkgroups: bool)
    returns (out: seq<ShownTalkgroup>)
    ensures ShownFrom(Rendering(groups, tags, sortTalkgroups), from, out) && |out| == ListableIn(tags, from)
    ensures Pairwise(ByOrder, out)
    ensures sortTalkgroups ==> OrderFollowsTitle(out) && RankedByTitle(from, out)
  {
    var list := from;
    ghost var sorted := from;
    if sortTalkgroups {
      list, sorted := Renumber(tags, from);
    }
    var shown: seq<ShownTalkgroup> := ShowEach(groups, tags, list);
    out := Sort(ByOrder, shown);
    OrderingKeeps(ByOrder, shown, out);
    if sortTalkgroups {
      RanksFollow(groups, tags, from, sorted, list, out);
      TitlesFollow(from, out);
      ShownThrough(groups, tags, from, list, out);
    } else {
      ShownInPlace(groups, tags, from, out);
    }
  }

  method ShowEach(groups: seq<Named>, tags: seq<Named>, list: seq<Talkgroup>) returns (shown: seq<ShownTalkgroup>)
    ensures ShownAs(groups, tags, list, shown) && |shown| == ListableIn(tags, list)
  {
    shown := [];
    for i := 0 to |list|
      invariant ShownAs(groups, tags, list[..i], shown) && |shown| == ListableIn(tags, list[..i])
    {
      OneMoreShown(groups, tags, list, i, shown);
      if Listable(tags, list[i]) {
        shown := shown + [Show(groups, tags, list[i])];
      }
    }
    assert list[..|list|] == list;
  }

  lemma OneMoreShown(groups: seq<Named>, tags: seq<Named>, list: seq<Talkgroup>, n: nat, before: seq<ShownTalkgroup>)
    requires n < |list| && ShownAs(groups, tags, list[..n], before) && |before| == ListableIn(tags, list[..n])
    ensures var after := if Listable(tags, list[n]) then before + [Show(groups, tags, list[n])] else before;
      ShownAs(groups, tags, list[..n + 1], after) && |after| == ListableIn(tags, list[..n + 1])
  {
    assert list[..n + 1] == list[..n] + [list[n]];
    FilterAppended((t: Talkgroup) => Listable(tags, t), list[..n], list[n]);
    var after := if Listable(tags, list[n]) then before + [Show(groups, tags, list[n])] else before;
    forall u ensures u in after <==> Shown(groups, tags, list[..n + 1], u) {
      ShownOneMore(groups, tags, list, n, u);
    }
  }

  function ShowAt(groups: seq<Named>, tags: seq<Named>, t: Talkgroup, place: nat): ShownTalkgroup
    requires Listable(tags, t)
  {
    Show(groups, tags, t.(order := place))
  }

  predicate HasRank(groups: seq<Named>, tags: seq<Named>, from: seq<Talkgroup>, sorted: seq<Talkgroup>,
      u: ShownTalkgroup, k: nat) {
    && k < |sorted| && Listable(tags, sorted[k]) && u == ShowAt(groups, tags, sorted[k], k + 1)
    && u.order == k + 1 && IsRank(from, u.title, u.order)
  }

  lemma RankOf(groups: seq<Named>, tags: seq<Named>, from: seq<Talkgroup>, sorted: seq<Talkgroup>,
      list: seq<Talkgroup>, i: nat) returns (k: nat)
    requires IsOrdering(ByTitle, from, sorted) && Numbered(sorted, list) && i < |list| && Listable(tags, list[i])
    ensures HasRank(groups, tags, from, sorted, Show(groups, tags, list[i]), k)
  {
    k := LastPlace(sorted, sorted[i]);
    assert list[i] == sorted[k].(order := k + 1);
    PlaceIsRank(from, sorted, k);
  }

  lemma RanksFollow(groups: seq<Named>, tags: seq<Named>, from: seq<Talkgroup>, sorted: seq<Talkgroup>,
      list: seq<Talkgroup>, out: seq<ShownTalkgroup>)
    requires IsOrdering(ByTitle, from, sorted) && Numbered(sorted, list) && ShownAs(groups, tags, list, out)
    ensures RankedByTitle(from, out)
  {
    forall u | u in out ensures exists k :: HasRank(groups, tags, from, sorted, u, k) {
      assert Shown(groups, tags, list, u);
      var i :| 0 <= i < |list| && Listable(tags, list[i]) && u == Show(groups, tags, list[i]);
      var k := RankOf(groups, tags, from, sorted, list, i);
    }
    RanksApart(groups, tags, from, sorted, out);
  }

  lemma RanksApart(groups: seq<Named>, tags: seq<Named>, from: seq<Talkgroup>, sorted: seq<Talkgroup>,
      out: seq<ShownTalkgroup>)
    requires forall u :: u in out ==> exists k :: HasRank(groups, tags, from, sorted, u, k)
    ensures RankedByTitle(from, out)
  {
    forall u, v | u in out && v in out && u.order == v.order ensures u == v {
      var k :| HasRank(groups, tags, from, sorted, u, k);
      var n :| HasRank(groups, tags, from, sorted, v, n);
      assert k == n;
    }
  }

  /** Ranks by title follow the titles. */
  lemma TitlesFollow(from: seq<Talkgroup>, out: seq<ShownTalkgroup>)
    requires RankedByTitle(from, out)
    ensures OrderFollowsTitle(out)
  {
    forall a, b | a in out && b in out && a.order <= b.order ensures TitleOrder(a.title, b.title) {
      if !TitleOrder(a.title, b.title) {
        FewerUpTo(from, b.title, a.title);
        assert false;
      }
    }
  }

  lemma {:induction false} FewerUpTo(from: seq<Talkgroup>, title: string, later: string)
    requires !TitleOrder(later, title)
    ensures |Filter(TitledUpTo(title), from)| <= |Filter(TitledBefore(later), from)|
  {
    if from != [] {
      if TitleOrder(from[0].title, title) && TitleOrder(later, from[0].title) {
        TitleOrderTransitive(later, from[0].title, title);
      }
      FewerUpTo(from[1..], title, later);
    }
  }

  lemma ShowIgnoresOrder(groups: seq<Named>, tags: seq<Named>, a: Talkgroup, b: Talkgroup)
    requires SameElsewhere(a, b) && Listable(tags, a)
    ensures Rendering(groups, tags, true)(a, Show(groups, tags, b))
    ensures Rendering(groups, tags, true)(b, Show(groups, tags, a))
  {
    assert a.groupIds == b.groupIds && a.title == b.title && a.ref == b.ref && a.tagId == b.tagId;
  }

  lemma ShownThrough(groups: seq<Named>, tags: seq<Named>, from: seq<Talkgroup>, list: seq<Talkgroup>,
      out: seq<ShownTalkgroup>)
    requires Renumbered(from, list) && ShownAs(groups, tags, list, out)
    ensures ShownFrom(Rendering(groups, tags, true), from, out)
  {
    var renders := Rendering(groups, tags, true);
    forall t | t in from && Renderable(renders, t) ensures ShownIn(renders, t, out) {
      assert HasTwin(t, list);
      var v :| v in list && SameElsewhere(v, t);
      assert SameElsewhere(t, v);
      var k :| 0 <= k < |list| && list[k] == v;
      assert Listable(tags, t);
      ShowIgnoresOrder(groups, tags, t, v);
      assert Shown(groups, tags, list, Show(groups, tags, v));
    }
    forall u | u in out ensures RenderedFrom(renders, from, u) {
      var k :| 0 <= k < |list| && Listable(tags, list[k]) && u == Show(groups, tags, list[k]);
      assert list[k] in list && HasTwin(list[k], from);
      var t :| t in from && SameElsewhere(t, list[k]);
      ShowIgnoresOrder(groups, tags, t, list[k]);
    }
  }

  lemma ShownInPlace(groups: seq<Named>, tags: seq<Named>, from: seq<Talkgroup>, out: seq<ShownTalkgroup>)
    requires ShownAs(groups, tags, from, out)
    ensures ShownFrom(Rendering(groups, tags, false), from, out)
  {
    var renders := Rendering(groups, tags, false);
    forall t | t in from && Renderable(renders, t) ensures ShownIn(renders, t, out) {
      var k :| 0 <= k < |from| && from[k] == t;
      assert Shown(groups, tags, from, Show(groups, tags, t));
    }
    forall u | u in out ensures RenderedFrom(renders, from, u) {
      var k :| 0 <= k < |from| && Listable(tags, from[k]) && u == Show(groups, tags, from[k]);
      assert from[k] in from && renders(from[k], u);
    }
  }

  // --- The scoped configuration ---

  /** A system as it is shown: its reference and its place, each talkgroup that has a tag, as many as there are,
      in order; in their own places, or in those of their titles. */
  ghost predicate ShowsSystem(groups: seq<Named>, tags: seq<Named>, sorted: bool, s: System, out: ShownSystem) {
    && out.ref == s.ref && out.order == s.order
    && ShownFrom(Rendering(groups, tags, sorted), s.talkgroups, out.talkgroups)
    && |out.talkgroups| == ListableIn(tags, s.talkgroups)
    && Pairwise(ByOrder, out.talkgroups)
    && (sorted ==> OrderFollowsTitle(out.talkgroups) && RankedByTitle(s.talkgroups, out.talkgroups))
  }

  /** Each listed system shows the raw system in the same place. */
  ghost predicate ShowsEach(groups: seq<Named>, tags: seq<Named>, sorted: bool, raw: seq<System>,
      list: seq<ShownSystem>) {
    |list| == |raw| && forall k :: 0 <= k < |raw| ==> ShowsSystem(groups, tags, sorted, raw[k], list[k])
  }

  /** What is shown are those systems, arranged by their places. */
  ghost predicate ShowsInOrder(groups: seq<Named>, tags: seq<Named>, sorted: bool, raw: seq<System>,
      out: seq<ShownSystem>) {
    exists list :: ShowsEach(groups, tags, sorted, raw, list) && IsOrdering(SystemsByOrder, list, out)
  }

  ghost predicate ShownAt(renders: Renderer, out: seq<ShownSystem>, system: nat, t: Talkgroup) {
    exists u :: Shows(out, system, u) && renders(t, u)
  }

  ghost predicate StemsFrom(renders: Renderer, systems: seq<System>, access: Option<Access.Scope>, system: nat,
      u: ShownTalkgroup) {
    exists t :: Has(systems, system, t) && Allowed(access, system, t.ref) && renders(t, u)
  }

  /** A talkgroup of the configuration that can be rendered is shown exactly when the access
      allows it; and whatever is shown is the rendering of such a talkgroup. */
  ghost predicate IsScoped(renders: Renderer, systems: seq<System>, access: Option<Access.Scope>,
      out: seq<ShownSystem>) {
    && (forall system, t {:trigger ShownAt(renders, out, system, t)} ::
          Has(systems, system, t) && Renderable(renders, t) ==>
          (ShownAt(renders, out, system, t) <==> Allowed(access, system, t.ref)))
    && (forall system, u {:trigger StemsFrom(renders, systems, access, system, u)} :: Shows(out, system, u) ==>
          StemsFrom(renders, systems, access, system, u))
  }

  method GetScopedSystems(systems: seq<System>, access: Option<Access.Scope>, groups: seq<Named>, tags: seq<Named>,
      sortTalkgroups: bool)
    returns (out: seq<ShownSystem>)
    requires Unambiguous(systems)
    ensures IsScoped(Rendering(groups, tags, sortTalkgroups), systems, access, out)
    ensures ShowsInOrder(groups, tags, sortTalkgroups, RawOf(systems, access), out)
    ensures forall s :: s in RawOf(systems, access) ==> InPlace(systems, s)
  {
    var raw := RawSystems(systems, access);
    var list: seq<ShownSystem> := [];
    for i := 0 to |raw|
      invariant ShowsEach(groups, tags, sortTalkgroups, raw[..i], list)
    {
      var talkgroups := ShowTalkgroups(groups, tags, raw[i].talkgroups, sortTalkgroups);
      list := list + [ShownSystem(raw[i].ref, raw[i].order, talkgroups)];
    }
    assert raw[..|raw|] == raw;
    out := Sort(SystemsByOrder, list);
    OrderingKeeps(SystemsByOrder, list, out);
    EachIsScoped(groups, tags, sortTalkgroups, systems, access, raw, list, out);
  }

  lemma EachIsScoped(groups: seq<Named>, tags: seq<Named>, sorted: bool, systems: seq<System>,
      access: Option<Access.Scope>, raw: seq<System>, list: seq<ShownSystem>, out: seq<ShownSystem>)
    requires Unambiguous(systems) && ShowsEach(groups, tags, sorted, raw, list)
    requires forall system, t :: Has(raw, system, t) <==> Has(systems, system, t) && Allowed(access, system, t.ref)
    requires forall s :: s in out <==> s in list
    ensures IsScoped(Rendering(groups, tags, sorted), systems, access, out)
  {
    var renders := Rendering(groups, tags, sorted);
    assert RendersOnly(renders);
    ScopedFromRaw(renders, systems, access, raw, list, out);
  }

  /** Each listed system shows the talkgroups of the raw system in the same place. */
  ghost predicate ShowsTalkgroups(renders: Renderer, raw: seq<System>, list: seq<ShownSystem>) {
    |list| == |raw| && forall k ::
      0 <= k < |raw| ==> list[k].ref == raw[k].ref && ShownFrom(renders, raw[k].talkgroups, list[k].talkgroups)
  }

  /** A rendering tells the reference. */
  ghost predicate RendersOnly(renders: Renderer) {
    forall t, u :: renders(t, u) ==> t.ref == u.ref
  }

  lemma ShownIsRaw(renders: Renderer, raw: seq<System>, list: seq<ShownSystem>, out: seq<ShownSystem>, system: nat,
      u: ShownTalkgroup)
    returns (t: Talkgroup)
    requires ShowsTalkgroups(renders, raw, list)
    requires forall s :: s in out <==> s in list
    requires Shows(out, system, u)
    ensures Has(raw, system, t) && renders(t, u)
  {
    var s :| s in out && s.ref == system && u in s.talkgroups;
    var k :| 0 <= k < |list| && list[k] == s;
    assert RenderedFrom(renders, raw[k].talkgroups, u);
    t :| t in raw[k].talkgroups && renders(t, u);
    assert raw[k] in raw;
  }

  lemma RawIsShown(renders: Renderer, raw: seq<System>, list: seq<ShownSystem>, out: seq<ShownSystem>, system: nat,
      t: Talkgroup)
    requires ShowsTalkgroups(renders, raw, list)
    requires forall s :: s in out <==> s in list
    requires Has(raw, system, t) && Renderable(renders, t)
    ensures ShownAt(renders, out, system, t)
  {
    var s :| s in raw && s.ref == system && t in s.talkgroups;
    var k :| 0 <= k < |raw| && raw[k] == s;
    assert ShownIn(renders, t, list[k].talkgroups);
    var w :| w in list[k].talkgroups && renders(t, w);
    assert list[k] in list;
    assert Shows(out, system, w);
  }

  lemma ScopedFromRaw(renders: Renderer, systems: seq<System>, access: Option<Access.Scope>, raw: seq<System>,
      list: seq<ShownSystem>, out: seq<ShownSystem>)
    requires RendersOnly(renders) && Unambiguous(systems)
    requires forall system, t :: Has(raw, system, t) <==> Has(systems, system, t) && Allowed(access, system, t.ref)
    requires ShowsTalkgroups(renders, raw, list)
    requires forall s :: s in out <==> s in list
    ensures IsScoped(renders, systems, access, out)
  {
    forall system, t | Has(systems, system, t) && Renderable(renders, t)
      ensures ShownAt(renders, out, system, t) <==> Allowed(access, system, t.ref)
    {
      if Allowed(access, system, t.ref) {
        RawIsShown(renders, raw, list, out, system, t);
      }
      if ShownAt(renders, out, system, t) {
        var w :| Shows(out, system, w) && renders(t, w);
        var x := ShownIsRaw(renders, raw, list, out, system, w);
        assert renders(x, w) && x.ref == t.ref;
        OneTalkgroup(systems, system, x, t);
      }
    }
    forall system, u | Shows(out, system, u)
      ensures StemsFrom(renders, systems, access, system, u)
    {
      var t := ShownIsRaw(renders, raw, list, out, system, u);
    }
  }

  lemma OneTalkgroup(systems: seq<System>, system: nat, a: Talkgroup, b: Talkgroup)
    requires Unambiguous(systems) && Has(systems, system, a) && Has(systems, system, b) && a.ref == b.ref
    ensures a == b
  {
  }

  // --- The indexes by group and by tag ---

  type Index = map<string, map<nat, seq<nat>>>

  function Slot(index: Index, title: string, system: nat): seq<nat> {
    if title in index && system in index[title] then index[title][system] else []
  }

  /** The label is indexed, the system under it, and the talkgroup once under that, exactly for
      the given triples; there are no empty entries. */
  ghost predicate Indexes(index: Index, triples: Relation) {
    && (forall l, s, t :: t in Slot(index, l, s) <==> triples(l, s, t))
    && (forall l, s :: Distinct(Slot(index, l, s)))
    && (forall l :: l in index ==> exists s :: s in index[l])
    && (forall l, s :: l in index && s in index[l] ==> |index[l][s]| > 0)
  }

  /** Adds a talkgroup under a label and a system, unless it is there. */
  method Add(index: Index, title: string, system: nat, talkgroup: nat, ghost before: Relation, ghost after: Relation)
    returns (r: Index)
    requires Indexes(index, before)
    requires forall l, s, t :: after(l, s, t) <==> before(l, s, t) || (l == title && s == system && t == talkgroup)
    ensures Indexes(r, after)
  {
    var ids := Slot(index, title, system);
    var found := false;
    for i := 0 to |ids|
      invariant !found
      invariant forall k :: 0 <= k < i ==> ids[k] != talkgroup
    {
      if ids[i] == talkgroup {
        found := true;
        break;
      }
    }
    if !found {
      ids := ids + [talkgroup];
    }
    assert talkgroup in ids;
    SlotPut(index, title, system, talkgroup, ids, before, after);
    r := PutSlot(index, title, system, ids);
  }

  function PutSlot(index: Index, title: string, system: nat, ids: seq<nat>): Index {
    var systems: map<nat, seq<nat>> := if title in index then index[title] else map[];
    index[title := systems[system := ids]]
  }

  lemma SlotPut(index: Index, title: string, system: nat, talkgroup: nat, ids: seq<nat>, before: Relation,
      after: Relation)
    requires Indexes(index, before)
    requires forall l, s, t :: after(l, s, t) <==> before(l, s, t) || (l == title && s == system && t == talkgroup)
    requires forall t :: t in ids <==> t in Slot(index, title, system) || t == talkgroup
    requires Distinct(ids) && |ids| > 0
    ensures Indexes(PutSlot(index, title, system, ids), after)
  {
    var r := PutSlot(index, title, system, ids);
    forall l, s ensures Slot(r, l, s) == if l == title && s == system then ids else Slot(index, l, s) {
    }
    forall l | l in r ensures exists s :: s in r[l] {
      assert l == title ==> system in r[l];
      assert l != title ==> r[l] == index[l];
    }
    forall l, s | l in r && s in r[l] ensures |r[l][s]| > 0 {
      assert r[l][s] == Slot(r, l, s);
      assert l in index && s in index[l] ==> index[l][s] == Slot(index, l, s);
    }
    forall l, s, t ensures t in Slot(r, l, s) <==> after(l, s, t) {
      assert t in Slot(index, l, s) <==> before(l, s, t);
    }
  }

  /** The labels of a shown talkgroup that the list knows. */
  predicate Labelled(known: seq<Named>, labels: seq<string>, title: string) {
    title in labels && HasTitle(known, title)
  }

  /** A talkgroup shown under a system carries the label. */
  predicate Tagged(known: seq<Named>, labelsOf: Labeller, ts: seq<ShownTalkgroup>, title: string, ref: nat) {
    exists u :: u in ts && u.ref == ref && Labelled(known, labelsOf(u), title)
  }

  predicate Holds(known: seq<Named>, labelsOf: Labeller, out: seq<ShownSystem>, title: string, system: nat, ref: nat) {
    exists s :: s in out && s.ref == system && Tagged(known, labelsOf, s.talkgroups, title, ref)
  }

  function Triples(known: seq<Named>, labelsOf: Labeller, out: seq<ShownSystem>): Relation {
    (l: string, s: nat, t: nat) => Holds(known, labelsOf, out, l, s, t)
  }

  function GroupsOf(): Labeller { (u: ShownTalkgroup) => u.groups }
  function TagOf(): Labeller { (u: ShownTalkgroup) => [u.tag] }

  method KnownTitle(known: seq<Named>, title: string) returns (ok: bool)
    ensures ok == HasTitle(known, title)
  {
    for i := 0 to |known|
      invariant forall k :: 0 <= k < i ==> known[k].title != title
    {
      if known[i].title == title {
        return true;
      }
    }
    return false;
  }

  function WithLabels(before: Relation, known: seq<Named>, labels: seq<string>, system: nat, ref: nat): Relation {
    (l: string, s: nat, t: nat) => before(l, s, t) || (s == system && t == ref && Labelled(known, labels, l))
  }

  function WithTalkgroups(before: Relation, known: seq<Named>, labelsOf: Labeller, system: nat,
      ts: seq<ShownTalkgroup>): Relation {
    (l: string, s: nat, t: nat) => before(l, s, t) || (s == system && Tagged(known, labelsOf, ts, l, t))
  }

  lemma TaggedOneMore(known: seq<Named>, labelsOf: Labeller, ts: seq<ShownTalkgroup>, n: nat, title: string, ref: nat)
    requires n < |ts|
    ensures Tagged(known, labelsOf, ts[..n + 1], title, ref) <==>
      || Tagged(known, labelsOf, ts[..n], title, ref)
      || (ts[n].ref == ref && Labelled(known, labelsOf(ts[n]), title))
  {
    assert ts[..n + 1] == ts[..n] + [ts[n]];
    assert forall u :: u in ts[..n + 1] <==> u in ts[..n] || u == ts[n];
  }

  lemma IndexedOneSystem(index: Index, known: seq<Named>, labelsOf: Labeller, out: seq<ShownSystem>, n: nat)
    requires n < |out|
    requires var before := Triples(known, labelsOf, out[..n]);
      Indexes(index, WithTalkgroups(before, known, labelsOf, out[n].ref, out[n].talkgroups))
    ensures Indexes(index, Triples(known, labelsOf, out[..n + 1]))
  {
    var before, after := Triples(known, labelsOf, out[..n]), Triples(known, labelsOf, out[..n + 1]);
    var all := WithTalkgroups(before, known, labelsOf, out[n].ref, out[n].talkgroups);
    forall l, s, t ensures all(l, s, t) <==> after(l, s, t) {
    }
  }

  lemma IndexedOneTalkgroup(index: Index, before: Relation, known: seq<Named>, labelsOf: Labeller, system: nat,
      ts: seq<ShownTalkgroup>, n: nat)
    requires n < |ts|
    requires var some := WithTalkgroups(before, known, labelsOf, system, ts[..n]);
      Indexes(index, WithLabels(some, known, labelsOf(ts[n]), system, ts[n].ref))
    ensures Indexes(index, WithTalkgroups(before, known, labelsOf, system, ts[..n + 1]))
  {
    var some := WithTalkgroups(before, known, labelsOf, system, ts[..n]);
    var a := WithLabels(some, known, labelsOf(ts[n]), system, ts[n].ref);
    var b := WithTalkgroups(before, known, labelsOf, system, ts[..n + 1]);
    forall l, s, t ensures a(l, s, t) <==> b(l, s, t) {
      TaggedOneMore(known, labelsOf, ts, n, l, t);
    }
  }

  method AddGroups(index: Index, known: seq<Named>, labels: seq<string>, system: nat, ref: nat, ghost before: Relation)
    returns (r: Index)
    requires Indexes(index, before)
    ensures Indexes(r, WithLabels(before, known, labels, system, ref))
  {
    r := index;
    for k := 0 to |labels|
      invariant Indexes(r, WithLabels(before, known, labels[..k], system, ref))
    {
      ghost var was := WithLabels(before, known, labels[..k], system, ref);
      ghost var now := WithLabels(before, known, labels[..k + 1], system, ref);
      assert forall l :: l in labels[..k + 1] <==> l in labels[..k] || l == labels[k];
      var ok := KnownTitle(known, labels[k]);
      if ok {
        r := Add(r, labels[k], system, ref, was, now);
      }
    }
    assert labels[..|labels|] == labels;
  }

  /** The group index: every known group label of every talkgroup shown. */
  method GetGroupsMap(known: seq<Named>, out: seq<ShownSystem>) returns (index: Index)
    ensures Indexes(index, Triples(known, GroupsOf(), out))
  {
    index := map[];
    for i := 0 to |out|
      invariant Indexes(index, Triples(known, GroupsOf(), out[..i]))
    {
      var system, ts := out[i].ref, out[i].talkgroups;
      ghost var before := Triples(known, GroupsOf(), out[..i]);
      for j := 0 to |ts|
        invariant Indexes(index, WithTalkgroups(before, known, GroupsOf(), system, ts[..j]))
      {
        ghost var some := WithTalkgroups(before, known, GroupsOf(), system, ts[..j]);
        index := AddGroups(index, known, ts[j].groups, system, ts[j].ref, some);
        IndexedOneTalkgroup(index, before, known, GroupsOf(), system, ts, j);
      }
      assert ts[..|ts|] == ts;
      IndexedOneSystem(index, known, GroupsOf(), out, i);
    }
    assert out[..|out|] == out;
  }

  /** The tag index: the tag of every talkgroup shown, when it is known. */
  method GetTagsMap(known: seq<Named>, out: seq<ShownSystem>) returns (index: Index)
    ensures Indexes(index, Triples(known, TagOf(), out))
  {
    index := map[];
    for i := 0 to |out|
      invariant Indexes(index, Triples(known, TagOf(), out[..i]))
    {
      var system, ts := out[i].ref, out[i].talkgroups;
      ghost var before := Triples(known, TagOf(), out[..i]);
      for j := 0 to |ts|
        invariant Indexes(index, WithTalkgroups(before, known, TagOf(), system, ts[..j]))
      {
        ghost var was := WithTalkgroups(before, known, TagOf(), system, ts[..j]);
        ghost var now := WithLabels(was, known, [ts[j].tag], system, ts[j].ref);
        var ok := KnownTitle(known, ts[j].tag);
        if ok {
          index := Add(index, ts[j].tag, system, ts[j].ref, was, now);
        }
        IndexedOneTalkgroup(index, before, known, TagOf(), system, ts, j);
      }
      assert ts[..|ts|] == ts;
      IndexedOneSystem(index, known, TagOf(), out, i);
    }
    assert out[..|out|] == out;
  }

  // --- Scope and indexes together ---

  /** In the indexes of a scoped configuration a talkgroup stands under a label exactly when it is
      listable, the access allows it, and it is in a group, or has the tag, of that label. */
  lemma IndexesFollowAccess(systems: seq<System>, access: Option<Access.Scope>, groups: seq<Named>, tags: seq<Named>,
      sorted: bool, out: seq<ShownSystem>,
      byGroup: Index, byTag: Index, title: string, system: nat, t: Talkgroup)
    requires Unambiguous(systems) && Has(systems, system, t)
    requires IsScoped(Rendering(groups, tags, sorted), systems, access, out)
    requires Indexes(byGroup, Triples(groups, GroupsOf(), out)) && Indexes(byTag, Triples(tags, TagOf(), out))
    ensures t.ref in Slot(byGroup, title, system) <==>
      && Listable(tags, t) && Allowed(access, system, t.ref)
      && exists id :: id in t.groupIds && Names(groups, id, title)
    ensures t.ref in Slot(byTag, title, system)
       <==> Listable(tags, t) && Allowed(access, system, t.ref) && ById(tags, t.tagId).value.title == title
  {
    var renders := Rendering(groups, tags, sorted);
    assert Renderable(renders, t) <==> Listable(tags, t) by {
      if Listable(tags, t) { assert renders(t, Show(groups, tags, t)); }
    }
    HeldLabels(renders, systems, access, groups, GroupsOf(), out, title, system, t);
    HeldLabels(renders, systems, access, tags, TagOf(), out, title, system, t);
    if Listable(tags, t) {
      forall u | renders(t, u)
        ensures Labelled(groups, u.groups, title) <==> exists id :: id in t.groupIds && Names(groups, id, title)
        ensures Labelled(tags, [u.tag], title) <==> ById(tags, t.tagId).value.title == title
      {
      }
    }
  }

  ghost predicate AlwaysLabelled(renders: Renderer, known: seq<Named>, labelsOf: Labeller, title: string,
      t: Talkgroup) {
    forall u :: renders(t, u) ==> Labelled(known, labelsOf(u), title)
  }

  /** A label holds for a talkgroup exactly when it is shown and its rendering carries the label. */
  lemma HeldLabels(renders: Renderer, systems: seq<System>, access: Option<Access.Scope>, known: seq<Named>,
      labelsOf: Labeller, out: seq<ShownSystem>, title: string, system: nat, t: Talkgroup)
    requires Unambiguous(systems) && Has(systems, system, t) && RendersOnly(renders)
    requires IsScoped(renders, systems, access, out)
    ensures Holds(known, labelsOf, out, title, system, t.ref) ==>
      && Renderable(renders, t) && Allowed(access, system, t.ref)
      && exists u :: renders(t, u) && Labelled(known, labelsOf(u), title)
    ensures
      Renderable(renders, t) && Allowed(access, system, t.ref) && AlwaysLabelled(renders, known, labelsOf, title, t)
      ==> Holds(known, labelsOf, out, title, system, t.ref)
  {
    if Holds(known, labelsOf, out, title, system, t.ref) {
      var s :| s in out && s.ref == system && Tagged(known, labelsOf, s.talkgroups, title, t.ref);
      var u :| u in s.talkgroups && u.ref == t.ref && Labelled(known, labelsOf(u), title);
      assert Shows(out, system, u);
      assert StemsFrom(renders, systems, access, system, u);
      var x :| Has(systems, system, x) && Allowed(access, system, x.ref) && renders(x, u);
      OneTalkgroup(systems, system, x, t);
    }
    if Renderable(renders, t) && Allowed(access, system, t.ref) && AlwaysLabelled(renders, known, labelsOf, title, t) {
      assert ShownAt(renders, out, system, t);
      var u :| Shows(out, system, u) && renders(t, u);
      var s :| s in out && s.ref == system && u in s.talkgroups;
      assert Tagged(known, labelsOf, s.talkgroups, title, t.ref);
    }
  }
}
