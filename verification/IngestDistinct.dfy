/** Auto-population keeps references distinct, and only extends what was configured. */
module IngestDistinct {
  import opened Prelude
  import opened Decimal
  import opened IngestModel
  import Scopes

  predicate DistinctTalkgroups(ts: seq<Talkgroup>) {
    forall i, j :: 0 <= i < j < |ts| ==> ts[i].ref != ts[j].ref
  }

  predicate DistinctUnits(us: seq<Unit>) {
    forall i, j :: 0 <= i < j < |us| ==> us[i].ref != us[j].ref
  }

  predicate DistinctWithin(s: System) {
    DistinctTalkgroups(s.talkgroups) && DistinctUnits(s.units)
  }

  predicate DistinctSystems(systems: seq<System>) {
    forall i, j :: 0 <= i < j < |systems| ==> systems[i].ref != systems[j].ref
  }

  /** No two systems share a reference, nor two talkgroups or two units of one system. */
  predicate DistinctRefs(g: Config) {
    DistinctSystems(g.systems) && forall i :: 0 <= i < |g.systems| ==> DistinctWithin(g.systems[i])
  }

  // --- A new reference ---

  lemma {:induction false} AllBelowUsed(systems: seq<System>, i: nat)
    requires 1 <= i <= |systems| + 1
    ensures var r := FirstUnused(systems, i);
      && i <= r <= |systems| + 1 && (r <= |systems| ==> !UsesRef(systems, r))
      && forall k :: i <= k < r ==> UsesRef(systems, k)
    decreases |systems| + 1 - i
  {
    if i != |systems| + 1 && UsesRef(systems, i) {
      AllBelowUsed(systems, i + 1);
    }
  }

  function Refs(systems: seq<System>): (r: seq<int>)
    ensures |r| == |systems| && forall i :: 0 <= i < |r| ==> r[i] == systems[i].ref
  {
    Keys((s: System) => s.ref, systems)
  }

  /** So many systems cannot use more references than there are systems. */
  lemma {:induction false} TooFewSystems(refs: seq<nat>, n: nat)
    requires forall k :: 1 <= k <= n ==> k in refs
    ensures n <= |refs|
  {
    if n > 0 {
      assert n in refs;
      var at :| 0 <= at < |refs| && refs[at] == n;
      var rest := refs[..at] + refs[at + 1..];
      forall k | 1 <= k <= n - 1 ensures k in rest {
        assert k in refs;
        var j :| 0 <= j < |refs| && refs[j] == k;
        assert if j < at then rest[j] == k else rest[j - 1] == k;
      }
      TooFewSystems(rest, n - 1);
    }
  }

  lemma FirstUnusedIsUnused(systems: seq<System>)
    ensures var r := FirstUnused(systems, 1);
      1 <= r <= |systems| + 1 && !UsesRef(systems, r) && forall k :: 1 <= k < r ==> UsesRef(systems, k)
  {
    AllBelowUsed(systems, 1);
    var r := FirstUnused(systems, 1);
    if UsesRef(systems, r) {
      var refs := Refs(systems);
      forall k | 1 <= k <= r ensures k in refs {
        assert UsesRef(systems, k);
        var i :| 0 <= i < |systems| && systems[i].ref == k;
        assert refs[i] == k;
      }
      TooFewSystems(refs, r);
    }
  }

  /** The reference given to a system known by its label only: the least positive one not in use,
      at most one more than there are systems. */
  lemma NewRefIsLeastUnused(systems: seq<System>)
    requires |systems| + 1 < MAX_REF
    ensures var r := NewSystemRef(systems);
      1 <= r <= |systems| + 1 && !UsesRef(systems, r) && forall k :: 1 <= k < r ==> UsesRef(systems, k)
  {
    FirstUnusedIsUnused(systems);
  }

  /** None is given exactly when every reference there is is in use; otherwise the least one that is not. */
  lemma NewRefRunsOut(systems: seq<System>)
    ensures NewSystemRef(systems) == 0 <==> forall k: nat :: 1 <= k < UINT64_LIMIT - 1 ==> UsesRef(systems, k)
    ensures NewSystemRef(systems) > 0 ==> !UsesRef(systems, NewSystemRef(systems))
    ensures forall k :: 1 <= k < NewSystemRef(systems) ==> UsesRef(systems, k)
    ensures NewSystemRef(systems) < UINT64_LIMIT - 1
  {
    FirstUnusedIsUnused(systems);
  }

  // --- Patches ---

  /** The references of a patch, each once and none zero. */
  lemma {:induction false} UniqueRefsAreDistinct(refs: seq<nat>)
    ensures Distinct(UniqueRefs(refs))
    ensures forall r :: r in UniqueRefs(refs) <==> r in refs && r != 0
  {
    if refs != [] {
      var n := |refs| - 1;
      UniqueRefsAreDistinct(refs[..n]);
      assert refs == refs[..n] + [refs[n]];
    }
  }

  lemma MissingAreDistinct(s: System, refs: seq<nat>)
    requires Distinct(refs)
    ensures Distinct(Missing(s, refs))
    ensures forall r :: r in Missing(s, refs) <==> r in refs && IsMissing(s, r)
  {
    FilterKeepsPairs((a: nat, b: nat) => a != b, (ref: nat) => IsMissing(s, ref), refs);
  }

  // --- One system ---

  lemma CreateKeepsDistinct(w: Work, m: Meta)
    requires DistinctWithin(w.system)
    ensures DistinctWithin(Create(w, m).system) <==> !HasTalkgroup(w.system.talkgroups, m.talkgroupRef)
  {
    var ts, n := Create(w, m).system.talkgroups, |w.system.talkgroups|;
    assert ts[n].ref == m.talkgroupRef;
    assert forall i :: 0 <= i < n ==> ts[i] == w.system.talkgroups[i];
    if HasTalkgroup(w.system.talkgroups, m.talkgroupRef) {
      var i :| 0 <= i < n && w.system.talkgroups[i].ref == m.talkgroupRef;
      assert ts[i].ref == ts[n].ref;
    }
  }

  lemma AddPatchesKeepsDistinct(w: Work, refs: seq<nat>)
    requires Distinct(refs)
    ensures DistinctWithin(AddPatches(w, refs).system) <==> DistinctWithin(w.system)
  {
    MissingAreDistinct(w.system, refs);
    var missing, before := Missing(w.system, refs), w.system.talkgroups;
    if missing != [] {
      var more := AllPatched(PatchLabels(w.labels), missing);
      forall i | 0 <= i < |missing| ensures more[i].ref == missing[i] && !HasTalkgroup(before, missing[i]) {
        assert missing[i] in missing;
      }
      DistinctAppended(before, more);
    }
  }

  lemma DistinctAppended(before: seq<Talkgroup>, more: seq<Talkgroup>)
    requires DistinctTalkgroups(more) && forall i :: 0 <= i < |more| ==> !HasTalkgroup(before, more[i].ref)
    ensures DistinctTalkgroups(before + more) <==> DistinctTalkgroups(before)
  {
    var all, n := before + more, |before|;
    assert forall i :: 0 <= i < n ==> all[i] == before[i];
    assert forall i :: n <= i < |all| ==> all[i] == more[i - n];
    if DistinctTalkgroups(all) {
      forall i, j | 0 <= i < j < n ensures before[i].ref != before[j].ref {
        assert all[i].ref != all[j].ref;
      }
    }
    if DistinctTalkgroups(before) {
      forall i, j | 0 <= i < j < |all| ensures all[i].ref != all[j].ref {
        assert i < n <= j ==> !HasTalkgroup(before, more[j - n].ref);
        assert i >= n ==> more[i - n].ref != more[j - n].ref;
      }
    }
  }

  lemma {:induction false} MergeKeepsDistinct(units: seq<Unit>, more: seq<Unit>)
    ensures DistinctUnits(units) ==> DistinctUnits(Merge(units, more))
    ensures |Merge(units, more)| >= |units| && Merge(units, more)[..|units|] == units
    ensures forall r :: HasUnit(Merge(units, more), r) <==> HasUnit(units, r) || HasUnit(more, r)
  {
    if more != [] {
      var n := |more| - 1;
      var before := Merge(units, more[..n]);
      MergeKeepsDistinct(units, more[..n]);
      UnitAdded(before, more[n]);
      UnitAppended(more[..n], more[n]);
      assert more == more[..n] + [more[n]];
    }
  }

  lemma UnitAdded(units: seq<Unit>, u: Unit)
    ensures DistinctUnits(units) ==> DistinctUnits(AddUnit(units, u))
    ensures forall r :: HasUnit(AddUnit(units, u), r) <==> HasUnit(units, r) || r == u.ref
  {
    if !HasUnit(units, u.ref) {
      UnitAppended(units, u);
    }
  }

  lemma UnitAppended(units: seq<Unit>, u: Unit)
    ensures forall r :: HasUnit(units + [u], r) <==> HasUnit(units, r) || r == u.ref
  {
    var all := units + [u];
    assert all[|units|] == u;
    forall r ensures HasUnit(all, r) <==> HasUnit(units, r) || r == u.ref {
      if HasUnit(units, r) {
        var i :| 0 <= i < |units| && units[i].ref == r;
        assert all[i].ref == r;
      }
    }
  }

  lemma RepairKeepsDistinct(w: Work, at: nat, m: Meta)
    requires at < |w.system.talkgroups|
    ensures DistinctWithin(RepairAt(w, at, m).system) <==> DistinctWithin(w.system)
  {
    var a, b := w.system.talkgroups, RepairAt(w, at, m).system.talkgroups;
    assert |a| == |b| && forall i :: 0 <= i < |a| ==> a[i].ref == b[i].ref;
  }

  /** Only a talkgroup to be created can clash: one asked for by an identifier that is not there,
      under a reference that is. */
  predicate Clashes(s: System, m: Meta) {
    FindTalkgroup(s.talkgroups, m).None? && m.talkgroupRef > 0 && HasTalkgroup(s.talkgroups, m.talkgroupRef)
  }

  lemma PopulatedKeepsDistinct(w: Work, c: Call)
    requires DistinctWithin(w.system)
    ensures DistinctWithin(Populated(w, c).system) <==> !Clashes(w.system, c.meta)
  {
    var m, at := c.meta, FindTalkgroup(w.system.talkgroups, c.meta);
    var w1 := Primary(w, at, m);
    match at {
      case Some(i) => if Repairs(w.system.talkgroups[i], m) { RepairKeepsDistinct(w, i, m); }
      case None => if m.talkgroupRef > 0 { CreateKeepsDistinct(w, m); }
    }
    assert DistinctWithin(w1.system) <==> !Clashes(w.system, m);
    UniqueRefsAreDistinct(c.patches);
    var w2 := AddPatches(w1, UniqueRefs(c.patches));
    AddPatchesKeepsDistinct(w1, UniqueRefs(c.patches));
    MergeKeepsDistinct(w2.system.units, UnitsOf(m));
    assert w2.system.units == w1.system.units == w.system.units;
  }

  // --- The configuration ---

  predicate Active(g: Config, s: System) {
    g.autoPopulate || s.autoPopulate
  }

  /** Something is created under a reference already in use. It takes an identifier that does not
      resolve, together with a reference that does. */
  predicate RefClash(g: Config, c: Call) {
    match FindSystem(g.systems, c.meta)
    case None => g.autoPopulate && c.meta.systemRef > 0 && UsesRef(g.systems, c.meta.systemRef)
    case Some(i) => Active(g, g.systems[i]) && Clashes(g.systems[i], c.meta)
  }

  lemma SystemsAfterAppend(g: Config, s: System)
    requires DistinctRefs(g)
    ensures DistinctSystems(g.systems + [s]) <==> !UsesRef(g.systems, s.ref)
  {
    var all, n := g.systems + [s], |g.systems|;
    assert all[n] == s && forall i :: 0 <= i < n ==> all[i] == g.systems[i];
    if UsesRef(g.systems, s.ref) {
      var i :| 0 <= i < n && g.systems[i].ref == s.ref;
      assert all[i].ref == all[n].ref;
    }
  }

  /** A call keeps references distinct exactly when it does not clash. */
  lemma RefsStayDistinct(g: Config, c: Call)
    requires DistinctRefs(g) && |g.systems| + 1 < MAX_REF
    ensures DistinctRefs(Populate(g, c)) <==> !RefClash(g, c)
  {
    match FindSystem(g.systems, c.meta)
    case Some(i) => FoundStaysDistinct(g, c, i);
    case None => AddedStaysDistinct(g, c);
  }

  lemma ReplacedStaysDistinct(g: Config, i: nat, s: System)
    requires DistinctRefs(g) && i < |g.systems| && s.ref == g.systems[i].ref
    ensures var systems := g.systems[i := s];
      DistinctSystems(systems)
      && ((forall j :: 0 <= j < |systems| ==> DistinctWithin(systems[j])) <==> DistinctWithin(s))
  {
    var systems := g.systems[i := s];
    assert systems[i] == s && forall j :: 0 <= j < |systems| && j != i ==> systems[j] == g.systems[j];
  }

  lemma FoundStaysDistinct(g: Config, c: Call, i: nat)
    requires DistinctRefs(g) && FindSystem(g.systems, c.meta) == Some(i)
    ensures DistinctRefs(Populate(g, c)) <==> !RefClash(g, c)
  {
    var s := g.systems[i];
    if !Rejected(s, c.meta) && Active(g, s) {
      PopulatedKeepsDistinct(Work(g.labels, s), c);
      ReplacedStaysDistinct(g, i, Populated(Work(g.labels, s), c).system);
    }
  }

  lemma AddedStaysDistinct(g: Config, c: Call)
    requires DistinctRefs(g) && |g.systems| + 1 < MAX_REF && FindSystem(g.systems, c.meta).None?
    ensures DistinctRefs(Populate(g, c)) <==> !RefClash(g, c)
  {
    if g.autoPopulate {
      var s := NewSystem(g.systems, c.meta);
      PopulatedKeepsDistinct(Work(g.labels, s), c);
      NewRefIsLeastUnused(g.systems);
      AppendedStaysDistinct(g, Populated(Work(g.labels, s), c).system);
    }
  }

  lemma AppendedStaysDistinct(g: Config, s: System)
    requires DistinctRefs(g)
    ensures var systems := g.systems + [s];
      && (DistinctSystems(systems) <==> !UsesRef(g.systems, s.ref))
      && ((forall j :: 0 <= j < |systems| ==> DistinctWithin(systems[j])) <==> DistinctWithin(s))
  {
    SystemsAfterAppend(g, s);
    var systems := g.systems + [s];
    assert systems[|g.systems|] == s && forall j :: 0 <= j < |g.systems| ==> systems[j] == g.systems[j];
  }

  /** Identifiers that are absent or resolve. */
  predicate IdsResolve(g: Config, m: Meta) {
    && (m.systemId > 0 ==> FindSystem(g.systems, m).Some?)
    && (m.talkgroupId > 0 && FindSystem(g.systems, m).Some? ==>
      FindTalkgroup(g.systems[FindSystem(g.systems, m).value].talkgroups, m).Some?)
  }

  lemma ResolvedIdsDoNotClash(g: Config, c: Call)
    requires IdsResolve(g, c.meta)
    ensures !RefClash(g, c)
  {
  }

  lemma OneMoreSystem(g: Config, c: Call)
    ensures |Populate(g, c).systems| <= |g.systems| + 1
  {
  }

  // --- Identifiers of groups and tags ---

  /** No two entries share an identifier, nor a label, and the next identifier is not taken. */
  predicate CatalogOk(c: Catalog) {
    && (forall i :: 0 <= i < |c.list| ==> c.list[i].id < c.nextId)
    && (forall i, j :: 0 <= i < j < |c.list| ==> c.list[i].id != c.list[j].id && c.list[i].title != c.list[j].title)
  }

  predicate LabelsOk(l: Labels) {
    CatalogOk(l.groups) && CatalogOk(l.tags)
  }

  lemma EnsureStaysOk(c: Catalog, title: string)
    requires CatalogOk(c)
    ensures CatalogOk(Ensure(c, title))
  {
    if IdOf(c, title).None? {
      var d := Ensure(c, title);
      assert d.list[|c.list|] == Scopes.Named(c.nextId, title);
      assert forall i :: 0 <= i < |c.list| ==> d.list[i] == c.list[i];
    }
  }

  lemma {:induction false} EnsureAllStaysOk(c: Catalog, titles: seq<string>)
    requires CatalogOk(c)
    ensures CatalogOk(EnsureAll(c, titles))
  {
    if titles != [] {
      EnsureAllStaysOk(c, titles[..|titles| - 1]);
      EnsureStaysOk(EnsureAll(c, titles[..|titles| - 1]), titles[|titles| - 1]);
    }
  }

  lemma PopulatedKeepsLabels(w: Work, c: Call)
    requires LabelsOk(w.labels)
    ensures LabelsOk(Populated(w, c).labels)
  {
    var m := c.meta;
    var w1 := Primary(w, FindTalkgroup(w.system.talkgroups, m), m);
    EnsureAllStaysOk(w.labels.groups, m.talkgroupGroups);
    EnsureAllStaysOk(w.labels.groups, GroupsFor(m));
    EnsureStaysOk(w.labels.tags, m.talkgroupTag);
    EnsureStaysOk(w.labels.tags, TagFor(m));
    EnsureStaysOk(w1.labels.groups, UNKNOWN);
    EnsureStaysOk(w1.labels.tags, UNTAGGED);
  }

  /** No call makes two groups, or two tags, share an identifier or a label. */
  lemma LabelsStayDistinct(g: Config, c: Call)
    requires LabelsOk(g.labels)
    ensures LabelsOk(Populate(g, c).labels)
  {
    match FindSystem(g.systems, c.meta)
    case Some(i) => PopulatedKeepsLabels(Work(g.labels, g.systems[i]), c);
    case None => PopulatedKeepsLabels(Work(g.labels, NewSystem(g.systems, c.meta)), c);
  }
}
