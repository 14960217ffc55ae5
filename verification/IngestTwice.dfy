/** Receiving the same call again: when it changes nothing, and when it does. */
module IngestTwice {
  import opened Prelude
  import opened IngestModel
  import opened IngestDistinct
  import opened IngestExtends

  // --- A call with nothing left to add ---

  /** The primary talkgroup needs no repair, or repairing it again makes no difference. */
  predicate SettledPrimary(l: Labels, t: Talkgroup, m: Meta) {
    Repairs(t, m) ==> RepairedLabels(l, m) == l && Repaired(l, t, m) == t
  }

  ghost predicate Settled(l: Labels, s: System, c: Call) {
    var at := FindTalkgroup(s.talkgroups, c.meta);
    && at.Some? && SettledPrimary(l, s.talkgroups[at.value], c.meta)
    && (forall r :: r in c.patches && r > 0 ==> !IsMissing(s, r))
    && (forall r :: Labelled(c.meta, r) ==> HasUnit(s.units, r))
  }

  ghost predicate Absorbed(g: Config, c: Call) {
    match FindSystem(g.systems, c.meta)
    case None => !g.autoPopulate
    case Some(i) => Takes(g, g.systems[i], c.meta) ==> Settled(g.labels, g.systems[i], c)
  }

  lemma {:induction false} MergeKnown(units: seq<Unit>, more: seq<Unit>)
    requires forall r :: HasUnit(more, r) ==> HasUnit(units, r)
    ensures Merge(units, more) == units
  {
    if more != [] {
      var n := |more| - 1;
      assert more[n].ref == more[n].ref && HasUnit(more, more[n].ref);
      forall r | HasUnit(more[..n], r) ensures HasUnit(units, r) {
        var i :| 0 <= i < n && more[..n][i].ref == r;
        assert more[i].ref == r;
      }
      MergeKnown(units, more[..n]);
    }
  }

  lemma SettledStays(w: Work, c: Call)
    requires Settled(w.labels, w.system, c)
    ensures Populated(w, c) == w
  {
    var m, at := c.meta, FindTalkgroup(w.system.talkgroups, c.meta);
    assert w.system.talkgroups[at.value := w.system.talkgroups[at.value]] == w.system.talkgroups;
    assert Primary(w, at, m) == w;
    UniqueRefsAreDistinct(c.patches);
    MissingNone(w.system, UniqueRefs(c.patches));
    LabelledUnitsAre(m, |m.unitRefs|);
    MergeKnown(w.system.units, UnitsOf(m));
  }

  lemma MissingNone(s: System, refs: seq<nat>)
    requires forall r :: r in refs ==> !IsMissing(s, r)
    ensures Missing(s, refs) == []
  {
    HasFirst(Missing(s, refs));
  }

  lemma AbsorbedStays(g: Config, c: Call)
    requires Absorbed(g, c)
    ensures Populate(g, c) == g
  {
    match FindSystem(g.systems, c.meta) {
      case Some(i) =>
        if Takes(g, g.systems[i], c.meta) {
          SettledStays(Work(g.labels, g.systems[i]), c);
          assert g.systems[i := g.systems[i]] == g.systems;
        }
      case None =>
    }
  }

  // --- One pass leaves nothing to add ---

  lemma SettledPrimaryExtends(l: Labels, l': Labels, t: Talkgroup, m: Meta)
    requires SettledPrimary(l, t, m) && LabelsExtend(l, l')
    ensures SettledPrimary(l', t, m)
  {
    if Repairs(t, m) {
      EnsureAllExtends(l.groups, m.talkgroupGroups);
      KnownStays(l.groups, l'.groups, m.talkgroupGroups);
      if m.talkgroupTag != "" {
        EnsureExtends(l.tags, m.talkgroupTag);
        ExtendsKeepsId(l.tags, l'.tags, m.talkgroupTag);
      }
    }
  }

  lemma KnownStays(a: Catalog, b: Catalog, titles: seq<string>)
    requires CatalogExtends(a, b) && forall t :: t in titles ==> IdOf(a, t).Some?
    ensures EnsureAll(b, titles) == b && IdsOf(b, titles) == IdsOf(a, titles)
  {
    forall t | t in titles ensures IdOf(b, t).Some? {
      ExtendsKeepsId(a, b, t);
    }
    EnsureAllKnown(b, titles);
    ExtendsKeepsIds(a, b, titles);
  }

  lemma RepairSettles(l: Labels, t: Talkgroup, m: Meta)
    requires Repairs(t, m)
    ensures var l' := RepairedLabels(l, m); SettledPrimary(l', Repaired(l', t, m), m)
  {
    var l' := RepairedLabels(l, m);
    EnsureAllExtends(l.groups, m.talkgroupGroups);
    KnownStays(l'.groups, l'.groups, m.talkgroupGroups);
    EnsureExtends(l.tags, m.talkgroupTag);
  }

  lemma CreateSettles(l: Labels, m: Meta)
    ensures var l' := CreatedLabels(l, m); SettledPrimary(l', Created(l', m), m)
  {
    var l' := CreatedLabels(l, m);
    EnsureAllExtends(l.groups, GroupsFor(m));
    KnownStays(l'.groups, l'.groups, GroupsFor(m));
    EnsureExtends(l.tags, TagFor(m));
    UnknownIsNoGroup(m.talkgroupLabel, m.talkgroupRef);
  }

  /** Having only the stand-in group is like having none. */
  lemma UnknownIsNoGroup(title: string, ref: nat)
    ensures AutoName([UNKNOWN], title, ref) == AutoName([], title, ref) == DefaultName(ref)
  {
    assert TrimSpace(UNKNOWN) == UNKNOWN;
    assert !UsableGroup([UNKNOWN][0]);
  }

  /** Appending does not change which talkgroup a call finds. */
  lemma AppendKeepsFound(a: seq<Talkgroup>, b: seq<Talkgroup>, m: Meta)
    requires |a| <= |b| && forall i :: 0 <= i < |a| ==> b[i] == a[i]
    requires FindTalkgroup(a, m).Some?
    ensures FindTalkgroup(b, m) == FindTalkgroup(a, m)
  {
  }

  /** The call names its talkgroup: one that is there, or a reference and no identifier. */
  predicate NamesTalkgroup(s: System, m: Meta) {
    FindTalkgroup(s.talkgroups, m).Some? || (m.talkgroupId == 0 && m.talkgroupRef > 0)
  }

  lemma PrimarySettles(w: Work, m: Meta)
    requires NamesTalkgroup(w.system, m)
    ensures var w' := Primary(w, FindTalkgroup(w.system.talkgroups, m), m);
      var at := FindTalkgroup(w'.system.talkgroups, m);
      at.Some? && SettledPrimary(w'.labels, w'.system.talkgroups[at.value], m)
  {
    match FindTalkgroup(w.system.talkgroups, m)
    case Some(i) =>
      if Repairs(w.system.talkgroups[i], m) {
        RepairSettles(w.labels, w.system.talkgroups[i], m);
        RepairKeepsFound(w, i, m);
      }
    case None =>
      CreateSettles(w.labels, m);
      var b := Create(w, m).system.talkgroups;
      assert b[|w.system.talkgroups|] == Created(CreatedLabels(w.labels, m), m);
  }

  lemma RepairKeepsFound(w: Work, i: nat, m: Meta)
    requires FindTalkgroup(w.system.talkgroups, m) == Some(i) && Repairs(w.system.talkgroups[i], m)
    ensures FindTalkgroup(RepairAt(w, i, m).system.talkgroups, m) == Some(i)
  {
    var a, b := w.system.talkgroups, RepairAt(w, i, m).system.talkgroups;
    assert forall j :: 0 <= j < |a| ==> b[j].id == a[j].id && b[j].ref == a[j].ref && (j != i ==> b[j] == a[j]);
  }

  lemma PopulatedSettles(w: Work, c: Call)
    requires NamesTalkgroup(w.system, c.meta)
    ensures Settled(Populated(w, c).labels, Populated(w, c).system, c)
  {
    var m, refs := c.meta, UniqueRefs(c.patches);
    var w1 := Primary(w, FindTalkgroup(w.system.talkgroups, m), m);
    PrimarySettles(w, m);
    var w2, w3 := AddPatches(w1, refs), Populated(w, c);
    AddPatchesExtends(w1, refs);
    AppendKeepsFound(w1.system.talkgroups, w2.system.talkgroups, m);
    var at := FindTalkgroup(w1.system.talkgroups, m).value;
    SettledPrimaryExtends(w1.labels, w2.labels, w1.system.talkgroups[at], m);
    PopulatedExtends(w, c);
    assert w3.system.talkgroups == w2.system.talkgroups && w3.system.talkgroups[at] == w1.system.talkgroups[at];
    assert forall r :: r in c.patches && r > 0 ==> !IsMissing(w3.system, r);
  }

  // --- The configuration ---

  /** What a received call is checked for first: that it says something of its system. */
  predicate NamesSystem(m: Meta) {
    m.systemId > 0 || m.systemRef > 0 || m.systemLabel != ""
  }

  /** The call's identifiers, where it has any, are those of a system and a talkgroup that are
      there, whenever the call would add to the configuration. */
  predicate IdsKnown(g: Config, m: Meta) {
    match FindSystem(g.systems, m)
    case None => g.autoPopulate ==> m.systemId == 0 && m.talkgroupId == 0
    case Some(i) =>
      var s := g.systems[i];
      Takes(g, s, m) && m.talkgroupId > 0 ==> FindTalkgroup(s.talkgroups, m).Some?
  }

  /** The talkgroup is there or could be created, whenever the call would add to the configuration. */
  predicate HasTarget(g: Config, m: Meta) {
    match FindSystem(g.systems, m)
    case None => g.autoPopulate ==> m.talkgroupRef > 0
    case Some(i) => Takes(g, g.systems[i], m) ==> FindTalkgroup(g.systems[i].talkgroups, m).Some? || m.talkgroupRef > 0
  }

  lemma SystemStaysFound(a: seq<System>, b: seq<System>, m: Meta)
    requires |a| == |b| && forall i ::
      0 <= i < |a| ==> b[i].id == a[i].id && b[i].ref == a[i].ref && b[i].title == a[i].title
    ensures FindSystem(b, m) == FindSystem(a, m)
  {
  }

  /** An added system is the one the call finds next, unless it was looked up by identifier. */
  lemma AddedIsFound(a: seq<System>, s: System, m: Meta)
    requires FindSystem(a, m).None? && NamesSystem(m)
    requires s.id == 0 && (m.systemRef > 0 ==> s.ref == m.systemRef) && (m.systemLabel != "" ==>
      s.title == m.systemLabel)
    ensures FindSystem(a + [s], m) == if m.systemId > 0 then None else Some(|a|)
  {
    var b := a + [s];
    assert b[|a|] == s && forall i :: 0 <= i < |a| ==> b[i] == a[i];
  }

  lemma IngestAbsorbs(g: Config, c: Call)
    requires NamesSystem(c.meta) && IdsKnown(g, c.meta) && HasTarget(g, c.meta)
    ensures Absorbed(Populate(g, c), c)
  {
    var m, h := c.meta, Populate(g, c);
    IngestOnlyExtends(g, c);
    match FindSystem(g.systems, m) {
      case Some(i) =>
        if Takes(g, g.systems[i], m) {
          PopulatedSettles(Work(g.labels, g.systems[i]), c);
          assert h.systems == g.systems[i := h.systems[i]];
          SystemStaysFound(g.systems, h.systems, m);
        }
      case None =>
        if g.autoPopulate {
          var s := NewSystem(g.systems, m);
          PopulatedSettles(Work(g.labels, s), c);
          AddedIsFound(g.systems, h.systems[|g.systems|], m);
          assert h.systems == g.systems + [h.systems[|g.systems|]];
        }
    }
  }

  // --- When identifiers do not resolve ---

  predicate NoneHasId(ts: seq<Talkgroup>, id: nat) {
    forall i :: 0 <= i < |ts| ==> ts[i].id != id
  }

  lemma AddedHaveNoId(w: Work, c: Call)
    requires c.meta.talkgroupId > 0 && c.meta.talkgroupRef > 0 && FindTalkgroup(w.system.talkgroups, c.meta).None?
    ensures var w' := Populated(w, c);
      && |w'.system.talkgroups| > |w.system.talkgroups|
      && FindTalkgroup(w'.system.talkgroups, c.meta).None?
  {
    var m, refs := c.meta, UniqueRefs(c.patches);
    var w1 := Create(w, m);
    assert NoneHasId(w.system.talkgroups, m.talkgroupId);
    assert NoneHasId(w1.system.talkgroups, m.talkgroupId);
    var w2 := AddPatches(w1, refs);
    assert NoneHasId(w2.system.talkgroups, m.talkgroupId);
    assert Populated(w, c).system.talkgroups == w2.system.talkgroups;
  }

  lemma UnknownTalkgroupIdGrows(g: Config, i: nat, c: Call)
    requires i < |g.systems| && FindSystem(g.systems, c.meta) == Some(i) && Active(g, g.systems[i])
    requires c.meta.talkgroupId > 0 && c.meta.talkgroupRef > 0 && FindTalkgroup(g.systems[i].talkgroups, c.meta).None?
    ensures Populate(g, c) != g
    ensures FindTalkgroup(Populate(g, c).systems[i].talkgroups, c.meta).None?
  {
    AddedHaveNoId(Work(g.labels, g.systems[i]), c);
  }

  lemma UnknownIdsKeepAdding(g: Config, c: Call)
    requires NamesSystem(c.meta) && HasTarget(g, c.meta) && !IdsKnown(g, c.meta)
    ensures Populate(Populate(g, c), c) != Populate(g, c)
  {
    var m, h := c.meta, Populate(g, c);
    IngestOnlyExtends(g, c);
    match FindSystem(g.systems, m) {
      case Some(i) =>
        UnknownTalkgroupIdGrows(g, i, c);
        assert h.systems == g.systems[i := h.systems[i]];
        SystemStaysFound(g.systems, h.systems, m);
        UnknownTalkgroupIdGrows(h, i, c);
      case None =>
        var s, n := NewSystem(g.systems, m), |g.systems|;
        assert h.systems == g.systems + [h.systems[n]];
        AddedIsFound(g.systems, h.systems[n], m);
        if m.systemId == 0 {
          AddedHaveNoId(Work(g.labels, s), c);
          UnknownTalkgroupIdGrows(h, n, c);
        } else {
          IngestOnlyExtends(h, c);
        }
    }
  }

  /** Receiving a call twice leaves what receiving it once does, exactly when its identifiers are
      known or absent; with one that is not, the second time adds again. */
  lemma IngestTwiceIsOnce(g: Config, c: Call)
    requires NamesSystem(c.meta) && HasTarget(g, c.meta)
    ensures Populate(Populate(g, c), c) == Populate(g, c) <==> IdsKnown(g, c.meta)
  {
    if IdsKnown(g, c.meta) {
      IngestAbsorbs(g, c);
      AbsorbedStays(Populate(g, c), c);
    } else {
      UnknownIdsKeepAdding(g, c);
    }
  }
}
