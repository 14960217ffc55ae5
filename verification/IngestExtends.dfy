/** Receiving a call only extends the configuration; receiving it again changes nothing. */
module IngestExtends {
  import opened Prelude
  import opened Decimal
  import opened Blacklists
  import opened IngestModel
  import opened IngestDistinct

  /** Unchanged, or a placeholder that took over the call's label. */
  predicate TalkgroupExtends(a: Talkgroup, b: Talkgroup, m: Meta) {
    b == a || (Repairs(a, m) && b.id == a.id && b.ref == a.ref && b.title == m.talkgroupLabel)
  }

  /** The references a call may add: its own, when it resolves to nothing, and those patched in
      that are not blacklisted. */
  predicate MayAdd(s: System, c: Call, ref: nat) {
    ref > 0
    && ((FindTalkgroup(s.talkgroups, c.meta).None? && ref == c.meta.talkgroupRef)
        || (ref in c.patches && !IsBlacklisted(s.blacklists, ref)))
  }

  predicate NeedsOwn(s: System, m: Meta, r: nat) {
    FindTalkgroup(s.talkgroups, m).None? && r > 0 && r == m.talkgroupRef
  }

  /** A talkgroup the call adds: its own bears its label, one patched in is a placeholder. */
  predicate IsAdded(s: System, c: Call, t: Talkgroup) {
    && MayAdd(s, c, t.ref) && t.id == 0
    && (if NeedsOwn(s, c.meta, t.ref) then t.title == TitleFor(c.meta)
        else t.title == Print(t.ref) && t.name == DefaultName(t.ref))
  }

  predicate ListExtends(a: seq<Talkgroup>, b: seq<Talkgroup>, m: Meta) {
    |a| <= |b| && forall i :: 0 <= i < |a| ==> TalkgroupExtends(a[i], b[i], m)
  }

  /** The talkgroups there were, each in its place; new ones at the end, and of the references the
      call may add, all of them. Units are appended, and nothing else changes. */
  ghost predicate SystemExtends(s: System, s': System, c: Call) {
    && s' == s.(talkgroups := s'.talkgroups, units := s'.units)
    && ListExtends(s.talkgroups, s'.talkgroups, c.meta)
    && (forall i :: |s.talkgroups| <= i < |s'.talkgroups| ==> IsAdded(s, c, s'.talkgroups[i]))
    && (forall r :: HasTalkgroup(s'.talkgroups, r) <==> HasTalkgroup(s.talkgroups, r) || MayAdd(s, c, r))
    && |s.units| <= |s'.units| && s'.units[..|s.units|] == s.units
    && (forall i :: |s.units| <= i < |s'.units| ==> CameWith(c.meta, s'.units[i]))
    && (forall r :: HasUnit(s'.units, r) <==> HasUnit(s.units, r) || Labelled(c.meta, r))
  }

  /** A unit that came with a label. */
  predicate Labelled(m: Meta, ref: nat) {
    exists i :: 0 <= i < |m.unitRefs| && i < |m.unitLabels| && m.unitRefs[i] == ref && m.unitLabels[i] != ""
  }

  predicate CameWith(m: Meta, u: Unit) {
    exists i ::
      0 <= i < |m.unitRefs| && i < |m.unitLabels| && Unit(m.unitRefs[i], m.unitLabels[i]) == u && u.title != ""
  }

  predicate CatalogExtends(a: Catalog, b: Catalog) {
    |a.list| <= |b.list| && b.list[..|a.list|] == a.list
  }

  predicate LabelsExtend(a: Labels, b: Labels) {
    CatalogExtends(a.groups, b.groups) && CatalogExtends(a.tags, b.tags)
  }

  // --- Groups and tags only grow, and keep their identifiers ---

  lemma ExtendsKeepsId(a: Catalog, b: Catalog, title: string)
    requires CatalogExtends(a, b) && IdOf(a, title).Some?
    ensures IdOf(b, title) == IdOf(a, title)
  {
    assert forall i :: 0 <= i < |a.list| ==> b.list[i] == a.list[i];
    var p := (n: Scopes.Named) => n.title == title;
    var i, j := Find(p, a.list).value, Find(p, b.list);
    assert p(b.list[i]);
    assert j.Some? && j.value == i;
  }

  lemma EnsureExtends(c: Catalog, title: string)
    ensures CatalogExtends(c, Ensure(c, title)) && IdOf(Ensure(c, title), title).Some?
  {
    if IdOf(c, title).None? {
      var d := Ensure(c, title);
      assert d.list[|c.list|].title == title;
    }
  }

  lemma {:induction false} EnsureAllExtends(c: Catalog, titles: seq<string>)
    ensures CatalogExtends(c, EnsureAll(c, titles))
    ensures forall t :: t in titles ==> IdOf(EnsureAll(c, titles), t).Some?
  {
    if titles != [] {
      var n := |titles| - 1;
      var before := EnsureAll(c, titles[..n]);
      EnsureAllExtends(c, titles[..n]);
      EnsureExtends(before, titles[n]);
      assert EnsureAll(c, titles).list[..|c.list|] == before.list[..|c.list|];
      forall t | t in titles ensures IdOf(EnsureAll(c, titles), t).Some? {
        assert titles == titles[..n] + [titles[n]];
        if t in titles[..n] {
          ExtendsKeepsId(before, EnsureAll(c, titles), t);
        }
      }
    }
  }

  /** Ensuring what is there changes nothing. */
  lemma {:induction false} EnsureAllKnown(c: Catalog, titles: seq<string>)
    requires forall t :: t in titles ==> IdOf(c, t).Some?
    ensures EnsureAll(c, titles) == c
  {
    if titles != [] {
      EnsureAllKnown(c, titles[..|titles| - 1]);
    }
  }

  lemma {:induction false} ExtendsKeepsIds(a: Catalog, b: Catalog, titles: seq<string>)
    requires CatalogExtends(a, b) && forall t :: t in titles ==> IdOf(a, t).Some?
    ensures IdsOf(b, titles) == IdsOf(a, titles)
  {
    if titles != [] {
      ExtendsKeepsIds(a, b, titles[..|titles| - 1]);
      ExtendsKeepsId(a, b, titles[|titles| - 1]);
    }
  }

  // --- One system ---

  lemma {:induction false} LabelledUnitsAre(m: Meta, n: nat)
    requires n <= |m.unitRefs|
    ensures forall r ::
      HasUnit(LabelledUnits(m, n), r) <==> exists i ::
        0 <= i < n && i < |m.unitLabels| && m.unitRefs[i] == r && m.unitLabels[i] != ""
  {
    if n > 0 {
      LabelledUnitsAre(m, n - 1);
      var before, i := LabelledUnits(m, n - 1), n - 1;
      if i < |m.unitLabels| && m.unitLabels[i] != "" {
        UnitAdded(before, Unit(m.unitRefs[i], m.unitLabels[i]));
      }
    }
  }

  lemma {:induction false} UnitsCameWith(m: Meta, n: nat)
    requires n <= |m.unitRefs|
    ensures forall u :: u in LabelledUnits(m, n) ==> CameWith(m, u)
  {
    if n > 0 {
      UnitsCameWith(m, n - 1);
      assert n - 1 < |m.unitLabels| && m.unitLabels[n - 1] != "" ==>
        CameWith(m, Unit(m.unitRefs[n - 1], m.unitLabels[n - 1]));
    }
  }

  lemma {:induction false} MergedCameFrom(units: seq<Unit>, more: seq<Unit>)
    ensures |units| <= |Merge(units, more)|
    ensures forall i :: |units| <= i < |Merge(units, more)| ==> Merge(units, more)[i] in more
  {
    if more != [] {
      MergedCameFrom(units, more[..|more| - 1]);
    }
  }

  /** What a step may do to the talkgroups: extend the old ones, and add some for given references. */
  ghost predicate Step(w: Work, w': Work, m: Meta, isNew: Talkgroup -> bool, adds: nat -> bool) {
    var s, s' := w.system, w'.system;
    && s' == s.(talkgroups := s'.talkgroups) && LabelsExtend(w.labels, w'.labels)
    && ListExtends(s.talkgroups, s'.talkgroups, m)
    && (forall i :: |s.talkgroups| <= i < |s'.talkgroups| ==> isNew(s'.talkgroups[i]))
    && (forall r :: HasTalkgroup(s'.talkgroups, r) <==> HasTalkgroup(s.talkgroups, r) || adds(r))
  }

  lemma RepairExtends(w: Work, at: nat, m: Meta)
    requires at < |w.system.talkgroups| && Repairs(w.system.talkgroups[at], m)
    ensures Step(w, RepairAt(w, at, m), m, (t: Talkgroup) => false, (r: nat) => false)
  {
    EnsureAllExtends(w.labels.groups, m.talkgroupGroups);
    EnsureExtends(w.labels.tags, m.talkgroupTag);
    var a, b := w.system.talkgroups, RepairAt(w, at, m).system.talkgroups;
    assert |a| == |b| && forall j :: 0 <= j < |a| ==> b[j].ref == a[j].ref;
    forall r ensures HasTalkgroup(b, r) <==> HasTalkgroup(a, r) {
      if HasTalkgroup(a, r) {
        var i :| 0 <= i < |a| && a[i].ref == r;
        assert b[i].ref == r;
      }
    }
  }

  lemma CreateExtends(w: Work, m: Meta)
    ensures Step(w, Create(w, m), m, (t: Talkgroup) => IsOwn(m, t), (r: nat) => r == m.talkgroupRef)
  {
    EnsureAllExtends(w.labels.groups, GroupsFor(m));
    EnsureExtends(w.labels.tags, TagFor(m));
    var more := [Created(CreatedLabels(w.labels, m), m)];
    assert more[0].ref == m.talkgroupRef;
    AppendedHas(w.system.talkgroups, more);
  }

  lemma PrimaryExtends(w: Work, m: Meta)
    ensures Step(w, Primary(w, FindTalkgroup(w.system.talkgroups, m), m), m,
      (t: Talkgroup) => IsOwn(m, t) && NeedsOwn(w.system, m, t.ref), (r: nat) => NeedsOwn(w.system, m, r))
  {
    var adds := (r: nat) => NeedsOwn(w.system, m, r);
    var isNew := (t: Talkgroup) => IsOwn(m, t) && NeedsOwn(w.system, m, t.ref);
    match FindTalkgroup(w.system.talkgroups, m)
    case Some(i) =>
      if Repairs(w.system.talkgroups[i], m) {
        RepairExtends(w, i, m);
        StepSame(w, RepairAt(w, i, m), m, (t: Talkgroup) => false, isNew, (r: nat) => false, adds);
      }
    case None =>
      if m.talkgroupRef > 0 {
        CreateExtends(w, m);
        StepSame(w, Create(w, m), m, (t: Talkgroup) => IsOwn(m, t), isNew, (r: nat) => r == m.talkgroupRef, adds);
      }
  }

  predicate IsOwn(m: Meta, t: Talkgroup) {
    t.id == 0 && t.ref == m.talkgroupRef && t.title == TitleFor(m)
  }

  lemma StepSame(w: Work, w': Work, m: Meta, n: Talkgroup -> bool, n': Talkgroup -> bool, a: nat -> bool,
      b: nat -> bool)
    requires Step(w, w', m, n, a) && (forall r :: a(r) <==> b(r)) && (forall t :: n(t) ==> n'(t))
    ensures Step(w, w', m, n', b)
  {
  }

  lemma AppendedHas(ts: seq<Talkgroup>, more: seq<Talkgroup>)
    ensures forall r :: HasTalkgroup(ts + more, r) <==> HasTalkgroup(ts, r) || HasTalkgroup(more, r)
  {
    var all := ts + more;
    forall r ensures HasTalkgroup(all, r) <==> HasTalkgroup(ts, r) || HasTalkgroup(more, r) {
      if HasTalkgroup(ts, r) {
        var i :| 0 <= i < |ts| && ts[i].ref == r;
        assert all[i].ref == r;
      }
      if HasTalkgroup(more, r) {
        var i :| 0 <= i < |more| && more[i].ref == r;
        assert all[|ts| + i].ref == r;
      }
    }
  }

  predicate IsPlaceholderFor(s: System, refs: seq<nat>, t: Talkgroup) {
    t.ref in refs && IsMissing(s, t.ref) && t.id == 0 && t.title == Print(t.ref) && t.name == DefaultName(t.ref)
  }

  lemma AddPatchesExtends(w: Work, refs: seq<nat>)
    ensures var s, w' := w.system, AddPatches(w, refs);
      var s' := w'.system;
      && s' == s.(talkgroups := s'.talkgroups) && LabelsExtend(w.labels, w'.labels)
      && |s.talkgroups| <= |s'.talkgroups| && s'.talkgroups[..|s.talkgroups|] == s.talkgroups
      && (forall i :: |s.talkgroups| <= i < |s'.talkgroups| ==> IsPlaceholderFor(s, refs, s'.talkgroups[i]))
      && (forall r ::
        HasTalkgroup(s'.talkgroups, r) <==> HasTalkgroup(s.talkgroups, r) || (r in refs && IsMissing(s, r)))
  {
    var s, missing := w.system, Missing(w.system, refs);
    EnsureExtends(w.labels.groups, UNKNOWN);
    EnsureExtends(w.labels.tags, UNTAGGED);
    var more := AllPatched(PatchLabels(w.labels), missing);
    AppendedHas(s.talkgroups, more);
    forall r ensures HasTalkgroup(more, r) <==> r in missing {
      if r in missing {
        var i :| 0 <= i < |missing| && missing[i] == r;
        assert more[i].ref == r;
      }
    }
    forall i | 0 <= i < |missing| ensures IsPlaceholderFor(s, refs, more[i]) {
      assert missing[i] in missing;
    }
  }

  lemma UnitsExtend(units: seq<Unit>, m: Meta)
    ensures var all := Merge(units, UnitsOf(m));
      && |units| <= |all| && all[..|units|] == units
      && (forall i :: |units| <= i < |all| ==> CameWith(m, all[i]))
      && (forall r :: HasUnit(all, r) <==> HasUnit(units, r) || Labelled(m, r))
  {
    MergeKeepsDistinct(units, UnitsOf(m));
    LabelledUnitsAre(m, |m.unitRefs|);
    UnitsCameWith(m, |m.unitRefs|);
    MergedCameFrom(units, UnitsOf(m));
  }

  lemma PopulatedExtends(w: Work, c: Call)
    ensures SystemExtends(w.system, Populated(w, c).system, c)
    ensures LabelsExtend(w.labels, Populated(w, c).labels)
  {
    var s, m, refs := w.system, c.meta, UniqueRefs(c.patches);
    var w1 := Primary(w, FindTalkgroup(s.talkgroups, m), m);
    PrimaryExtends(w, m);
    UniqueRefsAreDistinct(c.patches);
    var w2 := AddPatches(w1, refs);
    AddPatchesExtends(w1, refs);
    var s', s1 := Populated(w, c).system, w1.system;
    UnitsExtend(s.units, m);
    assert s'.talkgroups == w2.system.talkgroups;
    assert forall i :: 0 <= i < |s1.talkgroups| ==> s'.talkgroups[i] == s1.talkgroups[i];
    forall i | |s.talkgroups| <= i < |s'.talkgroups| ensures IsAdded(s, c, s'.talkgroups[i]) {
      assert i < |s1.talkgroups| ==> IsOwn(m, s'.talkgroups[i]) && NeedsOwn(s, m, s'.talkgroups[i].ref);
      assert i >= |s1.talkgroups| ==> IsPlaceholderFor(s1, refs, s'.talkgroups[i]);
    }
    forall r
      ensures r in refs && IsMissing(s1, r) <==>
        r > 0 && r in c.patches && !IsBlacklisted(s.blacklists, r) && !HasTalkgroup(s1.talkgroups, r)
    {
    }
    LabelsExtendChains(w.labels, w1.labels, w2.labels);
  }

  lemma LabelsExtendChains(a: Labels, b: Labels, c: Labels)
    requires LabelsExtend(a, b) && LabelsExtend(b, c)
    ensures LabelsExtend(a, c)
  {
    assert c.groups.list[..|a.groups.list|] == b.groups.list[..|a.groups.list|];
    assert c.tags.list[..|a.tags.list|] == b.tags.list[..|a.tags.list|];
  }

  /** Whether the call touches the system it finds. */
  predicate Takes(g: Config, s: System, m: Meta) {
    !Rejected(s, m) && Active(g, s)
  }

  /** At most the one system the call belongs to is extended, or one is added at the end and
      extended; groups and tags only grow; a rejected call, or one that auto-population does not
      apply to, changes nothing. */
  lemma IngestOnlyExtends(g: Config, c: Call)
    ensures var h, at := Populate(g, c), FindSystem(g.systems, c.meta);
      && h.autoPopulate == g.autoPopulate && LabelsExtend(g.labels, h.labels)
      && |h.systems| == |g.systems| + (if at.None? && g.autoPopulate then 1 else 0)
      && (forall i :: 0 <= i < |g.systems| && at != Some(i) ==> h.systems[i] == g.systems[i])
      && (at.Some? && Takes(g, g.systems[at.value], c.meta) ==>
        SystemExtends(g.systems[at.value], h.systems[at.value], c))
      && (at.Some? && !Takes(g, g.systems[at.value], c.meta) ==> h == g)
      && (at.None? && g.autoPopulate ==> SystemExtends(NewSystem(g.systems, c.meta), h.systems[|g.systems|], c))
      && (at.None? && !g.autoPopulate ==> h == g)
  {
    match FindSystem(g.systems, c.meta)
    case Some(i) => PopulatedExtends(Work(g.labels, g.systems[i]), c);
    case None => PopulatedExtends(Work(g.labels, NewSystem(g.systems, c.meta)), c);
  }

  /** A blacklisted reference patched into a call never becomes a talkgroup of the system. */
  lemma BlacklistedPatchIsNotCreated(g: Config, c: Call, ref: nat)
    requires FindSystem(g.systems, c.meta).Some?
    ensures var i := FindSystem(g.systems, c.meta).value;
      var s := g.systems[i];
      IsBlacklisted(s.blacklists, ref) && !NeedsOwn(s, c.meta, ref) ==>
        (HasTalkgroup(Populate(g, c).systems[i].talkgroups, ref) <==> HasTalkgroup(s.talkgroups, ref))
  {
    IngestOnlyExtends(g, c);
  }

  // --- What an added talkgroup is filed under ---

  predicate Files(c: Catalog, id: nat, title: string) {
    exists n :: n in c.list && n.id == id && n.title == title
  }

  lemma {:induction false} IdsOfFile(c: Catalog, titles: seq<string>)
    requires forall t :: t in titles ==> IdOf(c, t).Some?
    ensures |IdsOf(c, titles)| == |titles|
    ensures forall k :: 0 <= k < |titles| ==> Files(c, IdsOf(c, titles)[k], titles[k])
  {
    if titles != [] {
      var n := |titles| - 1;
      IdsOfFile(c, titles[..n]);
    }
  }

  lemma {:induction false} EnsureAllAddsOnly(c: Catalog, titles: seq<string>)
    ensures forall n :: n in EnsureAll(c, titles).list ==> n in c.list || n.title in titles
  {
    if titles != [] {
      EnsureAllAddsOnly(c, titles[..|titles| - 1]);
    }
  }

  /** The created talkgroup is in the groups and under the tag the call names, or in the stand-ins
      where it names none; no other group or tag is added. */
  lemma CreatedIsFiled(l: Labels, m: Meta)
    ensures var l' := CreatedLabels(l, m);
      var t := Created(l', m);
      var groups := if m.talkgroupGroups != [] then m.talkgroupGroups else ["Unknown"];
      var tag := if m.talkgroupTag != "" then m.talkgroupTag else "Untagged";
      && |t.groupIds| == |groups| && Files(l'.tags, t.tagId, tag)
      && (forall k :: 0 <= k < |groups| ==> Files(l'.groups, t.groupIds[k], groups[k]))
      && (forall n :: n in l'.groups.list ==> n in l.groups.list || n.title in groups)
      && (forall n :: n in l'.tags.list ==> n in l.tags.list || n.title == tag)
  {
    var l' := CreatedLabels(l, m);
    EnsureAllExtends(l.groups, GroupsFor(m));
    EnsureAllAddsOnly(l.groups, GroupsFor(m));
    IdsOfFile(l'.groups, GroupsFor(m));
    EnsureExtends(l.tags, TagFor(m));
  }

  /** A talkgroup added for a patch is in the stand-in group alone, under the stand-in tag, labelled with its
      reference. */
  lemma PatchedIsFiled(l: Labels, ref: nat)
    ensures var l' := PatchLabels(l);
      var t := Patched(l', ref);
      && |t.groupIds| == 1 && Files(l'.groups, t.groupIds[0], "Unknown") && Files(l'.tags, t.tagId, "Untagged")
      && t.id == 0 && t.ref == ref && t.title == Print(ref) && t.name == "Talkgroup " + Print(ref)
  {
    var l' := PatchLabels(l);
    EnsureExtends(l.groups, UNKNOWN);
    EnsureExtends(l.tags, UNTAGGED);
    IdsOfFile(l'.groups, [UNKNOWN]);
  }

  /** A repaired talkgroup is in the groups and under the tag the call names; where the call names
      none it stays filed as it was. */
  lemma RepairedIsFiled(l: Labels, t: Talkgroup, m: Meta)
    requires Repairs(t, m)
    ensures var l' := RepairedLabels(l, m);
      var r := Repaired(l', t, m);
      && (m.talkgroupGroups == [] ==> r.groupIds == t.groupIds && l'.groups == l.groups)
      && (m.talkgroupTag == "" ==> r.tagId == t.tagId && l'.tags == l.tags)
      && (m.talkgroupGroups != [] ==> |r.groupIds| == |m.talkgroupGroups|)
      && (m.talkgroupGroups != [] ==> forall k ::
        0 <= k < |m.talkgroupGroups| ==> Files(l'.groups, r.groupIds[k], m.talkgroupGroups[k]))
      && (m.talkgroupTag != "" ==> Files(l'.tags, r.tagId, m.talkgroupTag))
  {
    var l' := RepairedLabels(l, m);
    EnsureAllExtends(l.groups, m.talkgroupGroups);
    IdsOfFile(l'.groups, m.talkgroupGroups);
    EnsureExtends(l.tags, m.talkgroupTag);
  }

  // --- What a talkgroup is called ---

  predicate Blank(s: string) {
    forall i :: 0 <= i < |s| ==> IsSpace(s[i])
  }

  /** `r` is `s` without the blanks around it. */
  ghost predicate Trims(s: string, r: string) {
    && (r != "" ==> !IsSpace(r[0]) && !IsSpace(r[|r| - 1]))
    && exists before, after :: Blank(before) && Blank(after) && s == before + r + after
  }

  lemma PaddedTrims(s: string, r: string, front: string, back: string)
    requires Trims(s, r) && Blank(front) && Blank(back)
    ensures Trims(front + s + back, r)
  {
    var before, after :| Blank(before) && Blank(after) && s == before + r + after;
    assert front + s + back == (front + before) + r + (after + back);
    assert Blank(front + before) && Blank(after + back);
  }

  lemma BlankParts(a: string, b: string)
    ensures Blank(a + b) <==> Blank(a) && Blank(b)
  {
    var s := a + b;
    assert forall i :: 0 <= i < |a| ==> s[i] == a[i];
    assert forall i :: 0 <= i < |b| ==> s[|a| + i] == b[i];
  }

  lemma SameInParts(s: string, front: string, rest: string, back: string, r: string)
    requires s == front + rest + back && Blank(front) && Blank(back) && Trims(rest, r) && (r == "" <==> Blank(rest))
    ensures Trims(s, r) && (r == "" <==> Blank(s))
  {
    PaddedTrims(rest, r, front, back);
    BlankParts(front, rest);
    BlankParts(front + rest, back);
  }

  lemma NothingToTrim(s: string)
    requires s == "" || !(IsSpace(s[0]) || IsSpace(s[|s| - 1]))
    ensures Trims(s, s) && (s == "" <==> Blank(s))
  {
    assert Blank("") && s == "" + s + "";
  }

  ghost predicate TrimmedWell(s: string) {
    Trims(s, TrimSpace(s)) && (TrimSpace(s) == "" <==> Blank(s))
  }

  lemma TrimsFront(s: string)
    requires s != "" && IsSpace(s[0]) && TrimmedWell(s[1..])
    ensures TrimmedWell(s)
  {
    assert s == s[..1] + s[1..] + "";
    SameInParts(s, s[..1], s[1..], "", TrimSpace(s[1..]));
  }

  lemma TrimsBack(s: string)
    requires s != "" && !IsSpace(s[0]) && IsSpace(s[|s| - 1]) && TrimmedWell(s[..|s| - 1])
    ensures TrimmedWell(s)
  {
    var n := |s| - 1;
    assert s == "" + s[..n] + s[n..];
    SameInParts(s, "", s[..n], s[n..], TrimSpace(s[..n]));
  }

  lemma {:induction false} TrimTrims(s: string)
    ensures TrimmedWell(s)
    decreases |s|
  {
    if s == "" || !(IsSpace(s[0]) || IsSpace(s[|s| - 1])) {
      NothingToTrim(s);
    } else if IsSpace(s[0]) {
      TrimTrims(s[1..]);
      TrimsFront(s);
    } else {
      TrimTrims(s[..|s| - 1]);
      TrimsBack(s);
    }
  }

  /** The name made up for a talkgroup: its first usable group and its label, both trimmed, with a space in
      between; or the stand-in name, when the label is blank or no group is usable. */
  ghost predicate IsAutoName(name: string, groups: seq<string>, title: string, ref: nat) {
    if Blank(title) || forall i :: 0 <= i < |groups| ==> !UsableGroup(groups[i]) then name == "Talkgroup " + Print(ref)
    else exists i: nat, g, t :: JoinsFirstUsable(name, groups, title, i, g, t)
  }

  ghost predicate JoinsFirstUsable(name: string, groups: seq<string>, title: string, i: nat, g: string, t: string) {
    && i < |groups| && UsableGroup(groups[i]) && (forall k :: 0 <= k < i ==> !UsableGroup(groups[k]))
    && Trims(groups[i], g) && Trims(title, t) && name == g + " " + t
  }

  lemma AutoNameMeaning(groups: seq<string>, title: string, ref: nat)
    ensures IsAutoName(AutoName(groups, title, ref), groups, title, ref)
  {
    TrimTrims(title);
    match Find(UsableGroup, groups)
    case None =>
    case Some(i) =>
      TrimTrims(groups[i]);
      assert !Blank(title) ==>
        JoinsFirstUsable(AutoName(groups, title, ref), groups, title, i, TrimSpace(groups[i]), TrimSpace(title));
  }

  /** A created talkgroup bears the call's reference, label and name; without a label its reference stands in, and
      without a name one is made up. */
  lemma CreatedIsNamed(l: Labels, m: Meta)
    ensures var t := Created(l, m);
      && t.id == 0 && t.ref == m.talkgroupRef
      && t.title == (if m.talkgroupLabel != "" then m.talkgroupLabel else Print(m.talkgroupRef))
      && (m.talkgroupName != "" ==> t.name == m.talkgroupName)
      && (m.talkgroupName == "" ==>
            var groups := if m.talkgroupGroups != [] then m.talkgroupGroups else ["Unknown"];
            IsAutoName(t.name, groups, t.title, t.ref))
  {
    AutoNameMeaning(GroupsFor(m), TitleFor(m), m.talkgroupRef);
  }

  /** A repaired talkgroup takes the call's label, and its name if it has one; without one it keeps a name somebody
      gave it, and has one made up otherwise. */
  lemma RepairedIsNamed(l: Labels, t: Talkgroup, m: Meta)
    ensures var r := Repaired(l, t, m);
      && r.id == t.id && r.ref == t.ref && r.title == m.talkgroupLabel
      && (m.talkgroupName != "" ==> r.name == m.talkgroupName)
      && (m.talkgroupName == "" && t.name != "" && t.name != "Talkgroup " + Print(t.ref) ==> r.name == t.name)
      && (m.talkgroupName == "" && (t.name == "" || t.name == "Talkgroup " + Print(t.ref)) ==>
            IsAutoName(r.name, m.talkgroupGroups, m.talkgroupLabel, t.ref))
  {
    AutoNameMeaning(m.talkgroupGroups, m.talkgroupLabel, t.ref);
  }
}
