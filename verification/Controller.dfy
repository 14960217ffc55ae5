/** The ingest worker: the configuration in memory, changed step by step as a call is taken in. */
module Controller {
  import opened Prelude
  import opened Decimal
  import opened Blacklists
  import opened IngestModel
  import opened IngestDistinct
  import opened IngestExtends
  import opened IngestTwice

  /** What becomes of a call: turned away as blacklisted or for want of a system or talkgroup,
      matched for storage, or broken off because something was added for a call whose talkgroup
      is not known. */
  datatype Outcome = Blacklisted | Unmatched | Broken | Matched(systemRef: nat, talkgroupRef: nat)

  /** Whether taking the call into its system writes anything. */
  predicate Writes(w: Work, c: Call) {
    var at := FindTalkgroup(w.system.talkgroups, c.meta);
    var w1 := Primary(w, at, c.meta);
    || (at.Some? && Repairs(w.system.talkgroups[at.value], c.meta))
    || (at.None? && c.meta.talkgroupRef > 0)
    || Missing(w1.system, UniqueRefs(c.patches)) != []
    || |Merge(w.system.units, UnitsOf(c.meta))| > |w.system.units|
  }

  function TargetRef(s: System, m: Meta): Option<nat> {
    match FindTalkgroup(s.talkgroups, m)
    case Some(i) => Some(s.talkgroups[i].ref)
    case None => if m.talkgroupRef > 0 then Some(m.talkgroupRef) else None
  }

  function OutcomeOf(g: Config, c: Call): Outcome {
    match FindSystem(g.systems, c.meta)
    case Some(i) =>
      var s := g.systems[i];
      if Rejected(s, c.meta) then Blacklisted
      else if !Active(g, s) then
        (match FindTalkgroup(s.talkgroups, c.meta)
         case None => Unmatched
         case Some(j) => Matched(s.ref, s.talkgroups[j].ref))
      else
        (match TargetRef(s, c.meta)
         case Some(ref) => Matched(s.ref, ref)
         case None => if Writes(Work(g.labels, s), c) then Broken else Unmatched)
    case None =>
      if !g.autoPopulate then Unmatched
      else if c.meta.talkgroupRef > 0 then Matched(NewSystem(g.systems, c.meta).ref, c.meta.talkgroupRef)
      else Broken
  }

  /** A call whose talkgroup is there or could be created is never broken off; and what it is
      matched to is in the configuration afterwards. */
  lemma MatchedIsThere(g: Config, c: Call)
    requires NamesSystem(c.meta) && HasTarget(g, c.meta)
    ensures !OutcomeOf(g, c).Broken?
    ensures OutcomeOf(g, c).Matched? ==> exists s ::
      s in Populate(g, c).systems && s.ref == OutcomeOf(g, c).systemRef
      && HasTalkgroup(s.talkgroups, OutcomeOf(g, c).talkgroupRef)
  {
    match FindSystem(g.systems, c.meta)
    case Some(i) => MatchedInSystem(g, c, i);
    case None => MatchedInNew(g, c);
  }

  lemma MatchedInSystem(g: Config, c: Call, i: nat)
    requires NamesSystem(c.meta) && HasTarget(g, c.meta) && FindSystem(g.systems, c.meta) == Some(i)
    ensures !OutcomeOf(g, c).Broken?
    ensures OutcomeOf(g, c).Matched? ==>
      var s := Populate(g, c).systems[i];
      s.ref == OutcomeOf(g, c).systemRef && HasTalkgroup(s.talkgroups, OutcomeOf(g, c).talkgroupRef)
  {
    IngestOnlyExtends(g, c);
    var s := g.systems[i];
    FoundIsThere(s, c.meta);
  }

  lemma FoundIsThere(s: System, m: Meta)
    ensures match FindTalkgroup(s.talkgroups, m)
      case Some(j) => HasTalkgroup(s.talkgroups, s.talkgroups[j].ref)
      case None => true
  {
  }

  lemma MatchedInNew(g: Config, c: Call)
    requires NamesSystem(c.meta) && HasTarget(g, c.meta) && FindSystem(g.systems, c.meta).None?
    ensures !OutcomeOf(g, c).Broken?
    ensures OutcomeOf(g, c).Matched? ==> exists s ::
      s in Populate(g, c).systems && s.ref == OutcomeOf(g, c).systemRef
      && HasTalkgroup(s.talkgroups, OutcomeOf(g, c).talkgroupRef)
  {
    IngestOnlyExtends(g, c);
    if g.autoPopulate {
      var s := Populate(g, c).systems[|g.systems|];
      assert s in Populate(g, c).systems && s.ref == NewSystem(g.systems, c.meta).ref;
    }
  }

  // --- Which outcome a call gets ---

  /** The call goes by this talkgroup of this system: it is turned away if that is blacklisted, and
      otherwise stored under it. */
  lemma NamedIsMatched(g: Config, c: Call, i: nat, j: nat)
    requires GoesBySystem(g.systems, c.meta, i) && GoesByTalkgroup(g.systems[i].talkgroups, c.meta, j)
    ensures var s := g.systems[i];
      var t := s.talkgroups[j];
      OutcomeOf(g, c) == if IsBlacklisted(s.blacklists, t.ref) then Blacklisted else Matched(s.ref, t.ref)
  {
    FindsMatch(g.systems, c.meta);
    FindsTalkgroup(g.systems[i].talkgroups, c.meta);
  }

  /** The call goes by a system but by none of its talkgroups: where auto-population is on and the call
      brings a reference it is stored under that; where it brings none it is broken off exactly when
      something else was added for it; otherwise there is nothing to match it to. */
  lemma UnknownTalkgroupIsCreated(g: Config, c: Call, i: nat)
    requires GoesBySystem(g.systems, c.meta, i) && NamesNoTalkgroup(g.systems[i].talkgroups, c.meta)
    ensures var s := g.systems[i];
      OutcomeOf(g, c) ==
        if !(g.autoPopulate || s.autoPopulate) then Unmatched
        else if c.meta.talkgroupRef > 0 then Matched(s.ref, c.meta.talkgroupRef)
        else if Populate(g, c) != g then Broken
        else Unmatched
  {
    FindsMatch(g.systems, c.meta);
    FindsTalkgroup(g.systems[i].talkgroups, c.meta);
    var s := g.systems[i];
    if (g.autoPopulate || s.autoPopulate) && c.meta.talkgroupRef == 0 {
      OnlyWritesChange(Work(g.labels, s), c);
      assert Populate(g, c).systems[i] == Populated(Work(g.labels, s), c).system;
      assert g.systems[i := s] == g.systems;
    }
  }

  /** For a call without a talkgroup something is written exactly when something changes. */
  lemma OnlyWritesChange(w: Work, c: Call)
    requires FindTalkgroup(w.system.talkgroups, c.meta).None? && c.meta.talkgroupRef == 0
    ensures Writes(w, c) ==> Populated(w, c).system != w.system
    ensures !Writes(w, c) ==> Populated(w, c) == w
  {
    var missing := Missing(w.system, UniqueRefs(c.patches));
    MergeKeepsDistinct(w.system.units, UnitsOf(c.meta));
    var all := Merge(w.system.units, UnitsOf(c.meta));
    assert |all| == |w.system.units| ==> all == all[..|w.system.units|];
    if missing != [] {
      assert |Populated(w, c).system.talkgroups| == |w.system.talkgroups| + |missing|;
    }
  }

  /** The call goes by no system: with auto-population on one is added, under the reference the call brings
      or the least unused one (zero if there is none), and the call is stored under it and its own talkgroup
      reference, or broken off if it brings none. */
  lemma UnknownSystemIsCreated(g: Config, c: Call)
    requires NamesNoSystem(g.systems, c.meta)
    ensures !g.autoPopulate ==> OutcomeOf(g, c) == Unmatched
    ensures g.autoPopulate && c.meta.talkgroupRef == 0 ==> OutcomeOf(g, c) == Broken
    ensures g.autoPopulate && c.meta.talkgroupRef > 0 ==>
      && OutcomeOf(g, c).Matched? && OutcomeOf(g, c).talkgroupRef == c.meta.talkgroupRef
      && var ref := OutcomeOf(g, c).systemRef;
         if c.meta.systemRef > 0 then ref == c.meta.systemRef
         else if ref > 0 then !UsesRef(g.systems, ref) && forall k :: 1 <= k < ref ==> UsesRef(g.systems, k)
         else forall k: nat :: 1 <= k < UINT64_LIMIT - 1 ==> UsesRef(g.systems, k)
    ensures g.autoPopulate ==>
      var s := Populate(g, c).systems[|g.systems|];
      && (OutcomeOf(g, c).Matched? ==> s.ref == OutcomeOf(g, c).systemRef)
      && s.id == 0 && s.title == (if c.meta.systemLabel != "" then c.meta.systemLabel else "System " + Print(s.ref))
      && !s.autoPopulate && s.blacklists == ""
  {
    FindsMatch(g.systems, c.meta);
    NewRefRunsOut(g.systems);
    IngestOnlyExtends(g, c);
  }

  /** Whatever the configuration, a call that gives no identifiers is stored under the references it gives, or
      not at all. */
  lemma StoredUnderOwnRefs(g: Config, c: Call)
    requires OutcomeOf(g, c).Matched?
    ensures c.meta.systemId == 0 && c.meta.systemRef > 0 ==> OutcomeOf(g, c).systemRef == c.meta.systemRef
    ensures c.meta.talkgroupId == 0 && c.meta.talkgroupRef > 0 ==> OutcomeOf(g, c).talkgroupRef == c.meta.talkgroupRef
  {
    FindsMatch(g.systems, c.meta);
    match FindSystem(g.systems, c.meta)
    case None => UnknownSystemIsCreated(g, c);
    case Some(i) =>
      FindsTalkgroup(g.systems[i].talkgroups, c.meta);
      match FindTalkgroup(g.systems[i].talkgroups, c.meta)
      case Some(j) => NamedIsMatched(g, c, i, j);
      case None => UnknownTalkgroupIsCreated(g, c, i);
  }

  method UniquePatchRefs(refs: seq<nat>) returns (unique: seq<nat>)
    ensures unique == UniqueRefs(refs)
  {
    unique := [];
    var seen: set<nat> := {};
    for i := 0 to |refs|
      invariant unique == UniqueRefs(refs[..i])
      invariant forall r :: r in seen <==> r in unique
    {
      assert refs[..i + 1][..i] == refs[..i];
      if refs[i] == 0 || refs[i] in seen {
        continue;
      }
      seen := seen + {refs[i]};
      unique := unique + [refs[i]];
    }
    assert refs[..|refs|] == refs;
  }

  /** The first usable group before the label, or the default name. */
  method AutoPopulatedTalkgroupName(groupLabels: seq<string>, talkgroupLabel: string, talkgroupRef: nat)
    returns (name: string)
    ensures name == AutoName(groupLabels, talkgroupLabel, talkgroupRef)
  {
    var title := TrimSpace(talkgroupLabel);
    if title != "" {
      var at := FirstUsable(groupLabels);
      if at.Some? {
        return TrimSpace(groupLabels[at.value]) + " " + title;
      }
    }
    return DefaultName(talkgroupRef);
  }

  method FirstUsable(groupLabels: seq<string>) returns (at: Option<nat>)
    ensures at == Find(UsableGroup, groupLabels)
  {
    for i := 0 to |groupLabels|
      invariant forall k :: 0 <= k < i ==> !UsableGroup(groupLabels[k])
    {
      if UsableGroup(groupLabels[i]) {
        FindIs(UsableGroup, groupLabels, i);
        return Some(i);
      }
    }
    return None;
  }

  /** Appends a unit unless its reference is there. */
  method Add(units: seq<Unit>, u: Unit) returns (r: seq<Unit>, added: bool)
    ensures r == AddUnit(units, u) && added == !HasUnit(units, u.ref)
  {
    for i := 0 to |units|
      invariant forall k :: 0 <= k < i ==> units[k].ref != u.ref
    {
      if units[i].ref == u.ref {
        return units, false;
      }
    }
    return units + [u], true;
  }

  /** Adds each unit of another list, and tells whether any was new. */
  method MergeInto(units: seq<Unit>, more: seq<Unit>) returns (r: seq<Unit>, merged: bool)
    ensures r == Merge(units, more) && merged == (|r| > |units|)
  {
    r, merged := units, false;
    for i := 0 to |more|
      invariant r == Merge(units, more[..i])
      invariant merged == (|r| > |units|) && |r| >= |units|
    {
      assert more[..i + 1][..i] == more[..i];
      var added;
      r, added := Add(r, more[i]);
      if added {
        merged := added;
      }
    }
    assert more[..|more|] == more;
  }

  method CollectUnits(m: Meta) returns (units: seq<Unit>)
    ensures units == UnitsOf(m)
  {
    units := [];
    for i := 0 to |m.unitRefs|
      invariant units == LabelledUnits(m, i)
    {
      if i < |m.unitLabels| {
        if |m.unitLabels[i]| > 0 {
          var added;
          units, added := Add(units, Unit(m.unitRefs[i], m.unitLabels[i]));
        }
      }
    }
  }

  /** The systems, with some talkgroups appended to one of them. */
  function WithTalkgroups(systems: seq<System>, i: nat, more: seq<Talkgroup>): seq<System>
    requires i < |systems|
  {
    systems[i := systems[i].(talkgroups := systems[i].talkgroups + more)]
  }

  lemma NoneMore(systems: seq<System>, i: nat)
    requires i < |systems|
    ensures forall more: seq<Talkgroup> :: |more| == 0 ==> WithTalkgroups(systems, i, more) == systems
  {
    assert systems[i].talkgroups + [] == systems[i].talkgroups;
    assert systems[i := systems[i]] == systems;
  }

  lemma OneMoreTalkgroup(systems: seq<System>, i: nat, all: seq<Talkgroup>, k: nat)
    requires i < |systems| && k < |all|
    ensures var now := WithTalkgroups(systems, i, all[..k]);
      now[i := now[i].(talkgroups := now[i].talkgroups + [all[k]])] == WithTalkgroups(systems, i, all[..k + 1])
  {
    assert all[..k + 1] == all[..k] + [all[k]];
    assert (systems[i].talkgroups + all[..k]) + [all[k]] == systems[i].talkgroups + all[..k + 1];
  }

  class Controller {
    var AutoPopulate: bool
    var Systems: seq<System>
    var Groups: Catalog
    var Tags: Catalog

    ghost function State(): Config reads this {
      Config(AutoPopulate, Systems, Labels(Groups, Tags))
    }

    method GetNewSystemRef() returns (ref: nat)
      ensures ref == NewSystemRef(Systems)
    {
      FirstUnusedIsUnused(Systems);
      var i: nat := 1;
      while i < MAX_REF
        invariant 1 <= i <= FirstUnused(Systems, 1) && i <= MAX_REF
        decreases MAX_REF - i
      {
        var used := false;
        for k := 0 to |Systems|
          invariant !used
          invariant forall j :: 0 <= j < k ==> Systems[j].ref != i
        {
          if Systems[k].ref == i {
            used := true;
            break;
          }
        }
        if !used {
          assert !UsesRef(Systems, i);
          return i;
        }
        assert UsesRef(Systems, i);
        i := i + 1;
      }
      return 0;
    }

    /** Adds the groups that are missing. */
    method EnsureAutoPopulateGroups(labels: seq<string>)
      modifies this`Groups
      ensures Groups == EnsureAll(old(Groups), labels)
    {
      for i := 0 to |labels|
        invariant Groups == EnsureAll(old(Groups), labels[..i])
      {
        assert labels[..i + 1][..i] == labels[..i];
        if IdOf(Groups, labels[i]).Some? {
          continue;
        }
        Groups := Catalog(Groups.list + [Scopes.Named(Groups.nextId, labels[i])], Groups.nextId + 1);
      }
      assert labels[..|labels|] == labels;
    }

    /** Adds the tag if it is missing. */
    method EnsureAutoPopulateTag(title: string) returns (id: nat)
      modifies this`Tags
      ensures Tags == Ensure(old(Tags), title) && id == TagId(Tags, title)
    {
      if IdOf(Tags, title).None? {
        Tags := Catalog(Tags.list + [Scopes.Named(Tags.nextId, title)], Tags.nextId + 1);
      }
      id := TagId(Tags, title);
    }

    method GetGroupIds(labels: seq<string>) returns (ids: seq<nat>)
      ensures ids == IdsOf(Groups, labels)
    {
      ids := [];
      for i := 0 to |labels|
        invariant ids == IdsOf(Groups, labels[..i])
      {
        assert labels[..i + 1][..i] == labels[..i];
        if IdOf(Groups, labels[i]).Some? {
          ids := ids + [IdOf(Groups, labels[i]).value];
        }
      }
      assert labels[..|labels|] == labels;
    }

    ghost function At(i: nat): Work
      requires i < |Systems|
      reads this
    {
      Work(Labels(Groups, Tags), Systems[i])
    }

    /** Gives a placeholder what the call says of it. */
    method RepairTalkgroup(i: nat, j: nat, m: Meta)
      requires i < |Systems| && j < |Systems[i].talkgroups|
      requires Repairs(Systems[i].talkgroups[j], m)
      modifies this`Systems, this`Groups, this`Tags
      ensures |Systems| == |old(Systems)| && Systems == old(Systems)[i := Systems[i]]
      ensures At(i) == RepairAt(old(At(i)), j, m)
    {
      var t := Systems[i].talkgroups[j];
      if |m.talkgroupGroups| > 0 {
        EnsureAutoPopulateGroups(m.talkgroupGroups);
        var ids := GetGroupIds(m.talkgroupGroups);
        t := t.(groupIds := ids);
      }
      if |m.talkgroupTag| > 0 {
        var tagId := EnsureAutoPopulateTag(m.talkgroupTag);
        t := t.(tagId := tagId);
      }
      t := t.(title := m.talkgroupLabel);
      if |m.talkgroupName| > 0 {
        t := t.(name := m.talkgroupName);
      } else if t.name == "" || t.name == DefaultName(t.ref) {
        var name := AutoPopulatedTalkgroupName(m.talkgroupGroups, m.talkgroupLabel, t.ref);
        t := t.(name := name);
      }
      Systems := Systems[i := Systems[i].(talkgroups := Systems[i].talkgroups[j := t])];
    }

    /** Appends the call's talkgroup. */
    method CreateTalkgroup(i: nat, m: Meta)
      requires i < |Systems|
      modifies this`Systems, this`Groups, this`Tags
      ensures |Systems| == |old(Systems)| && Systems == old(Systems)[i := Systems[i]]
      ensures At(i) == Create(old(At(i)), m)
    {
      var groupLabels := if |m.talkgroupGroups| > 0 then m.talkgroupGroups else [UNKNOWN];
      EnsureAutoPopulateGroups(groupLabels);
      var tagLabel := if |m.talkgroupTag| > 0 then m.talkgroupTag else UNTAGGED;
      var tagId := EnsureAutoPopulateTag(tagLabel);
      var talkgroupLabel := if |m.talkgroupLabel| > 0 then m.talkgroupLabel else Print(m.talkgroupRef);
      var talkgroupName := m.talkgroupName;
      if |talkgroupName| == 0 {
        talkgroupName := AutoPopulatedTalkgroupName(groupLabels, talkgroupLabel, m.talkgroupRef);
      }
      var groupIds := GetGroupIds(groupLabels);
      var t := Talkgroup(0, m.talkgroupRef, talkgroupLabel, talkgroupName, groupIds, tagId);
      Systems := Systems[i := Systems[i].(talkgroups := Systems[i].talkgroups + [t])];
    }

    method MissingPatches(i: nat, patches: seq<nat>) returns (missing: seq<nat>)
      requires i < |Systems|
      ensures missing == Missing(Systems[i], patches)
    {
      missing := [];
      ghost var s := Systems[i];
      for k := 0 to |patches|
        invariant missing == Missing(s, patches[..k])
      {
        assert patches[..k + 1] == patches[..k] + [patches[k]];
        FilterAppended((ref: nat) => IsMissing(s, ref), patches[..k], patches[k]);
        var blacklisted := CheckBlacklisted(Systems[i].blacklists, patches[k]);
        if !blacklisted && !HasTalkgroup(Systems[i].talkgroups, patches[k]) {
          missing := missing + [patches[k]];
        }
      }
      assert patches[..|patches|] == patches;
    }

    /** Appends a talkgroup for each patched reference that is missing and not blacklisted. */
    method AddMissingPatches(i: nat, patches: seq<nat>) returns (added: bool)
      requires i < |Systems|
      modifies this`Systems, this`Groups, this`Tags
      ensures |Systems| == |old(Systems)| && Systems == old(Systems)[i := Systems[i]]
      ensures At(i) == AddPatches(old(At(i)), patches)
      ensures added == (Missing(old(Systems)[i], patches) != [])
    {
      var missing := MissingPatches(i, patches);
      if |missing| == 0 {
        return false;
      }
      assert [UNKNOWN][..0] == [];
      EnsureAutoPopulateGroups([UNKNOWN]);
      var tagId := EnsureAutoPopulateTag(UNTAGGED);
      ghost var l, start, all := Labels(Groups, Tags), Systems, AllPatched(Labels(Groups, Tags), missing);
      NoneMore(start, i);
      for k := 0 to |missing|
        invariant Labels(Groups, Tags) == l && Systems == WithTalkgroups(start, i, all[..k])
      {
        var groupIds := GetGroupIds([UNKNOWN]);
        var t := Talkgroup(0, missing[k], Print(missing[k]), DefaultName(missing[k]), groupIds, tagId);
        OneMoreTalkgroup(start, i, all, k);
        Systems := Systems[i := Systems[i].(talkgroups := Systems[i].talkgroups + [t])];
      }
      assert all[..|missing|] == all;
      return true;
    }

    /** What auto-population adds to the call's system. */
    method PopulateSystem(i: nat, talkgroup: Option<nat>, call: Call, ghost start: Work) returns (populated: bool)
      requires i < |Systems|
      requires talkgroup == FindTalkgroup(start.system.talkgroups, call.meta)
      requires At(i) == if talkgroup.Some? then Primary(start, talkgroup, call.meta) else start
      modifies this`Systems, this`Groups, this`Tags
      ensures |Systems| == |old(Systems)| && Systems == old(Systems)[i := Systems[i]]
      ensures At(i) == Populated(start, call)
      ensures populated || (talkgroup.Some? && Repairs(start.system.talkgroups[talkgroup.value], call.meta)) <==>
        Writes(start, call)
    {
      var m := call.meta;
      populated := false;
      if talkgroup.None? && m.talkgroupRef > 0 {
        populated := true;
        CreateTalkgroup(i, m);
      }
      ghost var primary := Primary(start, talkgroup, m);
      assert At(i) == primary;
      var patches := UniquePatchRefs(call.patches);
      var added := AddMissingPatches(i, patches);
      var units := CollectUnits(m);
      var all, merged := MergeInto(Systems[i].units, units);
      assert Systems[i].units == start.system.units;
      Systems := Systems[i := Systems[i].(units := all)];
      populated := populated || added || merged;
    }

    method RepairAndPopulate(i: nat, talkgroup: Option<nat>, call: Call) returns (populated: bool)
      requires i < |Systems| && talkgroup == FindTalkgroup(Systems[i].talkgroups, call.meta)
      modifies this`Systems, this`Groups, this`Tags
      ensures |Systems| == |old(Systems)| && Systems == old(Systems)[i := Systems[i]]
      ensures At(i) == Populated(old(At(i)), call)
      ensures populated <==> Writes(old(At(i)), call)
    {
      ghost var start := At(i);
      var repaired := talkgroup.Some? && Repairs(Systems[i].talkgroups[talkgroup.value], call.meta);
      if repaired {
        RepairTalkgroup(i, talkgroup.value, call.meta);
      }
      populated := PopulateSystem(i, talkgroup, call, start);
      populated := populated || repaired;
    }

    /** Appends a system for a call that names none that is there. */
    method CreateSystem(m: Meta)
      modifies this`Systems
      ensures Systems == old(Systems) + [NewSystem(old(Systems), m)]
    {
      var ref := m.systemRef;
      if ref == 0 {
        ref := GetNewSystemRef();
      }
      var title := if |m.systemLabel| > 0 then m.systemLabel else "System " + Print(ref);
      Systems := Systems + [System(0, ref, title, false, "", [], [])];
    }

    /** Takes a call in: finds what it belongs to, turns it away when that is blacklisted, and adds
        what is missing when auto-population is on. */
    method IngestCall(call: Call) returns (outcome: Outcome)
      modifies this
      ensures State() == Populate(old(State()), call)
      ensures outcome == OutcomeOf(old(State()), call)
    {
      var system := FindSystem(Systems, call.meta);
      if system.Some? {
        outcome := IngestInto(system.value, call);
      } else if AutoPopulate {
        CreateSystem(call.meta);
        var i := |Systems| - 1;
        ghost var start := At(i);
        assert start.system == NewSystem(old(Systems), call.meta);
        var populated := PopulateSystem(i, None, call, start);
        assert Systems == old(Systems) + [Systems[i]];
        outcome := if call.meta.talkgroupRef > 0 then Matched(Systems[i].ref, call.meta.talkgroupRef) else Broken;
      } else {
        outcome := Unmatched;
      }
    }

    method IngestInto(i: nat, call: Call) returns (outcome: Outcome)
      requires FindSystem(Systems, call.meta) == Some(i)
      modifies this
      ensures State() == Populate(old(State()), call)
      ensures outcome == OutcomeOf(old(State()), call)
    {
      var m := call.meta;
      var talkgroup := FindTalkgroup(Systems[i].talkgroups, m);
      if talkgroup.Some? {
        var blacklisted := CheckBlacklisted(Systems[i].blacklists, Systems[i].talkgroups[talkgroup.value].ref);
        if blacklisted {
          return Blacklisted;
        }
      }
      var populated := false;
      if AutoPopulate || Systems[i].autoPopulate {
        KeepsIdentity(At(i), call);
        populated := RepairAndPopulate(i, talkgroup, call);
        if talkgroup.None? && m.talkgroupRef > 0 {
          return Matched(Systems[i].ref, m.talkgroupRef);
        }
      }
      if talkgroup.None? {
        return if populated then Broken else Unmatched;
      }
      return Matched(Systems[i].ref, Systems[i].talkgroups[talkgroup.value].ref);
    }
  }

  /** The system's reference and those of its talkgroups stay what they were. */
  lemma KeepsIdentity(w: Work, c: Call)
    ensures var s, s' := w.system, Populated(w, c).system;
      && s'.ref == s.ref && |s'.talkgroups| >= |s.talkgroups|
      && forall j :: 0 <= j < |s.talkgroups| ==> s'.talkgroups[j].ref == s.talkgroups[j].ref
  {
    PopulatedExtends(w, c);
  }
}
