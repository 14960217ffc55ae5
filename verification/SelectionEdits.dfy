/** What the listener's edits of the selection mean, talkgroup by talkgroup, and what they leave in line
    and tell the server. */
module SelectionEdits {
  import opened Prelude
  import opened ScannerModel
  import opened ScannerInvariant
  import opened ScannerTheorems

  predicate InSelection(m: LivefeedMap, sys: int, tg: int) {
    sys in m && tg in m[sys]
  }

  /** The selection is the next thing sent. */
  predicate TellsNext(s: Scanner, t: Scanner, selection: LivefeedMap) {
    s.outbox + [SelectionSync(selection)] <= t.outbox
  }

  /** Of the calls that were in line exactly the selected ones still are, in order. */
  predicate LineCleaned(s: Scanner, t: Scanner) {
    Line(t) == Filter((c: Call) => Active(t.holds.selection, c), Line(s))
  }

  // --------------------------------------------------------------------------- avoid

  /** The listener avoids what is not there. */
  predicate NotThere(s: Scanner, target: AvoidTarget) {
    var m := s.holds.selection;
    match target
    case All(_) => false
    case Entry(sys, tg) => !InSelection(m, sys, tg)
    case WholeSystem(id) => id !in m
    case Current => Subject(s).Some? && !InSelection(m, Subject(s).value.system, Subject(s).value.talkgroup)
  }

  /** The talkgroups an avoid is aimed at. */
  predicate AimedAt(s: Scanner, target: AvoidTarget, sys: int, tg: int) {
    || target.All?
    || target == Entry(sys, tg)
    || target == WholeSystem(sys)
    || (target.Current? && Subject(s).Some? && Subject(s).value.system == sys && Subject(s).value.talkgroup == tg)
  }

  /** Avoiding everything sets every talkgroup to the status, or to the switch that was pressed; avoiding a
      talkgroup, a system or the call at hand sets those to the status, or each to its opposite; no other
      changes. What is not there leaves the selection as it was. */
  lemma AvoidMeaning(s: Scanner, target: AvoidTarget, status: Option<bool>, sys: int, tg: int)
    ensures var m, n := s.holds.selection, Avoid(s, target, status).holds.selection;
      && (InSelection(n, sys, tg) <==> InSelection(m, sys, tg))
      && (InSelection(m, sys, tg) && AimedAt(s, target, sys, tg) && status.Some? ==>
            (Enabled(n, sys, tg) <==> status == Some(true)))
      && (InSelection(m, sys, tg) && target.All? && status.None? ==> (Enabled(n, sys, tg) <==> target == All(true)))
      && (InSelection(m, sys, tg) && AimedAt(s, target, sys, tg) && !target.All? && status.None? ==>
            (Enabled(n, sys, tg) <==> !Enabled(m, sys, tg)))
      && (!AimedAt(s, target, sys, tg) || NotThere(s, target) ==> (Enabled(n, sys, tg) <==> Enabled(m, sys, tg)))
  {
    AvoidedMeaning(s, target, status, sys, tg);
    AvoidGivesSelection(s, target, status);
  }

  lemma AvoidedMeaning(s: Scanner, target: AvoidTarget, status: Option<bool>, sys: int, tg: int)
    ensures var m, r := s.holds.selection, AvoidedSelection(s.holds.selection, Subject(s), target, status);
      && (r.None? <==> NotThere(s, target))
      && (r.Some? ==>
            && (InSelection(r.value, sys, tg) <==> InSelection(m, sys, tg))
            && (InSelection(m, sys, tg) && AimedAt(s, target, sys, tg) && status.Some? ==>
                  (Enabled(r.value, sys, tg) <==> status == Some(true)))
            && (InSelection(m, sys, tg) && target.All? && status.None? ==>
                  (Enabled(r.value, sys, tg) <==> target == All(true)))
            && (InSelection(m, sys, tg) && AimedAt(s, target, sys, tg) && !target.All? && status.None? ==>
                  (Enabled(r.value, sys, tg) <==> !Enabled(m, sys, tg)))
            && (!AimedAt(s, target, sys, tg) ==> (Enabled(r.value, sys, tg) <==> Enabled(m, sys, tg))))
  {
  }

  lemma AvoidGivesSelection(s: Scanner, target: AvoidTarget, status: Option<bool>)
    ensures var r, n := AvoidedSelection(s.holds.selection, Subject(s), target, status), Avoid(s, target, status);
      n.holds == Holds(if r.Some? then r.value else s.holds.selection, None, None)
  {
    var r := AvoidedSelection(s.holds.selection, Subject(s), target, status);
    if r.Some? {
      CleanKeepsHolds(s.(holds := Holds(r.value, None, None)));
    }
  }

  lemma CleanKeepsHolds(s: Scanner)
    ensures CleanQueue(s).holds == s.holds
  {
  }

  /** Outside archive playback cleaning sends nothing. */
  lemma CleanSendsNothing(s: Scanner)
    requires s.mode != Playback
    ensures CleanQueue(s).outbox == s.outbox && CleanQueue(s).mode == s.mode
  {
  }

  /** With another selection in use, cleaning outside archive playback leaves what is selected in line, and
      sends nothing. */
  lemma Cleans(s: Scanner, u: Scanner)
    requires u.mode != Playback && u == s.(holds := u.holds, outbox := u.outbox)
    ensures LineCleaned(s, CleanQueue(u)) && CleanQueue(u).holds == u.holds && CleanQueue(u).outbox == u.outbox
  {
    CleanQueueConserves(u);
    CleanKeepsHolds(u);
    CleanSendsNothing(u);
  }

  /** After an avoid no hold is in force; outside archive playback exactly the selected calls are still in
      line, within it nothing else has changed; and the selection in use is the last thing sent. Where the
      code fails it has only ended the holds. */
  lemma AvoidEffects(s: Scanner, target: AvoidTarget, status: Option<bool>)
    ensures var t := Avoid(s, target, status);
      && !Held(t.holds)
      && (NotThere(s, target) ==> t == s.(holds := t.holds))
      && (!NotThere(s, target) ==>
            && t.outbox == s.outbox + [SelectionSync(t.holds.selection)]
            && (s.mode != Playback ==> LineCleaned(s, t))
            && (s.mode == Playback ==> t == s.(holds := t.holds, outbox := t.outbox)))
  {
    AvoidedMeaning(s, target, status, 0, 0);
    AvoidGivesSelection(s, target, status);
    var r := AvoidedSelection(s.holds.selection, Subject(s), target, status);
    if r.Some? && s.mode != Playback {
      Cleans(s, s.(holds := Holds(r.value, None, None)));
    }
  }

  // ---------------------------------------------------------------------- categories

  /** `part` stands in `all` from position `n` on. */
  ghost predicate StandsAt(all: seq<Member>, n: nat, part: seq<Member>) {
    n + |part| <= |all| && all[n..n + |part|] == part
  }

  /** Where a system's talkgroups stand among all members. */
  lemma {:induction false} MembersAt(systems: seq<SystemConfig>, i: nat)
    requires i < |systems|
    ensures StandsAt(Members(systems), |Members(systems[..i])|, MembersOf(systems[i]))
    decreases |systems|
  {
    var last := |systems| - 1;
    var before := systems[..last];
    if i < last {
      assert before[..i] == systems[..i] && before[i] == systems[i];
      MembersAt(before, i);
    }
  }

  lemma MembersGrow(systems: seq<SystemConfig>, i: nat)
    requires i < |systems|
    ensures |Members(systems[..i + 1])| == |Members(systems[..i])| + |systems[i].talkgroups|
  {
    assert systems[..i + 1][..i] == systems[..i];
  }

  /** The place of a talkgroup among all members. */
  function Position(systems: seq<SystemConfig>, i: nat, k: nat): nat
    requires i <= |systems|
  {
    |Members(systems[..i])| + k
  }

  predicate IsPlace(systems: seq<SystemConfig>, i: nat, k: nat) {
    i < |systems| && k < |systems[i].talkgroups|
  }

  /** One place comes before another in the configuration. */
  predicate Earlier(i: nat, k: nat, i': nat, k': nat) {
    i < i' || (i == i' && k < k')
  }

  lemma {:induction false} MembersInFront(systems: seq<SystemConfig>, i: nat, i': nat)
    requires i < i' <= |systems|
    ensures |Members(systems[..i])| + |systems[i].talkgroups| <= |Members(systems[..i'])|
  {
    MembersGrow(systems, i' - 1);
    if i < i' - 1 {
      MembersInFront(systems, i, i' - 1);
    }
  }

  lemma PositionsFollowPlaces(systems: seq<SystemConfig>, i: nat, k: nat, i': nat, k': nat)
    requires IsPlace(systems, i, k) && (IsPlace(systems, i', k') || (i' == |systems| && k' == 0))
    ensures Position(systems, i, k) < Position(systems, i', k') <==> Earlier(i, k, i', k')
  {
    if i < i' {
      MembersInFront(systems, i, i');
    } else if i' < i {
      MembersInFront(systems, i', i);
    }
  }

  lemma MemberAtPlace(systems: seq<SystemConfig>, i: nat, k: nat)
    requires IsPlace(systems, i, k)
    ensures Position(systems, i, k) < |Members(systems)|
    ensures Members(systems)[Position(systems, i, k)] == Member(systems[i].id, systems[i].talkgroups[k])
  {
    MembersAt(systems, i);
    var n := |Members(systems[..i])|;
    assert Members(systems)[n..n + |MembersOf(systems[i])|][k] == MembersOf(systems[i])[k];
  }

  /** Every member has its place. */
  lemma {:induction false} PlaceOf(systems: seq<SystemConfig>, j: nat) returns (i: nat, k: nat)
    requires j < |Members(systems)|
    ensures IsPlace(systems, i, k) && Position(systems, i, k) == j
    decreases |systems|
  {
    var last := |systems| - 1;
    var before := systems[..last];
    if j < |Members(before)| {
      i, k := PlaceOf(before, j);
      assert before[..i] == systems[..i];
    } else {
      i, k := last, j - |Members(before)|;
    }
  }

  /** The talkgroup at the place is in the group, or has the tag, of that name. */
  predicate Bears(systems: seq<SystemConfig>, category: Category, i: nat, k: nat)
    requires IsPlace(systems, i, k)
  {
    var t := systems[i].talkgroups[k];
    if category.kind.Group? then category.name in t.groups else category.name == t.tag
  }

  /** The selection has not got what the code looks up there. */
  predicate Lacks(m: LivefeedMap, systems: seq<SystemConfig>, category: Category, i: nat, k: nat)
    requires IsPlace(systems, i, k)
  {
    systems[i].id !in m || (Bears(systems, category, i, k) && systems[i].talkgroups[k].id !in m[systems[i].id])
  }

  /** The first place the selection lacks something for, or the end of the configuration. */
  ghost predicate StopsAt(m: LivefeedMap, systems: seq<SystemConfig>, category: Category, i: nat, k: nat) {
    && (if i == |systems| then k == 0 else IsPlace(systems, i, k) && Lacks(m, systems, category, i, k))
    && forall i', k' :: IsPlace(systems, i', k') && Earlier(i', k', i, k) ==> !Lacks(m, systems, category, i', k')
  }

  /** A place before that bears the category and is that of the talkgroup. */
  ghost predicate BearsBefore(systems: seq<SystemConfig>, category: Category, i: nat, k: nat, sys: int, tg: int) {
    exists i': nat, k': nat :: IsPlace(systems, i', k') && Earlier(i', k', i, k) && Bears(systems, category, i', k')
      && systems[i'].id == sys && systems[i'].talkgroups[k'].id == tg
  }

  lemma StopsUntripped(m: LivefeedMap, systems: seq<SystemConfig>, category: Category, i: nat, k: nat)
    requires StopsAt(m, systems, category, i, k)
    ensures Untripped(m, category, Members(systems)) == Position(systems, i, k) <= |Members(systems)|
    ensures Position(systems, i, k) == |Members(systems)| <==> i == |systems|
  {
    var members, p := Members(systems), Position(systems, i, k);
    assert systems[..|systems|] == systems;
    if i < |systems| {
      MemberAtPlace(systems, i, k);
    }
    forall j: nat | j < p ensures !Trips(m, category, members[j]) {
      var i', k' := PlaceOf(systems, j);
      PositionsFollowPlaces(systems, i', k', i, k);
      MemberAtPlace(systems, i', k');
    }
    if i < |systems| {
      FindIs((x: Member) => Trips(m, category, x), members, p);
    }
  }

  lemma CategorisedIsBorne(systems: seq<SystemConfig>, category: Category, i: nat, k: nat, sys: int, tg: int)
    requires (IsPlace(systems, i, k) || (i == |systems| && k == 0)) && Position(systems, i, k) <= |Members(systems)|
    ensures Categorised(Members(systems)[..Position(systems, i, k)], category, sys, tg)
      <==> BearsBefore(systems, category, i, k, sys, tg)
  {
    var members := Members(systems)[..Position(systems, i, k)];
    if Categorised(members, category, sys, tg) {
      var j: nat :| j < |members| && members[j].system == sys && members[j].talkgroup.id == tg
        && InCategory(category, members[j].talkgroup);
      var i', k' := PlaceOf(systems, j);
      PositionsFollowPlaces(systems, i', k', i, k);
      MemberAtPlace(systems, i', k');
      assert Bears(systems, category, i', k');
    }
    if BearsBefore(systems, category, i, k, sys, tg) {
      var i': nat, k': nat :| IsPlace(systems, i', k') && Earlier(i', k', i, k) && Bears(systems, category, i', k')
        && systems[i'].id == sys && systems[i'].talkgroups[k'].id == tg;
      PositionsFollowPlaces(systems, i', k', i, k);
      MemberAtPlace(systems, i', k');
      assert InCategory(category, members[Position(systems, i', k')].talkgroup);
    }
  }

  /** Switching a category turns its talkgroups off if it was on, and on otherwise, and no others; it comes as
      far as the first place for which the selection lacks something. */
  lemma CategoryMeaning(s: Scanner, category: Category, i: nat, k: nat, sys: int, tg: int)
    requires StopsAt(s.holds.selection, s.systems, category, i, k)
    ensures var m, n := s.holds.selection, ToggleCategory(s, category).holds.selection;
      && (InSelection(n, sys, tg) <==> InSelection(m, sys, tg))
      && (InSelection(m, sys, tg) && BearsBefore(s.systems, category, i, k, sys, tg) ==>
            (Enabled(n, sys, tg) <==> category.status != On))
      && (!BearsBefore(s.systems, category, i, k, sys, tg) ==> (Enabled(n, sys, tg) <==> Enabled(m, sys, tg)))
  {
    StopsUntripped(s.holds.selection, s.systems, category, i, k);
    CategorisedIsBorne(s.systems, category, i, k, sys, tg);
    ToggleGivesSelection(s, category);
  }

  lemma ToggleGivesSelection(s: Scanner, category: Category)
    ensures var m, members := s.holds.selection, Members(s.systems);
      ToggleCategory(s, category).holds
        == Holds(CategorySelection(m, members[..Untripped(m, category, members)], category), None, None)
  {
    var m, members := s.holds.selection, Members(s.systems);
    var n := Untripped(m, category, members);
    CleanKeepsHolds(Sync(s.(holds := Holds(CategorySelection(m, members[..n], category), None, None))));
  }

  /** After switching a category no hold is in force. If the selection lacked nothing it has been sent, and
      outside archive playback exactly the selected calls are still in line; otherwise nothing else has
      happened. */
  lemma CategoryEffects(s: Scanner, category: Category, i: nat, k: nat)
    requires StopsAt(s.holds.selection, s.systems, category, i, k)
    ensures var t := ToggleCategory(s, category);
      && !Held(t.holds)
      && (i < |s.systems| ==> t == s.(holds := t.holds))
      && (i == |s.systems| ==> TellsNext(s, t, t.holds.selection))
      && (i == |s.systems| && s.mode != Playback ==>
            LineCleaned(s, t) && t.outbox == s.outbox + [SelectionSync(t.holds.selection)])
  {
    StopsUntripped(s.holds.selection, s.systems, category, i, k);
    ToggleGivesSelection(s, category);
    var h := ToggleCategory(s, category).holds;
    if i == |s.systems| {
      var u := Sync(s.(holds := h));
      CleanSendsLater(u);
      if s.mode != Playback {
        Cleans(s, u);
      }
    }
  }

  /** What was sent before cleaning stays sent. */
  lemma CleanSendsLater(s: Scanner)
    ensures s.outbox <= CleanQueue(s).outbox
  {
    ResumeSendsLater(CancelSkip(Stop(s.(queue := Filter((c: Call) => Active(s.holds.selection, c), s.queue)))));
  }

  lemma ResumeSendsLater(s: Scanner)
    ensures s.outbox <= Resume(s).outbox
  {
    if s.mode != Playback {
      PlaySendsNothing(s);
    }
  }

  lemma PlaySendsNothing(s: Scanner)
    ensures PlayCall(s, None).outbox == s.outbox
  {
  }

  /** There is always a place where it stops, if only at the end. */
  lemma CategoryStops(m: LivefeedMap, systems: seq<SystemConfig>, category: Category) returns (i: nat, k: nat)
    ensures StopsAt(m, systems, category, i, k)
  {
    var members := Members(systems);
    var n := Untripped(m, category, members);
    if n < |members| {
      i, k := PlaceOf(systems, n);
      MemberAtPlace(systems, i, k);
    } else {
      i, k := |systems|, 0;
      assert systems[..|systems|] == systems;
    }
    forall i': nat, k': nat | IsPlace(systems, i', k') && Earlier(i', k', i, k)
      ensures !Lacks(m, systems, category, i', k')
    {
      PositionsFollowPlaces(systems, i', k', i, k);
      MemberAtPlace(systems, i', k');
    }
  }

  // --------------------------------------------------------------------------- holds

  /** The button told the server, if it was to, of the selection now in use, and after everything else. */
  predicate Resubscribed(t: Scanner, resubscribe: bool) {
    resubscribe ==> |t.outbox| > 0 && t.outbox[|t.outbox| - 1] == SelectionSync(t.holds.selection)
  }

  /** What taking or releasing a hold does besides the selection: a release leaves everything else alone; a
      hold taken leaves only calls in line that it lets through, outside archive playback all of them. */
  predicate HoldDone(s: Scanner, t: Scanner, taken: bool, resubscribe: bool) {
    && Resubscribed(t, resubscribe)
    && (s.mode != Playback ==>
          t.outbox == s.outbox + if resubscribe then [SelectionSync(t.holds.selection)] else [])
    && (!taken ==> t == s.(holds := t.holds, outbox := t.outbox))
    && (taken ==> forall c :: c in Line(t) ==> c in Line(s) && Active(t.holds.selection, c))
    && (taken && s.mode != Playback ==> LineCleaned(s, t))
  }

  lemma HeldIsCleaned(s: Scanner, u: Scanner, resubscribe: bool)
    requires u == s.(holds := u.holds)
    ensures var t := CleanQueue(u); HoldDone(s, if resubscribe then Sync(t) else t, true, resubscribe)
  {
    CleanQueueLeavesSelected(u);
    CleanKeepsHolds(u);
    assert Line(u) == Line(s);
    assert Line(Sync(CleanQueue(u))) == Line(CleanQueue(u));
    if s.mode != Playback {
      Cleans(s, u);
    }
  }

  lemma HoldSystemEffects(s: Scanner, resubscribe: bool)
    requires Subject(s).Some?
    ensures HoldDone(s, HoldSystem(s, resubscribe), s.holds.system.None?, resubscribe)
  {
    if s.holds.system.None? {
      var u := ReleaseTalkgroup(s);
      var m := u.holds.selection;
      HeldIsCleaned(s, u.(holds := u.holds.(system := Some(m), selection := SystemOverlay(m, Subject(s).value.system))),
        resubscribe);
    }
  }

  lemma HoldTalkgroupEffects(s: Scanner, resubscribe: bool)
    requires Subject(s).Some?
    ensures HoldDone(s, HoldTalkgroup(s, resubscribe), s.holds.talkgroup.None?, resubscribe)
  {
    if s.holds.talkgroup.None? {
      var u, c := ReleaseSystem(s), Subject(s).value;
      var m := u.holds.selection;
      HeldIsCleaned(s,
        u.(holds := u.holds.(talkgroup := Some(m), selection := TalkgroupOverlay(m, c.system, c.talkgroup))),
        resubscribe);
    }
  }

  /** Nothing at hand to hold: the buttons do nothing. */
  lemma NothingToHold(s: Scanner, resubscribe: bool)
    requires Subject(s).None?
    ensures HoldSystem(s, resubscribe) == HoldTalkgroup(s, resubscribe) == s
  {
  }
}
