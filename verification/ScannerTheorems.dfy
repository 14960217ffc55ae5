/** What the player promises over whole runs: stale audio never sounds, holds give the
    user's selection back, and cleaning the queue loses nothing that is still selected. */
module ScannerTheorems {
  import opened Prelude
  import opened ScannerModel
  import opened ScannerInvariant

  // ------------------------------------------------------------------ stale audio

  /** Over every run: at most one source sounds, it plays the current call under the current
      generation, and no generation ever started two. */
  lemma OneLiveSource(selection: LivefeedMap, goesLive: bool, systems: seq<SystemConfig>, steps: seq<Step>)
    ensures var d := Run(Initial(selection, goesLive, systems), steps).deck;
      && |d.sounding| <= 1
      && (forall a :: a in d.sounding ==> d.source == Some(a) && d.call == Some(a.call) && a.generation == d.generation)
      && (forall i, j :: 0 <= i < j < |d.started| ==> d.started[i].generation < d.started[j].generation)
  {
    RunKeeps(Initial(selection, goesLive, systems), steps);
  }

  /** A step starts a source only as the alert callback of the current generation, for the
      current call, while nothing sounds. */
  lemma OnlyFreshDecodesStart(s: Scanner, step: Step)
    requires Consistent(s)
    ensures var d, e := s.deck, Next(s, step).deck;
      || e.started == d.started
      || (&& step == Get(Alerted(d.generation)) && d.call.Some? && d.sounding == {}
          && d.generation in d.jobs
          && e.started == d.started + [Started(d.call.value, d.generation, d.jobs[d.generation].queue)])
  {
    match step
    case Do(c) => NextControlKeeps(s, c);
    case Choose(c) => NextChoiceKeeps(s, c);
    case Get(e) =>
      NextEventKeeps(s, e);
      if e.Alerted? {
        AlertDoneStarts(s, e.generation);
      }
  }

  lemma GenerationNeverFalls(s: Scanner, step: Step)
    requires Consistent(s)
    ensures s.deck.generation <= Next(s, step).deck.generation
    ensures s.deck.destroyed ==> Next(s, step).deck.destroyed
  {
    match step
    case Do(c) => NextControlKeeps(s, c);
    case Choose(c) => NextChoiceKeeps(s, c);
    case Get(e) =>
      NextEventKeeps(s, e);
      if e.Alerted? {
        AlertDoneStarts(s, e.generation);
      }
  }

  /** Whatever happens after a moment, the log only grows, and no generation that was already
      over at that moment is started any more. */
  lemma {:induction false} StaleNeverSounds(s: Scanner, steps: seq<Step>)
    requires Consistent(s)
    ensures s.deck.started <= Run(s, steps).deck.started
    ensures s.deck.generation <= Run(s, steps).deck.generation
    ensures forall i :: |s.deck.started| <= i < |Run(s, steps).deck.started|
              ==> s.deck.generation <= Run(s, steps).deck.started[i].generation
    decreases |steps|
  {
    if steps != [] {
      var before := steps[..|steps| - 1];
      StaleNeverSounds(s, before);
      RunKeeps(s, before);
      OnlyFreshDecodesStart(Run(s, before), steps[|steps| - 1]);
      GenerationNeverFalls(Run(s, before), steps[|steps| - 1]);
    }
  }

  /** After a stop, none of the decodes in flight at that time is ever heard. */
  lemma StopSilencesDecodes(s: Scanner, steps: seq<Step>, i: nat)
    requires Consistent(s)
    requires |s.deck.started| <= i < |Run(Stop(s), steps).deck.started|
    ensures Run(Stop(s), steps).deck.started[i].generation !in s.deck.jobs
    ensures Stop(s).deck.sounding == {}
  {
    StopKeeps(s);
    StaleNeverSounds(Stop(s), steps);
  }

  /** A destroyed player is silent for good. */
  lemma {:induction false} DestroyedIsSilent(s: Scanner, steps: seq<Step>)
    requires Consistent(s) && s.deck.destroyed
    ensures Run(s, steps).deck.sounding == {} && Run(s, steps).deck.started == s.deck.started
    ensures Run(s, steps).deck.destroyed
    decreases |steps|
  {
    if steps != [] {
      var before := steps[..|steps| - 1];
      DestroyedIsSilent(s, before);
      RunKeeps(s, steps);
      RunKeeps(s, before);
      OnlyFreshDecodesStart(Run(s, before), steps[|steps| - 1]);
      GenerationNeverFalls(Run(s, before), steps[|steps| - 1]);
    }
  }

  // ------------------------------------------------------- what is asked for is heard

  /** The one source sounding is that of the call, begun after everything heard before and, outside
      archive playback, announced with the number of calls waiting. */
  predicate NowHeard(s: Scanner, u: Scanner, c: Call) {
    && u.deck.call == Some(c) && u.deck.sounding == {Source(c, u.deck.generation)}
    && u.deck.generation > s.deck.generation
    && |u.deck.started| == |s.deck.started| + 1 && s.deck.started <= u.deck.started
    && u.deck.started[|s.deck.started|].call == c
    && (s.mode != Playback ==> u.deck.started[|s.deck.started|].queue == |s.queue|)
    && u.mode == s.mode && u.paused == s.paused && u.queue == s.queue && u.holds == s.holds && u.browse == s.browse
  }

  lemma BegunIsHeard(s: Scanner, t: Scanner, c: Call)
    requires Consistent(t) && t.deck.call == Some(c) && t.deck.source.None? && t.deck.context
    requires t.deck.generation >= s.deck.generation && t.deck.started == s.deck.started
    requires t.mode == s.mode && t.paused == s.paused && t.queue == s.queue && t.holds == s.holds
    requires t.browse == s.browse
    ensures NowHeard(s, Hear(BeginDecode(t)), c)
  {
  }

  /** A call given to an unpaused player is heard, in place of what was playing, once it is decoded. */
  lemma PlayedIsHeard(s: Scanner, c: Call)
    requires Consistent(s) && c.audio && !s.deck.destroyed && !s.paused && s.deck.skipDelay.None?
    ensures NowHeard(s, Hear(PlayCall(s, Some(c))), c)
  {
    InitializeAudioKeeps(s);
    var r := InitializeAudio(s);
    StopKeeps(r);
    var t := if r.deck.call.Some? then Stop(r) else r;
    LoadKeeps(t.deck, c);
    BegunIsHeard(s, t.(deck := Load(t.deck, c)), c);
  }

  /** Replaying hears the current call, or else the previous one, again. */
  lemma ReplayIsHeard(s: Scanner)
    requires Consistent(s) && Subject(s).Some? && Subject(s).value.audio
    requires !s.deck.destroyed && !s.paused && s.deck.skipDelay.None?
    ensures NowHeard(s, Hear(Replay(s)), Subject(s).value)
  {
    PlayedIsHeard(s, Subject(s).value);
  }

  /** A call of the history is heard once its reply comes, in whatever mode and with the queue as it
      was; replies for other calls, and a second one, change nothing. */
  lemma HistoryIsHeard(s: Scanner, c: Call, other: Call)
    requires Consistent(s) && c.audio && c.id > 0 && !s.deck.destroyed && !s.paused
    ensures var t := LoadAndPlayHistory(s, c.id);
      && t.outbox == s.outbox + [CallRequest(c.id, History)] && t.mode == s.mode && t.queue == s.queue && t.deck.context
      && NowHeard(s.(browse := s.browse.(historyPending := 0)), Hear(CallReply(t, c, Some(History))), c)
      && (other.id != c.id ==> CallReply(t, other, Some(History)) == t)
      && CallReply(CallReply(t, c, Some(History)), c, Some(History)) == CallReply(t, c, Some(History))
  {
    var t := LoadAndPlayHistory(s, c.id);
    LoadAndPlayHistoryKeeps(s, c.id);
    var u := t.(browse := t.browse.(historyPending := 0));
    BrowseKeeps(t, u.browse);
    PlayedIsHeard(u, c);
  }

  /** Leaving live listening or playback is final: nothing sounds or waits, and a reply still on
      its way is not played. */
  lemma LateRepliesIgnored(s: Scanner, c: Call, flag: Option<Flag>)
    requires Consistent(s)
    ensures CallReply(StopLivefeed(s), c, flag) == StopLivefeed(s)
    ensures CallReply(StopPlaybackMode(s), c, flag) == StopPlaybackMode(s)
    ensures StopLivefeed(s).deck.sounding == StopPlaybackMode(s).deck.sounding == {}
    ensures StopLivefeed(s).queue == StopPlaybackMode(s).queue == []
  {
    LeaveModeKeeps(s);
    LeaveModeKeeps(s.(browse := s.browse.(refreshing := false)));
  }

  // ------------------------------------------------------------------------ holds

  predicate SameDomain(a: LivefeedMap, b: LivefeedMap) {
    a.Keys == b.Keys && forall sys :: sys in a ==> a[sys].Keys == b[sys].Keys
  }

  /** What a system hold hears: only that system, as the user selected it, or all of it when
      the user had switched all of it off. */
  lemma SystemOverlayMeaning(base: LivefeedMap, held: int, sys: int, tg: int)
    ensures SameDomain(SystemOverlay(base, held), base)
    ensures Enabled(SystemOverlay(base, held), sys, tg)
            <==> sys == held && sys in base && tg in base[sys]
                 && ((exists x :: Enabled(base, sys, x)) ==> Enabled(base, sys, tg))
  {
    if sys in base && AllOff(base[sys]) {
      assert forall x :: !Enabled(base, sys, x);
    } else if sys in base {
      var x :| x in base[sys] && base[sys][x];
      assert Enabled(base, sys, x);
    }
  }

  lemma TalkgroupOverlayMeaning(base: LivefeedMap, heldSystem: int, heldTalkgroup: int, sys: int, tg: int)
    ensures SameDomain(TalkgroupOverlay(base, heldSystem, heldTalkgroup), base)
    ensures Enabled(TalkgroupOverlay(base, heldSystem, heldTalkgroup), sys, tg)
            <==> sys == heldSystem && tg == heldTalkgroup && sys in base && tg in base[sys]
  {
  }

  /** The system hold button: it gives the own selection back when the system is held, and
      otherwise overlays the own selection, whichever hold was in force. */
  lemma HoldSystemToggles(s: Scanner, resubscribe: bool)
    requires Consistent(s) && Subject(s).Some?
    ensures HoldSystem(s, resubscribe).holds ==
      if s.holds.system.Some? then Holds(Own(s.holds), None, None)
      else Holds(SystemOverlay(Own(s.holds), Subject(s).value.system), Some(Own(s.holds)), None)
  {
    if s.holds.system.None? {
      var u := ReleaseTalkgroup(s);
      var m := u.holds.selection;
      CleanQueueKeeps(u.(holds := u.holds.(system := Some(m), selection := SystemOverlay(m, Subject(s).value.system))));
    }
  }

  lemma HoldTalkgroupToggles(s: Scanner, resubscribe: bool)
    requires Consistent(s) && Subject(s).Some?
    ensures HoldTalkgroup(s, resubscribe).holds ==
      if s.holds.talkgroup.Some? then Holds(Own(s.holds), None, None)
      else Holds(TalkgroupOverlay(Own(s.holds), Subject(s).value.system, Subject(s).value.talkgroup),
                 None, Some(Own(s.holds)))
  {
    if s.holds.talkgroup.None? {
      var c := Subject(s).value;
      var u := ReleaseSystem(s);
      var m := u.holds.selection;
      CleanQueueKeeps(u.(holds := u.holds.(
        talkgroup := Some(m), selection := TalkgroupOverlay(m, c.system, c.talkgroup))));
    }
  }

  /** Step number `i` pressed the system hold button on the call it overlays the own selection for. */
  predicate SystemPressed(s: Scanner, steps: seq<Step>, i: int, own: LivefeedMap, held: LivefeedMap)
    requires 0 <= i < |steps|
  {
    var c := Subject(Run(s, steps[..i]));
    steps[i] == Choose(ToggleHoldSystem) && c.Some? && held == SystemOverlay(own, c.value.system)
  }

  predicate TalkgroupPressed(s: Scanner, steps: seq<Step>, i: int, own: LivefeedMap, held: LivefeedMap)
    requires 0 <= i < |steps|
  {
    var c := Subject(Run(s, steps[..i]));
    steps[i] == Choose(ToggleHoldTalkgroup) && c.Some?
      && held == TalkgroupOverlay(own, c.value.system, c.value.talkgroup)
  }

  /** The hold in force, if any, is that of the start or was pressed along the way. */
  ghost predicate HeldSince(s: Scanner, steps: seq<Step>, h: Holds) {
    var own := Own(s.holds);
    || !Held(h) || h == s.holds
    || (h.system.Some? && exists i :: 0 <= i < |steps| && SystemPressed(s, steps, i, own, h.selection))
    || (h.talkgroup.Some? && exists i :: 0 <= i < |steps| && TalkgroupPressed(s, steps, i, own, h.selection))
  }

  /** One step either leaves the holds, ends them, or presses a button. */
  lemma HoldsAfterStep(s: Scanner, step: Step)
    requires Consistent(s) && !Edits(step)
    ensures var h := Next(s, step).holds;
      || h == s.holds || !Held(h)
      || (step == Choose(ToggleHoldSystem) && Subject(s).Some?
          && h == Holds(SystemOverlay(Own(s.holds), Subject(s).value.system), Some(Own(s.holds)), None))
      || (step == Choose(ToggleHoldTalkgroup) && Subject(s).Some?
          && h == Holds(TalkgroupOverlay(Own(s.holds), Subject(s).value.system, Subject(s).value.talkgroup),
                        None, Some(Own(s.holds))))
  {
    match step
    case Do(c) => NextControlKeeps(s, c);
    case Get(e) => NextEventKeeps(s, e);
    case Choose(ToggleHoldSystem) => if Subject(s).Some? { HoldSystemToggles(s, true); }
    case Choose(ToggleHoldTalkgroup) => if Subject(s).Some? { HoldTalkgroupToggles(s, true); }
  }

  lemma HeldSinceStep(s: Scanner, steps: seq<Step>)
    requires |steps| > 0 && Consistent(Run(s, steps[..|steps| - 1])) && !Edits(steps[|steps| - 1])
    requires var t := Run(s, steps[..|steps| - 1]);
      HeldSince(s, steps[..|steps| - 1], t.holds) && Own(t.holds) == Own(s.holds)
    ensures HeldSince(s, steps, Run(s, steps).holds)
  {
    var n := |steps| - 1;
    var before, h := steps[..n], Run(s, steps).holds;
    HoldsAfterStep(Run(s, before), steps[n]);
    assert forall i :: 0 <= i < n ==> before[..i] == steps[..i] && before[i] == steps[i];
    if h == Run(s, before).holds {
      if i :| 0 <= i < n && SystemPressed(s, before, i, Own(s.holds), h.selection) {
        assert SystemPressed(s, steps, i, Own(s.holds), h.selection);
      }
      if i :| 0 <= i < n && TalkgroupPressed(s, before, i, Own(s.holds), h.selection) {
        assert TalkgroupPressed(s, steps, i, Own(s.holds), h.selection);
      }
    } else if steps[n] == Choose(ToggleHoldSystem) && h.system.Some? {
      assert SystemPressed(s, steps, n, Own(s.holds), h.selection);
    } else if Held(h) {
      assert TalkgroupPressed(s, steps, n, Own(s.holds), h.selection);
    }
  }

  /** Any run of holds, releases, playback and listening, without an avoid or a category
      switch, keeps the user's own selection; at every moment either nothing is held and that
      selection is in use, or exactly one hold overlays it, for the call its button was pressed on. */
  lemma {:induction false} HoldsKeepOwnSelection(s: Scanner, steps: seq<Step>)
    requires Consistent(s) && forall i :: 0 <= i < |steps| ==> !Edits(steps[i])
    ensures var h, own := Run(s, steps).holds, Own(s.holds);
      && Own(h) == own
      && !(h.system.Some? && h.talkgroup.Some?)
      && (!Held(h) ==> h.selection == own)
      && HeldSince(s, steps, h)
    decreases |steps|
  {
    if steps != [] {
      var before := steps[..|steps| - 1];
      HoldsKeepOwnSelection(s, before);
      RunKeeps(s, before);
      NextKeeps(Run(s, before), steps[|steps| - 1]);
      HeldSinceStep(s, steps);
    }
  }

  /** Pressing a hold button and pressing it again later, with no edit in between and with that
      hold still in force, restores the selection exactly. */
  lemma HoldThenReleaseRestores(s: Scanner, steps: seq<Step>)
    requires Consistent(s) && !Held(s.holds) && Subject(s).Some?
    requires forall i :: 0 <= i < |steps| ==> !Edits(steps[i])
    ensures var t := Run(HoldSystem(s, true), steps);
      t.holds.system.Some? ==> HoldSystem(t, true).holds == s.holds
    ensures var t := Run(HoldTalkgroup(s, true), steps);
      t.holds.talkgroup.Some? ==> HoldTalkgroup(t, true).holds == s.holds
  {
    HoldSystemKeeps(s);
    HoldTalkgroupKeeps(s);
    HoldsKeepOwnSelection(HoldSystem(s, true), steps);
    HoldsKeepOwnSelection(HoldTalkgroup(s, true), steps);
    RunKeeps(HoldSystem(s, true), steps);
    RunKeeps(HoldTalkgroup(s, true), steps);
    var t := Run(HoldSystem(s, true), steps);
    if t.holds.system.Some? {
      HoldSystemToggles(t, true);
    }
    var u := Run(HoldTalkgroup(s, true), steps);
    if u.holds.talkgroup.Some? {
      HoldTalkgroupToggles(u, true);
    }
  }

  // ------------------------------------------------------------------ queue cleaning

  /** The calls the listener still has ahead: the current one, then the queue. */
  function Line(s: Scanner): seq<Call> {
    (if s.deck.call.Some? then [s.deck.call.value] else []) + s.queue
  }

  function Selected(s: Scanner): seq<Call> {
    Filter((c: Call) => Active(s.holds.selection, c), Line(s))
  }

  /** Cleaning ends archive playback: the current call is deselected, it was the last of the
      archive, and the archive has been looked at again already. */
  predicate CleaningEndsPlayback(s: Scanner) {
    && s.mode == Playback && s.deck.call.Some? && !Active(s.holds.selection, s.deck.call.value)
    && s.browse.list.Some? && s.browse.pending == 0 && s.browse.refreshing
    && Continue(s.browse.list.value, s.deck.call).End?
  }

  lemma PlayCallKeepsLine(s: Scanner)
    ensures Line(PlayCall(s, None)) == Line(s)
  {
    if s.deck.call.None? && s.queue != [] {
      assert Line(s) == [s.queue[0]] + s.queue[1..];
    }
  }

  /** Cleaning keeps exactly the selected calls, in order, through the skip, stop and play it
      may cause, paused or not; the one exception is a queue emptied because cleaning ended
      archive playback. */
  lemma CleanQueueConserves(s: Scanner)
    ensures Line(CleanQueue(s)) == Selected(s)
            <==> !(CleaningEndsPlayback(s) && Selected(s) != [])
  {
    var p := (c: Call) => Active(s.holds.selection, c);
    var t := s.(queue := Filter(p, s.queue));
    if s.deck.call.None? {
      assert Line(s) == s.queue;
      assert Line(t) == t.queue;
    } else {
      assert Line(s)[1..] == s.queue;
      if p(s.deck.call.value) {
        assert Selected(s) == [s.deck.call.value] + t.queue;
      } else {
        var u := CancelSkip(Stop(t));
        assert Selected(s) == t.queue == Line(u);
        if s.mode != Playback {
          PlayCallKeepsLine(u);
        }
      }
    }
  }

  /** So after a hold, an avoid or a category switch nothing deselected is left in line. */
  lemma CleanQueueLeavesSelected(s: Scanner)
    ensures forall c :: c in Line(CleanQueue(s)) ==> c in Line(s) && Active(s.holds.selection, c)
  {
    CleanQueueConserves(s);
  }
}
