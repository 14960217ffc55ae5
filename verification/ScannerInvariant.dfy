/** What holds in every reachable state of the player, whatever order its operations,
    its callbacks and the browser's events come in. */
module ScannerInvariant {
  import opened Prelude
  import opened ScannerModel

  // -------------------------------------------------------------- the invariant

  /** The sources sounding are exactly the player's one source; it plays the current call
      and was made for the current generation. */
  ghost predicate SourceOk(d: Deck) {
    && d.sounding == (if d.source.Some? then {d.source.value} else {})
    && (d.source.Some? ==>
          && d.call == Some(d.source.value.call)
          && d.source.value.generation == d.generation
          && d.generation !in d.jobs)
  }

  /** No decode is ahead of the generation counter, and one of the current generation is
      for the current call. */
  ghost predicate JobsOk(d: Deck) {
    forall g :: g in d.jobs ==> g <= d.generation && (g == d.generation ==> d.call == Some(d.jobs[g].call))
  }

  /** Each generation started at most one source, and an entry of the current generation is
      the source still in place. */
  ghost predicate LogOk(d: Deck) {
    && (forall i, j :: 0 <= i < j < |d.started| ==> d.started[i].generation < d.started[j].generation)
    && (forall i :: 0 <= i < |d.started| ==> d.started[i].generation <= d.generation)
    && (forall i :: 0 <= i < |d.started| && d.started[i].generation == d.generation
          ==> d.source == Some(Source(d.started[i].call, d.generation)))
  }

  /** During the pause between two calls the player holds no call, and it can still be woken
      from that pause; a destroyed player holds no call. */
  ghost predicate WaitOk(d: Deck) {
    && (d.skipDelay.Some? ==> d.call.None? && (d.destroyed || d.skipDelay.value in d.timers))
    && (d.destroyed ==> d.call.None?)
    && forall t :: t in d.timers ==> t < d.nextTimer
  }

  ghost predicate DeckOk(d: Deck) {
    SourceOk(d) && JobsOk(d) && LogOk(d) && WaitOk(d)
  }

  /** At most one hold is in force, and then the selection in use is the overlay of the saved one. */
  ghost predicate HoldsOk(h: Holds) {
    && !(h.system.Some? && h.talkgroup.Some?)
    && (h.system.Some? ==> exists sys :: h.selection == SystemOverlay(h.system.value, sys))
    && (h.talkgroup.Some? ==> exists sys, tg :: h.selection == TalkgroupOverlay(h.talkgroup.value, sys, tg))
  }

  predicate Held(h: Holds) {
    h.system.Some? || h.talkgroup.Some?
  }

  /** A hold can always be released. */
  ghost predicate Sane(s: Scanner) {
    DeckOk(s.deck) && HoldsOk(s.holds) && (Held(s.holds) ==> Subject(s).Some?)
  }

  /** And audio is ready in every listening mode. */
  ghost predicate Consistent(s: Scanner) {
    Sane(s) && (s.mode != Offline && !s.deck.destroyed ==> s.deck.context)
  }

  /** From `d` to `e` no source was started, and what was stale or destroyed stays so. */
  ghost predicate Quiet(d: Deck, e: Deck) {
    e.started == d.started && d.generation <= e.generation && (d.destroyed ==> e.destroyed)
  }

  /** `t` is consistent again, has the selection and the holds of `s`, and started nothing. */
  ghost predicate Keeps(s: Scanner, t: Scanner) {
    Consistent(t) && t.holds == s.holds && (Subject(s).Some? ==> Subject(t).Some?) && Quiet(s.deck, t.deck)
  }

  // --------------------------------------------------------------- the deck alone

  lemma WaitKeeps(d: Deck)
    requires DeckOk(d) && d.call.None?
    ensures DeckOk(Wait(d))
  {
  }

  lemma DropKeeps(d: Deck, g: nat)
    requires DeckOk(d)
    ensures DeckOk(Drop(d, g))
  {
  }

  lemma LoadKeeps(d: Deck, c: Call)
    requires DeckOk(d) && d.call.None? && d.skipDelay.None? && !d.destroyed
    ensures DeckOk(Load(d, c))
  {
  }

  lemma SoundKeeps(d: Deck, g: nat)
    requires DeckOk(d) && Fresh(d, g)
    ensures DeckOk(Sound(Drop(d, g), d.jobs[g]))
  {
    DropKeeps(d, g);
  }

  lemma AlertKeeps(d: Deck, g: nat)
    requires DeckOk(d) && g in d.jobs
    ensures DeckOk(d.(jobs := d.jobs[g := d.jobs[g].(stage := Alerting)]))
  {
  }

  lemma WakeKeeps(d: Deck, t: nat)
    requires DeckOk(d)
    ensures DeckOk(d.(timers := d.timers - {t}, skipDelay := None))
  {
  }

  lemma DestroyKeeps(d: Deck, timers: set<nat>)
    requires DeckOk(d) && timers <= d.timers
    ensures DeckOk(Silence(d.(destroyed := true, timers := timers)))
  {
  }

  // -------------------------------------------------- operations that edit no selection

  lemma StopKeeps(s: Scanner)
    requires Consistent(s)
    ensures Keeps(s, Stop(s))
  {
  }

  lemma CancelSkipKeeps(s: Scanner)
    requires Consistent(s)
    ensures Keeps(s, CancelSkip(s))
  {
  }

  lemma InitializeAudioKeeps(s: Scanner)
    requires Sane(s)
    ensures Keeps(s, InitializeAudio(s))
  {
  }

  lemma BeginDecodeKeeps(s: Scanner)
    requires Consistent(s) && s.deck.call.Some? && s.deck.source.None?
    ensures Keeps(s, BeginDecode(s))
  {
  }

  lemma PlayGivenKeeps(s: Scanner, c: Call)
    requires Consistent(s) && s.deck.skipDelay.None? && !s.deck.destroyed
    ensures Keeps(s, PlayGiven(s, c))
  {
    StopKeeps(s);
    var t := if s.deck.call.Some? then Stop(s) else s;
    LoadKeeps(t.deck, c);
    BeginDecodeKeeps(t.(deck := Load(t.deck, c)));
  }

  lemma PlayQueuedKeeps(s: Scanner)
    requires Consistent(s) && s.deck.skipDelay.None? && !s.deck.destroyed
    ensures Keeps(s, PlayQueued(s))
  {
    if s.deck.call.None? && s.queue != [] {
      LoadKeeps(s.deck, s.queue[0]);
      BeginDecodeKeeps(s.(deck := Load(s.deck, s.queue[0]), queue := s.queue[1..]));
    }
  }

  lemma PlayCallKeeps(s: Scanner, c: Option<Call>)
    requires Consistent(s)
    ensures Keeps(s, PlayCall(s, c))
  {
    if !s.deck.destroyed {
      var given := c.Some? && c.value.audio;
      InitializeAudioKeeps(s);
      var t := if given then InitializeAudio(s) else s;
      if !Blocked(t) {
        if given {
          PlayGivenKeeps(t, c.value);
        } else {
          PlayQueuedKeeps(t);
        }
      }
    }
  }

  lemma QueueKeeps(s: Scanner, c: Call, priority: bool)
    requires Consistent(s)
    ensures Keeps(s, Queue(s, c, priority))
  {
    if c.audio && s.mode != Offline {
      PlayCallKeeps(s.(queue := if priority then [c] + s.queue else s.queue + [c]), None);
    }
  }

  lemma PauseKeeps(s: Scanner, status: bool)
    requires Consistent(s)
    ensures Keeps(s, Pause(s, status))
  {
    if !status {
      InitializeAudioKeeps(s.(paused := false));
      PlayCallKeeps(InitializeAudio(s.(paused := false)), None);
    }
  }

  lemma StartLivefeedKeeps(s: Scanner)
    requires Consistent(s)
    ensures Keeps(s, StartLivefeed(s))
  {
    InitializeAudioKeeps(s.(mode := Online, paused := false));
  }

  lemma LeaveModeKeeps(s: Scanner)
    requires Consistent(s)
    ensures Keeps(s, LeaveMode(s))
  {
    var t := s.(mode := Offline, queue := [], browse := s.browse.(historyPending := 0, pending := 0));
    CancelSkipKeeps(t);
    StopKeeps(CancelSkip(t));
  }

  lemma ToggleLivefeedKeeps(s: Scanner)
    requires Consistent(s)
    ensures Keeps(s, ToggleLivefeed(s))
  {
    match s.mode
    case Offline => StartLivefeedKeeps(s);
    case Online => LeaveModeKeeps(s);
    case Playback => LeaveModeKeeps(s.(browse := s.browse.(refreshing := false)));
  }

  lemma DestroyPlayerKeeps(s: Scanner)
    requires Consistent(s)
    ensures Keeps(s, Destroy(s))
  {
    var d := s.deck;
    DestroyKeeps(d, if d.skipDelay.Some? then d.timers - {d.skipDelay.value} else d.timers);
  }

  /** The selection the user made: the saved one during a hold, else the one in use. */
  function Own(h: Holds): LivefeedMap {
    if h.system.Some? then h.system.value
    else if h.talkgroup.Some? then h.talkgroup.value
    else h.selection
  }

  /** `t` is `s` with its own selection in use again. */
  ghost predicate Releases(s: Scanner, t: Scanner) {
    && Sane(t) && t.deck == s.deck && t.previous == s.previous && t.mode == s.mode
    && Own(t.holds) == Own(s.holds)
  }

  lemma ReleaseKeeps(s: Scanner)
    requires Sane(s)
    ensures Releases(s, ReleaseSystem(s)) && ReleaseSystem(s).holds.system.None?
    ensures Releases(s, ReleaseTalkgroup(s)) && ReleaseTalkgroup(s).holds.talkgroup.None?
  {
  }

  lemma EnterPlaybackKeeps(s: Scanner)
    requires Sane(s)
    ensures var t := InitializeAudio(ReleaseTalkgroup(ReleaseSystem(s)));
      Consistent(t) && Quiet(s.deck, t.deck) && Own(t.holds) == Own(s.holds) && !Held(t.holds)
  {
    ReleaseKeeps(s);
    ReleaseKeeps(ReleaseSystem(s));
    InitializeAudioKeeps(ReleaseTalkgroup(ReleaseSystem(s)));
  }

  lemma StopForPlayback(s: Scanner, id: nat)
    requires Consistent(s)
    ensures Keeps(s, Stop(CancelSkip(s.(browse := s.browse.(pending := id)))))
  {
    var b := s.(browse := s.browse.(pending := id));
    CancelSkipKeeps(b);
    StopKeeps(CancelSkip(b));
  }

  /** Starting archive playback releases a hold; inside playback nothing is held or released. */
  lemma LoadAndPlayKeeps(s: Scanner, id: nat)
    requires Consistent(s)
    ensures Consistent(LoadAndPlay(s, id)) && Quiet(s.deck, LoadAndPlay(s, id).deck)
    ensures Own(LoadAndPlay(s, id).holds) == Own(s.holds)
    ensures LoadAndPlay(s, id).holds == s.holds || !Held(LoadAndPlay(s, id).holds)
    ensures s.mode != Offline ==> Keeps(s, LoadAndPlay(s, id))
  {
    if id != 0 {
      StopForPlayback(s, id);
      var t := Stop(CancelSkip(s.(browse := s.browse.(pending := id))));
      if t.mode == Offline {
        EnterPlaybackKeeps(t.(mode := Playback));
      } else {
        InitializeAudioKeeps(t);
      }
    }
  }

  lemma LoadAndPlayHistoryKeeps(s: Scanner, id: nat)
    requires Consistent(s)
    ensures Keeps(s, LoadAndPlayHistory(s, id))
  {
    var b := s.(browse := s.browse.(historyPending := id));
    BrowseKeeps(s, b.browse);
    CancelSkipKeeps(b);
    InitializeAudioKeeps(CancelSkip(b));
  }

  lemma EndOfArchiveKeeps(s: Scanner, o: ListOptions)
    requires Consistent(s)
    ensures Keeps(s, EndOfArchive(s, o))
  {
    if s.browse.refreshing {
      LeaveModeKeeps(s.(browse := s.browse.(refreshing := false)));
      StartLivefeedKeeps(StopPlaybackMode(s));
    }
  }

  lemma PlaybackNextCallKeeps(s: Scanner)
    requires Consistent(s)
    ensures Keeps(s, PlaybackNextCall(s))
  {
    if s.deck.call.None? && s.mode == Playback && s.browse.list.Some? && s.browse.pending == 0 {
      match Continue(s.browse.list.value, s.previous)
      case Nothing =>
      case Fetch(id) => LoadAndPlayKeeps(s, id);
      case Page(_) =>
      case End(o) => EndOfArchiveKeeps(s, o);
    }
  }

  lemma ResumeKeeps(s: Scanner)
    requires Consistent(s)
    ensures Keeps(s, Resume(s))
  {
    if s.mode == Playback {
      PlaybackNextCallKeeps(s);
    } else {
      PlayCallKeeps(s, None);
    }
  }

  lemma SkipKeeps(s: Scanner, delay: bool)
    requires Consistent(s)
    ensures Keeps(s, Skip(s, delay))
  {
    StopKeeps(s);
    if delay {
      WaitKeeps(Stop(s).deck);
    } else {
      CancelSkipKeeps(Stop(s));
      ResumeKeeps(CancelSkip(Stop(s)));
    }
  }

  lemma CleanQueueKeeps(s: Scanner)
    requires Consistent(s)
    ensures Keeps(s, CleanQueue(s))
  {
    SkipKeeps(s.(queue := Filter((c: Call) => Active(s.holds.selection, c), s.queue)), false);
  }

  lemma DecodeDoneKeeps(s: Scanner, g: nat)
    requires Consistent(s)
    ensures Keeps(s, DecodeDone(s, g))
  {
    DropKeeps(s.deck, g);
    if g in s.deck.jobs {
      AlertKeeps(s.deck, g);
    }
  }

  lemma DecodeFailedKeeps(s: Scanner, g: nat)
    requires Consistent(s)
    ensures Keeps(s, DecodeFailed(s, g))
  {
    DropKeeps(s.deck, g);
    SkipKeeps(s.(deck := Drop(s.deck, g)), false);
  }

  /** The one step that starts a source: the end of the alert of the current generation,
      for the current call, with nothing else sounding. */
  lemma AlertDoneStarts(s: Scanner, g: nat)
    requires Consistent(s)
    ensures Consistent(AlertDone(s, g)) && AlertDone(s, g).holds == s.holds
    ensures s.deck.destroyed ==> AlertDone(s, g).deck.destroyed
    ensures AlertDone(s, g).deck.generation == s.deck.generation
    ensures
      || AlertDone(s, g).deck.started == s.deck.started
      || (&& g == s.deck.generation && s.deck.call.Some? && s.deck.sounding == {}
          && g in s.deck.jobs && s.deck.jobs[g].stage == Alerting
          && AlertDone(s, g).deck.started
             == s.deck.started + [Started(s.deck.call.value, g, s.deck.jobs[g].queue)])
  {
    if Fresh(s.deck, g) {
      SoundKeeps(s.deck, g);
    } else {
      DropKeeps(s.deck, g);
    }
  }

  lemma SourceEndedKeeps(s: Scanner, source: Source)
    requires Consistent(s)
    ensures Keeps(s, SourceEnded(s, source))
  {
    if source in s.deck.sounding {
      WaitKeeps(Stop(s.(deck := s.deck.(sounding := s.deck.sounding - {source}))).deck);
    }
  }

  lemma SkipTimerFiredKeeps(s: Scanner, t: nat)
    requires Consistent(s)
    ensures Keeps(s, SkipTimerFired(s, t))
  {
    if t in s.deck.timers {
      WakeKeeps(s.deck, t);
      ResumeKeeps(s.(deck := s.deck.(timers := s.deck.timers - {t}, skipDelay := None)));
    }
  }

  lemma CallReplyKeeps(s: Scanner, c: Call, flag: Option<Flag>)
    requires Consistent(s)
    ensures Keeps(s, CallReply(s, c, flag))
  {
    if flag == Some(History) {
      PlayCallKeeps(s.(browse := s.browse.(historyPending := 0)), Some(c));
    } else if flag == Some(Play) && c.id == s.browse.pending != 0 {
      QueueKeeps(s.(browse := s.browse.(pending := 0)), c, true);
    } else {
      QueueKeeps(s, c, false);
    }
  }

  lemma ShownKeeps(s: Scanner, browse: Browse)
    requires Consistent(s)
    ensures Keeps(s, s.(browse := browse)) && Keeps(s, PlaybackNextCall(s.(browse := browse)))
  {
    BrowseKeeps(s, browse);
    PlaybackNextCallKeeps(s.(browse := browse));
  }

  lemma ListReplyKeeps(s: Scanner, incoming: Option<PlaybackList>, flag: Option<Flag>)
    requires Consistent(s)
    ensures Keeps(s, ListReply(s, incoming, flag))
  {
    var shown := if s.browse.append && s.browse.list.Some? && incoming.Some?
                 then Some(Merged(s.browse.list.value, incoming.value)) else incoming;
    ShownKeeps(s, s.browse.(list := shown, append := false));
  }

  lemma BrowseKeeps(s: Scanner, browse: Browse)
    requires Consistent(s)
    ensures Keeps(s, s.(browse := browse))
  {
  }

  // ------------------------------------------------- operations that edit the selection

  lemma HoldSystemKeeps(s: Scanner)
    requires Consistent(s)
    ensures Consistent(HoldSystem(s, true)) && Quiet(s.deck, HoldSystem(s, true).deck)
    ensures Own(HoldSystem(s, true).holds) == Own(s.holds)
  {
    if Subject(s).Some? {
      ReleaseKeeps(s);
      if s.holds.system.None? {
        var m := ReleaseTalkgroup(s).holds.selection;
        var held := ReleaseTalkgroup(s).(holds := Holds(SystemOverlay(m, Subject(s).value.system), Some(m), None));
        assert Consistent(held);
        CleanQueueKeeps(held);
      }
    }
  }

  lemma HoldTalkgroupKeeps(s: Scanner)
    requires Consistent(s)
    ensures Consistent(HoldTalkgroup(s, true)) && Quiet(s.deck, HoldTalkgroup(s, true).deck)
    ensures Own(HoldTalkgroup(s, true).holds) == Own(s.holds)
  {
    if Subject(s).Some? {
      ReleaseKeeps(s);
      if s.holds.talkgroup.None? {
        var c := Subject(s).value;
        var m := ReleaseSystem(s).holds.selection;
        var held := ReleaseSystem(s).(holds := Holds(TalkgroupOverlay(m, c.system, c.talkgroup), None, Some(m)));
        assert Consistent(held);
        CleanQueueKeeps(held);
      }
    }
  }

  lemma AvoidKeeps(s: Scanner, target: AvoidTarget, status: Option<bool>)
    requires Consistent(s)
    ensures Consistent(Avoid(s, target, status)) && !Held(Avoid(s, target, status).holds)
    ensures Quiet(s.deck, Avoid(s, target, status).deck)
  {
    var m := AvoidedSelection(s.holds.selection, Subject(s), target, status);
    if m.Some? {
      CleanQueueKeeps(s.(holds := Holds(m.value, None, None)));
    }
  }

  lemma ToggleCategoryKeeps(s: Scanner, category: Category)
    requires Consistent(s)
    ensures Consistent(ToggleCategory(s, category)) && !Held(ToggleCategory(s, category).holds)
    ensures Quiet(s.deck, ToggleCategory(s, category).deck)
  {
    var m, members := s.holds.selection, Members(s.systems);
    var n := Untripped(m, category, members);
    var t := s.(holds := Holds(CategorySelection(m, members[..n], category), None, None));
    assert Consistent(t);
    CleanQueueKeeps(Sync(t));
  }

  // ------------------------------------------------------------------------- all runs

  /** The two operations that change the user's own selection. */
  predicate Edits(step: Step) {
    step.Choose? && (step.choice.AvoidCalls? || step.choice.SwitchCategory?)
  }

  /** `t` is consistent, has the holds of `s` or none and the same own selection, and started nothing. */
  ghost predicate KeepsOwn(s: Scanner, t: Scanner) {
    Consistent(t) && Quiet(s.deck, t.deck)
    && Own(t.holds) == Own(s.holds) && (t.holds == s.holds || !Held(t.holds))
  }

  lemma TransportKeeps(s: Scanner, c: Control)
    requires Consistent(s)
    requires c.PlayGivenCall? || c.ReplayCall? || c.StopCall? || c.SkipCall? || c.PauseListening? || c.Gesture?
      || c.Leave?
    ensures KeepsOwn(s, NextControl(s, c))
  {
    match c
    case PlayGivenCall(given) => PlayCallKeeps(s, given);
    case ReplayCall => PlayCallKeeps(s, Subject(s));
    case StopCall => StopKeeps(s);
    case SkipCall(delay) => SkipKeeps(s, delay);
    case PauseListening(status) => PauseKeeps(s, status);
    case Gesture => InitializeAudioKeeps(s);
    case Leave => DestroyPlayerKeeps(s);
  }

  lemma ModeControlKeeps(s: Scanner, c: Control)
    requires Consistent(s)
    requires c.LivefeedButton? || c.GoLive? || c.StopLive? || c.StopPlayback?
    ensures KeepsOwn(s, NextControl(s, c))
  {
    match c
    case LivefeedButton => ToggleLivefeedKeeps(s);
    case GoLive => StartLivefeedKeeps(s);
    case StopLive => LeaveModeKeeps(s);
    case StopPlayback => LeaveModeKeeps(s.(browse := s.browse.(refreshing := false)));
  }

  lemma RequestKeeps(s: Scanner, c: Control)
    requires Consistent(s)
    requires c.LoadCall? || c.LoadHistory? || c.SearchArchive?
    ensures KeepsOwn(s, NextControl(s, c))
  {
    match c
    case LoadCall(id) => LoadAndPlayKeeps(s, id);
    case LoadHistory(id) => LoadAndPlayHistoryKeeps(s, id);
    case SearchArchive(_, _) =>
  }

  lemma NextControlKeeps(s: Scanner, c: Control)
    requires Consistent(s)
    ensures KeepsOwn(s, NextControl(s, c))
  {
    if c.LoadCall? || c.LoadHistory? || c.SearchArchive? {
      RequestKeeps(s, c);
    } else if c.LivefeedButton? || c.GoLive? || c.StopLive? || c.StopPlayback? {
      ModeControlKeeps(s, c);
    } else {
      TransportKeeps(s, c);
    }
  }

  lemma NextChoiceKeeps(s: Scanner, c: Choice)
    requires Consistent(s)
    ensures Consistent(NextChoice(s, c)) && Quiet(s.deck, NextChoice(s, c).deck)
    ensures !Edits(Choose(c)) ==> Own(NextChoice(s, c).holds) == Own(s.holds)
  {
    match c
    case ToggleHoldSystem => HoldSystemKeeps(s);
    case ToggleHoldTalkgroup => HoldTalkgroupKeeps(s);
    case AvoidCalls(target, active) => AvoidKeeps(s, target, active);
    case SwitchCategory(category) => ToggleCategoryKeeps(s, category);
  }

  lemma NextEventKeeps(s: Scanner, e: Event)
    requires Consistent(s)
    ensures Consistent(NextEvent(s, e)) && NextEvent(s, e).holds == s.holds
    ensures !e.Alerted? ==> Quiet(s.deck, NextEvent(s, e).deck)
  {
    match e
    case Decoded(g) => DecodeDoneKeeps(s, g);
    case Undecodable(g) => DecodeFailedKeeps(s, g);
    case Alerted(g) => AlertDoneStarts(s, g);
    case Ended(source) => SourceEndedKeeps(s, source);
    case Woken(t) => SkipTimerFiredKeeps(s, t);
    case CallArrived(c, flag) => CallReplyKeeps(s, c, flag);
    case ListArrived(list, flag) => ListReplyKeeps(s, list, flag);
  }

  lemma NextKeeps(s: Scanner, step: Step)
    requires Consistent(s)
    ensures Consistent(Next(s, step))
    ensures !Edits(step) ==> Own(Next(s, step).holds) == Own(s.holds)
  {
    match step
    case Do(c) => NextControlKeeps(s, c);
    case Choose(c) => NextChoiceKeeps(s, c);
    case Get(e) => NextEventKeeps(s, e);
  }

  /** Every run from a consistent state, the initial one in particular, stays consistent. */
  lemma {:induction false} RunKeeps(s: Scanner, steps: seq<Step>)
    requires Consistent(s)
    ensures Consistent(Run(s, steps))
    decreases |steps|
  {
    if steps != [] {
      RunKeeps(s, steps[..|steps| - 1]);
      NextKeeps(Run(s, steps[..|steps| - 1]), steps[|steps| - 1]);
    }
  }
}
