/** The player as the object the listener's page holds: its fields change in place, and
    every method is proved to take its state where the functions of ScannerModel say. */
module ScannerService {
  import opened Prelude
  import opened ScannerModel
  import opened ScannerInvariant
  import opened SelectionEdits

  /** Switches every talkgroup of a system, or each to its opposite when no status is given. */
  method SwitchSystem(talkgroups: Talkgroups, status: Option<bool>) returns (r: Talkgroups)
    ensures r == map tg | tg in talkgroups :: if status.Some? then status.value else !talkgroups[tg]
  {
    r := talkgroups;
    var pending := talkgroups.Keys;
    while pending != {}
      invariant pending <= talkgroups.Keys == r.Keys
      invariant forall tg :: tg in pending ==> r[tg] == talkgroups[tg]
      invariant forall tg :: tg in talkgroups && tg !in pending
                  ==> r[tg] == if status.Some? then status.value else !talkgroups[tg]
      decreases pending
    {
      HasElement(pending);
      var tg :| tg in pending;
      r := r[tg := if status.Some? then status.value else !r[tg]];
      pending := pending - {tg};
    }
    MapsEqual(r, map tg | tg in talkgroups :: if status.Some? then status.value else !talkgroups[tg]);
  }

  method SwitchAll(selection: LivefeedMap, active: bool) returns (r: LivefeedMap)
    ensures r == map sys | sys in selection :: map tg | tg in selection[sys] :: active
  {
    r := selection;
    var pending := selection.Keys;
    while pending != {}
      invariant pending <= selection.Keys == r.Keys
      invariant forall sys :: sys in pending ==> r[sys] == selection[sys]
      invariant forall sys :: sys in selection && sys !in pending
                  ==> r[sys] == map tg | tg in selection[sys] :: active
      decreases pending
    {
      HasElement(pending);
      var sys :| sys in pending;
      var talkgroups := SwitchSystem(r[sys], Some(active));
      r := r[sys := talkgroups];
      pending := pending - {sys};
    }
    MapsEqual(r, map sys | sys in selection :: map tg | tg in selection[sys] :: active);
  }

  /** True when no talkgroup of the system is on. */
  method EveryOff(talkgroups: Talkgroups) returns (allOff: bool)
    ensures allOff == AllOff(talkgroups)
  {
    var pending := talkgroups.Keys;
    while pending != {}
      invariant pending <= talkgroups.Keys
      invariant forall tg :: tg in talkgroups && tg !in pending ==> !talkgroups[tg]
      decreases pending
    {
      HasElement(pending);
      var tg :| tg in pending;
      if talkgroups[tg] {
        return false;
      }
      pending := pending - {tg};
    }
    return true;
  }

  /** The map a system hold listens by, built entry by entry. */
  method OverlaySystem(base: LivefeedMap, system: int) returns (r: LivefeedMap)
    ensures r == SystemOverlay(base, system)
  {
    r := map[];
    var pending := base.Keys;
    while pending != {}
      invariant pending <= base.Keys && r.Keys == base.Keys - pending
      invariant forall sys :: sys in r ==> r[sys] == SystemOverlay(base, system)[sys]
      decreases pending
    {
      HasElement(pending);
      var sys :| sys in pending;
      var allOff := EveryOff(base[sys]);
      var row := OverlayRow(base[sys], sys == system, allOff);
      r := r[sys := row];
      pending := pending - {sys};
    }
    MapsEqual(r, SystemOverlay(base, system));
  }

  method OverlayRow(talkgroups: Talkgroups, held: bool, allOff: bool) returns (r: Talkgroups)
    ensures r == map tg | tg in talkgroups :: held && (allOff || talkgroups[tg])
  {
    r := map[];
    var pending := talkgroups.Keys;
    while pending != {}
      invariant pending <= talkgroups.Keys && r.Keys == talkgroups.Keys - pending
      invariant forall tg :: tg in r ==> r[tg] == (held && (allOff || talkgroups[tg]))
      decreases pending
    {
      HasElement(pending);
      var tg :| tg in pending;
      r := r[tg := if held then allOff || talkgroups[tg] else false];
      pending := pending - {tg};
    }
    MapsEqual(r, map tg | tg in talkgroups :: held && (allOff || talkgroups[tg]));
  }

  /** The map a talkgroup hold listens by, built entry by entry. */
  method OverlayTalkgroup(base: LivefeedMap, system: int, talkgroup: int) returns (r: LivefeedMap)
    ensures r == TalkgroupOverlay(base, system, talkgroup)
  {
    r := map[];
    var pending := base.Keys;
    while pending != {}
      invariant pending <= base.Keys && r.Keys == base.Keys - pending
      invariant forall sys :: sys in r ==> r[sys] == TalkgroupOverlay(base, system, talkgroup)[sys]
      decreases pending
    {
      HasElement(pending);
      var sys :| sys in pending;
      var row := OnlyTalkgroup(base[sys], sys == system, talkgroup);
      r := r[sys := row];
      pending := pending - {sys};
    }
    MapsEqual(r, TalkgroupOverlay(base, system, talkgroup));
  }

  method OnlyTalkgroup(talkgroups: Talkgroups, held: bool, talkgroup: int) returns (r: Talkgroups)
    ensures r == map tg | tg in talkgroups :: held && tg == talkgroup
  {
    r := map[];
    var pending := talkgroups.Keys;
    while pending != {}
      invariant pending <= talkgroups.Keys && r.Keys == talkgroups.Keys - pending
      invariant forall tg :: tg in r ==> r[tg] == (held && tg == talkgroup)
      decreases pending
    {
      HasElement(pending);
      var tg :| tg in pending;
      r := r[tg := if held then tg == talkgroup else false];
      pending := pending - {tg};
    }
    MapsEqual(r, map tg | tg in talkgroups :: held && tg == talkgroup);
  }

  /** `r` is `m` with the categorised talkgroups among the first `n` members switched. */
  ghost predicate Switched(m: LivefeedMap, r: LivefeedMap, members: seq<Member>, n: nat, category: Category)
    requires n <= |members|
  {
    && r.Keys == m.Keys
    && (forall sys :: sys in m ==> r[sys].Keys == m[sys].Keys)
    && (forall sys, tg :: sys in m && tg in m[sys]
          ==> r[sys][tg] == if Categorised(members[..n], category, sys, tg) then category.status != On else m[sys][tg])
  }

  lemma SwitchedIsSelection(m: LivefeedMap, r: LivefeedMap, members: seq<Member>, n: nat, category: Category)
    requires n <= |members| && Switched(m, r, members, n, category)
    ensures r == CategorySelection(m, members[..n], category)
  {
    var t := CategorySelection(m, members[..n], category);
    forall sys | sys in m
      ensures r[sys] == t[sys]
    {
      MapsEqual(r[sys], t[sys]);
    }
    MapsEqual(r, t);
  }

  /** The first `n` members are gone through without failing. */
  ghost predicate Passed(m: LivefeedMap, r: LivefeedMap, members: seq<Member>, n: nat, category: Category) {
    n <= |members| && Switched(m, r, members, n, category) && forall j :: 0 <= j < n ==> !Trips(m, category, members[j])
  }

  lemma PassOne(m: LivefeedMap, r: LivefeedMap, members: seq<Member>, n: nat, category: Category)
    requires n < |members| && Passed(m, r, members, n, category)
    ensures Trips(m, category, members[n]) <==> Trips(r, category, members[n])
    ensures Trips(m, category, members[n]) ==>
      Untripped(m, category, members) == n && r == CategorySelection(m, members[..n], category)
    ensures var x := members[n];
      !Trips(m, category, x) ==>
        Passed(m,
          if InCategory(category, x.talkgroup) then r[x.system := r[x.system][x.talkgroup.id := category.status != On]]
          else r,
          members, n + 1, category)
  {
    if Trips(m, category, members[n]) {
      FindIs((x: Member) => Trips(m, category, x), members, n);
      SwitchedIsSelection(m, r, members, n, category);
    }
  }

  lemma PassedAll(m: LivefeedMap, r: LivefeedMap, members: seq<Member>, category: Category)
    requires Passed(m, r, members, |members|, category)
    ensures Untripped(m, category, members) == |members|
    ensures r == CategorySelection(m, members[..|members|], category)
  {
    SwitchedIsSelection(m, r, members, |members|, category);
  }

  /** Switches the category's talkgroups of one system; false when it comes to one the selection does
      not have and the source throws. */
  method SwitchListed(m: LivefeedMap, before: LivefeedMap, config: SystemConfig, category: Category,
      ghost members: seq<Member>, ghost start: nat)
    returns (r: LivefeedMap, ok: bool)
    requires Passed(m, before, members, start, category)
    requires StandsAt(members, start, MembersOf(config))
    ensures ok ==> Passed(m, r, members, start + |config.talkgroups|, category)
    ensures !ok ==> var n := Untripped(m, category, members);
      n < |members| && r == CategorySelection(m, members[..n], category)
  {
    r := before;
    for k := 0 to |config.talkgroups|
      invariant Passed(m, r, members, start + k, category)
    {
      var sys, tg := config.id, config.talkgroups[k];
      PassOne(m, r, members, start + k, category);
      if sys !in r || (InCategory(category, tg) && tg.id !in r[sys]) {
        return r, false;
      }
      if InCategory(category, tg) {
        r := r[sys := r[sys][tg.id := category.status != On]];
      }
    }
    return r, true;
  }

  /** Switches the category's talkgroups, system by system; false when it comes to one the selection
      does not have and the source throws. */
  method SwitchMembers(m: LivefeedMap, systems: seq<SystemConfig>, category: Category)
    returns (r: LivefeedMap, ok: bool)
    ensures var members := Members(systems);
      var n := Untripped(m, category, members);
      r == CategorySelection(m, members[..n], category) && ok == (n == |members|)
  {
    r := m;
    ghost var members := Members(systems);
    for i := 0 to |systems|
      invariant |Members(systems[..i])| <= |members|
      invariant Passed(m, r, members, |Members(systems[..i])|, category)
    {
      MembersAt(systems, i);
      MembersGrow(systems, i);
      r, ok := SwitchListed(m, r, systems[i], category, members, |Members(systems[..i])|);
      if !ok {
        return;
      }
    }
    assert systems[..|systems|] == systems;
    PassedAll(m, r, members, category);
    return r, true;
  }

  /** The source's fields, grouped: `deck` holds the audio ones and the browser's side of
      them, `holds` the selection and the two saved ones, `browse` the archive listing and
      the requests about it. */
  class EmberScannerService {
    var deck: Deck
    var holds: Holds
    var browse: Browse
    var callPrevious: Option<Call>
    var callQueue: seq<Call>
    var livefeedMode: Mode
    var livefeedPaused: bool
    var outbox: seq<Message>
    const playbackGoesLive: bool
    const systems: seq<SystemConfig>

    function State(): Scanner
      reads this
    {
      Scanner(deck, holds, browse, livefeedMode, livefeedPaused, callPrevious, callQueue, playbackGoesLive, systems,
              outbox)
    }

    ghost predicate Valid()
      reads this
    {
      Consistent(State())
    }

    constructor (selection: LivefeedMap, goesLive: bool, systems: seq<SystemConfig>)
      ensures State() == Initial(selection, goesLive, systems) && Valid()
    {
      deck := Deck(false, false, None, 0, None, None, map[], {}, {}, 0, []);
      holds := Holds(selection, None, None);
      browse := Browse(None, 0, false, false, 0);
      livefeedMode, livefeedPaused, callPrevious, callQueue, outbox := Offline, false, None, [], [];
      playbackGoesLive, this.systems := goesLive, systems;
    }

    // Every handler keeps the object valid, starts no source unless it is the end of an alert, and
    // keeps the listener's own selection unless it edits it. The few steps that run in the middle of a
    // handler promise their new state only.

    // ------------------------------------------------------------- audio control

    method InitAudio()
      modifies this
      ensures State() == InitializeAudio(old(State()))
      ensures old(Valid()) ==> Keeps(old(State()), State())
    {
      if Valid() { InitializeAudioKeeps(State()); }
      if deck.destroyed { return; }
      deck := deck.(context := true);
    }

    method SyncLivefeedMap()
      modifies this`outbox
      ensures State() == Sync(old(State()))
    {
      outbox := outbox + [SelectionSync(holds.selection)];
    }

    method UnsubscribeSkip()
      modifies this
      ensures State() == CancelSkip(old(State()))
    {
      if deck.skipDelay.Some? {
        deck := deck.(timers := deck.timers - {deck.skipDelay.value}, skipDelay := None);
      }
    }

    method Stop()
      modifies this
      ensures State() == ScannerModel.Stop(old(State()))
      ensures old(Valid()) ==> Keeps(old(State()), State()) && deck.sounding == {}
    {
      if Valid() { StopKeeps(State()); }
      deck := deck.(generation := deck.generation + 1);
      if deck.source.Some? {
        deck := deck.(sounding := deck.sounding - {deck.source.value}, source := None);
      }
      if deck.call.Some? {
        callPrevious := deck.call;
        deck := deck.(call := None);
      }
    }

    method GetPlaybackQueueCount() returns (queueCount: int)
      ensures queueCount == PlaybackQueueCount(State())
    {
      queueCount := 0;
      var id := if deck.call.Some? && deck.call.value.id != 0 then deck.call.value.id
                else if callPrevious.Some? then callPrevious.value.id else 0;
      if id != 0 && browse.list.Some? {
        var index := IndexOf(browse.list.value.results, id);
        if index != -1 {
          if browse.list.value.options.sort == -1 {
            queueCount := browse.list.value.options.offset + index;
          } else {
            queueCount := browse.list.value.count - browse.list.value.options.offset - index - 1;
          }
        }
      }
    }

    method DecodeCurrent()
      requires deck.call.Some?
      modifies this
      ensures State() == BeginDecode(old(State()))
    {
      var queue: int := |callQueue|;
      if livefeedMode == Mode.Playback {
        queue := GetPlaybackQueueCount();
      }
      deck := deck.(generation := deck.generation + 1);
      deck := deck.(jobs := deck.jobs[deck.generation := Job(deck.call.value, queue, Decoding)]);
    }

    method PlayNow(c: Call)
      requires Valid() && deck.skipDelay.None? && !deck.destroyed
      modifies this
      ensures State() == PlayGiven(old(State()), c)
      ensures Keeps(old(State()), State())
    {
      PlayGivenKeeps(State(), c);
      if deck.call.Some? {
        Stop();
      }
      deck := deck.(call := Some(c));
      DecodeCurrent();
    }

    method PlayFromQueue()
      requires Valid() && deck.skipDelay.None? && !deck.destroyed
      modifies this
      ensures State() == PlayQueued(old(State()))
      ensures Keeps(old(State()), State())
    {
      PlayQueuedKeeps(State());
      if deck.call.Some? || callQueue == [] {
        return;
      }
      deck := deck.(call := Some(callQueue[0]));
      callQueue := callQueue[1..];
      if deck.call.value.audio {
        DecodeCurrent();
      }
    }

    method Play(given: Option<Call>)
      requires Valid()
      modifies this
      ensures State() == PlayCall(old(State()), given)
      ensures Valid() && Keeps(old(State()), State())
    {
      PlayCallKeeps(State(), given);
      if deck.destroyed { return; }
      if given.Some? && given.value.audio {
        InitAudio();
      }
      if !deck.context || livefeedPaused || deck.skipDelay.Some? {
        return;
      } else if given.Some? && given.value.audio {
        PlayNow(given.value);
      } else {
        PlayFromQueue();
      }
    }

    method ReplayLast()
      requires Valid()
      modifies this
      ensures State() == Replay(old(State()))
      ensures Valid() && Keeps(old(State()), State())
    {
      Play(if deck.call.Some? then deck.call else callPrevious);
    }

    method Enqueue(c: Call, priority: bool)
      requires Valid()
      modifies this
      ensures State() == Queue(old(State()), c, priority)
      ensures Valid() && Keeps(old(State()), State())
    {
      QueueKeeps(State(), c, priority);
      if !c.audio || livefeedMode == Offline {
        return;
      }
      if priority {
        callQueue := [c] + callQueue;
      } else {
        callQueue := callQueue + [c];
      }
      if deck.context && deck.source.None? && deck.call.None? && !livefeedPaused && deck.skipDelay.None? {
        Play(None);
      }
    }

    method SetPause(status: bool)
      requires Valid()
      modifies this
      ensures State() == Pause(old(State()), status)
      ensures Valid() && Keeps(old(State()), State())
    {
      PauseKeeps(State(), status);
      livefeedPaused := status;
      if !status {
        InitAudio();
        Play(None);
      }
    }

    // ------------------------------------------------------------------ modes

    method GoOnline()
      requires Valid()
      modifies this
      ensures State() == StartLivefeed(old(State()))
      ensures Valid() && Keeps(old(State()), State())
    {
      StartLivefeedKeeps(State());
      livefeedMode, livefeedPaused := Online, false;
      InitAudio();
      SyncLivefeedMap();
    }

    method LeaveListening()
      requires Valid()
      modifies this
      ensures State() == LeaveMode(old(State()))
      ensures Valid() && Keeps(old(State()), State())
    {
      LeaveModeKeeps(State());
      livefeedMode := Offline;
      browse := browse.(historyPending := 0, pending := 0);
      UnsubscribeSkip();
      callQueue := [];
      Stop();
    }

    method GoOffline()
      requires Valid()
      modifies this
      ensures State() == ScannerModel.StopLivefeed(old(State()))
      ensures Valid() && Keeps(old(State()), State())
    {
      LeaveListening();
      SyncLivefeedMap();
    }

    method LeavePlayback()
      requires Valid()
      modifies this
      ensures State() == StopPlaybackMode(old(State()))
      ensures Valid() && Keeps(old(State()), State())
    {
      BrowseKeeps(State(), browse.(refreshing := false));
      browse := browse.(refreshing := false);
      LeaveListening();
    }

    method Livefeed()
      requires Valid()
      modifies this
      ensures State() == ToggleLivefeed(old(State()))
      ensures Valid() && Keeps(old(State()), State())
    {
      match livefeedMode
      case Offline => GoOnline();
      case Online => GoOffline();
      case Playback => LeavePlayback();
    }

    method OnDestroy()
      requires Valid()
      modifies this
      ensures State() == Destroy(old(State()))
      ensures Valid() && Keeps(old(State()), State()) && deck.destroyed
    {
      DestroyPlayerKeeps(State());
      deck := deck.(destroyed := true);
      if deck.skipDelay.Some? {
        deck := deck.(timers := deck.timers - {deck.skipDelay.value});
      }
      Stop();
    }

    // --------------------------------------------------------- archive playback

    method SearchArchive(options: ListOptions, append: bool)
      requires Valid()
      modifies this
      ensures State() == SearchCalls(old(State()), options, append)
      ensures Valid() && Keeps(old(State()), State())
    {
      BrowseKeeps(State(), browse.(append := append));
      browse := browse.(append := append);
      outbox := outbox + [ListRequest(options)];
    }

    method LoadAndPlay(id: nat)
      requires Valid()
      modifies this
      ensures State() == ScannerModel.LoadAndPlay(old(State()), id)
      ensures Valid() && KeepsOwn(old(State()), State())
      ensures old(livefeedMode) != Offline ==> Keeps(old(State()), State())
      decreases if livefeedMode == Offline then 10 else 0
    {
      LoadAndPlayKeeps(State(), id);
      if id == 0 {
        return;
      }
      StopFor(id);
      if livefeedMode == Offline {
        EnterPlayback();
      }
      InitAudio();
      outbox := outbox + [CallRequest(id, Flag.Play)];
    }

    method StopFor(id: nat)
      requires Valid()
      modifies this
      ensures State() == ScannerModel.Stop(CancelSkip(old(State()).(browse := old(browse).(pending := id))))
      ensures Valid() && livefeedMode == old(livefeedMode)
    {
      StopForPlayback(State(), id);
      UnsubscribeSkip();
      browse := browse.(pending := id);
      Stop();
    }

    method EnterPlayback()
      requires Valid()
      modifies this
      ensures State() == ReleaseTalkgroup(ReleaseSystem(old(State()).(mode := Mode.Playback)))
      ensures Sane(State())
      decreases 9
    {
      livefeedMode := Mode.Playback;
      ReleaseKeeps(State());
      ReleaseKeeps(ReleaseSystem(State()));
      if holds.system.Some? {
        HoldSystem(false);
      }
      if holds.talkgroup.Some? {
        HoldTalkgroup(false);
      }
    }

    method LoadAndPlayHistory(id: nat)
      requires Valid()
      modifies this
      ensures State() == ScannerModel.LoadAndPlayHistory(old(State()), id)
      ensures Valid() && Keeps(old(State()), State())
    {
      LoadAndPlayHistoryKeeps(State(), id);
      if id == 0 {
        return;
      }
      UnsubscribeSkip();
      browse := browse.(historyPending := id);
      InitAudio();
      outbox := outbox + [CallRequest(id, History)];
    }

    method FinishArchive(options: ListOptions)
      requires Valid()
      modifies this
      ensures State() == EndOfArchive(old(State()), options)
      ensures Valid() && Keeps(old(State()), State())
    {
      EndOfArchiveKeeps(State(), options);
      if browse.refreshing {
        LeavePlayback();
        if playbackGoesLive {
          GoOnline();
        }
      } else {
        BrowseKeeps(State(), browse.(refreshing := true));
        browse := browse.(refreshing := true);
        SearchArchive(options, false);
      }
    }

    method NextPlayback()
      requires Valid()
      modifies this
      ensures State() == PlaybackNextCall(old(State()))
      ensures Valid() && Keeps(old(State()), State())
      decreases 1, 1
    {
      if deck.call.Some? || livefeedMode != Mode.Playback || browse.list.None? || browse.pending != 0 {
        return;
      }
      var results := browse.list.value.results;
      var index := if callPrevious.Some? then IndexOf(results, callPrevious.value.id) else -1;
      if |results| == 0 {
        return;
      }
      if browse.list.value.options.sort == -1 {
        NextTowardsFront(browse.list.value, index);
      } else {
        NextTowardsBack(browse.list.value, index);
      }
    }

    /** Newest first, playback goes up the listing. */
    method NextTowardsFront(list: PlaybackList, index: int)
      requires Valid() && AtRow(list, index) && list.options.sort == -1
      modifies this
      ensures State() == PlaybackNextCall(old(State()))
      ensures Valid() && Keeps(old(State()), State())
      decreases 1, 0
    {
      var options := list.options;
      if index == -1 {
        LoadAndPlay(list.results[|list.results| - 1].id);
      } else if index == 0 {
        if options.offset < options.limit {
          FinishArchive(options);
        } else {
          SearchArchive(options.(offset := options.offset - options.limit), false);
        }
      } else {
        LoadAndPlay(list.results[index - 1].id);
      }
    }

    /** Oldest first, playback goes down the listing. */
    method NextTowardsBack(list: PlaybackList, index: int)
      requires Valid() && AtRow(list, index) && list.options.sort != -1
      modifies this
      ensures State() == PlaybackNextCall(old(State()))
      ensures Valid() && Keeps(old(State()), State())
      decreases 1, 0
    {
      var options := list.options;
      if index == -1 {
        LoadAndPlay(list.results[0].id);
      } else if index == |list.results| - 1 {
        if options.offset < list.count - options.limit {
          SearchArchive(options.(offset := options.offset + options.limit), false);
        } else {
          FinishArchive(options);
        }
      } else {
        LoadAndPlay(list.results[index + 1].id);
      }
    }

    /** Idle in archive playback, with the previous call in that row of the listing on screen. */
    predicate AtRow(list: PlaybackList, index: int)
      reads this
    {
      && deck.call.None? && livefeedMode == Mode.Playback && browse.list == Some(list) && browse.pending == 0
      && |list.results| > 0
      && index == if callPrevious.Some? then IndexOf(list.results, callPrevious.value.id) else -1
    }

    method PlayOn()
      requires Valid()
      modifies this
      ensures State() == Resume(old(State()))
      ensures Valid() && Keeps(old(State()), State())
      decreases 2
    {
      if livefeedMode == Mode.Playback {
        NextPlayback();
      } else {
        Play(None);
      }
    }

    method Skip(delay: bool)
      requires Valid()
      modifies this
      ensures State() == ScannerModel.Skip(old(State()), delay)
      ensures Valid() && Keeps(old(State()), State())
      decreases 3
    {
      SkipKeeps(State(), delay);
      Stop();
      CancelSkipKeeps(State());
      if delay {
        deck := deck.(skipDelay := Some(deck.nextTimer), timers := deck.timers + {deck.nextTimer},
                      nextTimer := deck.nextTimer + 1);
      } else {
        UnsubscribeSkip();
        PlayOn();
      }
    }

    // ------------------------------------------------------------ the selection

    method CleanQueue()
      requires Valid()
      modifies this
      ensures State() == ScannerModel.CleanQueue(old(State()))
      ensures Valid() && Keeps(old(State()), State())
      decreases 4
    {
      var m := holds.selection;
      callQueue := Filter((c: Call) => Active(m, c), callQueue);
      if deck.call.Some? && !Active(m, deck.call.value) {
        Skip(false);
      }
    }

    method HoldSystem(resubscribe: bool)
      requires Sane(State()) && (holds.system.None? ==> Valid())
      modifies this
      ensures State() == ScannerModel.HoldSystem(old(State()), resubscribe)
      ensures Sane(State()) && Own(holds) == Own(old(holds)) && Quiet(old(deck), deck)
      ensures old(Valid()) ==> Valid()
      decreases if holds.system.Some? then 6 else 8
    {
      HoldSystemKeepsSane(State(), resubscribe);
      var subject := if deck.call.Some? then deck.call else callPrevious;
      if subject.None? {
        return;
      }
      TurnSystemHold(subject.value);
      if resubscribe {
        SyncLivefeedMap();
      }
    }

    method TurnSystemHold(c: Call)
      requires Sane(State()) && (holds.system.None? ==> Valid()) && Subject(State()) == Some(c)
      modifies this
      ensures State() == ScannerModel.HoldSystem(old(State()), false)
      decreases if holds.system.Some? then 5 else 7
    {
      if holds.system.Some? {
        holds := holds.(selection := holds.system.value, system := None);
      } else {
        if holds.talkgroup.Some? {
          HoldTalkgroup(false);
        }
        HoldThisSystem(c.system);
      }
    }

    method HoldThisSystem(system: int)
      requires Valid() && !Held(holds) && Subject(State()).Some?
      modifies this
      ensures var m := old(holds.selection);
        State() == ScannerModel.CleanQueue(old(State()).(holds := Holds(SystemOverlay(m, system), Some(m), None)))
      decreases 5
    {
      ReleasedCanHold(State());
      holds := holds.(system := Some(holds.selection));
      var overlay := OverlaySystem(holds.selection, system);
      holds := holds.(selection := overlay);
      CleanQueue();
    }

    method HoldThisTalkgroup(system: int, talkgroup: int)
      requires Valid() && !Held(holds) && Subject(State()).Some?
      modifies this
      ensures var m := old(holds.selection);
        State() == ScannerModel.CleanQueue(
          old(State()).(holds := Holds(TalkgroupOverlay(m, system, talkgroup), None, Some(m))))
      decreases 5
    {
      ReleasedCanHold(State());
      holds := holds.(talkgroup := Some(holds.selection));
      var overlay := OverlayTalkgroup(holds.selection, system, talkgroup);
      holds := holds.(selection := overlay);
      CleanQueue();
    }

    method HoldTalkgroup(resubscribe: bool)
      requires Sane(State()) && (holds.talkgroup.None? ==> Valid())
      modifies this
      ensures State() == ScannerModel.HoldTalkgroup(old(State()), resubscribe)
      ensures Sane(State()) && Own(holds) == Own(old(holds)) && Quiet(old(deck), deck)
      ensures old(Valid()) ==> Valid()
      decreases if holds.talkgroup.Some? then 6 else 8
    {
      HoldTalkgroupKeepsSane(State(), resubscribe);
      var subject := if deck.call.Some? then deck.call else callPrevious;
      if subject.None? {
        return;
      }
      TurnTalkgroupHold(subject.value);
      if resubscribe {
        SyncLivefeedMap();
      }
    }

    method TurnTalkgroupHold(c: Call)
      requires Sane(State()) && (holds.talkgroup.None? ==> Valid()) && Subject(State()) == Some(c)
      modifies this
      ensures State() == ScannerModel.HoldTalkgroup(old(State()), false)
      decreases if holds.talkgroup.Some? then 5 else 7
    {
      if holds.talkgroup.Some? {
        holds := holds.(selection := holds.talkgroup.value, talkgroup := None);
      } else {
        if holds.system.Some? {
          HoldSystem(false);
        }
        HoldThisTalkgroup(c.system, c.talkgroup);
      }
    }

    method AvoidEntry(system: int, talkgroup: int, status: Option<bool>)
      requires system in holds.selection && talkgroup in holds.selection[system]
      modifies this`holds
      ensures holds == old(holds).(selection := SetEntry(old(holds.selection), system, talkgroup,
                if status.Some? then status.value else !old(holds.selection)[system][talkgroup]))
    {
      var active := if status.Some? then status.value else !holds.selection[system][talkgroup];
      holds := holds.(selection := holds.selection[system := holds.selection[system][talkgroup := active]]);
    }

    /** False when the entry to change is missing and the source throws. */
    method EditSelection(target: AvoidTarget, status: Option<bool>) returns (ok: bool)
      modifies this`holds
      ensures var m := AvoidedSelection(old(holds.selection), Subject(old(State())), target, status);
        ok == m.Some? && holds == if m.Some? then old(holds).(selection := m.value) else old(holds)
    {
      match target
      case All(all) =>
        var m := SwitchAll(holds.selection, if status.Some? then status.value else all);
        holds := holds.(selection := m);
        return true;
      case Entry(system, talkgroup) =>
        if system !in holds.selection || talkgroup !in holds.selection[system] { return false; }
        AvoidEntry(system, talkgroup, status);
        return true;
      case WholeSystem(id) =>
        if id !in holds.selection { return false; }
        var talkgroups := SwitchSystem(holds.selection[id], status);
        holds := holds.(selection := holds.selection[id := talkgroups]);
        return true;
      case Current =>
        var subject := if deck.call.Some? then deck.call else callPrevious;
        if subject.None? { return true; }
        var c := subject.value;
        if c.system !in holds.selection || c.talkgroup !in holds.selection[c.system] { return false; }
        AvoidEntry(c.system, c.talkgroup, status);
        return true;
    }

    method Avoid(target: AvoidTarget, status: Option<bool>)
      requires Valid()
      modifies this
      ensures State() == ScannerModel.Avoid(old(State()), target, status)
      ensures Valid() && !Held(holds) && Quiet(old(deck), deck)
    {
      AvoidKeeps(State(), target, status);
      ghost var start := State();
      holds := holds.(system := None, talkgroup := None);
      var ok := EditSelection(target, status);
      if !ok {
        return;
      }
      UnheldKeeps(start, holds.selection);
      ApplyEdit();
    }

    method ApplyEdit()
      requires Valid()
      modifies this
      ensures var s := old(State());
        State() == ScannerModel.Sync(if s.mode != Mode.Playback then ScannerModel.CleanQueue(s) else s)
    {
      if livefeedMode != Mode.Playback {
        CleanQueue();
      }
      SyncLivefeedMap();
    }

    method ToggleCategory(category: Category)
      requires Valid()
      modifies this
      ensures State() == ScannerModel.ToggleCategory(old(State()), category)
      ensures Valid() && !Held(holds) && Quiet(old(deck), deck)
    {
      ToggleCategoryKeeps(State(), category);
      ghost var start := State();
      holds := holds.(system := None, talkgroup := None);
      var m, ok := SwitchMembers(holds.selection, systems, category);
      holds := holds.(selection := m);
      if !ok {
        return;
      }
      UnheldKeeps(start, m);
      SyncLivefeedMap();
      CleanQueue();
    }

    // --------------------------------------------------------------- callbacks

    method OnDecoded(callToPlay: Call, generation: nat)
      requires Valid()
      requires generation in deck.jobs && deck.jobs[generation].call == callToPlay
        && deck.jobs[generation].stage == Decoding
      modifies this
      ensures State() == DecodeDone(old(State()), generation)
      ensures Valid() && Keeps(old(State()), State())
    {
      DecodeDoneKeeps(State(), generation);
      if !deck.context || deck.source.Some? || deck.call != Some(callToPlay) || generation != deck.generation {
        deck := deck.(jobs := deck.jobs - {generation});
        return;
      }
      deck := deck.(jobs := deck.jobs[generation := deck.jobs[generation].(stage := Alerting)]);
    }

    /** The only handler that starts a source, and only for the current call under the current
        generation, with nothing else sounding. */
    method OnAlertDone(callToPlay: Call, generation: nat, queue: int)
      requires Valid()
      requires generation in deck.jobs && deck.jobs[generation] == Job(callToPlay, queue, Alerting)
      modifies this
      ensures State() == AlertDone(old(State()), generation)
      ensures Valid() && holds == old(holds)
      ensures deck.started == old(deck).started
        || (&& deck.started == old(deck).started + [Started(callToPlay, generation, queue)]
            && generation == old(deck).generation && deck.call == Some(callToPlay) && old(deck).sounding == {})
    {
      AlertDoneStarts(State(), generation);
      deck := deck.(jobs := deck.jobs - {generation});
      if !deck.context || deck.source.Some? || deck.call != Some(callToPlay) || generation != deck.generation {
        return;
      }
      var source := Source(callToPlay, generation);
      deck := deck.(source := Some(source), sounding := deck.sounding + {source},
                    started := deck.started + [Started(callToPlay, generation, queue)]);
    }

    method OnDecodeFailed(callToPlay: Call, generation: nat)
      requires Valid()
      requires generation in deck.jobs && deck.jobs[generation].call == callToPlay
        && deck.jobs[generation].stage == Decoding
      modifies this
      ensures State() == DecodeFailed(old(State()), generation)
      ensures Valid() && Keeps(old(State()), State())
    {
      DropKeeps(deck, generation);
      deck := deck.(jobs := deck.jobs - {generation});
      if deck.call != Some(callToPlay) || generation != deck.generation {
        return;
      }
      Skip(false);
    }

    /** What ended is out of the sounding sources before the callback or after it, all the same. */
    method OnEnded(source: Source)
      requires Valid()
      requires source in deck.sounding
      modifies this
      ensures State() == SourceEnded(old(State()), source)
      ensures Valid() && Keeps(old(State()), State())
    {
      SourceEndedKeeps(State(), source);
      EndedIsSilenced(State(), source);
      Skip(true);
    }

    method OnSkipTimer(timer: nat)
      requires Valid()
      requires timer in deck.timers
      modifies this
      ensures State() == SkipTimerFired(old(State()), timer)
      ensures Valid() && Keeps(old(State()), State())
    {
      SkipTimerFiredKeeps(State(), timer);
      WakeKeeps(deck, timer);
      deck := deck.(timers := deck.timers - {timer}, skipDelay := None);
      PlayOn();
    }

    method OnCall(c: Call, flag: Option<Flag>)
      requires Valid()
      modifies this
      ensures State() == CallReply(old(State()), c, flag)
      ensures Valid() && Keeps(old(State()), State())
    {
      BrowseKeeps(State(), browse.(historyPending := 0));
      BrowseKeeps(State(), browse.(pending := 0));
      if flag == Some(Download) {
      } else if flag == Some(History) {
        if browse.historyPending != 0 && c.id == browse.historyPending {
          browse := browse.(historyPending := 0);
          Play(Some(c));
        }
      } else if flag == Some(Flag.Play) && browse.pending != 0 && c.id == browse.pending {
        browse := browse.(pending := 0);
        Enqueue(c, true);
      } else {
        Enqueue(c, false);
      }
    }

    method OnList(incoming: Option<PlaybackList>, flag: Option<Flag>)
      requires Valid()
      modifies this
      ensures State() == ListReply(old(State()), incoming, flag)
      ensures Valid() && Keeps(old(State()), State())
    {
      if flag == Some(History) {
        return;
      }
      ListReplyKeeps(State(), incoming, flag);
      var list := incoming;
      if browse.append && browse.list.Some? && incoming.Some? {
        list := Some(Merged(browse.list.value, incoming.value));
      }
      BrowseKeeps(State(), browse.(list := list, append := false));
      browse := browse.(list := list, append := false);
      if browse.list.Some? && livefeedMode == Mode.Playback {
        NextPlayback();
      }
    }
  }

  // What the handlers need of the invariant besides its preservation.

  lemma HoldSystemKeepsSane(s: Scanner, resubscribe: bool)
    requires Sane(s) && (s.holds.system.None? ==> Consistent(s))
    ensures var t := ScannerModel.HoldSystem(s, resubscribe);
      Sane(t) && Own(t.holds) == Own(s.holds) && Quiet(s.deck, t.deck) && (Consistent(s) ==> Consistent(t))
  {
    if s.holds.system.Some? {
      ReleaseKeeps(s);
    } else {
      HoldSystemKeeps(s);
    }
  }

  lemma HoldTalkgroupKeepsSane(s: Scanner, resubscribe: bool)
    requires Sane(s) && (s.holds.talkgroup.None? ==> Consistent(s))
    ensures var t := ScannerModel.HoldTalkgroup(s, resubscribe);
      Sane(t) && Own(t.holds) == Own(s.holds) && Quiet(s.deck, t.deck) && (Consistent(s) ==> Consistent(t))
  {
    if s.holds.talkgroup.Some? {
      ReleaseKeeps(s);
    } else {
      HoldTalkgroupKeeps(s);
    }
  }

  /** With nothing held, either hold may overlay the selection. */
  lemma ReleasedCanHold(s: Scanner)
    ensures Consistent(s) && !Held(s.holds) && Subject(s).Some? ==>
      && (forall sys ::
            Consistent(s.(holds := Holds(SystemOverlay(s.holds.selection, sys), Some(s.holds.selection), None))))
      && (forall sys, tg ::
            Consistent(s.(holds := Holds(TalkgroupOverlay(s.holds.selection, sys, tg), None, Some(s.holds.selection)))))
  {
  }

  lemma UnheldKeeps(s: Scanner, selection: LivefeedMap)
    requires Consistent(s)
    ensures Consistent(s.(holds := Holds(selection, None, None)))
  {
  }

  /** The source that ended is the one a stop silences. */
  lemma EndedIsSilenced(s: Scanner, source: Source)
    requires Consistent(s) && source in s.deck.sounding
    ensures SourceEnded(s, source) == ScannerModel.Skip(s, true)
  {
    var d := s.deck;
    assert d.source == Some(source);
    assert (d.sounding - {source}) - {source} == d.sounding - {source};
  }
}
