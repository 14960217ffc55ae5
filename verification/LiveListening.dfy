/** Listening live: calls are heard in the order they came in, whatever order decodes, alerts, ends of
    sources and pauses come in, and one call is followed by the next. */
module LiveListening {
  import opened Prelude
  import opened ScannerModel
  import opened ScannerInvariant
  import opened ScannerTheorems
  import opened SelectionEdits

  // ------------------------------------- what is queued, and what is decoded while paused

  predicate AudioOnly(queue: seq<Call>) {
    forall c :: c in queue ==> c.audio
  }

  /** `t` has queued nothing new without audio, and begun no decode if `s` is paused. */
  predicate Modest(s: Scanner, t: Scanner) {
    && (forall c :: c in t.queue ==> c in s.queue || c.audio)
    && (s.paused ==> forall g :: g in t.deck.jobs ==> g in s.deck.jobs)
  }

  lemma PlayIsModest(s: Scanner, c: Option<Call>)
    ensures Modest(s, PlayCall(s, c))
  {
  }

  lemma PlaybackNextIsModest(s: Scanner)
    ensures Modest(s, PlaybackNextCall(s))
  {
  }

  lemma ResumeIsModest(s: Scanner)
    ensures Modest(s, Resume(s))
  {
    PlayIsModest(s, None);
    PlaybackNextIsModest(s);
  }

  lemma SkipIsModest(s: Scanner, delay: bool)
    ensures Modest(s, Skip(s, delay))
  {
    ResumeIsModest(CancelSkip(Stop(s)));
  }

  lemma CleanIsModest(s: Scanner)
    ensures Modest(s, CleanQueue(s))
  {
    SkipIsModest(s.(queue := Filter((c: Call) => Active(s.holds.selection, c), s.queue)), false);
  }

  lemma ChoiceIsModest(s: Scanner, choice: Choice)
    ensures Modest(s, NextChoice(s, choice))
  {
    match choice
    case ToggleHoldSystem =>
      if Subject(s).Some? && s.holds.system.None? {
        var u := ReleaseTalkgroup(s);
        var m := u.holds.selection;
        CleanIsModest(u.(holds := u.holds.(system := Some(m), selection := SystemOverlay(m, Subject(s).value.system))));
      }
    case ToggleHoldTalkgroup =>
      if Subject(s).Some? && s.holds.talkgroup.None? {
        var u, c := ReleaseSystem(s), Subject(s).value;
        var m := u.holds.selection;
        CleanIsModest(u.(holds := u.holds.(
          talkgroup := Some(m), selection := TalkgroupOverlay(m, c.system, c.talkgroup))));
      }
    case AvoidCalls(target, active) =>
      var m := AvoidedSelection(s.holds.selection, Subject(s), target, active);
      if m.Some? {
        CleanIsModest(s.(holds := Holds(m.value, None, None)));
      }
    case SwitchCategory(category) =>
      var members := Members(s.systems);
      var n := Untripped(s.holds.selection, category, members);
      CleanIsModest(Sync(s.(holds := Holds(CategorySelection(s.holds.selection, members[..n], category), None, None))));
  }

  lemma TransportIsModest(s: Scanner, c: Control)
    requires c != PauseListening(false) && !c.LivefeedButton? && !c.LoadCall? && !c.LoadHistory?
    ensures Modest(s, NextControl(s, c))
  {
    match c
    case PlayGivenCall(given) => PlayIsModest(s, given);
    case ReplayCall => PlayIsModest(s, Subject(s));
    case SkipCall(delay) => SkipIsModest(s, delay);
    case _ =>
  }

  lemma ControlIsModest(s: Scanner, c: Control)
    requires c != PauseListening(false)
    ensures Modest(s, NextControl(s, c))
  {
    if !c.LivefeedButton? && !c.LoadCall? && !c.LoadHistory? {
      TransportIsModest(s, c);
    }
  }

  lemma QueueIsModest(s: Scanner, c: Call, priority: bool)
    ensures Modest(s, Queue(s, c, priority))
  {
    PlayIsModest(s.(queue := if priority then [c] + s.queue else s.queue + [c]), None);
  }

  lemma EventIsModest(s: Scanner, e: Event)
    ensures Modest(s, NextEvent(s, e))
  {
    match e
    case Undecodable(g) => SkipIsModest(s.(deck := Drop(s.deck, g)), false);
    case Woken(t) => ResumeIsModest(s.(deck := s.deck.(timers := s.deck.timers - {t}, skipDelay := None)));
    case CallArrived(c, flag) =>
      PlayIsModest(s.(browse := s.browse.(historyPending := 0)), Some(c));
      QueueIsModest(s.(browse := s.browse.(pending := 0)), c, true);
      QueueIsModest(s, c, false);
    case ListArrived(list, flag) =>
      var shown := if s.browse.append && s.browse.list.Some? && list.Some?
                   then Some(Merged(s.browse.list.value, list.value)) else list;
      PlaybackNextIsModest(s.(browse := s.browse.(list := shown, append := false)));
    case _ =>
  }

  lemma StepIsModest(s: Scanner, step: Step)
    ensures step == Do(PauseListening(false)) || Modest(s, Next(s, step))
  {
    match step
    case Do(c) => if c != PauseListening(false) { ControlIsModest(s, c); }
    case Choose(c) => ChoiceIsModest(s, c);
    case Get(e) => EventIsModest(s, e);
  }

  /** In every reachable state each call waiting in the queue has audio. */
  lemma {:induction false} QueueHasAudio(s: Scanner, steps: seq<Step>)
    requires AudioOnly(s.queue)
    ensures AudioOnly(Run(s, steps).queue)
    decreases |steps|
  {
    if steps != [] {
      var before, last := Run(s, steps[..|steps| - 1]), steps[|steps| - 1];
      QueueHasAudio(s, steps[..|steps| - 1]);
      StepIsModest(before, last);
      PlayIsModest(InitializeAudio(before.(paused := false)), None);
    }
  }

  // ------------------------------------------------------------- one call after another

  /** The player with the first of the queue taken out. */
  function WithoutFirst(s: Scanner): Scanner
    requires s.queue != []
  {
    s.(queue := s.queue[1..])
  }

  /** Live, neither paused nor left, with a call waiting. */
  ghost predicate HasNext(s: Scanner) {
    && Consistent(s) && s.queue != [] && s.queue[0].audio
    && s.mode == Online && !s.paused && !s.deck.destroyed
  }

  lemma QueuedIsHeard(s: Scanner, t: Scanner)
    requires Consistent(t) && t.deck.call.None? && t.deck.skipDelay.None? && t.deck.context
    requires !t.deck.destroyed && !t.paused && t.queue != [] && t.queue[0].audio
    requires t.deck.generation >= s.deck.generation && t.deck.started == s.deck.started && s.queue == t.queue[1..]
    requires t.mode == s.mode && t.paused == s.paused && t.holds == s.holds && t.browse == s.browse
    ensures NowHeard(s, Hear(PlayCall(t, None)), t.queue[0])
  {
    var u := t.(deck := Load(t.deck, t.queue[0]), queue := t.queue[1..]);
    LoadKeeps(t.deck, t.queue[0]);
    BegunIsHeard(s, u, t.queue[0]);
  }

  /** When the call sounding has ended and the pause is over, the first call waiting is heard, the others
      wait on. */
  lemma NextIsHeard(s: Scanner)
    requires HasNext(s) && s.deck.source.Some?
    ensures NowHeard(WithoutFirst(s), Hear(Finish(s)), s.queue[0])
    ensures Hear(Finish(s)).previous == s.deck.call
  {
    var e := SourceEnded(s, s.deck.source.value);
    SourceEndedKeeps(s, s.deck.source.value);
    var w := e.(deck := e.deck.(timers := e.deck.timers - {e.deck.skipDelay.value}, skipDelay := None));
    WakeKeeps(e.deck, e.deck.skipDelay.value);
    QueuedIsHeard(WithoutFirst(s), w);
  }

  /** A skip goes on to the first call waiting, whatever is playing or pausing; with a pause in between,
      once that is over. */
  lemma SkippedToNext(s: Scanner)
    requires HasNext(s)
    ensures NowHeard(WithoutFirst(s), Hear(Skip(s, false)), s.queue[0])
    ensures var t := Skip(s, true);
      && t.deck.skipDelay.Some? && t.deck.call.None? && t.queue == s.queue
      && NowHeard(WithoutFirst(s), Hear(SkipTimerFired(t, t.deck.skipDelay.value)), s.queue[0])
  {
    StopKeeps(s);
    CancelSkipKeeps(Stop(s));
    QueuedIsHeard(WithoutFirst(s), CancelSkip(Stop(s)));
    var t := Skip(s, true);
    SkipKeeps(s, true);
    WakeKeeps(t.deck, t.deck.skipDelay.value);
    QueuedIsHeard(WithoutFirst(s),
      t.(deck := t.deck.(timers := t.deck.timers - {t.deck.skipDelay.value}, skipDelay := None)));
  }

  /** A call that cannot be decoded gives way to the first call waiting at once. */
  lemma UndecodableGivesWay(s: Scanner)
    requires HasNext(s)
    requires s.deck.generation in s.deck.jobs && s.deck.jobs[s.deck.generation].stage == Decoding
    ensures NowHeard(WithoutFirst(s), Hear(DecodeFailed(s, s.deck.generation)), s.queue[0])
  {
    DropKeeps(s.deck, s.deck.generation);
    SkippedToNext(s.(deck := Drop(s.deck, s.deck.generation)));
  }

  /** A call that is no longer selected gives way at once to the first one waiting that is. */
  lemma DeselectedGivesWay(s: Scanner)
    requires var rest := Filter((c: Call) => Active(s.holds.selection, c), s.queue); HasNext(s.(queue := rest))
    requires s.deck.call.Some? && !Active(s.holds.selection, s.deck.call.value)
    ensures var rest := Filter((c: Call) => Active(s.holds.selection, c), s.queue);
      NowHeard(WithoutFirst(s.(queue := rest)), Hear(CleanQueue(s)), rest[0])
  {
    SkippedToNext(s.(queue := Filter((c: Call) => Active(s.holds.selection, c), s.queue)));
  }

  /** A call that still is goes on undisturbed. */
  lemma SelectedPlaysOn(s: Scanner)
    requires s.deck.call.Some? && Active(s.holds.selection, s.deck.call.value)
    ensures CleanQueue(s).deck == s.deck && CleanQueue(s).previous == s.previous
  {
  }

  lemma HearKeeps(s: Scanner)
    requires Consistent(s)
    ensures Consistent(Hear(s))
  {
    DecodeDoneKeeps(s, s.deck.generation);
    AlertDoneStarts(DecodeDone(s, s.deck.generation), s.deck.generation);
  }

  lemma FinishKeeps(s: Scanner)
    requires Consistent(s)
    ensures Consistent(Hear(Finish(s)))
  {
    if s.deck.source.Some? {
      var e := SourceEnded(s, s.deck.source.value);
      SourceEndedKeeps(s, s.deck.source.value);
      if e.deck.skipDelay.Some? {
        SkipTimerFiredKeeps(e, e.deck.skipDelay.value);
      }
    }
    HearKeeps(Finish(s));
  }

  /** `k` calls played to their ends, one after another. */
  function AfterCalls(s: Scanner, k: nat): Scanner {
    if k == 0 then s else Hear(Finish(AfterCalls(s, k - 1)))
  }

  /** Live and not paused, with a call sounding. */
  ghost predicate Playing(s: Scanner) {
    Consistent(s) && s.mode == Online && !s.paused && s.deck.source.Some?
  }

  /** The log goes on with the first of these calls, each announced with the number of those after it. */
  predicate LogsInOrder(before: seq<Started>, after: seq<Started>, queue: seq<Call>, k: nat) {
    && k <= |queue| && |after| == |before| + k && after[..|before|] == before
    && forall i :: 0 <= i < k ==>
      after[|before| + i].call == queue[i] && after[|before| + i].queue == |queue| - 1 - i
  }

  lemma PlaysOn(s: Scanner)
    requires Playing(s) && s.queue != [] && s.queue[0].audio
    ensures var t := Hear(Finish(s));
      && Playing(t) && t.queue == s.queue[1..] && t.holds == s.holds && t.deck.call == Some(s.queue[0])
      && LogsInOrder(s.deck.started, t.deck.started, s.queue, 1)
  {
    NextIsHeard(s);
    FinishKeeps(s);
  }

  lemma LogsOneMore(before: seq<Started>, middle: seq<Started>, after: seq<Started>, queue: seq<Call>, k: nat)
    requires k < |queue| && LogsInOrder(before, middle, queue, k) && LogsInOrder(middle, after, queue[k..], 1)
    ensures LogsInOrder(before, after, queue, k + 1)
  {
    assert after[..|before|] == after[..|middle|][..|before|];
    assert forall i :: 0 <= i < |middle| ==> after[i] == after[..|middle|][i];
  }

  /** Without anything else happening the queue is heard through in order, each call announced with the
      number of those still waiting, and in the end the last one sounds. */
  lemma {:induction false} QueueIsHeardThrough(s: Scanner, k: nat)
    requires Playing(s) && AudioOnly(s.queue) && k <= |s.queue|
    ensures var t := AfterCalls(s, k);
      && Playing(t) && t.holds == s.holds && t.queue == s.queue[k..]
      && LogsInOrder(s.deck.started, t.deck.started, s.queue, k)
      && (k > 0 ==> t.deck.call == Some(s.queue[k - 1]))
  {
    if k > 0 {
      QueueIsHeardThrough(s, k - 1);
      var t := AfterCalls(s, k - 1);
      assert t.queue[0] == s.queue[k - 1] && s.queue[k - 1] in s.queue;
      PlaysOn(t);
      LogsOneMore(s.deck.started, t.deck.started, AfterCalls(s, k).deck.started, s.queue, k - 1);
    }
  }

  // ------------------------------------------------------------------- calls pushed

  /** A call pushed to an idle player is heard; otherwise it waits behind those already waiting. */
  lemma PushedIsHeardOrWaits(s: Scanner, c: Call)
    requires Consistent(s) && s.mode == Online && c.audio && !s.deck.destroyed
    ensures s.deck.call.Some? || s.deck.skipDelay.Some? || s.paused ==>
      CallReply(s, c, None) == s.(queue := s.queue + [c])
    ensures s.deck.call.None? && s.deck.skipDelay.None? && !s.paused && s.queue == [] ==>
      NowHeard(s, Hear(CallReply(s, c, None)), c)
  {
    if s.deck.call.None? && s.deck.skipDelay.None? && !s.paused && s.queue == [] {
      var t := s.(queue := [] + [c]);
      assert t.queue == [c] && t.queue[1..] == s.queue;
      QueuedIsHeard(s, t);
    }
  }

  /** A call fetched from the archive is heard before those waiting, also while listening live; offline the
      player goes over to playback. */
  lemma FetchedIsHeardFirst(s: Scanner, c: Call)
    requires Consistent(s) && c.audio && c.id > 0 && !s.deck.destroyed && !s.paused
    ensures var t := LoadAndPlay(s, c.id);
      && t.queue == s.queue && t.mode == (if s.mode == Offline then Mode.Playback else s.mode)
      && NowHeard(t.(browse := t.browse.(pending := 0)), Hear(CallReply(t, c, Some(Flag.Play))), c)
  {
    LoadAndPlayKeeps(s, c.id);
    AwaitedIsHeard(LoadAndPlay(s, c.id), c);
  }

  lemma AwaitedIsHeard(t: Scanner, c: Call)
    requires Consistent(t) && c.audio && t.browse.pending == c.id > 0 && !t.deck.destroyed && !t.paused
    requires t.mode != Offline && t.deck.call.None? && t.deck.skipDelay.None?
    ensures NowHeard(t.(browse := t.browse.(pending := 0)), Hear(CallReply(t, c, Some(Flag.Play))), c)
  {
    var u := t.(browse := t.browse.(pending := 0));
    var q := u.(queue := [c] + u.queue);
    assert q.queue[1..] == u.queue;
    QueuedIsHeard(u, q);
  }

  /** Nothing is queued while the player is offline, and never a call without audio. */
  lemma PushedInVain(s: Scanner, c: Call, flag: Option<Flag>)
    requires s.mode == Offline || !c.audio
    requires flag != Some(History)
    ensures CallReply(s, c, flag).queue == s.queue && CallReply(s, c, flag).deck == s.deck
  {
  }

  // ------------------------------------------------------------ in any order of events

  /** What the server and the browser report while the player is left alone and decodes succeed. */
  predicate Undisturbed(step: Step) {
    && step.Get?
    && (step.event.Decoded? || step.event.Alerted? || step.event.Ended? || step.event.Woken?
        || (step.event.CallArrived? && step.event.flag.None?))
  }

  /** The calls still to be heard: the current one until its source starts, then the queue. */
  function Ahead(s: Scanner): seq<Call> {
    (if s.deck.call.Some? && s.deck.source.None? then [s.deck.call.value] else []) + s.queue
  }

  function Calls(log: seq<Started>): (r: seq<Call>)
    ensures |r| == |log| && forall i :: 0 <= i < |r| ==> r[i] == log[i].call
  {
    seq(|log|, i requires 0 <= i < |log| => log[i].call)
  }

  /** All that was heard, and all that is still to be heard. */
  function Heard(s: Scanner): seq<Call> {
    Calls(s.deck.started) + Ahead(s)
  }

  function Pushed(steps: seq<Step>): seq<Call> {
    if steps == [] then []
    else
      var n := |steps| - 1;
      Pushed(steps[..n]) + PushedBy(steps[n])
  }

  function PushedBy(step: Step): seq<Call> {
    if step.Get? && step.event.CallArrived? && step.event.reply.audio then [step.event.reply] else []
  }

  lemma PlayKeepsAhead(s: Scanner)
    requires Consistent(s) && AudioOnly(s.queue)
    ensures Heard(PlayCall(s, None)) == Heard(s)
  {
    if s.deck.call.None? && s.queue != [] {
      assert s.queue == [s.queue[0]] + s.queue[1..];
    }
  }

  lemma AlertMovesOn(s: Scanner, g: nat)
    requires Consistent(s)
    ensures Heard(AlertDone(s, g)) == Heard(s)
  {
    AlertDoneStarts(s, g);
    if g in s.deck.jobs && s.deck.jobs[g].stage == Alerting && Fresh(s.deck, g) {
      var t, c := AlertDone(s, g), s.deck.call.value;
      assert Calls(t.deck.started) == Calls(s.deck.started) + [c];
      assert Ahead(s) == [c] + Ahead(t);
    }
  }

  lemma EndKeepsAhead(s: Scanner, source: Source)
    requires Consistent(s)
    ensures Heard(SourceEnded(s, source)) == Heard(s)
  {
    if source in s.deck.sounding {
      assert s.deck.source == Some(source);
    }
  }

  lemma WakeKeepsAhead(s: Scanner, t: nat)
    requires Consistent(s) && AudioOnly(s.queue) && s.mode == Online
    ensures Heard(SkipTimerFired(s, t)) == Heard(s)
  {
    if t in s.deck.timers {
      var w := s.(deck := s.deck.(timers := s.deck.timers - {t}, skipDelay := None));
      SourceWakes(s, t);
      PlayKeepsAhead(w);
    }
  }

  lemma SourceWakes(s: Scanner, t: nat)
    requires Consistent(s)
    ensures Consistent(s.(deck := s.deck.(timers := s.deck.timers - {t}, skipDelay := None)))
  {
    WakeKeeps(s.deck, t);
  }

  lemma PushComesLast(s: Scanner, c: Call)
    requires Consistent(s) && AudioOnly(s.queue) && s.mode == Online
    ensures Heard(CallReply(s, c, None)) == Heard(s) + if c.audio then [c] else []
  {
    if c.audio {
      var t := s.(queue := s.queue + [c]);
      assert Ahead(t) == Ahead(s) + [c];
      assert Heard(t) == Heard(s) + [c];
      PlayKeepsAhead(t);
    }
  }

  lemma DecodeKeepsAhead(s: Scanner, g: nat)
    ensures Heard(DecodeDone(s, g)) == Heard(s)
  {
  }

  lemma EventKeepsOrder(s: Scanner, step: Step)
    requires Consistent(s) && AudioOnly(s.queue) && s.mode == Online && Undisturbed(step)
    ensures Heard(Next(s, step)) == Heard(s) + PushedBy(step)
  {
    match step.event
    case Decoded(g) => DecodeKeepsAhead(s, g);
    case Alerted(g) => AlertMovesOn(s, g);
    case Ended(source) => EndKeepsAhead(s, source);
    case Woken(t) => WakeKeepsAhead(s, t);
    case CallArrived(c, _) => PushComesLast(s, c);
  }

  lemma EventKeepsMode(s: Scanner, step: Step)
    requires s.mode == Online && Undisturbed(step)
    ensures Next(s, step).mode == Online
  {
  }

  /** First in, first out: whatever order pushes, decodes, alerts, ends of sources and pauses come in, paused
      or not, the calls heard and those still ahead are together what they were, in order, followed by the
      calls pushed since. */
  lemma {:induction false} FirstInFirstHeard(s: Scanner, steps: seq<Step>)
    requires Consistent(s) && AudioOnly(s.queue) && s.mode == Online
    requires forall i :: 0 <= i < |steps| ==> Undisturbed(steps[i])
    ensures var t := Run(s, steps);
      t.mode == Online && Heard(t) == Heard(s) + Pushed(steps)
    decreases |steps|
  {
    if steps != [] {
      var before, last := steps[..|steps| - 1], steps[|steps| - 1];
      FirstInFirstHeard(s, before);
      RunKeeps(s, before);
      QueueHasAudio(s, before);
      EventKeepsOrder(Run(s, before), last);
      EventKeepsMode(Run(s, before), last);
    }
  }

  // ------------------------------------------------------------------------- pausing

  /** What is heard while the player stays paused was already being decoded when it was paused. */
  lemma {:induction false} PausedBeginsNothing(s: Scanner, steps: seq<Step>)
    requires Consistent(s) && forall i :: 0 <= i <= |steps| ==> Run(s, steps[..i]).paused
    ensures var d, e := s.deck, Run(s, steps).deck;
      && (forall g :: g in e.jobs ==> g in d.jobs)
      && d.started <= e.started
      && forall i :: |d.started| <= i < |e.started| ==> e.started[i].generation in d.jobs
    decreases |steps|
  {
    if steps != [] {
      var before, last := steps[..|steps| - 1], steps[|steps| - 1];
      assert forall i :: 0 <= i <= |before| ==> before[..i] == steps[..i];
      assert steps[..|steps|] == steps && steps[..|before|] == before;
      PausedBeginsNothing(s, before);
      RunKeeps(s, before);
      StepIsModest(Run(s, before), last);
      OnlyFreshDecodesStart(Run(s, before), last);
      assert Run(s, steps).paused;
    }
  }

  lemma {:induction false} GenerationsClimb(d: Deck, n: nat, k: nat)
    requires LogOk(d) && n <= k < |d.started|
    ensures d.started[k].generation >= d.started[n].generation + (k - n)
  {
    if n < k {
      GenerationsClimb(d, n, k - 1);
    }
  }

  lemma OneOfEachGeneration(d: Deck, n: nat, g: nat)
    requires LogOk(d) && n <= |d.started| && forall i :: n <= i < |d.started| ==> d.started[i].generation == g
    ensures |d.started| <= n + 1
  {
    if n < |d.started| {
      GenerationsClimb(d, n, |d.started| - 1);
    }
  }

  /** At most one call is heard then. */
  lemma PausedHearsAtMostOne(s: Scanner, steps: seq<Step>)
    requires Consistent(s) && forall i :: 0 <= i <= |steps| ==> Run(s, steps[..i]).paused
    ensures |Run(s, steps).deck.started| <= |s.deck.started| + 1
  {
    PausedBeginsNothing(s, steps);
    StaleNeverSounds(s, steps);
    RunKeeps(s, steps);
    OneOfEachGeneration(Run(s, steps).deck, |s.deck.started|, s.deck.generation);
  }

  /** Resuming goes on with the first call waiting, if nothing is playing. */
  lemma ResumedHearsNext(s: Scanner)
    requires Consistent(s) && s.queue != [] && s.queue[0].audio && !s.deck.destroyed
    requires s.deck.call.None? && s.deck.skipDelay.None?
    ensures NowHeard(WithoutFirst(s).(paused := false), Hear(Pause(s, false)), s.queue[0])
  {
    InitializeAudioKeeps(s.(paused := false));
    QueuedIsHeard(WithoutFirst(s).(paused := false), InitializeAudio(s.(paused := false)));
  }

  /** Pausing sets the flag and no more; resuming takes it back. */
  lemma PauseIsKept(s: Scanner)
    ensures Pause(s, true) == s.(paused := true) && !Pause(s, false).paused
    ensures Pause(s, false).mode == s.mode && Pause(s, false).holds == s.holds
  {
  }

  // -------------------------------------------------------------------- modes of listening

  /** Nothing sounds, waits or is asked for any more. */
  predicate AtRest(t: Scanner) {
    && t.mode == Offline && t.queue == [] && t.deck.call.None? && t.deck.source.None? && t.deck.sounding == {}
    && t.deck.skipDelay.None? && t.browse.pending == 0 && t.browse.historyPending == 0
  }

  /** The livefeed button starts listening when the player is offline, unpaused and with the server told of the
      selection, and otherwise puts it to rest; the server is told when live listening ends, and an archive walk is
      forgotten. */
  lemma LivefeedButtonMeaning(s: Scanner)
    requires Consistent(s)
    ensures var t := ToggleLivefeed(s);
      && t.holds == s.holds
      && (s.mode == Offline ==>
            && t.mode == Online && !t.paused && t.queue == s.queue && t.deck.call == s.deck.call
            && t.outbox == s.outbox + [SelectionSync(s.holds.selection)])
      && (s.mode == Online ==> AtRest(t) && t.outbox == s.outbox + [SelectionSync(s.holds.selection)])
      && (s.mode == Playback ==> AtRest(t) && t.outbox == s.outbox && !t.browse.refreshing)
  {
    ToggleLivefeedKeeps(s);
  }

  /** Once switched on, a call pushed is heard. */
  lemma ListeningHears(s: Scanner, c: Call)
    requires Consistent(s) && AtRest(s) && c.audio && !s.deck.destroyed
    ensures var t := ToggleLivefeed(s); NowHeard(t, Hear(CallReply(t, c, None)), c)
  {
    ToggleLivefeedKeeps(s);
    PushedIsHeardOrWaits(ToggleLivefeed(s), c);
  }

  /** Whatever the player was at, going live and stopping either way lead where they say. */
  lemma ModesAreEntered(s: Scanner)
    requires Consistent(s)
    ensures StartLivefeed(s).mode == Online && !StartLivefeed(s).paused
    ensures AtRest(StopLivefeed(s)) && AtRest(StopPlaybackMode(s)) && !StopPlaybackMode(s).browse.refreshing
    ensures StartLivefeed(s).outbox == StopLivefeed(s).outbox == s.outbox + [SelectionSync(s.holds.selection)]
  {
    LeaveModeKeeps(s);
    LeaveModeKeeps(s.(browse := s.browse.(refreshing := false)));
  }

  /** Entering playback ends any hold, gives the own selection back and asks for the call. */
  lemma PlaybackIsEntered(s: Scanner, id: nat)
    requires Consistent(s) && s.mode == Offline && id > 0
    ensures var t := LoadAndPlay(s, id);
      && t.mode == Mode.Playback && t.holds == Holds(Own(s.holds), None, None)
      && t.outbox == s.outbox + [CallRequest(id, Flag.Play)] && t.browse.pending == id
  {
  }

  // ------------------------------------------------------------------- what changes nothing

  /** A call to download and a listing of the history change nothing in the player. */
  lemma NotForThePlayer(s: Scanner, c: Call, list: Option<PlaybackList>)
    ensures CallReply(s, c, Some(Download)) == s && ListReply(s, list, Some(History)) == s
  {
  }

  /** Each callback comes once: what is reported a second time changes nothing. */
  lemma ReportedOnce(s: Scanner, g: nat, source: Source, t: nat)
    requires Consistent(s)
    ensures DecodeDone(DecodeDone(s, g), g) == DecodeDone(s, g)
    ensures AlertDone(AlertDone(s, g), g) == AlertDone(s, g)
    ensures g !in s.deck.jobs ==> DecodeDone(s, g) == AlertDone(s, g) == DecodeFailed(s, g) == s
    ensures t !in s.deck.timers ==> SkipTimerFired(s, t) == s
    ensures source !in s.deck.sounding ==> SourceEnded(s, source) == s
  {
  }

  /** A stale decode is forgotten when it ends. */
  lemma StaleIsDropped(s: Scanner, g: nat)
    requires Consistent(s) && g != s.deck.generation && g in s.deck.jobs
    ensures s.deck.jobs[g].stage == Decoding ==>
      DecodeDone(s, g) == DecodeFailed(s, g) == s.(deck := s.deck.(jobs := s.deck.jobs - {g}))
    ensures s.deck.jobs[g].stage == Alerting ==>
      AlertDone(s, g) == s.(deck := s.deck.(jobs := s.deck.jobs - {g}))
  {
  }

  /** The pause between two calls does not outlive the player. */
  lemma PauseEndsWithPlayer(s: Scanner)
    requires Consistent(s) && s.deck.skipDelay.Some?
    ensures SkipTimerFired(Destroy(s), s.deck.skipDelay.value) == Destroy(s)
  {
  }
}
