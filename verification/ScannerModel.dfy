/** The listener's player: what it plays, what it has queued, which talkgroups are
    selected, and how it walks through an archive listing.

    A `Scanner` is the state of the player together with the browser facilities it
    drives (decoders at work, sources sounding, timers running, messages sent).
    Every public operation and every callback is one function from state to state. */
module ScannerModel {
  import opened Prelude

  datatype Mode = Offline | Online | Playback

  /** `obj` is the identity of the JavaScript object: a call fetched twice is two objects. */
  datatype Call = Call(obj: nat, id: nat, system: int, talkgroup: int, patches: seq<int>, audio: bool)

  type Talkgroups = map<int, bool>
  type LivefeedMap = map<int, Talkgroups>

  /** An audio source node, remembered with the call and decode generation it was made for. */
  datatype Source = Source(call: Call, generation: nat)

  datatype Stage = Decoding | Alerting

  /** A decode in flight: its closure holds the call and the queue count to announce. */
  datatype Job = Job(call: Call, queue: int, stage: Stage)

  /** One entry of the sound log: a source that was started. */
  datatype Started = Started(call: Call, generation: nat, queue: int)

  datatype ListOptions = ListOptions(limit: nat, offset: nat, sort: int)
  datatype PlaybackList = PlaybackList(count: nat, options: ListOptions, results: seq<Call>)

  datatype Flag = Play | History | Download
  datatype Message =
    | CallRequest(id: nat, flag: Flag)
    | ListRequest(options: ListOptions)
    | SelectionSync(selection: LivefeedMap)

  /** What the user asked to avoid. */
  datatype AvoidTarget = All(all: bool) | Entry(system: int, talkgroup: int) | WholeSystem(id: int) | Current

  datatype CategoryType = Group | Tag
  datatype CategoryStatus = Off | On | Partial
  datatype Category = Category(name: string, status: CategoryStatus, kind: CategoryType)
  datatype TalkgroupConfig = TalkgroupConfig(id: int, tag: string, groups: seq<string>)
  datatype SystemConfig = SystemConfig(id: int, talkgroups: seq<TalkgroupConfig>)

  /** The sound machinery: the current call, its decode generation and audio source, the
      pause between calls, and the browser's side of them. */
  datatype Deck = Deck(
    destroyed: bool,
    context: bool,
    call: Option<Call>,
    generation: nat,
    source: Option<Source>,
    skipDelay: Option<nat>,
    jobs: map<nat, Job>,
    sounding: set<Source>,
    timers: set<nat>,
    nextTimer: nat,
    started: seq<Started>)

  /** The selection in use, and the one put aside by a hold. */
  datatype Holds = Holds(selection: LivefeedMap, system: Option<LivefeedMap>, talkgroup: Option<LivefeedMap>)

  /** The archive listing and the requests about it. `pending` and `historyPending` are 0
      where the source has undefined: call ids start at 1. */
  datatype Browse = Browse(list: Option<PlaybackList>, pending: nat, refreshing: bool, append: bool,
      historyPending: nat)

  datatype Scanner = Scanner(
    deck: Deck,
    holds: Holds,
    browse: Browse,
    mode: Mode,
    paused: bool,
    previous: Option<Call>,
    queue: seq<Call>,
    goesLive: bool,
    systems: seq<SystemConfig>,
    outbox: seq<Message>)

  function Initial(selection: LivefeedMap, goesLive: bool, systems: seq<SystemConfig>): Scanner {
    Scanner(Deck(false, false, None, 0, None, None, map[], {}, {}, 0, []),
            Holds(selection, None, None),
            Browse(None, 0, false, false, 0),
            Offline, false, None, [], goesLive, systems, [])
  }

  // ---------------------------------------------------------------- selection

  predicate Enabled(selection: LivefeedMap, system: int, talkgroup: int) {
    system in selection && talkgroup in selection[system] && selection[system][talkgroup]
  }

  /** A call is heard when its talkgroup, or any talkgroup patched to it, is enabled. */
  predicate Active(selection: LivefeedMap, c: Call) {
    || Enabled(selection, c.system, c.talkgroup)
    || exists i :: 0 <= i < |c.patches| && Enabled(selection, c.system, c.patches[i])
  }

  predicate AllOff(talkgroups: Talkgroups) {
    forall tg :: tg in talkgroups ==> !talkgroups[tg]
  }

  /** Hold system: only `system` stays on, as the user had it, or entirely when it was all off. */
  function SystemOverlay(base: LivefeedMap, system: int): LivefeedMap {
    map sys | sys in base ::
      map tg | tg in base[sys] :: sys == system && (AllOff(base[sys]) || base[sys][tg])
  }

  /** Hold talkgroup: only that one talkgroup stays on. */
  function TalkgroupOverlay(base: LivefeedMap, system: int, talkgroup: int): LivefeedMap {
    map sys | sys in base ::
      map tg | tg in base[sys] :: sys == system && tg == talkgroup
  }

  // ------------------------------------------------------------ audio control

  function Send(s: Scanner, m: Message): Scanner {
    s.(outbox := s.outbox + [m])
  }

  function Sync(s: Scanner): Scanner {
    Send(s, SelectionSync(s.holds.selection))
  }

  function InitializeAudio(s: Scanner): Scanner {
    s.(deck := s.deck.(context := s.deck.context || !s.deck.destroyed))
  }

  function Unwait(d: Deck): Deck {
    match d.skipDelay
    case None => d
    case Some(t) => d.(skipDelay := None, timers := d.timers - {t})
  }

  function CancelSkip(s: Scanner): Scanner {
    s.(deck := Unwait(s.deck))
  }

  function Silence(d: Deck): Deck {
    d.(generation := d.generation + 1,
       sounding := if d.source.Some? then d.sounding - {d.source.value} else d.sounding,
       source := None,
       call := None)
  }

  function Stop(s: Scanner): Scanner {
    s.(deck := Silence(s.deck), previous := Subject(s))
  }

  /** The call a hold, a replay or a default avoid refers to. */
  function Subject(s: Scanner): Option<Call> {
    if s.deck.call.Some? then s.deck.call else s.previous
  }

  /** The position of the call with this id in a listing, or -1. */
  function IndexOf(results: seq<Call>, id: nat): (i: int)
    ensures -1 <= i < |results|
    ensures i == -1 ==> forall k :: 0 <= k < |results| ==> results[k].id != id
    ensures i >= 0 ==> results[i].id == id && forall k :: 0 <= k < i ==> results[k].id != id
  {
    if results == [] then -1
    else if results[0].id == id then 0
    else
      var i := IndexOf(results[1..], id);
      assert forall k :: 1 <= k < |results| ==> results[k] == results[1..][k - 1];
      if i == -1 then -1 else i + 1
  }

  /** How many archive calls are still to come after the one with this id, by the listing. */
  function QueueCount(list: Option<PlaybackList>, id: nat): int {
    if id == 0 || list.None? then 0
    else
      var l := list.value;
      var index := IndexOf(l.results, id);
      if index == -1 then 0
      else if l.options.sort == -1 then l.options.offset + index
      else l.count - l.options.offset - index - 1
  }

  /** The default argument of the source: the current call's id, or else the previous one's. */
  function PlaybackQueueCount(s: Scanner): int {
    QueueCount(s.browse.list,
               if s.deck.call.Some? && s.deck.call.value.id != 0 then s.deck.call.value.id
               else if s.previous.Some? then s.previous.value.id else 0)
  }

  function Load(d: Deck, c: Call): Deck {
    d.(call := Some(c))
  }

  function Decode(d: Deck, queue: int): Deck
    requires d.call.Some?
  {
    d.(generation := d.generation + 1,
       jobs := d.jobs[d.generation + 1 := Job(d.call.value, queue, Decoding)])
  }

  /** The current call, which has audio, goes to the decoder under a new generation. */
  function BeginDecode(s: Scanner): Scanner
    requires s.deck.call.Some?
  {
    s.(deck := Decode(s.deck, if s.mode == Playback then PlaybackQueueCount(s) else |s.queue|))
  }

  function PlayGiven(s: Scanner, c: Call): Scanner {
    var t := if s.deck.call.Some? then Stop(s) else s;
    BeginDecode(t.(deck := Load(t.deck, c)))
  }

  function PlayQueued(s: Scanner): Scanner {
    if s.deck.call.Some? || s.queue == [] then s
    else
      var t := s.(deck := Load(s.deck, s.queue[0]), queue := s.queue[1..]);
      if s.queue[0].audio then BeginDecode(t) else t
  }

  predicate Blocked(s: Scanner) {
    !s.deck.context || s.paused || s.deck.skipDelay.Some?
  }

  /** Plays the given call if it has audio; otherwise the next queued call, when idle. */
  function PlayCall(s: Scanner, c: Option<Call>): Scanner {
    var given := c.Some? && c.value.audio;
    if s.deck.destroyed then s
    else
      var t := if given then InitializeAudio(s) else s;
      if Blocked(t) then t
      else if given then PlayGiven(t, c.value)
      else PlayQueued(t)
  }

  function Replay(s: Scanner): Scanner {
    PlayCall(s, Subject(s))
  }

  function Queue(s: Scanner, c: Call, priority: bool): Scanner {
    if !c.audio || s.mode == Offline then s
    else
      var t := s.(queue := if priority then [c] + s.queue else s.queue + [c]);
      if t.deck.source.Some? || t.deck.call.Some? || Blocked(t) then t
      else PlayCall(t, None)
  }

  function Pause(s: Scanner, status: bool): Scanner {
    if status then s.(paused := true) else PlayCall(InitializeAudio(s.(paused := false)), None)
  }

  // ------------------------------------------------------------------- modes

  function StartLivefeed(s: Scanner): Scanner {
    Sync(InitializeAudio(s.(mode := Online, paused := false)))
  }

  function LeaveMode(s: Scanner): Scanner {
    Stop(CancelSkip(s.(mode := Offline, queue := [], browse := s.browse.(historyPending := 0, pending := 0))))
  }

  function StopLivefeed(s: Scanner): Scanner {
    Sync(LeaveMode(s))
  }

  function StopPlaybackMode(s: Scanner): Scanner {
    LeaveMode(s.(browse := s.browse.(refreshing := false)))
  }

  function ToggleLivefeed(s: Scanner): Scanner {
    match s.mode
    case Offline => StartLivefeed(s)
    case Online => StopLivefeed(s)
    case Playback => StopPlaybackMode(s)
  }

  function Destroy(s: Scanner): Scanner {
    var d := s.deck;
    Stop(s.(deck := d.(destroyed := true,
                       timers := if d.skipDelay.Some? then d.timers - {d.skipDelay.value} else d.timers)))
  }

  // ---------------------------------------------------------- archive playback

  function ReleaseSystem(s: Scanner): Scanner {
    if s.holds.system.None? || Subject(s).None? then s
    else s.(holds := s.holds.(selection := s.holds.system.value, system := None))
  }

  function ReleaseTalkgroup(s: Scanner): Scanner {
    if s.holds.talkgroup.None? || Subject(s).None? then s
    else s.(holds := s.holds.(selection := s.holds.talkgroup.value, talkgroup := None))
  }

  function LoadAndPlay(s: Scanner, id: nat): Scanner {
    if id == 0 then s
    else
      var t := Stop(CancelSkip(s.(browse := s.browse.(pending := id))));
      var u := if t.mode == Offline then ReleaseTalkgroup(ReleaseSystem(t.(mode := Playback))) else t;
      Send(InitializeAudio(u), CallRequest(id, Play))
  }

  function LoadAndPlayHistory(s: Scanner, id: nat): Scanner {
    if id == 0 then s
    else Send(InitializeAudio(CancelSkip(s.(browse := s.browse.(historyPending := id)))), CallRequest(id, History))
  }

  function SearchCalls(s: Scanner, options: ListOptions, append: bool): Scanner {
    Send(s.(browse := s.browse.(append := append)), ListRequest(options))
  }

  /** The end of the archive: look once for newer calls, then leave playback. */
  function EndOfArchive(s: Scanner, options: ListOptions): Scanner {
    if s.browse.refreshing then
      var t := StopPlaybackMode(s);
      if t.goesLive then StartLivefeed(t) else t
    else SearchCalls(s.(browse := s.browse.(refreshing := true)), options, false)
  }

  /** What a finished call leads to in the listing on screen. */
  datatype Continuation = Nothing | Fetch(id: nat) | Page(options: ListOptions) | End(options: ListOptions)

  function Continue(l: PlaybackList, previous: Option<Call>): Continuation {
    var o := l.options;
    var n := |l.results|;
    var index := if previous.Some? then IndexOf(l.results, previous.value.id) else -1;
    // An empty listing makes the source fail on results[0].id, before it changes anything.
    if n == 0 then Nothing
    else if o.sort == -1 then
      if index == -1 then Fetch(l.results[n - 1].id)
      else if index == 0 then
        if o.offset < o.limit then End(o) else Page(o.(offset := o.offset - o.limit))
      else Fetch(l.results[index - 1].id)
    else
      if index == -1 then Fetch(l.results[0].id)
      else if index == n - 1 then
        if o.offset < l.count - o.limit then Page(o.(offset := o.offset + o.limit)) else End(o)
      else Fetch(l.results[index + 1].id)
  }

  function PlaybackNextCall(s: Scanner): Scanner {
    if s.deck.call.Some? || s.mode != Playback || s.browse.list.None? || s.browse.pending != 0 then s
    else
      match Continue(s.browse.list.value, s.previous)
      case Nothing => s
      case Fetch(id) => LoadAndPlay(s, id)
      case Page(options) => SearchCalls(s, options, false)
      case End(options) => EndOfArchive(s, options)
  }

  function Resume(s: Scanner): Scanner {
    if s.mode == Playback then PlaybackNextCall(s) else PlayCall(s, None)
  }

  function Wait(d: Deck): Deck {
    d.(skipDelay := Some(d.nextTimer), timers := d.timers + {d.nextTimer}, nextTimer := d.nextTimer + 1)
  }

  function Skip(s: Scanner, delay: bool): Scanner {
    var t := Stop(s);
    if delay then t.(deck := Wait(t.deck)) else Resume(CancelSkip(t))
  }

  // ---------------------------------------------------------- selection edits

  function CleanQueue(s: Scanner): Scanner {
    var m := s.holds.selection;
    var t := s.(queue := Filter((c: Call) => Active(m, c), s.queue));
    if t.deck.call.Some? && !Active(m, t.deck.call.value) then Skip(t, false) else t
  }

  function HoldSystem(s: Scanner, resubscribe: bool): Scanner {
    var c := Subject(s);
    if c.None? then s
    else
      var t := if s.holds.system.Some? then ReleaseSystem(s)
               else
                 var u := ReleaseTalkgroup(s);
                 var m := u.holds.selection;
                 CleanQueue(u.(holds := u.holds.(system := Some(m), selection := SystemOverlay(m, c.value.system))));
      if resubscribe then Sync(t) else t
  }

  function HoldTalkgroup(s: Scanner, resubscribe: bool): Scanner {
    var c := Subject(s);
    if c.None? then s
    else
      var t := if s.holds.talkgroup.Some? then ReleaseTalkgroup(s)
               else
                 var u := ReleaseSystem(s);
                 var m := u.holds.selection;
                 CleanQueue(u.(holds := u.holds.(
                   talkgroup := Some(m), selection := TalkgroupOverlay(m, c.value.system, c.value.talkgroup))));
      if resubscribe then Sync(t) else t
  }

  function SetEntry(m: LivefeedMap, system: int, talkgroup: int, active: bool): LivefeedMap
    requires system in m && talkgroup in m[system]
  {
    m[system := m[system][talkgroup := active]]
  }

  /** The selection after an avoid; None when the entry it names does not exist. */
  function AvoidedSelection(m: LivefeedMap, subject: Option<Call>, target: AvoidTarget, status: Option<bool>)
    : Option<LivefeedMap>
    decreases target.Current?
  {
    match target
    case All(all) =>
      var active := if status.Some? then status.value else all;
      Some(map sys | sys in m :: map tg | tg in m[sys] :: active)
    case Entry(sys, tg) =>
      if sys !in m || tg !in m[sys] then None
      else Some(SetEntry(m, sys, tg, if status.Some? then status.value else !m[sys][tg]))
    case WholeSystem(id) =>
      if id !in m then None
      else Some(m[id := map tg | tg in m[id] :: if status.Some? then status.value else !m[id][tg]])
    case Current =>
      if subject.None? then Some(m)
      else AvoidedSelection(m, None, Entry(subject.value.system, subject.value.talkgroup), status)
  }

  /** Any hold in force ends and the displayed selection becomes the user's own.
      A missing entry makes the source fail right after that. */
  function Avoid(s: Scanner, target: AvoidTarget, status: Option<bool>): Scanner {
    var m := AvoidedSelection(s.holds.selection, Subject(s), target, status);
    if m.None? then s.(holds := Holds(s.holds.selection, None, None))
    else
      var u := s.(holds := Holds(m.value, None, None));
      Sync(if u.mode != Playback then CleanQueue(u) else u)
  }

  predicate InCategory(category: Category, tg: TalkgroupConfig) {
    match category.kind
    case Group => category.name in tg.groups
    case Tag => tg.tag == category.name
  }

  /** One talkgroup of the configuration, with the system it is listed under. */
  datatype Member = Member(system: int, talkgroup: TalkgroupConfig)

  function MembersOf(c: SystemConfig): (r: seq<Member>)
    ensures |r| == |c.talkgroups| && forall k :: 0 <= k < |r| ==> r[k] == Member(c.id, c.talkgroups[k])
  {
    seq(|c.talkgroups|, k requires 0 <= k < |c.talkgroups| => Member(c.id, c.talkgroups[k]))
  }

  /** All talkgroups of the configuration, system by system. */
  function Members(systems: seq<SystemConfig>): seq<Member>
    decreases |systems|
  {
    if systems == [] then [] else Members(systems[..|systems| - 1]) + MembersOf(systems[|systems| - 1])
  }

  /** The listed talkgroup belongs to the category. */
  predicate Categorised(members: seq<Member>, category: Category, system: int, talkgroup: int) {
    exists i :: 0 <= i < |members| && members[i].system == system && members[i].talkgroup.id == talkgroup
      && InCategory(category, members[i].talkgroup)
  }

  /** The source fails here: the selection lacks the system, or a talkgroup it has to switch. */
  predicate Trips(m: LivefeedMap, category: Category, x: Member) {
    x.system !in m || (InCategory(category, x.talkgroup) && x.talkgroup.id !in m[x.system])
  }

  /** How many talkgroups of the configuration are gone through before the source fails, if it does. */
  function Untripped(m: LivefeedMap, category: Category, members: seq<Member>): (n: nat)
    ensures n <= |members|
  {
    match Find((x: Member) => Trips(m, category, x), members)
    case None => |members|
    case Some(i) => i
  }

  function CategorySelection(m: LivefeedMap, members: seq<Member>, category: Category): LivefeedMap {
    map sys | sys in m :: map tg | tg in m[sys] ::
      if Categorised(members, category, sys, tg) then category.status != On else m[sys][tg]
  }

  /** Any hold in force ends and the category is switched; where the source fails half-way, what it
      has switched by then stays, and nothing else happens. */
  function ToggleCategory(s: Scanner, category: Category): Scanner {
    var m, members := s.holds.selection, Members(s.systems);
    var n := Untripped(m, category, members);
    var t := s.(holds := Holds(CategorySelection(m, members[..n], category), None, None));
    if n < |members| then t else CleanQueue(Sync(t))
  }

  // -------------------------------------------------------------- callbacks

  /** The guard both halves of the decode callback test before they touch the audio graph. */
  predicate Fresh(d: Deck, generation: nat) {
    generation in d.jobs && d.context && d.source.None? && d.call == Some(d.jobs[generation].call)
    && generation == d.generation
  }

  function Drop(d: Deck, generation: nat): Deck {
    d.(jobs := d.jobs - {generation})
  }

  function Sound(d: Deck, job: Job): Deck {
    var source := Source(job.call, d.generation);
    d.(source := Some(source), sounding := d.sounding + {source},
       started := d.started + [Started(job.call, d.generation, job.queue)])
  }

  /** Decoding succeeded: a fresh job goes on to its alert, a stale one is dropped. */
  function DecodeDone(s: Scanner, generation: nat): Scanner {
    var d := s.deck;
    if generation !in d.jobs || d.jobs[generation].stage != Decoding then s
    else if Fresh(d, generation) then
      s.(deck := d.(jobs := d.jobs[generation := d.jobs[generation].(stage := Alerting)]))
    else s.(deck := Drop(d, generation))
  }

  function DecodeFailed(s: Scanner, generation: nat): Scanner {
    var d := s.deck;
    if generation !in d.jobs || d.jobs[generation].stage != Decoding then s
    else
      var t := s.(deck := Drop(d, generation));
      if d.call != Some(d.jobs[generation].call) || generation != d.generation then t else Skip(t, false)
  }

  /** The alert is over: the source starts, unless the job went stale meanwhile. */
  function AlertDone(s: Scanner, generation: nat): Scanner {
    var d := s.deck;
    if generation !in d.jobs || d.jobs[generation].stage != Alerting then s
    else if !Fresh(d, generation) then s.(deck := Drop(d, generation))
    else s.(deck := Sound(Drop(d, generation), d.jobs[generation]))
  }

  /** A source nobody stopped has played to its end. */
  function SourceEnded(s: Scanner, source: Source): Scanner {
    if source !in s.deck.sounding then s
    else Skip(s.(deck := s.deck.(sounding := s.deck.sounding - {source})), true)
  }

  function SkipTimerFired(s: Scanner, timer: nat): Scanner {
    if timer !in s.deck.timers then s
    else Resume(s.(deck := s.deck.(timers := s.deck.timers - {timer}, skipDelay := None)))
  }

  function CallReply(s: Scanner, c: Call, flag: Option<Flag>): Scanner {
    if flag == Some(Download) then s
    else if flag == Some(History) then
      if c.id == s.browse.historyPending != 0
      then PlayCall(s.(browse := s.browse.(historyPending := 0)), Some(c)) else s
    else if flag == Some(Play) && c.id == s.browse.pending != 0
    then Queue(s.(browse := s.browse.(pending := 0)), c, true)
    else Queue(s, c, false)
  }

  /** Results appended to a listing already on screen, without repetitions. */
  function Merged(shown: PlaybackList, incoming: PlaybackList): PlaybackList {
    var results := shown.results
      + Filter((c: Call) => forall k :: 0 <= k < |shown.results| ==> shown.results[k].id != c.id, incoming.results);
    incoming.(options := incoming.options.(limit := |results|, offset := 0), results := results)
  }

  /** A listing of the history is only shown. */
  function ListReply(s: Scanner, incoming: Option<PlaybackList>, flag: Option<Flag>): Scanner {
    if flag == Some(History) then s else ShowList(s, incoming)
  }

  function ShowList(s: Scanner, incoming: Option<PlaybackList>): Scanner {
    var shown := if s.browse.append && s.browse.list.Some? && incoming.Some?
                 then Some(Merged(s.browse.list.value, incoming.value)) else incoming;
    var t := s.(browse := s.browse.(list := shown, append := false));
    if shown.Some? && t.mode == Playback then PlaybackNextCall(t) else t
  }

  /** The decode of the current generation succeeds and its alert plays out. */
  function Hear(s: Scanner): Scanner {
    AlertDone(DecodeDone(s, s.deck.generation), s.deck.generation)
  }

  /** The source plays to its end and the pause after it runs out. */
  function Finish(s: Scanner): Scanner {
    if s.deck.source.None? then s
    else
      var e := SourceEnded(s, s.deck.source.value);
      if e.deck.skipDelay.None? then e else SkipTimerFired(e, e.deck.skipDelay.value)
  }

  // -------------------------------------------------------------------- runs

  /** The user's transport controls and archive requests. */
  datatype Control =
    | PlayGivenCall(given: Option<Call>)
    | ReplayCall
    | StopCall
    | SkipCall(delay: bool)
    | PauseListening(status: bool)
    | LivefeedButton
    | GoLive
    | StopLive
    | StopPlayback
    | LoadCall(id: nat)
    | LoadHistory(id: nat)
    | SearchArchive(options: ListOptions, append: bool)
    | Gesture
    | Leave

  /** The user's changes to what is selected. */
  datatype Choice =
    | ToggleHoldSystem
    | ToggleHoldTalkgroup
    | AvoidCalls(target: AvoidTarget, active: Option<bool>)
    | SwitchCategory(category: Category)

  /** What the browser and the server report back. */
  datatype Event =
    | Decoded(generation: nat)
    | Undecodable(generation: nat)
    | Alerted(generation: nat)
    | Ended(source: Source)
    | Woken(timer: nat)
    | CallArrived(reply: Call, flag: Option<Flag>)
    | ListArrived(list: Option<PlaybackList>, listFlag: Option<Flag>)

  datatype Step = Do(control: Control) | Choose(choice: Choice) | Get(event: Event)

  function NextControl(s: Scanner, c: Control): Scanner {
    match c
    case PlayGivenCall(given) => PlayCall(s, given)
    case ReplayCall => Replay(s)
    case StopCall => Stop(s)
    case SkipCall(delay) => Skip(s, delay)
    case PauseListening(status) => Pause(s, status)
    case LivefeedButton => ToggleLivefeed(s)
    case GoLive => StartLivefeed(s)
    case StopLive => StopLivefeed(s)
    case StopPlayback => StopPlaybackMode(s)
    case LoadCall(id) => LoadAndPlay(s, id)
    case LoadHistory(id) => LoadAndPlayHistory(s, id)
    case SearchArchive(options, append) => SearchCalls(s, options, append)
    case Gesture => InitializeAudio(s)
    case Leave => Destroy(s)
  }

  function NextChoice(s: Scanner, c: Choice): Scanner {
    match c
    case ToggleHoldSystem => HoldSystem(s, true)
    case ToggleHoldTalkgroup => HoldTalkgroup(s, true)
    case AvoidCalls(target, active) => Avoid(s, target, active)
    case SwitchCategory(category) => ToggleCategory(s, category)
  }

  /** Callbacks that are not outstanding change nothing. */
  function NextEvent(s: Scanner, e: Event): Scanner {
    match e
    case Decoded(g) => DecodeDone(s, g)
    case Undecodable(g) => DecodeFailed(s, g)
    case Alerted(g) => AlertDone(s, g)
    case Ended(source) => SourceEnded(s, source)
    case Woken(t) => SkipTimerFired(s, t)
    case CallArrived(c, flag) => CallReply(s, c, flag)
    case ListArrived(list, flag) => ListReply(s, list, flag)
  }

  function Next(s: Scanner, step: Step): Scanner {
    match step
    case Do(c) => NextControl(s, c)
    case Choose(c) => NextChoice(s, c)
    case Get(e) => NextEvent(s, e)
  }

  function Run(s: Scanner, steps: seq<Step>): Scanner
    decreases |steps|
  {
    if steps == [] then s else Next(Run(s, steps[..|steps| - 1]), steps[|steps| - 1])
  }
}
