/** Archive playback in a closed loop with the server: every request is answered from a fixed archive,
    every decode succeeds, and the listener does nothing after the click. The player is shown to visit
    the archive as PlaybackTrail says, which tells what is heard and when playback ends. */
module Playback {
  import opened Prelude
  import opened ScannerModel
  import opened Walk
  import opened PlaybackTrail

  // -------------------------------------------------------------- the server's part

  /** Stored calls, oldest first; ids are positive and different. */
  predicate IsArchive(a: seq<Call>) {
    && (forall i :: 0 <= i < |a| ==> a[i].id > 0 && a[i].audio)
    && forall i, j :: 0 <= i < j < |a| ==> a[i].id != a[j].id
  }

  function Listing(a: seq<Call>, sort: int): (l: seq<Call>)
    ensures |l| == |a|
  {
    seq(|a|, i requires 0 <= i < |a| => a[Place(|a|, sort, i)].(audio := false))
  }

  /** A page of the listing: at most 500 rows, with the total and the options echoed. */
  function Search(a: seq<Call>, o: ListOptions): PlaybackList {
    var from := Min(o.offset, |a|);
    PlaybackList(|a|, o, Listing(a, o.sort)[from..Min(from + Min(PAGE, o.limit), |a|)])
  }

  /** The server answers the oldest request; a call is sent as a new object. */
  function Serve(s: Scanner, a: seq<Call>): Scanner {
    if s.outbox == [] then s
    else
      var rest := s.(outbox := s.outbox[1..]);
      match s.outbox[0]
      case CallRequest(id, flag) =>
        var i := IndexOf(a, id);
        if i == -1 then rest else CallReply(rest, a[i].(obj := s.deck.generation), Some(flag))
      case ListRequest(options) => ListReply(rest, Some(Search(a, options)), None)
      case SelectionSync(_) => rest
  }

  // ----------------------------------------------------------------- the closed loop

  /** From one call sounding to the next: two answers at most, a page and then a call. */
  function Cycle(s: Scanner, a: seq<Call>): Scanner {
    Hear(Serve(Serve(Finish(s), a), a))
  }

  function Iterate(f: Scanner -> Scanner, s: Scanner, k: nat): Scanner {
    if k == 0 then s else f(Iterate(f, s, k - 1))
  }

  /** The player after `k` cycles against the archive. */
  function After(s: Scanner, a: seq<Call>, k: nat): Scanner {
    Iterate((t: Scanner) => Cycle(t, a), s, k)
  }

  // ------------------------------------------------------------- listings on screen

  /** A listing shows consecutive rows of the archive's, from its offset on. */
  predicate IsListing(a: seq<Call>, l: PlaybackList) {
    var o := l.options;
    l.count == |a| && o.offset + |l.results| <= |a|
    && l.results == Listing(a, o.sort)[o.offset..o.offset + |l.results|]
  }

  function ViewOf(l: PlaybackList, q: int, refreshed: bool): View {
    View(l.options.sort, l.options.limit, l.options.offset, |l.results|, q, refreshed)
  }

  /** Call number `q` is in a listing that was sent by the server or collected from its pages. */
  predicate OnScreen(a: seq<Call>, l: PlaybackList, q: int) {
    IsListing(a, l) && Fits(|a|, ViewOf(l, q, false))
  }

  lemma SearchIsListing(a: seq<Call>, o: ListOptions)
    requires o.offset <= |a|
    ensures IsListing(a, Search(a, o)) && Search(a, o).options == o
    ensures |Search(a, o).results| == Sent(|a|, o.limit, o.offset) == Min(Min(500, o.limit), |a| - o.offset)
  {
  }

  lemma RowAt(a: seq<Call>, l: PlaybackList, k: int)
    requires IsListing(a, l) && 0 <= k < |l.results|
    ensures l.results[k] == a[Place(|a|, l.options.sort, l.options.offset + k)].(audio := false)
  {
  }

  lemma SamePlace(a: seq<Call>, sort: int, i: int, j: int)
    requires IsArchive(a) && 0 <= i < |a| && 0 <= j < |a|
    ensures a[Place(|a|, sort, i)].id == a[Place(|a|, sort, j)].id <==> i == j
  {
  }

  /** A call is found in a listing exactly in its own row. */
  lemma RowOf(a: seq<Call>, l: PlaybackList, q: int)
    requires IsArchive(a) && IsListing(a, l) && 0 <= q < |a|
    ensures var p := Place(|a|, l.options.sort, q);
      IndexOf(l.results, a[q].id) ==
        if l.options.offset <= p < l.options.offset + |l.results| then p - l.options.offset else -1
  {
    var o, p := l.options, Place(|a|, l.options.sort, q);
    var i := IndexOf(l.results, a[q].id);
    assert Place(|a|, o.sort, p) == q;
    if i != -1 {
      RowAt(a, l, i);
      SamePlace(a, o.sort, o.offset + i, p);
    }
    if o.offset <= p < o.offset + |l.results| {
      RowAt(a, l, p - o.offset);
    }
  }

  lemma NumberOf(a: seq<Call>, q: int)
    requires IsArchive(a) && 0 <= q < |a|
    ensures IndexOf(a, a[q].id) == q
  {
  }

  /** The player's count of what is left is the number of later calls in the archive. */
  lemma CountsLaterCalls(a: seq<Call>, l: PlaybackList, q: int)
    requires IsArchive(a) && OnScreen(a, l, q)
    ensures QueueCount(Some(l), a[q].id) == |a| - 1 - q
  {
    RowOf(a, l, q);
  }

  // ---------------------------------------------------------- a listing grown page by page

  predicate IsNew(l: PlaybackList, c: Call) {
    forall k :: 0 <= k < |l.results| ==> l.results[k].id != c.id
  }

  lemma NextPageIsNew(a: seq<Call>, l: PlaybackList, m: PlaybackList, i: int)
    requires IsArchive(a) && IsListing(a, l) && IsListing(a, m)
    requires l.options.sort == m.options.sort && l.options.offset + |l.results| <= m.options.offset
    requires 0 <= i < |m.results|
    ensures IsNew(l, m.results[i])
  {
    RowAt(a, m, i);
    forall k | 0 <= k < |l.results| ensures l.results[k].id != m.results[i].id {
      RowAt(a, l, k);
      SamePlace(a, l.options.sort, l.options.offset + k, m.options.offset + i);
    }
  }

  lemma {:induction false} FilterAll(p: Call -> bool, s: seq<Call>)
    requires forall i :: 0 <= i < |s| ==> p(s[i])
    ensures Filter(p, s) == s
  {
    if s != [] {
      FilterAll(p, s[1..]);
    }
  }

  lemma MergesWhole(l: PlaybackList, m: PlaybackList)
    requires forall i :: 0 <= i < |m.results| ==> IsNew(l, m.results[i])
    ensures Merged(l, m).results == l.results + m.results
  {
    var p := (c: Call) => forall k :: 0 <= k < |l.results| ==> l.results[k].id != c.id;
    assert forall i :: 0 <= i < |m.results| ==> p(m.results[i]) == IsNew(l, m.results[i]);
    FilterAll(p, m.results);
  }

  lemma RowsFollow(a: seq<Call>, l: PlaybackList, o: ListOptions)
    requires IsListing(a, l) && l.options.offset == 0
    requires o.sort == l.options.sort && o.offset == |l.results|
    ensures var rows := l.results + Search(a, o).results;
      |rows| <= |a| && rows == Listing(a, o.sort)[0..|rows|]
  {
    var all, n := Listing(a, o.sort), |l.results| + |Search(a, o).results|;
    assert all[0..|l.results|] + all[|l.results|..n] == all[0..n];
  }

  /** The page that follows, appended to a listing from the first row on, gives a listing playback can
      start from again: its limit is its number of rows, however many that are. */
  lemma MergedIsOnScreen(a: seq<Call>, l: PlaybackList, o: ListOptions, q: int)
    requires IsArchive(a) && IsListing(a, l) && l.options.offset == 0 && (o.sort == -1 || o.sort >= 0)
    requires o.sort == l.options.sort && o.offset == |l.results|
    ensures var m := Merged(l, Search(a, o));
      && IsListing(a, m) && m.options.offset == 0 && m.options.limit == |m.results|
      && |m.results| == |l.results| + |Search(a, o).results|
      && (0 <= q < |a| && Place(|a|, o.sort, q) < |m.results| ==> OnScreen(a, m, q))
  {
    var page := Search(a, o);
    SearchIsListing(a, o);
    forall i | 0 <= i < |page.results| ensures IsNew(l, page.results[i]) {
      NextPageIsNew(a, l, page, i);
    }
    MergesWhole(l, page);
    RowsFollow(a, l, o);
    assert 0 <= q < |a| && Place(|a|, o.sort, q) < |Merged(l, page).results| ==>
      Fits(|a|, ViewOf(Merged(l, page), q, false));
  }

  // --------------------------------------------------------- what a row leads to

  predicate EdgeRow(l: PlaybackList, i: int) {
    if l.options.sort == -1 then i == 0 else i == |l.results| - 1
  }

  function TurnedOptions(l: PlaybackList): ListOptions {
    l.options.(offset := TurnedOffset(ViewOf(l, 0, false)))
  }

  lemma ContinuesInside(l: PlaybackList, c: Call, i: int)
    requires i == IndexOf(l.results, c.id) && i >= 0 && !EdgeRow(l, i)
    ensures var k := if l.options.sort == -1 then i - 1 else i + 1;
      0 <= k < |l.results| && Continue(l, Some(c)) == Fetch(l.results[k].id)
  {
  }

  lemma ContinuesAtEdge(l: PlaybackList, c: Call, i: int)
    requires i == IndexOf(l.results, c.id) && i >= 0 && EdgeRow(l, i)
    ensures Continue(l, Some(c)) ==
      if Turns(l.count, ViewOf(l, 0, false)) then Page(TurnedOptions(l)) else End(l.options)
  {
  }

  lemma ContinuesOutside(l: PlaybackList, c: Call)
    requires IndexOf(l.results, c.id) == -1 && |l.results| > 0
    ensures Continue(l, Some(c)) == Fetch(l.results[if l.options.sort == -1 then |l.results| - 1 else 0].id)
  {
  }

  lemma GoesToNeighbour(a: seq<Call>, l: PlaybackList, q: int, c: Call)
    requires IsArchive(a) && OnScreen(a, l, q) && c.id == a[q].id && !AtEdge(|a|, ViewOf(l, q, false))
    ensures q + 1 < |a| && Continue(l, Some(c)) == Fetch(a[q + 1].id)
  {
    var i := Place(|a|, l.options.sort, q) - l.options.offset;
    RowOf(a, l, q);
    ContinuesInside(l, c, i);
    RowAt(a, l, if l.options.sort == -1 then i - 1 else i + 1);
  }

  lemma AsksAtEdge(a: seq<Call>, l: PlaybackList, q: int, c: Call)
    requires IsArchive(a) && OnScreen(a, l, q) && c.id == a[q].id && AtEdge(|a|, ViewOf(l, q, false))
    ensures Continue(l, Some(c)) ==
      if Turns(|a|, ViewOf(l, 0, false)) then Page(TurnedOptions(l)) else End(l.options)
  {
    RowOf(a, l, q);
    ContinuesAtEdge(l, c, Place(|a|, l.options.sort, q) - l.options.offset);
  }

  /** A listing without the call just heard is entered at its oldest row. */
  lemma EntersAtOldest(a: seq<Call>, l: PlaybackList, q: int, c: Call)
    requires IsArchive(a) && IsListing(a, l) && |l.results| > 0 && 0 <= q < |a| && c.id == a[q].id
    requires !(l.options.offset <= Place(|a|, l.options.sort, q) < l.options.offset + |l.results|)
    requires l.options.sort == -1 || l.options.sort >= 0
    ensures var r := Oldest(|a|, l.options.sort, l.options.offset, |l.results|);
      0 <= r < |a| && Continue(l, Some(c)) == Fetch(a[r].id)
  {
    RowOf(a, l, q);
    ContinuesOutside(l, c);
    RowAt(a, l, if l.options.sort == -1 then |l.results| - 1 else 0);
  }

  /** The page asked for follows the listing, or restarts it, and does not hold the call just heard. */
  lemma NextIsAsked(n: nat, v: View, offset: nat, refreshed: bool)
    requires Fits(n, v) && AtEdge(n, v)
    requires if Turns(n, v) then offset == TurnedOffset(v) && refreshed == v.refreshed
      else Restarts(n, v) && offset == v.offset && refreshed
    ensures offset < n && NextView(n, v) == Some(Asked(n, v, offset, refreshed))
    ensures Fits(n, Asked(n, v, offset, refreshed)) && Sent(n, v.limit, offset) > 0
    ensures !(offset <= Place(n, v.sort, v.q) < offset + Sent(n, v.limit, offset))
  {
    NextFits(n, v);
  }

  // ------------------------------------------------------------------- loop invariant

  /** In archive playback, between calls, with no request open. */
  predicate Waiting(s: Scanner) {
    && s.mode == Mode.Playback && !s.paused && s.outbox == [] && s.previous.Some?
    && !s.deck.destroyed && s.deck.context && s.deck.call.None? && s.deck.source.None? && s.deck.skipDelay.None?
    && s.browse.pending == 0 && !s.browse.append
  }

  /** In archive playback, with a call of the archive sounding and this on screen. */
  predicate Listens(s: Scanner, a: seq<Call>, v: View) {
    && Fits(|a|, v)
    && s.mode == Mode.Playback && !s.paused && s.outbox == []
    && !s.deck.destroyed && s.deck.context && s.deck.skipDelay.None?
    && s.deck.source.Some? && s.deck.source.value in s.deck.sounding
    && s.deck.call.Some? && s.deck.call.value.id == a[v.q].id
    && s.browse.pending == 0 && !s.browse.append && s.browse.list.Some?
    && IsListing(a, s.browse.list.value) && ViewOf(s.browse.list.value, v.q, s.browse.refreshing) == v
  }

  /** `t` has heard one more call of the archive than `s`, and announced how many come after it. */
  predicate HeardNext(s: Scanner, t: Scanner, a: seq<Call>, q: int) {
    && 0 <= q < |a| && t.goesLive == s.goesLive
    && |t.deck.started| == |s.deck.started| + 1
    && t.deck.started[..|s.deck.started|] == s.deck.started
    && t.deck.started[|s.deck.started|].call.id == a[q].id
    && t.deck.started[|s.deck.started|].queue == |a| - 1 - q
  }

  /** A call was asked for to be played, and nothing else is under way. */
  predicate Asking(l: Scanner, id: nat) {
    && l.mode == Mode.Playback && !l.paused && l.outbox == [CallRequest(id, Play)]
    && !l.deck.destroyed && l.deck.context && l.deck.call.None? && l.deck.source.None? && l.deck.skipDelay.None?
    && l.browse.pending == id && !l.browse.append
  }

  /** The call asked for arrives, is queued in front, decoded and heard. */
  lemma AskedIsHeard(l: Scanner, a: seq<Call>, v: View)
    requires IsArchive(a) && Fits(|a|, v) && Asking(l, a[v.q].id) && l.browse.list.Some?
    requires IsListing(a, l.browse.list.value) && ViewOf(l.browse.list.value, v.q, l.browse.refreshing) == v
    ensures var t := Hear(Serve(l, a)); Listens(t, a, v) && HeardNext(l, t, a, v.q)
    ensures Serve(l, a).outbox == []
  {
    var id := a[v.q].id;
    NumberOf(a, v.q);
    var c := a[v.q].(obj := l.deck.generation);
    var r := l.(outbox := []);
    assert Serve(l, a) == CallReply(r, c, Some(Play)) by { assert l.outbox[1..] == []; }
    var u := r.(browse := r.browse.(pending := 0));
    assert CallReply(r, c, Some(Play)) == Queue(u, c, true);
    var w := u.(queue := [c] + u.queue);
    assert w.queue[1..] == u.queue;
    var d := u.(deck := Load(u.deck, c));
    assert Queue(u, c, true) == BeginDecode(d) by {
      assert w.(deck := Load(w.deck, c), queue := w.queue[1..]) == d;
    }
    CountsLaterCalls(a, l.browse.list.value, v.q);
    BegunIsHeard(d, c, a, v);
  }

  lemma BegunIsHeard(d: Scanner, c: Call, a: seq<Call>, v: View)
    requires Fits(|a|, v) && d.mode == Mode.Playback && !d.paused && d.outbox == []
    requires !d.deck.destroyed && d.deck.context && d.deck.skipDelay.None? && d.deck.source.None?
    requires d.deck.call == Some(c) && c.id == a[v.q].id > 0
    requires d.browse.pending == 0 && !d.browse.append && d.browse.list.Some?
    requires IsListing(a, d.browse.list.value) && ViewOf(d.browse.list.value, v.q, d.browse.refreshing) == v
    requires QueueCount(d.browse.list, c.id) == |a| - 1 - v.q
    ensures var t := Hear(BeginDecode(d)); Listens(t, a, v) && HeardNext(d, t, a, v.q)
    ensures BeginDecode(d).outbox == []
  {
  }

  /** The end of a call: the player is idle, remembers the call, and looks for the next. */
  lemma FinishWakes(s: Scanner, a: seq<Call>, v: View) returns (w: Scanner)
    requires Listens(s, a, v)
    ensures Waiting(w) && w.previous.value.id == a[v.q].id && w.browse == s.browse && w.goesLive == s.goesLive
    ensures w.deck.started == s.deck.started
    ensures Finish(s) == PlaybackNextCall(w)
  {
    var e := SourceEnded(s, s.deck.source.value);
    w := e.(deck := e.deck.(timers := e.deck.timers - {e.deck.skipDelay.value}, skipDelay := None));
  }

  // --------------------------------------------------------------- one call to the next

  lemma FetchesIsAsking(w: Scanner, id: nat)
    requires Waiting(w) && id > 0
    ensures var l := LoadAndPlay(w, id);
      Asking(l, id) && l.browse == w.browse.(pending := id) && l.goesLive == w.goesLive
      && l.deck.started == w.deck.started
  {
  }

  /** Between calls, the player fetches a call of the listing on screen and hears it. */
  lemma FetchedIsHeard(w: Scanner, a: seq<Call>, v: View)
    requires IsArchive(a) && Waiting(w) && Fits(|a|, v) && w.browse.list.Some?
    requires IsListing(a, w.browse.list.value) && ViewOf(w.browse.list.value, v.q, w.browse.refreshing) == v
    ensures var l := LoadAndPlay(w, a[v.q].id);
      Listens(Hear(Serve(l, a)), a, v) && HeardNext(w, Hear(Serve(l, a)), a, v.q) && Serve(l, a).outbox == []
  {
    FetchesIsAsking(w, a[v.q].id);
    AskedIsHeard(LoadAndPlay(w, a[v.q].id), a, v);
  }

  /** A page request is answered by showing the page and going on from it. */
  lemma ServeList(w: Scanner, a: seq<Call>, o: ListOptions)
    requires Waiting(w)
    ensures Serve(SearchCalls(w, o, false), a)
      == PlaybackNextCall(w.(browse := w.browse.(list := Some(Search(a, o)), append := false)))
  {
    var f := SearchCalls(w, o, false);
    assert f.outbox == [ListRequest(o)] && f.outbox[1..] == [];
    assert f.(outbox := []) == w;
  }

  /** From the request for a page to the call it is entered at, fetched and heard. */
  lemma PageIsEntered(w: Scanner, a: seq<Call>, o: ListOptions, v: View)
    requires IsArchive(a) && Waiting(w) && Fits(|a|, v) && o.offset <= |a|
    requires ViewOf(Search(a, o), v.q, w.browse.refreshing) == v
    requires Continue(Search(a, o), w.previous) == Fetch(a[v.q].id)
    ensures var t := Hear(Serve(Serve(SearchCalls(w, o, false), a), a)); Listens(t, a, v) && HeardNext(w, t, a, v.q)
  {
    var y := w.(browse := w.browse.(list := Some(Search(a, o)), append := false));
    ServeList(w, a, o);
    SearchIsListing(a, o);
    GoesOnWith(y, Search(a, o));
    FetchedIsHeard(y, a, v);
  }

  /** What the player does between two calls, by what the listing on screen leads to. */
  lemma GoesOnWith(w: Scanner, l: PlaybackList)
    requires Waiting(w) && w.browse.list == Some(l)
    ensures match Continue(l, w.previous)
      case Fetch(id) => PlaybackNextCall(w) == LoadAndPlay(w, id)
      case Page(o) => PlaybackNextCall(w) == SearchCalls(w, o, false)
      case End(o) => !w.browse.refreshing ==>
        PlaybackNextCall(w) == SearchCalls(w.(browse := w.browse.(refreshing := true)), o, false)
      case Nothing => true
  {
  }

  lemma NothingToServe(s: Scanner, a: seq<Call>)
    requires s.outbox == []
    ensures Serve(s, a) == s
  {
  }

  /** The view the cycle leads to, seen from the player between two calls. */
  predicate GoesOn(w: Scanner, t: Scanner, a: seq<Call>, next: View) {
    Listens(t, a, next) && HeardNext(w, t, a, next.q)
  }

  lemma RowIsHeard(w: Scanner, a: seq<Call>, v: View)
    requires IsArchive(a) && Waiting(w) && Sees(w, a, v) && !AtEdge(|a|, v)
    ensures GoesOn(w, Hear(Serve(Serve(PlaybackNextCall(w), a), a)), a, v.(q := v.q + 1))
  {
    var l := w.browse.list.value;
    GoesToNeighbour(a, l, v.q, w.previous.value);
    GoesOnWith(w, l);
    RowFits(|a|, v);
    FetchedInOneAnswer(w, a, v.(q := v.q + 1));
  }

  lemma RowFits(n: nat, v: View)
    requires Fits(n, v) && !AtEdge(n, v)
    ensures Fits(n, v.(q := v.q + 1)) && NextView(n, v) == Some(v.(q := v.q + 1))
  {
    NextFits(n, v);
  }

  lemma FetchedInOneAnswer(w: Scanner, a: seq<Call>, v: View)
    requires IsArchive(a) && Waiting(w) && Fits(|a|, v) && w.browse.list.Some?
    requires IsListing(a, w.browse.list.value) && ViewOf(w.browse.list.value, v.q, w.browse.refreshing) == v
    ensures GoesOn(w, Hear(Serve(Serve(LoadAndPlay(w, a[v.q].id), a), a)), a, v)
  {
    FetchedIsHeard(w, a, v);
    NothingToServe(Serve(LoadAndPlay(w, a[v.q].id), a), a);
  }

  /** Between calls, with the call just heard in the listing on screen. */
  predicate Sees(w: Scanner, a: seq<Call>, v: View) {
    && Fits(|a|, v) && w.previous.Some? && w.previous.value.id == a[v.q].id && w.browse.list.Some?
    && IsListing(a, w.browse.list.value) && ViewOf(w.browse.list.value, v.q, w.browse.refreshing) == v
  }

  lemma TurnIsHeard(w: Scanner, a: seq<Call>, v: View)
    requires IsArchive(a) && Waiting(w) && Sees(w, a, v) && AtEdge(|a|, v) && Turns(|a|, v)
    ensures GoesOn(w, Hear(Serve(Serve(PlaybackNextCall(w), a), a)), a, Asked(|a|, v, TurnedOffset(v), v.refreshed))
  {
    var l := w.browse.list.value;
    var o := TurnedOptions(l);
    AsksAtEdge(a, l, v.q, w.previous.value);
    GoesOnWith(w, l);
    AskedIsEntered(a, l, v, w.previous.value, o, v.refreshed);
    PageIsEntered(w, a, o, Asked(|a|, v, TurnedOffset(v), v.refreshed));
  }

  /** The page asked for is entered where the trail says. */
  lemma AskedIsEntered(a: seq<Call>, l: PlaybackList, v: View, c: Call, o: ListOptions, refreshed: bool)
    requires IsArchive(a) && OnScreen(a, l, v.q) && ViewOf(l, v.q, v.refreshed) == v && c.id == a[v.q].id
    requires AtEdge(|a|, v)
    requires if Turns(|a|, v) then o == TurnedOptions(l) && refreshed == v.refreshed
      else Restarts(|a|, v) && o == l.options && refreshed
    ensures var w := NextView(|a|, v).value;
      && NextView(|a|, v) == Some(Asked(|a|, v, o.offset, refreshed)) && o.offset < |a|
      && Fits(|a|, w) && ViewOf(Search(a, o), w.q, refreshed) == w
      && Continue(Search(a, o), Some(c)) == Fetch(a[w.q].id)
  {
    NextIsAsked(|a|, v, o.offset, refreshed);
    SearchIsListing(a, o);
    EntersAtOldest(a, Search(a, o), v.q, c);
  }

  lemma RestartIsHeard(w: Scanner, a: seq<Call>, v: View)
    requires IsArchive(a) && Waiting(w) && Sees(w, a, v) && AtEdge(|a|, v) && !Turns(|a|, v) && Restarts(|a|, v)
    ensures GoesOn(w, Hear(Serve(Serve(PlaybackNextCall(w), a), a)), a, Asked(|a|, v, 0, true))
  {
    var l := w.browse.list.value;
    var o := l.options;
    var y := w.(browse := w.browse.(refreshing := true));
    AsksAtEdge(a, l, v.q, w.previous.value);
    GoesOnWith(w, l);
    AskedIsEntered(a, l, v, w.previous.value, o, true);
    PageIsEntered(y, a, o, Asked(|a|, v, 0, true));
  }

  // ------------------------------------------------------------------ leaving playback

  /** Out of playback, with nothing sounding, waiting or asked for. */
  predicate Rests(s: Scanner) {
    s.mode != Mode.Playback && s.outbox == [] && s.queue == [] && s.deck.call.None? && s.deck.source.None?
  }

  predicate Left(s: Scanner, t: Scanner) {
    && Rests(t) && t.deck.started == s.deck.started && t.goesLive == s.goesLive
    && t.mode == (if s.goesLive then Online else Offline)
  }

  lemma LeavesQuietly(y: Scanner, a: seq<Call>)
    requires Waiting(y) && y.browse.refreshing && y.browse.list.Some?
    requires Continue(y.browse.list.value, y.previous).End?
    ensures var t := PlaybackNextCall(y);
      Left(y, Hear(Serve(t, a))) && Left(y, Hear(Serve(Serve(t, a), a)))
  {
    var t := PlaybackNextCall(y);
    assert t.deck.call.None? && t.deck.started == y.deck.started && t.queue == [];
    assert t.outbox == if y.goesLive then [SelectionSync(y.holds.selection)] else [];
    var u := Serve(t, a);
    assert u == t.(outbox := []);
    assert Serve(u, a) == u;
    assert !Fresh(u.deck, u.deck.generation);
  }

  /** At the end the listing is asked for again, unless that was done before; it is found unchanged,
      and the player leaves playback in silence. */
  lemma EndIsLeft(w: Scanner, a: seq<Call>, v: View)
    requires IsArchive(a) && Waiting(w) && Sees(w, a, v) && NextView(|a|, v).None?
    ensures Left(w, Hear(Serve(Serve(PlaybackNextCall(w), a), a)))
    ensures !v.refreshed ==> PlaybackNextCall(w).outbox == [ListRequest(w.browse.list.value.options)]
  {
    var l := w.browse.list.value;
    AsksAtEdge(a, l, v.q, w.previous.value);
    if v.refreshed {
      LeavesQuietly(w, a);
    } else {
      var y := w.(browse := w.browse.(refreshing := true));
      GoesOnWith(w, l);
      AskedAgain(a, l, v.q, w.previous.value);
      ServeList(y, a, l.options);
      LeavesQuietly(y.(browse := y.browse.(list := Some(Search(a, l.options)), append := false)), a);
    }
  }

  lemma AskedAgain(a: seq<Call>, l: PlaybackList, q: int, c: Call)
    requires IsArchive(a) && OnScreen(a, l, q) && c.id == a[q].id && NextView(|a|, ViewOf(l, q, false)).None?
    ensures Continue(Search(a, l.options), Some(c)) == End(l.options)
  {
    SearchIsListing(a, l.options);
    assert OnScreen(a, Search(a, l.options), q);
    AsksAtEdge(a, Search(a, l.options), q, c);
  }

  lemma RestIsKept(t: Scanner, a: seq<Call>)
    requires Rests(t)
    ensures Rests(Cycle(t, a)) && Cycle(t, a).deck.started == t.deck.started && Cycle(t, a).mode == t.mode
  {
    NothingToServe(t, a);
    RestHears(t);
  }

  lemma RestHears(t: Scanner)
    requires Rests(t)
    ensures Rests(Hear(t)) && Hear(t).deck.started == t.deck.started && Hear(t).mode == t.mode
  {
    assert !Fresh(t.deck, t.deck.generation);
  }

  /** The player has heard the next call of the trail, or left playback where the trail ends. */
  predicate Follows(s: Scanner, t: Scanner, a: seq<Call>, next: Option<View>) {
    if next.Some? then GoesOn(s, t, a, next.value) else Left(s, t)
  }

  lemma RowFollows(w: Scanner, a: seq<Call>, v: View)
    requires IsArchive(a) && Waiting(w) && Sees(w, a, v) && !AtEdge(|a|, v)
    ensures Follows(w, Hear(Serve(Serve(PlaybackNextCall(w), a), a)), a, NextView(|a|, v))
  {
    RowFits(|a|, v);
    RowIsHeard(w, a, v);
  }

  lemma PageFollows(w: Scanner, a: seq<Call>, v: View)
    requires IsArchive(a) && Waiting(w) && Sees(w, a, v) && AtEdge(|a|, v) && NextView(|a|, v).Some?
    ensures Follows(w, Hear(Serve(Serve(PlaybackNextCall(w), a), a)), a, NextView(|a|, v))
  {
    if Turns(|a|, v) {
      TurnIsHeard(w, a, v);
    } else {
      RestartIsHeard(w, a, v);
    }
  }

  lemma IdleFollowsTrail(w: Scanner, a: seq<Call>, v: View)
    requires IsArchive(a) && Waiting(w) && Sees(w, a, v)
    ensures Follows(w, Hear(Serve(Serve(PlaybackNextCall(w), a), a)), a, NextView(|a|, v))
  {
    if !AtEdge(|a|, v) {
      RowFollows(w, a, v);
    } else if NextView(|a|, v).Some? {
      PageFollows(w, a, v);
    } else {
      EndIsLeft(w, a, v);
    }
  }

  lemma SamePast(s: Scanner, w: Scanner, t: Scanner, a: seq<Call>, next: Option<View>)
    requires w.goesLive == s.goesLive && w.deck.started == s.deck.started && Follows(w, t, a, next)
    ensures Follows(s, t, a, next)
  {
  }

  /** One cycle hears the next call of the trail, or leaves playback where the trail ends. */
  lemma CycleFollowsTrail(s: Scanner, a: seq<Call>, v: View)
    requires IsArchive(a) && Listens(s, a, v)
    ensures Follows(s, Cycle(s, a), a, NextView(|a|, v))
  {
    var w := FinishWakes(s, a, v);
    IdleFollowsTrail(w, a, v);
    SamePast(s, w, Cycle(s, a), a, NextView(|a|, v));
  }

  // ---------------------------------------------------------------------- whole runs

  /** The sounds after those of `s` are the archive's calls with these numbers, each announced with the
      number of archive calls after it. */
  predicate LogsNumbers(before: seq<Started>, after: seq<Started>, a: seq<Call>, numbers: seq<int>) {
    && |after| == |before| + |numbers| && after[..|before|] == before
    && forall i :: 0 <= i < |numbers| ==>
         && 0 <= numbers[i] < |a|
         && after[|before| + i].call.id == a[numbers[i]].id
         && after[|before| + i].queue == |a| - 1 - numbers[i]
  }

  lemma LogsOneMore(before: seq<Started>, s: Scanner, t: Scanner, a: seq<Call>, numbers: seq<int>, q: int)
    requires LogsNumbers(before, s.deck.started, a, numbers) && HeardNext(s, t, a, q)
    ensures LogsNumbers(before, t.deck.started, a, numbers + [q])
  {
    var last, after := t.deck.started, s.deck.started;
    assert forall i :: 0 <= i < |after| ==> last[i] == last[..|after|][i];
    assert last[..|before|] == last[..|after|][..|before|];
  }

  /** `f` follows the trail, as a cycle does, and leaves a resting player at rest. */
  predicate FollowsAt(f: Scanner -> Scanner, t: Scanner, a: seq<Call>, v: View) {
    && (Listens(t, a, v) ==> Follows(t, f(t), a, NextView(|a|, v)))
    && (Rests(t) ==> Rests(f(t)) && f(t).deck.started == t.deck.started && f(t).mode == t.mode)
  }

  ghost predicate FollowsAlways(f: Scanner -> Scanner, a: seq<Call>) {
    forall t, v :: FollowsAt(f, t, a, v)
  }

  lemma CycleFollows(a: seq<Call>)
    requires IsArchive(a)
    ensures FollowsAlways((t: Scanner) => Cycle(t, a), a)
  {
    var f := (t: Scanner) => Cycle(t, a);
    forall t, v ensures FollowsAt(f, t, a, v) {
      assert f(t) == Cycle(t, a);
      if Listens(t, a, v) {
        CycleFollowsTrail(t, a, v);
      }
      if Rests(t) {
        RestIsKept(t, a);
      }
    }
  }

  /** Where a run stands: at the trail's place, or at rest in the mode playback leads to. */
  predicate Stands(s: Scanner, t: Scanner, a: seq<Call>, at: Option<View>) {
    if at.Some? then Listens(t, a, at.value) && t.goesLive == s.goesLive
    else Rests(t) && t.mode == (if s.goesLive then Online else Offline)
  }

  lemma StandsNext(f: Scanner -> Scanner, s: Scanner, t: Scanner, a: seq<Call>, at: Option<View>,
      before: seq<Started>, numbers: seq<int>)
    requires FollowsAlways(f, a) && Stands(s, t, a, at) && LogsNumbers(before, t.deck.started, a, numbers)
    ensures var next := if at.Some? then Stepping(|a|)(at.value) else None;
      && Stands(s, f(t), a, next)
      && LogsNumbers(before, f(t).deck.started, a, numbers + if next.Some? then [next.value.q] else [])
  {
    if at.Some? {
      assert FollowsAt(f, t, a, at.value);
      var next := NextView(|a|, at.value);
      if next.Some? {
        LogsOneMore(before, t, f(t), a, numbers, next.value.q);
      }
    } else {
      assert FollowsAt(f, t, a, View(0, 0, 0, 0, 0, false));
    }
  }

  lemma {:induction false} RunFollows(f: Scanner -> Scanner, s: Scanner, a: seq<Call>, v: View, k: nat)
    requires FollowsAlways(f, a) && Listens(s, a, v)
    ensures Stands(s, Iterate(f, s, k), a, Trail(|a|, v, k))
    ensures LogsNumbers(s.deck.started, Iterate(f, s, k).deck.started, a, Visited(|a|, v, k))
  {
    if k > 0 {
      RunFollows(f, s, a, v, k - 1);
      StandsNext(f, s, Iterate(f, s, k - 1), a, Trail(|a|, v, k - 1), s.deck.started, Visited(|a|, v, k - 1));
    }
  }

  // -------------------------------------------------------------- from the listener's click

  /** A listing is on screen, and the listener is not listening live. */
  predicate Browses(s: Scanner, a: seq<Call>, l: PlaybackList) {
    && s.mode != Online && !s.paused && !s.deck.destroyed && s.outbox == []
    && s.browse.list == Some(l) && !s.browse.append && (s.mode == Mode.Playback ==> s.deck.context)
  }

  /** Not listening to anything, the listener can open the archive. */
  predicate CanOpen(s: Scanner) {
    s.mode == Offline && !s.paused && !s.deck.destroyed && s.outbox == []
  }

  /** The listener asks for a page, or for a further one to be appended, and it is sent. */
  function Opened(s: Scanner, a: seq<Call>, o: ListOptions, append: bool): Scanner {
    Serve(SearchCalls(s, o, append), a)
  }

  /** A search puts its page on screen; each row of it can be picked. */
  lemma SearchIsBrowsed(s: Scanner, a: seq<Call>, o: ListOptions)
    requires CanOpen(s) && o.limit >= 1 && o.offset <= |a| && (o.sort == -1 || o.sort >= 0)
    ensures var t, l := Opened(s, a, o, false), Search(a, o);
      && Browses(t, a, l) && CanOpen(t) && IsListing(a, l)
      && forall q :: 0 <= q < |a| && o.offset <= Place(|a|, o.sort, q) < o.offset + |l.results| ==> OnScreen(a, l, q)
  {
    SearchIsListing(a, o);
    assert SearchCalls(s, o, false).outbox[1..] == [];
  }

  /** The page that follows is appended to what is on screen; each row of the whole can be picked. */
  lemma MoreIsBrowsed(s: Scanner, a: seq<Call>, l: PlaybackList, o: ListOptions)
    requires CanOpen(s) && Browses(s, a, l) && IsArchive(a) && IsListing(a, l) && l.options.offset == 0
    requires o.sort == l.options.sort && o.offset == |l.results| && (o.sort == -1 || o.sort >= 0)
    ensures var t, m := Opened(s, a, o, true), Merged(l, Search(a, o));
      && Browses(t, a, m) && CanOpen(t) && IsListing(a, m) && m.options.offset == 0
      && forall q :: 0 <= q < |a| && Place(|a|, o.sort, q) < |m.results| ==> OnScreen(a, m, q)
  {
    assert SearchCalls(s, o, true).outbox[1..] == [];
    MergedIsOnScreen(a, l, o, 0);
    forall q | 0 <= q < |a| && Place(|a|, o.sort, q) < |Merged(l, Search(a, o)).results|
      ensures OnScreen(a, Merged(l, Search(a, o)), q)
    {
      MergedIsOnScreen(a, l, o, q);
    }
  }

  /** The listener picks a call of the listing; it is fetched and heard. */
  function Picked(s: Scanner, a: seq<Call>, q: int): Scanner
    requires 0 <= q < |a|
  {
    Hear(Serve(LoadAndPlay(s, a[q].id), a))
  }

  /** Whatever was going on, and whatever was held, the call picked is heard. */
  lemma PickedIsHeard(s: Scanner, a: seq<Call>, l: PlaybackList, q: int)
    requires IsArchive(a) && Browses(s, a, l) && OnScreen(a, l, q)
    ensures Listens(Picked(s, a, q), a, ViewOf(l, q, s.browse.refreshing)) && HeardNext(s, Picked(s, a, q), a, q)
  {
    PickingAsks(s, a, l, a[q].id);
    AskedIsHeard(LoadAndPlay(s, a[q].id), a, ViewOf(l, q, s.browse.refreshing));
  }

  lemma PickingAsks(s: Scanner, a: seq<Call>, l: PlaybackList, id: nat)
    requires Browses(s, a, l) && id > 0
    ensures var t := LoadAndPlay(s, id);
      && Asking(t, id) && t.browse == s.browse.(pending := id) && t.goesLive == s.goesLive
      && t.deck.started == s.deck.started
  {
  }

  /** From the click on, the player hears the call picked and then those of the trail, announces how
      many later calls there are, and is in playback just as long as the trail goes on; after that it
      rests, listening live if it should. */
  lemma PlaybackFollowsTrail(s: Scanner, a: seq<Call>, l: PlaybackList, q: int, k: nat)
    requires IsArchive(a) && Browses(s, a, l) && OnScreen(a, l, q)
    ensures var v, t := ViewOf(l, q, s.browse.refreshing), After(Picked(s, a, q), a, k);
      && LogsNumbers(s.deck.started, t.deck.started, a, [q] + Visited(|a|, v, k))
      && (t.mode == Mode.Playback <==> Trail(|a|, v, k).Some?)
      && (t.mode != Mode.Playback ==> Rests(t) && t.mode == (if s.goesLive then Online else Offline))
  {
    var v, h := ViewOf(l, q, s.browse.refreshing), Picked(s, a, q);
    PickedIsHeard(s, a, l, q);
    CycleFollows(a);
    RunFollows((t: Scanner) => Cycle(t, a), h, a, v, k);
    LogsFirst(s.deck.started, h.deck.started, After(h, a, k).deck.started, a, q, Visited(|a|, v, k));
  }

  lemma LogsFirst(before: seq<Started>, first: seq<Started>, after: seq<Started>, a: seq<Call>, q: int,
      numbers: seq<int>)
    requires 0 <= q < |a| && |first| == |before| + 1 && first[..|before|] == before
    requires first[|before|].call.id == a[q].id && first[|before|].queue == |a| - 1 - q
    requires LogsNumbers(first, after, a, numbers)
    ensures LogsNumbers(before, after, a, [q] + numbers)
  {
    var all := [q] + numbers;
    assert forall i :: 0 <= i < |first| ==> after[i] == after[..|first|][i];
    assert after[..|before|] == after[..|first|][..|before|];
    forall i | 0 <= i < |all|
      ensures 0 <= all[i] < |a| && after[|before| + i].call.id == a[all[i]].id
        && after[|before| + i].queue == |a| - 1 - all[i]
    {
      if i > 0 {
        assert all[i] == numbers[i - 1] && after[|before| + i] == after[|first| + (i - 1)];
      }
    }
  }

  /** A call with this id is among the sounds after those of `first`. */
  ghost predicate HeardBy(first: seq<Started>, after: seq<Started>, id: nat) {
    exists i: nat :: |first| <= i < |after| && after[i].call.id == id
  }

  /** Call number `j` is heard at some time after the click. */
  ghost predicate HeardLater(s: Scanner, a: seq<Call>, q: int, j: int)
    requires 0 <= q < |a| && 0 <= j < |a|
  {
    var h := Picked(s, a, q);
    exists k: nat :: HeardBy(h.deck.started, After(h, a, k).deck.started, a[j].id)
  }

  /** The calls heard after the click come in the archive's order, later than the call picked, each once. */
  ghost predicate HeardInOrder(s: Scanner, a: seq<Call>, l: PlaybackList, q: int) {
    forall k: nat :: Rising(q, Visited(|a|, ViewOf(l, q, s.browse.refreshing), k))
  }

  /** A call is among the sounds from a moment on exactly when its number is among those logged. */
  lemma LoggedIsHeard(before: seq<Started>, after: seq<Started>, a: seq<Call>, q: int, numbers: seq<int>, j: int)
    requires IsArchive(a) && 0 <= j < |a| && LogsNumbers(before, after, a, [q] + numbers)
    ensures (exists i: nat :: |before| + 1 <= i < |after| && after[i].call.id == a[j].id) <==> j in numbers
  {
    var all := [q] + numbers;
    forall k | 0 <= k < |numbers|
      ensures 0 <= numbers[k] < |a| && after[|before| + 1 + k].call.id == a[numbers[k]].id
    {
      assert all[k + 1] == numbers[k] && after[|before| + (k + 1)].call.id == a[all[k + 1]].id;
    }
    if i: nat :| |before| + 1 <= i < |after| && after[i].call.id == a[j].id {
      assert after[|before| + 1 + (i - |before| - 1)].call.id == a[numbers[i - |before| - 1]].id;
    }
    if j in numbers {
      var k :| 0 <= k < |numbers| && numbers[k] == j;
      assert after[|before| + 1 + k].call.id == a[j].id;
    }
  }

  lemma HeardIsVisited(s: Scanner, a: seq<Call>, l: PlaybackList, q: int, j: int)
    requires IsArchive(a) && Browses(s, a, l) && OnScreen(a, l, q) && 0 <= j < |a|
    ensures HeardLater(s, a, q, j) <==> VisitedEver(|a|, ViewOf(l, q, s.browse.refreshing), j)
  {
    var v, h := ViewOf(l, q, s.browse.refreshing), Picked(s, a, q);
    PickedIsHeard(s, a, l, q);
    forall k: nat
      ensures HeardBy(h.deck.started, After(h, a, k).deck.started, a[j].id) <==> j in Visited(|a|, v, k)
    {
      PlaybackFollowsTrail(s, a, l, q, k);
      LoggedIsHeard(s.deck.started, After(h, a, k).deck.started, a, q, Visited(|a|, v, k), j);
    }
  }

  /** From any call of any listing the player can have on screen, in either order: playback ends; every
      later call of the archive is heard exactly when the listing passes none over; and the calls come
      in order, each once, exactly when the listing does not start over. */
  lemma PlaybackTraversesArchive(s: Scanner, a: seq<Call>, l: PlaybackList, q: int)
    requires IsArchive(a) && Browses(s, a, l) && OnScreen(a, l, q)
    ensures var v, h := ViewOf(l, q, s.browse.refreshing), Picked(s, a, q);
      && (exists k: nat :: After(h, a, k).mode == (if s.goesLive then Online else Offline) && Rests(After(h, a, k)))
      && ((forall j :: q < j < |a| ==> HeardLater(s, a, q, j)) <==> ReachesAll(|a|, v))
      && (HeardInOrder(s, a, l, q) <==> !Restarts(|a|, v))
  {
    var v, h := ViewOf(l, q, s.browse.refreshing), Picked(s, a, q);
    TrailEnds(|a|, v);
    var k: nat :| Trail(|a|, v, k).None?;
    PlaybackFollowsTrail(s, a, l, q, k);
    assert After(h, a, k).mode == (if s.goesLive then Online else Offline) && Rests(After(h, a, k));
    VisitsAll(|a|, v);
    forall j | q < j < |a| ensures HeardLater(s, a, q, j) <==> VisitedEver(|a|, v, j) {
      HeardIsVisited(s, a, l, q, j);
    }
    VisitsInOrder(|a|, v);
  }
}
