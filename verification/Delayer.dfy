/** Delayed release of calls: a persistent table of pending calls, timers in memory, and
    recovery after a restart. Time is in milliseconds, delays are in minutes. */
module Delayer {
  import opened Prelude

  datatype Call = Call(id: nat, timestamp: int, talkgroupDelay: nat, systemDelay: nat)

  datatype Delivery = Delivery(id: nat, at: int)

  /** `store` is the archive of accepted calls, `table` the rows of pending calls with their
      release times, `timers` the armed timers with the moment each fires. */
  datatype State = State(
    now: int,
    nextId: nat,
    store: map<nat, Call>,
    table: map<nat, int>,
    timers: map<nat, int>,
    delivered: seq<Delivery>)

  const MINUTE := 60_000

  function GetDelay(c: Call): nat {
    if c.talkgroupDelay > 0 then c.talkgroupDelay
    else if c.systemDelay > 0 then c.systemDelay
    else 0
  }

  function GetTimestamp(c: Call): int {
    c.timestamp + GetDelay(c) * MINUTE
  }

  predicate CanDelay(c: Call, now: int) {
    GetTimestamp(c) > now
  }

  // --------------------------------------------------------- when emitting terminates

  datatype Outcome = Delivered(at: int) | Held

  /** Emitting and delaying call each other, and each look at the clock is a new reading; here with a
      bound on the number of calls, from reading `i` on. */
  function EmitWithin(calls: nat, c: Call, clock: nat -> int, i: nat): Option<Outcome> {
    if calls == 0 then None
    else if CanDelay(c, clock(i)) then DelayWithin(calls - 1, c, clock, i + 1)
    else Some(Delivered(clock(i)))
  }

  function DelayWithin(calls: nat, c: Call, clock: nat -> int, i: nat): Option<Outcome> {
    if calls == 0 then None
    else if GetDelay(c) > 0 then Some(Held)
    else EmitWithin(calls - 1, c, clock, i)
  }

  /** The first reading, from number `i` on, that has come to the call's own time. */
  ghost predicate FirstInTime(c: Call, clock: nat -> int, i: nat, j: nat) {
    i <= j && clock(j) >= c.timestamp && forall k: nat :: i <= k < j ==> clock(k) < c.timestamp
  }

  /** A call without a delay is emitted at that reading, after two calls for each one before it, and
      not sooner. */
  lemma {:induction false} EmitsAtFirstInTime(c: Call, clock: nat -> int, i: nat, j: nat, calls: nat)
    requires GetDelay(c) == 0 && FirstInTime(c, clock, i, j)
    ensures EmitWithin(calls, c, clock, i) == if calls > 2 * (j - i) then Some(Delivered(clock(j))) else None
    decreases j - i
  {
    if i < j && calls >= 2 {
      EmitsAtFirstInTime(c, clock, i + 1, j, calls - 2);
    }
  }

  lemma {:induction false} NeverEmits(c: Call, clock: nat -> int, i: nat, calls: nat)
    requires GetDelay(c) == 0 && forall k: nat :: i <= k ==> clock(k) < c.timestamp
    ensures EmitWithin(calls, c, clock, i).None?
    decreases calls
  {
    if calls >= 2 {
      NeverEmits(c, clock, i + 1, calls - 2);
    }
  }

  lemma {:induction false} SomeFirstInTime(c: Call, clock: nat -> int, i: nat, j: nat)
    requires i <= j && clock(j) >= c.timestamp
    ensures exists k: nat :: FirstInTime(c, clock, i, k)
    decreases j - i
  {
    if clock(i) >= c.timestamp {
      assert FirstInTime(c, clock, i, i);
    } else {
      SomeFirstInTime(c, clock, i + 1, j);
      var k: nat :| FirstInTime(c, clock, i + 1, k);
      assert FirstInTime(c, clock, i, k);
    }
  }

  /** Emitting a call comes to an end exactly when the call has a delay or the clock at some reading has
      come to its time: with a delay within two calls, held or delivered by the first reading; without
      one at the first reading in time, number `j`, within `2 * j + 1` calls and not fewer. */
  lemma EmitTerminatesExactly(c: Call, clock: nat -> int)
    ensures (exists calls :: EmitWithin(calls, c, clock, 0).Some?)
      <==> GetDelay(c) > 0 || exists j: nat :: clock(j) >= c.timestamp
    ensures GetDelay(c) > 0 ==>
      EmitWithin(2, c, clock, 0) == Some(if CanDelay(c, clock(0)) then Held else Delivered(clock(0)))
    ensures forall j: nat :: GetDelay(c) == 0 && FirstInTime(c, clock, 0, j) ==>
      EmitWithin(2 * j + 1, c, clock, 0) == Some(Delivered(clock(j))) && EmitWithin(2 * j, c, clock, 0).None?
  {
    forall j: nat | GetDelay(c) == 0 && FirstInTime(c, clock, 0, j)
      ensures EmitWithin(2 * j + 1, c, clock, 0) == Some(Delivered(clock(j))) && EmitWithin(2 * j, c, clock, 0).None?
    {
      EmitsAtFirstInTime(c, clock, 0, j, 2 * j + 1);
      EmitsAtFirstInTime(c, clock, 0, j, 2 * j);
    }
    if GetDelay(c) > 0 {
      assert DelayWithin(1, c, clock, 1) == Some(Held);
      assert EmitWithin(2, c, clock, 0).Some?;
    } else if j: nat :| clock(j) >= c.timestamp {
      SomeFirstInTime(c, clock, 0, j);
      var k: nat :| FirstInTime(c, clock, 0, k);
      var calls := 2 * k + 1;
      EmitsAtFirstInTime(c, clock, 0, k, calls);
      assert EmitWithin(calls, c, clock, 0).Some?;
    } else {
      forall calls: nat ensures EmitWithin(calls, c, clock, 0).None? {
        NeverEmits(c, clock, 0, calls);
      }
    }
  }

  // ------------------------------------------------------------------------ the steps

  function Deliver(s: State, c: Call): State {
    s.(delivered := s.delivered + [Delivery(c.id, s.now)])
  }

  /** A pending row and a timer; a moment already past fires at once. */
  function Hold(s: State, c: Call): State {
    s.(table := s.table[c.id := GetTimestamp(c)], timers := s.timers[c.id := Max(s.now, GetTimestamp(c))])
  }

  /** A call without a delay that is dated ahead keeps its emitter busy until the clock has come to it. */
  function Emit(s: State, c: Call): State {
    if !CanDelay(c, s.now) then Deliver(s, c)
    else if GetDelay(c) > 0 then Hold(s, c)
    else Deliver(s.(now := c.timestamp), c)
  }

  function Delay(s: State, c: Call): State {
    if GetDelay(c) > 0 then Hold(s, c) else Emit(s, c)
  }

  /** One row found at a start: released when its time is past, delayed again otherwise. */
  function TakeUp(t: State, rows: map<nat, int>, id: nat): State {
    if id !in rows || id !in t.store then t
    else if rows[id] < t.now then Emit(t, t.store[id])
    else Delay(t, t.store[id])
  }

  /** The rows found at a start, taken up one by one in the given order. */
  function Recover(s: State, rows: map<nat, int>, order: seq<nat>): State
    decreases |order|
  {
    if order == [] then s else TakeUp(Recover(s, rows, order[..|order| - 1]), rows, order[|order| - 1])
  }

  /** `order` lists the rows of a table, each once. */
  ghost predicate Lists(order: seq<nat>, rows: map<nat, int>) {
    Distinct(order) && forall id :: id in order <==> id in rows
  }

  datatype Step =
    | Ingest(timestamp: int, talkgroupDelay: nat, systemDelay: nat)
    | Advance(elapsed: nat)
    | Fire(id: nat)
    | Restart(downtime: nat, order: seq<nat>)

  ghost predicate Possible(s: State, step: Step) {
    match step
    case Ingest(_, _, _) => true
    case Advance(_) => true
    case Fire(id) => id in s.timers && s.timers[id] <= s.now && id in s.store
    case Restart(_, order) => Lists(order, s.table)
  }

  function Accept(s: State, c: Call): State {
    s.(nextId := s.nextId + 1, store := s.store[c.id := c])
  }

  function Pop(s: State, id: nat): State {
    s.(table := s.table - {id}, timers := s.timers - {id})
  }

  /** The process is gone with its timers; the table and the archive are not. */
  function Reboot(s: State, downtime: nat): State {
    s.(now := s.now + downtime, table := map[], timers := map[])
  }

  function Next(s: State, step: Step): State
    requires Possible(s, step)
  {
    match step
    case Ingest(timestamp, talkgroupDelay, systemDelay) =>
      var c := Call(s.nextId, timestamp, talkgroupDelay, systemDelay);
      Emit(Accept(s, c), c)
    case Advance(elapsed) => s.(now := s.now + elapsed)
    case Fire(id) => Emit(Pop(s, id), s.store[id])
    case Restart(downtime, order) => Recover(Reboot(s, downtime), s.table, order)
  }

  // -------------------------------------------------------------------- the invariant

  predicate Pending(s: State, id: nat) {
    id in s.table
  }

  predicate Done(s: State, id: nat) {
    exists i :: 0 <= i < |s.delivered| && s.delivered[i].id == id
  }

  ghost predicate StoreOk(s: State) {
    forall id :: id in s.store ==> s.store[id].id == id && id < s.nextId
  }

  /** Rows and timers are of the same accepted, delayed calls and carry their release times. */
  ghost predicate TableOk(s: State) {
    && (forall id :: id in s.table <==> id in s.timers)
    && (forall id :: id in s.table ==>
          && id in s.store && GetDelay(s.store[id]) > 0
          && s.table[id] == s.timers[id] == GetTimestamp(s.store[id]))
  }

  /** Deliveries are of different accepted calls that are not pending, and none was early. */
  ghost predicate DeliveredOk(s: State) {
    && (forall i, j :: 0 <= i < j < |s.delivered| ==> s.delivered[i].id != s.delivered[j].id)
    && (forall i :: 0 <= i < |s.delivered| ==>
          && s.delivered[i].id in s.store && !Pending(s, s.delivered[i].id)
          && GetTimestamp(s.store[s.delivered[i].id]) <= s.delivered[i].at <= s.now)
  }

  ghost predicate NothingLost(s: State) {
    forall id :: id in s.store ==> Pending(s, id) || Done(s, id)
  }

  /** The invariant while the calls in `waiting` are still to be taken up. */
  ghost predicate ConsistentBut(s: State, waiting: set<nat>) {
    && StoreOk(s) && TableOk(s) && DeliveredOk(s)
    && (forall id :: id in waiting ==> id in s.store && !Pending(s, id) && !Done(s, id))
    && (forall id :: id in s.store && id !in waiting ==> Pending(s, id) || Done(s, id))
  }

  ghost predicate Consistent(s: State) {
    StoreOk(s) && TableOk(s) && DeliveredOk(s) && NothingLost(s)
  }

  lemma DoneAfter(s: State, c: Call, id: nat)
    ensures Done(Deliver(s, c), id) <==> Done(s, id) || id == c.id
  {
    var t := Deliver(s, c);
    assert t.delivered[|s.delivered|].id == c.id;
    assert forall i :: 0 <= i < |s.delivered| ==> t.delivered[i] == s.delivered[i];
  }

  lemma DeliverKeeps(s: State, waiting: set<nat>, c: Call)
    requires ConsistentBut(s, waiting) && c.id in waiting && s.store[c.id] == c && !CanDelay(c, s.now)
    ensures ConsistentBut(Deliver(s, c), waiting - {c.id})
  {
    var t := Deliver(s, c);
    forall id
      ensures Done(t, id) <==> Done(s, id) || id == c.id
    {
      DoneAfter(s, c, id);
    }
    assert forall i :: 0 <= i < |s.delivered| ==> Done(s, s.delivered[i].id);
  }

  lemma HoldKeeps(s: State, waiting: set<nat>, c: Call)
    requires ConsistentBut(s, waiting) && c.id in waiting && s.store[c.id] == c
    requires GetDelay(c) > 0 && GetTimestamp(c) >= s.now
    ensures ConsistentBut(Hold(s, c), waiting - {c.id})
  {
  }

  lemma LaterKeeps(s: State, waiting: set<nat>, now: int)
    requires ConsistentBut(s, waiting) && now >= s.now
    ensures ConsistentBut(s.(now := now), waiting)
  {
    assert forall id :: Done(s.(now := now), id) <==> Done(s, id);
  }

  lemma EmitKeeps(s: State, waiting: set<nat>, c: Call)
    requires ConsistentBut(s, waiting) && c.id in waiting && s.store[c.id] == c
    ensures ConsistentBut(Emit(s, c), waiting - {c.id})
  {
    if !CanDelay(c, s.now) {
      DeliverKeeps(s, waiting, c);
    } else if GetDelay(c) > 0 {
      HoldKeeps(s, waiting, c);
    } else {
      LaterKeeps(s, waiting, c.timestamp);
      DeliverKeeps(s.(now := c.timestamp), waiting, c);
    }
  }

  lemma AcceptKeeps(s: State, c: Call)
    requires Consistent(s) && c.id == s.nextId
    ensures ConsistentBut(Accept(s, c), {c.id})
  {
    var t := Accept(s, c);
    assert forall id :: Done(t, id) <==> Done(s, id);
    assert c.id !in s.store;
  }

  lemma IngestKeeps(s: State, c: Call)
    requires Consistent(s) && c.id == s.nextId
    ensures Consistent(Emit(Accept(s, c), c))
  {
    AcceptKeeps(s, c);
    EmitKeeps(Accept(s, c), {c.id}, c);
  }

  lemma FireKeeps(s: State, id: nat)
    requires Consistent(s) && id in s.timers && s.timers[id] <= s.now
    ensures Consistent(Emit(Pop(s, id), s.store[id]))
  {
    var t := Pop(s, id);
    assert forall k :: Done(t, k) <==> Done(s, k);
    assert !Done(s, id);
    assert ConsistentBut(t, {id});
    EmitKeeps(t, {id}, s.store[id]);
  }

  lemma RebootKeeps(s: State, downtime: nat)
    requires Consistent(s)
    ensures ConsistentBut(Reboot(s, downtime), s.table.Keys)
  {
    var t := Reboot(s, downtime);
    assert forall k :: Done(t, k) <==> Done(s, k);
  }

  ghost function Remaining(rows: map<nat, int>, order: seq<nat>): set<nat> {
    set id | id in rows && id !in order
  }

  /** The rows of a consistent table. */
  ghost predicate RowsOf(rows: map<nat, int>, store: map<nat, Call>) {
    forall id :: id in rows ==>
      id in store && store[id].id == id && rows[id] == GetTimestamp(store[id]) && GetDelay(store[id]) > 0
  }

  lemma TakeUpKeeps(t: State, waiting: set<nat>, rows: map<nat, int>, id: nat)
    requires ConsistentBut(t, waiting) && RowsOf(rows, t.store) && id in rows && id in waiting
    ensures var u := TakeUp(t, rows, id);
      ConsistentBut(u, waiting - {id}) && u.store == t.store && u.now == t.now
  {
    if rows[id] < t.now {
      EmitKeeps(t, waiting, t.store[id]);
    } else {
      HoldKeeps(t, waiting, t.store[id]);
    }
  }

  lemma SameWaiting(s: State, v: set<nat>, w: set<nat>)
    requires ConsistentBut(s, v) && forall id :: id in v <==> id in w
    ensures ConsistentBut(s, w)
  {
  }

  /** Taking up the rows in any order keeps the invariant for those still waiting. */
  lemma {:induction false} RecoverKeeps(s: State, rows: map<nat, int>, order: seq<nat>)
    requires ConsistentBut(s, rows.Keys) && RowsOf(rows, s.store)
    requires Distinct(order) && forall id :: id in order ==> id in rows
    ensures ConsistentBut(Recover(s, rows, order), Remaining(rows, order))
    ensures Recover(s, rows, order).store == s.store && Recover(s, rows, order).now == s.now
    decreases |order|
  {
    if order == [] {
      SameWaiting(s, rows.Keys, Remaining(rows, order));
    } else {
      var before, id := order[..|order| - 1], order[|order| - 1];
      assert order == before + [id];
      RecoverKeeps(s, rows, before);
      var t := Recover(s, rows, before);
      TakeUpKeeps(t, Remaining(rows, before), rows, id);
      SameWaiting(TakeUp(t, rows, id), Remaining(rows, before) - {id}, Remaining(rows, order));
    }
  }

  lemma RestartKeeps(s: State, downtime: nat, order: seq<nat>)
    requires Consistent(s) && Lists(order, s.table)
    ensures Consistent(Recover(Reboot(s, downtime), s.table, order))
  {
    RebootKeeps(s, downtime);
    RecoverKeeps(Reboot(s, downtime), s.table, order);
    assert forall id :: id !in Remaining(s.table, order);
  }

  lemma NextKeeps(s: State, step: Step)
    requires Consistent(s) && Possible(s, step)
    ensures Consistent(Next(s, step))
  {
    match step
    case Ingest(timestamp, talkgroupDelay, systemDelay) =>
      IngestKeeps(s, Call(s.nextId, timestamp, talkgroupDelay, systemDelay));
    case Advance(elapsed) =>
      assert forall k :: Done(s.(now := s.now + elapsed), k) <==> Done(s, k);
    case Fire(id) => FireKeeps(s, id);
    case Restart(downtime, order) => RestartKeeps(s, downtime, order);
  }

  // ------------------------------------------------------ what one step delivers, and when

  /** What an outcome of emitting does: the pending row and timer, or a delivery when the clock stood there. */
  function Settle(s: State, c: Call, outcome: Outcome): State {
    match outcome
    case Held => Hold(s, c)
    case Delivered(at) => Deliver(s.(now := at), c)
  }

  predicate Settles(s: State, c: Call, outcome: Option<Outcome>, t: State) {
    outcome.Some? && t == Settle(s, c, outcome.value)
  }

  function Ticking(now: int): nat -> int { (k: nat) => now + k }

  /** A step emits, or delays, a call as the two functions do that call each other, with a clock that moves on by one
      between two readings. */
  lemma EmitFollowsReadings(s: State, c: Call)
    ensures exists calls :: Settles(s, c, EmitWithin(calls, c, Ticking(s.now), 0), Emit(s, c))
    ensures exists calls :: Settles(s, c, DelayWithin(calls, c, Ticking(s.now), 0), Delay(s, c))
  {
    var clock := Ticking(s.now);
    var wait := Max(0, c.timestamp - s.now);
    if GetDelay(c) == 0 {
      EmitsAtFirstInTime(c, clock, 0, wait, 2 * wait + 1);
      var calls := 2 * wait + 1;
      assert EmitWithin(calls, c, clock, 0) == Some(Delivered(clock(wait)));
      assert Settles(s, c, EmitWithin(calls, c, clock, 0), Emit(s, c));
      assert Settles(s, c, DelayWithin(calls + 1, c, clock, 0), Delay(s, c));
    } else {
      assert DelayWithin(1, c, clock, 1) == Some(Held);
      assert Settles(s, c, EmitWithin(2, c, clock, 0), Emit(s, c));
      assert Settles(s, c, DelayWithin(1, c, clock, 0), Delay(s, c));
    }
  }

  /** A call's release is its time, later by the delay of its talkgroup in minutes, or else by that of its system. */
  lemma ReleaseTime(c: Call)
    ensures GetTimestamp(c) == c.timestamp + 60_000 * (if c.talkgroupDelay > 0 then c.talkgroupDelay else c.systemDelay)
  {
  }

  /** A timer delivers its call when it fires, and nothing else. */
  lemma FireDelivers(s: State, id: nat)
    requires Consistent(s) && Possible(s, Fire(id))
    ensures var t := Next(s, Fire(id));
      && t.delivered == s.delivered + [Delivery(id, s.now)] && !Pending(t, id) && t.store == s.store
      && forall k :: k != id ==> (Pending(t, k) <==> Pending(s, k))
  {
  }

  /** Time passes as it does: waiting and being down take as long as they take, firing takes none, and taking a call in
      takes none either, unless it has no delay and is dated ahead. */
  lemma ClockGoesOn(s: State, step: Step)
    requires Consistent(s) && Possible(s, step)
    ensures Next(s, step).now ==
      match step
      case Ingest(timestamp, talkgroupDelay, systemDelay) =>
        if talkgroupDelay == 0 && systemDelay == 0 then Max(s.now, timestamp) else s.now
      case Advance(elapsed) => s.now + elapsed
      case Fire(_) => s.now
      case Restart(downtime, _) => s.now + downtime
  {
    if step.Restart? {
      RebootKeeps(s, step.downtime);
      RecoverKeeps(Reboot(s, step.downtime), s.table, step.order);
    }
  }

  // ------------------------------------------------------------------------ whole runs

  /** `trace` is a run: each state follows from the one before by a possible step. */
  ghost predicate IsRun(trace: seq<State>, steps: seq<Step>) {
    && |trace| == |steps| + 1
    && trace[0].store == map[] && trace[0].table == map[] && trace[0].timers == map[] && trace[0].delivered == []
    && forall i :: 0 <= i < |steps| ==> Possible(trace[i], steps[i]) && trace[i + 1] == Next(trace[i], steps[i])
  }

  lemma {:induction false} RunConsistent(trace: seq<State>, steps: seq<Step>, i: nat)
    requires IsRun(trace, steps) && i <= |steps|
    ensures Consistent(trace[i])
  {
    if i > 0 {
      RunConsistent(trace, steps, i - 1);
      NextKeeps(trace[i - 1], steps[i - 1]);
    }
  }

  /** After any run of ingests, waits, timers and restarts every accepted call is pending or
      delivered and not both, it was delivered once and never before its release time, and
      the pending rows are exactly the armed timers. */
  lemma EachCallOnceAndNeverEarly(trace: seq<State>, steps: seq<Step>)
    requires IsRun(trace, steps)
    ensures var s := trace[|steps|];
      && (forall id :: id in s.store ==> (Pending(s, id) <==> !Done(s, id)))
      && (forall i, j :: 0 <= i < j < |s.delivered| ==> s.delivered[i].id != s.delivered[j].id)
      && (forall i :: 0 <= i < |s.delivered| ==>
            && s.delivered[i].id in s.store
            && s.delivered[i].at >= GetTimestamp(s.store[s.delivered[i].id]))
      && (forall id :: id in s.table <==> id in s.timers)
  {
    RunConsistent(trace, steps, |steps|);
  }

  /** And when no timer is overdue, the delivered calls are exactly those whose time has come. */
  lemma DeliveredExactlyWhenDue(trace: seq<State>, steps: seq<Step>, id: nat)
    requires IsRun(trace, steps)
    requires var s := trace[|steps|]; id in s.store && forall k :: k in s.timers ==> s.timers[k] > s.now
    ensures var s := trace[|steps|]; Done(s, id) <==> GetTimestamp(s.store[id]) <= s.now
  {
    RunConsistent(trace, steps, |steps|);
  }

  // ------------------------------------------------------------------- the object itself

  class CallDelayer {
    var now: int
    var nextId: nat
    var store: map<nat, Call>
    var table: map<nat, int>
    var timers: map<nat, int>
    var delivered: seq<Delivery>

    function View(): State
      reads this
    {
      State(now, nextId, store, table, timers, delivered)
    }

    constructor (now: int)
      ensures View() == State(now, 1, map[], map[], map[], [])
    {
      this.now, nextId, store, table, timers, delivered := now, 1, map[], map[], map[], [];
    }

    method EmitCall(c: Call)
      modifies this
      ensures View() == Emit(old(View()), c)
      decreases Max(0, GetTimestamp(c) - now), 1
    {
      if CanDelay(c, now) {
        DelayCall(c);
      } else {
        delivered := delivered + [Delivery(c.id, now)];
      }
    }

    /** Without a delay the call goes back to being emitted, and meanwhile the clock goes on: one
        millisecond between two readings stands for as many as it takes. */
    method DelayCall(c: Call)
      modifies this
      ensures View() == Delay(old(View()), c)
      decreases Max(0, GetTimestamp(c) - now), if CanDelay(c, now) then 0 else 2
    {
      if GetDelay(c) > 0 {
        var timestamp := GetTimestamp(c);
        table := table[c.id := timestamp];
        timers := timers[c.id := Max(now, timestamp)];
      } else {
        if CanDelay(c, now) {
          now := now + 1;
        }
        EmitCall(c);
      }
    }

    /** The timer's callback. */
    method OnTimer(id: nat)
      requires Possible(View(), Fire(id))
      modifies this
      ensures View() == Next(old(View()), Fire(id))
    {
      var c := store[id];
      table := table - {id};
      timers := timers - {id};
      EmitCall(c);
    }

    /** Recovery: the rows are read, the table is emptied, and each row's call is released or
        delayed again, in no particular order. */
    method Start() returns (ghost order: seq<nat>)
      requires timers == map[]
      requires RowsOf(table, store)
      modifies this
      ensures Lists(order, old(table))
      ensures View() == Recover(old(View()).(table := map[]), old(table), order)
    {
      var rows := table;
      table := map[];
      order := [];
      var left: set<int> := set id | id in rows :: id as int;
      ghost var start := View();
      while left != {}
        invariant View() == Recover(start, rows, order)
        invariant store == start.store && now == start.now
        invariant Distinct(order) && forall id :: id in order <==> id in rows && id !in left
        invariant forall id :: id in left ==> id >= 0 && id in rows
        decreases left
      {
        HasElement(left);
        var id :| id in left;
        ghost var more := order + [id];
        assert more[..|more| - 1] == order;
        assert Recover(start, rows, more) == TakeUp(View(), rows, id);
        var c := store[id];
        if rows[id] < now {
          EmitCall(c);
        } else {
          DelayCall(c);
        }
        order := more;
        left := left - {id};
      }
    }
  }
}
