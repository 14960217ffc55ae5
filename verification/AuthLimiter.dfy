/** The limiter of access-code attempts: a table swept only when somebody fails again,
    which answers as if it kept the whole history. Time is in milliseconds. */
module AuthLimiter {
  import opened Prelude

  const WINDOW := 15 * 60 * 1000

  datatype Attempt = Attempt(count: nat, expiresAt: int)

  type Table = map<string, Attempt>

  // ------------------------------------------------------------------- the table's steps

  function Swept(table: Table, now: int): Table {
    map ip | ip in table && table[ip].expiresAt > now :: table[ip]
  }

  function AfterFailure(table: Table, ip: string, maximum: nat, now: int): Table {
    if maximum == 0 then table - {ip}
    else
      var live := Swept(table, now);
      live[ip := Attempt((if ip in live then live[ip].count else 0) + 1, now + WINDOW)]
  }

  function FailureAnswer(table: Table, ip: string, maximum: nat, now: int): int {
    if maximum > 0 && AfterFailure(table, ip, maximum, now)[ip].count >= maximum then WINDOW else 0
  }

  function RetryAnswer(table: Table, ip: string, maximum: nat, now: int): int {
    if maximum == 0 || ip !in table || table[ip].count < maximum then 0
    else Max(0, table[ip].expiresAt - now)
  }

  function AfterQuestion(table: Table, ip: string, maximum: nat, now: int): Table {
    if maximum == 0 || (ip in table && table[ip].count >= maximum && table[ip].expiresAt <= now) then table - {ip}
    else table
  }

  // ------------------------------------------------------------------- the full history

  datatype Event =
    | Failed(ip: string, maximum: nat, at: int)
    | Asked(ip: string, maximum: nat, at: int)
    | Reset(ip: string)

  /** The times of an address's failures since it was last cleared, by a success or because
      the limit was switched off. */
  function Failures(history: seq<Event>, ip: string): seq<int>
    decreases |history|
  {
    if history == [] then []
    else
      TimesAfter(Failures(history[..|history| - 1], ip), history[|history| - 1], ip)
  }

  function TimesAfter(times: seq<int>, e: Event, ip: string): seq<int> {
    if e.ip != ip then times
    else if e.Reset? || e.maximum == 0 then []
    else if e.Failed? then times + [e.at]
    else times
  }

  /** How many failures at the end follow each other with gaps under the window. */
  function Run(times: seq<int>): nat
    decreases |times|
  {
    var n := |times|;
    if n == 0 then 0
    else if n > 1 && times[n - 1] - times[n - 2] < WINDOW then Run(times[..n - 1]) + 1
    else 1
  }

  /** The run an address is held to at a moment: none when its last failure is a window old. */
  function LiveRun(times: seq<int>, now: int): nat {
    if times == [] || times[|times| - 1] + WINDOW <= now then 0 else Run(times)
  }

  /** What the whole history says to a question at a moment. */
  function Owed(times: seq<int>, maximum: nat, now: int): int {
    if maximum > 0 && LiveRun(times, now) >= maximum then times[|times| - 1] + WINDOW - now else 0
  }

  function Replay(history: seq<Event>): Table
    decreases |history|
  {
    if history == [] then map[] else AfterEvent(Replay(history[..|history| - 1]), history[|history| - 1])
  }

  function AfterEvent(table: Table, e: Event): Table {
    match e
    case Failed(ip, maximum, at) => AfterFailure(table, ip, maximum, at)
    case Asked(ip, maximum, at) => AfterQuestion(table, ip, maximum, at)
    case Reset(ip) => table - {ip}
  }

  /** The clock never runs backwards, and `now` is not before any event. */
  predicate Monotone(history: seq<Event>, now: int) {
    && (forall i :: 0 <= i < |history| && !history[i].Reset? ==> history[i].at <= now)
    && forall i, j ::
      0 <= i < j < |history| && !history[i].Reset? && !history[j].Reset? ==> history[i].at <= history[j].at
  }

  /** An entry is the run of its address with the end of its window; an address without one
      has no failure left inside the window. */
  ghost predicate Agrees(table: Table, history: seq<Event>, now: int) {
    forall ip :: AgreesOn(table, Failures(history, ip), ip, now)
  }

  predicate AgreesOn(table: Table, times: seq<int>, ip: string, now: int) {
    if ip in table
    then times != [] && table[ip] == Attempt(Run(times), times[|times| - 1] + WINDOW)
    else times == [] || times[|times| - 1] + WINDOW <= now
  }

  /** One more failure lengthens a run still inside the window and starts a new one otherwise. */
  lemma RunGrows(times: seq<int>, at: int)
    ensures Run(times + [at]) == LiveRun(times, at) + 1
  {
    var more := times + [at];
    assert more[..|more| - 1] == times;
  }

  lemma FailureAgrees(table: Table, times: seq<int>, ip: string, other: string, maximum: nat, before: int, now: int)
    requires AgreesOn(table, times, other, before) && before <= now && maximum > 0
    ensures AgreesOn(AfterFailure(table, ip, maximum, now), if other == ip then times + [now] else times, other, now)
  {
    RunGrows(times, now);
  }

  lemma EventAgrees(table: Table, times: seq<int>, e: Event, ip: string, before: int, now: int)
    requires AgreesOn(table, times, ip, before) && before <= now && (!e.Reset? ==> before <= e.at <= now)
    ensures AgreesOn(AfterEvent(table, e), TimesAfter(times, e, ip), ip, now)
  {
    if e.Failed? && e.maximum > 0 {
      FailureAgrees(table, times, e.ip, ip, e.maximum, before, e.at);
    }
  }

  lemma StepAgrees(table: Table, history: seq<Event>, e: Event, before: int, now: int)
    requires Agrees(table, history, before) && before <= now && (!e.Reset? ==> before <= e.at <= now)
    ensures Agrees(AfterEvent(table, e), history + [e], now)
  {
    var longer := history + [e];
    assert longer[..|longer| - 1] == history;
    forall ip ensures AgreesOn(AfterEvent(table, e), Failures(longer, ip), ip, now) {
      assert AgreesOn(table, Failures(history, ip), ip, before);
      EventAgrees(table, Failures(history, ip), e, ip, before, now);
    }
  }

  /** For every history with a clock that does not run backwards, whatever the limits in force
      along it, the swept table agrees with the history. */
  lemma {:induction false} TableAgreesWithHistory(history: seq<Event>, now: int)
    requires Monotone(history, now)
    ensures Agrees(Replay(history), history, now)
    decreases |history|
  {
    if history != [] {
      var earlier := history[..|history| - 1];
      var e := history[|history| - 1];
      var at := if e.Reset? then now else e.at;
      TableAgreesWithHistory(earlier, at);
      assert history == earlier + [e];
      StepAgrees(Replay(earlier), earlier, e, at, now);
    }
  }

  /** A question is answered with a wait exactly when the address's live run has reached the
      limit, and the wait is what is left of the window after its last failure. */
  lemma AnswersQuestionsByHistory(history: seq<Event>, ip: string, maximum: nat, now: int)
    requires Monotone(history, now)
    ensures RetryAnswer(Replay(history), ip, maximum, now) == Owed(Failures(history, ip), maximum, now)
    ensures RetryAnswer(Replay(history), ip, maximum, now) > 0
            <==> maximum > 0 && LiveRun(Failures(history, ip), now) >= maximum
  {
    TableAgreesWithHistory(history, now);
    assert AgreesOn(Replay(history), Failures(history, ip), ip, now);
  }

  /** A failure locks exactly when the run it completes reaches the limit. */
  lemma AnswersFailuresByHistory(history: seq<Event>, ip: string, maximum: nat, now: int)
    requires Monotone(history, now)
    ensures FailureAnswer(Replay(history), ip, maximum, now)
            == if maximum > 0 && LiveRun(Failures(history, ip), now) + 1 >= maximum then 15 * 60 * 1000 else 0
  {
    TableAgreesWithHistory(history, now);
    assert AgreesOn(Replay(history), Failures(history, ip), ip, now);
  }

  // -------------------------------------------------------------------- the object itself

  lemma NoAddress(s: set<string>)
    ensures (forall x :: x !in s) ==> s == {}
  {
    if forall x :: x !in s {
      assert forall x :: x in s <==> x in {};
    }
  }

  lemma HasAddress(s: set<string>)
    requires s != {}
    ensures exists x :: x in s
  {
    NoAddress(s);
  }

  class Limiter {
    var attempts: Table

    constructor ()
      ensures attempts == map[]
    {
      attempts := map[];
    }

    method Sweep(now: int)
      modifies this
      ensures attempts == Swept(old(attempts), now)
    {
      var left := attempts.Keys;
      ghost var start := attempts;
      while left != {}
        invariant left <= start.Keys
        invariant attempts.Keys <= start.Keys
        invariant forall ip :: ip in start ==> (ip in attempts <==> ip in left || start[ip].expiresAt > now)
        invariant forall ip :: ip in attempts ==> attempts[ip] == start[ip]
        decreases left
      {
        HasAddress(left);
        var ip :| ip in left;
        left := left - {ip};
        if attempts[ip].expiresAt <= now {
          attempts := attempts - {ip};
        }
      }
      assert forall ip :: ip in attempts <==> ip in Swept(start, now);
      assert forall ip :: ip in attempts ==> attempts[ip] == Swept(start, now)[ip];
    }

    method Failed(ip: string, maximum: nat, now: int) returns (wait: int)
      modifies this
      ensures attempts == AfterFailure(old(attempts), ip, maximum, now)
      ensures wait == FailureAnswer(old(attempts), ip, maximum, now)
    {
      if maximum == 0 {
        attempts := attempts - {ip};
        return 0;
      }
      Sweep(now);
      var count := if ip in attempts then attempts[ip].count else 0;
      attempts := attempts[ip := Attempt(count + 1, now + WINDOW)];
      return if attempts[ip].count >= maximum then WINDOW else 0;
    }

    method Reset(ip: string)
      modifies this
      ensures attempts == old(attempts) - {ip}
    {
      attempts := attempts - {ip};
    }

    method RetryAfter(ip: string, maximum: nat, now: int) returns (wait: int)
      modifies this
      ensures attempts == AfterQuestion(old(attempts), ip, maximum, now)
      ensures wait == RetryAnswer(old(attempts), ip, maximum, now)
    {
      if maximum == 0 {
        attempts := attempts - {ip};
        return 0;
      }
      if ip !in attempts || attempts[ip].count < maximum {
        return 0;
      }
      wait := attempts[ip].expiresAt - now;
      if wait <= 0 {
        attempts := attempts - {ip};
        return 0;
      }
    }
  }
}
