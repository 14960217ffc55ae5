/** The stored calls: duplicate detection on the way in, pruning by age. A call's time is in
    nanoseconds, as it arrives; the archive keeps milliseconds. */
module CallArchive {
  import opened Prelude

  datatype Incoming = Incoming(system: nat, talkgroup: nat, nanos: int)
  datatype Stored = Stored(id: nat, system: nat, talkgroup: nat, timestamp: int)

  const MILLISECOND := 1_000_000
  const DAY := 24 * 60 * 60 * 1000

  /** Whole milliseconds, rounded down. */
  function UnixMilli(nanos: int): int {
    nanos / MILLISECOND
  }

  predicate Collides(s: Stored, c: Incoming, frame: nat) {
    && s.system == c.system && s.talkgroup == c.talkgroup
    && UnixMilli(c.nanos - frame * MILLISECOND) <= s.timestamp <= UnixMilli(c.nanos + frame * MILLISECOND)
  }

  predicate Duplicate(archive: seq<Stored>, c: Incoming, frame: nat) {
    exists i :: 0 <= i < |archive| && Collides(archive[i], c, frame)
  }

  /** The stored rows, oldest insert first, and the next identifier the table hands out. */
  datatype Archive = Archive(rows: seq<Stored>, nextId: nat)

  const Empty := Archive([], 1)

  function Write(a: Archive, c: Incoming): Archive {
    Archive(a.rows + [Stored(a.nextId, c.system, c.talkgroup, UnixMilli(c.nanos))], a.nextId + 1)
  }

  function Pruned(a: Archive, days: nat, now: int): Archive {
    a.(rows := Filter((s: Stored) => s.timestamp >= now - days * DAY, a.rows))
  }

  datatype Step = Ingest(call: Incoming) | Prune(days: nat, now: int)

  function Next(a: Archive, frame: nat, step: Step): Archive {
    match step
    case Ingest(c) => if Duplicate(a.rows, c, frame) then a else Write(a, c)
    case Prune(days, now) => Pruned(a, days, now)
  }

  function Run(steps: seq<Step>, frame: nat): Archive
    decreases |steps|
  {
    if steps == [] then Empty else Next(Run(steps[..|steps| - 1], frame), frame, steps[|steps| - 1])
  }

  function Distance(a: Stored, b: Stored): nat {
    if a.timestamp < b.timestamp then b.timestamp - a.timestamp else a.timestamp - b.timestamp
  }

  predicate SameChannel(a: Stored, b: Stored) {
    a.system == b.system && a.talkgroup == b.talkgroup
  }

  /** Two rows, the first stored before the second: the second has a later identifier, and
      on the same channel they are more than the frame apart. */
  predicate FarEnough(a: Stored, b: Stored, frame: nat) {
    a.id < b.id && (SameChannel(a, b) ==> Distance(a, b) > frame)
  }

  predicate Apart(a: Archive, frame: nat) {
    && Pairwise((x: Stored, y: Stored) => FarEnough(x, y, frame), a.rows)
    && forall i :: 0 <= i < |a.rows| ==> a.rows[i].id < a.nextId
  }

  /** In whole milliseconds a stored call collides exactly when it is no farther than the frame. */
  lemma CollidesWithinFrame(s: Stored, c: Incoming, frame: nat, t: Stored)
    requires t.system == c.system && t.talkgroup == c.talkgroup
    requires t.timestamp * 1_000_000 <= c.nanos < (t.timestamp + 1) * 1_000_000
    ensures Collides(s, c, frame) <==> SameChannel(s, t) && Distance(s, t) <= frame
  {
    assert t.timestamp == UnixMilli(c.nanos);
    var back: int := -(frame as int);
    assert back * MILLISECOND == -(frame * MILLISECOND);
  }

  lemma WriteKeepsApart(a: Archive, c: Incoming, frame: nat)
    requires Apart(a, frame)
    ensures Apart(Write(a, c), frame) <==> !Duplicate(a.rows, c, frame)
  {
    var r := Write(a, c).rows;
    var last := |a.rows|;
    forall i | 0 <= i < last
      ensures r[i] == a.rows[i]
      ensures Collides(a.rows[i], c, frame) <==> !FarEnough(r[i], r[last], frame)
    {
      CollidesWithinFrame(a.rows[i], c, frame, r[last]);
    }
    if i :| 0 <= i < last && Collides(a.rows[i], c, frame) {
      assert !FarEnough(r[i], r[last], frame);
    }
  }

  lemma PruneKeepsApart(a: Archive, days: nat, now: int, frame: nat)
    requires Apart(a, frame)
    ensures Apart(Pruned(a, days, now), frame)
    ensures forall s :: s in Pruned(a, days, now).rows <==> s in a.rows && s.timestamp >= now - days * 86_400_000
  {
    FilterKeepsPairs((x: Stored, y: Stored) => FarEnough(x, y, frame),
      (s: Stored) => s.timestamp >= now - days * DAY, a.rows);
    var r := Pruned(a, days, now).rows;
    forall i | 0 <= i < |r| ensures r[i].id < a.nextId {
      assert r[i] in a.rows;
    }
  }

  /** Too old for a prune with that limit. */
  predicate Outdated(s: Stored, step: Step) {
    step.Prune? && s.timestamp < step.now - step.days * 86_400_000
  }

  /** The row of a call: its channel, and its time in whole milliseconds. */
  predicate IsRowOf(s: Stored, c: Incoming) {
    s.system == c.system && s.talkgroup == c.talkgroup
    && s.timestamp * 1_000_000 <= c.nanos < (s.timestamp + 1) * 1_000_000
  }

  /** A step stores the call it takes in, unless that is a duplicate, under a new identifier, and drops only what is
      outdated. */
  lemma StepStores(a: Archive, frame: nat, step: Step)
    ensures var b := Next(a, frame, step);
      && (forall s :: s in a.rows ==> s in b.rows || Outdated(s, step))
      && (forall s :: s in b.rows ==> s in a.rows || (step.Ingest? && s.id == a.nextId && IsRowOf(s, step.call)))
      && (step.Ingest? && !Duplicate(a.rows, step.call, frame) ==> exists s :: s in b.rows && IsRowOf(s, step.call))
  {
    if step.Ingest? {
      var b := Write(a, step.call);
      assert b.rows[|a.rows|] in b.rows && IsRowOf(b.rows[|a.rows|], step.call);
    }
  }

  /** Some step from number `i` on found it outdated. */
  predicate OutdatedSince(s: Stored, steps: seq<Step>, i: nat) {
    exists j :: i <= j < |steps| && Outdated(s, steps[j])
  }

  lemma OutdatedLater(s: Stored, steps: seq<Step>, i: nat)
    requires |steps| > 0
    ensures i < |steps| && OutdatedSince(s, steps[..|steps| - 1], i) ==> OutdatedSince(s, steps, i)
    ensures i < |steps| && Outdated(s, steps[|steps| - 1]) ==> OutdatedSince(s, steps, i)
  {
    var before := steps[..|steps| - 1];
    assert forall j :: 0 <= j < |before| ==> before[j] == steps[j];
  }

  /** A stored call is there until a prune finds it outdated. */
  lemma {:induction false} LostOnlyByPruning(steps: seq<Step>, frame: nat, i: nat, s: Stored)
    requires i <= |steps| && s in Run(steps[..i], frame).rows
    ensures s in Run(steps, frame).rows || OutdatedSince(s, steps, i)
    decreases |steps|
  {
    if i == |steps| {
      assert steps[..i] == steps;
    } else {
      var n := |steps| - 1;
      assert steps[..n][..i] == steps[..i];
      LostOnlyByPruning(steps[..n], frame, i, s);
      OutdatedLater(s, steps, i);
      StepStores(Run(steps[..n], frame), frame, steps[n]);
    }
  }

  /** Through any mix of ingests and prunes, with one frame, the archive keeps calls of a
      channel more than the frame apart; and a call is turned away exactly when storing it
      would have broken that. */
  lemma {:induction false} ArchiveStaysApart(steps: seq<Step>, frame: nat)
    ensures Apart(Run(steps, frame), frame)
    ensures forall c :: Duplicate(Run(steps, frame).rows, c, frame) <==> !Apart(Write(Run(steps, frame), c), frame)
    decreases |steps|
  {
    if steps != [] {
      var before := Run(steps[..|steps| - 1], frame);
      ArchiveStaysApart(steps[..|steps| - 1], frame);
      match steps[|steps| - 1]
      case Ingest(c) => WriteKeepsApart(before, c, frame);
      case Prune(days, now) => PruneKeepsApart(before, days, now, frame);
    }
    forall c ensures Duplicate(Run(steps, frame).rows, c, frame) <==> !Apart(Write(Run(steps, frame), c), frame) {
      WriteKeepsApart(Run(steps, frame), c, frame);
    }
  }

  class Calls {
    var rows: seq<Stored>
    var nextId: nat

    ghost function State(): Archive reads this {
      Archive(rows, nextId)
    }

    constructor ()
      ensures State() == Empty
    {
      rows, nextId := [], 1;
    }

    method CheckDuplicate(c: Incoming, msTimeFrame: nat) returns (dup: bool)
      ensures dup == Duplicate(rows, c, msTimeFrame)
    {
      var from := UnixMilli(c.nanos - msTimeFrame * MILLISECOND);
      var to := UnixMilli(c.nanos + msTimeFrame * MILLISECOND);
      var found := Filter(
        (s: Stored) => from <= s.timestamp <= to && s.system == c.system && s.talkgroup == c.talkgroup, rows);
      assert forall s :: s in found <==> s in rows && Collides(s, c, msTimeFrame);
      assert Duplicate(rows, c, msTimeFrame) <==> exists s :: s in rows && Collides(s, c, msTimeFrame);
      dup := |found| > 0;
      assert dup ==> found[0] in found;
    }

    method WriteCall(c: Incoming) returns (id: nat)
      modifies this
      ensures id == old(nextId)
      ensures State() == Write(old(State()), c)
    {
      id := nextId;
      rows := rows + [Stored(id, c.system, c.talkgroup, UnixMilli(c.nanos))];
      nextId := nextId + 1;
    }

    method Prune(days: nat, now: int)
      modifies this
      ensures State() == Pruned(old(State()), days, now)
    {
      rows := Filter((s: Stored) => s.timestamp >= now - days * DAY, rows);
    }

    /** The end of an ingest: a duplicate is turned away, unless detection is off. */
    method Store(c: Incoming, msTimeFrame: nat, detectionOff: bool) returns (stored: bool)
      modifies this
      ensures State() == if detectionOff then Write(old(State()), c) else Next(old(State()), msTimeFrame, Ingest(c))
      ensures stored == (detectionOff || !Duplicate(old(rows), c, msTimeFrame))
    {
      if !detectionOff {
        var dup := CheckDuplicate(c, msTimeFrame);
        if dup {
          return false;
        }
      }
      var _ := WriteCall(c);
      return true;
    }
  }
}
