/** A system's talkgroups and their tables: writing the list in memory out, and reading it back. */
module TalkgroupStore {
  import opened Prelude
  import opened Sorting

  /** The columns that are only carried along. */
  datatype Fields = Fields(alert: string, delay: nat, frequency: nat, caption: string, led: string,
    name: string, tagId: nat, ref: nat, kind: string)

  /** A talkgroup in memory; identifier zero until it is stored. */
  datatype Talkgroup = Talkgroup(id: nat, order: nat, fields: Fields, groups: seq<nat>)

  datatype Row = Row(system: nat, order: nat, fields: Fields)
  datatype Membership = Membership(group: nat, talkgroup: nat)

  /** Both tables by identifier, each with the identifier it hands out next; none is handed out twice. */
  datatype Tables = Tables(rows: map<nat, Row>, members: map<nat, Membership>, nextRow: nat, nextMember: nat)

  ghost predicate WellFormed(db: Tables) {
    && db.nextRow > 0
    && (forall id :: id in db.rows ==> 0 < id < db.nextRow)
    && (forall k :: k in db.members ==> k < db.nextMember && db.members[k].talkgroup < db.nextRow)
  }

  ghost predicate Member(db: Tables, talkgroup: nat, group: nat) {
    exists k :: k in db.members && db.members[k] == Membership(group, talkgroup)
  }

  // --- Writing, on values ---

  predicate Listed(list: seq<Talkgroup>, id: nat) {
    exists i :: 0 <= i < |list| && list[i].id == id
  }

  /** The system's rows whose talkgroup is no longer listed. */
  predicate Gone(db: Tables, system: nat, list: seq<Talkgroup>, id: nat) {
    id in db.rows && db.rows[id].system == system && !Listed(list, id)
  }

  function RemoveAbsent(db: Tables, system: nat, list: seq<Talkgroup>): Tables {
    db.(rows := map id | id in db.rows && !Gone(db, system, list, id) :: db.rows[id],
        members := map k | k in db.members && !Gone(db, system, list, db.members[k].talkgroup) :: db.members[k])
  }

  /** The cleanup spares a membership row when the talkgroup lists group zero, or lists a group
      whose number happens to be the number of the row. */
  predicate Spared(groups: seq<nat>, row: nat) {
    0 in groups || row in groups
  }

  function DropStale(db: Tables, id: nat, groups: seq<nat>): Tables {
    db.(members := map k | k in db.members && !(db.members[k].talkgroup == id && !Spared(groups, k)) :: db.members[k])
  }

  predicate IsMember(db: Tables, m: Membership) {
    m in db.members.Values
  }

  function AddMember(db: Tables, id: nat, group: nat): Tables {
    if IsMember(db, Membership(group, id)) then db
    else db.(members := db.members[db.nextMember := Membership(group, id)], nextMember := db.nextMember + 1)
  }

  function AddMembers(db: Tables, id: nat, groups: seq<nat>): Tables {
    if groups == [] then db
    else AddMember(AddMembers(db, id, groups[..|groups| - 1]), id, groups[|groups| - 1])
  }

  /** An update keeps the system a row belongs to; an insert takes a new identifier. */
  function PutRow(db: Tables, system: nat, t: Talkgroup): (Tables, nat) {
    if t.id > 0 && t.id in db.rows then
      (db.(rows := db.rows[t.id := Row(db.rows[t.id].system, t.order, t.fields)]), t.id)
    else
      (db.(rows := db.rows[db.nextRow := Row(system, t.order, t.fields)], nextRow := db.nextRow + 1), db.nextRow)
  }

  function WriteOne(db: Tables, system: nat, t: Talkgroup): (Tables, Talkgroup) {
    var (put, id) := PutRow(db, system, t);
    (AddMembers(DropStale(put, id, t.groups), id, t.groups), t.(id := id))
  }

  function WriteAll(db: Tables, system: nat, list: seq<Talkgroup>): (Tables, seq<Talkgroup>) {
    if list == [] then (db, [])
    else
      var n := |list| - 1;
      var (before, written) := WriteAll(db, system, list[..n]);
      var (after, t) := WriteOne(before, system, list[n]);
      (after, written + [t])
  }

  function Written(db: Tables, system: nat, list: seq<Talkgroup>): (Tables, seq<Talkgroup>) {
    WriteAll(RemoveAbsent(db, system, list), system, list)
  }

  // --- What one write does, and leaves alone ---

  /** Nothing about a talkgroup has changed: neither its row nor its membership rows. */
  ghost predicate Untouched(a: Tables, b: Tables, id: nat) {
    && (id in a.rows <==> id in b.rows)
    && (id in a.rows ==> a.rows[id] == b.rows[id])
    && (forall k, g :: HasRow(a, k, g, id) <==> HasRow(b, k, g, id))
  }

  predicate HasRow(db: Tables, k: nat, group: nat, talkgroup: nat) {
    k in db.members && db.members[k] == Membership(group, talkgroup)
  }

  lemma UntouchedChains(a: Tables, b: Tables, c: Tables, id: nat)
    requires Untouched(a, b, id) && Untouched(b, c, id)
    ensures Untouched(a, c, id)
  {
  }

  /** A membership that survives by accident: one of any group when the talkgroup lists group zero, or one whose
      row has the number of a group it lists. */
  ghost predicate Lingers(db: Tables, t: Talkgroup, group: nat) {
    t.id > 0 && t.id in db.rows && exists k :: HasRow(db, k, group, t.id) && (0 in t.groups || k in t.groups)
  }

  lemma {:induction false} AddMembersEffect(db: Tables, id: nat, groups: seq<nat>)
    requires WellFormed(db) && id < db.nextRow
    ensures var r := AddMembers(db, id, groups);
      && WellFormed(r) && r.rows == db.rows && r.nextRow == db.nextRow && r.nextMember >= db.nextMember
      && (forall g :: Member(r, id, g) <==> Member(db, id, g) || g in groups)
      && (forall x :: x != id ==> Untouched(db, r, x))
  {
    if groups != [] {
      var n := |groups| - 1;
      var before := AddMembers(db, id, groups[..n]);
      AddMembersEffect(db, id, groups[..n]);
      AddMemberEffect(before, id, groups[n]);
      assert groups == groups[..n] + [groups[n]];
      forall g ensures Member(AddMembers(db, id, groups), id, g) <==> Member(db, id, g) || g in groups {
        assert g in groups <==> g in groups[..n] || g == groups[n];
      }
      forall x | x != id ensures Untouched(db, AddMembers(db, id, groups), x) {
        UntouchedChains(db, before, AddMembers(db, id, groups), x);
      }
    }
  }

  lemma AddMemberEffect(db: Tables, id: nat, group: nat)
    requires WellFormed(db) && id < db.nextRow
    ensures var r := AddMember(db, id, group);
      && WellFormed(r) && r.rows == db.rows && r.nextRow == db.nextRow && r.nextMember >= db.nextMember
      && (forall g :: Member(r, id, g) <==> Member(db, id, g) || g == group)
      && (forall x :: x != id ==> Untouched(db, r, x))
  {
    var r := AddMember(db, id, group);
    if !IsMember(db, Membership(group, id)) {
      assert db.nextMember !in db.members;
      forall g ensures Member(r, id, g) <==> Member(db, id, g) || g == group {
        assert g == group ==> r.members[db.nextMember] == Membership(g, id);
        if Member(db, id, g) {
          var k :| k in db.members && db.members[k] == Membership(g, id);
          assert r.members[k] == Membership(g, id);
        }
      }
    } else {
      assert Member(db, id, group);
    }
  }

  lemma DropStaleEffect(db: Tables, id: nat, groups: seq<nat>)
    requires WellFormed(db)
    ensures var r := DropStale(db, id, groups);
      && WellFormed(r) && r.rows == db.rows && r.nextRow == db.nextRow && r.nextMember == db.nextMember
      && (forall g :: Member(r, id, g) <==> exists k :: HasRow(db, k, g, id) && Spared(groups, k))
      && (forall x :: x != id ==> Untouched(db, r, x))
  {
    var r := DropStale(db, id, groups);
    forall g ensures Member(r, id, g) <==> exists k :: HasRow(db, k, g, id) && Spared(groups, k) {
      if Member(r, id, g) {
        var k :| k in r.members && r.members[k] == Membership(g, id);
        assert HasRow(db, k, g, id) && Spared(groups, k);
      }
      if k :| HasRow(db, k, g, id) && Spared(groups, k) {
        assert k in r.members && r.members[k] == Membership(g, id);
      }
    }
  }

  /** A talkgroup as stored in `r` by a write that started from `db`. */
  ghost predicate StoredAs(db: Tables, r: Tables, system: nat, t: Talkgroup, id: nat) {
    && id in r.rows
    && r.rows[id] == Row(if t.id > 0 && t.id in db.rows then db.rows[t.id].system else system, t.order, t.fields)
    && (forall g :: Member(r, id, g) <==> g in t.groups || Lingers(db, t, g))
  }

  lemma WriteOneEffect(db: Tables, system: nat, t: Talkgroup)
    requires WellFormed(db)
    ensures var (r, t') := WriteOne(db, system, t);
      && WellFormed(r) && r.nextRow >= db.nextRow && 0 < t'.id < r.nextRow
      && t' == t.(id := t'.id)
      && (if t.id > 0 && t.id in db.rows then t'.id == t.id else t'.id == db.nextRow)
      && StoredAs(db, r, system, t, t'.id)
      && (forall x :: x != t'.id ==> Untouched(db, r, x))
  {
    var (put, id) := PutRow(db, system, t);
    var kept := DropStale(put, id, t.groups);
    DropStaleEffect(put, id, t.groups);
    AddMembersEffect(kept, id, t.groups);
    forall g ensures Member(kept, id, g) <==> Lingers(db, t, g) {
      forall k ensures HasRow(put, k, g, id) <==> HasRow(db, k, g, id) {
      }
    }
    var r := AddMembers(kept, id, t.groups);
    forall x | x != id ensures Untouched(db, r, x) {
      UntouchedChains(db, put, kept, x);
      UntouchedChains(db, kept, r, x);
    }
  }

  // --- What writing the list does ---

  /** The list a caller may write: stored talkgroups once each, with identifiers this store handed out. */
  ghost predicate Writable(db: Tables, list: seq<Talkgroup>) {
    && (forall i, j :: 0 <= i < j < |list| && list[i].id > 0 ==> list[i].id != list[j].id)
    && (forall i :: 0 <= i < |list| ==> list[i].id < db.nextRow)
  }

  /** The row of another system. */
  predicate Away(db: Tables, system: nat, id: nat) {
    id in db.rows && db.rows[id].system != system
  }

  predicate Stored(db: Tables, t: Talkgroup) {
    t.id > 0 && t.id in db.rows
  }

  ghost predicate WrittenAs(db: Tables, r: Tables, t: Talkgroup, t': Talkgroup) {
    && t' == t.(id := t'.id) && 0 < t'.id < r.nextRow
    && (if Stored(db, t) then t'.id == t.id else t'.id >= db.nextRow)
  }

  lemma StoredAsLater(db: Tables, r: Tables, r': Tables, system: nat, t: Talkgroup, id: nat)
    requires StoredAs(db, r, system, t, id) && Untouched(r, r', id)
    ensures StoredAs(db, r', system, t, id)
  {
    forall g ensures Member(r', id, g) <==> Member(r, id, g) {
      if Member(r', id, g) {
        var k :| k in r'.members && r'.members[k] == Membership(g, id);
        assert HasRow(r', k, g, id);
      }
      if Member(r, id, g) {
        var k :| k in r.members && r.members[k] == Membership(g, id);
        assert HasRow(r, k, g, id);
      }
    }
  }

  /** Every talkgroup of the list is stored, each under an identifier of its own. */
  ghost predicate AllWritten(db: Tables, r: Tables, system: nat, list: seq<Talkgroup>, out: seq<Talkgroup>) {
    && WellFormed(r) && r.nextRow >= db.nextRow
    && |out| == |list|
    && (forall i :: 0 <= i < |list| ==> WrittenAs(db, r, list[i], out[i]))
    && (forall i, j :: 0 <= i < j < |out| ==> out[i].id != out[j].id)
    && (forall i :: 0 <= i < |list| ==> StoredAs(db, r, system, list[i], out[i].id))
    && (forall x :: !Listed(out, x) ==> Untouched(db, r, x))
  }

  lemma {:induction false} WriteAllEffect(db: Tables, system: nat, list: seq<Talkgroup>)
    requires WellFormed(db) && Writable(db, list)
    ensures var (r, out) := WriteAll(db, system, list); AllWritten(db, r, system, list, out)
  {
    if list != [] {
      var n := |list| - 1;
      var (before, written) := WriteAll(db, system, list[..n]);
      WriteAllEffect(db, system, list[..n]);
      WriteNext(db, before, system, list, written);
    }
  }

  lemma WriteNext(db: Tables, before: Tables, system: nat, list: seq<Talkgroup>, written: seq<Talkgroup>)
    requires WellFormed(db) && Writable(db, list) && |list| > 0
    requires AllWritten(db, before, system, list[..|list| - 1], written)
    ensures var (after, t) := WriteOne(before, system, list[|list| - 1]);
      AllWritten(db, after, system, list, written + [t])
  {
    var n := |list| - 1;
    var (after, t) := WriteOne(before, system, list[n]);
    WriteOneEffect(before, system, list[n]);
    forall i | 0 <= i < n ensures WrittenAs(db, before, list[i], written[i]) {
      assert WrittenAs(db, before, list[..n][i], written[i]);
    }
    assert Untouched(db, before, list[n].id);
    OneMoreWritten(db, before, after, system, list, written, t);
  }

  lemma OneMoreWritten(db: Tables, before: Tables, after: Tables, system: nat, list: seq<Talkgroup>,
      written: seq<Talkgroup>, t: Talkgroup)
    requires |list| > 0
    requires var n := |list| - 1;
      && AllWritten(db, before, system, list[..n], written)
      && WellFormed(after) && after.nextRow >= before.nextRow
      && WrittenAs(db, after, list[n], t)
      && !Listed(written, t.id) && Untouched(db, before, list[n].id)
      && StoredAs(before, after, system, list[n], t.id)
    requires forall x :: x != t.id ==> Untouched(before, after, x)
    ensures AllWritten(db, after, system, list, written + [t])
  {
    var n := |list| - 1;
    var out := written + [t];
    forall i | 0 <= i < |list|
      ensures WrittenAs(db, after, list[i], out[i]) && StoredAs(db, after, system, list[i], out[i].id)
    {
      if i < n {
        assert WrittenAs(db, before, list[..n][i], written[i]);
        assert StoredAs(db, before, system, list[..n][i], written[i].id);
        StoredAsLater(db, before, after, system, list[i], out[i].id);
      }
    }
    forall i, j | 0 <= i < j < |out| ensures out[i].id != out[j].id {
      assert j < n ==> written[i].id != written[j].id;
    }
    forall x | !Listed(out, x) ensures Untouched(db, after, x) {
      assert out[n] == t;
      forall i | 0 <= i < n ensures written[i].id != x { assert out[i] == written[i]; }
      UntouchedChains(db, before, after, x);
    }
  }

  // --- Reading back ---

  /** One read of a system's talkgroups: each row once, ordered, with the positive groups it is a
      member of, in any order. */
  ghost predicate IsRead(db: Tables, system: nat, out: seq<Talkgroup>) {
    && Pairwise(ByOrder, out)
    && (forall i, j :: 0 <= i < j < |out| ==> out[i].id != out[j].id)
    && (forall i :: 0 <= i < |out| ==> ReadFrom(db, system, out[i]))
    && (forall id :: id in db.rows && db.rows[id].system == system ==> Listed(out, id))
  }

  ghost predicate ReadFrom(db: Tables, system: nat, t: Talkgroup) {
    && t.id in db.rows && db.rows[t.id] == Row(system, t.order, t.fields)
    && (forall g :: g in t.groups <==> g > 0 && Member(db, t.id, g))
  }

  function Ids(list: seq<Talkgroup>): (ids: seq<nat>)
    ensures |ids| == |list| && forall i :: 0 <= i < |list| ==> ids[i] == list[i].id
    ensures forall x :: x in ids <==> Listed(list, x)
  {
    var ids := seq(|list|, i requires 0 <= i < |list| => list[i].id);
    assert forall i :: 0 <= i < |list| ==> ids[i] == list[i].id && ids[i] in ids;
    ids
  }

  lemma SameIds(a: seq<Talkgroup>, b: seq<Talkgroup>)
    requires Distinct(Ids(a)) && Distinct(Ids(b))
    requires forall x :: Listed(a, x) <==> Listed(b, x)
    ensures multiset(Ids(a)) == multiset(Ids(b))
  {
    DistinctMeansOnce(Ids(a));
    DistinctMeansOnce(Ids(b));
    forall x ensures multiset(Ids(a))[x] == multiset(Ids(b))[x] {
      assert x in Ids(a) <==> multiset(Ids(a))[x] > 0;
      assert x in Ids(b) <==> multiset(Ids(b))[x] > 0;
    }
  }

  lemma RemoveAbsentEffect(db: Tables, system: nat, list: seq<Talkgroup>)
    requires WellFormed(db) && Writable(db, list)
    ensures var r := RemoveAbsent(db, system, list);
      && WellFormed(r) && Writable(r, list) && r.nextRow == db.nextRow
      && (forall x ::
        if Gone(db, system, list, x) then x !in r.rows && (forall g :: !Member(r, x, g)) else Untouched(db, r, x))
  {
  }

  /** What the read shows for a listed talkgroup: the same order and columns; and of groups, the
      positive ones listed, and besides them exactly those that linger. */
  ghost predicate ReadBack(db: Tables, t: Talkgroup, out: Talkgroup) {
    && out.order == t.order && out.fields == t.fields
    && (Stored(db, t) ==> out.id == t.id)
    && (!Stored(db, t) ==> out.id >= db.nextRow)
    && (forall g :: g in out.groups <==> g > 0 && (g in t.groups || Lingers(db, t, g)))
  }

  /** The talkgroups written to rows of this system. */
  function AtHome(db: Tables, system: nat, memory: seq<Talkgroup>): seq<Talkgroup> {
    Filter((t: Talkgroup) => !Away(db, system, t.id), memory)
  }

  lemma AtHomeIds(db: Tables, system: nat, memory: seq<Talkgroup>)
    requires forall i, j :: 0 <= i < j < |memory| ==> memory[i].id != memory[j].id
    ensures Distinct(Ids(AtHome(db, system, memory)))
    ensures forall x :: Listed(AtHome(db, system, memory), x) <==> Listed(memory, x) && !Away(db, system, x)
  {
    var home := AtHome(db, system, memory);
    FilterKeepsPairs((a: Talkgroup, b: Talkgroup) => a.id != b.id, (t: Talkgroup) => !Away(db, system, t.id), memory);
    forall x ensures Listed(home, x) <==> Listed(memory, x) && !Away(db, system, x) {
      if Listed(home, x) {
        var i :| 0 <= i < |home| && home[i].id == x;
        assert home[i] in memory;
        var j :| 0 <= j < |memory| && memory[j] == home[i];
        assert memory[j].id == x;
      }
      if Listed(memory, x) && !Away(db, system, x) {
        var j :| 0 <= j < |memory| && memory[j].id == x;
        assert memory[j] in home;
        var i :| 0 <= i < |home| && home[i] == memory[j];
        assert home[i].id == x;
      }
    }
  }

  /** When no listed identifier is of another system, all are at home. */
  lemma AllAtHome(db: Tables, system: nat, list: seq<Talkgroup>, memory: seq<Talkgroup>)
    requires WellFormed(db) && Writable(db, list) && memory == Written(db, system, list).1
    requires forall t :: t in list && t.id > 0 ==> t.id in db.rows && db.rows[t.id].system == system
    ensures AtHome(db, system, memory) == memory
  {
    var start := RemoveAbsent(db, system, list);
    RemoveAbsentEffect(db, system, list);
    WriteAllEffect(start, system, list);
    forall i | 0 <= i < |memory| ensures !Away(db, system, memory[i].id) {
      assert WrittenAs(start, Written(db, system, list).0, list[i], memory[i]) && list[i] in list;
      assert Listed(list, list[i].id);
    }
    FilterWhole((t: Talkgroup) => !Away(db, system, t.id), memory);
  }

  lemma {:induction false} FilterWhole(p: Talkgroup -> bool, s: seq<Talkgroup>)
    requires forall i :: 0 <= i < |s| ==> p(s[i])
    ensures Filter(p, s) == s
  {
    if s != [] {
      FilterWhole(p, s[1..]);
    }
  }

  lemma IdsCorrespond(a: seq<Talkgroup>, b: seq<Talkgroup>)
    requires multiset(Ids(a)) == multiset(Ids(b))
    ensures |a| == |b| && forall x :: Listed(a, x) <==> Listed(b, x)
  {
    assert |multiset(Ids(a))| == |multiset(Ids(b))|;
    forall x ensures Listed(a, x) <==> Listed(b, x) {
      assert x in Ids(a) <==> multiset(Ids(a))[x] > 0;
      assert x in Ids(b) <==> multiset(Ids(b))[x] > 0;
    }
  }

  /** Reading after writing gives the list in memory, in order: the same talkgroups under the
      identifiers memory now has, kept where there was one and unused before where there was none.
      Talkgroups no longer listed are gone with their memberships. A listed identifier of another
      system's row updates that row, which stays where it is and is not read back here; the other rows
      of other systems are as they were. */
  lemma WriteThenRead(db: Tables, system: nat, list: seq<Talkgroup>, out: seq<Talkgroup>)
    requires WellFormed(db) && Writable(db, list)
    requires IsRead(Written(db, system, list).0, system, out)
    ensures var (r, memory) := Written(db, system, list);
      && multiset(Ids(out)) == multiset(Ids(AtHome(db, system, memory))) && Distinct(Ids(out)) && |memory| == |list|
      && (forall i :: 0 <= i < |list| ==> memory[i] == list[i].(id := memory[i].id))
      && (forall i, j ::
        0 <= i < |list| && 0 <= j < |out| && out[j].id == memory[i].id ==> ReadBack(db, list[i], out[j]))
      && (forall x :: Gone(db, system, list, x) ==> x !in r.rows && forall g :: !Member(r, x, g))
      && (forall i :: 0 <= i < |list| && Away(db, system, list[i].id) && list[i].id > 0 ==>
            list[i].id in r.rows
              && r.rows[list[i].id] == Row(db.rows[list[i].id].system, list[i].order, list[i].fields))
      && (forall x :: Away(db, system, x) && !Listed(list, x) ==> Untouched(db, r, x))
  {
    var start := RemoveAbsent(db, system, list);
    RemoveAbsentEffect(db, system, list);
    WriteAllEffect(start, system, list);
    var (r, memory) := Written(db, system, list);
    forall i | 0 <= i < |list|
      ensures memory[i] == list[i].(id := memory[i].id)
      ensures Stored(db, list[i]) <==> Stored(start, list[i])
      ensures forall j :: 0 <= j < |out| && out[j].id == memory[i].id ==> ReadBack(db, list[i], out[j])
      ensures Stored(db, list[i]) ==> StoredAs(db, r, system, list[i], list[i].id)
    {
      WrittenIsReadBack(db, start, r, system, list, memory, out, i);
    }
    forall x | Gone(db, system, list, x) ensures x !in r.rows && forall g :: !Member(r, x, g) {
      GoneStaysGone(db, start, r, system, list, memory, x);
    }
    forall x | Away(db, system, x) && !Listed(list, x) ensures Untouched(db, r, x) {
      OthersUntouched(db, start, r, system, list, memory, x);
    }
    AtHomeIds(db, system, memory);
    forall x ensures Listed(out, x) <==> Listed(AtHome(db, system, memory), x) {
      ReadIffWritten(db, start, r, system, list, memory, out, x);
    }
    SameIds(out, AtHome(db, system, memory));
  }

  lemma WrittenIsReadBack(db: Tables, start: Tables, r: Tables, system: nat, list: seq<Talkgroup>,
      memory: seq<Talkgroup>, out: seq<Talkgroup>, i: nat)
    requires AllWritten(start, r, system, list, memory) && IsRead(r, system, out) && i < |list|
    requires start.nextRow == db.nextRow && !Gone(db, system, list, list[i].id) ==> Untouched(db, start, list[i].id)
    requires start.nextRow == db.nextRow
    ensures memory[i] == list[i].(id := memory[i].id)
    ensures Stored(db, list[i]) <==> Stored(start, list[i])
    ensures forall j :: 0 <= j < |out| && out[j].id == memory[i].id ==> ReadBack(db, list[i], out[j])
    ensures Stored(db, list[i]) ==> memory[i].id == list[i].id && StoredAs(db, r, system, list[i], list[i].id)
  {
    assert Listed(list, list[i].id);
    assert WrittenAs(start, r, list[i], memory[i]) && StoredAs(start, r, system, list[i], memory[i].id);
    forall j | 0 <= j < |out| && out[j].id == memory[i].id ensures ReadBack(db, list[i], out[j]) {
      assert ReadFrom(r, system, out[j]);
    }
  }

  lemma GoneStaysGone(db: Tables, start: Tables, r: Tables, system: nat, list: seq<Talkgroup>, memory: seq<Talkgroup>,
      x: nat)
    requires WellFormed(db) && AllWritten(start, r, system, list, memory) && start.nextRow == db.nextRow
    requires Gone(db, system, list, x) && x !in start.rows && forall g :: !Member(start, x, g)
    ensures x !in r.rows && forall g :: !Member(r, x, g)
  {
    forall i | 0 <= i < |memory| ensures memory[i].id != x {
      assert WrittenAs(start, r, list[i], memory[i]);
      assert memory[i].id == list[i].id ==> Listed(list, memory[i].id);
    }
    assert Untouched(start, r, x);
    forall g ensures !Member(r, x, g) {
      assert !Member(start, x, g);
      assert forall k :: HasRow(r, k, g, x) ==> HasRow(start, k, g, x);
      assert forall k :: k in r.members && r.members[k] == Membership(g, x) ==> HasRow(r, k, g, x);
    }
  }

  lemma OthersUntouched(db: Tables, start: Tables, r: Tables, system: nat, list: seq<Talkgroup>,
      memory: seq<Talkgroup>, x: nat)
    requires WellFormed(db) && Writable(db, list)
    requires AllWritten(start, r, system, list, memory) && start.nextRow == db.nextRow
    requires Away(db, system, x) && !Listed(list, x) && Untouched(db, start, x)
    ensures Untouched(db, r, x)
  {
    forall i | 0 <= i < |memory| ensures memory[i].id != x {
      assert WrittenAs(start, r, list[i], memory[i]);
      assert memory[i].id == list[i].id ==> Listed(list, memory[i].id);
    }
    UntouchedChains(db, start, r, x);
  }

  lemma ReadIffWritten(db: Tables, start: Tables, r: Tables, system: nat, list: seq<Talkgroup>,
      memory: seq<Talkgroup>, out: seq<Talkgroup>, x: nat)
    requires WellFormed(db) && Writable(start, list)
    requires AllWritten(start, r, system, list, memory) && IsRead(r, system, out)
    requires start == RemoveAbsent(db, system, list)
    ensures Listed(out, x) <==> Listed(memory, x) && !Away(db, system, x)
  {
    assert Listed(out, x) <==> x in r.rows && r.rows[x].system == system by {
      if Listed(out, x) {
        var j :| 0 <= j < |out| && out[j].id == x;
        assert ReadFrom(r, system, out[j]);
      }
    }
    if Listed(memory, x) {
      var i :| 0 <= i < |memory| && memory[i].id == x;
    } else {
      assert Untouched(start, r, x);
      if Listed(list, x) {
        var i :| 0 <= i < |list| && list[i].id == x;
        assert WrittenAs(start, r, list[i], memory[i]);
      }
      assert !(x in start.rows && start.rows[x].system == system);
    }
  }

  /** The cleanup of memberships goes by the wrong number: a talkgroup may come back in a group it
      no longer lists. */
  lemma StaleGroupLingers()
    ensures var f := Fields("", 0, 0, "", "", "", 1, 101, "");
      var db := Tables(map[1 := Row(7, 0, f)], map[5 := Membership(9, 1)], 2, 6);
      var t := Talkgroup(1, 0, f, [5]);
      WellFormed(db) && Writable(db, [t]) && 9 !in t.groups && Lingers(db, t, 9)
  {
    var f := Fields("", 0, 0, "", "", "", 1, 101, "");
    var db := Tables(map[1 := Row(7, 0, f)], map[5 := Membership(9, 1)], 2, 6);
    assert HasRow(db, 5, 9, 1) && Spared([5], 5);
  }

  // --- The same, in place ---

  lemma SameMembers(a: map<nat, Membership>, b: map<nat, Membership>)
    requires forall k :: k in a <==> k in b
    requires forall k :: k in a ==> a[k] == b[k]
    ensures a == b
  {
    assert forall k :: k in a <==> k in b;
  }

  class Database {
    var rows: map<nat, Row>
    var members: map<nat, Membership>
    var nextRow: nat
    var nextMember: nat

    ghost function State(): Tables reads this {
      Tables(rows, members, nextRow, nextMember)
    }

    /** The rows of the system that the list no longer has, deleted with their memberships. */
    method DeleteAbsent(systemId: nat, list: seq<Talkgroup>)
      modifies this
      ensures State() == RemoveAbsent(old(State()), systemId, list)
    {
      var talkgroupIds: set<nat> := {};
      var pending := rows.Keys;
      while pending != {}
        invariant pending <= rows.Keys
        invariant State() == old(State())
        invariant forall id :: id in talkgroupIds <==> id !in pending && Gone(State(), systemId, list, id)
      {
        HasElement(pending);
        var id :| id in pending;
        if rows[id].system == systemId {
          var remove := true;
          for i := 0 to |list|
            invariant remove
            invariant forall j :: 0 <= j < i ==> list[j].id != id
          {
            if list[i].id == id {
              remove := false;
              break;
            }
          }
          if remove {
            talkgroupIds := talkgroupIds + {id};
          }
        }
        pending := pending - {id};
      }
      ghost var target := RemoveAbsent(State(), systemId, list);
      rows := map id | id in rows && id !in talkgroupIds :: rows[id];
      members := map k | k in members && members[k].talkgroup !in talkgroupIds :: members[k];
      SameMembers(members, target.members);
      assert forall id :: id in rows <==> id in target.rows;
      assert rows == target.rows;
    }

    method PutTalkgroup(systemId: nat, t: Talkgroup) returns (id: nat)
      modifies this
      ensures (State(), id) == PutRow(old(State()), systemId, t)
    {
      if t.id > 0 && t.id in rows {
        id := t.id;
        rows := rows[id := Row(rows[id].system, t.order, t.fields)];
      } else {
        id := nextRow;
        rows := rows[id := Row(systemId, t.order, t.fields)];
        nextRow := nextRow + 1;
      }
    }

    /** The numbers of a talkgroup's membership rows that its listed groups do not spare. */
    method StaleRows(id: nat, groups: seq<nat>) returns (stale: set<nat>)
      ensures forall k :: k in stale <==> k in members && members[k].talkgroup == id && !Spared(groups, k)
    {
      stale := {};
      var pending := members.Keys;
      while pending != {}
        invariant pending <= members.Keys
        invariant forall k ::
          k in stale <==> k !in pending && k in members && members[k].talkgroup == id && !Spared(groups, k)
      {
        HasElement(pending);
        var k :| k in pending;
        if members[k].talkgroup == id {
          var remove := true;
          for i := 0 to |groups|
            invariant remove
            invariant forall j :: 0 <= j < i ==> groups[j] != 0 && groups[j] != k
          {
            if groups[i] == 0 || groups[i] == k {
              remove := false;
              break;
            }
          }
          if remove {
            stale := stale + {k};
          }
        }
        pending := pending - {k};
      }
    }

    method InsertMissing(id: nat, groups: seq<nat>)
      modifies this
      ensures State() == AddMembers(old(State()), id, groups)
    {
      for i := 0 to |groups|
        invariant State() == AddMembers(old(State()), id, groups[..i])
      {
        assert groups[..i + 1][..i] == groups[..i];
        if Membership(groups[i], id) !in members.Values {
          members := members[nextMember := Membership(groups[i], id)];
          nextMember := nextMember + 1;
        }
      }
      assert groups[..|groups|] == groups;
    }
  }

  class Talkgroups {
    var List: seq<Talkgroup>

    /** Writes the list, giving each new talkgroup its identifier. The row numbers found stale are
        carried from one talkgroup to the next and deleted again each time. */
    method WriteTx(db: Database, systemId: nat)
      requires WellFormed(db.State())
      modifies this, db
      ensures (db.State(), List) == Written(old(db.State()), systemId, old(List))
    {
      db.DeleteAbsent(systemId, List);
      ghost var start := db.State();
      ghost var list := List;
      var talkgroupGroupIds: set<nat> := {};
      for n := 0 to |List|
        invariant |List| == |list| && List[n..] == list[n..]
        invariant WellFormed(db.State())
        invariant (db.State(), List[..n]) == WriteAll(start, systemId, list[..n])
        invariant forall k :: k in talkgroupGroupIds ==> k < db.nextMember && k !in db.members
      {
        var talkgroup := List[n];
        assert talkgroup == list[n];
        var id;
        id, talkgroupGroupIds := WriteTalkgroup(db, systemId, talkgroup, talkgroupGroupIds);
        List := List[n := talkgroup.(id := id)];
        assert list[..n + 1][..n] == list[..n] && list[..n + 1][n] == talkgroup;
        assert List[..n + 1] == List[..n] + [talkgroup.(id := id)];
      }
      assert list[..|list|] == list && List[..|list|] == List;
    }

    method WriteTalkgroup(db: Database, systemId: nat, talkgroup: Talkgroup, found: set<nat>)
      returns (id: nat, talkgroupGroupIds: set<nat>)
      requires WellFormed(db.State())
      requires forall k :: k in found ==> k < db.nextMember && k !in db.members
      modifies db
      ensures (db.State(), talkgroup.(id := id)) == WriteOne(old(db.State()), systemId, talkgroup)
      ensures WellFormed(db.State())
      ensures forall k :: k in talkgroupGroupIds ==> k < db.nextMember && k !in db.members
    {
      WriteOneEffect(db.State(), systemId, talkgroup);
      id := db.PutTalkgroup(systemId, talkgroup);
      ghost var put := db.State();
      var stale := db.StaleRows(id, talkgroup.groups);
      talkgroupGroupIds := found + stale;
      db.members := map k | k in db.members && k !in talkgroupGroupIds :: db.members[k];
      SameMembers(db.members, DropStale(put, id, talkgroup.groups).members);
      AddMembersKeeps(db.State(), id, talkgroup.groups, talkgroupGroupIds);
      db.InsertMissing(id, talkgroup.groups);
    }

    /** Reads the system's rows, in whatever order they come, then sorts them. */
    method ReadTx(db: Database, systemId: nat)
      modifies this
      ensures IsRead(db.State(), systemId, List)
    {
      var list: seq<Talkgroup> := [];
      var pending := db.rows.Keys;
      while pending != {}
        invariant pending <= db.rows.Keys
        invariant forall i :: 0 <= i < |list| ==> ReadFrom(db.State(), systemId, list[i]) && list[i].id !in pending
        invariant forall i, j :: 0 <= i < j < |list| ==> list[i].id != list[j].id
        invariant forall id :: id in db.rows && db.rows[id].system == systemId && id !in pending ==> Listed(list, id)
      {
        HasElement(pending);
        var id :| id in pending;
        ghost var before := list;
        if db.rows[id].system == systemId {
          var groupIds := ReadGroups(db, id);
          list := list + [Talkgroup(id, db.rows[id].order, db.rows[id].fields, groupIds)];
          assert list[|before|].id == id;
        }
        pending := pending - {id};
        forall x | x in db.rows && db.rows[x].system == systemId && x !in pending ensures Listed(list, x) {
          if x != id {
            var i :| 0 <= i < |before| && before[i].id == x;
            assert list[i].id == x;
          }
        }
      }
      List := Sort(ByOrder, list);
      SortedIsRead(db.State(), systemId, list, List);
    }

    method ReadGroups(db: Database, id: nat) returns (groupIds: seq<nat>)
      ensures forall g :: g in groupIds <==> g > 0 && Member(db.State(), id, g)
    {
      groupIds := [];
      var pending := db.members.Keys;
      while pending != {}
        invariant pending <= db.members.Keys
        invariant forall g :: g in groupIds ==> g > 0 && Member(db.State(), id, g)
        invariant forall k :: k in db.members && k !in pending ==>
          (db.members[k].talkgroup == id && db.members[k].group > 0 ==> db.members[k].group in groupIds)
      {
        HasElement(pending);
        var k :| k in pending;
        var m := db.members[k];
        if m.talkgroup == id && m.group > 0 {
          assert db.State().members[k] == Membership(m.group, id);
          groupIds := groupIds + [m.group];
        }
        pending := pending - {k};
      }
    }
  }

  predicate ByOrder(a: Talkgroup, b: Talkgroup) {
    a.order <= b.order
  }

  lemma SortedIsRead(db: Tables, system: nat, list: seq<Talkgroup>, sorted: seq<Talkgroup>)
    requires IsOrdering(ByOrder, list, sorted)
    requires forall i :: 0 <= i < |list| ==> ReadFrom(db, system, list[i])
    requires forall i, j :: 0 <= i < j < |list| ==> list[i].id != list[j].id
    requires forall id :: id in db.rows && db.rows[id].system == system ==> Listed(list, id)
    ensures IsRead(db, system, sorted)
  {
    OrderingKeeps(ByOrder, list, sorted);
    forall i | 0 <= i < |sorted| ensures sorted[i] in list && ReadFrom(db, system, sorted[i]) {
      assert sorted[i] in sorted;
    }
    forall i, j | 0 <= i < j < |sorted| ensures sorted[i].id != sorted[j].id {
      assert sorted[i] != sorted[j];
    }
    forall id | id in db.rows && db.rows[id].system == system ensures Listed(sorted, id) {
      var i :| 0 <= i < |list| && list[i].id == id;
      assert list[i] in sorted;
    }
  }

  lemma {:induction false} AddMembersKeeps(db: Tables, id: nat, groups: seq<nat>, free: set<nat>)
    requires forall k :: k in free ==> k < db.nextMember && k !in db.members
    ensures var r := AddMembers(db, id, groups); forall k :: k in free ==> k < r.nextMember && k !in r.members
  {
    if groups != [] {
      AddMembersKeeps(db, id, groups[..|groups| - 1], free);
    }
  }
}
