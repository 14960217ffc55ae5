/** The listener's selection, held twice: by the client as the map it edits, by the server as
    the matrix it filters calls with. What goes over the wire in between is text-keyed. */
module Selection {
  import opened Prelude
  import opened Decimal
  import ScannerModel

  /** A call as far as selection looks at it: references of its system, its talkgroup and the
      talkgroups patched into it. */
  datatype Call = Call(system: nat, talkgroup: nat, patches: seq<nat>)

  type Matrix = map<nat, map<nat, bool>>

  datatype Json = Bool(on: bool) | Object(members: map<string, Json>) | Other

  predicate On(m: Matrix, system: nat, talkgroup: nat) {
    system in m && talkgroup in m[system] && m[system][talkgroup]
  }

  /** The meaning shared by both ends: the talkgroup is on, or one patched into the call is. */
  predicate Selected(m: Matrix, c: Call) {
    On(m, c.system, c.talkgroup) || exists i :: 0 <= i < |c.patches| && On(m, c.system, c.patches[i])
  }

  // --- The wire ---

  lemma PrintSeparates()
    ensures forall m, n :: Print(m) == Print(n) ==> m == n
  {
    forall m, n ensures Print(m) == Print(n) ==> m == n {
      PrintIsInjective(m, n);
    }
  }

  function SyncRow(row: map<nat, bool>): Json {
    PrintSeparates();
    Object(map t | t in row :: Print(t) := Bool(row[t]))
  }

  /** What the client sends: every reference as a decimal key. */
  function Sync(m: Matrix): Json {
    PrintSeparates();
    Object(map s | s in m :: Print(s) := SyncRow(m[s]))
  }

  /** Every reference below this is held exactly by the client's number type, and printed in full. */
  const SAFE_LIMIT: nat := 0x20_0000_0000_0000

  predicate Safe(m: Matrix) {
    forall s :: s in m ==> s < SAFE_LIMIT && forall t :: t in m[s] ==> t < SAFE_LIMIT
  }

  datatype Entry = Entry(system: nat, talkgroup: nat, on: bool)

  function Key(s: string): (k: nat)
    requires Atoi(s).Some?
  {
    ToUint(Atoi(s).value)
  }

  /** The entries a payload carries under some of one system's keys: numeric keys, boolean values. */
  function Row(s: string, n: Json, ts: set<string>): set<Entry> {
    set t | t in ts && Atoi(s).Some? && n.Object? && t in n.members && n.members[t].Bool? && Atoi(t).Some?
      :: Entry(Key(s), Key(t), n.members[t].on)
  }

  function AllRow(s: string, n: Json): set<Entry> {
    if n.Object? then Row(s, n, n.members.Keys) else {}
  }

  predicate Carries(members: map<string, Json>, keys: set<string>, e: Entry) {
    exists s :: s in keys && s in members && e in AllRow(s, members[s])
  }

  function Cell(m: Matrix, system: nat, talkgroup: nat): Option<bool> {
    if system in m && talkgroup in m[system] then Some(m[system][talkgroup]) else None
  }

  /** One assignment to the matrix, creating the system's row when it is missing. */
  function Put(m: Matrix, e: Entry): Matrix {
    m[e.system := (if e.system in m then m[e.system] else map[])[e.talkgroup := e.on]]
  }

  /** A matrix reads a payload: every cell is carried by it, everything it carries has a cell,
      and no system is listed without cells. When two keys spell one reference either may win. */
  ghost predicate Reads(carried: Entry -> bool, m: Matrix) {
    && (forall s, t :: Cell(m, s, t).Some? ==> carried(Entry(s, t, Cell(m, s, t).value)))
    && (forall e :: carried(e) ==> Cell(m, e.system, e.talkgroup).Some?)
    && (forall s :: s in m ==> exists t :: t in m[s])
  }

  lemma PutReads(before: Entry -> bool, after: Entry -> bool, m: Matrix, x: Entry)
    requires Reads(before, m)
    requires forall e :: after(e) <==> before(e) || e == x
    ensures Reads(after, Put(m, x))
  {
    var r := Put(m, x);
    forall s, t ensures Cell(r, s, t) == if s == x.system && t == x.talkgroup then Some(x.on) else Cell(m, s, t) {
    }
    forall s | s in r ensures exists t :: t in r[s] {
      assert s == x.system ==> x.talkgroup in r[s];
      assert s != x.system ==> r[s] == m[s];
    }
  }

  ghost predicate ReadsPayload(j: Json, m: Matrix) {
    Reads(e => j.Object? && Carries(j.members, j.members.Keys, e), m)
  }

  lemma SyncRowMember(row: map<nat, bool>, t: nat)
    requires t in row
    ensures var j := SyncRow(row).members; Print(t) in j && j[Print(t)] == Bool(row[t])
  {
    PrintSeparates();
  }

  lemma SyncRowKeeps(s: nat, row: map<nat, bool>, t: nat)
    requires s < INT64_LIMIT && t < INT64_LIMIT && t in row
    ensures Entry(s, t, row[t]) in AllRow(Print(s), SyncRow(row))
  {
    AtoiOfPrint(s);
    AtoiOfPrint(t);
    SyncRowMember(row, t);
  }

  lemma SyncRowAddsNothing(s: nat, row: map<nat, bool>, t': string)
    requires s < INT64_LIMIT && forall t :: t in row ==> t < INT64_LIMIT
    requires t' in SyncRow(row).members
    ensures exists t :: t in row && Atoi(t') == Some(t) && SyncRow(row).members[t'] == Bool(row[t])
  {
    PrintSeparates();
    var t :| t in row && t' == Print(t);
    AtoiOfPrint(t);
  }

  lemma SyncRowCarries(s: nat, row: map<nat, bool>, e: Entry)
    requires s < INT64_LIMIT && forall t :: t in row ==> t < INT64_LIMIT
    ensures e in AllRow(Print(s), SyncRow(row)) <==> e.system == s && e.talkgroup in row && e.on == row[e.talkgroup]
  {
    var j := SyncRow(row);
    if e.system == s && e.talkgroup in row && e.on == row[e.talkgroup] {
      SyncRowKeeps(s, row, e.talkgroup);
    }
    if e in AllRow(Print(s), j) {
      AtoiOfPrint(s);
      var t' :| t' in j.members && Atoi(t').Some? && j.members[t'].Bool?
        && e == Entry(Key(Print(s)), Key(t'), j.members[t'].on);
      SyncRowAddsNothing(s, row, t');
    }
  }

  lemma SyncCarries(m: Matrix, e: Entry)
    requires Safe(m)
    ensures Carries(Sync(m).members, Sync(m).members.Keys, e) <==> Cell(m, e.system, e.talkgroup) == Some(e.on)
  {
    PrintSeparates();
    var j := Sync(m).members;
    forall s | s in m
      ensures Print(s) in j && j[Print(s)] == SyncRow(m[s])
    {
    }
    if e.system in m {
      SyncRowCarries(e.system, m[e.system], e);
    }
    if s' :| s' in j && e in AllRow(s', j[s']) {
      SyncAddsNothing(m, s', e);
    }
  }

  lemma SyncAddsNothing(m: Matrix, s': string, e: Entry)
    requires Safe(m) && s' in Sync(m).members && e in AllRow(s', Sync(m).members[s'])
    ensures Cell(m, e.system, e.talkgroup) == Some(e.on)
  {
    PrintSeparates();
    var s :| s in m && s' == Print(s);
    SyncRowCarries(s, m[s], e);
  }

  /** The server's matrix after a sync: the client's map without its empty systems, whatever
      order the payload is read in. */
  lemma SyncIsReadBack(m: Matrix, server: Matrix)
    requires Safe(m)
    requires ReadsPayload(Sync(m), server)
    ensures forall s :: s in server <==> s in m && m[s] != map[]
    ensures forall s :: s in server ==> server[s] == m[s]
  {
    var j := Sync(m).members;
    forall s, t ensures Cell(server, s, t) == Cell(m, s, t) {
      if Cell(server, s, t).Some? { SyncCarries(m, Entry(s, t, Cell(server, s, t).value)); }
      if Cell(m, s, t).Some? { SyncCarries(m, Entry(s, t, Cell(m, s, t).value)); }
    }
    forall s ensures s in server <==> s in m && m[s] != map[] {
      if s in server {
        var t :| t in server[s];
        assert Cell(server, s, t).Some?;
      }
      if s in m && m[s] != map[] {
        var t :| t in m[s];
        assert Cell(m, s, t).Some?;
      }
    }
    forall s | s in server ensures server[s] == m[s] {
      RowsEqual(server, m, s);
    }
  }

  lemma RowsEqual(a: Matrix, b: Matrix, s: nat)
    requires s in a && s in b && forall t :: Cell(a, s, t) == Cell(b, s, t)
    ensures a[s] == b[s]
  {
    assert forall t :: (t in a[s]) == Cell(a, s, t).Some? && (t in b[s]) == Cell(b, s, t).Some?;
    assert forall t :: t in a[s] <==> t in b[s];
    assert forall t :: t in a[s] ==> a[s][t] == b[s][t];
  }

  // --- The history filter ---

  type Lists = map<nat, seq<nat>>

  /** The lists name each talkgroup that is on once, under each system that has one on. */
  ghost predicate ListsActive(m: Matrix, active: Lists) {
    && (forall s, t :: On(m, s, t) <==> s in active && t in active[s])
    && (forall s :: s in active ==> |active[s]| > 0 && Distinct(active[s]))
  }

  /** The search condition: the call's system has a list that names its talkgroup or a patch;
      no list at all means no call. */
  predicate InHistory(active: Lists, c: Call) {
    c.system in active
    && (c.talkgroup in active[c.system] || exists i :: 0 <= i < |c.patches| && c.patches[i] in active[c.system])
  }

  /** The player's call, with the same references. */
  predicate SameRefs(p: ScannerModel.Call, c: Call) {
    p.system == c.system && p.talkgroup == c.talkgroup && |p.patches| == |c.patches|
    && forall i :: 0 <= i < |c.patches| ==> p.patches[i] == c.patches[i]
  }

  /** The player, the live feed and the history agree on every call. */
  lemma EndsAgree(client: Matrix, server: Matrix, active: Lists, c: Call, p: ScannerModel.Call)
    requires Safe(client)
    requires ReadsPayload(Sync(client), server)
    requires ListsActive(server, active)
    requires SameRefs(p, c)
    ensures ScannerModel.Active(client, p) == Selected(server, c) == InHistory(active, c)
  {
    SyncIsReadBack(client, server);
    forall t ensures On(client, c.system, t) == On(server, c.system, t) {
    }
  }

  /** The client's test before it lets a call stay in its queue. */
  method IsActive(livefeedMap: Matrix, call: Call) returns (active: bool)
    ensures active == Selected(livefeedMap, call)
  {
    active := On(livefeedMap, call.system, call.talkgroup);
    if !active {
      for i := 0 to |call.patches|
        invariant !active
        invariant forall k :: 0 <= k < i ==> !On(livefeedMap, call.system, call.patches[k])
      {
        active := On(livefeedMap, call.system, call.patches[i]);
        if active {
          break;
        }
      }
    }
  }

  lemma CarriesOneMore(members: map<string, Json>, keys: set<string>, s: string, more: set<string>)
    requires s in members && forall k :: k in more <==> k in keys || k == s
    ensures forall e :: Carries(members, more, e) <==> Carries(members, keys, e) || e in AllRow(s, members[s])
  {
  }

  lemma RowOneMore(s: string, n: Json, ts: set<string>, t: string, more: set<string>)
    requires Atoi(s).Some? && n.Object? && t in n.members && forall k :: k in more <==> k in ts || k == t
    ensures forall e ::
      e in Row(s, n, more) <==>
        e in Row(s, n, ts) || (n.members[t].Bool? && Atoi(t).Some? && e == Entry(Key(s), Key(t), n.members[t].on))
  {
  }

  class Livefeed {
    var Matrix: Matrix

    constructor ()
      ensures Matrix == map[]
    {
      Matrix := map[];
    }

    /** Replaces the matrix by a reading of the payload. */
    method FromMap(f: Json)
      modifies this
      ensures ReadsPayload(f, Matrix)
    {
      Matrix := map[];
      if f.Object? {
        var pending := f.members.Keys;
        while pending != {}
          invariant pending <= f.members.Keys
          invariant Reads(e => Carries(f.members, f.members.Keys - pending, e), Matrix)
        {
          var s :| s in pending;
          ghost var before := e => Carries(f.members, f.members.Keys - pending, e);
          ghost var after := e => before(e) || e in AllRow(s, f.members[s]);
          if Atoi(s).Some? && f.members[s].Object? {
            FromRow(s, f.members[s], before);
          }
          CarriesOneMore(f.members, f.members.Keys - pending, s, f.members.Keys - (pending - {s}));
          pending := pending - {s};
        }
      }
    }

    /** One system's part of the payload, added to what was read before. */
    method FromRow(s: string, n: Json, ghost carried: Entry -> bool)
      requires Atoi(s).Some? && n.Object?
      requires Reads(carried, Matrix)
      modifies this
      ensures Reads(e => carried(e) || e in AllRow(s, n), Matrix)
    {
      var pending := n.members.Keys;
      while pending != {}
        invariant pending <= n.members.Keys
        invariant Reads(e => carried(e) || e in Row(s, n, n.members.Keys - pending), Matrix)
      {
        var t :| t in pending;
        ghost var before := e => carried(e) || e in Row(s, n, n.members.Keys - pending);
        ghost var after := e => carried(e) || e in Row(s, n, n.members.Keys - (pending - {t}));
        RowOneMore(s, n, n.members.Keys - pending, t, n.members.Keys - (pending - {t}));
        if n.members[t].Bool? && Atoi(t).Some? {
          var e := Entry(Key(s), Key(t), n.members[t].on);
          PutReads(before, after, Matrix, e);
          Matrix := Put(Matrix, e);
        }
        pending := pending - {t};
      }
    }

    method IsAllOff() returns (off: bool)
      ensures off == forall c: Call :: !Selected(Matrix, c)
    {
      var systems := Matrix.Keys;
      while systems != {}
        invariant systems <= Matrix.Keys
        invariant forall s, t :: On(Matrix, s, t) ==> s in systems
      {
        HasElement(systems);
        var s :| s in systems;
        var talkgroups := Matrix[s].Keys;
        while talkgroups != {}
          invariant talkgroups <= Matrix[s].Keys
          invariant forall t :: On(Matrix, s, t) ==> t in talkgroups
        {
          HasElement(talkgroups);
          var t :| t in talkgroups;
          if Matrix[s][t] {
            assert Selected(Matrix, Call(s, t, []));
            return false;
          }
          talkgroups := talkgroups - {t};
        }
        systems := systems - {s};
      }
      return true;
    }

    method ActiveTalkgroups() returns (active: Lists)
      ensures ListsActive(Matrix, active)
    {
      active := map[];
      var systems := Matrix.Keys;
      while systems != {}
        invariant systems <= Matrix.Keys
        invariant forall s, t :: s !in systems && On(Matrix, s, t) ==> s in active && t in active[s]
        invariant forall s, t :: s in active && t in active[s] ==> s !in systems && On(Matrix, s, t)
        invariant forall s :: s in active ==> s !in systems && |active[s]| > 0 && Distinct(active[s])
      {
        HasElement(systems);
        var s :| s in systems;
        var talkgroups := Matrix[s].Keys;
        var list: seq<nat> := [];
        while talkgroups != {}
          invariant talkgroups <= Matrix[s].Keys
          invariant forall t :: t in list <==> t !in talkgroups && On(Matrix, s, t)
          invariant Distinct(list)
        {
          HasElement(talkgroups);
          var t :| t in talkgroups;
          if Matrix[s][t] {
            list := list + [t];
          }
          talkgroups := talkgroups - {t};
        }
        if |list| > 0 {
          active := active[s := list];
        }
        systems := systems - {s};
      }
    }

    method IsEnabled(call: Option<Call>) returns (enabled: bool)
      ensures enabled == (call.Some? && Selected(Matrix, call.value))
    {
      if call.Some? {
        if On(Matrix, call.value.system, call.value.talkgroup) {
          return true;
        }
        for i := 0 to |call.value.patches|
          invariant forall k :: 0 <= k < i ==> !On(Matrix, call.value.system, call.value.patches[k])
        {
          if On(Matrix, call.value.system, call.value.patches[i]) {
            return true;
          }
        }
      }
      return false;
    }
  }
}
