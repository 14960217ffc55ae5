/** Receiving calls with the configuration saved and read back in between: new identifiers are given
    out, lists come in another order, and a talkgroup's groups come back in any order and with
    others that linger. */
module IngestReload {
  import opened Prelude
  import opened Decimal
  import opened IngestModel
  import opened IngestDistinct
  import opened IngestExtends
  import opened IngestTwice
  import TalkgroupStore

  // --- What a reload keeps ---

  /** A talkgroup read back: the same but for an identifier it did not have, and for its groups, of
      which the positive ones are all there. */
  predicate ComesBackAs(t: Talkgroup, u: Talkgroup) {
    && u == t.(id := u.id, groupIds := u.groupIds) && (t.id > 0 ==> u.id == t.id)
    && forall g :: g in t.groupIds && g > 0 ==> g in u.groupIds
  }

  predicate CoveredBy(t: Talkgroup, b: seq<Talkgroup>) {
    exists u :: u in b && ComesBackAs(t, u)
  }

  predicate CameFromOne(a: seq<Talkgroup>, u: Talkgroup) {
    exists t :: t in a && ComesBackAs(t, u)
  }

  /** Every talkgroup comes back, and none besides. */
  ghost predicate ListComesBack(a: seq<Talkgroup>, b: seq<Talkgroup>) {
    && |a| == |b|
    && (forall t {:trigger CoveredBy(t, b)} :: t in a ==> CoveredBy(t, b))
    && (forall u {:trigger CameFromOne(a, u)} :: u in b ==> CameFromOne(a, u))
  }

  ghost predicate SameSystem(s: System, s': System) {
    && s' == s.(id := s'.id, talkgroups := s'.talkgroups, units := s'.units) && (s.id > 0 ==> s'.id == s.id)
    && ListComesBack(s.talkgroups, s'.talkgroups)
    && |s.units| == |s'.units| && (forall r :: HasUnit(s.units, r) <==> HasUnit(s'.units, r))
  }

  ghost predicate KeptIn(s: System, after: seq<System>) {
    exists s' :: s' in after && SameSystem(s, s')
  }

  ghost predicate CameFrom(before: seq<System>, s': System) {
    exists s :: s in before && SameSystem(s, s')
  }

  /** Every label still names the group or tag it named. */
  ghost predicate SameNames(l: Labels, l': Labels) {
    forall title :: IdOf(l'.groups, title) == IdOf(l.groups, title) && IdOf(l'.tags, title) == IdOf(l.tags, title)
  }

  ghost predicate Reloaded(g: Config, h: Config) {
    && h.autoPopulate == g.autoPopulate && SameNames(g.labels, h.labels) && |h.systems| == |g.systems|
    && (forall s {:trigger KeptIn(s, h.systems)} :: s in g.systems ==> KeptIn(s, h.systems))
    && (forall s' {:trigger CameFrom(g.systems, s')} :: s' in h.systems ==> CameFrom(g.systems, s'))
  }

  // --- It is what writing and reading a system's talkgroups gives ---

  function InMemory(t: TalkgroupStore.Talkgroup): Talkgroup {
    Talkgroup(t.id, t.fields.ref, t.fields.caption, t.fields.name, t.groups, t.fields.tagId)
  }

  function AllInMemory(list: seq<TalkgroupStore.Talkgroup>): (r: seq<Talkgroup>)
    ensures |r| == |list| && forall i :: 0 <= i < |list| ==> r[i] == InMemory(list[i])
  {
    seq(|list|, i requires 0 <= i < |list| => InMemory(list[i]))
  }

  /** A list whose identifiers are all of stored talkgroups of the system comes back as a reload has it. */
  lemma StoreReloads(db: TalkgroupStore.Tables, system: nat, list: seq<TalkgroupStore.Talkgroup>,
      out: seq<TalkgroupStore.Talkgroup>)
    requires TalkgroupStore.WellFormed(db) && TalkgroupStore.Writable(db, list)
    requires forall t :: t in list && t.id > 0 ==> t.id in db.rows && db.rows[t.id].system == system
    requires TalkgroupStore.IsRead(TalkgroupStore.Written(db, system, list).0, system, out)
    ensures ListComesBack(AllInMemory(list), AllInMemory(out))
  {
    TalkgroupStore.WriteThenRead(db, system, list, out);
    var memory := TalkgroupStore.Written(db, system, list).1;
    TalkgroupStore.AllAtHome(db, system, list, memory);
    TalkgroupStore.IdsCorrespond(out, memory);
    forall i | 0 <= i < |list| ensures list[i].id > 0 ==> TalkgroupStore.Stored(db, list[i]) {
      assert list[i] in list;
    }
    AllComeBack(db, list, memory, out);
  }

  lemma AllComeBack(db: TalkgroupStore.Tables, list: seq<TalkgroupStore.Talkgroup>,
      memory: seq<TalkgroupStore.Talkgroup>, out: seq<TalkgroupStore.Talkgroup>)
    requires |memory| == |list| == |out|
    requires forall x :: TalkgroupStore.Listed(out, x) <==> TalkgroupStore.Listed(memory, x)
    requires forall i :: 0 <= i < |list| && list[i].id > 0 ==> TalkgroupStore.Stored(db, list[i])
    requires forall i, j :: 0 <= i < |list| && 0 <= j < |out| && out[j].id == memory[i].id ==>
      TalkgroupStore.ReadBack(db, list[i], out[j])
    ensures ListComesBack(AllInMemory(list), AllInMemory(out))
  {
    var a, b := AllInMemory(list), AllInMemory(out);
    forall t | t in a ensures CoveredBy(t, b) {
      var i :| 0 <= i < |a| && a[i] == t;
      assert TalkgroupStore.Listed(memory, memory[i].id);
      var j :| 0 <= j < |out| && out[j].id == memory[i].id;
      assert b[j] in b;
    }
    forall u | u in b ensures CameFromOne(a, u) {
      var j :| 0 <= j < |b| && b[j] == u;
      assert TalkgroupStore.Listed(out, out[j].id);
      var i :| 0 <= i < |memory| && memory[i].id == out[j].id;
      assert a[i] in a;
    }
  }

  // --- References ---

  lemma CoversRef(a: seq<Talkgroup>, b: seq<Talkgroup>, r: nat)
    requires ListComesBack(a, b)
    ensures HasTalkgroup(a, r) <==> HasTalkgroup(b, r)
  {
    if HasTalkgroup(a, r) {
      var i :| 0 <= i < |a| && a[i].ref == r;
      assert CoveredBy(a[i], b);
      var u :| u in b && ComesBackAs(a[i], u);
      var j :| 0 <= j < |b| && b[j] == u;
      assert b[j].ref == r;
    }
    if HasTalkgroup(b, r) {
      var j :| 0 <= j < |b| && b[j].ref == r;
      assert CameFromOne(a, b[j]);
      var t :| t in a && ComesBackAs(t, b[j]);
      var i :| 0 <= i < |a| && a[i] == t;
      assert a[i].ref == r;
    }
  }

  lemma ListKeepsDistinct(a: seq<Talkgroup>, b: seq<Talkgroup>)
    requires ListComesBack(a, b) && DistinctTalkgroups(a)
    ensures DistinctTalkgroups(b)
  {
    var x, y := Keys((t: Talkgroup) => t.ref, a), Keys((t: Talkgroup) => t.ref, b);
    forall r | r in x ensures r in y {
      var i :| 0 <= i < |a| && x[i] == r;
      assert a[i].ref == r;
      CoversRef(a, b, r);
      var j :| 0 <= j < |b| && b[j].ref == r;
      assert y[j] == r;
    }
    StaysDistinct(x, y);
    assert forall i :: 0 <= i < |b| ==> y[i] == b[i].ref;
  }

  lemma UnitsKeepDistinct(a: seq<Unit>, b: seq<Unit>)
    requires |a| == |b| && (forall r :: HasUnit(a, r) <==> HasUnit(b, r)) && DistinctUnits(a)
    ensures DistinctUnits(b)
  {
    var x, y := Keys((u: Unit) => u.ref, a), Keys((u: Unit) => u.ref, b);
    forall r | r in x ensures r in y {
      var i :| 0 <= i < |a| && x[i] == r;
      assert a[i].ref == r && HasUnit(a, a[i].ref);
      var j :| 0 <= j < |b| && b[j].ref == r;
      assert y[j] == r;
    }
    StaysDistinct(x, y);
    assert forall i :: 0 <= i < |b| ==> y[i] == b[i].ref;
  }

  /** A reload keeps references distinct. */
  lemma ReloadKeepsDistinct(g: Config, h: Config)
    requires Reloaded(g, h) && DistinctRefs(g)
    ensures DistinctRefs(h)
  {
    var x, y := Refs(g.systems), Refs(h.systems);
    forall r | r in x ensures r in y {
      var i :| 0 <= i < |x| && x[i] == r;
      assert KeptIn(g.systems[i], h.systems);
      var s' :| s' in h.systems && SameSystem(g.systems[i], s');
      var j :| 0 <= j < |h.systems| && h.systems[j] == s';
      assert y[j] == r;
    }
    StaysDistinct(x, y);
    assert forall i :: 0 <= i < |h.systems| ==> y[i] == h.systems[i].ref;
    forall j | 0 <= j < |h.systems| ensures DistinctWithin(h.systems[j]) {
      assert CameFrom(g.systems, h.systems[j]);
      var s :| s in g.systems && SameSystem(s, h.systems[j]);
      ListKeepsDistinct(s.talkgroups, h.systems[j].talkgroups);
      UnitsKeepDistinct(s.units, h.systems[j].units);
    }
  }

  /** A run of receipts: each changes the configuration, which may then be saved and read back. */
  ghost predicate IsRun(trace: seq<Config>, calls: seq<Call>) {
    && |trace| == |calls| + 1
    && forall i :: 0 <= i < |calls| ==> ReceivedAs(trace[i], calls[i], trace[i + 1])
  }

  ghost predicate ReceivedAs(g: Config, c: Call, h: Config) {
    h == Populate(g, c) || Reloaded(Populate(g, c), h)
  }

  lemma ReceiptKeepsDistinct(g: Config, c: Call, h: Config)
    requires DistinctRefs(g) && |g.systems| + 1 < MAX_REF && !RefClash(g, c) && ReceivedAs(g, c, h)
    ensures DistinctRefs(h) && |h.systems| <= |g.systems| + 1
  {
    RefsStayDistinct(g, c);
    OneMoreSystem(g, c);
    if h != Populate(g, c) {
      ReloadKeepsDistinct(Populate(g, c), h);
    }
  }

  /** However many calls come in, and whenever the configuration is saved and read back, references
      stay distinct as long as none of the calls clashes with the configuration it finds. */
  lemma {:induction false} RunKeepsRefsDistinct(trace: seq<Config>, calls: seq<Call>, n: nat)
    requires IsRun(trace, calls) && n <= |calls|
    requires DistinctRefs(trace[0]) && |trace[0].systems| + |calls| < MAX_REF
    requires forall i :: 0 <= i < |calls| ==> !RefClash(trace[i], calls[i])
    ensures DistinctRefs(trace[n]) && |trace[n].systems| <= |trace[0].systems| + n
  {
    if n > 0 {
      RunKeepsRefsDistinct(trace, calls, n - 1);
      assert ReceivedAs(trace[n - 1], calls[n - 1], trace[n]);
      ReceiptKeepsDistinct(trace[n - 1], calls[n - 1], trace[n]);
    }
  }

  // --- The same call again ---

  /** What the call goes by names at most one system, and one talkgroup in it. */
  predicate Unambiguous(h: Config, m: Meta) {
    && (forall i, j :: 0 <= i < j < |h.systems| ==> !(SystemMatches(h.systems[i], m) && SystemMatches(h.systems[j], m)))
    && (forall i :: 0 <= i < |h.systems| && SystemMatches(h.systems[i], m) ==> OneTalkgroup(h.systems[i].talkgroups, m))
  }

  predicate OneTalkgroup(ts: seq<Talkgroup>, m: Meta) {
    forall i, j :: 0 <= i < j < |ts| ==> !(TalkgroupMatches(ts[i], m) && TalkgroupMatches(ts[j], m))
  }

  lemma SystemFoundAgain(a: Config, h: Config, m: Meta)
    requires Reloaded(a, h) && Unambiguous(h, m) && (m.systemId > 0 ==> FindSystem(a.systems, m).Some?)
    ensures var at, at' := FindSystem(a.systems, m), FindSystem(h.systems, m);
      (at.Some? <==> at'.Some?) && (at.Some? ==> SameSystem(a.systems[at.value], h.systems[at'.value]))
  {
    var at, at' := FindSystem(a.systems, m), FindSystem(h.systems, m);
    FindsMatch(a.systems, m);
    FindsMatch(h.systems, m);
    if at.Some? {
      assert KeptIn(a.systems[at.value], h.systems);
      var s' :| s' in h.systems && SameSystem(a.systems[at.value], s');
      var j :| 0 <= j < |h.systems| && h.systems[j] == s';
      assert SystemMatches(h.systems[j], m);
    }
    if at'.Some? {
      assert CameFrom(a.systems, h.systems[at'.value]);
      var s :| s in a.systems && SameSystem(s, h.systems[at'.value]);
      var i :| 0 <= i < |a.systems| && a.systems[i] == s;
      assert m.systemId == 0 ==> SystemMatches(a.systems[i], m);
    }
  }

  lemma TalkgroupFoundAgain(s: System, s': System, m: Meta)
    requires SameSystem(s, s') && OneTalkgroup(s'.talkgroups, m) && FindTalkgroup(s.talkgroups, m).Some?
    ensures var at, at' := FindTalkgroup(s.talkgroups, m), FindTalkgroup(s'.talkgroups, m);
      at'.Some? && ComesBackAs(s.talkgroups[at.value], s'.talkgroups[at'.value])
  {
    var t := s.talkgroups[FindTalkgroup(s.talkgroups, m).value];
    FindsTalkgroup(s.talkgroups, m);
    FindsTalkgroup(s'.talkgroups, m);
    assert CoveredBy(t, s'.talkgroups);
    var u :| u in s'.talkgroups && ComesBackAs(t, u);
    var j :| 0 <= j < |s'.talkgroups| && s'.talkgroups[j] == u;
    assert TalkgroupMatches(s'.talkgroups[j], m);
  }

  /** The one thing a second receipt can change: a talkgroup labelled with its own reference looks like
      a placeholder again, and is filed again in the groups the call names, in the call's order. */
  predicate FilesAgain(l: Labels, t: Talkgroup, m: Meta) {
    && m.talkgroupLabel == t.title == Print(t.ref)
    && m.talkgroupGroups != [] && t.groupIds != IdsOf(l.groups, m.talkgroupGroups)
  }

  lemma {:induction false} SameNamesSameIds(l: Labels, l': Labels, titles: seq<string>)
    requires SameNames(l, l')
    ensures IdsOf(l'.groups, titles) == IdsOf(l.groups, titles)
  {
    if titles != [] {
      SameNamesSameIds(l, l', titles[..|titles| - 1]);
    }
  }

  lemma SettledUnlessFiledAgain(l: Labels, l': Labels, t: Talkgroup, u: Talkgroup, m: Meta)
    requires SameNames(l, l') && ComesBackAs(t, u) && SettledPrimary(l, t, m)
    ensures SettledPrimary(l', u, m) <==> !FilesAgain(l', u, m)
    ensures FilesAgain(l', u, m) ==> Repairs(u, m) && Repaired(RepairedLabels(l', m), u, m).groupIds != u.groupIds
  {
    if Repairs(u, m) {
      EnsureAllExtends(l.groups, m.talkgroupGroups);
      forall title | title in m.talkgroupGroups ensures IdOf(l'.groups, title).Some? {
        assert IdOf(EnsureAll(l.groups, m.talkgroupGroups), title).Some?;
      }
      EnsureAllKnown(l'.groups, m.talkgroupGroups);
      EnsureExtends(l.tags, m.talkgroupTag);
      SameNamesSameIds(l, l', m.talkgroupGroups);
    }
  }

  /** The talkgroup the call would file again, in the configuration as it is now. */
  predicate WouldFileAgain(h: Config, m: Meta) {
    match FindSystem(h.systems, m)
    case None => false
    case Some(i) =>
      var s := h.systems[i];
      match FindTalkgroup(s.talkgroups, m)
      case None => false
      case Some(j) => Takes(h, s, m) && FilesAgain(h.labels, s.talkgroups[j], m)
  }

  lemma SystemSettledAgain(a: Config, h: Config, s: System, s': System, c: Call)
    requires SameNames(a.labels, h.labels) && a.autoPopulate == h.autoPopulate
    requires SameSystem(s, s') && OneTalkgroup(s'.talkgroups, c.meta)
    requires Takes(a, s, c.meta) ==> Settled(a.labels, s, c)
    requires FindTalkgroup(s.talkgroups, c.meta).Some? || !Active(a, s)
    ensures Takes(h, s', c.meta) ==>
      var at := FindTalkgroup(s'.talkgroups, c.meta);
      && at.Some?
      && (Settled(h.labels, s', c) <==> !FilesAgain(h.labels, s'.talkgroups[at.value], c.meta))
      && (FilesAgain(h.labels, s'.talkgroups[at.value], c.meta) ==>
            Repairs(s'.talkgroups[at.value], c.meta)
            && Repaired(RepairedLabels(h.labels, c.meta), s'.talkgroups[at.value], c.meta).groupIds
               != s'.talkgroups[at.value].groupIds)
  {
    if Takes(h, s', c.meta) {
      TalkgroupFoundAgain(s, s', c.meta);
      var t := s.talkgroups[FindTalkgroup(s.talkgroups, c.meta).value];
      var u := s'.talkgroups[FindTalkgroup(s'.talkgroups, c.meta).value];
      SettledUnlessFiledAgain(a.labels, h.labels, t, u, c.meta);
      forall r ensures HasTalkgroup(s.talkgroups, r) <==> HasTalkgroup(s'.talkgroups, r) {
        CoversRef(s.talkgroups, s'.talkgroups, r);
      }
    }
  }

  /** A repair that changes the groups shows in the outcome. */
  lemma RepairShows(w: Work, c: Call)
    requires var at := FindTalkgroup(w.system.talkgroups, c.meta);
      && at.Some? && Repairs(w.system.talkgroups[at.value], c.meta)
      && Repaired(RepairedLabels(w.labels, c.meta), w.system.talkgroups[at.value], c.meta).groupIds
         != w.system.talkgroups[at.value].groupIds
    ensures Populated(w, c).system != w.system
  {
    var at := FindTalkgroup(w.system.talkgroups, c.meta).value;
    var w1 := RepairAt(w, at, c.meta);
    var refs := UniqueRefs(c.patches);
    AddPatchesExtends(w1, refs);
    var after := AddPatches(w1, refs).system.talkgroups;
    assert after[at] == after[..|w1.system.talkgroups|][at] == w1.system.talkgroups[at];
    assert Populated(w, c).system.talkgroups[at] == after[at];
  }

  lemma FoundAfterReceipt(g: Config, c: Call)
    requires NamesSystem(c.meta) && IdsKnown(g, c.meta) && HasTarget(g, c.meta) && IdsResolve(g, c.meta)
    ensures var a := Populate(g, c);
      var at := FindSystem(a.systems, c.meta);
      && Absorbed(a, c) && (c.meta.systemId > 0 ==> at.Some?)
      && (at.Some? ==> FindTalkgroup(a.systems[at.value].talkgroups, c.meta).Some? || !Active(a, a.systems[at.value]))
  {
    var m, a := c.meta, Populate(g, c);
    IngestAbsorbs(g, c);
    IngestOnlyExtends(g, c);
    match FindSystem(g.systems, m) {
      case Some(i) =>
        assert a.systems == g.systems[i := a.systems[i]];
        SystemStaysFound(g.systems, a.systems, m);
      case None =>
    }
  }

  /** Receiving a call again after its outcome was saved and read back, if what it goes by is known and
      unambiguous, changes nothing, except that it files the call's talkgroup again where that is
      labelled with its own reference and its groups came back otherwise than the call names them. */
  lemma IngestAfterReload(g: Config, c: Call, h: Config)
    requires NamesSystem(c.meta) && IdsKnown(g, c.meta) && HasTarget(g, c.meta) && IdsResolve(g, c.meta)
    requires Reloaded(Populate(g, c), h) && Unambiguous(h, c.meta)
    ensures Populate(h, c) == h <==> !WouldFileAgain(h, c.meta)
    ensures c.meta.talkgroupGroups == [] || !IsOwnRef(h, c.meta) ==> Populate(h, c) == h
  {
    var m, a := c.meta, Populate(g, c);
    FoundAfterReceipt(g, c);
    SystemFoundAgain(a, h, m);
    match FindSystem(h.systems, m) {
      case Some(j) =>
        var s, s' := a.systems[FindSystem(a.systems, m).value], h.systems[j];
        FindsMatch(h.systems, m);
        SystemSettledAgain(a, h, s, s', c);
        if WouldFileAgain(h, m) {
          RepairShows(Work(h.labels, s'), c);
          assert Populate(h, c).systems[j] != h.systems[j];
        } else {
          assert Absorbed(h, c);
          AbsorbedStays(h, c);
        }
      case None =>
        assert Absorbed(h, c);
        AbsorbedStays(h, c);
    }
  }

  /** The call's label is the reference of the talkgroup it finds. */
  predicate IsOwnRef(h: Config, m: Meta) {
    match FindSystem(h.systems, m)
    case None => false
    case Some(i) =>
      match FindTalkgroup(h.systems[i].talkgroups, m)
      case None => false
      case Some(j) => m.talkgroupLabel == Print(h.systems[i].talkgroups[j].ref)
  }
}
