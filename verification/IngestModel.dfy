/** What receiving a call does to the configuration: finding its system and talkgroup, and adding
    what is missing when auto-population is on. */
module IngestModel {
  import opened Prelude
  import opened Decimal
  import opened Blacklists
  import Scopes

  // --- Data ---

  /** Groups or tags, and the identifier the next one gets when it is saved. */
  datatype Catalog = Catalog(list: seq<Scopes.Named>, nextId: nat)

  datatype Labels = Labels(groups: Catalog, tags: Catalog)

  datatype Talkgroup = Talkgroup(id: nat, ref: nat, title: string, name: string, groupIds: seq<nat>, tagId: nat)

  datatype Unit = Unit(ref: nat, title: string)

  datatype System = System(id: nat, ref: nat, title: string, autoPopulate: bool, blacklists: string,
    talkgroups: seq<Talkgroup>, units: seq<Unit>)

  datatype Config = Config(autoPopulate: bool, systems: seq<System>, labels: Labels)

  /** What came with the recording; zero or empty where nothing did. */
  datatype Meta = Meta(systemId: nat, systemRef: nat, systemLabel: string,
    talkgroupId: nat, talkgroupRef: nat, talkgroupLabel: string, talkgroupName: string,
    talkgroupGroups: seq<string>, talkgroupTag: string,
    unitRefs: seq<nat>, unitLabels: seq<string>)

  datatype Call = Call(meta: Meta, patches: seq<nat>)

  // --- Lookups ---

  predicate UsesRef(systems: seq<System>, ref: nat) {
    exists i :: 0 <= i < |systems| && systems[i].ref == ref
  }

  predicate HasTalkgroup(talkgroups: seq<Talkgroup>, ref: nat) {
    exists i :: 0 <= i < |talkgroups| && talkgroups[i].ref == ref
  }

  predicate HasUnit(units: seq<Unit>, ref: nat) {
    exists i :: 0 <= i < |units| && units[i].ref == ref
  }

  /** By identifier if one is given, else by reference, else by label; never two of them. */
  function FindSystem(systems: seq<System>, m: Meta): (r: Option<nat>)
    ensures r.Some? ==> r.value < |systems|
  {
    if m.systemId > 0 then Find((s: System) => s.id == m.systemId, systems)
    else if m.systemRef > 0 then Find((s: System) => s.ref == m.systemRef, systems)
    else if m.systemLabel != "" then Find((s: System) => s.title == m.systemLabel, systems)
    else None
  }

  function FindTalkgroup(talkgroups: seq<Talkgroup>, m: Meta): (r: Option<nat>)
    ensures r.Some? ==> r.value < |talkgroups|
  {
    if m.talkgroupId > 0 then Find((t: Talkgroup) => t.id == m.talkgroupId, talkgroups)
    else if m.talkgroupRef > 0 then Find((t: Talkgroup) => t.ref == m.talkgroupRef, talkgroups)
    else if m.talkgroupLabel != "" then Find((t: Talkgroup) => t.title == m.talkgroupLabel, talkgroups)
    else None
  }

  // What a call goes by, said of one system or talkgroup; the lookups find the first of them.

  predicate SystemMatches(s: System, m: Meta) {
    if m.systemId > 0 then s.id == m.systemId
    else if m.systemRef > 0 then s.ref == m.systemRef
    else m.systemLabel != "" && s.title == m.systemLabel
  }

  predicate TalkgroupMatches(t: Talkgroup, m: Meta) {
    if m.talkgroupId > 0 then t.id == m.talkgroupId
    else if m.talkgroupRef > 0 then t.ref == m.talkgroupRef
    else m.talkgroupLabel != "" && t.title == m.talkgroupLabel
  }

  predicate GoesBySystem(systems: seq<System>, m: Meta, i: nat) {
    i < |systems| && SystemMatches(systems[i], m) && forall k :: 0 <= k < i ==> !SystemMatches(systems[k], m)
  }

  predicate GoesByTalkgroup(ts: seq<Talkgroup>, m: Meta, j: nat) {
    j < |ts| && TalkgroupMatches(ts[j], m) && forall k :: 0 <= k < j ==> !TalkgroupMatches(ts[k], m)
  }

  predicate NamesNoSystem(systems: seq<System>, m: Meta) {
    forall i :: 0 <= i < |systems| ==> !SystemMatches(systems[i], m)
  }

  predicate NamesNoTalkgroup(ts: seq<Talkgroup>, m: Meta) {
    forall j :: 0 <= j < |ts| ==> !TalkgroupMatches(ts[j], m)
  }

  lemma FindsMatch(systems: seq<System>, m: Meta)
    ensures match FindSystem(systems, m)
      case Some(i) => GoesBySystem(systems, m, i)
      case None => NamesNoSystem(systems, m)
  {
  }

  lemma FindsTalkgroup(ts: seq<Talkgroup>, m: Meta)
    ensures match FindTalkgroup(ts, m)
      case Some(i) => GoesByTalkgroup(ts, m, i)
      case None => NamesNoTalkgroup(ts, m)
  {
  }

  /** One above the largest reference; the search for a new one stops before it. */
  const MAX_REF: nat := UINT64_LIMIT - 1

  /** The first unused reference from `i` on, among as many as there are systems and one more. */
  function FirstUnused(systems: seq<System>, i: nat): nat
    requires 1 <= i <= |systems| + 1
    decreases |systems| + 1 - i
  {
    if i == |systems| + 1 || !UsesRef(systems, i) then i else FirstUnused(systems, i + 1)
  }

  function NewSystemRef(systems: seq<System>): nat {
    var r := FirstUnused(systems, 1);
    if r < MAX_REF then r else 0
  }

  // --- Groups and tags ---

  function IdOf(c: Catalog, title: string): Option<nat> {
    match Find((n: Scopes.Named) => n.title == title, c.list)
    case None => None
    case Some(i) => Some(c.list[i].id)
  }

  function Ensure(c: Catalog, title: string): Catalog {
    if IdOf(c, title).Some? then c else Catalog(c.list + [Scopes.Named(c.nextId, title)], c.nextId + 1)
  }

  function EnsureAll(c: Catalog, titles: seq<string>): Catalog {
    if titles == [] then c else Ensure(EnsureAll(c, titles[..|titles| - 1]), titles[|titles| - 1])
  }

  function IdsOf(c: Catalog, titles: seq<string>): seq<nat> {
    if titles == [] then []
    else
      var before := IdsOf(c, titles[..|titles| - 1]);
      match IdOf(c, titles[|titles| - 1]) case None => before case Some(id) => before + [id]
  }

  function TagId(c: Catalog, title: string): nat {
    match IdOf(c, title) case None => 0 case Some(id) => id
  }

  // --- Text ---

  predicate IsSpace(c: char) {
    c in "\t\n\U{000B}\U{000C}\r \U{0085}\U{00A0}\U{1680}\U{2028}\U{2029}\U{202F}\U{205F}\U{3000}"
      || '\U{2000}' <= c <= '\U{200A}'
  }

  function TrimSpace(s: string): (r: string)
    ensures r == "" || (!IsSpace(r[0]) && !IsSpace(r[|r| - 1]))
    decreases |s|
  {
    if s == "" then ""
    else if IsSpace(s[0]) then TrimSpace(s[1..])
    else if IsSpace(s[|s| - 1]) then TrimSpace(s[..|s| - 1])
    else s
  }

  /** Equal to "Unknown" but for case; the Kelvin sign folds to a k. */
  predicate FoldsToUnknown(s: string) {
    && |s| == 7
    && s[0] in "uU" && s[1] in "nN" && s[2] in "kK\U{212A}" && s[3] in "nN" && s[4] in "oO" && s[5] in "wW"
      && s[6] in "nN"
  }

  predicate UsableGroup(title: string) {
    TrimSpace(title) != "" && !FoldsToUnknown(TrimSpace(title))
  }

  function DefaultName(ref: nat): string {
    "Talkgroup " + Print(ref)
  }

  /** The first usable group and the label, or the default name when there is no such group or label. */
  function AutoName(groups: seq<string>, title: string, ref: nat): string {
    var t := TrimSpace(title);
    if t == "" then DefaultName(ref)
    else match Find(UsableGroup, groups)
      case None => DefaultName(ref)
      case Some(i) => TrimSpace(groups[i]) + " " + t
  }

  const UNKNOWN := "Unknown"
  const UNTAGGED := "Untagged"

  // --- Talkgroups ---

  /** A label nobody chose: empty, or the talkgroup's own reference. */
  predicate Placeholder(t: Talkgroup) {
    t.title == "" || t.title == Print(t.ref)
  }

  function RepairedLabels(l: Labels, m: Meta): Labels {
    var tags := if m.talkgroupTag != "" then Ensure(l.tags, m.talkgroupTag) else l.tags;
    Labels(EnsureAll(l.groups, m.talkgroupGroups), tags)
  }

  /** A placeholder takes over what a labelled call says of it. */
  function Repaired(l: Labels, t: Talkgroup, m: Meta): Talkgroup {
    Talkgroup(t.id, t.ref, m.talkgroupLabel,
      if m.talkgroupName != "" then m.talkgroupName
      else if t.name == "" || t.name == DefaultName(t.ref) then AutoName(m.talkgroupGroups, m.talkgroupLabel, t.ref)
      else t.name,
      if m.talkgroupGroups != [] then IdsOf(l.groups, m.talkgroupGroups) else t.groupIds,
      if m.talkgroupTag != "" then TagId(l.tags, m.talkgroupTag) else t.tagId)
  }

  function GroupsFor(m: Meta): seq<string> {
    if m.talkgroupGroups != [] then m.talkgroupGroups else [UNKNOWN]
  }

  function TagFor(m: Meta): string {
    if m.talkgroupTag != "" then m.talkgroupTag else UNTAGGED
  }

  function TitleFor(m: Meta): string {
    if m.talkgroupLabel != "" then m.talkgroupLabel else Print(m.talkgroupRef)
  }

  function CreatedLabels(l: Labels, m: Meta): Labels {
    Labels(EnsureAll(l.groups, GroupsFor(m)), Ensure(l.tags, TagFor(m)))
  }

  function Created(l: Labels, m: Meta): Talkgroup {
    Talkgroup(0, m.talkgroupRef, TitleFor(m),
      if m.talkgroupName != "" then m.talkgroupName else AutoName(GroupsFor(m), TitleFor(m), m.talkgroupRef),
      IdsOf(l.groups, GroupsFor(m)), TagId(l.tags, TagFor(m)))
  }

  // --- Patches ---

  /** Without zeros and repetitions, each where it first stood. */
  function UniqueRefs(refs: seq<nat>): seq<nat> {
    if refs == [] then []
    else
      var before, last := UniqueRefs(refs[..|refs| - 1]), refs[|refs| - 1];
      if last == 0 || last in before then before else before + [last]
  }

  predicate IsMissing(s: System, ref: nat) {
    !IsBlacklisted(s.blacklists, ref) && !HasTalkgroup(s.talkgroups, ref)
  }

  function Missing(s: System, refs: seq<nat>): seq<nat> {
    Filter((ref: nat) => IsMissing(s, ref), refs)
  }

  function PatchLabels(l: Labels): Labels {
    Labels(Ensure(l.groups, UNKNOWN), Ensure(l.tags, UNTAGGED))
  }

  function Patched(l: Labels, ref: nat): Talkgroup {
    Talkgroup(0, ref, Print(ref), DefaultName(ref), IdsOf(l.groups, [UNKNOWN]), TagId(l.tags, UNTAGGED))
  }

  function AllPatched(l: Labels, refs: seq<nat>): (ts: seq<Talkgroup>)
    ensures |ts| == |refs| && forall i :: 0 <= i < |refs| ==> ts[i] == Patched(l, refs[i])
  {
    seq(|refs|, i requires 0 <= i < |refs| => Patched(l, refs[i]))
  }

  // --- Units ---

  function AddUnit(units: seq<Unit>, u: Unit): seq<Unit> {
    if HasUnit(units, u.ref) then units else units + [u]
  }

  function Merge(units: seq<Unit>, more: seq<Unit>): seq<Unit> {
    if more == [] then units else AddUnit(Merge(units, more[..|more| - 1]), more[|more| - 1])
  }

  /** The units named with a label, the first `n` of them looked at. */
  function LabelledUnits(m: Meta, n: nat): seq<Unit>
    requires n <= |m.unitRefs|
  {
    if n == 0 then []
    else
      var before, i := LabelledUnits(m, n - 1), n - 1;
      if i < |m.unitLabels| && m.unitLabels[i] != "" then AddUnit(before, Unit(m.unitRefs[i], m.unitLabels[i]))
      else before
  }

  function UnitsOf(m: Meta): seq<Unit> {
    LabelledUnits(m, |m.unitRefs|)
  }

  // --- A call, taken in ---

  /** The labels and the system after some of the changes. */
  datatype Work = Work(labels: Labels, system: System)

  predicate Repairs(t: Talkgroup, m: Meta) {
    m.talkgroupLabel != "" && Placeholder(t)
  }

  function RepairAt(w: Work, at: nat, m: Meta): Work
    requires at < |w.system.talkgroups|
  {
    var l, t := RepairedLabels(w.labels, m), w.system.talkgroups[at];
    Work(l, w.system.(talkgroups := w.system.talkgroups[at := Repaired(l, t, m)]))
  }

  function Create(w: Work, m: Meta): Work {
    var l := CreatedLabels(w.labels, m);
    Work(l, w.system.(talkgroups := w.system.talkgroups + [Created(l, m)]))
  }

  /** The primary talkgroup: repaired when it is a placeholder, created when it is not there. */
  function Primary(w: Work, at: Option<nat>, m: Meta): Work
    requires at.Some? ==> at.value < |w.system.talkgroups|
  {
    match at
    case Some(i) => if Repairs(w.system.talkgroups[i], m) then RepairAt(w, i, m) else w
    case None => if m.talkgroupRef > 0 then Create(w, m) else w
  }

  function AddPatches(w: Work, refs: seq<nat>): Work {
    var missing := Missing(w.system, refs);
    if missing == [] then w
    else
      var l := PatchLabels(w.labels);
      Work(l, w.system.(talkgroups := w.system.talkgroups + AllPatched(l, missing)))
  }

  function MergeUnits(w: Work, m: Meta): Work {
    w.(system := w.system.(units := Merge(w.system.units, UnitsOf(m))))
  }

  function Populated(w: Work, c: Call): Work {
    var primary := Primary(w, FindTalkgroup(w.system.talkgroups, c.meta), c.meta);
    MergeUnits(AddPatches(primary, UniqueRefs(c.patches)), c.meta)
  }

  function NewSystem(systems: seq<System>, m: Meta): System {
    var ref := if m.systemRef > 0 then m.systemRef else NewSystemRef(systems);
    System(0, ref, if m.systemLabel != "" then m.systemLabel else "System " + Print(ref), false, "", [], [])
  }

  /** The call's talkgroup was found and the system does not want it. */
  predicate Rejected(s: System, m: Meta) {
    var at := FindTalkgroup(s.talkgroups, m);
    at.Some? && IsBlacklisted(s.blacklists, s.talkgroups[at.value].ref)
  }

  /** The configuration after the call. */
  function Populate(g: Config, c: Call): Config {
    match FindSystem(g.systems, c.meta)
    case Some(i) =>
      var s := g.systems[i];
      if Rejected(s, c.meta) || !(g.autoPopulate || s.autoPopulate) then g
      else
        var w := Populated(Work(g.labels, s), c);
        g.(systems := g.systems[i := w.system], labels := w.labels)
    case None =>
      if !g.autoPopulate then g
      else
        var w := Populated(Work(g.labels, NewSystem(g.systems, c.meta)), c);
        g.(systems := g.systems + [w.system], labels := w.labels)
  }
}
