/** What an access code opens: everything, or a list of systems, each whole or by talkgroup. */
module Access {

  /** A listed reference; entries that are not numbers never match. */
  datatype Item = Ref(ref: nat) | NotANumber

  datatype Talkgroups = Wildcard | Listed(items: seq<Item>) | Unusable

  datatype Entry = Entry(id: Item, talkgroups: Talkgroups) | NotAnEntry

  /** `Unset` is an access with no scope at all, `Text` a word other than the wildcard. */
  datatype Scope = Unset | Everything | Text | Entries(entries: seq<Entry>) | Unknown

  predicate Opens(e: Entry, system: nat, talkgroup: nat) {
    e.Entry? && e.id == Ref(system)
    && (e.talkgroups.Wildcard? || (e.talkgroups.Listed? && Ref(talkgroup) in e.talkgroups.items))
  }

  predicate Grants(scope: Scope, system: nat, talkgroup: nat) {
    scope.Everything? || (scope.Entries? && exists i ::
      0 <= i < |scope.entries| && Opens(scope.entries[i], system, talkgroup))
  }

  method HasAccess(scope: Scope, system: nat, talkgroup: nat) returns (granted: bool)
    ensures granted == Grants(scope, system, talkgroup)
  {
    match scope
    case Entries(entries) =>
      for i := 0 to |entries|
        invariant forall k :: 0 <= k < i ==> !Opens(entries[k], system, talkgroup)
      {
        match entries[i]
        case Entry(Ref(id), tg) =>
          if id == system {
            match tg
            case Wildcard => return true;
            case Listed(items) =>
              for j := 0 to |items|
                invariant forall k :: 0 <= k < j ==> items[k] != Ref(talkgroup)
              {
                if items[j] == Ref(talkgroup) {
                  return true;
                }
              }
            case Unusable =>
          }
        case _ =>
      }
      return false;
    case Everything => return true;
    case _ => return false;
  }
}
