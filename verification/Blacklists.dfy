/** A system's blacklist: talkgroup references in a comma-separated text. */
module Blacklists {
  import opened Prelude
  import opened Decimal

  function Split(s: string, sep: char): (parts: seq<string>)
    ensures |parts| > 0
  {
    match Find((c: char) => c == sep, s)
    case None => [s]
    case Some(i) => [s[..i]] + Split(s[i + 1..], sep)
  }

  function Join(parts: seq<string>, sep: char): string {
    if parts == [] then "" else if |parts| == 1 then parts[0] else parts[0] + [sep] + Join(parts[1..], sep)
  }

  predicate IsBlacklisted(blacklists: string, ref: nat) {
    Print(ref) in Split(blacklists, ',')
  }

  /** Splitting undoes joining when no part holds the separator. */
  lemma {:induction false} SplitOfJoin(parts: seq<string>, sep: char)
    requires |parts| > 0 && forall p :: p in parts ==> sep !in p
    ensures Split(Join(parts, sep), sep) == parts
  {
    var s := Join(parts, sep);
    assert sep !in parts[0];
    if |parts| > 1 {
      var n := |parts[0]|;
      assert s[n] == sep && s[..n] == parts[0] && s[n + 1..] == Join(parts[1..], sep);
      assert forall i :: 0 <= i < n ==> s[i] == parts[0][i];
      SplitOfJoin(parts[1..], sep);
      assert Find((c: char) => c == sep, s) == Some(n);
    } else {
      assert s == parts[0];
      assert forall i :: 0 <= i < |s| ==> s[i] in s;
    }
  }

  /** A list of references written out with commas blacklists exactly those references. */
  lemma ListedIsBlacklisted(refs: seq<nat>, ref: nat)
    ensures IsBlacklisted(Join(seq(|refs|, i requires 0 <= i < |refs| => Print(refs[i])), ','), ref) <==> ref in refs
  {
    var parts := seq(|refs|, i requires 0 <= i < |refs| => Print(refs[i]));
    if refs == [] {
      assert parts == [];
      assert Split("", ',') == [""];
    } else {
      forall p | p in parts ensures ',' !in p {
        var i :| 0 <= i < |parts| && p == parts[i];
        assert IsDigits(p);
      }
      SplitOfJoin(parts, ',');
      if ref in refs {
        var i :| 0 <= i < |refs| && refs[i] == ref;
        assert parts[i] == Print(ref);
      }
      if Print(ref) in parts {
        var i :| 0 <= i < |parts| && parts[i] == Print(ref);
        PrintIsInjective(refs[i], ref);
      }
    }
  }

  method CheckBlacklisted(blacklists: string, ref: nat) returns (blacklisted: bool)
    ensures blacklisted == IsBlacklisted(blacklists, ref)
  {
    var parts := Split(blacklists, ',');
    for i := 0 to |parts|
      invariant forall k :: 0 <= k < i ==> parts[k] != Print(ref)
    {
      if parts[i] == Print(ref) {
        return true;
      }
    }
    return false;
  }
}
