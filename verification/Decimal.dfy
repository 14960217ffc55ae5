/** Numbers as text: plain decimal printing, and the integer parser that reads it back. */
module Decimal {
  import opened Prelude

  const INT64_LIMIT: nat := 0x8000_0000_0000_0000
  const UINT64_LIMIT: nat := 0x1_0000_0000_0000_0000

  predicate IsDigit(c: char) {
    '0' <= c <= '9'
  }

  predicate IsDigits(s: string) {
    forall i :: 0 <= i < |s| ==> IsDigit(s[i])
  }

  function DigitChar(d: nat): (c: char)
    requires d < 10
    ensures IsDigit(c) && DigitValue(c) == d
  {
    "0123456789"[d]
  }

  function DigitValue(c: char): (d: nat)
    requires IsDigit(c)
    ensures d < 10
  {
    c as int - '0' as int
  }

  function Print(n: nat): (s: string)
    ensures IsDigits(s) && |s| > 0
    ensures n > 0 ==> s[0] != '0'
  {
    if n < 10 then [DigitChar(n)] else Print(n / 10) + [DigitChar(n % 10)]
  }

  function Value(s: string): nat
    requires IsDigits(s)
  {
    if s == "" then 0 else 10 * Value(s[..|s| - 1]) + DigitValue(s[|s| - 1])
  }

  lemma {:induction false} ValueOfPrint(n: nat)
    ensures Value(Print(n)) == n
  {
    if n >= 10 {
      ValueOfPrint(n / 10);
      assert Print(n)[..|Print(n)| - 1] == Print(n / 10);
    }
  }

  lemma PrintIsInjective(m: nat, n: nat)
    ensures Print(m) == Print(n) ==> m == n
  {
    ValueOfPrint(m);
    ValueOfPrint(n);
  }

  /** The signed 64-bit parser: an optional sign, then digits only, within range. */
  function Atoi(s: string): Option<int> {
    if |s| > 0 && (s[0] == '+' || s[0] == '-') then
      Signed(s[1..], s[0] == '-')
    else
      Signed(s, false)
  }

  function Signed(s: string, negative: bool): Option<int> {
    if s == "" || !IsDigits(s) then None
    else
      var v: int := Value(s);
      if negative then (if v <= INT64_LIMIT then Some(-v) else None)
      else if v < INT64_LIMIT then Some(v) else None
  }

  /** The conversion of a signed 64-bit number to an unsigned one. */
  function ToUint(i: int): (u: nat)
    ensures u < UINT64_LIMIT
    ensures 0 <= i < UINT64_LIMIT ==> u == i
  {
    var u := i % UINT64_LIMIT;
    assert u >= 0;
    u
  }

  lemma AtoiOfPrint(n: nat)
    ensures Atoi(Print(n)) == if n < INT64_LIMIT then Some(n) else None
  {
    ValueOfPrint(n);
    assert IsDigit(Print(n)[0]);
  }

  /** A sign is read as such, the negative range being one larger; and nothing but a sign and digits is read. */
  lemma AtoiOfSigned(n: nat, s: string)
    ensures Atoi("+" + Print(n)) == Atoi(Print(n))
    ensures Atoi("-" + Print(n)) == if n <= INT64_LIMIT then Some(-(n as int)) else None
    ensures Atoi("") == Atoi("+") == Atoi("-") == None
    ensures (exists i :: 1 <= i < |s| && !IsDigit(s[i])) ==> Atoi(s).None?
  {
    ValueOfPrint(n);
    assert IsDigit(Print(n)[0]);
    assert ("+" + Print(n))[1..] == Print(n) && ("-" + Print(n))[1..] == Print(n);
    if i :| 1 <= i < |s| && !IsDigit(s[i]) {
      assert s[1..][i - 1] == s[i];
    }
  }
}
