/** Agency-fleet-subfleet notation: an eleven-bit talkgroup reference shown as `AA-FFS`, and the
    reading of such a text taken from a file name. */
module Afs {
  import opened Prelude
  import opened Decimal

  /** `toString().padStart(2, '0')` */
  function Pad2(n: nat): (s: string)
    ensures IsDigits(s)
    ensures n < 100 ==> |s| == 2
  {
    assert 10 <= n < 100 ==> |Print(n / 10)| == 1;
    if n < 10 then "0" + Print(n) else Print(n)
  }

  function Agency(n: nat): nat { n / 128 % 16 }
  function Fleet(n: nat): nat { n / 8 % 16 }
  function Subfleet(n: nat): nat { n % 8 }

  /** Agency in bits 7 to 10, fleet in bits 3 to 6, subfleet in bits 0 to 2. */
  function FormatAfs(n: nat): string {
    FormatFields(Agency(n), Fleet(n), Subfleet(n))
  }

  function FormatFields(a: nat, b: nat, c: nat): string {
    Pad2(a) + "-" + Pad2(b) + Print(c)
  }

  /** The low seven bits are the fleet above the subfleet. */
  lemma FleetOnTop(n: nat)
    ensures n % 128 == Fleet(n) * 8 + Subfleet(n)
  {
    var b := n / 8;
    assert n == 128 * (b / 16) + (b % 16 * 8 + n % 8);
  }

  lemma FieldsOfReference(n: nat)
    ensures Agency(n) < 16 && Fleet(n) < 16 && Subfleet(n) < 8
    ensures Agency(n) * 128 + Fleet(n) * 8 + Subfleet(n) == n % 2048
  {
    FleetOnTop(n);
  }

  lemma FieldsAreUnique(a: nat, b: nat, c: nat, n: nat)
    requires a < 16 && b < 16 && c < 8 && n == a * 128 + b * 8 + c
    ensures Agency(n) == a && Fleet(n) == b && Subfleet(n) == c
  {
    assert n / 8 == 16 * a + b && n / 128 == a;
  }

  lemma Parts(x: string, y: string, z: string)
    requires |x| == 2 && |y| == 2 && |z| == 1
    ensures var v := x + "-" + y + z;
      |v| == 6 && v[2] == '-' && v[..2] == x && v[3..5] == y && v[5..] == z && v[3..] == y + z
  {
  }

  function BitOr(x: nat, y: nat): nat {
    if x == 0 then y
    else if y == 0 then x
    else 2 * BitOr(x / 2, y / 2) + (if x % 2 == 1 || y % 2 == 1 then 1 else 0)
  }

  /** What the file-name reader makes of the text: nothing unless it has six characters with a
      hyphen in the third place and three readable numbers around it. */
  function DecodeAfs(v: string): Option<nat> {
    if |v| == 6 && v[2] == '-' then
      match (Atoi(v[..2]), Atoi(v[3..5]), Atoi(v[5..]))
      case (Some(a), Some(b), Some(c)) => Some(BitOr(BitOr(ToUint(a * 128), ToUint(b * 8)), ToUint(c)))
      case _ => None
    else None
  }

  /** The texts the file-name pattern lets through. */
  predicate IsAfs(v: string) {
    |v| == 6 && v[2] == '-' && IsDigits(v[..2]) && IsDigits(v[3..])
  }

  function Pow2(k: nat): (p: nat)
    ensures p > 0
  {
    if k == 0 then 1 else 2 * Pow2(k - 1)
  }

  /** Bits that do not overlap add up. */
  lemma {:induction false} BitOrDisjoint(k: nat, high: nat, low: nat)
    requires low < Pow2(k)
    ensures BitOr(high * Pow2(k), low) == high * Pow2(k) + low
  {
    if k > 0 && high > 0 && low > 0 {
      var x := high * Pow2(k);
      assert x == 2 * (high * Pow2(k - 1));
      assert x / 2 == high * Pow2(k - 1);
      assert x > 0;
      if low / 2 > 0 {
        BitOrDisjoint(k - 1, high, low / 2);
      } else {
        BitOrDisjoint(k - 1, high, 0);
      }
      assert BitOr(x, low) == 2 * BitOr(x / 2, low / 2) + low % 2;
    }
  }

  lemma ValueOfTwo(s: string)
    requires |s| == 2 && IsDigits(s)
    ensures Value(s) == 10 * DigitValue(s[0]) + DigitValue(s[1])
  {
    assert s[..1][..0] == "";
    assert Value(s[..1]) == DigitValue(s[0]);
  }

  lemma PadOfTwo(a: nat, b: nat)
    requires a < 10 && b < 10
    ensures Pad2(10 * a + b) == [DigitChar(a), DigitChar(b)]
  {
    var v := 10 * a + b;
    assert v / 10 == a && v % 10 == b;
    assert Print(a) == [DigitChar(a)];
    if v >= 10 {
      assert Print(v) == Print(a) + [DigitChar(b)];
    } else {
      assert Print(v) == [DigitChar(b)];
    }
  }

  /** Two digits read as their number, and a number below a hundred pads to them. */
  lemma TwoDigits(s: string)
    requires |s| == 2 && IsDigits(s)
    ensures Value(s) < 100 && Atoi(s) == Some(Value(s)) && Pad2(Value(s)) == s
  {
    ValueOfTwo(s);
    PadOfTwo(DigitValue(s[0]), DigitValue(s[1]));
    DigitsAreChars(s[0]);
    DigitsAreChars(s[1]);
    assert s == [s[0], s[1]];
  }

  lemma DigitsAreChars(c: char)
    requires IsDigit(c)
    ensures DigitChar(DigitValue(c)) == c
  {
  }

  lemma PadReads(n: nat)
    requires n < 100
    ensures Value(Pad2(n)) == n
  {
    ValueOfPrint(n);
    if n < 10 {
      assert Pad2(n)[..1] == "0";
      assert Value("0") == 0 by { assert "0"[..0] == ""; }
    }
  }

  /** A text the pattern lets through always decodes: to its three fields shifted into place
      and joined bit by bit. */
  lemma DecodeJoinsFields(v: string)
    requires IsAfs(v)
    ensures DecodeAfs(v) == Some(BitOr(BitOr(Value(v[..2]) * 128, Value(v[3..5]) * 8), Value(v[5..])))
  {
    assert v[3..5] == v[3..][..2] && v[5..] == v[3..][2..];
    TwoDigits(v[..2]);
    TwoDigits(v[3..5]);
  }

  lemma JoinAdds(a: nat, b: nat, c: nat)
    requires b < 16 && c < 8
    ensures BitOr(BitOr(a * 128, b * 8), c) == a * 128 + b * 8 + c
  {
    assert Pow2(3) == 8;
    assert Pow2(7) == 128 by { assert Pow2(5) == 4 * Pow2(3); }
    BitOrDisjoint(7, a, b * 8);
    BitOrDisjoint(3, a * 16 + b, c);
    assert (a * 16 + b) * 8 == a * 128 + b * 8;
  }

  predicate FieldsFit(v: string)
    requires IsAfs(v)
  {
    Value(v[..2]) <= 15 && Value(v[3..5]) <= 15 && Value(v[5..]) <= 7
  }

  /** Fields that fit in their bits decode to their sum. */
  lemma DecodeReadsFields(v: string)
    requires IsAfs(v)
    ensures DecodeAfs(v).Some?
    ensures FieldsFit(v) ==> DecodeAfs(v).value == Value(v[..2]) * 128 + Value(v[3..5]) * 8 + Value(v[5..])
  {
    DecodeJoinsFields(v);
    if FieldsFit(v) {
      JoinAdds(Value(v[..2]), Value(v[3..5]), Value(v[5..]));
    }
  }

  /** What is shown always has the pattern's form, and reading it gives the low eleven bits:
      the reference itself exactly when it fits in them. */
  lemma DecodeOfFormat(n: nat)
    ensures IsAfs(FormatAfs(n))
    ensures DecodeAfs(FormatAfs(n)) == Some(n % 2048)
    ensures DecodeAfs(FormatAfs(n)) == Some(n) <==> n < 2048
  {
    FieldsOfReference(n);
    FieldsDecodeTo(Agency(n), Fleet(n), Subfleet(n), n % 2048);
    LowBits(n);
  }

  lemma LowBits(n: nat)
    ensures n % 2048 == n <==> n < 2048
  {
  }

  lemma FieldsDecodeTo(a: nat, b: nat, c: nat, m: nat)
    requires a < 16 && b < 16 && c < 8 && m == a * 128 + b * 8 + c
    ensures IsAfs(FormatFields(a, b, c)) && DecodeAfs(FormatFields(a, b, c)) == Some(m)
  {
    FieldsDecode(a, b, c);
  }

  /** Fields that fit are shown in the pattern's form, and decode to their sum. */
  lemma FieldsDecode(a: nat, b: nat, c: nat)
    requires a < 16 && b < 16 && c < 8
    ensures var v := FormatFields(a, b, c);
      && IsAfs(v) && Value(v[..2]) == a && Value(v[3..5]) == b && Value(v[5..]) == c
      && DecodeAfs(v) == Some(a * 128 + b * 8 + c)
  {
    PadReads(a);
    PadReads(b);
    ValueOfPrint(c);
    Parts(Pad2(a), Pad2(b), Print(c));
    DecodeReadsFields(FormatFields(a, b, c));
  }

  /** Showing what was read gives the text back exactly when its three fields fit in four, four
      and three bits. */
  lemma FormatOfDecode(v: string)
    requires IsAfs(v)
    ensures DecodeAfs(v).Some?
    ensures FormatAfs(DecodeAfs(v).value) == v
       <==> Value(v[..2]) <= 15 && Value(v[3..5]) <= 15 && Value(v[5..]) <= 7
  {
    DecodeReadsFields(v);
    var n := DecodeAfs(v).value;
    FieldsOfReference(n);
    FieldsDecode(Agency(n), Fleet(n), Subfleet(n));
    if FieldsFit(v) {
      FormatPutsBack(v, n);
    }
  }

  lemma FormatPutsBack(v: string, n: nat)
    requires IsAfs(v) && FieldsFit(v) && n == Value(v[..2]) * 128 + Value(v[3..5]) * 8 + Value(v[5..])
    ensures FormatAfs(n) == v
  {
    FieldsAreUnique(Value(v[..2]), Value(v[3..5]), Value(v[5..]), n);
    SplitsIntoParts(v);
  }

  lemma SplitsIntoParts(v: string)
    requires IsAfs(v)
    ensures v == FormatFields(Value(v[..2]), Value(v[3..5]), Value(v[5..]))
  {
    assert v[3..5] == v[3..][..2] && v[5..] == v[3..][2..];
    TwoDigits(v[..2]);
    TwoDigits(v[3..5]);
    assert v == v[..2] + "-" + v[3..5] + v[5..];
  }
}
