/** `PrintTo` of the vendored gtest for 128-bit integers: decimal digits by long division of two
    64-bit limbs. */
module Decimal128 {

  const TWO_64 := 0x1_0000_0000_0000_0000
  const TWO_128 := 0x1_0000_0000_0000_0000_0000_0000_0000_0000

  /** Every operation on this type is proved not to overflow. */
  newtype uint64 = x: int | 0 <= x < 0x1_0000_0000_0000_0000

  // ---------------------------------------------------------------- decimal numerals

  function Digit(d: int): char
    requires 0 <= d <= 9
  {
    '0' + d as char
  }

  function Numeral(v: nat): (s: string)
    ensures |s| > 0
  {
    if v < 10 then [Digit(v)] else Numeral(v / 10) + [Digit(v % 10)]
  }

  predicate IsNumeral(s: string) {
    s != "" && (forall c | c in s :: '0' <= c <= '9') && (|s| > 1 ==> s[0] != '0')
  }

  /** The number that a string of digits denotes. */
  function ValueOf(s: string): int {
    if s == "" then 0 else 10 * ValueOf(s[..|s| - 1]) + (s[|s| - 1] as int - '0' as int)
  }

  /** Reading a numeral back gives the number, and a numeral has no leading zero. */
  lemma {:induction false} NumeralReads(v: nat)
    ensures ValueOf(Numeral(v)) == v && IsNumeral(Numeral(v)) && (v > 0 ==> Numeral(v)[0] != '0')
  {
    var s := Numeral(v);
    if v < 10 {
      assert s[..0] == "";
    } else {
      NumeralReads(v / 10);
      assert s[..|s| - 1] == Numeral(v / 10);
      assert v == 10 * (v / 10) + v % 10;
    }
  }

  /** Distinct numbers have distinct numerals, and the numerals are all strings of this form. */
  lemma {:induction false} NumeralUnique(s: string)
    requires IsNumeral(s)
    ensures ValueOf(s) >= 0 && (s[0] != '0' ==> ValueOf(s) > 0) && Numeral(ValueOf(s)) == s
    decreases |s|
  {
    var front, last := s[..|s| - 1], s[|s| - 1] as int - '0' as int;
    assert s == front + [s[|s| - 1]] && s[|s| - 1] in s;
    assert Digit(last) == s[|s| - 1];
    if |s| > 1 {
      assert forall c | c in front :: c in s;
      assert front[0] == s[0];
      NumeralUnique(front);
      LastDigit(ValueOf(front), last);
      hide ValueOf;
    } else {
      assert front == "";
    }
  }

  lemma LastDigit(front: nat, last: int)
    requires 0 <= last <= 9
    ensures (10 * front + last) / 10 == front && (10 * front + last) % 10 == last
    ensures front > 0 ==> Numeral(10 * front + last) == Numeral(front) + [Digit(last)]
  {
  }

  function Power10(n: nat): nat {
    if n == 0 then 1 else 10 * Power10(n - 1)
  }

  lemma {:induction false} NumeralLength(v: nat, n: nat)
    requires v < Power10(n) && n > 0
    ensures |Numeral(v)| <= n
  {
    if v >= 10 {
      NumeralLength(v / 10, n - 1);
    }
  }

  lemma Power39()
    ensures Power10(39) > TWO_128
  {
    assert Power10(3) == 1000 by { assert Power10(1) == 10; }
    PowerSum(3, 3, 1000, 1000);
    PowerSum(6, 6, 1000000, 1000000);
    PowerSum(12, 12, 1000000000000, 1000000000000);
    PowerSum(12, 3, 1000000000000, 1000);
    PowerSum(24, 15, 1000000000000000000000000, 1000000000000000);
    hide Power10;
  }

  lemma {:induction false} PowerSum(m: nat, n: nat, a: nat, b: nat)
    requires Power10(m) == a && Power10(n) == b
    ensures Power10(m + n) == a * b
    decreases n
  {
    if n > 0 {
      PowerSum(m, n - 1, a, Power10(n - 1));
      assert a * b == 10 * (a * Power10(n - 1));
    }
  }

  // ---------------------------------------------------------------- the long division

  function Combined(high: uint64, low: uint64): nat {
    high as int * TWO_64 + low as int
  }

  /** One round of the division: both limbs and the digit. */
  method DivideBy10(high: uint64, low: uint64) returns (newHigh: uint64, newLow: uint64, digit: uint64)
    ensures Combined(newHigh, newLow) == Combined(high, low) / 10
    ensures digit as int == Combined(high, low) % 10
  {
    var highMod := high % 10;
    newHigh := high / 10;
    var carry := 6 * highMod + low % 10;
    DivisionFits(highMod as int, low as int);
    newLow := low / 10 + highMod * 1844674407370955161 + carry / 10;
    digit := carry % 10;
    DivisionCorrect(high as int, low as int);
  }

  /** The new low limb is below 2^64: when low / 10 is as large as it can be, the carry is not. */
  lemma DivisionFits(highMod: int, low: int)
    requires 0 <= highMod <= 9 && 0 <= low < TWO_64
    ensures low / 10 + highMod * 1844674407370955161 + (6 * highMod + low % 10) / 10 < TWO_64
    ensures low / 10 + highMod * 1844674407370955161 < TWO_64
  {
  }

  lemma DivisionCorrect(high: int, low: int)
    requires 0 <= high < TWO_64 && 0 <= low < TWO_64
    ensures var m := high % 10; var carry := 6 * m + low % 10; var v := high * TWO_64 + low;
            && high / 10 * TWO_64 + (low / 10 + m * 1844674407370955161 + carry / 10) == v / 10
            && carry % 10 == v % 10
  {
    var m := high % 10;
    var carry := 6 * m + low % 10;
    var q := high / 10 * TWO_64 + (low / 10 + m * 1844674407370955161 + carry / 10);
    var v := high * TWO_64 + low;
    assert high == 10 * (high / 10) + m && low == 10 * (low / 10) + low % 10 && carry == 10 * (carry / 10) + carry % 10;
    assert TWO_64 == 10 * 1844674407370955161 + 6;
    assert v == 10 * q + carry % 10;
  }

  lemma Limbs(v: nat)
    requires v < TWO_128
    ensures v / TWO_64 < TWO_64 && v / TWO_64 * TWO_64 + v % TWO_64 == v
  {
  }

  /** What is still to be printed. */
  function Pending(v: nat): string {
    if v == 0 then "" else Numeral(v)
  }

  lemma NextDigit(v: nat)
    requires v > 0
    ensures Pending(v) == Pending(v / 10) + [Digit(v % 10)]
  {
  }

  lemma NothingPending()
    ensures Pending(0) == "" && forall v: nat :: v > 0 ==> Pending(v) == Numeral(v) && Pending(v) != ""
  {
  }

  /** The next digit fits in front of what is printed, and belongs there. */
  lemma OneMore(numeral: string, v: nat, printed: string)
    requires v > 0 && numeral == Pending(v) + printed
    ensures |numeral| > |printed| && numeral == Pending(v / 10) + ([Digit(v % 10)] + printed)
  {
    NextDigit(v);
  }

  /** The unsigned overload: the digits go to the buffer from its end; what is printed is the
      string that starts at `p`. */
  method PrintUnsigned(v: nat) returns (out: string)
    requires v < TWO_128
    ensures out == Numeral(v) && |out| <= 39
  {
    hide Numeral, Combined, Power10, Pending;
    NothingPending();
    if v == 0 {
      NumeralOfZero();
      return "0";
    }
    var buf := new char[40];
    var p := buf.Length;
    Limbs(v);
    var high: uint64 := (v / TWO_64) as uint64;
    var low: uint64 := (v % TWO_64) as uint64;
    Power39();
    NumeralLength(v, 39);
    CombinedIs(v, high, low);
    p := p - 1;
    buf[p] := '\0';
    while high != 0 || low != 0
      invariant 0 <= p <= 39 && buf[39] == '\0'
      invariant Numeral(v) == Pending(Combined(high, low)) + buf[p..39]
      decreases Combined(high, low)
    {
      ghost var before := Combined(high, low);
      ghost var printed := buf[p..39];
      CombinedZero(high, low);
      NextDigit(before);
      OneMore(Numeral(v), before, printed);
      var digit: uint64;
      high, low, digit := DivideBy10(high, low);
      p := p - 1;
      buf[p] := '0' + digit as char;
      assert buf[p..39] == [buf[p]] + buf[p + 1..39];
    }
    CombinedZero(high, low);
    out := buf[p..39];
  }

  lemma NumeralOfZero()
    ensures Numeral(0) == "0"
  {
  }

  lemma CombinedIs(v: nat, high: uint64, low: uint64)
    requires high as int == v / TWO_64 && low as int == v % TWO_64
    ensures Combined(high, low) == v
  {
  }

  lemma CombinedZero(high: uint64, low: uint64)
    ensures Combined(high, low) == 0 <==> high == 0 && low == 0
  {
  }

  lemma Negation(v: int)
    requires -TWO_128 / 2 <= v < TWO_128 / 2
    ensures var uv := v % TWO_128; 0 <= uv < TWO_128 && (v >= 0 ==> uv == v) && (v < 0 ==> -uv % TWO_128 == -v)
  {
    if v < 0 {
      assert v % TWO_128 == v + TWO_128;
    }
  }

  /** The signed overload; `uv` and its negation are reduced modulo 2^128. */
  method PrintSigned(v: int) returns (out: string)
    requires -TWO_128 / 2 <= v < TWO_128 / 2
    ensures out == (if v < 0 then "-" else "") + Numeral(if v < 0 then -v else v)
  {
    hide Numeral;
    Negation(v);
    var uv := v % TWO_128;
    out := "";
    if v < 0 {
      out := out + "-";
      uv := -uv % TWO_128;
    }
    var digits := PrintUnsigned(uv);
    out := out + digits;
  }

  function SignedValue(s: string): int {
    if s != "" && s[0] == '-' then -ValueOf(s[1..]) else ValueOf(s)
  }

  /** What is printed for a signed value reads back as the value, the least one included. */
  lemma SignedReads(v: int)
    ensures SignedValue((if v < 0 then "-" else "") + Numeral(if v < 0 then -v else v)) == v
  {
    NumeralReads(if v < 0 then -v else v);
    if v < 0 {
      assert ("-" + Numeral(-v))[1..] == Numeral(-v);
    } else {
      assert "" + Numeral(v) == Numeral(v) && Numeral(v)[0] in Numeral(v);
    }
  }
}
