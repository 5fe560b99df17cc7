/** `IsValidUTF8` of the vendored gtest, against the definition of UTF-8 in RFC 3629. */
module Utf8 {
  type Byte = x: int | 0 <= x < 256

  // ---------------------------------------------------------------- RFC 3629

  /** A Unicode scalar value: a code point that is not a surrogate. */
  predicate Scalar(c: int) {
    0 <= c <= 0xD7FF || 0xE000 <= c <= 0x10FFFF
  }

  /** The table of section 3: the bits of the code point from high to low, six to a trail byte. */
  function Encode(c: int): (bytes: seq<Byte>)
    requires Scalar(c)
  {
    if c <= 0x7F then [c]
    else if c <= 0x7FF then [0xC0 + c / 64, 0x80 + c % 64]
    else if c <= 0xFFFF then [0xE0 + c / 4096, 0x80 + c / 64 % 64, 0x80 + c % 64]
    else [0xF0 + c / 262144, 0x80 + c / 4096 % 64, 0x80 + c / 64 % 64, 0x80 + c % 64]
  }

  predicate Scalars(cs: seq<int>) {
    forall c | c in cs :: Scalar(c)
  }

  function EncodeAll(cs: seq<int>): seq<Byte>
    requires Scalars(cs)
  {
    if cs == [] then [] else Encode(cs[0]) + EncodeAll(cs[1..])
  }

  // ---------------------------------------------------------------- the validator

  predicate IsUTF8TrailByte(t: Byte) {
    0x80 <= t <= 0xbf
  }

  /** The length of the character at the start, or 0 when there is none. */
  function Character(s: seq<Byte>): (length: nat)
    requires s != []
    ensures length <= |s|
  {
    if s[0] <= 0x7f then 1
    else if s[0] < 0xc2 then 0
    else if s[0] <= 0xdf && 2 <= |s| && IsUTF8TrailByte(s[1]) then 2
    else if 0xe0 <= s[0] <= 0xef && 3 <= |s| && IsUTF8TrailByte(s[1]) && IsUTF8TrailByte(s[2])
            && (s[0] != 0xe0 || s[1] >= 0xa0) && (s[0] != 0xed || s[1] < 0xa0) then 3
    else if 0xf0 <= s[0] <= 0xf4 && 4 <= |s| && IsUTF8TrailByte(s[1]) && IsUTF8TrailByte(s[2]) && IsUTF8TrailByte(s[3])
            && (s[0] != 0xf0 || s[1] >= 0x90) && (s[0] != 0xf4 || s[1] < 0x90) then 4
    else 0
  }

  predicate Valid(s: seq<Byte>) {
    s == [] || (0 < Character(s) && Valid(s[Character(s)..]))
  }

  /** Every index is proved to be below the length when it is used. */
  method IsValidUTF8(s: seq<Byte>) returns (valid: bool)
    ensures valid <==> Valid(s)
  {
    var length := |s|;
    var i := 0;
    while i < length
      invariant 0 <= i <= length
      invariant Valid(s[i..]) <==> Valid(s)
    {
      ghost var rest := s[i..];
      var lead := s[i];
      assert rest[0] == lead;
      i := i + 1;
      assert s[i..] == rest[1..];
      if lead <= 0x7f {
        continue;
      }
      if lead < 0xc2 {
        return false;
      } else if lead <= 0xdf && i + 1 <= length && IsUTF8TrailByte(s[i]) {
        i := i + 1;
        assert s[i..] == rest[2..];
      } else if 0xe0 <= lead <= 0xef && i + 2 <= length && IsUTF8TrailByte(s[i]) && IsUTF8TrailByte(s[i + 1])
                && (lead != 0xe0 || s[i] >= 0xa0) && (lead != 0xed || s[i] < 0xa0) {
        i := i + 2;
        assert s[i..] == rest[3..];
      } else if 0xf0 <= lead <= 0xf4 && i + 3 <= length && IsUTF8TrailByte(s[i]) && IsUTF8TrailByte(s[i + 1]) && IsUTF8TrailByte(s[i + 2])
                && (lead != 0xf0 || s[i] >= 0x90) && (lead != 0xf4 || s[i] < 0x90) {
        i := i + 3;
        assert s[i..] == rest[4..];
      } else {
        return false;
      }
    }
    return true;
  }

  // ---------------------------------------------------------------- what it accepts

  function Two(a: int, b: int): int {
    (a - 0xC0) * 64 + (b - 0x80)
  }

  function Three(a: int, b: int, c: int): int {
    (a - 0xE0) * 4096 + (b - 0x80) * 64 + (c - 0x80)
  }

  function Four(a: int, b: int, c: int, d: int): int {
    (a - 0xF0) * 262144 + (b - 0x80) * 4096 + (c - 0x80) * 64 + (d - 0x80)
  }

  function Decoded(s: seq<Byte>): int
    requires s != [] && 0 < Character(s)
  {
    match Character(s)
    case 1 => s[0]
    case 2 => Two(s[0], s[1])
    case 3 => Three(s[0], s[1], s[2])
    case _ => Four(s[0], s[1], s[2], s[3])
  }

  lemma TwoDigits(a: int, b: int)
    requires 0xC2 <= a <= 0xDF && 0x80 <= b <= 0xBF
    ensures var x := Two(a, b); 0x80 <= x <= 0x7FF && 0xC0 + x / 64 == a && 0x80 + x % 64 == b
  {
  }

  lemma ThreeDigits(a: int, b: int, c: int)
    requires 0xE0 <= a <= 0xEF && 0x80 <= b <= 0xBF && 0x80 <= c <= 0xBF
    ensures var x := Three(a, b, c); 0xE0 + x / 4096 == a && 0x80 + x / 64 % 64 == b && 0x80 + x % 64 == c && x <= 0xFFFF
  {
    var y := (a - 0xE0) * 64 + (b - 0x80);
    var x := y * 64 + (c - 0x80);
    assert x == Three(a, b, c);
    LastDigit(y, c);
    LastDigit(a - 0xE0, b);
    Shifts(x);
  }

  lemma ThreeRange(a: int, b: int, c: int)
    requires 0xE0 <= a <= 0xEF && 0x80 <= b <= 0xBF && 0x80 <= c <= 0xBF
    ensures a > 0xE0 || b >= 0xA0 <==> Three(a, b, c) >= 0x800
    ensures a != 0xED || b < 0xA0 <==> !(0xD800 <= Three(a, b, c) <= 0xDFFF)
  {
  }

  lemma LastDigit(y: int, d: int)
    requires 0 <= y && 0x80 <= d <= 0xBF
    ensures var x := y * 64 + (d - 0x80); x / 64 == y && 0x80 + x % 64 == d
  {
  }

  lemma Shifts(x: int)
    requires 0 <= x
    ensures x / 4096 == x / 64 / 64 && x / 262144 == x / 64 / 64 / 64
  {
  }

  lemma FourDigits(a: int, b: int, c: int, d: int)
    requires 0xF0 <= a <= 0xF4 && 0x80 <= b <= 0xBF && 0x80 <= c <= 0xBF && 0x80 <= d <= 0xBF
    ensures var x := Four(a, b, c, d);
            0xF0 + x / 262144 == a && 0x80 + x / 4096 % 64 == b && 0x80 + x / 64 % 64 == c && 0x80 + x % 64 == d
    ensures a > 0xF0 || b >= 0x90 <==> Four(a, b, c, d) >= 0x10000
    ensures a != 0xF4 || b < 0x90 <==> Four(a, b, c, d) <= 0x10FFFF
  {
    var z := (a - 0xF0) * 64 + (b - 0x80);
    var y := z * 64 + (c - 0x80);
    var x := y * 64 + (d - 0x80);
    assert x == Four(a, b, c, d);
    LastDigit(y, d);
    LastDigit(z, c);
    LastDigit(a - 0xF0, b);
    Shifts(x);
    Shifts(y);
  }

  /** What is accepted as a character is the encoding of a scalar value. */
  lemma CharacterEncodes(s: seq<Byte>)
    requires s != [] && 0 < Character(s)
    ensures Scalar(Decoded(s)) && Encode(Decoded(s)) == s[..Character(s)]
  {
    hide Two, Three, Four;
    match Character(s)
    case 1 => assert s[..1] == [s[0]];
    case 2 =>
      TwoDigits(s[0], s[1]);
      assert s[..2] == [s[0], s[1]];
    case 3 =>
      ThreeDigits(s[0], s[1], s[2]);
      ThreeRange(s[0], s[1], s[2]);
      assert s[..3] == [s[0], s[1], s[2]];
    case _ =>
      FourDigits(s[0], s[1], s[2], s[3]);
      assert s[..4] == [s[0], s[1], s[2], s[3]];
  }

  lemma Digits(c: int)
    requires Scalar(c)
    ensures c / 64 == c / 4096 * 64 + c / 64 % 64 && c / 4096 == c / 262144 * 64 + c / 4096 % 64
    ensures c == c / 64 * 64 + c % 64
  {
  }

  lemma LeadByte(c: int)
    requires Scalar(c) && c > 0x7F
    ensures c <= 0x7FF ==> 0xC2 <= Encode(c)[0] <= 0xDF && Two(Encode(c)[0], Encode(c)[1]) == c
    ensures 0x7FF < c <= 0xFFFF ==> 0xE0 <= Encode(c)[0] <= 0xEF && Three(Encode(c)[0], Encode(c)[1], Encode(c)[2]) == c
    ensures 0xFFFF < c ==> 0xF0 <= Encode(c)[0] <= 0xF4 && Four(Encode(c)[0], Encode(c)[1], Encode(c)[2], Encode(c)[3]) == c
  {
    Digits(c);
  }

  /** The encoding of a scalar value is accepted, whatever follows, and decodes to it. */
  lemma EncodedCharacter(c: int, rest: seq<Byte>)
    requires Scalar(c)
    ensures var s := Encode(c) + rest;
            s != [] && Character(s) == |Encode(c)| > 0 && Decoded(s) == c && s[|Encode(c)|..] == rest
  {
    var e := Encode(c);
    var s := e + rest;
    assert s[|e|..] == rest;
    assert forall i | 0 <= i < |e| :: s[i] == e[i];
    if c > 0x7F {
      LeadByte(c);
      if c <= 0x7FF {
      } else if c <= 0xFFFF {
        ThreeDigits(e[0], e[1], e[2]);
        ThreeRange(e[0], e[1], e[2]);
      } else {
        FourDigits(e[0], e[1], e[2], e[3]);
      }
    }
  }

  lemma {:induction false} ValidDecodes(s: seq<Byte>) returns (cs: seq<int>)
    requires Valid(s)
    ensures Scalars(cs) && EncodeAll(cs) == s
    decreases |s|
  {
    if s == [] {
      cs := [];
    } else {
      CharacterEncodes(s);
      var rest := ValidDecodes(s[Character(s)..]);
      cs := [Decoded(s)] + rest;
      assert cs[1..] == rest;
      assert s == s[..Character(s)] + s[Character(s)..];
    }
  }

  lemma {:induction false} EncodedIsValid(cs: seq<int>)
    requires Scalars(cs)
    ensures Valid(EncodeAll(cs))
    decreases |cs|
  {
    if cs == [] {
    } else {
      EncodedIsValid(cs[1..]);
      EncodedCharacter(cs[0], EncodeAll(cs[1..]));
    }
  }

  /** The validator accepts exactly the concatenations of encodings of scalar values. */
  lemma ValidMeans(s: seq<Byte>)
    ensures Valid(s) <==> exists cs :: Scalars(cs) && EncodeAll(cs) == s
  {
    if Valid(s) {
      var cs := ValidDecodes(s);
    }
    if cs :| Scalars(cs) && EncodeAll(cs) == s {
      EncodedIsValid(cs);
    }
  }

  /** A byte string decodes in one way at most. */
  lemma {:induction false} DecodingUnique(cs: seq<int>, ds: seq<int>)
    requires Scalars(cs) && Scalars(ds) && EncodeAll(cs) == EncodeAll(ds)
    ensures cs == ds
    decreases |cs|
  {
    if cs != [] {
      EncodedCharacter(cs[0], EncodeAll(cs[1..]));
    }
    if ds != [] {
      EncodedCharacter(ds[0], EncodeAll(ds[1..]));
    }
    if cs != [] && ds != [] {
      DecodingUnique(cs[1..], ds[1..]);
      assert cs == [cs[0]] + cs[1..] && ds == [ds[0]] + ds[1..];
    }
  }
}
