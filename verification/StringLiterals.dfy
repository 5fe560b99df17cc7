/** Strings as the vendored gtest prints them, and as a C++ compiler reads them ([lex.string] and
    [lex.ccon] of the C++ standard). */
module StringLiterals {
  import opened Common

  type Byte = x: int | 0 <= x < 256

  // ---------------------------------------------------------------- printing

  datatype CharFormat = AsIs | HexEscape | SpecialEscape

  predicate IsPrintableAscii(c: Byte) {
    0x20 <= c <= 0x7E
  }

  function HexDigit(d: int): char
    requires 0 <= d < 16
  {
    if d < 10 then '0' + d as char else 'A' + (d - 10) as char
  }

  /** `std::hex << std::uppercase`, without leading zeros. */
  function Hex(c: Byte): string {
    if c < 16 then [HexDigit(c)] else [HexDigit(c / 16), HexDigit(c % 16)]
  }

  /** The letter of a simple escape sequence, if there is one for the character. */
  function SimpleEscape(c: Byte): Option<char> {
    match c
    case 7 => Some('a')
    case 8 => Some('b')
    case 9 => Some('t')
    case 10 => Some('n')
    case 11 => Some('v')
    case 12 => Some('f')
    case 13 => Some('r')
    case 34 => Some('"')
    case 92 => Some('\\')
    case _ => None
  }

  function FormatOf(c: Byte): CharFormat {
    if c == 0 || SimpleEscape(c).Some? then SpecialEscape else if IsPrintableAscii(c) then AsIs else HexEscape
  }

  /** `PrintAsStringLiteralTo`. */
  function Literal(c: Byte): string {
    if c == 0 then "\\0"
    else if SimpleEscape(c).Some? then ['\\', SimpleEscape(c).value]
    else if IsPrintableAscii(c) then [c as char]
    else "\\x" + Hex(c)
  }

  predicate IsXDigit(c: Byte) {
    48 <= c <= 57 || 65 <= c <= 70 || 97 <= c <= 102
  }

  /** What is printed for the rest of the bytes, with the closing quote. */
  function Printed(bytes: seq<Byte>, isPreviousHex: bool): string {
    if bytes == [] then "\""
    else (if isPreviousHex && IsXDigit(bytes[0]) then "\" \"" else "")
         + (Literal(bytes[0]) + Printed(bytes[1..], FormatOf(bytes[0]).HexEscape?))
  }

  /** The bytes that have a simple escape sequence, NUL included. */
  const ESCAPED: set<int> := {0, 7, 8, 9, 10, 11, 12, 13, 34, 92}

  predicate IsUpperHex(ch: char) {
    ch in {'0', '1', '2', '3', '4', '5', '6', '7', '8', '9', 'A', 'B', 'C', 'D', 'E', 'F'}
  }

  /** How each byte is printed: as an escape sequence of two characters if there is one, as it is if
      it is between a space and a tilde, and otherwise by its upper-case hexadecimal number. */
  ghost predicate PrintedAs(c: Byte, text: string, format: CharFormat) {
    if c in ESCAPED then format == SpecialEscape && |text| == 2 && text[0] == '\\' && ' ' <= text[1] <= '~' && text[1] != 'x'
    else if ' ' as int <= c <= '~' as int then format == AsIs && text == [c as char]
    else
      && format == HexEscape && |text| == (if c < 16 then 3 else 4) && text[0] == '\\' && text[1] == 'x'
      && forall i | 2 <= i < |text| :: IsUpperHex(text[i])
  }

  lemma LiteralText(c: Byte)
    ensures PrintedAs(c, Literal(c), FormatOf(c))
  {
    if c !in ESCAPED && !(0x20 <= c <= 0x7E) {
      UpperHex(c);
      var h := Hex(c);
      assert Literal(c) == "\\x" + h;
      assert forall i | 2 <= i < 2 + |h| :: ("\\x" + h)[i] == h[i - 2];
    }
  }

  lemma UpperHexDigit(d: int)
    requires 0 <= d < 16
    ensures IsUpperHex(HexDigit(d))
  {
  }

  lemma UpperHex(c: Byte)
    ensures |Hex(c)| == (if c < 16 then 1 else 2) && forall i | 0 <= i < |Hex(c)| :: IsUpperHex(Hex(c)[i])
  {
    UpperHexDigit(if c < 16 then c else c / 16);
    UpperHexDigit(c % 16);
  }

  ghost predicate AllPrintable(s: string) {
    forall ch | ch in s :: ' ' <= ch <= '~'
  }

  lemma LiteralPrintable(c: Byte)
    ensures AllPrintable(Literal(c))
  {
    LiteralText(c);
    var text := Literal(c);
    forall ch | ch in text
      ensures ' ' <= ch <= '~'
    {
      var i :| 0 <= i < |text| && text[i] == ch;
    }
  }

  lemma {:induction false} PrintedPrintable(bytes: seq<Byte>, isPreviousHex: bool)
    ensures AllPrintable(Printed(bytes, isPreviousHex))
    decreases |bytes|
  {
    if bytes != [] {
      LiteralPrintable(bytes[0]);
      PrintedPrintable(bytes[1..], FormatOf(bytes[0]).HexEscape?);
      hide Literal, FormatOf;
    }
  }

  /** A byte that is printed as it is. */
  predicate IsPlain(c: Byte) {
    ' ' as int <= c <= '~' as int && c != '"' as int && c != '\\' as int
  }

  function Characters(bytes: seq<Byte>): string {
    seq(|bytes|, i requires 0 <= i < |bytes| => bytes[i] as char)
  }

  lemma {:induction false} PlainPrinted(bytes: seq<Byte>)
    requires forall c | c in bytes :: IsPlain(c)
    ensures Printed(bytes, false) == Characters(bytes) + "\""
    decreases |bytes|
  {
    if bytes == [] {
    } else {
      LiteralText(bytes[0]);
      assert IsPlain(bytes[0]);
      PlainPrinted(bytes[1..]);
      hide Literal, FormatOf;
      assert Characters(bytes) == [bytes[0] as char] + Characters(bytes[1..]);
    }
  }

  method PrintAsCharLiteralTo(c: Byte) returns (text: string, format: CharFormat)
    ensures c != 34 && c != 39 ==> PrintedAs(c, text, format)
    ensures c != 39 && c != 34 ==> text == Literal(c) && format == FormatOf(c)
    ensures c == 39 ==> text == "\\'" && format == SpecialEscape
    ensures c == 34 ==> text == "\"" && format == AsIs
  {
    LiteralText(c);
    match c {
      case 0 => return "\\0", SpecialEscape;
      case 39 => return "\\'", SpecialEscape;
      case 92 => return "\\\\", SpecialEscape;
      case 7 => return "\\a", SpecialEscape;
      case 8 => return "\\b", SpecialEscape;
      case 12 => return "\\f", SpecialEscape;
      case 10 => return "\\n", SpecialEscape;
      case 13 => return "\\r", SpecialEscape;
      case 9 => return "\\t", SpecialEscape;
      case 11 => return "\\v", SpecialEscape;
      case _ =>
        if IsPrintableAscii(c) {
          return [c as char], AsIs;
        } else {
          return "\\x" + Hex(c), HexEscape;
        }
    }
  }

  method PrintAsStringLiteralTo(c: Byte) returns (text: string, format: CharFormat)
    ensures PrintedAs(c, text, format)
    ensures text == Literal(c) && format == FormatOf(c)
  {
    LiteralText(c);
    match c {
      case 39 => return "'", AsIs;
      case 34 => return "\\\"", SpecialEscape;
      case _ => text, format := PrintAsCharLiteralTo(c);
    }
  }

  /** A text of plain bytes is printed as it is, in quotes. */
  ghost predicate PlainKept(bytes: seq<Byte>, os: string) {
    (forall c | c in bytes :: IsPlain(c)) ==> os == "\"" + Characters(bytes) + "\""
  }

  function Gap(c: Byte, isPreviousHex: bool): string {
    if isPreviousHex && IsXDigit(c) then "\" \"" else ""
  }

  lemma OneMorePrinted(bytes: seq<Byte>, index: nat, isPreviousHex: bool, os: string)
    requires index < |bytes|
    ensures os + Printed(bytes[index..], isPreviousHex) ==
            os + Gap(bytes[index], isPreviousHex) + Literal(bytes[index]) + Printed(bytes[index + 1..], FormatOf(bytes[index]).HexEscape?)
  {
    hide Literal, FormatOf;
    var rest := bytes[index..];
    assert rest[0] == bytes[index] && rest[1..] == bytes[index + 1..];
    var gap, text, more := Gap(bytes[index], isPreviousHex), Literal(bytes[index]), Printed(bytes[index + 1..], FormatOf(bytes[index]).HexEscape?);
    assert Printed(rest, isPreviousHex) == gap + (text + more);
    assert os + (gap + (text + more)) == os + gap + text + more;
  }

  lemma PrintedWhole(bytes: seq<Byte>)
    ensures var os := "\"" + Printed(bytes, false); AllPrintable(os) && PlainKept(bytes, os)
  {
    PrintedPrintable(bytes, false);
    if forall c | c in bytes :: IsPlain(c) {
      PlainPrinted(bytes);
      assert "\"" + (Characters(bytes) + "\"") == "\"" + Characters(bytes) + "\"";
    }
  }

  lemma NonePrinted(bytes: seq<Byte>, isPreviousHex: bool)
    requires bytes == []
    ensures Printed(bytes, isPreviousHex) == "\""
  {
  }

  method PrintCharsAsStringTo(bytes: seq<Byte>) returns (os: string, format: CharFormat)
    ensures os == "\"" + Printed(bytes, false)
    ensures AllPrintable(os) && PlainKept(bytes, os)
    ensures format == if exists i :: 0 <= i < |bytes| && FormatOf(bytes[i]).HexEscape? then HexEscape else AsIs
  {
    hide Literal, FormatOf, PrintedAs, AllPrintable, PlainKept, Printed;
    PrintedWhole(bytes);
    os := "\"";
    var isPreviousHex := false;
    format := AsIs;
    assert bytes[0..] == bytes;
    for index := 0 to |bytes|
      invariant os + Printed(bytes[index..], isPreviousHex) == "\"" + Printed(bytes, false)
      invariant format == if exists i :: 0 <= i < index && FormatOf(bytes[i]).HexEscape? then HexEscape else AsIs
    {
      var cur := bytes[index];
      OneMorePrinted(bytes, index, isPreviousHex, os);
      assert os + "" == os;
      if isPreviousHex && IsXDigit(cur) {
        os := os + "\" \"";
      }
      var text, how := PrintAsStringLiteralTo(cur);
      os := os + text;
      isPreviousHex := how == HexEscape;
      if isPreviousHex {
        format := HexEscape;
      }
    }
    assert Printed(bytes[|bytes|..], isPreviousHex) == "\"" by { NonePrinted(bytes[|bytes|..], isPreviousHex); }
    os := os + "\"";
  }

  // ---------------------------------------------------------------- reading

  function OctalValue(c: char): Option<int> {
    if '0' <= c <= '7' then Some(c as int - '0' as int) else None
  }

  function HexValue(c: char): Option<int> {
    if '0' <= c <= '9' then Some(c as int - '0' as int)
    else if 'A' <= c <= 'F' then Some(c as int - 'A' as int + 10)
    else if 'a' <= c <= 'f' then Some(c as int - 'a' as int + 10)
    else None
  }

  /** The number of digits that an octal escape sequence takes: at most three. */
  function OctalRun(s: string, most: nat): (n: nat)
    ensures n <= |s| && n <= most
  {
    if most == 0 || s == "" || OctalValue(s[0]).None? then 0 else 1 + OctalRun(s[1..], most - 1)
  }

  /** A hexadecimal escape sequence takes all the digits that follow. */
  function HexRun(s: string): (n: nat)
    ensures n <= |s|
  {
    if s == "" || HexValue(s[0]).None? then 0 else 1 + HexRun(s[1..])
  }

  function OctalNumber(s: string): int {
    if s == "" then 0 else 8 * OctalNumber(s[..|s| - 1]) + (if OctalValue(s[|s| - 1]).Some? then OctalValue(s[|s| - 1]).value else 0)
  }

  function HexNumber(s: string): int {
    if s == "" then 0 else 16 * HexNumber(s[..|s| - 1]) + (if HexValue(s[|s| - 1]).Some? then HexValue(s[|s| - 1]).value else 0)
  }

  function Simple(c: char): Option<Byte> {
    match c
    case 'a' => Some(7)
    case 'b' => Some(8)
    case 't' => Some(9)
    case 'n' => Some(10)
    case 'v' => Some(11)
    case 'f' => Some(12)
    case 'r' => Some(13)
    case '"' => Some(34)
    case '\'' => Some(39)
    case '?' => Some(63)
    case '\\' => Some(92)
    case _ => None
  }

  function Prepend(value: int, rest: Option<seq<Byte>>): Option<seq<Byte>> {
    if 0 <= value < 256 && rest.Some? then Some([value] + rest.value) else None
  }

  /** Reads from inside a literal; adjacent literals, with spaces between them, are one. */
  function ReadInside(s: string): Option<seq<Byte>>
    decreases |s|, 1
  {
    if s == "" || s[0] == '\n' then None
    else if s[0] == '"' then ReadOutside(s[1..])
    else if s[0] != '\\' then Prepend(s[0] as int, ReadInside(s[1..]))
    else if |s| < 2 then None
    else if s[1] == 'x' then
      var n := HexRun(s[2..]);
      if n == 0 then None else Prepend(HexNumber(s[2..2 + n]), ReadInside(s[2 + n..]))
    else if OctalValue(s[1]).Some? then
      var n := OctalRun(s[1..], 3);
      Prepend(OctalNumber(s[1..1 + n]), ReadInside(s[1 + n..]))
    else if Simple(s[1]).Some? then Prepend(Simple(s[1]).value, ReadInside(s[2..]))
    else None
  }

  /** Between literals. */
  function ReadOutside(s: string): Option<seq<Byte>>
    decreases |s|, 0
  {
    if s == "" then Some([])
    else if s[0] == ' ' then ReadOutside(s[1..])
    else if s[0] == '"' then ReadInside(s[1..])
    else None
  }

  /** The value of adjacent string literals; None when the text is not well-formed. */
  function Read(s: string): Option<seq<Byte>> {
    if s != "" && s[0] == '"' then ReadOutside(s) else None
  }

  // ---------------------------------------------------------------- what is read of what was printed

  predicate IsOctalByte(c: Byte) {
    48 <= c <= 55
  }

  /** A NUL is printed as an octal escape sequence, which takes up to two octal digits after it. */
  function Reading(bytes: seq<Byte>): seq<Byte> {
    if bytes == [] then []
    else if bytes[0] == 0 && |bytes| > 1 && IsOctalByte(bytes[1]) then
      if |bytes| > 2 && IsOctalByte(bytes[2]) then [8 * (bytes[1] - 48) + (bytes[2] - 48)] + Reading(bytes[3..])
      else [bytes[1] - 48] + Reading(bytes[2..])
    else [bytes[0]] + Reading(bytes[1..])
  }

  /** No NUL is directly followed by an octal digit. */
  ghost predicate Unambiguous(bytes: seq<Byte>) {
    forall i | 0 <= i && i + 1 < |bytes| && bytes[i] == 0 :: !IsOctalByte(bytes[i + 1])
  }

  lemma {:induction false} ReadingLength(bytes: seq<Byte>)
    ensures |Reading(bytes)| <= |bytes|
    ensures Unambiguous(bytes) ==> Reading(bytes) == bytes
    ensures !Unambiguous(bytes) ==> |Reading(bytes)| < |bytes|
    decreases |bytes|
  {
    if bytes != [] {
      if bytes[0] == 0 && |bytes| > 1 && IsOctalByte(bytes[1]) {
        if |bytes| > 2 && IsOctalByte(bytes[2]) {
          ReadingLength(bytes[3..]);
        } else {
          ReadingLength(bytes[2..]);
        }
      } else {
        ReadingLength(bytes[1..]);
        assert bytes == [bytes[0]] + bytes[1..];
        if Unambiguous(bytes[1..]) {
          forall i | 0 <= i && i + 1 < |bytes| && bytes[i] == 0
            ensures !IsOctalByte(bytes[i + 1])
          {
            if i > 0 {
              assert bytes[1..][i - 1] == 0 && bytes[1..][i - 1 + 1] == bytes[i + 1];
            }
          }
        } else {
          var i :| 0 <= i && i + 1 < |bytes[1..]| && bytes[1..][i] == 0 && IsOctalByte(bytes[1..][i + 1]);
          assert bytes[i + 1] == 0 && IsOctalByte(bytes[i + 1 + 1]);
        }
      }
    }
  }

  /** How the rest of the text begins. */
  lemma PrintedStart(bytes: seq<Byte>, isPreviousHex: bool)
    ensures var s := Printed(bytes, isPreviousHex);
            && s != ""
            && (isPreviousHex ==> HexValue(s[0]).None?)
            && (!isPreviousHex ==> (OctalValue(s[0]).Some? <==> bytes != [] && IsOctalByte(bytes[0])))
  {
    if bytes != [] {
      LiteralStart(bytes[0]);
    }
  }

  lemma LiteralStart(c: Byte)
    ensures Literal(c) != ""
    ensures HexValue(Literal(c)[0]).Some? <==> IsXDigit(c)
    ensures OctalValue(Literal(c)[0]).Some? <==> IsOctalByte(c)
  {
  }

  lemma HexDigitReads(d: int)
    requires 0 <= d < 16
    ensures HexValue(HexDigit(d)) == Some(d)
  {
  }

  lemma HexReads(c: Byte, tail: string)
    requires tail == "" || HexValue(tail[0]).None?
    ensures HexRun(Hex(c) + tail) == |Hex(c)| && HexNumber(Hex(c)) == c
  {
    var h := Hex(c);
    var s := h + tail;
    assert HexRun(tail) == 0 && HexNumber("") == 0;
    if c < 16 {
      HexDigitReads(c);
      assert s[1..] == tail && h[..0] == "";
      assert HexRun(s) == 1;
    } else {
      HexDigitReads(c / 16);
      HexDigitReads(c % 16);
      var last := [HexDigit(c % 16)] + tail;
      assert s[1..] == last && last[1..] == tail;
      assert HexRun(last) == 1 && HexRun(s) == 2;
      assert h[..1] == [HexDigit(c / 16)] && h[..1][..0] == "";
      assert HexNumber(h[..1]) == c / 16;
    }
  }

  lemma SimpleReads(c: Byte)
    requires SimpleEscape(c).Some?
    ensures var e := SimpleEscape(c).value; Simple(e) == Some(c) && e != 'x' && OctalValue(e).None?
  {
  }

  lemma SimpleLiteralReads(c: Byte, tail: string)
    requires c != 0 && SimpleEscape(c).Some?
    ensures ReadInside(Literal(c) + tail) == Prepend(c, ReadInside(tail))
  {
    SimpleReads(c);
    hide SimpleEscape, Simple;
    var s := Literal(c) + tail;
    assert s[2..] == tail;
  }

  lemma PlainLiteralReads(c: Byte, tail: string)
    requires SimpleEscape(c).None? && IsPrintableAscii(c)
    ensures ReadInside(Literal(c) + tail) == Prepend(c, ReadInside(tail))
  {
    assert c != 34 && c != 92;
    hide SimpleEscape, Simple, HexRun, OctalRun;
    var s := Literal(c) + tail;
    assert s[0] == c as char && s[1..] == tail;
  }

  lemma HexLiteralReads(c: Byte, tail: string)
    requires c != 0 && SimpleEscape(c).None? && !IsPrintableAscii(c) && (tail == "" || HexValue(tail[0]).None?)
    ensures ReadInside(Literal(c) + tail) == Prepend(c, ReadInside(tail))
  {
    HexReads(c, tail);
    hide SimpleEscape, Simple, HexRun, OctalRun, Hex, HexNumber;
    var s := Literal(c) + tail;
    assert s[2..] == Hex(c) + tail;
    assert s[2..2 + |Hex(c)|] == Hex(c) && s[2 + |Hex(c)|..] == tail;
  }

  /** A character that was not NUL reads back, whatever follows; a hexadecimal escape sequence
      must not be followed by a hexadecimal digit. */
  lemma LiteralReads(c: Byte, tail: string)
    requires c != 0 && (FormatOf(c).HexEscape? ==> tail == "" || HexValue(tail[0]).None?)
    ensures ReadInside(Literal(c) + tail) == Prepend(c, ReadInside(tail))
  {
    hide ReadInside, Literal, SimpleEscape;
    if SimpleEscape(c).Some? {
      SimpleLiteralReads(c, tail);
    } else if IsPrintableAscii(c) {
      PlainLiteralReads(c, tail);
    } else {
      HexLiteralReads(c, tail);
    }
  }

  lemma NulReads(tail: string)
    requires tail != "" && OctalValue(tail[0]).None?
    ensures ReadInside(Literal(0) + tail) == Prepend(0, ReadInside(tail))
  {
    var s := Literal(0) + tail;
    assert s[1..] == "0" + tail && s[1..][1..] == tail && s[2..] == tail;
    assert OctalRun(tail, 2) == 0;
    assert s[1..2] == "0" && "0"[..0] == "";
    assert OctalNumber("0") == 0;
  }

  lemma OctalEscapeReads(s: string)
    requires |s| >= 2 && s[0] == '\\' && OctalValue(s[1]).Some?
    ensures var n := OctalRun(s[1..], 3); ReadInside(s) == Prepend(OctalNumber(s[1..1 + n]), ReadInside(s[1 + n..]))
  {
    hide OctalNumber, OctalRun;
  }

  lemma NulTakesOne(d: char, tail: string)
    requires OctalValue(d).Some? && tail != "" && OctalValue(tail[0]).None?
    ensures ReadInside(Literal(0) + ([d] + tail)) == Prepend(OctalValue(d).value, ReadInside(tail))
  {
    hide ReadInside;
    var s := Literal(0) + ([d] + tail);
    OctalEscapeReads(s);
    assert s[1..] == ['0', d] + tail && s[1..][1..] == [d] + tail && s[1..][1..][1..] == tail;
    assert OctalRun(tail, 1) == 0 && OctalRun([d] + tail, 2) == 1;
    assert s[1..3] == ['0', d] && s[3..] == tail;
    assert ['0', d][..1] == "0" && "0"[..0] == "";
    assert OctalNumber("0") == 0;
  }

  lemma NulTakesTwo(d: char, e: char, tail: string)
    requires OctalValue(d).Some? && OctalValue(e).Some?
    ensures ReadInside(Literal(0) + ([d, e] + tail)) == Prepend(8 * OctalValue(d).value + OctalValue(e).value, ReadInside(tail))
  {
    hide ReadInside;
    var s := Literal(0) + ([d, e] + tail);
    OctalEscapeReads(s);
    assert s[1..] == ['0', d, e] + tail && s[1..][1..] == [d, e] + tail && ([d, e] + tail)[1..] == [e] + tail && ([e] + tail)[1..] == tail;
    assert OctalRun(tail, 0) == 0 && OctalRun([e] + tail, 1) == 1 && OctalRun([d, e] + tail, 2) == 2;
    assert s[1..4] == ['0', d, e] && s[4..] == tail;
    assert ['0', d, e][..2] == ['0', d] && ['0', d][..1] == "0" && "0"[..0] == "";
    assert OctalNumber("0") == 0 && OctalNumber(['0', d]) == OctalValue(d).value;
  }

  lemma OctalPrinted(bytes: seq<Byte>)
    requires bytes != [] && IsOctalByte(bytes[0])
    ensures Printed(bytes, false) == [bytes[0] as char] + Printed(bytes[1..], false)
    ensures OctalValue(bytes[0] as char) == Some(bytes[0] - 48)
  {
    assert "" + (Literal(bytes[0]) + Printed(bytes[1..], false)) == [bytes[0] as char] + Printed(bytes[1..], false);
  }

  /** The gap between two literals is not seen by the reader. */
  lemma GapReads(tail: string)
    ensures ReadInside("\" \"" + tail) == ReadInside(tail)
  {
    var s := "\" \"" + tail;
    assert s[1..] == " \"" + tail && s[1..][1..] == "\"" + tail && s[1..][1..][1..] == tail;
    assert ReadInside(s) == ReadOutside(s[1..]) == ReadOutside(s[1..][1..]) == ReadInside(s[1..][1..][1..]);
  }

  /** What the reader makes of the text, from any byte on: exactly `Reading`. */
  lemma {:induction false} PrintedReads(bytes: seq<Byte>, isPreviousHex: bool)
    ensures ReadInside(Printed(bytes, isPreviousHex)) == Some(Reading(bytes))
    decreases |bytes|
  {
    if bytes == [] {
      assert "\""[1..] == "";
    } else {
      var c, rest := bytes[0], bytes[1..];
      var tail := Printed(rest, FormatOf(c).HexEscape?);
      var text := Literal(c) + tail;
      GapReads(text);
      assert ReadInside(Printed(bytes, isPreviousHex)) == ReadInside(text) by {
        assert "" + text == text;
        hide ReadInside;
      }
      hide ReadInside, Literal, FormatOf, Simple;
      if c != 0 {
        PrintedStart(rest, FormatOf(c).HexEscape?);
        LiteralReads(c, tail);
        PrintedReads(rest, FormatOf(c).HexEscape?);
      } else {
        NulPrintedReads(bytes);
      }
    }
  }

  lemma {:induction false} NulPrintedReads(bytes: seq<Byte>)
    requires bytes != [] && bytes[0] == 0
    ensures !FormatOf(0).HexEscape? && ReadInside(Literal(0) + Printed(bytes[1..], false)) == Some(Reading(bytes))
    decreases |bytes|, 0
  {
    assert !FormatOf(0).HexEscape?;
    hide ReadInside, Literal, FormatOf, OctalValue;
    var rest := bytes[1..];
    PrintedStart(rest, false);
    if rest == [] || !IsOctalByte(rest[0]) {
      hide Printed;
      NulReads(Printed(rest, false));
      PrintedReads(rest, false);
    } else {
      OctalPrinted(rest);
      assert rest[1..] == bytes[2..];
      if |bytes| == 2 || !IsOctalByte(bytes[2]) {
        PrintedReads(bytes[2..], false);
        OneOctal(bytes);
      } else {
        PrintedReads(bytes[3..], false);
        TwoOctals(bytes);
      }
    }
  }

  lemma OneOctal(bytes: seq<Byte>)
    requires |bytes| >= 2 && IsOctalByte(bytes[1]) && (|bytes| == 2 || !IsOctalByte(bytes[2]))
    requires ReadInside(Printed(bytes[2..], false)).Some?
    ensures ReadInside(Literal(0) + Printed(bytes[1..], false)) == Some([bytes[1] - 48] + ReadInside(Printed(bytes[2..], false)).value)
  {
    hide ReadInside, Literal;
    assert bytes[1..][1..] == bytes[2..];
    OctalPrinted(bytes[1..]);
    PrintedStart(bytes[2..], false);
    hide Printed;
    NulTakesOne(bytes[1] as char, Printed(bytes[2..], false));
  }

  lemma TwoOctals(bytes: seq<Byte>)
    requires |bytes| >= 3 && IsOctalByte(bytes[1]) && IsOctalByte(bytes[2])
    requires ReadInside(Printed(bytes[3..], false)).Some?
    ensures ReadInside(Literal(0) + Printed(bytes[1..], false))
            == Some([8 * (bytes[1] - 48) + (bytes[2] - 48)] + ReadInside(Printed(bytes[3..], false)).value)
  {
    hide ReadInside, Literal;
    assert bytes[1..][1..] == bytes[2..] && bytes[2..][1..] == bytes[3..];
    OctalPrinted(bytes[1..]);
    OctalPrinted(bytes[2..]);
    hide Printed;
    var tail := Printed(bytes[3..], false);
    var d, e := bytes[1] as char, bytes[2] as char;
    assert [d] + ([e] + tail) == [d, e] + tail;
    NulTakesTwo(d, e, tail);
  }

  /** Reading what was printed gives the bytes back if and only if no NUL is directly followed by
      an octal digit; otherwise it gives fewer bytes. */
  lemma RoundTrip(bytes: seq<Byte>)
    ensures Read("\"" + Printed(bytes, false)) == Some(Reading(bytes))
    ensures Read("\"" + Printed(bytes, false)) == Some(bytes) <==> Unambiguous(bytes)
    ensures |Reading(bytes)| <= |bytes|
  {
    var s := "\"" + Printed(bytes, false);
    assert s[1..] == Printed(bytes, false);
    PrintedReads(bytes, false);
    ReadingLength(bytes);
    hide ReadInside, Printed, Reading, Unambiguous;
  }

  /** The shortest string that does not read back. */
  lemma NulThenDigit()
    ensures "\"" + Printed([0, 49], false) == "\"\\01\"" && Read("\"\\01\"") == Some([1])
  {
    var bytes: seq<Byte> := [0, 49];
    assert bytes[1..] == [49] && bytes[1..][1..] == [] && bytes[2..] == [];
    assert Printed([49], false) == "1\"";
    assert Literal(0) + Printed([49], false) == "\\01\"";
    RoundTrip(bytes);
    assert Reading(bytes) == [1];
  }
}
