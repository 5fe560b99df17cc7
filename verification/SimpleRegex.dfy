/** The simple regular expressions of the vendored gtest: what `ValidateRegex` accepts, and what
    `MatchRegexAnywhere` finds. */
module SimpleRegex {
  import opened Common

  // ---------------------------------------------------------------- characters

  predicate IsInSet(ch: char, s: string) {
    ch != '\0' && ch in s
  }

  predicate IsAsciiDigit(ch: char) {
    '0' <= ch <= '9'
  }

  predicate IsAsciiPunct(ch: char) {
    IsInSet(ch, "^-!\"#$%&'()*+,./:;<=>?@[\\]_`{|}~")
  }

  predicate IsRepeat(ch: char) {
    IsInSet(ch, "?*+")
  }

  predicate IsAsciiWhiteSpace(ch: char) {
    IsInSet(ch, " \U{000C}\n\r\t\U{000B}")
  }

  predicate IsAsciiWordChar(ch: char) {
    'a' <= ch <= 'z' || 'A' <= ch <= 'Z' || '0' <= ch <= '9' || ch == '_'
  }

  predicate IsValidEscape(ch: char) {
    IsAsciiPunct(ch) || IsInSet(ch, "dDfnrsStvwW")
  }

  predicate AtomMatchesChar(escaped: bool, patternChar: char, ch: char) {
    if escaped then
      match patternChar
      case 'd' => IsAsciiDigit(ch)
      case 'D' => !IsAsciiDigit(ch)
      case 'f' => ch == '\U{000C}'
      case 'n' => ch == '\n'
      case 'r' => ch == '\r'
      case 's' => IsAsciiWhiteSpace(ch)
      case 'S' => !IsAsciiWhiteSpace(ch)
      case 't' => ch == '\t'
      case 'v' => ch == '\U{000B}'
      case 'w' => IsAsciiWordChar(ch)
      case 'W' => !IsAsciiWordChar(ch)
      case _ => IsAsciiPunct(patternChar) && patternChar == ch
    else (patternChar == '.' && ch != '\n') || patternChar == ch
  }

  // ---------------------------------------------------------------- regular expressions and their meaning

  datatype Atom = Atom(escaped: bool, character: char)

  datatype Repeat = Once | Maybe | Star | Plus

  datatype Piece = Piece(atom: Atom, repeat: Repeat)

  datatype Regex = Regex(caret: bool, pieces: seq<Piece>, dollar: bool)

  const DIGITS: set<char> := {'0', '1', '2', '3', '4', '5', '6', '7', '8', '9'}
  const LOWER_CASE: set<char> := {'a', 'b', 'c', 'd', 'e', 'f', 'g', 'h', 'i', 'j', 'k', 'l', 'm',
                                  'n', 'o', 'p', 'q', 'r', 's', 't', 'u', 'v', 'w', 'x', 'y', 'z'}
  const UPPER_CASE: set<char> := {'A', 'B', 'C', 'D', 'E', 'F', 'G', 'H', 'I', 'J', 'K', 'L', 'M',
                                  'N', 'O', 'P', 'Q', 'R', 'S', 'T', 'U', 'V', 'W', 'X', 'Y', 'Z'}
  const SPACES: set<char> := {' ', '\t', '\n', '\r', '\U{000B}', '\U{000C}'}
  const PUNCTUATION: set<char> := {'!', '"', '#', '$', '%', '&', '\'', '(', ')', '*', '+', ',', '-', '.', '/', ':',
                                   ';', '<', '=', '>', '?', '@', '[', '\\', ']', '^', '_', '`', '{', '|', '}', '~'}
  const CLASSES: set<char> := {'d', 'D', 'w', 'W', 's', 'S', 'f', 'n', 'r', 't', 'v'}
  const WITH_ROLES: set<char> := {'^', '$', '?', '*', '+', '(', ')', '[', ']', '{', '}', '|', '\\'}

  /** The atoms of the language: an escaped class, an escaped punctuation character, or a plain
      character that has no other role. */
  predicate AtomOk(a: Atom) {
    if a.escaped then a.character in PUNCTUATION || a.character in CLASSES
    else a.character != '\0' && a.character !in WITH_ROLES
  }

  predicate IsWordCharacter(c: char) {
    c in DIGITS || c in LOWER_CASE || c in UPPER_CASE || c == '_'
  }

  /** The characters that an atom stands for. */
  ghost predicate Denotes(a: Atom, c: char) {
    if a.escaped then
      match a.character
      case 'd' => c in DIGITS
      case 'D' => c !in DIGITS
      case 'w' => IsWordCharacter(c)
      case 'W' => !IsWordCharacter(c)
      case 's' => c in SPACES
      case 'S' => c !in SPACES
      case 'f' => c == '\U{000C}'
      case 'n' => c == '\n'
      case 'r' => c == '\r'
      case 't' => c == '\t'
      case 'v' => c == '\U{000B}'
      case _ => c == a.character
    else if a.character == '.' then c != '\n'
    else c == a.character
  }

  lemma DigitsListed(c: char)
    ensures IsAsciiDigit(c) <==> c in DIGITS
  {
  }

  lemma LowerCaseListed(c: char)
    ensures 'a' <= c <= 'z' <==> c in LOWER_CASE
  {
  }

  lemma UpperCaseListed(c: char)
    ensures 'A' <= c <= 'Z' <==> c in UPPER_CASE
  {
  }

  lemma WordCharactersListed(c: char)
    ensures IsAsciiWordChar(c) <==> IsWordCharacter(c)
  {
    DigitsListed(c);
    LowerCaseListed(c);
    UpperCaseListed(c);
  }

  lemma PunctuationListed(c: char)
    ensures IsAsciiPunct(c) <==> c in PUNCTUATION
  {
  }

  lemma SpacesListed(c: char)
    ensures IsAsciiWhiteSpace(c) <==> c in SPACES
  {
  }

  lemma ClassesListed(c: char)
    ensures IsInSet(c, "dDfnrsStvwW") <==> c in CLASSES
    ensures c in CLASSES ==> c !in PUNCTUATION
  {
  }

  lemma EscapesListed(c: char)
    ensures IsValidEscape(c) <==> c in PUNCTUATION || c in CLASSES
  {
    hide IsInSet, IsAsciiPunct;
    PunctuationListed(c);
    ClassesListed(c);
  }

  lemma RolesListed(c: char)
    ensures IsInSet(c, "^$?*+()[]{}|\\") <==> c in WITH_ROLES
  {
  }

  /** The test of the matcher is membership in what the atom stands for. */
  lemma AtomMeans(a: Atom, c: char)
    requires AtomOk(a)
    ensures AtomMatchesChar(a.escaped, a.character, c) <==> Denotes(a, c)
  {
    DigitsListed(c);
    WordCharactersListed(c);
    SpacesListed(c);
    if a.escaped {
      ClassesListed(a.character);
      PunctuationListed(a.character);
    }
    hide IsInSet, IsAsciiDigit, IsAsciiWordChar, IsAsciiWhiteSpace, IsAsciiPunct, IsValidEscape, IsWordCharacter;
  }

  ghost predicate PiecesOk(pieces: seq<Piece>) {
    forall p | p in pieces :: AtomOk(p.atom)
  }

  /** `s` is a word of the piece: as many characters as the repetition allows, each of the atom. */
  ghost predicate PieceMatches(p: Piece, s: string) {
    && (p.repeat.Once? ==> |s| == 1)
    && (p.repeat.Maybe? ==> |s| <= 1)
    && (p.repeat.Plus? ==> |s| >= 1)
    && (forall c | c in s :: Denotes(p.atom, c))
  }

  /** `s` is a concatenation of words of the pieces. */
  ghost predicate Matches(pieces: seq<Piece>, s: string)
    decreases |pieces|
  {
    if pieces == [] then s == ""
    else exists k :: 0 <= k <= |s| && PieceMatches(pieces[0], s[..k]) && Matches(pieces[1..], s[k..])
  }

  /** A prefix of `s` is a word of the pieces, and it is all of `s` when there is a dollar. */
  ghost predicate MatchesHead(pieces: seq<Piece>, dollar: bool, s: string) {
    exists k :: 0 <= k <= |s| && Matches(pieces, s[..k]) && (dollar ==> k == |s|)
  }

  /** Some substring is a word of the pieces, at the start for a caret, at the end for a dollar. */
  ghost predicate MatchesAnywhere(r: Regex, s: string) {
    exists i, j :: 0 <= i <= j <= |s| && Matches(r.pieces, s[i..j]) && (r.caret ==> i == 0) && (r.dollar ==> j == |s|)
  }

  // ---------------------------------------------------------------- concrete syntax

  function RenderAtom(a: Atom): string {
    if a.escaped then ['\\', a.character] else [a.character]
  }

  function RenderRepeat(r: Repeat): string {
    match r
    case Once => ""
    case Maybe => "?"
    case Star => "*"
    case Plus => "+"
  }

  function RenderTail(pieces: seq<Piece>, dollar: bool): string
    decreases |pieces|
  {
    if pieces == [] then if dollar then "$" else ""
    else RenderAtom(pieces[0].atom) + RenderRepeat(pieces[0].repeat) + RenderTail(pieces[1..], dollar)
  }

  function Render(r: Regex): string {
    (if r.caret then "^" else "") + RenderTail(r.pieces, r.dollar)
  }

  /** The character at a position of a string that ends with a NUL. */
  function At(s: string, i: nat): char {
    if i < |s| then s[i] else '\0'
  }

  ghost predicate NoNul(s: string) {
    '\0' !in s
  }

  // ---------------------------------------------------------------- validation

  predicate Unsupported(ch: char, first: bool, last: bool, repeatable: bool) {
    (ch == '^' && !first) || (ch == '$' && !last) || IsInSet(ch, "()[]{}|") || (IsRepeat(ch) && !repeatable)
  }

  /** Nothing is wrong with the rest of a regular expression. */
  predicate Accepts(s: string, first: bool, repeatable: bool)
    decreases |s|
  {
    if s == "" then true
    else if s[0] == '\\' then |s| >= 2 && IsValidEscape(s[1]) && Accepts(s[2..], false, true)
    else !Unsupported(s[0], first, |s| == 1, repeatable) && Accepts(s[1..], false, !IsInSet(s[0], "^$?*+"))
  }

  method ValidateRegex(regex: Option<string>) returns (isValid: bool)
    requires regex.Some? ==> NoNul(regex.value)
    ensures isValid <==> regex.Some? && Accepts(regex.value, true, false)
  {
    if regex.None? {
      return false;
    }
    var s := regex.value;
    isValid := true;
    var prevRepeatable := false;
    var i := 0;
    while At(s, i) != '\0'
      invariant i <= |s|
      invariant isValid && Accepts(s[i..], i == 0, prevRepeatable) <==> Accepts(s, true, false)
      decreases |s| - i
    {
      ghost var rest := s[i..];
      assert rest[0] == s[i] && rest[1..] == s[i + 1..];
      if s[i] == '\\' {
        i := i + 1;
        if At(s, i) == '\0' {
          return false;
        }
        assert rest[1] == s[i] && rest[2..] == s[i + 1..];
        if !IsValidEscape(s[i]) {
          isValid := false;
        }
        prevRepeatable := true;
      } else {
        var ch := s[i];
        if ch == '^' && i > 0 {
          isValid := false;
        } else if ch == '$' && At(s, i + 1) != '\0' {
          isValid := false;
        } else if IsInSet(ch, "()[]{}|") {
          isValid := false;
        } else if IsRepeat(ch) && !prevRepeatable {
          isValid := false;
        }
        prevRepeatable := !IsInSet(ch, "^$?*+");
      }
      i := i + 1;
    }
  }

  /** Whether the previous atom can be repeated matters to a repetition only. */
  lemma RepeatableOnlyForRepeat(s: string, repeatable: bool)
    requires s == "" || !IsRepeat(s[0])
    ensures Accepts(s, false, repeatable) == Accepts(s, false, false)
  {
  }

  /** An expression as it was read: the pieces and whether a dollar ends them. */
  datatype Parsed = Parsed(pieces: seq<Piece>, dollar: bool)

  function RepeatOf(ch: char): Repeat {
    if ch == '?' then Maybe else if ch == '*' then Star else Plus
  }

  function ParseRest(atom: Atom, rest: string): (p: Parsed)
    requires AtomOk(atom) && NoNul(rest) && Accepts(rest, false, true)
    ensures PiecesOk(p.pieces) && RenderAtom(atom) + rest == RenderTail(p.pieces, p.dollar)
    decreases |rest|, 1
  {
    hide AtomOk, IsInSet, IsRepeat, RepeatOf, RenderAtom, RenderRepeat, RenderTail, Accepts, PiecesOk;
    if rest != "" && IsRepeat(rest[0]) then
      RepeatAccepted(rest);
      var p := Parse(rest[1..]);
      var r := RepeatOf(rest[0]);
      RepeatRendered(rest);
      PieceRendered(atom, r, p, rest[1..]);
      assert RenderAtom(atom) + rest == RenderAtom(atom) + RenderRepeat(r) + rest[1..];
      Parsed([Piece(atom, r)] + p.pieces, p.dollar)
    else
      RepeatableOnlyForRepeat(rest, true);
      var p := Parse(rest);
      PieceRendered(atom, Once, p, rest);
      OnceRendered(atom, rest);
      Parsed([Piece(atom, Once)] + p.pieces, p.dollar)
  }

  lemma RepeatAccepted(s: string)
    requires s != "" && IsRepeat(s[0]) && Accepts(s, false, true)
    ensures Accepts(s[1..], false, false)
  {
  }

  lemma RepeatRendered(s: string)
    requires s != "" && IsRepeat(s[0])
    ensures s == RenderRepeat(RepeatOf(s[0])) + s[1..]
  {
    assert RenderRepeat(RepeatOf(s[0])) == [s[0]];
  }

  lemma OnceRendered(atom: Atom, rest: string)
    ensures RenderAtom(atom) + RenderRepeat(Once) + rest == RenderAtom(atom) + rest
  {
    assert RenderAtom(atom) + "" == RenderAtom(atom);
  }

  lemma PieceRendered(atom: Atom, r: Repeat, p: Parsed, rest: string)
    requires AtomOk(atom) && PiecesOk(p.pieces) && rest == RenderTail(p.pieces, p.dollar)
    ensures PiecesOk([Piece(atom, r)] + p.pieces)
    ensures RenderAtom(atom) + RenderRepeat(r) + rest == RenderTail([Piece(atom, r)] + p.pieces, p.dollar)
  {
    hide AtomOk;
    assert ([Piece(atom, r)] + p.pieces)[1..] == p.pieces;
  }

  /** The pieces of an accepted string, after an optional caret. */
  function Parse(s: string): (p: Parsed)
    requires NoNul(s) && Accepts(s, false, false)
    ensures PiecesOk(p.pieces) && s == RenderTail(p.pieces, p.dollar)
    decreases |s|, 0
  {
    if s == "" then Parsed([], false)
    else if s[0] == '$' then assert s == "$"; Parsed([], true)
    else if s[0] == '\\' then
      EscapesListed(s[1]);
      assert s == RenderAtom(Atom(true, s[1])) + s[2..];
      ParseRest(Atom(true, s[1]), s[2..])
    else
      RolesListed(s[0]);
      assert s == RenderAtom(Atom(false, s[0])) + s[1..];
      ParseRest(Atom(false, s[0]), s[1..])
  }

  /** The text of the first piece from its character on. */
  ghost predicate StartsWith(t: string, p: Piece, rest: string) {
    && t != "" && t[0] == p.atom.character
    && (p.repeat.Once? ==> t[1..] == rest)
    && (!p.repeat.Once? ==> |t| >= 2 && [t[1]] == RenderRepeat(p.repeat) && t[2..] == rest)
  }

  lemma Starts(p: Piece, rest: string)
    ensures StartsWith([p.atom.character] + RenderRepeat(p.repeat) + rest, p, rest)
  {
    var t := [p.atom.character] + RenderRepeat(p.repeat) + rest;
    if p.repeat.Once? {
      assert t[1..] == rest;
    } else {
      assert t[2..] == rest;
    }
  }

  /** How the text of the pieces begins. */
  lemma TailShape(pieces: seq<Piece>, dollar: bool)
    requires PiecesOk(pieces)
    ensures var tail := RenderTail(pieces, dollar);
            && (pieces == [] ==> tail == if dollar then "$" else "")
            && (pieces != [] ==> tail != "" && tail[0] != '$' && tail[0] != '\0')
            && (tail != "" ==> tail[0] != '^' && !IsRepeat(tail[0]))
    ensures pieces != [] ==>
              var p := pieces[0]; var tail := RenderTail(pieces, dollar);
              && (p.atom.escaped <==> tail[0] == '\\')
              && StartsWith(if p.atom.escaped then tail[1..] else tail, p, RenderTail(pieces[1..], dollar))
  {
    if pieces == [] {
      DollarCharacter();
    } else {
      var p := pieces[0];
      assert p in pieces && AtomOk(p.atom);
      if !p.atom.escaped {
        PlainCharacter(p.atom.character);
      }
      EscapeSign();
      var rest := RenderTail(pieces[1..], dollar);
      Starts(p, rest);
      hide IsInSet, IsRepeat, IsValidEscape, StartsWith, PiecesOk, RenderRepeat;
      var tail := RenderTail(pieces, dollar);
      var t := [p.atom.character] + RenderRepeat(p.repeat) + rest;
      if p.atom.escaped {
        assert tail == ['\\'] + t && tail[1..] == t;
      } else {
        assert tail == t;
      }
    }
  }

  lemma EscapeSign()
    ensures !IsRepeat('\\')
  {
  }

  lemma PlainCharacter(c: char)
    requires AtomOk(Atom(false, c))
    ensures c != '^' && c != '$' && c != '\\' && c != '\0'
    ensures !IsRepeat(c) && !IsInSet(c, "()[]{}|") && !IsInSet(c, "^$?*+")
  {
  }

  lemma RepeatCharacter(r: Repeat)
    requires !r.Once?
    ensures var c := RenderRepeat(r)[0];
            && RenderRepeat(r) == [c] && c != '^' && c != '$' && c != '\\' && c != '\0'
            && IsRepeat(c) && !IsInSet(c, "()[]{}|") && IsInSet(c, "^$?*+")
  {
  }

  lemma DollarCharacter()
    ensures !IsRepeat('$') && !IsInSet('$', "()[]{}|") && !IsRepeat('^') && !IsInSet('^', "()[]{}|") && IsInSet('^', "^$?*+")
  {
  }

  /** One atom with its repetition, in front of a tail that is accepted. */
  lemma PieceAccepted(p: Piece, rest: string)
    requires AtomOk(p.atom) && Accepts(rest, false, false) && Accepts(rest, false, true)
    ensures var s := RenderAtom(p.atom) + RenderRepeat(p.repeat) + rest; Accepts(s, false, false) && Accepts(s, false, true)
  {
    var c := p.atom.character;
    if !p.atom.escaped {
      PlainCharacter(c);
    }
    if !p.repeat.Once? {
      RepeatCharacter(p.repeat);
    }
    hide IsInSet, IsRepeat, IsAsciiPunct;
    var t := RenderRepeat(p.repeat) + rest;
    if p.repeat.Once? {
      assert t == rest;
    } else {
      assert t[1..] == rest;
    }
    assert Accepts(t, false, true);
    var s := RenderAtom(p.atom) + RenderRepeat(p.repeat) + rest;
    if p.atom.escaped {
      assert s[2..] == t;
    } else {
      assert s[1..] == t;
    }
  }

  lemma {:induction false} TailAccepted(pieces: seq<Piece>, dollar: bool)
    requires PiecesOk(pieces)
    ensures Accepts(RenderTail(pieces, dollar), false, false) && Accepts(RenderTail(pieces, dollar), false, true)
    decreases |pieces|
  {
    DollarCharacter();
    hide IsInSet, IsRepeat, AtomOk;
    if pieces == [] {
      assert dollar ==> "$"[1..] == "";
    } else {
      assert pieces[0] in pieces;
      TailAccepted(pieces[1..], dollar);
      PieceAccepted(pieces[0], RenderTail(pieces[1..], dollar));
    }
  }

  ghost predicate RegexOk(r: Regex) {
    PiecesOk(r.pieces)
  }

  /** A string that is accepted comes from the grammar ... */
  lemma AcceptedIsRendered(s: string) returns (r: Regex)
    requires NoNul(s) && Accepts(s, true, false)
    ensures RegexOk(r) && Render(r) == s
  {
    DollarCharacter();
    hide IsInSet, IsRepeat, IsValidEscape, AtomOk;
    if s != "" && s[0] == '^' {
      var p := Parse(s[1..]);
      assert s == "^" + s[1..];
      r := Regex(true, p.pieces, p.dollar);
    } else {
      var p := Parse(s);
      assert "" + s == s;
      r := Regex(false, p.pieces, p.dollar);
    }
  }

  /** ... and a string of the grammar is accepted. */
  lemma RenderedIsAccepted(r: Regex)
    requires RegexOk(r)
    ensures Accepts(Render(r), true, false)
  {
    var s, tail := Render(r), RenderTail(r.pieces, r.dollar);
    DollarCharacter();
    TailShape(r.pieces, r.dollar);
    TailAccepted(r.pieces, r.dollar);
    hide IsInSet, IsRepeat, IsValidEscape, AtomOk, RenderTail;
    if r.caret {
      assert s == "^" + tail && s[1..] == tail;
    } else {
      assert s == tail;
    }
  }

  /** `ValidateRegex` accepts the strings of the grammar and no others: an optional caret, then
      atoms with or without a repetition, then an optional dollar. */
  lemma ValidMeans(s: string)
    requires NoNul(s)
    ensures Accepts(s, true, false) <==> exists r :: RegexOk(r) && Render(r) == s
  {
    hide Accepts, RegexOk, Render;
    if Accepts(s, true, false) {
      var r := AcceptedIsRendered(s);
    }
    if r :| RegexOk(r) && Render(r) == s {
      RenderedIsAccepted(r);
    }
  }

  lemma {:induction false} TailUnique(p: seq<Piece>, q: seq<Piece>, d: bool, e: bool)
    requires PiecesOk(p) && PiecesOk(q) && RenderTail(p, d) == RenderTail(q, e)
    ensures p == q && d == e
    decreases |p|
  {
    TailShape(p, d);
    TailShape(q, e);
    hide IsInSet, AtomOk, RenderTail;
    if p != [] && q != [] {
      TailShape(p[1..], d);
      TailShape(q[1..], e);
      var tail := RenderTail(p, d);
      SameStart(if p[0].atom.escaped then tail[1..] else tail, p[0], q[0], RenderTail(p[1..], d), RenderTail(q[1..], e));
      hide IsRepeat, StartsWith;
      TailUnique(p[1..], q[1..], d, e);
      assert p == [p[0]] + p[1..] && q == [q[0]] + q[1..];
    }
  }

  lemma SameStart(t: string, p: Piece, q: Piece, rest: string, other: string)
    requires StartsWith(t, p, rest) && StartsWith(t, q, other) && p.atom.escaped == q.atom.escaped
    requires (rest != "" ==> !IsRepeat(rest[0])) && (other != "" ==> !IsRepeat(other[0]))
    ensures p == q && rest == other
  {
    SameRepeat(p.repeat, q.repeat);
    hide IsRepeat;
  }

  lemma SameRepeat(a: Repeat, b: Repeat)
    ensures RenderRepeat(a) == RenderRepeat(b) ==> a == b
    ensures !a.Once? ==> IsRepeat(RenderRepeat(a)[0])
    ensures !b.Once? ==> IsRepeat(RenderRepeat(b)[0])
  {
    if !a.Once? {
      RepeatCharacter(a);
    }
    if !b.Once? {
      RepeatCharacter(b);
    }
    assert RenderRepeat(a)[..] == RenderRepeat(a) && RenderRepeat(b)[..] == RenderRepeat(b);
  }

  /** A valid string says in one way only what it means. */
  lemma RenderUnique(r: Regex, q: Regex)
    requires RegexOk(r) && RegexOk(q) && Render(r) == Render(q)
    ensures r == q
  {
    TailShape(r.pieces, r.dollar);
    TailShape(q.pieces, q.dollar);
    var a, b := RenderTail(r.pieces, r.dollar), RenderTail(q.pieces, q.dollar);
    assert ("^" + a)[1..] == a && ("^" + b)[1..] == b && "" + a == a && "" + b == b;
    TailUnique(r.pieces, q.pieces, r.dollar, q.dollar);
  }

  // ---------------------------------------------------------------- matching

  /** `static_cast<size_t>(-1) - 1`. */
  const MAX_COUNT := 0xFFFF_FFFF_FFFF_FFFE

  /** The first piece takes the first `i` characters. */
  ghost predicate Takes(pieces: seq<Piece>, dollar: bool, s: string, i: int)
    requires pieces != []
  {
    0 <= i <= |s| && PieceMatches(pieces[0], s[..i]) && MatchesHead(pieces[1..], dollar, s[i..])
  }

  lemma HeadUnfolds(pieces: seq<Piece>, dollar: bool, s: string)
    requires pieces != []
    ensures MatchesHead(pieces, dollar, s) <==> exists i :: Takes(pieces, dollar, s, i)
  {
    if MatchesHead(pieces, dollar, s) {
      var k :| 0 <= k <= |s| && Matches(pieces, s[..k]) && (dollar ==> k == |s|);
      var i :| 0 <= i <= k && PieceMatches(pieces[0], s[..k][..i]) && Matches(pieces[1..], s[..k][i..]);
      assert s[..k][..i] == s[..i] && s[..k][i..] == s[i..][..k - i];
      assert Takes(pieces, dollar, s, i);
    }
    if i :| Takes(pieces, dollar, s, i) {
      var k :| 0 <= k <= |s[i..]| && Matches(pieces[1..], s[i..][..k]) && (dollar ==> k == |s[i..]|);
      var w := s[..i + k];
      assert w[..i] == s[..i] && w[i..] == s[i..][..k];
      assert Matches(pieces, w);
    }
  }

  lemma EmptyHead(dollar: bool, s: string)
    ensures MatchesHead([], dollar, s) <==> (dollar ==> s == "")
  {
    if dollar ==> s == "" {
      assert Matches([], s[..0]);
    }
  }

  /** A piece without repetition takes exactly one character. */
  lemma OnceTakes(pieces: seq<Piece>, dollar: bool, s: string)
    requires pieces != [] && pieces[0].repeat.Once?
    ensures MatchesHead(pieces, dollar, s) <==>
            s != "" && Denotes(pieces[0].atom, s[0]) && MatchesHead(pieces[1..], dollar, s[1..])
  {
    HeadUnfolds(pieces, dollar, s);
    if s != "" {
      assert s[..1] == [s[0]];
      assert PieceMatches(pieces[0], s[..1]) <==> Denotes(pieces[0].atom, s[0]);
      if Denotes(pieces[0].atom, s[0]) && MatchesHead(pieces[1..], dollar, s[1..]) {
        assert Takes(pieces, dollar, s, 1);
      }
    }
  }

  lemma Stuck(p: Piece, s: string, i: nat, j: nat)
    requires i < |s| && !Denotes(p.atom, s[i]) && i < j <= |s|
    ensures !PieceMatches(p, s[..j])
  {
    assert s[..j][i] == s[i];
  }

  method MatchRepetitionAndRegexAtHead(escaped: bool, c: char, repeat: char, regex: string, str: string,
                                       ghost pieces: seq<Piece>, ghost dollar: bool) returns (found: bool)
    requires NoNul(str) && |str| < 0xFFFF_FFFF_FFFF_FFFF && PiecesOk(pieces) && pieces != [] && !pieces[0].repeat.Once?
    requires pieces[0].atom == Atom(escaped, c) && RenderRepeat(pieces[0].repeat) == [repeat]
    requires regex == RenderTail(pieces[1..], dollar)
    ensures found <==> MatchesHead(pieces, dollar, str)
    decreases |regex|, 1
  {
    hide Denotes, AtomMatchesChar, AtomOk;
    HeadUnfolds(pieces, dollar, str);
    var minCount := if repeat == '+' then 1 else 0;
    var maxCount := if repeat == '?' then 1 else MAX_COUNT;
    var i := 0;
    while i <= maxCount
      invariant 0 <= i <= |str|
      invariant forall k | 0 <= k < i :: Denotes(pieces[0].atom, str[k])
      invariant forall j | 0 <= j < i :: !Takes(pieces, dollar, str, j)
      decreases |str| - i
    {
      if i >= minCount {
        var tail := MatchRegexAtHead(regex, str[i..], pieces[1..], dollar);
        if tail {
          assert PieceMatches(pieces[0], str[..i]);
          assert Takes(pieces, dollar, str, i);
          return true;
        }
      }
      assert !Takes(pieces, dollar, str, i);
      assert pieces[0] in pieces;
      if i < |str| {
        AtomMeans(pieces[0].atom, str[i]);
      }
      if At(str, i) == '\0' || !AtomMatchesChar(escaped, c, str[i]) {
        forall j | i < j <= |str|
          ensures !Takes(pieces, dollar, str, j)
        {
          Stuck(pieces[0], str, i, j);
        }
        return false;
      }
      i := i + 1;
    }
    return false;
  }

  method MatchRegexAtHead(regex: string, str: string, ghost pieces: seq<Piece>, ghost dollar: bool) returns (found: bool)
    requires NoNul(str) && |str| < 0xFFFF_FFFF_FFFF_FFFF && PiecesOk(pieces) && regex == RenderTail(pieces, dollar)
    ensures found <==> MatchesHead(pieces, dollar, str)
    decreases |regex|, 0
  {
    hide Denotes, AtomMatchesChar, AtomOk;
    TailShape(pieces, dollar);
    EmptyHead(dollar, str);
    if At(regex, 0) == '\0' {
      return true;
    }
    if regex[0] == '$' {
      return At(str, 0) == '\0';
    }
    var escaped := regex[0] == '\\';
    var rest := if escaped then regex[1..] else regex;
    TailShape(pieces[1..], dollar);
    if IsRepeat(At(rest, 1)) {
      found := MatchRepetitionAndRegexAtHead(escaped, rest[0], rest[1], rest[2..], str, pieces, dollar);
    } else {
      OnceTakes(pieces, dollar, str);
      assert pieces[0] in pieces;
      if str != "" {
        AtomMeans(pieces[0].atom, str[0]);
      }
      if At(str, 0) == '\0' || !AtomMatchesChar(escaped, rest[0], str[0]) {
        return false;
      }
      found := MatchRegexAtHead(rest[1..], str[1..], pieces[1..], dollar);
    }
  }

  /** The match that starts at `i`. */
  lemma AnywhereUnfolds(r: Regex, s: string)
    ensures MatchesAnywhere(r, s) <==> exists i :: 0 <= i <= |s| && MatchesHead(r.pieces, r.dollar, s[i..]) && (r.caret ==> i == 0)
  {
    if MatchesAnywhere(r, s) {
      var i, j :| 0 <= i <= j <= |s| && Matches(r.pieces, s[i..j]) && (r.caret ==> i == 0) && (r.dollar ==> j == |s|);
      assert s[i..][..j - i] == s[i..j];
      assert MatchesHead(r.pieces, r.dollar, s[i..]);
    }
    if i :| 0 <= i <= |s| && MatchesHead(r.pieces, r.dollar, s[i..]) && (r.caret ==> i == 0) {
      var k :| 0 <= k <= |s[i..]| && Matches(r.pieces, s[i..][..k]) && (r.dollar ==> k == |s[i..]|);
      assert s[i..][..k] == s[i..i + k];
    }
  }

  /** For every valid expression the matcher answers whether some substring is in its language. */
  method MatchRegexAnywhere(regex: Option<string>, str: Option<string>, ghost r: Regex) returns (found: bool)
    requires regex.Some? ==> RegexOk(r) && regex.value == Render(r)
    requires str.Some? ==> NoNul(str.value) && |str.value| < 0xFFFF_FFFF_FFFF_FFFF
    ensures found <==> regex.Some? && str.Some? && MatchesAnywhere(r, str.value)
  {
    if regex.None? || str.None? {
      return false;
    }
    TailShape(r.pieces, r.dollar);
    AnywhereUnfolds(r, str.value);
    if At(regex.value, 0) == '^' {
      assert regex.value[1..] == RenderTail(r.pieces, r.dollar) && str.value[0..] == str.value;
      found := MatchRegexAtHead(regex.value[1..], str.value, r.pieces, r.dollar);
      return;
    }
    assert regex.value == RenderTail(r.pieces, r.dollar);
    var i := 0;
    while true
      invariant 0 <= i <= |str.value|
      invariant forall k | 0 <= k < i :: !MatchesHead(r.pieces, r.dollar, str.value[k..])
      decreases |str.value| - i
    {
      var here := MatchRegexAtHead(regex.value, str.value[i..], r.pieces, r.dollar);
      if here {
        return true;
      }
      if At(str.value, i) == '\0' {
        return false;
      }
      i := i + 1;
    }
  }
}
