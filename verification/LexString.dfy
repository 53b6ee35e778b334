/** String literals: how the lexer reads them, and how the string library quotes a string so that it can be read. */
module LexString {
  import opened Bytes

  const MAX_INT: nat := 0x7fff_ffff
  const QUOTE: byte := '"' as int
  const BACKSLASH: byte := '\\' as int
  const NL: byte := '\n' as int
  const CR: byte := '\r' as int

  datatype LexError = UnfinishedString | InvalidEscape | DecimalTooLarge | HexExpected | MissingOpenBrace
    | MissingCloseBrace
                    | Utf8TooLarge | TooManyLines

  predicate IsNewline(c: byte) { c == NL || c == CR }

  function HexValue(c: byte): nat
    requires IsXDigit(c)
  {
    if IsDigit(c) then c - '0' as int else ToLower(c) - 'a' as int + 10
  }

  // ----- what a literal means -----

  /** What an escape sequence stands for, what follows it, and how many lines it passes. */
  datatype Piece = Piece(bytes: seq<byte>, rest: seq<byte>, lines: nat) | Bad(error: LexError)

  /** Removes one line end, which may be of two characters. */
  function SkipNewline(t: seq<byte>): (t': seq<byte>)
    requires t != [] && IsNewline(t[0])
    ensures |t'| < |t|
  {
    if |t| > 1 && IsNewline(t[1]) && t[1] != t[0] then t[2..] else t[1..]
  }

  /** Removes white space, and counts its line ends. */
  function SkipSpaces(t: seq<byte>): (r: (seq<byte>, nat))
    ensures |r.0| <= |t|
    decreases |t|
  {
    if t == [] || !IsSpace(t[0]) then (t, 0)
    else if IsNewline(t[0]) then var r := SkipSpaces(SkipNewline(t)); (r.0, r.1 + 1)
    else SkipSpaces(t[1..])
  }

  /** A number of at most `n` decimal digits, after the number `v`. */
  function Decimal(t: seq<byte>, n: nat, v: nat): (r: (nat, seq<byte>))
    ensures |r.1| <= |t|
    decreases n
  {
    if n == 0 || t == [] || !IsDigit(t[0]) then (v, t) else Decimal(t[1..], n - 1, 10 * v + (t[0] - '0' as int))
  }

  /** Hexadecimal digits after the number `v`, up to a closing brace. */
  function HexDigits(t: seq<byte>, v: nat): (p: Piece)
    ensures p.Piece? ==> |p.rest| < |t|
    decreases |t|
  {
    if t != [] && IsXDigit(t[0]) then
      var v' := 16 * v + HexValue(t[0]);
      if v' > 0x10FFFF then Bad(Utf8TooLarge) else HexDigits(t[1..], v')
    else if t != [] && t[0] == '}' as int then Piece(Utf8(v), t[1..], 0)
    else Bad(MissingCloseBrace)
  }

  /** The UTF-8 encoding of a code point. */
  function Utf8(x: nat): seq<byte>
  {
    if x < 0x80 then [x]
    else if x < 0x800 then [0xC0 + x / 0x40, 0x80 + x % 0x40]
    else if x < 0x1_0000 then [0xE0 + x / 0x1000, 0x80 + x / 0x40 % 0x40, 0x80 + x % 0x40]
    else [(0xF0 + x / 0x4_0000) % 256, 0x80 + x / 0x1000 % 0x40, 0x80 + x / 0x40 % 0x40, 0x80 + x % 0x40]
  }

  /** Encodes a code point from its end, with one bit less for the first byte after each byte. */
  method Utf8Encode(x0: nat) returns (b: seq<byte>)
    requires x0 <= 0x10FFFF
    ensures b == Utf8(x0)
  {
    if x0 < 0x80 {
      return [x0];
    }
    var x, mfb := x0 / 0x40, 0x1f;
    b := [0x80 + x0 % 0x40];
    while x > mfb
      invariant || (mfb == 0x1f && x == x0 / 0x40 && b == [0x80 + x0 % 0x40])
                || (mfb == 0x0f && x0 >= 0x800 && x == x0 / 0x1000 && b == [0x80 + x0 / 0x40 % 0x40, 0x80 + x0 % 0x40])
                || (mfb == 0x07 && x0 >= 0x1_0000 && x == x0 / 0x4_0000 &&
                   b == [0x80 + x0 / 0x1000 % 0x40, 0x80 + x0 / 0x40 % 0x40, 0x80 + x0 % 0x40])
      decreases x
    {
      b := [0x80 + x % 0x40] + b;
      x := x / 0x40;
      mfb := mfb / 2;
    }
    b := [(256 - 2 * (mfb + 1)) + x] + b;
  }

  function Simple(c: byte): (r: int)
    ensures -1 <= r < 256
  {
    if c == 'a' as int then 7 else if c == 'b' as int then 8 else if c == 'f' as int then 12 else if c == 'n' as int
      then 10
    else if c == 'r' as int then 13 else if c == 't' as int then 9 else if c == 'v' as int then 11
    else if c == BACKSLASH || c == QUOTE || c == '\'' as int then c else -1
  }

  /** The escape sequence that goes on with `t` after its backslash. */
  function Escape(t: seq<byte>): (p: Piece)
    ensures p.Piece? ==> |p.rest| <= |t|
  {
    if t == [] then Piece([], t, 0)
    else if Simple(t[0]) >= 0 then Piece([Simple(t[0])], t[1..], 0)
    else if t[0] == 'x' as int then
      if |t| < 3 || !IsXDigit(t[1]) || !IsXDigit(t[2]) then Bad(HexExpected)
      else Piece([16 * HexValue(t[1]) + HexValue(t[2])], t[3..], 0)
    else if t[0] == 'u' as int then
      if |t| < 2 || t[1] != '{' as int then Bad(MissingOpenBrace)
      else if |t| < 3 || !IsXDigit(t[2]) then Bad(HexExpected)
      else HexDigits(t[3..], HexValue(t[2]))
    else if IsNewline(t[0]) then Piece([NL], SkipNewline(t), 1)
    else if t[0] == 'z' as int then var r := SkipSpaces(t[1..]); Piece([], r.0, r.1)
    else if !IsDigit(t[0]) then Bad(InvalidEscape)
    else
      var r := Decimal(t, 3, 0);
      if r.0 > 255 then Bad(DecimalTooLarge) else Piece([r.0], r.1, 0)
  }

  datatype Literal = Literal(content: seq<byte>, rest: seq<byte>, lines: nat) | Wrong(error: LexError)

  /** The string that goes on with `t` up to the delimiter. */
  function Body(t: seq<byte>, del: byte): Literal
    decreases |t|
  {
    if t == [] then Wrong(UnfinishedString)
    else if t[0] == del then Literal([], t[1..], 0)
    else if IsNewline(t[0]) then Wrong(UnfinishedString)
    else if t[0] == BACKSLASH then
      var p := Escape(t[1..]);
      if p.Bad? then Wrong(p.error) else After(p.bytes, p.lines, Body(p.rest, del))
    else After([t[0]], 0, Body(t[1..], del))
  }

  function After(bytes: seq<byte>, lines: nat, l: Literal): Literal
  {
    if l.Wrong? then l else Literal(bytes + l.content, l.rest, lines + l.lines)
  }

  // ----- quoting -----

  function Digit(n: nat): byte
    requires n < 10
  {
    '0' as int + n
  }

  /** A byte in decimal with as many digits as it needs. */
  function Dec(c: byte): seq<byte>
  {
    if c < 10 then [Digit(c)] else if c < 100 then [Digit(c / 10), Digit(c % 10)] else Dec3(c)
  }

  function Dec3(c: byte): seq<byte> { [Digit(c / 100), Digit(c / 10 % 10), Digit(c % 10)] }

  /** How the first character of `s` is written. */
  function QuotedChar(s: seq<byte>): seq<byte>
    requires s != []
  {
    if s[0] == QUOTE || s[0] == BACKSLASH || s[0] == NL then [BACKSLASH, s[0]]
    else if IsCntrl(s[0]) then [BACKSLASH] + if |s| > 1 && IsDigit(s[1]) then Dec3(s[0]) else Dec(s[0])
    else [s[0]]
  }

  function Quoted(s: seq<byte>): seq<byte> { if s == [] then [] else QuotedChar(s) + Quoted(s[1..]) }

  function Newlines(s: seq<byte>): nat { if s == [] then 0 else (if s[0] == NL then 1 else 0) + Newlines(s[1..]) }

  lemma QuotedStep(s: seq<byte>, i: nat)
    requires i < |s|
    ensures s[i..] != [] && s[i..][0] == s[i] && Quoted(s[i..]) == QuotedChar(s[i..]) + Quoted(s[i + 1..])
  {
    hide QuotedChar;
    assert s[i..][1..] == s[i + 1..];
  }

  method AddQuoted(s: seq<byte>) returns (b: seq<byte>)
    ensures b == [QUOTE] + Quoted(s) + [QUOTE]
  {
    hide Quoted, Dec, Dec3, IsCntrl;
    b := [QUOTE];
    var i := 0;
    assert s[0..] == s;
    while i < |s|
      invariant i <= |s| && b + Quoted(s[i..]) == [QUOTE] + Quoted(s)
    {
      QuotedStep(s, i);
      ghost var before, c := b, QuotedChar(s[i..]);
      assert (before + c) + Quoted(s[i + 1..]) == before + (c + Quoted(s[i + 1..]));
      if s[i] == QUOTE || s[i] == BACKSLASH || s[i] == NL {
        b := b + [BACKSLASH];
        b := b + [s[i]];
      } else if IsCntrl(s[i]) {
        var next := if i + 1 < |s| then s[i + 1] else 0;
        if !IsDigit(next) {
          b := b + ([BACKSLASH] + Dec(s[i]));
        } else {
          b := b + ([BACKSLASH] + Dec3(s[i]));
        }
      } else {
        b := b + [s[i]];
      }
      assert b == before + c;
      i := i + 1;
    }
    QuotedNone(s[|s|..]);
    b := b + [QUOTE];
  }

  lemma QuotedNone(s: seq<byte>)
    requires s == []
    ensures Quoted(s) == []
  {}

  // ----- reading back what was quoted -----

  lemma DecimalDec3(c: byte, t: seq<byte>)
    ensures Decimal(Dec3(c) + t, 3, 0) == (c, t)
  {
    var all := Dec3(c) + t;
    assert all[1..] == Dec3(c)[1..] + t && all[2..] == Dec3(c)[2..] + t && all[3..] == t;
    assert all[1..][1..] == all[2..] && all[2..][1..] == all[3..];
    assert Decimal(all[3..], 0, c) == (c, t);
    assert Decimal(all[2..], 1, c / 100 * 10 + c / 10 % 10) == (c, t);
    assert Decimal(all[1..], 2, c / 100) == (c, t);
  }

  lemma DecimalDec(c: byte, t: seq<byte>)
    requires t != [] && !IsDigit(t[0])
    ensures Decimal(Dec(c) + t, 3, 0) == (c, t)
  {
    var all := Dec(c) + t;
    if c < 10 {
      assert all[1..] == t;
      assert Decimal(all[1..], 2, c) == (c, t);
    } else if c < 100 {
      assert all[1..] == Dec(c)[1..] + t && all[1..][1..] == t;
      assert Decimal(all[1..][1..], 1, c) == (c, t);
      assert Decimal(all[1..], 2, c / 10) == (c, t);
    } else {
      DecimalDec3(c, t);
    }
  }

  /** What is written for a string starts neither with a digit, unless the string does, nor with a raw line end. */
  lemma QuotedFirst(s: seq<byte>, t: seq<byte>)
    requires t != [] && t[0] == QUOTE
    ensures Quoted(s) + t != [] && !IsNewline((Quoted(s) + t)[0])
    ensures IsDigit((Quoted(s) + t)[0]) <==> s != [] && IsDigit(s[0])
  {}

  /** The escape written for a character is read as that character. */
  lemma EscapeQuoted(s: seq<byte>, t: seq<byte>)
    requires s != [] && t != [] && t[0] == QUOTE && QuotedChar(s)[0] == BACKSLASH
    ensures var u := Quoted(s[1..]) + t;
            Escape(QuotedChar(s)[1..] + u) == Piece([s[0]], u, if s[0] == NL then 1 else 0)
  {
    var u := Quoted(s[1..]) + t;
    QuotedFirst(s[1..], t);
    var all := QuotedChar(s)[1..] + u;
    if s[0] == QUOTE || s[0] == BACKSLASH || s[0] == NL {
      assert all == [s[0]] + u && all[1..] == u;
    } else if |s| > 1 && IsDigit(s[1]) {
      assert all == Dec3(s[0]) + u;
      DecimalDec3(s[0], u);
    } else {
      assert all == Dec(s[0]) + u;
      DecimalDec(s[0], u);
    }
  }

  lemma BodyQuoted(s: seq<byte>, t: seq<byte>)
    requires s != [] && t != [] && t[0] == QUOTE
    ensures var u := Quoted(s[1..]) + t;
            Body(QuotedChar(s) + u, QUOTE) == After([s[0]], if s[0] == NL then 1 else 0, Body(u, QUOTE))
  {
    hide Quoted, Escape, Dec, Dec3, After;
    var u := Quoted(s[1..]) + t;
    var all := QuotedChar(s) + u;
    if QuotedChar(s)[0] == BACKSLASH {
      assert all[1..] == QuotedChar(s)[1..] + u;
      EscapeQuoted(s, t);
    } else {
      assert all[1..] == u;
    }
  }

  /** Reading a quoted string gives the string back, and reads no further than its closing quote. */
  lemma {:induction false} ReadQuoted(s: seq<byte>, rest: seq<byte>)
    ensures Body(Quoted(s) + [QUOTE] + rest, QUOTE) == Literal(s, rest, Newlines(s))
    decreases |s|
  {
    hide QuotedChar, Escape;
    var t := [QUOTE] + rest;
    assert Quoted(s) + [QUOTE] + rest == Quoted(s) + t;
    if s == [] {
      assert Quoted(s) + t == t && t[1..] == rest;
    } else {
      var u := Quoted(s[1..]) + t;
      assert u == Quoted(s[1..]) + [QUOTE] + rest;
      ReadQuoted(s[1..], rest);
      BodyQuoted(s, t);
      assert Quoted(s) + t == QuotedChar(s) + u;
      assert s == [s[0]] + s[1..];
    }
  }

  // ----- the lexer -----

  const EOZ: int := -1

  /** The part of the lexer that reads strings: the characters to come, the text of the token so far, and the line. */
  class LexState {
    var input: seq<byte>
    var buff: seq<byte>
    var linenumber: nat

    constructor (input: seq<byte>, linenumber: nat)
      ensures this.input == input && this.linenumber == linenumber && buff == []
    {
      this.input, this.linenumber, buff := input, linenumber, [];
    }

    function Current(): (c: int)
      reads this`input
      ensures -1 <= c < 256
    {
      if input == [] then EOZ else input[0]
    }

    method Next()
      modifies this`input
      ensures input == if old(input) == [] then [] else old(input)[1..]
    {
      if input != [] {
        input := input[1..];
      }
    }

    method SaveAndNext()
      requires input != []
      modifies this`input, this`buff
      ensures buff == old(buff) + [old(input)[0]] && input == old(input)[1..]
    {
      buff := buff + [input[0]];
      Next();
    }

    /** Removes the last characters of the token. */
    method BuffRemove(n: nat)
      requires n <= |buff|
      modifies this`buff
      ensures buff == old(buff)[..|old(buff)| - n]
    {
      buff := buff[..|buff| - n];
    }

    method IncLineNumber() returns (ok: bool)
      requires input != [] && IsNewline(input[0])
      modifies this`input, this`linenumber
      ensures input == SkipNewline(old(input)) && linenumber == old(linenumber) + 1 && ok == (linenumber < MAX_INT)
    {
      var previous := Current();
      Next();
      if input != [] && IsNewline(input[0]) && Current() != previous {
        Next();
      }
      linenumber := linenumber + 1;
      return linenumber < MAX_INT;
    }

    /** Reads up to three decimal digits. */
    method ReadDecEsc() returns (r: nat)
      modifies this`input, this`buff
      ensures (r, input) == Decimal(old(input), 3, 0) && (r <= 255 ==> buff == old(buff))
    {
      var i := 0;
      r := 0;
      while i < 3 && input != [] && IsDigit(input[0])
        invariant i <= 3 && Decimal(input, 3 - i, r) == Decimal(old(input), 3, 0)
        invariant |buff| == |old(buff)| + i && buff[..|old(buff)|] == old(buff)
      {
        r := 10 * r + (input[0] - '0' as int);
        SaveAndNext();
        i := i + 1;
      }
      if r <= 255 {
        BuffRemove(i);
      }
    }

    /** Saves the character before a hexadecimal digit and tells the digit, or -1. */
    method GetHexa() returns (d: int)
      requires input != []
      modifies this`input, this`buff
      ensures buff == old(buff) + [old(input)[0]] && input == old(input)[1..]
      ensures d == if input != [] && IsXDigit(input[0]) then HexValue(input[0]) else -1
    {
      SaveAndNext();
      return if input != [] && IsXDigit(input[0]) then HexValue(input[0]) else -1;
    }

    method ReadHexaEsc() returns (r: int)
      requires input != []
      modifies this`input, this`buff
      ensures var t := old(input);
              if |t| < 3 || !IsXDigit(t[1]) || !IsXDigit(t[2]) then r == -1
              else r == 16 * HexValue(t[1]) + HexValue(t[2]) && input == t[2..] && buff == old(buff)
    {
      var a := GetHexa();
      if a < 0 { return -1; }
      var b := GetHexa();
      if b < 0 { return -1; }
      BuffRemove(2);
      return a * 16 + b;
    }

    /** Reads the code point of a `u` escape, and saves its encoding instead. */
    method Utf8Esc() returns (error: Option)
      requires input != [] && input[0] == 'u' as int && buff != []
      modifies this`input, this`buff
      ensures error != Some(TooManyLines)
      ensures match Escape(old(input))
              case Bad(e) => error == Some(e)
              case Piece(bytes, rest, lines) =>
                error == None && input == rest && lines == 0 && buff == old(buff)[..|old(buff)| - 1] + bytes
    {
      ghost var t, b0 := input, buff;
      SaveAndNext();
      if Current() != '{' as int {
        return Some(MissingOpenBrace);
      }
      var i := 4;
      var r := GetHexa();
      if r < 0 {
        return Some(HexExpected);
      }
      ghost var first := r;
      SaveAndNext();
      while input != [] && IsXDigit(input[0])
        invariant i >= 4 && 0 <= r <= 0x10FFFF && HexDigits(input, r) == HexDigits(t[3..], first)
        invariant |buff| == |b0| + i - 1 && buff[..|b0|] == b0
        decreases |input|
      {
        i := i + 1;
        r := r * 16 + HexValue(input[0]);
        if r > 0x10FFFF {
          return Some(Utf8TooLarge);
        }
        SaveAndNext();
      }
      if Current() != '}' as int {
        return Some(MissingCloseBrace);
      }
      Next();
      BuffRemove(i);
      assert buff == b0[..|b0| - 1];
      var encoded := Utf8Encode(r);
      buff := buff + encoded;
      return None;
    }

    /** Skips white space after a `z` escape. */
    method SkipWhite() returns (ok: bool)
      modifies this`input, this`linenumber
      ensures linenumber >= old(linenumber)
      ensures ok ==> input == SkipSpaces(old(input)).0 && linenumber == old(linenumber) + SkipSpaces(old(input)).1
      ensures !ok ==> MAX_INT <= linenumber <= old(linenumber) + SkipSpaces(old(input)).1
    {
      while input != [] && IsSpace(input[0])
        invariant linenumber >= old(linenumber) && SkipSpaces(input).0 == SkipSpaces(old(input)).0
        invariant linenumber + SkipSpaces(input).1 == old(linenumber) + SkipSpaces(old(input)).1
        decreases |input|
      {
        if IsNewline(input[0]) {
          ok := IncLineNumber();
          if !ok {
            return false;
          }
        } else {
          Next();
        }
      }
      return true;
    }

    /** Reads an escape sequence, and saves what it stands for. */
    method ReadEscape() returns (error: Option)
      requires input != [] && input[0] == BACKSLASH
      modifies this`input, this`buff, this`linenumber
      ensures match error
              case None =>
                && linenumber >= old(linenumber) && old(buff) <= buff
                && if |old(input)| == 1 then input == [] && linenumber == old(linenumber)
                   else Escape(old(input)[1..]) == Piece(buff[|old(buff)|..], input, linenumber - old(linenumber))
              case Some(TooManyLines) =>
                Escape(old(input)[1..]).Piece? && MAX_INT <= linenumber <= old(linenumber) +
                  Escape(old(input)[1..]).lines
              case Some(e) => Escape(old(input)[1..]) == Bad(e)
    {
      hide HexDigits, Decimal, SkipSpaces, Utf8;
      ghost var b0, t := buff, input[1..];
      SaveAndNext();
      if input == [] {
        return None;
      }
      var c := input[0];
      if Simple(c) >= 0 {
        Next();
        BuffRemove(1);
        buff := buff + [Simple(c)];
      } else if c == 'x' as int {
        var r := ReadHexaEsc();
        if r < 0 {
          return Some(HexExpected);
        }
        Next();
        BuffRemove(1);
        buff := buff + [r];
      } else if c == 'u' as int {
        error := Utf8Esc();
        assert b0 == (b0 + [BACKSLASH])[..|b0|];
        return;
      } else if IsNewline(c) {
        var ok := IncLineNumber();
        if !ok {
          return Some(TooManyLines);
        }
        BuffRemove(1);
        buff := buff + [NL];
      } else if c == 'z' as int {
        BuffRemove(1);
        Next();
        var ok := SkipWhite();
        if !ok {
          return Some(TooManyLines);
        }
      } else {
        if !IsDigit(c) {
          return Some(InvalidEscape);
        }
        var r := ReadDecEsc();
        if r > 255 {
          return Some(DecimalTooLarge);
        }
        BuffRemove(1);
        buff := buff + [r];
      }
      return None;
    }

    /** Reads a string up to its delimiter. */
    method ReadString(del: byte) returns (r: Read)
      requires input != [] && input[0] == del && buff == []
      modifies this`input, this`buff, this`linenumber
      ensures match r
              case Text(content) =>
                linenumber >= old(linenumber) &&
                  Body(old(input)[1..], del) == Literal(content, input, linenumber - old(linenumber))
              case LexFails(TooManyLines) =>
                var body := Body(old(input)[1..], del);
                linenumber >= MAX_INT &&
                  (body.Literal? ==> old(linenumber) + body.lines >= MAX_INT)
              case LexFails(e) => Body(old(input)[1..], del) == Wrong(e)
    {
      hide Escape, Body, After;
      ghost var t0, n0 := input[1..], linenumber;
      SaveAndNext();
      BodyStart(t0, del);
      assert buff[1..] == [];
      while Current() != del as int
        invariant linenumber >= n0 && buff != []
        invariant Body(t0, del) == After(buff[1..], linenumber - n0, Body(input, del))
        decreases |input|
      {
        BodyStep(input, del, buff[1..], linenumber - n0);
        if Current() == EOZ || IsNewline(input[0]) {
          return LexFails(UnfinishedString);
        } else if input[0] == BACKSLASH {
          ghost var b0, i0 := buff, input;
          var error := ReadEscape();
          if error.Some? {
            return LexFails(error.error);
          }
          if |i0| == 1 {
            BodyStep(input, del, buff[1..], linenumber - n0);
          }
          assert buff[1..] == b0[1..] + buff[|b0|..];
        } else {
          ghost var b0 := buff;
          SaveAndNext();
          assert buff[1..] == b0[1..] + [buff[|b0|]];
        }
      }
      BodyStep(input, del, buff[1..], linenumber - n0);
      SaveAndNext();
      return Text(buff[1..|buff| - 1]);
    }

    /** Reads the code of a string that was quoted: the string comes back, and what followed it is still to be read. */
    method ReadBack(s: seq<byte>, rest: seq<byte>) returns (r: seq<byte>)
      requires linenumber + Newlines(s) < MAX_INT
      modifies this
      ensures r == s && input == rest && linenumber == old(linenumber) + Newlines(s)
    {
      var q := AddQuoted(s);
      input, buff := q + rest, [];
      assert input[1..] == Quoted(s) + [QUOTE] + rest;
      ReadQuoted(s, rest);
      var t := ReadString(QUOTE);
      r := t.content;
    }
  }

  datatype Read = Text(content: seq<byte>) | LexFails(error: LexError)

  lemma BodyStart(t: seq<byte>, del: byte)
    ensures Body(t, del) == After([], 0, Body(t, del))
  {}

  /** One step of reading a string, after some of it was read. */
  lemma BodyStep(t: seq<byte>, del: byte, acc: seq<byte>, lines: nat)
    ensures t == [] || (t[0] != del && IsNewline(t[0])) ==> After(acc, lines, Body(t, del)) == Wrong(UnfinishedString)
    ensures |t| == 1 && t[0] != del && t[0] == BACKSLASH ==> After(acc, lines, Body(t, del)) == Wrong(UnfinishedString)
    ensures t != [] && t[0] == del ==> After(acc, lines, Body(t, del)) == Literal(acc, t[1..], lines)
    ensures t != [] && t[0] != del && !IsNewline(t[0]) && t[0] != BACKSLASH ==>
              After(acc, lines, Body(t, del)) == After(acc + [t[0]], lines, Body(t[1..], del))
    ensures t != [] && t[0] != del && t[0] == BACKSLASH ==>
              var p := Escape(t[1..]);
              if p.Bad? then After(acc, lines, Body(t, del)) == Wrong(p.error)
              else After(acc, lines, Body(t, del)) == After(acc + p.bytes, lines + p.lines, Body(p.rest, del)) &&
                   (After(acc, lines, Body(t, del)).Literal? ==>
                     After(acc, lines, Body(t, del)).lines >= lines + p.lines)
  {
    if t != [] && t[0] != del && !IsNewline(t[0]) && t[0] != BACKSLASH {
      AfterAfter(acc, lines, [t[0]], 0, Body(t[1..], del));
    } else if t != [] && t[0] != del && t[0] == BACKSLASH && Escape(t[1..]).Piece? {
      var p := Escape(t[1..]);
      AfterAfter(acc, lines, p.bytes, p.lines, Body(p.rest, del));
      assert |t| == 1 ==> p == Piece([], [], 0) && Body(p.rest, del) == Wrong(UnfinishedString);
    } else if t != [] && t[0] == del {
      assert acc + [] == acc;
    }
  }

  lemma AfterAfter(a: seq<byte>, la: nat, b: seq<byte>, lb: nat, l: Literal)
    ensures After(a, la, After(b, lb, l)) == After(a + b, la + lb, l)
  {
    if l.Literal? { assert a + (b + l.content) == (a + b) + l.content; }
  }

  datatype Option = None | Some(error: LexError)
}
