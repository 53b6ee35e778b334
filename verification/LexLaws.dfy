/** What the escape sequences of string literals stand for: section 3.1 of the Lua 5.3 manual. */
module LexLaws {
  import opened Bytes
  import opened LexString

  /** Three decimal digits are the byte of that value, if there is one. */
  lemma DecimalLaw(a: nat, b: nat, c: nat, t: seq<byte>)
    requires a < 10 && b < 10 && c < 10
    ensures var v := 100 * a + 10 * b + c;
            Escape([48 + a, 48 + b, 48 + c] + t) == if v < 256 then Piece([v], t, 0) else Bad(DecimalTooLarge)
  {
    var all: seq<byte> := [48 + a, 48 + b, 48 + c] + t;
    assert all[1..][1..][1..] == t;
    assert Decimal(all[1..][1..][1..], 0, 100 * a + 10 * b + c) == (100 * a + 10 * b + c, t);
    assert Decimal(all[1..][1..], 1, 10 * a + b) == (100 * a + 10 * b + c, t);
    assert Decimal(all[1..], 2, a) == (100 * a + 10 * b + c, t);
  }

  /** The three digits of a byte. */
  function Digits(v: byte): seq<byte> { [48 + v / 100, 48 + v / 10 % 10, 48 + v % 10] }

  lemma DigitsLaw(v: byte, t: seq<byte>)
    ensures Escape(Digits(v) + t) == Piece([v], t, 0)
  {
    DecimalLaw(v / 100, v / 10 % 10, v % 10, t);
  }

  /** A letter behind the backslash stands for the same byte as three digits. */
  lemma SimpleEscapes(t: seq<byte>)
    ensures Escape(['a' as int] + t) == Escape(Digits(7) + t)
    ensures Escape(['b' as int] + t) == Escape(Digits(8) + t)
    ensures Escape(['t' as int] + t) == Escape(Digits(9) + t)
    ensures Escape(['n' as int] + t) == Escape(Digits(10) + t)
    ensures Escape(['v' as int] + t) == Escape(Digits(11) + t)
    ensures Escape(['f' as int] + t) == Escape(Digits(12) + t)
    ensures Escape(['r' as int] + t) == Escape(Digits(13) + t)
  {
    DigitsLaw(7, t);
    DigitsLaw(8, t);
    DigitsLaw(9, t);
    DigitsLaw(10, t);
    DigitsLaw(11, t);
    DigitsLaw(12, t);
    DigitsLaw(13, t);
    hide Escape, Digits;
    OneLetter('a' as int, t);
    OneLetter('b' as int, t);
    OneLetter('t' as int, t);
    OneLetter('n' as int, t);
    OneLetter('v' as int, t);
    OneLetter('f' as int, t);
    OneLetter('r' as int, t);
  }

  lemma OneLetter(c: byte, t: seq<byte>)
    requires Simple(c) >= 0
    ensures Escape([c] + t) == Piece([Simple(c)], t, 0)
  {
    assert ([c] + t)[1..] == t;
  }

  /** The backslash and the two quotes give themselves. */
  lemma QuoteEscapes(t: seq<byte>)
    ensures Escape(['\\' as int] + t) == Piece([92], t, 0)
    ensures Escape(['"' as int] + t) == Piece([34], t, 0)
    ensures Escape(['\'' as int] + t) == Piece([39], t, 0)
  {}

  /** A letter of `abfnrtuvxz`, a digit, a quote, a backslash or a line end. */
  predicate BeginsEscape(c: byte)
  {
    || c == 97 || c == 98 || c == 102 || c == 110 || c == 114 || c == 116 || c == 117 || c == 118 || c == 120 ||
       c == 122
    || 48 <= c <= 57 || c == 34 || c == 39 || c == 92 || c == 10 || c == 13
  }

  /** Whatever begins no escape sequence is refused. */
  lemma OtherEscapes(c: byte, t: seq<byte>)
    requires !BeginsEscape(c)
    ensures Escape([c] + t) == Bad(InvalidEscape)
  {}

  /** A hexadecimal digit, in either case, and its value. */
  predicate HexDigit(h: byte, v: nat) { v < 16 && if v < 10 then h == 48 + v else h == 87 + v || h == 55 + v }

  /** Two hexadecimal digits are the byte of their value. */
  lemma HexLaw(h: byte, v: nat, h': byte, v': nat, t: seq<byte>)
    requires HexDigit(h, v) && HexDigit(h', v')
    ensures Escape(['x' as int, h, h'] + t) == Escape(Digits(16 * v + v') + t)
  {
    hide Digits, Decimal, SkipSpaces, SkipNewline, HexDigits, Simple;
    DigitsLaw(16 * v + v', t);
    HexValues(h, v);
    HexValues(h', v');
    var all: seq<byte> := ['x' as int, h, h'] + t;
    assert all[3..] == t;
    NotSimple();
  }

  lemma HexValues(h: byte, v: nat)
    requires HexDigit(h, v)
    ensures IsXDigit(h) && HexValue(h) == v
  {}

  lemma NotSimple()
    ensures Simple('x' as int) == -1
  {}

  /** What is no hexadecimal digit is refused in the place of one. */
  lemma HexRefused(h: byte, t: seq<byte>)
    requires !(48 <= h <= 57) && !(65 <= h <= 70) && !(97 <= h <= 102)
    ensures Escape(['x' as int, h] + t) == Bad(HexExpected)
  {}

  // ----- code points -----

  /** The number that hexadecimal digits with these values stand for. */
  function HexNumber(vs: seq<nat>): nat { if vs == [] then 0 else 16 * HexNumber(vs[..|vs| - 1]) + vs[|vs| - 1] }

  ghost predicate HexDigitsOf(ds: seq<byte>, vs: seq<nat>)
  {
    |ds| == |vs| && forall i :: 0 <= i < |ds| ==> HexDigit(ds[i], vs[i])
  }

  /** A code point in braces, with any number of digits, is encoded; one beyond the last is refused. */
  lemma CodePointLaw(ds: seq<byte>, vs: seq<nat>, t: seq<byte>)
    requires HexDigitsOf(ds, vs) && ds != []
    ensures Escape(['u' as int, '{' as int] + ds + ['}' as int] + t) ==
            if HexNumber(vs) <= 0x10FFFF then Piece(Utf8(HexNumber(vs)), t, 0) else Bad(Utf8TooLarge)
  {
    hide Utf8, HexNumber;
    var all: seq<byte> := ['u' as int, '{' as int] + ds + ['}' as int] + t;
    var tail: seq<byte> := ['}' as int] + t;
    assert HexDigit(ds[0], vs[0]) && all[2] == ds[0];
    assert all[3..] == ds[1..] + tail;
    FirstDigit(vs);
    NumberAfter(ds, vs, 1, tail);
  }

  lemma FirstDigit(vs: seq<nat>)
    requires vs != []
    ensures HexNumber(vs[..1]) == vs[0]
  {
    assert vs[..1][..0] == [];
  }

  lemma NextDigit(vs: seq<nat>, i: nat)
    requires i < |vs|
    ensures HexNumber(vs[..i + 1]) == 16 * HexNumber(vs[..i]) + vs[i]
  {
    assert vs[..i + 1][..i] == vs[..i];
  }

  lemma {:induction false} MoreDigits(vs: seq<nat>, i: nat)
    requires i <= |vs|
    ensures HexNumber(vs) >= HexNumber(vs[..i])
    decreases |vs| - i
  {
    if i < |vs| {
      NextDigit(vs, i);
      MoreDigits(vs, i + 1);
    } else {
      assert vs[..i] == vs;
    }
  }

  lemma {:induction false} NumberAfter(ds: seq<byte>, vs: seq<nat>, i: nat, tail: seq<byte>)
    requires HexDigitsOf(ds, vs) && i <= |ds| && tail != [] && tail[0] == '}' as int && HexNumber(vs[..i]) <= 0x10FFFF
    ensures HexDigits(ds[i..] + tail, HexNumber(vs[..i])) ==
            if HexNumber(vs) <= 0x10FFFF then Piece(Utf8(HexNumber(vs)), tail[1..], 0) else Bad(Utf8TooLarge)
    decreases |ds| - i
  {
    hide Utf8, HexNumber;
    var all := ds[i..] + tail;
    if i == |ds| {
      assert vs[..i] == vs && all == tail;
    } else {
      assert HexDigit(ds[i], vs[i]) && all[0] == ds[i] && all[1..] == ds[i + 1..] + tail;
      NextDigit(vs, i);
      MoreDigits(vs, i + 1);
      if HexNumber(vs[..i + 1]) <= 0x10FFFF { NumberAfter(ds, vs, i + 1, tail); }
    }
  }

  /** The six bits of a byte that goes on. */
  function Six(b: byte): int { b - 0x80 }

  predicate GoesOn(b: byte) { 0x80 <= b < 0xC0 }

  /** Bytes that encode a code point in UTF-8, in the shortest way (RFC 3629, section 3). */
  predicate Encodes(b: seq<byte>, x: nat)
  {
    if |b| == 1 then b[0] < 0x80 && x == b[0]
    else if |b| == 2 then 0xC0 <= b[0] < 0xE0 && GoesOn(b[1]) && x == 64 * (Six(b[0]) - 64) + Six(b[1]) && x >= 0x80
    else if |b| == 3 then
      && 0xE0 <= b[0] < 0xF0 && GoesOn(b[1]) && GoesOn(b[2])
      && x == 4096 * (Six(b[0]) - 96) + 64 * Six(b[1]) + Six(b[2]) && x >= 0x800
    else
      && |b| == 4 && 0xF0 <= b[0] < 0xF8 && GoesOn(b[1]) && GoesOn(b[2]) && GoesOn(b[3])
      && x == 262144 * (Six(b[0]) - 112) + 4096 * Six(b[1]) + 64 * Six(b[2]) + Six(b[3]) && x >= 0x1_0000
  }

  /** What is written for a code point is its encoding. */
  lemma Utf8Encodes(x: nat)
    requires x <= 0x10FFFF
    ensures Encodes(Utf8(x), x)
  {
    var b := Utf8(x);
    if 0x800 <= x < 0x1_0000 {
      Split3(x);
    } else if x >= 0x1_0000 {
      Split3(x);
      Split4(x);
    }
  }

  lemma Split3(x: nat)
    ensures x == 4096 * (x / 4096) + 64 * (x / 64 % 64) + x % 64
  {
    assert x / 4096 == x / 64 / 64;
  }

  lemma Split4(x: nat)
    requires x < 0x20_0000
    ensures x / 4096 == 64 * (x / 262144) + x / 4096 % 64 && (0xF0 + x / 262144) % 256 == 0xF0 + x / 262144
  {
    assert x / 262144 == x / 4096 / 64;
  }

  /** No two code points have the same encoding. */
  lemma EncodesOne(b: seq<byte>, x: nat, y: nat)
    requires Encodes(b, x) && Encodes(b, y)
    ensures x == y
  {}

  // ----- line ends and white space -----

  /** A backslash before a line end gives a newline. */
  lemma LineEndLaws(t: seq<byte>)
    ensures t == [] || (t[0] != 10 && t[0] != 13) ==>
              Escape([10] + t) == Piece([10], t, 1) && Escape([13] + t) == Piece([10], t, 1)
  {
    assert ([10] + t)[1..] == t && ([13] + t)[1..] == t;
    hide SkipSpaces, HexDigits, Decimal;
  }

  /** Two different characters of line ends are one; two of the same are two. */
  lemma PairLaws(t: seq<byte>)
    ensures Escape([13, 10] + t) == Piece([10], t, 1) && Escape([10, 13] + t) == Piece([10], t, 1)
    ensures Escape([10, 10] + t) == Piece([10], [10] + t, 1) && Escape([13, 13] + t) == Piece([10], [13] + t, 1)
  {
    assert ([13, 10] + t)[2..] == t && ([10, 13] + t)[2..] == t;
    assert ([10, 10] + t)[1..] == [10] + t && ([13, 13] + t)[1..] == [13] + t;
    hide SkipSpaces, HexDigits, Decimal;
  }

  predicate White(c: byte) { c == 32 || 9 <= c <= 13 }

  /** `z` skips white space and nothing else. */
  lemma SkipLaw(w: seq<byte>, t: seq<byte>)
    requires (forall i :: 0 <= i < |w| ==> White(w[i])) && (t == [] || !White(t[0]))
    ensures var p := Escape(['z' as int] + w + t); p.Piece? && p.bytes == [] && p.rest == t
  {
    assert (['z' as int] + w + t)[1..] == w + t;
    SkipsWhite(w, t);
  }

  lemma {:induction false} SkipsWhite(w: seq<byte>, t: seq<byte>)
    requires (forall i :: 0 <= i < |w| ==> White(w[i])) && (t == [] || !White(t[0]))
    ensures SkipSpaces(w + t).0 == t
    decreases |w|
  {
    if w == [] {
      assert w + t == t;
    } else {
      assert White(w[0]) && (w + t)[1..] == w[1..] + t;
      SkipsWhite(w[1..], t);
      if |w| > 1 {
        assert White(w[1]) && (w + t)[2..] == w[2..] + t;
        SkipsWhite(w[2..], t);
      }
    }
  }

  // ----- literals -----

  /** What stands for itself, what ends a literal, and what may not be in it. */
  lemma BodyLaws(c: byte, t: seq<byte>, del: byte)
    requires del == 34 || del == 39
    ensures Body([del] + t, del) == Literal([], t, 0)
    ensures c == 10 || c == 13 ==> Body([c] + t, del) == Wrong(UnfinishedString)
    ensures Body([], del) == Wrong(UnfinishedString)
    ensures c != del && c != 10 && c != 13 && c != 92 && Body(t, del).Literal? ==>
              Body([c] + t, del) == Body(t, del).(content := [c] + Body(t, del).content)
  {}

  // ----- quoting -----

  /** As many decimal digits as a byte needs. */
  function FewDigits(v: byte): seq<byte> {
    if v < 10 then [48 + v] else if v < 100 then [48 + v / 10, 48 + v % 10] else Digits(v)
  }

  /** What `%q` writes: quotes, backslashes and newlines behind a backslash, control characters by their number, which
      takes three digits before another digit, and every other byte as it is. */
  lemma QuotedLaws(c: byte, s: seq<byte>)
    ensures c == 34 || c == 92 || c == 10 ==> Quoted([c] + s) == [92, c] + Quoted(s)
    ensures (c < 32 && c != 10) || c == 127 ==>
              Quoted([c] + s) ==
              [92] + (if s != [] && 48 <= s[0] <= 57 then Digits(c) else FewDigits(c)) + Quoted(s)
    ensures 32 <= c && c != 127 && c != 34 && c != 92 ==> Quoted([c] + s) == [c] + Quoted(s)
  {
    QuotedNext(c, s);
    CharLaws(c, s);
    hide Quoted, QuotedChar, Digits, FewDigits;
  }

  lemma QuotedNext(c: byte, s: seq<byte>)
    ensures Quoted([c] + s) == QuotedChar([c] + s) + Quoted(s)
  {
    hide QuotedChar;
    assert ([c] + s)[1..] == s;
  }

  lemma CharLaws(c: byte, s: seq<byte>)
    ensures var q := QuotedChar([c] + s);
            if c == 34 || c == 92 || c == 10 then q == [92, c]
            else if c < 32 || c == 127 then
              q == [92] + if s != [] && 48 <= s[0] <= 57 then Digits(c) else FewDigits(c)
            else q == [c]
  {
    DecimalSame(c);
    hide Digits, FewDigits, Dec, Dec3;
    assert s != [] ==> ([c] + s)[1] == s[0];
  }

  lemma DecimalSame(c: byte)
    ensures Dec3(c) == Digits(c) && Dec(c) == FewDigits(c)
  {}
}
