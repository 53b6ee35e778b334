/** What the options of packing formats mean: section 6.4.2 of the Lua 5.3 manual. */
module PackLaws {
  import opened Bytes
  import opened Endian
  import opened Powers
  import opened WordArith
  import opened PackFormat
  import opened PackStrings
  import Int = PackInt

  predicate NoDigit(f: seq<byte>) { f == [] || !(48 <= f[0] <= 57) }

  lemma OneDigit(d: nat, f: seq<byte>, df: int)
    requires d < 10 && NoDigit(f)
    ensures GetNum([48 + d] + f, df) == (d, f) && GetNum(f, df) == (df, f)
  {
    var all: seq<byte> := [48 + d] + f;
    assert all[1..] == f;
    assert Digits(d, f) == (d, f);
  }

  /** An integer of as many bytes as the digit says. */
  lemma SizedLaws(h: Settings, d: nat, f: seq<byte>)
    requires 1 <= d <= 9 && NoDigit(f)
    ensures GetOption(h, ['i' as int, 48 + d] + f) == Opt(Kint, d, h, f)
    ensures GetOption(h, ['I' as int, 48 + d] + f) == Opt(Kuint, d, h, f)
    ensures GetOption(h, ['s' as int, 48 + d] + f) == Opt(Kstring, d, h, f)
    ensures GetOption(h, ['c' as int, 48 + d] + f) == Opt(Kchar, d, h, f)
    ensures GetOption(h, ['!' as int, 48 + d] + f) == Opt(Knop, 0, h.(maxalign := d), f)
  {
    hide Letter, GetNum;
    OneDigit(d, f, -1);
    OneDigit(d, f, 4);
    OneDigit(d, f, 8);
    TailOf('i' as int, d, f);
    TailOf('I' as int, d, f);
    TailOf('s' as int, d, f);
    TailOf('c' as int, d, f);
    TailOf('!' as int, d, f);
  }

  lemma TailOf(c: byte, d: nat, f: seq<byte>)
    requires d < 10
    ensures ([c, 48 + d] + f)[1..] == [48 + d] + f && ([c, 48 + d] + f)[0] == c
  {}

  lemma LetterTail(c: byte, f: seq<byte>)
    ensures ([c] + f)[1..] == f && ([c] + f)[0] == c
  {}

  lemma LetterOption(h: Settings, c: byte, f: seq<byte>)
    requires Letter(c) != (Knop, 0)
    ensures GetOption(h, [c] + f) == Opt(Letter(c).0, Letter(c).1, h, f)
  {
    LetterTail(c, f);
    hide GetNum, GetNumLimit;
  }

  /** Letters without a number are integers of the sizes of C's types on a machine of 32 bits; or a string that ends
      with a zero, a byte of padding, or alignment. */
  lemma LetterLaws(h: Settings, f: seq<byte>)
    ensures GetOption(h, ['b' as int] + f) == Opt(Kint, 1, h, f) &&
            GetOption(h, ['B' as int] + f) == Opt(Kuint, 1, h, f)
    ensures GetOption(h, ['h' as int] + f) == Opt(Kint, 2, h, f) &&
            GetOption(h, ['H' as int] + f) == Opt(Kuint, 2, h, f)
    ensures GetOption(h, ['l' as int] + f) == Opt(Kint, 4, h, f) &&
            GetOption(h, ['L' as int] + f) == Opt(Kuint, 4, h, f)
    ensures GetOption(h, ['j' as int] + f) == Opt(Kint, 8, h, f) &&
            GetOption(h, ['J' as int] + f) == Opt(Kuint, 8, h, f)
    ensures GetOption(h, ['T' as int] + f) == Opt(Kuint, 4, h, f) &&
            GetOption(h, ['z' as int] + f) == Opt(Kzstr, 0, h, f)
    ensures GetOption(h, ['x' as int] + f) == Opt(Kpadding, 1, h, f)
    ensures GetOption(h, ['X' as int] + f) == Opt(Kpaddalign, 0, h, f)
  {
    hide GetOption;
    LetterOption(h, 'b' as int, f);
    LetterOption(h, 'B' as int, f);
    LetterOption(h, 'h' as int, f);
    LetterOption(h, 'H' as int, f);
    LetterOption(h, 'l' as int, f);
    LetterOption(h, 'L' as int, f);
    LetterOption(h, 'j' as int, f);
    LetterOption(h, 'J' as int, f);
    LetterOption(h, 'T' as int, f);
    LetterOption(h, 'z' as int, f);
    LetterOption(h, 'x' as int, f);
    LetterOption(h, 'X' as int, f);
  }

  lemma NoNumber(f: seq<byte>)
    requires NoDigit(f)
    ensures GetNum(f, 4) == (4, f) && GetNum(f, 8) == (8, f) && GetNum(f, -1) == (-1, f)
  {}

  /** Floats of C and of Lua. */
  lemma FloatLaws(h: Settings, f: seq<byte>)
    ensures GetOption(h, ['f' as int] + f) == Opt(Kfloat, 4, h, f)
    ensures GetOption(h, ['d' as int] + f) == Opt(Kfloat, 8, h, f)
    ensures GetOption(h, ['n' as int] + f) == Opt(Kfloat, 8, h, f)
  {
    hide GetOption;
    LetterOption(h, 'f' as int, f);
    LetterOption(h, 'd' as int, f);
    LetterOption(h, 'n' as int, f);
  }

  /** What is taken where a number is left out: the sizes of `int` and `size_t`, and the greatest alignment. */
  lemma DefaultLaws(h: Settings, f: seq<byte>)
    requires NoDigit(f)
    ensures GetOption(h, ['i' as int] + f) == Opt(Kint, 4, h, f) &&
            GetOption(h, ['I' as int] + f) == Opt(Kuint, 4, h, f)
    ensures GetOption(h, ['s' as int] + f) == Opt(Kstring, 4, h, f)
    ensures GetOption(h, ['!' as int] + f) == Opt(Knop, 0, h.(maxalign := 8), f)
    ensures GetOption(h, ['c' as int] + f) == BadOpt(MissingSize)
  {
    NoNumber(f);
    LetterTail('i' as int, f);
    LetterTail('I' as int, f);
    LetterTail('s' as int, f);
    LetterTail('!' as int, f);
    LetterTail('c' as int, f);
    hide GetNum, Letter, NoDigit;
  }

  /** The byte order, and a blank. */
  lemma OrderOptions(h: Settings, f: seq<byte>)
    ensures GetOption(h, ['<' as int] + f) == Opt(Knop, 0, h.(little := true), f)
    ensures GetOption(h, ['>' as int] + f) == Opt(Knop, 0, h.(little := false), f)
    ensures GetOption(h, ['=' as int] + f) == Opt(Knop, 0, h.(little := true), f)
    ensures GetOption(h, [' ' as int] + f) == Opt(Knop, 0, h, f)
  {
    LetterTail('<' as int, f);
    LetterTail('>' as int, f);
    LetterTail('=' as int, f);
    LetterTail(' ' as int, f);
    hide GetNum, GetNumLimit;
  }

  /** Sizes are from 1 to 16. */
  lemma SizeLimits(h: Settings, f: seq<byte>)
    requires NoDigit(f)
    ensures GetOption(h, ['i' as int, '0' as int] + f) == BadOpt(SizeOutOfLimits)
    ensures GetOption(h, ['i' as int, '1' as int, '6' as int] + f) == Opt(Kint, 16, h, f)
    ensures GetOption(h, ['i' as int, '1' as int, '7' as int] + f) == BadOpt(SizeOutOfLimits)
  {
    OneDigit(0, f, 4);
    TailOf('i' as int, 0, f);
    TwoDigits(1, 6, f);
    TwoDigits(1, 7, f);
    hide GetNum, Letter;
    LetterTail('i' as int, ['1' as int, '6' as int] + f);
    LetterTail('i' as int, ['1' as int, '7' as int] + f);
    assert ['i' as int, '1' as int, '6' as int] + f == ['i' as int] + (['1' as int, '6' as int] + f);
    assert ['i' as int, '1' as int, '7' as int] + f == ['i' as int] + (['1' as int, '7' as int] + f);
  }

  lemma TwoDigits(d: nat, e: nat, f: seq<byte>)
    requires d < 10 && e < 10 && NoDigit(f)
    ensures GetNum([48 + d, 48 + e] + f, 4) == (10 * d + e, f)
  {
    var all: seq<byte> := [48 + d, 48 + e] + f;
    assert all[1..] == [48 + e] + f && all[1..][1..] == f;
    assert Digits(10 * d + e, f) == (10 * d + e, f);
    assert Digits(d, all[1..]) == (10 * d + e, f);
  }

  /** `bBhHiIlLjJTfdnsczxX`, the two brackets, the equals sign, the exclamation mark and the blank. */
  predicate IsOption(c: byte)
  {
    || c == 98 || c == 66 || c == 104 || c == 72 || c == 105 || c == 73 || c == 108 || c == 76 || c == 106 || c == 74
    || c == 84 || c == 102 || c == 100 || c == 110 || c == 115 || c == 99 || c == 122 || c == 120 || c == 88
    || c == 60 || c == 62 || c == 61 || c == 33 || c == 32
  }

  lemma NoOption(h: Settings, c: byte, f: seq<byte>)
    requires !IsOption(c)
    ensures GetOption(h, [c] + f) == BadOpt(InvalidOption)
  {}

  // ----- bytes -----

  /** Strings: with a zero behind it, with its length before it, or filled up with zeros; and a byte of padding. */
  lemma StringLaws(s: seq<byte>, rest: seq<Value>, little: bool)
    ensures !HasZero(s) ==> PackItem(Kzstr, 0, little, [Str(s)] + rest) == Item(s + [0], 1)
    ensures |s| < 0x100 ==> PackItem(Kstring, 1, little, [Str(s)] + rest) == Item([|s|] + s, 1)
    ensures |s| == 2 ==> PackItem(Kchar, 3, little, [Str(s)] + rest) == Item(s + [0], 1)
    ensures |s| > 3 ==> PackItem(Kchar, 3, little, [Str(s)] + rest) == Bad(LongerThanSize)
    ensures PackItem(Kpadding, 1, little, rest) == Item([0], 0)
  {
    if |s| < 0x100 { OneByte(|s|, little); }
    assert Zeros(1) == [0] by { assert Zeros(0) == []; }
  }

  lemma OneByte(n: nat, little: bool)
    requires n < 0x100
    ensures PackedInteger(n, 1, little, false) == [n]
  {
    assert LittleBytes(n, 1) == [n] by { assert LittleBytes(n / 256, 0) == []; }
  }

  /** The bytes of a number of two bytes, in both orders. */
  lemma OrderLaws(n: int64, rest: seq<Value>)
    requires 0 <= n < 0x1_0000
    ensures PackItem(Kuint, 2, true, [Integer(n)] + rest) == Item([n % 256, n / 256], 1)
    ensures PackItem(Kuint, 2, false, [Integer(n)] + rest) == Item([n / 256, n % 256], 1)
  {
    assert LittleBytes(n / 256 / 256, 0) == [] && LittleBytes(n / 256, 1) == [n / 256];
    var s: seq<byte> := [n % 256, n / 256];
    assert Int.Ordered(s, true) == s && Int.Ordered(s, false) == [n / 256, n % 256];
  }

  /** A negative number has its complement. */
  lemma SignLaws(n: int64, rest: seq<Value>)
    ensures -0x80 <= n < 0 ==> PackItem(Kint, 1, true, [Integer(n)] + rest) == Item([n + 256], 1)
    ensures 0 <= n < 0x80 ==> PackItem(Kint, 1, true, [Integer(n)] + rest) == Item([n], 1)
    ensures n >= 0x80 || n < -0x80 ==> PackItem(Kint, 1, true, [Integer(n)] + rest) == Bad(IntegerOverflow)
  {}

  // ----- positions -----

  /** Positions to unpack from count from 1, and negative ones from the end. */
  lemma PositionLaws(k: int, n: nat)
    ensures k >= 0 ==> PosRelat(k, n) == k
    ensures 1 <= k <= n ==> PosRelat(-k, n) - 1 == n - k
    ensures k > n ==> PosRelat(-k, n) == 0
  {}
}
