/** The options of a format for packing, with their sizes and alignments. The sizes are those of a machine of 32 bits:
    `long` and `size_t` take 4 bytes; integers and floats of Lua 8. */
module PackFormat {
  import opened Bytes
  import opened Powers
  import opened WordArith

  datatype KOption = Kint | Kuint | Kfloat | Kchar | Kstring | Kzstr | Kpadding | Kpaddalign | Knop

  datatype Settings = Settings(little: bool, maxalign: nat)

  datatype Error = InvalidOption | SizeOutOfLimits | MissingSize | InvalidNext | NotPowerOfTwo
    | IntegerOverflow | UnsignedOverflow | LongerThanSize | LengthDoesNotFit | ContainsZeros | BadArgument | Float
    | TooShort | DoesNotFit | OutOfString | Overrun | TooLarge | VariableLength

  const MaxIntSize: nat := 16
  const MaxAlign: nat := 8
  const NativeLittle: bool := true
  const MaxSize: nat := 0x7FFF_FFFF
  const InitialSettings := Settings(NativeLittle, 1)

  /** The character at which the format stands; zero at its end. */
  function Peek(fmt: seq<byte>): byte { if fmt == [] then 0 else fmt[0] }

  datatype Opt = Opt(kind: KOption, size: nat, h: Settings, rest: seq<byte>) | BadOpt(error: Error)

  function GetNum(fmt: seq<byte>, df: int): (r: (int, seq<byte>))
    ensures |r.1| <= |fmt|
    ensures df >= -1 ==> r.0 >= -1
  {
    if !IsDigit(Peek(fmt)) then (df, fmt) else Digits(0, fmt)
  }

  /** Reads digits as long as another one cannot make the number too large. */
  function Digits(a: nat, fmt: seq<byte>): (r: (nat, seq<byte>))
    ensures |r.1| <= |fmt|
    decreases |fmt|
  {
    if IsDigit(Peek(fmt)) && a <= (MaxSize - 9) / 10 then Digits(a * 10 + (fmt[0] - '0' as int), fmt[1..]) else (a, fmt)
  }

  function GetNumLimit(kind: KOption, h: Settings, fmt: seq<byte>, df: int): (o: Opt)
    ensures o.Opt? ==> |o.rest| <= |fmt| && 1 <= o.size <= MaxIntSize && o.h == h && o.kind == kind
  {
    var (sz, rest) := GetNum(fmt, df);
    if sz > MaxIntSize || sz <= 0 then BadOpt(SizeOutOfLimits) else Opt(kind, sz, h, rest)
  }

  /** Options that are one letter, with their sizes. */
  function Letter(c: byte): (KOption, nat) {
    if c == 'b' as int then (Kint, 1)
    else if c == 'B' as int then (Kuint, 1)
    else if c == 'h' as int then (Kint, 2)
    else if c == 'H' as int then (Kuint, 2)
    else if c == 'l' as int then (Kint, 4)
    else if c == 'L' as int then (Kuint, 4)
    else if c == 'j' as int then (Kint, 8)
    else if c == 'J' as int then (Kuint, 8)
    else if c == 'T' as int then (Kuint, 4)
    else if c == 'f' as int then (Kfloat, 4)
    else if c == 'd' as int then (Kfloat, 8)
    else if c == 'n' as int then (Kfloat, 8)
    else if c == 'z' as int then (Kzstr, 0)
    else if c == 'x' as int then (Kpadding, 1)
    else if c == 'X' as int then (Kpaddalign, 0)
    else (Knop, 0)
  }

  /** Reads one option. */
  function GetOption(h: Settings, fmt: seq<byte>): (o: Opt)
    requires fmt != []
    ensures o.Opt? ==> |o.rest| < |fmt|
    ensures o.Opt? && (o.kind == Kint || o.kind == Kuint || o.kind == Kstring) ==> 1 <= o.size <= MaxIntSize
    ensures o.Opt? && o.kind != Kchar ==> o.size <= MaxIntSize
    ensures o.Opt? && h.maxalign > 0 ==> o.h.maxalign > 0
    ensures o.Opt? && o.kind == Kpadding ==> o.size == 1
    ensures o.Opt? && (o.kind == Kpaddalign || o.kind == Knop || o.kind == Kzstr) ==> o.size == 0
  {
    var c, rest := fmt[0], fmt[1..];
    if c == 'i' as int then GetNumLimit(Kint, h, rest, 4)
    else if c == 'I' as int then GetNumLimit(Kuint, h, rest, 4)
    else if c == 's' as int then GetNumLimit(Kstring, h, rest, 4)
    else if c == 'c' as int then
      var (sz, after) := GetNum(rest, -1);
      if sz == -1 then BadOpt(MissingSize) else Opt(Kchar, sz, h, after)
    else if c == '<' as int then Opt(Knop, 0, h.(little := true), rest)
    else if c == '>' as int then Opt(Knop, 0, h.(little := false), rest)
    else if c == '=' as int then Opt(Knop, 0, h.(little := NativeLittle), rest)
    else if c == '!' as int then
      var o := GetNumLimit(Knop, h, rest, MaxAlign);
      if o.BadOpt? then o else Opt(Knop, 0, h.(maxalign := o.size), o.rest)
    else if Letter(c) != (Knop, 0) || c == ' ' as int then Opt(Letter(c).0, Letter(c).1, h, rest)
    else BadOpt(InvalidOption)
  }

  datatype Details = Details(kind: KOption, size: nat, pad: nat, h: Settings, rest: seq<byte>)
    | BadDetails(error: Error)

  /** Reads one option together with the padding that its alignment takes at a position. */
  function GetDetails(h: Settings, total: nat, fmt: seq<byte>): (d: Details)
    requires fmt != [] && h.maxalign > 0
    ensures d.Details? ==> |d.rest| < |fmt| && d.h.maxalign > 0
  {
    var o := GetOption(h, fmt);
    if o.BadOpt? then BadDetails(o.error)
    else if o.kind == Kpaddalign then
      if Peek(o.rest) == 0 then BadDetails(InvalidNext)
      else
        var next := GetOption(o.h, o.rest);
        if next.BadOpt? then BadDetails(next.error)
        else if next.kind == Kchar || next.size == 0 then BadDetails(InvalidNext)
        else Aligned(o.kind, o.size, next.size, total, next.h, next.rest)
    else Aligned(o.kind, o.size, o.size, total, o.h, o.rest)
  }

  /** Enforces the maximum alignment, and finds the padding. */
  function Aligned(kind: KOption, size: nat, align: nat, total: nat, h: Settings, rest: seq<byte>): (d: Details)
    requires h.maxalign > 0
    ensures d.Details? ==> d.kind == kind && d.size == size && d.h == h && d.rest == rest
  {
    if align <= 1 || kind == Kchar then Details(kind, size, 0, h, rest)
    else
      var a := if align > h.maxalign then h.maxalign else align;
      if And(a, a - 1) != 0 then BadDetails(NotPowerOfTwo)
      else Details(kind, size, Padding(a, total), h, rest)
  }

  function Padding(align: nat, total: nat): nat
    requires align > 0
  {
    And(align - And(total, align - 1), align - 1)
  }

  /** For a power of two, the padding is the least that makes the position a multiple of it. */
  lemma PaddingAligns(align: nat, total: nat)
    requires align > 0 && And(align, align - 1) == 0
    ensures Padding(align, total) < align && (total + Padding(align, total)) % align == 0
  {
    hide And, Padding;
    var k := AndBefore(align);
    PaddingIs(align, total, k);
    MakeMultiple(total, align);
  }

  lemma PaddingIs(align: nat, total: nat, k: nat)
    requires align == Pow2(k)
    ensures total % align <= align && Padding(align, total) == (align - total % align) % align
  {
    hide And, Pow2;
    AndMask(total, k);
    RestBelow(total, align);
    AndMask(align - total % align, k);
  }

  lemma RestBelow(x: nat, m: nat)
    requires m > 0
    ensures 0 <= x % m < m
  {}

  lemma MakeMultiple(total: nat, align: nat)
    requires align > 0
    ensures 0 <= (align - total % align) % align < align && (total + (align - total % align) % align) % align == 0
  {
    var q, r := total / align, total % align;
    if r == 0 {
      Unique(align, align, 1, 0);
    } else {
      Unique(align - r, align, 0, align - r);
      assert (q + 1) * align == q * align + align;
      Unique(total + (align - r), align, q + 1, 0);
    }
  }

  /** Apart from the padding, an option is read the same way wherever it is. */
  lemma DetailsAnywhere(h: Settings, total: nat, fmt: seq<byte>)
    requires fmt != [] && h.maxalign > 0
    ensures var d, e := GetDetails(h, total, fmt), GetDetails(h, 0, fmt);
      && (d.BadDetails? <==> e.BadDetails?)
      && (d.Details? ==> d.kind == e.kind && d.size == e.size && d.h == e.h && d.rest == e.rest)
  {
    hide And, GetOption, Padding;
  }

  /** What an option's kind says of its size. */
  lemma DetailsSize(h: Settings, total: nat, fmt: seq<byte>)
    requires fmt != [] && h.maxalign > 0
    ensures var d := GetDetails(h, total, fmt); d.Details? ==>
      && (d.kind == Kint || d.kind == Kuint || d.kind == Kstring ==> 1 <= d.size <= MaxIntSize)
      && (d.kind == Kpadding ==> d.size == 1)
      && (d.kind == Kpaddalign || d.kind == Knop || d.kind == Kzstr ==> d.size == 0)
  {
    hide And, Padding;
  }

  // ----- reading the format step by step -----

  datatype Result<T> = Ok(value: T) | Failed(error: Error)

  /** A format that is being read, and the settings that it has made. */
  class Header {
    const fmt: seq<byte>
    var at: nat
    var little: bool
    var maxalign: nat

    ghost predicate Valid()
      reads this
    {
      at <= |fmt| && maxalign > 0
    }

    ghost function Rest(): seq<byte>
      reads this
    {
      if at <= |fmt| then fmt[at..] else []
    }

    ghost function Now(): Settings
      reads this
    {
      Settings(little, maxalign)
    }

    constructor (fmt: seq<byte>)
      ensures Valid() && Rest() == fmt && Now() == InitialSettings && at == 0
    {
      this.fmt, this.at, this.little, this.maxalign := fmt, 0, NativeLittle, 1;
    }

    function Current(): (c: byte)
      requires Valid()
      reads this
      ensures c == Peek(Rest())
    {
      if at < |fmt| then fmt[at] else 0
    }

    method ReadNum(df: int) returns (a: int)
      requires Valid()
      modifies this`at
      ensures Valid() && at >= old(at) && (a, Rest()) == GetNum(old(Rest()), df)
    {
      if !IsDigit(Current()) {
        return df;
      }
      var n: nat := 0;
      while IsDigit(Current()) && n <= (MaxSize - 9) / 10
        invariant Valid() && at >= old(at) && Digits(n, Rest()) == Digits(0, old(Rest()))
        decreases |fmt| - at
      {
        n := n * 10 + (fmt[at] - '0' as int);
        at := at + 1;
      }
      a := n;
    }

    method ReadNumLimit(ghost kind: KOption, df: int) returns (r: Result<nat>)
      requires Valid()
      modifies this`at
      ensures Valid() && at >= old(at)
      ensures var o := GetNumLimit(kind, Now(), old(Rest()), df);
        if r.Ok? then o == Opt(kind, r.value, Now(), Rest()) else o == BadOpt(r.error)
    {
      hide GetNum;
      var sz := ReadNum(df);
      r := if sz > MaxIntSize || sz <= 0 then Failed(SizeOutOfLimits) else Ok(sz);
    }

    method ReadOption() returns (r: Result<(KOption, nat)>)
      requires Valid() && at < |fmt|
      modifies this
      ensures Valid() && at > old(at)
      ensures var o := GetOption(old(Now()), old(Rest()));
        if r.Ok? then o == Opt(r.value.0, r.value.1, Now(), Rest()) else o == BadOpt(r.error)
    {
      hide GetNum, GetNumLimit, Letter;
      var c := fmt[at];
      at := at + 1;
      assert old(Rest())[1..] == Rest();
      if c == 'i' as int || c == 'I' as int || c == 's' as int {
        var kind := if c == 'i' as int then Kint else if c == 'I' as int then Kuint else Kstring;
        var n := ReadNumLimit(kind, 4);
        return if n.Ok? then Ok((kind, n.value)) else Failed(n.error);
      }
      if c == 'c' as int {
        var sz := ReadNum(-1);
        return if sz == -1 then Failed(MissingSize) else Ok((Kchar, sz));
      }
      if c == '<' as int {
        little := true;
      } else if c == '>' as int {
        little := false;
      } else if c == '=' as int {
        little := NativeLittle;
      } else if c == '!' as int {
        var n := ReadNumLimit(Knop, MaxAlign);
        if n.Failed? {
          return Failed(n.error);
        }
        maxalign := n.value;
      } else if Letter(c) != (Knop, 0) || c == ' ' as int {
        return Ok(Letter(c));
      } else {
        return Failed(InvalidOption);
      }
      r := Ok((Knop, 0));
    }

    method ReadDetails(totalsize: nat) returns (r: Result<(KOption, nat, nat)>)
      requires Valid() && at < |fmt|
      modifies this
      ensures Valid() && at > old(at)
      ensures var d := GetDetails(old(Now()), totalsize, old(Rest()));
        if r.Ok? then d == Details(r.value.0, r.value.1, r.value.2, Now(), Rest()) else d == BadDetails(r.error)
    {
      hide GetOption, Aligned;
      var o := ReadOption();
      if o.Failed? {
        return Failed(o.error);
      }
      var (opt, size) := o.value;
      var align := size;
      if opt == Kpaddalign {
        if Current() == 0 {
          return Failed(InvalidNext);
        }
        var next := ReadOption();
        if next.Failed? {
          return Failed(next.error);
        }
        if next.value.0 == Kchar || next.value.1 == 0 {
          return Failed(InvalidNext);
        }
        align := next.value.1;
      }
      r := PadFor(opt, size, align, totalsize);
    }

    /** The padding that an alignment takes, which must be a power of two. */
    method PadFor(opt: KOption, size: nat, align0: nat, totalsize: nat) returns (r: Result<(KOption, nat, nat)>)
      requires Valid()
      ensures var d := Aligned(opt, size, align0, totalsize, Now(), Rest());
        if r.Ok? then d == Details(r.value.0, r.value.1, r.value.2, Now(), Rest()) else d == BadDetails(r.error)
    {
      hide Padding, And;
      var align := align0;
      if align <= 1 || opt == Kchar {
        return Ok((opt, size, 0));
      }
      if align > maxalign {
        align := maxalign;
      }
      if And(align, align - 1) != 0 {
        return Failed(NotPowerOfTwo);
      }
      r := Ok((opt, size, Padding(align, totalsize)));
    }
  }
}
