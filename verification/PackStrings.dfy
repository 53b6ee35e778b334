/** Packing values into a string by a format, and unpacking them. */
module PackStrings {
  import opened Bytes
  import opened Endian
  import opened Powers
  import opened WordArith
  import opened PackFormat
  import Int = PackInt

  type int64 = n: int | -0x8000_0000_0000_0000 <= n < 0x8000_0000_0000_0000

  datatype Value = Integer(n: int64) | Str(s: seq<byte>)

  /** One more than the largest `size_t`: no string in memory is as long. */
  const SizeT: nat := 0x1_0000_0000

  function Zeros(n: nat): (s: seq<byte>)
    ensures |s| == n
  {
    if n == 0 then [] else Zeros(n - 1) + [0]
  }

  // ----- one option -----

  datatype Item = Item(bytes: seq<byte>, used: nat) | Bad(error: Error)

  function PackedInteger(n: int64, size: nat, little: bool, signed: bool): seq<byte>
  {
    Int.Ordered(LittleBytes(Int.Stored(Word(n), size, signed && n < 0), size), little)
  }

  predicate HasZero(s: seq<byte>) { exists k :: 0 <= k < |s| && s[k] == 0 }

  /** The bytes that an option makes of the next argument. */
  function PackItem(kind: KOption, size: nat, little: bool, args: seq<Value>): (it: Item)
    ensures it.Item? ==> it.used <= |args| && it.used <= 1
  {
    match kind
    case Knop => Item([], 0)
    case Kpaddalign => Item([], 0)
    case Kpadding => Item([0], 0)
    case Kfloat => Bad(Float)
    case Kint =>
      if args == [] || !args[0].Integer? then Bad(BadArgument)
      else if size < 8 && !Int.InBytes(args[0].n, size) then Bad(IntegerOverflow)
      else Item(PackedInteger(args[0].n, size, little, true), 1)
    case Kuint =>
      if args == [] || !args[0].Integer? then Bad(BadArgument)
      else if size < 8 && Word(args[0].n) >= Pow256(size) then Bad(UnsignedOverflow)
      else Item(PackedInteger(args[0].n, size, little, false), 1)
    case Kchar =>
      if args == [] || !args[0].Str? then Bad(BadArgument)
      else if |args[0].s| > size then Bad(LongerThanSize)
      else Item(args[0].s + Zeros(size - |args[0].s|), 1)
    case Kstring =>
      if args == [] || !args[0].Str? || |args[0].s| >= SizeT then Bad(BadArgument)
      else if size < 4 && |args[0].s| >= Pow256(size) then Bad(LengthDoesNotFit)
      else Item(PackedInteger(|args[0].s|, size, little, false) + args[0].s, 1)
    case Kzstr =>
      if args == [] || !args[0].Str? then Bad(BadArgument)
      else if HasZero(args[0].s) then Bad(ContainsZeros)
      else Item(args[0].s + [0], 1)
  }

  datatype Got = Got(values: seq<Value>, next: nat) | BadData(error: Error)

  /** The number of bytes before the first zero; there is one after the end of every string. */
  function StrLen(s: seq<byte>): (n: nat)
    ensures n <= |s|
  {
    if s == [] || s[0] == 0 then 0 else 1 + StrLen(s[1..])
  }

  /** What an option reads at a position; its fixed part is known to be there. */
  function UnpackItem(kind: KOption, size: nat, little: bool, data: seq<byte>, pos: nat): (g: Got)
    requires pos + size <= |data|
  {
    match kind
    case Knop => Got([], pos + size)
    case Kpaddalign => Got([], pos + size)
    case Kpadding => Got([], pos + size)
    case Kfloat => BadData(Float)
    case Kint => UnpackInteger(size, little, true, data, pos)
    case Kuint => UnpackInteger(size, little, false, data, pos)
    case Kchar => Got([Str(data[pos..pos + size])], pos + size)
    case Kstring =>
      var n := Int.Unpacked(LittleValue(Int.Ordered(data[pos..pos + size], little)), size, false);
      if n.None? then BadData(DoesNotFit)
      else
        var len := n.value % SizeT;
        if (pos + len + size) % SizeT > |data| then BadData(TooShort)
        else if pos + len + size > |data| then BadData(Overrun)
        else Got([Str(data[pos + size..pos + size + len])], pos + size + len)
    case Kzstr =>
      var len := StrLen(data[pos..]);
      Got([Str(data[pos..pos + len])], pos + len + 1 + size)
  }

  function UnpackInteger(size: nat, little: bool, signed: bool, data: seq<byte>, pos: nat): (g: Got)
    requires pos + size <= |data|
  {
    var n := Int.Unpacked(LittleValue(Int.Ordered(data[pos..pos + size], little)), size, signed);
    if n.None? || !Int.Int64(n.value) then BadData(DoesNotFit) else Got([Integer(n.value)], pos + size)
  }

  // ----- all the options -----

  datatype Packed = Packed(bytes: seq<byte>) | PackError(error: Error)

  /** Packs after what is in the buffer already. */
  function PackFrom(fmt: seq<byte>, h: Settings, b: seq<byte>, args: seq<Value>): Packed
    requires h.maxalign > 0
    decreases |fmt|
  {
    if Peek(fmt) == 0 then Packed(b)
    else
      var d := GetDetails(h, |b|, fmt);
      if d.BadDetails? then PackError(d.error)
      else
        var it := PackItem(d.kind, d.size, d.h.little, args);
        if it.Bad? then PackError(it.error) else PackFrom(d.rest, d.h, b + Zeros(d.pad) + it.bytes, args[it.used..])
  }

  datatype Unpacked = Unpacked(values: seq<Value>, pos: nat) | UnpackError(error: Error)

  function UnpackFrom(fmt: seq<byte>, h: Settings, data: seq<byte>, pos: nat, got: seq<Value>): Unpacked
    requires h.maxalign > 0
    decreases |fmt|
  {
    if Peek(fmt) == 0 then Unpacked(got, pos)
    else
      var d := GetDetails(h, pos, fmt);
      if d.BadDetails? then UnpackError(d.error)
      else if pos + d.pad + d.size > |data| then UnpackError(TooShort)
      else
        var g := UnpackItem(d.kind, d.size, d.h.little, data, pos + d.pad);
        if g.BadData? then UnpackError(g.error) else UnpackFrom(d.rest, d.h, data, g.next, got + g.values)
  }

  // ----- what comes back -----

  predicate TakesArgument(kind: KOption) { kind != Knop && kind != Kpaddalign && kind != Kpadding }

  /** A fixed string comes back with zeros up to its size; everything else as it was. */
  function AsRead(kind: KOption, size: nat, v: Value): Value {
    if kind == Kchar && v.Str? && |v.s| <= size then Str(v.s + Zeros(size - |v.s|)) else v
  }

  /** The values that come back for the arguments of a format. */
  function Results(fmt: seq<byte>, h: Settings, args: seq<Value>): seq<Value>
    requires h.maxalign > 0
    decreases |fmt|
  {
    if Peek(fmt) == 0 then []
    else
      var d := GetDetails(h, 0, fmt);
      if d.BadDetails? then []
      else if TakesArgument(d.kind) && args != [] then [AsRead(d.kind, d.size, args[0])] +
        Results(d.rest, d.h, args[1..])
      else Results(d.rest, d.h, args)
  }

  lemma IntegerTrip(n: int64, size: nat, little: bool, signed: bool)
    requires size > 0 && if signed then Int.InBytes(n, size) else size >= 8 || 0 <= n < Pow256(size)
    ensures var s := PackedInteger(n, size, little, signed);
      |s| == size && Int.Unpacked(LittleValue(Int.Ordered(s, little)), size, signed) == Int.Some(n)
  {
    hide Pow256, Int.InBytes, LittleBytes, LittleValue, Int.Stored, Int.Unpacked;
    var m := Int.Stored(Word(n), size, signed && n < 0);
    Int.OrderedTwice(LittleBytes(m, size), little);
    ValueModulo(m, size);
    Int.StoredUnpacked(n, size, signed);
  }

  lemma {:induction false} ValueModulo(x: nat, n: nat)
    ensures LittleValue(LittleBytes(x, n)) == x % Pow256(n)
  {
    if n > 0 {
      ValueModulo(x / 256, n - 1);
      assert LittleBytes(x, n)[1..] == LittleBytes(x / 256, n - 1);
      hide Pow256, LittleBytes;
      Int.PowerNext(n);
      DivTwice(x, 256, Pow256(n - 1));
    }
  }

  lemma SmallFits(n: int64, size: nat)
    requires size > 0
    ensures size >= 8 ==> Int.InBytes(n, size)
    ensures size < 8 && Word(n) < Pow256(size) ==> 0 <= n < Pow256(size)
  {
    Int.PowerSizes(size);
    hide Pow256;
    if size < 8 { Int.PowerMonotone(size, 7); }
    BelowSeven();
  }

  lemma BelowSeven()
    ensures Pow256(7) <= 0x7FFF_FFFF_FFFF_FFFF
  {
    Int.PowerNext(8);
    Sizes256();
  }

  /** The data has these bytes at a position. */
  ghost predicate HasAt(data: seq<byte>, pos: nat, b: seq<byte>) { pos + |b| <= |data| && data[pos..pos + |b|] == b }

  lemma HasFirst(data: seq<byte>, pos: nat, a: seq<byte>, b: seq<byte>)
    requires HasAt(data, pos, a + b)
    ensures HasAt(data, pos, a) && HasAt(data, pos + |a|, b)
  {
    var s := data[pos..pos + |a + b|];
    assert s[..|a|] == a && s[|a|..] == b;
    assert data[pos..pos + |a|] == s[..|a|] && data[pos + |a|..pos + |a| + |b|] == s[|a|..];
  }

  ghost predicate SizeRight(kind: KOption, size: nat) {
    && (kind == Kint || kind == Kuint || kind == Kstring ==> 1 <= size)
    && (kind == Kpadding ==> size == 1)
    && (kind == Kpaddalign || kind == Knop || kind == Kzstr ==> size == 0)
  }

  /** What an option packed, it reads back. */
  ghost predicate ComesBack(kind: KOption, size: nat, little: bool, args: seq<Value>, data: seq<byte>, pos: nat,
                            it: Item) {
    && it.Item? && it.used <= |args| && |it.bytes| >= size && pos + size <= |data|
    && it.used == (if TakesArgument(kind) then 1 else 0)
    && UnpackItem(kind, size, little, data, pos)
       == Got(if TakesArgument(kind) && args != [] then [AsRead(kind, size, args[0])] else [], pos + |it.bytes|)
  }

  lemma IntTrip(kind: KOption, size: nat, little: bool, args: seq<Value>, data: seq<byte>, pos: nat)
    requires (kind == Kint || kind == Kuint) && size > 0
    requires var it := PackItem(kind, size, little, args); it.Item? && HasAt(data, pos, it.bytes)
    ensures ComesBack(kind, size, little, args, data, pos, PackItem(kind, size, little, args))
  {
    hide PackedInteger, Pow256, Int.InBytes, LittleValue, Int.Unpacked, Int.Ordered, Word;
    var n := args[0].n;
    SmallFits(n, size);
    IntegerTrip(n, size, little, kind == Kint);
  }

  lemma StringTrip(size: nat, little: bool, args: seq<Value>, data: seq<byte>, pos: nat)
    requires size > 0 && |data| < SizeT
    requires var it := PackItem(Kstring, size, little, args); it.Item? && HasAt(data, pos, it.bytes)
    ensures ComesBack(Kstring, size, little, args, data, pos, PackItem(Kstring, size, little, args))
  {
    hide PackedInteger, Pow256, LittleValue, Int.Unpacked, Int.Ordered;
    var s := args[0].s;
    LengthFits(|s|, size);
    IntegerTrip(|s|, size, little, false);
    HasFirst(data, pos, PackedInteger(|s|, size, little, false), s);
  }

  lemma LengthFits(n: nat, size: nat)
    requires size > 0 && n < SizeT && (size < 4 ==> n < Pow256(size))
    ensures size >= 8 || n < Pow256(size)
  {
    Sizes256();
    hide Pow256;
    if 4 <= size { Int.PowerMonotone(4, size); }
  }

  lemma {:induction false} StrLenIs(s: seq<byte>, t: seq<byte>)
    requires !HasZero(s) && |t| > |s| && t[..|s|] == s && t[|s|] == 0
    ensures StrLen(t) == |s|
  {
    if s != [] {
      assert t[0] == s[0] != 0;
      assert forall k :: 0 <= k < |s[1..]| ==> s[1..][k] == s[k + 1];
      assert t[1..][..|s| - 1] == t[..|s|][1..];
      StrLenIs(s[1..], t[1..]);
    }
  }

  lemma ZStringTrip(little: bool, args: seq<Value>, data: seq<byte>, pos: nat)
    requires var it := PackItem(Kzstr, 0, little, args); it.Item? && HasAt(data, pos, it.bytes)
    ensures ComesBack(Kzstr, 0, little, args, data, pos, PackItem(Kzstr, 0, little, args))
  {
    hide HasZero, StrLen;
    var s := args[0].s;
    HasFirst(data, pos, s, [0]);
    var t := data[pos..];
    assert t[..|s|] == s;
    assert t[|s|] == data[pos + |s|] == data[pos + |s|..pos + |s| + 1][0];
    StrLenIs(s, t);
  }

  lemma ItemTrip(kind: KOption, size: nat, little: bool, args: seq<Value>, data: seq<byte>, pos: nat)
    requires SizeRight(kind, size) && |data| < SizeT
    requires var it := PackItem(kind, size, little, args); it.Item? && HasAt(data, pos, it.bytes)
    ensures ComesBack(kind, size, little, args, data, pos, PackItem(kind, size, little, args))
  {
    if kind == Kint || kind == Kuint {
      IntTrip(kind, size, little, args, data, pos);
    } else if kind == Kstring {
      StringTrip(size, little, args, data, pos);
    } else if kind == Kzstr {
      ZStringTrip(little, args, data, pos);
    } else {
      hide PackedInteger, Pow256, LittleValue, Int.Unpacked, Int.Ordered, Int.InBytes, HasZero, StrLen, Word;
    }
  }

  /** Unpacking what was packed gives the values back, and ends where they end, whatever follows. */
  lemma {:induction false} Trip(fmt: seq<byte>, h: Settings, b: seq<byte>, args: seq<Value>, out: seq<byte>,
                                data: seq<byte>, got: seq<Value>)
    requires h.maxalign > 0 && PackFrom(fmt, h, b, args) == Packed(out) && out <= data && |data| < SizeT
    ensures b <= out
    ensures UnpackFrom(fmt, h, data, |b|, got) == Unpacked(got + Results(fmt, h, args), |out|)
    decreases |fmt|
  {
    hide PackItem, UnpackItem, GetDetails, Zeros, AsRead, TakesArgument;
    if Peek(fmt) == 0 {
      assert got + [] == got;
    } else {
      var d := GetDetails(h, |b|, fmt);
      DetailsAnywhere(h, |b|, fmt);
      DetailsSize(h, |b|, fmt);
      var it := PackItem(d.kind, d.size, d.h.little, args);
      var b' := b + Zeros(d.pad) + it.bytes;
      var pos := |b| + d.pad;
      UsedEnough(d.kind, d.size, d.h.little, args);
      var vals := if TakesArgument(d.kind) && args != [] then [AsRead(d.kind, d.size, args[0])] else [];
      Trip(d.rest, d.h, b', args[it.used..], out, data, got + vals);
      assert HasAt(data, pos, it.bytes) by { Within(b + Zeros(d.pad), it.bytes, out, data); }
      ItemTrip(d.kind, d.size, d.h.little, args, data, pos);
      assert got + vals + Results(d.rest, d.h, args[it.used..]) == got + (vals + Results(d.rest, d.h, args[it.used..]));
      StepBack(d.kind, d.size, d.h.little, args, data, pos, it);
      assert args[0..] == args;
      ResultsStep(fmt, h, args, it.used);
    }
  }

  lemma Within(a: seq<byte>, b: seq<byte>, out: seq<byte>, data: seq<byte>)
    requires a + b <= out <= data
    ensures HasAt(data, |a|, b)
  {
    assert data[..|a + b|] == a + b;
    assert data[|a|..|a| + |b|] == (a + b)[|a|..];
  }

  lemma UsedEnough(kind: KOption, size: nat, little: bool, args: seq<Value>)
    ensures var it := PackItem(kind, size, little, args); it.Item? ==> it.used == if TakesArgument(kind) &&
            args != [] then 1 else 0
  {
    hide PackedInteger, Pow256, Int.InBytes, HasZero, Word;
  }

  lemma StepBack(kind: KOption, size: nat, little: bool, args: seq<Value>, data: seq<byte>, pos: nat, it: Item)
    requires ComesBack(kind, size, little, args, data, pos, it)
    ensures pos + size <= |data| && UnpackItem(kind, size, little, data, pos)
       == Got(if TakesArgument(kind) && args != [] then [AsRead(kind, size, args[0])] else [], pos + |it.bytes|)
  {}

  lemma ResultsStep(fmt: seq<byte>, h: Settings, args: seq<Value>, used: nat)
    requires h.maxalign > 0 && Peek(fmt) != 0
    requires var d := GetDetails(h, 0, fmt);
             d.Details? &&
             used == (if TakesArgument(d.kind) && args != [] then 1 else 0)
    ensures var d := GetDetails(h, 0, fmt);
      used <= |args| && Results(fmt, h, args)
      == (if TakesArgument(d.kind) && args != [] then [AsRead(d.kind, d.size, args[0])] else []) +
        Results(d.rest, d.h, args[used..])
  {
    hide GetDetails, AsRead, TakesArgument;
    assert args[0..] == args;
  }

  /** What was packed is unpacked again, whatever follows it, and reading stops where it ends. */
  lemma RoundTrip(fmt: seq<byte>, args: seq<Value>, out: seq<byte>, rest: seq<byte>)
    requires PackFrom(fmt, InitialSettings, [], args) == Packed(out) && |out + rest| < SizeT
    ensures UnpackFrom(fmt, InitialSettings, out + rest, 0, []) == Unpacked(Results(fmt, InitialSettings, args), |out|)
  {
    Trip(fmt, InitialSettings, [], args, out, out + rest, []);
    assert [] + Results(fmt, InitialSettings, args) == Results(fmt, InitialSettings, args);
  }

  // ----- the size of a format -----

  datatype Size = Size(n: nat) | NoSize(error: Error)

  function SizeFrom(fmt: seq<byte>, h: Settings, total: nat): Size
    requires h.maxalign > 0
    decreases |fmt|
  {
    if Peek(fmt) == 0 then Size(total)
    else
      var d := GetDetails(h, total, fmt);
      if d.BadDetails? then NoSize(d.error)
      else if total + d.size + d.pad > MaxSize then NoSize(TooLarge)
      else if d.kind == Kstring || d.kind == Kzstr then NoSize(VariableLength)
      else SizeFrom(d.rest, d.h, total + d.size + d.pad)
  }

  /** If a format has a size, everything that it packs is exactly as long. */
  lemma {:induction false} SizeExact(fmt: seq<byte>, h: Settings, b: seq<byte>, args: seq<Value>)
    requires h.maxalign > 0 && SizeFrom(fmt, h, |b|).Size?
    ensures var p := PackFrom(fmt, h, b, args); p.Packed? ==> |p.bytes| == SizeFrom(fmt, h, |b|).n
    decreases |fmt|
  {
    hide PackItem, GetDetails;
    if Peek(fmt) != 0 {
      var d := GetDetails(h, |b|, fmt);
      DetailsSize(h, |b|, fmt);
      var it := PackItem(d.kind, d.size, d.h.little, args);
      if it.Item? {
        ItemSize(d.kind, d.size, d.h.little, args);
        SizeExact(d.rest, d.h, b + Zeros(d.pad) + it.bytes, args[it.used..]);
      }
    }
  }

  lemma ItemSize(kind: KOption, size: nat, little: bool, args: seq<Value>)
    requires SizeRight(kind, size) && kind != Kstring && kind != Kzstr
    ensures var it := PackItem(kind, size, little, args); it.Item? ==> |it.bytes| == size
  {
    hide Pow256, Int.InBytes, HasZero, Word, LittleBytes;
  }

  // ----- the functions of the library -----

  /** Does the range of a signed integer of fewer than 8 bytes hold this one? */
  lemma LimitIs(size: nat, n: int)
    requires 0 < size
    ensures var lim := Pow2(size * 8 - 1); 0 - lim <= n < lim <==> Int.InBytes(n, size)
    ensures Pow2(size * 8) == Pow256(size)
  {
    Int.Pow256Pow2(size);
    Int.Pow2Twice(size * 8 - 1);
    hide Pow2, Pow256;
  }

  /** Packs one option: checks the argument, and makes the bytes. */
  method PackOption(opt: KOption, size: nat, little: bool, args: seq<Value>) returns (it: Item)
    requires SizeRight(opt, size) && (opt == Kint || opt == Kuint || opt == Kstring ==> size <= MaxIntSize)
    ensures it == PackItem(opt, size, little, args) && (it.Item? ==> it.used <= |args|)
  {
    hide Pow2, Pow256, LittleBytes, Int.Ordered, Int.InBytes, HasZero, Int.Stored, Zeros, Word;
    if opt == Knop || opt == Kpaddalign {
      return Item([], 0);
    }
    if opt == Kpadding {
      return Item([0], 0);
    }
    if opt == Kfloat {
      return Bad(Float);
    }
    if opt == Kint || opt == Kuint {
      it := PackNumber(opt == Kint, size, little, args);
      return;
    }
    if args == [] || !args[0].Str? {
      return Bad(BadArgument);
    }
    var s := args[0].s;
    if opt == Kchar {
      if |s| > size {
        return Bad(LongerThanSize);
      }
      var b := s;
      var len := |s|;
      ZerosNone();
      while len < size
        invariant |s| <= len <= size && b == s + Zeros(len - |s|)
      {
        ZerosNext(len - |s|);
        b := b + [0];
        len := len + 1;
      }
      return Item(b, 1);
    }
    if opt == Kstring {
      if |s| >= SizeT {
        return Bad(BadArgument);
      }
      LimitIs(size, 0);
      if size < 4 && |s| >= Pow2(size * 8) {
        return Bad(LengthDoesNotFit);
      }
      WordBelow(|s|);
      var b := Int.Pack(|s|, little, size, false);
      return Item(b + s, 1);
    }
    var i := 0;
    while i < |s|
      invariant i <= |s| && forall k :: 0 <= k < i ==> s[k] != 0
    {
      if s[i] == 0 {
        ZeroAt(s, i);
        return Bad(ContainsZeros);
      }
      i := i + 1;
    }
    ZeroNowhere(s);
    return Item(s + [0], 1);
  }

  /** Packs an integer, if it fits. */
  method PackNumber(signed: bool, size: nat, little: bool, args: seq<Value>) returns (it: Item)
    requires 1 <= size <= MaxIntSize
    ensures it == PackItem(if signed then Kint else Kuint, size, little, args) && (it.Item? ==> it.used <= |args|)
  {
    hide Pow2, Pow256, LittleBytes, Int.Ordered, Int.InBytes, Int.Stored, Word;
    if args == [] || !args[0].Integer? {
      return Bad(BadArgument);
    }
    var n := args[0].n;
    WordBelow(n);
    LimitIs(size, n);
    if size < 8 {
      if signed {
        var lim := Pow2(size * 8 - 1);
        if !(0 - lim <= n < lim) {
          return Bad(IntegerOverflow);
        }
      } else if Word(n) >= Pow2(size * 8) {
        return Bad(UnsignedOverflow);
      }
    }
    var b := Int.Pack(Word(n), little, size, signed && n < 0);
    it := Item(b, 1);
  }

  lemma WordBelow(n: int)
    ensures Word(n) < D && (0 <= n < D ==> Word(n) == n)
  {}

  lemma ZerosNone()
    ensures Zeros(0) == []
  {}

  lemma ZerosNext(n: nat)
    ensures Zeros(n + 1) == Zeros(n) + [0]
  {}

  lemma ZeroAt(s: seq<byte>, i: nat)
    requires i < |s| && s[i] == 0
    ensures HasZero(s)
  {}

  lemma ZeroNowhere(s: seq<byte>)
    requires forall k :: 0 <= k < |s| ==> s[k] != 0
    ensures !HasZero(s)
  {}

  ghost function AsPacked(r: Result<seq<byte>>): Packed {
    match r
    case Ok(b) => Packed(b)
    case Failed(e) => PackError(e)
  }

  lemma KindSize(h: Settings, total: nat, fmt: seq<byte>)
    requires fmt != [] && h.maxalign > 0
    ensures var d := GetDetails(h, total, fmt); d.Details? ==>
      SizeRight(d.kind, d.size) && (d.kind == Kint || d.kind == Kuint || d.kind == Kstring ==> d.size <= MaxIntSize)
  {
    hide GetDetails;
    DetailsSize(h, total, fmt);
  }

  /** What the next option adds, and how many arguments it takes. */
  ghost function Step(fmt: seq<byte>, h: Settings, b: seq<byte>, args: seq<Value>): Result<(seq<byte>, nat)>
    requires h.maxalign > 0 && fmt != []
  {
    var d := GetDetails(h, |b|, fmt);
    if d.BadDetails? then Failed(d.error)
    else
      var it := PackItem(d.kind, d.size, d.h.little, args);
      if it.Bad? then Failed(it.error) else Ok((b + Zeros(d.pad) + it.bytes, it.used))
  }

  lemma PackStep(fmt: seq<byte>, h: Settings, b: seq<byte>, args: seq<Value>)
    requires h.maxalign > 0 && Peek(fmt) != 0
    ensures var s := Step(fmt, h, b, args);
      if s.Failed? then PackFrom(fmt, h, b, args) == PackError(s.error)
      else
        s.value.1 <= |args| && forall rest, h' :: Follows(GetDetails(h, |b|, fmt), rest, h') && h'.maxalign > 0 ==>
          PackFrom(fmt, h, b, args) == PackFrom(rest, h', s.value.0, args[s.value.1..])
  {
    hide GetDetails, PackItem, Zeros;
    UsedWithin(GetDetails(h, |b|, fmt), args);
  }

  lemma UsedWithin(d: Details, args: seq<Value>)
    ensures d.Details? ==> var it := PackItem(d.kind, d.size, d.h.little, args); it.Item? ==> it.used <= |args|
  {}

  /** Fills with zeros up to an alignment. */
  method AddPadding(b: seq<byte>, n: nat) returns (r: seq<byte>)
    ensures r == b + Zeros(n)
  {
    hide Zeros;
    r := b;
    ZerosNone();
    var i := 0;
    while i < n
      invariant i <= n && r == b + Zeros(i)
    {
      ZerosNext(i);
      r := r + [0];
      i := i + 1;
    }
  }

  /** Reads one option of the format and packs it; the new total size goes with the buffer. */
  method PackNext(h: Header, total: nat, b: seq<byte>, args: seq<Value>)
        returns (r: Result<(seq<byte>, nat)>, totalsize: nat)
    requires h.Valid() && h.at < |h.fmt| && total == |b|
    modifies h
    ensures h.Valid() && h.at > old(h.at) && r == Step(old(h.Rest()), old(h.Now()), b, args)
    ensures r.Ok? ==>
            Follows(GetDetails(old(h.Now()), |b|, old(h.Rest())), h.Rest(), h.Now()) && totalsize == |r.value.0|
  {
    hide PackItem, GetDetails, Zeros;
    KindSize(h.Now(), |b|, h.Rest());
    totalsize := total;
    var d := h.ReadDetails(total);
    if d.Failed? {
      return Failed(d.error), totalsize;
    }
    var (opt, size, ntoalign) := d.value;
    totalsize := totalsize + ntoalign + size;
    var c := AddPadding(b, ntoalign);
    var it := PackOption(opt, size, h.little, args);
    ExtraLength(opt, size, h.little, args);
    if it.Bad? {
      return Failed(it.error), totalsize;
    }
    r := Ok((c + it.bytes, it.used));
    if opt == Kstring {
      totalsize := totalsize + (|it.bytes| - size);
    } else if opt == Kzstr {
      totalsize := totalsize + |it.bytes|;
    }
  }

  ghost predicate Follows(d: Details, rest: seq<byte>, h: Settings) { d.Details? && rest == d.rest && h == d.h }

  lemma ExtraLength(kind: KOption, size: nat, little: bool, args: seq<Value>)
    requires SizeRight(kind, size)
    ensures var it := PackItem(kind, size, little, args);
      it.Item? ==> |it.bytes| >= size && (kind != Kstring && kind != Kzstr ==> |it.bytes| == size)
  {
    hide Pow256, Int.InBytes, HasZero, Word, LittleBytes;
  }

  /** Packs option after option. */
  method PackAll(fmt: seq<byte>, args: seq<Value>) returns (r: Result<seq<byte>>)
    ensures AsPacked(r) == PackFrom(fmt, InitialSettings, [], args)
  {
    hide GetDetails, Peek, PackFrom, Step, Follows;
    var h := new Header(fmt);
    var b: seq<byte> := [];
    var arg: nat, totalsize: nat := 0, 0;
    assert args[0..] == args;
    while h.Current() != 0
      invariant h.Valid() && fresh(h) && arg <= |args| && totalsize == |b| && h.fmt == fmt
      invariant PackFrom(h.Rest(), h.Now(), b, args[arg..]) == PackFrom(fmt, InitialSettings, [], args)
      decreases |fmt| - h.at
    {
      NotAtEnd(h.Rest());
      PackStep(h.Rest(), h.Now(), b, args[arg..]);
      var next;
      next, totalsize := PackNext(h, totalsize, b, args[arg..]);
      if next.Failed? {
        return Failed(next.error);
      }
      assert args[arg..][next.value.1..] == args[arg + next.value.1..];
      b := next.value.0;
      arg := arg + next.value.1;
    }
    AtEnd(h.Rest(), h.Now(), b, args[arg..]);
    r := Ok(b);
  }

  method StrPack(fmt: seq<byte>, args: seq<Value>) returns (r: Result<seq<byte>>)
    ensures AsPacked(r) == PackFrom(fmt, InitialSettings, [], args)
    ensures r.Ok? ==> forall rest :: |r.value + rest| < SizeT ==>
      UnpackFrom(fmt, InitialSettings, r.value + rest, 0, []) == Unpacked(Results(fmt, InitialSettings, args),
        |r.value|)
  {
    hide PackFrom, UnpackFrom, Results;
    r := PackAll(fmt, args);
    if r.Ok? {
      var b := r.value;
      forall rest | |b + rest| < SizeT
        ensures UnpackFrom(fmt, InitialSettings, b + rest, 0, []) == Unpacked(Results(fmt, InitialSettings, args), |b|)
      {
        RoundTrip(fmt, args, b, rest);
      }
    }
  }

  lemma NotAtEnd(fmt: seq<byte>)
    ensures Peek(fmt) != 0 ==> fmt != []
  {}

  lemma AtEnd(fmt: seq<byte>, h: Settings, b: seq<byte>, args: seq<Value>)
    requires h.maxalign > 0 && Peek(fmt) == 0
    ensures PackFrom(fmt, h, b, args) == Packed(b)
  {}

  /** Reads one option at a position. */
  method UnpackOption(opt: KOption, size: nat, little: bool, data: seq<byte>, pos: nat) returns (g: Got)
    requires pos + size <= |data| && SizeRight(opt, size) &&
             (opt == Kint || opt == Kuint || opt == Kstring ==> size <= MaxIntSize)
    ensures g == UnpackItem(opt, size, little, data, pos)
  {
    hide LittleValue, Int.Ordered, Int.Unpacked, StrLen;
    if opt == Kint || opt == Kuint {
      var n := Int.Unpack(data[pos..pos + size], little, size, opt == Kint);
      return if n.None? || !Int.Int64(n.value) then BadData(DoesNotFit) else Got([Integer(n.value)], pos + size);
    }
    if opt == Kfloat {
      return BadData(Float);
    }
    if opt == Kchar {
      return Got([Str(data[pos..pos + size])], pos + size);
    }
    if opt == Kstring {
      var n := Int.Unpack(data[pos..pos + size], little, size, false);
      if n.None? {
        return BadData(DoesNotFit);
      }
      var len := n.value % SizeT;
      if (pos + len + size) % SizeT > |data| {
        return BadData(TooShort);
      }
      if pos + len + size > |data| {
        return BadData(Overrun);
      }
      return Got([Str(data[pos + size..pos + size + len])], pos + size + len);
    }
    if opt == Kzstr {
      var len := CountToZero(data, pos);
      return Got([Str(data[pos..pos + len])], pos + len + 1 + size);
    }
    g := Got([], pos + size);
  }

  method CountToZero(data: seq<byte>, pos: nat) returns (len: nat)
    requires pos <= |data|
    ensures len == StrLen(data[pos..])
  {
    hide StrLen;
    len := 0;
    while pos + len < |data| && data[pos + len] != 0
      invariant pos + len <= |data| && StrLen(data[pos..]) == len + StrLen(data[pos + len..])
    {
      StrLenNext(data, pos + len);
      len := len + 1;
    }
    StrLenStop(data, pos + len);
  }

  lemma StrLenNext(data: seq<byte>, p: nat)
    requires p < |data| && data[p] != 0
    ensures StrLen(data[p..]) == 1 + StrLen(data[p + 1..])
  {
    assert data[p..][1..] == data[p + 1..];
  }

  lemma StrLenStop(data: seq<byte>, p: nat)
    requires p <= |data| && (p < |data| ==> data[p] == 0)
    ensures StrLen(data[p..]) == 0
  {}

  /** An initial position; a negative one counts from the end. */
  function PosRelat(pos: int, len: nat): int { if pos >= 0 then pos else if -pos > len then 0 else len + pos + 1 }

  ghost function AsUnpacked(r: Result<(seq<Value>, nat)>): Unpacked {
    match r
    case Ok((vs, p)) => Unpacked(vs, if p > 0 then p - 1 else 0)
    case Failed(e) => UnpackError(e)
  }

  /** Gives the values, and the position after the last one. */
  method StrUnpack(fmt: seq<byte>, data: seq<byte>, init: int) returns (r: Result<(seq<Value>, nat)>)
    ensures r.Ok? ==> r.value.1 > 0
    ensures var pos := PosRelat(init, |data|) - 1;
      AsUnpacked(r) == if 0 <= pos <= |data| then UnpackFrom(fmt, InitialSettings, data, pos, [])
        else UnpackError(OutOfString)
  {
    hide GetDetails, Peek, UnpackFrom, UnpackStep, Follows;
    var start := PosRelat(init, |data|) - 1;
    if start < 0 || start > |data| {
      return Failed(OutOfString);
    }
    var pos: nat := start;
    var h := new Header(fmt);
    var values: seq<Value> := [];
    while h.Current() != 0
      invariant h.Valid() && fresh(h) && h.fmt == fmt
      invariant UnpackFrom(h.Rest(), h.Now(), data, pos, values) == UnpackFrom(fmt, InitialSettings, data, start, [])
      decreases |fmt| - h.at
    {
      NotAtEnd(h.Rest());
      UnpackStepIs(h.Rest(), h.Now(), data, pos, values);
      var g := UnpackNext(h, data, pos);
      if g.BadData? {
        return Failed(g.error);
      }
      values := values + g.values;
      pos := g.next;
    }
    UnpackEnd(h.Rest(), h.Now(), data, pos, values);
    r := Ok((values, pos + 1));
  }

  /** What the next option reads, and where the one after it begins. */
  ghost function UnpackStep(fmt: seq<byte>, h: Settings, data: seq<byte>, pos: nat): Got
    requires h.maxalign > 0 && fmt != []
  {
    var d := GetDetails(h, pos, fmt);
    if d.BadDetails? then BadData(d.error)
    else if pos + d.pad + d.size > |data| then BadData(TooShort)
    else UnpackItem(d.kind, d.size, d.h.little, data, pos + d.pad)
  }

  lemma UnpackStepIs(fmt: seq<byte>, h: Settings, data: seq<byte>, pos: nat, got: seq<Value>)
    requires h.maxalign > 0 && Peek(fmt) != 0
    ensures var g := UnpackStep(fmt, h, data, pos);
      if g.BadData? then UnpackFrom(fmt, h, data, pos, got) == UnpackError(g.error)
      else
        forall rest, h' :: Follows(GetDetails(h, pos, fmt), rest, h') && h'.maxalign > 0 ==>
          UnpackFrom(fmt, h, data, pos, got) == UnpackFrom(rest, h', data, g.next, got + g.values)
  {
    hide GetDetails, UnpackItem;
  }

  lemma UnpackEnd(fmt: seq<byte>, h: Settings, data: seq<byte>, pos: nat, got: seq<Value>)
    requires h.maxalign > 0 && Peek(fmt) == 0
    ensures UnpackFrom(fmt, h, data, pos, got) == Unpacked(got, pos)
  {}

  /** Reads one option of the format, and its value. */
  method UnpackNext(h: Header, data: seq<byte>, start: nat) returns (g: Got)
    requires h.Valid() && h.at < |h.fmt|
    modifies h
    ensures h.Valid() && h.at > old(h.at) && g == UnpackStep(old(h.Rest()), old(h.Now()), data, start)
    ensures g.Got? ==> Follows(GetDetails(old(h.Now()), start, old(h.Rest())), h.Rest(), h.Now())
  {
    hide UnpackItem, GetDetails;
    KindSize(h.Now(), start, h.Rest());
    var pos := start;
    var d := h.ReadDetails(pos);
    if d.Failed? {
      return BadData(d.error);
    }
    var (opt, size, ntoalign) := d.value;
    if pos + ntoalign + size > |data| {
      return BadData(TooShort);
    }
    pos := pos + ntoalign;
    g := UnpackOption(opt, size, h.little, data, pos);
  }

  method StrPackSize(fmt: seq<byte>) returns (r: Result<nat>)
    ensures var s := SizeFrom(fmt, InitialSettings, 0); if r.Ok? then s == Size(r.value) else s == NoSize(r.error)
    ensures r.Ok? ==> forall args :: PackFrom(fmt, InitialSettings, [], args).Packed? ==>
      |PackFrom(fmt, InitialSettings, [], args).bytes| == r.value
  {
    hide GetDetails, Peek, PackFrom;
    var h := new Header(fmt);
    var totalsize := 0;
    while h.Current() != 0
      invariant h.Valid() && fresh(h) && h.fmt == fmt
      invariant SizeFrom(h.Rest(), h.Now(), totalsize) == SizeFrom(fmt, InitialSettings, 0)
      decreases |fmt| - h.at
    {
      NotAtEnd(h.Rest());
      var d := h.ReadDetails(totalsize);
      if d.Failed? {
        return Failed(d.error);
      }
      var (opt, size, ntoalign) := d.value;
      size := size + ntoalign;
      if totalsize + size > MaxSize {
        return Failed(TooLarge);
      }
      totalsize := totalsize + size;
      if opt == Kstring || opt == Kzstr {
        return Failed(VariableLength);
      }
    }
    forall args | PackFrom(fmt, InitialSettings, [], args).Packed?
      ensures |PackFrom(fmt, InitialSettings, [], args).bytes| == totalsize
    {
      SizeExact(fmt, InitialSettings, [], args);
    }
    r := Ok(totalsize);
  }
}
