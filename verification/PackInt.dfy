/** Integers packed into a given number of bytes, in either order. */
module PackInt {
  import opened Bytes
  import opened Endian
  import opened Powers
  import opened WordArith

  datatype Option<T> = None | Some(value: T)

  /** Where the byte number `k`, counted from the lowest, is kept. */
  function At(k: int, size: nat, little: bool): int { if little then k else size - 1 - k }

  function Ordered(s: seq<byte>, little: bool): (t: seq<byte>)
    ensures |t| == |s| && forall k :: 0 <= k < |s| ==> t[k] == s[At(k, |s|, little)]
  {
    if little then s else seq(|s|, k requires 0 <= k < |s| => s[|s| - 1 - k])
  }

  lemma OrderedTwice(s: seq<byte>, little: bool)
    ensures Ordered(Ordered(s, little), little) == s
  {}

  lemma OrderedIs(s: seq<byte>, t: seq<byte>, little: bool)
    requires |s| == |t| && forall k :: 0 <= k < |s| ==> s[At(k, |s|, little)] == t[k]
    ensures s == Ordered(t, little)
  {
    forall k | 0 <= k < |s| ensures s[k] == Ordered(t, little)[k] {
      var j := At(k, |s|, little);
      assert s[At(j, |s|, little)] == t[j];
    }
  }

  /** A number without its `k` lowest bytes. */
  ghost function Shifted(x: nat, k: nat): nat { if k == 0 then x else Shifted(x, k - 1) / 256 }

  lemma {:induction false} ShiftedNext(x: nat, k: nat)
    ensures Shifted(x / 256, k) == Shifted(x, k + 1)
  {
    if k > 0 { ShiftedNext(x, k - 1); }
  }

  lemma {:induction false} ByteAt(x: nat, n: nat, k: nat)
    requires k < n
    ensures LittleBytes(x, n)[k] == Shifted(x, k) % 256
  {
    if k > 0 {
      ByteAt(x / 256, n - 1, k - 1);
      ShiftedNext(x, k - 1);
    }
  }

  // ----- packing -----

  /** The number that the bytes of a packed integer make: `n` is a word of 64 bits; a negative integer keeps its
      sign. */
  function Stored(n: nat, size: nat, neg: bool): nat
    requires n < D
  {
    if neg && size > 8 then Above8(size); n + Pow256(size) - D else n
  }

  lemma Above8(size: nat)
    requires size >= 8
    ensures Pow256(size) >= D && Pow256(size) == D * Pow256(size - 8)
  {
    Pow256Sum(8, size - 8);
    Sizes256();
    assert D * Pow256(size - 8) >= D;
  }

  lemma {:induction false} Pow256Sum(a: nat, b: nat)
    ensures Pow256(a + b) == Pow256(a) * Pow256(b)
  {
    if a > 0 { Pow256Sum(a - 1, b); }
  }

  /** The bytes of a negative integer above the eighth are all ones. */
  lemma {:induction false} SignBytes(n: nat, size: nat, m: nat)
    requires m <= size && n < Pow256(m)
    ensures n + Pow256(size) >= Pow256(m)
    ensures LittleBytes(n + Pow256(size) - Pow256(m), size) == LittleBytes(n, size)[..m] +
            LittleBytes(Pow256(size - m) - 1, size - m)
  {
    hide LittleBytes, Pow256;
    PowerMonotone(m, size);
    if m > 0 {
      PowerNext(m);
      PowerNext(size);
      SignBytes(n / 256, size - 1, m - 1);
      var x := n + Pow256(size) - Pow256(m);
      assert x % 256 == n % 256 && x / 256 == n / 256 + Pow256(size - 1) - Pow256(m - 1);
      BytesFirst(x, size);
      BytesFirst(n, size);
    } else {
      assert LittleBytes(n, size)[..0] == [];
      PowerZero();
    }
  }

  lemma PowerZero()
    ensures Pow256(0) == 1
  {}

  lemma BytesFirst(x: nat, n: nat)
    requires n > 0
    ensures LittleBytes(x, n) == [x % 256] + LittleBytes(x / 256, n - 1)
  {}

  ghost predicate AllAre(s: seq<byte>, b: byte) { forall k :: 0 <= k < |s| ==> s[k] == b }

  lemma {:induction false} AllOnes(n: nat)
    ensures AllAre(LittleBytes(Pow256(n) - 1, n), 255)
  {
    if n > 0 {
      AllOnes(n - 1);
      assert (Pow256(n) - 1) % 256 == 255 && (Pow256(n) - 1) / 256 == Pow256(n - 1) - 1;
      assert LittleBytes(Pow256(n) - 1, n) == [255] + LittleBytes(Pow256(n - 1) - 1, n - 1);
    }
  }

  /** The byte number `k` of a packed integer. */
  ghost function StoredByte(n: nat, size: nat, neg: bool, k: nat): byte {
    if neg && size > 8 && k >= 8 then 255 else Shifted(n, k) % 256
  }

  /** The bytes from number `from` up to number `to` are in place. */
  ghost predicate Filled(s: seq<byte>, n: nat, little: bool, neg: bool, from: nat, to: nat) {
    to <= |s| && forall k :: from <= k < to ==> s[At(k, |s|, little)] == StoredByte(n, |s|, neg, k)
  }

  lemma FillNext(s: seq<byte>, n: nat, little: bool, neg: bool, to: nat, b: byte)
    requires to < |s|
    ensures Filled(s, n, little, neg, 0, to) && b == StoredByte(n, |s|, neg, to)
        ==> Filled(s[At(to, |s|, little) := b], n, little, neg, 0, to + 1)
  {
    hide StoredByte;
  }

  /** Packs a word into a buffer. */
  method Pack(n: nat, little: bool, size: nat, neg: bool) returns (s: seq<byte>)
    requires n < D && 1 <= size <= 16
    ensures s == Ordered(LittleBytes(Stored(n, size, neg), size), little)
  {
    hide Pow256, LittleBytes, Ordered, Filled, StoredByte;
    var buff := new byte[size](_ => 0);
    var m := n;
    FillStart(buff[..], n, little);
    FillNext(buff[..], n, little, false, 0, m % 256);
    PlainByte(n, size, 0);
    buff[At(0, size, little)] := m % 256;
    var i := 1;
    while i < size
      invariant 1 <= i <= size && Shifted(n, i - 1) == m && |buff[..]| == size
      invariant Filled(buff[..], n, little, false, 0, i)
    {
      m := m / 256;
      FillNext(buff[..], n, little, false, i, m % 256);
      PlainByte(n, size, i);
      buff[At(i, size, little)] := m % 256;
      i := i + 1;
    }
    FillSigned(buff[..], n, little, neg);
    if neg && size > 8 {
      i := 8;
      while i < size
        invariant 8 <= i <= size && |buff[..]| == size
        invariant Filled(buff[..], n, little, true, 0, i)
      {
        SignByte(n, size, i);
        FillNext(buff[..], n, little, true, i, 255);
        buff[At(i, size, little)] := 255;
        i := i + 1;
      }
    }
    s := buff[..];
    FillDone(s, n, little, neg);
  }

  lemma FillStart(s: seq<byte>, n: nat, little: bool)
    ensures Filled(s, n, little, false, 0, 0)
  {}

  lemma PlainByte(n: nat, size: nat, k: nat)
    ensures StoredByte(n, size, false, k) == Shifted(n, k) % 256
  {}

  lemma SignByte(n: nat, size: nat, k: nat)
    requires size > 8 && k >= 8
    ensures StoredByte(n, size, true, k) == 255
  {}

  lemma FillSigned(s: seq<byte>, n: nat, little: bool, neg: bool)
    requires Filled(s, n, little, false, 0, |s|)
    ensures if neg && |s| > 8 then Filled(s, n, little, true, 0, 8) else Filled(s, n, little, neg, 0, |s|)
  {}

  lemma FillDone(s: seq<byte>, n: nat, little: bool, neg: bool)
    requires n < D && |s| >= 1 && Filled(s, n, little, neg, 0, |s|)
    ensures s == Ordered(LittleBytes(Stored(n, |s|, neg), |s|), little)
  {
    hide Pow256, LittleBytes, Ordered, Stored, StoredByte;
    StoredBytes(n, |s|, neg);
    OrderedIs(s, LittleBytes(Stored(n, |s|, neg), |s|), little);
  }

  lemma StoredBytes(n: nat, size: nat, neg: bool)
    requires n < D && 1 <= size
    ensures forall k :: 0 <= k < size ==> LittleBytes(Stored(n, size, neg), size)[k] == StoredByte(n, size, neg, k)
  {
    hide Pow256, LittleBytes;
    Sizes256();
    forall k | 0 <= k < size ensures LittleBytes(n, size)[k] == Shifted(n, k) % 256 {
      ByteAt(n, size, k);
    }
    if neg && size > 8 {
      SignBytes(n, size, 8);
      AllOnes(size - 8);
    }
  }

  // ----- unpacking -----

  /** The integer of 64 bits that a number of `size` bytes stands for, if there is one. */
  function Unpacked(v: nat, size: nat, signed: bool): Option<int>
    requires v < Pow256(size)
  {
    if signed then
      if size <= 8 then Some(if 2 * v >= Pow256(size) then v - Pow256(size) else v)
      else if v < 0x8000_0000_0000_0000 then Some(v)
      else if v >= Pow256(size) - 0x8000_0000_0000_0000 then Some(v - Pow256(size))
      else None
    else if v < D then Some(Signed(v)) else None
  }

  predicate Int64(n: int) { -0x8000_0000_0000_0000 <= n < 0x8000_0000_0000_0000 }

  /** The integer is in the range of so many bytes in two's complement. */
  predicate InBytes(n: int, size: nat) { 0 - Pow256(size) <= 2 * n < Pow256(size) }

  /** A signed integer is the only one in the range of `size` bytes, and of 64 bits, that is the number of the bytes
      modulo 256^size. */
  lemma UnpackedSigned(v: nat, size: nat, n: int)
    requires v < Pow256(size) && size > 0
    ensures Unpacked(v, size, true) == Some(n) <==> n % Pow256(size) == v && Int64(n) && InBytes(n, size)
  {
    var p := Pow256(size);
    PowerSizes(size);
    hide Pow256;
    Halves(n, p);
    if v > 0 { Halves(v - p, p); }
    Halves(v, p);
  }

  lemma PowerSizes(size: nat)
    requires size > 0
    ensures Pow256(size) % 2 == 0
    ensures size <= 8 ==> Pow256(size) * Pow256(8 - size) == D && Pow256(size) <= D
    ensures size >= 8 ==> Pow256(size) == D * Pow256(size - 8) && Pow256(size) >= D
    ensures size > 8 ==> Pow256(size) >= 2 * D
  {
    Sizes256();
    Half(size);
    hide Pow256;
    if size <= 8 {
      Pow256Sum(size, 8 - size);
      MulBound(Pow256(size), Pow256(8 - size));
    }
    if size >= 8 {
      Above8(size);
      if size > 8 {
        Half(size - 8);
        MulLess(1, Pow256(size - 8), D);
        assert D * Pow256(size - 8) == Pow256(size - 8) * D;
      }
    }
  }

  lemma MulBound(a: nat, b: nat)
    requires b >= 1
    ensures a <= a * b
  {}

  lemma Half(size: nat)
    requires size > 0
    ensures Pow256(size) % 2 == 0
  {}

  lemma Halves(n: int, p: nat)
    requires p > 0
    ensures 0 <= 2 * n < p ==> n % p == n
    ensures 0 - p <= 2 * n < 0 ==> n % p == n + p
  {
    if 0 <= 2 * n < p { Unique(n, p, 0, n); }
    if 0 - p <= 2 * n < 0 { Unique(n, p, -1, n + p); }
  }

  /** Packing an integer that fits and unpacking it gives it back. */
  lemma StoredUnpacked(n: int, size: nat, signed: bool)
    requires Int64(n) && size > 0
    requires if signed then InBytes(n, size) else size >= 8 || 0 <= n < Pow256(size)
    ensures Unpacked(Stored(Word(n), size, signed && n < 0) % Pow256(size), size, signed) == Some(n)
  {
    var p := Pow256(size);
    if signed {
      hide InBytes, Int64, Word, Stored, Pow256;
      StoredSigned(n, size);
      UnpackedSigned(n % p, size, n);
    } else {
      PowerSizes(size);
      hide Pow256;
      WordSigned(n);
      SmallMod(Word(n), p);
    }
  }

  lemma WordSigned(n: int)
    requires Int64(n)
    ensures Signed(Word(n)) == n && Word(n) == if n < 0 then n + D else n
  {}

  lemma SmallMod(x: nat, p: nat)
    requires x < p
    ensures x % p == x
  {}

  lemma StoredSigned(n: int, size: nat)
    requires Int64(n) && size > 0
    ensures Stored(Word(n), size, n < 0) % Pow256(size) == n % Pow256(size)
  {
    var p := Pow256(size);
    PowerSizes(size);
    WordSigned(n);
    hide Pow256;
    if size > 8 {
      Halves(n, p);
      SmallMod(if n < 0 then n + p else n, p);
    } else {
      AddMultiple(n, p, if n < 0 then Pow256(8 - size) else 0);
    }
  }

  lemma AddMultiple(n: int, p: nat, k: int)
    requires p > 0
    ensures (n + p * k) % p == n % p
  {
    var q, r := n / p, n % p;
    assert (q + k) * p == q * p + k * p;
    Unique(n + p * k, p, q + k, r);
  }

  lemma {:induction false} ValueSplit(a: seq<byte>, b: seq<byte>)
    ensures LittleValue(a + b) == LittleValue(a) + Pow256(|a|) * LittleValue(b)
  {
    hide Pow256, LittleValue;
    ValueFirst(a);
    ValueFirst(a + b);
    if a == [] {
      assert a + b == b;
    } else {
      assert (a + b)[1..] == a[1..] + b;
      ValueSplit(a[1..], b);
      Mul256(LittleValue(a[1..]), Pow256(|a| - 1), LittleValue(b));
      PowerNext(|a|);
    }
  }

  lemma ValueFirst(s: seq<byte>)
    ensures LittleValue(s) == if s == [] then 0 else s[0] + 256 * LittleValue(s[1..])
    ensures Pow256(0) == 1
  {}

  lemma PowerNext(n: nat)
    requires n > 0
    ensures Pow256(n) == 256 * Pow256(n - 1)
  {}

  lemma Mul256(x: int, p: int, v: int)
    ensures 256 * (x + p * v) == 256 * x + (256 * p) * v
  {}

  lemma {:induction false} PowerMonotone(a: nat, b: nat)
    requires a <= b
    ensures Pow256(a) <= Pow256(b)
  {
    if a < b { PowerMonotone(a, b - 1); }
  }

  /** One more byte, below those that were read. */
  lemma ReadByteBelow(res: nat, b: byte, s: seq<byte>)
    requires res == LittleValue(s) && |s| <= 7
    ensures res * 256 < D && Or(res * 256, b) == LittleValue([b] + s)
  {
    PowerMonotone(|s|, 7);
    PowerNext(8);
    Sizes256();
    ValueFirst([b] + s);
    assert ([b] + s)[1..] == s;
    Small();
    hide Pow256, LittleValue, Or, Pow2;
    OrAdds(res, 8, b);
  }

  lemma {:induction false} HighBytes(s: seq<byte>)
    ensures (forall k :: 0 <= k < |s| ==> s[k] == 0) <==> LittleValue(s) == 0
    ensures (forall k :: 0 <= k < |s| ==> s[k] == 255) <==> LittleValue(s) == Pow256(|s|) - 1
  {
    if s != [] {
      HighBytes(s[1..]);
      assert forall k :: 1 <= k < |s| ==> s[k] == s[1..][k - 1];
      assert (forall k :: 0 <= k < |s| ==> s[k] == 0) <==> s[0] == 0 && forall k :: 0 <= k < |s[1..]| ==>
             s[1..][k] == 0;
      assert (forall k :: 0 <= k < |s| ==> s[k] == 255) <==> s[0] == 255 && forall k :: 0 <= k < |s[1..]| ==>
             s[1..][k] == 255;
    }
  }

  /** Unpacks an integer; none if it does not fit into 64 bits. */
  method Unpack(str: seq<byte>, little: bool, size: nat, signed: bool) returns (r: Option<int>)
    requires 1 <= size <= 16 && |str| == size
    ensures r == Unpacked(LittleValue(Ordered(str, little)), size, signed)
  {
    hide Pow256, LittleValue, Ordered, Or, Xor, Pow2;
    ghost var s := Ordered(str, little);
    var res: nat := 0;
    var limit := if size <= 8 then size else 8;
    var i := limit;
    assert s[limit..limit] == [];
    EmptyValue();
    while i > 0
      invariant 0 <= i <= limit && res == LittleValue(s[i..limit])
    {
      i := i - 1;
      SliceFront(s, i, limit);
      ReadByteBelow(res, s[i], s[i + 1..limit]);
      res := Or(res * 256 % D, str[At(i, size, little)]);
    }
    if size < 8 {
      assert s[0..limit] == s;
      SignExtension(res, size);
      if signed {
        var mask := Pow2(size * 8 - 1);
        res := (Xor(res, mask) + D - mask) % D;
      }
      return Some(Signed(res));
    }
    EightBytes(s);
    if size > 8 {
      var mask := if !signed || Signed(res) >= 0 then 0 else 255;
      i := limit;
      HighBytes(s[8..]);
      while i < size
        invariant 8 <= i <= size
        invariant forall k :: 8 <= k < i ==> s[k] == mask
      {
        if str[At(i, size, little)] != mask {
          TailDiffers(s, mask, i);
          return None;
        }
        i := i + 1;
      }
      TailSame(s, mask);
    }
    return Some(Signed(res));
  }

  lemma SliceFront(s: seq<byte>, i: nat, limit: nat)
    requires i < limit <= |s|
    ensures s[i..limit] == [s[i]] + s[i + 1..limit]
  {}

  lemma EmptyValue()
    ensures LittleValue([]) == 0
  {}

  lemma TailDiffers(s: seq<byte>, mask: byte, i: nat)
    requires 8 <= i < |s| && s[i] != mask
    ensures !forall k :: 0 <= k < |s[8..]| ==> s[8..][k] == mask
  {
    assert s[8..][i - 8] != mask;
  }

  lemma TailSame(s: seq<byte>, mask: byte)
    requires |s| >= 8 && forall k :: 8 <= k < |s| ==> s[k] == mask
    ensures forall k :: 0 <= k < |s[8..]| ==> s[8..][k] == mask
  {}

  lemma SignExtension(res: nat, size: nat)
    requires res < Pow256(size) && 1 <= size < 8
    ensures res < D && Pow256(size) < D && Pow256(size) == 2 * Pow2(size * 8 - 1)
    ensures var mask := Pow2(size * 8 - 1);
            Xor(res, mask) < Pow256(size) &&
            Some(Signed((Xor(res, mask) + D - mask) % D)) == Unpacked(res, size, true)
    ensures Some(Signed(res)) == Unpacked(res, size, false)
  {
    hide Xor, Pow2;
    Pow256Pow2(size);
    XorBit(res, size * 8 - 1);
    Pow2Twice(size * 8 - 1);
    PowerMonotone(size, 7);
    PowerNext(8);
    Sizes256();
  }

  lemma Pow2Twice(k: nat)
    ensures Pow2(k + 1) == 2 * Pow2(k)
  {}

  lemma {:induction false} Pow256Pow2(n: nat)
    ensures Pow256(n) == Pow2(n * 8)
  {
    if n > 0 {
      Pow256Pow2(n - 1);
      Pow2Sum(8, (n - 1) * 8);
      Small();
    }
  }

  /** How a number of more than eight bytes relates to its low eight bytes. */
  lemma EightBytes(s: seq<byte>)
    requires |s| >= 8
    ensures s[0..8] == s[..8] && LittleValue(s) == LittleValue(s[..8]) + D * LittleValue(s[8..])
    ensures LittleValue(s[..8]) < D && Pow256(|s|) == D * Pow256(|s| - 8) && LittleValue(s[8..]) < Pow256(|s| - 8)
    ensures |s| == 8 ==> LittleValue(s[8..]) == 0 && Pow256(|s|) == D
  {
    hide LittleValue;
    assert s == s[..8] + s[8..];
    ValueSplit(s[..8], s[8..]);
    Sizes256();
    Above8(|s|);
    EmptyValue();
  }
}
