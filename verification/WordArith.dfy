/** Arithmetic on words of 32 and 64 bits, as numbers. */
module WordArith {
  import opened Powers

  const W: nat := 0x1_0000_0000
  const D: nat := 0x1_0000_0000_0000_0000

  /** The number that a word stands for in two's complement. */
  function Signed(w: nat): int
    requires w < D
  {
    if w < 0x8000_0000_0000_0000 then w else w - D
  }

  /** The word of a number, modulo 2^64. */
  function Word(x: int): nat { x % D }

  lemma Sizes()
    ensures Pow2(32) == W && Pow2(64) == D && Pow2(31) == 0x8000_0000 && Pow2(63) == 0x8000_0000_0000_0000 && D == W * W
  {
    Pow2Sum(8, 8);
    assert Pow2(8) == 256 by {
      assert Pow2(2) == 4 && Pow2(4) == 16;
      Pow2Sum(4, 4);
    }
    Pow2Sum(16, 16);
    Pow2Sum(32, 32);
    assert Pow2(32) == 2 * Pow2(31) && Pow2(64) == 2 * Pow2(63);
  }

  lemma {:induction false} Pow2Sum(a: nat, b: nat)
    ensures Pow2(a + b) == Pow2(a) * Pow2(b)
  {
    if a > 0 { Pow2Sum(a - 1, b); }
  }

  /** Quotient and remainder are unique. */
  lemma Unique(x: int, m: int, q: int, r: int)
    requires m > 0 && 0 <= r < m && x == q * m + r
    ensures x / m == q && x % m == r
  {
    var q', r' := x / m, x % m;
    assert q' * m + r' == x;
    assert (q - q') * m == r' - r;
    MulFar(q - q', m);
  }

  lemma MulFar(k: int, m: int)
    requires m > 0
    ensures k == 0 || k * m >= m || k * m <= -m
  {}

  lemma MulLess(a: int, b: int, m: int)
    requires a < b && m > 0
    ensures a * m + m <= b * m
  {
    assert (b - a - 1) * m >= 0;
    assert (b - a - 1) * m == b * m - a * m - m;
  }

  lemma MulSum(a: int, b: int, c: int, m: int)
    ensures (a * b + c) * m == a * (b * m) + c * m
  {}

  /** Dividing by a product is dividing twice. */
  lemma DivTwice(x: nat, a: nat, b: nat)
    requires a > 0 && b > 0
    ensures a * b > 0 && x / (a * b) == x / a / b && x % (a * b) == x / a % b * a + x % a
  {
    var y, r := x / a, x % a;
    var q, s := y / b, y % b;
    assert x == y * a + r && y == q * b + s;
    MulSum(q, b, s, a);
    assert b * a == a * b && s * a >= 0;
    MulLess(s, b, a);
    Unique(x, a * b, q, s * a + r);
  }

  function Shl32(x: nat, k: nat): nat { x * Pow2(k) % W }

  function Shr(x: nat, k: nat): nat {
    DivNat(x, Pow2(k));
    x / Pow2(k)
  }

  lemma DivNat(x: nat, m: nat)
    requires m > 0
    ensures x / m >= 0
  {
    var q := x / m;
    assert x == q * m + x % m;
    MulFar(q, m);
    if q < 0 { MulLess(q, 0, m); }
  }

  /** Shifting twice. */
  lemma ShrTwice(x: nat, i: nat, j: nat)
    ensures Shr(Shr(x, i), j) == Shr(x, i + j)
  {
    hide Pow2;
    Pow2Sum(i, j);
    DivTwice(x, Pow2(i), Pow2(j));
  }

  lemma ShrBelow(x: nat, i: nat, j: nat)
    requires x < Pow2(i + j)
    ensures Shr(x, i) < Pow2(j)
  {
    hide Pow2;
    Pow2Sum(i, j);
    DivBelow(x, Pow2(i), Pow2(j));
  }

  lemma ShrZero(x: nat, i: nat)
    requires Shr(x, i) == 0
    ensures x < Pow2(i)
  {
    hide Pow2;
    assert x == 0 * Pow2(i) + x % Pow2(i);
  }

  /** One place more. */
  lemma ShrNext(x: nat, k: nat)
    ensures Shr(x, k + 1) == Shr(x / 2, k)
  {
    hide Pow2;
    Twice(k);
    DivTwice(x, 2, Pow2(k));
  }

  lemma Twice(k: nat)
    ensures Pow2(k + 1) == 2 * Pow2(k) && Pow2(0) == 1
  {}

  lemma ShrNone(x: nat)
    ensures Shr(x, 0) == x
  {}

  /** Shifting left drops the bits that do not fit. */
  lemma ShlDrops(x: nat, k: nat)
    requires k <= 32
    ensures Shl32(x, k) == x % Pow2(32 - k) * Pow2(k)
  {
    hide Pow2;
    Sizes();
    var a, b := Pow2(32 - k), Pow2(k);
    Pow2Sum(32 - k, k);
    var q, r := x / a, x % a;
    MulSum(q, a, r, b);
    MulLess(r, a, b);
    assert r * b >= 0;
    Unique(x * b, W, q, r * b);
  }

  // ----- bits -----

  /** The bits that two numbers have in common. */
  function And(x: nat, y: nat): (z: nat)
    ensures z <= x && z <= y
  {
    if x == 0 || y == 0 then 0 else 2 * And(x / 2, y / 2) + if x % 2 == 1 && y % 2 == 1 then 1 else 0
  }

  function Or(x: nat, y: nat): nat
    decreases x + y
  {
    if x == 0 then y else if y == 0 then x else 2 * Or(x / 2, y / 2) + if x % 2 == 1 || y % 2 == 1 then 1 else 0
  }

  function Xor(x: nat, y: nat): nat
    decreases x + y
  {
    if x == 0 then y else if y == 0 then x else 2 * Xor(x / 2, y / 2) + if x % 2 == y % 2 then 0 else 1
  }

  lemma XorNone(x: nat)
    ensures Xor(x, 0) == x == Xor(0, x)
  {}

  /** Changing all the bits subtracts from all ones. */
  lemma {:induction false} XorOnes(x: nat, k: nat)
    requires x < Pow2(k)
    ensures Xor(x, Pow2(k) - 1) == Pow2(k) - 1 - x
  {
    if x > 0 {
      assert (Pow2(k) - 1) / 2 == Pow2(k - 1) - 1;
      XorOnes(x / 2, k - 1);
    }
  }

  /** The lowest bit, and the others. */
  lemma AndStep(x: nat, y: nat)
    ensures And(x, y) == 2 * And(x / 2, y / 2) + if x % 2 == 1 && y % 2 == 1 then 1 else 0
  {
    assert x == 0 ==> And(x / 2, y / 2) == 0;
    assert y == 0 ==> And(x / 2, y / 2) == 0;
  }

  /** Masking with ones takes the remainder. */
  lemma AndMask(x: nat, k: nat)
    ensures And(x, Pow2(k) - 1) == x % Pow2(k)
  {
    AndRest(x, k);
  }

  ghost function Rest(x: nat, k: nat): int { x % Pow2(k) }

  lemma {:induction false} AndRest(x: nat, k: nat)
    ensures And(x, Pow2(k) - 1) == Rest(x, k)
  {
    hide And, Pow2, Rest;
    RestNext(x, k);
    if k > 0 {
      Twice(k - 1);
      AndTwice(x, Pow2(k - 1));
      AndRest(x / 2, k - 1);
    } else {
      Twice(0);
      AndNone(x);
    }
  }

  lemma AndTwice(x: nat, m: nat)
    requires m > 0
    ensures And(x, 2 * m - 1) == 2 * And(x / 2, m - 1) + if x % 2 == 1 then 1 else 0
  {
    hide And;
    AndStep(x, 2 * m - 1);
    assert (2 * m - 1) / 2 == m - 1 && (2 * m - 1) % 2 == 1;
  }

  lemma RestNext(x: nat, k: nat)
    ensures Rest(x, k) == if k == 0 then 0 else 2 * Rest(x / 2, k - 1) + if x % 2 == 1 then 1 else 0
  {
    hide Pow2;
    if k > 0 {
      Twice(k - 1);
      DivTwice(x, 2, Pow2(k - 1));
    } else {
      Twice(0);
    }
  }

  lemma AndNone(x: nat)
    ensures And(x, 0) == 0 == And(0, x)
  {}

  /** Putting low bits to a multiple of a power of two adds them. */
  lemma {:induction false} OrAdds(x: nat, k: nat, y: nat)
    requires y < Pow2(k)
    ensures Or(x * Pow2(k), y) == x * Pow2(k) + y
  {
    hide Or, Pow2;
    if k > 0 && x > 0 && y > 0 {
      var m := Pow2(k - 1);
      Twice(k - 1);
      MulTwice(x, m);
      OrAdds(x, k - 1, y / 2);
      OrStep(2 * (x * m), y);
    } else if k == 0 {
      Twice(0);
      OrNone(x * 1);
    } else {
      OrNone(x * Pow2(k));
      OrNone(y);
    }
  }

  lemma MulTwice(x: nat, m: nat)
    ensures x * (2 * m) == 2 * (x * m) && x * m >= 0
  {}

  lemma OrStep(x: nat, y: nat)
    ensures Or(x, y) == 2 * Or(x / 2, y / 2) + if x % 2 == 1 || y % 2 == 1 then 1 else 0
  {
    OrNone(x);
    OrNone(y);
    OrNone(x / 2);
    OrNone(y / 2);
  }

  lemma OrNone(x: nat)
    ensures Or(x, 0) == x == Or(0, x)
  {}

  /** A number has no bits in common with the one before it exactly if it is a power of two. */
  lemma {:induction false} AndBefore(x: nat) returns (k: nat)
    requires x > 0 && And(x, x - 1) == 0
    ensures x == Pow2(k)
  {
    if x == 1 {
      k := 0;
    } else {
      AndOdd(x);
      assert (x - 1) / 2 == x / 2 - 1;
      k := AndBefore(x / 2);
      k := k + 1;
    }
  }

  lemma AndOdd(x: nat)
    ensures x > 1 && x % 2 == 1 ==> And(x, x - 1) != 0
  {
    AndSelf(x / 2);
    assert x > 1 && x % 2 == 1 ==> (x - 1) / 2 == x / 2;
  }

  lemma {:induction false} AndSelf(x: nat)
    ensures And(x, x) == x
  {
    if x > 0 { AndSelf(x / 2); }
  }

  /** Changing one bit. */
  lemma {:induction false} XorBit(x: nat, k: nat)
    requires x < Pow2(k + 1)
    ensures Xor(x, Pow2(k)) == if x < Pow2(k) then x + Pow2(k) else x - Pow2(k)
  {
    if k > 0 && x > 0 {
      XorBit(x / 2, k - 1);
    }
  }

  // ----- zeros at either end -----

  /** The number has exactly so many zeros before its first bit. */
  ghost predicate LeadingZeros(x: nat, r: nat) { r <= 31 && Pow2(31 - r) <= x < Pow2(32 - r) }

  /** The number has exactly so many zeros after its last bit. */
  ghost predicate TrailingZeros(x: nat, r: nat) { x % Pow2(r) == 0 && x / Pow2(r) % 2 == 1 }

  /** `x` is what is left of `a` when `r` zeros in front and the bits behind are dropped. */
  ghost predicate Narrowed(a: nat, x: nat, r: nat, bits: nat)
  {
    r + bits <= 32 && 0 < x < Pow2(bits) && x == Shr(a, 32 - r - bits)
  }

  /** If the upper half of the bits is zero, look at the lower half. */
  lemma NarrowHalf(a: nat, x: nat, r: nat, half: nat)
    requires Narrowed(a, x, r, 2 * half) && half > 0
    ensures Shr(x, half) == 0 ==> Narrowed(a, x, r + half, half)
    ensures Shr(x, half) != 0 ==> Narrowed(a, Shr(x, half), r, half)
  {
    hide Pow2, Shr;
    ShrTwice(a, 32 - r - 2 * half, half);
    assert 32 - r - 2 * half + half == 32 - r - half;
    ShrBelow(x, half, half);
    if Shr(x, half) == 0 { ShrZero(x, half); }
  }

  lemma DivBelow(x: nat, a: nat, b: nat)
    requires a > 0 && x < a * b
    ensures x / a < b
  {
    MulFarther(x / a, b, a);
  }

  lemma MulFarther(q: nat, b: nat, a: nat)
    requires a > 0
    ensures q >= b ==> q * a >= a * b
  {}

  method CountLeadingZeros(a: nat) returns (r: nat)
    requires 0 < a < W
    ensures LeadingZeros(a, r)
  {
    hide Pow2, LeadingZeros, Narrowed;
    NarrowNone(a);
    var x := a;
    x, r := NarrowIf(a, x, 0, 16);
    x, r := NarrowIf(a, x, r, 8);
    x, r := NarrowIf(a, x, r, 4);
    x, r := NarrowIf(a, x, r, 2);
    NarrowTail(a, x, r);
    r := r + if x < 2 then 2 - x else 0;
  }

  /** Goes on with the upper half of the bits, or with the lower if the upper is zero. */
  method NarrowIf(ghost a: nat, x: nat, r: nat, half: nat) returns (x': nat, r': nat)
    requires Narrowed(a, x, r, 2 * half) && half > 0
    ensures Narrowed(a, x', r', half)
  {
    hide Pow2, Narrowed, Shr;
    NarrowHalf(a, x, r, half);
    ShrNone(x);
    var t := if Shr(x, half) == 0 then half else 0;
    x' := Shr(x, half - t);
    r' := r + t;
  }

  lemma NarrowNone(a: nat)
    requires 0 < a < W
    ensures Narrowed(a, a, 0, 32)
  {
    Sizes();
    ShrNone(a);
    hide Pow2;
  }

  /** The last two bits. */
  lemma NarrowTail(a: nat, x: nat, r: nat)
    requires Narrowed(a, x, r, 2)
    ensures x < 4 && LeadingZeros(a, r + if x < 2 then 2 - x else 0)
  {
    hide LeadingZeros;
    NarrowHalf(a, x, r, 1);
    Small();
    assert 0 < x < 4;
    ShrOne(x);
    if x < 2 { NarrowDone(a, x, r + 1); } else { NarrowDone(a, Shr(x, 1), r); }
  }

  lemma ShrOne(x: nat)
    ensures Shr(x, 1) == x / 2
  {
    Small();
    hide Pow2;
  }

  lemma Small()
    ensures Pow2(0) == 1 && Pow2(1) == 2 && Pow2(2) == 4 && Pow2(4) == 0x10 && Pow2(8) == 0x100 && Pow2(16) == 0x1_0000
  {
    Pow2Sum(2, 2);
    Pow2Sum(4, 4);
    Pow2Sum(8, 8);
  }

  lemma NarrowDone(a: nat, x: nat, r: nat)
    requires Narrowed(a, x, r, 1)
    ensures LeadingZeros(a, r)
  {
    var m := Pow2(31 - r);
    assert x == 1 && Pow2(32 - r) == 2 * m;
    assert a == m * (a / m) + a % m;
  }

  /** So many zeros at the end were dropped. */
  ghost predicate Dropped(a: nat, x: nat, r: nat) { a % Pow2(r) == 0 && x == a / Pow2(r) }

  lemma DropNone(a: nat)
    ensures Dropped(a, a, 0)
  {}

  lemma DropHalf(a: nat, x: nat, r: nat, half: nat)
    requires Dropped(a, x, r) && x % Pow2(half) == 0
    ensures Dropped(a, x / Pow2(half), r + half)
  {
    hide Pow2;
    Pow2Sum(r, half);
    DivTwice(a, Pow2(r), Pow2(half));
  }

  method CountTrailingZeros(a: nat) returns (r: nat)
    requires 0 < a < W
    ensures TrailingZeros(a, r) && r < 32
  {
    hide Pow2, Dropped, TrailingZeros;
    Sizes();
    Small();
    DropNone(a);
    var x := a;
    x, r := DropIf(a, x, 0, 16);
    x, r := DropIf(a, x, r, 8);
    x, r := DropIf(a, x, r, 4);
    x, r := DropIf(a, x, r, 2);
    ghost var y := x;
    x := x % 4;
    DropTail(a, y, r);
    r := r + if x % 2 == 0 then 2 - x / 2 else 0;
  }

  /** Drops so many bits if they are all zero. */
  method DropIf(ghost a: nat, x: nat, r: nat, t: nat) returns (x': nat, r': nat)
    requires Dropped(a, x, r) && x % Pow2(2 * t) != 0
    ensures Dropped(a, x', r') && (r' == r || r' == r + t) && x' % Pow2(t) != 0
  {
    hide Pow2, Dropped;
    Pow2Sum(t, t);
    DivTwice(x, Pow2(t), Pow2(t));
    if x % Pow2(t) == 0 {
      DropHalf(a, x, r, t);
      return Shr(x, t), r + t;
    }
    return x, r;
  }

  lemma DropTail(a: nat, y: nat, r: nat)
    requires Dropped(a, y, r) && y % 4 != 0
    ensures if y % 2 == 1 then TrailingZeros(a, r) else y % 4 / 2 == 1 && TrailingZeros(a, r + 1)
  {
    Small();
    if y % 2 == 0 { DropHalf(a, y, r, 1); }
  }
}
