/** Division of 64-bit numbers by means of 32-bit words: one bit of the quotient at a time, after many special cases.
    A number has the value of its high word times 2^32 plus that of its low word. */
module Int64Division {
  import opened Powers
  import opened WordArith

  function All(high: nat, low: nat): nat { high * W + low }

  /** The difference of two words as it wraps around. */
  function Diff32(a: nat, b: nat): nat
    requires a < W && b < W
  {
    (a + W - b) % W
  }

  // ----- shifting into place -----

  /** Moving a number right across both words. */
  lemma ShiftRight(nh: nat, nl: nat, sr: nat)
    requires nh < W && nl < W && 1 <= sr <= 31
    ensures All(Shr(nh, sr), Or(Shl32(nh, 32 - sr), Shr(nl, sr))) == All(nh, nl) / Pow2(sr)
    ensures All(nh, nl) % Pow2(sr) == nl % Pow2(sr)
  {
    hide Pow2, Or, Shl32, Shr;
    var p, p' := Pow2(sr), Pow2(32 - sr);
    LowWord(nh, nl, sr);
    Sizes();
    Pow2Sum(sr, 32 - sr);
    ShiftArith(nh, nl, p, p');
    ShrIs(nh, sr);
  }

  lemma ShrIs(x: nat, k: nat)
    ensures Shr(x, k) == x / Pow2(k)
  {}

  lemma LowWord(nh: nat, nl: nat, sr: nat)
    requires nh < W && nl < W && 1 <= sr <= 31
    ensures Or(Shl32(nh, 32 - sr), Shr(nl, sr)) == nh % Pow2(sr) * Pow2(32 - sr) + nl / Pow2(sr)
  {
    hide Pow2, Or, Shl32, Shr;
    Sizes();
    ShlDrops(nh, 32 - sr);
    assert 32 - (32 - sr) == sr && sr + (32 - sr) == 32;
    ShrBelow(nl, sr, 32 - sr);
    ShrIs(nl, sr);
    RestNat(nh, Pow2(sr));
    OrAdds(nh % Pow2(sr), 32 - sr, Shr(nl, sr));
  }

  lemma RestNat(x: nat, m: nat)
    requires m > 0
    ensures x % m >= 0
  {}

  lemma ShiftArith(nh: nat, nl: nat, p: nat, p': nat)
    requires p > 0 && p' > 0 && p * p' == W && nl < W
    ensures nh / p * W + (nh % p * p' + nl / p) == (nh * W + nl) / p
    ensures (nh * W + nl) % p == nl % p
  {
    var h, g, l, m := nh / p, nh % p, nl / p, nl % p;
    assert nh == h * p + g && nl == l * p + m;
    ShiftSum(h, g, l, m, p, p');
    Unique(nh * W + nl, p, h * W + g * p' + l, m);
  }

  lemma ShiftSum(h: int, g: int, l: int, m: int, p: int, p': int)
    requires p * p' == W
    ensures (h * p + g) * W + (l * p + m) == (h * W + g * p' + l) * p + m
  {
    MulThree(h * W, g * p', l, p);
    MulAgain(h, W, p);
    MulAgain(g, p', p);
  }

  lemma MulAgain(a: int, b: int, c: int)
    ensures a * b * c == a * (b * c) == a * c * b
  {}

  lemma MulThree(a: int, b: int, c: int, p: int)
    ensures (a + b + c) * p == a * p + b * p + c * p
  {}

  /** What was shifted out, moved to the top. */
  lemma ShiftTop(nl: nat, sr: nat)
    requires nl < W && 1 <= sr <= 31
    ensures All(Shl32(nl, 32 - sr), 0) == nl % Pow2(sr) * Pow2(64 - sr)
  {
    hide Pow2;
    Sizes();
    ShlDrops(nl, 32 - sr);
    Pow2Sum(32 - sr, 32);
    assert 32 - sr + 32 == 64 - sr;
    var x, p := nl % Pow2(sr), Pow2(32 - sr);
    assert x * p * W == x * (p * W);
  }

  /** Where the remainder and the quotient start: the number shifted right, and what was shifted out at the top. */
  ghost predicate Placed(n: nat, sr: nat, r: nat, q: nat)
  {
    1 <= sr <= 63 && r == n / Pow2(sr) && q == n % Pow2(sr) * Pow2(64 - sr)
  }

  lemma PlaceFew(nh: nat, nl: nat, sr: nat)
    requires nh < W && nl < W && 1 <= sr <= 31
    ensures Placed(All(nh, nl), sr, All(Shr(nh, sr), Or(Shl32(nh, 32 - sr), Shr(nl, sr))), All(Shl32(nl, 32 - sr), 0))
  {
    hide Pow2, Or, Shl32, Shr;
    ShiftRight(nh, nl, sr);
    ShiftTop(nl, sr);
  }

  lemma PlaceWord(nh: nat, nl: nat)
    requires nh < W && nl < W
    ensures Placed(All(nh, nl), 32, All(0, nh), All(nl, 0))
  {
    hide Pow2;
    Sizes();
    Unique(All(nh, nl), W, nh, nl);
  }

  lemma PlaceMany(nh: nat, nl: nat, sr: nat)
    requires nh < W && nl < W && 33 <= sr <= 63
    ensures Placed(All(nh, nl), sr, All(0, Shr(nh, sr - 32)),
            All(Or(Shl32(nh, 64 - sr), Shr(nl, sr - 32)), Shl32(nl, 64 - sr)))
  {
    hide Pow2, Or;
    var t := sr - 32;
    var p, p' := Pow2(t), Pow2(32 - t);
    Sizes();
    Pow2Sum(t, 32 - t);
    Pow2Sum(t, 32);
    assert 64 - sr == 32 - t && t + 32 == sr;
    ShlDrops(nh, 32 - t);
    ShlDrops(nl, 32 - t);
    DivBelow(nl, p, p');
    OrAdds(nh % p, 32 - t, nl / p);
    Unique(All(nh, nl), W, nh, nl);
    DivTwice(All(nh, nl), W, p);
    assert W * p == Pow2(sr);
    ManyArith(nh % p, nl, p, p');
  }

  lemma ManyArith(g: nat, nl: nat, p: nat, p': nat)
    requires p > 0 && p' > 0 && p * p' == W
    ensures (g * p' + nl / p) * W + nl % p * p' == (g * W + nl) * p'
  {
    var l, m := nl / p, nl % p;
    assert nl == l * p + m;
    MulSum(l, p, m, p');
    MulSum(g, W, nl, p');
    MulSum(g, p', l, W);
    assert g * (p' * W) == g * (W * p');
    assert l * (p * p') == l * W;
  }

  /** The first remainder is below a divisor with as many bits. */
  lemma StartBelow(n: nat, d: nat, sr: nat, e: nat)
    requires n < Pow2(sr + e) && Pow2(e) <= d
    ensures n / Pow2(sr) < d
  {
    hide Pow2;
    Pow2Sum(sr, e);
    DivBelow(n, Pow2(sr), Pow2(e));
  }

  /** How large a number of two words is. */
  lemma Magnitude(h: nat, l: nat, z: nat)
    requires h < W && l < W && LeadingZeros(h, z)
    ensures Pow2(63 - z) <= All(h, l) < Pow2(64 - z)
  {
    hide Pow2;
    Sizes();
    Pow2Sum(31 - z, 32);
    Pow2Sum(32 - z, 32);
    assert 31 - z + 32 == 63 - z && 32 - z + 32 == 64 - z;
    MulAtMost(Pow2(31 - z), h, W);
    MulAtMost(h + 1, Pow2(32 - z), W);
  }

  lemma MulAtMost(a: int, b: int, m: int)
    requires a <= b && m >= 0
    ensures a * m <= b * m
  {
    assert (b - a) * m >= 0;
    assert (b - a) * m == b * m - a * m;
  }

  /** More leading zeros make a smaller number. */
  lemma ZerosOrder(x: nat, y: nat, zx: nat, zy: nat)
    requires LeadingZeros(x, zx) && LeadingZeros(y, zy) && zx > zy
    ensures x < y
  {
    hide Pow2;
    Pow2Monotone(32 - zx, 31 - zy);
  }

  // ----- one bit at a time -----

  /** The number without its last bits, and those bits. */
  ghost function Upper(n: nat, sr: nat): nat {
    DivNat(n, Pow2(sr));
    n / Pow2(sr)
  }

  ghost function Lower(n: nat, sr: nat): nat { n % Pow2(sr) }

  ghost function Product(a: nat, b: nat): nat { a * b }

  /** After some bits: the divisor goes `2 * low + carry` times into the number without its last `sr` bits, and leaves
      `r`; the bits still to come are at the top of `q`, and `low` at its bottom. */
  ghost predicate Dividing(n: nat, d: nat, s0: nat, sr: nat, r: nat, q: nat, low: nat, carry: nat)
  {
    && sr <= s0 <= 63 && carry <= 1 && low < Pow2(s0 - sr) && n < D && (sr == s0 ==> low == 0 && carry == 0)
    && Upper(n, sr) == Product(2 * low + carry, d) + r && r < d < D
    && q == Product(Lower(n, sr), Pow2(64 - sr)) + low
    && (d < 0x8000_0000_0000_0000 || sr == 0 || (sr == 1 && 0x4000_0000_0000_0000 <= r < 0x8000_0000_0000_0000))
  }

  lemma DividingStart(n: nat, d: nat, sr: nat, r: nat, q: nat)
    requires Placed(n, sr, r, q) && r < d < D && n < D &&
             (d < 0x8000_0000_0000_0000 || (sr == 1 && n >= 0x8000_0000_0000_0000))
    ensures Dividing(n, d, sr, sr, r, q, 0, 0)
  {
    assert Pow2(1) == 2;
    assert Product(0, d) == 0;
    if sr == 1 && d >= 0x8000_0000_0000_0000 { assert r == n / 2; }
  }

  /** One bit more of a number of which the last `sr` bits are dropped. */
  lemma NextBit(n: nat, sr: nat) returns (b: nat)
    requires sr >= 1
    ensures b <= 1 && Upper(n, sr - 1) == 2 * Upper(n, sr) + b && Lower(n, sr) == b * Pow2(sr - 1) + Lower(n, sr - 1)
    ensures Lower(n, sr - 1) < Pow2(sr - 1)
  {
    var p := Pow2(sr - 1);
    b := n / p % 2;
    assert Pow2(sr) == 2 * p;
    DivTwice(n, p, 2);
    assert p * 2 == Pow2(sr);
  }

  /** The top bit of `q` is the next bit of the number; without it, `q` is twice what it was. */
  lemma TopBit(m: nat, b: nat, sr: nat, low: nat, q: nat)
    requires 1 <= sr <= 63 && b <= 1 && m < Pow2(sr - 1) && low < Pow2(63 - sr) &&
             q == Product(b * Pow2(sr - 1) + m, Pow2(64 - sr)) + low
    ensures q / 0x8000_0000_0000_0000 == b && q < D
    ensures 2 * q - b * D == Product(m, Pow2(65 - sr)) + 2 * low
  {
    hide Pow2, Product;
    Sizes();
    Pow2Sum(sr - 1, 64 - sr);
    assert sr - 1 + (64 - sr) == 63;
    Pow2Step(64 - sr);
    Pow2Step(63 - sr);
    ProductBit(b, Pow2(sr - 1), m, Pow2(64 - sr));
    ProductTwice(m, Pow2(64 - sr));
    Unique(q, 0x8000_0000_0000_0000, b, Product(m, Pow2(64 - sr)) + low);
  }

  lemma ProductBit(b: nat, p: nat, m: nat, p': nat)
    requires b <= 1 && m < p && p * p' == 0x8000_0000_0000_0000
    ensures Product(b * p + m, p') == b * 0x8000_0000_0000_0000 + Product(m, p')
    ensures Product(m, p') + p' <= 0x8000_0000_0000_0000
  {
    MulLess(m, p, p');
    if b == 1 { MulSum(1, p, m, p'); }
  }

  lemma ProductTwice(m: nat, p: nat)
    ensures Product(m, 2 * p) == 2 * Product(m, p)
  {}

  lemma Pow2Step(k: nat)
    ensures Pow2(k + 1) == 2 * Pow2(k)
  {}

  /** One round of the division. */
  lemma DivideBit(n: nat, d: nat, s0: nat, sr: nat, r: nat, q: nat, low: nat, carry: nat)
    requires Dividing(n, d, s0, sr, r, q, low, carry) && sr >= 1
    ensures q < D
    ensures var b := q / 0x8000_0000_0000_0000;
            var r', q' := 2 * r + b, 2 * q - b * D + carry;
            && r' < D && 0 <= q' < D && b <= 1
            && (r' < 0x8000_0000_0000_0000 + d && d <= r' + 0x8000_0000_0000_0000)
            && Dividing(n, d, s0, sr - 1, if r' >= d then r' - d else r', q', 2 * low + carry, if r' >= d then 1 else 0)
  {
    hide Pow2, Upper, Lower, Product;
    var b := NextBit(n, sr);
    var m := Lower(n, sr - 1);
    NextBelow(n, d, sr, s0, low, carry);
    TopBit(m, b, sr, low, q);
    QuotientStep(Upper(n, sr), Upper(n, sr - 1), 2 * low + carry, d, r, b);
    Pow2Step(s0 - sr);
    assert s0 - sr + 1 == s0 - (sr - 1) && 65 - sr == 64 - (sr - 1);
    TopFits(m, sr, 2 * low + carry);
    var r' := 2 * r + b;
    assert r' < D && r' < 0x8000_0000_0000_0000 + d && d <= r' + 0x8000_0000_0000_0000;
    DividingNext(n, d, s0, sr - 1, if r' >= d then r' - d else r', 2 * q - b * D + carry, 2 * low + carry, if r' >= d
      then 1 else 0);
  }

  lemma DividingNext(n: nat, d: nat, s0: nat, sr: nat, r: nat, q: nat, low: nat, carry: nat)
    requires sr < s0 <= 63 && carry <= 1 && low < Pow2(s0 - sr) && n < D && r < d < D
    requires Upper(n, sr) == Product(2 * low + carry, d) + r && q == Product(Lower(n, sr), Pow2(64 - sr)) + low
    requires d < 0x8000_0000_0000_0000 || sr == 0
    ensures Dividing(n, d, s0, sr, r, q, low, carry)
  {
    hide Pow2;
  }

  lemma QuotientStep(x: nat, y: nat, l: nat, d: nat, r: nat, b: nat)
    requires x == Product(l, d) + r && y == 2 * x + b
    ensures y == Product(2 * l + 0, d) + (2 * r + b) && y == Product(2 * l + 1, d) + (2 * r + b - d)
  {}

  lemma TopFits(m: nat, sr: nat, low: nat)
    requires 1 <= sr <= 63 && m < Pow2(sr - 1) && low < Pow2(65 - sr)
    ensures Product(m, Pow2(65 - sr)) + low < D
  {
    hide Pow2;
    Sizes();
    Pow2Sum(sr - 1, 65 - sr);
    assert sr - 1 + (65 - sr) == 64;
    MulLess(m, Pow2(sr - 1), Pow2(65 - sr));
  }

  lemma NextBelow(n: nat, d: nat, sr: nat, s0: nat, low: nat, carry: nat)
    requires 1 <= sr <= s0 <= 63 && n < D && low < Pow2(s0 - sr) && carry <= 1
    ensures low < Pow2(63 - sr) && 2 * low + carry < Pow2(65 - sr)
  {
    hide Pow2;
    Pow2Monotone(s0 - sr, 63 - sr);
    Pow2Step(63 - sr);
    assert 63 - sr + 1 == 64 - sr;
    Pow2Step(64 - sr);
    assert 64 - sr + 1 == 65 - sr;
  }

  lemma DivideDone(n: nat, d: nat, s0: nat, r: nat, q: nat, low: nat, carry: nat)
    requires Dividing(n, d, s0, 0, r, q, low, carry)
    ensures n == (2 * low + carry) * d + r && r < d && q == low && 2 * low + carry < D
  {
    hide Pow2;
    Sizes();
    Zero();
    Pow2Monotone(s0, 63);
    assert Product(Lower(n, 0), Pow2(64)) == 0;
  }

  lemma Zero()
    ensures Pow2(0) == 1
  {}

  // ----- the loop -----

  /** One word pair shifted left, with another bit put in. */
  lemma ShiftPair(h: nat, l: nat, bit: nat)
    requires h < W && l < W && bit <= 1
    ensures var h', l' := Or(Shl32(h, 1), Shr(l, 31)), Or(Shl32(l, 1), bit);
            h' < W && l' < W && All(h', l') == (2 * All(h, l) + bit) % D &&
              Shr(h, 31) == All(h, l) / 0x8000_0000_0000_0000 <= 1
  {
    hide Pow2, Or;
    Sizes();
    One();
    ShlDrops(h, 1);
    ShlDrops(l, 1);
    OrAdds(h % 0x8000_0000, 1, l / 0x8000_0000);
    OrAdds(l % 0x8000_0000, 1, bit);
    var h', l' := 2 * (h % 0x8000_0000) + l / 0x8000_0000, 2 * (l % 0x8000_0000) + bit;
    Unique(2 * All(h, l) + bit, D, h / 0x8000_0000, All(h', l'));
  }

  lemma One()
    ensures Pow2(1) == 2
  {}

  /** Shifts remainder and quotient, and takes the divisor off the remainder if it fits. */
  method OneBit(ghost n: nat, d: nat, ghost s0: nat, ghost sr: nat, rh0: nat, rl0: nat, qh0: nat, ql0: nat, carry0: nat,
                ghost low: nat)
      returns (rh: nat, rl: nat, qh: nat, ql: nat, carry: nat)
    requires rh0 < W && rl0 < W && qh0 < W && ql0 < W && carry0 <= 1 && sr >= 1 && low >= carry0 && low % 2 == carry0
    requires Dividing(n, d, s0, sr, All(rh0, rl0), All(qh0, ql0), low / 2, carry0)
    ensures rh < W && rl < W && qh < W && ql < W && carry <= 1
    ensures Dividing(n, d, s0, sr - 1, All(rh, rl), All(qh, ql), low, carry)
  {
    hide Pow2, Or, Dividing, Shl32, Shr;
    DivideBit(n, d, s0, sr, All(rh0, rl0), All(qh0, ql0), low / 2, carry0);
    ShiftPair(qh0, ql0, carry0);
    ShiftPair(rh0, rl0, Shr(qh0, 31));
    ghost var b := Shr(qh0, 31);
    ghost var r', q' := 2 * All(rh0, rl0) + b, 2 * All(qh0, ql0) - b * D + carry0;
    assert d < D by { DivisorFits(n, d, s0, sr, All(rh0, rl0), All(qh0, ql0), low / 2, carry0); }
    rh := Or(Shl32(rh0, 1), Shr(rl0, 31));
    rl := Or(Shl32(rl0, 1), Shr(qh0, 31));
    qh := Or(Shl32(qh0, 1), Shr(ql0, 31));
    ql := Or(Shl32(ql0, 1), carry0);
    ShiftFits(All(rh0, rl0), b, r');
    ShiftFits2(All(qh0, ql0), b, carry0, q');
    assert All(rh, rl) == r' && All(qh, ql) == q';
    SignTest(d, r');
    var t := (d + D - All(rh, rl) - 1) % D;
    carry := if t >= 0x8000_0000_0000_0000 then 1 else 0;
    var r := if carry == 1 then (All(rh, rl) + D - d) % D else All(rh, rl);
    rh, rl := r / W, r % W;
    SplitWord(r);
  }

  lemma ShiftFits(r: nat, b: nat, r': nat)
    requires r' == 2 * r + b < D
    ensures (2 * r + b) % D == r'
  {}

  lemma ShiftFits2(q: nat, b: nat, c: nat, q': int)
    requires b == q / 0x8000_0000_0000_0000 <= 1 && q < D && q' == 2 * q - b * D + c && 0 <= q' < D
    ensures (2 * q + c) % D == q'
  {}

  /** The sign of the difference, as a number of 64 bits, tells which is larger, if they are not too far apart. */
  lemma SignTest(d: nat, r: nat)
    requires d < D && r < D && r < 0x8000_0000_0000_0000 + d && d <= r + 0x8000_0000_0000_0000
    ensures (d + D - r - 1) % D >= 0x8000_0000_0000_0000 <==> r >= d
    ensures r >= d ==> (r + D - d) % D == r - d
  {}

  lemma SplitWord(r: nat)
    requires r < D
    ensures r / W < W && r % W < W && All(r / W, r % W) == r
  {}

  lemma DivisorFits(n: nat, d: nat, s0: nat, sr: nat, r: nat, q: nat, low: nat, carry: nat)
    requires Dividing(n, d, s0, sr, r, q, low, carry)
    ensures r < d < D
  {}

  method DivideLoop(n: nat, d: nat, sr0: nat, rh0: nat, rl0: nat, qh0: nat, ql0: nat) returns (q: nat, rem: nat)
    requires rh0 < W && rl0 < W && qh0 < W && ql0 < W && n < D
    requires Placed(n, sr0, All(rh0, rl0), All(qh0, ql0)) && All(rh0, rl0) < d < D
    requires d < 0x8000_0000_0000_0000 || (sr0 == 1 && n >= 0x8000_0000_0000_0000)
    ensures n == q * d + rem && rem < d && q < D
  {
    hide Pow2, Or, Dividing, Placed, Shl32, Shr;
    var rh: nat, rl: nat, qh: nat, ql: nat, sr: nat := rh0, rl0, qh0, ql0, sr0;
    var carry: nat := 0;
    ghost var low: nat := 0;
    DividingStart(n, d, sr0, All(rh, rl), All(qh, ql));
    while sr > 0
      invariant rh < W && rl < W && qh < W && ql < W && carry <= 1
      invariant Dividing(n, d, sr0, sr, All(rh, rl), All(qh, ql), low, carry)
    {
      low := 2 * low + carry;
      rh, rl, qh, ql, carry := OneBit(n, d, sr0, sr, rh, rl, qh, ql, carry, low);
      sr := sr - 1;
    }
    DivideDone(n, d, sr0, All(rh, rl), All(qh, ql), low, carry);
    q := (2 * All(qh, ql) + carry) % D;
    rem := All(rh, rl);
  }

  // ----- special cases -----

  ghost predicate Divided(n: nat, d: nat, q: nat, r: nat) { n == q * d + r && r < d }

  /** Neither number has a high word. */
  method DivideSingle(nl: nat, dl: nat) returns (q: nat, rem: nat)
    requires dl > 0
    ensures Divided(nl, dl, q, rem)
  {
    DivNat(nl, dl);
    q, rem := nl / dl, nl % dl;
  }

  lemma HighOnly(nh: nat, nl: nat, dh: nat)
    requires dh > 0 && nl < W
    ensures All(nh, nl) == nh / dh * All(dh, 0) + All(nh % dh, nl) && All(nh % dh, nl) < All(dh, 0)
  {
    var q, r := nh / dh, nh % dh;
    assert nh == q * dh + r;
    MulSum(q, dh, r, W);
    MulLess(r, dh, W);
  }

  lemma LowOnly(nh: nat, nl: nat, dl: nat, k: nat)
    requires nh < W && nl < W && dl == Pow2(k) && 1 <= k <= 31
    ensures var q := All(Shr(nh, k), Or(Shl32(nh, 32 - k), Shr(nl, k)));
            All(nh, nl) == q * dl + nl % dl && nl % dl < dl
  {
    hide Pow2, Or, Shl32, Shr;
    ShiftRight(nh, nl, k);
    Euclid(All(nh, nl), dl);
  }

  lemma Euclid(x: nat, m: nat)
    requires m > 0
    ensures x == x / m * m + x % m && x % m < m
  {}

  /** The trailing zeros of a power of two are its exponent. */
  lemma PowerZeros(k: nat, z: nat)
    requires TrailingZeros(Pow2(k), z)
    ensures z == k
  {
    hide Pow2;
    if z < k {
      Pow2Sum(z, k - z);
      Pow2Step(k - z - 1);
      var p, p' := Pow2(z), Pow2(k - z - 1);
      assert Pow2(k) == (2 * p') * p;
      Unique(Pow2(k), p, 2 * p', 0);
    } else if z > k {
      Pow2Step(z - 1);
      Pow2Monotone(k, z - 1);
      Unique(Pow2(k), Pow2(z), 0, Pow2(k));
    }
  }

  lemma PowerBelow(k: nat)
    requires Pow2(k) < W
    ensures k <= 31
  {
    Sizes();
    if k >= 32 { Pow2Monotone(32, k); }
  }

  lemma Words(a: nat)
    requires a < D
    ensures a / W < W && a % W < W && a == All(a / W, a % W)
  {}

  lemma LeadingBounds(x: nat, z: nat)
    requires LeadingZeros(x, z) && x > 0
    ensures x == 1 <==> z == 31
    ensures x >= 0x8000_0000 <==> z == 0
  {
    Sizes();
    Small();
    hide Pow2;
    if z < 31 {
      Pow2Monotone(1, 31 - z);
    }
    if z > 0 {
      Pow2Monotone(32 - z, 31);
    }
  }

  /** Where the loop begins for a divisor of which the highest word that is not zero has so many zeros in front. */
  lemma LoopStart(nh: nat, nl: nat, d: nat, cn: nat, sr: nat, e: nat)
    requires nh < W && nl < W && LeadingZeros(nh, cn) && Pow2(e) <= d < Pow2(e + 1) && sr + e == 64 - cn &&
             1 <= sr <= 63
    ensures All(nh, nl) < D && d < D && All(nh, nl) / Pow2(sr) < d
    ensures d < 0x8000_0000_0000_0000 || (sr == 1 && All(nh, nl) >= 0x8000_0000_0000_0000)
  {
    hide Pow2;
    Sizes();
    Magnitude(nh, nl, cn);
    Pow2Monotone(64 - cn, 64);
    StartBelow(All(nh, nl), d, sr, e);
    Pow2Monotone(e + 1, 64);
    if e < 63 {
      Pow2Monotone(e + 1, 63);
    } else {
      assert cn == 0 && sr == 1;
      assert 63 - cn == 63;
    }
  }

  // ----- unsigned division -----

  method UDivModDi4(a: nat, b: nat) returns (q: nat, rem: nat)
    requires a < D && 0 < b < D
    ensures a == q * b + rem && rem < b && q < D
  {
    hide All;
    Words(a);
    Words(b);
    q, rem := DivideWords(a / W, a % W, b / W, b % W);
    QuotientFits(a, b, q, rem);
  }

  lemma IsDivided(n: nat, d: nat, q: nat, r: nat)
    requires n == q * d + r && r < d
    ensures Divided(n, d, q, r)
  {}

  method DivideWords(nh: nat, nl: nat, dh: nat, dl: nat) returns (q: nat, rem: nat)
    requires nh < W && nl < W && dh < W && dl < W && All(dh, dl) > 0
    ensures Divided(All(nh, nl), All(dh, dl), q, rem)
  {
    hide All, Divided;
    AllWords(nh, nl, dh, dl);
    if nh == 0 {
      if dh == 0 {
        q, rem := DivideSingle(nl, dl);
      } else {
        q, rem := 0, nl;
        IsDivided(nl, All(dh, dl), 0, nl);
      }
    } else if dl == 0 {
      q, rem := DivideByHigh(nh, nl, dh);
      IsDivided(All(nh, nl), All(dh, dl), q, rem);
    } else if dh == 0 {
      q, rem := DivideByLow(nh, nl, dl);
      IsDivided(All(nh, nl), dl, q, rem);
    } else {
      q, rem := DivideByBoth(nh, nl, dh, dl);
      IsDivided(All(nh, nl), All(dh, dl), q, rem);
    }
  }

  lemma AllWords(nh: nat, nl: nat, dh: nat, dl: nat)
    requires nl < W && dl < W
    ensures nh == 0 ==> All(nh, nl) == nl
    ensures dh == 0 ==> All(dh, dl) == dl
    ensures dh > 0 ==> nl < All(dh, dl)
  {}

  lemma QuotientFits(a: nat, b: nat, q: nat, rem: nat)
    requires a < D && b > 0 && a == q * b + rem
    ensures q < D
  {
    MulAtMost(1, b, q);
  }

  lemma PowerHigh(nh: nat, dh: nat, k: nat, z: nat)
    requires dh == Pow2(k) && TrailingZeros(dh, z)
    ensures Shr(nh, z) == nh / dh && And(nh, dh - 1) == nh % dh
  {
    hide Pow2, And, TrailingZeros;
    PowerZeros(k, z);
    AndMask(nh, k);
  }

  /** The low word of the divisor is zero. */
  method DivideByHigh(nh: nat, nl: nat, dh: nat) returns (q: nat, rem: nat)
    requires 0 < nh < W && nl < W && 0 < dh < W
    ensures All(nh, nl) == q * All(dh, 0) + rem && rem < All(dh, 0)
  {
    hide Pow2, Or, Placed, Shl32, Shr, And, LeadingZeros, TrailingZeros, All;
    HighOnly(nh, nl, dh);
    if nl == 0 {
      return nh / dh, All(nh % dh, 0);
    }
    if And(dh, dh - 1) == 0 {
      ghost var k := AndBefore(dh);
      var z := CountTrailingZeros(dh);
      PowerHigh(nh, dh, k, z);
      return Shr(nh, z), All(And(nh, dh - 1), nl);
    }
    var cd := CountLeadingZeros(dh);
    var cn := CountLeadingZeros(nh);
    LeadingRange(dh, cd);
    LeadingRange(nh, cn);
    var sr := Diff32(cd, cn);
    LeadingBounds(dh, cd);
    AndOne();
    if sr > 30 {
      ZerosBelow(nh, nl, dh, 0, cd, cn);
      return 0, All(nh, nl);
    }
    sr := sr + 1;
    HighStart(nh, nl, dh, 0, cd, cn, sr);
    PlaceFew(nh, nl, sr);
    FewFit(nh, nl, sr);
    StartIs(All(nh, nl), sr, All(Shr(nh, sr), Or(Shl32(nh, 32 - sr), Shr(nl, sr))), All(Shl32(nl, 32 - sr), 0));
    q, rem := DivideLoop(All(nh, nl), All(dh, 0), sr, Shr(nh, sr), Or(Shl32(nh, 32 - sr), Shr(nl, sr)),
      Shl32(nl, 32 - sr), 0);
  }

  /** The high word of the divisor is zero. */
  method DivideByLow(nh: nat, nl: nat, dl: nat) returns (q: nat, rem: nat)
    requires 0 < nh < W && nl < W && 0 < dl < W
    ensures All(nh, nl) == q * dl + rem && rem < dl
  {
    hide Pow2, Or, Placed, Shl32, Shr, And, LeadingZeros, TrailingZeros;
    if And(dl, dl - 1) == 0 {
      ghost var k := AndBefore(dl);
      AndMask(nl, k);
      rem := And(nl, dl - 1);
      if dl == 1 {
        return All(nh, nl), rem;
      }
      var sr := CountTrailingZeros(dl);
      PowerZeros(k, sr);
      PowerBelow(k);
      Zero();
      LowOnly(nh, nl, dl, k);
      return All(Shr(nh, sr), Or(Shl32(nh, 32 - sr), Shr(nl, sr))), rem;
    }
    var cd := CountLeadingZeros(dl);
    var cn := CountLeadingZeros(nh);
    AndOne();
    LowStart(nh, nl, dl, cd, cn);
    var sr: nat := 33 + cd - cn;
    q, rem := Divide(nh, nl, dl, sr);
  }

  /** Puts remainder and quotient where the loop needs them, and goes through the loop. */
  method Divide(nh: nat, nl: nat, d: nat, sr: nat) returns (q: nat, rem: nat)
    requires 0 < nh < W && nl < W && 1 <= sr <= 63 && LoopReady(All(nh, nl), d, sr)
    ensures All(nh, nl) == q * d + rem && rem < d
  {
    hide Pow2, Or, Placed, Shl32, Shr;
    if sr == 32 {
      PlaceWord(nh, nl);
      StartIs(All(nh, nl), 32, All(0, nh), All(nl, 0));
      q, rem := DivideLoop(All(nh, nl), d, 32, 0, nh, nl, 0);
    } else if sr < 32 {
      PlaceFew(nh, nl, sr);
      FewFit(nh, nl, sr);
      StartIs(All(nh, nl), sr, All(Shr(nh, sr), Or(Shl32(nh, 32 - sr), Shr(nl, sr))), All(Shl32(nl, 32 - sr), 0));
      q, rem := DivideLoop(All(nh, nl), d, sr, Shr(nh, sr), Or(Shl32(nh, 32 - sr), Shr(nl, sr)), Shl32(nl, 32 - sr), 0);
    } else {
      PlaceMany(nh, nl, sr);
      ManyFit(nh, nl, sr);
      StartIs(All(nh, nl), sr, All(0, Shr(nh, sr - 32)),
        All(Or(Shl32(nh, 64 - sr), Shr(nl, sr - 32)), Shl32(nl, 64 - sr)));
      q, rem := DivideLoop(All(nh, nl), d, sr, 0, Shr(nh, sr - 32), Or(Shl32(nh, 64 - sr), Shr(nl, sr - 32)),
        Shl32(nl, 64 - sr));
    }
  }

  /** Neither word of the divisor is zero. */
  method DivideByBoth(nh: nat, nl: nat, dh: nat, dl: nat) returns (q: nat, rem: nat)
    requires 0 < nh < W && nl < W && 0 < dh < W && 0 < dl < W
    ensures All(nh, nl) == q * All(dh, dl) + rem && rem < All(dh, dl)
  {
    hide Pow2, Or, Placed, Shl32, Shr, LeadingZeros;
    var cd := CountLeadingZeros(dh);
    var cn := CountLeadingZeros(nh);
    LeadingRange(dh, cd);
    LeadingRange(nh, cn);
    var sr := Diff32(cd, cn);
    if sr > 31 {
      ZerosBelow(nh, nl, dh, dl, cd, cn);
      return 0, All(nh, nl);
    }
    sr := sr + 1;
    HighStart(nh, nl, dh, dl, cd, cn, sr);
    q, rem := Divide(nh, nl, All(dh, dl), sr);
  }

  // ----- what the special cases need -----

  lemma LeadingRange(x: nat, z: nat)
    requires LeadingZeros(x, z)
    ensures z <= 31
  {}

  lemma AndOne()
    ensures And(1, 0) == 0
  {}

  /** If the difference of the zeros wraps around, the divisor is larger. */
  lemma ZerosBelow(nh: nat, nl: nat, dh: nat, dl: nat, cd: nat, cn: nat)
    requires nl < W && LeadingZeros(dh, cd) && LeadingZeros(nh, cn) && cd < cn
    ensures All(nh, nl) < All(dh, dl)
  {
    ZerosOrder(nh, dh, cn, cd);
    MulLess(nh, dh, W);
  }

  /** The loop may begin: the bits above the last `sr` make a number below the divisor. */
  ghost predicate LoopReady(n: nat, d: nat, sr: nat)
  {
    && n < D && d < D && Upper(n, sr) < d
    && (d < 0x8000_0000_0000_0000 || (sr == 1 && n >= 0x8000_0000_0000_0000))
  }

  lemma HighStart(nh: nat, nl: nat, dh: nat, dl: nat, cd: nat, cn: nat, sr: nat)
    requires nh < W && nl < W && dh < W && dl < W && LeadingZeros(dh, cd) && LeadingZeros(nh, cn) && cn <= cd &&
             sr == cd - cn + 1
    ensures LoopReady(All(nh, nl), All(dh, dl), sr)
  {
    hide Pow2;
    Magnitude(dh, dl, cd);
    LoopStart(nh, nl, All(dh, dl), cn, sr, 63 - cd);
  }

  lemma LowStart(nh: nat, nl: nat, dl: nat, cd: nat, cn: nat)
    requires nh < W && nl < W && 1 < dl < W && LeadingZeros(dl, cd) && LeadingZeros(nh, cn)
    ensures cd <= 30 && cn <= 31 && LoopReady(All(nh, nl), dl, 33 + cd - cn)
  {
    hide Pow2;
    LeadingBounds(dl, cd);
    LoopStart(nh, nl, dl, cn, 33 + cd - cn, 31 - cd);
  }

  lemma StartIs(n: nat, sr: nat, r: nat, q: nat)
    requires Placed(n, sr, r, q)
    ensures r == Upper(n, sr)
  {}

  lemma FewFit(nh: nat, nl: nat, sr: nat)
    requires nh < W && nl < W && 1 <= sr <= 31
    ensures Shr(nh, sr) < W && Or(Shl32(nh, 32 - sr), Shr(nl, sr)) < W && Shl32(nl, 32 - sr) < W
  {
    hide Pow2, Or, Shl32;
    LowWord(nh, nl, sr);
    Sizes();
    Pow2Sum(sr, 32 - sr);
    DivBelow(nl, Pow2(sr), Pow2(32 - sr));
    Pow2Sum(0, sr);
    ModBelow(nh, Pow2(sr));
    MulLess(nh % Pow2(sr), Pow2(sr), Pow2(32 - sr));
    DivShrinks(nh, Pow2(sr));
    ShlFits(nl, 32 - sr);
  }

  lemma ManyFit(nh: nat, nl: nat, sr: nat)
    requires nh < W && nl < W && 33 <= sr <= 63
    ensures Shr(nh, sr - 32) < W && Or(Shl32(nh, 64 - sr), Shr(nl, sr - 32)) < W && Shl32(nl, 64 - sr) < W
  {
    hide Or, Shr, Shl32;
    assert 64 - sr == 32 - (sr - 32);
    FewFit(nh, nl, sr - 32);
  }

  lemma ShlFits(x: nat, k: nat)
    ensures Shl32(x, k) < W
  {}

  lemma ModBelow(x: nat, m: nat)
    requires m > 0
    ensures x % m < m
  {}

  lemma DivShrinks(x: nat, m: nat)
    requires m > 0
    ensures x / m <= x
  {
    DivBelow(x, m, x + 1);
    assert x < m * (x + 1) by { MulAtMost(1, m, x + 1); }
  }

  // ----- signed division -----

  /** All ones for a negative number, else all zeros. */
  function SignMask(w: nat): nat { if w >= 0x8000_0000_0000_0000 then D - 1 else 0 }

  /** Negates a word if the mask is all ones. */
  function NegateIf(w: nat, s: nat): nat
    requires w < D && s < D
  {
    (Xor(w, s) + D - s) % D
  }

  lemma NegateIfIs(w: nat, s: nat)
    requires w < D && (s == 0 || s == D - 1)
    ensures NegateIf(w, s) == if s == 0 then w else (D - w) % D
  {
    hide Xor, Pow2;
    Sizes();
    XorNone(w);
    XorOnes(w, 64);
  }

  lemma MaskXor(s: nat, t: nat)
    requires (s == 0 || s == D - 1) && (t == 0 || t == D - 1)
    ensures Xor(s, t) == if s == t then 0 else D - 1
  {
    hide Xor, Pow2;
    Sizes();
    XorNone(s);
    XorOnes(s, 64);
  }

  /** Division that drops the fraction. */
  function Truncated(a: int, b: int): int
    requires b != 0
  {
    if (a < 0) == (b < 0) then Magn(a) / Magn(b) else -(Magn(a) / Magn(b))
  }

  function Magn(x: int): nat { if x < 0 then -x else x }

  /** The quotient is the only one that leaves a remainder smaller than the divisor with the sign of the dividend. */
  lemma TruncatedOnly(a: int, b: int, q: int)
    requires b != 0
    ensures q == Truncated(a, b) <==> (Magn(a - q * b) < Magn(b) && (a - q * b == 0 || (a - q * b < 0) == (a < 0)))
  {
    var q' := if (a < 0) == (b < 0) then q else -q;
    Signs(q, b);
    EuclidOnly(Magn(a), Magn(b), q');
    assert a - q * b == if a < 0 then q' * Magn(b) - Magn(a) else Magn(a) - q' * Magn(b);
  }

  lemma EuclidOnly(x: nat, y: nat, q: int)
    requires y > 0
    ensures q == x / y <==> 0 <= x - q * y < y
    ensures x == 0 && x - q * y != 0 ==> x - q * y >= y || x - q * y <= 0 - y
  {
    var r := x - q * y;
    if 0 <= r < y { Unique(x, y, q, r); }
    Euclid(x, y);
    MulFar(q, y);
  }

  lemma Signs(q: int, b: int)
    ensures q * b == (-q) * (-b) && (-q) * b == -(q * b) && q * (-b) == -(q * b)
  {}

  method DivDi3(a: nat, b: nat) returns (q: nat)
    requires a < D && 0 < b < D
    ensures q == Word(Truncated(Signed(a), Signed(b)))
  {
    hide Xor, Truncated;
    var sa, sb := SignMask(a), SignMask(b);
    NegateIfIs(a, sa);
    NegateIfIs(b, sb);
    Magnitudes(a);
    Magnitudes(b);
    var x, y := NegateIf(a, sa), NegateIf(b, sb);
    MaskXor(sa, sb);
    var s := Xor(sa, sb);
    var u, r := UDivModDi4(x, y);
    NegateIfIs(u, s);
    QuotientSigned(a, b, u, r);
    q := NegateIf(u, s);
  }

  lemma Magnitudes(a: nat)
    requires a < D
    ensures (if SignMask(a) == 0 then a else (D - a) % D) == Magn(Signed(a)) && (a > 0 ==> Magn(Signed(a)) > 0)
  {}

  lemma QuotientSigned(a: nat, b: nat, u: nat, r: nat)
    requires a < D && 0 < b < D && Magn(Signed(a)) == u * Magn(Signed(b)) + r && r < Magn(Signed(b)) && u < D
    ensures Word(Truncated(Signed(a), Signed(b))) == if SignMask(a) == SignMask(b) then u else (D - u) % D
  {
    hide Truncated, Magn;
    TruncatedIs(Signed(a), Signed(b), u, r);
    WordNegated(u);
  }

  lemma TruncatedIs(x: int, y: int, u: nat, r: nat)
    requires y != 0 && Magn(x) == u * Magn(y) + r && r < Magn(y)
    ensures Truncated(x, y) == if (x < 0) == (y < 0) then u as int else 0 - u
  {
    Unique(Magn(x), Magn(y), u, r);
  }

  lemma WordNegated(u: nat)
    requires u < D
    ensures Word(u) == u && Word(0 - u) == (D - u) % D
  {}

  /** The remainder has the sign of the dividend. */
  method ModDi3(a: nat, b: nat) returns (rem: nat)
    requires a < D && 0 < b < D
    ensures rem < D && Signed(rem) == Signed(a) - Truncated(Signed(a), Signed(b)) * Signed(b)
  {
    hide Xor, Truncated;
    var s := SignMask(b);
    NegateIfIs(b, s);
    Magnitudes(b);
    var y := NegateIf(b, s);
    s := SignMask(a);
    NegateIfIs(a, s);
    Magnitudes(a);
    var x := NegateIf(a, s);
    var u, r := UDivModDi4(x, y);
    RemainderSigned(a, b, u, r);
    NegateIfIs(r, s);
    rem := NegateIf(r, s);
  }

  lemma RemainderSigned(a: nat, b: nat, u: nat, r: nat)
    requires a < D && 0 < b < D && Magn(Signed(a)) == u * Magn(Signed(b)) + r && r < Magn(Signed(b))
    ensures r < 0x8000_0000_0000_0000
    ensures Signed(if SignMask(a) == 0 then r else (D - r) % D) ==
            Signed(a) - Truncated(Signed(a), Signed(b)) * Signed(b)
  {
    MagnSmall(Signed(b));
    RemainderIs(Signed(a), Signed(b), u, r);
    hide Truncated, Magn;
  }

  lemma MagnSmall(y: int)
    requires -0x8000_0000_0000_0000 <= y < 0x8000_0000_0000_0000
    ensures Magn(y) <= 0x8000_0000_0000_0000
  {}

  lemma RemainderIs(x: int, y: int, u: nat, r: nat)
    requires y != 0 && Magn(x) == u * Magn(y) + r && r < Magn(y)
    ensures x - Truncated(x, y) * y == if x < 0 then 0 - r else r as int
  {
    TruncatedIs(x, y, u, r);
    Signs(u, y);
    hide Truncated;
  }

  method DivModDi4(a: nat, b: nat) returns (d: nat, rem: nat)
    requires a < D && 0 < b < D
    ensures d == Word(Truncated(Signed(a), Signed(b)))
    ensures rem < D && Signed(rem) == Signed(a) - Truncated(Signed(a), Signed(b)) * Signed(b)
  {
    hide Truncated;
    d := DivDi3(a, b);
    BackMultiplied(a, b);
    rem := (a + D * D - d * b) % D;
  }

  /** Multiplying words back gives the remainder, though the product wraps around. */
  lemma BackMultiplied(a: nat, b: nat)
    requires a < D && 0 < b < D
    ensures var d := Word(Truncated(Signed(a), Signed(b)));
      d * b <= D * D && Signed((a + D * D - d * b) % D) == Signed(a) - Truncated(Signed(a), Signed(b)) * Signed(b)
  {
    hide Truncated;
    var q := Truncated(Signed(a), Signed(b));
    var d := Word(q);
    var r := Signed(a) - q * Signed(b);
    TruncatedOnly(Signed(a), Signed(b), q);
    MulAtMost(d, D, b);
    MulAtMost(b, D, D);
    assert b * D == D * b;
    var i, j, k := q / D, if SignMask(b) == 0 then 0 else 1, if SignMask(a) == 0 then 0 else 1;
    BackArith(a, k, b, j, q, d, i);
    Wrapped(a + D * D - d * b, r, D + k - d * j + i * b - i * j * D);
  }

  lemma Wrapped(x: int, r: int, k: int)
    requires x == r + k * D && -0x8000_0000_0000_0000 <= r < 0x8000_0000_0000_0000
    ensures Signed(x % D) == r
  {
    if r >= 0 { Unique(x, D, k, r); } else { Unique(x, D, k - 1, r + D); }
  }

  lemma BackArith(a: int, k: int, b: int, j: int, q: int, d: int, i: int)
    requires q == D * i + d
    ensures a + D * D - d * b == (a - k * D) - q * (b - j * D) + (D + k - d * j + i * b - i * j * D) * D
  {
    assert q * (b - j * D) == q * b - q * (j * D);
    assert q * b == D * i * b + d * b;
    assert q * (j * D) == D * i * (j * D) + d * (j * D);
    assert D * i * (j * D) == i * j * D * D;
    assert d * (j * D) == d * j * D;
  }
}
