/** Choosing the size of the array part: the largest power of two of which more than half would be in use. */
module TableSizes {
  import opened Powers
  import opened TableState

  /** The least power of two that is not below `x`, for `x` up to 256. */
  function Log2Table(x: nat): nat
    requires x < 256
  {
    if x < 1 then 0 else if x < 2 then 1 else if x < 4 then 2 else if x < 8 then 3 else if x < 16 then 4
    else if x < 32 then 5 else if x < 64 then 6 else if x < 128 then 7 else 8
  }

  /** `l` is the logarithm of `x`, rounded up. */
  ghost predicate IsCeilLog2(x: nat, l: nat) { x <= Pow2(l) && (l == 0 || Pow2(l - 1) < x) }

  lemma Pow2Values()
    ensures Pow2(0) == 1 && Pow2(1) == 2 && Pow2(2) == 4 && Pow2(3) == 8 && Pow2(4) == 16 && Pow2(5) == 32
    ensures Pow2(6) == 64 && Pow2(7) == 128 && Pow2(8) == 256
  {
    assert Pow2(2) == 2 * Pow2(1) && Pow2(4) == 2 * Pow2(3) && Pow2(6) == 2 * Pow2(5) && Pow2(8) == 2 * Pow2(7);
    assert Pow2(3) == 2 * Pow2(2) && Pow2(5) == 2 * Pow2(4) && Pow2(7) == 2 * Pow2(6);
  }

  lemma {:induction false} Pow2Eight(l: nat)
    ensures Pow2(l + 8) == 256 * Pow2(l)
  {
    Pow2Values();
    assert Pow2(l + 8) == 2 * Pow2(l + 7) && Pow2(l + 7) == 2 * Pow2(l + 6) && Pow2(l + 6) == 2 * Pow2(l + 5);
    assert Pow2(l + 5) == 2 * Pow2(l + 4) && Pow2(l + 4) == 2 * Pow2(l + 3) && Pow2(l + 3) == 2 * Pow2(l + 2);
    assert Pow2(l + 2) == 2 * Pow2(l + 1) && Pow2(l + 1) == 2 * Pow2(l);
  }

  /** Shifting eight bits out of one less than a number takes eight off its logarithm. */
  lemma ShiftEight(x: nat, l: nat)
    requires x >= 256 && IsCeilLog2(x / 256 + 1, l)
    ensures IsCeilLog2(x + 1, l + 8)
  {
    Pow2Eight(l);
    if l > 0 { Pow2Eight(l - 1); } else { Pow2Values(); }
  }

  lemma {:induction false} CeilLog2Unique(x: nat, a: nat, b: nat)
    requires IsCeilLog2(x, a) && IsCeilLog2(x, b)
    ensures a == b
  {
    if a < b { Pow2Monotone(a, b - 1); } else if b < a { Pow2Monotone(b, a - 1); }
  }

  /** How often eight can be shifted out before a byte is left, times eight, and that byte. */
  function Shifted(x: nat): (r: (nat, nat))
    ensures r.1 < 256
  {
    if x < 256 then (0, x) else var s := Shifted(x / 256); (s.0 + 8, s.1)
  }

  lemma {:induction false} ShiftedLog(x: nat)
    ensures IsCeilLog2(x + 1, Shifted(x).0 + Log2Table(Shifted(x).1))
  {
    if x < 256 {
      Pow2Values();
    } else {
      ShiftedLog(x / 256);
      ShiftEight(x, Shifted(x / 256).0 + Log2Table(Shifted(x / 256).1));
    }
  }

  method CeilLog2(x0: nat) returns (l: nat)
    requires x0 >= 1
    ensures IsCeilLog2(x0, l)
  {
    var x: nat := x0 - 1;
    l := 0;
    while x >= 256
      invariant Shifted(x0 - 1) == (l + Shifted(x).0, Shifted(x).1)
    {
      l := l + 8;
      x := x / 256;
    }
    ShiftedLog(x0 - 1);
    l := l + Log2Table(x);
  }

  // ----- counting integer keys by slices -----

  /** A number that can be an index of the array part. */
  predicate ArrayIndex(k: V) { k.Int? && 1 <= k.n <= Pow2(MAXABITS) }

  /** Slice `l` holds the keys above 2^(l-1), up to 2^l. */
  predicate InSlice(k: V, l: nat) { k.Int? && 1 <= k.n <= Pow2(l) && (l == 0 || Pow2(l - 1) < k.n) }

  ghost function Slice(s: set<V>, l: nat): set<V> { set k | k in s && InSlice(k, l) }

  ghost function UpTo(s: set<V>, n: nat): set<V> { set k | k in s && InArray(k, n) }

  ghost predicate Indices(s: set<V>) { forall k :: k in s ==> ArrayIndex(k) }

  /** `nums` counts the keys of `s` slice by slice. */
  ghost predicate Counted(nums: seq<nat>, s: set<V>)
  {
    |nums| == MAXABITS + 1 && forall l :: 0 <= l <= MAXABITS ==> nums[l] == |Slice(s, l)|
  }

  lemma CountedOne(nums: seq<nat>, s: set<V>, k: V, l: nat)
    requires Counted(nums, s) && k !in s && ArrayIndex(k) && IsCeilLog2(k.n, l)
    ensures l <= MAXABITS && Counted(nums[l := nums[l] + 1], s + {k})
  {
    if l > MAXABITS { Pow2Monotone(MAXABITS, l - 1); }
    forall m | 0 <= m <= MAXABITS
      ensures |Slice(s + {k}, m)| == if m == l then |Slice(s, m)| + 1 else |Slice(s, m)|
    {
      if m == l {
        assert Slice(s + {k}, m) == Slice(s, m) + {k};
      } else {
        if InSlice(k, m) { CeilLog2Unique(k.n, l, m); }
        assert Slice(s + {k}, m) == Slice(s, m);
      }
    }
  }

  lemma UpToNext(s: set<V>, l: nat)
    ensures l == 0 ==> UpTo(s, Pow2(l)) == Slice(s, l)
    ensures l > 0 ==> |UpTo(s, Pow2(l))| == |UpTo(s, Pow2(l - 1))| + |Slice(s, l)|
  {
    if l == 0 {
      assert UpTo(s, Pow2(l)) == Slice(s, l);
    } else {
      assert UpTo(s, Pow2(l)) == UpTo(s, Pow2(l - 1)) + Slice(s, l);
      assert UpTo(s, Pow2(l - 1)) !! Slice(s, l);
    }
  }

  lemma {:induction false} UpToBound(s: set<V>, n: nat)
    ensures |UpTo(s, n)| <= n
  {
    if n == 0 {
      assert UpTo(s, n) == {};
    } else {
      UpToBound(s, n - 1);
      assert UpTo(s, n) <= UpTo(s, n - 1) + {Int(n)};
      SubsetSize(UpTo(s, n), UpTo(s, n - 1) + {Int(n)});
    }
  }

  lemma {:induction false} SubsetSize<T>(a: set<T>, b: set<T>)
    requires a <= b
    ensures |a| <= |b|
    ensures a != b ==> |a| < |b|
    decreases |a|
  {
    if a != {} {
      var x :| x in a;
      SubsetSize(a - {x}, b - {x});
      if a != b { assert (a - {x}) + {x} == a && (b - {x}) + {x} == b; }
    } else if a != b {
      var y :| y in b;
      assert |b - {y}| == |b| - 1;
    }
  }

  /** More than half of the slots up to `2^l` are wanted. */
  ghost predicate WellUsed(s: set<V>, l: nat) { |UpTo(s, Pow2(l))| > Pow2(l) / 2 }

  ghost predicate UsedPower(s: set<V>, n: nat) { exists l: nat :: l <= MAXABITS && n == Pow2(l) && WellUsed(s, l) }

  /** Among the powers of two below `2^i`, `n` is the largest of which more than half is wanted, or nothing. */
  ghost predicate Best(s: set<V>, i: nat, n: nat)
  {
    && (n == 0 || UsedPower(s, n))
    && forall l: nat :: l < i && WellUsed(s, l) ==> Pow2(l) <= n
  }

  /** `n` is the largest power of two of which more than half is wanted, or nothing, and `na` keys go there. */
  ghost predicate Optimal(s: set<V>, n: nat, na: nat)
  {
    na == |UpTo(s, n)| && (n == 0 || UsedPower(s, n)) && forall l: nat :: WellUsed(s, l) ==> Pow2(l) <= n
  }

  lemma BestNext(s: set<V>, i: nat, n: nat)
    requires Best(s, i, n)
    ensures WellUsed(s, i) && i <= MAXABITS ==> Best(s, i + 1, Pow2(i))
    ensures !WellUsed(s, i) ==> Best(s, i + 1, n)
  {
    hide WellUsed;
    forall l: nat | l < i ensures Pow2(l) <= Pow2(i) { Pow2Monotone(l, i); }
  }

  lemma BestDone(s: set<V>, i: nat, n: nat)
    requires Best(s, i, n) && |s| <= Pow2(i) / 2
    ensures Optimal(s, n, |UpTo(s, n)|)
  {
    hide WellUsed, UpTo;
    forall l: nat | WellUsed(s, l) ensures Pow2(l) <= n {
      if l >= i { TooFew(s, i, l); }
    }
  }

  /** Beyond a power of two of which half exceeds the number of keys nothing is well used. */
  lemma TooFew(s: set<V>, i: nat, l: nat)
    requires |s| <= Pow2(i) / 2 && l >= i
    ensures !WellUsed(s, l)
  {
    Pow2Monotone(i, l);
    SubsetSize(UpTo(s, Pow2(l)), s);
  }

  lemma AtMost(s: set<V>)
    requires Indices(s)
    ensures |s| <= Pow2(MAXABITS)
  {
    assert s == UpTo(s, Pow2(MAXABITS));
    UpToBound(s, Pow2(MAXABITS));
  }

  /** A slice with no keys cannot make its power of two well used. */
  lemma EmptySlice(s: set<V>, l: nat)
    requires |Slice(s, l)| == 0
    ensures !WellUsed(s, l)
  {
    UpToNext(s, l);
    if l > 0 { UpToBound(s, Pow2(l - 1)); }
  }

  /** The size of the array part, and the number of keys that go there, from the counts. */
  method ComputeSizes(nums: seq<nat>, pna: nat, ghost s: set<V>) returns (optimal: nat, na: nat)
    requires Counted(nums, s) && pna == |s| && Indices(s)
    ensures Optimal(s, optimal, na)
  {
    hide Slice, UpTo, WellUsed, Best;
    var a: nat := 0;
    na, optimal := 0, 0;
    var i, twotoi := 0, 1;
    AtMost(s);
    NoneUpToZero(s);
    assert Pow2(MAXABITS + 1) == 2 * Pow2(MAXABITS);
    while pna > twotoi / 2
      invariant twotoi == Pow2(i) && i <= MAXABITS + 1
      invariant a == if i == 0 then 0 else |UpTo(s, Pow2(i - 1))|
      invariant na == |UpTo(s, optimal)| && Best(s, i, optimal)
      decreases MAXABITS + 1 - i
    {
      assert i <= MAXABITS;
      UpToNext(s, i);
      UsedIntro(s, i);
      BestNext(s, i, optimal);
      if nums[i] > 0 {
        a := a + nums[i];
        if a > twotoi / 2 {
          optimal := twotoi;
          na := a;
        }
      } else {
        EmptySlice(s, i);
      }
      i, twotoi := i + 1, twotoi * 2;
    }
    BestDone(s, i, optimal);
  }

  lemma NoneUpToZero(s: set<V>)
    ensures UpTo(s, 0) == {} && Best(s, 0, 0)
  {}

  lemma UsedIntro(s: set<V>, l: nat)
    ensures WellUsed(s, l) <==> |UpTo(s, Pow2(l))| > Pow2(l) / 2
  {}

  ghost function Indexed(s: set<V>): set<V> { set k | k in s && ArrayIndex(k) }

  lemma CountedNone(nums: seq<nat>)
    requires |nums| == MAXABITS + 1 && forall l :: 0 <= l <= MAXABITS ==> nums[l] == 0
    ensures Counted(nums, {})
  {
    forall l: nat ensures Slice({}, l) == {} {}
  }

  /** Keys of one slice are counted together. */
  lemma CountedSlice(nums: seq<nat>, s: set<V>, t: set<V>, l: nat)
    requires Counted(nums, s) && s !! t && l <= MAXABITS && forall k :: k in t ==> InSlice(k, l)
    ensures Counted(nums[l := nums[l] + |t|], s + t)
  {
    forall m: nat | m <= MAXABITS
      ensures |Slice(s + t, m)| == if m == l then |Slice(s, m)| + |t| else |Slice(s, m)|
    {
      if m == l {
        assert Slice(s + t, m) == Slice(s, m) + t;
      } else {
        forall k | k in t ensures !InSlice(k, m) { OneSlice(k, l, m); }
        assert Slice(s + t, m) == Slice(s, m);
      }
    }
  }

  lemma OneSlice(k: V, l: nat, m: nat)
    requires InSlice(k, l) && l != m
    ensures !InSlice(k, m)
  {
    if InSlice(k, m) { CeilLog2Unique(k.n, l, m); }
  }
}
