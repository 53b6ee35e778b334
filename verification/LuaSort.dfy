/** `table.sort`: quicksort in place, with any comparison function. */
module LuaSort {
  import opened Powers

  const RANLIMIT: nat := 100

  /** The comparison can be called with some elements. */
  ghost predicate Defined<T(!new)>(lt: (T, T) --> bool, among: T -> bool)
  {
    forall x, y :: among(x) && among(y) ==> lt.requires(x, y)
  }

  ghost predicate Less<T>(lt: (T, T) --> bool, x: T, y: T) { lt.requires(x, y) && lt(x, y) }

  /** The comparison is a strict weak order of some elements. */
  ghost predicate StrictWeak<T(!new)>(lt: (T, T) --> bool, among: T -> bool)
  {
    && (forall x, y :: among(x) && among(y) && Less(lt, x, y) ==> !Less(lt, y, x))
    && (forall x, y, z :: among(x) && among(y) && among(z) && !Less(lt, x, y) && !Less(lt, y, z) ==> !Less(lt, x, z))
  }

  /** The range holds only such elements. */
  ghost predicate Holds<T>(s: seq<T>, lo: int, up: int, among: T -> bool)
    requires 0 <= lo && up < |s|
  {
    forall k :: lo <= k <= up ==> among(s[k])
  }

  /** No element of the range comes before an earlier one. */
  ghost predicate Sorted<T>(s: seq<T>, lo: int, up: int, lt: (T, T) --> bool)
    requires 0 <= lo && up < |s|
  {
    forall i, j :: lo <= i < j <= up ==> !Less(lt, s[j], s[i])
  }

  /** Only the range changed, and it holds what it held. */
  ghost predicate Permuted<T>(s: seq<T>, s': seq<T>, lo: int, up: int)
  {
    && |s'| == |s| && 0 <= lo && up < |s| && lo <= up + 1
    && s'[..lo] == s[..lo] && s'[up + 1..] == s[up + 1..] && multiset(s'[lo..up + 1]) == multiset(s[lo..up + 1])
  }

  function Swapped<T>(s: seq<T>, i: nat, j: nat): seq<T>
    requires i < |s| && j < |s|
  {
    s[i := s[j]][j := s[i]]
  }

  lemma SwapSame<T>(s: seq<T>, i: nat, j: nat)
    requires i < |s| && j < |s|
    ensures multiset(Swapped(s, i, j)) == multiset(s)
  {}

  lemma SwapPermuted<T>(s: seq<T>, i: nat, j: nat, lo: int, up: int)
    requires 0 <= lo <= i <= up < |s| && lo <= j <= up
    ensures Permuted(s, Swapped(s, i, j), lo, up)
  {
    SwapMiddle(s, i, j, lo, up);
    SwapSame(s[lo..up + 1], i - lo, j - lo);
    SwapOutside(s, i, j, lo, up);
    hide Swapped;
  }

  lemma SwapMiddle<T>(s: seq<T>, i: nat, j: nat, lo: int, up: int)
    requires 0 <= lo <= i <= up < |s| && lo <= j <= up
    ensures Swapped(s, i, j)[lo..up + 1] == Swapped(s[lo..up + 1], i - lo, j - lo)
  {}

  lemma SwapOutside<T>(s: seq<T>, i: nat, j: nat, lo: int, up: int)
    requires 0 <= lo <= i <= up < |s| && lo <= j <= up
    ensures var t := Swapped(s, i, j); |t| == |s| && t[..lo] == s[..lo] && t[up + 1..] == s[up + 1..]
  {}

  lemma PermutedThen<T>(s: seq<T>, t: seq<T>, u: seq<T>, lo: int, up: int)
    requires Permuted(s, t, lo, up) && Permuted(t, u, lo, up)
    ensures Permuted(s, u, lo, up)
  {}

  /** A permuted part leaves the whole permuted. */
  lemma PermutedWithin<T>(s: seq<T>, t: seq<T>, lo: int, up: int, lo': int, up': int)
    requires Permuted(s, t, lo', up') && 0 <= lo <= lo' && up' <= up < |s| && lo' <= up' + 1 <= up + 1
    ensures Permuted(s, t, lo, up)
  {
    var a, b, c := s[lo..lo'], s[lo'..up' + 1], s[up' + 1..up + 1];
    var b' := t[lo'..up' + 1];
    assert t[lo..lo'] == t[..lo'][lo..] && a == s[..lo'][lo..];
    assert t[up' + 1..up + 1] == t[up' + 1..][..up - up'] && c == s[up' + 1..][..up - up'];
    assert s[lo..up + 1] == a + b + c && t[lo..up + 1] == a + b' + c;
    assert t[..lo] == t[..lo'][..lo] && s[..lo] == s[..lo'][..lo];
    assert t[up + 1..] == t[up' + 1..][up - up'..] && s[up + 1..] == s[up' + 1..][up - up'..];
  }

  /** What holds of all elements of a range holds of them however they are permuted. */
  lemma PermutedBound<T>(s: seq<T>, t: seq<T>, lo: int, up: int, k: int) returns (j: int)
    requires Permuted(s, t, lo, up) && lo <= k <= up
    ensures lo <= j <= up && t[k] == s[j]
  {
    assert t[lo..up + 1][k - lo] == t[k];
    assert t[k] in multiset(t[lo..up + 1]);
    assert t[k] in multiset(s[lo..up + 1]);
    var i :| 0 <= i < |s[lo..up + 1]| && s[lo..up + 1][i] == t[k];
    j := lo + i;
  }

  lemma PermutedOutside<T>(s: seq<T>, t: seq<T>, lo: int, up: int)
    requires Permuted(s, t, lo, up)
    ensures forall k :: 0 <= k < lo || up < k < |s| ==> t[k] == s[k]
  {
    assert forall k :: 0 <= k < lo ==> t[k] == t[..lo][k] && s[k] == s[..lo][k];
    assert forall k :: up < k < |s| ==> t[k] == t[up + 1..][k - up - 1] && s[k] == s[up + 1..][k - up - 1];
  }

  method Swap<T>(a: array<T>, i: nat, j: nat)
    requires i < a.Length && j < a.Length
    modifies a
    ensures a[..] == Swapped(old(a[..]), i, j)
  {
    a[i], a[j] := a[j], a[i];
  }

  /** What the pivot at `p` has on its two sides. */
  ghost predicate Split<T>(s: seq<T>, lo: int, up: int, p: int, lt: (T, T) --> bool)
    requires 0 <= lo <= p <= up < |s|
  {
    (forall k :: lo <= k < p ==> !Less(lt, s[p], s[k])) && (forall k :: p < k <= up ==> !Less(lt, s[k], s[p]))
  }

  ghost predicate NotAbove<T>(s: seq<T>, lo: int, i: int, pivot: T, lt: (T, T) --> bool)
    requires 0 <= lo && i < |s|
  {
    forall k :: lo <= k <= i ==> !Less(lt, pivot, s[k])
  }

  ghost predicate NotBelow<T>(s: seq<T>, j: int, up: int, pivot: T, lt: (T, T) --> bool)
    requires 0 <= j && up < |s|
  {
    forall k :: j <= k <= up ==> !Less(lt, s[k], pivot)
  }

  /** Goes up while elements come before the pivot; fails at the pivot. */
  method ScanUp<T(!new)>(a: array<T>, i0: nat, up: nat, pivot: T, lt: (T, T) --> bool, ghost among: T -> bool)
        returns (ok: bool, i: nat)
    requires i0 + 1 < up < a.Length && Defined(lt, among) && Holds(a[..], i0 + 1, up - 1, among) && among(pivot)
    ensures i0 < i < up && (ok ==> !Less(lt, a[i], pivot)) && (!ok ==> i == up - 1 && Less(lt, a[i], pivot))
    ensures forall k :: i0 < k < i ==> Less(lt, a[k], pivot)
  {
    i := i0 + 1;
    while lt(a[i], pivot)
      invariant i0 < i < up && forall k :: i0 < k < i ==> Less(lt, a[k], pivot)
      decreases up - i
    {
      if i == up - 1 {
        return false, i;
      }
      i := i + 1;
    }
    return true, i;
  }

  /** Goes down while elements come after the pivot; fails below `i`. */
  method ScanDown<T(!new)>(a: array<T>, j0: nat, i: nat, pivot: T, lt: (T, T) --> bool, ghost lo: nat,
                    ghost among: T -> bool)
      returns (ok: bool, j: nat)
    requires lo < j0 < a.Length && lo < i && Defined(lt, among) && Holds(a[..], lo, j0 - 1, among) && among(pivot)
    ensures lo <= j < j0 && (j == j0 - 1 || i - 1 <= j)
    ensures (ok ==> !Less(lt, pivot, a[j])) && (!ok ==> j < i && Less(lt, pivot, a[j]))
    ensures forall k :: j < k < j0 ==> Less(lt, pivot, a[k])
  {
    j := j0 - 1;
    while lt(pivot, a[j])
      invariant lo <= j < j0 && (j == j0 - 1 || i - 1 <= j) && forall k :: j < k < j0 ==> Less(lt, pivot, a[k])
      decreases j
    {
      if j < i {
        return false, j;
      }
      j := j - 1;
    }
    return true, j;
  }

  /** Exchanges two elements of a range. */
  method SwapWithin<T(!new)>(a: array<T>, i: nat, j: nat, lo: nat, up: nat, ghost s0: seq<T>, ghost among: T -> bool)
    requires lo <= i <= up < a.Length && lo <= j <= up && Permuted(s0, a[..], lo, up) && Holds(a[..], lo, up, among)
    modifies a
    ensures a[..] == Swapped(old(a[..]), i, j) && Permuted(s0, a[..], lo, up) && Holds(a[..], lo, up, among)
  {
    hide Permuted, Swapped, Holds;
    ghost var s1 := a[..];
    Swap(a, i, j);
    SwapPermuted(s1, i, j, lo, up);
    PermutedThen(s0, s1, a[..], lo, up);
    HoldsPermuted(s1, a[..], lo, up, lo, up, among);
  }

  /** Brings the elements that are not after the pivot, which is next to last, before those that are not before it.
      Whatever the comparison says, it is called with elements of the range only, and nothing else moves. */
  method Partition<T(!new)>(a: array<T>, lo: nat, up: nat, lt: (T, T) --> bool, ghost among: T -> bool)
        returns (ok: bool, i: nat)
    requires lo + 2 < up < a.Length && Defined(lt, among) && Holds(a[..], lo, up, among)
    modifies a
    ensures Permuted(old(a[..]), a[..], lo, up)
    ensures ok ==> lo < i < up
    ensures StrictWeak(lt, among) && !Less(lt, old(a[up - 1]), old(a[lo])) && !Less(lt, old(a[up]), old(a[up - 1])) ==>
              ok && Split(a[..], lo, up, i, lt)
  {
    hide Permuted, StrictWeak, NotAbove, NotBelow, Split, Swapped, Defined, Holds;
    ghost var s0 := a[..];
    ghost var good := StrictWeak(lt, among) && !Less(lt, s0[up - 1], s0[lo]) && !Less(lt, s0[up], s0[up - 1]);
    var pivot := a[up - 1];
    HoldsAt(s0, lo, up, up - 1, among);
    i := lo;
    var j: nat := up - 1;
    PermutedSelf(s0, lo, up);
    StartSides(s0, lo, up, lt, among);
    while true
      invariant lo <= i <= j < up && i < up - 1 && (i == lo ==> j == up - 1) && (i > lo ==> j < up - 1)
      invariant a[up - 1] == pivot && among(pivot) && Permuted(s0, a[..], lo, up) && Holds(a[..], lo, up, among)
      invariant good ==> NotAbove(a[..], lo, i, pivot, lt) && NotBelow(a[..], j, up, pivot, lt)
      decreases up - i
    {
      ghost var s1, i0, j0 := a[..], i, j;
      var up_, down: bool;
      HoldsWithin(s1, lo, up, i + 1, up - 1, among);
      up_, i := ScanUp(a, i, up, pivot, lt, among);
      if !up_ {
        PivotItself(lt, pivot, among);
        return false, i;
      }
      HoldsWithin(s1, lo, up, lo, j - 1, among);
      down, j := ScanDown(a, j, i, pivot, lt, lo, among);
      if good { Sides(s1, lo, up, i0, i, j0, j, pivot, lt, among); }
      if !down {
        return false, i;
      }
      if j < i {
        SwapWithin(a, up - 1, i, lo, up, s0, among);
        if good { FinalSides(s1, lo, up, i, j, pivot, lt, among); }
        return true, i;
      }
      SwapWithin(a, i, j, lo, up, s0, among);
      if good { SwapSides(s1, lo, up, i, j, pivot, lt); }
      assert Swapped(s1, i, j)[up - 1] == s1[up - 1] by { SwappedElsewhere(s1, i, j, up - 1); }
    }
  }

  lemma HoldsAt<T>(s: seq<T>, lo: int, up: int, k: int, among: T -> bool)
    requires 0 <= lo <= k <= up < |s| && Holds(s, lo, up, among)
    ensures among(s[k])
  {}

  lemma HoldsWithin<T>(s: seq<T>, lo: int, up: int, lo': int, up': int, among: T -> bool)
    requires 0 <= lo <= lo' && up' <= up < |s| && Holds(s, lo, up, among)
    ensures Holds(s, lo', up', among)
  {}

  /** However an inner range is permuted, the range holds the same elements. */
  lemma HoldsPermuted<T>(s: seq<T>, t: seq<T>, lo: int, up: int, lo': int, up': int, among: T -> bool)
    requires 0 <= lo <= lo' && up' <= up < |s| && Holds(s, lo, up, among) && Permuted(s, t, lo', up')
    ensures |t| == |s| && Holds(t, lo, up, among)
  {
    PermutedOutside(s, t, lo', up');
    forall k | lo <= k <= up ensures among(t[k]) {
      if lo' <= k <= up' { var j := PermutedBound(s, t, lo', up', k); }
    }
  }

  lemma SwappedElsewhere<T>(s: seq<T>, i: nat, j: nat, k: nat)
    requires i < |s| && j < |s| && k < |s| && k != i && k != j
    ensures Swapped(s, i, j)[k] == s[k]
  {}

  lemma StartSides<T(!new)>(s: seq<T>, lo: nat, up: nat, lt: (T, T) --> bool, among: T -> bool)
    requires lo + 2 < up < |s| && Holds(s, lo, up, among)
    ensures StrictWeak(lt, among) && !Less(lt, s[up - 1], s[lo]) && !Less(lt, s[up], s[up - 1]) ==>
              NotAbove(s, lo, lo, s[up - 1], lt) && NotBelow(s, up - 1, up, s[up - 1], lt)
  {}

  lemma PermutedSelf<T>(s: seq<T>, lo: int, up: int)
    requires 0 <= lo <= up + 1 <= |s|
    ensures Permuted(s, s, lo, up)
  {}

  lemma PivotItself<T(!new)>(lt: (T, T) --> bool, x: T, among: T -> bool)
    requires among(x)
    ensures StrictWeak(lt, among) ==> !Less(lt, x, x)
  {}

  /** After both scans, what lies below `i` and above `j` is on the right side, and the second scan did not fail. */
  lemma Sides<T(!new)>(s: seq<T>, lo: nat, up: nat, i0: nat, i: nat, j0: nat, j: nat, pivot: T, lt: (T, T) --> bool,
                among: T -> bool)
    requires lo <= i0 < i < up < |s| && lo <= j < j0 < up && i0 <= j0 && (j == j0 - 1 || i - 1 <= j)
    requires forall k :: i0 < k < i ==> Less(lt, s[k], pivot)
    requires forall k :: j < k < j0 ==> Less(lt, pivot, s[k])
    requires StrictWeak(lt, among) && Holds(s, lo, up, among) && among(pivot)
    requires NotAbove(s, lo, i0, pivot, lt) && NotBelow(s, j0, up, pivot, lt)
    ensures NotAbove(s, lo, i - 1, pivot, lt) && NotBelow(s, j + 1, up, pivot, lt)
    ensures j < i ==> !Less(lt, pivot, s[j])
  {}

  lemma SwapSides<T(!new)>(s: seq<T>, lo: nat, up: nat, i: nat, j: nat, pivot: T, lt: (T, T) --> bool)
    requires lo < i <= j < up < |s| && NotAbove(s, lo, i - 1, pivot, lt) && NotBelow(s, j + 1, up, pivot, lt)
    requires !Less(lt, s[i], pivot) && !Less(lt, pivot, s[j])
    ensures NotAbove(Swapped(s, i, j), lo, i, pivot, lt) && NotBelow(Swapped(s, i, j), j, up, pivot, lt)
  {}

  lemma FinalSides<T(!new)>(s: seq<T>, lo: nat, up: nat, i: nat, j: nat, pivot: T, lt: (T, T) --> bool,
                     among: T -> bool)
    requires lo <= j < i < up < |s| && NotAbove(s, lo, i - 1, pivot, lt) && NotBelow(s, j + 1, up, pivot, lt)
    requires s[up - 1] == pivot && StrictWeak(lt, among) && among(pivot)
    ensures Split(Swapped(s, up - 1, i), lo, up, i, lt)
  {}

  // ----- three elements -----

  method OrderEnds<T(!new)>(a: array<T>, lo: nat, up: nat, lt: (T, T) --> bool, ghost among: T -> bool)
    requires lo < up < a.Length && Defined(lt, among) && Holds(a[..], lo, up, among)
    modifies a
    ensures Permuted(old(a[..]), a[..], lo, up) && (StrictWeak(lt, among) ==> !Less(lt, a[up], a[lo]))
  {
    hide Permuted, StrictWeak;
    PermutedSelf(a[..], lo, up);
    if lt(a[up], a[lo]) {
      SwapPermuted(a[..], lo, up, lo, up);
      OtherWay(lt, a[up], a[lo], among);
      Swap(a, lo, up);
    }
  }

  lemma OtherWay<T(!new)>(lt: (T, T) --> bool, x: T, y: T, among: T -> bool)
    requires among(x) && among(y) && Less(lt, x, y)
    ensures StrictWeak(lt, among) ==> !Less(lt, y, x)
  {}

  method OrderMiddle<T(!new)>(a: array<T>, lo: nat, p: nat, up: nat, lt: (T, T) --> bool, ghost among: T -> bool)
    requires lo < p < up < a.Length && Defined(lt, among) && Holds(a[..], lo, up, among)
    modifies a
    ensures Permuted(old(a[..]), a[..], lo, up)
    ensures StrictWeak(lt, among) && !Less(lt, old(a[up]), old(a[lo])) ==>
              !Less(lt, a[p], a[lo]) && !Less(lt, a[up], a[p]) && !Less(lt, a[up], a[lo])
  {
    hide Permuted, StrictWeak;
    PermutedSelf(a[..], lo, up);
    MiddleOrder(lt, a[lo], a[p], a[up], among);
    if lt(a[p], a[lo]) {
      SwapPermuted(a[..], p, lo, lo, up);
      Swap(a, p, lo);
    } else if lt(a[up], a[p]) {
      SwapPermuted(a[..], p, up, lo, up);
      Swap(a, p, up);
    }
  }

  /** Three elements, of which the first and the last are in order, are in order after one exchange at most. */
  lemma MiddleOrder<T(!new)>(lt: (T, T) --> bool, x: T, y: T, z: T, among: T -> bool)
    requires among(x) && among(y) && among(z)
    ensures StrictWeak(lt, among) && !Less(lt, z, x) && Less(lt, y, x) ==> !Less(lt, x, y) && !Less(lt, z, y)
    ensures StrictWeak(lt, among) && !Less(lt, z, x) && Less(lt, z, y) && !Less(lt, y, x) ==>
            !Less(lt, y, z) && !Less(lt, y, x)
  {}

  // ----- quicksort -----

  /** Only pairs inside the inner range may still be out of order. */
  ghost predicate PairsOk<T>(s: seq<T>, lo0: int, up0: int, lo: int, up: int, lt: (T, T) --> bool)
    requires 0 <= lo0 && up0 < |s|
  {
    forall i, j :: lo0 <= i < j <= up0 && (i < lo || j > up) ==> !Less(lt, s[j], s[i])
  }

  lemma PairsPermuted<T>(s: seq<T>, t: seq<T>, lo0: int, up0: int, lo: int, up: int, lt: (T, T) --> bool)
    requires 0 <= lo0 <= lo && up <= up0 < |s| && PairsOk(s, lo0, up0, lo, up, lt) && Permuted(s, t, lo, up)
    ensures |t| == |s| && PairsOk(t, lo0, up0, lo, up, lt)
  {
    PermutedOutside(s, t, lo, up);
    forall i, j | lo0 <= i < j <= up0 && (i < lo || j > up) ensures !Less(lt, t[j], t[i]) {
      var i', j' := i, j;
      if lo <= i <= up { i' := PermutedBound(s, t, lo, up, i); }
      if lo <= j <= up { j' := PermutedBound(s, t, lo, up, j); }
    }
  }

  /** With one side of the pivot sorted, only the other is left. */
  lemma PairsSplit<T(!new)>(s: seq<T>, lo0: int, up0: int, lo: int, p: int, up: int, lt: (T, T) --> bool,
                     among: T -> bool)
    requires 0 <= lo0 <= lo < p < up <= up0 < |s| && PairsOk(s, lo0, up0, lo, up, lt) && Split(s, lo, up, p, lt)
    requires StrictWeak(lt, among) && Holds(s, lo, up, among)
    ensures Sorted(s, lo, p - 1, lt) ==> PairsOk(s, lo0, up0, p + 1, up, lt)
    ensures Sorted(s, p + 1, up, lt) ==> PairsOk(s, lo0, up0, lo, p - 1, lt)
  {
    forall i, j | lo <= i <= p <= j <= up && i < j ensures !Less(lt, s[j], s[i]) {}
  }

  lemma SplitPermuted<T>(s: seq<T>, t: seq<T>, lo: int, p: int, up: int, lt: (T, T) --> bool)
    requires 0 <= lo < p < up < |s| && Split(s, lo, up, p, lt) &&
             (Permuted(s, t, lo, p - 1) || Permuted(s, t, p + 1, up))
    ensures |t| == |s| && Split(t, lo, up, p, lt)
  {
    hide Permuted, Split;
    if Permuted(s, t, lo, p - 1) { SplitBelow(s, t, lo, p, up, lt); } else { SplitAbove(s, t, lo, p, up, lt); }
  }

  lemma SplitBelow<T>(s: seq<T>, t: seq<T>, lo: int, p: int, up: int, lt: (T, T) --> bool)
    requires 0 <= lo < p < up < |s| && Split(s, lo, up, p, lt) && Permuted(s, t, lo, p - 1)
    ensures |t| == |s| && Split(t, lo, up, p, lt)
  {
    PermutedOutside(s, t, lo, p - 1);
    assert |t| == |s|;
    forall k | lo <= k < p ensures !Less(lt, t[p], t[k]) { var j := PermutedBound(s, t, lo, p - 1, k); }
  }

  lemma SplitAbove<T>(s: seq<T>, t: seq<T>, lo: int, p: int, up: int, lt: (T, T) --> bool)
    requires 0 <= lo < p < up < |s| && Split(s, lo, up, p, lt) && Permuted(s, t, p + 1, up)
    ensures |t| == |s| && Split(t, lo, up, p, lt)
  {
    PermutedOutside(s, t, p + 1, up);
    assert |t| == |s|;
    forall k | p < k <= up ensures !Less(lt, t[k], t[p]) { var j := PermutedBound(s, t, p + 1, up, k); }
  }

  /** An element in the middle half, chosen with a random number. */
  function ChoosePivot(lo: nat, up: nat, rnd: nat): (p: nat)
    requires lo + RANLIMIT <= up
    ensures lo + (up - lo) / 4 <= p <= up - (up - lo) / 4
  {
    var r4 := (up - lo) / 4;
    rnd % (r4 * 2) + (lo + r4)
  }

  /** The difference of two indices as it wraps around. */
  function IndexDifference(a: int, b: int): int { if a >= b then a - b else a - b + 0x1_0000_0000 }

  /** Some number that depends on the time. */
  method RandomizePivot() returns (r: nat)
  {
    r := *;
  }

  /** Sorts the range. The smaller side of each partition is sorted by a recursive call, and with each such call `d`,
      which is not less than the logarithm of the size, goes down by one: calls nest no deeper. The comparison is called
      with elements of the range only. */
  method AuxSort<T(!new)>(a: array<T>, lo0: nat, up0: nat, rnd0: nat, lt: (T, T) --> bool, ghost among: T -> bool,
                   ghost d: nat)
      returns (ok: bool)
    requires 0 < lo0 <= up0 + 1 && up0 < a.Length && Defined(lt, among) && Holds(a[..], lo0, up0, among)
    requires up0 + 2 - lo0 < Pow2(d + 1)
    modifies a
    ensures Permuted(old(a[..]), a[..], lo0, up0)
    ensures StrictWeak(lt, among) ==> ok && Sorted(a[..], lo0, up0, lt)
    decreases d, 1
  {
    hide Permuted, StrictWeak, PairsOk, Sorted, Defined, Holds, Pow2;
    ghost var s0 := a[..];
    var lo, up, rnd := lo0, up0, rnd0;
    PermutedSelf(s0, lo0, up0);
    PairsStart(s0, lo0, up0, lt);
    while lo < up
      invariant lo0 <= lo <= up + 1 && up <= up0 && Permuted(s0, a[..], lo0, up0) && Holds(a[..], lo, up, among)
      invariant StrictWeak(lt, among) ==> PairsOk(a[..], lo0, up0, lo, up, lt)
      decreases up - lo
    {
      var done;
      ok, done, lo, up, rnd := SortStep(a, lo, up, rnd, lt, among, s0, lo0, up0, d);
      if !ok || done {
        return ok;
      }
    }
    PairsDone(a[..], lo0, up0, lo, up, lt);
    ok := true;
  }

  /** One round of the loop: a partition, and the smaller side sorted. */
  method SortStep<T(!new)>(a: array<T>, lo1: nat, up1: nat, rnd1: nat, lt: (T, T) --> bool, ghost among: T -> bool,
                           ghost s0: seq<T>, ghost lo0: nat, ghost up0: nat, ghost d: nat)
      returns (ok: bool, done: bool, lo: nat, up: nat, rnd: nat)
    requires 0 < lo0 <= lo1 < up1 <= up0 < a.Length && Permuted(s0, a[..], lo0, up0)
    requires Defined(lt, among) && Holds(a[..], lo1, up1, among) && up1 + 2 - lo1 < Pow2(d + 1)
    requires StrictWeak(lt, among) ==> PairsOk(a[..], lo0, up0, lo1, up1, lt)
    modifies a
    ensures Permuted(s0, a[..], lo0, up0)
    ensures StrictWeak(lt, among) ==> ok && if done then Sorted(a[..], lo0, up0, lt)
            else PairsOk(a[..], lo0, up0, lo, up, lt)
    ensures ok && !done ==> lo1 <= lo <= up + 1 && up <= up1 && up - lo < up1 - lo1 && Holds(a[..], lo, up, among)
    decreases d, 0
  {
    hide Permuted, StrictWeak, PairsOk, Sorted, Split, Defined, Holds, Pow2;
    lo, up, rnd, ok := lo1, up1, rnd1, true;
    done := PlacePivot(a, lo, up, rnd, lt, among, s0, lo0, up0);
    if done {
      return;
    }

    ghost var s4 := a[..];
    var p;
    ok, p := Partition(a, lo, up, lt, among);
    PermutedIn(s0, s4, a[..], lo0, up0, lo, up, lt);
    if !ok {
      return;
    }

    ghost var s5 := a[..];
    HoldsPermuted(s4, s5, lo, up, lo, up, among);
    SidesHold(s5, lo, p, up, among);
    HalfSize(lo, p, up, d);
    var n;
    if p - lo < up - p {
      ok := AuxSort(a, lo, p - 1, rnd, lt, among, d - 1);
      LowerSorted(s0, s5, a[..], lo0, up0, lo, p, up, lt, among);
      n := p - lo;
      lo := p + 1;
    } else {
      ok := AuxSort(a, p + 1, up, rnd, lt, among, d - 1);
      UpperSorted(s0, s5, a[..], lo0, up0, lo, p, up, lt, among);
      n := up - p;
      up := p - 1;
    }
    if IndexDifference(up, lo) / 128 > n {
      rnd := RandomizePivot();
    }
  }

  lemma SidesHold<T>(s: seq<T>, lo: int, p: int, up: int, among: T -> bool)
    requires 0 <= lo < p < up < |s| && Holds(s, lo, up, among)
    ensures Holds(s, lo, p - 1, among) && Holds(s, p + 1, up, among)
  {}

  /** The smaller side has less than half of the size. */
  lemma HalfSize(lo: int, p: int, up: int, d: nat)
    requires lo < p < up && up + 2 - lo < Pow2(d + 1)
    ensures d > 0 && if p - lo < up - p then p + 1 - lo < Pow2(d) else up + 1 - p < Pow2(d)
  {}

  lemma SwappedPivot<T>(s: seq<T>, lo: nat, p: nat, up: nat)
    requires lo < p < up < |s|
    ensures var t := Swapped(s, p, up - 1); t[lo] == s[lo] && t[up] == s[up] && t[up - 1] == s[p]
  {}

  /** Sorts the first, a middle and the last element; if there are more, the middle one becomes the pivot, next to
      last. */
  method PlacePivot<T(!new)>(a: array<T>, lo: nat, up: nat, rnd: nat, lt: (T, T) --> bool, ghost among: T -> bool,
                             ghost s0: seq<T>, ghost lo0: nat, ghost up0: nat) returns (done: bool)
    requires 0 < lo0 <= lo < up <= up0 < a.Length && Permuted(s0, a[..], lo0, up0) && Defined(lt, among) &&
             Holds(a[..], lo, up, among)
    requires StrictWeak(lt, among) ==> PairsOk(a[..], lo0, up0, lo, up, lt)
    modifies a
    ensures Permuted(s0, a[..], lo0, up0) && (!done ==> lo + 2 < up) && Holds(a[..], lo, up, among)
    ensures StrictWeak(lt, among) ==>
              if done then Sorted(a[..], lo0, up0, lt)
              else PairsOk(a[..], lo0, up0, lo, up, lt) && !Less(lt, a[up - 1], a[lo]) && !Less(lt, a[up], a[up - 1])
  {
    hide Permuted, StrictWeak, PairsOk, Sorted, ChoosePivot, Swapped, Defined, Holds;
    ghost var s1 := a[..];
    OrderEnds(a, lo, up, lt, among);
    PermutedIn(s0, s1, a[..], lo0, up0, lo, up, lt);
    HoldsPermuted(s1, a[..], lo, up, lo, up, among);
    if up - lo == 1 {
      PairsTwo(a[..], lo0, up0, lo, up, lt);
      return true;
    }
    var p := if up - lo < RANLIMIT || rnd == 0 then (lo + up) / 2 else ChoosePivot(lo, up, rnd);
    ghost var s2 := a[..];
    OrderMiddle(a, lo, p, up, lt, among);
    PermutedIn(s0, s2, a[..], lo0, up0, lo, up, lt);
    HoldsPermuted(s2, a[..], lo, up, lo, up, among);
    if up - lo == 2 {
      PairsThree(a[..], lo0, up0, lo, p, up, lt);
      return true;
    }

    ghost var s3 := a[..];
    SwappedPivot(s3, lo, p, up);
    SwapPermuted(s3, p, up - 1, lo, up);
    Swap(a, p, up - 1);
    PermutedIn(s0, s3, a[..], lo0, up0, lo, up, lt);
    HoldsPermuted(s3, a[..], lo, up, lo, up, among);
    assert a[lo] == a[..][lo] && a[up - 1] == a[..][up - 1] && a[up] == a[..][up];
    return false;
  }

  lemma PairsStart<T>(s: seq<T>, lo: nat, up: nat, lt: (T, T) --> bool)
    requires up < |s|
    ensures PairsOk(s, lo, up, lo, up, lt)
  {}

  lemma PairsDone<T>(s: seq<T>, lo0: nat, up0: nat, lo: nat, up: nat, lt: (T, T) --> bool)
    requires up0 < |s| && lo >= up
    ensures PairsOk(s, lo0, up0, lo, up, lt) ==> Sorted(s, lo0, up0, lt)
  {}

  lemma PairsTwo<T>(s: seq<T>, lo0: nat, up0: nat, lo: nat, up: nat, lt: (T, T) --> bool)
    requires up0 < |s| && lo0 <= lo && up == lo + 1 && up <= up0
    ensures PairsOk(s, lo0, up0, lo, up, lt) && !Less(lt, s[up], s[lo]) ==> Sorted(s, lo0, up0, lt)
  {}

  lemma PairsThree<T>(s: seq<T>, lo0: nat, up0: nat, lo: nat, p: nat, up: nat, lt: (T, T) --> bool)
    requires up0 < |s| && lo0 <= lo && p == lo + 1 && up == lo + 2 && up <= up0
    ensures PairsOk(s, lo0, up0, lo, up, lt) && !Less(lt, s[p], s[lo]) && !Less(lt, s[up], s[p]) &&
            !Less(lt, s[up], s[lo]) ==>
              Sorted(s, lo0, up0, lt)
  {}

  /** A permutation of the inner range. */
  lemma PermutedIn<T>(s0: seq<T>, s: seq<T>, t: seq<T>, lo0: nat, up0: nat, lo: nat, up: nat, lt: (T, T) --> bool)
    requires Permuted(s0, s, lo0, up0) && Permuted(s, t, lo, up) && lo0 <= lo && up <= up0 && lo <= up + 1
    ensures Permuted(s0, t, lo0, up0) && |s| == |s0| == |t|
    ensures PairsOk(s, lo0, up0, lo, up, lt) ==> PairsOk(t, lo0, up0, lo, up, lt)
  {
    PermutedWithin(s, t, lo0, up0, lo, up);
    PermutedThen(s0, s, t, lo0, up0);
    if PairsOk(s, lo0, up0, lo, up, lt) { PairsPermuted(s, t, lo0, up0, lo, up, lt); }
  }

  lemma LowerSorted<T(!new)>(s0: seq<T>, s: seq<T>, t: seq<T>, lo0: nat, up0: nat, lo: nat, p: nat, up: nat,
                      lt: (T, T) --> bool,
                             among: T -> bool)
    requires Permuted(s0, s, lo0, up0) && Permuted(s, t, lo, p - 1) && lo0 <= lo < p < up <= up0 && up < |s| &&
             Holds(s, lo, up, among)
    ensures Permuted(s0, t, lo0, up0) && |s| == |s0| == |t| && Holds(t, p + 1, up, among)
    ensures StrictWeak(lt, among) && PairsOk(s, lo0, up0, lo, up, lt) && Split(s, lo, up, p, lt) &&
            Sorted(t, lo, p - 1, lt) ==>
              PairsOk(t, lo0, up0, p + 1, up, lt)
  {
    hide StrictWeak, Holds;
    PermutedWithin(s, t, lo, up, lo, p - 1);
    PermutedIn(s0, s, t, lo0, up0, lo, up, lt);
    HoldsPermuted(s, t, lo, up, lo, p - 1, among);
    SidesHold(t, lo, p, up, among);
    if StrictWeak(lt, among) && PairsOk(s, lo0, up0, lo, up, lt) && Split(s, lo, up, p, lt) &&
      Sorted(t, lo, p - 1, lt) {
      SplitPermuted(s, t, lo, p, up, lt);
      PairsSplit(t, lo0, up0, lo, p, up, lt, among);
    }
  }

  lemma UpperSorted<T(!new)>(s0: seq<T>, s: seq<T>, t: seq<T>, lo0: nat, up0: nat, lo: nat, p: nat, up: nat,
                      lt: (T, T) --> bool,
                             among: T -> bool)
    requires Permuted(s0, s, lo0, up0) && Permuted(s, t, p + 1, up) && lo0 <= lo < p < up <= up0 && up < |s| &&
             Holds(s, lo, up, among)
    ensures Permuted(s0, t, lo0, up0) && |s| == |s0| == |t| && Holds(t, lo, p - 1, among)
    ensures StrictWeak(lt, among) && PairsOk(s, lo0, up0, lo, up, lt) && Split(s, lo, up, p, lt) &&
            Sorted(t, p + 1, up, lt) ==>
              PairsOk(t, lo0, up0, lo, p - 1, lt)
  {
    hide StrictWeak, Holds;
    PermutedWithin(s, t, lo, up, p + 1, up);
    PermutedIn(s0, s, t, lo0, up0, lo, up, lt);
    HoldsPermuted(s, t, lo, up, p + 1, up, among);
    SidesHold(t, lo, p, up, among);
    if StrictWeak(lt, among) && PairsOk(s, lo0, up0, lo, up, lt) && Split(s, lo, up, p, lt) &&
      Sorted(t, p + 1, up, lt) {
      SplitPermuted(s, t, lo, p, up, lt);
      PairsSplit(t, lo0, up0, lo, p, up, lt, among);
    }
  }

  /** The integral part of the logarithm. */
  ghost function Log2(n: nat): (d: nat)
    requires n > 0
    ensures Pow2(d) <= n < Pow2(d + 1)
  {
    if n == 1 then 0 else 1 + Log2(n / 2)
  }

  /** The elements 1 to n. */
  ghost function Elements<T>(s: seq<T>): T -> bool
    requires |s| > 0
  {
    x => x in s[1..]
  }

  /** Sorts elements 1 to n, with a comparison that can be called with these elements and need be an order of these
      only. Recursive calls nest no deeper than the logarithm of n + 1. */
  method Sort<T(!new)>(a: array<T>, lt: (T, T) --> bool) returns (ok: bool)
    requires a.Length > 0 && Defined(lt, Elements(a[..]))
    modifies a
    ensures Permuted(old(a[..]), a[..], 1, a.Length - 1)
    ensures StrictWeak(lt, Elements(old(a[..]))) ==> ok && Sorted(a[..], 1, a.Length - 1, lt)
  {
    var n := a.Length - 1;
    ok := true;
    if n > 1 {
      assert forall k :: 1 <= k <= n ==> a[..][k] == a[..][1..][k - 1];
      ok := AuxSort(a, 1, n, 0, lt, Elements(a[..]), Log2(a.Length));
    }
  }
}
