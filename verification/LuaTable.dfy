/** Tables: an array part and a hash part with chained nodes, searched, filled and rebuilt in place. */
module LuaTable {
  import opened Powers
  import opened TableState
  import opened TableLemmas
  import opened TableSizes

  /** Where the value of a key is kept, if it is anywhere. */
  datatype Slot = InArr(i: nat) | InNode(i: nat) | NoSlot

  datatype Failure = IndexIsNil | IndexIsNaN

  datatype Outcome = Done(slot: Slot) | Failed(failure: Failure)

  const NULL: int := -1

  // ----- keys -----

  ghost function ArrKeys(arr: seq<V>): set<V> { set n: int | 1 <= n <= |arr| && arr[n - 1] != Nil :: Int(n) }

  ghost function LiveKeys(node: seq<Node>): set<V> { set i: int | 0 <= i < |node| && node[i].val != Nil :: node[i].key }

  ghost function UsedKeys(node: seq<Node>): set<V> { set i: int | 0 <= i < |node| && node[i].key != Nil :: node[i].key }

  /** The keys with values that do not belong to an array part of size `n`. */
  ghost function RestKeys(arr: seq<V>, node: seq<Node>, n: nat): set<V>
  {
    set k | k in ArrKeys(arr) + LiveKeys(node) && !InArray(k, n)
  }

  lemma {:induction false} UsedCount(node: seq<Node>, n: nat)
    requires Keyed(node, n) && forall i :: 0 <= i < |node| ==> node[i].key != Nil
    ensures |UsedKeys(node)| == |node|
  {
    if node == [] {
      assert UsedKeys(node) == {};
    } else {
      var last := |node| - 1;
      var front := node[..last];
      assert Keyed(front, n) by {
        forall i, j | 0 <= i < last && 0 <= j < last && i != j ensures KeysApart(front[i], front[j]) {
          assert KeysApart(node[i], node[j]);
        }
        forall i | 0 <= i < last ensures NodeOk(front[i], n) { assert NodeOk(node[i], n); }
      }
      UsedCount(front, n);
      forall i | 0 <= i < last ensures front[i].key != node[last].key { assert KeysApart(node[i], node[last]); }
      assert UsedKeys(node) == UsedKeys(front) + {node[last].key};
    }
  }

  /** If the used keys are fewer than the nodes, some node is unused. */
  lemma SomeUnused(node: seq<Node>, n: nat) returns (i: nat)
    requires Keyed(node, n) && |UsedKeys(node)| < |node|
    ensures i < |node| && node[i].key == Nil
  {
    if forall i :: 0 <= i < |node| ==> node[i].key != Nil { UsedCount(node, n); }
    i :| 0 <= i < |node| && node[i].key == Nil;
  }

  /** Searching from the main position visits the key if it is there. */
  lemma Found(node: seq<Node>, rank: seq<nat>, n: nat, floatHash: real -> nat, k: V, i: nat)
    requires Chained(node, rank, n, floatHash) && i < |node| && node[i].key == k != Nil
    ensures Reaches(node, rank, MainPosition(k, |node|, floatHash), i)
  {
    assert FoundAt(node, rank, floatHash, i);
  }

  lemma OnlyAt(node: seq<Node>, n: nat, i: nat, j: nat)
    requires Keyed(node, n) && i < |node| && j < |node| && node[i].key == node[j].key != Nil
    ensures i == j
  {
    assert KeysApart(node[i], node[j]) || i == j;
  }

  class Table {
    var arr: seq<V>
    var node: seq<Node>
    var lsizenode: nat
    var lastfree: int
    const floatHash: real -> nat
    /** How far each node is from the end of its chain, at least. */
    ghost var rank: seq<nat>

    ghost predicate Valid()
      reads this
    {
      && Chained(node, rank, |arr|, floatHash) && |node| == Pow2(lsizenode) && FreeBelow(lastfree)
      && |arr| <= Pow2(MAXABITS)
    }

    /** No node from `f` on is unused; a null pointer says that there are no nodes but the common blank one. */
    ghost predicate FreeBelow(f: int)
      reads this
    {
      if f == NULL then node == [EMPTY] else 0 <= f <= |node| && forall i :: f <= i < |node| ==> node[i].key != Nil
    }

    /** Another key can be put into the nodes. */
    ghost predicate HasRoom()
      reads this
    {
      lastfree != NULL && |UsedKeys(node)| < |node|
    }

    constructor (floatHash: real -> nat)
      ensures Valid() && this.floatHash == floatHash && forall k :: Lookup(arr, node, k) == Nil
    {
      this.floatHash := floatHash;
      arr, node, lsizenode, lastfree := [], [EMPTY], 0, NULL;
      rank := [0];
    }

    predicate IsDummy()
      reads this
    {
      lastfree == NULL
    }

    // ----- searching -----

    /** The slot that keeps the value of a key. */
    ghost predicate Keeps(slot: Slot, k: V)
      reads this
    {
      match slot
      case InArr(i) => InArray(k, |arr|) && i == k.n - 1
      case InNode(i) => k != Nil && !InArray(k, |arr|) && i < |node| && node[i].key == k
      case NoSlot => !InArray(k, |arr|) && (k == Nil || forall i :: 0 <= i < |node| ==> node[i].key != k)
    }

    method GetGeneric(k: V) returns (slot: Slot)
      requires Valid() && k != Nil && !InArray(k, |arr|)
      ensures Keeps(slot, k)
    {
      var n: nat := MainPosition(k, |node|, floatHash);
      forall i | 0 <= i < |node| && node[i].key == k ensures Reaches(node, rank, n, i) {
        Found(node, rank, |arr|, floatHash, k, i);
      }
      while true
        invariant n < |node| && forall i :: 0 <= i < |node| && node[i].key == k ==> Reaches(node, rank, n, i)
        decreases rank[n]
      {
        if node[n].key == k {
          return InNode(n);
        }
        var nx := node[n].next;
        if nx == 0 {
          return NoSlot;
        }
        assert LinkOk(node, rank, n);
        n := n + nx;
      }
    }

    method GetInt(n: int) returns (slot: Slot)
      requires Valid()
      ensures Keeps(slot, Int(n))
    {
      if 1 <= n <= |arr| {
        return InArr(n - 1);
      }
      slot := GetGeneric(Int(n));
    }

    /** The slot of a key; a float with an integer value is looked up as that integer. */
    method Get(k: V) returns (slot: Slot)
      requires Valid()
      ensures Keeps(slot, Normal(k))
    {
      match k
      case Int(n) => slot := GetInt(n);
      case Nil => slot := NoSlot;
      case Flt(x) =>
        if Integral(x) {
          slot := GetInt(x.Floor);
        } else {
          slot := GetGeneric(k);
        }
      case _ => slot := GetGeneric(k);
    }

    /** What the slot holds. */
    method Read(slot: Slot, ghost k: V) returns (v: V)
      requires Valid() && Keeps(slot, k)
      ensures v == Lookup(arr, node, k)
    {
      match slot
      case InArr(i) => v := arr[i];
      case InNode(i) =>
        HashGetAt(node, |arr|, i);
        v := node[i].val;
      case NoSlot => v := Nil;
    }

    /** Writes a value into the slot of a key. */
    method Write(slot: Slot, v: V, ghost k: V)
      requires Valid() && Keeps(slot, k) && !slot.NoSlot?
      modifies this`arr, this`node
      ensures Valid() && |arr| == |old(arr)| && |node| == |old(node)| && UsedKeys(node) == old(UsedKeys(node))
      ensures forall k' :: Lookup(arr, node, k') == if k' == k then v else old(Lookup(arr, node, k'))
      ensures InArray(k, |arr|) ==> node == old(node)
      ensures !InArray(k, |arr|) ==> arr == old(arr) && forall i :: 0 <= i < |node| ==>
                node[i] == if node[i].key == k then old(node[i]).(val := v) else old(node[i])
    {
      match slot
      case InArr(i) => arr := arr[i := v];
      case InNode(i) =>
        ghost var before := node;
        node := node[i := node[i].(val := v)];
        WriteChained(before, rank, |arr|, floatHash, i, v);
        forall k' ensures Lookup(arr, node, k') == if k' == k then v else Lookup(arr, before, k') {
          WriteGet(before, |arr|, i, v, k');
        }
    }

    // ----- adding a key -----

    /** The last unused node below the pointer, which moves down to it. */
    method GetFreePos() returns (f: int)
      requires Valid()
      modifies this`lastfree
      ensures f == NULL ==>
              FreeBelow(lastfree) && (lastfree == NULL || forall i :: 0 <= i < |node| ==> node[i].key != Nil)
      ensures f == NULL ==> (lastfree == NULL <==> old(lastfree) == NULL)
      ensures f != NULL ==> 0 <= f < |node| && node[f].key == Nil && lastfree == f && forall i :: f < i < |node| ==>
              node[i].key != Nil
      ensures f != NULL ==> old(lastfree) != NULL
    {
      if !IsDummy() {
        while lastfree > 0
          invariant 0 <= lastfree <= |node| && forall i :: lastfree <= i < |node| ==> node[i].key != Nil
        {
          lastfree := lastfree - 1;
          if node[lastfree].key == Nil {
            return lastfree;
          }
        }
      }
      return NULL;
    }

    /** The key was added in the slot, with no value, and everything else is as it was. */
    twostate predicate Adds(slot: Slot, k: V)
      reads this
    {
      && !slot.NoSlot? && Keeps(slot, k) && forall k' :: Lookup(arr, node, k') == old(Lookup(arr, node, k'))
    }

    method FindPrevious(othern: nat, mp: nat) returns (prev: nat)
      requires Chained(node, rank, |arr|, floatHash) && othern < |node| && mp < |node| && othern != mp &&
               Reaches(node, rank, othern, mp)
      ensures Movable0(node, rank, |arr|, mp, prev)
    {
      prev := othern;
      while prev + node[prev].next != mp
        invariant prev < |node| && prev != mp && Reaches(node, rank, prev, mp)
        decreases rank[prev]
      {
        assert LinkOk(node, rank, prev);
        prev := prev + node[prev].next;
      }
    }

    /** What adding the key may rely on: everything is in order, except that the free pointer may be at the unused node
        about to be taken. */
    ghost predicate Adding(key: V, mp: nat, f: int)
      reads this
    {
      && Chained(node, rank, |arr|, floatHash) && |node| == Pow2(lsizenode) && |arr| <= Pow2(MAXABITS) &&
         FreshKey(node, |arr|, floatHash, mp, key) && mp < |node| && key != Nil && lastfree != NULL
      && if f == NULL then FreeBelow(lastfree) && node[mp].val == Nil
         else 0 <= f < |node| && node[f].key == Nil && node[mp].val != Nil && lastfree == f &&
              forall i :: f < i < |node| ==> node[i].key != Nil
    }

    /** Moves the colliding node, which is out of its main position, to the free one, and takes its place. */
    method Displace(key: V, mp: nat, f: nat, othern: nat)
      requires Adding(key, mp, f) && othern == MainPosition(node[mp].key, |node|, floatHash) != mp
      modifies this`node, this`rank
      ensures Valid() && |node| == |old(node)| && Added(old(node), node, key, mp) &&
              UsedKeys(node) <= old(UsedKeys(node)) + {key}
    {
      hide MainPosition, IsKey, Pow2, Chained, Keyed, Injective, Ranked, UsedKeys, FreshKey, Added;
      ghost var before := node;
      UsedHasKey(node, rank, |arr|, floatHash, mp);
      var prev := FindPrevious(othern, mp);
      node := node[prev := node[prev].(next := f - prev)];
      node := node[f := node[mp]];
      if node[mp].next != 0 {
        node := node[f := node[f].(next := node[f].next + (mp - f))];
        node := node[mp := node[mp].(next := 0)];
      }
      node := node[mp := node[mp].(val := Nil)];
      node := node[mp := node[mp].(key := key)];
      DisplaceDone(before, rank, |arr|, floatHash, mp, f, prev, key);
      assert node == Moved(before, mp, f, prev, key);
      rank := Raised(rank, mp, f);
    }

    /** Puts the key in the free node, which comes right after its main position in the chain. */
    method Append(key: V, mp: nat, f: nat)
      requires Adding(key, mp, f) && MainPosition(node[mp].key, |node|, floatHash) == mp
      modifies this`node, this`rank
      ensures Valid() && |node| == |old(node)| && Added(old(node), node, key, f) &&
              UsedKeys(node) <= old(UsedKeys(node)) + {key}
    {
      hide MainPosition, IsKey, Pow2, Chained;
      ghost var before := node;
      UsedHasKey(node, rank, |arr|, floatHash, mp);
      BlankOne(node, rank, |arr|, floatHash, f);
      if node[mp].next != 0 {
        node := node[f := node[f].(next := mp + node[mp].next - f)];
      }
      node := node[mp := node[mp].(next := f - mp)];
      node := node[f := node[f].(key := key)];
      InsertChained(before, rank, |arr|, floatHash, mp, f, key);
      assert node == Inserted(before, mp, f, key);
      rank := Raised(rank, mp, f);
      InsertedUsed(before, mp, f, key);
    }

    /** Puts a proper key into the nodes, given a free one, or none if the main position has no value. */
    method PutKey(key: V, mp: nat, f: int) returns (slot: Slot)
      requires Adding(key, mp, f)
      modifies this`node, this`rank
      ensures Valid() && |node| == |old(node)| && Adds(slot, key) && UsedKeys(node) <= old(UsedKeys(node)) + {key}
    {
      hide MainPosition, IsKey, Pow2, Chained;
      if f != NULL {
        var othern := MainPosition(node[mp].key, |node|, floatHash);
        if othern != mp {
          Displace(key, mp, f, othern);
          slot := InNode(mp);
        } else {
          Append(key, mp, f);
          slot := InNode(f);
        }
      } else {
        ghost var before := node;
        node := node[mp := node[mp].(key := key)];
        PlaceChained(before, rank, |arr|, floatHash, mp, key);
        assert node == Placed(before, mp, key);
        PlacedUsed(before, mp, key);
        slot := InNode(mp);
      }
      assert Added(old(node), node, key, slot.i);
    }

    // ----- counting keys -----

    method CountInt(k: V, nums: array<nat>, ghost s: set<V>) returns (c: nat)
      requires Counted(nums[..], s) && k !in s
      modifies nums
      ensures c == (if ArrayIndex(k) then 1 else 0) && Counted(nums[..], s + if ArrayIndex(k) then {k} else {})
    {
      if ArrayIndex(k) {
        var l := CeilLog2(k.n);
        CountedOne(nums[..], s, k, l);
        ghost var before := nums[..];
        nums[l] := nums[l] + 1;
        assert nums[..] == before[l := before[l] + 1];
        return 1;
      } else {
        assert s + {} == s;
        return 0;
      }
    }

    /** Counts the keys of the array part, slice by slice. */
    method NumUseArray(nums: array<nat>) returns (ause: nat)
      requires |arr| <= Pow2(MAXABITS) && Counted(nums[..], {})
      modifies nums
      ensures Counted(nums[..], ArrKeys(arr)) && ause == |ArrKeys(arr)|
    {
      hide Counted, Between, Pow2, InSlice;
      var lg, ttlg := 0, 1;
      ause := 0;
      var i := 1;
      BetweenNone(arr, 1);
      CountedLength(nums[..], {});
      PowZero();
      while lg <= MAXABITS
        invariant lg <= MAXABITS + 1 && ttlg == Pow2(lg)
        invariant 1 <= i <= |arr| + 1 && (i == |arr| + 1 || i == if lg == 0 then 1 else Pow2(lg - 1) + 1)
        invariant i - 1 <= if lg == 0 then 0 else Pow2(lg - 1)
        invariant Counted(nums[..], Between(arr, 1, i)) && ause == |Between(arr, 1, i)| && nums.Length == MAXABITS + 1
        decreases MAXABITS + 1 - lg
      {
        var lc: nat := 0;
        var lim := ttlg;
        PowStep(lg);
        if lim > |arr| {
          lim := |arr|;
          if i > lim {
            break;
          }
        }
        ghost var i0 := i;
        BetweenNone(arr, i);
        while i <= lim
          invariant i0 <= i <= lim + 1 && lc == |Between(arr, i0, i)| && lim <= |arr|
          invariant Counted(nums[..], Between(arr, 1, i0))
        {
          BetweenNext(arr, i0, i);
          if arr[i - 1] != Nil {
            lc := lc + 1;
          }
          i := i + 1;
        }
        ghost var t := Between(arr, i0, i);
        BetweenSlice(arr, i0, i, lg);
        BetweenJoin(arr, i0, i);
        CountedSlice(nums[..], Between(arr, 1, i0), t, lg);
        ghost var before := nums[..];
        nums[lg] := nums[lg] + lc;
        assert nums[..] == before[lg := before[lg] + lc];
        ause := ause + lc;
        lg, ttlg := lg + 1, ttlg * 2;
      }
      BetweenNone(arr, i);
    }

    /** Counts the keys with values in the nodes, and those among them that could go to the array part. */
    method NumUseHash(nums: array<nat>, ghost s: set<V>) returns (totaluse: nat, ause: nat)
      requires Valid() && Counted(nums[..], s) && s !! LiveKeys(node)
      modifies nums
      ensures Counted(nums[..], s + Indexed(LiveKeys(node))) && ause == |Indexed(LiveKeys(node))| &&
              totaluse == |LiveKeys(node)|
    {
      hide Counted, Chained, ArrayIndex, MainPosition, Pow2;
      totaluse, ause := 0, 0;
      var i: nat := |node|;
      assert LiveKeys(node[i..]) == {};
      assert s + Indexed({}) == s;
      while i > 0
        invariant i <= |node| && totaluse == |LiveKeys(node[i..])| && ause == |Indexed(LiveKeys(node[i..]))|
        invariant Counted(nums[..], s + Indexed(LiveKeys(node[i..])))
      {
        i := i - 1;
        LiveNext(node, rank, |arr|, floatHash, i);
        if node[i].val != Nil {
          var k := node[i].key;
          ghost var rest := LiveKeys(node[i + 1..]);
          var c := CountInt(k, nums, s + Indexed(rest));
          ause := ause + c;
          totaluse := totaluse + 1;
          IndexedNext(s, rest, k);
        }
      }
      assert node[0..] == node;
    }

    // ----- growing and shrinking -----

    /** A new node vector with room for so many keys. */
    method SetNodeVector(size: nat)
      modifies this`node, this`lsizenode, this`lastfree, this`rank
      ensures Chained(node, rank, |arr|, floatHash) && |node| == Pow2(lsizenode) >= size && FreeBelow(lastfree)
      ensures UsedKeys(node) == {} && (size > 0 ==> lastfree != NULL)
      ensures forall k :: HashGet(node, k) == Nil
    {
      if size == 0 {
        node, lsizenode, lastfree := [EMPTY], 0, NULL;
      } else {
        lsizenode := CeilLog2(size);
        node := seq(Pow2(lsizenode), i => EMPTY);
        lastfree := |node|;
      }
      rank := seq(|node|, i => 0);
    }

    /** No key is left in the nodes without a value. */
    ghost predicate NoStale()
      reads this
    {
      forall k :: k in UsedKeys(node) ==> Lookup(arr, node, k) != Nil
    }

    /** While the table is rebuilt it holds the values that `f` says, which are some of those it held before. */
    ghost predicate Rebuilt(arr0: seq<V>, node0: seq<Node>, nasize: nat, nhsize: nat)
      reads this
    {
      && Valid() && |arr| == nasize && |node| >= nhsize && (nhsize > 0 ==> lastfree != NULL) && NoStale()
      && forall k :: Lookup(arr, node, k) == Nil || Lookup(arr, node, k) == Lookup(arr0, node0, k)
    }

    /** Puts back a value that the table held. */
    method PutBack(k: V, v: V, ghost arr0: seq<V>, ghost node0: seq<Node>, ghost nasize: nat, ghost nhsize: nat)
      requires Rebuilt(arr0, node0, nasize, nhsize) && IsKey(k) && k != Nil && v != Nil
      requires Lookup(arr, node, k) == Nil && Lookup(arr0, node0, k) == v && |RestKeys(arr0, node0, nasize)| <= nhsize
      modifies this
      ensures Rebuilt(arr0, node0, nasize, nhsize)
      ensures forall k' :: Lookup(arr, node, k') == if k' == k then v else old(Lookup(arr, node, k'))
      ensures !InArray(k, nasize) ==> arr == old(arr)
      decreases 0, 5
    {
      hide Chained, RestKeys, UsedKeys, LiveKeys, ArrKeys, MainPosition, Pow2, Lookup, IsKey;
      if !InArray(k, nasize) {
        UsedNotInArray(node, rank, nasize, floatHash);
        RoomLeft(arr, node, arr0, node0, nasize, nhsize, k);
      }
      NormalKey(k);
      var out := Set(k, true);
      Write(out.slot, v, k);
    }

    method Resize(nasize: nat, nhsize: nat)
      requires Valid() && nasize <= Pow2(MAXABITS) && |RestKeys(arr, node, nasize)| <= nhsize
      modifies this
      ensures Valid() && |arr| == nasize && forall k :: Lookup(arr, node, k) == old(Lookup(arr, node, k))
      ensures UsedKeys(node) <= old(RestKeys(arr, node, nasize)) && |node| >= nhsize &&
              (nhsize > 0 ==> lastfree != NULL)
      decreases 1, 0
    {
      hide Chained, RestKeys, UsedKeys, LiveKeys, ArrKeys, MainPosition, Pow2, Lookup, IsKey, HashGet;
      var oldasize, oldhsize := |arr|, if IsDummy() then 0 else |node|;
      var oarr, nold := arr, node;
      ghost var orank := rank;
      assert OldNodes(nold, orank, oldasize, floatHash, oldhsize) by { DummyHolds(nold, oldhsize); }
      if nasize > oldasize {
        arr := arr + seq(nasize - oldasize, i => Nil);
      }
      SetNodeVector(nhsize);
      if nasize < oldasize {
        arr := oarr[..nasize];
        Rechain(node, rank, oldasize, nasize, floatHash);
        StartVanishing(oarr, nold, arr, node, nasize);
        var i := nasize;
        while i < oldasize
          invariant nasize <= i <= oldasize && Rebuilt(oarr, nold, nasize, nhsize)
          invariant forall k :: Lookup(arr, node, k) == FromArray(oarr, i, k)
        {
          VanishingNext(oarr, nold, i);
          if oarr[i] != Nil {
            PutBack(Int(i + 1), oarr[i], oarr, nold, nasize, nhsize);
          }
          i := i + 1;
        }
        VanishingDone(oarr, nold, oldhsize, arr, node);
      } else {
        StartGrowing(oarr, nold, arr, node, nasize, oldhsize);
      }
      var j: nat := oldhsize;
      while j > 0
        invariant j <= oldhsize && Rebuilt(oarr, nold, nasize, nhsize)
        invariant forall k :: Lookup(arr, node, k) == FromNodes(oarr, nold, j, oldhsize, k)
      {
        j := j - 1;
        NodesNext(oarr, nold, orank, floatHash, j, oldhsize);
        if nold[j].val != Nil {
          PutBack(nold[j].key, nold[j].val, oarr, nold, nasize, nhsize);
        }
      }
      NodesDone(oarr, nold, oldhsize);
      AllInRest(arr, node, rank, floatHash, oarr, nold, nasize);
    }

    /** Makes room for another key: the array part gets the best size, and the nodes a size that suffices. */
    method Rehash(ek: V)
      requires Valid() && IsKey(ek) && ek != Nil && Keeps(NoSlot, ek)
      modifies this
      ensures Valid() && forall k :: Lookup(arr, node, k) == old(Lookup(arr, node, k))
      ensures InArray(ek, |arr|) || HasRoom()
      ensures var s := Indexed(old(ArrKeys(arr) + LiveKeys(node)) + {ek}); Optimal(s, |arr|, |UpTo(s, |arr|)|)
      decreases 1, 1
    {
      hide Chained, RestKeys, UsedKeys, LiveKeys, ArrKeys, MainPosition, Pow2, Lookup, IsKey, HashGet, Counted, Indexed,
        ArrayIndex, UpTo, Optimal;
      var nums := new nat[MAXABITS + 1](i => 0);
      CountedNone(nums[..]);
      ghost var ak, lk := ArrKeys(arr), LiveKeys(node);
      KeysDisjoint(arr, node, rank, floatHash, ek);
      var na := NumUseArray(nums);
      var totaluse := na;
      var inHash, ause := NumUseHash(nums, ak);
      na := na + ause;
      totaluse := totaluse + inHash;
      CountedAll(ak, lk, ek);
      var c := CountInt(ek, nums, ak + Indexed(lk));
      na := na + c;
      totaluse := totaluse + 1;
      ghost var s := Indexed(ak + lk + {ek});
      var asize, na' := ComputeSizes(nums[..], na, s);
      SizesFit(arr, node, ek, asize, na');
      SizeBound(s, asize, na');
      ghost var rest := RestKeys(arr, node, asize);
      Resize(asize, totaluse - na');
      SubsetSize(UsedKeys(node), rest);
    }

    /** Adds a key that the table does not have, growing the table if there is no room for it. */
    method NewKey(k: V, ghost room: bool) returns (out: Outcome)
      requires Valid() && Keeps(NoSlot, Normal(k)) && (room ==> HasRoom())
      modifies this
      ensures Valid() && SetOutcome(k, out) && (room ==> SetInPlace(k))
      decreases if room then 0 else 1, 2
    {
      hide Chained, UsedKeys, LiveKeys, ArrKeys, MainPosition, Pow2, Lookup, HashGet;
      if k == Nil {
        return Failed(IndexIsNil);
      }
      var key := k;
      if k.Flt? && Integral(k.x) {
        key := Int(k.x.Floor);
      } else if k == NaN {
        return Failed(IndexIsNaN);
      }
      SomeNode(lsizenode);
      var mp := MainPosition(key, |node|, floatHash);
      var f: int := NULL;
      if node[mp].val != Nil || IsDummy() {
        if room { RoomIsFree(node, rank, |arr|, floatHash); }
        f := GetFreePos();
        if f == NULL {
          Rehash(key);
          out := Set(key, true);
          return;
        }
      }
      NewKeyIntro(node, rank, |arr|, floatHash, mp, key);
      var slot := PutKey(key, mp, f);
      out := Done(slot);
    }

    /** What finding or making a slot for a key promises: the table holds what it held. */
    twostate predicate SetOutcome(k: V, out: Outcome)
      reads this
    {
      && (out.Failed? <==> k == Nil || k == NaN)
      && (out.Failed? ==> out.failure == (if k == Nil then IndexIsNil else IndexIsNaN))
      && (out.Done? ==> !out.slot.NoSlot? && Keeps(out.slot, Normal(k)))
      && forall k' :: Lookup(arr, node, k') == old(Lookup(arr, node, k'))
    }

    /** The table was not rebuilt. */
    twostate predicate SetInPlace(k: V)
      reads this
    {
      && arr == old(arr) && |node| == |old(node)| && (old(lastfree) != NULL ==> lastfree != NULL)
      && UsedKeys(node) <= old(UsedKeys(node)) + {Normal(k)}
    }

    /** The slot of a key, added if need be. */
    method Set(k: V, ghost room: bool) returns (out: Outcome)
      requires Valid() && (room ==> InArray(Normal(k), |arr|) || HasRoom())
      modifies this
      ensures Valid() && SetOutcome(k, out) && (room ==> SetInPlace(k))
      decreases if room then 0 else 1, 3
    {
      var slot := Get(k);
      if slot != NoSlot {
        return Done(slot);
      }
      out := NewKey(k, room);
    }

    /** Assigns a value to a key. */
    method Assign(k: V, v: V) returns (out: Outcome)
      requires Valid()
      modifies this
      ensures Valid()
      ensures out.Failed? <==> k == Nil || k == NaN
      ensures out.Failed? ==> forall k' :: Lookup(arr, node, k') == old(Lookup(arr, node, k'))
      ensures out.Done? ==> forall k' :: Lookup(arr, node, k') == if k' == Normal(k) then v
              else old(Lookup(arr, node, k'))
      ensures out.Done? && Fits(k) ==>
                forall k' :: Fits(k') ==> Value(k') == if SameKey(k, k') then v else old(Value(k'))
    {
      out := Set(k, false);
      if out.Done? {
        Write(out.slot, v, Normal(k));
      }
      forall k' | Fits(k) && Fits(k') && k != NaN ensures Normal(k) == Normal(k') <==> SameKey(k, k') {
        NormalExact(k, k');
      }
    }

    /** What `Index` gives for a key. */
    ghost function Value(k: V): V
      reads this
    {
      Lookup(arr, node, Normal(k))
    }

    /** The value of a key. */
    method Index(k: V) returns (v: V)
      requires Valid()
      ensures v == Value(k)
    {
      var slot := Get(k);
      v := Read(slot, Normal(k));
    }

    /** After any assignments the table holds what a finite map would hold after them: for every key the value that was
        assigned last to the same key, however numbers are represented. */
    method Run(ops: seq<(V, V)>, ghost m: map<V, V>) returns (ghost m': map<V, V>)
      requires Valid() && Holds(arr, node, m)
      modifies this
      ensures Valid() && m' == After(m, ops) && Holds(arr, node, m')
      ensures forall k :: Fits(k) && k != Nil && AllFit(ops) ==> Value(k) == LastAssigned(ops, k, old(Value(k)))
    {
      m' := m;
      for i := 0 to |ops|
        invariant Valid() && m' == After(m, ops[..i]) && Holds(arr, node, m')
      {
        var out := Assign(ops[i].0, ops[i].1);
        assert ops[..i + 1][..i] == ops[..i];
        m' := Assigned(m', ops[i].0, ops[i].1);
      }
      assert ops[..|ops|] == ops;
      forall k | Fits(k) && k != Nil && AllFit(ops) ensures Value(k) == LastAssigned(ops, k, old(Value(k))) {
        AfterReads(m, ops, k);
      }
    }
  }

  // ----- a finite map -----

  /** Nil and NaN are no keys, and assigning nil removes a key. */
  ghost function Assigned(m: map<V, V>, k: V, v: V): map<V, V>
  {
    if k == Nil || k == NaN then m else if v == Nil then m - {Normal(k)} else m[Normal(k) := v]
  }

  ghost function After(m: map<V, V>, ops: seq<(V, V)>): map<V, V>
  {
    if ops == [] then m
    else var last := |ops| - 1; Assigned(After(m, ops[..last]), ops[last].0, ops[last].1)
  }

  predicate AllFit(ops: seq<(V, V)>) { forall i :: 0 <= i < |ops| ==> Fits(ops[i].0) }

  /** The value that was assigned last to the same key, or the one from before. */
  ghost function LastAssigned(ops: seq<(V, V)>, k: V, v: V): V
  {
    if ops == [] then v
    else var last := |ops| - 1; if SameKey(ops[last].0, k) then ops[last].1 else LastAssigned(ops[..last], k, v)
  }

  function ValueIn(m: map<V, V>, k: V): V { if k in m then m[k] else Nil }

  lemma {:induction false} AfterReads(m: map<V, V>, ops: seq<(V, V)>, k: V)
    requires Fits(k) && k != Nil && AllFit(ops)
    ensures ValueIn(After(m, ops), Normal(k)) == LastAssigned(ops, k, ValueIn(m, Normal(k)))
  {
    if ops != [] {
      var last := |ops| - 1;
      AfterReads(m, ops[..last], k);
      if ops[last].0 != NaN { NormalExact(ops[last].0, k); }
    }
  }

  /** Every key has the value that the map gives it, and no other has any. */
  ghost predicate Holds(arr: seq<V>, node: seq<Node>, m: map<V, V>)
  {
    forall k :: Lookup(arr, node, k) == if k in m then m[k] else Nil
  }

  // ----- rebuilding -----

  lemma NormalKey(k: V)
    requires IsKey(k)
    ensures Normal(k) == k && k != NaN
  {}

  lemma SomeNode(l: nat)
    ensures Pow2(l) > 0
  {}

  lemma LookupLive(arr: seq<V>, node: seq<Node>, k: V)
    requires Lookup(arr, node, k) != Nil
    ensures k in ArrKeys(arr) + LiveKeys(node)
  {}

  /** A key still to be put back finds room. */
  lemma RoomLeft(arr: seq<V>, node: seq<Node>, arr0: seq<V>, node0: seq<Node>, nasize: nat, nhsize: nat, k: V)
    requires forall k' :: Lookup(arr, node, k') == Nil || Lookup(arr, node, k') == Lookup(arr0, node0, k')
    requires forall k' :: k' in UsedKeys(node) ==> Lookup(arr, node, k') != Nil
    requires forall k' :: k' in UsedKeys(node) ==> !InArray(k', nasize)
    requires Lookup(arr, node, k) == Nil && Lookup(arr0, node0, k) != Nil && !InArray(k, nasize)
    requires |RestKeys(arr0, node0, nasize)| <= nhsize <= |node|
    ensures |UsedKeys(node)| < |node| && nhsize > 0
  {
    hide ArrKeys, LiveKeys, Lookup, UsedKeys;
    var rest := RestKeys(arr0, node0, nasize);
    forall k' | k' in UsedKeys(node) ensures k' in rest { LookupLive(arr0, node0, k'); }
    LookupLive(arr0, node0, k);
    assert k in rest && k !in UsedKeys(node);
    SubsetSize(UsedKeys(node), rest);
  }

  /** Only the first `h` nodes matter; there are none if there was no node vector. */
  ghost predicate OldNodes(node: seq<Node>, rank: seq<nat>, n: nat, floatHash: real -> nat, h: nat)
  {
    Chained(node, rank, n, floatHash) && (h == |node| || (h == 0 && forall k :: HashGet(node, k) == Nil))
  }

  lemma DummyHolds(node: seq<Node>, h: nat)
    requires h == |node| || (h == 0 && node == [EMPTY])
    ensures h == |node| || (h == 0 && forall k :: HashGet(node, k) == Nil)
  {}

  lemma RoomIsFree(node: seq<Node>, rank: seq<nat>, n: nat, floatHash: real -> nat)
    requires Chained(node, rank, n, floatHash) && |UsedKeys(node)| < |node|
    ensures exists i :: 0 <= i < |node| && node[i].key == Nil
  {
    var _ := SomeUnused(node, n);
  }

  /** What of the old table is in the array part up to `i`. */
  ghost function FromArray(arr: seq<V>, i: nat, k: V): V
    requires i <= |arr|
  {
    if InArray(k, i) then arr[k.n - 1] else Nil
  }

  /** What of the old table is in the array part or in the nodes from `j` to `h`. */
  ghost function FromNodes(arr: seq<V>, node: seq<Node>, j: nat, h: nat, k: V): V
    requires j <= h <= |node|
  {
    if InArray(k, |arr|) then arr[k.n - 1] else HashGet(node[j..h], k)
  }

  lemma UsedNotInArray(node: seq<Node>, rank: seq<nat>, n: nat, floatHash: real -> nat)
    requires Chained(node, rank, n, floatHash)
    ensures forall k :: k in UsedKeys(node) ==> !InArray(k, n)
  {
    forall i | 0 <= i < |node| && node[i].key != Nil ensures !InArray(node[i].key, n) { assert NodeOk(node[i], n); }
  }

  /** Before anything is put back there is only what stayed in the array part. */
  lemma StartVanishing(oarr: seq<V>, nold: seq<Node>, arr: seq<V>, node: seq<Node>, nasize: nat)
    requires nasize <= |oarr| && arr == oarr[..nasize] && forall k :: HashGet(node, k) == Nil
    ensures forall k :: Lookup(arr, node, k) == FromArray(oarr, nasize, k)
    ensures forall k :: Lookup(arr, node, k) == Nil || Lookup(arr, node, k) == Lookup(oarr, nold, k)
  {}

  lemma VanishingNext(oarr: seq<V>, nold: seq<Node>, i: nat)
    requires i < |oarr|
    ensures forall k :: FromArray(oarr, i + 1, k) == if k == Int(i + 1) then oarr[i] else FromArray(oarr, i, k)
    ensures FromArray(oarr, i, Int(i + 1)) == Nil && Lookup(oarr, nold, Int(i + 1)) == oarr[i] && IsKey(Int(i + 1))
  {}

  lemma VanishingDone(oarr: seq<V>, nold: seq<Node>, h: nat, arr: seq<V>, node: seq<Node>)
    requires h <= |nold| && forall k :: Lookup(arr, node, k) == FromArray(oarr, |oarr|, k)
    ensures forall k :: Lookup(arr, node, k) == FromNodes(oarr, nold, h, h, k)
  {}

  lemma StartGrowing(oarr: seq<V>, nold: seq<Node>, arr: seq<V>, node: seq<Node>, nasize: nat, h: nat)
    requires |oarr| <= nasize == |arr| && h <= |nold| && forall k :: HashGet(node, k) == Nil
    requires forall i :: 0 <= i < |arr| ==> arr[i] == if i < |oarr| then oarr[i] else Nil
    ensures forall k :: Lookup(arr, node, k) == FromNodes(oarr, nold, h, h, k)
    ensures forall k :: Lookup(arr, node, k) == Nil || Lookup(arr, node, k) == Lookup(oarr, nold, k)
  {}

  lemma SliceKeyed(node: seq<Node>, rank: seq<nat>, n: nat, floatHash: real -> nat, j: nat)
    requires Chained(node, rank, n, floatHash) && j <= |node|
    ensures Keyed(node[j..], n)
  {
    var s := node[j..];
    forall i | 0 <= i < |s| ensures NodeOk(s[i], n) { assert NodeOk(node[j + i], n); }
    forall a, b | 0 <= a < |s| && 0 <= b < |s| && a != b ensures KeysApart(s[a], s[b]) {
      assert KeysApart(node[j + a], node[j + b]);
    }
  }

  /** One more node from the end. */
  lemma NodesNext(oarr: seq<V>, nold: seq<Node>, orank: seq<nat>, floatHash: real -> nat, j: nat, h: nat)
    requires Chained(nold, orank, |oarr|, floatHash) && j < h == |nold|
    ensures forall k :: FromNodes(oarr, nold, j, h, k) ==
              if nold[j].val != Nil && k == nold[j].key then nold[j].val else FromNodes(oarr, nold, j + 1, h, k)
    ensures nold[j].val != Nil ==>
            nold[j].key != Nil && IsKey(nold[j].key) && FromNodes(oarr, nold, j + 1, h, nold[j].key) == Nil
    ensures nold[j].val != Nil ==> Lookup(oarr, nold, nold[j].key) == nold[j].val
  {
    hide Chained, IsKey, InArray;
    NodeProper(nold, orank, |oarr|, floatHash, j);
    SliceKeyed(nold, orank, |oarr|, floatHash, j);
    SliceKeyed(nold, orank, |oarr|, floatHash, j + 1);
    assert nold[j..h] == nold[j..] && nold[j + 1..h] == nold[j + 1..];
    assert nold[j..] == [nold[j]] + nold[j + 1..];
    forall k ensures HashGet(nold[j..], k) == if nold[j].key == k != Nil then nold[j].val
      else HashGet(nold[j + 1..], k) {
      ConsGet(nold[j], nold[j + 1..], |oarr|, k);
    }
    ConsGet(nold[j], nold[j + 1..], |oarr|, nold[j].key);
    if nold[j].key != Nil {
      NotAgain(nold[j], nold[j + 1..], |oarr|);
    }
  }

  lemma NodeProper(node: seq<Node>, rank: seq<nat>, n: nat, floatHash: real -> nat, j: nat)
    requires Chained(node, rank, n, floatHash) && j < |node|
    ensures if node[j].key == Nil then node[j].val == Nil
            else IsKey(node[j].key) && !InArray(node[j].key, n) && HashGet(node, node[j].key) == node[j].val
  {
    assert NodeOk(node[j], n);
    if node[j].key != Nil { HashGetAt(node, n, j); }
  }

  lemma ConsGet(x: Node, rest: seq<Node>, n: nat, k: V)
    requires Keyed([x] + rest, n) && Keyed(rest, n)
    ensures HashGet([x] + rest, k) == if x.key == k != Nil then x.val else HashGet(rest, k)
  {
    var all := [x] + rest;
    if x.key == k && k != Nil {
      HashGetAt(all, n, 0);
    } else if i :| k != Nil && 0 <= i < |rest| && rest[i].key == k {
      assert all[i + 1] == rest[i];
      HashGetAt(all, n, i + 1);
      HashGetAt(rest, n, i);
    } else {
      assert forall i :: 0 <= i < |all| ==> all[i] == if i == 0 then x else rest[i - 1];
    }
  }

  lemma NotAgain(x: Node, rest: seq<Node>, n: nat)
    requires Keyed([x] + rest, n) && x.key != Nil
    ensures HashGet(rest, x.key) == Nil
  {
    var all := [x] + rest;
    forall i | 0 <= i < |rest| ensures rest[i].key != x.key { assert KeysApart(all[0], all[i + 1]); }
  }

  lemma NodesDone(oarr: seq<V>, nold: seq<Node>, h: nat)
    requires h == |nold| || (h == 0 && forall k :: HashGet(nold, k) == Nil)
    ensures forall k :: FromNodes(oarr, nold, 0, h, k) == Lookup(oarr, nold, k)
  {
    if h == |nold| { assert nold[0..h] == nold; }
  }

  /** With no stale keys, what is in the nodes is what belongs there. */
  lemma AllInRest(arr: seq<V>, node: seq<Node>, rank: seq<nat>, floatHash: real -> nat, oarr: seq<V>, nold: seq<Node>,
                  nasize: nat)
    requires Chained(node, rank, nasize, floatHash)
    requires forall k :: k in UsedKeys(node) ==> Lookup(arr, node, k) != Nil
    requires forall k :: Lookup(arr, node, k) == Lookup(oarr, nold, k)
    ensures UsedKeys(node) <= RestKeys(oarr, nold, nasize)
  {
    hide UsedKeys, ArrKeys, LiveKeys, Lookup, Chained;
    UsedNotInArray(node, rank, nasize, floatHash);
    forall k | k in UsedKeys(node) ensures k in RestKeys(oarr, nold, nasize) { LookupLive(oarr, nold, k); }
  }

  // ----- sizes -----

  lemma KeysDisjoint(arr: seq<V>, node: seq<Node>, rank: seq<nat>, floatHash: real -> nat, ek: V)
    requires Chained(node, rank, |arr|, floatHash) && |arr| <= Pow2(MAXABITS)
    requires !InArray(ek, |arr|) && forall i :: 0 <= i < |node| ==> node[i].key != ek
    ensures ArrKeys(arr) !! LiveKeys(node) && ek !in ArrKeys(arr) && ek !in LiveKeys(node) && Indices(ArrKeys(arr))
  {
    forall i | 0 <= i < |node| && node[i].val != Nil ensures node[i].key !in ArrKeys(arr) {
      assert NodeOk(node[i], |arr|);
    }
  }

  lemma CountedAll(ak: set<V>, lk: set<V>, ek: V)
    requires ak !! lk && ek !in ak && ek !in lk && Indices(ak)
    ensures ak + Indexed(lk) + (if ArrayIndex(ek) then {ek} else {}) == Indexed(ak + lk + {ek}) &&
            Indices(Indexed(ak + lk + {ek}))
    ensures |Indexed(ak + lk + {ek})| == |ak| + |Indexed(lk)| + if ArrayIndex(ek) then 1 else 0
    ensures ak !! Indexed(lk) && ek !in ak + Indexed(lk)
  {
    hide ArrayIndex;
    assert ak + Indexed(lk) + (if ArrayIndex(ek) then {ek} else {}) == Indexed(ak + lk + {ek});
  }

  /** The new sizes have room for every key with a value and for the extra key. */
  lemma SizesFit(arr: seq<V>, node: seq<Node>, ek: V, asize: nat, na: nat)
    requires ArrKeys(arr) !! LiveKeys(node) && ek !in ArrKeys(arr) && ek !in LiveKeys(node)
    requires Optimal(Indexed(ArrKeys(arr) + LiveKeys(node) + {ek}), asize, na)
    ensures asize <= Pow2(MAXABITS)
    ensures |ArrKeys(arr)| + |LiveKeys(node)| + 1 - na ==
            |RestKeys(arr, node, asize)| + if InArray(ek, asize) then 0 else 1
  {
    hide ArrKeys, LiveKeys;
    var all := ArrKeys(arr) + LiveKeys(node) + {ek};
    SizeBound(Indexed(all), asize, na);
    var inside := UpTo(Indexed(all), asize);
    IndexedInside(all, asize);
    InsideOutside(ArrKeys(arr) + LiveKeys(node), ek, asize);
    assert RestKeys(arr, node, asize) == set k | k in ArrKeys(arr) + LiveKeys(node) && !InArray(k, asize);
  }

  lemma InsideOutside(live: set<V>, ek: V, n: nat)
    requires ek !in live
    ensures |live| + 1 == |set k | k in live + {ek} && InArray(k, n)| + |set k | k in live &&
            !InArray(k, n)| + if InArray(ek, n) then 0 else 1
  {
    var inside := set k | k in live + {ek} && InArray(k, n);
    var rest := set k | k in live && !InArray(k, n);
    var outside := if InArray(ek, n) then rest else rest + {ek};
    assert live + {ek} == inside + outside && inside !! outside;
  }

  lemma SizeBound(s: set<V>, n: nat, na: nat)
    requires Optimal(s, n, na)
    ensures n <= Pow2(MAXABITS) && na == |UpTo(s, n)|
  {
    if n != 0 {
      var l: nat :| l <= MAXABITS && n == Pow2(l);
      Pow2Monotone(l, MAXABITS);
    }
  }

  lemma IndexedInside(all: set<V>, n: nat)
    requires n <= Pow2(MAXABITS)
    ensures UpTo(Indexed(all), n) == set k | k in all && InArray(k, n)
  {}

  /** Unused nodes suit an array part of any size. */
  lemma Rechain(node: seq<Node>, rank: seq<nat>, n: nat, n': nat, floatHash: real -> nat)
    requires Chained(node, rank, n, floatHash) && UsedKeys(node) == {}
    ensures Chained(node, rank, n', floatHash)
  {
    assert forall i :: 0 <= i < |node| && node[i].key != Nil ==> node[i].key in UsedKeys(node);
    forall i | 0 <= i < |node| ensures node[i].key == Nil && NodeOk(node[i], n') { assert NodeOk(node[i], n); }
    forall i, j | 0 <= i < |node| && 0 <= j < |node| && i != j ensures KeysApart(node[i], node[j]) {}
  }

  /** `prev` leads to `mp`. */
  ghost predicate Movable0(node: seq<Node>, rank: seq<nat>, n: nat, mp: nat, prev: nat)
  {
    && Ranked(node, rank) && Injective(node) && Keyed(node, n) && mp < |node| && prev < |node|
    && node[prev].next != 0 && To(node, prev) == mp
  }

  lemma NewKeyIntro(node: seq<Node>, rank: seq<nat>, n: nat, floatHash: real -> nat, mp: nat, k: V)
    requires Chained(node, rank, n, floatHash) && IsKey(k) && k != Nil && !InArray(k, n) &&
             (forall i :: 0 <= i < |node| ==> node[i].key != k)
    requires |node| > 0 && mp == MainPosition(k, |node|, floatHash)
    ensures FreshKey(node, n, floatHash, mp, k) && |rank| == |node|
  {}

  lemma BlankOne(node: seq<Node>, rank: seq<nat>, n: nat, floatHash: real -> nat, f: nat)
    requires Chained(node, rank, n, floatHash) && f < |node| && node[f].key == Nil
    ensures node[f] == EMPTY && |rank| == |node|
  {
    FreeIsBlank(node, n, f);
  }

  lemma DisplaceDone(node: seq<Node>, rank: seq<nat>, n: nat, floatHash: real -> nat, mp: nat, f: nat, prev: nat, k: V)
    requires Chained(node, rank, n, floatHash) && FreshKey(node, n, floatHash, mp, k) &&
             Movable0(node, rank, n, mp, prev)
    requires f < |node| && node[f].key == Nil && node[mp].key != Nil &&
             MainPosition(node[mp].key, |node|, floatHash) != mp
    ensures |rank| == |node| && prev != f && prev != mp &&
            Chained(Moved(node, mp, f, prev, k), Raised(rank, mp, f), n, floatHash)
    ensures Added(node, Moved(node, mp, f, prev, k), k, mp) &&
            UsedKeys(Moved(node, mp, f, prev, k)) <= UsedKeys(node) + {k}
  {
    hide MainPosition, IsKey, Keyed, Injective, Ranked, Reaches;
    LinkAt(node, rank, mp);
    MoveChained(node, rank, n, floatHash, mp, f, prev, k);
    NodeUsed(node, n, prev);
    MoveRanked(node, rank, n, mp, f, prev, k);
    MovedUsed(node, mp, f, prev, k);
  }

  lemma UsedHasKey(node: seq<Node>, rank: seq<nat>, n: nat, floatHash: real -> nat, mp: nat)
    requires Chained(node, rank, n, floatHash) && mp < |node| && node[mp].val != Nil
    ensures node[mp].key != Nil && Reaches(node, rank, MainPosition(node[mp].key, |node|, floatHash), mp)
  {
    assert NodeOk(node[mp], n) && FoundAt(node, rank, floatHash, mp);
  }

  lemma MovedUsed(node: seq<Node>, mp: nat, f: nat, prev: nat, k: V)
    requires mp < |node| && f < |node| && prev < |node| && prev != f && prev != mp && node[mp].key != Nil
    ensures UsedKeys(Moved(node, mp, f, prev, k)) <= UsedKeys(node) + {k}
  {}

  lemma InsertedUsed(node: seq<Node>, mp: nat, f: nat, k: V)
    requires mp < |node| && f < |node| && f != mp
    ensures UsedKeys(Inserted(node, mp, f, k)) <= UsedKeys(node) + {k}
  {}

  lemma PlacedUsed(node: seq<Node>, mp: nat, k: V)
    requires mp < |node|
    ensures UsedKeys(Placed(node, mp, k)) <= UsedKeys(node) + {k}
  {}

  /** Keys of the array part from one index up to another. */
  ghost function Between(arr: seq<V>, i0: nat, i: nat): set<V>
    requires 1 <= i0 && i <= |arr| + 1
  {
    set n: int | i0 <= n < i && arr[n - 1] != Nil :: Int(n)
  }

  predicate IsBetween(arr: seq<V>, k: V, i0: nat, i: nat)
  {
    k.Int? && 1 <= i0 <= k.n < i <= |arr| + 1 && arr[k.n - 1] != Nil
  }

  lemma BetweenHas(arr: seq<V>, i0: nat, i: nat)
    requires 1 <= i0 && i <= |arr| + 1
    ensures forall k :: k in Between(arr, i0, i) <==> IsBetween(arr, k, i0, i)
  {}

  lemma BetweenNext(arr: seq<V>, i0: nat, i: nat)
    requires 1 <= i0 <= i <= |arr|
    ensures |Between(arr, i0, i + 1)| == |Between(arr, i0, i)| + if arr[i - 1] != Nil then 1 else 0
  {
    hide Between;
    BetweenHas(arr, i0, i);
    BetweenHas(arr, i0, i + 1);
    if arr[i - 1] != Nil {
      assert Between(arr, i0, i + 1) == Between(arr, i0, i) + {Int(i)};
    } else {
      assert Between(arr, i0, i + 1) == Between(arr, i0, i);
    }
  }

  lemma BetweenSlice(arr: seq<V>, i0: nat, i: nat, lg: nat)
    requires 1 <= i0 <= i <= |arr| + 1 && i - 1 <= Pow2(lg) && i0 == if lg == 0 then 1 else Pow2(lg - 1) + 1
    ensures forall k :: k in Between(arr, i0, i) ==> InSlice(k, lg)
  {}

  lemma BetweenJoin(arr: seq<V>, i0: nat, i: nat)
    requires 1 <= i0 <= i <= |arr| + 1
    ensures Between(arr, 1, i0) !! Between(arr, i0, i) && Between(arr, 1, i) == Between(arr, 1, i0) +
            Between(arr, i0, i)
  {
    assert forall k :: k in Between(arr, 1, i0) <==> k.Int? && 1 <= k.n < i0 && arr[k.n - 1] != Nil;
    assert forall k :: k in Between(arr, i0, i) <==> k.Int? && i0 <= k.n < i && arr[k.n - 1] != Nil;
    assert forall k :: k in Between(arr, 1, i) <==> k.Int? && 1 <= k.n < i && arr[k.n - 1] != Nil;
  }

  lemma BetweenNone(arr: seq<V>, i: nat)
    requires 1 <= i <= |arr| + 1
    ensures Between(arr, i, i) == {}
    ensures i == |arr| + 1 ==> Between(arr, 1, i) == ArrKeys(arr)
  {}

  lemma PowZero()
    ensures Pow2(0) == 1
  {}

  lemma PowStep(l: nat)
    ensures Pow2(l + 1) == 2 * Pow2(l) && (l > 0 ==> Pow2(l) == 2 * Pow2(l - 1))
  {}

  lemma CountedLength(nums: seq<nat>, s: set<V>)
    requires Counted(nums, s)
    ensures |nums| == MAXABITS + 1
  {}

  /** One more node from the end. */
  lemma LiveNext(node: seq<Node>, rank: seq<nat>, n: nat, floatHash: real -> nat, i: nat)
    requires Chained(node, rank, n, floatHash) && i < |node|
    ensures LiveKeys(node[i..]) == if node[i].val != Nil then LiveKeys(node[i + 1..]) + {node[i].key}
            else LiveKeys(node[i + 1..])
    ensures node[i].val != Nil ==> node[i].key !in LiveKeys(node[i + 1..]) && node[i].key in LiveKeys(node)
  {
    var tail := node[i + 1..];
    assert node[i..] == [node[i]] + tail;
    assert forall j :: 0 <= j < |tail| ==> tail[j] == node[i + 1 + j];
    assert forall j :: 0 <= j < |tail| ==> NodeOk(tail[j], n) && KeysApart(node[i], node[i + 1 + j]);
    assert NodeOk(node[i], n);
    if node[i].val != Nil {
      assert node[i..][0].val != Nil;
      forall k | k in LiveKeys(node[i..]) ensures k in LiveKeys(tail) + {node[i].key} {
        var j :| 0 <= j < |node[i..]| && node[i..][j].val != Nil && node[i..][j].key == k;
        if j > 0 { assert tail[j - 1].key == k; }
      }
      forall k | k in LiveKeys(tail) ensures k in LiveKeys(node[i..]) {
        var j :| 0 <= j < |tail| && tail[j].val != Nil && tail[j].key == k;
        assert node[i..][j + 1].key == k;
      }
    } else {
      forall k | k in LiveKeys(node[i..]) ensures k in LiveKeys(tail) {
        var j :| 0 <= j < |node[i..]| && node[i..][j].val != Nil && node[i..][j].key == k;
        assert tail[j - 1].key == k;
      }
      forall k | k in LiveKeys(tail) ensures k in LiveKeys(node[i..]) {
        var j :| 0 <= j < |tail| && tail[j].val != Nil && tail[j].key == k;
        assert node[i..][j + 1].key == k;
      }
    }
  }

  lemma IndexedNext(s: set<V>, rest: set<V>, k: V)
    requires k !in rest
    ensures s + Indexed(rest) + (if ArrayIndex(k) then {k} else {}) == s + Indexed(rest + {k})
    ensures |Indexed(rest + {k})| == |Indexed(rest)| + if ArrayIndex(k) then 1 else 0
  {
    hide ArrayIndex;
    if ArrayIndex(k) {
      assert Indexed(rest + {k}) == Indexed(rest) + {k};
    } else {
      assert Indexed(rest + {k}) == Indexed(rest);
    }
  }

  lemma WriteChained(node: seq<Node>, rank: seq<nat>, n: nat, floatHash: real -> nat, i: nat, v: V)
    requires Chained(node, rank, n, floatHash) && i < |node| && node[i].key != Nil
    ensures Chained(node[i := node[i].(val := v)], rank, n, floatHash)
    ensures UsedKeys(node[i := node[i].(val := v)]) == UsedKeys(node)
    ensures forall j :: 0 <= j < |node| && node[j].key == node[i].key ==> j == i
  {
    hide MainPosition, IsKey;
    forall j | 0 <= j < |node| && node[j].key == node[i].key ensures j == i { OnlyAt(node, n, i, j); }
    var node' := node[i := node[i].(val := v)];
    forall j | 0 <= j < |node| ensures LinkOk(node', rank, j) { assert LinkOk(node, rank, j); }
    forall a, b | 0 <= a < |node| && 0 <= b < |node| && a != b ensures LinksApart(node', a, b) &&
      KeysApart(node'[a], node'[b]) {
      assert LinksApart(node, a, b) && KeysApart(node[a], node[b]);
    }
    forall j | 0 <= j < |node| ensures NodeOk(node'[j], n) { assert NodeOk(node[j], n); }
    forall j | 0 <= j < |node| ensures FoundAt(node', rank, floatHash, j) {
      assert FoundAt(node, rank, floatHash, j);
      if node[j].key != Nil { ReachesSame(node, node', rank, MainPosition(node[j].key, |node|, floatHash), j); }
    }
    assert UsedKeys(node') == UsedKeys(node) by {
      assert forall j :: 0 <= j < |node| ==> node'[j].key == node[j].key;
    }
  }

  lemma WriteGet(node: seq<Node>, n: nat, i: nat, v: V, k: V)
    requires i < |node| && Keyed(node, n) && Keyed(node[i := node[i].(val := v)], n) && node[i].key != Nil
    ensures HashGet(node[i := node[i].(val := v)], k) == if k == node[i].key then v else HashGet(node, k)
  {
    var node' := node[i := node[i].(val := v)];
    if k == node[i].key {
      HashGetAt(node', n, i);
    } else if j :| k != Nil && 0 <= j < |node| && node[j].key == k {
      HashGetAt(node, n, j);
      HashGetAt(node', n, j);
    } else {
      assert forall j :: 0 <= j < |node| ==> node'[j].key == node[j].key;
    }
  }
}
