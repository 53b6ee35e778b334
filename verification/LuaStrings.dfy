/** The table of short strings: chains of strings in as many buckets as a power of two, so that no two strings have the
    same contents. */
module LuaStrings {
  import opened Bytes
  import opened Powers
  import opened WordArith

  /** A string object. Objects are known by numbers; 0 is the null pointer. */
  datatype TString = TString(text: seq<byte>, hash: nat, hnext: nat, dead: bool)

  const MinSize: nat := 128
  const MaxInt: nat := 0x7FFF_FFFF

  // ----- chains -----

  /** From `head`, the links lead through exactly these strings, and end. */
  ghost predicate Chain(m: map<nat, TString>, head: nat, s: set<nat>)
    decreases s
  {
    if s == {} then head == 0 else head != 0 && head in s && head in m && Chain(m, m[head].hnext, s - {head})
  }

  lemma {:induction false} ChainFrame(m: map<nat, TString>, m': map<nat, TString>, head: nat, s: set<nat>)
    requires Chain(m, head, s) && forall n :: n in s && n in m ==> n in m' && m'[n].hnext == m[n].hnext
    ensures Chain(m', head, s)
    decreases s
  {
    if s != {} { ChainFrame(m, m', m[head].hnext, s - {head}); }
  }

  lemma ChainPush(m: map<nat, TString>, head: nat, s: set<nat>, p: nat, t: TString)
    requires Chain(m, head, s) && p !in s && p != 0 && t.hnext == head
    ensures Chain(m[p := t], p, s + {p})
  {
    ChainFrame(m, m[p := t], head, s);
    assert s + {p} - {p} == s;
  }

  lemma ChainHead(m: map<nat, TString>, head: nat, s: set<nat>)
    requires Chain(m, head, s)
    ensures head == 0 <==> s == {}
    ensures head != 0 ==> head in s && head in m && Chain(m, m[head].hnext, s - {head})
  {}

  /** Following the links from `head` leads to `cur`, before which `rest` is left of `s`. */
  ghost predicate Walk(m: map<nat, TString>, head: nat, s: set<nat>, cur: nat, rest: set<nat>)
    decreases s
  {
    (head == cur && s == rest) || (head in s && head in m && Walk(m, m[head].hnext, s - {head}, cur, rest))
  }

  lemma {:induction false} WalkNext(m: map<nat, TString>, head: nat, s: set<nat>, cur: nat, rest: set<nat>)
    requires Walk(m, head, s, cur, rest) && cur in rest && cur in m
    ensures Walk(m, head, s, m[cur].hnext, rest - {cur})
    decreases s
  {
    if head == cur && s == rest {
      assert Walk(m, m[cur].hnext, s - {cur}, m[cur].hnext, rest - {cur});
    } else {
      WalkNext(m, m[head].hnext, s - {head}, cur, rest);
    }
  }

  /** Taking the string after `prev` out of a chain. */
  lemma {:induction false} Unlink(m: map<nat, TString>, head: nat, s: set<nat>, prev: nat, rest: set<nat>, ts: nat)
    requires Chain(m, head, s) && Walk(m, head, s, prev, rest) && prev in rest && prev in m && m[prev].hnext == ts &&
             ts != 0
    ensures ts in s && ts in m && ts != prev && prev in s
    ensures Chain(m[prev := m[prev].(hnext := m[ts].hnext)], head, s - {ts})
    decreases s
  {
    ChainHead(m, head, s);
    if head == prev && s == rest {
      ChainHead(m, ts, s - {prev});
      var m' := m[prev := m[prev].(hnext := m[ts].hnext)];
      ChainFrame(m, m', m[ts].hnext, s - {prev} - {ts});
      assert s - {prev} - {ts} == s - {ts} - {prev};
    } else {
      Unlink(m, m[head].hnext, s - {head}, prev, rest, ts);
      WalkOn(m, m[head].hnext, s - {head}, prev, rest);
      assert s - {head} - {ts} == s - {ts} - {head};
    }
  }

  lemma {:induction false} WalkOn(m: map<nat, TString>, head: nat, s: set<nat>, cur: nat, rest: set<nat>)
    requires Walk(m, head, s, cur, rest)
    ensures rest <= s
    decreases s
  {
    if !(head == cur && s == rest) { WalkOn(m, m[head].hnext, s - {head}, cur, rest); }
  }

  // ----- the table -----

  /** The strings that belong into a bucket. */
  ghost function Bucket(m: map<nat, TString>, size: nat, b: nat): set<nat>
    requires size > 0
  {
    set n | n in m && m[n].hash % size == b
  }

  ghost predicate PowerOfTwo(x: nat) { exists k: nat :: x == Pow2(k) }

  /** Every bucket is a chain of exactly the strings that belong into it. */
  ghost predicate Chained(m: map<nat, TString>, buckets: seq<nat>, size: nat) {
    && |buckets| == size > 0 && PowerOfTwo(size) && 0 !in m
    && forall b :: 0 <= b < size ==> Chain(m, buckets[b], Bucket(m, size, b))
  }

  /** No two strings have the same contents, and every string has the hash of its contents. */
  ghost predicate Interned(m: map<nat, TString>, hashOf: seq<byte> -> nat) {
    && (forall i, j :: i in m && j in m && m[i].text == m[j].text ==> i == j)
    && forall i :: i in m ==> m[i].hash == hashOf(m[i].text)
  }

  lemma BucketIs(m: map<nat, TString>, buckets: seq<nat>, size: nat, b: nat)
    requires Chained(m, buckets, size) && b < size
    ensures Chain(m, buckets[b], Bucket(m, size, b))
  {}

  /** The bits that `lmod` keeps are the remainder. */
  lemma ModIsAnd(h: nat, size: nat)
    requires size > 0 && PowerOfTwo(size)
    ensures And(h, size - 1) == h % size
  {
    var k: nat :| size == Pow2(k);
    AndMask(h, k);
  }

  // ----- rehashing in place -----

  /** The strings in a bucket while the table is rehashed: those already moved are where the new size has them, the
      others where the old size had them; those in `rest` are in no bucket. */
  ghost function Mixed(m: map<nat, TString>, old_: nat, new_: nat, done: set<nat>, rest: set<nat>, b: nat): set<nat>
    requires old_ > 0 && new_ > 0
  {
    set n | n in m && n !in rest && (if n in done then m[n].hash % new_ else m[n].hash % old_) == b
  }

  ghost predicate Rehashing(m: map<nat, TString>, buckets: seq<nat>, old_: nat, new_: nat, done: set<nat>,
                            rest: set<nat>)
    requires old_ > 0 && new_ > 0
  {
    forall b :: 0 <= b < |buckets| ==> Chain(m, buckets[b], Mixed(m, old_, new_, done, rest, b))
  }

  /** The strings of the buckets before number `i`. */
  ghost function Before(m: map<nat, TString>, old_: nat, i: nat): set<nat>
    requires old_ > 0
  {
    set n | n in m && m[n].hash % old_ < i
  }

  lemma RehashStart(m: map<nat, TString>, buckets: seq<nat>, old_: nat, new_: nat)
    requires Chained(m, buckets, old_) && new_ > 0
    ensures Rehashing(m, buckets + seq(if new_ > old_ then new_ - old_ else 0, _ => 0), old_, new_,
            Before(m, old_, 0), {})
  {
    var more := buckets + seq(if new_ > old_ then new_ - old_ else 0, _ => 0);
    forall b | 0 <= b < |more| ensures Chain(m, more[b], Mixed(m, old_, new_, Before(m, old_, 0), {}, b)) {
      assert Mixed(m, old_, new_, Before(m, old_, 0), {}, b) == Bucket(m, old_, b);
      if b >= old_ { assert Bucket(m, old_, b) == {}; }
    }
  }

  /** Bucket number `i` is taken out of the table as a whole. */
  lemma RehashTake(m: map<nat, TString>, buckets: seq<nat>, old_: nat, new_: nat, i: nat)
    requires old_ > 0 && new_ > 0 && PowerOfTwo(old_) && PowerOfTwo(new_) && i < old_ && i < |buckets|
    requires Rehashing(m, buckets, old_, new_, Before(m, old_, i), {})
    ensures Chain(m, buckets[i], Bucket(m, old_, i))
    ensures Rehashing(m, buckets[i := 0], old_, new_, Before(m, old_, i), Bucket(m, old_, i))
    ensures Bucket(m, old_, i) !! Before(m, old_, i)
  {
    var done, rest := Before(m, old_, i), Bucket(m, old_, i);
    forall n | n in m && m[n].hash % old_ < i ensures m[n].hash % new_ != i {
      NotBack(m[n].hash, old_, new_, i);
    }
    assert Mixed(m, old_, new_, done, {}, i) == rest;
    var after := buckets[i := 0];
    forall b | 0 <= b < |after| ensures Chain(m, after[b], Mixed(m, old_, new_, done, rest, b)) {
      if b == i {
        assert Mixed(m, old_, new_, done, rest, b) == {};
      } else {
        assert Mixed(m, old_, new_, done, rest, b) == Mixed(m, old_, new_, done, {}, b);
      }
    }
  }

  /** A string that was moved does not come into a bucket that is still to be rehashed: that is why it can be done in
      place. */
  lemma NotBack(x: nat, old_: nat, new_: nat, i: nat)
    requires old_ > 0 && new_ > 0 && PowerOfTwo(old_) && PowerOfTwo(new_) && x % old_ < i < old_
    ensures x % new_ != i
  {
    var a: nat :| old_ == Pow2(a);
    var c: nat :| new_ == Pow2(c);
    hide Pow2;
    if c <= a {
      Pow2Sum(a - c, c);
      ModMod(x, new_, Pow2(a - c));
    } else {
      Pow2Sum(c - a, a);
      ModMod(x, old_, Pow2(c - a));
      SmallRemainder(i, old_);
    }
  }

  lemma ModMod(x: nat, m: nat, k: nat)
    requires m > 0 && k > 0
    ensures k * m > 0 && x % (k * m) % m == x % m && x % m <= x % (k * m)
  {
    DivTwice(x, m, k);
    var q, r := x / m % k, x % m;
    assert m * k == k * m && q * m >= 0;
    Unique(q * m + r, m, q, r);
  }

  lemma SmallRemainder(i: nat, m: nat)
    requires i < m
    ensures i % m == i
  {}

  /** One string of the bucket is put where it belongs now. */
  lemma RehashMove(m: map<nat, TString>, buckets: seq<nat>, old_: nat, new_: nat, done: set<nat>, rest: set<nat>,
                   p: nat, h: nat)
    requires old_ > 0 && new_ > 0 && Rehashing(m, buckets, old_, new_, done, rest)
    requires p in rest && p in m && p != 0 && h == m[p].hash % new_ && h < |buckets|
    ensures Rehashing(m[p := m[p].(hnext := buckets[h])], buckets[h := p], old_, new_, done + {p}, rest - {p})
  {
    hide Chain, Mixed;
    var m', after := m[p := m[p].(hnext := buckets[h])], buckets[h := p];
    forall b | 0 <= b < |after| ensures Chain(m', after[b], Mixed(m', old_, new_, done + {p}, rest - {p}, b)) {
      MixedMove(m, m', old_, new_, done, rest, p, b);
      MoveOne(m, buckets, Mixed(m, old_, new_, done, rest, b), p, h, b);
    }
  }

  lemma MoveOne(m: map<nat, TString>, buckets: seq<nat>, s: set<nat>, p: nat, h: nat, b: nat)
    requires p in m && p != 0 && p !in s && h < |buckets| && b < |buckets| && Chain(m, buckets[b], s)
    ensures Chain(m[p := m[p].(hnext := buckets[h])], buckets[h := p][b], s + if h == b then {p} else {})
  {
    hide Chain;
    var m' := m[p := m[p].(hnext := buckets[h])];
    if b == h {
      ChainPush(m, buckets[h], s, p, m'[p]);
    } else {
      ChainFrame(m, m', buckets[b], s);
      assert s + {} == s;
    }
  }

  lemma MixedMove(m: map<nat, TString>, m': map<nat, TString>, old_: nat, new_: nat, done: set<nat>, rest: set<nat>,
                  p: nat, b: nat)
    requires old_ > 0 && new_ > 0 && p in rest && p in m && m'.Keys == m.Keys && forall n :: n in m ==>
             m'[n].hash == m[n].hash
    ensures Mixed(m', old_, new_, done + {p}, rest - {p}, b)
         == Mixed(m, old_, new_, done, rest, b) + if m[p].hash % new_ == b then {p} else {}
    ensures p !in Mixed(m, old_, new_, done, rest, b)
  {}

  /** When all buckets were rehashed, every string is where the new size has it; what is beyond the new size is
      empty. */
  lemma RehashDone(m: map<nat, TString>, buckets: seq<nat>, old_: nat, new_: nat)
    requires old_ > 0 && new_ > 0 && PowerOfTwo(new_) && |buckets| >= new_ && 0 !in m
    requires Rehashing(m, buckets, old_, new_, Before(m, old_, old_), {})
    ensures Chained(m, buckets[..new_], new_)
    ensures forall b :: new_ <= b < |buckets| ==> buckets[b] == 0
  {
    forall b | 0 <= b < |buckets| ensures Chain(m, buckets[b], Bucket(m, new_, b)) {
      assert Mixed(m, old_, new_, Before(m, old_, old_), {}, b) == Bucket(m, new_, b);
    }
    forall b | new_ <= b < |buckets| ensures buckets[b] == 0 {
      assert Bucket(m, new_, b) == {};
    }
  }

  /** Moving strings changes nothing but links. */
  ghost predicate LinksOnly(m: map<nat, TString>, m': map<nat, TString>) {
    m'.Keys == m.Keys && forall n :: n in m ==> m'[n] == m[n].(hnext := m'[n].hnext)
  }

  lemma LinksMove(m: map<nat, TString>, m': map<nat, TString>, p: nat, x: nat)
    requires LinksOnly(m, m') && p in m'
    ensures LinksOnly(m, m'[p := m'[p].(hnext := x)])
  {}

  lemma LinksKeep(m: map<nat, TString>, m': map<nat, TString>, hashOf: seq<byte> -> nat)
    requires LinksOnly(m, m') && Interned(m, hashOf)
    ensures Interned(m', hashOf)
  {}

  lemma LinksBefore(m: map<nat, TString>, m': map<nat, TString>, old_: nat, i: nat)
    requires LinksOnly(m, m') && old_ > 0
    ensures Before(m, old_, i) == Before(m', old_, i) && Bucket(m, old_, i) == Bucket(m', old_, i)
    ensures Before(m, old_, i) + Bucket(m, old_, i) == Before(m, old_, i + 1)
  {}

  // ----- finding and adding -----

  /** A string of these contents is in the table exactly if it is in the bucket that the hash selects. */
  lemma OnlyInBucket(m: map<nat, TString>, hashOf: seq<byte> -> nat, size: nat, str: seq<byte>)
    requires size > 0 && Interned(m, hashOf)
    ensures forall n :: n in m && m[n].text == str ==> n in Bucket(m, size, hashOf(str) % size)
  {}

  /** A new string at the head of its bucket. */
  lemma AddChained(m: map<nat, TString>, buckets: seq<nat>, size: nat, ts: nat, t: TString)
    requires Chained(m, buckets, size) && ts !in m && ts != 0
    requires var b := t.hash % size; t.hnext == buckets[b]
    ensures var b := t.hash % size; Chained(m[ts := t], buckets[b := ts], size)
  {
    var h := t.hash % size;
    var m', after := m[ts := t], buckets[h := ts];
    forall b | 0 <= b < size ensures Chain(m', after[b], Bucket(m', size, b)) {
      AddBucket(m, size, ts, t, b);
      BucketIs(m, buckets, size, b);
      hide Chain, Bucket, Chained;
      if b == h {
        ChainPush(m, buckets[b], Bucket(m, size, b), ts, t);
      } else {
        ChainFrame(m, m', buckets[b], Bucket(m, size, b));
      }
    }
  }

  lemma AddBucket(m: map<nat, TString>, size: nat, ts: nat, t: TString, b: nat)
    requires size > 0 && ts !in m
    ensures Bucket(m[ts := t], size, b) == Bucket(m, size, b) + if t.hash % size == b then {ts} else {}
    ensures t.hash % size != b ==> Bucket(m[ts := t], size, b) == Bucket(m, size, b)
    ensures ts !in Bucket(m, size, b)
  {}

  lemma AddInterned(m: map<nat, TString>, hashOf: seq<byte> -> nat, ts: nat, t: TString)
    requires Interned(m, hashOf) && ts !in m && t.hash == hashOf(t.text) && forall n :: n in m ==> m[n].text != t.text
    ensures Interned(m[ts := t], hashOf)
  {}

  /** What interning leaves: a string of these contents, the same one if there was one, and all others as they were. */
  ghost predicate InternedOne(m: map<nat, TString>, m': map<nat, TString>, ts: nat, str: seq<byte>) {
    && ts in m' && m'[ts].text == str && !m'[ts].dead && m'.Keys == m.Keys + {ts}
    && (forall n :: n in m && m[n].text == str ==> n == ts)
    && forall n :: n in m && n != ts ==> m'[n] == m[n].(hnext := m'[n].hnext)
  }

  lemma FoundOne(m: map<nat, TString>, hashOf: seq<byte> -> nat, buckets: seq<nat>, size: nat, ts: nat, str: seq<byte>)
    requires ts in m && m[ts].text == str && Interned(m, hashOf) && Chained(m, buckets, size)
    ensures var m' := m[ts := m[ts].(dead := false)];
      InternedOne(m, m', ts, str) && InternedOne(m, m, ts, str) == !m[ts].dead && Interned(m', hashOf) &&
        Chained(m', buckets, size)
  {
    var m' := m[ts := m[ts].(dead := false)];
    forall b | 0 <= b < size ensures Chain(m', buckets[b], Bucket(m', size, b)) {
      assert Bucket(m', size, b) == Bucket(m, size, b);
      ChainFrame(m, m', buckets[b], Bucket(m, size, b));
    }
  }

  lemma AddedOne(m: map<nat, TString>, m1: map<nat, TString>, ts: nat, t: TString)
    requires LinksOnly(m, m1) && ts !in m && !t.dead && forall n :: n in m ==> m[n].text != t.text
    ensures InternedOne(m, m1[ts := t], ts, t.text)
  {}

  // ----- removing -----

  lemma RemoveChained(m: map<nat, TString>, m1: map<nat, TString>, buckets: seq<nat>, first: nat, size: nat, ts: nat,
                      h: nat)
    requires Chained(m, buckets, size) && ts in m && h == m[ts].hash % size && LinksOnly(m, m1)
    requires forall n :: n in m && n !in Bucket(m, size, h) ==> m1[n] == m[n]
    requires Chain(m1, first, Bucket(m, size, h) - {ts})
    ensures Chained(m1 - {ts}, buckets[h := first], size)
  {
    var m', after := m1 - {ts}, buckets[h := first];
    forall b | 0 <= b < size ensures Chain(m', after[b], Bucket(m', size, b)) {
      assert Bucket(m', size, b) == Bucket(m, size, b) - {ts};
      if b == h {
        ChainFrame(m1, m', first, Bucket(m, size, b) - {ts});
      } else {
        assert Bucket(m, size, b) - {ts} == Bucket(m, size, b);
        ChainFrame(m, m', buckets[b], Bucket(m, size, b));
      }
    }
  }

  lemma RemoveInterned(m: map<nat, TString>, m1: map<nat, TString>, hashOf: seq<byte> -> nat, ts: nat)
    requires Interned(m, hashOf) && LinksOnly(m, m1)
    ensures Interned(m1 - {ts}, hashOf)
  {}

  /** Removing leaves all other strings. */
  ghost predicate RemovedOne(m: map<nat, TString>, m': map<nat, TString>, ts: nat) {
    m'.Keys == m.Keys - {ts} && forall n :: n in m' ==> m'[n] == m[n].(hnext := m'[n].hnext)
  }

  lemma TakeHead(m: map<nat, TString>, head: nat, s: set<nat>)
    requires Chain(m, head, s) && head != 0
    ensures head in m && Chain(m, m[head].hnext, s - {head})
  {}

  class StringTable {
    const hashOf: seq<byte> -> nat
    var buckets: seq<nat>
    var nuse: nat
    var size: nat
    var strs: map<nat, TString>
    var last: nat

    ghost predicate Valid()
      reads this
    {
      Chained(strs, buckets, size) && Interned(strs, hashOf) && nuse == |strs| && forall n :: n in strs ==> n <= last
    }

    constructor (hashOf: seq<byte> -> nat)
      ensures Valid() && this.hashOf == hashOf && strs == map[] && size == MinSize
    {
      this.hashOf := hashOf;
      buckets, nuse, size, strs, last := seq(MinSize, _ => 0), 0, MinSize, map[], 0;
      new;
      MinPower();
    }

    /** Follows a chain to a string of these contents; 0 if there is none. */
    method FindIn(head: nat, str: seq<byte>, ghost s: set<nat>) returns (ts: nat)
      requires Chain(strs, head, s) && 0 !in strs
      ensures ts != 0 ==> ts in s && ts in strs && strs[ts].text == str
      ensures ts == 0 ==> forall n :: n in s ==> n in strs && strs[n].text != str
    {
      hide Chain;
      ts := head;
      ghost var rest := s;
      ChainHead(strs, ts, rest);
      while ts != 0 && strs[ts].text != str
        invariant rest <= s && Chain(strs, ts, rest) && (ts != 0 ==> ts in strs && ts in rest) &&
                  (ts == 0 <==> rest == {})
        invariant forall n :: n in s - rest ==> n in strs && strs[n].text != str
        decreases |rest|
      {
        ChainHead(strs, ts, rest);
        rest := rest - {ts};
        ts := strs[ts].hnext;
        ChainHead(strs, ts, rest);
      }
      assert ts == 0 ==> s - rest == s;
    }

    /** Finds the string with these contents, or makes one. */
    method InternShrStr(str: seq<byte>) returns (ts: nat)
      requires Valid()
      modifies this
      ensures Valid() && InternedOne(old(strs), strs, ts, str) && Texts(strs) == Texts(old(strs)) + {str}
    {
      hide Chain, Bucket, Interned, LinksOnly, InternedOne, Chained, And, PowerOfTwo, Texts;
      var h := hashOf(str);
      TableSize(strs, buckets, size);
      ModIsAnd(h, size);
      var b := And(h, size - 1);
      BucketIs(strs, buckets, size, b);
      OnlyInBucket(strs, hashOf, size, str);
      ts := FindIn(buckets[b], str, Bucket(strs, size, b));
      if ts != 0 {
        FoundOne(strs, hashOf, buckets, size, ts, str);
        KeysSame(strs, ts, strs[ts].(dead := false));
        if strs[ts].dead {
          strs := strs[ts := strs[ts].(dead := false)];
        }
        TextsInterned(old(strs), strs, ts, str);
        return;
      }
      ts := NewString(str, h);
      TextsInterned(old(strs), strs, ts, str);
    }

    /** Makes a string of contents that are not in the table yet, which first grows if it is full. */
    method NewString(str: seq<byte>, h: nat) returns (ts: nat)
      requires Valid() && h == hashOf(str) && forall n :: n in strs ==> strs[n].text != str
      modifies this
      ensures Valid() && InternedOne(old(strs), strs, ts, str) && ts !in old(strs)
    {
      hide Chain, Bucket, Interned, LinksOnly, InternedOne, Chained, And, PowerOfTwo;
      LinksSame(strs);
      TableSize(strs, buckets, size);
      if nuse >= size && size <= MaxInt / 2 {
        Doubled(size);
        Resize(size * 2);
      }
      TableSize(strs, buckets, size);
      ModIsAnd(h, size);
      var b := And(h, size - 1);
      LinksTexts(old(strs), strs, str);
      ts := last + 1;
      var t := TString(str, h, buckets[b], false);
      AddChained(strs, buckets, size, ts, t);
      AddInterned(strs, hashOf, ts, t);
      AddedOne(old(strs), strs, ts, t);
      KeysMore(strs, ts, t);
      strs, buckets := strs[ts := t], buckets[b := ts];
      nuse, last := nuse + 1, ts;
    }

    /** The string before another one in its chain; 0 if that is the first. */
    method FindBefore(ts: nat, head: nat, ghost s: set<nat>) returns (prev: nat, ghost at: set<nat>)
      requires Chain(strs, head, s) && ts in s && 0 !in strs
      ensures prev == 0 ==> head == ts
      ensures prev != 0 ==> prev in strs && prev in at && strs[prev].hnext == ts && Walk(strs, head, s, prev, at)
    {
      hide Chain, Walk;
      var cur := head;
      ghost var rest := s;
      prev, at := 0, s;
      WalkStart(strs, head, s);
      while cur != ts
        invariant Chain(strs, cur, rest) && Walk(strs, head, s, cur, rest) && ts in rest
        invariant if prev == 0 then cur == head
                  else prev in strs && prev in at && strs[prev].hnext == cur && Walk(strs, head, s, prev, at)
        decreases |rest|
      {
        ChainHead(strs, cur, rest);
        WalkNext(strs, head, s, cur, rest);
        prev, at := cur, rest;
        rest := rest - {cur};
        cur := strs[cur].hnext;
      }
    }

    /** Takes a string out of the table. */
    method Remove(ts: nat)
      requires Valid() && ts in strs
      modifies this
      ensures Valid() && RemovedOne(old(strs), strs, ts) && Texts(strs) == Texts(old(strs)) - {old(strs)[ts].text}
    {
      hide Chain, Bucket, Interned, LinksOnly, Chained, And, PowerOfTwo, Walk, RemovedOne, Texts;
      TableSize(strs, buckets, size);
      ModIsAnd(strs[ts].hash, size);
      var b := And(strs[ts].hash, size - 1);
      BucketIs(strs, buckets, size, b);
      ghost var s := Bucket(strs, size, b);
      InBucket(strs, size, ts);
      var head := buckets[b];
      var prev;
      ghost var rest;
      prev, rest := FindBefore(ts, head, s);
      LinksSame(strs);
      var m1, first := strs, head;
      if prev == 0 {
        TakeHead(strs, head, s);
        first := strs[ts].hnext;
      } else {
        Unlink(strs, head, s, prev, rest, ts);
        LinksMove(strs, strs, prev, strs[ts].hnext);
        m1 := strs[prev := strs[prev].(hnext := strs[ts].hnext)];
      }
      RemoveChained(strs, m1, buckets, first, size, ts, b);
      RemoveInterned(strs, m1, hashOf, ts);
      KeysLess(strs, m1, ts);
      TextsRemoved(strs, m1 - {ts}, hashOf, ts);
      strs, buckets, nuse := m1 - {ts}, buckets[b := first], nuse - 1;
    }

    /** Gives the table another size, and moves all strings to where they belong then, in place. */
    method Resize(newsize: nat)
      requires Valid() && newsize > 0 && PowerOfTwo(newsize)
      modifies this
      ensures Valid() && size == newsize && LinksOnly(old(strs), strs) && nuse == old(nuse) && last == old(last)
    {
      hide Chain, Bucket, Interned, LinksOnly, Chained, And, PowerOfTwo, Before, Rehashing, Mixed;
      TableSize(strs, buckets, size);
      RehashStart(strs, buckets, size, newsize);
      LinksSame(strs);
      if newsize > size {
        buckets := buckets + seq(newsize - size, _ => 0);
      } else {
        assert buckets + seq(0, _ => 0) == buckets;
      }
      var i := 0;
      while i < size
        invariant 0 <= i <= size == old(size) && |buckets| == (if newsize > size then newsize else size) &&
                  LinksOnly(old(strs), strs)
        invariant Rehashing(strs, buckets, size, newsize, Before(old(strs), size, i), {}) && nuse == old(nuse) &&
                  last == old(last)
      {
        LinksBefore(old(strs), strs, size, i);
        SameZero(old(strs), strs);
        RehashTake(strs, buckets, size, newsize, i);
        var p := buckets[i];
        buckets := buckets[i := 0];
        RehashChain(p, newsize, Before(old(strs), size, i), Bucket(strs, size, i), old(strs));
        i := i + 1;
      }
      LinksBefore(old(strs), strs, size, size);
      SameZero(old(strs), strs);
      RehashDone(strs, buckets, size, newsize);
      LinksKeep(old(strs), strs, hashOf);
      KeysAs(old(strs), strs);
      if newsize < size {
        buckets := buckets[..newsize];
      } else {
        assert buckets[..newsize] == buckets;
      }
      size := newsize;
    }

    /** Moves the strings of one old bucket, beginning with `p`. */
    method RehashChain(p: nat, newsize: nat, ghost done: set<nat>, ghost all: set<nat>, ghost m: map<nat, TString>)
      requires size > 0 && 0 < newsize <= |buckets| && PowerOfTwo(newsize) && 0 !in strs && all !! done
      requires Chain(strs, p, all) && Rehashing(strs, buckets, size, newsize, done, all) && LinksOnly(m, strs)
      modifies this`strs, this`buckets
      ensures Rehashing(strs, buckets, size, newsize, done + all, {}) && LinksOnly(m, strs) &&
              |buckets| == old(|buckets|)
    {
      hide Chain, LinksOnly, And, PowerOfTwo, Rehashing, Mixed;
      var q := p;
      ghost var rest := all;
      assert all - all == {} && done + {} == done;
      ChainHead(strs, q, rest);
      while q != 0
        invariant rest <= all && Chain(strs, q, rest) && (q == 0 <==> rest == {}) && LinksOnly(m, strs) &&
                  |buckets| == old(|buckets|)
        invariant Rehashing(strs, buckets, size, newsize, done + (all - rest), rest) &&
                  (q != 0 ==> q in rest && q in strs)
        decreases |rest|
      {
        ChainHead(strs, q, rest);
        var hnext := strs[q].hnext;
        ModIsAnd(strs[q].hash, newsize);
        var h := And(strs[q].hash, newsize - 1);
        RehashMove(strs, buckets, size, newsize, done + (all - rest), rest, q, h);
        LinksMove(m, strs, q, buckets[h]);
        RestFrame(strs, q, hnext, rest, buckets[h]);
        assert done + (all - rest) + {q} == done + (all - (rest - {q}));
        strs, buckets := strs[q := strs[q].(hnext := buckets[h])], buckets[h := q];
        rest := rest - {q};
        q := hnext;
        ChainHead(strs, q, rest);
      }
      assert all - {} == all;
    }

    /** Halves the table if three quarters of it are not used. */
    method CheckSizes()
      requires Valid()
      modifies this
      ensures Valid() && LinksOnly(old(strs), strs)
      ensures size == if old(nuse) < old(size) / 4 then old(size) / 2 else old(size)
    {
      hide Chain, Bucket, Interned, LinksOnly, Chained;
      LinksSame(strs);
      TableSize(strs, buckets, size);
      if nuse < size / 4 {
        Halved(size);
        Resize(size / 2);
      }
    }
  }

  // ----- contents -----

  /** The contents of the strings in the table. */
  ghost function Texts(m: map<nat, TString>): set<seq<byte>> { set n | n in m :: m[n].text }

  lemma TextsInterned(m: map<nat, TString>, m': map<nat, TString>, ts: nat, str: seq<byte>)
    requires InternedOne(m, m', ts, str)
    requires ts in m ==> m[ts].text == str
    ensures Texts(m') == Texts(m) + {str}
  {
    forall t ensures t in Texts(m') <==> t in Texts(m) + {str} {
      if t in Texts(m) {
        var n :| n in m && m[n].text == t;
        assert n in m' && m'[n].text == t;
      }
      if t in Texts(m') {
        var n :| n in m' && m'[n].text == t;
        assert n == ts || m[n].text == t;
      }
      if t == str { assert m'[ts].text == t; }
    }
  }

  lemma TextsRemoved(m: map<nat, TString>, m': map<nat, TString>, hashOf: seq<byte> -> nat, ts: nat)
    requires RemovedOne(m, m', ts) && Interned(m, hashOf) && ts in m
    ensures Texts(m') == Texts(m) - {m[ts].text}
  {
    forall t ensures t in Texts(m') <==> t in Texts(m) - {m[ts].text} {
      if t in Texts(m) - {m[ts].text} {
        var n :| n in m && m[n].text == t;
        assert n in m' && m'[n].text == t;
      }
      if t in Texts(m') {
        var n :| n in m' && m'[n].text == t;
        assert n in m && m[n].text == t && n != ts;
      }
    }
  }

  /** There are as many contents as strings. */
  lemma {:induction false} OneForEach(m: map<nat, TString>, hashOf: seq<byte> -> nat)
    requires Interned(m, hashOf)
    ensures |Texts(m)| == |m|
    decreases m
  {
    if m == map[] {
      assert Texts(m) == {};
    } else {
      var ts :| ts in m;
      var m' := m - {ts};
      assert m'.Keys == m.Keys - {ts};
      assert |m'.Keys| == |m.Keys| - 1;
      OneForEach(m', hashOf);
      TextsRemoved(m, m', hashOf, ts);
      assert m[ts].text in Texts(m);
    }
  }

  // ----- sizes and keys -----

  lemma MinPower()
    ensures PowerOfTwo(MinSize)
  {
    assert Pow2(7) == 128 by { assert Pow2(3) == 8; }
  }

  lemma TableSize(m: map<nat, TString>, buckets: seq<nat>, size: nat)
    requires Chained(m, buckets, size)
    ensures size > 0 && PowerOfTwo(size) && |buckets| == size && 0 !in m
  {}

  lemma Doubled(size: nat)
    requires PowerOfTwo(size)
    ensures PowerOfTwo(size * 2)
  {
    var k: nat :| size == Pow2(k);
    assert Pow2(k + 1) == size * 2;
  }

  lemma Halved(size: nat)
    requires PowerOfTwo(size) && size >= 4
    ensures PowerOfTwo(size / 2)
  {
    var k: nat :| size == Pow2(k);
    assert k > 0 && Pow2(k - 1) == size / 2;
  }

  lemma LinksSame(m: map<nat, TString>)
    ensures LinksOnly(m, m)
  {}

  lemma KeysSame(m: map<nat, TString>, ts: nat, t: TString)
    requires ts in m
    ensures m[ts := t].Keys == m.Keys && |m[ts := t]| == |m|
  {
    assert m[ts := t].Keys == m.Keys;
    assert |m[ts := t].Keys| == |m.Keys|;
  }

  lemma KeysMore(m: map<nat, TString>, ts: nat, t: TString)
    requires ts !in m
    ensures |m[ts := t]| == |m| + 1
  {}

  lemma KeysLess(m: map<nat, TString>, m1: map<nat, TString>, ts: nat)
    requires ts in m && LinksOnly(m, m1)
    ensures |m1 - {ts}| == |m| - 1 && RemovedOne(m, m1 - {ts}, ts)
  {
    assert (m1 - {ts}).Keys == m.Keys - {ts};
    assert |(m1 - {ts}).Keys| == |m.Keys| - 1;
  }

  lemma KeysAs(m: map<nat, TString>, m': map<nat, TString>)
    requires LinksOnly(m, m')
    ensures |m'| == |m| && m'.Keys == m.Keys
  {
    assert |m'.Keys| == |m.Keys|;
  }

  lemma SameZero(m: map<nat, TString>, m': map<nat, TString>)
    requires LinksOnly(m, m') && 0 !in m
    ensures 0 !in m'
  {}

  lemma LinksTexts(m: map<nat, TString>, m': map<nat, TString>, str: seq<byte>)
    requires LinksOnly(m, m')
    ensures m'.Keys == m.Keys && (forall n :: n in m && m[n].text == str ==> n in m' && m'[n].text == str)
    ensures forall n :: n in m' && m'[n].text == str ==> n in m && m[n].text == str
  {}

  lemma InBucket(m: map<nat, TString>, size: nat, ts: nat)
    requires size > 0 && ts in m
    ensures ts in Bucket(m, size, m[ts].hash % size)
  {}

  lemma WalkStart(m: map<nat, TString>, head: nat, s: set<nat>)
    ensures Walk(m, head, s, head, s)
  {}

  lemma RestFrame(m: map<nat, TString>, q: nat, hnext: nat, rest: set<nat>, x: nat)
    requires q in m && q in rest && Chain(m, hnext, rest - {q})
    ensures Chain(m[q := m[q].(hnext := x)], hnext, rest - {q})
  {
    ChainFrame(m, m[q := m[q].(hnext := x)], hnext, rest - {q});
  }
}
