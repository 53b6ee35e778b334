/** The hash part of a table: nodes chained by relative links, and what makes a search in it find every key. */
module TableState {
  import opened Powers

  /** Floating-point numbers are real numbers here, besides the one that equals nothing. */
  datatype V = Nil | Bool(b: bool) | Int(n: int) | Flt(x: real) | NaN | Str(hash: nat, id: nat) | Ptr(addr: nat)

  datatype Node = Node(key: V, val: V, next: int)

  const EMPTY := Node(Nil, Nil, 0)

  const MAXABITS: nat := 31

  /** Whether a number is that of an integer key. */
  predicate Integral(x: real) { x.Floor as real == x && -0x8000_0000_0000_0000 <= x.Floor < 0x8000_0000_0000_0000 }

  /** Numbers with an exact integer value are that integer as keys. */
  function Normal(k: V): V { if k.Flt? && Integral(k.x) then Int(k.x.Floor) else k }

  /** Integers have 64 bits. */
  predicate Fits(k: V) { k.Int? ==> -0x8000_0000_0000_0000 <= k.n < 0x8000_0000_0000_0000 }

  /** Numbers are the same key if they are the same real number, however they are represented; anything else is only the
      same as itself, and what is not a number is the same as nothing (section 3.4.4 of the Lua 5.3 manual). */
  ghost predicate SameKey(a: V, b: V)
  {
    if (a.Int? || a.Flt?) && (b.Int? || b.Flt?) then
      (if a.Int? then a.n as real else a.x) == (if b.Int? then b.n as real else b.x)
    else a == b && a != NaN
  }

  lemma NormalExact(a: V, b: V)
    requires Fits(a) && Fits(b) && a != NaN
    ensures Normal(a) == Normal(b) <==> SameKey(a, b)
    ensures Fits(Normal(a))
  {
    if a.Flt? && b.Int? { assert a.x == b.n as real ==> a.x.Floor == b.n; }
    if a.Int? && b.Flt? { assert b.x == a.n as real ==> b.x.Floor == a.n; }
  }

  /** What can be the key of a node. */
  predicate IsKey(k: V) { k != Nil && k != NaN && Normal(k) == k }

  /** The position a key hashes to in a node vector whose size is a power of two, which is odd when one is taken off
      unless it is one. */
  function MainPosition(k: V, size: nat, floatHash: real -> nat): (p: nat)
    requires size > 0
    ensures p < size
  {
    var m := if size == 1 then 1 else size - 1;
    match k
    case Int(n) => n % size
    case Str(h, _) => h % size
    case Bool(b) => (if b then 1 else 0) % size
    case Flt(x) => floatHash(x) % m
    case Ptr(p) => p % m
    case NaN => 0
    case Nil => 0
  }

  // ----- chains -----

  /** Where the link of a node leads. */
  function To(node: seq<Node>, i: nat): int
    requires i < |node|
  {
    i + node[i].next
  }

  ghost predicate LinkOk(node: seq<Node>, rank: seq<nat>, i: nat)
    requires |rank| == |node| && i < |node|
  {
    node[i].next != 0 ==> 0 <= To(node, i) < |node| && node[To(node, i)].key != Nil && rank[To(node, i)] < rank[i]
  }

  /** Links lead to nodes with keys, and down in rank. */
  ghost predicate Ranked(node: seq<Node>, rank: seq<nat>)
  {
    |rank| == |node| && forall i :: 0 <= i < |node| ==> LinkOk(node, rank, i)
  }

  predicate LinksApart(node: seq<Node>, i: nat, j: nat)
    requires i < |node| && j < |node|
  {
    node[i].next != 0 && node[j].next != 0 ==> To(node, i) != To(node, j)
  }

  /** No two nodes lead to the same one. */
  ghost predicate Injective(node: seq<Node>)
  {
    forall i, j :: 0 <= i < |node| && 0 <= j < |node| && i != j ==> LinksApart(node, i, j)
  }

  /** Following the links from `i` comes to `j`. */
  ghost predicate Reaches(node: seq<Node>, rank: seq<nat>, i: nat, j: nat)
    requires Ranked(node, rank) && i < |node|
    decreases rank[i]
  {
    assert LinkOk(node, rank, i);
    i == j || (node[i].next != 0 && Reaches(node, rank, To(node, i), j))
  }

  predicate InArray(k: V, n: nat) { k.Int? && 1 <= k.n <= n }

  /** An unused node is blank; the key of another is proper, and belongs to no array part of size `n`. */
  predicate NodeOk(x: Node, n: nat)
  {
    if x.key == Nil then x == EMPTY else IsKey(x.key) && !InArray(x.key, n)
  }

  predicate KeysApart(x: Node, y: Node) { x.key != Nil ==> x.key != y.key }

  ghost predicate Keyed(node: seq<Node>, n: nat)
  {
    && (forall i :: 0 <= i < |node| ==> NodeOk(node[i], n))
    && (forall i, j :: 0 <= i < |node| && 0 <= j < |node| && i != j ==> KeysApart(node[i], node[j]))
  }

  /** The key of the node is reachable from its main position, and is there itself or has given way to a key that is. */
  ghost predicate FoundAt(node: seq<Node>, rank: seq<nat>, floatHash: real -> nat, i: nat)
    requires Ranked(node, rank) && i < |node|
  {
    node[i].key != Nil ==>
      var m := MainPosition(node[i].key, |node|, floatHash);
      Reaches(node, rank, m, i) && node[m].key != Nil && MainPosition(node[m].key, |node|, floatHash) == m
  }

  ghost predicate Findable(node: seq<Node>, rank: seq<nat>, floatHash: real -> nat)
    requires Ranked(node, rank)
  {
    forall i :: 0 <= i < |node| ==> FoundAt(node, rank, floatHash, i)
  }

  ghost predicate Chained(node: seq<Node>, rank: seq<nat>, n: nat, floatHash: real -> nat)
  {
    Ranked(node, rank) && Injective(node) && Keyed(node, n) && Findable(node, rank, floatHash)
  }

  // ----- what is stored -----

  /** The value of a key in the nodes. */
  ghost function HashGet(node: seq<Node>, k: V): (v: V)
  {
    if k != Nil && exists i :: 0 <= i < |node| && node[i].key == k then
      var i :| 0 <= i < |node| && node[i].key == k; node[i].val
    else Nil
  }

  /** The value of a key, which is in the array part or in the nodes. */
  ghost function Lookup(arr: seq<V>, node: seq<Node>, k: V): V
  {
    if InArray(k, |arr|) then arr[k.n - 1] else HashGet(node, k)
  }

  lemma HashGetAt(node: seq<Node>, n: nat, i: nat)
    requires Keyed(node, n) && i < |node| && node[i].key != Nil
    ensures HashGet(node, node[i].key) == node[i].val
  {
    var k := node[i].key;
    var j :| 0 <= j < |node| && node[j].key == k && HashGet(node, k) == node[j].val;
    assert KeysApart(node[i], node[j]) || i == j;
  }

  // ----- links redone -----

  /** Only links matter to what is reached. */
  lemma {:induction false} ReachesSame(node: seq<Node>, node': seq<Node>, rank: seq<nat>, i: nat, j: nat)
    requires Ranked(node, rank) && Ranked(node', rank) && i < |node| && Reaches(node, rank, i, j)
    requires forall p :: 0 <= p < |node| ==> node'[p].next == node[p].next
    ensures Reaches(node', rank, i, j)
    decreases rank[i]
  {
    if i != j {
      assert LinkOk(node, rank, i);
      ReachesSame(node, node', rank, To(node, i), j);
    }
  }

  /** Ranks that leave room for a node below `m`. */
  ghost function Raised(rank: seq<nat>, m: nat, f: nat): (rank': seq<nat>)
    requires m < |rank| && f < |rank|
    ensures |rank'| == |rank|
    ensures forall p :: 0 <= p < |rank| ==> rank'[p] == if p == f then rank[m] else if rank[p] >= rank[m]
            then rank[p] + 1 else rank[p]
  {
    seq(|rank|, p requires 0 <= p < |rank| => if p == f then rank[m] else if rank[p] >= rank[m] then rank[p] + 1
      else rank[p])
  }
}
