/** The three ways a new key finds its node keep every other key where a search finds it. */
module TableLemmas {
  import opened TableState

  /** The key is proper, belongs to the nodes, is in none of them, and hashes to `mp`. */
  ghost predicate FreshKey(node: seq<Node>, n: nat, floatHash: real -> nat, mp: nat, k: V)
  {
    && k != Nil && IsKey(k) && !InArray(k, n) && (forall i :: 0 <= i < |node| ==> node[i].key != k)
    && mp < |node| && MainPosition(k, |node|, floatHash) == mp
  }

  /** The key `k` was added, at `p`, and nothing else changed. */
  ghost predicate Added(node: seq<Node>, node': seq<Node>, k: V, p: nat)
  {
    && |node'| == |node| && p < |node'| && node'[p].key == k && node'[p].val == Nil
    && forall k' :: HashGet(node', k') == HashGet(node, k')
  }

  // ----- the main position has no value -----

  function Placed(node: seq<Node>, mp: nat, k: V): seq<Node>
    requires mp < |node|
  {
    node[mp := node[mp].(key := k)]
  }

  lemma PlaceKeyed(node: seq<Node>, n: nat, floatHash: real -> nat, mp: nat, k: V)
    requires Keyed(node, n) && FreshKey(node, n, floatHash, mp, k)
    ensures Keyed(Placed(node, mp, k), n)
  {
    hide MainPosition, IsKey;
    var node' := Placed(node, mp, k);
    forall i, j | 0 <= i < |node| && 0 <= j < |node| && i != j ensures KeysApart(node'[i], node'[j]) {
      assert KeysApart(node[i], node[j]);
    }
    forall i | 0 <= i < |node| ensures NodeOk(node'[i], n) {
      assert NodeOk(node[i], n);
    }
  }

  lemma PlaceRanked(node: seq<Node>, rank: seq<nat>, mp: nat, k: V)
    requires Ranked(node, rank) && Injective(node) && mp < |node| && k != Nil
    ensures Ranked(Placed(node, mp, k), rank) && Injective(Placed(node, mp, k))
  {
    var node' := Placed(node, mp, k);
    forall i | 0 <= i < |node| ensures LinkOk(node', rank, i) {
      assert LinkOk(node, rank, i);
    }
    forall i, j | 0 <= i < |node| && 0 <= j < |node| && i != j ensures LinksApart(node', i, j) {
      assert LinksApart(node, i, j);
    }
  }

  lemma PlaceChained(node: seq<Node>, rank: seq<nat>, n: nat, floatHash: real -> nat, mp: nat, k: V)
    requires Chained(node, rank, n, floatHash) && FreshKey(node, n, floatHash, mp, k) && node[mp].val == Nil
    ensures Chained(Placed(node, mp, k), rank, n, floatHash) && Added(node, Placed(node, mp, k), k, mp)
  {
    hide MainPosition, IsKey, Ranked, Injective, Keyed;
    var node' := Placed(node, mp, k);
    PlaceKeyed(node, n, floatHash, mp, k);
    PlaceRanked(node, rank, mp, k);
    forall i | 0 <= i < |node| ensures FoundAt(node', rank, floatHash, i) {
      if node'[i].key != Nil && i != mp {
        assert FoundAt(node, rank, floatHash, i);
        ReachesSame(node, node', rank, MainPosition(node[i].key, |node|, floatHash), i);
      }
    }
    forall k' ensures HashGet(node', k') == HashGet(node, k') {
      SameValue(node, node', n, k', mp, mp);
    }
  }

  /** The nodes hold the same values, where they hold any; what was at `a` may now be at `b`. */
  lemma SameValue(node: seq<Node>, node': seq<Node>, n: nat, k: V, a: nat, b: nat)
    requires Keyed(node, n) && Keyed(node', n) && |node'| == |node| && a < |node| && b < |node|
    requires forall i :: 0 <= i < |node| && node[i].val != Nil ==> SameEntry(node[i], node'[if i == a then b else i])
    requires forall j :: 0 <= j < |node| && node'[j].val != Nil ==> SameEntry(node'[j], node[if j == b then a else j])
    ensures HashGet(node', k) == HashGet(node, k)
  {
    if k != Nil {
      if i :| 0 <= i < |node| && node[i].key == k && node[i].val != Nil {
        HashGetAt(node, n, i);
        assert SameEntry(node[i], node'[if i == a then b else i]);
        HashGetAt(node', n, if i == a then b else i);
      } else {
        assert forall j :: 0 <= j < |node| && node'[j].val != Nil ==> node[if j == b then a else j].val != Nil;
        assert forall j :: 0 <= j < |node| && node'[j].val != Nil ==> node'[j].key != k;
      }
    }
  }

  predicate SameEntry(x: Node, y: Node) { x.key == y.key && x.val == y.val }

  // ----- the colliding node is in its main position -----

  function Inserted(node: seq<Node>, mp: nat, f: nat, k: V): seq<Node>
    requires mp < |node| && f < |node| && f != mp
  {
    node[f := Node(k, Nil, if node[mp].next != 0 then To(node, mp) - f else 0)][mp := node[mp].(next := f - mp)]
  }

  lemma InsertRanked(node: seq<Node>, rank: seq<nat>, n: nat, mp: nat, f: nat, k: V)
    requires Ranked(node, rank) && Injective(node) && Keyed(node, n) && k != Nil
    requires mp < |node| && f < |node| && node[mp].key != Nil && node[f].key == Nil
    ensures Ranked(Inserted(node, mp, f, k), Raised(rank, mp, f)) && Injective(Inserted(node, mp, f, k))
  {
    hide Keyed;
    var node', rank' := Inserted(node, mp, f, k), Raised(rank, mp, f);
    FreeIsBlank(node, n, f);
    forall i | 0 <= i < |node| ensures LinkOk(node', rank', i) {
      assert LinkOk(node, rank, i) && LinkOk(node, rank, mp);
    }
    forall i, j | 0 <= i < |node| && 0 <= j < |node| && i != j ensures LinksApart(node', i, j) {
      assert LinkOk(node, rank, i) && LinkOk(node, rank, j);
      assert LinksApart(node, i, j) && (i != mp ==> LinksApart(node, i, mp)) && (j != mp ==> LinksApart(node, j, mp));
    }
  }

  lemma FreeIsBlank(node: seq<Node>, n: nat, f: nat)
    requires Keyed(node, n) && f < |node| && node[f].key == Nil
    ensures node[f] == EMPTY
  {
    assert NodeOk(node[f], n);
  }

  lemma InsertKeyed(node: seq<Node>, n: nat, floatHash: real -> nat, mp: nat, f: nat, k: V)
    requires Keyed(node, n) && FreshKey(node, n, floatHash, mp, k) && f < |node| && f != mp && node[f].key == Nil &&
             node[mp].key != Nil
    ensures Keyed(Inserted(node, mp, f, k), n)
  {
    hide MainPosition, IsKey;
    var node' := Inserted(node, mp, f, k);
    forall i | 0 <= i < |node| ensures NodeOk(node'[i], n) {
      assert NodeOk(node[i], n);
    }
    forall i, j | 0 <= i < |node| && 0 <= j < |node| && i != j ensures KeysApart(node'[i], node'[j]) {
      assert KeysApart(node[i], node[j]);
    }
  }

  lemma {:induction false} InsertReaches(node: seq<Node>, rank: seq<nat>, n: nat, mp: nat, f: nat, k: V, i: nat, j: nat)
    requires Ranked(node, rank) && Injective(node) && Keyed(node, n) && k != Nil
    requires mp < |node| && f < |node| && node[mp].key != Nil && node[f].key == Nil
    requires Ranked(Inserted(node, mp, f, k), Raised(rank, mp, f))
    requires i < |node| && i != f && Reaches(node, rank, i, j)
    ensures Reaches(Inserted(node, mp, f, k), Raised(rank, mp, f), i, j)
    decreases rank[i]
  {
    hide Keyed, Ranked, Injective;
    LinkAt(node, rank, i);
    var node', rank' := Inserted(node, mp, f, k), Raised(rank, mp, f);
    if i != j {
      LinkAt(node, rank, i);
      InsertReaches(node, rank, n, mp, f, k, To(node, i), j);
      if i == mp {
        assert Reaches(node', rank', f, j);
      }
    }
  }

  lemma LinkAt(node: seq<Node>, rank: seq<nat>, i: nat)
    requires Ranked(node, rank) && i < |node|
    ensures |rank| == |node| && LinkOk(node, rank, i)
  {}

  lemma InsertChained(node: seq<Node>, rank: seq<nat>, n: nat, floatHash: real -> nat, mp: nat, f: nat, k: V)
    requires Chained(node, rank, n, floatHash) && FreshKey(node, n, floatHash, mp, k)
    requires node[mp].key != Nil && MainPosition(node[mp].key, |node|, floatHash) == mp && f < |node| &&
             node[f].key == Nil
    ensures Chained(Inserted(node, mp, f, k), Raised(rank, mp, f), n, floatHash)
    ensures Added(node, Inserted(node, mp, f, k), k, f)
  {
    hide MainPosition, IsKey, Ranked, Injective, Keyed;
    LinkAt(node, rank, mp);
    var node', rank' := Inserted(node, mp, f, k), Raised(rank, mp, f);
    InsertRanked(node, rank, n, mp, f, k);
    InsertKeyed(node, n, floatHash, mp, f, k);
    FreeIsBlank(node, n, f);
    forall i | 0 <= i < |node| ensures FoundAt(node', rank', floatHash, i) {
      if i == f {
        assert Reaches(node', rank', f, f);
        assert Reaches(node', rank', mp, f);
      } else if node'[i].key != Nil {
        assert FoundAt(node, rank, floatHash, i);
        InsertReaches(node, rank, n, mp, f, k, MainPosition(node[i].key, |node|, floatHash), i);
      }
    }
    forall k' ensures HashGet(node', k') == HashGet(node, k') {
      SameValue(node, node', n, k', mp, mp);
    }
  }

  // ----- the colliding node is out of its main position -----

  function Moved(node: seq<Node>, mp: nat, f: nat, prev: nat, k: V): seq<Node>
    requires mp < |node| && f < |node| && prev < |node|
  {
    node[prev := node[prev].(next := f - prev)]
        [f := node[mp].(next := if node[mp].next != 0 then node[mp].next + (mp - f) else 0)]
        [mp := Node(k, Nil, 0)]
  }

  /** `prev` leads to `mp`; `f` is free. */
  ghost predicate Movable(node: seq<Node>, rank: seq<nat>, n: nat, mp: nat, f: nat, prev: nat)
  {
    && Ranked(node, rank) && Injective(node) && Keyed(node, n)
    && mp < |node| && f < |node| && prev < |node| && node[mp].key != Nil && node[f].key == Nil
    && node[prev].next != 0 && To(node, prev) == mp
  }

  lemma MoveRanked(node: seq<Node>, rank: seq<nat>, n: nat, mp: nat, f: nat, prev: nat, k: V)
    requires Movable(node, rank, n, mp, f, prev) && k != Nil
    ensures Ranked(Moved(node, mp, f, prev, k), Raised(rank, mp, f)) && Injective(Moved(node, mp, f, prev, k))
    ensures prev != f && prev != mp
  {
    hide Keyed;
    var node', rank' := Moved(node, mp, f, prev, k), Raised(rank, mp, f);
    FreeIsBlank(node, n, f);
    assert LinkOk(node, rank, prev);
    forall i | 0 <= i < |node| ensures LinkOk(node', rank', i) {
      assert LinkOk(node, rank, i) && LinkOk(node, rank, mp);
      assert i != prev ==> LinksApart(node, i, prev);
    }
    forall i, j | 0 <= i < |node| && 0 <= j < |node| && i != j ensures LinksApart(node', i, j) {
      assert LinkOk(node, rank, i) && LinkOk(node, rank, j);
      assert LinksApart(node, i, j) && (i != mp ==> LinksApart(node, i, mp)) && (j != mp ==> LinksApart(node, j, mp));
    }
  }

  lemma MoveKeyed(node: seq<Node>, n: nat, floatHash: real -> nat, mp: nat, f: nat, prev: nat, k: V)
    requires Keyed(node, n) && FreshKey(node, n, floatHash, mp, k) && f < |node| && f != mp && node[f].key == Nil
    requires prev < |node| && node[prev].key != Nil && prev != mp && prev != f
    ensures Keyed(Moved(node, mp, f, prev, k), n)
  {
    hide MainPosition, IsKey;
    var node' := Moved(node, mp, f, prev, k);
    forall i | 0 <= i < |node| ensures NodeOk(node'[i], n) {
      assert NodeOk(node[i], n) && NodeOk(node[mp], n);
    }
    forall i, j | 0 <= i < |node| && 0 <= j < |node| && i != j ensures KeysApart(node'[i], node'[j]) {
      assert KeysApart(node[i], node[j]) && (i != mp ==> KeysApart(node[i], node[mp])) &&
             (j != mp ==> KeysApart(node[mp], node[j]));
    }
  }

  lemma {:induction false} MoveReaches(node: seq<Node>, rank: seq<nat>, n: nat, mp: nat, f: nat, prev: nat, k: V,
                                       i: nat, j: nat)
    requires Movable(node, rank, n, mp, f, prev) && k != Nil && prev != f && prev != mp
    requires Ranked(Moved(node, mp, f, prev, k), Raised(rank, mp, f))
    requires i < |node| && i != f && j != f && Reaches(node, rank, i, j)
    ensures Reaches(Moved(node, mp, f, prev, k), Raised(rank, mp, f), if i == mp then f else i, if j == mp then f
            else j)
    decreases rank[i]
  {
    hide Keyed, Ranked, Injective;
    if i != j {
      LinkAt(node, rank, i);
      MoveReaches(node, rank, n, mp, f, prev, k, To(node, i), j);
      if To(node, i) == mp { OnlyPrev(node, prev, i); }
    }
  }

  lemma OnlyPrev(node: seq<Node>, prev: nat, i: nat)
    requires Injective(node) && prev < |node| && i < |node| && node[prev].next != 0 && node[i].next != 0
    requires To(node, prev) == To(node, i)
    ensures i == prev
  {
    assert i != prev ==> LinksApart(node, prev, i);
  }

  lemma MoveChained(node: seq<Node>, rank: seq<nat>, n: nat, floatHash: real -> nat, mp: nat, f: nat, prev: nat, k: V)
    requires Chained(node, rank, n, floatHash) && FreshKey(node, n, floatHash, mp, k) &&
             Movable(node, rank, n, mp, f, prev)
    requires MainPosition(node[mp].key, |node|, floatHash) != mp
    ensures Chained(Moved(node, mp, f, prev, k), Raised(rank, mp, f), n, floatHash)
    ensures Added(node, Moved(node, mp, f, prev, k), k, mp)
  {
    hide MainPosition, IsKey, Injective, Keyed, Ranked;
    LinkAt(node, rank, mp);
    var node', rank' := Moved(node, mp, f, prev, k), Raised(rank, mp, f);
    MoveRanked(node, rank, n, mp, f, prev, k);
    FreeIsBlank(node, n, f);
    assert node[prev].key != Nil by { NodeUsed(node, n, prev); }
    MoveKeyed(node, n, floatHash, mp, f, prev, k);
    forall i | 0 <= i < |node| ensures FoundAt(node', rank', floatHash, i) {
      if i == mp {
        assert Reaches(node', rank', mp, mp);
      } else if node'[i].key != Nil {
        var i0 := if i == f then mp else i;
        assert FoundAt(node, rank, floatHash, i0) && FoundAt(node, rank, floatHash, mp);
        MoveReaches(node, rank, n, mp, f, prev, k, MainPosition(node[i0].key, |node|, floatHash), i0);
      }
    }
    forall k' ensures HashGet(node', k') == HashGet(node, k') {
      SameValue(node, node', n, k', mp, f);
    }
  }

  /** A node with a link is in use. */
  lemma NodeUsed(node: seq<Node>, n: nat, i: nat)
    requires Keyed(node, n) && i < |node| && node[i].next != 0
    ensures node[i].key != Nil
  {
    assert NodeOk(node[i], n);
  }
}
