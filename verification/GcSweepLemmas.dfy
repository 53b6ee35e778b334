/** What sweeping one object does to the state. */
module GcSweepLemmas {
  import opened GcState

  /** The live objects of `a` are the live objects of `b`, unchanged but for upvalues closed with the
      value they showed. */
  ghost predicate SameLive(a: Global, b: Global)
  {
    && b == a.(color := b.color, heap := b.heap, owned := b.owned, sweepgc := b.sweepgc, gcstate := b.gcstate)
    && LiveSet(b.color, b.currentwhite) == LiveSet(a.color, a.currentwhite)
    && (forall o :: o in LiveSet(a.color, a.currentwhite) && o in a.heap.body ==>
          o in b.heap.body && b.heap.body[o] == a.heap.body[o])
    && (forall u :: UpValue(b.heap, u) == UpValue(a.heap, u))
    && (forall u :: u in b.heap.ups && b.heap.ups[u].Open? ==> u in a.heap.ups && a.heap.ups[u] == b.heap.ups[u])
    && b.color.Keys <= a.color.Keys
    && b.owned.fixedgc == a.owned.fixedgc
    && (forall o :: o in b.owned.tobefnz ==> o in a.owned.tobefnz)
    && (forall o :: o in b.owned.finobj ==> o in a.owned.finobj)
  }

  lemma SameLiveRefl(a: Global)
    ensures SameLive(a, a)
  {
  }

  lemma SameLiveCompose(a: Global, b: Global, c: Global)
    requires SameLive(a, b) && SameLive(b, c)
    ensures SameLive(a, c)
  {
    hide UpValue, LiveSet;
  }

  /** `luaF_close` on a thread about to be freed: its open upvalues take their values with them. */
  function ClosedUps(h: Heap, t: Ref): map<UpId, UpVal>
  {
    map u | u in h.ups :: if h.ups[u].Open? && h.ups[u].thread == t then Closed(UpValue(h, u)) else h.ups[u]
  }

  ghost function Freed(h: Heap, o: Ref): Heap
  {
    Heap(h.body - {o}, ClosedUps(h, o))
  }

  lemma FreedUpValue(h: Heap, o: Ref, u: UpId)
    requires UpsOk(h)
    ensures UpValue(Freed(h, o), u) == UpValue(h, u)
  {
    if u in h.ups && h.ups[u].Open? { assert OpenOk(h, u, h.ups[u].thread, h.ups[u].level); }
  }

  lemma FreedUpsOk(h: Heap, o: Ref)
    requires UpsOk(h)
    ensures UpsOk(Freed(h, o))
  {
    hide UpValue;
    var h' := Freed(h, o);
    forall u | u in h'.ups && h'.ups[u].Open? ensures OpenOk(h', u, h'.ups[u].thread, h'.ups[u].level) {
      assert h'.ups[u] == h.ups[u] && h.ups[u].thread != o;
      assert OpenOk(h, u, h.ups[u].thread, h.ups[u].level);
    }
    forall t, u | IsThread(h', t) && u in h'.body[t].openups
      ensures u in h'.ups && h'.ups[u].Open? && h'.ups[u].thread == t
    {
      assert IsThread(h, t) && u in h.body[t].openups;
    }
  }

  lemma FullFreed(h: Heap, o: Ref, b: Body, s: set<Ref>)
    requires UpsOk(h)
    ensures Full(h, b, s) ==> Full(Freed(h, o), b, s)
  {
    hide UpValue;
    if b.LClosure? {
      forall u | u in b.upvals ensures UpValue(Freed(h, o), u) == UpValue(h, u) { FreedUpValue(h, o, u); }
    }
  }

  lemma OwnersWithout(w: Owned, l: ListName, i: nat, x: Ref)
    requires i < |ListOf(w, l)|
    ensures var s := ListOf(w, l);
      Owners(WithList(w, l, s[..i] + s[i + 1..]), x) == Owners(w, x) - (if x == s[i] then 1 else 0)
    ensures Owners(w, ListOf(w, l)[i]) > 0
  {
    var s := ListOf(w, l);
    assert s == s[..i] + [s[i]] + s[i + 1..];
    assert s[i] in multiset(s);
  }

  /** A dead object is taken off its list and freed. */
  lemma FreeStep(g: Global, l: ListName, i: nat, g': Global)
    requires Unmarking(g) && i < |ListOf(g.owned, l)|
    requires var s := ListOf(g.owned, l); var o := s[i];
      && o in g.color && g.color[o] == White(!g.currentwhite)
      && g' == g.(color := g.color - {o}, heap := Freed(g.heap, o), owned := WithList(g.owned, l, s[..i] + s[i + 1..]))
    ensures Unmarking(g') && SameLive(g, g')
  {
    hide UpValue, OpenOk, Full, Owners, UpsOk;
    var o := ListOf(g.owned, l)[i];
    var live := LiveSet(g.color, g.currentwhite);
    assert LiveSet(g'.color, g'.currentwhite) == live && o !in live;
    FreedUpsOk(g.heap, o);
    forall u ensures UpValue(g'.heap, u) == UpValue(g.heap, u) { FreedUpValue(g.heap, o, u); }
    forall x | x in live ensures x in g'.heap.body && Full(g'.heap, g'.heap.body[x], live) {
      FullFreed(g.heap, o, g.heap.body[x], live);
    }
    forall x ensures Owners(g'.owned, x) == Owners(g.owned, x) - (if x == o then 1 else 0) {
      OwnersWithout(g.owned, l, i, x);
    }
    OwnersWithout(g.owned, l, i, o);
    assert g'.color.Keys == g.color.Keys - {o} == g'.heap.body.Keys;
    forall x | x in g'.owned.tobefnz ensures x in g.owned.tobefnz {
      if l.ToBeFnz? { InWithout(g.owned.tobefnz, i, x); }
    }
    forall x | x in g'.owned.finobj ensures x in g.owned.finobj {
      if l.FinObj? { InWithout(g.owned.finobj, i, x); }
    }
  }

  lemma InWithout(s: seq<Ref>, i: nat, x: Ref)
    requires i < |s| && x in s[..i] + s[i + 1..]
    ensures x in s
  {
  }

  /** A live object that is not fixed turns white. */
  lemma WhitenStep(g: Global, o: Ref, g': Global)
    requires Unmarking(g) && o in LiveSet(g.color, g.currentwhite) && o !in g.owned.fixedgc
    requires g' == g.(color := g.color[o := White(g.currentwhite)])
    ensures Unmarking(g') && SameLive(g, g')
  {
    hide UpValue, OpenOk, Full, Owners, UpsOk, OwnedOk;
    assert LiveSet(g'.color, g'.currentwhite) == LiveSet(g.color, g.currentwhite);
    assert g'.color.Keys == g.color.Keys;
  }

  lemma NotFixed(g: Global, l: ListName, o: Ref)
    requires Unmarking(g) && o in ListOf(g.owned, l)
    ensures o in g.color && o !in g.owned.fixedgc && o != g.roots.mainthread && o in g.heap.body
  {
    hide UpsOk, ThreadsOk, FullyClosed, RootsIn;
    assert Owners(g.owned, o) > 0;
  }

  /** Sweeping one list leaves the other lists alone. */
  ghost predicate OthersKept(a: Global, b: Global, l: ListName)
  {
    && b.owned == WithList(a.owned, l, ListOf(b.owned, l))
    && forall m: ListName :: Clean(a.color, a.currentwhite, ListOf(a.owned, m)) ==>
         Clean(b.color, b.currentwhite, ListOf(b.owned, m))
  }

  lemma OthersRefl(a: Global, l: ListName)
    ensures OthersKept(a, a, l)
  {
  }

  lemma OthersCompose(a: Global, b: Global, c: Global, l: ListName)
    requires OthersKept(a, b, l) && OthersKept(b, c, l)
    ensures OthersKept(a, c, l)
  {
    hide Clean;
  }

  /** What is not on the swept list keeps its colour. */
  ghost predicate Elsewhere(a: Global, b: Global, l: ListName)
  {
    && (forall o :: o in a.color && o !in ListOf(a.owned, l) ==> o in b.color && b.color[o] == a.color[o])
    && forall o :: o in ListOf(b.owned, l) ==> o in ListOf(a.owned, l)
  }

  lemma ElsewhereRefl(a: Global, l: ListName)
    ensures Elsewhere(a, a, l)
  {
  }

  lemma ElsewhereFree(a: Global, b: Global, c: Global, l: ListName, i: nat)
    requires Elsewhere(a, b, l) && i < |ListOf(b.owned, l)|
    requires var s := ListOf(b.owned, l);
             c.color == b.color - {s[i]} &&
             c.owned == WithList(b.owned, l, s[..i] + s[i + 1..])
    ensures Elsewhere(a, c, l)
  {
  }

  lemma ElsewhereWhiten(a: Global, b: Global, c: Global, l: ListName, i: nat, x: Color)
    requires Elsewhere(a, b, l) && i < |ListOf(b.owned, l)|
    requires c.color == b.color[ListOf(b.owned, l)[i] := x] && c.owned == b.owned
    ensures Elsewhere(a, c, l)
  {
  }

  lemma OnOneList(w: Owned, l: ListName, m: ListName, o: Ref)
    requires Owners(w, o) <= 1 && l != m && o in ListOf(w, l)
    ensures o !in ListOf(w, m)
  {
    assert o in multiset(ListOf(w, l));
    assert o in ListOf(w, m) ==> o in multiset(ListOf(w, m));
  }

  lemma FreeOthers(g: Global, l: ListName, i: nat, g': Global)
    requires Unmarking(g) && i < |ListOf(g.owned, l)|
    requires var s := ListOf(g.owned, l);
      && s[i] in g.color && g.color[s[i]] == White(!g.currentwhite)
      && g' == g.(color := g.color - {s[i]}, heap := g'.heap, owned := WithList(g.owned, l, s[..i] + s[i + 1..]))
    ensures OthersKept(g, g', l)
    ensures Clean(g.color, g.currentwhite, ListOf(g.owned, l)[..i]) ==>
            Clean(g'.color, g'.currentwhite, ListOf(g.owned, l)[..i])
  {
    hide UpsOk, ThreadsOk, FullyClosed, RootsIn, Owners;
    var s := ListOf(g.owned, l);
    var o := s[i];
    assert o in s && !Clean(g.color, g.currentwhite, s);
    forall m: ListName | m != l && Clean(g.color, g.currentwhite, ListOf(g.owned, m))
      ensures Clean(g'.color, g'.currentwhite, ListOf(g'.owned, m))
    {
      OnOneList(g.owned, l, m, o);
    }
    forall j | 0 <= j < i ensures s[j] != o { NotTwice(g.owned, l, j, i); }
  }

  lemma NotTwice(w: Owned, l: ListName, j: nat, i: nat)
    requires j < i < |ListOf(w, l)| && Owners(w, ListOf(w, l)[i]) <= 1
    ensures ListOf(w, l)[j] != ListOf(w, l)[i]
  {
    var s := ListOf(w, l);
    assert s == s[..i] + [s[i]] + s[i + 1..];
    assert s[j] in s[..i];
    assert s[j] in multiset(s[..i]);
  }

  lemma WhitenOthers(g: Global, l: ListName, i: nat, g': Global)
    requires i < |ListOf(g.owned, l)| && g' == g.(color := g.color[ListOf(g.owned, l)[i] := White(g.currentwhite)])
    ensures OthersKept(g, g', l)
    ensures Clean(g.color, g.currentwhite, ListOf(g.owned, l)[..i]) ==>
            Clean(g'.color, g'.currentwhite, ListOf(g.owned, l)[..i + 1])
  {
  }

  /** The upvalues of a thread being freed, closed one by one, end up as `ClosedUps` says. */
  lemma ClosedUpsDone(h: Heap, t: Ref, ups: map<UpId, UpVal>)
    requires UpsOk(h) && t in h.body && ups.Keys == h.ups.Keys
    requires h.body[t].Thread? ==> forall u :: u in h.ups ==>
      ups[u] == if u in h.body[t].openups then Closed(UpValue(h, u)) else h.ups[u]
    requires !h.body[t].Thread? ==> ups == h.ups
    ensures ups == ClosedUps(h, t)
  {
    hide UpValue;
    forall u | u in h.ups ensures ups[u] == ClosedUps(h, t)[u] {
      if h.ups[u].Open? { assert OpenOk(h, u, h.ups[u].thread, h.ups[u].level); }
    }
  }

  lemma UnmarkingUps(g: Global)
    requires Unmarking(g)
    ensures UpsOk(g.heap)
  {
  }

  lemma ThreadUps(h: Heap, t: Ref, u: UpId)
    requires UpsOk(h) && IsThread(h, t) && u in h.body[t].openups
    ensures u in h.ups && h.ups[u].Open? && h.ups[u].thread == t
  {
  }

  lemma UnmarkingPhase(a: Global, b: Global)
    requires Unmarking(a) && b == a.(gcstate := b.gcstate, sweepgc := b.sweepgc)
    ensures Unmarking(b) && SameLive(a, b)
  {
    hide UpsOk, FullyClosed, UpValue, OwnedOk;
  }

  lemma CleanPrefix(color: map<Ref, Color>, currentwhite: bool, l: seq<Ref>, i: nat)
    requires Clean(color, currentwhite, l) && i <= |l|
    ensures Clean(color, currentwhite, l[..i])
  {
  }

  lemma CleanNone(g: Global, l: ListName)
    ensures Clean(g.color, g.currentwhite, ListOf(g.owned, l)[..0])
  {
  }

  lemma OthersFrame(a: Global, b: Global, l: ListName)
    requires OthersKept(a, b, l)
    ensures b.owned == WithList(a.owned, l, ListOf(b.owned, l))
    ensures Clean(a.color, a.currentwhite, a.owned.allgc) ==> Clean(b.color, b.currentwhite, b.owned.allgc)
    ensures Clean(a.color, a.currentwhite, a.owned.finobj) ==> Clean(b.color, b.currentwhite, b.owned.finobj)
    ensures Clean(a.color, a.currentwhite, a.owned.tobefnz) ==> Clean(b.color, b.currentwhite, b.owned.tobefnz)
  {
    hide Clean;
    assert Clean(a.color, a.currentwhite, ListOf(a.owned, AllGc)) ==>
           Clean(b.color, b.currentwhite, ListOf(b.owned, AllGc));
    assert Clean(a.color, a.currentwhite, ListOf(a.owned, FinObj)) ==>
           Clean(b.color, b.currentwhite, ListOf(b.owned, FinObj));
    assert Clean(a.color, a.currentwhite, ListOf(a.owned, ToBeFnz)) ==>
           Clean(b.color, b.currentwhite, ListOf(b.owned, ToBeFnz));
  }

  lemma MainLive(g: Global)
    requires Unmarking(g)
    ensures g.roots.mainthread in LiveSet(g.color, g.currentwhite) && g.roots.mainthread !in g.owned.fixedgc
    ensures forall l: ListName :: g.roots.mainthread !in ListOf(g.owned, l)
  {
    hide UpsOk, FullyClosed, UpValue;
    var m := g.roots.mainthread;
    assert Owners(g.owned, m) == 0;
    forall l: ListName ensures m !in ListOf(g.owned, l) {
      assert m in ListOf(g.owned, l) ==> m in multiset(ListOf(g.owned, l));
    }
  }
}
