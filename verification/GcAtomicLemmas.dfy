/** The steps of `atomic` that change lists, phases or weak tables rather than colours. */
module GcAtomicLemmas {
  import opened GcState
  import opened GcMarkLemmas

  ghost predicate IsEphemeron(g: Global, o: Ref)
  {
    && o in g.heap.body && g.heap.body[o].Table? && g.heap.body[o].mode.WeakKeys?
    && In(g.heap.body[o].tmeta, Marked(g.color))
  }

  lemma IsEphemeronKept(a: Global, b: Global, o: Ref)
    requires Propagates(a, b) && IsEphemeron(a, o)
    ensures IsEphemeron(b, o)
  {
  }

  lemma EphemeronFacts(g: Global, o: Ref)
    requires IsEphemeron(g, o)
    ensures o in g.heap.body && g.heap.body[o].Table? && g.heap.body[o].mode.WeakKeys?
    ensures In(g.heap.body[o].tmeta, Marked(g.color))
  {
  }

  lemma WhitesShrink(a: Global, b: Global)
    requires Propagates(a, b)
    ensures Whites(b.color) <= Whites(a.color)
  {
    assert forall x :: x in Whites(b.color) ==> x !in Marked(a.color);
  }

  lemma ConvergedKept(h: Heap, h': Heap, o: Ref, s: set<Ref>, s': set<Ref>)
    requires HeapStep(h, h') && s <= s' && OnlyStrings(h', s' - s) && Converged(h, o, s)
    ensures Converged(h', o, s')
  {
    var nodes := h.body[o].nodes;
    assert h'.body[o] == h.body[o];
    forall e | e in nodes && e.val != Nil && In(e.key, s') ensures In(e.val, s') {
      assert StrIn(h', e.key, s);
      NotNew(h', e.key, s, s');
    }
  }

  lemma TakeCounts(ls: GrayLists, ls': GrayLists, saved: seq<Ref>, x: Ref)
    requires ls' == ls.(ephemeron := []) && saved == []
    ensures Listed(ls', ls.ephemeron, x) == Listed(ls, saved, x)
    ensures x in ls.ephemeron ==> Listed(ls, saved, x) > 0
  {
  }

  lemma OneWeakList(ls: GrayLists, saved: seq<Ref>, x: Ref)
    requires Listed(ls, saved, x) <= 1 && x in ls.ephemeron
    ensures x !in ls.allweak
  {
    assert multiset(ls.ephemeron)[x] > 0;
    assert x in ls.allweak ==> multiset(ls.allweak)[x] > 0;
  }

  /** The ephemeron loop detaches the list before walking it. */
  lemma TakeEphemerons(g: Global, c: Ctx, g': Global, c': Ctx)
    requires Marking(g, c) && g.gcstate.InsideAtomic? && c.again == [] && g.lists.gray == [] && c.busy == {}
    requires g' == g.(lists := g.lists.(ephemeron := [])) && c' == c.(again := g.lists.ephemeron)
    ensures Marking(g', c') && Propagates(g, g') && Work(g') == Work(g)
    ensures forall x :: x in c'.again ==> IsEphemeron(g', x)
  {
    hide TouchedOk, Shape, FullyClosed, RootsIn, BoundOk, TwupsComplete, Listed, GraysListed, UpVisited;
    var s := Marked(g.color);
    forall x ensures Listed(g'.lists, c'.again, x) == Listed(g.lists, c.again, x) {
      TakeCounts(g.lists, g'.lists, c.again, x);
    }
    forall x | x in c'.again ensures IsEphemeron(g', x) {
      TakeCounts(g.lists, g'.lists, c.again, x);
      OneWeakList(g.lists, c.again, x);
      assert x in s;
      assert Visited(g.heap, g.lists, g.gcstate, g.twups, c.view, x, s);
    }
    forall x | x in s && !Pending(g'.lists, c'.again, x)
      ensures Visited(g.heap, g'.lists, g.gcstate, g.twups, c.view, x, s)
    {
      assert Visited(g.heap, g.lists, g.gcstate, g.twups, c.view, x, s);
    }
  }

  lemma PopSavedCounts(ls: GrayLists, saved: seq<Ref>, x: Ref)
    requires saved != []
    ensures Listed(ls, saved[1..], x) == Listed(ls, saved, x) - (if x == saved[0] then 1 else 0)
    ensures Listed(ls, saved, saved[0]) > 0
  {
    assert saved == [saved[0]] + saved[1..];
  }

  /** Taking the first saved object in order to visit it. */
  lemma PopSaved(g: Global, c: Ctx, c': Ctx)
    requires Marking(g, c) && g.gcstate.InsideAtomic? && c.view.late && c.again != [] && c.busy == {}
    requires c' == c.(again := c.again[1..], busy := {c.again[0]})
    ensures Visiting(g, c', c.again[0]) && g.color[c.again[0]] == Gray
    ensures c'.(busy := c'.busy - {c.again[0]}) == c'.(busy := {})
  {
    hide TouchedOk, FullyClosed, RootsIn, BoundOk, TwupsComplete, Progress, WeakListsOk, Listed, OwnedOk, UpsOk,
      ThreadsOk;
    var o := c.again[0];
    forall x ensures Listed(g.lists, c'.again, x) == Listed(g.lists, c.again, x) - (if x == o then 1 else 0) {
      PopSavedCounts(g.lists, c.again, x);
    }
    PopSavedCounts(g.lists, c.again, o);
    ProgressGrows(Marked(g.color), Marked(g.color), g.heap, g.lists, g.lists, g.gcstate, g.twups,
                  c.again, c'.again, c.view, c.busy, c'.busy);
  }

  /** With nothing saved and nothing gray, every marked object has been visited. */
  lemma AllVisited(g: Global, c: Ctx)
    requires Marking(g, c) && g.gcstate.InsideAtomic? && c.again == [] && g.lists.gray == [] && c.busy == {}
    ensures forall o :: o in Marked(g.color) ==>
            Visited(g.heap, g.lists, g.gcstate, g.twups, c.view, o, Marked(g.color))
  {
    hide TouchedOk, Shape, FullyClosed, RootsIn, BoundOk, TwupsComplete, Listed, GraysListed, Visited, ColorsOk;
  }

  // ----- clearing weak tables -----

  ghost predicate IsDead(v: Value, dead: set<Ref>) { v.Coll? && v.ref in dead }

  /** A table may lose values, or whole entries, because of dead objects only. */
  ghost predicate Cut(b: Body, b': Body, dead: set<Ref>)
  {
    || b' == b
    || (&& b.Table? && b'.Table? && b' == b.(slots := b'.slots, nodes := b'.nodes)
        && |b'.slots| == |b.slots| && |b'.nodes| == |b.nodes|
        && (forall i :: 0 <= i < |b.slots| ==>
              b'.slots[i] == b.slots[i] || (b'.slots[i] == Nil && IsDead(b.slots[i], dead)))
        && (forall i :: 0 <= i < |b.nodes| ==>
              || b'.nodes[i] == b.nodes[i]
              || (b'.nodes[i] == Entry(b.nodes[i].key, Nil) &&
                 (IsDead(b.nodes[i].key, dead) || IsDead(b.nodes[i].val, dead)))))
  }

  ghost predicate Clears(h: Heap, h': Heap, dead: set<Ref>)
  {
    && h' == h.(body := h'.body) && h'.body.Keys == h.body.Keys
    && forall o :: o in h.body ==> Cut(h.body[o], h'.body[o], dead)
  }

  /** White objects that weak tables may drop. */
  ghost function Droppable(g: Global): set<Ref>
    requires g.color.Keys == g.heap.body.Keys
  {
    set o | o in g.color && g.color[o].White? && !g.heap.body[o].Str?
  }

  lemma CutFull(h: Heap, h': Heap, dead: set<Ref>, o: Ref, s: set<Ref>)
    requires Clears(h, h', dead) && o in h.body
    ensures Full(h, h.body[o], s) ==> Full(h', h'.body[o], s)
  {
    assert Cut(h.body[o], h'.body[o], dead);
    match h.body[o]
    case LClosure(_, us) =>
      forall u | u in us ensures UpValue(h', u) == UpValue(h, u) { CutUpValue(h, h', dead, u); }
    case Table(_, _, slots, nodes) => CutTable(h, h', dead, o, s);
    case _ =>
  }

  lemma CutUpValue(h: Heap, h': Heap, dead: set<Ref>, u: UpId)
    requires Clears(h, h', dead)
    ensures UpValue(h', u) == UpValue(h, u)
  {
  }

  lemma CutTable(h: Heap, h': Heap, dead: set<Ref>, o: Ref, s: set<Ref>)
    requires Clears(h, h', dead) && o in h.body && h.body[o].Table?
    ensures h'.body[o].Table?
    ensures var b, b' := h.body[o], h'.body[o];
      && (AllIn(b.slots, s) ==> AllIn(b'.slots, s)) && (NodesIn(b.nodes, s) ==> NodesIn(b'.nodes, s))
      && (KeysIn(b.nodes, s) ==> KeysIn(b'.nodes, s)) && (ValsIn(b.nodes, s) ==> ValsIn(b'.nodes, s))
      && (Ephemeral(b.nodes, s) ==> Ephemeral(b'.nodes, s))
      && (StringKeysIn(h, b.nodes, s) ==> StringKeysIn(h', b'.nodes, s))
      && (StringsIn(h, b.slots, b.nodes, s) ==> StringsIn(h', b'.slots, b'.nodes, s))
      && b' == b.(slots := b'.slots, nodes := b'.nodes)
  {
    var b, b' := h.body[o], h'.body[o];
    assert Cut(b, b', dead);
    forall v | v in b'.slots ensures v == Nil || v in b.slots {
      var i :| 0 <= i < |b'.slots| && b'.slots[i] == v;
      assert b.slots[i] in b.slots;
    }
    forall e | e in b'.nodes ensures e.val == Nil || e in b.nodes {
      var i :| 0 <= i < |b'.nodes| && b'.nodes[i] == e;
      assert b.nodes[i] in b.nodes;
    }
    forall r ensures r in h.body && h.body[r].Str? <==> r in h'.body && h'.body[r].Str? {
      if r in h.body { assert Cut(h.body[r], h'.body[r], dead); }
    }
  }

  lemma CutStrong(h: Heap, h': Heap, dead: set<Ref>, o: Ref, s: set<Ref>, excused: bool)
    requires Clears(h, h', dead) && o in h.body && StrongBut(h, h.body[o], s, excused)
    ensures StrongBut(h', h'.body[o], s, excused)
  {
    hide StringKeysIn, StringsIn, Ephemeral, KeysIn, NodesIn, AllIn, UpValue;
    assert Cut(h.body[o], h'.body[o], dead);
    if h.body[o].Table? { CutTable(h, h', dead, o, s); } else { CutFull(h, h', dead, o, s); }
  }

  lemma CutVisited(h: Heap, h': Heap, dead: set<Ref>, ls: GrayLists, p: Phase, twups: seq<Ref>, view: View, o: Ref,
                   s: set<Ref>)
    requires Clears(h, h', dead) && Visited(h, ls, p, twups, view, o, s)
    ensures Visited(h', ls, p, twups, view, o, s)
  {
    hide StringKeysIn, StringsIn, Ephemeral, KeysIn, NodesIn, ValsIn, AllIn, UpValue;
    assert Cut(h.body[o], h'.body[o], dead);
    match h.body[o]
    case LClosure(_, us) =>
      forall u | u in us ensures UpVisited(h', p, view.late, u, s) {
        assert UpVisited(h, p, view.late, u, s);
        CutUpValue(h, h', dead, u);
      }
    case Table(_, _, _, _) => CutTable(h, h', dead, o, s);
    case _ => CutFull(h, h', dead, o, s);
  }

  lemma CutShape(heap: set<Ref>, h: Heap, h': Heap, dead: set<Ref>, w: Owned, r: Roots, twups: seq<Ref>)
    requires Clears(h, h', dead) && Shape(heap, h, w, r, twups)
    ensures Shape(heap, h', w, r, twups)
    ensures TwupsComplete(h, twups) ==> TwupsComplete(h', twups)
    ensures forall o :: o in h.body && !h.body[o].Table? ==> h'.body[o] == h.body[o]
    ensures forall o :: o in h.body ==> (h'.body[o].Table? <==> h.body[o].Table?)
  {
    hide OwnedOk;
    forall o | o in h.body ensures !h.body[o].Table? ==> h'.body[o] == h.body[o] {
      assert Cut(h.body[o], h'.body[o], dead);
    }
    forall o | o in h.body ensures h'.body[o].Table? == h.body[o].Table? {
      assert Cut(h.body[o], h'.body[o], dead);
    }
  }

  /** Clearing entries keeps the marking invariant. */
  lemma MarkingClears(g: Global, c: Ctx, g': Global, dead: set<Ref>)
    requires Marking(g, c) && Clears(g.heap, g'.heap, dead) && g' == g.(heap := g'.heap)
    ensures Marking(g', c)
  {
    hide Shape, TwupsComplete, Full, StrongBut, Visited, Listed, StringsIn, RootsIn, Pending, GraysListed, Cut, UpValue;
    var h, h' := g.heap, g'.heap;
    forall u ensures UpValue(h', u) == UpValue(h, u) { CutUpValue(h, h', dead, u); }
    CutShape(g.color.Keys, h, h', dead, g.owned, g.roots, g.twups);
    forall o | o in g.color ensures o in h'.body && Full(h', h'.body[o], g.color.Keys) {
      CutFull(h, h', dead, o, g.color.Keys);
    }
    forall o | o in c.bound && o in h'.body ensures StrongBut(h', h'.body[o], c.bound, o in c.view.lost) {
      CutStrong(h, h', dead, o, c.bound, o in c.view.lost);
    }
    forall o | o in g.lists.weak || o in g.lists.allweak || o in g.lists.ephemeron
      ensures h'.body[o].Table? && h'.body[o].mode == h.body[o].mode
      ensures o in g.lists.weak || o in g.lists.allweak ==> StringsIn(h', h'.body[o].slots, h'.body[o].nodes, c.bound)
    {
      CutTable(h, h', dead, o, c.bound);
    }
    var s, saved := Marked(g.color), Saved(g.lists, g.gcstate, c);
    forall o | o in s && o !in c.busy && !Pending(g.lists, saved, o)
      ensures Visited(h', g.lists, g.gcstate, g.twups, c.view, o, s)
    {
      CutVisited(h, h', dead, g.lists, g.gcstate, g.twups, c.view, o, s);
    }
  }

  /** A table that `clearkeys` or `clearvalues` may be applied to. */
  ghost predicate Clearable(h: Heap, o: Ref, byKey: bool, bound: set<Ref>)
  {
    && o in h.body && h.body[o].Table?
    && StringKeysIn(h, h.body[o].nodes, bound)
    && (!byKey ==> StringsIn(h, h.body[o].slots, h.body[o].nodes, bound))
  }

  ghost predicate IsClear(h: Heap, o: Ref, byKey: bool, s: set<Ref>)
  {
    && o in h.body && h.body[o].Table?
    && if byKey then KeysIn(h.body[o].nodes, s) else AllIn(h.body[o].slots, s) && ValsIn(h.body[o].nodes, s)
  }

  /** Clearing marks strings, empties table slots, and changes nothing else. */
  ghost predicate ClearsState(a: Global, b: Global, dead: set<Ref>)
  {
    && b == a.(color := b.color, heap := b.heap)
    && a.color.Keys == a.heap.body.Keys && b.color.Keys == a.color.Keys
    && (forall o :: o in Marked(a.color) ==> b.color[o] == a.color[o])
    && Marked(a.color) <= Marked(b.color)
    && OnlyStrings(a.heap, Marked(b.color) - Marked(a.color))
    && Clears(a.heap, b.heap, dead)
    && Droppable(a) == dead
  }

  lemma DroppableKept(a: Global, b: Global)
    requires a.color.Keys == a.heap.body.Keys && b.color.Keys == a.color.Keys && b.heap == a.heap
    requires Marked(a.color) <= Marked(b.color) && OnlyStrings(a.heap, Marked(b.color) - Marked(a.color))
    ensures Droppable(b) == Droppable(a)
  {
    forall o | o in Droppable(a) ensures o in Droppable(b) {
      assert o !in Marked(b.color) - Marked(a.color);
    }
    assert forall o :: o in Droppable(b) ==> o !in Marked(a.color);
  }

  lemma InDroppable(g: Global, v: Value)
    requires g.color.Keys == g.heap.body.Keys && v.Coll? && v.ref in g.color && g.color[v.ref].White?
    requires !g.heap.body[v.ref].Str?
    ensures IsDead(v, Droppable(g))
  {
  }

  lemma AllInGrowsIf(p: bool, vs: seq<Value>, s: set<Ref>, s': set<Ref>)
    requires p ==> AllIn(vs, s)
    requires s <= s'
    ensures p ==> AllIn(vs, s')
  {
  }

  lemma ClearsRefl(a: Global)
    requires a.color.Keys == a.heap.body.Keys
    ensures ClearsState(a, a, Droppable(a))
  {
  }

  lemma CutCompose(b: Body, b': Body, b'': Body, dead: set<Ref>)
    requires Cut(b, b', dead) && Cut(b', b'', dead)
    ensures Cut(b, b'', dead)
  {
    if b.Table? && b' != b && b'' != b' {
      forall i | 0 <= i < |b.slots| ensures b''.slots[i] == b.slots[i] ||
        (b''.slots[i] == Nil && IsDead(b.slots[i], dead)) {
        assert b'.slots[i] == b.slots[i] || (b'.slots[i] == Nil && IsDead(b.slots[i], dead));
      }
      forall i | 0 <= i < |b.nodes|
        ensures b''.nodes[i] == b.nodes[i]
          || (b''.nodes[i] == Entry(b.nodes[i].key, Nil) &&
             (IsDead(b.nodes[i].key, dead) || IsDead(b.nodes[i].val, dead)))
      {
        assert b'.nodes[i] == b.nodes[i]
          || (b'.nodes[i] == Entry(b.nodes[i].key, Nil) &&
             (IsDead(b.nodes[i].key, dead) || IsDead(b.nodes[i].val, dead)));
      }
    }
  }

  lemma ClearsCompose(a: Global, b: Global, c: Global, dead: set<Ref>)
    requires ClearsState(a, b, dead) && ClearsState(b, c, dead)
    ensures ClearsState(a, c, dead)
  {
    hide Cut, Droppable;
    forall o | o in a.heap.body ensures Cut(a.heap.body[o], c.heap.body[o], dead) {
      assert Cut(a.heap.body[o], b.heap.body[o], dead) && Cut(b.heap.body[o], c.heap.body[o], dead);
      CutCompose(a.heap.body[o], b.heap.body[o], c.heap.body[o], dead);
    }
    forall o | o in Marked(c.color) - Marked(a.color) ensures a.heap.body[o].Str? {
      if o in Marked(b.color) {
        assert o in Marked(b.color) - Marked(a.color);
      } else {
        assert o in Marked(c.color) - Marked(b.color);
        CutStr(a.heap.body[o], b.heap.body[o], dead);
      }
    }
  }

  lemma CutStr(b: Body, b': Body, dead: set<Ref>)
    requires Cut(b, b', dead)
    ensures b'.Str? == b.Str? && b'.Table? == b.Table?
  {
  }

  lemma ClearsFrame(a: Global, b: Global, dead: set<Ref>)
    requires ClearsState(a, b, dead)
    ensures b == a.(color := b.color, heap := b.heap) && Marked(a.color) <= Marked(b.color)
    ensures b.color.Keys == a.color.Keys == a.heap.body.Keys == b.heap.body.Keys && Droppable(b) == dead
    ensures forall o :: o in Marked(a.color) ==> b.color[o] == a.color[o]
  {
    hide Cut;
    forall o | o in a.color ensures b.heap.body[o].Str? == a.heap.body[o].Str? {
      assert Cut(a.heap.body[o], b.heap.body[o], dead);
      CutStr(a.heap.body[o], b.heap.body[o], dead);
    }
    forall o | o in dead ensures o !in Marked(b.color) {
      assert o !in Marked(b.color) - Marked(a.color);
    }
  }

  /** Tables waiting to be cleared, and tables already cleared, are not disturbed. */
  lemma ClearsKeep(a: Global, b: Global, dead: set<Ref>, o: Ref, byKey: bool, bound: set<Ref>)
    requires ClearsState(a, b, dead)
    ensures Clearable(a.heap, o, byKey, bound) ==> Clearable(b.heap, o, byKey, bound)
    ensures IsClear(a.heap, o, byKey, Marked(a.color)) ==> IsClear(b.heap, o, byKey, Marked(b.color))
  {
    hide Cut, Droppable;
    if o in a.heap.body && a.heap.body[o].Table? {
      CutTable(a.heap, b.heap, dead, o, bound);
      CutTable(a.heap, b.heap, dead, o, Marked(a.color));
    }
  }

  /** Storing the cleared parts of one table. */
  lemma StoreCleared(start: Global, a: Global, c: Ctx, o: Ref, slots: seq<Value>, nodes: seq<Entry>, b: Global)
    requires Marking(a, c) && start.color.Keys == start.heap.body.Keys
    requires Marks(start, a) && OnlyStrings(start.heap, Marked(a.color) - Marked(start.color))
    requires a.lists == start.lists && Droppable(a) == Droppable(start)
    requires o in a.heap.body && a.heap.body[o].Table?
    requires Cut(a.heap.body[o], a.heap.body[o].(slots := slots, nodes := nodes), Droppable(a))
    requires b == a.(heap := a.heap.(body := a.heap.body[o := a.heap.body[o].(slots := slots, nodes := nodes)]))
    ensures Marking(b, c) && ClearsState(start, b, Droppable(start))
  {
    hide Marking, Cut;
    assert forall x :: x in a.heap.body && x != o ==> b.heap.body[x] == a.heap.body[x];
    assert forall x :: x in a.heap.body && x != o ==> Cut(a.heap.body[x], b.heap.body[x], Droppable(a)) by {
      forall x | x in a.heap.body && x != o ensures Cut(a.heap.body[x], b.heap.body[x], Droppable(a)) {
        CutRefl(a.heap.body[x], Droppable(a));
      }
    }
    assert b.heap.body.Keys == a.heap.body.Keys;
    MarkingClears(a, c, b, Droppable(a));
  }

  lemma CutRefl(b: Body, dead: set<Ref>)
    ensures Cut(b, b, dead)
  {
  }

  lemma ClearableHolds(g: Global, c: Ctx, o: Ref, byKey: bool)
    requires Marking(g, c) && Clearable(g.heap, o, byKey, c.bound)
    ensures g.color.Keys == g.heap.body.Keys
    ensures AllIn(g.heap.body[o].slots, g.color.Keys) && NodesIn(g.heap.body[o].nodes, g.color.Keys)
  {
    hide StringsIn, StringKeysIn, OwnedOk, UpsOk, ThreadsOk, BoundOk, TouchedOk, WeakListsOk, ListsOk, Progress,
      GraysListed, ColorsOk, RootsIn;
    hide AllIn, NodesIn;
    assert Full(g.heap, g.heap.body[o], g.color.Keys);
  }

  // ----- open upvalues of threads that are not marked -----

  /** What `remarkupvals` does: mark values, reset touched flags, and shorten `twups`. */
  ghost predicate Remarks(a: Global, b: Global)
  {
    && b == a.(color := b.color, heap := a.heap.(ups := b.heap.ups), twups := b.twups,
               lists := a.lists.(gray := b.lists.gray))
    && b.color.Keys == a.color.Keys
    && Marked(a.color) <= Marked(b.color)
    && (forall o :: o in Marked(a.color) ==> b.color[o] == a.color[o])
    && b.heap.ups.Keys == a.heap.ups.Keys
    && (forall u :: u in a.heap.ups ==>
          b.heap.ups[u] == a.heap.ups[u] || (a.heap.ups[u].Open? && b.heap.ups[u] == a.heap.ups[u].(touched := false)))
  }

  lemma RemarksRefl(a: Global)
    ensures Remarks(a, a)
  {
  }

  lemma RemarksCompose(a: Global, b: Global, c: Global)
    requires Remarks(a, b) && Remarks(b, c)
    ensures Remarks(a, c)
  {
  }

  lemma RemarksFrame(a: Global, b: Global)
    requires Remarks(a, b)
    ensures b.heap.body == a.heap.body && Marked(a.color) <= Marked(b.color) && b.gcstate == a.gcstate
  {
  }

  lemma MarksRemark(a: Global, b: Global)
    requires Marks(a, b)
    ensures Remarks(a, b)
  {
  }

  lemma RemarksTwups(a: Global, b: Global, kept: seq<Ref>)
    requires Remarks(a, b)
    ensures Remarks(a, b.(twups := kept))
  {
  }

  ghost predicate NotTouched(h: Heap, u: UpId) { u in h.ups && h.ups[u].Open? ==> !h.ups[u].touched }

  ghost predicate UpsHandled(g: Global, t: Ref)
  {
    IsThread(g.heap, t) ==> forall u :: u in g.heap.body[t].openups ==> NotTouched(g.heap, u)
  }

  ghost predicate KeptOk(g: Global, kept: seq<Ref>)
  {
    forall t :: t in kept ==> IsThread(g.heap, t) && t in Marked(g.color)
  }

  lemma NotTouchedKept(a: Global, b: Global, u: UpId)
    requires Remarks(a, b) && NotTouched(a.heap, u)
    ensures NotTouched(b.heap, u)
  {
  }

  lemma HandledKept(a: Global, b: Global, t: Ref)
    requires Remarks(a, b) && UpsHandled(a, t)
    ensures UpsHandled(b, t)
  {
    if IsThread(b.heap, t) {
      forall u | u in b.heap.body[t].openups ensures NotTouched(b.heap, u) {
        assert NotTouched(a.heap, u);
        NotTouchedKept(a, b, u);
      }
    }
  }

  lemma KeptKept(a: Global, b: Global, kept: seq<Ref>)
    requires Remarks(a, b) && KeptOk(a, kept)
    ensures KeptOk(b, kept)
  {
    hide Marked;
  }

  lemma ThreadFacts(g: Global, c: Ctx, t: Ref)
    requires Marking(g, c) && t in g.twups && c.busy == {}
    ensures IsThread(g.heap, t) && t in g.color && g.color[t] != Black
  {
    hide OwnedOk, UpsOk, FullyClosed, BoundOk, TouchedOk, WeakListsOk, ListsOk, Progress, GraysListed, FixedOk;
  }

  /** Resetting the flag of an upvalue whose value is marked. */
  lemma UntouchStep(g: Global, c: Ctx, u: UpId, g': Global)
    requires Marking(g, c) && g.gcstate.InsideAtomic? && u in g.heap.ups && g.heap.ups[u].Open?
    requires In(UpValue(g.heap, u), Marked(g.color))
    requires g' == g.(heap := g.heap.(ups := g.heap.ups[u := g.heap.ups[u].(touched := false)]))
    ensures Marking(g', c) && Remarks(g, g') && NotTouched(g'.heap, u)
  {
    hide OwnedOk, TwupsComplete, Full, StrongBut, Visited, Listed, WeakListsOk, RootsIn, Pending, GraysListed, UpValue,
      OpenOk;
    var h, h' := g.heap, g'.heap;
    forall x ensures UpValue(h', x) == UpValue(h, x) { UntouchUpValue(h, h', u, x); }
    UntouchShape(g.color.Keys, h, h', u, g.owned, g.roots, g.twups);
    WeakListsOnlyBodies(h, h', g.lists, c.bound);
    forall o | o in g.color ensures o in h'.body && Full(h', h'.body[o], g.color.Keys) {
      UntouchBody(h, h', h.body[o], g.color.Keys);
    }
    forall o | o in c.bound && o in h'.body ensures StrongBut(h', h'.body[o], c.bound, o in c.view.lost) {
      UntouchBody(h, h', h.body[o], c.bound);
    }
    var s, saved := Marked(g.color), Saved(g.lists, g.gcstate, c);
    forall o | o in s && o !in c.busy && !Pending(g.lists, saved, o)
      ensures Visited(h', g.lists, g.gcstate, g.twups, c.view, o, s)
    {
      UntouchVisited(h, h', u, g.lists, g.gcstate, g.twups, c.view, o, s);
    }
  }

  lemma UntouchUpValue(h: Heap, h': Heap, u: UpId, x: UpId)
    requires u in h.ups && h.ups[u].Open? && h' == h.(ups := h.ups[u := h.ups[u].(touched := false)])
    ensures UpValue(h', x) == UpValue(h, x)
  {
  }

  lemma UntouchShape(heap: set<Ref>, h: Heap, h': Heap, u: UpId, w: Owned, r: Roots, twups: seq<Ref>)
    requires u in h.ups && h.ups[u].Open? && h' == h.(ups := h.ups[u := h.ups[u].(touched := false)])
    requires Shape(heap, h, w, r, twups)
    ensures Shape(heap, h', w, r, twups)
    ensures TwupsComplete(h, twups) ==> TwupsComplete(h', twups)
  {
    hide OwnedOk;
  }

  lemma WeakListsOnlyBodies(h: Heap, h': Heap, ls: GrayLists, bound: set<Ref>)
    requires h'.body == h.body && WeakListsOk(h, ls.weak, ls.ephemeron, ls.allweak, bound)
    ensures WeakListsOk(h', ls.weak, ls.ephemeron, ls.allweak, bound)
  {
    hide StringsIn;
    forall o | o in ls.weak || o in ls.allweak
      ensures o in h'.body && h'.body[o].Table? && StringsIn(h', h'.body[o].slots, h'.body[o].nodes, bound)
    {
      StringsOnlyBodies(h, h', h.body[o].slots, h.body[o].nodes, bound);
    }
  }

  lemma StringsOnlyBodies(h: Heap, h': Heap, slots: seq<Value>, nodes: seq<Entry>, s: set<Ref>)
    requires h'.body == h.body
    ensures StringsIn(h, slots, nodes, s) ==> StringsIn(h', slots, nodes, s)
    ensures StringKeysIn(h, nodes, s) ==> StringKeysIn(h', nodes, s)
  {
  }

  lemma UntouchBody(h: Heap, h': Heap, b: Body, s: set<Ref>)
    requires h'.body == h.body && forall x :: UpValue(h', x) == UpValue(h, x)
    ensures Full(h, b, s) ==> Full(h', b, s)
    ensures forall x :: StrongBut(h, b, s, x) ==> StrongBut(h', b, s, x)
  {
    hide UpValue, StringsIn, StringKeysIn, Ephemeral, KeysIn, NodesIn, AllIn;
    match b
    case Table(_, _, slots, nodes) => StringsOnlyBodies(h, h', slots, nodes, s);
    case _ =>
  }

  lemma UntouchVisited(h: Heap, h': Heap, u: UpId, ls: GrayLists, p: Phase, twups: seq<Ref>, view: View, o: Ref,
                       s: set<Ref>)
    requires u in h.ups && h.ups[u].Open? && h' == h.(ups := h.ups[u := h.ups[u].(touched := false)])
    requires p.InsideAtomic? && In(UpValue(h, u), s) && forall x :: UpValue(h', x) == UpValue(h, x)
    requires Visited(h, ls, p, twups, view, o, s)
    ensures Visited(h', ls, p, twups, view, o, s)
  {
    hide UpValue, TableVisited;
    match h.body[o]
    case LClosure(_, us) =>
      forall x | x in us ensures UpVisited(h', p, view.late, x, s) { assert UpVisited(h, p, view.late, x, s); }
    case _ => UntouchBody(h, h', h.body[o], s);
  }

  /** Every thread on `twups` was kept, because marked, or has no touched upvalue left. */
  lemma FinishRemark(g: Global, c: Ctx, kept: seq<Ref>)
    requires Marking(g, c) && g.gcstate.InsideAtomic? && !c.view.late && c.busy == {}
    requires forall t :: t in g.twups ==> t in kept || UpsHandled(g, t)
    requires KeptOk(g, kept)
    ensures Marking(g.(twups := kept), c.(view := c.view.(late := true)))
  {
    hide OwnedOk, FullyClosed, BoundOk, TouchedOk, WeakListsOk, ListsOk, RootsIn, GraysListed, ColorsOk, UpValue,
      TableVisited, Pending;
    var s, saved := Marked(g.color), Saved(g.lists, g.gcstate, c);
    var view := c.view.(late := true);
    forall o | o in s && !Pending(g.lists, saved, o)
      ensures Visited(g.heap, g.lists, g.gcstate, kept, view, o, s)
    {
      assert Visited(g.heap, g.lists, g.gcstate, g.twups, c.view, o, s);
      if g.heap.body[o].LClosure? {
        forall u | u in g.heap.body[o].upvals ensures UpVisited(g.heap, g.gcstate, true, u, s) {
          LateUpvalue(g, c, kept, u);
        }
      }
    }
  }

  lemma LateUpvalue(g: Global, c: Ctx, kept: seq<Ref>, u: UpId)
    requires Shape(g.color.Keys, g.heap, g.owned, g.roots, g.twups) && TwupsComplete(g.heap, g.twups)
    requires UpVisited(g.heap, g.gcstate, false, u, Marked(g.color))
    requires forall t :: t in g.twups ==> t in kept || UpsHandled(g, t)
    requires KeptOk(g, kept)
    ensures UpVisited(g.heap, g.gcstate, true, u, Marked(g.color))
  {
    hide OwnedOk, UpValue;
    if g.heap.ups[u].Open? {
      var t := g.heap.ups[u].thread;
      assert OpenOk(g.heap, u, t, g.heap.ups[u].level);
    }
  }

  // ----- the shape of `atomic` -----

  ghost predicate BodyEvolves(b: Body, b': Body, dead: set<Ref>)
  {
    Cut(b, b', dead) || (b.Proto? && b' == b.(cache := Nil))
  }

  ghost predicate UpEvolves(u: UpVal, u': UpVal)
  {
    u' == u || (u.Open? && u'.Open? && u' == u.(touched := u'.touched))
  }

  /** What `atomic` may do to a state: mark, cut entries because of dead objects, drop caches, and queue
      objects for finalization. */
  ghost predicate Evolves(a: Global, b: Global, dead: set<Ref>)
  {
    && b == a.(color := b.color, heap := b.heap, lists := b.lists, twups := b.twups, gcstate := b.gcstate,
               owned := a.owned.(finobj := b.owned.finobj, tobefnz := b.owned.tobefnz))
    && a.color.Keys == a.heap.body.Keys && b.color.Keys == a.color.Keys && b.heap.body.Keys == a.heap.body.Keys
    && b.heap.ups.Keys == a.heap.ups.Keys
    && Marked(a.color) <= Marked(b.color)
    && (forall o :: o in a.heap.body ==> BodyEvolves(a.heap.body[o], b.heap.body[o], dead))
    && (forall u :: u in a.heap.ups ==> UpEvolves(a.heap.ups[u], b.heap.ups[u]))
  }

  lemma BodyCompose(b: Body, b': Body, b'': Body, dead: set<Ref>)
    requires BodyEvolves(b, b', dead) && BodyEvolves(b', b'', dead)
    ensures BodyEvolves(b, b'', dead)
  {
    if Cut(b, b', dead) && Cut(b', b'', dead) { CutCompose(b, b', b'', dead); }
  }

  lemma EvolvesCompose(a: Global, b: Global, c: Global, dead: set<Ref>)
    requires Evolves(a, b, dead) && Evolves(b, c, dead)
    ensures Evolves(a, c, dead)
  {
    hide Cut, BodyEvolves;
    forall o | o in a.heap.body ensures BodyEvolves(a.heap.body[o], c.heap.body[o], dead) {
      BodyCompose(a.heap.body[o], b.heap.body[o], c.heap.body[o], dead);
    }
    forall u | u in a.heap.ups ensures UpEvolves(a.heap.ups[u], c.heap.ups[u]) {
      assert UpEvolves(a.heap.ups[u], b.heap.ups[u]) && UpEvolves(b.heap.ups[u], c.heap.ups[u]);
    }
  }

  lemma PropagatesEvolve(a: Global, b: Global, dead: set<Ref>)
    requires Propagates(a, b) && a.color.Keys == a.heap.body.Keys
    ensures Evolves(a, b, dead)
  {
    hide Marked;
  }

  lemma RemarksEvolve(a: Global, b: Global, dead: set<Ref>)
    requires Remarks(a, b) && a.color.Keys == a.heap.body.Keys
    ensures Evolves(a, b, dead)
  {
    hide Marked;
  }

  lemma CutMore(b: Body, b': Body, dead: set<Ref>, dead': set<Ref>)
    requires Cut(b, b', dead) && dead <= dead'
    ensures Cut(b, b', dead')
  {
  }

  lemma ClearsEvolve(a: Global, b: Global, d: set<Ref>, dead: set<Ref>)
    requires ClearsState(a, b, d) && d <= dead
    ensures Evolves(a, b, dead)
  {
    hide Cut, Droppable, Marked;
    forall o | o in a.heap.body ensures BodyEvolves(a.heap.body[o], b.heap.body[o], dead) {
      assert Cut(a.heap.body[o], b.heap.body[o], d);
      CutMore(a.heap.body[o], b.heap.body[o], d, dead);
    }
  }

  lemma EvolvesFrame(a: Global, b: Global, dead: set<Ref>)
    requires Evolves(a, b, dead)
    ensures b.color.Keys == a.color.Keys == a.heap.body.Keys == b.heap.body.Keys && Marked(a.color) <= Marked(b.color)
    ensures b.roots == a.roots && b.currentwhite == a.currentwhite && b.sweepgc == a.sweepgc
    ensures b.owned.allgc == a.owned.allgc && b.owned.fixedgc == a.owned.fixedgc
    ensures Droppable(b) <= b.color.Keys - Marked(b.color) <= a.color.Keys - Marked(a.color)
  {
  }

  lemma PropagatesKeepClear(a: Global, b: Global, o: Ref, byKey: bool)
    requires Propagates(a, b) && IsClear(a.heap, o, byKey, Marked(a.color))
    ensures IsClear(b.heap, o, byKey, Marked(b.color))
  {
    hide Marked;
  }

  lemma ClearsKeepConverged(a: Global, b: Global, dead: set<Ref>, o: Ref)
    requires ClearsState(a, b, dead) && Converged(a.heap, o, Marked(a.color))
    ensures Converged(b.heap, o, Marked(b.color))
  {
    hide Cut, Droppable;
    var s, s' := Marked(a.color), Marked(b.color);
    CutTable(a.heap, b.heap, dead, o, s);
    var nodes := b.heap.body[o].nodes;
    assert OnlyStrings(b.heap, s' - s) by {
      forall x | x in s' - s ensures x in b.heap.body && b.heap.body[x].Str? {
        CutStr(a.heap.body[x], b.heap.body[x], dead);
      }
    }
    forall e | e in nodes && e.val != Nil && In(e.key, s') ensures In(e.val, s') {
      assert StrIn(b.heap, e.key, s);
      NotNew(b.heap, e.key, s, s');
    }
  }

  /** Entering `atomic`: the state changes its name, and `grayagain` is saved. */
  lemma EnterAtomic(g: Global, c: Ctx)
    requires Marking(g, c) && g.gcstate.AtomicWait? && c.stopped
    ensures Marking(g.(gcstate := InsideAtomic), c.(again := g.lists.grayagain))
  {
    hide Shape, FullyClosed, RootsIn, BoundOk, TouchedOk, WeakListsOk, ListsOk, GraysListed, ColorsOk, TableVisited,
      Pending;
    var s := Marked(g.color);
    forall o | o in s && o !in c.busy && !Pending(g.lists, g.lists.grayagain, o)
      ensures Visited(g.heap, g.lists, InsideAtomic, g.twups, c.view, o, s)
    {
      assert Visited(g.heap, g.lists, g.gcstate, g.twups, c.view, o, s);
      if g.heap.body[o].LClosure? {
        forall u | u in g.heap.body[o].upvals ensures UpVisited(g.heap, InsideAtomic, c.view.late, u, s) {
          assert UpVisited(g.heap, g.gcstate, c.view.late, u, s);
        }
      }
    }
  }

  lemma ResumeCounts(ls: GrayLists, saved: seq<Ref>, x: Ref)
    requires ls.gray == []
    ensures Listed(ls.(gray := saved), [], x) == Listed(ls, saved, x)
  {
  }

  /** The saved list becomes the gray list. */
  lemma ResumeSaved(g: Global, c: Ctx)
    requires Marking(g, c) && g.gcstate.InsideAtomic? && g.lists.gray == []
    ensures Marking(g.(lists := g.lists.(gray := c.again)), c.(again := []))
    ensures Propagates(g, g.(lists := g.lists.(gray := c.again)))
  {
    hide Shape, FullyClosed, RootsIn, BoundOk, TouchedOk, WeakListsOk, GraysListed, ColorsOk, Listed, TwupsComplete,
      Progress;
    var ls := g.lists.(gray := c.again);
    forall x ensures Listed(ls, [], x) == Listed(g.lists, c.again, x) { ResumeCounts(g.lists, c.again, x); }
    ProgressGrows(Marked(g.color), Marked(g.color), g.heap, g.lists, ls, g.gcstate, g.twups,
                  c.again, [], c.view, c.busy, c.busy);
  }

  /** The strong references of `b` other than a weak table's strings lie in `s`. */
  ghost predicate KeepsIn(h: Heap, b: Body, s: set<Ref>)
  {
    match b
    case Proto(ks, _) => AllIn(ks, s)
    case Table(mode, m, slots, nodes) =>
      In(m, s) && (
        match mode
        case Strong => AllIn(slots, s) && NodesIn(nodes, s)
        case WeakValues => KeysIn(nodes, s)
        case WeakKeys => AllIn(slots, s) && Ephemeral(nodes, s)
        case AllWeak => true)
    case _ => Full(h, b, s)
  }

  /** Every object of `s`, except tables whose mode may have changed on the way, keeps its strong
      references in `s`. */
  ghost predicate ClosedUnderKeeping(h: Heap, s: set<Ref>, stale: set<Ref>)
  {
    forall o :: o in s && o !in stale ==> o in h.body && KeepsIn(h, h.body[o], s)
  }

  lemma LateUpValueIn(g: Global, c: Ctx, u: UpId)
    requires Shape(g.color.Keys, g.heap, g.owned, g.roots, g.twups)
    requires UpVisited(g.heap, g.gcstate, true, u, Marked(g.color))
    requires forall t :: t in Marked(g.color) ==>
             Visited(g.heap, g.lists, g.gcstate, g.twups, c.view, t, Marked(g.color))
    ensures In(UpValue(g.heap, u), Marked(g.color))
  {
    hide OwnedOk, ThreadsOk, TableVisited, Full;
    if g.heap.ups[u].Open? && g.heap.ups[u].thread in Marked(g.color) {
      var t := g.heap.ups[u].thread;
      assert OpenOk(g.heap, u, t, g.heap.ups[u].level);
      assert Visited(g.heap, g.lists, g.gcstate, g.twups, c.view, t, Marked(g.color));
    }
  }

  /** Where the ephemeron loop stops, the marked objects are closed under strong references, with the
      value of an ephemeron entry counted as soon as its key is marked (section 2.5.2 of the Lua 5.3
      manual). */
  lemma MarkedKeeps(g: Global, c: Ctx)
    requires Marking(g, c) && g.gcstate.InsideAtomic? && c.view.late && c.again == [] && g.lists.gray == [] &&
             c.busy == {}
    requires forall x :: x in g.lists.ephemeron ==> Converged(g.heap, x, Marked(g.color))
    ensures ClosedUnderKeeping(g.heap, Marked(g.color), c.view.stale + c.view.lost)
  {
    hide Marking, UpValue, UpVisited, Full;
    AllVisited(g, c);
    var s := Marked(g.color);
    forall o | o in s && o !in c.view.stale + c.view.lost ensures o in g.heap.body &&
      KeepsIn(g.heap, g.heap.body[o], s) {
      assert Visited(g.heap, g.lists, g.gcstate, g.twups, c.view, o, s);
      WeakModes(g, c, o);
      VisitedKeeps(g, c, o);
    }
  }

  lemma WeakModes(g: Global, c: Ctx, o: Ref)
    requires Marking(g, c)
    ensures Shape(g.color.Keys, g.heap, g.owned, g.roots, g.twups)
    ensures o in g.lists.weak ==> o in g.heap.body && g.heap.body[o].Table? && g.heap.body[o].mode.WeakValues?
    ensures o in g.lists.ephemeron ==> o in g.heap.body && g.heap.body[o].Table? && g.heap.body[o].mode.WeakKeys?
  {
    hide Shape, FullyClosed, RootsIn, BoundOk, TouchedOk, GraysListed, ColorsOk, TwupsComplete, Progress;
  }

  lemma VisitedKeeps(g: Global, c: Ctx, o: Ref)
    requires Shape(g.color.Keys, g.heap, g.owned, g.roots, g.twups) && c.view.late
    requires forall t :: t in Marked(g.color) ==>
             Visited(g.heap, g.lists, g.gcstate, g.twups, c.view, t, Marked(g.color))
    requires o in Marked(g.color) && o !in c.view.stale + c.view.lost
    requires o in g.lists.weak ==> o in g.heap.body && g.heap.body[o].Table? && g.heap.body[o].mode.WeakValues?
    requires o in g.lists.ephemeron ==> o in g.heap.body && g.heap.body[o].Table? && g.heap.body[o].mode.WeakKeys?
    requires o in g.lists.ephemeron ==> Converged(g.heap, o, Marked(g.color))
    ensures o in g.heap.body && KeepsIn(g.heap, g.heap.body[o], Marked(g.color))
  {
    hide Shape, UpValue, UpVisited, UpsOk;
    var s := Marked(g.color);
    assert Visited(g.heap, g.lists, g.gcstate, g.twups, c.view, o, s);
    if g.heap.body[o].LClosure? {
      forall u | u in g.heap.body[o].upvals ensures In(UpValue(g.heap, u), s) {
        assert UpVisited(g.heap, g.gcstate, c.view.late, u, s);
        LateUpValueIn(g, c, u);
      }
    }
  }

  /** After the last clearing nothing marked can read anything unmarked. */
  lemma MarkedIsFull(g: Global, c: Ctx)
    requires Marking(g, c) && g.gcstate.InsideAtomic? && c.view.late && c.again == [] && g.lists.gray == [] &&
             c.busy == {}
    requires forall x :: x in g.lists.ephemeron ==>
             Converged(g.heap, x, Marked(g.color)) && IsClear(g.heap, x, true, Marked(g.color))
    requires forall x :: x in g.lists.weak ==> IsClear(g.heap, x, false, Marked(g.color))
    requires forall x :: x in g.lists.allweak ==>
             IsClear(g.heap, x, true, Marked(g.color)) && IsClear(g.heap, x, false, Marked(g.color))
    ensures FullyClosedBut(g.heap, Marked(g.color), c.view.lost)
  {
    hide Marking, UpValue, UpVisited;
    AllVisited(g, c);
    var s := Marked(g.color);
    forall o | o in s ensures o in g.heap.body && FullBut(g.heap, g.heap.body[o], s, o in c.view.lost) {
      assert Visited(g.heap, g.lists, g.gcstate, g.twups, c.view, o, s);
      WeakModes(g, c, o);
      if g.heap.body[o].LClosure? {
        forall u | u in g.heap.body[o].upvals ensures In(UpValue(g.heap, u), s) {
          assert UpVisited(g.heap, g.gcstate, c.view.late, u, s);
          LateUpValueIn(g, c, u);
        }
      }
    }
  }

  // ----- finalization -----

  /** `finobj` split into the objects that stay and those queued for finalization. */
  ghost predicate Splits(w: Owned, w': Owned, moved: seq<Ref>)
  {
    && w' == w.(finobj := w'.finobj, tobefnz := w.tobefnz + moved)
    && multiset(w.finobj) == multiset(w'.finobj) + multiset(moved)
  }

  lemma SplitMembers(w: Owned, w': Owned, moved: seq<Ref>, o: Ref)
    requires Splits(w, w', moved)
    ensures o in w.finobj <==> o in w'.finobj || o in moved
    ensures Owners(w', o) == Owners(w, o)
  {
    assert o in w.finobj <==> o in multiset(w.finobj);
    assert multiset(w'.tobefnz)[o] == multiset(w.tobefnz)[o] + multiset(moved)[o];
  }

  lemma MarkingSplit(g: Global, c: Ctx, w': Owned, moved: seq<Ref>)
    requires Marking(g, c) && Splits(g.owned, w', moved)
    ensures Marking(g.(owned := w'), c)
    ensures Evolves(g, g.(owned := w'), {})
  {
    hide UpsOk, ThreadsOk, FullyClosed, BoundOk, TouchedOk, WeakListsOk, ListsOk, Progress, Splits, Owners, Cut;
    forall o ensures Owners(w', o) == Owners(g.owned, o) { SplitMembers(g.owned, w', moved, o); }
    forall o | o in w'.tobefnz ensures o in g.color {
      if o !in g.owned.tobefnz {
        SplitFrame(g.owned, w', moved);
        SplitMembers(g.owned, w', moved, o);
        FinobjInHeap(g, o);
      }
    }
    assert w'.fixedgc == g.owned.fixedgc && w' == g.owned.(finobj := w'.finobj, tobefnz := w'.tobefnz) by {
      SplitFrame(g.owned, w', moved);
    }
    forall o | o in g.heap.body ensures BodyEvolves(g.heap.body[o], g.heap.body[o], {}) { CutRefl(g.heap.body[o], {}); }
  }

  lemma SplitFrame(w: Owned, w': Owned, moved: seq<Ref>)
    requires Splits(w, w', moved)
    ensures w' == w.(finobj := w'.finobj, tobefnz := w.tobefnz + moved)
  {
  }

  lemma FinobjInHeap(g: Global, o: Ref)
    requires OwnedOk(g.owned, g.color.Keys, g.roots.mainthread) && o in g.owned.finobj
    ensures o in g.color
  {
    assert Owners(g.owned, o) > 0;
  }

  lemma FinobjMarking(g: Global, c: Ctx, o: Ref)
    requires Marking(g, c) && o in g.owned.finobj
    ensures o in g.color
  {
    hide Owners, UpsOk, ThreadsOk, FullyClosed, BoundOk, TouchedOk, WeakListsOk, ListsOk, Progress;
    FinobjInHeap(g, o);
  }

  lemma EnterEvolves(a: Global, b: Global)
    requires a.color.Keys == a.heap.body.Keys && b == a.(gcstate := b.gcstate)
    ensures Evolves(a, b, {})
  {
  }

  lemma InsideStopped(g: Global, c: Ctx)
    requires Marking(g, c) && g.gcstate.InsideAtomic?
    ensures c.stopped
  {
  }

  lemma InPrefix(s: seq<Ref>, t: seq<Ref>, x: Ref)
    requires IsSuffix(s, t) && x in t && x !in s
    ensures x in t[..|t| - |s|]
  {
    assert t == t[..|t| - |s|] + t[|t| - |s|..];
  }

  /** The tables on the weak lists may be cleared. */
  lemma ListsClearable(g: Global, c: Ctx)
    requires Marking(g, c) && g.gcstate.InsideAtomic?
    ensures forall x :: x in g.lists.weak || x in g.lists.allweak ==>
      Clearable(g.heap, x, true, c.bound) && Clearable(g.heap, x, false, c.bound)
    ensures forall x :: x in g.lists.ephemeron ==> Clearable(g.heap, x, true, c.bound)
  {
    hide Shape, FullyClosed, RootsIn, TouchedOk, GraysListed, ColorsOk, TwupsComplete, Progress;
    var saved := Saved(g.lists, g.gcstate, c);
    forall x | x in g.lists.ephemeron ensures Clearable(g.heap, x, true, c.bound) {
      assert Listed(g.lists, saved, x) > 0;
      assert StrongBut(g.heap, g.heap.body[x], c.bound, x in c.view.lost);
    }
  }

  lemma CutNothing(b: Body, b': Body)
    requires BodyEvolves(b, b', {})
    ensures b' == b || (b.Proto? && b' == b.(cache := Nil))
  {
    if b.Table? && Cut(b, b', {}) {
      assert b'.Table? && b'.slots == b.slots && b'.nodes == b.nodes;
    }
  }

  lemma UpValueEvolves(a: Global, b: Global, dead: set<Ref>, u: UpId)
    requires Evolves(a, b, dead)
    ensures UpValue(b.heap, u) == UpValue(a.heap, u)
  {
    hide Marked, Cut;
    if u in a.heap.ups {
      assert UpEvolves(a.heap.ups[u], b.heap.ups[u]);
      if a.heap.ups[u].Open? {
        var t := a.heap.ups[u].thread;
        if t in a.heap.body {
          assert BodyEvolves(a.heap.body[t], b.heap.body[t], dead);
          EvolvesThread(a.heap.body[t], b.heap.body[t], dead);
        }
      }
    }
  }

  lemma EvolvesThread(b: Body, b': Body, dead: set<Ref>)
    requires BodyEvolves(b, b', dead)
    ensures b.Thread? || b'.Thread? ==> b' == b
  {
  }

  /** Closure under strong references does not depend on caches and touched flags. */
  lemma KeepsBack(a: Global, b: Global, s: set<Ref>, stale: set<Ref>)
    requires Evolves(a, b, {}) && ClosedUnderKeeping(b.heap, s, stale)
    ensures ClosedUnderKeeping(a.heap, s, stale)
  {
    hide Marked, UpValue, BodyEvolves;
    forall u ensures UpValue(b.heap, u) == UpValue(a.heap, u) { UpValueEvolves(a, b, {}, u); }
    forall o | o in s && o !in stale ensures o in a.heap.body && KeepsIn(a.heap, a.heap.body[o], s) {
      CutNothing(a.heap.body[o], b.heap.body[o]);
    }
  }

  /** Turning the white bit over makes exactly the unmarked objects dead. */
  lemma Flip(g: Global, c: Ctx)
    requires Marking(g, c) && g.gcstate.InsideAtomic? && c.view.late && c.again == [] && c.busy == {} &&
             g.lists.gray == []
    requires FullyClosedBut(g.heap, Marked(g.color), c.view.lost) && RootsIn(g.roots, g.owned, Marked(g.color))
    requires forall o :: o in g.owned.finobj ==> o in Marked(g.color)
    ensures var g' := g.(currentwhite := !g.currentwhite);
      && FlippedBut(g', c.view.lost) && LiveSet(g'.color, g'.currentwhite) == Marked(g.color)
  {
    hide Shape, FullyClosed, FullyClosedBut, RootsIn, BoundOk, TouchedOk, WeakListsOk, ListsOk, Progress, GraysListed,
      Visited;
    AllVisited(g, c);
    var g' := g.(currentwhite := !g.currentwhite);
    assert LiveSet(g'.color, g'.currentwhite) == Marked(g.color);
    forall t | t in Marked(g.color) && IsThread(g.heap, t) && g.heap.body[t].openups != [] ensures t in g.twups {
      assert Visited(g.heap, g.lists, g.gcstate, g.twups, c.view, t, Marked(g.color));
      VisitedThread(g.heap, g.lists, g.gcstate, g.twups, c.view, t, Marked(g.color));
    }
  }

  /** At the end of the marking the state is safe exactly if every live table that lost sight of its metatable
      has it marked all the same. */
  lemma SafeAfterAll(g: Global, lost: set<Ref>)
    requires FlippedBut(g, lost)
    ensures var live := LiveSet(g.color, g.currentwhite);
      Flipped(g) <==> forall o :: o in live && o in lost && g.heap.body[o].Table? ==> In(g.heap.body[o].tmeta, live)
  {
    hide Shape, FixedOk, NeverBlack, TwupsLive, RootsIn, AllIn, NodesIn, LiveSet, UpvalsIn;
    var live := LiveSet(g.color, g.currentwhite);
    if forall o :: o in live && o in lost && g.heap.body[o].Table? ==> In(g.heap.body[o].tmeta, live) {
      forall o | o in live ensures o in g.heap.body && Full(g.heap, g.heap.body[o], live) {
        assert FullBut(g.heap, g.heap.body[o], live, o in lost);
      }
    }
    if Flipped(g) {
      forall o | o in live && o in lost && g.heap.body[o].Table? ensures In(g.heap.body[o].tmeta, live) {
        assert Full(g.heap, g.heap.body[o], live);
      }
    }
  }

  lemma VisitedThread(h: Heap, ls: GrayLists, p: Phase, twups: seq<Ref>, view: View, t: Ref, s: set<Ref>)
    requires Visited(h, ls, p, twups, view, t, s) && IsThread(h, t)
    ensures h.body[t].openups != [] ==> t in twups
  {
  }

  lemma RootsInAtomic(w: Owned, g: Global, moved: seq<Ref>)
    requires Splits(w, g.owned, moved) && FixedOk(g.color, g.heap, g.owned.fixedgc)
    requires g.roots.mainthread in Marked(g.color) && g.roots.running in Marked(g.color)
    requires In(g.roots.registry, Marked(g.color)) && AllIn(g.roots.mt, Marked(g.color))
    requires forall o :: o in g.owned.tobefnz ==> o in Marked(g.color)
    ensures RootsIn(g.roots, g.owned, Marked(g.color))
  {
  }

  lemma FixedHolds(g: Global, c: Ctx)
    requires Marking(g, c)
    ensures FixedOk(g.color, g.heap, g.owned.fixedgc)
  {
  }

  lemma EvolvesMore(a: Global, b: Global, dead: set<Ref>, dead': set<Ref>)
    requires Evolves(a, b, dead) && dead <= dead'
    ensures Evolves(a, b, dead')
  {
    hide Marked, Cut;
    forall o | o in a.heap.body ensures BodyEvolves(a.heap.body[o], b.heap.body[o], dead') {
      if Cut(a.heap.body[o], b.heap.body[o], dead) { CutMore(a.heap.body[o], b.heap.body[o], dead, dead'); }
    }
  }

  lemma KeptRoots(start: Global, g1: Global, g: Global)
    requires RootsMarked(start) && FixedOk(g.color, g.heap, g.owned.fixedgc)
    requires Marked(start.color) <= Marked(g1.color) <= Marked(g.color) && g.owned == start.owned &&
             g.roots == start.roots == g1.roots
    requires g1.roots.running in Marked(g1.color) && In(g1.roots.registry, Marked(g1.color)) &&
             AllIn(g1.roots.mt, Marked(g1.color))
    ensures RootsIn(g.roots, start.owned, Marked(g.color))
  {
  }

  lemma RootsGrow(r: Roots, w: Owned, s: set<Ref>, s': set<Ref>)
    requires RootsIn(r, w, s) && s <= s'
    ensures r.mainthread in s' && r.running in s' && In(r.registry, s') && AllIn(r.mt, s')
  {
  }

  lemma DroppableUnmarked(g: Global)
    requires g.color.Keys == g.heap.body.Keys
    ensures Droppable(g) <= g.color.Keys - Marked(g.color)
  {
  }

  lemma FinobjBound(g: Global, c: Ctx)
    requires Marking(g, c) && RootsIn(g.roots, g.owned, Marked(g.color))
    ensures forall o :: o in g.owned.tobefnz ==> o in c.bound
  {
    hide Shape, FullyClosed, TouchedOk, WeakListsOk, ListsOk, Progress, GraysListed, ColorsOk;
  }

  lemma SplitEvolves(g: Global, w': Owned, moved: seq<Ref>)
    requires g.color.Keys == g.heap.body.Keys && Splits(g.owned, w', moved)
    ensures Evolves(g, g.(owned := w'), {})
  {
    forall o | o in g.heap.body ensures BodyEvolves(g.heap.body[o], g.heap.body[o], {}) { CutRefl(g.heap.body[o], {}); }
  }

  lemma PropagatesSuffix(a: Global, b: Global)
    requires Propagates(a, b)
    ensures IsSuffix(a.lists.weak, b.lists.weak) && IsSuffix(a.lists.allweak, b.lists.allweak)
  {
  }
}
