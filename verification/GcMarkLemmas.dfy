/** How single colour and list changes act on the marking invariant. */
module GcMarkLemmas {
  import opened GcState

  /** Every table on a weak list of `ls` is on the same list of `ls'`. */
  ghost predicate KeepsWeak(ls: GrayLists, ls': GrayLists)
  {
    && (forall o :: o in ls.weak ==> o in ls'.weak)
    && (forall o :: o in ls.ephemeron ==> o in ls'.ephemeron)
    && (forall o :: o in ls.allweak ==> o in ls'.allweak)
  }

  lemma VisitedGrows(h: Heap, ls: GrayLists, ls': GrayLists, p: Phase, twups: seq<Ref>, view: View,
                     o: Ref, s: set<Ref>, s': set<Ref>)
    requires Visited(h, ls, p, twups, view, o, s) && s <= s' && KeepsWeak(ls, ls')
    ensures Visited(h, ls', p, twups, view, o, s')
  {
    match h.body[o]
    case LClosure(q, us) =>
      forall u | u in us ensures UpVisited(h, p, view.late, u, s') {
        assert UpVisited(h, p, view.late, u, s);
      }
    case Table(_, m, slots, nodes) =>
    case _ =>
  }

  lemma ProgressGrows(s: set<Ref>, s': set<Ref>, h: Heap, ls: GrayLists, ls': GrayLists, p: Phase, twups: seq<Ref>,
                      saved: seq<Ref>, saved': seq<Ref>, view: View, busy: set<Ref>, busy': set<Ref>)
    requires Progress(s, h, ls, p, twups, saved, view, busy) && s <= s' && s' - s <= busy' && busy <= busy'
    requires KeepsWeak(ls, ls')
    requires forall o :: Pending(ls, saved, o) && o !in busy' ==> Pending(ls', saved', o)
    ensures Progress(s', h, ls', p, twups, saved', view, busy')
  {
    hide Visited, Pending, KeepsWeak;
    forall x | x in s' && x !in busy'
      ensures Pending(ls', saved', x) || Visited(h, ls', p, twups, view, x, s')
    {
      if !Pending(ls, saved, x) { VisitedGrows(h, ls, ls', p, twups, view, x, s, s'); }
    }
  }

  /** `white2gray` on an object about to be visited. */
  lemma MarkOne(g: Global, c: Ctx, o: Ref, g': Global, c': Ctx)
    requires Marking(g, c) && o in g.color && g.color[o].White? && o in c.bound
    requires g' == g.(color := g.color[o := Gray]) && c' == c.(busy := c.busy + {o})
    ensures Marking(g', c') && Listed(g.lists, Saved(g.lists, g.gcstate, c), o) == 0
    ensures Marked(g'.color) == Marked(g.color) + {o} && Whites(g'.color) == Whites(g.color) - {o}
    ensures c == c'.(busy := c'.busy - {o})
  {
    hide TouchedOk, Shape, FullyClosed, WeakListsOk, Progress, RootsIn, StronglyClosed, Listed, TwupsComplete;
    assert Marked(g'.color) == Marked(g.color) + {o};
    assert g'.color.Keys == g.color.Keys;
    assert c.busy == c'.busy - {o};
    var saved := Saved(g.lists, g.gcstate, c);
    ProgressGrows(Marked(g.color), Marked(g'.color), g.heap, g.lists, g.lists, g.gcstate, g.twups,
                  saved, saved, c.view, c.busy, c'.busy);
  }

  /** `gray2black` or `black2gray` on the object being visited. */
  lemma Recolour(g: Global, c: Ctx, o: Ref, k: Color, g': Global)
    requires Marking(g, c) && o in c.busy && o in Marked(g.color) && !k.White?
    requires Listed(g.lists, Saved(g.lists, g.gcstate, c), o) == 0 && o !in g.owned.fixedgc
    requires g' == g.(color := g.color[o := k])
    ensures Marking(g', c) && Marked(g'.color) == Marked(g.color) && Whites(g'.color) == Whites(g.color)
  {
    hide TouchedOk, Shape, FullyClosed, WeakListsOk, Progress, RootsIn, StronglyClosed, Listed, TwupsComplete;
    assert Marked(g'.color) == Marked(g.color);
    assert g'.color.Keys == g.color.Keys;
  }

  /** The object being visited needs no more attention. */
  lemma Settle(g: Global, c: Ctx, o: Ref, c': Ctx)
    requires Marking(g, c) && o in g.color && c' == c.(busy := c.busy - {o})
    requires var saved := Saved(g.lists, g.gcstate, c);
      || Pending(g.lists, saved, o)
      || (&& Visited(g.heap, g.lists, g.gcstate, g.twups, c.view, o, Marked(g.color))
          && (!c.stopped ==> g.color[o] != Gray || o in g.lists.allweak || o in g.owned.fixedgc))
    requires IsThread(g.heap, o) ==> g.color[o] != Black
    ensures Marking(g, c')
  {
    hide TouchedOk, Shape, FullyClosed, WeakListsOk, RootsIn, StronglyClosed, Listed, TwupsComplete, ListsOk, Visited,
      FixedOk;
  }

  lemma LinkCounts(ls: GrayLists, saved: seq<Ref>, saved': seq<Ref>, to: GrayList, o: Ref, x: Ref)
    requires Listed(ls, saved, o) == 0
    requires saved' == saved || (to.InGrayAgain? && saved' == [o] + saved)
    ensures var n := Listed(Link(ls, to, o), saved', x);
      n == Listed(ls, saved, x) || (x == o && n == 1)
  {
  }

  /** `linkgclist` on the object being visited. */
  lemma LinkOne(g: Global, c: Ctx, o: Ref, to: GrayList, g': Global)
    requires Marking(g, c) && o in c.busy && o in g.color && g.color[o] == Gray
    requires o in g.heap.body && IsGrayable(g.heap.body[o])
    requires Listed(g.lists, Saved(g.lists, g.gcstate, c), o) == 0
    requires to.InWeak? || to.InEphemeron? || to.InAllWeak? ==> g.heap.body[o].Table?
    requires to.InWeak? || to.InEphemeron? ==> c.stopped
    requires to.InWeak? || to.InAllWeak? ==> StringsIn(g.heap, g.heap.body[o].slots, g.heap.body[o].nodes, c.bound)
    requires (to.InEphemeron? ==> g.heap.body[o].mode.WeakKeys?) && (to.InWeak? ==> g.heap.body[o].mode.WeakValues?)
    requires g' == g.(lists := Link(g.lists, to, o))
    ensures Marking(g', c)
    ensures to.InGray? || (to.InGrayAgain? && KeepInvariant(g.gcstate)) ==>
      Pending(g'.lists, Saved(g'.lists, g'.gcstate, c), o)
  {
    hide TouchedOk, Shape, FullyClosed, RootsIn, BoundOk, ColorsOk, TwupsComplete, Progress, Listed, StringsIn,
      StringKeysIn, IsGrayable;
    var saved, saved' := Saved(g.lists, g.gcstate, c), Saved(g'.lists, g'.gcstate, c);
    assert KeepsWeak(g.lists, g'.lists);
    ProgressGrows(Marked(g.color), Marked(g.color), g.heap, g.lists, g'.lists, g.gcstate, g.twups,
                  saved, saved', c.view, c.busy, c.busy);
    forall x ensures Listed(g'.lists, saved', x) == Listed(g.lists, saved, x) ||
      (x == o && Listed(g'.lists, saved', x) == 1) {
      LinkCounts(g.lists, saved, saved', to, o, x);
    }
  }

  lemma PopCounts(ls: GrayLists, saved: seq<Ref>, x: Ref)
    requires ls.gray != []
    ensures Listed(ls.(gray := ls.gray[1..]), saved, x) == Listed(ls, saved, x) - (if x == ls.gray[0] then 1 else 0)
    ensures Listed(ls, saved, ls.gray[0]) > 0
  {
    assert ls.gray == [ls.gray[0]] + ls.gray[1..];
  }

  /** Taking the first gray object off its list in order to visit it. */
  lemma PopGray(g: Global, c: Ctx, g': Global, c': Ctx)
    requires Marking(g, c) && g.lists.gray != []
    requires g' == g.(lists := g.lists.(gray := g.lists.gray[1..])) && c' == c.(busy := c.busy + {g.lists.gray[0]})
    ensures Marking(g', c')
    ensures var o := g.lists.gray[0];
      && o in g.heap.body && IsGrayable(g.heap.body[o]) && o in g.color && g.color[o] == Gray && o !in g.owned.fixedgc
      && Listed(g'.lists, Saved(g'.lists, g'.gcstate, c'), o) == 0
  {
    hide TouchedOk, Shape, FullyClosed, RootsIn, BoundOk, TwupsComplete, Progress, WeakListsOk, Listed;
    var o := g.lists.gray[0];
    var saved := Saved(g.lists, g.gcstate, c);
    forall x ensures Listed(g'.lists, saved, x) == Listed(g.lists, saved, x) - (if x == o then 1 else 0) {
      PopCounts(g.lists, saved, x);
    }
    PopCounts(g.lists, saved, o);
    ProgressGrows(Marked(g.color), Marked(g.color), g.heap, g.lists, g'.lists, g.gcstate, g.twups,
                  saved, saved, c.view, c.busy, c'.busy);
  }

  // ----- changes to the heap while marking -----

  /** Traversal drops prototype caches and touches open upvalues, and changes no other body. */
  ghost predicate HeapStep(h: Heap, h': Heap)
  {
    && h'.body.Keys == h.body.Keys
    && (forall o :: o in h.body ==>
          h'.body[o] == h.body[o] || (h.body[o].Proto? && h'.body[o] == h.body[o].(cache := Nil)))
    && h'.ups.Keys == h.ups.Keys
    && (forall u :: u in h.ups ==>
          h'.ups[u] == h.ups[u] || (h.ups[u].Open? && h'.ups[u] == h.ups[u].(touched := true)))
  }

  lemma UpValueKept(h: Heap, h': Heap, u: UpId)
    requires HeapStep(h, h')
    ensures UpValue(h', u) == UpValue(h, u)
  {
  }

  lemma FullKept(h: Heap, h': Heap, o: Ref, s: set<Ref>)
    requires HeapStep(h, h') && o in h.body && Full(h, h.body[o], s)
    ensures Full(h', h'.body[o], s)
  {
    hide UpValue;
    if h.body[o].LClosure? {
      forall u | u in h.body[o].upvals ensures In(UpValue(h', u), s) {
        UpValueKept(h, h', u);
        assert In(UpValue(h, u), s);
      }
    }
  }

  lemma StringsKept(h: Heap, h': Heap, b: Body, s: set<Ref>)
    requires HeapStep(h, h') && b.Table?
    ensures StringKeysIn(h, b.nodes, s) ==> StringKeysIn(h', b.nodes, s)
    ensures StringsIn(h, b.slots, b.nodes, s) ==> StringsIn(h', b.slots, b.nodes, s)
  {
  }

  lemma StrongKept(h: Heap, h': Heap, o: Ref, s: set<Ref>, excused: bool)
    requires HeapStep(h, h') && o in h.body && StrongBut(h, h.body[o], s, excused)
    ensures StrongBut(h', h'.body[o], s, excused)
  {
    hide StringKeysIn, StringsIn, Ephemeral, KeysIn, NodesIn, UpvalsIn, UpValue;
    match h.body[o]
    case Table(_, _, _, _) => StringsKept(h, h', h.body[o], s);
    case LClosure(_, _) => FullKept(h, h', o, s);
    case _ =>
  }

  lemma VisitedKept(h: Heap, h': Heap, ls: GrayLists, p: Phase, twups: seq<Ref>, view: View, o: Ref, s: set<Ref>)
    requires HeapStep(h, h') && Visited(h, ls, p, twups, view, o, s)
    ensures Visited(h', ls, p, twups, view, o, s)
  {
    hide UpValue;
    match h.body[o]
    case LClosure(q, us) =>
      forall u | u in us ensures UpVisited(h', p, view.late, u, s) {
        assert UpVisited(h, p, view.late, u, s);
        UpValueKept(h, h', u);
      }
    case _ =>
  }

  lemma ShapeKept(heap: set<Ref>, h: Heap, h': Heap, w: Owned, r: Roots, twups: seq<Ref>)
    requires HeapStep(h, h') && Shape(heap, h, w, r, twups)
    ensures Shape(heap, h', w, r, twups)
    ensures TwupsComplete(h, twups) ==> TwupsComplete(h', twups)
  {
    hide OwnedOk;
  }

  lemma WeakListsKept(h: Heap, h': Heap, ls: GrayLists, bound: set<Ref>)
    requires HeapStep(h, h') && WeakListsOk(h, ls.weak, ls.ephemeron, ls.allweak, bound)
    ensures WeakListsOk(h', ls.weak, ls.ephemeron, ls.allweak, bound)
  {
    hide StringsIn;
    forall o | o in ls.weak || o in ls.allweak
      ensures o in h'.body && h'.body[o].Table? && StringsIn(h', h'.body[o].slots, h'.body[o].nodes, bound)
    {
      StringsKept(h, h', h.body[o], bound);
    }
  }

  lemma MarkingHeapStep(g: Global, c: Ctx, g': Global)
    requires Marking(g, c) && HeapStep(g.heap, g'.heap) && g' == g.(heap := g'.heap) && TouchedOk(g'.heap, c.bound)
    ensures Marking(g', c)
  {
    hide TouchedOk, Shape, TwupsComplete, Full, StrongBut, Visited, Listed, WeakListsOk, RootsIn, Pending, GraysListed;
    var h, h' := g.heap, g'.heap;
    ShapeKept(g.color.Keys, h, h', g.owned, g.roots, g.twups);
    WeakListsKept(h, h', g.lists, c.bound);
    forall o | o in g.color ensures o in h'.body && Full(h', h'.body[o], g.color.Keys) {
      FullKept(h, h', o, g.color.Keys);
    }
    forall o | o in c.bound && o in h'.body ensures StrongBut(h', h'.body[o], c.bound, o in c.view.lost) {
      StrongKept(h, h', o, c.bound, o in c.view.lost);
    }
    var s, saved := Marked(g.color), Saved(g.lists, g.gcstate, c);
    forall o | o in s && o !in c.busy && !Pending(g.lists, saved, o)
      ensures Visited(h', g.lists, g.gcstate, g.twups, c.view, o, s)
    {
      VisitedKept(h, h', g.lists, g.gcstate, g.twups, c.view, o, s);
    }
  }

  lemma TouchedKept(h: Heap, h': Heap, bound: set<Ref>, u: UpId)
    requires HeapStep(h, h') && TouchedOk(h, bound)
    requires forall x :: x in h.ups && x != u ==> h'.ups[x] == h.ups[x]
    requires u in h.ups ==> h'.ups[u] == h.ups[u] || In(UpValue(h, u), bound)
    ensures TouchedOk(h', bound)
  {
    hide UpValue;
    forall x | x in h'.ups && h'.ups[x].Open? && h'.ups[x].touched ensures In(UpValue(h', x), bound) {
      UpValueKept(h, h', x);
    }
  }

  lemma TouchedHolds(g: Global, c: Ctx)
    requires Marking(g, c)
    ensures TouchedOk(g.heap, c.bound)
  {
  }

  /** A thread goes (back) on the list of threads with open upvalues. */
  lemma MarkingTwups(g: Global, c: Ctx, t: Ref, g': Global)
    requires Marking(g, c) && IsThread(g.heap, t) && t in Marked(g.color) && g' == g.(twups := [t] + g.twups)
    ensures Marking(g', c)
  {
    hide OwnedOk, UpsOk, FullyClosed, RootsIn, BoundOk, WeakListsOk, ListsOk, GraysListed, ColorsOk, UpVisited,
      TableVisited;
    var s, saved := Marked(g.color), Saved(g.lists, g.gcstate, c);
    forall o | o in s && o !in c.busy && !Pending(g.lists, saved, o)
      ensures Visited(g.heap, g.lists, g.gcstate, g'.twups, c.view, o, s)
    {
      assert Visited(g.heap, g.lists, g.gcstate, g.twups, c.view, o, s);
    }
  }

  // ----- what marking does to a state -----

  /** What marking does to a state: white objects become gray or black, new grays go in front of
      `gray`, and nothing else changes. */
  ghost predicate Marks(g: Global, g': Global)
  {
    && g' == g.(color := g'.color, lists := g.lists.(gray := g'.lists.gray))
    && g'.color.Keys == g.color.Keys
    && (forall o :: o in Marked(g.color) ==> g'.color[o] == g.color[o])
    && (forall o :: o in Marked(g.color) ==> multiset(g'.lists.gray)[o] == multiset(g.lists.gray)[o])
    && Whites(g'.color) <= Whites(g.color)
    && |Whites(g'.color)| + |g'.lists.gray| <= |Whites(g.color)| + |g.lists.gray|
  }

  lemma MarksRefl(a: Global)
    ensures Marks(a, a)
  {
  }

  lemma MarksFrame(a: Global, b: Global)
    requires Marks(a, b)
    ensures b == a.(color := b.color, lists := a.lists.(gray := b.lists.gray)) && b.color.Keys == a.color.Keys
    ensures Marked(a.color) <= Marked(b.color) && Whites(b.color) <= Whites(a.color)
    ensures forall o :: o in Marked(a.color) ==> b.color[o] == a.color[o]
  {
  }

  lemma MarksCompose(a: Global, b: Global, c: Global)
    requires Marks(a, b) && Marks(b, c)
    ensures Marks(a, c) && Marked(a.color) <= Marked(b.color)
  {
    hide Whites;
    assert Marked(a.color) <= Marked(b.color);
  }

  /** Giving a white object its colour, and then a place on `gray` if it is to be visited. */
  lemma MarksOne(a: Global, o: Ref, k: Color, b: Global)
    requires o in a.color && a.color[o].White? && !k.White?
    requires || b == a.(color := a.color[o := k])
             || b == a.(color := a.color[o := k], lists := Link(a.lists, InGray, o))
    ensures Marks(a, b) && o in Marked(b.color) && Whites(b.color) == Whites(a.color) - {o} && o in Whites(a.color)
  {
    assert Whites(b.color) == Whites(a.color) - {o};
  }

  /** A newly marked object may still turn from gray to black. */
  lemma MarksThenRecolour(a: Global, b: Global, o: Ref, k: Color, b': Global)
    requires Marks(a, b) && o in a.color && a.color[o].White? && o in Marked(b.color) && !k.White?
    requires b' == b.(color := b.color[o := k])
    ensures Marks(a, b') && Whites(b'.color) == Whites(b.color) && Marked(b'.color) == Marked(b.color)
  {
    assert Whites(b'.color) == Whites(b.color);
  }

  /** An object that was marked and unlisted stays unlisted while others are marked. */
  lemma MarksKeepUnlisted(a: Global, b: Global, c: Ctx, o: Ref)
    requires Marks(a, b) && o in Marked(a.color)
    ensures Listed(b.lists, Saved(b.lists, b.gcstate, c), o) == Listed(a.lists, Saved(a.lists, a.gcstate, c), o)
    ensures Marked(a.color) <= Marked(b.color)
  {
  }

  /** The references of a marked userdatum may be marked too. */
  lemma UdataBound(g: Global, c: Ctx, o: Ref)
    requires Marking(g, c) && o in c.bound && o in g.heap.body && g.heap.body[o].Udata?
    ensures In(g.heap.body[o].meta, c.bound) && In(g.heap.body[o].user, c.bound)
    ensures g.color.Keys == g.heap.body.Keys
  {
    assert StrongBut(g.heap, g.heap.body[o], c.bound, o in c.view.lost);
  }

  lemma ClosedAnyway(h: Heap, s: set<Ref>)
    requires StronglyClosed(h, s)
    ensures forall lost :: ClosedBut(h, s, lost)
  {
    hide Full;
    forall lost ensures ClosedBut(h, s, lost) {
      forall o | o in s && o in h.body ensures StrongBut(h, h.body[o], s, o in lost) {
        assert StrongIn(h, h.body[o], s);
      }
    }
  }

  lemma BoundInHeap(g: Global, c: Ctx)
    requires Marking(g, c)
    ensures g.color.Keys == g.heap.body.Keys && Marked(g.color) <= c.bound <= g.color.Keys
  {
  }

  lemma FixedAreStrings(g: Global, c: Ctx, o: Ref)
    requires Marking(g, c) && o in g.owned.fixedgc
    ensures o in g.color && g.color[o] == Gray && o in g.heap.body && g.heap.body[o].Str?
  {
  }

  /** Strings, and userdata whose two values are marked, need no further visit. */
  lemma LeafVisited(g: Global, c: Ctx, o: Ref)
    requires o in g.heap.body
    requires g.heap.body[o].Str? ||
      (g.heap.body[o].Udata? && In(g.heap.body[o].meta, Marked(g.color)) && In(g.heap.body[o].user, Marked(g.color)))
    ensures Visited(g.heap, g.lists, g.gcstate, g.twups, c.view, o, Marked(g.color))
  {
  }

  /** The object being visited: marked, off every gray list, and not a fixed string. */
  ghost predicate Visiting(g: Global, c: Ctx, o: Ref)
  {
    && Marking(g, c) && o in c.busy && o in g.heap.body && o in Marked(g.color) && o !in g.owned.fixedgc
    && Listed(g.lists, Saved(g.lists, g.gcstate, c), o) == 0
    && CanTraverse(g, c)
  }

  /** Gray objects are visited in the propagate phase, and once the program is stopped; inside `atomic`
      only after open upvalues were remarked. */
  ghost predicate CanTraverse(g: Global, c: Ctx)
  {
    (g.gcstate.Propagate? || c.stopped) && (g.gcstate.InsideAtomic? ==> c.view.late)
  }

  /** A visit is over: the object is listed for another one, or its references are marked. */
  ghost predicate Ready(g: Global, c: Ctx, o: Ref)
  {
    && o in g.color
    && (|| Pending(g.lists, Saved(g.lists, g.gcstate, c), o)
        || (&& Visited(g.heap, g.lists, g.gcstate, g.twups, c.view, o, Marked(g.color))
            && (!c.stopped ==> g.color[o] != Gray || o in g.lists.allweak)))
    && (IsThread(g.heap, o) ==> g.color[o] != Black)
  }

  ghost predicate IsSuffix(s: seq<Ref>, t: seq<Ref>) { |s| <= |t| && t[|t| - |s|..] == s }

  /** What the traversal functions do to a state: mark objects, lengthen the gray lists, drop
      prototype caches, touch upvalues, and put threads on `twups`. */
  ghost predicate Propagates(a: Global, b: Global)
  {
    && b == a.(color := b.color, heap := b.heap, lists := b.lists, twups := b.twups)
    && b.color.Keys == a.color.Keys
    && Marked(a.color) <= Marked(b.color)
    && HeapStep(a.heap, b.heap)
    && IsSuffix(a.lists.weak, b.lists.weak)
    && IsSuffix(a.lists.allweak, b.lists.allweak)
  }

  /** Work left: objects not yet marked and objects waiting on `gray`. */
  ghost function Work(g: Global): nat { |Whites(g.color)| + |g.lists.gray| }

  lemma PropagatesCompose(a: Global, b: Global, c: Global)
    requires Propagates(a, b) && Propagates(b, c)
    ensures Propagates(a, c)
  {
    hide Marked;
  }

  lemma MarksPropagate(a: Global, b: Global)
    requires Marks(a, b)
    ensures Propagates(a, b) && Work(b) <= Work(a)
  {
    hide Whites;
  }

  lemma HeapStepPropagates(a: Global, b: Global)
    requires b == a.(heap := b.heap) && HeapStep(a.heap, b.heap)
    ensures Propagates(a, b) && Work(b) <= Work(a)
  {
  }

  lemma PropagatesFrame(a: Global, b: Global)
    requires Propagates(a, b)
    ensures HeapStep(a.heap, b.heap) && Marked(a.color) <= Marked(b.color)
    ensures b == a.(color := b.color, heap := b.heap, lists := b.lists, twups := b.twups)
  {
  }

  lemma KeepNotLate(g: Global, c: Ctx)
    requires Marking(g, c) && !g.gcstate.InsideAtomic?
    ensures !c.view.late
  {
  }

  lemma UpValueClosed(h: Heap, u: UpId)
    requires u in h.ups && h.ups[u].Closed?
    ensures UpValue(h, u) == h.ups[u].value
  {
  }

  lemma UpVisitedKept(h: Heap, h': Heap, p: Phase, late: bool, u: UpId, s: set<Ref>, s': set<Ref>)
    requires HeapStep(h, h') && s <= s' && UpVisited(h, p, late, u, s)
    ensures UpVisited(h', p, late, u, s')
  {
    hide UpValue;
    UpValueKept(h, h', u);
  }

  /** The upvalues of a closure being visited exist, and what they show may be marked. */
  lemma ClosureBound(g: Global, c: Ctx, o: Ref)
    requires Visiting(g, c, o) && g.heap.body[o].LClosure?
    ensures In(g.heap.body[o].proto, c.bound)
    ensures forall u :: u in g.heap.body[o].upvals ==> u in g.heap.ups && In(UpValue(g.heap, u), c.bound)
  {
    hide UpValue, Listed, OwnedOk, ThreadsOk, OpenOk;
    assert StrongBut(g.heap, g.heap.body[o], c.bound, o in c.view.lost);
  }

  ghost predicate OnlyStrings(h: Heap, s: set<Ref>) { forall o :: o in s ==> o in h.body && h.body[o].Str? }

  /** The strings held by a weak table may be marked. */
  lemma StringsHeld(g: Global, c: Ctx, o: Ref)
    requires Visiting(g, c, o) && g.heap.body[o].Table?
    ensures g.heap.body[o].mode.WeakKeys? ==> StringKeysIn(g.heap, g.heap.body[o].nodes, c.bound)
    ensures g.heap.body[o].mode.WeakValues? || g.heap.body[o].mode.AllWeak? ==>
      StringsIn(g.heap, g.heap.body[o].slots, g.heap.body[o].nodes, c.bound)
  {
    hide Marking;
    VisitingBound(g, c, o);
  }

  /** Linking the object being visited onto one of the lists. */
  lemma LinkVisiting(g: Global, c: Ctx, o: Ref, to: GrayList)
    requires Visiting(g, c, o) && g.color[o] == Gray && IsGrayable(g.heap.body[o])
    requires to.InWeak? || to.InEphemeron? || to.InAllWeak? ==> g.heap.body[o].Table?
    requires to.InWeak? || to.InEphemeron? ==> c.stopped
    requires to.InWeak? || to.InAllWeak? ==> StringsIn(g.heap, g.heap.body[o].slots, g.heap.body[o].nodes, c.bound)
    requires (to.InEphemeron? ==> g.heap.body[o].mode.WeakKeys?) && (to.InWeak? ==> g.heap.body[o].mode.WeakValues?)
    ensures var g' := g.(lists := Link(g.lists, to, o));
      && Marking(g', c) && (to != InGray ==> Propagates(g, g') && Work(g') == Work(g))
      && (to.InGrayAgain? && KeepInvariant(g.gcstate) ==> Pending(g'.lists, Saved(g'.lists, g'.gcstate, c), o))
      && (to.InGrayAgain? ==> o in g'.lists.grayagain)
      && (to.InWeak? ==> o in g'.lists.weak) && (to.InEphemeron? ==> o in g'.lists.ephemeron)
      && (to.InAllWeak? ==> o in g'.lists.allweak)
  {
    hide Marking, Listed, Pending, IsGrayable;
    LinkOne(g, c, o, to, g.(lists := Link(g.lists, to, o)));
  }

  lemma StringsHeldAt(h: Heap, slots: seq<Value>, nodes: seq<Entry>, i: nat, s: set<Ref>)
    requires StringsIn(h, slots, nodes, s) && i < |nodes| && nodes[i].val != Nil
    ensures StrIn(h, nodes[i].key, s) && StrIn(h, nodes[i].val, s)
  {
  }

  /** What a round of the ephemeron loop that marks nothing establishes for one of its tables. */
  ghost predicate Converged(h: Heap, o: Ref, s: set<Ref>)
  {
    o in h.body && h.body[o].Table? && Ephemeral(h.body[o].nodes, s) && StringKeysIn(h, h.body[o].nodes, s)
  }

  /** An ephemeron table all of whose values are marked may go on `allweak`. */
  lemma ValuesMarked(g: Global, c: Ctx, o: Ref)
    requires Visiting(g, c, o) && g.heap.body[o].Table? && g.heap.body[o].mode.WeakKeys?
    requires AllIn(g.heap.body[o].slots, Marked(g.color))
    requires ValsIn(g.heap.body[o].nodes, Marked(g.color))
    ensures StringsIn(g.heap, g.heap.body[o].slots, g.heap.body[o].nodes, c.bound)
  {
    hide Visiting;
    StringsHeld(g, c, o);
    VisitingBound(g, c, o);
  }

  lemma AllInGrows(vs: seq<Value>, s: set<Ref>, s': set<Ref>)
    requires AllIn(vs, s) && s <= s'
    ensures AllIn(vs, s')
  {
  }

  lemma NodesInPrefix(nodes: seq<Entry>, n: nat, s: set<Ref>, h: Heap)
    requires n == 0
    ensures Ephemeral(nodes[..n], s) && StringKeysIn(h, nodes[..n], s) && NodesIn(nodes[..n], s) &&
            ValsIn(nodes[..n], s)
  {
  }

  lemma EntryBound(h: Heap, nodes: seq<Entry>, i: nat, heap: set<Ref>, s: set<Ref>)
    requires i < |nodes| && nodes[i].val != Nil
    requires NodesIn(nodes, heap) && Ephemeral(nodes, s) && StringKeysIn(h, nodes, s)
    ensures EntryIn(nodes[i], heap) && StrIn(h, nodes[i].key, s) && (In(nodes[i].key, s) ==> In(nodes[i].val, s))
  {
  }

  lemma NotNew(h: Heap, v: Value, s: set<Ref>, s': set<Ref>)
    requires In(v, s') && StrIn(h, v, s) && OnlyStrings(h, s' - s)
    ensures In(v, s)
  {
    assert v.Coll? ==> v.ref in s' - s || v.ref in s;
  }

  /** One more entry of an ephemeron table visited. */
  lemma EntryVisited(h: Heap, nodes: seq<Entry>, i: nat, s: set<Ref>, s': set<Ref>)
    requires i < |nodes| && s <= s'
    ensures NodesIn(nodes[..i], s) && EntryIn(nodes[i], s') ==> NodesIn(nodes[..i + 1], s')
    ensures ValsIn(nodes[..i], s) && In(nodes[i].val, s') ==> ValsIn(nodes[..i + 1], s')
    ensures StringKeysIn(h, nodes[..i], s) && (nodes[i].val != Nil ==> StrIn(h, nodes[i].key, s')) ==>
      StringKeysIn(h, nodes[..i + 1], s')
    ensures
      && Ephemeral(nodes[..i], s) && StringKeysIn(h, nodes[..i], s) && OnlyStrings(h, s' - s)
      && (nodes[i].val != Nil && In(nodes[i].key, s') ==> In(nodes[i].val, s'))
      ==> Ephemeral(nodes[..i + 1], s')
  {
    assert nodes[..i + 1] == nodes[..i] + [nodes[i]];
    if Ephemeral(nodes[..i], s) && StringKeysIn(h, nodes[..i], s) && OnlyStrings(h, s' - s) {
      forall e | e in nodes[..i] && e.val != Nil && In(e.key, s') ensures In(e.val, s') {
        assert StrIn(h, e.key, s);
        NotNew(h, e.key, s, s');
      }
    }
  }

  /** `black2gray` on the object being visited. */
  lemma RecolourVisiting(g: Global, c: Ctx, o: Ref, k: Color)
    requires Visiting(g, c, o) && !k.White?
    ensures var g' := g.(color := g.color[o := k]);
      Visiting(g', c, o) && Propagates(g, g') && Work(g') == Work(g)
  {
    hide Marking, Listed;
    Recolour(g, c, o, k, g.(color := g.color[o := k]));
  }

  lemma PropagatesRefl(a: Global)
    ensures Propagates(a, a)
  {
  }

  lemma ThreadReady(g: Global, c: Ctx, o: Ref)
    requires Marking(g, c) && IsThread(g.heap, o) && o in g.color && g.color[o] == Gray && c.view.late
    requires AllIn(g.heap.body[o].stack, Marked(g.color))
    requires g.heap.body[o].openups != [] ==> o in g.twups
    ensures Ready(g, c, o)
  {
    hide TouchedOk, Shape, FullyClosed, BoundOk, WeakListsOk, ListsOk, Progress, GraysListed, RootsIn, ColorsOk;
  }

  lemma TwupsPropagate(a: Global, b: Global, c: Ctx, t: Ref)
    requires Marking(a, c) && IsThread(a.heap, t) && t in Marked(a.color) && b == a.(twups := [t] + a.twups)
    ensures Marking(b, c) && Propagates(a, b) && Work(b) == Work(a)
  {
    hide Marking;
    MarkingTwups(a, c, t, b);
  }

  lemma PendingKept(a: Global, b: Global, c: Ctx, o: Ref)
    requires Marks(a, b) && o in a.color && a.color[o] == Gray && !a.gcstate.InsideAtomic?
    requires o in a.lists.grayagain
    ensures Ready(b, c, o)
  {
  }

  /** Taking the first gray object off its list starts its visit. */
  lemma PopVisiting(g: Global, c: Ctx, g': Global, c': Ctx)
    requires Marking(g, c) && g.lists.gray != [] && CanTraverse(g, c) && c.busy == {}
    requires g' == g.(lists := g.lists.(gray := g.lists.gray[1..])) && c' == c.(busy := c.busy + {g.lists.gray[0]})
    ensures Visiting(g', c', g.lists.gray[0]) && IsGrayable(g'.heap.body[g.lists.gray[0]])
    ensures Propagates(g, g') && Work(g') < Work(g)
    ensures c'.(busy := c'.busy - {g.lists.gray[0]}) == c
  {
    hide Marking, Listed;
    PopGray(g, c, g', c');
  }

  lemma VisitingKept(a: Global, b: Global, c: Ctx, o: Ref)
    requires Visiting(a, c, o) && Marks(a, b) && Marking(b, c)
    ensures Visiting(b, c, o) && b.color[o] == a.color[o] && b.heap == a.heap
  {
    hide Marking;
    MarksKeepUnlisted(a, b, c, o);
  }

  /** What may be marked from an object being visited. */
  lemma VisitingBound(g: Global, c: Ctx, o: Ref)
    requires Visiting(g, c, o)
    ensures StrongIn(g.heap, g.heap.body[o], c.bound)
    ensures g.color.Keys == g.heap.body.Keys && Full(g.heap, g.heap.body[o], g.color.Keys)
    ensures Marked(g.color) <= c.bound <= g.color.Keys
  {
    hide StrongBut, Full;
  }
}
