/** What the program's own writes do to the collector's invariant. */
module GcWriteLemmas {
  import opened GcState
  import opened GcMarkLemmas
  import opened GcSweepLemmas
  import opened GcCycleLemmas

  function WithBody(g: Global, p: Ref, b: Body): Global
  {
    g.(heap := g.heap.(body := g.heap.body[p := b]))
  }

  /** `b'` may replace `b`: it is an object of the same kind, with the same upvalues. */
  ghost predicate Compatible(b: Body, b': Body)
  {
    match b
    case Udata(_, _) => b'.Udata?
    case LClosure(_, us) => b'.LClosure? && b'.upvals == us
    case CClosure(_) => b'.CClosure?
    case Table(_, _, _, _) => b'.Table?
    case Thread(st, us) => b'.Thread? && b'.openups == us && |b'.stack| == |st|
    case Proto(_, _) => b'.Proto?
    case Str => b'.Str?
  }

  lemma WriteUpsOk(h: Heap, p: Ref, b: Body)
    requires UpsOk(h) && p in h.body && Compatible(h.body[p], b)
    ensures UpsOk(h.(body := h.body[p := b]))
  {
    var h' := h.(body := h.body[p := b]);
    forall u | u in h'.ups && h'.ups[u].Open? ensures OpenOk(h', u, h'.ups[u].thread, h'.ups[u].level) {
      assert OpenOk(h, u, h.ups[u].thread, h.ups[u].level);
    }
    forall t, u | IsThread(h', t) && u in h'.body[t].openups
      ensures u in h'.ups && h'.ups[u].Open? && h'.ups[u].thread == t
    {
      assert IsThread(h, t) && u in h.body[t].openups;
    }
  }

  /** Upvalues show what they showed, or a value now on the stack that was written. */
  lemma WriteUpValue(h: Heap, p: Ref, b: Body, u: UpId, s: set<Ref>)
    requires p in h.body && Compatible(h.body[p], b) && In(UpValue(h, u), s)
    requires b.Thread? ==> AllIn(b.stack, s)
    ensures In(UpValue(h.(body := h.body[p := b]), u), s)
  {
  }

  lemma WriteFull(h: Heap, p: Ref, b: Body, o: Ref, s: set<Ref>)
    requires p in h.body && Compatible(h.body[p], b) && o in h.body && o != p && Full(h, h.body[o], s)
    requires b.Thread? ==> AllIn(b.stack, s)
    ensures Full(h.(body := h.body[p := b]), h.body[o], s)
  {
    hide UpValue;
    if h.body[o].LClosure? {
      var h' := h.(body := h.body[p := b]);
      forall u | u in h.body[o].upvals ensures In(UpValue(h', u), s) {
        assert In(UpValue(h, u), s);
        WriteUpValue(h, p, b, u, s);
      }
    }
  }

  lemma WriteClosed(h: Heap, p: Ref, b: Body, s: set<Ref>)
    requires p in h.body && Compatible(h.body[p], b) && FullyClosed(h, s)
    requires Full(h.(body := h.body[p := b]), b, s)
    ensures FullyClosed(h.(body := h.body[p := b]), s)
  {
    hide Full;
    var h' := h.(body := h.body[p := b]);
    assert b.Thread? ==> AllIn(b.stack, s) by { FullStack(h', b, s); }
    forall o | o in s ensures o in h'.body && Full(h', h'.body[o], s) {
      if o != p { WriteFull(h, p, b, o, s); }
    }
  }

  lemma FullStack(h: Heap, b: Body, s: set<Ref>)
    requires Full(h, b, s)
    ensures b.Thread? ==> AllIn(b.stack, s)
  {
  }

  /** Outside marking, live objects may be given any live values. */
  lemma WriteUnmarking(g: Global, p: Ref, b: Body)
    requires Unmarking(g) && p in g.heap.body && Compatible(g.heap.body[p], b)
    requires Full(WithBody(g, p, b).heap, b, LiveSet(g.color, g.currentwhite))
    ensures Unmarking(WithBody(g, p, b))
  {
    hide Full, FullyClosed, UpsOk, Owners, RootsIn;
    WriteUpsOk(g.heap, p, b);
    WriteClosed(g.heap, p, b, LiveSet(g.color, g.currentwhite));
  }

  // ----- while marking -----

  lemma WriteVisited(g: Global, p: Ref, b: Body, c: Ctx, o: Ref, s: set<Ref>)
    requires p in g.heap.body && Compatible(g.heap.body[p], b) && o != p && KeepInvariant(g.gcstate)
    requires Visited(g.heap, g.lists, g.gcstate, g.twups, c.view, o, s)
    ensures Visited(WithBody(g, p, b).heap, g.lists, g.gcstate, g.twups, c.view, o, s)
  {
    hide UpValue, TableVisited;
    var h' := WithBody(g, p, b).heap;
    if g.heap.body[o].LClosure? {
      forall u | u in g.heap.body[o].upvals ensures UpVisited(h', g.gcstate, c.view.late, u, s) {
        assert UpVisited(g.heap, g.gcstate, c.view.late, u, s);
      }
    }
  }

  /** While marking, a written object is set aside until the barrier has been looked at. */
  lemma WriteMarking(g: Global, p: Ref, b: Body)
    requires Marking(g, Running(g.color.Keys, g.color.Keys)) && KeepInvariant(g.gcstate)
    requires p in g.heap.body && Compatible(g.heap.body[p], b) && Full(WithBody(g, p, b).heap, b, g.color.Keys)
    ensures var busy := if p in Marked(g.color) then {p} else {};
      Marking(WithBody(g, p, b), Running(g.color.Keys, g.color.Keys).(busy := busy))
  {
    hide Full, RootsIn, TouchedOk, StronglyClosed, ClosedBut, WeakListsOk, FullyClosed, GraysListed, Shape, ColorsOk,
      Progress, ListsOk;
    var g' := WithBody(g, p, b);
    WriteShape(g, p, b);
    WriteClosed(g.heap, p, b, g.color.Keys);
    ClosedStrongly(g'.heap, g'.color.Keys);
    ClosedTouched(g');
    WriteLists(g, p, b);
    WriteProgress(g, p, b);
    WriteWeakLists(g.heap, g'.heap, p, g.lists, g.color.Keys);
    GraysBusy(g, p);
  }

  lemma WriteShape(g: Global, p: Ref, b: Body)
    requires Shape(g.color.Keys, g.heap, g.owned, g.roots, g.twups) && p in g.heap.body && Compatible(g.heap.body[p], b)
    ensures var g' := WithBody(g, p, b);
      Shape(g.color.Keys, g'.heap, g.owned, g.roots, g.twups) && g'.color.Keys == g'.heap.body.Keys && UpsOk(g'.heap)
  {
    hide Owners, UpsOk;
    WriteUpsOk(g.heap, p, b);
    assert WithBody(g, p, b).heap.body.Keys == g.heap.body.Keys;
  }

  /** Colours and lists fit the new body as they did the old one. */
  lemma WriteLists(g: Global, p: Ref, b: Body)
    requires p in g.heap.body && Compatible(g.heap.body[p], b)
    requires ColorsOk(g.color, g.currentwhite, g.heap, g.owned, {}) &&
             ListsOk(g.color, g.heap, g.lists, g.lists.grayagain)
    ensures var h, busy := WithBody(g, p, b).heap, if p in Marked(g.color) then {p} else {};
      ColorsOk(g.color, g.currentwhite, h, g.owned, busy) && ListsOk(g.color, h, g.lists, g.lists.grayagain)
  {
    hide Listed;
  }

  lemma WriteProgress(g: Global, p: Ref, b: Body)
    requires Marking(g, Running(g.color.Keys, g.color.Keys)) && KeepInvariant(g.gcstate)
    requires p in g.heap.body && Compatible(g.heap.body[p], b) && Full(WithBody(g, p, b).heap, b, g.color.Keys)
    ensures var c, busy := Running(g.color.Keys, g.color.Keys), if p in Marked(g.color) then {p} else {};
      Progress(Marked(g.color), WithBody(g, p, b).heap, g.lists, g.gcstate, g.twups, g.lists.grayagain, c.view, busy)
  {
    hide Full, UpsOk, Shape, ColorsOk, ListsOk, BoundOk, RootsIn, TouchedOk, Visited, WeakListsOk, FullyClosed, Pending,
      GraysListed;
    var g', c := WithBody(g, p, b), Running(g.color.Keys, g.color.Keys);
    var s, saved := Marked(g.color), g.lists.grayagain;
    forall o | o in s && o != p && !Pending(g.lists, saved, o)
      ensures Visited(g'.heap, g.lists, g.gcstate, g.twups, c.view, o, s)
    {
      WriteVisited(g, p, b, c, o, s);
    }
  }

  lemma WriteWeakLists(h: Heap, h': Heap, p: Ref, ls: GrayLists, s: set<Ref>)
    requires WeakListsOk(h, ls.weak, ls.ephemeron, ls.allweak, s) && ls.weak == [] && ls.ephemeron == []
    requires p in h.body && p in h'.body && h' == h.(body := h.body[p := h'.body[p]]) &&
             Compatible(h.body[p], h'.body[p])
    requires FullyClosed(h', s) && s == h.body.Keys
    ensures WeakListsOk(h', ls.weak, ls.ephemeron, ls.allweak, s)
  {
    hide StringsIn, FullyClosed;
    forall o | o in ls.allweak
      ensures o in h'.body && h'.body[o].Table? && StringsIn(h', h'.body[o].slots, h'.body[o].nodes, s)
    {
      ClosedStrings(h', o, s);
    }
  }

  lemma GraysBusy(g: Global, p: Ref)
    requires GraysListed(g.color, g.owned, g.lists, g.lists.grayagain, {})
    ensures GraysListed(g.color, g.owned, g.lists, g.lists.grayagain, {p})
  {
  }

  lemma ClosedStrings(h: Heap, o: Ref, s: set<Ref>)
    requires FullyClosed(h, s) && o in s && h.body[o].Table?
    ensures StringsIn(h, h.body[o].slots, h.body[o].nodes, s)
  {
    assert Full(h, h.body[o], s);
  }

  // ----- barriers -----

  ghost predicate Among(v: Value, old1: Value, vs: seq<Value>) { v == old1 || v in vs }

  /** Everything `b'` holds was in `b` or is one of `vs`. */
  ghost predicate Derived(b: Body, b': Body, vs: seq<Value>)
  {
    Compatible(b, b') && match b
    case Udata(m, u) => Among(b'.meta, m, vs) && Among(b'.user, u, vs)
    case LClosure(q, _) => Among(b'.proto, q, vs)
    case CClosure(cs) => forall v :: v in b'.cups ==> v in cs || v in vs
    case Table(_, m, slots, nodes) =>
      && Among(b'.tmeta, m, vs)
      && (forall v :: v in b'.slots ==> v in slots || v in vs || v == Nil)
      && (forall e :: e in b'.nodes && e.val != Nil ==>
            (exists e' :: e' in nodes && e'.val != Nil && e'.key == e.key && Among(e.val, e'.val, vs))
            || (Among(e.key, Nil, vs) && Among(e.val, Nil, vs)) || e in nodes)
    case Proto(ks, c) => b'.cache == c && forall v :: v in b'.consts ==> v in ks || v in vs
    case Thread(_, _) => false
    case Str => false
  }

  lemma DerivedFull(h: Heap, p: Ref, b: Body, vs: seq<Value>, s: set<Ref>)
    requires p in h.body && Derived(h.body[p], b, vs) && Full(h, h.body[p], s) && AllIn(vs, s)
    ensures Full(h.(body := h.body[p := b]), b, s)
  {
    hide UpValue;
    if h.body[p].LClosure? {
      var h' := h.(body := h.body[p := b]);
      forall u | u in b.upvals ensures In(UpValue(h', u), s) {
        assert In(UpValue(h, u), s);
        WriteUpValue(h, p, b, u, s);
      }
    }
  }

  /** A black object was visited when it held its old values; marked new ones change nothing. */
  lemma DerivedVisited(g: Global, p: Ref, b: Body, vs: seq<Value>, c: Ctx, s: set<Ref>, s': set<Ref>)
    requires p in g.heap.body && Derived(g.heap.body[p], b, vs) && KeepInvariant(g.gcstate) && s <= s' && AllIn(vs, s')
    requires Visited(g.heap, g.lists, g.gcstate, g.twups, c.view, p, s)
    requires p !in g.lists.allweak && p !in g.lists.weak && p !in g.lists.ephemeron
    ensures Visited(WithBody(g, p, b).heap, g.lists, g.gcstate, g.twups, c.view, p, s')
  {
    hide UpValue;
    var h' := WithBody(g, p, b).heap;
    if g.heap.body[p].LClosure? {
      forall u | u in b.upvals ensures UpVisited(h', g.gcstate, c.view.late, u, s') {
        assert UpVisited(g.heap, g.gcstate, c.view.late, u, s);
      }
    }
  }

  /** In the propagate phase a marked object is pending, or a stale all-weak table, or black and visited. */
  lemma MarkedCases(g: Global, p: Ref)
    requires Inv(g) && KeepInvariant(g.gcstate) && p in Marked(g.color) && !g.heap.body[p].Str?
    ensures p !in g.owned.fixedgc
    ensures g.color[p] == Gray ==> Pending(g.lists, g.lists.grayagain, p) || p in g.lists.allweak
    ensures g.color[p] == Black ==>
      && Listed(g.lists, g.lists.grayagain, p) == 0
      && Visited(g.heap, g.lists, g.gcstate, g.twups, Running(g.color.Keys, g.color.Keys).view, p, Marked(g.color))
    ensures g.color[p] == Black ==> p !in g.lists.allweak && p !in g.lists.weak && p !in g.lists.ephemeron
  {
    hide Shape, FullyClosed, BoundOk, TouchedOk, WeakListsOk, RootsIn, RootsMarked, TwupsComplete, Visited;
    var saved := g.lists.grayagain;
    if p in g.lists.gray || p in saved || p in g.lists.allweak || p in g.lists.weak || p in g.lists.ephemeron {
      assert Listed(g.lists, saved, p) > 0;
    }
  }

  /** Outside marking a black object may become gray or white at any time. */
  lemma RecolourOutside(g: Global, p: Ref, k: Color)
    requires Inv(g) && !KeepInvariant(g.gcstate) && p in g.color && g.color[p] == Black
    requires k == Gray || k == White(g.currentwhite)
    ensures Inv(g.(color := g.color[p := k]))
  {
    hide Unmarking, SweptSoFar, Startable;
    var g' := g.(color := g.color[p := k]);
    UnmarkingRecoloured(g, p, k);
    SweptRecoloured(g, p, k);
    assert g'.color.Keys == g.color.Keys;
    if g.gcstate.Pause? { StartableRecoloured(g, g'); }
  }

  lemma UnmarkingRecoloured(g: Global, p: Ref, k: Color)
    requires Unmarking(g) && p in g.color && g.color[p] == Black && (k == Gray || k == White(g.currentwhite))
    ensures Unmarking(g.(color := g.color[p := k]))
  {
    hide UpsOk, FullyClosed, Owners, RootsIn, OwnedOk;
    var g' := g.(color := g.color[p := k]);
    assert LiveSet(g'.color, g'.currentwhite) == LiveSet(g.color, g.currentwhite);
    assert g'.color.Keys == g.color.Keys;
  }

  lemma SweptRecoloured(g: Global, p: Ref, k: Color)
    requires SweptSoFar(g) && p in g.color && g.color[p] == Black
    ensures SweptSoFar(g.(color := g.color[p := k]))
  {
    hide Clean;
    var g' := g.(color := g.color[p := k]);
    forall l: seq<Ref> ensures Clean(g.color, g.currentwhite, l) ==> Clean(g'.color, g.currentwhite, l) {
      CleanRecoloured(g.color, g.currentwhite, p, k, l);
    }
  }

  lemma CleanRecoloured(color: map<Ref, Color>, w: bool, p: Ref, k: Color, l: seq<Ref>)
    requires p in color && color[p] == Black
    ensures Clean(color, w, l) ==> Clean(color[p := k], w, l)
  {
  }

  lemma StartableRecoloured(g: Global, g': Global)
    requires Startable(g, g.color.Keys) && g' == g.(color := g'.color) && g'.color.Keys == g.color.Keys
    ensures Startable(g', g'.color.Keys)
  {
  }

  lemma RelistOutside(g: Global, ls: GrayLists)
    requires Inv(g) && !KeepInvariant(g.gcstate)
    ensures Inv(g.(lists := ls))
  {
    hide UpsOk, FullyClosed, Owners, RootsIn, Clean, OwnedOk, StronglyClosed;
  }

  /** The barriers for `vs` have run on `p`: it is to be visited again, or the values are marked. */
  ghost predicate Barred(a: Global, b: Global, c: Ctx, p: Ref, vs: seq<Value>)
  {
    && Marking(b, c) && p in b.color && (p in c.busy || b.color[p].White?)
    && b == a.(color := b.color, lists := a.lists.(gray := b.lists.gray, grayagain := b.lists.grayagain))
    && b.color.Keys == a.color.Keys && Marked(a.color) <= Marked(b.color)
    && (p in a.color ==> b.color[p] == a.color[p] || b.color[p] == Gray)
    && (b.color[p] == Black ==> Listed(b.lists, b.lists.grayagain, p) == 0 && p !in b.owned.fixedgc)
    && (b.color[p] == Black ==> AllIn(vs, Marked(b.color)))
    && (b.color[p] == Gray && p in a.color && a.color[p] == Black ==> p in b.lists.grayagain)
    && (forall o :: o in a.lists.gray ==> o in b.lists.gray)
    && (forall o :: o in a.lists.grayagain ==> o in b.lists.grayagain)
  }

  lemma BarredStart(g: Global, c: Ctx, p: Ref, vs: seq<Value>)
    requires Marking(g, c) && p in g.color && (p in c.busy || g.color[p].White?)
    requires g.color[p] == Black ==> Listed(g.lists, g.lists.grayagain, p) == 0 && p !in g.owned.fixedgc
    ensures Barred(g, g, c, p, vs[..0])
  {
    hide Marking, Listed;
  }

  lemma BarredFrame(a: Global, b: Global, c: Ctx, p: Ref, vs: seq<Value>)
    requires Barred(a, b, c, p, vs)
    ensures Marking(b, c) && b.heap == a.heap && p in b.color && (b.color[p] == Black ==> p in c.busy)
    ensures b.color[p] == Black ==> Listed(b.lists, b.lists.grayagain, p) == 0 && p !in b.owned.fixedgc
  {
    hide Marking, Listed;
  }

  lemma InKeys(g: Global, c: Ctx)
    requires Marking(g, c)
    ensures g.color.Keys == g.heap.body.Keys
  {
    hide OwnedOk, UpsOk, ThreadsOk, FullyClosed, BoundOk, TouchedOk, WeakListsOk, ListsOk, Progress, RootsIn,
      GraysListed, ColorsOk;
  }

  lemma BarredNext(a: Global, b: Global, d: Global, c: Ctx, p: Ref, vs: seq<Value>, i: nat)
    requires i < |vs| && Barred(a, b, c, p, vs[..i]) && Marking(d, c) && KeepInvariant(b.gcstate)
    requires || (d == b && (b.color[p] == Black && vs[i].Coll? && vs[i].ref in b.color ==> !b.color[vs[i].ref].White?)
                 && (vs[i].Coll? ==> vs[i].ref in b.color))
             || (Marks(b, d) && In(vs[i], Marked(d.color)) && p in Marked(b.color))
             || (b.color[p] == Black && d == b.(color := b.color[p := Gray], lists := Link(b.lists, InGrayAgain, p)))
    ensures Barred(a, d, c, p, vs[..i + 1])
  {
    hide Marking;
    assert vs[..i + 1] == vs[..i] + [vs[i]];
    if Marks(b, d) && p in Marked(b.color) {
      MarksKeepUnlisted(b, d, c, p);
      MarksFrame(b, d);
      GrayMarked(b, c);
      MarksGray(b, d);
    }
  }

  lemma GrayMarked(g: Global, c: Ctx)
    requires Marking(g, c)
    ensures forall o :: o in g.lists.gray ==> o in Marked(g.color)
  {
    hide Shape, FullyClosed, BoundOk, TouchedOk, WeakListsOk, Progress, RootsIn, GraysListed, ColorsOk;
    forall o | o in g.lists.gray ensures o in Marked(g.color) {
      assert Listed(g.lists, Saved(g.lists, g.gcstate, c), o) > 0;
    }
  }

  lemma MarksGray(a: Global, b: Global)
    requires Marks(a, b) && forall o :: o in a.lists.gray ==> o in Marked(a.color)
    ensures forall o :: o in a.lists.gray ==> o in b.lists.gray
  {
    forall o | o in a.lists.gray ensures o in b.lists.gray {
      assert o in multiset(a.lists.gray);
      assert o in multiset(b.lists.gray);
    }
  }

  /** A table waiting on `allweak` since the propagate phase gets a metatable nobody has marked: it is
      gray, so the barrier does nothing, and it will not be visited again. */
  ghost predicate LosesMeta(g: Global, p: Ref, b: Body)
  {
    && KeepInvariant(g.gcstate) && p in g.lists.allweak
    && b.Table? && b.tmeta.Coll? && b.tmeta.ref in g.color && g.color[b.tmeta.ref].White?
  }

  lemma AllWeakVisited(g: Global, p: Ref)
    requires Inv(g) && KeepInvariant(g.gcstate) && p in g.lists.allweak
    ensures p in g.heap.body && g.heap.body[p].Table? && In(g.heap.body[p].tmeta, Marked(g.color))
    ensures p in Marked(g.color) && g.color[p] == Gray && !Pending(g.lists, g.lists.grayagain, p)
  {
    hide Shape, FullyClosed, BoundOk, TouchedOk, RootsIn, RootsMarked, GraysListed, ColorsOk, TwupsComplete, StringsIn;
    assert Listed(g.lists, g.lists.grayagain, p) > 0;
    assert Visited(g.heap, g.lists, g.gcstate, g.twups, Running(g.color.Keys, g.color.Keys).view, p, Marked(g.color));
  }

  lemma InvParts(g: Global)
    requires Inv(g) && KeepInvariant(g.gcstate)
    ensures Marking(g, Running(g.color.Keys, g.color.Keys))
    ensures RootsMarked(g) && RootsIn(g.roots, g.owned, g.color.Keys)
    ensures forall o :: o in g.owned.finobj ==> o in g.color
    ensures g.gcstate.Propagate? ==> g.lists.gray != []
  {
    hide Marking;
  }

  /** After the barriers a written object needs no more attention. */
  lemma StoreSettles(g: Global, p: Ref, b: Body, vs: seq<Value>, g': Global, c: Ctx)
    requires Inv(g) && KeepInvariant(g.gcstate) && p in Marked(g.color) && p in g.heap.body
    requires Derived(g.heap.body[p], b, vs) && c == Running(g.color.Keys, g.color.Keys).(busy := {p})
    requires Barred(WithBody(g, p, b), g', c, p, vs) && AllIn(vs, g.color.Keys)
    ensures !LosesMeta(g, p, b) ==> Marking(g', Running(g'.color.Keys, g'.color.Keys))
  {
    hide Inv, Marking, Visited, Listed, Pending, RootsMarked;
    MarkedCases(g, p);
    var view := c.view;
    var s, s' := Marked(g.color), Marked(g'.color);
    if p in g.lists.allweak { AllWeakVisited(g, p); }
    if !LosesMeta(g, p, b) {
      if g.color[p] == Black && g'.color[p] == Black {
        DerivedVisited(g, p, b, vs, c, s, s');
        VisitedGrows(g'.heap, g.lists, g'.lists, g.gcstate, g.twups, view, p, s', s');
      } else if g.color[p] == Black {
        PendingIn(g'.lists, g'.lists.grayagain, p);
      } else if p in g.lists.allweak {
        AllWeakSettles(g', p, view);
      } else {
        PendingStays(g.lists, g'.lists, p);
      }
      NotBlackThread(g, p);
      Settle(g', c, p, Running(g'.color.Keys, g'.color.Keys));
    }
  }

  lemma PendingIn(ls: GrayLists, saved: seq<Ref>, p: Ref)
    requires p in saved
    ensures Pending(ls, saved, p)
  {
  }

  lemma PendingStays(ls: GrayLists, ls': GrayLists, p: Ref)
    requires Pending(ls, ls.grayagain, p)
    requires forall o :: o in ls.gray ==> o in ls'.gray
    requires forall o :: o in ls.grayagain ==> o in ls'.grayagain
    ensures Pending(ls', ls'.grayagain, p)
  {
  }

  lemma AllWeakSettles(g: Global, p: Ref, view: View)
    requires p in g.heap.body && g.heap.body[p].Table? && In(g.heap.body[p].tmeta, Marked(g.color))
    requires p in g.lists.allweak && p in view.stale
    ensures Visited(g.heap, g.lists, g.gcstate, g.twups, view, p, Marked(g.color))
  {
  }

  lemma NotBlackThread(g: Global, p: Ref)
    requires Inv(g) && KeepInvariant(g.gcstate) && p in g.color
    ensures IsThread(g.heap, p) ==> g.color[p] != Black
  {
    hide Shape, FullyClosed, BoundOk, TouchedOk, RootsIn, RootsMarked, GraysListed, ListsOk, Progress, TwupsComplete,
      WeakListsOk;
  }

  /** A lost metatable breaks the invariant. */
  lemma StoreLoses(g: Global, p: Ref, b: Body, g': Global)
    requires Inv(g) && LosesMeta(g, p, b) && p in g.heap.body && b.Table?
    requires g' == WithBody(g, p, b)
    ensures !Inv(g')
  {
    hide Inv, Marking;
    AllWeakVisited(g, p);
    if Inv(g') {
      AllWeakVisited(g', p);
      assert false;
    }
  }

  lemma KeepInv(g: Global, g': Global)
    requires Inv(g) && KeepInvariant(g.gcstate) && Marking(g', Running(g'.color.Keys, g'.color.Keys))
    requires g'.gcstate == g.gcstate && g'.owned == g.owned && g'.roots == g.roots && g'.color.Keys == g.color.Keys
    requires Marked(g.color) <= Marked(g'.color) && forall o :: o in g.lists.gray ==> o in g'.lists.gray
    ensures Inv(g')
  {
    hide Marking;
    if g.lists.gray != [] { assert g.lists.gray[0] in g'.lists.gray; }
  }

  lemma LiveKeys(g: Global, vs: seq<Value>)
    requires Inv(g) && AllIn(vs, LiveSet(g.color, g.currentwhite))
    ensures AllIn(vs, g.color.Keys) && g.color.Keys == g.heap.body.Keys
    ensures KeepInvariant(g.gcstate) ==> LiveSet(g.color, g.currentwhite) == g.color.Keys
  {
    hide Inv;
    LiveInHeap(g);
    InvKeys(g);
    if KeepInvariant(g.gcstate) {
      InvParts(g);
      MarkingUnmarking(g, g.color.Keys, g.color.Keys);
    }
  }

  lemma DerivedCompatible(b: Body, b': Body, vs: seq<Value>)
    requires Derived(b, b', vs)
    ensures Compatible(b, b') && b'.Table? == b.Table? && !b.Str? && !b.Thread?
  {
  }

  /** The write itself, before any barrier. */
  lemma StoreInv(g: Global, p: Ref, b: Body, vs: seq<Value>)
    requires Inv(g) && p in LiveSet(g.color, g.currentwhite) && p in g.heap.body
    requires AllIn(vs, LiveSet(g.color, g.currentwhite)) && Derived(g.heap.body[p], b, vs)
    ensures !KeepInvariant(g.gcstate) ==> Inv(WithBody(g, p, b))
    ensures KeepInvariant(g.gcstate) ==>
      Marking(WithBody(g, p, b), Running(g.color.Keys, g.color.Keys).(busy := if p in Marked(g.color) then {p} else {}))
  {
    hide Marking, Derived, Inv;
    LiveKeys(g, vs);
    InvSafe(g);
    DerivedCompatible(g.heap.body[p], b, vs);
    var live := LiveSet(g.color, g.currentwhite);
    DerivedFull(g.heap, p, b, vs, live);
    if KeepInvariant(g.gcstate) {
      InvParts(g);
      WriteMarking(g, p, b);
    } else {
      WriteOutside(g, p, b);
    }
  }

  lemma WriteOutside(g: Global, p: Ref, b: Body)
    requires Inv(g) && !KeepInvariant(g.gcstate) && p in g.heap.body && Compatible(g.heap.body[p], b)
    requires Full(WithBody(g, p, b).heap, b, LiveSet(g.color, g.currentwhite))
    ensures Inv(WithBody(g, p, b))
  {
    hide Unmarking, Full, Compatible, Startable, LiveSet, Clean;
    WriteUnmarking(g, p, b);
    if g.gcstate.Pause? { RestingStartable(WithBody(g, p, b)); }
  }

  lemma StoreDone(g: Global, p: Ref, b: Body, vs: seq<Value>, g': Global, c: Ctx)
    requires Inv(g) && p in g.color && p in g.heap.body && AllIn(vs, g.color.Keys) && Derived(g.heap.body[p], b, vs)
    requires g.color.Keys == g.heap.body.Keys
    requires c == Running(g.color.Keys, g.color.Keys).(busy := if p in Marked(g.color) then {p} else {})
    requires KeepInvariant(g.gcstate) ==> Barred(WithBody(g, p, b), g', c, p, vs)
    requires !KeepInvariant(g.gcstate) ==> Inv(g')
    requires g.color[p] != Black ==> g' == WithBody(g, p, b)
    ensures Inv(g') <==> !LosesMeta(g, p, b)
  {
    hide Inv, Marking, Derived, Listed;
    if KeepInvariant(g.gcstate) {
      if p in Marked(g.color) {
        StoreSettles(g, p, b, vs, g', c);
        if LosesMeta(g, p, b) {
          AllWeakVisited(g, p);
          StoreLoses(g, p, b, g');
        } else {
          KeepInv(g, g');
        }
      } else {
        assert c == Running(g'.color.Keys, g'.color.Keys);
        if p in g.lists.allweak { AllWeakVisited(g, p); }
        KeepInv(g, g');
      }
    }
  }

  // ----- stack slots -----

  lemma SlotClosed(h: Heap, t: Ref, i: nat, v: Value, s: set<Ref>)
    requires FullyClosed(h, s) && IsThread(h, t) && i < |h.body[t].stack| && In(v, s)
    ensures FullyClosed(h.(body := h.body[t := Thread(h.body[t].stack[i := v], h.body[t].openups)]), s)
  {
    var h' := h.(body := h.body[t := Thread(h.body[t].stack[i := v], h.body[t].openups)]);
    forall o | o in s ensures o in h'.body && Full(h', h'.body[o], s) {
      assert Full(h, h.body[o], s);
      if h.body[o].LClosure? {
        forall u | u in h.body[o].upvals ensures In(UpValue(h', u), s) {
          assert In(UpValue(h, u), s);
        }
      } else if o == t {
        forall x | x in h'.body[t].stack ensures In(x, s) { assert x == v || x in h.body[t].stack; }
      }
    }
  }

  lemma SlotUnmarking(g: Global, t: Ref, i: nat, v: Value)
    requires Unmarking(g) && IsThread(g.heap, t) && i < |g.heap.body[t].stack| &&
             In(v, LiveSet(g.color, g.currentwhite))
    ensures Unmarking(WithBody(g, t, Thread(g.heap.body[t].stack[i := v], g.heap.body[t].openups)))
  {
    hide Full, FullyClosed, UpsOk, Owners, RootsIn;
    WriteUpsOk(g.heap, t, Thread(g.heap.body[t].stack[i := v], g.heap.body[t].openups));
    SlotClosed(g.heap, t, i, v, LiveSet(g.color, g.currentwhite));
  }

  lemma SlotOutside(g: Global, t: Ref, i: nat, v: Value)
    requires Inv(g) && !KeepInvariant(g.gcstate) && IsThread(g.heap, t) && i < |g.heap.body[t].stack|
    requires In(v, LiveSet(g.color, g.currentwhite))
    ensures Inv(WithBody(g, t, Thread(g.heap.body[t].stack[i := v], g.heap.body[t].openups)))
  {
    hide Unmarking, Startable, LiveSet, Clean;
    SlotUnmarking(g, t, i, v);
    if g.gcstate.Pause? {
      RestingStartable(WithBody(g, t, Thread(g.heap.body[t].stack[i := v], g.heap.body[t].openups)));
    }
  }

  lemma SlotFull(g: Global, t: Ref, i: nat, v: Value, b: Body)
    requires Safe(g) && g.color.Keys == LiveSet(g.color, g.currentwhite) && IsThread(g.heap, t) && t in g.color
    requires i < |g.heap.body[t].stack| && In(v, g.color.Keys)
    requires b == Thread(g.heap.body[t].stack[i := v], g.heap.body[t].openups)
    ensures Full(WithBody(g, t, b).heap, b, g.color.Keys)
  {
    hide LiveSet;
    assert Full(g.heap, g.heap.body[t], g.color.Keys);
    forall x | x in b.stack ensures In(x, g.color.Keys) { assert x == v || x in g.heap.body[t].stack; }
  }

  /** Threads are never black, so writes to their stacks need no barrier. */
  lemma SlotInv(g: Global, t: Ref, i: nat, v: Value)
    requires Inv(g) && IsThread(g.heap, t) && i < |g.heap.body[t].stack| && In(v, LiveSet(g.color, g.currentwhite))
    ensures Inv(WithBody(g, t, Thread(g.heap.body[t].stack[i := v], g.heap.body[t].openups)))
  {
    hide Inv, Marking, Pending, LiveSet, Safe;
    if KeepInvariant(g.gcstate) {
      LiveKeys(g, []);
      InvParts(g);
      InvSafe(g);
      var b := Thread(g.heap.body[t].stack[i := v], g.heap.body[t].openups);
      SlotFull(g, t, i, v, b);
      WriteMarking(g, t, b);
      var g' := WithBody(g, t, b);
      if t in Marked(g.color) {
        NotBlackThread(g, t);
        MarkedCases(g, t);
        if t in g.lists.allweak { AllWeakVisited(g, t); }
        Settle(g', Running(g.color.Keys, g.color.Keys).(busy := {t}), t, Running(g.color.Keys, g.color.Keys));
      }
      KeepInv(g, g');
    } else {
      SlotOutside(g, t, i, v);
    }
  }

  lemma ModeDerived(g: Global, t: Ref, mode: Mode)
    requires Inv(g) && t in g.heap.body && g.heap.body[t].Table?
    ensures Derived(g.heap.body[t], g.heap.body[t].(mode := mode), [])
    ensures !LosesMeta(g, t, g.heap.body[t].(mode := mode))
  {
    hide Inv;
    if KeepInvariant(g.gcstate) && t in g.lists.allweak { AllWeakVisited(g, t); }
  }

  lemma OpenSlot(g: Global, u: UpId)
    requires Inv(g) && u in g.heap.ups && g.heap.ups[u].Open?
    ensures IsThread(g.heap, g.heap.ups[u].thread) && g.heap.ups[u].level < |g.heap.body[g.heap.ups[u].thread].stack|
  {
    hide FullyClosed, BoundOk, TouchedOk, RootsIn, RootsMarked, GraysListed, ListsOk, Progress, TwupsComplete,
      WeakListsOk, ThreadsOk, OwnedOk, Startable, SweptSoFar, ColorsOk;
    assert OpenOk(g.heap, u, g.heap.ups[u].thread, g.heap.ups[u].level);
  }

  lemma MarkedInv(g: Global, g': Global)
    requires Inv(g) && KeepInvariant(g.gcstate) && Marks(g, g') && Marking(g', Running(g.color.Keys, g.color.Keys))
    ensures Inv(g')
  {
    hide Marking, Inv;
    MarksFrame(g, g');
    InvParts(g);
    GrayMarked(g, Running(g.color.Keys, g.color.Keys));
    MarksGray(g, g');
    KeepInv(g, g');
  }

  // ----- closed upvalues -----

  function WithUp(g: Global, u: UpId, v: Value): Global
  {
    g.(heap := g.heap.(ups := g.heap.ups[u := Closed(v)]))
  }

  lemma ClosedUpFull(h: Heap, u: UpId, v: Value, b: Body, s: set<Ref>)
    requires u in h.ups && h.ups[u].Closed? && In(v, s) && Full(h, b, s)
    ensures Full(h.(ups := h.ups[u := Closed(v)]), b, s)
  {
    if b.LClosure? {
      var h' := h.(ups := h.ups[u := Closed(v)]);
      forall x | x in b.upvals ensures In(UpValue(h', x), s) {
        assert In(UpValue(h, x), s);
      }
    }
  }

  lemma ClosedUpUps(h: Heap, u: UpId, v: Value)
    requires u in h.ups && h.ups[u].Closed? && UpsOk(h)
    ensures UpsOk(h.(ups := h.ups[u := Closed(v)]))
  {
    var h' := h.(ups := h.ups[u := Closed(v)]);
    forall x | x in h'.ups && h'.ups[x].Open? ensures OpenOk(h', x, h'.ups[x].thread, h'.ups[x].level) {
      assert OpenOk(h, x, h.ups[x].thread, h.ups[x].level);
    }
  }

  lemma ClosedUpOutside(g: Global, u: UpId, v: Value)
    requires Inv(g) && !KeepInvariant(g.gcstate) && u in g.heap.ups && g.heap.ups[u].Closed?
    requires In(v, LiveSet(g.color, g.currentwhite))
    ensures Inv(WithUp(g, u, v))
  {
    hide UpsOk, FullyClosed, Full, Owners, RootsIn, Clean, Startable;
    ClosedUpUps(g.heap, u, v);
    var live := LiveSet(g.color, g.currentwhite);
    assert FullyClosed(WithUp(g, u, v).heap, live) by { ClosedUpClosed(g.heap, u, v, live); }
    if g.gcstate.Pause? { RestingStartable(WithUp(g, u, v)); }
  }

  lemma ClosedUpClosed(h: Heap, u: UpId, v: Value, s: set<Ref>)
    requires u in h.ups && h.ups[u].Closed? && In(v, s) && FullyClosed(h, s)
    ensures FullyClosed(h.(ups := h.ups[u := Closed(v)]), s)
  {
    hide Full;
    forall o | o in s ensures o in h.body && Full(h.(ups := h.ups[u := Closed(v)]), h.body[o], s) {
      ClosedUpFull(h, u, v, h.body[o], s);
    }
  }

  lemma ClosedUpMarking(g: Global, u: UpId, v: Value)
    requires Marking(g, Running(g.color.Keys, g.color.Keys)) && KeepInvariant(g.gcstate)
    requires u in g.heap.ups && g.heap.ups[u].Closed? && In(v, Marked(g.color))
    ensures Marking(WithUp(g, u, v), Running(g.color.Keys, g.color.Keys))
  {
    hide Full, UpsOk, Owners, RootsIn, TouchedOk, Visited, Listed, StronglyClosed, ClosedBut, StringsIn, FullyClosed,
      Pending, GraysListed;
    var g', c := WithUp(g, u, v), Running(g.color.Keys, g.color.Keys);
    assert Marked(g.color) <= g.color.Keys;
    ClosedUpUps(g.heap, u, v);
    ClosedUpClosed(g.heap, u, v, g.color.Keys);
    ClosedStrongly(g'.heap, g.color.Keys);
    ClosedTouched(g');
    forall o | o in g.lists.allweak
      ensures StringsIn(g'.heap, g'.heap.body[o].slots, g'.heap.body[o].nodes, g.color.Keys)
    {
      ClosedStrings(g'.heap, o, g.color.Keys);
    }
    var s, saved := Marked(g.color), g.lists.grayagain;
    forall o | o in s && !Pending(g.lists, saved, o)
      ensures Visited(g'.heap, g.lists, g.gcstate, g.twups, c.view, o, s)
    {
      ClosedUpVisited(g, u, v, c.view, o, s);
    }
  }

  lemma ClosedUpVisited(g: Global, u: UpId, v: Value, view: View, o: Ref, s: set<Ref>)
    requires u in g.heap.ups && g.heap.ups[u].Closed? && In(v, s)
    requires Visited(g.heap, g.lists, g.gcstate, g.twups, view, o, s)
    ensures Visited(WithUp(g, u, v).heap, g.lists, g.gcstate, g.twups, view, o, s)
  {
    hide TableVisited;
    var h' := WithUp(g, u, v).heap;
    if g.heap.body[o].LClosure? {
      forall x | x in g.heap.body[o].upvals ensures UpVisited(h', g.gcstate, view.late, x, s) {
        assert UpVisited(g.heap, g.gcstate, view.late, x, s);
      }
    }
  }

  lemma ClosedUpInv(g: Global, u: UpId, v: Value)
    requires Inv(g) && u in g.heap.ups && g.heap.ups[u].Closed? && In(v, LiveSet(g.color, g.currentwhite))
    requires KeepInvariant(g.gcstate) ==> In(v, Marked(g.color))
    ensures Inv(WithUp(g, u, v)) && UpValue(WithUp(g, u, v).heap, u) == v
  {
    hide Inv, Marking, LiveSet;
    if KeepInvariant(g.gcstate) {
      InvParts(g);
      ClosedUpMarking(g, u, v);
      KeepInv(g, WithUp(g, u, v));
    } else {
      ClosedUpOutside(g, u, v);
    }
  }

  // ----- allocation -----

  /** A body a new object may start with: it refers to live objects and existing upvalues. */
  ghost predicate Fresh(g: Global, b: Body)
  {
    && Full(g.heap, b, LiveSet(g.color, g.currentwhite))
    && (b.Thread? ==> b.openups == [])
    && (b.LClosure? ==> forall u :: u in b.upvals ==> u in g.heap.ups)
  }

  function Allocated(g: Global, o: Ref, b: Body): Global
  {
    var at := match g.sweepgc
      case At(AllGc, i) => if i == 0 then g.sweepgc else At(AllGc, i + 1)
      case _ => g.sweepgc;
    g.(color := g.color[o := White(g.currentwhite)], heap := g.heap.(body := g.heap.body[o := b]),
       owned := g.owned.(allgc := [o] + g.owned.allgc), sweepgc := at)
  }

  lemma NewUps(h: Heap, o: Ref, b: Body)
    requires UpsOk(h) && o !in h.body && (b.Thread? ==> b.openups == [])
    requires b.LClosure? ==> forall u :: u in b.upvals ==> u in h.ups
    ensures UpsOk(h.(body := h.body[o := b]))
    ensures forall u :: UpValue(h.(body := h.body[o := b]), u) == UpValue(h, u)
  {
    var h' := h.(body := h.body[o := b]);
    forall u | u in h'.ups && h'.ups[u].Open? ensures OpenOk(h', u, h'.ups[u].thread, h'.ups[u].level) {
      assert OpenOk(h, u, h.ups[u].thread, h.ups[u].level);
    }
    forall t, u | IsThread(h', t) && u in h'.body[t].openups
      ensures u in h'.ups && h'.ups[u].Open? && h'.ups[u].thread == t
    {
      assert IsThread(h, t) && u in h.body[t].openups;
    }
    forall u ensures UpValue(h', u) == UpValue(h, u) {
      if u in h.ups && h.ups[u].Open? { assert OpenOk(h, u, h.ups[u].thread, h.ups[u].level); }
    }
  }

  lemma NewFull(h: Heap, o: Ref, b: Body, x: Body, s: set<Ref>, s': set<Ref>)
    requires Full(h, x, s) && s <= s' && forall u :: UpValue(h.(body := h.body[o := b]), u) == UpValue(h, u)
    ensures Full(h.(body := h.body[o := b]), x, s')
  {
    hide UpValue;
  }

  lemma NewClosed(h: Heap, o: Ref, b: Body, s: set<Ref>)
    requires FullyClosed(h, s) && o !in h.body && Full(h, b, s)
    requires forall u :: UpValue(h.(body := h.body[o := b]), u) == UpValue(h, u)
    ensures FullyClosed(h.(body := h.body[o := b]), s + {o})
  {
    hide Full, UpValue;
    var h' := h.(body := h.body[o := b]);
    forall x | x in s + {o} ensures x in h'.body && Full(h', h'.body[x], s + {o}) {
      if x == o { NewFull(h, o, b, b, s, s + {o}); } else { NewFull(h, o, b, h.body[x], s, s + {o}); }
    }
  }

  lemma NewOwners(w: Owned, o: Ref, x: Ref)
    ensures Owners(w.(allgc := [o] + w.allgc), x) == Owners(w, x) + (if x == o then 1 else 0)
  {
  }

  lemma NewShape(g: Global, o: Ref, b: Body)
    requires Shape(g.color.Keys, g.heap, g.owned, g.roots, g.twups) && o !in g.color
    requires UpsOk(Allocated(g, o, b).heap)
    ensures var g' := Allocated(g, o, b); Shape(g'.color.Keys, g'.heap, g'.owned, g'.roots, g'.twups)
  {
    hide UpsOk, Owners;
    var g' := Allocated(g, o, b);
    forall x ensures Owners(g'.owned, x) == Owners(g.owned, x) + (if x == o then 1 else 0) { NewOwners(g.owned, o, x); }
    assert g'.color.Keys == g.color.Keys + {o} == g'.heap.body.Keys;
  }

  lemma NewUnmarking(g: Global, o: Ref, b: Body)
    requires Unmarking(g) && o !in g.color && Fresh(g, b)
    ensures var g' := Allocated(g, o, b);
      Unmarking(g') && LiveSet(g'.color, g'.currentwhite) == LiveSet(g.color, g.currentwhite) + {o}
  {
    hide Full, FullyClosed, UpsOk, Owners, OwnedOk, UpValue;
    var g' := Allocated(g, o, b);
    var live := LiveSet(g.color, g.currentwhite);
    assert LiveSet(g'.color, g'.currentwhite) == live + {o};
    NewUps(g.heap, o, b);
    NewClosed(g.heap, o, b, live);
    NewShape(g, o, b);
    assert o !in g.owned.fixedgc;
  }

  lemma NewOutside(g: Global, o: Ref, b: Body)
    requires Inv(g) && !KeepInvariant(g.gcstate) && o !in g.color && Fresh(g, b)
    ensures Inv(Allocated(g, o, b))
  {
    hide Unmarking, Fresh, Startable, Clean, LiveSet;
    var g' := Allocated(g, o, b);
    NewUnmarking(g, o, b);
    var w := g.currentwhite;
    forall l: seq<Ref> ensures Clean(g.color, w, l) ==> Clean(g'.color, w, l) { NewClean(g.color, w, o, l); }
    CleanSplit(g'.color, w, o, g.owned.allgc, 0);
    if g.sweepgc.At? && g.sweepgc.list.AllGc? && g.sweepgc.index > 0 && g.sweepgc.index <= |g.owned.allgc| &&
      Clean(g'.color, w, g.owned.allgc[..g.sweepgc.index]) {
      CleanCons(g'.color, w, o, g.owned.allgc, g.sweepgc.index);
    }
    CleanNone(g', AllGc);
    LiveInHeap(g');
    MainKept(g, o);
    if g.gcstate.Pause? { RestingStartable(g'); }
  }

  lemma NewClean(color: map<Ref, Color>, w: bool, o: Ref, l: seq<Ref>)
    ensures Clean(color, w, l) ==> Clean(color[o := White(w)], w, l)
  {
  }

  lemma MainKept(g: Global, o: Ref)
    requires Unmarking(g) && o !in g.color
    ensures g.roots.mainthread in g.color && o != g.roots.mainthread
  {
    hide UpsOk, FullyClosed, Owners, OwnedOk;
  }

  lemma NewVisited(g: Global, o: Ref, b: Body, view: View, x: Ref, s: set<Ref>)
    requires Visited(g.heap, g.lists, g.gcstate, g.twups, view, x, s) && o !in g.heap.body
    requires forall u :: UpValue(Allocated(g, o, b).heap, u) == UpValue(g.heap, u)
    ensures Visited(Allocated(g, o, b).heap, g.lists, g.gcstate, g.twups, view, x, s)
  {
    hide TableVisited, UpValue;
    var h' := Allocated(g, o, b).heap;
    if g.heap.body[x].LClosure? {
      forall u | u in g.heap.body[x].upvals ensures UpVisited(h', g.gcstate, view.late, u, s) {
        assert UpVisited(g.heap, g.gcstate, view.late, u, s);
      }
    }
  }

  lemma NewMarking(g: Global, o: Ref, b: Body)
    requires Marking(g, Running(g.color.Keys, g.color.Keys)) && KeepInvariant(g.gcstate) && o !in g.color && Fresh(g, b)
    requires LiveSet(g.color, g.currentwhite) == g.color.Keys
    ensures var g' := Allocated(g, o, b); Marking(g', Running(g'.color.Keys, g'.color.Keys))
    ensures Marked(Allocated(g, o, b).color) == Marked(g.color)
  {
    hide Full, UpsOk, OwnedOk, TouchedOk, Progress, ListsOk, GraysListed, ColorsOk, StronglyClosed, ClosedBut,
      WeakListsOk, FullyClosed, UpValue, LiveSet, TwupsComplete;
    var g' := Allocated(g, o, b);
    var s, saved := Marked(g.color), g.lists.grayagain;
    assert Marked(g'.color) == s && g'.color.Keys == g.color.Keys + {o};
    NewUps(g.heap, o, b);
    NewClosed(g.heap, o, b, g.color.Keys);
    NewShape(g, o, b);
    ClosedStrongly(g'.heap, g'.color.Keys);
    assert g'.heap.body.Keys == g'.color.Keys;
    ClosedTouched(g');
    NewWeakLists(g, g', o);
    NewProgress(g, o, b);
    NewLists(g, o, b);
    NewColors(g, o, b);
  }

  lemma NewLists(g: Global, o: Ref, b: Body)
    requires ListsOk(g.color, g.heap, g.lists, g.lists.grayagain) && o !in g.color
    requires GraysListed(g.color, g.owned, g.lists, g.lists.grayagain, {})
    ensures var g' := Allocated(g, o, b);
      && ListsOk(g'.color, g'.heap, g.lists, g.lists.grayagain)
      && GraysListed(g'.color, g'.owned, g.lists, g.lists.grayagain, {})
  {
    hide Listed, Pending;
  }

  lemma NewColors(g: Global, o: Ref, b: Body)
    requires ColorsOk(g.color, g.currentwhite, g.heap, g.owned, {}) && o !in g.color && o !in g.heap.body
    requires b.Thread? ==> b.openups == []
    ensures var g' := Allocated(g, o, b);
      && ColorsOk(g'.color, g'.currentwhite, g'.heap, g'.owned, {})
      && (TwupsComplete(g.heap, g.twups) ==> TwupsComplete(g'.heap, g'.twups))
  {
  }

  lemma NewProgress(g: Global, o: Ref, b: Body)
    requires Progress(Marked(g.color), g.heap, g.lists, g.gcstate, g.twups, g.lists.grayagain,
             View(false, g.color.Keys, {}), {})
    requires o !in g.heap.body && o !in g.color && forall u :: UpValue(Allocated(g, o, b).heap, u) == UpValue(g.heap, u)
    ensures var g' := Allocated(g, o, b);
      Progress(Marked(g.color), g'.heap, g'.lists, g'.gcstate, g'.twups, g.lists.grayagain,
        View(false, g'.color.Keys, {}), {})
  {
    hide Visited, Pending, UpValue;
    var g', s := Allocated(g, o, b), Marked(g.color);
    forall x | x in s && !Pending(g.lists, g.lists.grayagain, x)
      ensures Visited(g'.heap, g'.lists, g'.gcstate, g'.twups, View(false, g'.color.Keys, {}), x, s)
    {
      NewVisited(g, o, b, View(false, g.color.Keys, {}), x, s);
      StaleGrows(g'.heap, g.lists, g.gcstate, g.twups, View(false, g.color.Keys, {}), View(false, g'.color.Keys, {}),
        x, s);
    }
  }

  lemma NewWeakLists(g: Global, g': Global, o: Ref)
    requires WeakListsOk(g.heap, g.lists.weak, g.lists.ephemeron, g.lists.allweak, g.color.Keys)
    requires g.lists.weak == [] && g.lists.ephemeron == [] && g'.lists == g.lists && o !in g.heap.body
    requires g.color.Keys == g.heap.body.Keys && FullyClosed(g'.heap, g'.color.Keys) &&
             g'.color.Keys == g.color.Keys + {o}
    requires forall x :: x in g.heap.body ==> x in g'.heap.body && g'.heap.body[x] == g.heap.body[x]
    ensures WeakListsOk(g'.heap, g.lists.weak, g.lists.ephemeron, g.lists.allweak, g'.color.Keys)
  {
    hide StringsIn, FullyClosed;
    forall x | x in g.lists.allweak
      ensures StringsIn(g'.heap, g'.heap.body[x].slots, g'.heap.body[x].nodes, g'.color.Keys)
    {
      ClosedStrings(g'.heap, x, g'.color.Keys);
    }
  }

  lemma NewInv(g: Global, o: Ref, b: Body)
    requires Inv(g) && o !in g.color && Fresh(g, b)
    ensures Inv(Allocated(g, o, b))
    ensures var g' := Allocated(g, o, b); LiveSet(g'.color, g'.currentwhite) == LiveSet(g.color, g.currentwhite) + {o}
  {
    hide Inv, Marking, Fresh, RootsIn;
    var g' := Allocated(g, o, b);
    assert LiveSet(g'.color, g'.currentwhite) == LiveSet(g.color, g.currentwhite) + {o};
    if KeepInvariant(g.gcstate) {
      LiveKeys(g, []);
      InvParts(g);
      NewMarking(g, o, b);
      NewKeep(g, o, b);
    } else {
      NewOutside(g, o, b);
    }
  }

  lemma NewKeep(g: Global, o: Ref, b: Body)
    requires Inv(g) && KeepInvariant(g.gcstate) && o !in g.color && Marked(Allocated(g, o, b).color) == Marked(g.color)
    requires var g' := Allocated(g, o, b); Marking(g', Running(g'.color.Keys, g'.color.Keys))
    ensures Inv(Allocated(g, o, b))
  {
    hide Marking;
    InvParts(g);
    assert Allocated(g, o, b).color.Keys == g.color.Keys + {o};
  }

  // ----- opening and closing upvalues -----

  /** The open upvalues of thread `t` change, and nothing any upvalue shows. */
  ghost predicate Rewires(h: Heap, h': Heap, t: Ref)
  {
    && IsThread(h, t) && IsThread(h', t)
    && h'.body == h.body[t := Thread(h.body[t].stack, h'.body[t].openups)]
    && (forall u :: u in h.ups ==> u in h'.ups && UpValue(h', u) == UpValue(h, u))
    && UpsOk(h)
  }

  lemma RewiresFull(h: Heap, h': Heap, t: Ref, o: Ref, s: set<Ref>)
    requires Rewires(h, h', t) && o in h.body && Full(h, h.body[o], s)
    ensures o in h'.body && Full(h', h'.body[o], s)
  {
    hide UpValue, OpenOk;
    if h.body[o].LClosure? {
      forall u | u in h.body[o].upvals ensures In(UpValue(h', u), s) { assert In(UpValue(h, u), s); }
    }
  }

  lemma RewiresClosed(h: Heap, h': Heap, t: Ref, s: set<Ref>)
    requires Rewires(h, h', t) && FullyClosed(h, s)
    ensures FullyClosed(h', s)
  {
    hide Full, Rewires;
    forall o | o in s ensures o in h'.body && Full(h', h'.body[o], s) { RewiresFull(h, h', t, o, s); }
  }

  lemma RewiresUnmarking(g: Global, t: Ref, g': Global)
    requires Unmarking(g) && Rewires(g.heap, g'.heap, t) && UpsOk(g'.heap) && t in LiveSet(g.color, g.currentwhite)
    requires g' == g.(heap := g'.heap, twups := g'.twups)
    requires g'.twups == g.twups || g'.twups == [t] + g.twups
    requires g'.heap.body[t].openups != [] ==> t in g'.twups
    ensures Unmarking(g')
  {
    hide Full, FullyClosed, UpsOk, Owners, OwnedOk, UpValue, LiveSet;
    RewiresClosed(g.heap, g'.heap, t, LiveSet(g.color, g.currentwhite));
  }

  lemma RewiresOutside(g: Global, t: Ref, g': Global)
    requires Inv(g) && !KeepInvariant(g.gcstate) && Rewires(g.heap, g'.heap, t) && UpsOk(g'.heap)
    requires t in LiveSet(g.color, g.currentwhite) && g' == g.(heap := g'.heap, twups := g'.twups)
    requires g'.twups == g.twups || g'.twups == [t] + g.twups
    requires g'.heap.body[t].openups != [] ==> t in g'.twups
    ensures Inv(g')
  {
    hide Unmarking, Startable, Clean, LiveSet, UpsOk, Rewires;
    RewiresUnmarking(g, t, g');
    if g.gcstate.Pause? { RestingStartable(g'); }
  }

  ghost predicate UpsKeep(h: Heap, h': Heap, s: set<Ref>)
  {
    forall u :: u in h.ups ==> u in h'.ups && (h'.ups[u] == h.ups[u] || (h'.ups[u].Closed? && In(h'.ups[u].value, s)))
  }

  lemma RewiresVisited(g: Global, t: Ref, g': Global, view: View, o: Ref, s: set<Ref>)
    requires Rewires(g.heap, g'.heap, t) && UpsKeep(g.heap, g'.heap, s) && KeepInvariant(g.gcstate) && !view.late &&
             o in g.heap.body
    requires Visited(g.heap, g.lists, g.gcstate, g.twups, view, o, s)
    ensures Visited(g'.heap, g.lists, g.gcstate, g'.twups, view, o, s)
  {
    hide TableVisited, UpValue, OpenOk;
    if g.heap.body[o].LClosure? {
      forall u | u in g.heap.body[o].upvals ensures UpVisited(g'.heap, g.gcstate, view.late, u, s) {
        assert UpVisited(g.heap, g.gcstate, view.late, u, s);
      }
    }
  }

  lemma RewiresMarking(g: Global, t: Ref, g': Global)
    requires Marking(g, Running(g.color.Keys, g.color.Keys)) && KeepInvariant(g.gcstate)
    requires Rewires(g.heap, g'.heap, t) && UpsOk(g'.heap) && UpsKeep(g.heap, g'.heap, Marked(g.color))
    requires g' == g.(heap := g'.heap, twups := g'.twups) && (g'.twups == g.twups || g'.twups == [t] + g.twups)
    requires g'.heap.body[t].openups != [] ==> t in g'.twups
    ensures Marking(g', Running(g'.color.Keys, g'.color.Keys))
  {
    hide Full, UpsOk, OwnedOk, TouchedOk, Listed, StronglyClosed, ClosedBut, WeakListsOk, FullyClosed, Pending, UpValue,
      Visited, UpsKeep, RootsIn, GraysListed;
    var s, saved, view := Marked(g.color), g.lists.grayagain, View(false, g.color.Keys, {});
    RewiresClosed(g.heap, g'.heap, t, g.color.Keys);
    ClosedStrongly(g'.heap, g.color.Keys);
    assert g'.heap.body.Keys == g.color.Keys;
    ClosedTouched(g');
    RewiresWeakLists(g, g', t);
    forall o | o in s && !Pending(g.lists, saved, o)
      ensures Visited(g'.heap, g.lists, g.gcstate, g'.twups, view, o, s)
    {
      RewiresVisited(g, t, g', view, o, s);
    }
  }

  lemma RewiresWeakLists(g: Global, g': Global, t: Ref)
    requires WeakListsOk(g.heap, g.lists.weak, g.lists.ephemeron, g.lists.allweak, g.color.Keys)
    requires g.lists.weak == [] && g.lists.ephemeron == [] && IsThread(g.heap, t)
    requires t in g'.heap.body && g'.heap.body == g.heap.body[t := g'.heap.body[t]] &&
             FullyClosed(g'.heap, g.color.Keys) && g.color.Keys == g.heap.body.Keys
    ensures WeakListsOk(g'.heap, g.lists.weak, g.lists.ephemeron, g.lists.allweak, g.color.Keys)
  {
    hide StringsIn, FullyClosed;
    forall x | x in g.lists.allweak
      ensures StringsIn(g'.heap, g'.heap.body[x].slots, g'.heap.body[x].nodes, g.color.Keys)
    {
      ClosedStrings(g'.heap, x, g.color.Keys);
    }
  }

  lemma RewiresInv(g: Global, t: Ref, g': Global)
    requires Inv(g) && Rewires(g.heap, g'.heap, t) && UpsOk(g'.heap) && t in LiveSet(g.color, g.currentwhite)
    requires KeepInvariant(g.gcstate) ==> UpsKeep(g.heap, g'.heap, Marked(g.color))
    requires g' == g.(heap := g'.heap, twups := g'.twups) && (g'.twups == g.twups || g'.twups == [t] + g.twups)
    requires g'.heap.body[t].openups != [] ==> t in g'.twups
    ensures Inv(g')
  {
    hide Inv, Marking, UpsOk, Rewires, UpsKeep;
    if KeepInvariant(g.gcstate) {
      InvParts(g);
      RewiresMarking(g, t, g');
      KeepInv(g, g');
    } else {
      RewiresOutside(g, t, g');
    }
  }

  /** A fresh open upvalue for slot `i` of thread `t`. */
  function Captured(g: Global, t: Ref, u: UpId, i: nat): Global
  {
    if t in g.heap.body && g.heap.body[t].Thread? then
      g.(heap := Heap(g.heap.body[t := Thread(g.heap.body[t].stack, [u] + g.heap.body[t].openups)],
                      g.heap.ups[u := Open(t, i, true)]),
         twups := if t in g.twups then g.twups else [t] + g.twups)
    else g
  }

  lemma CapturedUps(h: Heap, t: Ref, u: UpId, i: nat, h': Heap)
    requires UpsOk(h) && u !in h.ups && IsThread(h, t) && i < |h.body[t].stack|
    requires h' == Heap(h.body[t := Thread(h.body[t].stack, [u] + h.body[t].openups)], h.ups[u := Open(t, i, true)])
    ensures UpsOk(h') && Rewires(h, h', t)
  {
    forall x | x in h'.ups && h'.ups[x].Open? ensures OpenOk(h', x, h'.ups[x].thread, h'.ups[x].level) {
      if x != u { assert OpenOk(h, x, h.ups[x].thread, h.ups[x].level); }
    }
    forall c, x | IsThread(h', c) && x in h'.body[c].openups
      ensures x in h'.ups && h'.ups[x].Open? && h'.ups[x].thread == c
    {
      if x != u { assert IsThread(h, c) && x in h.body[c].openups; }
      assert x == u && c != t ==> x in h.ups;
    }
  }

  lemma CaptureInv(g: Global, t: Ref, u: UpId, i: nat)
    requires Inv(g) && u !in g.heap.ups && IsThread(g.heap, t) && i < |g.heap.body[t].stack|
    requires t in LiveSet(g.color, g.currentwhite)
    ensures Inv(Captured(g, t, u, i))
  {
    hide Inv, UpsOk, Rewires;
    InvUps(g);
    var g' := Captured(g, t, u, i);
    CapturedUps(g.heap, t, u, i, g'.heap);
    RewiresInv(g, t, g');
  }

  lemma InvUps(g: Global)
    requires Inv(g)
    ensures UpsOk(g.heap)
  {
    hide FullyClosed, BoundOk, TouchedOk, RootsIn, RootsMarked, GraysListed, ListsOk, Progress, TwupsComplete,
      WeakListsOk, ThreadsOk, OwnedOk, Startable, SweptSoFar, ColorsOk, OpenOk;
  }

  /** Upvalue `u` takes its value with it and leaves the open list of its thread. */
  function Detached(g: Global, u: UpId): Global
  {
    if u in g.heap.ups && g.heap.ups[u].Open? && g.heap.ups[u].thread in g.heap.body &&
      g.heap.body[g.heap.ups[u].thread].Thread? then
      var t := g.heap.ups[u].thread;
      g.(heap := Heap(g.heap.body[t := Thread(g.heap.body[t].stack, Without(g.heap.body[t].openups, u))],
                      g.heap.ups[u := Closed(UpValue(g.heap, u))]))
    else g
  }

  function Without(s: seq<UpId>, u: UpId): (r: seq<UpId>)
    ensures forall x :: x in r <==> x in s && x != u
  {
    if s == [] then []
    else if s[0] == u then Without(s[1..], u)
    else [s[0]] + Without(s[1..], u)
  }

  lemma DetachedUps(g: Global, u: UpId)
    requires UpsOk(g.heap) && u in g.heap.ups && g.heap.ups[u].Open?
    ensures var g' := Detached(g, u); UpsOk(g'.heap) && Rewires(g.heap, g'.heap, g.heap.ups[u].thread)
    ensures IsThread(g.heap, g.heap.ups[u].thread)
  {
    var h, h', t := g.heap, Detached(g, u).heap, g.heap.ups[u].thread;
    assert OpenOk(h, u, t, h.ups[u].level);
    forall x | x in h'.ups && h'.ups[x].Open? ensures OpenOk(h', x, h'.ups[x].thread, h'.ups[x].level) {
      assert OpenOk(h, x, h.ups[x].thread, h.ups[x].level);
    }
    forall c, x | IsThread(h', c) && x in h'.body[c].openups
      ensures x in h'.ups && h'.ups[x].Open? && h'.ups[x].thread == c
    {
      assert IsThread(h, c) && x in h.body[c].openups;
    }
  }

  lemma DetachInv(g: Global, u: UpId)
    requires Inv(g) && u in g.heap.ups && g.heap.ups[u].Open?
    requires g.heap.ups[u].thread in LiveSet(g.color, g.currentwhite)
    requires KeepInvariant(g.gcstate) ==> In(UpValue(g.heap, u), Marked(g.color))
    ensures Inv(Detached(g, u))
  {
    hide Inv, UpsOk, Rewires, UpValue;
    InvUps(g);
    DetachedUps(g, u);
    var t, g' := g.heap.ups[u].thread, Detached(g, u);
    DetachedTwups(g, u);
    RewiresInv(g, t, g');
  }

  lemma DetachedTwups(g: Global, u: UpId)
    requires Inv(g) && u in g.heap.ups && g.heap.ups[u].Open? && IsThread(g.heap, g.heap.ups[u].thread)
    requires g.heap.ups[u].thread in LiveSet(g.color, g.currentwhite) && UpsOk(g.heap)
    ensures g.heap.ups[u].thread in g.twups
  {
    hide FullyClosed, BoundOk, TouchedOk, RootsIn, RootsMarked, GraysListed, ListsOk, Progress, WeakListsOk, ThreadsOk,
      OwnedOk, Startable, SweptSoFar, ColorsOk;
    assert OpenOk(g.heap, u, g.heap.ups[u].thread, g.heap.ups[u].level);
  }

  lemma UpLive(g: Global, u: UpId)
    requires Inv(g) && u in g.heap.ups && g.heap.ups[u].Open? &&
             g.heap.ups[u].thread in LiveSet(g.color, g.currentwhite)
    ensures In(UpValue(g.heap, u), LiveSet(g.color, g.currentwhite))
  {
    hide Inv, LiveSet;
    InvSafe(g);
    InvUps(g);
    var t := g.heap.ups[u].thread;
    assert OpenOk(g.heap, u, t, g.heap.ups[u].level);
    assert Full(g.heap, g.heap.body[t], LiveSet(g.color, g.currentwhite));
  }

  lemma MarkedLive(a: Global, b: Global, o: Ref)
    requires Marks(a, b) && o in LiveSet(a.color, a.currentwhite) && Inv(b) && KeepInvariant(b.gcstate)
    ensures o in LiveSet(b.color, b.currentwhite)
  {
    hide Inv;
    MarksFrame(a, b);
    InvParts(b);
    MarkingUnmarking(b, b.color.Keys, b.color.Keys);
  }
}
