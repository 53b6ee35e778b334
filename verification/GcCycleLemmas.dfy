/** The collector's invariant, and what takes it from one phase to the next. */
module GcCycleLemmas {
  import opened GcState
  import opened GcMarkLemmas
  import opened GcAtomicLemmas
  import opened GcSweepLemmas

  function Running(bound: set<Ref>, stale: set<Ref>): Ctx { Ctx(false, [], View(false, stale, {}), {}, bound) }

  /** `bound` may serve as a bound on what the next cycle keeps. */
  ghost predicate Startable(g: Global, bound: set<Ref>)
  {
    && bound <= g.color.Keys
    && RootsIn(g.roots, g.owned, bound)
    && (forall o :: o in g.owned.finobj ==> o in bound)
    && StronglyClosed(g.heap, bound)
    && TouchedOk(g.heap, bound)
  }

  /** The invariant of the collector, with a bound on what survives the current cycle and the tables
      whose weak mode may be out of date. */
  ghost predicate Bounded(g: Global, bound: set<Ref>, stale: set<Ref>)
  {
    match g.gcstate
    case Propagate =>
      && Marking(g, Running(bound, stale)) && RootsMarked(g) && RootsIn(g.roots, g.owned, bound)
      && (forall o :: o in g.owned.finobj ==> o in bound) && g.lists.gray != []
    case AtomicWait =>
      && Marking(g, Running(bound, stale)) && RootsMarked(g) && RootsIn(g.roots, g.owned, bound)
      && (forall o :: o in g.owned.finobj ==> o in bound)
    case CallFin => Resting(g) && g.color.Keys <= bound
    case Pause => Resting(g) && Startable(g, bound)
    case InsideAtomic => false
    case _ => Sweeping(g) && LiveSet(g.color, g.currentwhite) <= bound
  }

  /** The invariant of the collector at any time the program runs. */
  ghost predicate Inv(g: Global) { Bounded(g, g.color.Keys, g.color.Keys) }

  // ----- starting a cycle -----

  lemma RestingClean(g: Global, o: Ref)
    requires Resting(g) && o in g.color
    ensures o in g.owned.fixedgc || g.color[o] == White(g.currentwhite)
  {
    hide UpsOk, ThreadsOk, FullyClosed, TwupsLive;
    if o != g.roots.mainthread {
      assert Owners(g.owned, o) == 1;
      assert o in multiset(g.owned.allgc) || o in multiset(g.owned.finobj) || o in multiset(g.owned.tobefnz) ||
             o in multiset(g.owned.fixedgc);
    }
  }

  lemma RestingLive(g: Global)
    requires Resting(g)
    ensures LiveSet(g.color, g.currentwhite) == g.color.Keys
    ensures forall o :: o in Marked(g.color) <==> o in g.owned.fixedgc
  {
    hide Resting;
    forall o | o in g.color ensures o in LiveSet(g.color, g.currentwhite) &&
      (o in Marked(g.color) ==> o in g.owned.fixedgc) {
      RestingClean(g, o);
      RestingFixed(g);
    }
    RestingFixed(g);
  }

  lemma RestingFixed(g: Global)
    requires Resting(g)
    ensures FixedOk(g.color, g.heap, g.owned.fixedgc) && Safe(g) &&
            Shape(g.color.Keys, g.heap, g.owned, g.roots, g.twups)
    ensures TwupsLive(g.color, g.currentwhite, g.heap, g.twups) && NeverBlack(g.color, g.heap) && g.sweepgc == NoSweep
  {
  }

  /** `restartcollection`: all lists empty, everything white but the fixed strings. */
  lemma StartMarking(g: Global, bound: set<Ref>, stale: set<Ref>, g': Global)
    requires Resting(g) && g.gcstate.Pause? && Startable(g, bound)
    requires g' == g.(lists := GrayLists([], [], [], [], []), gcstate := Propagate)
    ensures Marking(g', Running(bound, stale))
  {
    hide Resting, Shape, FullyClosed, RootsIn, StronglyClosed, ClosedBut, Listed, TouchedOk;
    RestingLive(g);
    RestingFixed(g);
    forall o ensures Listed(g'.lists, [], o) == 0 { NothingListed(o); }
    forall o | o in bound ensures o in g.color {}
    forall o | o in g.owned.fixedgc ensures o in bound { FixedInRoots(g, bound, o); }
    ClosedAnyway(g.heap, bound);
  }

  lemma FixedInRoots(g: Global, s: set<Ref>, o: Ref)
    requires RootsIn(g.roots, g.owned, s) && o in g.owned.fixedgc
    ensures o in s
  {
  }

  lemma NothingListed(o: Ref)
    ensures Listed(GrayLists([], [], [], [], []), [], o) == 0
  {
  }

  /** The main thread, once marked, is gray until the atomic step. */
  lemma MainIsGray(g: Global, c: Ctx)
    requires Marking(g, c) && g.gcstate.Propagate? && g.lists.grayagain == [] &&
             g.roots.mainthread in Marked(g.color) && c.busy == {}
    ensures g.lists.gray != []
  {
    hide FullyClosed, RootsIn, BoundOk, WeakListsOk, ListsOk, GraysListed, TouchedOk, ColorsOk, OwnedOk, UpsOk;
    assert IsThread(g.heap, g.roots.mainthread);
  }

  // ----- weakening -----

  lemma FullStrong(h: Heap, b: Body, s: set<Ref>)
    requires Full(h, b, s)
    ensures StrongIn(h, b, s)
  {
  }

  lemma ClosedStrongly(h: Heap, s: set<Ref>)
    requires FullyClosed(h, s)
    ensures StronglyClosed(h, s) && forall lost :: ClosedBut(h, s, lost)
  {
    hide Full, StrongIn;
    forall o | o in s && o in h.body ensures StrongIn(h, h.body[o], s) { FullStrong(h, h.body[o], s); }
    ClosedAnyway(h, s);
  }

  lemma ClosedTouched(g: Global)
    requires UpsOk(g.heap) && FullyClosed(g.heap, g.heap.body.Keys)
    ensures TouchedOk(g.heap, g.heap.body.Keys)
  {
    forall u | u in g.heap.ups && g.heap.ups[u].Open? ensures In(UpValue(g.heap, u), g.heap.body.Keys) {
      assert OpenOk(g.heap, u, g.heap.ups[u].thread, g.heap.ups[u].level);
      assert Full(g.heap, g.heap.body[g.heap.ups[u].thread], g.heap.body.Keys);
    }
  }

  lemma StringsGrow(h: Heap, slots: seq<Value>, nodes: seq<Entry>, s: set<Ref>, s': set<Ref>)
    requires StringsIn(h, slots, nodes, s) && s <= s'
    ensures StringsIn(h, slots, nodes, s')
  {
  }

  lemma StaleGrows(h: Heap, ls: GrayLists, p: Phase, twups: seq<Ref>, view: View, view': View, o: Ref, s: set<Ref>)
    requires Visited(h, ls, p, twups, view, o, s) && view' == view.(stale := view'.stale) && view.stale <= view'.stale
    ensures Visited(h, ls, p, twups, view', o, s)
  {
    hide UpVisited, Full;
  }

  /** Any other bound, and any larger set of out-of-date tables, will do as well. */
  lemma MarkingRebound(g: Global, c: Ctx, bound: set<Ref>, stale: set<Ref>)
    requires Marking(g, c) && c.bound <= bound <= g.color.Keys && c.view.stale <= stale
    requires StronglyClosed(g.heap, bound) && TouchedOk(g.heap, bound)
    ensures Marking(g, c.(bound := bound, view := c.view.(stale := stale)))
  {
    hide Shape, FullyClosed, RootsIn, StronglyClosed, ClosedBut, ListsOk, GraysListed, TouchedOk, ColorsOk,
      TwupsComplete, StringsIn, Visited, Pending;
    var s, saved := Marked(g.color), Saved(g.lists, g.gcstate, c);
    var view := c.view.(stale := stale);
    forall o | o in s && o !in c.busy && !Pending(g.lists, saved, o)
      ensures Visited(g.heap, g.lists, g.gcstate, g.twups, view, o, s)
    {
      StaleGrows(g.heap, g.lists, g.gcstate, g.twups, c.view, view, o, s);
    }
    forall o | o in g.lists.weak || o in g.lists.allweak
      ensures o in g.heap.body && g.heap.body[o].Table? &&
              StringsIn(g.heap, g.heap.body[o].slots, g.heap.body[o].nodes, bound)
    {
      StringsGrow(g.heap, g.heap.body[o].slots, g.heap.body[o].nodes, c.bound, bound);
    }
    ClosedAnyway(g.heap, bound);
  }

  lemma MarkingWeaken(g: Global, c: Ctx)
    requires Marking(g, c) && c.view.stale <= g.color.Keys
    ensures Marking(g, c.(bound := g.color.Keys, view := c.view.(stale := g.color.Keys)))
    ensures RootsIn(g.roots, g.owned, g.color.Keys)
  {
    hide Listed, WeakListsOk, Progress, ListsOk, GraysListed, OwnedOk, ThreadsOk, TouchedOk, UpsOk, FullyClosed,
      StronglyClosed, RootsIn, TwupsComplete;
    ClosedStrongly(g.heap, g.color.Keys);
    ClosedTouched(g);
    MarkingRebound(g, c, g.color.Keys, g.color.Keys);
  }

  lemma FinobjKeys(g: Global)
    requires OwnedOk(g.owned, g.color.Keys, g.roots.mainthread)
    ensures forall o :: o in g.owned.finobj ==> o in g.color
  {
    forall o | o in g.owned.finobj ensures o in g.color { FinobjInHeap(g, o); }
  }

  lemma MarkingOwned(g: Global, c: Ctx)
    requires Marking(g, c)
    ensures OwnedOk(g.owned, g.color.Keys, g.roots.mainthread)
  {
  }

  lemma RestingStartable(g: Global)
    requires Resting(g)
    ensures Startable(g, g.color.Keys)
  {
    hide Resting, Owners, Full, OpenOk;
    RestingLive(g);
    RestingFixed(g);
    ClosedStrongly(g.heap, g.color.Keys);
    ClosedTouched(g);
    FinobjKeys(g);
  }

  lemma Weaken(g: Global, bound: set<Ref>, stale: set<Ref>)
    requires Bounded(g, bound, stale) && stale <= g.color.Keys
    ensures Inv(g)
  {
    hide Marking, Resting, Sweeping, RootsMarked, Startable, RootsIn, OwnedOk;
    match g.gcstate
    case Propagate => MarkingWeaken(g, Running(bound, stale)); MarkingOwned(g, Running(bound, stale)); FinobjKeys(g);
    case AtomicWait => MarkingWeaken(g, Running(bound, stale)); MarkingOwned(g, Running(bound, stale)); FinobjKeys(g);
    case Pause => RestingStartable(g);
    case _ =>
  }

  // ----- safety -----

  /** In every set that holds the roots and everything readable out of its members. */
  ghost predicate Accessible(g: Global, o: Ref)
  {
    forall s: set<Ref> :: RootsIn(g.roots, g.owned, s) && FullyClosed(g.heap, s) ==> o in s
  }

  /** Whatever the collector is doing, nothing the program can reach is dead or freed. */
  lemma InvSafe(g: Global)
    requires Inv(g)
    ensures Safe(g)
  {
    hide Listed, WeakListsOk, Progress, ListsOk, GraysListed, OwnedOk, TouchedOk, FullyClosed, StronglyClosed, RootsIn,
      UpsOk, ThreadsOk, Startable, SweptSoFar, TwupsLive, TwupsComplete;
    if KeepInvariant(g.gcstate) {
      assert LiveSet(g.color, g.currentwhite) == g.color.Keys;
    }
  }

  lemma AccessibleIsLive(g: Global, o: Ref)
    requires Inv(g) && Accessible(g, o)
    ensures o in g.color && o in g.heap.body && g.color[o] != White(!g.currentwhite)
  {
    hide Inv;
    InvSafe(g);
    var live := LiveSet(g.color, g.currentwhite);
    assert o in live;
  }

  // ----- from phase to phase -----

  /** The main invariant while marking: no black object refers to a white one. (A black closure may have open upvalues,
      whose values belong to threads.) Threads are never black. */
  lemma BlackPointsToMarked(g: Global, o: Ref)
    requires Inv(g) && KeepInvariant(g.gcstate) && o in g.color && g.color[o] == Black
    ensures !IsThread(g.heap, o) && o in g.heap.body
    ensures !g.heap.body[o].LClosure? ==> Full(g.heap, g.heap.body[o], Marked(g.color))
    ensures g.heap.body[o].LClosure? ==> In(g.heap.body[o].proto, Marked(g.color))
    ensures g.heap.body[o].LClosure? ==>
      forall u :: u in g.heap.body[o].upvals && u in g.heap.ups && g.heap.ups[u].Closed? ==>
        In(g.heap.ups[u].value, Marked(g.color))
  {
    hide OwnedOk, UpsOk, ThreadsOk, BoundOk, FullyClosed, RootsIn, TouchedOk, WeakListsOk, GraysListed, TwupsComplete,
      Listed;
    var c := Running(g.color.Keys, g.color.Keys);
    assert Listed(g.lists, g.lists.grayagain, o) == 0;
    BlackUnlisted(g, o);
    assert Visited(g.heap, g.lists, g.gcstate, g.twups, c.view, o, Marked(g.color));
    if g.heap.body[o].LClosure? {
      forall u | u in g.heap.body[o].upvals && u in g.heap.ups && g.heap.ups[u].Closed?
        ensures In(g.heap.ups[u].value, Marked(g.color)) {
        assert UpVisited(g.heap, g.gcstate, false, u, Marked(g.color));
      }
    }
  }

  lemma BlackUnlisted(g: Global, o: Ref)
    requires Listed(g.lists, g.lists.grayagain, o) == 0
    ensures !Pending(g.lists, g.lists.grayagain, o) && o !in g.lists.weak && o !in g.lists.ephemeron &&
            o !in g.lists.allweak
  {}

  lemma StopProgram(g: Global, bound: set<Ref>, stale: set<Ref>)
    requires Marking(g, Running(bound, stale)) && g.gcstate.AtomicWait?
    ensures Marking(g, Running(bound, stale).(stopped := true))
  {
    hide Shape, FullyClosed, RootsIn, BoundOk, WeakListsOk, ListsOk, Progress, TouchedOk, ColorsOk, TwupsComplete;
  }

  /** The propagate phase ends; the program runs on until the atomic step. */
  lemma EndPropagate(g: Global, c: Ctx)
    requires Marking(g, c) && g.gcstate.Propagate? && RootsMarked(g)
    ensures Marking(g.(gcstate := AtomicWait), c) && RootsMarked(g.(gcstate := AtomicWait))
  {
    hide Shape, FullyClosed, RootsIn, BoundOk, WeakListsOk, ListsOk, TouchedOk, ColorsOk, TwupsComplete, TableVisited,
      GraysListed, Pending;
    var s, saved := Marked(g.color), g.lists.grayagain;
    forall o | o in s && o !in c.busy && !Pending(g.lists, saved, o)
      ensures Visited(g.heap, g.lists, AtomicWait, g.twups, c.view, o, s)
    {
      assert Visited(g.heap, g.lists, g.gcstate, g.twups, c.view, o, s);
      if g.heap.body[o].LClosure? {
        forall u | u in g.heap.body[o].upvals ensures UpVisited(g.heap, AtomicWait, c.view.late, u, s) {
          assert UpVisited(g.heap, g.gcstate, c.view.late, u, s);
        }
      }
    }
  }

  /** A collection abandoned while marking has no dead object to sweep. */
  lemma MarkingUnmarking(g: Global, bound: set<Ref>, stale: set<Ref>)
    requires Marking(g, Running(bound, stale)) && KeepInvariant(g.gcstate)
    requires forall o :: o in g.owned.finobj ==> o in g.color
    ensures Unmarking(g) && g.sweepgc == NoSweep && LiveSet(g.color, g.currentwhite) == g.color.Keys
  {
    hide Listed, WeakListsOk, Progress, ListsOk, GraysListed, OwnedOk, TouchedOk, FullyClosed, RootsIn, UpsOk, BoundOk;
    assert LiveSet(g.color, g.currentwhite) == g.color.Keys;
  }

  lemma RootsMarkedKept(a: Global, b: Global)
    requires Propagates(a, b) && RootsMarked(a)
    ensures RootsMarked(b) && b.owned == a.owned && b.roots == a.roots && b.gcstate == a.gcstate &&
            b.currentwhite == a.currentwhite
    ensures b.color.Keys == a.color.Keys
  {
    hide HeapStep;
  }

  lemma RootsMarkedAfter(a: Global, b: Global)
    requires Marks(a, b) && b.roots.mainthread in Marked(b.color)
    requires forall o :: o in b.owned.tobefnz ==> o in Marked(b.color)
    ensures RootsMarked(b) && b.owned == a.owned && b.roots == a.roots && b.gcstate == a.gcstate
    ensures b.lists == a.lists.(gray := b.lists.gray) && b.color.Keys == a.color.Keys && b.heap == a.heap
  {
  }

  // ----- finalizers -----

  /** `udata2finalize`: the first object of `tobefnz` returns to the front of `allgc`; a sweep pointer
      that went through its `next` field now leads into `allgc`. */
  function PopFinalizer(g: Global): Global
    requires g.owned.tobefnz != []
  {
    var o := g.owned.tobefnz[0];
    var w := g.owned.(tobefnz := g.owned.tobefnz[1..], allgc := [o] + g.owned.allgc);
    var at := match g.sweepgc
      case NoSweep => NoSweep
      case At(AllGc, i) => At(AllGc, if i == 0 then 0 else i + 1)
      case At(FinObj, i) => At(FinObj, i)
      case At(ToBeFnz, i) => if i == 0 then At(ToBeFnz, 0) else if i == 1 then At(AllGc, 1) else At(ToBeFnz, i - 1);
    g.(owned := w, sweepgc := at, color := if IsSweeping(g.gcstate) then g.color[o := White(g.currentwhite)]
      else g.color)
  }

  /** The sweep of `tobefnz` would go astray: its pointer goes through the object about to leave, with
      objects behind it that are still to be swept. */
  ghost predicate Strays(g: Global)
    requires g.owned.tobefnz != []
  {
    && g.gcstate.SwpToBeFnz? && g.sweepgc == At(ToBeFnz, 1)
    && !Clean(g.color, g.currentwhite, g.owned.tobefnz[1..])
  }

  lemma PopOwners(w: Owned, w': Owned, x: Ref)
    requires w.tobefnz != []
    requires w' == w.(tobefnz := w.tobefnz[1..], allgc := [w.tobefnz[0]] + w.allgc)
    ensures Owners(w', x) == Owners(w, x)
  {
    assert w.tobefnz == [w.tobefnz[0]] + w.tobefnz[1..];
  }

  lemma PopUnmarking(g: Global, g': Global)
    requires g.owned.tobefnz != [] && Unmarking(g) && !KeepInvariant(g.gcstate) && g' == PopFinalizer(g)
    ensures Unmarking(g') && LiveSet(g'.color, g'.currentwhite) == LiveSet(g.color, g.currentwhite)
    ensures g'.color.Keys == g.color.Keys
  {
    hide UpsOk, FullyClosed, Owners;
    var o := g.owned.tobefnz[0];
    forall x ensures Owners(g'.owned, x) == Owners(g.owned, x) { PopOwners(g.owned, g'.owned, x); }
    NotFixed(g, ToBeFnz, o);
    assert LiveSet(g'.color, g'.currentwhite) == LiveSet(g.color, g.currentwhite);
    assert g'.color.Keys == g.color.Keys;
  }

  lemma CleanCons(color: map<Ref, Color>, w: bool, o: Ref, l: seq<Ref>, i: nat)
    requires o in color && color[o] == White(w) && i <= |l| && Clean(color, w, l[..i])
    ensures Clean(color, w, ([o] + l)[..i + 1])
  {
    assert ([o] + l)[..i + 1] == [o] + l[..i];
  }

  lemma CleanTail(color: map<Ref, Color>, w: bool, l: seq<Ref>, i: nat)
    requires 1 <= i <= |l| && Clean(color, w, l[..i])
    ensures Clean(color, w, l[1..][..i - 1])
  {
    assert l[1..][..i - 1] == l[..i][1..];
  }

  /** Whether the lists stay swept when an object with a finalizer leaves `tobefnz`. */
  lemma PopSwept(g: Global, g': Global)
    requires g.owned.tobefnz != [] && Sweeping(g) && g' == PopFinalizer(g)
    ensures SweptSoFar(g') <==> !Strays(g)
  {
    hide Unmarking, Clean;
    var o, w, color := g.owned.tobefnz[0], g.currentwhite, g'.color;
    var all, fin, tbf := g.owned.allgc, g.owned.finobj, g.owned.tobefnz;
    CleanUnder(g.color, color, w, o, all);
    CleanUnder(g.color, color, w, o, fin);
    CleanUnder(g.color, color, w, o, tbf);
    CleanSplit(color, w, o, all, 0);
    CleanSplitTail(color, w, tbf);
    match g.gcstate {
      case SwpAllGc =>
        if g.sweepgc.At? {
          var i := g.sweepgc.index;
          CleanUnder(g.color, color, w, o, all[..i]);
          if i == 0 { CleanNone(g', AllGc); } else { CleanCons(color, w, o, all, i); }
        }
      case SwpFinObj => if g.sweepgc.At? { CleanUnder(g.color, color, w, o, fin[..g.sweepgc.index]); }
      case SwpToBeFnz => PopLastPhase(g, g');
      case SwpEnd =>
    }
  }

  lemma CleanUnder(color: map<Ref, Color>, color': map<Ref, Color>, w: bool, o: Ref, l: seq<Ref>)
    requires color' == color[o := White(w)]
    ensures Clean(color, w, l) ==> Clean(color', w, l)
    ensures o !in l && Clean(color', w, l) ==> Clean(color, w, l)
  {
  }

  lemma CleanSplit(color: map<Ref, Color>, w: bool, o: Ref, l: seq<Ref>, i: nat)
    requires o in color && color[o] == White(w)
    ensures Clean(color, w, l) <==> Clean(color, w, [o] + l)
  {
    assert forall x :: x in [o] + l <==> x == o || x in l;
  }

  lemma CleanSplitTail(color: map<Ref, Color>, w: bool, l: seq<Ref>)
    requires l != []
    ensures Clean(color, w, l) ==> Clean(color, w, l[1..])
  {
  }

  lemma PopLastPhase(g: Global, g': Global)
    requires g.owned.tobefnz != [] && Sweeping(g) && g.gcstate.SwpToBeFnz? && g' == PopFinalizer(g)
    ensures SweptSoFar(g') <==> !Strays(g)
  {
    hide UpsOk, FullyClosed, UpValue, TwupsLive, ThreadsOk, RootsIn, Clean, Owners;
    var o, w, color := g.owned.tobefnz[0], g.currentwhite, g'.color;
    var all, fin, tbf := g.owned.allgc, g.owned.finobj, g.owned.tobefnz;
    CleanUnder(g.color, color, w, o, all);
    CleanUnder(g.color, color, w, o, fin);
    CleanSplit(color, w, o, all, 0);
    HeadOnce(g);
    CleanUnder(g.color, color, w, o, tbf[1..]);
    CleanUnder(g.color, color, w, o, tbf);
    CleanSplitTail(color, w, tbf);
    if g.sweepgc.At? && g.sweepgc.list.ToBeFnz? {
      var i := g.sweepgc.index;
      if i == 0 { CleanNone(g', ToBeFnz); } else {
        CleanUnder(g.color, color, w, o, tbf[..i]);
        CleanTail(color, w, tbf, i);
      }
    }
  }

  lemma HeadOnce(g: Global)
    requires g.owned.tobefnz != [] && Unmarking(g)
    ensures g.owned.tobefnz[0] !in g.owned.tobefnz[1..]
  {
    hide UpsOk, FullyClosed, UpValue, TwupsLive, ThreadsOk, RootsIn;
    var l := g.owned.tobefnz;
    assert l == [l[0]] + l[1..];
    assert Owners(g.owned, l[0]) <= 1;
    assert multiset(l)[l[0]] == 1 + multiset(l[1..])[l[0]];
  }

  lemma PopMarking(g: Global, g': Global)
    requires g.owned.tobefnz != [] && Inv(g) && KeepInvariant(g.gcstate) && g' == PopFinalizer(g)
    ensures Inv(g')
  {
    hide UpsOk, ThreadsOk, FullyClosed, BoundOk, TouchedOk, WeakListsOk, ListsOk, Progress, Owners;
    forall x ensures Owners(g'.owned, x) == Owners(g.owned, x) { PopOwners(g.owned, g'.owned, x); }
  }

  lemma PopResting(g: Global, g': Global)
    requires g.owned.tobefnz != [] && Inv(g) && (g.gcstate.CallFin? || g.gcstate.Pause?) && g' == PopFinalizer(g)
    ensures Inv(g')
  {
    hide Unmarking, Clean, Startable;
    PopUnmarking(g, g');
    var o, w := g.owned.tobefnz[0], g.currentwhite;
    RestingHead(g);
    CleanSplit(g.color, w, o, g.owned.allgc, 0);
    CleanSplitTail(g.color, w, g.owned.tobefnz);
    if g.gcstate.Pause? { RestingStartable(g'); }
  }

  lemma RestingHead(g: Global)
    requires g.owned.tobefnz != [] && Resting(g)
    ensures g.owned.tobefnz[0] in g.color && g.color[g.owned.tobefnz[0]] == White(g.currentwhite)
  {
    hide Unmarking;
  }

  lemma PopSweeping(g: Global, g': Global)
    requires g.owned.tobefnz != [] && Sweeping(g) && g' == PopFinalizer(g)
    ensures Sweeping(g') <==> !Strays(g)
  {
    hide Unmarking, Strays, SweptSoFar;
    PopUnmarking(g, g');
    PopSwept(g, g');
  }

  /** Handing an object to its finalizer keeps the collector's invariant exactly when the sweep does not
      go astray. */
  lemma PopFinalizerSafe(g: Global)
    requires g.owned.tobefnz != [] && Inv(g)
    ensures Inv(PopFinalizer(g)) <==> !Strays(g)
  {
    hide Sweeping, Marking, Startable, Clean, RootsIn;
    var g' := PopFinalizer(g);
    assert g'.gcstate == g.gcstate;
    match g.gcstate {
      case Propagate => PopMarking(g, g');
      case AtomicWait => PopMarking(g, g');
      case CallFin => PopResting(g, g');
      case Pause => PopResting(g, g');
      case _ =>
        PopSweeping(g, g');
        SweepingUnmarking(g);
        PopUnmarking(g, g');
    }
  }

  lemma SweepingUnmarking(g: Global)
    requires Sweeping(g)
    ensures Unmarking(g) && IsSweeping(g.gcstate)
  {
  }

  lemma FlippedUnmarking(g: Global)
    requires Flipped(g)
    ensures Unmarking(g) && g.sweepgc == NoSweep
  {
  }

  lemma SameLiveFrame(a: Global, b: Global)
    requires SameLive(a, b)
    ensures b.owned.tobefnz != [] ==> a.owned.tobefnz != []
    ensures LiveSet(b.color, b.currentwhite) == LiveSet(a.color, a.currentwhite) && b.color.Keys <= a.color.Keys
  {
    if b.owned.tobefnz != [] { assert b.owned.tobefnz[0] in b.owned.tobefnz; }
  }

  /** Finalizers taken off `tobefnz` between cycles: objects change lists, and nothing else. */
  ghost predicate Popped(a: Global, b: Global)
  {
    && b == a.(owned := b.owned, gcstate := b.gcstate)
    && b.owned.finobj == a.owned.finobj && b.owned.fixedgc == a.owned.fixedgc
    && forall o :: o in b.owned.tobefnz ==> o in a.owned.tobefnz
  }

  lemma PopPopped(g: Global)
    requires Inv(g) && g.owned.tobefnz != [] && !IsSweeping(g.gcstate)
    ensures Popped(g, PopFinalizer(g))
    ensures !Strays(g)
  {
    hide Shape, FullyClosed, BoundOk, TouchedOk, WeakListsOk, ListsOk, Progress, Unmarking, Startable, RootsIn,
      GraysListed;
  }

  lemma CallFinInv(g: Global, bound: set<Ref>, stale: set<Ref>)
    requires Bounded(g, bound, stale) && g.gcstate.CallFin?
    ensures Inv(g) && Resting(g)
  {
    hide Resting;
  }

  lemma PhaseResting(a: Global, b: Global)
    requires Resting(a) && a.gcstate.CallFin? && b == a.(gcstate := Pause)
    ensures Inv(b)
  {
    hide Unmarking, Clean, Startable;
    UnmarkingPhase(a, b);
    RestingStartable(b);
  }

  // ----- a full collection -----

  /** Sweeping and finalizing, without marking, leave the live objects of `a` as they are. */
  ghost predicate Settles(a: Global, b: Global)
  {
    && b == a.(color := b.color, heap := b.heap, owned := b.owned, sweepgc := b.sweepgc, gcstate := b.gcstate)
    && LiveSet(b.color, b.currentwhite) == LiveSet(a.color, a.currentwhite)
    && (forall o :: o in LiveSet(a.color, a.currentwhite) && o in a.heap.body ==>
          o in b.heap.body && b.heap.body[o] == a.heap.body[o])
    && (forall u :: UpValue(b.heap, u) == UpValue(a.heap, u))
    && (forall u :: u in b.heap.ups && b.heap.ups[u].Open? ==> u in a.heap.ups && a.heap.ups[u] == b.heap.ups[u])
    && b.color.Keys <= a.color.Keys
    && b.owned.fixedgc == a.owned.fixedgc
    && (forall o :: o in b.owned.tobefnz ==> o in a.owned.tobefnz)
    && (forall o :: o in b.owned.finobj ==> o in a.owned.finobj)
  }

  lemma SettlesRefl(a: Global)
    ensures Settles(a, a)
  {
  }

  lemma SettlesCompose(a: Global, b: Global, c: Global)
    requires Settles(a, b) && Settles(b, c)
    ensures Settles(a, c)
  {
    hide UpValue, LiveSet;
  }

  lemma StepSettles(a: Global, b: Global)
    requires SameLive(a, b) || Popped(a, b)
    ensures Settles(a, b)
  {
    hide UpValue;
  }

  /** `bound` holds everything a collection starting now would have to keep: the roots, the objects with
      finalizers, what touched upvalues of live threads show, and what all those keep alive. */
  ghost predicate Covers(g: Global, bound: set<Ref>)
  {
    && RootsIn(g.roots, g.owned, bound)
    && (forall o :: o in g.owned.finobj ==> o in bound)
    && StronglyClosed(g.heap, bound)
    && TouchedLive(g, bound)
  }

  ghost predicate TouchedLive(g: Global, bound: set<Ref>)
  {
    var live := LiveSet(g.color, g.currentwhite);
    forall u :: u in g.heap.ups && g.heap.ups[u].Open? && g.heap.ups[u].touched && g.heap.ups[u].thread in live ==>
      In(UpValue(g.heap, u), bound)
  }

  lemma StrongMeet(h: Heap, h': Heap, b: Body, s: set<Ref>, t: set<Ref>)
    requires StrongIn(h, b, s) && Full(h', b, t)
    requires forall u :: UpValue(h', u) == UpValue(h, u)
    requires forall o :: o in t && o in h'.body ==> o in h.body && h.body[o] == h'.body[o]
    ensures StrongIn(h', b, s * t)
  {
    hide UpValue;
  }

  /** A bound computed before sweeping and finalizing serves for the cycle that starts after. */
  lemma CoversStartable(a: Global, b: Global, bound: set<Ref>)
    requires Covers(a, bound) && Settles(a, b) && Resting(b) && a.color.Keys == a.heap.body.Keys
    ensures Startable(b, bound * b.color.Keys)
  {
    hide Resting, Full, StrongIn, UpValue, LiveSet, Clean, Owners;
    forall u | u in b.heap.ups && b.heap.ups[u].Open? && b.heap.ups[u].touched
      ensures In(UpValue(b.heap, u), bound * b.color.Keys) {
      SettledUpvalue(a, b, bound, u);
    }
    RestingLive(b);
    RestingFixed(b);
    var t := b.color.Keys;
    LiveInHeap(a);
    forall o | o in bound * t ensures StrongIn(b.heap, b.heap.body[o], bound * t) {
      assert StrongIn(a.heap, a.heap.body[o], bound);
      StrongMeet(a.heap, b.heap, b.heap.body[o], bound, t);
    }
    RestingStartable(b);
  }

  lemma LiveInHeap(g: Global)
    ensures LiveSet(g.color, g.currentwhite) <= g.color.Keys
  {
  }

  lemma SettledUpvalue(a: Global, b: Global, bound: set<Ref>, u: UpId)
    requires TouchedLive(a, bound) && Settles(a, b) && Resting(b)
    requires u in b.heap.ups && b.heap.ups[u].Open? && b.heap.ups[u].touched
    ensures In(UpValue(b.heap, u), bound * b.color.Keys)
  {
    hide Resting, Full, UpValue, LiveSet;
    RestingLive(b);
    RestingFixed(b);
    assert OpenOk(b.heap, u, b.heap.ups[u].thread, b.heap.ups[u].level);
    assert b.heap.ups[u].thread in b.color;
    ClosedTouched(b);
  }

  lemma NothingDied(a: Global, b: Global)
    requires Settles(a, b) && LiveSet(a.color, a.currentwhite) == a.color.Keys
    ensures b.color.Keys == a.color.Keys
  {
    LiveInHeap(b);
  }

  lemma InvKeys(g: Global)
    requires Inv(g)
    ensures g.color.Keys == g.heap.body.Keys
  {
    hide Listed, WeakListsOk, Progress, ListsOk, GraysListed, OwnedOk, TouchedOk, FullyClosed, StronglyClosed, RootsIn,
      UpsOk, ThreadsOk, Startable, SweptSoFar;
  }

  lemma SweepingInv(g: Global)
    requires Sweeping(g)
    ensures Inv(g)
  {
    LiveInHeap(g);
  }

  lemma PausedResting(g: Global)
    requires Inv(g) && g.gcstate.Pause?
    ensures Resting(g)
  {
  }

  lemma SettlesFrame(a: Global, b: Global)
    requires Settles(a, b)
    ensures b.color.Keys <= a.color.Keys
  {
  }

  lemma FinobjInv(g: Global)
    requires Inv(g) && KeepInvariant(g.gcstate)
    ensures forall o :: o in g.owned.finobj ==> o in g.color
  {
    hide Marking;
  }
}
