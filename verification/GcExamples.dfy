/** States in which the collector does not do what one would expect, and what becomes of them. */
module GcExamples {
  import opened GcState
  import opened GcMarkLemmas
  import opened GcAtomicLemmas
  import opened GcSweepLemmas
  import opened GcCycleLemmas
  import opened GcWriteLemmas
  import opened GcCollector
  import opened GcProgram

  // ----- putting the invariant together -----

  lemma WaitingInv(g: Global)
    requires g.gcstate.AtomicWait? && Shape(g.color.Keys, g.heap, g.owned, g.roots, g.twups)
    requires PhaseOk(g, Running(g.color.Keys, g.color.Keys)) && ColorsOk(g.color, g.currentwhite, g.heap, g.owned, {})
    requires RootsIn(g.roots, g.owned, g.color.Keys) && FullyClosed(g.heap, g.color.Keys) &&
             TouchedOk(g.heap, g.color.Keys) && RootsMarked(g)
    requires WeakListsOk(g.heap, g.lists.weak, g.lists.ephemeron, g.lists.allweak, g.color.Keys)
    requires ListsOk(g.color, g.heap, g.lists, g.lists.grayagain)
    requires Progress(Marked(g.color), g.heap, g.lists, g.gcstate, g.twups, g.lists.grayagain,
             View(false, g.color.Keys, {}), {})
    requires GraysListed(g.color, g.owned, g.lists, g.lists.grayagain, {}) && forall o :: o in g.owned.finobj ==>
             o in g.color
    ensures Inv(g)
  {
    hide Shape, PhaseOk, ColorsOk, ListsOk, GraysListed, FullyClosed, TouchedOk, WeakListsOk, RootsMarked, RootsIn,
      Progress, ClosedBut;
    ClosedStrongly(g.heap, g.color.Keys);
    assert Marked(g.color) <= g.color.Keys;
  }

  lemma StoppedMarking(g: Global, c: Ctx)
    requires g.gcstate.AtomicWait? && Shape(g.color.Keys, g.heap, g.owned, g.roots, g.twups) && PhaseOk(g, c) &&
             c.busy == {}
    requires ColorsOk(g.color, g.currentwhite, g.heap, g.owned, {}) && RootsIn(g.roots, g.owned, g.color.Keys)
    requires FullyClosed(g.heap, g.color.Keys) && TouchedOk(g.heap, c.bound) &&
             BoundOk(g.color, g.heap, c.bound, c.view.lost)
    requires WeakListsOk(g.heap, g.lists.weak, g.lists.ephemeron, g.lists.allweak, c.bound)
    requires ListsOk(g.color, g.heap, g.lists, g.lists.grayagain)
    requires Progress(Marked(g.color), g.heap, g.lists, g.gcstate, g.twups, g.lists.grayagain, c.view, {})
    requires GraysListed(g.color, g.owned, g.lists, g.lists.grayagain, {})
    ensures Marking(g, c)
  {
    hide Shape, PhaseOk, ColorsOk, ListsOk, GraysListed, FullyClosed, TouchedOk, WeakListsOk, RootsIn, Progress,
      BoundOk;
  }

  lemma SweptInv(g: Global)
    requires IsSweeping(g.gcstate) && Unmarking(g) && SweptSoFar(g)
    ensures Inv(g)
  {
    hide Unmarking, SweptSoFar;
  }

  // ----- a metatable that is freed while it is in use -----

  function Plain0(mode: Mode, meta: Value): Body { Table(mode, meta, [], []) }

  /** Before `atomic`: table 1 was found all-weak, by its metatable 3; table 2 was made afterwards. The main thread
      holds 1 and 2. */
  function BeforeLoss(): Global {
    Global(map[0 := Gray, 1 := Gray, 2 := White(false), 3 := Black],
           Heap(map[0 := Thread([Coll(1), Coll(2)], []), 1 := Plain0(AllWeak, Coll(3)), 2 := Plain0(Strong, Nil),
             3 := Plain0(Strong, Nil)], map[]),
           false, AtomicWait, Owned([2, 1, 3], [], [], []), NoSweep, GrayLists([], [0], [], [], [1]), [],
             Roots(0, 0, Nil, []))
  }

  /** Table 2 is the metatable of table 1 now, and nothing else refers to it. */
  function AfterLoss(): Global {
    BeforeLoss().(heap := Heap(
      map[0 := Thread([Coll(1), Nil], []), 1 := Plain0(AllWeak, Coll(2)), 2 := Plain0(Strong, Nil),
                                   3 := Plain0(Strong, Nil)], map[]))
  }

  lemma Members(g: Global)
    requires g == BeforeLoss() || g == AfterLoss()
    ensures g.color.Keys == {0, 1, 2, 3} == g.heap.body.Keys && Marked(g.color) == {0, 1, 3} &&
            LiveSet(g.color, false) == {0, 1, 2, 3}
    ensures forall o :: Owners(g.owned, o) == if o == 1 || o == 2 || o == 3 then 1 else 0
    ensures forall o :: Listed(g.lists, g.lists.grayagain, o) == if o == 0 || o == 1 then 1 else 0
  {}

  /** No upvalues, and one thread, which runs. */
  lemma ShapeSmall(heap: set<Ref>, h: Heap, w: Owned)
    requires h.ups == map[] && heap == h.body.Keys && 0 in h.body && h.body[0].Thread? && h.body[0].openups == []
    requires forall o :: o in h.body && o != 0 ==> !h.body[o].Thread? && !h.body[o].LClosure?
    requires forall o :: Owners(w, o) == if o in heap && o != 0 then 1 else 0
    ensures Shape(heap, h, w, Roots(0, 0, Nil, []), [])
  {
    hide Owners;
  }

  lemma LossShape(g: Global, c: Ctx)
    requires g == BeforeLoss() || g == AfterLoss()
    requires c.busy == {} && !c.view.late && (c.view.lost == {} || c.view.lost == {1})
    ensures Shape(g.color.Keys, g.heap, g.owned, g.roots, g.twups) && PhaseOk(g, c)
  {
    Members(g);
    hide Owners, Shape;
    ShapeSmall(g.color.Keys, g.heap, g.owned);
  }

  lemma LossLists(g: Global)
    requires g == BeforeLoss() || g == AfterLoss()
    ensures ColorsOk(g.color, g.currentwhite, g.heap, g.owned, {}) &&
            ListsOk(g.color, g.heap, g.lists, g.lists.grayagain)
    ensures GraysListed(g.color, g.owned, g.lists, g.lists.grayagain, {})
  {
    Members(g);
    hide Owners, Listed;
  }

  lemma LossRoots(g: Global)
    requires g == BeforeLoss() || g == AfterLoss()
    ensures RootsIn(g.roots, g.owned, g.color.Keys) && RootsIn(g.roots, g.owned, {0, 1, 3}) && RootsMarked(g)
  {
    Members(g);
    hide Owners, Listed;
  }

  lemma LossClosed(g: Global)
    requires g == BeforeLoss() || g == AfterLoss()
    ensures FullyClosed(g.heap, {0, 1, 2, 3}) && TouchedOk(g.heap, {0, 1, 2, 3}) && TouchedOk(g.heap, {0, 1, 3})
    ensures forall b :: WeakListsOk(g.heap, [], [], [1], b)
  {
    var all: set<Ref> := {0, 1, 2, 3};
    assert Full(g.heap, g.heap.body[0], all) && Full(g.heap, g.heap.body[1], all);
    assert Full(g.heap, g.heap.body[2], all) && Full(g.heap, g.heap.body[3], all);
  }

  lemma BeforeLossInv()
    ensures Inv(BeforeLoss()) && LosesMeta(BeforeLoss(), 1, Plain0(AllWeak, Coll(2)))
  {
    var g := BeforeLoss();
    var c := Running({0, 1, 2, 3}, {0, 1, 2, 3});
    Members(g);
    LossShape(g, c);
    LossLists(g);
    LossRoots(g);
    LossClosed(g);
    LossProgress(g, c);
    BeforeLossFacts(g);
    hide BeforeLoss, Shape, PhaseOk, ColorsOk, ListsOk, GraysListed, FullyClosed, TouchedOk, WeakListsOk, RootsMarked,
      RootsIn, Progress, LiveSet, Owners, Listed, LosesMeta;
    WaitingInv(g);
  }

  lemma BeforeLossFacts(g: Global)
    requires g == BeforeLoss()
    ensures g.gcstate.AtomicWait? && g.lists.weak == [] && g.lists.ephemeron == [] && g.lists.allweak == [1] &&
            g.owned.finobj == []
    ensures LosesMeta(g, 1, Plain0(AllWeak, Coll(2)))
  {}

  /** The main thread is to be visited again; table 1 was visited. */
  lemma LossProgress(g: Global, c: Ctx)
    requires g == BeforeLoss() || (g == AfterLoss() && c.view.lost == {1})
    ensures Progress({0, 1, 3}, g.heap, g.lists, g.gcstate, g.twups, g.lists.grayagain, c.view, {})
  {
    assert Visited(g.heap, g.lists, g.gcstate, g.twups, c.view, 1, {0, 1, 3}) &&
           Visited(g.heap, g.lists, g.gcstate, g.twups, c.view, 3, {0, 1, 3});
    assert Pending(g.lists, g.lists.grayagain, 0);
  }

  /** The marking goes on as if the table still had no metatable, and may not mark table 2. */
  lemma AfterLossMarking(c: Ctx)
    requires c == Ctx(true, [], View(false, {}, {1}), {}, {0, 1, 3})
    ensures Marking(AfterLoss(), c) && RootsMarked(AfterLoss()) &&
            RootsIn(AfterLoss().roots, AfterLoss().owned, {0, 1, 3})
  {
    var g := AfterLoss();
    Members(g);
    LossShape(g, c);
    LossLists(g);
    LossRoots(g);
    LossClosed(g);
    LossProgress(g, c);
    LossBound(g);
    AfterLossFacts(g);
    hide AfterLoss, LiveSet, Owners, Listed, Shape, PhaseOk, ColorsOk, ListsOk, GraysListed, FullyClosed, TouchedOk,
      WeakListsOk, RootsMarked,
      RootsIn, Progress, BoundOk;
    StoppedMarking(g, c);
  }

  lemma AfterLossFacts(g: Global)
    requires g == AfterLoss()
    ensures g.gcstate.AtomicWait? && g.lists.weak == [] && g.lists.ephemeron == [] && g.lists.allweak == [1]
  {}

  lemma LossBound(g: Global)
    requires g == AfterLoss()
    ensures BoundOk(g.color, g.heap, {0, 1, 3}, {1})
  {
    Members(g);
    hide LiveSet, Owners, Listed;
    assert StrongBut(g.heap, g.heap.body[0], {0, 1, 3}, false) && StrongBut(g.heap, g.heap.body[1], {0, 1, 3}, true);
    assert StrongBut(g.heap, g.heap.body[3], {0, 1, 3}, false);
  }

  /** A run: the metatable is set, the register that held it is overwritten, `atomic` marks, and the sweep begins. At
      its end the main thread still holds table 1, whose metatable is gone. */
  method LostMetatable(s: Collector) returns (ghost after: Global, ghost kept: set<Ref>)
    requires s.g == BeforeLoss()
    modifies s
    ensures FlippedBut(after, {1}) && Evolves(AfterLoss(), after.(currentwhite := false), {0, 1, 2, 3} - kept)
    ensures after.owned.allgc == [2, 1, 3] && s.g == FreedAt(after.(gcstate := SwpAllGc), AllGc, 0)
    ensures 1 in s.g.heap.body && s.g.heap.body[1].Table? && s.g.heap.body[1].tmeta == Coll(2) && 2 !in s.g.heap.body
    ensures Accessible(s.g, 1) && !Safe(s.g)
  {
    hide Inv, Marking, Evolves, FlippedBut, Splits, ClosedUnderKeeping, RootsMarked, RootsIn, LosesMeta, Accessible,
      Safe;
    BeforeLossInv();
    Members(BeforeLoss());
    Members(AfterLoss());
    SetMetatable(s, 1, Coll(2));
    s.g := WithBody(s.g, 0, Thread([Coll(1), Nil], []));
    assert s.g.heap.body == AfterLoss().heap.body;
    assert s.g == AfterLoss();
    ghost var c := Ctx(true, [], View(false, {}, {1}), {}, {0, 1, 3});
    AfterLossMarking(c);
    ghost var moved;
    kept, moved := s.Atomic(c);
    after := s.g;
    AtomicLeft(after, kept);
    AllGcLeft(AfterLoss().owned, after.owned, moved);
    s.g := s.g.(gcstate := SwpAllGc);
    var freed := s.SweepOne(AllGc, 0);
    LostForGood(s.g);
  }

  lemma AllGcLeft(a: Owned, b: Owned, moved: seq<Ref>)
    requires Splits(a, b, moved)
    ensures b.allgc == a.allgc
  {}

  /** After `atomic`, table 2 is dead. */
  lemma AtomicLeft(g: Global, kept: set<Ref>)
    requires FlippedBut(g, {1}) && {0, 1, 3} <= kept <= LiveSet(g.color, g.currentwhite) <= {0, 1, 3}
    requires Evolves(AfterLoss(), g.(currentwhite := false), {0, 1, 2, 3} - kept)
    ensures UpsOk(g.heap) && 0 in g.heap.body && 1 in g.heap.body && 2 in g.heap.body && 2 in g.color &&
            g.color[2] == White(!g.currentwhite)
    ensures g.heap.body[0] == Thread([Coll(1), Nil], []) && g.heap.body[1].Table? && g.heap.body[1].tmeta == Coll(2)
    ensures g.roots == AfterLoss().roots
  {
    hide Owners, OwnedOk, FullyClosedBut, RootsIn, TwupsLive;
    var b := g.(currentwhite := false);
    assert AfterLoss().heap.body.Keys == {0, 1, 2, 3};
    assert BodyEvolves(AfterLoss().heap.body[0], b.heap.body[0], {0, 1, 2, 3} - kept);
    assert BodyEvolves(AfterLoss().heap.body[1], b.heap.body[1], {0, 1, 2, 3} - kept);
    assert 2 !in LiveSet(g.color, g.currentwhite);
  }

  lemma LostForGood(g: Global)
    requires g.roots == AfterLoss().roots && 0 in g.heap.body && g.heap.body[0] == Thread([Coll(1), Nil], [])
    requires 1 in g.heap.body && g.heap.body[1].Table? && g.heap.body[1].tmeta == Coll(2) && 2 !in g.heap.body
    ensures Accessible(g, 1) && !Safe(g)
  {
    forall s: set<Ref> | RootsIn(g.roots, g.owned, s) && FullyClosed(g.heap, s) ensures 1 in s {
      assert Full(g.heap, g.heap.body[0], s) && Coll(1) in g.heap.body[0].stack;
    }
    if Safe(g) { SafeKeepsMeta(g); }
  }

  /** In a safe state the metatable would be there. */
  lemma SafeKeepsMeta(g: Global)
    requires g.roots == AfterLoss().roots && 0 in g.heap.body && g.heap.body[0] == Thread([Coll(1), Nil], [])
    requires 1 in g.heap.body && g.heap.body[1].Table? && g.heap.body[1].tmeta == Coll(2) && Safe(g)
    ensures 2 in g.heap.body
  {
    var live := LiveSet(g.color, g.currentwhite);
    assert Full(g.heap, g.heap.body[0], live) && Coll(1) in g.heap.body[0].stack;
    assert Full(g.heap, g.heap.body[1], live);
  }

  // ----- weak tables before `atomic` -----

  /** Before `atomic`: a barrier made table 1, which has weak values and a used array, gray. */
  function BeforeAtomic(): Global {
    Global(map[0 := Gray, 1 := Gray],
      Heap(map[0 := Thread([Coll(1)], []), 1 := Table(WeakValues, Nil, [Nil], [])], map[]), false, AtomicWait,
           Owned([1], [], [], []), NoSweep, GrayLists([1], [0], [], [], []), [], Roots(0, 0, Nil, []))
  }

  lemma AtomicMembers(g: Global)
    requires g == BeforeAtomic()
    ensures g.color.Keys == {0, 1} == g.heap.body.Keys && Marked(g.color) == {0, 1} && LiveSet(g.color, false) == {0, 1}
    ensures forall o :: Owners(g.owned, o) == if o == 1 then 1 else 0
    ensures forall o :: Listed(g.lists, g.lists.grayagain, o) == if o == 0 || o == 1 then 1 else 0
  {}

  lemma AtomicLists(g: Global)
    requires g == BeforeAtomic()
    ensures ColorsOk(g.color, g.currentwhite, g.heap, g.owned, {}) &&
            ListsOk(g.color, g.heap, g.lists, g.lists.grayagain)
    ensures GraysListed(g.color, g.owned, g.lists, g.lists.grayagain, {}) && WeakListsOk(g.heap, [], [], [], {0, 1})
    ensures RootsIn(g.roots, g.owned, {0, 1}) && RootsMarked(g)
  {
    AtomicMembers(g);
    hide Owners, Listed;
  }

  lemma AtomicClosed(g: Global)
    requires g == BeforeAtomic()
    ensures FullyClosed(g.heap, {0, 1}) && TouchedOk(g.heap, {0, 1})
    ensures forall view :: Progress({0, 1}, g.heap, g.lists, g.gcstate, g.twups, g.lists.grayagain, view, {})
  {
    assert Full(g.heap, g.heap.body[0], {0, 1}) && Full(g.heap, g.heap.body[1], {0, 1});
    assert Pending(g.lists, g.lists.grayagain, 0) && Pending(g.lists, g.lists.grayagain, 1);
  }

  lemma BeforeAtomicInv()
    ensures Inv(BeforeAtomic())
  {
    var g := BeforeAtomic();
    AtomicMembers(g);
    AtomicLists(g);
    AtomicClosed(g);
    AtomicFacts(g);
    hide BeforeAtomic, Owners, Listed, ColorsOk, ListsOk, GraysListed, WeakListsOk, RootsIn, RootsMarked, FullyClosed,
      TouchedOk, Progress, LiveSet, Shape, PhaseOk;
    WaitingInv(g);
  }

  lemma AtomicFacts(g: Global)
    requires g == BeforeAtomic()
    ensures g.gcstate.AtomicWait? && g.lists.weak == [] && g.lists.ephemeron == [] && g.lists.allweak == [] &&
            g.owned.finobj == []
    ensures Shape(g.color.Keys, g.heap, g.owned, g.roots, g.twups) && PhaseOk(g, Running(g.color.Keys, g.color.Keys))
  {
    AtomicMembers(g);
    hide Owners, Listed, Shape;
    ShapeSmall(g.color.Keys, g.heap, g.owned);
  }

  /** What the step does before `atomic` puts a table on the list that `atomic` expects to be empty. */
  method AssertionFails(s: Collector)
    requires s.g == BeforeAtomic()
    modifies s
    ensures Propagates(BeforeAtomic(), s.g) && s.g.gcstate.AtomicWait? && s.g.lists.gray == [] && s.g.lists.weak != []
  {
    hide Inv, Marking, Propagates, Work, RootsMarked, RootsIn;
    BeforeAtomicInv();
    ghost var keys := s.g.color.Keys;
    InvBounded(s.g);
    StopProgram(s.g, keys, keys);
    s.PropagateAll(Running(keys, keys).(stopped := true));
    PropagatesFrame(BeforeAtomic(), s.g);
  }

  // ----- a sweep that goes astray -----

  /** In the middle of the sweep of objects to be finalized: userdatum 1 was swept, 2 was not. */
  function BeforeStray(): Global {
    Global(map[0 := Gray, 1 := White(true), 2 := Black],
      Heap(map[0 := Thread([], []), 1 := Udata(Nil, Nil), 2 := Udata(Nil, Nil)], map[]), true,
           SwpToBeFnz, Owned([], [], [1, 2], []), At(ToBeFnz, 1), GrayLists([], [], [], [], []), [],
             Roots(0, 0, Nil, []))
  }

  lemma StrayMembers(g: Global)
    requires g == BeforeStray()
    ensures g.color.Keys == {0, 1, 2} == g.heap.body.Keys && LiveSet(g.color, true) == {0, 1, 2}
    ensures forall o :: Owners(g.owned, o) == if o == 1 || o == 2 then 1 else 0
    ensures g.owned.tobefnz[..1] == [1] && g.owned.tobefnz[1..] == [2] && 2 in g.owned.tobefnz[1..]
  {}

  lemma StraySafe(g: Global)
    requires g == BeforeStray()
    ensures Safe(g) && FixedOk(g.color, g.heap, g.owned.fixedgc) && NeverBlack(g.color, g.heap) &&
            TwupsLive(g.color, g.currentwhite, g.heap, g.twups)
  {
    StrayMembers(g);
    hide Owners;
    assert Full(g.heap, g.heap.body[0], {0, 1, 2}) && Full(g.heap, g.heap.body[1], {0, 1, 2}) &&
           Full(g.heap, g.heap.body[2], {0, 1, 2});
  }

  lemma BeforeStrayInv()
    ensures Inv(BeforeStray()) && Strays(BeforeStray())
  {
    var g := BeforeStray();
    StrayMembers(g);
    StraySafe(g);
    StrayFacts(g);
    hide BeforeStray, Unmarking, SweptSoFar, Strays, LiveSet, Owners;
    SweptInv(g);
  }

  lemma StrayFacts(g: Global)
    requires g == BeforeStray()
    ensures IsSweeping(g.gcstate) && Unmarking(g) && SweptSoFar(g) && g.owned.tobefnz != [] && Strays(g)
  {
    StrayMembers(g);
    StraySafe(g);
    hide Owners, Safe, FixedOk, NeverBlack, TwupsLive, Shape;
    ShapeSmall(g.color.Keys, g.heap, g.owned);
  }

  /** A finalizer is called, and the sweep goes on: it comes to its end, and object 2 was left out. */
  method StrayedSweep(s: Collector) returns (ghost swept: Global)
    requires s.g == BeforeStray()
    modifies s
    ensures SliceDone(PopFinalizer(BeforeStray()), swept, AllGc) && s.g == swept.(gcstate := SwpEnd)
    ensures s.g.owned.tobefnz == [2] && 2 in s.g.color && s.g.color[2] == Black && !Inv(s.g)
  {
    hide Inv, Unmarking, SliceDone, SameLive;
    BeforeStrayInv();
    StrayedParts();
    var o := s.Udata2Finalize();
    swept := s.SweepSlice(SwpEnd, NoSweep);
    StrayedLeft(swept, s.g);
  }

  lemma StrayedParts()
    ensures var g := PopFinalizer(BeforeStray());
      && Unmarking(g) && g.owned == Owned([1], [], [2], []) && g.sweepgc == At(AllGc, 1) &&
         ListOf(g.owned, AllGc) == [1]
      && SweptBefore(g) && 2 in g.color && g.color[2] == Black && g.gcstate.SwpToBeFnz?
  {
    hide Inv, Unmarking, Sweeping, Strays;
    var g, g' := BeforeStray(), PopFinalizer(BeforeStray());
    BeforeStrayInv();
    StraySweeping(g);
    SweepingUnmarking(g);
    PopUnmarking(g, g');
    assert g'.owned == Owned([1], [], [2], []);
    assert ListOf(g'.owned, AllGc)[..1] == [1];
  }

  lemma StraySweeping(g: Global)
    requires Inv(g) && g.gcstate.SwpToBeFnz?
    ensures Sweeping(g)
  {
    hide Sweeping;
  }

  lemma StrayedLeft(swept: Global, g: Global)
    requires SliceDone(PopFinalizer(BeforeStray()), swept, AllGc) && swept.gcstate.SwpToBeFnz?
    requires g == if swept.sweepgc.At? then swept else swept.(gcstate := SwpEnd, sweepgc := NoSweep)
    ensures g == swept.(gcstate := SwpEnd)
    ensures g.owned.tobefnz == [2] && 2 in g.color && g.color[2] == Black && !Inv(g)
  {
    StrayedParts();
    hide Unmarking;
    assert 2 !in [1];
    assert !Clean(g.color, g.currentwhite, [2]) by { assert 2 in [2]; }
  }
}
