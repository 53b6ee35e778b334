/** The collector of `lgc.c`, working in place on one global state. */
module GcCollector {
  import opened GcState
  import opened GcMarkLemmas
  import opened GcAtomicLemmas
  import opened GcSweepLemmas
  import opened GcCycleLemmas

  /** `GCSWEEPMAX`, the number of objects swept in one step, for a 24-byte `TString`. */
  const SweepMax: nat := 85

  /** The phase and sweep pointer after a sweep phase. */
  predicate FollowedBy(p: Phase, next: Phase, at: SweepPtr)
  {
    || (p.SwpAllGc? && next.SwpFinObj? && at == At(FinObj, 0))
    || (p.SwpFinObj? && next.SwpToBeFnz? && at == At(ToBeFnz, 0))
    || (p.SwpToBeFnz? && next.SwpEnd? && at == NoSweep)
  }

  ghost function SweepTodo(g: Global): nat
  {
    match g.sweepgc
    case NoSweep => 0
    case At(l, i) => if i <= |ListOf(g.owned, l)| then 1 + |ListOf(g.owned, l)| - i else 0
  }

  /** How far a phase is from the end of the cycle. */
  function Rank(p: Phase): nat
  {
    match p
    case Propagate => 7 case AtomicWait => 6 case SwpAllGc => 5 case SwpFinObj => 4 case SwpToBeFnz => 3
    case SwpEnd => 2 case CallFin => 1 case Pause => 0 case InsideAtomic => 8
  }

  /** What is left to do in the current phase. */
  ghost function Todo(g: Global): nat
  {
    if g.gcstate.Propagate? then Work(g)
    else if IsSweeping(g.gcstate) then SweepTodo(g)
    else |g.owned.tobefnz|
  }

  /** Visited after the marking phase, this table goes on the list `weak`: its array may hold what is to be cleared. */
  predicate Clearing(g: Global, h: Ref)
  {
    !g.gcstate.Propagate? && h in g.heap.body && g.heap.body[h].Table? && g.heap.body[h].mode.WeakValues? &&
      g.heap.body[h].slots != []
  }

  predicate ClearingFirst(g: Global) { g.lists.gray != [] && Clearing(g, g.lists.gray[0]) }

  lemma WeakStays(a: Global, b: Global)
    requires Propagates(a, b)
    ensures a.lists.weak != [] ==> b.lists.weak != []
  {}

  predicate WeakTable(h: Heap, o: Ref) { o in h.body && h.body[o].Table? && !h.body[o].mode.Strong? }

  /** No table that is white or gray has a weak mode. */
  ghost predicate NoWeakLeft(g: Global) { forall o :: WeakTable(g.heap, o) ==> o in g.color && g.color[o] == Black }

  /** No weak table was put on a list or lost its color. */
  ghost predicate Calm(a: Global, b: Global)
  {
    && b.lists.weak == a.lists.weak && b.lists.ephemeron == a.lists.ephemeron
    && (forall o :: WeakTable(b.heap, o) <==> WeakTable(a.heap, o))
    && (forall o :: WeakTable(a.heap, o) && o in a.color && a.color[o] == Black ==> o in b.color && b.color[o] == Black)
  }

  lemma CalmMarks(a: Global, b: Global)
    requires Marks(a, b)
    ensures Calm(a, b)
  {
    assert forall o :: o in a.color && a.color[o] == Black ==> o in Marked(a.color);
  }

  lemma CalmRefl(a: Global)
    ensures Calm(a, a)
  {}

  lemma CalmLists(a: Global, b: Global)
    requires Calm(a, b)
    ensures b.lists.weak == a.lists.weak && b.lists.ephemeron == a.lists.ephemeron
  {}

  lemma CalmHeapStep(a: Global, b: Global)
    requires b == a.(heap := b.heap) && HeapStep(a.heap, b.heap)
    ensures Calm(a, b)
  {}

  lemma CalmThread(a: Global, o: Ref)
    requires o in a.heap.body && a.heap.body[o].Thread?
    ensures Calm(a, a.(color := a.color[o := Gray], lists := Link(a.lists, InGrayAgain, o)))
  {}

  lemma CalmTwups(a: Global, b: Global, o: Ref)
    requires Calm(a, b)
    ensures Calm(a, b.(twups := [o] + b.twups))
  {}

  lemma CalmCompose(a: Global, b: Global, c: Global)
    requires Calm(a, b) && Calm(b, c)
    ensures Calm(a, c)
  {}

  /** The visit of a gray object, if it is not a weak table. */
  lemma CalmVisit(start: Global, a: Global, b: Global, o: Ref)
    requires o in start.color && start.color[o] == Gray && a.heap == start.heap && a.color == start.color[o := Black]
    requires a.lists == start.lists.(gray := a.lists.gray) && (!WeakTable(start.heap, o) ==> Calm(a, b))
    ensures NoWeakLeft(start) ==> Calm(start, b)
  {}

  lemma GrayHead(g: Global, c: Ctx)
    requires Marking(g, c) && g.lists.gray != []
    ensures g.lists.gray[0] in g.color && g.color[g.lists.gray[0]] == Gray
  {
    assert g.lists.gray[0] in multiset(g.lists.gray);
    assert Listed(g.lists, Saved(g.lists, g.gcstate, c), g.lists.gray[0]) > 0;
  }

  lemma CalmNoWeak(a: Global, b: Global)
    requires Calm(a, b) && NoWeakLeft(a)
    ensures NoWeakLeft(b)
  {}

  /** After a slice: the rest of the list lies behind the pointer, and the other lists are as they were. */
  ghost predicate SliceDone(a: Global, b: Global, l: ListName)
  {
    && OthersKept(a, b, l) && Elsewhere(a, b, l)
    && (if b.sweepgc.At? then b.sweepgc.list == l && SweptBefore(b) && SweepTodo(b) < SweepTodo(a)
        else Clean(b.color, b.currentwhite, ListOf(b.owned, l)))
  }

  lemma SliceDoneAt(a: Global, b: Global, c: Global, l: ListName)
    requires OthersKept(a, b, l) && Elsewhere(a, b, l) && c == b.(sweepgc := c.sweepgc)
    requires if c.sweepgc.At? then c.sweepgc.list == l && SweptBefore(c) && SweepTodo(c) < SweepTodo(a)
             else Clean(c.color, c.currentwhite, ListOf(c.owned, l))
    ensures SliceDone(a, c, l)
  {
    hide Clean, SweptBefore, SweepTodo;
  }

  ghost function FreedAt(g: Global, l: ListName, i: nat): Global
    requires i < |ListOf(g.owned, l)|
  {
    var s := ListOf(g.owned, l);
    g.(color := g.color - {s[i]}, heap := Freed(g.heap, s[i]), owned := WithList(g.owned, l, s[..i] + s[i + 1..]))
  }

  ghost function WhitenedAt(g: Global, l: ListName, i: nat): Global
    requires i < |ListOf(g.owned, l)|
  {
    g.(color := g.color[ListOf(g.owned, l)[i] := White(g.currentwhite)])
  }

  /** What lies before the sweep pointer was swept. */
  ghost predicate SweptBefore(g: Global)
  {
    g.sweepgc.At? ==>
      var s := ListOf(g.owned, g.sweepgc.list);
      g.sweepgc.index <= |s| && Clean(g.color, g.currentwhite, s[..g.sweepgc.index])
  }

  /** What `atomic` makes of a state: it keeps `kept`, which holds the roots and what its members keep alive, cuts weak
      entries because of other objects only, and hands the objects `moved`, which are not kept, to their finalizers. */
  ghost predicate Turned(a: Global, b: Global, stale: set<Ref>, kept: set<Ref>, moved: seq<Ref>)
  {
    && Evolves(a, b.(currentwhite := a.currentwhite), a.color.Keys - kept)
    && kept <= LiveSet(b.color, b.currentwhite) && RootsIn(a.roots, a.owned, kept)
    && ClosedUnderKeeping(a.heap, kept, stale)
    && Splits(a.owned, b.owned, moved) && forall o :: o in moved ==> o !in kept
  }

  /** Between the two states the unmarked objects were found, and afterwards nothing live changed. */
  ghost predicate Collected(a: Global, b: Global, stale: set<Ref>)
  {
    exists kept: set<Ref>, moved: seq<Ref>, after: Global :: Turned(a, after, stale, kept, moved) && Settles(after, b)
  }

  lemma CollectedSettles(a: Global, b: Global, c: Global, stale: set<Ref>)
    requires Collected(a, b, stale) && Settles(b, c)
    ensures Collected(a, c, stale)
  {
    hide Turned, Settles;
    var kept: set<Ref>, moved: seq<Ref>, after: Global :| Turned(a, after, stale, kept, moved) && Settles(after, b);
    SettlesCompose(after, b, c);
  }

  /** Marking before does not change what is kept. */
  lemma CollectedFrom(a: Global, b: Global, c: Global, stale: set<Ref>)
    requires Evolves(a, b, {}) && b.owned == a.owned && Collected(b, c, stale)
    ensures Collected(a, c, stale)
  {
    hide Turned, Settles, Evolves;
    var kept: set<Ref>, moved: seq<Ref>, after: Global :| Turned(b, after, stale, kept, moved) && Settles(after, c);
    TurnedFrom(a, b, after, stale, kept, moved);
  }

  lemma TurnedFrom(a: Global, b: Global, c: Global, stale: set<Ref>, kept: set<Ref>, moved: seq<Ref>)
    requires Evolves(a, b, {}) && b.owned == a.owned && Turned(b, c, stale, kept, moved)
    ensures Turned(a, c, stale, kept, moved)
  {
    hide Evolves, RootsIn, ClosedUnderKeeping, Splits, LiveSet;
    EvolvesFrame(a, b, {});
    KeepsBack(a, b, kept, stale);
    EvolvesMore(a, b, {}, a.color.Keys - kept);
    EvolvesCompose(a, b, c.(currentwhite := a.currentwhite), a.color.Keys - kept);
  }

  lemma MarksEvolve(a: Global, b: Global)
    requires Marks(a, b) && a.color.Keys == a.heap.body.Keys
    ensures Evolves(a, b, {})
  {
    hide Marks, Propagates, Evolves;
    MarksPropagate(a, b);
    PropagatesEvolve(a, b, {});
  }

  lemma RestingKeys(g: Global)
    requires Resting(g)
    ensures g.color.Keys == g.heap.body.Keys
  {
    hide OwnedOk, UpsOk, ThreadsOk, SweptSoFar, Safe, FixedOk, NeverBlack, TwupsLive;
  }

  lemma StartEvolves(a: Global, b: Global)
    requires b == a.(lists := b.lists, gcstate := b.gcstate) && a.color.Keys == a.heap.body.Keys
    ensures Evolves(a, b, {})
  {}

  lemma TurnedBy(a: Global, after: Global, b: Global, stale: set<Ref>, kept: set<Ref>, moved: seq<Ref>)
    requires Evolves(a, after.(currentwhite := a.currentwhite), a.color.Keys - kept) && SameLive(after, b)
    requires kept <= LiveSet(after.color, after.currentwhite) && RootsIn(a.roots, a.owned, kept)
    requires ClosedUnderKeeping(a.heap, kept, stale)
    requires Splits(a.owned, after.owned, moved) && forall o :: o in moved ==> o !in kept
    ensures Collected(a, b, stale)
  {
    hide Evolves, SameLive, RootsIn, ClosedUnderKeeping, Splits, Settles;
    StepSettles(after, b);
    assert Turned(a, after, stale, kept, moved);
  }

  lemma StillMarking(a: Global, b: Global, c: Global)
    requires Evolves(a, b, {}) && b.owned == a.owned && b.gcstate.Propagate? && Propagates(b, c.(gcstate := Propagate))
    ensures Evolves(a, c, {}) && c.owned == a.owned
  {
    hide Evolves, Propagates;
    EvolvesFrame(a, b, {});
    PropagatesFrame(b, c.(gcstate := Propagate));
    PropagatesEvolve(b, c.(gcstate := Propagate), {});
    EvolvesCompose(a, b, c.(gcstate := Propagate), {});
    EvolvesPhase(a, c.(gcstate := Propagate), c);
  }

  lemma EvolvesPhase(a: Global, b: Global, c: Global)
    requires Evolves(a, b, {}) && c == b.(gcstate := c.gcstate)
    ensures Evolves(a, c, {})
  {
    hide BodyEvolves, Marked;
  }

  class Collector {
    var g: Global
    var gcfinnum: nat
    var emergency: bool

    constructor (g: Global)
      ensures this.g == g && gcfinnum == 0 && !emergency
    {
      this.g, this.gcfinnum, this.emergency := g, 0, false;
    }

    method ReallyMarkObject(o: Ref, ghost c: Ctx)
      requires Marking(g, c) && o in g.color && g.color[o].White? && o in c.bound && o in g.heap.body
      modifies this`g
      ensures Marking(g, c) && Marks(old(g), g) && o in Marked(g.color)
      ensures Whites(g.color) <= Whites(old(g.color)) - {o}
      ensures old(g.heap.body[o]).Str? ==> Marked(g.color) == Marked(old(g.color)) + {o} && g.lists == old(g.lists)
      decreases Whites(g.color), 0
    {
      hide Marking, Listed, Visited, Pending, Marks, Whites, Link;
      ghost var c1 := c.(busy := c.busy + {o});
      ghost var start := g;
      if o in g.owned.fixedgc { FixedAreStrings(g, c, o); }
      MarkOne(g, c, o, g.(color := g.color[o := Gray]), c1);
      MarksOne(g, o, Gray, g.(color := g.color[o := Gray]));
      g := g.(color := g.color[o := Gray]);
      match g.heap.body[o] {
        case Str =>
          Recolour(g, c1, o, Black, g.(color := g.color[o := Black]));
          MarksThenRecolour(start, g, o, Black, g.(color := g.color[o := Black]));
          g := g.(color := g.color[o := Black]);
          LeafVisited(g, c1, o);
        case Udata(_, _) =>
          MarkUserdata(o, c1, start);
          MarksFrame(start, g);
        case _ =>
          LinkOne(g, c1, o, InGray, g.(lists := Link(g.lists, InGray, o)));
          MarksOne(start, o, Gray, g.(lists := Link(g.lists, InGray, o)));
          g := g.(lists := Link(g.lists, InGray, o));
      }
      assert Whites(g.color) <= Whites(start.color) - {o};
      Settle(g, c1, o, c);
    }

    /** The rest of `reallymarkobject` for a userdatum, from its metatable on. */
    method MarkUserdata(o: Ref, ghost c: Ctx, ghost start: Global)
      requires Marking(g, c) && o in c.busy && o in Marked(g.color) && o in g.heap.body && g.heap.body[o].Udata?
      requires Listed(g.lists, Saved(g.lists, g.gcstate, c), o) == 0 && o !in g.owned.fixedgc
      requires Marks(start, g) && o in start.color && start.color[o].White? && o !in Whites(g.color)
      modifies this`g
      ensures Marking(g, c) && Marks(start, g) && o in Marked(g.color) && g.color[o] == Black
      ensures Visited(g.heap, g.lists, g.gcstate, g.twups, c.view, o, Marked(g.color)) && g.heap == old(g.heap)
      ensures Whites(g.color) <= Whites(old(g.color)) && g.gcstate == old(g.gcstate)
      decreases Whites(g.color), 2
    {
      hide Marking, Listed, Visited, Marks, Whites;
      ghost var before := g;
      var Udata(meta, user) := g.heap.body[o];
      BoundInHeap(g, c);
      UdataBound(g, c, o);
      MarksRefl(g);
      MarkValue(meta, c, before);
      MarksFrame(before, g);
      MarksKeepUnlisted(before, g, c, o);
      MarksCompose(start, before, g);
      Recolour(g, c, o, Black, g.(color := g.color[o := Black]));
      MarksThenRecolour(start, g, o, Black, g.(color := g.color[o := Black]));
      g := g.(color := g.color[o := Black]);
      ghost var between := g;
      MarkValue(user, c, start);
      LeafVisited(g, c, o);
    }

    method MarkValue(v: Value, ghost c: Ctx, ghost start: Global)
      requires Marking(g, c) && Marks(start, g) && In(v, c.bound)
      modifies this`g
      ensures Marking(g, c) && Marks(start, g) && In(v, Marked(g.color))
      ensures Marked(old(g.color)) <= Marked(g.color) && Whites(g.color) <= Whites(old(g.color))
      ensures g.heap == old(g.heap) && g.gcstate == old(g.gcstate) && g.roots == old(g.roots)
      ensures forall o :: o in Marked(old(g.color)) ==> o in g.color && g.color[o] == old(g.color[o])
      decreases Whites(g.color), 1
    {
      hide Marking, Marks, Whites;
      if v.Coll? {
        BoundInHeap(g, c);
        if g.color[v.ref].White? {
          ReallyMarkObject(v.ref, c);
          MarksFrame(old(g), g);
          MarksCompose(start, old(g), g);
        }
      }
    }

    /** `markvalue` on each element in turn. */
    method MarkValues(vs: seq<Value>, ghost c: Ctx, ghost start: Global)
      requires Marking(g, c) && Marks(start, g) && AllIn(vs, c.bound)
      modifies this`g
      ensures Marking(g, c) && Marks(start, g) && AllIn(vs, Marked(g.color))
      ensures Marked(old(g.color)) <= Marked(g.color)
      ensures g.heap == old(g.heap) && g.gcstate == old(g.gcstate)
    {
      hide Marking, Marks;
      for i := 0 to |vs|
        invariant Marking(g, c) && Marks(start, g) && g.heap == old(g.heap) && g.gcstate == old(g.gcstate)
        invariant Marked(old(g.color)) <= Marked(g.color)
        invariant forall j :: 0 <= j < i ==> In(vs[j], Marked(g.color))
      {
        MarkValue(vs[i], c, start);
      }
    }

    method TraverseStrongTable(h: Ref, ghost c: Ctx)
      requires Visiting(g, c, h) && g.heap.body[h].Table? && g.heap.body[h].mode.Strong? && g.color[h] == Black
      requires In(g.heap.body[h].tmeta, Marked(g.color))
      modifies this`g
      ensures Marking(g, c) && Marks(old(g), g) && Ready(g, c, h)
    {
      hide Marking, Marks, Listed;
      ghost var start := g;
      MarksRefl(g);
      VisitingBound(g, c, h);
      var Table(_, meta, slots, nodes) := g.heap.body[h];
      MarkValues(slots, c, start);
      for i := 0 to |nodes|
        invariant Marking(g, c) && Marks(start, g) && AllIn(slots, Marked(g.color)) && In(meta, Marked(g.color))
        invariant forall j :: 0 <= j < i ==> EntryIn(nodes[j], Marked(g.color))
      {
        if nodes[i].val != Nil {
          assert EntryIn(nodes[i], c.bound);
          MarkValue(nodes[i].key, c, start);
          MarkValue(nodes[i].val, c, start);
        }
      }
      VisitingKept(start, g, c, h);
    }

    /** Whether a weak table may drop an entry because of `v`; strings are marked and never dropped. */
    method IsCleared(v: Value, ghost c: Ctx, ghost start: Global) returns (cleared: bool)
      requires Marking(g, c) && Marks(start, g) && In(v, g.color.Keys) && StrIn(g.heap, v, c.bound)
      modifies this`g
      ensures Marking(g, c) && Marks(start, g)
      ensures cleared ==>
              v.Coll? && v.ref in g.color && g.color[v.ref].White? && v.ref in g.heap.body && !g.heap.body[v.ref].Str?
      ensures !cleared ==> In(v, Marked(g.color))
      ensures g.heap == old(g.heap) && g.gcstate == old(g.gcstate) && g.color.Keys == old(g.color.Keys)
      ensures Marked(old(g.color)) <= Marked(g.color) && OnlyStrings(g.heap, Marked(g.color) - Marked(old(g.color)))
      ensures g.lists == old(g.lists) && Whites(g.color) <= Whites(old(g.color))
      ensures forall o :: o in Marked(old(g.color)) ==> o in g.color && g.color[o] == old(g.color[o])
    {
      hide Marking, Marks;
      if !v.Coll? { return false; }
      BoundInHeap(g, c);
      if g.heap.body[v.ref].Str? {
        if g.color[v.ref].White? {
          ReallyMarkObject(v.ref, c);
          MarksFrame(old(g), g);
          MarksCompose(start, old(g), g);
        }
        return false;
      }
      return g.color[v.ref].White?;
    }

    /** In a table with weak values the keys are marked; the values only decide whether the table
        will have to be cleared. */
    method TraverseWeakValue(h: Ref, ghost c: Ctx)
      requires Visiting(g, c, h) && g.heap.body[h].Table? && g.heap.body[h].mode.WeakValues? && g.color[h] == Gray
      requires In(g.heap.body[h].tmeta, Marked(g.color))
      modifies this`g
      ensures Marking(g, c) && Propagates(old(g), g) && Work(g) <= Work(old(g)) && Ready(g, c, h)
      ensures old(Clearing(g, h)) ==> h in g.lists.weak
    {
      hide Marking, Marks, Listed, Propagates, Work, StringsIn, IsSuffix;
      ghost var start := g;
      MarksRefl(g);
      VisitingBound(g, c, h);
      StringsHeld(g, c, h);
      var Table(_, meta, slots, nodes) := g.heap.body[h];
      var hasclears := |slots| > 0;
      for i := 0 to |nodes|
        invariant Marking(g, c) && Marks(start, g) && In(meta, Marked(g.color)) && g.heap == start.heap
        invariant g.gcstate == start.gcstate && g.color.Keys == start.color.Keys
        invariant forall j :: 0 <= j < i && nodes[j].val != Nil ==> In(nodes[j].key, Marked(g.color))
        invariant !hasclears ==> slots == [] && forall j :: 0 <= j < i ==> EntryIn(nodes[j], Marked(g.color))
      {
        if nodes[i].val != Nil {
          assert nodes[i] in nodes;
          MarkValue(nodes[i].key, c, start);
          MarksFrame(start, g);
          if !hasclears {
            assert StrIn(g.heap, nodes[i].val, c.bound) by { StringsHeldAt(g.heap, slots, nodes, i, c.bound); }
            hasclears := IsCleared(nodes[i].val, c, start);
          }
        }
      }
      VisitingKept(start, g, c, h);
      MarksPropagate(start, g);
      ghost var before := g;
      if g.gcstate.Propagate? {
        LinkVisiting(g, c, h, InGrayAgain);
        g := g.(lists := Link(g.lists, InGrayAgain, h));
        PropagatesCompose(start, before, g);
      } else if hasclears {
        LinkVisiting(g, c, h, InWeak);
        g := g.(lists := Link(g.lists, InWeak, h));
        PropagatesCompose(start, before, g);
      }
    }

    /** `if (valiswhite(v)) { marked = 1; reallymarkobject(...) }`. */
    method MarkIfWhite(v: Value, ghost c: Ctx, ghost start: Global) returns (marked: bool)
      requires Marking(g, c) && Marks(start, g) && In(v, c.bound)
      modifies this`g
      ensures Marking(g, c) && Marks(start, g) && In(v, Marked(g.color))
      ensures marked ==> Whites(g.color) < Whites(old(g.color))
      ensures !marked ==> g == old(g)
      ensures Marked(old(g.color)) <= Marked(g.color) && g.heap == old(g.heap) && g.gcstate == old(g.gcstate)
      ensures g.color.Keys == old(g.color.Keys) && Whites(g.color) <= Whites(old(g.color))
    {
      hide Marking, Marks;
      if !v.Coll? { return false; }
      BoundInHeap(g, c);
      marked := g.color[v.ref].White?;
      if marked {
        ReallyMarkObject(v.ref, c);
        MarksFrame(old(g), g);
        MarksCompose(start, old(g), g);
      }
    }

    method MarkSlots(slots: seq<Value>, ghost c: Ctx, ghost start: Global) returns (marked: bool)
      requires Marking(g, c) && Marks(start, g) && AllIn(slots, c.bound)
      modifies this`g
      ensures Marking(g, c) && Marks(start, g) && AllIn(slots, Marked(g.color))
      ensures marked ==> Whites(g.color) < Whites(old(g.color))
      ensures !marked ==> g == old(g)
      ensures Marked(old(g.color)) <= Marked(g.color) && g.heap == old(g.heap) && g.gcstate == old(g.gcstate)
      ensures g.color.Keys == old(g.color.Keys)
    {
      hide Marking, Marks;
      marked := false;
      for i := 0 to |slots|
        invariant Marking(g, c) && Marks(start, g) && g.heap == old(g.heap) && g.gcstate == old(g.gcstate)
        invariant marked ==> Whites(g.color) < Whites(old(g.color))
        invariant !marked ==> g == old(g)
        invariant Marked(old(g.color)) <= Marked(g.color) && g.color.Keys == old(g.color.Keys)
        invariant forall j :: 0 <= j < i ==> In(slots[j], Marked(g.color))
      {
        var m := MarkIfWhite(slots[i], c, start);
        marked := marked || m;
      }
    }

    /** The hash part of an ephemeron table: a value is marked once its key is. */
    method TraverseEphemeronNodes(nodes: seq<Entry>, ghost c: Ctx, ghost start: Global)
      returns (marked: bool, hasclears: bool, hasww: bool)
      requires Marking(g, c) && Marks(start, g) && NodesIn(nodes, g.color.Keys)
      requires Ephemeral(nodes, c.bound) && StringKeysIn(g.heap, nodes, c.bound)
      modifies this`g
      ensures Marking(g, c) && Marks(start, g) && g.heap == old(g.heap) && Marked(old(g.color)) <= Marked(g.color)
      ensures marked ==> Whites(g.color) < Whites(old(g.color))
      ensures !marked ==> g.lists == old(g.lists) && OnlyStrings(g.heap, Marked(g.color) - Marked(old(g.color)))
      ensures !marked ==> Ephemeral(nodes, Marked(g.color)) && StringKeysIn(g.heap, nodes, Marked(g.color))
      ensures !hasclears ==> NodesIn(nodes, Marked(g.color))
      ensures !hasww ==> ValsIn(nodes, Marked(g.color))
    {
      hide Marking, Marks, NodesIn, Ephemeral, StringKeysIn, ValsIn;
      marked, hasclears, hasww := false, false, false;
      NodesInPrefix(nodes, 0, Marked(g.color), g.heap);
      for i := 0 to |nodes|
        invariant Marking(g, c) && Marks(start, g) && g.heap == old(g.heap) && g.color.Keys == old(g.color.Keys)
        invariant Marked(old(g.color)) <= Marked(g.color) && Whites(g.color) <= Whites(old(g.color))
        invariant marked ==> Whites(g.color) < Whites(old(g.color))
        invariant !marked ==> g.lists == old(g.lists) && OnlyStrings(g.heap, Marked(g.color) - Marked(old(g.color)))
        invariant !marked ==>
                  Ephemeral(nodes[..i], Marked(g.color)) && StringKeysIn(g.heap, nodes[..i], Marked(g.color))
        invariant !hasclears ==> NodesIn(nodes[..i], Marked(g.color))
        invariant !hasww ==> ValsIn(nodes[..i], Marked(g.color))
      {
        ghost var s0 := Marked(g.color);
        var e := nodes[i];
        if e.val != Nil {
          EntryBound(g.heap, nodes, i, g.color.Keys, c.bound);
          var cleared := IsCleared(e.key, c, start);
          ghost var s1 := Marked(g.color);
          BoundInHeap(g, c);
          if cleared {
            hasclears := true;
            if e.val.Coll? && g.color[e.val.ref].White? { hasww := true; }
          } else {
            var m := MarkIfWhite(e.val, c, start);
            marked := marked || m;
          }
        }
        EntryVisited(g.heap, nodes, i, s0, Marked(g.color));
      }
      assert nodes[..|nodes|] == nodes;
    }

    /** In an ephemeron table the array part is marked, and a value is marked once its key is. */
    method TraverseEphemeron(h: Ref, ghost c: Ctx) returns (marked: bool)
      requires Visiting(g, c, h) && g.heap.body[h].Table? && g.heap.body[h].mode.WeakKeys? && g.color[h] == Gray
      requires In(g.heap.body[h].tmeta, Marked(g.color))
      modifies this`g
      ensures Marking(g, c) && Propagates(old(g), g) && Work(g) <= Work(old(g)) && Ready(g, c, h)
      ensures marked ==> Whites(g.color) < Whites(old(g.color))
      ensures !marked ==> g.lists.gray == old(g.lists.gray)
      ensures !marked ==> Converged(g.heap, h, Marked(g.color))
      ensures !marked ==> OnlyStrings(g.heap, Marked(g.color) - Marked(old(g.color)))
      ensures g.lists.ephemeron == old(g.lists.ephemeron) || g.lists.ephemeron == [h] + old(g.lists.ephemeron)
    {
      hide Marking, Marks, Listed, Propagates, Work, StringsIn, IsSuffix, Ephemeral, StringKeysIn, NodesIn, ValsIn,
        AllIn;
      ghost var start := g;
      MarksRefl(g);
      VisitingBound(g, c, h);
      StringsHeld(g, c, h);
      var Table(_, meta, slots, nodes) := g.heap.body[h];
      var inSlots := MarkSlots(slots, c, start);
      ghost var s1 := Marked(g.color);
      var inNodes, hasclears, hasww := TraverseEphemeronNodes(nodes, c, start);
      marked := inSlots || inNodes;
      AllInGrows(slots, s1, Marked(g.color));
      VisitingKept(start, g, c, h);
      MarksPropagate(start, g);
      MarksFrame(start, g);
      LinkEphemeron(h, c, hasclears, hasww, start);
    }

    /** `traverseephemeron` links the table by what it found. */
    method LinkEphemeron(h: Ref, ghost c: Ctx, hasclears: bool, hasww: bool, ghost start: Global)
      requires Visiting(g, c, h) && g.heap.body[h].Table? && g.heap.body[h].mode.WeakKeys? && g.color[h] == Gray
      requires In(g.heap.body[h].tmeta, Marked(g.color)) && AllIn(g.heap.body[h].slots, Marked(g.color))
      requires !hasclears ==> NodesIn(g.heap.body[h].nodes, Marked(g.color))
      requires !hasww ==> ValsIn(g.heap.body[h].nodes, Marked(g.color))
      requires Propagates(start, g) && Work(g) <= Work(start)
      modifies this`g
      ensures Marking(g, c) && Propagates(start, g) && Work(g) <= Work(start) && Ready(g, c, h)
      ensures g.color == old(g.color) && g.heap == old(g.heap) && g.lists.gray == old(g.lists.gray)
      ensures g.lists.ephemeron == old(g.lists.ephemeron) || g.lists.ephemeron == [h] + old(g.lists.ephemeron)
    {
      hide Marking, Marks, Listed, Propagates, Work, StringsIn, IsSuffix, NodesIn, ValsIn, AllIn;
      ghost var before := g;
      if g.gcstate.Propagate? {
        LinkVisiting(g, c, h, InGrayAgain);
        g := g.(lists := Link(g.lists, InGrayAgain, h));
        PropagatesCompose(start, before, g);
      } else if hasww {
        LinkVisiting(g, c, h, InEphemeron);
        g := g.(lists := Link(g.lists, InEphemeron, h));
        PropagatesCompose(start, before, g);
      } else if hasclears {
        ValuesMarked(g, c, h);
        LinkVisiting(g, c, h, InAllWeak);
        g := g.(lists := Link(g.lists, InAllWeak, h));
        PropagatesCompose(start, before, g);
      }
    }

    method TraverseCClosure(o: Ref, ghost c: Ctx)
      requires Visiting(g, c, o) && g.heap.body[o].CClosure? && g.color[o] == Black
      modifies this`g
      ensures Marking(g, c) && Marks(old(g), g) && Ready(g, c, o)
    {
      hide Marking, Marks, Listed;
      ghost var start := g;
      MarksRefl(g);
      VisitingBound(g, c, o);
      MarkValues(g.heap.body[o].cups, c, start);
      VisitingKept(start, g, c, o);
    }

    /** Drops the cached closure if nothing else has marked it, then marks what the prototype holds. */
    method TraverseProto(o: Ref, ghost c: Ctx)
      requires Visiting(g, c, o) && g.heap.body[o].Proto? && g.color[o] == Black
      modifies this`g
      ensures Marking(g, c) && Propagates(old(g), g) && Work(g) <= Work(old(g)) && Ready(g, c, o) && Calm(old(g), g)
    {
      hide Marking, Marks, Listed, Propagates, Work, Calm;
      ghost var start := g;
      VisitingBound(g, c, o);
      var Proto(consts, cache) := g.heap.body[o];
      if cache.Coll? && g.color[cache.ref].White? {
        ghost var next := g.(heap := g.heap.(body := g.heap.body[o := Proto(consts, Nil)]));
        TouchedHolds(g, c);
        TouchedKept(g.heap, next.heap, c.bound, 0);
        MarkingHeapStep(g, c, next);
        g := g.(heap := g.heap.(body := g.heap.body[o := Proto(consts, Nil)]));
      }
      HeapStepPropagates(start, g);
      CalmHeapStep(start, g);
      ghost var between := g;
      MarksRefl(g);
      MarkValues(consts, c, between);
      CalmMarks(between, g);
      CalmCompose(start, between, g);
      VisitingKept(between, g, c, o);
      MarksPropagate(between, g);
      PropagatesCompose(start, between, g);
    }

    /** One upvalue of a closure being visited: an open one is only touched unless in `atomic`. */
    method TraverseUpvalue(u: UpId, ghost c: Ctx, ghost o: Ref)
      requires Visiting(g, c, o) && u in g.heap.ups && In(UpValue(g.heap, u), c.bound)
      modifies this`g
      ensures Visiting(g, c, o) && Propagates(old(g), g) && Work(g) <= Work(old(g))
      ensures UpVisited(g.heap, g.gcstate, c.view.late, u, Marked(g.color))
      ensures !g.heap.body[o].Proto? ==> g.heap.body[o] == old(g.heap.body[o])
      ensures g.color[o] == old(g.color[o]) && Calm(old(g), g)
    {
      hide Marking, Marks, Listed, Propagates, Work, UpValue, Calm;
      ghost var start := g;
      var uv := g.heap.ups[u];
      if uv.Open? && !g.gcstate.InsideAtomic? {
        ghost var next := g.(heap := g.heap.(ups := g.heap.ups[u := uv.(touched := true)]));
        TouchedHolds(g, c);
        TouchedKept(g.heap, next.heap, c.bound, u);
        MarkingHeapStep(g, c, next);
        HeapStepPropagates(g, next);
        CalmHeapStep(g, next);
        KeepNotLate(g, c);
        g := g.(heap := g.heap.(ups := g.heap.ups[u := uv.(touched := true)]));
      } else {
        MarksRefl(g);
        MarkValue(UpValue(g.heap, u), c, start);
        CalmMarks(start, g);
        VisitingKept(start, g, c, o);
        MarksPropagate(start, g);
        if uv.Closed? { UpValueClosed(g.heap, u); }
      }
    }

    /** Marks the prototype and the upvalues of a Lua closure. */
    method TraverseLClosure(o: Ref, ghost c: Ctx)
      requires Visiting(g, c, o) && g.heap.body[o].LClosure? && g.color[o] == Black
      modifies this`g
      ensures Marking(g, c) && Propagates(old(g), g) && Work(g) <= Work(old(g)) && Ready(g, c, o) && Calm(old(g), g)
    {
      hide Marking, Marks, Listed, Propagates, Work, UpVisited, UpValue, Full, Calm;
      ghost var start := g;
      MarksRefl(g);
      ClosureBound(g, c, o);
      var LClosure(proto, upvals) := g.heap.body[o];
      MarkValue(proto, c, start);
      VisitingKept(start, g, c, o);
      MarksPropagate(start, g);
      CalmMarks(start, g);
      for i := 0 to |upvals|
        invariant Visiting(g, c, o) && Propagates(start, g) && Work(g) <= Work(start) && Calm(start, g)
        invariant g.heap.body[o] == LClosure(proto, upvals) && g.color[o] == Black && In(proto, Marked(g.color))
        invariant forall j :: 0 <= j < i ==> UpVisited(g.heap, g.gcstate, c.view.late, upvals[j], Marked(g.color))
      {
        ghost var before := g;
        ClosureBound(g, c, o);
        TraverseUpvalue(upvals[i], c, o);
        CalmCompose(start, before, g);
        PropagatesCompose(start, before, g);
        PropagatesFrame(before, g);
        forall j | 0 <= j < i ensures UpVisited(g.heap, g.gcstate, c.view.late, upvals[j], Marked(g.color)) {
          UpVisitedKept(before.heap, g.heap, g.gcstate, c.view.late, upvals[j], Marked(before.color), Marked(g.color));
        }
      }
    }

    method TraverseTable(h: Ref, ghost c: Ctx)
      requires Visiting(g, c, h) && g.heap.body[h].Table? && g.color[h] == Black
      modifies this`g
      ensures Marking(g, c) && Propagates(old(g), g) && Work(g) <= Work(old(g)) && Ready(g, c, h)
      ensures old(Clearing(g, h)) ==> h in g.lists.weak
      ensures old(g.heap.body[h]).mode.Strong? ==> Calm(old(g), g)
    {
      hide Marking, Marks, Listed, Propagates, Work, StringsIn, Link, Calm;
      ghost var start := g;
      VisitingBound(g, c, h);
      StringsHeld(g, c, h);
      var Table(mode, meta, slots, nodes) := g.heap.body[h];
      MarksRefl(g);
      MarkValue(meta, c, start);
      VisitingKept(start, g, c, h);
      MarksPropagate(start, g);
      CalmMarks(start, g);
      ghost var g1 := g;
      if mode.Strong? {
        TraverseStrongTable(h, c);
        MarksPropagate(g1, g);
        PropagatesCompose(start, g1, g);
        CalmMarks(g1, g);
        CalmCompose(start, g1, g);
      } else {
        RecolourVisiting(g, c, h, Gray);
        g := g.(color := g.color[h := Gray]);
        PropagatesCompose(start, g1, g);
        ghost var g2 := g;
        match mode {
          case WeakValues => TraverseWeakValue(h, c);
          case WeakKeys => var _ := TraverseEphemeron(h, c);
          case AllWeak =>
            LinkVisiting(g, c, h, InAllWeak);
            g := g.(lists := Link(g.lists, InAllWeak, h));
        }
        PropagatesCompose(start, g2, g);
      }
    }

    /** A thread stays gray and is linked for another visit; in `atomic` this visit is the last one. */
    method TraverseThread(o: Ref, ghost c: Ctx)
      requires Visiting(g, c, o) && g.heap.body[o].Thread? && g.color[o] == Black
      modifies this`g
      ensures Marking(g, c) && Propagates(old(g), g) && Work(g) <= Work(old(g)) && Ready(g, c, o) && Calm(old(g), g)
    {
      hide Marking, Marks, Listed, Propagates, Work, Pending, Visited, Link, Calm;
      ghost var start := g;
      VisitingBound(g, c, o);
      RecolourVisiting(g, c, o, Gray);
      g := g.(color := g.color[o := Gray]);
      ghost var g1 := g;
      LinkVisiting(g, c, o, InGrayAgain);
      g := g.(lists := Link(g.lists, InGrayAgain, o));
      PropagatesCompose(start, g1, g);
      CalmThread(start, o);
      ghost var g2 := g;
      MarksRefl(g);
      var Thread(stack, openups) := g.heap.body[o];
      MarkValues(stack, c, g2);
      MarksFrame(g2, g);
      MarksPropagate(g2, g);
      PropagatesCompose(start, g2, g);
      CalmMarks(g2, g);
      CalmCompose(start, g2, g);
      ghost var g3 := g;
      if g.gcstate.InsideAtomic? {
        if o !in g.twups && openups != [] {
          TwupsPropagate(g, g.(twups := [o] + g.twups), c, o);
          g := g.(twups := [o] + g.twups);
          PropagatesCompose(start, g3, g);
          CalmTwups(start, g3, o);
        }
        ThreadReady(g, c, o);
      } else {
        PendingKept(g2, g, c, o);
      }
    }

    /** Visits the first gray object. */
    method PropagateMark(ghost c: Ctx)
      requires Marking(g, c) && g.lists.gray != [] && CanTraverse(g, c) && c.busy == {}
      modifies this`g
      ensures Marking(g, c) && Propagates(old(g), g) && Work(g) < Work(old(g))
      ensures ClearingFirst(old(g)) ==> g.lists.weak != []
      ensures NoWeakLeft(old(g)) ==> Calm(old(g), g)
    {
      hide Marking, Marks, Listed, Propagates, Work, Visited, Pending, Calm, NoWeakLeft;
      ghost var start := g;
      var o := g.lists.gray[0];
      ghost var c1 := c.(busy := c.busy + {o});
      GrayHead(g, c);
      PopVisiting(g, c, g.(lists := g.lists.(gray := g.lists.gray[1..])), c1);
      g := g.(lists := g.lists.(gray := g.lists.gray[1..]));
      ghost var g1 := g;
      RecolourVisiting(g, c1, o, Black);
      g := g.(color := g.color[o := Black]);
      PropagatesCompose(start, g1, g);
      ghost var g2 := g;
      match g.heap.body[o] {
        case Table(_, _, _, _) => TraverseTable(o, c1);
        case LClosure(_, _) => TraverseLClosure(o, c1);
        case CClosure(_) => TraverseCClosure(o, c1); MarksPropagate(g2, g); CalmMarks(g2, g);
        case Thread(_, _) => TraverseThread(o, c1);
        case Proto(_, _) => TraverseProto(o, c1);
      }
      PropagatesCompose(start, g2, g);
      CalmVisit(start, g2, g, o);
      Settle(g, c1, o, c);
    }

    method PropagateAll(ghost c: Ctx)
      requires Marking(g, c) && CanTraverse(g, c) && c.busy == {}
      modifies this`g
      ensures Marking(g, c) && Propagates(old(g), g) && Work(g) <= Work(old(g)) && g.lists.gray == []
      ensures old(g.lists.gray) == [] ==> g == old(g)
      ensures ClearingFirst(old(g)) ==> g.lists.weak != []
      ensures NoWeakLeft(old(g)) ==> g.lists.weak == old(g.lists.weak) && g.lists.ephemeron == old(g.lists.ephemeron)
    {
      hide Marking, Propagates, Work, Clearing, Calm, NoWeakLeft;
      ghost var start := g;
      PropagatesRefl(g);
      CalmRefl(g);
      while g.lists.gray != []
        invariant Marking(g, c) && Propagates(start, g) && Work(g) <= Work(start) && g.gcstate == start.gcstate
        invariant NoWeakLeft(start) ==> NoWeakLeft(g) && Calm(start, g)
        invariant g == start || (start.lists.gray != [] && (ClearingFirst(start) ==> g.lists.weak != []))
        decreases Work(g)
      {
        ghost var before := g;
        PropagateMark(c);
        WeakStays(before, g);
        PropagatesCompose(start, before, g);
        PropagatesFrame(before, g);
        if NoWeakLeft(start) {
          CalmCompose(start, before, g);
          CalmNoWeak(before, g);
        }
      }
      if NoWeakLeft(start) { CalmLists(start, g); }
    }

    /** Visits ephemeron tables over and over until a round marks nothing. */
    method ConvergeEphemerons(ghost c: Ctx)
      requires Marking(g, c) && g.gcstate.InsideAtomic? && c.view.late && c.again == [] && g.lists.gray == [] &&
               c.busy == {}
      modifies this`g
      ensures Marking(g, c) && Propagates(old(g), g) && g.lists.gray == []
      ensures forall x :: x in g.lists.ephemeron ==> Converged(g.heap, x, Marked(g.color))
    {
      hide Marking, Propagates, Work, Converged;
      ghost var start := g;
      PropagatesRefl(g);
      var changed := true;
      while changed
        invariant Marking(g, c) && Propagates(start, g) && g.gcstate.InsideAtomic? && g.lists.gray == []
        invariant !changed ==> forall x :: x in g.lists.ephemeron ==> Converged(g.heap, x, Marked(g.color))
        decreases Whites(g.color), changed
      {
        changed := EphemeronRound(c, start);
      }
    }

    /** One round of the ephemeron loop. */
    method EphemeronRound(ghost c: Ctx, ghost start: Global) returns (changed: bool)
      requires Marking(g, c) && g.gcstate.InsideAtomic? && c.view.late && c.again == [] && g.lists.gray == [] &&
               c.busy == {}
      requires Propagates(start, g)
      modifies this`g
      ensures Marking(g, c) && Propagates(start, g) && g.lists.gray == [] && g.gcstate.InsideAtomic?
      ensures changed ==> Whites(g.color) < Whites(old(g.color))
      ensures !changed ==> Whites(g.color) <= Whites(old(g.color))
      ensures !changed ==> forall x :: x in g.lists.ephemeron ==> Converged(g.heap, x, Marked(g.color))
    {
      hide Marking, Propagates, Work, Converged, Whites, IsEphemeron;
      ghost var before := g;
      var next := g.lists.ephemeron;
      ghost var c1 := c.(again := next);
      TakeEphemerons(g, c, g.(lists := g.lists.(ephemeron := [])), c1);
      g := g.(lists := g.lists.(ephemeron := []));
      PropagatesCompose(start, before, g);
      WhitesShrink(before, g);
      changed := false;
      while next != []
        invariant c1 == c.(again := next)
        invariant Marking(g, c1) && Propagates(start, g) && Propagates(before, g) && g.lists.gray == []
        invariant g.gcstate.InsideAtomic?
        invariant forall x :: x in next ==> IsEphemeron(g, x)
        invariant changed ==> Whites(g.color) < Whites(before.color)
        invariant Whites(g.color) <= Whites(before.color)
        invariant !changed ==> forall x :: x in g.lists.ephemeron ==> Converged(g.heap, x, Marked(g.color))
        decreases next
      {
        ghost var g1 := g;
        var w := next[0];
        ghost var c2 := c1.(again := next[1..], busy := {w});
        PopSaved(g, c1, c2);
        EphemeronFacts(g, w);
        var marked := TraverseEphemeron(w, c2);
        WhitesShrink(g1, g);
        PropagatesFrame(g1, g);
        c1 := c.(again := next[1..]);
        assert c1 == c2.(busy := c2.busy - {w});
        Settle(g, c2, w, c1);
        PropagatesCompose(start, g1, g);
        PropagatesCompose(before, g1, g);
        if marked {
          ghost var g2 := g;
          PropagateAll(c1);
          WhitesShrink(g2, g);
          PropagatesFrame(g2, g);
          PropagatesCompose(start, g2, g);
          PropagatesCompose(before, g2, g);
          PropagatesCompose(g1, g2, g);
          changed := true;
        } else if !changed {
          forall x | x in g.lists.ephemeron ensures Converged(g.heap, x, Marked(g.color)) {
            if x != w { ConvergedKept(g1.heap, g.heap, x, Marked(g1.color), Marked(g.color)); }
          }
        }
        forall x | x in next[1..] ensures IsEphemeron(g, x) {
          assert x in next;
          IsEphemeronKept(g1, g, x);
        }
        next := next[1..];
      }
    }

    /** The array part of a table without the values that may be dropped. */
    method ClearedSlots(slots: seq<Value>, ghost c: Ctx, ghost start: Global) returns (r: seq<Value>)
      requires Marking(g, c) && Marks(start, g) && AllIn(slots, g.color.Keys) && g.color.Keys == g.heap.body.Keys
      requires forall v :: v in slots ==> StrIn(g.heap, v, c.bound)
      modifies this`g
      ensures Marking(g, c) && Marks(start, g)
      ensures g.heap == old(g.heap) && g.lists == old(g.lists) && g.color.Keys == old(g.color.Keys)
      ensures Marked(old(g.color)) <= Marked(g.color) && OnlyStrings(g.heap, Marked(g.color) - Marked(old(g.color)))
      ensures Droppable(g) == old(Droppable(g))
      ensures |r| == |slots| && AllIn(r, Marked(g.color))
      ensures forall i :: 0 <= i < |slots| ==> r[i] == slots[i] || (r[i] == Nil && IsDead(slots[i], Droppable(g)))
    {
      hide Marking, Marks, Droppable;
      r := [];
      for i := 0 to |slots|
        invariant Marking(g, c) && Marks(start, g)
        invariant g.heap == old(g.heap) && g.lists == old(g.lists) && g.color.Keys == old(g.color.Keys)
        invariant Marked(old(g.color)) <= Marked(g.color) && OnlyStrings(g.heap, Marked(g.color) - Marked(old(g.color)))
        invariant Droppable(g) == old(Droppable(g))
        invariant |r| == i && forall j :: 0 <= j < i ==> In(r[j], Marked(g.color))
        invariant forall j :: 0 <= j < i ==> r[j] == slots[j] || (r[j] == Nil && IsDead(slots[j], Droppable(g)))
      {
        ghost var before := g;
        assert slots[i] in slots;
        var cleared := IsCleared(slots[i], c, start);
        DroppableKept(before, g);
        if cleared { InDroppable(g, slots[i]); }
        r := r + [if cleared then Nil else slots[i]];
      }
    }

    /** The hash part of a table without the entries that may be dropped. */
    method ClearedNodes(nodes: seq<Entry>, byKey: bool, ghost c: Ctx, ghost start: Global) returns (r: seq<Entry>)
      requires Marking(g, c) && Marks(start, g) && NodesIn(nodes, g.color.Keys) && g.color.Keys == g.heap.body.Keys
      requires byKey ==> StringKeysIn(g.heap, nodes, c.bound)
      requires !byKey ==> forall e :: e in nodes && e.val != Nil ==> StrIn(g.heap, e.val, c.bound)
      modifies this`g
      ensures Marking(g, c) && Marks(start, g)
      ensures g.heap == old(g.heap) && g.lists == old(g.lists) && g.color.Keys == old(g.color.Keys)
      ensures Marked(old(g.color)) <= Marked(g.color) && OnlyStrings(g.heap, Marked(g.color) - Marked(old(g.color)))
      ensures Droppable(g) == old(Droppable(g))
      ensures |r| == |nodes| && if byKey then KeysIn(r, Marked(g.color)) else ValsIn(r, Marked(g.color))
      ensures forall i :: 0 <= i < |nodes| ==>
        (r[i] == nodes[i] || (r[i] == Entry(nodes[i].key, Nil) &&
          IsDead(if byKey then nodes[i].key else nodes[i].val, Droppable(g))))
    {
      hide Marking, Marks, Droppable;
      r := [];
      for i := 0 to |nodes|
        invariant Marking(g, c) && Marks(start, g)
        invariant g.heap == old(g.heap) && g.lists == old(g.lists) && g.color.Keys == old(g.color.Keys)
        invariant Marked(old(g.color)) <= Marked(g.color) && OnlyStrings(g.heap, Marked(g.color) - Marked(old(g.color)))
        invariant Droppable(g) == old(Droppable(g))
        invariant |r| == i
        invariant forall j :: 0 <= j < i && r[j].val != Nil ==>
                  In(if byKey then r[j].key else r[j].val, Marked(g.color))
        invariant forall j :: 0 <= j < i ==>
          (r[j] == nodes[j] || (r[j] == Entry(nodes[j].key, Nil) &&
            IsDead(if byKey then nodes[j].key else nodes[j].val, Droppable(g))))
      {
        var e := nodes[i];
        var cleared := false;
        if e.val != Nil {
          assert e in nodes && EntryIn(e, g.color.Keys);
          ghost var before := g;
          var v := if byKey then e.key else e.val;
          cleared := IsCleared(v, c, start);
          DroppableKept(before, g);
          if cleared { InDroppable(g, v); }
        }
        r := r + [if cleared then Entry(e.key, Nil) else e];
      }
    }

    /** `clearkeys` (by key) or `clearvalues` (by value) for the tables of one list. */
    method ClearTables(l: seq<Ref>, byKey: bool, ghost c: Ctx)
      requires Marking(g, c) && g.color.Keys == g.heap.body.Keys
      requires forall x :: x in l ==> Clearable(g.heap, x, byKey, c.bound)
      modifies this`g
      ensures Marking(g, c) && old(g).color.Keys == old(g).heap.body.Keys && ClearsState(old(g), g, old(Droppable(g)))
      ensures forall x :: x in l ==> IsClear(g.heap, x, byKey, Marked(g.color))
    {
      hide Marking, Marks, Droppable, ClearsState, Clearable, IsClear;
      ghost var start := g;
      ghost var dead := Droppable(g);
      ClearsRefl(g);
      for i := 0 to |l|
        invariant Marking(g, c) && ClearsState(start, g, dead)
        invariant forall x :: x in l[i..] ==> Clearable(g.heap, x, byKey, c.bound)
        invariant forall x :: x in l[..i] ==> IsClear(g.heap, x, byKey, Marked(g.color))
      {
        ghost var before := g;
        assert l[i] in l[i..];
        ClearsFrame(start, g, dead);
        BoundInHeap(g, c);
        ClearTable(l[i], byKey, c);
        forall x ensures x in l[i + 1..] ==> Clearable(g.heap, x, byKey, c.bound) {
          ClearsKeep(before, g, dead, x, byKey, c.bound);
        }
        forall x ensures x in l[..i + 1] ==> IsClear(g.heap, x, byKey, Marked(g.color)) {
          ClearsKeep(before, g, dead, x, byKey, c.bound);
        }
        ClearsCompose(start, before, g, dead);
      }
      assert l[..|l|] == l;
    }

    method ClearTable(o: Ref, byKey: bool, ghost c: Ctx)
      requires Marking(g, c) && Clearable(g.heap, o, byKey, c.bound) && g.color.Keys == g.heap.body.Keys
      modifies this`g
      ensures Marking(g, c) && old(g).color.Keys == old(g).heap.body.Keys && ClearsState(old(g), g, old(Droppable(g)))
      ensures IsClear(g.heap, o, byKey, Marked(g.color))
    {
      hide Marking, Marks, Droppable, ClearsState;
      ghost var start := g;
      ClearableHolds(g, c, o, byKey);
      MarksRefl(g);
      var Table(_, _, slots, nodes) := g.heap.body[o];
      if !byKey {
        slots := ClearedSlots(slots, c, start);
      }
      ghost var s1 := Marked(g.color);
      nodes := ClearedNodes(nodes, byKey, c, start);
      AllInGrowsIf(!byKey, slots, s1, Marked(g.color));
      StoreCleared(start, g, c, o, slots, nodes,
                   g.(heap := g.heap.(body := g.heap.body[o := g.heap.body[o].(slots := slots, nodes := nodes)])));
      g := g.(heap := g.heap.(body := g.heap.body[o := g.heap.body[o].(slots := slots, nodes := nodes)]));
    }

    /** Marks the values of touched open upvalues whose thread is not marked, and forgets those threads
        and the threads without open upvalues. */
    method RemarkUpvals(ghost c: Ctx)
      requires Marking(g, c) && g.gcstate.InsideAtomic? && !c.view.late && c.busy == {}
      modifies this`g
      ensures Marking(g, c.(view := c.view.(late := true))) && Remarks(old(g), g)
    {
      hide Marking, Marks, UpsHandled, Remarks;
      ghost var start := g;
      RemarksRefl(g);
      var kept: seq<Ref> := [];
      var rest := g.twups;
      while rest != []
        invariant Marking(g, c) && Remarks(start, g) && g.twups == start.twups
        invariant forall t :: t in g.twups ==> t in rest || t in kept || UpsHandled(g, t)
        invariant KeptOk(g, kept)
        invariant g.gcstate.InsideAtomic? && forall t :: t in rest ==> t in g.twups
        decreases rest
      {
        ghost var before := g;
        var t := rest[0];
        ThreadFacts(g, c, t);
        if g.color[t] == Gray && g.heap.body[t].openups != [] {
          kept := kept + [t];
        } else {
          RemarkThread(t, c);
          RemarksFrame(before, g);
          RemarksCompose(start, before, g);
          forall x | x in g.twups && UpsHandled(before, x) ensures UpsHandled(g, x) {
            HandledKept(before, g, x);
          }
          KeptKept(before, g, kept);
        }
        rest := rest[1..];
      }
      FinishRemark(g, c, kept);
      RemarksTwups(start, g, kept);
      g := g.(twups := kept);
    }

    /** The open upvalues of one thread that leaves the list. */
    method RemarkThread(t: Ref, ghost c: Ctx)
      requires Marking(g, c) && g.gcstate.InsideAtomic? && !c.view.late && c.busy == {}
      requires IsThread(g.heap, t)
      modifies this`g
      ensures Marking(g, c) && Remarks(old(g), g) && g.twups == old(g.twups)
      ensures UpsHandled(g, t)
    {
      hide Marking, Marks, Remarks;
      ghost var start := g;
      RemarksRefl(g);
      var us := g.heap.body[t].openups;
      for i := 0 to |us|
        invariant Marking(g, c) && Remarks(start, g) && g.twups == start.twups && g.gcstate.InsideAtomic?
        invariant IsThread(g.heap, t) && g.heap.body[t].openups == us
        invariant forall j :: 0 <= j < i ==> NotTouched(g.heap, us[j])
      {
        ghost var before := g;
        RemarkUpval(us[i], c);
        RemarksCompose(start, before, g);
        RemarksFrame(before, g);
        forall j | 0 <= j < i ensures NotTouched(g.heap, us[j]) {
          NotTouchedKept(before, g, us[j]);
        }
      }
    }

    method RemarkUpval(u: UpId, ghost c: Ctx)
      requires Marking(g, c) && g.gcstate.InsideAtomic? && !c.view.late && c.busy == {}
      modifies this`g
      ensures Marking(g, c) && Remarks(old(g), g) && g.twups == old(g.twups)
      ensures NotTouched(g.heap, u)
    {
      hide Marking, Marks, Remarks, UpValue;
      ghost var start := g;
      RemarksRefl(g);
      if u in g.heap.ups && g.heap.ups[u].Open? && g.heap.ups[u].touched {
        MarksRefl(g);
        TouchedHolds(g, c);
        MarkValue(UpValue(g.heap, u), c, start);
        MarksFrame(start, g);
        MarksRemark(start, g);
        ghost var between := g;
        UntouchStep(g, c, u, g.(heap := g.heap.(ups := g.heap.ups[u := g.heap.ups[u].(touched := false)])));
        g := g.(heap := g.heap.(ups := g.heap.ups[u := g.heap.ups[u].(touched := false)]));
        RemarksCompose(start, between, g);
      }
    }

    /** Moves the unmarked objects of `finobj` to the end of `tobefnz`. */
    method SeparateToBeFnz(ghost c: Ctx) returns (ghost moved: seq<Ref>)
      requires Marking(g, c)
      modifies this`g
      ensures Marking(g, c) && Evolves(old(g), g, {}) && g == old(g).(owned := g.owned)
      ensures Splits(old(g.owned), g.owned, moved)
      ensures forall o :: o in moved ==> o in g.color && g.color[o].White?
      ensures forall o :: o in g.owned.finobj ==> o in Marked(g.color)
    {
      hide Marking, Evolves;
      var kept: seq<Ref> := [];
      var queue: seq<Ref> := [];
      var rest := g.owned.finobj;
      while rest != []
        invariant g == old(g)
        invariant multiset(kept) + multiset(queue) + multiset(rest) == multiset(g.owned.finobj)
        invariant forall o :: o in rest ==> o in g.owned.finobj
        invariant forall o :: o in queue ==> o in g.color && g.color[o].White?
        invariant forall o :: o in kept ==> o in Marked(g.color)
        decreases rest
      {
        var curr := rest[0];
        assert rest == [curr] + rest[1..];
        FinobjMarking(g, c, curr);
        if g.color[curr].White? {
          queue := queue + [curr];
        } else {
          kept := kept + [curr];
        }
        rest := rest[1..];
      }
      moved := queue;
      MarkingSplit(g, c, g.owned.(finobj := kept, tobefnz := g.owned.tobefnz + queue), moved);
      g := g.(owned := g.owned.(finobj := kept, tobefnz := g.owned.tobefnz + queue));
    }

    method MarkBeingFnz(ghost c: Ctx)
      requires Marking(g, c) && forall o :: o in g.owned.tobefnz ==> o in c.bound
      modifies this`g
      ensures Marking(g, c) && Marks(old(g), g)
      ensures forall o :: o in g.owned.tobefnz ==> o in Marked(g.color)
    {
      hide Marking, Marks;
      ghost var start := g;
      MarksRefl(g);
      var l := g.owned.tobefnz;
      for i := 0 to |l|
        invariant Marking(g, c) && Marks(start, g)
        invariant forall o :: o in l[..i] ==> o in Marked(g.color)
      {
        MarkValue(Coll(l[i]), c, start);
        assert l[..i + 1] == l[..i] + [l[i]];
      }
      assert l[..|l|] == l;
      MarksFrame(start, g);
    }

    /** Marks the running thread, the registry and the metatables of basic types. */
    method MarkGlobals(thread: Ref, ghost c: Ctx)
      requires Marking(g, c) && thread in c.bound && In(g.roots.registry, c.bound) && AllIn(g.roots.mt, c.bound)
      modifies this`g
      ensures Marking(g, c) && Marks(old(g), g)
      ensures thread in Marked(g.color) && In(g.roots.registry, Marked(g.color)) && AllIn(g.roots.mt, Marked(g.color))
    {
      hide Marking, Marks;
      ghost var start := g;
      MarksRefl(g);
      MarkValue(Coll(thread), c, start);
      MarksFrame(start, g);
      MarkValue(g.roots.registry, c, start);
      MarksFrame(start, g);
      MarkValues(g.roots.mt, c, start);
      MarksFrame(start, g);
    }

    /** The start of `atomic`: roots the program may have changed, and upvalues of unmarked threads. */
    method BeginAtomic(ghost c: Ctx) returns (ghost c': Ctx)
      requires Marking(g, c) && g.gcstate.AtomicWait? && c.stopped && !c.view.late && c.busy == {}
      requires RootsIn(g.roots, g.owned, c.bound)
      modifies this`g
      ensures c' == Ctx(true, old(g.lists.grayagain), View(true, c.view.stale, c.view.lost), {}, c.bound)
      ensures Marking(g, c') && g.gcstate.InsideAtomic? && Evolves(old(g), g, {}) && g.owned == old(g.owned)
      ensures g.roots.running in Marked(g.color) && In(g.roots.registry, Marked(g.color)) &&
              AllIn(g.roots.mt, Marked(g.color))
    {
      hide Marking, Marks, Remarks, Evolves;
      ghost var start := g;
      BoundInHeap(g, c);
      EnterAtomic(g, c);
      ghost var c1 := c.(again := g.lists.grayagain);
      g := g.(gcstate := InsideAtomic);
      EnterEvolves(start, g);
      ghost var g1 := g;
      MarkGlobals(g.roots.running, c1);
      MarksFrame(g1, g);
      MarksRemark(g1, g);
      ghost var g2 := g;
      RemarkUpvals(c1);
      c' := c1.(view := c1.view.(late := true));
      RemarksCompose(g1, g2, g);
      RemarksFrame(g1, g);
      RemarksFrame(g2, g);
      RemarksEvolve(g1, g, {});
      EvolvesCompose(start, g1, g, {});
      AllInGrows(g.roots.mt, Marked(g2.color), Marked(g.color));
    }

    /** `atomic` up to the point where all strongly accessible objects are marked. */
    method MarkStrong(grayagain: seq<Ref>, ghost c: Ctx)
      requires grayagain == c.again
      requires Marking(g, c) && g.gcstate.InsideAtomic? && c.view.late && c.busy == {}
      modifies this`g
      ensures Marking(g, c.(again := [])) && g.lists.gray == [] && Propagates(old(g), g)
      ensures forall x :: x in g.lists.ephemeron ==> Converged(g.heap, x, Marked(g.color))
    {
      hide Marking, Propagates, Work;
      ghost var start := g;
      InsideStopped(g, c);
      PropagateAll(c);
      PropagatesFrame(start, g);
      ghost var g1 := g;
      ResumeSaved(g, c);
      g := g.(lists := g.lists.(gray := grayagain));
      PropagatesCompose(start, g1, g);
      ghost var g2 := g;
      PropagateAll(c.(again := []));
      PropagatesFrame(g2, g);
      PropagatesCompose(start, g2, g);
      ghost var g3 := g;
      ConvergeEphemerons(c.(again := []));
      PropagatesCompose(start, g3, g);
    }

    /** Clears dead values from the weak tables found so far, before finalizers are considered. */
    method ClearDeadValues(ghost c: Ctx)
      requires Marking(g, c) && g.gcstate.InsideAtomic? && c.busy == {} && g.color.Keys == g.heap.body.Keys
      requires forall x :: x in g.lists.ephemeron ==> Converged(g.heap, x, Marked(g.color))
      modifies this`g
      ensures Marking(g, c) && old(g).color.Keys == old(g).heap.body.Keys && ClearsState(old(g), g, old(Droppable(g)))
      ensures forall x :: x in g.lists.weak || x in g.lists.allweak ==> IsClear(g.heap, x, false, Marked(g.color))
      ensures forall x :: x in g.lists.ephemeron ==> Converged(g.heap, x, Marked(g.color))
    {
      hide Marking, Droppable, ClearsState, Clearable, IsClear, Converged;
      ghost var start := g;
      ghost var dead := Droppable(g);
      ListsClearable(g, c);
      ClearTables(g.lists.weak, false, c);
      ClearsFrame(start, g, dead);
      ghost var g1 := g;
      ListsClearable(g, c);
      ClearTables(g.lists.allweak, false, c);
      ClearsFrame(g1, g, dead);
      ClearsCompose(start, g1, g, dead);
      forall x | x in g.lists.weak ensures IsClear(g.heap, x, false, Marked(g.color)) {
        ClearsKeep(g1, g, dead, x, false, c.bound);
      }
      forall x | x in g.lists.ephemeron ensures Converged(g.heap, x, Marked(g.color)) {
        ClearsKeepConverged(start, g, dead, x);
      }
    }

    /** Queues unmarked objects with finalizers and marks everything they keep alive. */
    method Resurrect(ghost c: Ctx) returns (ghost moved: seq<Ref>)
      requires Marking(g, c) && g.gcstate.InsideAtomic? && c.view.late && c.again == [] && c.busy == {} &&
               g.lists.gray == []
      requires forall o :: o in g.owned.finobj || o in g.owned.tobefnz ==> o in c.bound
      modifies this`g
      ensures Marking(g, c) && g.lists.gray == []
      ensures Splits(old(g.owned), g.owned, moved) && Propagates(old(g).(owned := g.owned), g)
      ensures forall o :: o in moved ==> o in old(g.color) && old(g.color)[o].White?
      ensures forall o :: o in g.owned.tobefnz || o in g.owned.finobj ==> o in Marked(g.color)
      ensures forall x :: x in g.lists.ephemeron ==> Converged(g.heap, x, Marked(g.color))
    {
      hide Marking, Marks, Propagates, Evolves, Work, Converged;
      InsideStopped(g, c);
      ghost var w := g.owned;
      moved := SeparateToBeFnz(c);
      ghost var start := g;
      forall o | o in g.owned.tobefnz ensures o in c.bound {
        SplitFrame(w, g.owned, moved);
        SplitMembers(w, g.owned, moved, o);
      }
      MarkBeingFnz(c);
      MarksFrame(start, g);
      MarksPropagate(start, g);
      ghost var g1 := g;
      PropagateAll(c);
      PropagatesFrame(g1, g);
      PropagatesCompose(start, g1, g);
      ghost var g2 := g;
      ConvergeEphemerons(c);
      PropagatesFrame(g2, g);
      PropagatesCompose(start, g2, g);
    }

    /** Removes the remaining dead keys and values; `weak` and `all` are the lists that were cleared of
        dead values before. */
    method ClearDeadEntries(weak: seq<Ref>, all: seq<Ref>, ghost c: Ctx)
      requires Marking(g, c) && g.gcstate.InsideAtomic? && c.view.late && c.again == [] && c.busy == {} &&
               g.lists.gray == []
      requires IsSuffix(weak, g.lists.weak) && IsSuffix(all, g.lists.allweak) && g.color.Keys == g.heap.body.Keys
      requires forall x :: x in weak || x in all ==> IsClear(g.heap, x, false, Marked(g.color))
      requires forall x :: x in g.lists.ephemeron ==> Converged(g.heap, x, Marked(g.color))
      modifies this`g
      ensures Marking(g, c) && FullyClosedBut(g.heap, Marked(g.color), c.view.lost)
      ensures old(g).color.Keys == old(g).heap.body.Keys && ClearsState(old(g), g, old(Droppable(g)))
    {
      hide Marking, Droppable, ClearsState, Clearable, IsClear, Converged, FullyClosedBut;
      ghost var start := g;
      ghost var dead := Droppable(g);
      ghost var ls := g.lists;
      ListsClearable(g, c);
      ClearTables(g.lists.ephemeron, true, c);
      ClearsFrame(start, g, dead);
      ghost var g1 := g;
      ListsClearable(g, c);
      ClearTables(g.lists.allweak, true, c);
      ClearsFrame(g1, g, dead);
      ClearsCompose(start, g1, g, dead);
      ghost var g2 := g;
      ListsClearable(g, c);
      ClearTables(g.lists.weak[..|g.lists.weak| - |weak|], false, c);
      ClearsFrame(g2, g, dead);
      ClearsCompose(g1, g2, g, dead);
      ClearsCompose(start, g2, g, dead);
      ghost var g3 := g;
      ListsClearable(g, c);
      ClearTables(g.lists.allweak[..|g.lists.allweak| - |all|], false, c);
      ClearsFrame(g3, g, dead);
      ClearsCompose(start, g3, g, dead);
      ClearsCompose(g1, g3, g, dead);
      ClearsCompose(g2, g3, g, dead);
      forall x | x in ls.ephemeron ensures Converged(g.heap, x, Marked(g.color)) &&
        IsClear(g.heap, x, true, Marked(g.color)) {
        ClearsKeepConverged(start, g, dead, x);
        ClearsKeep(g1, g, dead, x, true, c.bound);
      }
      forall x | x in ls.allweak ensures IsClear(g.heap, x, true, Marked(g.color)) &&
        IsClear(g.heap, x, false, Marked(g.color)) {
        ClearsKeep(g2, g, dead, x, true, c.bound);
        if x in all { ClearsKeep(start, g, dead, x, false, c.bound); } else { InPrefix(all, ls.allweak, x); }
      }
      forall x | x in ls.weak ensures IsClear(g.heap, x, false, Marked(g.color)) {
        if x in weak { ClearsKeep(start, g, dead, x, false, c.bound); } else {
          InPrefix(weak, ls.weak, x);
          ClearsKeep(g3, g, dead, x, false, c.bound);
        }
      }
      MarkedIsFull(g, c);
    }

    /** The second half of `atomic`: dead values go, finalizable objects are queued and revived, the
        remaining dead entries go, and the white bit is turned over. */
    method FinishAtomic(ghost c: Ctx) returns (ghost moved: seq<Ref>)
      requires Marking(g, c) && g.gcstate.InsideAtomic? && c.view.late && c.again == [] && c.busy == {} &&
               g.lists.gray == []
      requires forall x :: x in g.lists.ephemeron ==> Converged(g.heap, x, Marked(g.color))
      requires RootsIn(g.roots, g.owned, Marked(g.color)) && forall o :: o in g.owned.finobj ==> o in c.bound
      modifies this`g
      ensures FlippedBut(g, c.view.lost) && g.currentwhite == !old(g.currentwhite)
      ensures Marked(old(g.color)) <= LiveSet(g.color, g.currentwhite) <= c.bound
      ensures Evolves(old(g), g.(currentwhite := old(g.currentwhite)), old(g.color).Keys - Marked(old(g.color)))
      ensures Splits(old(g.owned), g.owned, moved) && forall o :: o in moved ==> o !in Marked(old(g.color))
    {
      hide Marking, Propagates, Evolves, Work, ClearsState, Converged, IsClear, Splits, RootsIn, FlippedBut,
        FullyClosedBut;
      hide Droppable, FixedOk;
      ghost var start := g;
      BoundInHeap(g, c);
      ghost var dead := g.color.Keys - Marked(g.color);
      ClearDeadValues(c);
      var origweak, origall := g.lists.weak, g.lists.allweak;
      DroppableUnmarked(start);
      ClearsEvolve(start, g, Droppable(start), dead);
      EvolvesFrame(start, g, dead);
      ghost var g1 := g;
      ClearsFrame(start, g, Droppable(start));
      FinobjBound(start, c);
      moved := Resurrect(c);
      ghost var g2 := g1.(owned := g.owned);
      SplitEvolves(g1, g.owned, moved);
      EvolvesMore(g1, g2, {}, dead);
      EvolvesCompose(start, g1, g2, dead);
      PropagatesEvolve(g2, g, dead);
      EvolvesFrame(g2, g, dead);
      EvolvesCompose(start, g2, g, dead);
      PropagatesSuffix(g2, g);
      PropagatesFrame(g2, g);
      forall x | x in origweak || x in origall ensures IsClear(g.heap, x, false, Marked(g.color)) {
        PropagatesKeepClear(g2, g, x, false);
      }
      ghost var g3 := g;
      ClearDeadEntries(origweak, origall, c);
      EvolvesFrame(start, g3, dead);
      ClearsEvolve(g3, g, Droppable(g3), dead);
      EvolvesCompose(start, g3, g, dead);
      EvolvesFrame(start, g, dead);
      ClearsFrame(g3, g, Droppable(g3));
      RootsGrow(start.roots, start.owned, Marked(start.color), Marked(g.color));
      FixedHolds(g, c);
      RootsInAtomic(start.owned, g, moved);
      BoundInHeap(g, c);
      Flip(g, c);
      g := g.(currentwhite := !g.currentwhite);
    }

    /** The atomic step.  `kept` is what was marked when all strongly accessible objects were: entries
        of weak tables are lost only because of objects outside it. */
    method Atomic(ghost c: Ctx) returns (ghost kept: set<Ref>, ghost moved: seq<Ref>)
      requires Marking(g, c) && g.gcstate.AtomicWait? && c.stopped && !c.view.late && c.busy == {}
      requires RootsMarked(g) && RootsIn(g.roots, g.owned, c.bound) && forall o :: o in g.owned.finobj ==> o in c.bound
      modifies this`g
      ensures FlippedBut(g, c.view.lost) && g.currentwhite == !old(g.currentwhite) && Marked(old(g.color)) <= kept
      ensures kept <= LiveSet(g.color, g.currentwhite) <= c.bound
      ensures RootsIn(g.roots, old(g.owned), kept) && ClosedUnderKeeping(old(g.heap), kept, c.view.stale + c.view.lost)
      ensures Evolves(old(g), g.(currentwhite := old(g.currentwhite)), old(g.color).Keys - kept)
      ensures Splits(old(g.owned), g.owned, moved) && forall o :: o in moved ==> o !in kept
    {
      hide Marking, Propagates, Evolves, Work, Converged, Splits, RootsIn, FlippedBut, ClosedUnderKeeping, RootsMarked,
        FixedOk;
      ghost var start := g;
      var grayagain := g.lists.grayagain;
      ghost var c1 := BeginAtomic(c);
      EvolvesFrame(start, g, {});
      ghost var g1 := g;
      MarkStrong(grayagain, c1);
      ghost var c2 := c1.(again := []);
      PropagatesEvolve(g1, g, {});
      PropagatesFrame(g1, g);
      EvolvesCompose(start, g1, g, {});
      kept := Marked(g.color);
      ghost var dead := g.color.Keys - kept;
      MarkedKeeps(g, c2);
      KeepsBack(start, g, kept, c.view.stale + c.view.lost);
      FixedHolds(g, c2);
      KeptRoots(start, g1, g);
      EvolvesMore(start, g, {}, dead);
      EvolvesFrame(start, g, {});
      ghost var g2 := g;
      moved := FinishAtomic(c2);
      EvolvesFrame(g2, g.(currentwhite := old(g.currentwhite)), dead);
      EvolvesCompose(start, g2, g.(currentwhite := old(g.currentwhite)), dead);
    }

    /** `freeobj`: a thread closes its open upvalues first; then the memory goes. */
    method FreeObj(o: Ref)
      requires UpsOk(g.heap) && o in g.heap.body
      modifies this`g
      ensures g == old(g).(color := old(g.color) - {o}, heap := Freed(old(g.heap), o))
    {
      hide UpsOk, UpValue;
      var ups := g.heap.ups;
      if g.heap.body[o].Thread? {
        var us := g.heap.body[o].openups;
        for i := 0 to |us|
          invariant g == old(g) && ups.Keys == g.heap.ups.Keys
          invariant forall u :: u in ups ==> ups[u] == if u in us[..i] then Closed(UpValue(g.heap, u))
                    else g.heap.ups[u]
        {
          ThreadUps(g.heap, o, us[i]);
          assert us[..i + 1] == us[..i] + [us[i]];
          ups := ups[us[i] := Closed(UpValue(g.heap, us[i]))];
        }
        assert us[..|us|] == us;
      }
      ClosedUpsDone(g.heap, o, ups);
      g := g.(color := g.color - {o}, heap := Heap(g.heap.body - {o}, ups));
    }

    /** Frees an object that is dead, and whitens any other. */
    method SweepOne(l: ListName, i: nat) returns (freed: bool)
      requires UpsOk(g.heap) && i < |ListOf(g.owned, l)| && ListOf(g.owned, l)[i] in g.color &&
               ListOf(g.owned, l)[i] in g.heap.body
      modifies this`g
      ensures freed == (old(g.color[ListOf(g.owned, l)[i]]) == White(!old(g.currentwhite)))
      ensures g == if freed then FreedAt(old(g), l, i) else WhitenedAt(old(g), l, i)
    {
      hide UpsOk, Freed;
      var s := ListOf(g.owned, l);
      var curr := s[i];
      freed := g.color[curr] == White(!g.currentwhite);
      if freed {
        FreeObj(curr);
        g := g.(owned := WithList(g.owned, l, s[..i] + s[i + 1..]));
      } else {
        g := g.(color := g.color[curr := White(g.currentwhite)]);
      }
    }

    /** Sweeps at most `count` objects of list `l` from position `index` on: dead ones are freed, the
        others turn to the current white. */
    method SweepList(l: ListName, index: nat, count: nat) returns (next: SweepPtr)
      requires Unmarking(g) && index <= |ListOf(g.owned, l)|
      requires Clean(g.color, g.currentwhite, ListOf(g.owned, l)[..index])
      modifies this`g
      ensures Unmarking(g) && SameLive(old(g), g) && OthersKept(old(g), g, l) && Elsewhere(old(g), g, l)
      ensures g.sweepgc == old(g.sweepgc) && g.gcstate == old(g.gcstate)
      ensures next.NoSweep? ==> Clean(g.color, g.currentwhite, ListOf(g.owned, l))
      ensures next.At? ==> next.list == l && next.index < |ListOf(g.owned, l)|
      ensures next.At? ==> Clean(g.color, g.currentwhite, ListOf(g.owned, l)[..next.index])
      ensures next.At? ==> |ListOf(g.owned, l)| - next.index == |ListOf(old(g.owned), l)| - index - count
      ensures next.NoSweep? ==> |ListOf(old(g.owned), l)| - index <= count
    {
      hide Unmarking, SameLive, OthersKept, Clean, Freed, Elsewhere;
      ghost var start := g;
      SameLiveRefl(g);
      OthersRefl(g, l);
      ElsewhereRefl(g, l);
      var i: nat, n: nat := index, count;
      while i < |ListOf(g.owned, l)| && n > 0
        invariant Unmarking(g) && SameLive(start, g) && OthersKept(start, g, l) && Elsewhere(start, g, l)
        invariant g.sweepgc == start.sweepgc && g.gcstate == start.gcstate
        invariant i <= |ListOf(g.owned, l)| && Clean(g.color, g.currentwhite, ListOf(g.owned, l)[..i])
        invariant n <= count && |ListOf(g.owned, l)| - i == |ListOf(start.owned, l)| - index - (count - n)
        decreases n
      {
        ghost var before := g;
        ghost var s := ListOf(g.owned, l);
        NotFixed(g, l, s[i]);
        UnmarkingUps(g);
        n := n - 1;
        var freed := SweepOne(l, i);
        if freed {
          FreeStep(before, l, i, g);
          FreeOthers(before, l, i, g);
          ElsewhereFree(start, before, g, l, i);
          assert ListOf(g.owned, l)[..i] == s[..i];
        } else {
          WhitenStep(before, s[i], g);
          WhitenOthers(before, l, i, g);
          ElsewhereWhiten(start, before, g, l, i, White(g.currentwhite));
          i := i + 1;
        }
        SameLiveCompose(start, before, g);
        OthersCompose(start, before, g, l);
      }
      assert i == |ListOf(g.owned, l)| ==> ListOf(g.owned, l)[..i] == ListOf(g.owned, l);
      next := if i == |ListOf(g.owned, l)| then NoSweep else At(l, i);
    }

    /** Enters the first sweep phase; sweeping one object makes the pointer point inside the list. */
    method EnterSweep()
      requires Unmarking(g) && g.sweepgc == NoSweep
      modifies this`g
      ensures Sweeping(g) && g.gcstate.SwpAllGc? && SameLive(old(g), g)
    {
      hide Unmarking, SameLive, OthersKept, Clean;
      ghost var start := g;
      g := g.(gcstate := SwpAllGc);
      UnmarkingPhase(start, g);
      ghost var g1 := g;
      CleanNone(g, AllGc);
      var next := SweepList(AllGc, 0, 1);
      ghost var g2 := g;
      g := g.(sweepgc := next);
      UnmarkingPhase(g2, g);
      SameLiveCompose(start, g1, g2);
      SameLiveCompose(start, g2, g);
    }

    /** One slice of a sweep, wherever the pointer is; when nothing is left the next phase begins. */
    method SweepSlice(nextstate: Phase, nextlist: SweepPtr) returns (ghost swept: Global)
      requires Unmarking(g) && SweptBefore(g)
      modifies this`g
      ensures Unmarking(g) && SameLive(old(g), g)
      ensures g == if swept.sweepgc.At? then swept else swept.(gcstate := nextstate, sweepgc := nextlist)
      ensures swept.gcstate == old(g.gcstate) && (old(g.sweepgc).NoSweep? ==> swept == old(g))
      ensures old(g.sweepgc).At? ==> SliceDone(old(g), swept, old(g.sweepgc).list)
    {
      hide Unmarking, SameLive, OthersKept, Clean, Elsewhere;
      ghost var start := g;
      SameLiveRefl(g);
      if g.sweepgc.At? {
        var l := g.sweepgc.list;
        var next := SweepList(l, g.sweepgc.index, SweepMax);
        ghost var g1 := g;
        g := g.(sweepgc := next);
        UnmarkingPhase(g1, g);
        SameLiveCompose(start, g1, g);
        SliceDoneAt(start, g1, g, l);
      }
      swept := g;
      if g.sweepgc.NoSweep? {
        g := g.(gcstate := nextstate, sweepgc := nextlist);
        UnmarkingPhase(swept, g);
        SameLiveCompose(start, swept, g);
      }
    }

    /** When nothing is left the next phase begins at the head of its list. */
    method SweepStep(nextstate: Phase, nextlist: SweepPtr)
      requires Sweeping(g) && !g.gcstate.SwpEnd? && FollowedBy(g.gcstate, nextstate, nextlist)
      modifies this`g
      ensures Sweeping(g) && SameLive(old(g), g)
      ensures g.gcstate == nextstate || (g.gcstate == old(g.gcstate) && SweepTodo(g) < SweepTodo(old(g)))
    {
      hide Unmarking, SameLive, OthersKept, Elsewhere, Clean;
      if g.sweepgc.At? {
        if g.sweepgc.list.AllGc? && g.gcstate.SwpToBeFnz? {
          CleanPrefix(g.color, g.currentwhite, g.owned.allgc, g.sweepgc.index);
        }
      }
      ghost var start := g;
      ghost var swept := SweepSlice(nextstate, nextlist);
      if start.sweepgc.At? { OthersFrame(start, swept, start.sweepgc.list); }
      CleanNone(g, FinObj);
      CleanNone(g, ToBeFnz);
    }

    /** The last sweep step whitens the main thread, which is on no list. */
    method EndSweep()
      requires Sweeping(g) && g.gcstate.SwpEnd?
      modifies this`g
      ensures Resting(g) && g.gcstate.CallFin? && SameLive(old(g), g)
    {
      hide UpValue, OpenOk, Full, Owners, UpsOk, FullyClosed, SameLive;
      ghost var start := g;
      MainLive(g);
      WhitenStep(g, g.roots.mainthread, g.(color := g.color[g.roots.mainthread := White(g.currentwhite)]));
      g := g.(color := g.color[g.roots.mainthread := White(g.currentwhite)]);
      ghost var g1 := g;
      g := g.(gcstate := CallFin);
      UnmarkingPhase(g1, g);
      SameLiveCompose(start, g1, g);
    }

    /** `restartcollection`, and the step to the propagate phase. */
    method RestartCollection(ghost bound: set<Ref>, ghost stale: set<Ref>)
      requires Bounded(g, bound, stale) && g.gcstate.Pause?
      modifies this`g
      ensures Bounded(g, bound, stale) && g.gcstate.Propagate?
      ensures g.heap == old(g.heap) && g.color.Keys == old(g.color).Keys
      ensures g.owned == old(g.owned) && g.roots == old(g.roots)
      ensures Evolves(old(g), g, {})
    {
      hide Marking, Marks, Resting, RootsMarked, StronglyClosed, TouchedOk, Evolves;
      ghost var c := Running(bound, stale);
      ghost var start := g;
      RestingKeys(g);
      StartMarking(g, bound, stale, g.(lists := GrayLists([], [], [], [], []), gcstate := Propagate));
      g := g.(lists := GrayLists([], [], [], [], []), gcstate := Propagate);
      ghost var g1 := g;
      MarkGlobals(g.roots.mainthread, c);
      MarksFrame(g1, g);
      ghost var g2 := g;
      MarkBeingFnz(c);
      MarksFrame(g2, g);
      MarksCompose(g1, g2, g);
      StartEvolves(start, g1);
      MarksEvolve(g1, g);
      EvolvesCompose(start, g1, g, {});
      RootsMarkedAfter(g1, g);
      MainIsGray(g, c);
    }

    /** `GCSatomic`: the gray list is emptied, the atomic step runs, and sweeping begins. */
    method AtomicStep(ghost bound: set<Ref>, ghost stale: set<Ref>)
      returns (ghost kept: set<Ref>, ghost moved: seq<Ref>, ghost after: Global)
      requires Bounded(g, bound, stale) && g.gcstate.AtomicWait?
      modifies this`g
      ensures Bounded(g, bound, stale) && g.gcstate.SwpAllGc?
      ensures kept <= LiveSet(after.color, after.currentwhite) <= bound && RootsIn(old(g.roots), old(g.owned), kept)
      ensures ClosedUnderKeeping(old(g.heap), kept, stale)
      ensures Evolves(old(g), after.(currentwhite := old(g.currentwhite)), old(g.color).Keys - kept)
      ensures Splits(old(g.owned), after.owned, moved) && forall o :: o in moved ==> o !in kept
      ensures SameLive(after, g)
    {
      hide Marking, Propagates, Evolves, RootsMarked, RootsIn, Unmarking, SameLive, Work, Splits, ClosedUnderKeeping,
        CleanUpTo, ClearingFirst,
        NoWeakLeft;
      ghost var start := g;
      ghost var c := Running(bound, stale).(stopped := true);
      StopProgram(g, bound, stale);
      BoundInHeap(g, c);
      PropagateAll(c);
      RootsMarkedKept(start, g);
      PropagatesEvolve(start, g, {});
      ghost var g1 := g;
      kept, moved := Atomic(c);
      after := g;
      assert stale + {} == stale;
      KeepsBack(start, g1, kept, stale);
      SafeAfterAll(g, {});
      ghost var b := g.(currentwhite := g1.currentwhite);
      EvolvesFrame(g1, b, g1.color.Keys - kept);
      EvolvesMore(start, g1, {}, g1.color.Keys - kept);
      EvolvesCompose(start, g1, b, g1.color.Keys - kept);
      FlippedUnmarking(g);
      EnterSweep();
      SameLiveFrame(after, g);
    }

    method Udata2Finalize() returns (o: Ref)
      requires g.owned.tobefnz != []
      modifies this`g
      ensures g == PopFinalizer(old(g)) && o == old(g.owned.tobefnz)[0]
      ensures Inv(old(g)) ==> (Inv(g) <==> !Strays(old(g)))
    {
      if Inv(g) { PopFinalizerSafe(g); }
      o := g.owned.tobefnz[0];
      g := PopFinalizer(g);
    }

    /** Hands at most `gcfinnum` objects to their finalizers, and allows for twice as many next time.
        What the finalizers themselves do is up to the program. */
    method RunAFewFinalizers()
      requires Inv(g) && !IsSweeping(g.gcstate) && (g.owned.tobefnz != [] ==> gcfinnum > 0)
      modifies this`g, this`gcfinnum
      ensures Inv(g) && (g.owned.tobefnz != [] ==> gcfinnum > 0) && Popped(old(g), g) && g.gcstate == old(g.gcstate)
      ensures old(g.owned.tobefnz) != [] ==> |g.owned.tobefnz| < |old(g.owned.tobefnz)|
    {
      hide Inv;
      var i := 0;
      while g.owned.tobefnz != [] && i < gcfinnum
        invariant Inv(g) && Popped(old(g), g) && g.gcstate == old(g.gcstate) && gcfinnum == old(gcfinnum)
        invariant i > 0 ==> |g.owned.tobefnz| < |old(g.owned.tobefnz)|
        invariant i == 0 ==> g == old(g)
        decreases |g.owned.tobefnz|
      {
        PopPopped(g);
        var _ := Udata2Finalize();
        i := i + 1;
      }
      gcfinnum := if g.owned.tobefnz == [] then 0 else gcfinnum * 2;
    }

    /** One step of the collector. */
    method SingleStep(ghost bound: set<Ref>, ghost stale: set<Ref>)
      requires Bounded(g, bound, stale) && stale <= g.color.Keys && (g.owned.tobefnz != [] ==> gcfinnum > 0)
      modifies this`g, this`gcfinnum
      ensures g.gcstate.CallFin? || g.gcstate.Pause? ==> Inv(g)
      ensures !g.gcstate.Pause? ==> Bounded(g, bound, stale)
      ensures g.owned.tobefnz != [] ==> gcfinnum > 0
      ensures old(g.gcstate).Pause? ==>
              g.gcstate.Propagate? && g.heap == old(g.heap) && g.owned == old(g.owned) && Evolves(old(g), g, {})
      ensures old(g.gcstate).Propagate? ==> Propagates(old(g), g.(gcstate := Propagate))
      ensures old(g.gcstate).AtomicWait? ==> g.gcstate.SwpAllGc? && Collected(old(g), g, stale)
      ensures !old(g.gcstate).Pause? ==>
              Rank(g.gcstate) < Rank(old(g.gcstate)) || (g.gcstate == old(g.gcstate) && Todo(g) < Todo(old(g)))
      ensures Rank(g.gcstate) + 1 >= Rank(old(g.gcstate))
      ensures IsSweeping(old(g.gcstate)) ==> SameLive(old(g), g)
      ensures old(g.gcstate).CallFin? ==> Popped(old(g), g)
      ensures old(g.gcstate).CallFin? ==>
              if old(g.owned.tobefnz) != [] && !emergency then g.gcstate.CallFin? else g == old(g).(gcstate := Pause)
    {
      hide Marking, Propagates, Resting, RootsMarked, Sweeping, Work, SameLive, RootsIn, Startable, Evolves, Turned,
        Settles, ClosedUnderKeeping, Splits;
      match g.gcstate {
        case Pause =>
          RestartCollection(bound, stale);
        case Propagate =>
          ghost var start := g;
          PropagateMark(Running(bound, stale));
          RootsMarkedKept(start, g);
          PropagatesFrame(start, g);
          if g.lists.gray == [] {
            EndPropagate(g, Running(bound, stale));
            g := g.(gcstate := AtomicWait);
          }
        case AtomicWait =>
          ghost var start := g;
          ghost var kept, moved, after := AtomicStep(bound, stale);
          TurnedBy(start, after, g, stale, kept, moved);
          gcfinnum := 1;
        case SwpAllGc => SweepPhase(SwpFinObj, At(FinObj, 0), bound);
        case SwpFinObj => SweepPhase(SwpToBeFnz, At(ToBeFnz, 0), bound);
        case SwpToBeFnz => SweepPhase(SwpEnd, NoSweep, bound);
        case SwpEnd =>
          ghost var start := g;
          EndSweep();
          SameLiveFrame(start, g);
          RestingLive(g);
        case CallFin =>
          CallFinInv(g, bound, stale);
          if g.owned.tobefnz != [] && !emergency {
            RunAFewFinalizers();
          } else {
            RestingStartable(g);
            g := g.(gcstate := Pause);
            PhaseResting(old(g), g);
          }
      }
    }

    method SweepPhase(nextstate: Phase, nextlist: SweepPtr, ghost bound: set<Ref>)
      requires Sweeping(g) && LiveSet(g.color, g.currentwhite) <= bound && FollowedBy(g.gcstate, nextstate, nextlist)
      modifies this`g
      ensures Sweeping(g) && LiveSet(g.color, g.currentwhite) <= bound && SameLive(old(g), g)
      ensures g.gcstate == nextstate || (g.gcstate == old(g.gcstate) && SweepTodo(g) < SweepTodo(old(g)))
      ensures g.owned.tobefnz != [] ==> old(g.owned.tobefnz) != []
    {
      hide Sweeping, SameLive;
      ghost var start := g;
      SweepStep(nextstate, nextlist);
      SameLiveFrame(start, g);
    }

    /** Runs the rest of a cycle that is past marking. */
    method FinishCycle()
      requires Inv(g) && !KeepInvariant(g.gcstate) && (g.owned.tobefnz != [] ==> gcfinnum > 0)
      modifies this`g, this`gcfinnum
      ensures Inv(g) && g.gcstate.Pause? && Settles(old(g), g) && (g.owned.tobefnz != [] ==> gcfinnum > 0)
      ensures old(g.gcstate).CallFin? ==> if emergency then g == old(g).(gcstate := Pause) else g.owned.tobefnz == []
    {
      hide Settles, Marking, Resting, Sweeping, RootsMarked, SameLive, RootsIn, Startable, Todo, Popped, LiveSet;
      ghost var start := g;
      ghost var bound := g.color.Keys;
      SettlesRefl(g);
      while !g.gcstate.Pause?
        invariant !g.gcstate.Pause? ==> Bounded(g, bound, {})
        invariant g.gcstate.Pause? ==> Inv(g)
        invariant !KeepInvariant(g.gcstate) && !g.gcstate.InsideAtomic? && Settles(start, g)
        invariant start.gcstate.CallFin? ==> g.gcstate.CallFin? || g.gcstate.Pause?
        invariant start.gcstate.CallFin? && g.gcstate.CallFin? && emergency ==> g == start
        invariant start.gcstate.CallFin? && g.gcstate.Pause? ==>
                    if emergency then g == start.(gcstate := Pause) else g.owned.tobefnz == []
        invariant g.owned.tobefnz != [] ==> gcfinnum > 0
        decreases Rank(g.gcstate), Todo(g)
      {
        ghost var before := g;
        SingleStep(bound, {});
        StepSettles(before, g);
        SettlesCompose(start, before, g);
      }
    }

    /** Runs a fresh cycle up to the point where only finalizers are left to call. */
    method MarkAndSweep(ghost bound: set<Ref>)
      requires Bounded(g, bound, {}) && g.gcstate.Pause? && (g.owned.tobefnz != [] ==> gcfinnum > 0)
      modifies this`g, this`gcfinnum
      ensures Inv(g) && g.gcstate.CallFin? && g.color.Keys <= bound && (g.owned.tobefnz != [] ==> gcfinnum > 0)
      ensures Collected(old(g), g, {})
    {
      hide Marking, Resting, Sweeping, RootsMarked, SameLive, RootsIn, Startable, Todo, Popped, LiveSet, Collected,
        Evolves, Propagates;
      ghost var start := g;
      SingleStep(bound, {});
      while !g.gcstate.CallFin?
        invariant Bounded(g, bound, {}) && Rank(g.gcstate) >= 1 && !g.gcstate.InsideAtomic?
        invariant g.gcstate.CallFin? ==> Inv(g)
        invariant g.owned.tobefnz != [] ==> gcfinnum > 0
        invariant if KeepInvariant(g.gcstate) then Evolves(start, g, {}) && g.owned == start.owned
                  else Collected(start, g, {})
        decreases Rank(g.gcstate), Todo(g)
      {
        ghost var before := g;
        SingleStep(bound, {});
        if before.gcstate.Propagate? {
          StillMarking(start, before, g);
        } else if before.gcstate.AtomicWait? {
          CollectedFrom(start, before, g, {});
        } else {
          StepSettles(before, g);
          CollectedSettles(start, before, g, {});
        }
      }
    }

    /** `luaC_fullgc`.  Whatever set covers what has to be kept, nothing outside it is left when the
        finalizers are about to be called; a collection abandoned while marking loses nothing. */
    method FullGc(isemergency: bool, ghost bound: set<Ref>) returns (ghost paused: Global, ghost swept: Global)
      requires Inv(g) && Covers(g, bound) && (g.owned.tobefnz != [] ==> gcfinnum > 0)
      modifies this
      ensures Inv(g) && g.gcstate.Pause? && (g.owned.tobefnz != [] ==> gcfinnum > 0)
      ensures Inv(paused) && paused.gcstate.Pause? && Settles(old(g), paused)
      ensures KeepInvariant(old(g.gcstate)) ==> paused.color.Keys == old(g).color.Keys
      ensures Inv(swept) && swept.gcstate.CallFin? && swept.color.Keys <= bound
      ensures Settles(swept, g) && g.color.Keys <= bound && Collected(paused, swept, {})
      ensures if isemergency then g == swept.(gcstate := Pause) else g.owned.tobefnz == []
    {
      hide Settles, Marking, Resting, Sweeping, RootsMarked, SameLive, RootsIn, Startable, Todo, Popped, LiveSet,
        Covers, Collected;
      ghost var start := g;
      InvKeys(g);
      SettlesRefl(g);
      emergency := isemergency;
      if KeepInvariant(g.gcstate) {
        FinobjInv(g);
        MarkingUnmarking(g, g.color.Keys, g.color.Keys);
        EnterSweep();
        StepSettles(start, g);
        SweepingInv(g);
        SameLiveFrame(start, g);
      }
      ghost var g1 := g;
      FinishCycle();
      SettlesCompose(start, g1, g);
      paused := g;
      if KeepInvariant(start.gcstate) { NothingDied(start, g); }
      PausedResting(g);
      CoversStartable(start, g, bound);
      MarkAndSweep(bound * g.color.Keys);
      swept := g;
      FinishCycle();
      SettlesFrame(swept, g);
      emergency := false;
    }
  }
}
