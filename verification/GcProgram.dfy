/** The program's side of garbage collection: allocation, writes through the barriers, and the
    unguarded stack writes. */
module GcProgram {
  import opened GcState
  import opened GcMarkLemmas
  import opened GcAtomicLemmas
  import opened GcSweepLemmas
  import opened GcCycleLemmas
  import opened GcWriteLemmas
  import opened GcCollector

  ghost function Live(g: Global): set<Ref> { LiveSet(g.color, g.currentwhite) }

  /** `luaC_barrier_`: a black object got a white value; while marking, the value is marked, otherwise
      the object is swept at once. */
  method Barrier(s: Collector, o: Ref, v: Ref, ghost c: Ctx)
    requires KeepInvariant(s.g.gcstate) ==> Marking(s.g, c) && v in s.g.color && v in c.bound && v in s.g.heap.body
    requires !KeepInvariant(s.g.gcstate) ==> Inv(s.g)
    requires o in s.g.color && s.g.color[o] == Black && v in s.g.color && s.g.color[v].White?
    modifies s`g
    ensures KeepInvariant(s.g.gcstate) ==> Marking(s.g, c) && Marks(old(s.g), s.g) && v in Marked(s.g.color)
    ensures !KeepInvariant(s.g.gcstate) ==>
            Inv(s.g) && s.g == old(s.g).(color := old(s.g.color)[o := White(s.g.currentwhite)])
    ensures s.g.gcstate == old(s.g.gcstate) && s.g.heap == old(s.g.heap) && s.g.color.Keys == old(s.g.color.Keys)
    ensures s.g.owned == old(s.g.owned) && s.g.roots == old(s.g.roots)
  {
    hide Inv, Marking, Marks;
    if KeepInvariant(s.g.gcstate) {
      ghost var before := s.g;
      s.ReallyMarkObject(v, c);
      MarksFrame(before, s.g);
    } else {
      RecolourOutside(s.g, o, White(s.g.currentwhite));
      s.g := s.g.(color := s.g.color[o := White(s.g.currentwhite)]);
    }
  }

  /** `luaC_barrierback_`: a black table becomes gray again. */
  method BarrierBack(s: Collector, t: Ref, ghost c: Ctx)
    requires KeepInvariant(s.g.gcstate) ==>
             Marking(s.g, c) && t in c.busy && t in s.g.heap.body && s.g.heap.body[t].Table?
    requires KeepInvariant(s.g.gcstate) ==> Listed(s.g.lists, s.g.lists.grayagain, t) == 0 && t !in s.g.owned.fixedgc
    requires !KeepInvariant(s.g.gcstate) ==> Inv(s.g)
    requires t in s.g.color && s.g.color[t] == Black
    modifies s`g
    ensures s.g == old(s.g).(color := old(s.g.color)[t := Gray], lists := Link(old(s.g.lists), InGrayAgain, t))
    ensures KeepInvariant(s.g.gcstate) ==> Marking(s.g, c) && Pending(s.g.lists, s.g.lists.grayagain, t)
    ensures !KeepInvariant(s.g.gcstate) ==> Inv(s.g)
  {
    hide Inv, Marking, Listed;
    if KeepInvariant(s.g.gcstate) {
      Recolour(s.g, c, t, Gray, s.g.(color := s.g.color[t := Gray]));
      LinkOne(s.g.(color := s.g.color[t := Gray]), c, t, InGrayAgain,
              s.g.(color := s.g.color[t := Gray], lists := Link(s.g.lists, InGrayAgain, t)));
    } else {
      RecolourOutside(s.g, t, Gray);
      RelistOutside(s.g.(color := s.g.color[t := Gray]), Link(s.g.lists, InGrayAgain, t));
    }
    s.g := s.g.(color := s.g.color[t := Gray]);
    s.g := s.g.(lists := Link(s.g.lists, InGrayAgain, t));
  }

  /** The barrier macros, for each of the values just stored in `p`. */
  method Barriers(s: Collector, p: Ref, vs: seq<Value>, back: bool, ghost c: Ctx)
    requires KeepInvariant(s.g.gcstate) ==> Marking(s.g, c) && p in s.g.heap.body && AllIn(vs, c.bound)
    requires KeepInvariant(s.g.gcstate) && p in s.g.color ==> p in c.busy || s.g.color[p].White?
    requires KeepInvariant(s.g.gcstate) && p in s.g.color && s.g.color[p] == Black ==>
      Listed(s.g.lists, s.g.lists.grayagain, p) == 0 && p !in s.g.owned.fixedgc
    requires !KeepInvariant(s.g.gcstate) ==> Inv(s.g)
    requires p in s.g.color && AllIn(vs, s.g.color.Keys)
    requires back ==> p in s.g.heap.body && s.g.heap.body[p].Table?
    modifies s`g
    ensures s.g.gcstate == old(s.g.gcstate) && s.g.heap == old(s.g.heap) && s.g.color.Keys == old(s.g.color.Keys)
    ensures s.g.owned == old(s.g.owned) && s.g.roots == old(s.g.roots)
    ensures !KeepInvariant(s.g.gcstate) ==> Inv(s.g)
    ensures KeepInvariant(s.g.gcstate) ==> Barred(old(s.g), s.g, c, p, vs)
    ensures old(s.g.color)[p] != Black ==> s.g == old(s.g)
  {
    hide Inv, Marking, Marks, Listed, Barred;
    ghost var start := s.g;
    if KeepInvariant(s.g.gcstate) { BarredStart(s.g, c, p, vs); }
    for i := 0 to |vs|
      invariant s.g.gcstate == start.gcstate && s.g.heap == start.heap && s.g.color.Keys == start.color.Keys
      invariant s.g.owned == start.owned && s.g.roots == start.roots
      invariant !KeepInvariant(s.g.gcstate) ==> Inv(s.g)
      invariant KeepInvariant(s.g.gcstate) ==> Barred(start, s.g, c, p, vs[..i])
      invariant start.color[p] != Black ==> s.g == start
    {
      ghost var before := s.g;
      var v := vs[i];
      assert v in vs;
      if KeepInvariant(s.g.gcstate) { BarredFrame(start, s.g, c, p, vs[..i]); InKeys(s.g, c); }
      if v.Coll? && s.g.color[p] == Black && s.g.color[v.ref].White? {
        if back { BarrierBack(s, p, c); } else { Barrier(s, p, v.ref, c); }
      }
      if KeepInvariant(s.g.gcstate) { BarredNext(start, before, s.g, c, p, vs, i); }
    }
    assert vs[..|vs|] == vs;
  }

  /** The phase, the roots and the lists of objects stay as they are, and no object is made or freed. */
  ghost predicate Framed(a: Global, b: Global)
  {
    b.gcstate == a.gcstate && b.owned == a.owned && b.roots == a.roots && b.color.Keys == a.color.Keys
  }

  /** A write of `vs` into object `p`, with its barriers: forward, or back for table elements.  It keeps
      the collector's invariant exactly when it does not lose a metatable. */
  method Store(s: Collector, p: Ref, b: Body, vs: seq<Value>, back: bool)
    requires Inv(s.g) && p in Live(s.g) && p in s.g.heap.body && AllIn(vs, Live(s.g))
    requires Derived(s.g.heap.body[p], b, vs) && (back ==> b.Table?)
    modifies s`g
    ensures Inv(s.g) <==> !LosesMeta(old(s.g), p, b)
    ensures s.g.heap == WithBody(old(s.g), p, b).heap && Framed(old(s.g), s.g)
    ensures p in old(s.g.color) && old(s.g.color)[p] != Black ==> s.g == WithBody(old(s.g), p, b)
  {
    hide Inv, Marking, Derived, Barred, Listed, LosesMeta;
    ghost var start := s.g;
    ghost var keys := s.g.color.Keys;
    ghost var c := Running(keys, keys).(busy := if p in Marked(s.g.color) then {p} else {});
    LiveKeys(s.g, vs);
    DerivedCompatible(s.g.heap.body[p], b, vs);
    StoreInv(s.g, p, b, vs);
    if KeepInvariant(s.g.gcstate) && p in Marked(s.g.color) { MarkedCases(s.g, p); }
    s.g := s.g.(heap := s.g.heap.(body := s.g.heap.body[p := b]));
    ghost var g1 := s.g;
    Barriers(s, p, vs, back, c);
    StoreDone(start, p, b, vs, s.g, c);
  }

  function MetaBody(g: Global, t: Ref, mt: Value): Body
  {
    if t in g.heap.body && g.heap.body[t].Table? then g.heap.body[t].(tmeta := mt) else Str
  }

  /** `lua_setmetatable` on a table. */
  method SetMetatable(s: Collector, t: Ref, mt: Value)
    requires Inv(s.g) && t in Live(s.g) && t in s.g.heap.body && s.g.heap.body[t].Table? && In(mt, Live(s.g))
    modifies s`g
    ensures s.g.heap == WithBody(old(s.g), t, MetaBody(old(s.g), t, mt)).heap && Framed(old(s.g), s.g)
    ensures Inv(s.g) <==> !LosesMeta(old(s.g), t, MetaBody(old(s.g), t, mt))
    ensures t in old(s.g.color) && old(s.g.color)[t] != Black ==>
            s.g == WithBody(old(s.g), t, MetaBody(old(s.g), t, mt))
  {
    hide Inv;
    Store(s, t, MetaBody(s.g, t, mt), [mt], false);
  }

  /** A write to a stack slot, of the running thread or through an open upvalue: no barrier. */
  method SetSlot(s: Collector, t: Ref, i: nat, v: Value)
    requires Inv(s.g) && IsThread(s.g.heap, t) && i < |s.g.heap.body[t].stack| && In(v, Live(s.g))
    modifies s`g
    ensures Inv(s.g)
    ensures s.g == WithBody(old(s.g), t, Thread(old(s.g.heap.body[t].stack)[i := v], old(s.g.heap.body[t].openups)))
  {
    hide Inv;
    SlotInv(s.g, t, i, v);
    var Thread(stack, openups) := s.g.heap.body[t];
    s.g := s.g.(heap := s.g.heap.(body := s.g.heap.body[t := Thread(stack[i := v], openups)]));
  }

  /** The metatable's `__mode` field changes, and with it the way `t` is weak from now on. */
  method SetMode(s: Collector, t: Ref, mode: Mode)
    requires Inv(s.g) && t in s.g.heap.body && s.g.heap.body[t].Table? && t in Live(s.g)
    modifies s`g
    ensures Inv(s.g) && s.g.heap == WithBody(old(s.g), t, old(s.g.heap.body[t]).(mode := mode)).heap
    ensures Framed(old(s.g), s.g)
  {
    hide Inv, LosesMeta;
    ModeDerived(s.g, t, mode);
    Store(s, t, s.g.heap.body[t].(mode := mode), [], true);
  }

  /** `luaC_newobj` and the constructors of its callers: a white object at the front of `allgc`. */
  method NewObject(s: Collector, o: Ref, b: Body)
    requires Inv(s.g) && o !in s.g.color && Fresh(s.g, b)
    modifies s`g
    ensures Inv(s.g) && o in Live(s.g) && s.g.heap == Heap(old(s.g.heap.body)[o := b], old(s.g.heap.ups))
    ensures Live(s.g) == Live(old(s.g)) + {o}
    ensures s.g.owned == old(s.g.owned).(allgc := [o] + old(s.g.owned.allgc)) && s.g.roots == old(s.g.roots)
    ensures s.g.gcstate == old(s.g.gcstate) && s.g.color.Keys == old(s.g.color.Keys) + {o}
  {
    hide Inv, Fresh;
    NewInv(s.g, o, b);
    s.g := Allocated(s.g, o, b);
  }

  /** The stack slot that an open upvalue stands for, or a closed upvalue, holds the value now. */
  ghost predicate UpWritten(h: Heap, h': Heap, u: UpId, v: Value)
    requires u in h.ups
  {
    match h.ups[u]
    case Open(t, i, _) =>
      && IsThread(h, t) && i < |h.body[t].stack| && h'.ups == h.ups
      && h'.body == h.body[t := h.body[t].(stack := h.body[t].stack[i := v])]
    case Closed(_) => h' == h.(ups := h.ups[u := Closed(v)])
  }

  /** `SETUPVAL`: through an open upvalue into the stack, or into a closed one with its barrier.  (The
      value is marked before it is stored; marking does not look at upvalues.) */
  method SetUpval(s: Collector, u: UpId, v: Value)
    requires Inv(s.g) && u in s.g.heap.ups && In(v, Live(s.g))
    modifies s`g
    ensures Inv(s.g) && UpWritten(old(s.g.heap), s.g.heap, u, v) && UpValue(s.g.heap, u) == v && Framed(old(s.g), s.g)
  {
    hide Inv, Marking, Marks;
    LiveKeys(s.g, [v]);
    match s.g.heap.ups[u] {
      case Open(t, i, _) =>
        OpenSlot(s.g, u);
        SetSlot(s, t, i, v);
      case Closed(_) =>
        if KeepInvariant(s.g.gcstate) {
          ghost var start := s.g;
          InvParts(s.g);
          MarksRefl(s.g);
          s.MarkValue(v, Running(s.g.color.Keys, s.g.color.Keys), start);
          MarksFrame(start, s.g);
          MarkedInv(start, s.g);
        }
        ClosedUpInv(s.g, u, v);
        s.g := s.g.(heap := s.g.heap.(ups := s.g.heap.ups[u := Closed(v)]));
    }
  }

  /** `luaF_findupval` when no upvalue for the slot is open yet. */
  method Capture(s: Collector, t: Ref, u: UpId, i: nat)
    requires Inv(s.g) && u !in s.g.heap.ups && IsThread(s.g.heap, t) && i < |s.g.heap.body[t].stack| && t in Live(s.g)
    modifies s`g
    ensures Inv(s.g) && s.g == Captured(old(s.g), t, u, i)
  {
    hide Inv;
    CaptureInv(s.g, t, u, i);
    s.g := Captured(s.g, t, u, i);
  }

  /** One round of `luaF_close`: the value moves into the upvalue, under the upvalue barrier. */
  method CloseUpval(s: Collector, u: UpId)
    requires Inv(s.g) && u in s.g.heap.ups && s.g.heap.ups[u].Open? && s.g.heap.ups[u].thread in Live(s.g)
    modifies s`g
    ensures Inv(s.g) && s.g.heap == Detached(old(s.g), u).heap && Framed(old(s.g), s.g)
  {
    hide Inv, Marking, Marks, UpValue;
    UpLive(s.g, u);
    LiveKeys(s.g, [UpValue(s.g.heap, u)]);
    if KeepInvariant(s.g.gcstate) {
      ghost var start := s.g;
      InvParts(s.g);
      MarksRefl(s.g);
      s.MarkValue(UpValue(s.g.heap, u), Running(s.g.color.Keys, s.g.color.Keys), start);
      MarksFrame(start, s.g);
      MarkedInv(start, s.g);
      MarkedLive(start, s.g, s.g.heap.ups[u].thread);
    }
    DetachInv(s.g, u);
    s.g := Detached(s.g, u);
  }

  // ----- whole runs -----

  /** What the program can read out of an object. */
  function Readable(h: Heap, b: Body): seq<Value>
  {
    match b
    case Str => []
    case Udata(m, u) => [m, u]
    case LClosure(p, us) => [p] + seq(|us|, i requires 0 <= i < |us| => UpValue(h, us[i]))
    case CClosure(vs) => vs
    case Table(_, m, slots, nodes) => [m] + slots + Entries(nodes)
    case Thread(st, _) => st
    case Proto(ks, c) => ks + [c]
  }

  function Entries(nodes: seq<Entry>): seq<Value>
  {
    if nodes == [] then []
    else (if nodes[0].val == Nil then [] else [nodes[0].key, nodes[0].val]) + Entries(nodes[1..])
  }

  lemma {:induction false} EntriesIn(nodes: seq<Entry>, s: set<Ref>)
    requires NodesIn(nodes, s)
    ensures AllIn(Entries(nodes), s)
  {
    if nodes != [] {
      assert EntryIn(nodes[0], s);
      EntriesIn(nodes[1..], s);
    }
  }

  lemma ReadableIn(h: Heap, b: Body, s: set<Ref>)
    requires Full(h, b, s)
    ensures AllIn(Readable(h, b), s)
  {
    hide UpValue;
    if b.Table? { EntriesIn(b.nodes, s); }
    if b.LClosure? {
      forall v | v in Readable(h, b) ensures In(v, s) {
        var i :| 0 <= i < |Readable(h, b)| && Readable(h, b)[i] == v;
        if i > 0 { assert In(UpValue(h, b.upvals[i - 1]), s); }
      }
    }
  }

  lemma {:induction false} EntriesAll(nodes: seq<Entry>, s: set<Ref>)
    requires AllIn(Entries(nodes), s)
    ensures NodesIn(nodes, s)
  {
    if nodes != [] {
      var first := if nodes[0].val == Nil then [] else [nodes[0].key, nodes[0].val];
      assert Entries(nodes) == first + Entries(nodes[1..]);
      forall v | v in Entries(nodes[1..]) ensures In(v, s) { assert v in Entries(nodes); }
      EntriesAll(nodes[1..], s);
      assert nodes[0].val != Nil ==> first[0] in Entries(nodes) && first[1] in Entries(nodes);
      forall e | e in nodes ensures EntryIn(e, s) { assert e == nodes[0] || e in nodes[1..]; }
    }
  }

  /** What the program can read out of an object is exactly what its invariant speaks of: a set holds all of it exactly
      if the object refers to nothing outside the set. */
  lemma ReadableExact(h: Heap, b: Body, s: set<Ref>)
    ensures AllIn(Readable(h, b), s) <==> Full(h, b, s)
  {
    hide UpValue;
    if Full(h, b, s) { ReadableIn(h, b, s); }
    if AllIn(Readable(h, b), s) {
      match b
      case Udata(m, u) => assert Readable(h, b)[0] == m && Readable(h, b)[1] == u;
      case LClosure(p, us) =>
        assert Readable(h, b)[0] == p;
        forall i | 0 <= i < |us| ensures In(UpValue(h, us[i]), s) { assert Readable(h, b)[i + 1] == UpValue(h, us[i]); }
      case Table(_, m, slots, nodes) =>
        var vs := Readable(h, b);
        assert vs[0] == m;
        forall v | v in slots || v in Entries(nodes) ensures v in vs {}
        EntriesAll(nodes, s);
      case Proto(ks, c) =>
        assert Readable(h, b)[|ks|] == c;
        forall v | v in ks ensures v in Readable(h, b) {}
      case _ =>
    }
  }

  /** What the program can reach: the threads, the registry, the metatables of basic types, what waits for its finalizer
      and what is fixed. */
  lemma RootsAccessible(g: Global, o: Ref)
    requires
      || o == g.roots.mainthread || o == g.roots.running || g.roots.registry == Coll(o) || Coll(o) in g.roots.mt
      || o in g.owned.tobefnz || o in g.owned.fixedgc
    ensures Accessible(g, o)
  {
    hide FullyClosed;
  }

  /** And whatever it can read out of what it can reach. */
  lemma ReadableAccessible(g: Global, o: Ref, x: Ref)
    requires Accessible(g, o) && o in g.heap.body && Coll(x) in Readable(g.heap, g.heap.body[o])
    ensures Accessible(g, x)
  {
    hide Full, RootsIn, Readable;
    forall s: set<Ref> | RootsIn(g.roots, g.owned, s) && FullyClosed(g.heap, s) ensures x in s {
      ReadableExact(g.heap, g.heap.body[o], s);
      assert In(Coll(x), s);
    }
  }

  /** Where a new closure finds an upvalue: open on the running thread, or in the enclosing closure. */
  datatype UpDesc = InStack(id: UpId) | InClosure(index: nat)

  /** One thing the program or the collector does.  Operands are slots of the running thread's stack; an
      operand of the wrong kind makes the operation do nothing. */
  datatype Op =
    | StepGc | CollectAll(emergency: bool)
    | LoadRegistry(dst: nat) | Load(dst: nat, src: nat, k: nat)
    | NewTable(dst: nat, addr: Ref, tmode: Mode) | NewUdata(dst: nat, addr: Ref)
    | NewClosure(dst: nat, proto: nat, addr: Ref, enclosing: nat, desc: seq<UpDesc>)
    | NewThread(dst: nat, addr: Ref, size: nat) | NewString(dst: nat, addr: Ref)
    | SetElement(t: nat, key: nat, val: nat) | Overwrite(t: nat, index: nat, val: nat) | SetMeta(t: nat, mt: nat)
      | ChangeMode(t: nat, newmode: Mode)
    | SetUser(ud: nat, val: nat)
    | OpenUp(slot: nat, id: UpId) | WriteUp(closure: nat, k: nat, val: nat) | CloseUp(id: UpId)

  /** The invariant of a running state. */
  ghost predicate Sound(s: Collector)
    reads s
  {
    Inv(s.g) && (s.g.owned.tobefnz != [] ==> s.gcfinnum > 0)
  }

  /** The state that `lua_newstate` builds: the main thread, white, and nothing else. */
  function NewGlobal(slots: nat): Global {
    var stack := seq(slots, _ => Nil);
    Global(map[0 := White(false)], Heap(map[0 := Thread(stack, [])], map[]), false, Pause,
           Owned([], [], [], []), NoSweep, GrayLists([], [], [], [], []), [], Roots(0, 0, Nil, []))
  }

  lemma NewGlobalInv(slots: nat)
    ensures Inv(NewGlobal(slots))
  {
    var g := NewGlobal(slots);
    assert g.heap.body.Keys == {0} && g.color.Keys == {0};
    assert LiveSet(g.color, false) == {0} && Marked(g.color) == {};
    assert forall o :: Owners(g.owned, o) == 0;
    assert Full(g.heap, g.heap.body[0], {0});
  }

  method NewState(slots: nat) returns (s: Collector)
    ensures fresh(s) && Sound(s) && s.g == NewGlobal(slots)
  {
    NewGlobalInv(slots);
    s := new Collector(NewGlobal(slots));
  }

  function StackOf(g: Global): seq<Value>
  {
    if g.roots.running in g.heap.body && g.heap.body[g.roots.running].Thread?
    then g.heap.body[g.roots.running].stack else []
  }

  /** The body of the object in slot `i`, or of a string if there is none. */
  function BodyAt(g: Global, i: nat): Body
  {
    if i < |StackOf(g)| && StackOf(g)[i].Coll? && StackOf(g)[i].ref in g.heap.body
    then g.heap.body[StackOf(g)[i].ref] else Str
  }

  /** What the running thread holds is live, and refers to live objects only. */
  lemma StackLive(g: Global)
    requires Inv(g)
    ensures g.roots.running in Live(g) && In(g.roots.registry, Live(g))
    ensures IsThread(g.heap, g.roots.running) && AllIn(StackOf(g), Live(g)) && g.color.Keys == g.heap.body.Keys
    ensures forall o :: o in Live(g) ==> o in g.heap.body && Full(g.heap, g.heap.body[o], Live(g))
  {
    hide Inv, LiveSet;
    InvSafe(g);
    InvKeys(g);
    assert Full(g.heap, g.heap.body[g.roots.running], LiveSet(g.color, g.currentwhite));
    RunningThread(g);
  }

  lemma RunningThread(g: Global)
    requires Inv(g)
    ensures IsThread(g.heap, g.roots.running)
  {
    hide FullyClosed, BoundOk, TouchedOk, RootsIn, RootsMarked, GraysListed, ListsOk, Progress, TwupsComplete,
      WeakListsOk, UpsOk, OwnedOk, Startable, SweptSoFar, ColorsOk;
  }

  // ----- what an operation does -----

  /** Slot `i` of the running thread holds `v`, and nothing else changed. */
  ghost predicate Puts(a: Global, b: Global, i: nat, v: Value)
    requires i < |StackOf(a)|
  {
    var t := a.roots.running;
    b == a.(heap := a.heap.(body := a.heap.body[t := a.heap.body[t].(stack := StackOf(a)[i := v])]))
  }

  /** There is one object more, with this body, and slot `dst` refers to it. */
  ghost predicate Makes(a: Global, b: Global, dst: nat, addr: Ref, body: Body)
  {
    if dst < |StackOf(a)| && addr !in a.color then
      var t := a.roots.running;
      && t in a.heap.body && b.heap.ups == a.heap.ups
      && b.heap.body == a.heap.body[addr := body][t := a.heap.body[t].(stack := StackOf(a)[dst := Coll(addr)])]
      && b.color.Keys == a.color.Keys + {addr} && Live(b) == Live(a) + {addr}
      && b.owned == a.owned.(allgc := [addr] + a.owned.allgc) && b.roots == a.roots && b.gcstate == a.gcstate
    else b == a
  }

  /** The object in slot `i` has another body; every other object is the same. */
  ghost predicate Writes(a: Global, b: Global, i: nat, body: Body)
    requires i < |StackOf(a)| && StackOf(a)[i].Coll?
  {
    b.heap == a.heap.(body := a.heap.body[StackOf(a)[i].ref := body]) && Framed(a, b)
  }

  /** The running thread has one open upvalue more, for the slot. */
  ghost predicate Opens(a: Global, b: Global, slot: nat, id: UpId)
  {
    var t := a.roots.running;
    && IsThread(a.heap, t) && b.heap.ups == a.heap.ups[id := Open(t, slot, true)] && Framed(a, b)
    && b.heap.body == a.heap.body[t := a.heap.body[t].(openups := [id] + a.heap.body[t].openups)]
  }

  /** The upvalue is closed with the value that it showed; the running thread does not have it any more. */
  ghost predicate Closes(a: Global, b: Global, id: UpId)
  {
    var t := a.roots.running;
    && IsThread(a.heap, t) && IsThread(b.heap, t) && Framed(a, b)
    && b.heap.ups == a.heap.ups[id := Closed(UpValue(a.heap, id))]
    && b.heap.body == a.heap.body[t := b.heap.body[t]] && b.heap.body[t].stack == a.heap.body[t].stack
    && forall u :: u in b.heap.body[t].openups <==> u in a.heap.body[t].openups && u != id
  }

  /** The tables whose weak mode may be out of date. */
  function StaleOf(g: Global): set<Ref> { if KeepInvariant(g.gcstate) then set o | o in g.lists.allweak else {} }

  /** A step of the collector: the phases follow each other or there is less to do, and live objects stay as they are,
      but for weak entries that `atomic` cuts. */
  ghost predicate Steps(a: Global, b: Global)
  {
    && Rank(b.gcstate) + 1 >= Rank(a.gcstate)
    && (if a.gcstate.Pause? then b.gcstate.Propagate?
        else Rank(b.gcstate) < Rank(a.gcstate) || (b.gcstate == a.gcstate && Todo(b) < Todo(a)))
    && match a.gcstate
       case Pause => b.heap == a.heap && b.owned == a.owned && Evolves(a, b, {})
       case Propagate => Propagates(a, b.(gcstate := Propagate))
       case AtomicWait => Collected(a, b, StaleOf(a))
       case CallFin => Popped(a, b)
       case _ => SameLive(a, b)
  }

  /** What every set that covers what has to be kept holds. */
  ghost function Needed(g: Global): set<Ref> { set o | o in g.color && forall s: set<Ref> :: Covers(g, s) ==> o in s }

  /** A full collection: a cycle that is past marking is finished, and one that is marking is abandoned without loss;
      then a whole cycle leaves what is needed and nothing else; then the finalizers are called, except in an
      emergency. */
  ghost predicate CollectsAll(a: Global, b: Global, emergency: bool)
  {
    exists paused: Global, swept: Global :: FullCycle(a, paused, swept, b, emergency)
  }

  ghost predicate FullCycle(a: Global, paused: Global, swept: Global, b: Global, emergency: bool)
  {
    && paused.gcstate.Pause? && Settles(a, paused)
    && (KeepInvariant(a.gcstate) ==> paused.color.Keys == a.color.Keys)
    && Collected(paused, swept, {}) && swept.color.Keys <= Needed(a)
    && b.gcstate.Pause? && Settles(swept, b)
    && if emergency then b == swept.(gcstate := Pause) else b.owned.tobefnz == []
  }

  /** What an operation does between two states. Operands that are not there, or not of the right kind, make it do
      nothing. */
  ghost predicate Does(op: Op, a: Global, b: Global)
  {
    var stack := StackOf(a);
    match op
    case StepGc => Steps(a, b)
    case CollectAll(emergency) => CollectsAll(a, b, emergency)
    case LoadRegistry(dst) => if dst < |stack| then Puts(a, b, dst, a.roots.registry) else b == a
    case Load(dst, src, k) =>
      var vs := Readable(a.heap, BodyAt(a, src));
      if dst < |stack| && k < |vs| then Puts(a, b, dst, vs[k]) else b == a
    case NewTable(dst, addr, mode) => Makes(a, b, dst, addr, Table(mode, Nil, [], []))
    case NewUdata(dst, addr) => Makes(a, b, dst, addr, Udata(Nil, Nil))
    case NewThread(dst, addr, size) => Makes(a, b, dst, addr, Thread(seq(size, _ => Nil), []))
    case NewString(dst, addr) => Makes(a, b, dst, addr, Str)
    case NewClosure(dst, proto, addr, enclosing, desc) =>
      if proto < |stack| && UpsThere(a, BodyAt(a, enclosing), desc)
      then Makes(a, b, dst, addr, LClosure(stack[proto], UpsOf(a, BodyAt(a, enclosing), desc)))
      else b == a
    case SetElement(t, key, val) =>
      var old_ := BodyAt(a, t);
      if old_.Table? && key < |stack| && val < |stack|
      then Writes(a, b, t, old_.(nodes := old_.nodes + [Entry(stack[key], stack[val])]))
      else b == a
    case Overwrite(t, i, val) =>
      var old_ := BodyAt(a, t);
      if old_.Table? && i < |old_.nodes| && old_.nodes[i].val != Nil && val < |stack|
      then Writes(a, b, t, old_.(nodes := old_.nodes[i := Entry(old_.nodes[i].key, stack[val])]))
      else b == a
    case SetMeta(t, mt) =>
      var old_ := BodyAt(a, t);
      if old_.Table? && mt < |stack| && !LosesMeta(a, stack[t].ref, old_.(tmeta := stack[mt]))
      then Writes(a, b, t, old_.(tmeta := stack[mt]))
      else b == a
    case ChangeMode(t, mode) =>
      if BodyAt(a, t).Table? then Writes(a, b, t, BodyAt(a, t).(mode := mode)) else b == a
    case SetUser(ud, val) =>
      if BodyAt(a, ud).Udata? && val < |stack| then Writes(a, b, ud, BodyAt(a, ud).(user := stack[val])) else b == a
    case OpenUp(slot, id) =>
      if slot < |stack| && id !in a.heap.ups then Opens(a, b, slot, id) else b == a
    case WriteUp(closure, k, val) =>
      var c := BodyAt(a, closure);
      if c.LClosure? && k < |c.upvals| && val < |stack|
      then c.upvals[k] in a.heap.ups && UpWritten(a.heap, b.heap, c.upvals[k], stack[val]) && Framed(a, b)
      else b == a
    case CloseUp(id) =>
      if id in a.heap.ups && a.heap.ups[id].Open? && a.heap.ups[id].thread == a.roots.running
      then Closes(a, b, id)
      else b == a
  }

  /** Every upvalue that the description asks for is there. */
  predicate UpsThere(g: Global, enclosing: Body, desc: seq<UpDesc>)
  {
    forall i :: 0 <= i < |desc| ==> UpThere(g, enclosing, desc[i])
  }

  predicate UpThere(g: Global, enclosing: Body, d: UpDesc)
  {
    match d
    case InStack(u) => u in g.heap.ups && g.heap.ups[u].Open? && g.heap.ups[u].thread == g.roots.running
    case InClosure(k) => enclosing.LClosure? && k < |enclosing.upvals|
  }

  /** The upvalues in the order of the description: the one named, or the enclosing closure's. */
  function UpsOf(g: Global, enclosing: Body, desc: seq<UpDesc>): (us: seq<UpId>)
    requires UpsThere(g, enclosing, desc)
    ensures |us| == |desc|
    ensures forall i :: 0 <= i < |us| ==>
              UpThere(g, enclosing, desc[i]) &&
              us[i] == if desc[i].InStack? then desc[i].id else enclosing.upvals[desc[i].index]
  {
    seq(|desc|, i requires 0 <= i < |desc| && UpThere(g, enclosing, desc[i]) =>
      if desc[i].InStack? then desc[i].id else enclosing.upvals[desc[i].index])
  }

  /** The states of a run. */
  ghost predicate Ran(ops: seq<Op>, trace: seq<Global>)
  {
    && |trace| == |ops| + 1
    && (forall k :: 0 <= k < |trace| ==> Inv(trace[k]))
    && forall k :: 0 <= k < |ops| ==> Does(ops[k], trace[k], trace[k + 1])
  }

  lemma RanNext(ops: seq<Op>, trace: seq<Global>, op: Op, g: Global)
    requires Ran(ops, trace) && Does(op, trace[|ops|], g) && Inv(g)
    ensures Ran(ops + [op], trace + [g])
  {
    hide Does, Inv;
    var ops', trace' := ops + [op], trace + [g];
    forall k | 0 <= k < |ops'| ensures Does(ops'[k], trace'[k], trace'[k + 1]) {
      if k < |ops| { assert Does(ops[k], trace[k], trace[k + 1]); }
    }
  }

  /** Any run of the program under the collector, from any sound state: every operation does what it should, one after
      the other, and the invariant holds between any two, so that every object the program reads is in the heap. */
  method Run(s: Collector, ops: seq<Op>) returns (ghost trace: seq<Global>)
    requires Sound(s)
    modifies s
    ensures Sound(s) && Ran(ops, trace) && trace[0] == old(s.g) && trace[|ops|] == s.g
  {
    hide Inv, Does;
    trace := [s.g];
    for i := 0 to |ops|
      invariant Sound(s) && Ran(ops[..i], trace) && trace[0] == old(s.g) && trace[i] == s.g
    {
      var op := ops[i];
      if op.StepGc? || op.CollectAll? { RunCollector(s, op); }
      else if op.LoadRegistry? || op.Load? { RunLoad(s, op); }
      else if op.NewTable? || op.NewUdata? || op.NewThread? || op.NewString? || op.NewClosure? { RunNew(s, op); }
      else if op.OpenUp? || op.WriteUp? || op.CloseUp? { RunUpvalue(s, op); }
      else { RunStore(s, op); }
      RanNext(ops[..i], trace, op, s.g);
      assert ops[..i] + [op] == ops[..i + 1];
      trace := trace + [s.g];
    }
    assert ops[..|ops|] == ops;
  }

  method RunCollector(s: Collector, op: Op)
    requires Sound(s) && (op.StepGc? || op.CollectAll?)
    modifies s
    ensures Sound(s) && Does(op, old(s.g), s.g)
  {
    hide Inv, Bounded, Covers, Collected, Settles, Evolves, Propagates, SameLive, Popped;
    ghost var start, keys := s.g, s.g.color.Keys;
    if op.StepGc? {
      InvBounded(s.g);
      InvPhase(s.g);
      s.SingleStep(keys, StaleOf(start));
      if !s.g.gcstate.Pause? { StepInv(s.g, keys, StaleOf(start)); }
    } else {
      NeededCovers(s.g);
      ghost var paused, swept := s.FullGc(op.emergency, Needed(s.g));
      assert FullCycle(start, paused, swept, s.g, op.emergency);
    }
  }

  method RunLoad(s: Collector, op: Op)
    requires Sound(s) && (op.LoadRegistry? || op.Load?)
    modifies s`g
    ensures Sound(s) && Does(op, old(s.g), s.g)
  {
    hide Inv, Full, LiveSet;
    StackLive(s.g);
    var th := s.g.roots.running;
    var stack := StackOf(s.g);
    if op.dst < |stack| {
      if op.LoadRegistry? {
        SetSlot(s, th, op.dst, s.g.roots.registry);
      } else if op.src < |stack| && stack[op.src].Coll? {
        var r := stack[op.src].ref;
        assert stack[op.src] in stack;
        var b := s.g.heap.body[r];
        ReadableIn(s.g.heap, b, Live(s.g));
        var vs := Readable(s.g.heap, b);
        if op.k < |vs| {
          SetSlot(s, th, op.dst, vs[op.k]);
        }
      }
    }
  }

  method RunNew(s: Collector, op: Op)
    requires Sound(s) && (op.NewTable? || op.NewUdata? || op.NewThread? || op.NewString? || op.NewClosure?)
    modifies s`g
    ensures Sound(s) && Does(op, old(s.g), s.g)
  {
    hide Inv, Full, LiveSet;
    StackLive(s.g);
    var stack := StackOf(s.g);
    match op {
      case NewTable(dst, addr, mode) => Make(s, dst, addr, Table(mode, Nil, [], []));
      case NewUdata(dst, addr) => Make(s, dst, addr, Udata(Nil, Nil));
      case NewThread(dst, addr, size) => Make(s, dst, addr, Thread(seq(size, _ => Nil), []));
      case NewString(dst, addr) => Make(s, dst, addr, Str);
      case NewClosure(dst, proto, addr, enclosing, desc) =>
        var ok, us := FindUpvals(s, BodyAt(s.g, enclosing), desc, enclosing);
        if ok && proto < |stack| {
          assert stack[proto] in stack;
          Make(s, dst, addr, LClosure(stack[proto], us));
        }
    }
  }

  method Make(s: Collector, dst: nat, addr: Ref, b: Body)
    requires Sound(s) && New(s.g, b)
    modifies s`g
    ensures Sound(s) && Makes(old(s.g), s.g, dst, addr, b)
  {
    hide Inv, Full, LiveSet, New;
    StackLive(s.g);
    if dst < |StackOf(s.g)| && addr !in s.g.color {
      FreshBody(s.g, b);
      NewObject(s, addr, b);
      SetSlot(s, s.g.roots.running, dst, Coll(addr));
    }
  }

  /** The upvalues that a new closure is to share, if they are all there. */
  method FindUpvals(s: Collector, enclosing: Body, desc: seq<UpDesc>, ghost slot: nat) returns (ok: bool, us: seq<UpId>)
    requires Inv(s.g) && enclosing == BodyAt(s.g, slot)
    ensures ok == UpsThere(s.g, enclosing, desc) && (ok ==> us == UpsOf(s.g, enclosing, desc))
    ensures forall u :: u in us ==> u in s.g.heap.ups && In(UpValue(s.g.heap, u), Live(s.g))
  {
    hide Inv, UpValue, LiveSet;
    us := [];
    for i := 0 to |desc|
      invariant |us| == i && forall j :: 0 <= j < i ==> UpThere(s.g, enclosing, desc[j])
      invariant forall j :: 0 <= j < i ==>
                  us[j] == if desc[j].InStack? then desc[j].id else enclosing.upvals[desc[j].index]
      invariant forall u :: u in us ==> u in s.g.heap.ups && In(UpValue(s.g.heap, u), Live(s.g))
    {
      match desc[i] {
        case InStack(u) =>
          if !(u in s.g.heap.ups && s.g.heap.ups[u].Open? && s.g.heap.ups[u].thread == s.g.roots.running) {
            return false, [];
          }
          StackLive(s.g);
          UpLive(s.g, u);
          us := us + [u];
        case InClosure(k) =>
          if !(enclosing.LClosure? && k < |enclosing.upvals|) {
            return false, [];
          }
          ClosureUps(s.g, slot, k);
          us := us + [enclosing.upvals[k]];
      }
    }
    ok := true;
  }

  lemma ClosureUps(g: Global, slot: nat, k: nat)
    requires Inv(g) && BodyAt(g, slot).LClosure? && k < |BodyAt(g, slot).upvals|
    ensures var u := BodyAt(g, slot).upvals[k];
      u in g.heap.ups && In(UpValue(g.heap, u), Live(g))
  {
    hide Inv, LiveSet, UpValue, OpenOk;
    StackLive(g);
    InvUps(g);
    var v := StackOf(g)[slot];
    assert v in StackOf(g);
    assert Full(g.heap, g.heap.body[v.ref], Live(g));
  }

  /** A body of a new object: it refers to nothing, or is a closure over live things. */
  ghost predicate New(g: Global, b: Body)
  {
    match b
    case Str => true
    case Udata(m, u) => m == Nil && u == Nil
    case Table(_, m, slots, nodes) => m == Nil && slots == [] && nodes == []
    case Thread(st, us) => us == [] && forall v :: v in st ==> v == Nil
    case LClosure(p, us) => In(p, Live(g)) && forall u :: u in us ==> u in g.heap.ups && In(UpValue(g.heap, u), Live(g))
    case _ => false
  }

  lemma FreshBody(g: Global, b: Body)
    requires Inv(g) && New(g, b)
    ensures Fresh(g, b)
  {
    hide Inv, LiveSet, UpValue;
  }

  /** While marking, tables that are not on `allweak` are visited by the mode that they have. */
  lemma InvBounded(g: Global)
    requires Inv(g)
    ensures Bounded(g, g.color.Keys, StaleOf(g)) && StaleOf(g) <= g.color.Keys
    ensures Bounded(g, g.color.Keys, g.color.Keys)
  {
    hide Marking, Resting, Sweeping, Startable, RootsMarked, RootsIn;
    if KeepInvariant(g.gcstate) {
      var keys := g.color.Keys;
      MarkingFresh(g, Running(keys, keys), Running(keys, StaleOf(g)));
    }
  }

  lemma MarkingFresh(g: Global, c: Ctx, c': Ctx)
    requires Marking(g, c) && c' == c.(view := c.view.(stale := set o | o in g.lists.allweak))
    ensures Marking(g, c') && (set o | o in g.lists.allweak) <= g.color.Keys
  {
    hide Shape, FullyClosed, RootsIn, StronglyClosed, ClosedBut, ListsOk, GraysListed, TouchedOk, ColorsOk, BoundOk,
      TwupsComplete, WeakListsOk, Visited, Pending;
    var s, saved := Marked(g.color), Saved(g.lists, g.gcstate, c);
    forall o | o in s && o !in c.busy && !Pending(g.lists, saved, o)
      ensures Visited(g.heap, g.lists, g.gcstate, g.twups, c'.view, o, s)
    {
      StaleListed(g.heap, g.lists, g.gcstate, g.twups, c.view, c'.view, o, s);
    }
    AllWeakKeys(g, c);
  }

  lemma StaleListed(h: Heap, ls: GrayLists, p: Phase, twups: seq<Ref>, view: View, view': View, o: Ref, s: set<Ref>)
    requires Visited(h, ls, p, twups, view, o, s) && view' == view.(stale := set x | x in ls.allweak)
    ensures Visited(h, ls, p, twups, view', o, s)
  {}

  lemma AllWeakKeys(g: Global, c: Ctx)
    requires Marking(g, c)
    ensures (set o | o in g.lists.allweak) <= g.color.Keys
  {
    hide Shape, FullyClosed, RootsIn, TouchedOk, ColorsOk, BoundOk, Progress, GraysListed, WeakListsOk, PhaseOk;
    forall o | o in g.lists.allweak ensures o in g.color {
      assert o in multiset(g.lists.allweak);
      assert Listed(g.lists, Saved(g.lists, g.gcstate, c), o) > 0;
    }
  }

  /** What is needed covers what has to be kept: covers have a least one. */
  lemma NeededCovers(g: Global)
    requires Inv(g)
    ensures Covers(g, Needed(g))
  {
    hide Inv, RootsIn, StronglyClosed, TouchedLive;
    CoversLive(g);
    assert Live(g) <= g.color.Keys;
    MeetRoots(g);
    MeetStrong(g);
    MeetTouched(g);
  }

  /** A value is needed if every cover holds it. */
  lemma MeetIn(g: Global, v: Value)
    requires Covers(g, Live(g)) && forall s: set<Ref> :: Covers(g, s) ==> In(v, s)
    ensures In(v, Needed(g))
  {
    hide Covers;
    assert In(v, Live(g));
  }

  lemma MeetRoots(g: Global)
    requires Covers(g, Live(g))
    ensures RootsIn(g.roots, g.owned, Needed(g)) && forall o :: o in g.owned.finobj ==> o in Needed(g)
  {
    hide StronglyClosed, TouchedLive, LiveSet;
    LiveKnown(g);
    MeetIn(g, g.roots.registry);
    forall v | v in g.roots.mt ensures In(v, Needed(g)) { MeetIn(g, v); }
  }

  lemma LiveKnown(g: Global)
    ensures forall o :: o in Live(g) ==> o in g.color
  {}

  lemma MeetStrong(g: Global)
    requires Covers(g, Live(g))
    ensures StronglyClosed(g.heap, Needed(g))
  {
    hide StrongIn;
    forall o | o in Needed(g) && o in g.heap.body ensures StrongIn(g.heap, g.heap.body[o], Needed(g)) {
      MeetBody(g, o);
    }
  }

  lemma MeetBody(g: Global, o: Ref)
    requires Covers(g, Live(g)) && o in Needed(g) && o in g.heap.body
    ensures StrongIn(g.heap, g.heap.body[o], Needed(g))
  {
    hide StrongIn, RootsIn, TouchedLive, LiveSet;
    forall s: set<Ref> | Covers(g, s) ensures StrongIn(g.heap, g.heap.body[o], s) {}
    MeetParts(g, g.heap.body[o]);
  }

  lemma MeetParts(g: Global, b: Body)
    requires Covers(g, Live(g)) && forall s: set<Ref> :: Covers(g, s) ==> StrongIn(g.heap, b, s)
    ensures StrongIn(g.heap, b, Needed(g))
  {
    hide Covers, LiveSet, UpValue;
    var h, n := g.heap, Needed(g);
    match b
    case Udata(m, u) => MeetIn(g, m); MeetIn(g, u);
    case LClosure(p, us) => MeetIn(g, p); forall u | u in us ensures In(UpValue(h, u), n) { MeetIn(g, UpValue(h, u)); }
    case CClosure(vs) => MeetAll(g, vs);
    case Thread(st, _) => MeetAll(g, st);
    case Proto(ks, _) => MeetAll(g, ks);
    case Table(_, m, _, _) => MeetIn(g, m); MeetTable(g, b);
    case Str =>
  }

  lemma MeetAll(g: Global, vs: seq<Value>)
    requires Covers(g, Live(g)) && forall s: set<Ref> :: Covers(g, s) ==> AllIn(vs, s)
    ensures AllIn(vs, Needed(g))
  {
    hide Covers, LiveSet;
    forall v | v in vs ensures In(v, Needed(g)) { MeetIn(g, v); }
  }

  lemma MeetTable(g: Global, b: Body)
    requires Covers(g, Live(g)) && b.Table? && forall s: set<Ref> :: Covers(g, s) ==> StrongIn(g.heap, b, s)
    ensures In(b.tmeta, Needed(g)) ==> StrongIn(g.heap, b, Needed(g))
  {
    hide Covers, LiveSet, StringsIn, StringKeysIn, NodesIn, KeysIn, Ephemeral;
    var h := g.heap;
    match b.mode
    case Strong => MeetAll(g, b.slots); MeetNodes(g, b.nodes);
    case WeakValues => MeetKeys(g, b.nodes); MeetStrings(g, b.slots, b.nodes);
    case WeakKeys => MeetAll(g, b.slots); MeetStringKeys(g, b.nodes); MeetEphemeral(g, b.nodes);
    case AllWeak => MeetStrings(g, b.slots, b.nodes);
  }

  lemma MeetNodes(g: Global, nodes: seq<Entry>)
    requires Covers(g, Live(g)) && forall s: set<Ref> :: Covers(g, s) ==> NodesIn(nodes, s)
    ensures NodesIn(nodes, Needed(g))
  {
    hide Covers, LiveSet;
    forall e | e in nodes && e.val != Nil ensures In(e.key, Needed(g)) && In(e.val, Needed(g)) {
      forall s: set<Ref> | Covers(g, s) ensures In(e.key, s) && In(e.val, s) { assert EntryIn(e, s); }
      MeetIn(g, e.key);
      MeetIn(g, e.val);
    }
  }

  lemma MeetKeys(g: Global, nodes: seq<Entry>)
    requires Covers(g, Live(g)) && forall s: set<Ref> :: Covers(g, s) ==> KeysIn(nodes, s)
    ensures KeysIn(nodes, Needed(g))
  {
    hide Covers, LiveSet;
    forall e | e in nodes && e.val != Nil ensures In(e.key, Needed(g)) { MeetIn(g, e.key); }
  }

  lemma MeetEphemeral(g: Global, nodes: seq<Entry>)
    requires Covers(g, Live(g)) && forall s: set<Ref> :: Covers(g, s) ==> Ephemeral(nodes, s)
    ensures Ephemeral(nodes, Needed(g))
  {
    hide Covers, LiveSet;
    forall e | e in nodes && e.val != Nil && In(e.key, Needed(g)) ensures In(e.val, Needed(g)) {
      forall s: set<Ref> | Covers(g, s) ensures In(e.val, s) { assert In(e.key, s); }
      MeetIn(g, e.val);
    }
  }

  lemma MeetStr(g: Global, v: Value)
    requires Covers(g, Live(g)) && forall s: set<Ref> :: Covers(g, s) ==> StrIn(g.heap, v, s)
    ensures StrIn(g.heap, v, Needed(g))
  {
    hide Covers, LiveSet;
    if v.Coll? && v.ref in g.heap.body && g.heap.body[v.ref].Str? { MeetIn(g, v); }
  }

  lemma MeetStringKeys(g: Global, nodes: seq<Entry>)
    requires Covers(g, Live(g)) && forall s: set<Ref> :: Covers(g, s) ==> StringKeysIn(g.heap, nodes, s)
    ensures StringKeysIn(g.heap, nodes, Needed(g))
  {
    hide Covers, LiveSet, StrIn;
    forall e | e in nodes && e.val != Nil ensures StrIn(g.heap, e.key, Needed(g)) { MeetStr(g, e.key); }
  }

  lemma MeetStrings(g: Global, slots: seq<Value>, nodes: seq<Entry>)
    requires Covers(g, Live(g)) && forall s: set<Ref> :: Covers(g, s) ==> StringsIn(g.heap, slots, nodes, s)
    ensures StringsIn(g.heap, slots, nodes, Needed(g))
  {
    hide Covers, LiveSet, StrIn;
    forall v | v in slots ensures StrIn(g.heap, v, Needed(g)) { MeetStr(g, v); }
    forall e | e in nodes && e.val != Nil
      ensures StrIn(g.heap, e.key, Needed(g)) && StrIn(g.heap, e.val, Needed(g))
    {
      MeetStr(g, e.key);
      MeetStr(g, e.val);
    }
  }

  lemma MeetTouched(g: Global)
    requires Covers(g, Live(g))
    ensures TouchedLive(g, Needed(g))
  {
    hide RootsIn, StronglyClosed, LiveSet, UpValue;
    forall u | u in g.heap.ups && g.heap.ups[u].Open? && g.heap.ups[u].touched && g.heap.ups[u].thread in Live(g)
      ensures In(UpValue(g.heap, u), Needed(g))
    {
      MeetIn(g, UpValue(g.heap, u));
    }
  }

  /** The live objects cover what a collection has to keep. */
  lemma CoversLive(g: Global)
    requires Inv(g)
    ensures Covers(g, Live(g))
  {
    hide Inv, Owners, Full, OpenOk, LiveSet, StrongIn, UpValue;
    InvUps(g);
    InvSafe(g);
    FinobjLive(g);
    ClosedStrongly(g.heap, Live(g));
    forall u | u in g.heap.ups && g.heap.ups[u].Open? && g.heap.ups[u].thread in Live(g)
      ensures In(UpValue(g.heap, u), Live(g)) {
      UpLive(g, u);
    }
  }

  lemma FinobjLive(g: Global)
    requires Inv(g)
    ensures forall o :: o in g.owned.finobj ==> o in Live(g)
  {
    hide FullyClosed, BoundOk, TouchedOk, RootsIn, RootsMarked, GraysListed, ListsOk, Progress, TwupsComplete,
      WeakListsOk, UpsOk, OwnedOk, Startable, SweptSoFar;
  }

  lemma InvPhase(g: Global)
    requires Inv(g)
    ensures !g.gcstate.InsideAtomic?
  {
    hide Marking, Resting, Sweeping, RootsIn, RootsMarked, Startable;
  }

  lemma StepInv(g: Global, bound: set<Ref>, stale: set<Ref>)
    requires Bounded(g, bound, stale) && stale <= bound && !g.gcstate.Pause?
    ensures Inv(g)
  {
    hide Marking, Resting, Sweeping, Unmarking, RootsIn, RootsMarked;
    if KeepInvariant(g.gcstate) {
      MarkingBound(g, Running(bound, stale));
      Weaken(g, bound, stale);
    } else {
      LiveInHeap(g);
    }
  }

  lemma MarkingBound(g: Global, c: Ctx)
    requires Marking(g, c)
    ensures c.bound <= g.color.Keys
  {
    hide Shape, FullyClosed, TouchedOk, WeakListsOk, ListsOk, Progress, RootsIn, GraysListed, ColorsOk, StronglyClosed;
  }

  method RunUpvalue(s: Collector, op: Op)
    requires Sound(s) && (op.OpenUp? || op.WriteUp? || op.CloseUp?)
    modifies s`g
    ensures Sound(s) && Does(op, old(s.g), s.g)
  {
    hide Inv, Full, LiveSet, UpValue;
    StackLive(s.g);
    var th := s.g.roots.running;
    var stack := StackOf(s.g);
    match op {
      case OpenUp(slot, id) =>
        if slot < |stack| && id !in s.g.heap.ups { Capture(s, th, id, slot); }
      case WriteUp(closure, k, val) =>
        var b := BodyAt(s.g, closure);
        if b.LClosure? && k < |b.upvals| && val < |stack| {
          ClosureUps(s.g, closure, k);
          assert stack[val] in stack;
          SetUpval(s, b.upvals[k], stack[val]);
        }
      case CloseUp(id) =>
        if id in s.g.heap.ups && s.g.heap.ups[id].Open? && s.g.heap.ups[id].thread == th { CloseUpval(s, id); }
      case _ =>
    }
  }

  method RunStore(s: Collector, op: Op)
    requires Sound(s) && (op.SetElement? || op.Overwrite? || op.SetMeta? || op.ChangeMode? || op.SetUser?)
    modifies s`g
    ensures Sound(s) && Does(op, old(s.g), s.g)
  {
    hide Inv, Full, LiveSet;
    StackLive(s.g);
    var stack := StackOf(s.g);
    match op {
      case SetElement(t, key, val) =>
        var b := BodyAt(s.g, t);
        if b.Table? && key < |stack| && val < |stack| {
          SlotRef(s.g, t);
          assert stack[key] in stack && stack[val] in stack;
          var b' := b.(nodes := b.nodes + [Entry(stack[key], stack[val])]);
          ElementDerived(s.g, stack[t].ref, b', stack[key], stack[val]);
          Store(s, stack[t].ref, b', [stack[key], stack[val]], true);
        }
      case Overwrite(t, i, val) =>
        var b := BodyAt(s.g, t);
        if b.Table? && i < |b.nodes| && b.nodes[i].val != Nil && val < |stack| {
          SlotRef(s.g, t);
          assert stack[val] in stack;
          var b' := b.(nodes := b.nodes[i := Entry(b.nodes[i].key, stack[val])]);
          OverwriteDerived(s.g, stack[t].ref, i, b', stack[val]);
          Store(s, stack[t].ref, b', [stack[val]], true);
        }
      case SetMeta(t, mt) =>
        var b := BodyAt(s.g, t);
        if b.Table? && mt < |stack| {
          SlotRef(s.g, t);
          assert stack[mt] in stack;
          var r, v := stack[t].ref, stack[mt];
          LiveKeys(s.g, [v]);
          if !(KeepInvariant(s.g.gcstate) && r in s.g.lists.allweak && v.Coll? && s.g.color[v.ref].White?) {
            SetMetatable(s, r, v);
          }
        }
      case ChangeMode(t, mode) =>
        if BodyAt(s.g, t).Table? {
          SlotRef(s.g, t);
          SetMode(s, stack[t].ref, mode);
        }
      case SetUser(ud, val) =>
        var b := BodyAt(s.g, ud);
        if b.Udata? && val < |stack| {
          SlotRef(s.g, ud);
          assert stack[val] in stack;
          Store(s, stack[ud].ref, b.(user := stack[val]), [stack[val]], false);
        }
      case _ =>
    }
  }

  lemma SlotRef(g: Global, i: nat)
    requires Inv(g) && !BodyAt(g, i).Str?
    ensures i < |StackOf(g)| && StackOf(g)[i].Coll? && StackOf(g)[i].ref in Live(g) && StackOf(g)[i].ref in g.heap.body
  {
    hide Inv, LiveSet;
    StackLive(g);
    assert StackOf(g)[i] in StackOf(g);
  }

  lemma OverwriteDerived(g: Global, t: Ref, i: nat, b: Body, v: Value)
    requires Inv(g) && t in g.heap.body && g.heap.body[t].Table? && i < |g.heap.body[t].nodes| &&
             g.heap.body[t].nodes[i].val != Nil
    requires b == g.heap.body[t].(nodes := g.heap.body[t].nodes[i := Entry(g.heap.body[t].nodes[i].key, v)])
    ensures Derived(g.heap.body[t], b, [v]) && !LosesMeta(g, t, b)
  {
    hide Inv;
    var nodes := g.heap.body[t].nodes;
    assert nodes[i] in nodes;
    if KeepInvariant(g.gcstate) && t in g.lists.allweak { AllWeakVisited(g, t); }
  }

  lemma ElementDerived(g: Global, t: Ref, b: Body, k: Value, v: Value)
    requires Inv(g) && t in g.heap.body && g.heap.body[t].Table?
    requires b == g.heap.body[t].(nodes := g.heap.body[t].nodes + [Entry(k, v)])
    ensures Derived(g.heap.body[t], b, [k, v]) && !LosesMeta(g, t, b)
  {
    hide Inv;
    if KeepInvariant(g.gcstate) && t in g.lists.allweak { AllWeakVisited(g, t); }
  }
}
