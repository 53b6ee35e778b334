/** The garbage collector's view of a Lua state: the heap, the upvalues and the `global_State`
    record.  A colour and a body are kept per address, so "freeing an object" is removing its
    address from both maps, and a dangling reference is one whose address is in neither.  The lists
    that the C code threads through `next` and `gclist` fields are sequences, front first.
 */
module GcState {

  type Ref = nat
  type UpId = nat

  datatype Color = White(bit: bool) | Gray | Black

  datatype Value = Nil | Plain(datum: int) | Coll(ref: Ref)

  datatype Entry = Entry(key: Value, val: Value)

  datatype Mode = Strong | WeakValues | WeakKeys | AllWeak

  datatype Body =
    | Str
    | Udata(meta: Value, user: Value)
    | LClosure(proto: Value, upvals: seq<UpId>)
    | CClosure(cups: seq<Value>)
    | Table(mode: Mode, tmeta: Value, slots: seq<Value>, nodes: seq<Entry>)
    | Thread(stack: seq<Value>, openups: seq<UpId>)
    | Proto(consts: seq<Value>, cache: Value)

  datatype UpVal =
    | Open(thread: Ref, level: nat, touched: bool)
    | Closed(value: Value)

  datatype Phase =
    | Propagate | AtomicWait | SwpAllGc | SwpFinObj | SwpToBeFnz | SwpEnd | CallFin | Pause
    | InsideAtomic

  datatype ListName = AllGc | FinObj | ToBeFnz

  /** `sweepgc`: no pointer, or the link that leads to element `index` of a list. */
  datatype SweepPtr = NoSweep | At(list: ListName, index: nat)

  datatype Heap = Heap(body: map<Ref, Body>, ups: map<UpId, UpVal>)

  /** Every object except the main thread is on exactly one of these. */
  datatype Owned = Owned(allgc: seq<Ref>, finobj: seq<Ref>, tobefnz: seq<Ref>, fixedgc: seq<Ref>)

  datatype GrayLists =
    GrayLists(gray: seq<Ref>, grayagain: seq<Ref>, weak: seq<Ref>, ephemeron: seq<Ref>, allweak: seq<Ref>)

  datatype Roots = Roots(mainthread: Ref, running: Ref, registry: Value, mt: seq<Value>)

  /** `global_State`, its fields grouped by what they are for. */
  datatype Global = Global(
    color: map<Ref, Color>, heap: Heap, currentwhite: bool, gcstate: Phase,
    owned: Owned, sweepgc: SweepPtr, lists: GrayLists, twups: seq<Ref>, roots: Roots)

  // ----- sets of objects -----

  ghost predicate In(v: Value, s: set<Ref>) { v.Coll? ==> v.ref in s }

  ghost predicate AllIn(vs: seq<Value>, s: set<Ref>) { forall v :: v in vs ==> In(v, s) }

  ghost predicate EntryIn(e: Entry, s: set<Ref>) { e.val != Nil ==> In(e.key, s) && In(e.val, s) }

  ghost predicate NodesIn(nodes: seq<Entry>, s: set<Ref>) { forall e :: e in nodes ==> EntryIn(e, s) }

  ghost predicate KeysIn(nodes: seq<Entry>, s: set<Ref>)
  {
    forall e :: e in nodes && e.val != Nil ==> In(e.key, s)
  }

  ghost predicate ValsIn(nodes: seq<Entry>, s: set<Ref>)
  {
    forall e :: e in nodes ==> In(e.val, s)
  }

  ghost predicate Ephemeral(nodes: seq<Entry>, s: set<Ref>)
  {
    forall e :: e in nodes && e.val != Nil && In(e.key, s) ==> In(e.val, s)
  }

  ghost predicate StrIn(h: Heap, v: Value, s: set<Ref>)
  {
    v.Coll? && v.ref in h.body && h.body[v.ref].Str? ==> v.ref in s
  }

  ghost predicate StringKeysIn(h: Heap, nodes: seq<Entry>, s: set<Ref>)
  {
    forall e :: e in nodes && e.val != Nil ==> StrIn(h, e.key, s)
  }

  /** The strings a weak table holds, which weak tables never let go, are in `s`. */
  ghost predicate StringsIn(h: Heap, slots: seq<Value>, nodes: seq<Entry>, s: set<Ref>)
  {
    && (forall v :: v in slots ==> StrIn(h, v, s))
    && (forall e :: e in nodes && e.val != Nil ==> StrIn(h, e.key, s) && StrIn(h, e.val, s))
  }

  ghost function Marked(color: map<Ref, Color>): set<Ref> { set o | o in color && !color[o].White? }

  ghost function Whites(color: map<Ref, Color>): set<Ref> { set o | o in color && color[o].White? }

  /** `!isdead`: in the heap and not wearing the other white. */
  ghost function LiveSet(color: map<Ref, Color>, currentwhite: bool): set<Ref>
  {
    set o | o in color && color[o] != White(!currentwhite)
  }

  // ----- what an object refers to -----

  /** The value an upvalue shows: its own once closed, a stack slot while open. */
  function UpValue(h: Heap, u: UpId): Value
  {
    if u !in h.ups then Nil
    else match h.ups[u]
      case Closed(v) => v
      case Open(t, i, _) =>
        if t in h.body && h.body[t].Thread? && i < |h.body[t].stack| then h.body[t].stack[i] else Nil
  }

  ghost predicate UpvalsIn(h: Heap, us: seq<UpId>, s: set<Ref>)
  {
    forall u :: u in us ==> In(UpValue(h, u), s)
  }

  /** Every value the program can read out of `b`, weak entries included, lies in `s`. */
  ghost predicate Full(h: Heap, b: Body, s: set<Ref>)
  {
    match b
    case Str => true
    case Udata(m, u) => In(m, s) && In(u, s)
    case LClosure(p, us) => In(p, s) && UpvalsIn(h, us, s)
    case CClosure(vs) => AllIn(vs, s)
    case Table(_, m, slots, nodes) => In(m, s) && AllIn(slots, s) && NodesIn(nodes, s)
    case Thread(st, _) => AllIn(st, s)
    case Proto(ks, c) => AllIn(ks, s) && In(c, s)
  }

  /** The references of `b` that keep objects alive lie in `s`: a weak table keeps only its strong
      half (and strings), an ephemeron keeps a value only if its key is kept, a prototype does not
      keep its cached closure. */
  ghost predicate StrongIn(h: Heap, b: Body, s: set<Ref>) { StrongBut(h, b, s, false) }

  /** The same, without the metatable of a table if that is excused. */
  ghost predicate StrongBut(h: Heap, b: Body, s: set<Ref>, excused: bool)
  {
    match b
    case Proto(ks, _) => AllIn(ks, s)
    case Table(mode, m, slots, nodes) =>
      (excused || In(m, s)) && (
        match mode
        case Strong => AllIn(slots, s) && NodesIn(nodes, s)
        case WeakValues => KeysIn(nodes, s) && StringsIn(h, slots, nodes, s)
        case WeakKeys => AllIn(slots, s) && StringKeysIn(h, nodes, s) && Ephemeral(nodes, s)
        case AllWeak => StringsIn(h, slots, nodes, s))
    case _ => Full(h, b, s)
  }

  ghost predicate RootsIn(r: Roots, w: Owned, s: set<Ref>)
  {
    && r.mainthread in s
    && r.running in s
    && In(r.registry, s)
    && AllIn(r.mt, s)
    && (forall o :: o in w.tobefnz ==> o in s)
    && (forall o :: o in w.fixedgc ==> o in s)
  }

  /** Every object of `s` refers only to objects of `s`, weak entries included. */
  ghost predicate FullyClosed(h: Heap, s: set<Ref>)
  {
    forall o :: o in s ==> o in h.body && Full(h, h.body[o], s)
  }

  /** The same, except that metatables of tables in `lost` may be outside. */
  ghost predicate FullyClosedBut(h: Heap, s: set<Ref>, lost: set<Ref>)
  {
    forall o :: o in s ==> o in h.body && FullBut(h, h.body[o], s, o in lost)
  }

  ghost predicate FullBut(h: Heap, b: Body, s: set<Ref>, excused: bool)
  {
    if excused && b.Table? then AllIn(b.slots, s) && NodesIn(b.nodes, s) else Full(h, b, s)
  }

  ghost predicate StronglyClosed(h: Heap, s: set<Ref>)
  {
    forall o :: o in s && o in h.body ==> StrongIn(h, h.body[o], s)
  }

  // ----- well-formed states -----

  /** On how many of the four object lists `o` is. */
  ghost function Owners(w: Owned, o: Ref): nat
  {
    multiset(w.allgc)[o] + multiset(w.finobj)[o] + multiset(w.tobefnz)[o] + multiset(w.fixedgc)[o]
  }

  ghost predicate OwnedOk(w: Owned, heap: set<Ref>, mainthread: Ref)
  {
    forall o :: Owners(w, o) == if o in heap && o != mainthread then 1 else 0
  }

  ghost predicate FixedOk(color: map<Ref, Color>, h: Heap, fixedgc: seq<Ref>)
  {
    forall o :: o in fixedgc ==> o in color && color[o] == Gray && o in h.body && h.body[o].Str?
  }

  ghost predicate IsThread(h: Heap, t: Ref) { t in h.body && h.body[t].Thread? }

  ghost predicate OpenOk(h: Heap, u: UpId, t: Ref, level: nat)
  {
    IsThread(h, t) && level < |h.body[t].stack| && u in h.body[t].openups
  }

  ghost predicate UpsOk(h: Heap)
  {
    && (forall u :: u in h.ups && h.ups[u].Open? ==> OpenOk(h, u, h.ups[u].thread, h.ups[u].level))
    && (forall t, u :: IsThread(h, t) && u in h.body[t].openups ==>
          u in h.ups && h.ups[u].Open? && h.ups[u].thread == t)
    && (forall c, u :: c in h.body && h.body[c].LClosure? && u in h.body[c].upvals ==> u in h.ups)
  }

  ghost predicate ThreadsOk(h: Heap, r: Roots, twups: seq<Ref>)
  {
    && IsThread(h, r.mainthread)
    && IsThread(h, r.running)
    && (forall t :: t in twups ==> IsThread(h, t))
  }

  /** The parts of well-formedness that do not depend on colours. */
  ghost predicate Shape(heap: set<Ref>, h: Heap, w: Owned, r: Roots, twups: seq<Ref>)
  {
    heap == h.body.Keys && OwnedOk(w, heap, r.mainthread) && UpsOk(h) && ThreadsOk(h, r, twups)
  }

  /** Nothing the program can read out of a live object is dead or freed. */
  ghost predicate Safe(g: Global)
  {
    var live := LiveSet(g.color, g.currentwhite);
    RootsIn(g.roots, g.owned, live) && FullyClosed(g.heap, live)
  }

  // ----- the marking phases -----

  predicate KeepInvariant(p: Phase) { p.Propagate? || p.AtomicWait? }

  /** What the marking code carries besides the state: whether the program is stopped until the end
      of `atomic`, the list saved by `atomic` (or by the ephemeron loop) whose members are still to be
      visited, the view of visited objects, the objects being visited now, and a bound on what may be
      marked. */
  datatype Ctx = Ctx(stopped: bool, again: seq<Ref>, view: View, busy: set<Ref>, bound: set<Ref>)

  /** Whether open upvalues of unmarked threads were already remarked, which tables went on `allweak` so
      long ago that the program may have changed their mode since, and which of them got a metatable
      that no barrier marked. */
  datatype View = View(late: bool, stale: set<Ref>, lost: set<Ref>)

  ghost function Saved(ls: GrayLists, p: Phase, c: Ctx): seq<Ref>
  {
    if p.InsideAtomic? then c.again else ls.grayagain
  }

  ghost predicate Pending(ls: GrayLists, saved: seq<Ref>, o: Ref) { o in ls.gray || o in saved }

  /** On how many gray lists `o` is. */
  ghost function Listed(ls: GrayLists, saved: seq<Ref>, o: Ref): nat
  {
    multiset(ls.gray)[o] + multiset(saved)[o]
    + multiset(ls.weak)[o] + multiset(ls.ephemeron)[o] + multiset(ls.allweak)[o]
  }

  ghost predicate UpVisited(h: Heap, p: Phase, late: bool, u: UpId, s: set<Ref>)
  {
    u in h.ups && match h.ups[u]
    case Closed(v) => In(v, s)
    case Open(t, i, touched) =>
      t in s || (touched && !late) || (p.InsideAtomic? && In(UpValue(h, u), s))
  }

  ghost predicate TableVisited(ls: GrayLists, stale: set<Ref>, lost: set<Ref>, o: Ref, b: Body, s: set<Ref>)
    requires b.Table?
  {
    && (In(b.tmeta, s) || (o in ls.allweak && o in lost))
    && ( || (AllIn(b.slots, s) && NodesIn(b.nodes, s))
         || (o in ls.allweak
             && (o in stale || b.mode.AllWeak? || (b.mode.WeakKeys? && AllIn(b.slots, s) && ValsIn(b.nodes, s))))
         || (o in ls.weak && KeysIn(b.nodes, s))
         || (o in ls.ephemeron && AllIn(b.slots, s)))
  }

  /** A visited object: what its last visit had to mark is marked. */
  ghost predicate Visited(h: Heap, ls: GrayLists, p: Phase, twups: seq<Ref>, view: View, o: Ref, s: set<Ref>)
  {
    o in h.body && match h.body[o]
    case LClosure(q, us) => In(q, s) && forall u :: u in us ==> UpVisited(h, p, view.late, u, s)
    case Thread(st, us) => view.late && AllIn(st, s) && (us != [] ==> o in twups)
    case Table(_, _, _, _) => TableVisited(ls, view.stale, view.lost, o, h.body[o], s)
    case _ => Full(h, h.body[o], s)
  }

  datatype GrayList = InGray | InGrayAgain | InWeak | InEphemeron | InAllWeak

  /** `linkgclist`: put `o` at the front of a gray list. */
  function Link(ls: GrayLists, to: GrayList, o: Ref): GrayLists
  {
    match to
    case InGray => ls.(gray := [o] + ls.gray)
    case InGrayAgain => ls.(grayagain := [o] + ls.grayagain)
    case InWeak => ls.(weak := [o] + ls.weak)
    case InEphemeron => ls.(ephemeron := [o] + ls.ephemeron)
    case InAllWeak => ls.(allweak := [o] + ls.allweak)
  }

  predicate IsGrayable(b: Body) { !b.Str? && !b.Udata? }

  /** Every object is on at most one gray list, and listed objects are gray. */
  ghost predicate ListsOk(color: map<Ref, Color>, h: Heap, ls: GrayLists, saved: seq<Ref>)
  {
    && (forall o :: Listed(ls, saved, o) <= 1)
    && (forall o :: Listed(ls, saved, o) > 0 ==>
          o in color && color[o] == Gray && o in h.body && IsGrayable(h.body[o]))
  }

  ghost predicate WeakListsOk(h: Heap, weak: seq<Ref>, ephemeron: seq<Ref>, allweak: seq<Ref>, bound: set<Ref>)
  {
    && (forall o :: o in weak || o in allweak ==>
          o in h.body && h.body[o].Table? && StringsIn(h, h.body[o].slots, h.body[o].nodes, bound))
    && (forall o :: o in ephemeron ==>
          o in h.body && h.body[o].Table? && h.body[o].mode.WeakKeys?)
    && (forall o :: o in weak ==> o in h.body && h.body[o].Table? && h.body[o].mode.WeakValues?)
  }

  ghost predicate Progress(s: set<Ref>, h: Heap, ls: GrayLists, p: Phase, twups: seq<Ref>, saved: seq<Ref>,
                           view: View, busy: set<Ref>)
  {
    forall o :: o in s && o !in busy ==> Pending(ls, saved, o) || Visited(h, ls, p, twups, view, o, s)
  }

  /** A gray object is on a list that will be looked at again, or is fixed. */
  ghost predicate GraysListed(color: map<Ref, Color>, w: Owned, ls: GrayLists, saved: seq<Ref>, busy: set<Ref>)
  {
    forall o :: o in color && o !in busy && color[o] == Gray ==>
      Pending(ls, saved, o) || o in ls.allweak || o in w.fixedgc
  }

  ghost predicate TwupsComplete(h: Heap, twups: seq<Ref>)
  {
    forall t :: IsThread(h, t) && h.body[t].openups != [] ==> t in twups
  }

  ghost predicate BoundOk(color: map<Ref, Color>, h: Heap, bound: set<Ref>, lost: set<Ref>)
  {
    bound <= color.Keys && Marked(color) <= bound && ClosedBut(h, bound, lost)
  }

  ghost predicate ClosedBut(h: Heap, s: set<Ref>, lost: set<Ref>)
  {
    forall o :: o in s && o in h.body ==> StrongBut(h, h.body[o], s, o in lost)
  }

  /** Touched open upvalues show values that may be marked. */
  ghost predicate TouchedOk(h: Heap, bound: set<Ref>)
  {
    forall u :: u in h.ups && h.ups[u].Open? && h.ups[u].touched ==> In(UpValue(h, u), bound)
  }

  ghost predicate NoneDead(color: map<Ref, Color>, currentwhite: bool)
  {
    forall o :: o in color ==> color[o] != White(!currentwhite)
  }

  /** No dead object, fixed objects gray, and threads never black. */
  ghost predicate ColorsOk(color: map<Ref, Color>, currentwhite: bool, h: Heap, w: Owned, busy: set<Ref>)
  {
    && NoneDead(color, currentwhite)
    && FixedOk(color, h, w.fixedgc)
    && busy <= Marked(color)
    && (forall t :: t in color && IsThread(h, t) && t !in busy ==> color[t] != Black)
  }

  ghost predicate PhaseOk(g: Global, c: Ctx)
  {
    && (KeepInvariant(g.gcstate) || g.gcstate.InsideAtomic?)
    && (!c.stopped ==> g.lists.weak == [] && g.lists.ephemeron == [])
    && (forall o :: o in c.view.lost ==> o in g.lists.allweak)
    && (g.gcstate.Propagate? ==> !c.stopped)
    && (g.gcstate.InsideAtomic? ==> c.stopped)
    && (c.view.late ==> g.gcstate.InsideAtomic?)
    && g.sweepgc == NoSweep
    && (!c.view.late ==> TwupsComplete(g.heap, g.twups))
    && (c.view.late ==> forall t :: t in g.twups ==> t in Marked(g.color))
  }

  /** The invariant of the marking phases. */
  ghost predicate Marking(g: Global, c: Ctx)
  {
    && Shape(g.color.Keys, g.heap, g.owned, g.roots, g.twups)
    && PhaseOk(g, c)
    && ColorsOk(g.color, g.currentwhite, g.heap, g.owned, c.busy)
    && RootsIn(g.roots, g.owned, g.color.Keys)
    && FullyClosed(g.heap, g.color.Keys)
    && BoundOk(g.color, g.heap, c.bound, c.view.lost)
    && TouchedOk(g.heap, c.bound)
    && WeakListsOk(g.heap, g.lists.weak, g.lists.ephemeron, g.lists.allweak, c.bound)
    && var saved := Saved(g.lists, g.gcstate, c);
       && ListsOk(g.color, g.heap, g.lists, saved)
       && Progress(Marked(g.color), g.heap, g.lists, g.gcstate, g.twups, saved, c.view, c.busy)
       && (!c.stopped ==> GraysListed(g.color, g.owned, g.lists, saved, c.busy))
  }

  /** The roots the collector marks when it starts stay marked until the program is stopped. */
  ghost predicate RootsMarked(g: Global)
  {
    g.roots.mainthread in Marked(g.color) && forall o :: o in g.owned.tobefnz ==> o in Marked(g.color)
  }

  // ----- the sweep phases -----

  /** Live threads with open upvalues are on `twups`, and `twups` holds live threads only. */
  ghost predicate TwupsLive(color: map<Ref, Color>, currentwhite: bool, h: Heap, twups: seq<Ref>)
  {
    && (forall t :: t in LiveSet(color, currentwhite) && IsThread(h, t) && h.body[t].openups != [] ==> t in twups)
    && (forall t :: t in twups ==> t in LiveSet(color, currentwhite))
  }

  ghost predicate NeverBlack(color: map<Ref, Color>, h: Heap)
  {
    forall t :: t in color && IsThread(h, t) ==> color[t] != Black
  }

  /** What holds whenever the collector is not marking. */
  ghost predicate Unmarking(g: Global)
  {
    && Shape(g.color.Keys, g.heap, g.owned, g.roots, g.twups)
    && FixedOk(g.color, g.heap, g.owned.fixedgc)
    && NeverBlack(g.color, g.heap)
    && TwupsLive(g.color, g.currentwhite, g.heap, g.twups)
    && (forall o :: o in g.owned.finobj ==> o in LiveSet(g.color, g.currentwhite))
    && Safe(g)
  }

  /** Right after `atomic`: every white object is dead. */
  ghost predicate Flipped(g: Global)
  {
    && Unmarking(g) && g.gcstate.InsideAtomic? && g.sweepgc == NoSweep
    && forall o :: o in g.color ==> g.color[o] != White(g.currentwhite)
  }

  /** The same, except that metatables of tables in `lost` may be dead. */
  ghost predicate FlippedBut(g: Global, lost: set<Ref>)
  {
    var live := LiveSet(g.color, g.currentwhite);
    && Shape(g.color.Keys, g.heap, g.owned, g.roots, g.twups)
    && FixedOk(g.color, g.heap, g.owned.fixedgc)
    && NeverBlack(g.color, g.heap)
    && TwupsLive(g.color, g.currentwhite, g.heap, g.twups)
    && (forall o :: o in g.owned.finobj ==> o in live)
    && RootsIn(g.roots, g.owned, live) && FullyClosedBut(g.heap, live, lost)
    && g.gcstate.InsideAtomic? && g.sweepgc == NoSweep
    && forall o :: o in g.color ==> g.color[o] != White(g.currentwhite)
  }

  predicate IsSweeping(p: Phase) { p.SwpAllGc? || p.SwpFinObj? || p.SwpToBeFnz? || p.SwpEnd? }

  function ListOf(w: Owned, l: ListName): seq<Ref>
  {
    match l case AllGc => w.allgc case FinObj => w.finobj case ToBeFnz => w.tobefnz
  }

  function WithList(w: Owned, l: ListName, s: seq<Ref>): Owned
  {
    match l case AllGc => w.(allgc := s) case FinObj => w.(finobj := s) case ToBeFnz => w.(tobefnz := s)
  }

  /** All of `l` wears the current white. */
  ghost predicate Clean(color: map<Ref, Color>, currentwhite: bool, l: seq<Ref>)
  {
    forall o :: o in l ==> o in color && color[o] == White(currentwhite)
  }

  /** The part of list `l` before the sweep pointer is clean. */
  ghost predicate CleanUpTo(g: Global, l: ListName)
  {
    match g.sweepgc
    case NoSweep => Clean(g.color, g.currentwhite, ListOf(g.owned, l))
    case At(m, i) => m == l && i <= |ListOf(g.owned, l)| && Clean(g.color, g.currentwhite, ListOf(g.owned, l)[..i])
  }

  /** Which lists have been swept, in each of the sweep phases.  In the last one the pointer may have been
      carried into `allgc` by the object it went through, which is harmless only if `tobefnz` is clean. */
  ghost predicate SweptSoFar(g: Global)
  {
    match g.gcstate
    case SwpAllGc => CleanUpTo(g, AllGc)
    case SwpFinObj => Clean(g.color, g.currentwhite, g.owned.allgc) && CleanUpTo(g, FinObj)
    case SwpToBeFnz =>
      && Clean(g.color, g.currentwhite, g.owned.allgc) && Clean(g.color, g.currentwhite, g.owned.finobj)
      && (CleanUpTo(g, ToBeFnz)
          || (g.sweepgc.At? && g.sweepgc.list.AllGc? && g.sweepgc.index <= |g.owned.allgc|
              && Clean(g.color, g.currentwhite, g.owned.tobefnz)))
    case _ =>
      && Clean(g.color, g.currentwhite, g.owned.allgc) && Clean(g.color, g.currentwhite, g.owned.finobj)
      && Clean(g.color, g.currentwhite, g.owned.tobefnz) && g.sweepgc == NoSweep
  }

  /** The invariant of the sweep phases. */
  ghost predicate Sweeping(g: Global) { Unmarking(g) && IsSweeping(g.gcstate) && SweptSoFar(g) }

  /** Between cycles everything but the fixed strings wears the current white. */
  ghost predicate Resting(g: Global)
  {
    && Unmarking(g) && (g.gcstate.CallFin? || g.gcstate.Pause?) && SweptSoFar(g)
    && g.color[g.roots.mainthread] == White(g.currentwhite)
  }
}
