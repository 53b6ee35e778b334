/** Upvalues: variables that closures share with the stack while they are there, and keep when they leave it. */
module LuaUpvalues {

  datatype V = Nil | Val(n: int)

  /** Where the value of an upvalue is: at an address in the stack, or in the upvalue itself. */
  datatype Place = OnStack(addr: int) | Own

  datatype UpVal = UpVal(v: Place, refcount: nat, next: nat, value: V)

  datatype CallInfo = CallInfo(func: int, top: int, isLua: bool, base: int)

  const NULL: nat := 0

  /** What programs see: variables are cells; a stack slot is a variable until it is closed, and so is an upvalue. */
  datatype Abs = Abs(cells: map<nat, V>, slots: seq<nat>, vars: map<nat, nat>)

  /** How often closures refer to each upvalue. */
  ghost function References(closures: map<nat, seq<nat>>): multiset<nat>
    decreases |closures|
  {
    if closures == map[] then multiset{} else
      var c :| c in closures;
      multiset(closures[c]) + References(closures - {c})
  }

  lemma {:induction false} ReferencesWithout(closures: map<nat, seq<nat>>, c: nat)
    requires c in closures
    ensures References(closures) == multiset(closures[c]) + References(closures - {c})
    decreases |closures|
  {
    var d :| d in closures && References(closures) == multiset(closures[d]) + References(closures - {d});
    if d != c {
      ReferencesWithout(closures - {d}, c);
      ReferencesWithout(closures - {c}, d);
      assert closures - {d} - {c} == closures - {c} - {d};
    }
  }

  lemma ReferencesWith(closures: map<nat, seq<nat>>, c: nat, us: seq<nat>)
    requires c !in closures
    ensures References(closures[c := us]) == multiset(us) + References(closures)
  {
    ReferencesWithout(closures[c := us], c);
    assert closures[c := us] - {c} == closures;
  }

  /** Memory without an upvalue that was freed. */
  function Without(mem: map<nat, UpVal>, u: nat): (mem': map<nat, UpVal>)
    ensures forall w :: w in mem' <==> w in mem && w != u
    ensures forall w :: w in mem' ==> mem'[w] == mem[w]
  {
    mem - {u}
  }

  lemma ReferencesMore(closures: map<nat, seq<nat>>, c: nat, u: nat)
    requires c in closures
    ensures References(closures[c := closures[c] + [u]]) == References(closures) + multiset{u}
  {
    ReferencesWithout(closures, c);
    ReferencesWithout(closures[c := closures[c] + [u]], c);
    assert closures[c := closures[c] + [u]] - {c} == closures - {c};
  }

  lemma {:induction false} ReferencesHold(closures: map<nat, seq<nat>>, c: nat, i: nat)
    requires c in closures && i < |closures[c]|
    ensures References(closures)[closures[c][i]] > 0
  {
    ReferencesWithout(closures, c);
    assert closures[c][i] in multiset(closures[c]);
  }

  // ----- the list of open upvalues -----

  /** The open upvalues `s` are linked from `p`, at addresses of the stack that go down strictly from `bound`. */
  ghost predicate OpenFrom(mem: map<nat, UpVal>, p: nat, bound: int, base: int, s: set<nat>)
    decreases |s|
  {
    if p == NULL then s == {}
    else
      && p in s && p in mem && mem[p].v.OnStack? && base <= mem[p].v.addr < bound
      && OpenFrom(mem, mem[p].next, mem[p].v.addr, base, s - {p})
  }

  ghost predicate OpenAll(mem: map<nat, UpVal>, s: set<nat>) { forall u :: u in s <==> u in mem && mem[u].v.OnStack? }

  lemma {:induction false} OpenFrame(mem: map<nat, UpVal>, mem': map<nat, UpVal>, p: nat, bound: int, bound': int,
                                     base: int, s: set<nat>)
    requires OpenFrom(mem, p, bound, base, s) && (forall u :: u in s && u in mem ==> u in mem' && mem'[u] == mem[u])
    requires p != NULL ==> mem[p].v.addr < bound'
    ensures OpenFrom(mem', p, bound', base, s)
    decreases |s|
  {
    if p != NULL { OpenFrame(mem, mem', mem[p].next, mem[p].v.addr, mem[p].v.addr, base, s - {p}); }
  }

  lemma {:induction false} OpenMembers(mem: map<nat, UpVal>, p: nat, bound: int, base: int, s: set<nat>)
    requires OpenFrom(mem, p, bound, base, s)
    ensures forall u :: u in s ==> u != NULL && u in mem && mem[u].v.OnStack? && base <= mem[u].v.addr < bound
    ensures p != NULL ==> p in s && forall u :: u in s && u != p ==> mem[u].v.addr < mem[p].v.addr
    decreases |s|
  {
    if p != NULL {
      OpenMembers(mem, mem[p].next, mem[p].v.addr, base, s - {p});
      assert forall u :: u in s ==> u == p || u in s - {p};
    }
  }

  /** Memory with a new open upvalue, linked between two others. */
  function Linked(mem: map<nat, UpVal>, u: nat, level: int, prev: nat, next: nat): map<nat, UpVal>
    requires prev != NULL ==> prev in mem && prev != u
  {
    var m := mem[u := UpVal(OnStack(level), 0, next, Nil)];
    if prev == NULL then m else m[prev := m[prev].(next := u)]
  }

  /** A new upvalue fits between `prev` and `next`. */
  ghost predicate Between(mem: map<nat, UpVal>, level: int, prev: nat, next: nat, p: nat, s: set<nat>)
  {
    && (if prev == NULL then next == p
        else prev in s && prev in mem && mem[prev].v.OnStack? && mem[prev].next == next && level < mem[prev].v.addr)
    && (next != NULL ==> next in mem && mem[next].v.OnStack? && mem[next].v.addr < level)
  }

  /** A new upvalue takes its place between those above and those below its address. */
  lemma {:induction false} OpenInsert(mem: map<nat, UpVal>, p: nat, bound: int, base: int, s: set<nat>, u: nat,
                                      level: int, prev: nat, next: nat)
    requires OpenFrom(mem, p, bound, base, s) && Between(mem, level, prev, next, p, s) && u !in mem && u != NULL &&
             base <= level < bound
    ensures prev != NULL ==> prev in mem && prev != u
    ensures OpenFrom(Linked(mem, u, level, prev, next), if prev == NULL then u else p, bound, base, s + {u})
    ensures forall w :: w in s && w in mem && mem[w].v.OnStack? ==> mem[w].v.addr != level
    decreases |s|
  {
    var mem' := Linked(mem, u, level, prev, next);
    OpenMembers(mem, p, bound, base, s);
    if prev == NULL {
      assert s + {u} - {u} == s;
      OpenFrame(mem, mem', p, bound, level, base, s);
    } else if p == prev {
      assert s + {u} - {p} == (s - {p}) + {u} && (s - {p}) + {u} - {u} == s - {p};
      OpenMembers(mem, next, mem[p].v.addr, base, s - {p});
      OpenFrame(mem, mem', next, mem[p].v.addr, level, base, s - {p});
    } else {
      assert s + {u} - {p} == (s - {p}) + {u};
      OpenInsert(mem, mem[p].next, mem[p].v.addr, base, s - {p}, u, level, prev, next);
    }
  }

  // ----- what concrete and abstract state have to do with each other -----

  /** No two variables share a cell, and every cell holds the value found where the variable is. */
  ghost predicate Shared(a: Abs, mem: map<nat, UpVal>, stack: seq<V>, base: int)
  {
    |a.slots| == |stack| && a.vars.Keys == mem.Keys && SlotsHeld(a, stack) && VarsFound(a, mem, stack, base) &&
      VarsApart(a.vars, mem)
  }

  ghost predicate SlotsHeld(a: Abs, stack: seq<V>)
    requires |a.slots| == |stack|
  {
    && (forall i :: 0 <= i < |stack| ==> a.slots[i] in a.cells && a.cells[a.slots[i]] == stack[i])
    && (forall i, j :: 0 <= i < j < |stack| ==> a.slots[i] != a.slots[j])
  }

  ghost predicate VarsFound(a: Abs, mem: map<nat, UpVal>, stack: seq<V>, base: int)
    requires |a.slots| == |stack| && a.vars.Keys == mem.Keys
  {
    forall u :: u in mem ==> VarOk(a, mem[u], u, stack, base)
  }

  ghost predicate VarsApart(vars: map<nat, nat>, mem: map<nat, UpVal>)
    requires vars.Keys == mem.Keys
  {
    forall u, w :: u in mem && w in mem && u != w ==> vars[u] != vars[w]
  }

  ghost predicate VarOk(a: Abs, x: UpVal, u: nat, stack: seq<V>, base: int)
    requires u in a.vars && |a.slots| == |stack|
  {
    match x.v
    case OnStack(addr) => 0 <= addr - base < |stack| && a.vars[u] == a.slots[addr - base]
    case Own => a.vars[u] in a.cells && a.cells[a.vars[u]] == x.value && a.vars[u] !in a.slots
  }

  /** References are counted, and only upvalues with references or on the stack are kept. */
  ghost predicate Refs(mem: map<nat, UpVal>, closures: map<nat, seq<nat>>)
  {
    && (forall u :: References(closures)[u] == if u in mem then mem[u].refcount else 0)
    && (forall u :: u in mem && mem[u].v.Own? ==> mem[u].refcount > 0)
  }

  // ----- abstract steps -----

  function WriteSlot(a: Abs, i: nat, v: V): Abs
    requires i < |a.slots|
  {
    a.(cells := a.cells[a.slots[i] := v])
  }

  function WriteVar(a: Abs, u: nat, v: V): Abs
    requires u in a.vars
  {
    a.(cells := a.cells[a.vars[u] := v])
  }

  /** From `level` on the slots become new variables, with the values they have. */
  ghost predicate Renewed(a: Abs, a': Abs, level: nat)
    requires level <= |a.slots|
  {
    && |a'.slots| == |a.slots| && a'.slots[..level] == a.slots[..level]
    && (forall c :: c in a.cells ==> c in a'.cells && a'.cells[c] == a.cells[c])
    && (forall i :: level <= i < |a.slots| ==> a'.slots[i] !in a.cells)
    && (forall u :: u in a'.vars ==> u in a.vars && a'.vars[u] == a.vars[u])
  }

  /** Every slot has the value it had. */
  ghost predicate SlotsKept(a: Abs, a': Abs)
  {
    && |a'.slots| == |a.slots|
    && forall i :: 0 <= i < |a.slots| ==>
         a.slots[i] in a.cells && a'.slots[i] in a'.cells && a'.cells[a'.slots[i]] == a.cells[a.slots[i]]
  }

  /** The stack has another size; new slots are new variables that are nil. */
  ghost predicate Resized(a: Abs, a': Abs, size: nat)
  {
    && |a'.slots| == size && a'.vars == a.vars
    && (forall i :: 0 <= i < size && i < |a.slots| ==> a'.slots[i] == a.slots[i])
    && (forall i :: |a.slots| <= i < size ==>
       a'.slots[i] !in a.cells && a'.slots[i] in a'.cells && a'.cells[a'.slots[i]] == Nil)
    && (forall c :: c in a.cells ==> c in a'.cells && a'.cells[c] == a.cells[c])
  }

  /** As many new cells as wanted. */
  ghost function NewCells(cells: map<nat, V>, n: nat): (r: seq<nat>)
    ensures |r| == n && (forall i :: 0 <= i < n ==> r[i] !in cells) && forall i, j :: 0 <= i < j < n ==> r[i] != r[j]
  {
    var m := Bound(cells.Keys);
    seq(n, i => m + i)
  }

  ghost function Bound(s: set<nat>): (m: nat)
    ensures forall x :: x in s ==> x < m
    decreases |s|
  {
    if s == {} then 0 else
      var x :| x in s;
      var m := Bound(s - {x});
      assert forall y :: y in s ==> y == x || y in s - {x};
      if x < m then m else x + 1
  }

  class LState {
    var base: int
    var stack: seq<V>
    var top: int
    var ci: seq<CallInfo>
    var openupval: nat
    var mem: map<nat, UpVal>
    var closures: map<nat, seq<nat>>
    /** Larger than any pointer in use. */
    var brk: nat
    ghost var open: set<nat>
    ghost var abs: Abs

    ghost predicate Inv()
      reads this
    {
      InvWith(closures)
    }

    ghost predicate InvWith(closures: map<nat, seq<nat>>)
      reads this
    {
      && OpenFrom(mem, openupval, base + |stack|, base, open) && OpenAll(mem, open)
      && Shared(abs, mem, stack, base) && Refs(mem, closures) && Allocated(mem, closures, brk)
    }

    constructor ()
      ensures Inv() && stack == [] && closures == map[]
    {
      base, stack, top, ci, openupval, mem, closures, brk := 0, [], 0, [], NULL, map[], map[], 1;
      open, abs := {}, Abs(map[], [], map[]);
    }

    // ----- reading and writing -----

    function Get(u: nat): V
      requires u in mem && (mem[u].v.OnStack? ==> 0 <= mem[u].v.addr - base < |stack|)
      reads this
    {
      match mem[u].v
      case OnStack(addr) => stack[addr - base]
      case Own => mem[u].value
    }

    /** An upvalue reads what its variable holds. */
    lemma GetReads(u: nat)
      requires Inv() && u in mem
      ensures mem[u].v.OnStack? ==> 0 <= mem[u].v.addr - base < |stack|
      ensures u in abs.vars && abs.vars[u] in abs.cells && Get(u) == abs.cells[abs.vars[u]]
    {
      assert VarOk(abs, mem[u], u, stack, base);
    }

    method SetRegister(i: nat, v: V)
      requires Inv() && i < |stack| == |abs.slots|
      modifies this`stack, this`abs
      ensures Inv() && abs == WriteSlot(old(abs), i, v) && stack == old(stack)[i := v]
    {
      hide OpenFrom, OpenAll, Shared, Refs, References;
      SlotShared(abs, mem, stack, base, i, v);
      stack := stack[i := v];
      abs := WriteSlot(abs, i, v);
    }

    method SetUpval(u: nat, v: V)
      requires Inv() && u in mem
      modifies this`stack, this`mem, this`abs
      ensures Inv() && abs == WriteVar(old(abs), u, v) && mem.Keys == old(mem).Keys
    {
      hide OpenFrom, OpenAll, Shared, Refs, References;
      SharedAt(abs, mem, stack, base, u);
      match mem[u].v
      case OnStack(addr) =>
        SetRegister(addr - base, v);
      case Own =>
        OwnShared(abs, mem, stack, base, u, v);
        OwnKept(mem, openupval, base + |stack|, base, open, closures, u, v);
        mem := mem[u := mem[u].(value := v)];
        abs := WriteVar(abs, u, v);
    }

    // ----- capturing and closing variables -----

    /** The open upvalue at an address of the stack, made if there is none. */
    method FindUpval(level: int) returns (u: nat)
      requires Inv() && base <= level < base + |stack|
      modifies this`openupval, this`mem, this`brk, this`open, this`abs
      ensures Inv() && u in mem && mem[u].v == OnStack(level) && brk >= old(brk)
      ensures abs == old(abs).(vars := abs.vars) && |abs.slots| == |stack| && u in abs.vars &&
              abs.vars[u] == abs.slots[level - base]
      ensures KeepsVars(old(mem), old(abs), mem, abs)
    {
      hide OpenFrom, OpenAll, Shared, Refs, References, Allocated, VarOk;
      var prev, p := NULL, openupval;
      ghost var rest, bound := open, base + |stack|;
      SharedKeys(abs, mem, stack, base);
      OpenMembers(mem, p, bound, base, rest);
      while p != NULL && mem[p].v.addr >= level
        invariant unchanged(this) && rest <= open && OpenFrom(mem, p, bound, base, rest)
        invariant forall w :: w in rest ==> w in mem && mem[w].v.OnStack?
        invariant if prev == NULL then p == openupval
                  else prev in open && prev in mem && mem[prev].v.OnStack? && mem[prev].next == p &&
                       level < mem[prev].v.addr
        invariant p != NULL ==> p in rest
        decreases |rest|
      {
        if mem[p].v.addr == level {
          SharedAt(abs, mem, stack, base, p);
          UnfoldVar(abs, mem[p], p, stack, base);
          return p;
        }
        OpenTail(mem, p, bound, base, rest);
        rest, bound := rest - {p}, mem[p].v.addr;
        prev, p := p, mem[p].next;
      }
      assert Between(mem, level, prev, p, openupval, open);
      u := LinkUpval(level, prev, p);
    }

    /** A new open upvalue, linked between two others. */
    method LinkUpval(level: int, prev: nat, p: nat) returns (u: nat)
      requires Inv() && base <= level < base + |stack| && Between(mem, level, prev, p, openupval, open)
      modifies this`openupval, this`mem, this`brk, this`open, this`abs
      ensures Inv() && u in mem && mem[u].v == OnStack(level) && brk == old(brk) + 1
      ensures abs == old(abs).(vars := abs.vars) && |abs.slots| == |stack| && u in abs.vars &&
              abs.vars[u] == abs.slots[level - base]
      ensures KeepsVars(old(mem), old(abs), mem, abs)
    {
      hide OpenFrom, OpenAll, Shared, Refs, References, Allocated, VarOk, KeepsVars;
      u := brk;
      brk := brk + 1;
      AllocatedNew(mem, closures, u, prev, level, p);
      SharedKeys(abs, mem, stack, base);
      OpenInsert(mem, openupval, base + |stack|, base, open, u, level, prev, p);
      LinkedAll(mem, open, u, level, prev, p);
      LinkedShared(abs, mem, stack, base, open, u, level, prev, p);
      LinkedRefs(mem, closures, u, level, prev, p);
      LinkedKeeps(mem, abs, u, level, prev, p, abs.slots[level - base]);
      mem := mem[u := UpVal(OnStack(level), 0, p, Nil)];
      if prev == NULL {
        openupval := u;
      } else {
        mem := mem[prev := mem[prev].(next := u)];
      }
      open := open + {u};
      abs := abs.(vars := abs.vars[u := abs.slots[level - base]]);
    }

    /** Closes the first of the open upvalues. */
    method CloseFirst(ghost level: int, ghost a0: Abs, ghost m0: map<nat, UpVal>)
      requires Inv() && |abs.slots| == |stack| && base <= level && Kept(a0, abs, m0, mem, level - base, closures)
      requires openupval != NULL && openupval in mem && mem[openupval].v.OnStack? && mem[openupval].v.addr >= level
      modifies this`openupval, this`mem, this`open, this`abs
      ensures Inv() && |abs.slots| == |stack| && Kept(a0, abs, m0, mem, level - base, closures) && |open| < |old(open)|
      ensures openupval != NULL ==> openupval in mem && mem[openupval].v.OnStack?
    {
      hide OpenFrom, OpenAll, Shared, Refs, References, Allocated, VarOk, Kept, RenewOne, Without;
      var uv := openupval;
      OpenTail(mem, uv, base + |stack|, base, open);
      var addr := mem[uv].v.addr;
      openupval := mem[uv].next;
      if mem[uv].refcount == 0 {
        FreeFirst(a0, abs, m0, mem, stack, base, level - base, closures, brk, uv);
        CloseList(mem, Without(mem, uv), base + |stack|, base, open, uv);
        mem := Without(mem, uv);
        abs := abs.(vars := abs.vars - {uv});
      } else {
        KeepFirst(a0, abs, m0, mem, stack, base, open, level - base, closures, brk, uv);
        mem := mem[uv := mem[uv].(value := stack[addr - base], v := Own)];
        abs := RenewOne(abs, addr - base);
      }
      open := open - {uv};
    }

    /** Closes the open upvalues from an address on: those with references get their own values, the others go. */
    method Close(level: int)
      requires Inv() && base <= level <= base + |stack|
      modifies this`openupval, this`mem, this`open, this`abs
      ensures Inv() && old(|abs.slots|) == |stack| && Renewed(old(abs), abs, level - base) && SlotsKept(old(abs), abs)
      ensures forall u :: u in mem && mem[u].v.OnStack? ==> mem[u].v.addr < level
      ensures forall u :: u in old(mem) && References(closures)[u] > 0 ==>
              u in mem && u in old(abs.vars) && u in abs.vars && abs.vars[u] == old(abs.vars)[u]
    {
      hide OpenFrom, OpenAll, Shared, Refs, References, Allocated, VarOk, Kept, RenewOne, Refreshed;
      ghost var m0, a0 := mem, abs;
      SharedKeys(abs, mem, stack, base);
      KeptSelf(a0, mem, closures);
      OpenMembers(mem, openupval, base + |stack|, base, open);
      while openupval != NULL && mem[openupval].v.addr >= level
        invariant Inv() && |abs.slots| == |stack| && Kept(a0, abs, m0, mem, level - base, closures)
        invariant openupval != NULL ==> openupval in mem && mem[openupval].v.OnStack?
        decreases |open|
      {
        CloseFirst(level, a0, m0);
      }
      NoneOpen(mem, openupval, base + |stack|, base, open, level);
      RenewAll(abs, mem, stack, base, level - base);
      KeptRenewed(a0, abs, m0, mem, level - base, closures);
      abs := Refreshed(abs, level - base);
      SameValues(a0, m0, abs, mem, stack, base);
    }

    // ----- moving the stack -----

    /** Gives the stack another place and another size. */
    method ReallocStack(newbase: int, newsize: nat)
      requires Inv() && forall u :: u in mem && mem[u].v.OnStack? ==> mem[u].v.addr < base + newsize
      modifies this`base, this`stack, this`top, this`ci, this`mem, this`abs
      ensures Inv() && |stack| == newsize && base == newbase && Resized(old(abs), abs, newsize)
      ensures forall i :: 0 <= i < newsize ==> stack[i] == if i < |old(stack)| then old(stack[i]) else Nil
      ensures top - base == old(top - base) && |ci| == |old(ci)|
      ensures forall i :: 0 <= i < |ci| ==> ci[i] == MovedInfo(old(ci[i]), newbase - old(base))
    {
      hide OpenFrom, OpenAll, Shared, Refs, References, Allocated, VarOk, Grown;
      var oldstack := base;
      ghost var old_, m0, bound := stack, mem, base + |stack|;
      SharedKeys(abs, mem, stack, base);
      SharedSlots(abs, mem, stack, base);
      base := newbase;
      stack := if newsize <= |stack| then stack[..newsize] else stack + seq(newsize - |stack|, i => Nil);
      CorrectStack(oldstack, bound);
      NarrowBound(m0, openupval, bound, oldstack, open, oldstack + newsize);
      MovedKeeps(m0, mem, openupval, oldstack + newsize, oldstack, newbase, open, closures, brk);
      GrownShared(abs, m0, mem, old_, oldstack, newbase, stack, newsize);
      abs := Grown(abs, newsize);
    }

    /** Makes everything that points into the stack point into the new one. */
    method CorrectStack(oldstack: int, ghost bound: int)
      requires OpenFrom(mem, openupval, bound, oldstack, open) && OpenAll(mem, open)
      modifies this`top, this`ci, this`mem
      ensures mem == MovedAll(old(mem), base - oldstack) && top == old(top) - oldstack + base && |ci| == |old(ci)|
      ensures forall i :: 0 <= i < |ci| ==> ci[i] == MovedInfo(old(ci[i]), base - oldstack)
    {
      hide OpenFrom, OpenAll;
      top := top - oldstack + base;
      var up := openupval;
      ghost var rest, bnd, m0, d := open, bound, mem, base - oldstack;
      MovedNone(m0, mem, open, d);
      OpenMembers(m0, up, bnd, oldstack, open);
      while up != NULL
        invariant rest <= open && OpenFrom(m0, up, bnd, oldstack, rest) && MovedBut(m0, mem, rest, d)
        invariant ci == old(ci) && top == old(top) - oldstack + base
        invariant up != NULL ==>
                  up in mem && mem[up].v.OnStack? && up in m0 && m0[up].v.OnStack? && mem[up].next == m0[up].next
        decreases |rest|
      {
        OpenTail(m0, up, bnd, oldstack, rest);
        MovedStep(m0, mem, rest, d, up);
        OpenMembers(m0, m0[up].next, m0[up].v.addr, oldstack, rest - {up});
        mem := mem[up := mem[up].(v := OnStack(mem[up].v.addr - oldstack + base))];
        rest, bnd := rest - {up}, m0[up].v.addr;
        MovedSame(m0, mem, rest, d);
        up := mem[up].next;
      }
      MovedDone(m0, mem, up, bnd, oldstack, rest, d);
      CorrectFrames(oldstack);
    }

    method CorrectFrames(oldstack: int)
      modifies this`ci
      ensures |ci| == |old(ci)| && forall i :: 0 <= i < |ci| ==> ci[i] == MovedInfo(old(ci[i]), base - oldstack)
    {
      ghost var d := base - oldstack;
      var i := 0;
      while i < |ci|
        invariant 0 <= i <= |ci| == |old(ci)|
        invariant forall j :: 0 <= j < |ci| ==> ci[j] == if j < i then MovedInfo(old(ci[j]), d) else old(ci[j])
      {
        var c := ci[i];
        c := c.(top := c.top - oldstack + base);
        c := c.(func := c.func - oldstack + base);
        if c.isLua {
          c := c.(base := c.base - oldstack + base);
        }
        ci := ci[i := c];
        i := i + 1;
      }
    }

    // ----- closures -----

    /** Makes a closure whose upvalues are variables of the stack, or upvalues of the enclosing closure. */
    method PushClosure(descs: seq<Desc>, enclosing: nat, frame: int) returns (ncl: nat)
      requires Inv() && enclosing in closures && DescsOk(descs, |closures[enclosing]|, frame - base, |stack|)
      modifies this`openupval, this`mem, this`brk, this`open, this`abs, this`closures
      ensures Inv() && ncl == old(brk) < brk && ncl !in old(closures) && ncl in closures &&
              |closures[ncl]| == |descs| && closures - {ncl} == old(closures)
      ensures |abs.slots| == |stack| && abs == old(abs).(vars := abs.vars)
      ensures forall i :: 0 <= i < |descs| ==>
              Captures(abs, descs[i], old(closures)[enclosing], frame - base, closures[ncl][i])
      ensures forall w :: w in old(mem) ==>
              w in mem && w in old(abs.vars) && w in abs.vars && abs.vars[w] == old(abs.vars)[w]
    {
      hide OpenFrom, OpenAll, Shared, Refs, References, Allocated;
      SharedKeys(abs, mem, stack, base);
      ncl := brk;
      ghost var cls, m0, vars0 := closures, mem, abs.vars;
      NewClosure(mem, closures, brk);
      closures := closures[ncl := []];
      brk := brk + 1;
      var i := 0;
      while i < |descs|
        invariant 0 <= i <= |descs| && Inv() && ncl in closures && |closures[ncl]| == i && closures - {ncl} == cls
        invariant enclosing != ncl && enclosing in closures && closures[enclosing] == cls[enclosing]
        invariant |abs.slots| == |stack| && abs == old(abs).(vars := abs.vars) && ncl == old(brk) < brk
        invariant forall j :: 0 <= j < i ==> Captures(abs, descs[j], cls[enclosing], frame - base, closures[ncl][j])
        invariant forall w :: w in m0 ==> w in mem && w in vars0 && w in abs.vars && abs.vars[w] == vars0[w]
      {
        SharedKeys(abs, mem, stack, base);
        ghost var us, a1 := closures[ncl], abs;
        var u := CaptureOne(descs[i], ncl, enclosing, frame);
        CapturesKept(a1, abs, descs, cls[enclosing], frame - base, us, i);
        i := i + 1;
      }
    }

    /** The closure captures a variable. */
    method CaptureOne(desc: Desc, ncl: nat, enclosing: nat, frame: int) returns (u: nat)
      requires Inv() && enclosing in closures && ncl in closures && ncl != enclosing && |abs.slots| == |stack|
      requires if desc.instack then base <= frame + desc.idx < base + |stack| else desc.idx < |closures[enclosing]|
      modifies this`openupval, this`mem, this`brk, this`open, this`abs, this`closures
      ensures Inv() && brk >= old(brk) && |abs.slots| == |stack| && abs == old(abs).(vars := abs.vars)
      ensures closures == old(closures)[ncl := old(closures)[ncl] + [u]] && closures - {ncl} == old(closures) - {ncl}
      ensures Captures(abs, desc, old(closures)[enclosing], frame - base, u)
      ensures forall w :: w in old(mem) ==>
              w in mem && w in old(abs.vars) && w in abs.vars && abs.vars[w] == old(abs.vars)[w]
    {
      hide OpenFrom, OpenAll, Shared, Refs, References, Allocated;
      SharedKeys(abs, mem, stack, base);
      if desc.instack {
        u := FindUpval(frame + desc.idx);
      } else {
        u := closures[enclosing][desc.idx];
        ReferencesHold(closures, enclosing, desc.idx);
        Referred(mem, closures, u);
      }
      AddReference(ncl, u);
    }

    /** The closure captures the upvalue. */
    method AddReference(c: nat, u: nat)
      requires Inv() && c in closures && u in mem
      modifies this`closures, this`mem
      ensures Inv() && closures == old(closures)[c := old(closures)[c] + [u]] && closures - {c} == old(closures) - {c}
      ensures mem.Keys == old(mem).Keys
    {
      hide OpenFrom, OpenAll, Shared, Refs, References, Allocated;
      OneMore(mem, openupval, base + |stack|, base, open, closures, brk, c, u, abs, stack);
      closures := closures[c := closures[c] + [u]];
      mem := mem[u := mem[u].(refcount := mem[u].refcount + 1)];
    }

    /** Drops a reference; a closed upvalue without references goes. */
    method UpvDecCount(u: nat, ghost left: map<nat, seq<nat>>, ghost c: nat)
      requires InvWith(left) && c in left && |left[c]| > 0 && left[c][0] == u && u in mem && mem[u].refcount > 0
      modifies this`mem, this`abs
      ensures InvWith(left[c := left[c][1..]]) && abs == old(abs).(vars := abs.vars)
      ensures forall w :: w in old(mem) && References(left[c := left[c][1..]])[w] > 0 ==>
                w in mem && w in old(abs.vars) && w in abs.vars && abs.vars[w] == old(abs.vars)[w]
      ensures forall w :: References(left[c := left[c][1..]])[w] > 0 ==> References(left)[w] > 0
    {
      hide OpenFrom, OpenAll, Shared, Refs, References, Allocated, Without;
      ghost var m := mem;
      SharedKeys(abs, mem, stack, base);
      OneLess(mem, openupval, base + |stack|, base, open, left, brk, c, abs, stack);
      FewerReferences(left, left[c := left[c][1..]], c);
      mem := mem[u := mem[u].(refcount := mem[u].refcount - 1)];
      if mem[u].refcount == 0 && !mem[u].v.OnStack? {
        mem := Without(mem, u);
        abs := abs.(vars := abs.vars - {u});
      }
      assert mem == Dropped(m, u);
    }

    /** Drops the references of a closure that is freed; closed upvalues without references go. */
    method FreeClosure(c: nat)
      requires Inv() && c in closures
      modifies this`mem, this`closures, this`abs
      ensures Inv() && closures == old(closures) - {c}
      ensures forall u :: u in old(mem) && References(closures)[u] > 0 ==>
              u in mem && u in old(abs.vars) && u in abs.vars && abs.vars[u] == old(abs.vars)[u]
      ensures abs == old(abs).(vars := abs.vars)
    {
      hide OpenFrom, OpenAll, Shared, Refs, References, Allocated, Without;
      SharedKeys(abs, mem, stack, base);
      var us := closures[c];
      ghost var m0, vars0, a0 := mem, abs.vars, abs;
      var i := 0;
      ghost var left: map<nat, seq<nat>> := closures;
      assert us[0..] == us && left == left[c := us[0..]];
      while i < |us|
        invariant 0 <= i <= |us| && InvWith(left) && left == closures[c := us[i..]]
        invariant forall u :: u in m0 && References(left)[u] > 0 ==>
                  u in mem && u in vars0 && u in abs.vars && abs.vars[u] == vars0[u]
        invariant abs == a0.(vars := abs.vars) && closures == old(closures)
      {
        ReferencesHold(left, c, 0);
        Referred(mem, left, us[i]);
        UpvDecCount(us[i], left, c);
        left := left[c := us[i + 1..]];
        i := i + 1;
      }
      LastReferences(mem, left, closures, c, brk);
      closures := closures - {c};
    }

    /** The closure gets a new closed upvalue. */
    method AddOwn(cl: nat)
      requires Inv() && cl in closures
      modifies this`mem, this`brk, this`abs, this`closures
      ensures Inv() && brk == old(brk) + 1 && closures == old(closures)[cl := old(closures)[cl] + [old(brk)]]
      ensures old(brk) !in old(mem) && mem == old(mem)[old(brk) := UpVal(Own, 1, NULL, Nil)] &&
              closures - {cl} == old(closures) - {cl}
      ensures forall w :: w in old(mem) ==> w in old(abs.vars) && w in abs.vars && abs.vars[w] == old(abs.vars)[w]
      ensures abs == WithCell(old(abs), old(brk)) && abs.slots == old(abs.slots) && old(brk) !in old(abs.vars)
      ensures forall c :: c in old(abs.cells) ==> c in abs.cells && abs.cells[c] == old(abs.cells)[c]
    {
      hide OpenFrom, OpenAll, Shared, Refs, References, Allocated;
      SharedKeys(abs, mem, stack, base);
      var uv := brk;
      NewOwn(abs, mem, stack, base, openupval, base + |stack|, open, closures, brk, cl);
      brk := brk + 1;
      mem := mem[uv := UpVal(Own, 1, NULL, Nil)];
      closures := closures[cl := closures[cl] + [uv]];
      abs := WithCell(abs, uv);
    }

    /** Gives a new closure closed upvalues that are nil. */
    method InitUpvals(n: nat) returns (cl: nat)
      requires Inv()
      modifies this`mem, this`brk, this`abs, this`closures
      ensures Inv() && cl == old(brk) < brk && cl in closures && |closures[cl]| == n && closures - {cl} == old(closures)
      ensures forall u :: u in closures[cl] ==> u !in old(mem) && u in mem && mem[u].v.Own? && Get(u) == Nil
      ensures forall w :: w in old(mem) ==>
              w in mem && w in old(abs.vars) && w in abs.vars && abs.vars[w] == old(abs.vars)[w]
      ensures abs.slots == old(abs.slots) && forall c :: c in old(abs.cells) ==>
              c in abs.cells && abs.cells[c] == old(abs.cells)[c]
      ensures NewVars(old(abs), abs, closures[cl])
    {
      hide OpenFrom, OpenAll, Shared, Refs, References, Allocated, WithCell, NewVars;
      SharedKeys(abs, mem, stack, base);
      NewVarsNone(abs);
      ghost var m0, a0 := mem, abs;
      cl := brk;
      NewClosure(mem, closures, brk);
      closures := closures[cl := []];
      brk := brk + 1;
      var i := 0;
      while i < n
        invariant 0 <= i <= n && Inv() && cl == old(brk) < brk && cl in closures && |closures[cl]| == i &&
                  closures - {cl} == old(closures)
        invariant forall u :: u in closures[cl] ==> u !in m0 && u in mem && mem[u].v.Own? && mem[u].value == Nil
        invariant forall w :: w in m0 ==> w in mem && w in a0.vars && w in abs.vars && abs.vars[w] == a0.vars[w]
        invariant abs.slots == a0.slots && forall c :: c in a0.cells ==> c in abs.cells && abs.cells[c] == a0.cells[c]
        invariant NewVars(a0, abs, closures[cl])
      {
        SharedKeys(abs, mem, stack, base);
        NotAllocated(mem, closures, brk);
        NewVarsMore(a0, abs, closures[cl], brk);
        AddOwn(cl);
        i := i + 1;
      }
    }

    ghost function Now(): World
      reads this
    {
      World(abs, closures, brk)
    }

    /** Any run does what its operations do, one after the other. So every variable holds what was written to it last,
        and what the closures that live on have captured stays the same variables. */
    method Run(ops: seq<Op>) returns (ghost trace: seq<World>)
      requires Inv()
      modifies this
      ensures Inv() && Ran(ops, trace) && trace[0] == old(Now()) && trace[|ops|] == Now()
      ensures LastWritten(old(abs.cells), AllAssigned(ops, trace), abs.cells) && Survive(old(Now()), Now())
    {
      hide OpenFrom, OpenAll, Shared, Refs, References, Allocated, Does, LastWritten, Survive;
      trace := [Now()];
      NamedNow(abs, mem, stack, base, closures, brk);
      for i := 0 to |ops|
        invariant Inv() && Ran(ops[..i], trace) && trace[0] == old(Now()) && trace[i] == Now()
      {
        Step(ops[i]);
        RanNext(ops[..i], trace, ops[i], Now());
        assert ops[..i] + [ops[i]] == ops[..i + 1];
        trace := trace + [Now()];
      }
      assert ops[..|ops|] == ops;
      RanWrites(ops, trace);
      RanSurvive(ops, trace);
    }

    method Step(op: Op)
      requires Inv()
      modifies this
      ensures Inv() && Does(op, old(Now()), Now())
    {
      hide Inv, Does;
      match op {
        case SetLocal(_, _) => Assign(op);
        case SetShared(_, _, _) => Assign(op);
        case Capture(_, _, _) => ChangeClosures(op);
        case Fresh(_) => ChangeClosures(op);
        case Free(_) => ChangeClosures(op);
        case CloseFrom(_) => ChangeStack(op);
        case Realloc(_, _) => ChangeStack(op);
      }
    }

    method Assign(op: Op)
      requires Inv() && (op.SetLocal? || op.SetShared?)
      modifies this
      ensures Inv() && Does(op, old(Now()), Now())
    {
      hide OpenFrom, OpenAll, Shared, Refs, References, Allocated, LastWritten, Does;
      ghost var s := Now();
      NamedNow(abs, mem, stack, base, closures, brk);
      match op {
        case SetLocal(i, v) =>
          if i < |stack| {
            SetRegister(i, v);
            DoesLocal(s, i, v, Now());
            return;
          }
        case SetShared(c, i, v) =>
          if c in closures && i < |closures[c]| {
            SetUpval(closures[c][i], v);
            DoesShared(s, c, i, v, Now());
            return;
          }
      }
      DoesIdle(op, s);
    }

    method ChangeClosures(op: Op)
      requires Inv() && (op.Capture? || op.Fresh? || op.Free?)
      modifies this
      ensures Inv() && Does(op, old(Now()), Now())
    {
      hide OpenFrom, OpenAll, Shared, Refs, References, Allocated, LastWritten, Does, NewVars;
      ghost var s := Now();
      NamedNow(abs, mem, stack, base, closures, brk);
      match op {
        case Capture(descs, enclosing, frame) =>
          if enclosing in closures && DescsOk(descs, |closures[enclosing]|, frame, |stack|) {
            var _ := PushClosure(descs, enclosing, base + frame);
          }
        case Fresh(n) =>
          var _ := InitUpvals(n);
        case Free(c) =>
          if c in closures {
            FreeClosure(c);
            InClosures(mem, closures);
          }
      }
      DoesOther(op, s, Now());
    }

    method ChangeStack(op: Op)
      requires Inv() && (op.CloseFrom? || op.Realloc?)
      modifies this
      ensures Inv() && Does(op, old(Now()), Now())
    {
      hide OpenFrom, OpenAll, Shared, Refs, References, Allocated, LastWritten, Does, NoneBeyond;
      ghost var s := Now();
      NamedNow(abs, mem, stack, base, closures, brk);
      match op {
        case CloseFrom(i) =>
          if i <= |stack| {
            Close(base + i);
          }
        case Realloc(newbase, newsize) =>
          NoneBeyondOpen(abs, mem, stack, base, newsize);
          if forall u :: u in mem && mem[u].v.OnStack? ==> mem[u].v.addr < base + newsize {
            ReallocStack(newbase, newsize);
          }
      }
      DoesOther(op, s, Now());
    }

    /** Closures that have captured the same variable read the same, whoever wrote it and wherever it is. */
    lemma SharingReads(c: nat, i: nat, d: nat, j: nat)
      requires Inv() && c in closures && d in closures && i < |closures[c]| && j < |closures[d]|
      ensures var u, w := closures[c][i], closures[d][j];
              && u in mem && w in mem && u in abs.vars && w in abs.vars
              && (abs.vars[u] == abs.vars[w] <==> u == w)
              && (mem[u].v.OnStack? ==> 0 <= mem[u].v.addr - base < |stack|) && abs.vars[u] in abs.cells &&
                 Get(u) == abs.cells[abs.vars[u]]
    {
      hide OpenFrom, OpenAll, References, Allocated;
      ReferencesHold(closures, c, i);
      ReferencesHold(closures, d, j);
      Referred(mem, closures, closures[c][i]);
      Referred(mem, closures, closures[d][j]);
      GetReads(closures[c][i]);
    }
  }

  lemma SharedAt(a: Abs, mem: map<nat, UpVal>, stack: seq<V>, base: int, u: nat)
    requires Shared(a, mem, stack, base) && u in mem
    ensures u in a.vars && |a.slots| == |stack| && VarOk(a, mem[u], u, stack, base)
  {}

  lemma OwnKept(mem: map<nat, UpVal>, p: nat, bound: int, base: int, open: set<nat>, closures: map<nat, seq<nat>>,
                u: nat, v: V)
    requires OpenFrom(mem, p, bound, base, open) && OpenAll(mem, open) && Refs(mem, closures) && u in mem &&
             mem[u].v.Own?
    ensures var mem' := mem[u := mem[u].(value := v)];
            OpenFrom(mem', p, bound, base, open) && OpenAll(mem', open) && Refs(mem', closures)
  {
    OpenMembers(mem, p, bound, base, open);
    OpenFrame(mem, mem[u := mem[u].(value := v)], p, bound, bound, base, open);
  }

  /** Everything in use was allocated. */
  ghost predicate Allocated(mem: map<nat, UpVal>, closures: map<nat, seq<nat>>, brk: nat)
  {
    brk > 0 && (forall u :: u in mem ==> 0 < u < brk) && forall c :: c in closures ==> 0 < c < brk
  }

  /** The upvalues there were are those variables still. */
  ghost predicate KeepsVars(mem: map<nat, UpVal>, a: Abs, mem': map<nat, UpVal>, a': Abs)
  {
    forall w :: w in mem ==>
      w in mem' && w in a.vars && w in a'.vars && a'.vars[w] == a.vars[w] && SameVar(mem'[w], mem[w])
  }

  /** An upvalue as before, but for its link. */
  predicate SameVar(x: UpVal, y: UpVal) { x.v == y.v && x.refcount == y.refcount && x.value == y.value }

  lemma OpenTail(mem: map<nat, UpVal>, p: nat, bound: int, base: int, s: set<nat>)
    requires OpenFrom(mem, p, bound, base, s) && p != NULL
    ensures p in s && p in mem && mem[p].v.OnStack? && base <= mem[p].v.addr < bound
    ensures OpenFrom(mem, mem[p].next, mem[p].v.addr, base, s - {p})
    ensures mem[p].next != NULL ==> mem[p].next in s - {p}
  {}

  lemma NotAllocated(mem: map<nat, UpVal>, closures: map<nat, seq<nat>>, brk: nat)
    requires Allocated(mem, closures, brk)
    ensures brk !in mem
  {}

  lemma SharedKeys(a: Abs, mem: map<nat, UpVal>, stack: seq<V>, base: int)
    requires Shared(a, mem, stack, base)
    ensures a.vars.Keys == mem.Keys && |a.slots| == |stack|
    ensures forall u :: u in mem ==> u in a.vars
  {}

  lemma UnfoldVar(a: Abs, x: UpVal, u: nat, stack: seq<V>, base: int)
    requires u in a.vars && |a.slots| == |stack| && VarOk(a, x, u, stack, base)
    ensures x.v.OnStack? ==> 0 <= x.v.addr - base < |stack| && a.vars[u] == a.slots[x.v.addr - base]
  {}

  lemma AllocatedNew(mem: map<nat, UpVal>, closures: map<nat, seq<nat>>, u: nat, prev: nat, level: int, next: nat)
    requires Allocated(mem, closures, u)
    ensures u != NULL && u !in mem && u !in closures
    ensures prev in mem || prev == NULL ==> Allocated(Linked(mem, u, level, prev, next), closures, u + 1)
  {}

  lemma LinkedKeeps(mem: map<nat, UpVal>, a: Abs, u: nat, level: int, prev: nat, next: nat, cell: nat)
    requires u !in mem && (prev != NULL ==> prev in mem && prev != u) && a.vars.Keys == mem.Keys
    ensures KeepsVars(mem, a, Linked(mem, u, level, prev, next), a.(vars := a.vars[u := cell]))
    ensures u in Linked(mem, u, level, prev, next) && Linked(mem, u, level, prev, next)[u].v == OnStack(level)
  {}

  /** What programs and the interpreter do with variables; what cannot be done has no effect. */
  datatype Op =
    | SetLocal(i: nat, v: V) | SetShared(c: nat, i: nat, v: V) | Capture(descs: seq<Desc>, enclosing: nat, frame: int)
      | Fresh(n: nat)
    | CloseFrom(i: nat) | Free(c: nat) | Realloc(newbase: int, newsize: nat)

  /** What can be told of a state: variables, the closures that captured them, and a number that no closure has had. */
  datatype World = World(a: Abs, closures: map<nat, seq<nat>>, brk: nat)

  /** What an operation writes: a variable, known by its cell, and a value. Only the two kinds of assignment write, and
      each of them one variable: the one in the register, or the one that the closure captured. */
  ghost function Assigned(op: Op, s: World): seq<(nat, V)>
  {
    match op
    case SetLocal(i, v) => if i < |s.a.slots| then [(s.a.slots[i], v)] else []
    case SetShared(c, i, v) =>
      if c in s.closures && i < |s.closures[c]| && s.closures[c][i] in s.a.vars then [(s.a.vars[s.closures[c][i]], v)]
        else []
    case _ => []
  }

  /** What an operation does. */
  ghost predicate Does(op: Op, s: World, s': World)
  {
    LastWritten(s.a.cells, Assigned(op, s), s'.a.cells) && Survive(s, s') && s.brk <= s'.brk && Changes(op, s, s')
  }

  /** What an operation does to the closures and to the variables of the stack. */
  ghost predicate Changes(op: Op, s: World, s': World)
  {
    match op
    case Capture(descs, enclosing, frame) =>
      if enclosing in s.closures && DescsOk(descs, |s.closures[enclosing]|, frame, |s.a.slots|) then
        && Adds(s, s') && s'.a.slots == s.a.slots && |s'.closures[s.brk]| == |descs|
        && forall i :: 0 <= i < |descs| ==>
           Captures(s'.a, descs[i], s.closures[enclosing], frame, s'.closures[s.brk][i])
      else Same(s, s')
    case Fresh(n) =>
      Adds(s, s') && s'.a.slots == s.a.slots && |s'.closures[s.brk]| == n && NewVars(s.a, s'.a, s'.closures[s.brk])
    case CloseFrom(i) =>
      if i <= |s.a.slots| then s'.closures == s.closures && Renewed(s.a, s'.a, i) && SlotsKept(s.a, s'.a)
        else Same(s, s')
    case Free(c) => s'.closures == s.closures - {c} && s'.a.slots == s.a.slots
    case Realloc(_, newsize) =>
      if NoneBeyond(s.a, newsize) then s'.closures == s.closures && Resized(s.a, s'.a, newsize) else Same(s, s')
    case _ => Same(s, s')
  }

  ghost predicate Same(s: World, s': World) { s'.closures == s.closures && s'.a.slots == s.a.slots }

  /** There is one more closure. */
  ghost predicate Adds(s: World, s': World)
  {
    s.brk < s'.brk && s.brk in s'.closures && s'.closures - {s.brk} == s.closures
  }

  /** Every one is a variable of its own that there was not before, and nil. */
  ghost predicate NewVars(a: Abs, a': Abs, us: seq<nat>)
  {
    && (forall i :: 0 <= i < |us| ==>
       us[i] in a'.vars && a'.vars[us[i]] !in a.cells && a'.vars[us[i]] in a'.cells && a'.cells[a'.vars[us[i]]] == Nil)
    && (forall i, j :: 0 <= i < j < |us| ==> us[i] in a'.vars && us[j] in a'.vars && a'.vars[us[i]] != a'.vars[us[j]])
  }

  lemma NewVarsNone(a: Abs)
    ensures NewVars(a, a, [])
  {}

  lemma NewVarsMore(a0: Abs, a: Abs, us: seq<nat>, u: nat)
    requires NewVars(a0, a, us) && u !in a.vars && forall c :: c in a0.cells ==> c in a.cells
    ensures NewVars(a0, WithCell(a, u), us + [u])
  {}

  /** No slot from `size` on is a variable of an upvalue. */
  ghost predicate NoneBeyond(a: Abs, size: nat)
  {
    forall u, i :: u in a.vars && size <= i < |a.slots| ==> a.vars[u] != a.slots[i]
  }

  lemma NoneBeyondOpen(a: Abs, mem: map<nat, UpVal>, stack: seq<V>, base: int, size: nat)
    requires Shared(a, mem, stack, base)
    ensures NoneBeyond(a, size) <==> forall u :: u in mem && mem[u].v.OnStack? ==> mem[u].v.addr < base + size
  {
    forall u | u in mem ensures VarOk(a, mem[u], u, stack, base) {}
    if NoneBeyond(a, size) {
      forall u | u in mem && mem[u].v.OnStack? ensures mem[u].v.addr < base + size {
        assert VarOk(a, mem[u], u, stack, base);
      }
    }
  }

  lemma SameValues(a: Abs, mem: map<nat, UpVal>, a': Abs, mem': map<nat, UpVal>, stack: seq<V>, base: int)
    requires Shared(a, mem, stack, base) && Shared(a', mem', stack, base)
    ensures SlotsKept(a, a')
  {}

  /** The closures that live on have the same upvalues, and they are the same variables. */
  ghost predicate Survive(s: World, s': World)
  {
    forall c :: c in s.closures && c in s'.closures ==> Holds(s.closures, s.a, s'.closures, s'.a, c)
  }

  /** The variables of closures have names. */
  ghost predicate Named(s: World) { forall c, u :: c in s.closures && u in s.closures[c] ==> u in s.a.vars }

  lemma DoesIdle(op: Op, s: World)
    requires Named(s) && Assigned(op, s) == [] && Changes(op, s, s)
    ensures Does(op, s, s)
  {
    NothingWritten(s.a.cells);
  }

  lemma DoesLocal(s: World, i: nat, v: V, s': World)
    requires Named(s) && i < |s.a.slots| && s' == s.(a := WriteSlot(s.a, i, v))
    ensures Does(SetLocal(i, v), s, s')
  {
    OneWritten(s.a.cells, s.a.slots[i], v);
  }

  lemma DoesShared(s: World, c: nat, i: nat, v: V, s': World)
    requires Named(s) && c in s.closures && i < |s.closures[c]| && s.closures[c][i] in s.a.vars &&
             s' == s.(a := WriteVar(s.a, s.closures[c][i], v))
    ensures Does(SetShared(c, i, v), s, s')
  {
    OneWritten(s.a.cells, s.a.vars[s.closures[c][i]], v);
  }

  /** The upvalues that closures have are the variables they were. */
  ghost predicate VarsKept(s: World, s': World)
  {
    forall c, u :: c in s.closures && c in s'.closures && u in s.closures[c] ==>
      u in s'.a.vars && u in s.a.vars && s'.a.vars[u] == s.a.vars[u]
  }

  ghost predicate CellsKept(a: Abs, a': Abs) { forall c :: c in a.cells ==> c in a'.cells && a'.cells[c] == a.cells[c] }

  /** An operation that adds a closure or takes one away, or changes the stack, writes nothing. */
  lemma DoesOther(op: Op, s: World, s': World)
    requires Assigned(op, s) == [] && VarsKept(s, s') && CellsKept(s.a, s'.a) && s.brk <= s'.brk && Changes(op, s, s')
    requires forall c :: c in s.closures && c in s'.closures ==> s'.closures[c] == s.closures[c]
    ensures Does(op, s, s')
  {
    hide Changes;
    KeptWritten(s.a.cells, s'.a.cells);
  }

  /** The states of a run. */
  ghost predicate Ran(ops: seq<Op>, trace: seq<World>)
  {
    |trace| == |ops| + 1 && forall k :: 0 <= k < |ops| ==> Does(ops[k], trace[k], trace[k + 1])
  }

  /** Everything that is written in a run. */
  ghost function AllAssigned(ops: seq<Op>, trace: seq<World>): seq<(nat, V)>
    requires |trace| > |ops|
    decreases |ops|
  {
    if ops == [] then [] else
      var k := |ops| - 1;
      AllAssigned(ops[..k], trace) + Assigned(ops[k], trace[k])
  }

  lemma RanNext(ops: seq<Op>, trace: seq<World>, op: Op, s: World)
    requires Ran(ops, trace) && Does(op, trace[|ops|], s)
    ensures Ran(ops + [op], trace + [s])
  {
    hide Does;
    var ops', trace' := ops + [op], trace + [s];
    forall k | 0 <= k < |ops'| ensures Does(ops'[k], trace'[k], trace'[k + 1]) {
      if k < |ops| { assert Does(ops[k], trace[k], trace[k + 1]); }
    }
  }

  lemma RanPrefix(ops: seq<Op>, trace: seq<World>, k: nat)
    requires Ran(ops, trace) && k == |ops| - 1
    ensures Ran(ops[..k], trace[..k + 1]) && Does(ops[k], trace[k], trace[k + 1])
  {
    hide Does;
    forall n | 0 <= n < k ensures Does(ops[..k][n], trace[..k + 1][n], trace[..k + 1][n + 1]) {
      assert Does(ops[n], trace[n], trace[n + 1]);
    }
  }

  lemma {:induction false} AssignedPrefix(ops: seq<Op>, trace: seq<World>, trace': seq<World>)
    requires |trace| > |ops| && trace <= trace'
    ensures AllAssigned(ops, trace) == AllAssigned(ops, trace')
    decreases |ops|
  {
    if ops != [] { AssignedPrefix(ops[..|ops| - 1], trace, trace'); }
  }

  lemma {:induction false} RanWrites(ops: seq<Op>, trace: seq<World>)
    requires Ran(ops, trace)
    ensures LastWritten(trace[0].a.cells, AllAssigned(ops, trace), trace[|ops|].a.cells)
    decreases |ops|
  {
    hide LastWritten, Assigned, Changes, Survive;
    var cells := trace[0].a.cells;
    if ops == [] {
      NothingWritten(cells);
    } else {
      var k := |ops| - 1;
      RanPrefix(ops, trace, k);
      RanWrites(ops[..k], trace[..k + 1]);
      AssignedPrefix(ops[..k], trace[..k + 1], trace);
      WrittenThen(cells, AllAssigned(ops[..k], trace), trace[k].a.cells, Assigned(ops[k], trace[k]),
        trace[k + 1].a.cells);
    }
  }

  ghost predicate Known(s: World) { forall c :: c in s.closures ==> c < s.brk }

  lemma {:induction false} RanSurvive(ops: seq<Op>, trace: seq<World>)
    requires Ran(ops, trace) && Known(trace[0]) && Named(trace[0])
    ensures Survive(trace[0], trace[|ops|]) && trace[0].brk <= trace[|ops|].brk
    ensures forall c :: c in trace[|ops|].closures && c < trace[0].brk ==> c in trace[0].closures
    decreases |ops|
  {
    hide Survive, LastWritten, Changes;
    if ops == [] {
      SurviveSelf(trace[0]);
    } else {
      var k := |ops| - 1;
      RanPrefix(ops, trace, k);
      RanSurvive(ops[..k], trace[..k + 1]);
      OldClosures(ops[k], trace[k], trace[k + 1]);
      SurviveThen(trace[0], trace[k], trace[k + 1]);
    }
  }

  lemma SurviveSelf(s: World)
    requires Named(s)
    ensures Survive(s, s)
  {}

  lemma OldClosures(op: Op, s: World, s': World)
    requires Changes(op, s, s')
    ensures forall c :: c in s'.closures ==> c in s.closures || c == s.brk
  {
    forall c | c in s'.closures && c != s.brk ensures c in s.closures {
      if op.Capture? || op.Fresh? { assert Same(s, s') || c in s'.closures - {s.brk}; }
    }
  }

  lemma SurviveThen(s: World, t: World, u: World)
    requires Survive(s, t) && Survive(t, u) && Known(s) && forall c :: c in u.closures && c < s.brk ==> c in t.closures
    ensures Survive(s, u)
  {}

  /** The last of the values written to a cell, or the one from before. */
  function LastOf(writes: seq<(nat, V)>, c: nat, v: V): V
  {
    if writes == [] then v
    else if writes[|writes| - 1].0 == c then writes[|writes| - 1].1
    else LastOf(writes[..|writes| - 1], c, v)
  }

  /** Every cell holds the value that was written to it last. */
  ghost predicate LastWritten(cells: map<nat, V>, writes: seq<(nat, V)>, cells': map<nat, V>)
  {
    forall c :: c in cells ==> c in cells' && cells'[c] == LastOf(writes, c, cells[c])
  }

  lemma NothingWritten(cells: map<nat, V>)
    ensures LastWritten(cells, [], cells)
  {}

  lemma OneWritten(cells: map<nat, V>, x: nat, v: V)
    ensures LastWritten(cells, [(x, v)], cells[x := v])
  {
    var w := [(x, v)];
    assert w[..|w| - 1] == [];
    forall c | c in cells ensures LastOf(w, c, cells[c]) == if c == x then v else cells[c] {}
  }

  lemma KeptWritten(cells: map<nat, V>, cells': map<nat, V>)
    requires forall c :: c in cells ==> c in cells' && cells'[c] == cells[c]
    ensures LastWritten(cells, [], cells')
  {}

  lemma {:induction false} LastOfThen(writes: seq<(nat, V)>, w: seq<(nat, V)>, c: nat, v: V)
    ensures LastOf(writes + w, c, v) == LastOf(w, c, LastOf(writes, c, v))
  {
    if w == [] {
      assert writes + w == writes;
    } else {
      assert (writes + w)[..|writes + w| - 1] == writes + w[..|w| - 1];
      LastOfThen(writes, w[..|w| - 1], c, v);
    }
  }

  lemma WrittenThen(cells: map<nat, V>, writes: seq<(nat, V)>, cells': map<nat, V>, w: seq<(nat, V)>,
                    cells'': map<nat, V>)
    requires LastWritten(cells, writes, cells') && LastWritten(cells', w, cells'')
    ensures LastWritten(cells, writes + w, cells'')
  {
    forall c | c in cells ensures c in cells'' && cells''[c] == LastOf(writes + w, c, cells[c]) {
      LastOfThen(writes, w, c, cells[c]);
    }
  }

  /** The closure has the same upvalues, and they are the same variables. */
  ghost predicate Holds(cs: map<nat, seq<nat>>, a: Abs, cs': map<nat, seq<nat>>, a': Abs, c: nat)
    requires c in cs && c in cs'
  {
    cs'[c] == cs[c] && forall u :: u in cs[c] ==> u in a.vars && u in a'.vars && a'.vars[u] == a.vars[u]
  }

  lemma InClosures(mem: map<nat, UpVal>, closures: map<nat, seq<nat>>)
    requires Refs(mem, closures)
    ensures forall c, u :: c in closures && u in closures[c] ==> u in mem && References(closures)[u] > 0
  {
    hide References;
    forall c, u | c in closures && u in closures[c] ensures u in mem && References(closures)[u] > 0 {
      var i :| 0 <= i < |closures[c]| && closures[c][i] == u;
      ReferencesHold(closures, c, i);
    }
  }

  lemma NamedNow(a: Abs, mem: map<nat, UpVal>, stack: seq<V>, base: int, closures: map<nat, seq<nat>>, brk: nat)
    requires Shared(a, mem, stack, base) && Refs(mem, closures) && Allocated(mem, closures, brk)
    ensures Known(World(a, closures, brk)) && Named(World(a, closures, brk)) && |a.slots| == |stack| &&
            a.vars.Keys == mem.Keys
    ensures forall c, u :: c in closures && u in closures[c] ==> u in mem && References(closures)[u] > 0
  {
    InClosures(mem, closures);
  }

  /** A new variable that is nil. */
  ghost function WithCell(a: Abs, u: nat): Abs
  {
    var c := NewCells(a.cells, 1)[0];
    Abs(a.cells[c := Nil], a.slots, a.vars[u := c])
  }

  lemma NewOwn(a: Abs, mem: map<nat, UpVal>, stack: seq<V>, base: int, p: nat, bound: int, open: set<nat>,
               closures: map<nat, seq<nat>>, u: nat, c: nat)
    requires OpenFrom(mem, p, bound, base, open) && OpenAll(mem, open) && Refs(mem, closures) &&
             Allocated(mem, closures, u) && Shared(a, mem, stack, base)
    requires c in closures
    ensures var mem', closures' := mem[u := UpVal(Own, 1, NULL, Nil)], closures[c := closures[c] + [u]];
            && OpenFrom(mem', p, bound, base, open) && OpenAll(mem', open) && Refs(mem', closures') &&
               Allocated(mem', closures', u + 1)
            && Shared(WithCell(a, u), mem', stack, base) && u !in mem && closures' - {c} == closures - {c}
    ensures WithCell(a, u).slots == a.slots &&
            (forall x :: x in a.cells ==> x in WithCell(a, u).cells && WithCell(a, u).cells[x] == a.cells[x])
    ensures forall w :: w in mem ==> w in a.vars && w in WithCell(a, u).vars && WithCell(a, u).vars[w] == a.vars[w]
  {
    hide References, Refs, Shared, OpenFrom, OpenAll;
    NewRefs(mem, closures, u, c);
    NewOpen(mem, p, bound, base, open, u);
    NewShared(a, mem, stack, base, u);
    SharedKeys(a, mem, stack, base);
  }

  lemma NewRefs(mem: map<nat, UpVal>, closures: map<nat, seq<nat>>, u: nat, c: nat)
    requires Refs(mem, closures) && Allocated(mem, closures, u) && c in closures
    ensures Refs(mem[u := UpVal(Own, 1, NULL, Nil)], closures[c := closures[c] + [u]]) && u !in mem
  {
    hide References;
    ReferencesMore(closures, c, u);
  }

  lemma NewOpen(mem: map<nat, UpVal>, p: nat, bound: int, base: int, open: set<nat>, u: nat)
    requires OpenFrom(mem, p, bound, base, open) && OpenAll(mem, open) && u !in mem
    ensures OpenFrom(mem[u := UpVal(Own, 1, NULL, Nil)], p, bound, base, open) &&
            OpenAll(mem[u := UpVal(Own, 1, NULL, Nil)], open)
  {
    OpenMembers(mem, p, bound, base, open);
    OpenFrame(mem, mem[u := UpVal(Own, 1, NULL, Nil)], p, bound, bound, base, open);
  }

  lemma NewShared(a: Abs, mem: map<nat, UpVal>, stack: seq<V>, base: int, u: nat)
    requires Shared(a, mem, stack, base) && u !in mem
    ensures Shared(WithCell(a, u), mem[u := UpVal(Own, 1, NULL, Nil)], stack, base)
  {
    var a', mem' := WithCell(a, u), mem[u := UpVal(Own, 1, NULL, Nil)];
    forall w | w in mem ensures VarOk(a, mem[w], w, stack, base) {}
    forall w | w in mem' ensures VarOk(a', mem'[w], w, stack, base) {
      if w != u { assert VarOk(a, mem[w], w, stack, base); }
    }
  }

  // ----- closures -----

  /** What an upvalue of a new closure is: a local variable of the enclosing function, or one of its upvalues. */
  datatype Desc = Desc(instack: bool, idx: nat)

  predicate DescsOk(descs: seq<Desc>, n: nat, frame: int, size: nat)
  {
    forall i :: 0 <= i < |descs| ==> if descs[i].instack then 0 <= frame + descs[i].idx < size else descs[i].idx < n
  }

  ghost predicate Captures(a: Abs, d: Desc, enclosing: seq<nat>, frame: int, u: nat)
  {
    if d.instack then u in a.vars && 0 <= frame + d.idx < |a.slots| && a.vars[u] == a.slots[frame + d.idx]
    else d.idx < |enclosing| && u == enclosing[d.idx]
  }

  lemma CapturesKept(a: Abs, a': Abs, descs: seq<Desc>, enclosing: seq<nat>, frame: int, us: seq<nat>, n: nat)
    requires n <= |descs| && n == |us| && a' == a.(vars := a'.vars) && forall w :: w in a.vars ==>
             w in a'.vars && a'.vars[w] == a.vars[w]
    requires forall j :: 0 <= j < n ==> Captures(a, descs[j], enclosing, frame, us[j])
    ensures forall j :: 0 <= j < n ==> Captures(a', descs[j], enclosing, frame, us[j])
  {}

  lemma NewClosure(mem: map<nat, UpVal>, closures: map<nat, seq<nat>>, brk: nat)
    requires Allocated(mem, closures, brk) && Refs(mem, closures)
    ensures brk !in closures && closures[brk := []] - {brk} == closures
    ensures Allocated(mem, closures[brk := []], brk + 1) && Refs(mem, closures[brk := []])
  {
    ReferencesWith(closures, brk, []);
  }

  lemma Referred(mem: map<nat, UpVal>, closures: map<nat, seq<nat>>, u: nat)
    requires Refs(mem, closures) && References(closures)[u] > 0
    ensures u in mem && mem[u].refcount > 0
  {
    hide References;
  }

  /** One more reference is counted. */
  lemma OneMore(mem: map<nat, UpVal>, p: nat, bound: int, base: int, open: set<nat>, closures: map<nat, seq<nat>>,
                brk: nat, c: nat, u: nat,
                a: Abs, stack: seq<V>)
    requires OpenFrom(mem, p, bound, base, open) && OpenAll(mem, open) && Refs(mem, closures) &&
             Allocated(mem, closures, brk) && Shared(a, mem, stack, base)
    requires c in closures && u in mem
    ensures var mem', closures' := mem[u := mem[u].(refcount := mem[u].refcount + 1)], closures[c := closures[c] + [u]];
            && OpenFrom(mem', p, bound, base, open) && OpenAll(mem', open) && Refs(mem', closures') &&
               Allocated(mem', closures', brk)
            && Shared(a, mem', stack, base) && closures' - {c} == closures - {c}
  {
    hide OpenFrom, OpenAll, Refs, Shared;
    MoreRefs(mem, closures, c, u);
    OpenCounts(mem, p, bound, base, open, u, mem[u].refcount + 1);
    MoreOpen(mem, open, u);
    MoreShared(a, mem, stack, base, u);
  }

  lemma MoreRefs(mem: map<nat, UpVal>, closures: map<nat, seq<nat>>, c: nat, u: nat)
    requires Refs(mem, closures) && c in closures && u in mem
    ensures Refs(mem[u := mem[u].(refcount := mem[u].refcount + 1)], closures[c := closures[c] + [u]])
  {
    hide References;
    ReferencesMore(closures, c, u);
  }

  lemma MoreOpen(mem: map<nat, UpVal>, open: set<nat>, u: nat)
    requires OpenAll(mem, open) && u in mem
    ensures OpenAll(mem[u := mem[u].(refcount := mem[u].refcount + 1)], open)
  {}

  lemma MoreShared(a: Abs, mem: map<nat, UpVal>, stack: seq<V>, base: int, u: nat)
    requires Shared(a, mem, stack, base) && u in mem
    ensures Shared(a, mem[u := mem[u].(refcount := mem[u].refcount + 1)], stack, base)
  {
    hide SlotsHeld;
    forall w | w in mem ensures VarOk(a, mem[w], w, stack, base) {}
  }

  /** The number of references matters to no list. */
  lemma {:induction false} OpenCounts(mem: map<nat, UpVal>, p: nat, bound: int, base: int, s: set<nat>, u: nat, n: nat)
    requires OpenFrom(mem, p, bound, base, s) && u in mem
    ensures OpenFrom(mem[u := mem[u].(refcount := n)], p, bound, base, s)
    decreases |s|
  {
    if p != NULL { OpenCounts(mem, mem[p].next, mem[p].v.addr, base, s - {p}, u, n); }
  }

  lemma FewerReferences(closures: map<nat, seq<nat>>, closures': map<nat, seq<nat>>, c: nat)
    requires c in closures && |closures[c]| > 0 && closures' == closures[c := closures[c][1..]]
    ensures References(closures) == References(closures') + multiset{closures[c][0]}
  {
    hide References;
    ReferencesWithout(closures, c);
    ReferencesWithout(closures', c);
    assert closures' - {c} == closures - {c};
    assert closures[c] == [closures[c][0]] + closures[c][1..];
  }

  /** The memory after one reference is dropped. */
  function Dropped(mem: map<nat, UpVal>, u: nat): map<nat, UpVal>
    requires u in mem && mem[u].refcount > 0
  {
    if mem[u].refcount == 1 && !mem[u].v.OnStack? then Without(mem, u)
      else mem[u := mem[u].(refcount := mem[u].refcount - 1)]
  }

  lemma OneLess(mem: map<nat, UpVal>, p: nat, bound: int, base: int, open: set<nat>, closures: map<nat, seq<nat>>,
                brk: nat, c: nat, a: Abs, stack: seq<V>)
    requires OpenFrom(mem, p, bound, base, open) && OpenAll(mem, open) && Refs(mem, closures) &&
             Allocated(mem, closures, brk) && Shared(a, mem, stack, base)
    requires c in closures && |closures[c]| > 0 && closures[c][0] in mem && mem[closures[c][0]].refcount > 0
    ensures var u := closures[c][0];
            var mem', closures' := Dropped(mem, u), closures[c := closures[c][1..]];
            && OpenFrom(mem', p, bound, base, open) && OpenAll(mem', open) && Refs(mem', closures') &&
               Allocated(mem', closures', brk)
            && Shared(a.(vars := if u in mem' then a.vars else a.vars - {u}), mem', stack, base)
            && (u !in mem' ==> References(closures')[u] == 0)
  {
    hide References, Refs, Shared, OpenFrom, OpenAll, Allocated, Without;
    var u := closures[c][0];
    var mem', closures' := Dropped(mem, u), closures[c := closures[c][1..]];
    FewerReferences(closures, closures', c);
    DroppedRefs(mem, closures, closures', c, brk);
    DroppedShared(a, mem, stack, base, u);
    DroppedOpen(mem, p, bound, base, open, u);
  }

  lemma DroppedRefs(mem: map<nat, UpVal>, closures: map<nat, seq<nat>>, closures': map<nat, seq<nat>>, c: nat, brk: nat)
    requires c in closures && |closures[c]| > 0 && closures' == closures[c := closures[c][1..]] &&
             Refs(mem, closures) && Allocated(mem, closures, brk)
    requires References(closures) == References(closures') + multiset{closures[c][0]}
    requires closures[c][0] in mem && mem[closures[c][0]].refcount > 0
    ensures Refs(Dropped(mem, closures[c][0]), closures') && Allocated(Dropped(mem, closures[c][0]), closures', brk)
    ensures closures[c][0] !in Dropped(mem, closures[c][0]) ==> References(closures')[closures[c][0]] == 0
  {
    hide References, Without;
  }

  lemma DroppedShared(a: Abs, mem: map<nat, UpVal>, stack: seq<V>, base: int, u: nat)
    requires Shared(a, mem, stack, base) && u in mem && mem[u].refcount > 0
    ensures Shared(a.(vars := if u in Dropped(mem, u) then a.vars else a.vars - {u}), Dropped(mem, u), stack, base)
  {
    hide Shared, Without;
    var mem' := Dropped(mem, u);
    SharedKeys(a, mem, stack, base);
    DroppedSame(mem, u);
    hide Dropped;
    SharedLess(a, mem, mem', if u in mem' then a.vars else a.vars - {u}, stack, base);
  }

  lemma DroppedSame(mem: map<nat, UpVal>, u: nat)
    requires u in mem && mem[u].refcount > 0
    ensures var mem' := Dropped(mem, u);
      && mem'.Keys == (if u in mem' then mem.Keys else mem.Keys - {u})
      && forall w :: w in mem' ==> w in mem && mem'[w].v == mem[w].v && mem'[w].value == mem[w].value
  {}

  /** Fewer upvalues, at the same places. */
  lemma SharedLess(a: Abs, mem: map<nat, UpVal>, mem': map<nat, UpVal>, vars: map<nat, nat>, stack: seq<V>, base: int)
    requires Shared(a, mem, stack, base) && mem'.Keys <= mem.Keys && vars.Keys == mem'.Keys
    requires forall w :: w in mem' ==>
             w in a.vars && vars[w] == a.vars[w] && mem'[w].v == mem[w].v && mem'[w].value == mem[w].value
    ensures Shared(a.(vars := vars), mem', stack, base)
  {
    forall w | w in mem' ensures VarOk(a.(vars := vars), mem'[w], w, stack, base) {
      assert VarOk(a, mem[w], w, stack, base);
    }
  }

  lemma DroppedOpen(mem: map<nat, UpVal>, p: nat, bound: int, base: int, open: set<nat>, u: nat)
    requires OpenFrom(mem, p, bound, base, open) && OpenAll(mem, open) && u in mem && mem[u].refcount > 0
    ensures OpenFrom(Dropped(mem, u), p, bound, base, open) && OpenAll(Dropped(mem, u), open)
  {
    hide Without;
    OpenMembers(mem, p, bound, base, open);
    if u in Dropped(mem, u) {
      OpenCounts(mem, p, bound, base, open, u, mem[u].refcount - 1);
    } else {
      OpenFrame(mem, Dropped(mem, u), p, bound, bound, base, open);
    }
  }

  lemma LastReferences(mem: map<nat, UpVal>, left: map<nat, seq<nat>>, closures: map<nat, seq<nat>>, c: nat, brk: nat)
    requires c in closures && left == closures[c := []] && Refs(mem, left) && Allocated(mem, left, brk)
    ensures References(left) == References(closures - {c}) && Refs(mem, closures - {c}) &&
            Allocated(mem, closures - {c}, brk)
  {
    ReferencesWithout(left, c);
    assert left - {c} == closures - {c};
  }

  // ----- moving -----

  function MovedInfo(c: CallInfo, d: int): CallInfo
  {
    CallInfo(c.func + d, c.top + d, c.isLua, if c.isLua then c.base + d else c.base)
  }

  function MovedOne(x: UpVal, d: int): UpVal { if x.v.OnStack? then x.(v := OnStack(x.v.addr + d)) else x }

  /** Every open upvalue moved. */
  function MovedAll(mem: map<nat, UpVal>, d: int): map<nat, UpVal> { map u | u in mem :: MovedOne(mem[u], d) }

  /** Every open upvalue moved but those of `rest`. */
  ghost predicate MovedBut(mem: map<nat, UpVal>, mem': map<nat, UpVal>, rest: set<nat>, d: int)
  {
    mem'.Keys == mem.Keys && forall u :: u in mem ==> mem'[u] == if u in rest then mem[u] else MovedOne(mem[u], d)
  }

  lemma MovedNone(mem: map<nat, UpVal>, mem': map<nat, UpVal>, open: set<nat>, d: int)
    requires mem' == mem && OpenAll(mem, open)
    ensures MovedBut(mem, mem', open, d)
  {}

  lemma MovedStep(mem: map<nat, UpVal>, mem': map<nat, UpVal>, rest: set<nat>, d: int, u: nat)
    requires MovedBut(mem, mem', rest, d) && u in rest && u in mem && mem[u].v.OnStack?
    ensures u in mem' && mem'[u] == mem[u] &&
            MovedBut(mem, mem'[u := mem'[u].(v := OnStack(mem'[u].v.addr + d))], rest - {u}, d)
  {}

  lemma MovedSame(mem: map<nat, UpVal>, mem': map<nat, UpVal>, rest: set<nat>, d: int)
    requires MovedBut(mem, mem', rest, d)
    ensures mem'.Keys == mem.Keys && forall u :: u in mem ==>
            mem'[u].next == mem[u].next && mem'[u].v.OnStack? == mem[u].v.OnStack?
  {}

  lemma MovedDone(mem: map<nat, UpVal>, mem': map<nat, UpVal>, p: nat, bound: int, base: int, rest: set<nat>, d: int)
    requires MovedBut(mem, mem', rest, d) && OpenFrom(mem, p, bound, base, rest) && p == NULL
    ensures mem' == MovedAll(mem, d)
  {}

  lemma NarrowBound(mem: map<nat, UpVal>, p: nat, bound: int, base: int, open: set<nat>, bound': int)
    requires OpenFrom(mem, p, bound, base, open) && forall u :: u in mem && mem[u].v.OnStack? ==> mem[u].v.addr < bound'
    ensures OpenFrom(mem, p, bound', base, open)
  {
    OpenMembers(mem, p, bound, base, open);
    OpenFrame(mem, mem, p, bound, bound', base, open);
  }

  lemma {:induction false} OpenMoved(mem: map<nat, UpVal>, p: nat, bound: int, base: int, open: set<nat>, d: int)
    requires OpenFrom(mem, p, bound, base, open)
    ensures OpenFrom(MovedAll(mem, d), p, bound + d, base + d, open)
    decreases |open|
  {
    if p != NULL { OpenMoved(mem, mem[p].next, mem[p].v.addr, base, open - {p}, d); }
  }

  lemma MovedKeeps(mem: map<nat, UpVal>, mem': map<nat, UpVal>, p: nat, bound: int, base: int, base': int,
                   open: set<nat>,
                   closures: map<nat, seq<nat>>, brk: nat)
    requires mem' == MovedAll(mem, base' - base) && OpenFrom(mem, p, bound, base, open) && OpenAll(mem, open)
    requires Refs(mem, closures) && Allocated(mem, closures, brk)
    ensures OpenFrom(mem', p, bound - base + base', base', open) && OpenAll(mem', open) && Refs(mem', closures) &&
            Allocated(mem', closures, brk)
  {
    hide References;
    OpenMoved(mem, p, bound, base, open, base' - base);
  }

  lemma SharedSlots(a: Abs, mem: map<nat, UpVal>, stack: seq<V>, base: int)
    requires Shared(a, mem, stack, base)
    ensures forall i :: 0 <= i < |a.slots| ==> a.slots[i] in a.cells
  {}

  /** The abstract state with another number of slots. */
  ghost function Grown(a: Abs, size: nat): (a': Abs)
    ensures Resized(a, a', size) && a'.cells.Keys >= a.cells.Keys
    ensures forall i, j :: |a.slots| <= i < j < size ==> a'.slots[i] != a'.slots[j]
  {
    if size <= |a.slots| then a.(slots := a.slots[..size])
    else
      var n := NewCells(a.cells, size - |a.slots|);
      var slots := a.slots + n;
      assert forall i :: |a.slots| <= i < size ==> slots[i] == n[i - |a.slots|];
      Abs(Extended(a.cells, n, seq(|n|, i => Nil)), slots, a.vars)
  }

  lemma GrownShared(a: Abs, mem: map<nat, UpVal>, mem': map<nat, UpVal>, stack: seq<V>, base: int, base': int,
                    stack': seq<V>, size: nat)
    requires Shared(a, mem, stack, base) && mem' == MovedAll(mem, base' - base) && |stack'| == size
    requires forall i :: 0 <= i < size ==> stack'[i] == if i < |stack| then stack[i] else Nil
    requires forall u :: u in mem && mem[u].v.OnStack? ==> mem[u].v.addr < base + size
    ensures Shared(Grown(a, size), mem', stack', base')
  {
    GrownSlots(a, stack, stack', size);
    GrownVars(a, mem, mem', stack, base, base', stack', size);
    hide SlotsHeld, VarsFound;
  }

  lemma GrownSlots(a: Abs, stack: seq<V>, stack': seq<V>, size: nat)
    requires |a.slots| == |stack| && |stack'| == size && SlotsHeld(a, stack)
    requires forall i :: 0 <= i < size ==> stack'[i] == if i < |stack| then stack[i] else Nil
    ensures var a' := Grown(a, size); |a'.slots| == size && SlotsHeld(a', stack')
  {}

  lemma GrownVars(a: Abs, mem: map<nat, UpVal>, mem': map<nat, UpVal>, stack: seq<V>, base: int, base': int,
                  stack': seq<V>, size: nat)
    requires Shared(a, mem, stack, base) && mem' == MovedAll(mem, base' - base) && |stack'| == size
    requires forall u :: u in mem && mem[u].v.OnStack? ==> mem[u].v.addr < base + size
    ensures var a' := Grown(a, size);
            a'.vars == a.vars && mem'.Keys == mem.Keys && |a'.slots| == size &&
            VarsFound(a', mem', stack', base')
  {
    var a' := Grown(a, size);
    assert |a'.slots| == size;
    forall u | u in mem' ensures VarOk(a', mem'[u], u, stack', base') {
      assert VarOk(a, mem[u], u, stack, base);
      GrownVar(a, mem[u], u, stack, base, base', stack', size);
    }
  }

  lemma GrownVar(a: Abs, x: UpVal, u: nat, stack: seq<V>, base: int, base': int, stack': seq<V>, size: nat)
    requires u in a.vars && |a.slots| == |stack| && |stack'| == size && VarOk(a, x, u, stack, base)
    requires x.v.OnStack? ==> x.v.addr < base + size
    ensures var a' := Grown(a, size);
            u in a'.vars && |a'.slots| == size &&
            VarOk(a', MovedOne(x, base' - base), u, stack', base')
  {}

  // ----- closing -----

  ghost function RenewOne(a: Abs, i: nat): Abs
    requires i < |a.slots| && a.slots[i] in a.cells
  {
    var c := NewCells(a.cells, 1)[0];
    a.(slots := a.slots[i := c], cells := a.cells[c := a.cells[a.slots[i]]])
  }

  /** The slots with new cells from `level` on. */
  ghost function NewSlots(a: Abs, level: nat): (slots: seq<nat>)
    requires level <= |a.slots|
    ensures |slots| == |a.slots| && slots[..level] == a.slots[..level]
    ensures forall i :: level <= i < |slots| ==> slots[i] !in a.cells
    ensures forall i, j :: level <= i < j < |slots| ==> slots[i] != slots[j]
  {
    var n := NewCells(a.cells, |a.slots| - level);
    var slots := a.slots[..level] + n;
    assert forall i :: level <= i < |slots| ==> slots[i] == n[i - level];
    slots
  }

  /** All slots from `level` on in new cells, with the same values. */
  ghost function Refreshed(a: Abs, level: nat): Abs
    requires level <= |a.slots| && forall i :: 0 <= i < |a.slots| ==> a.slots[i] in a.cells
  {
    var slots := NewSlots(a, level);
    Abs(Extended(a.cells, slots[level..],
      seq(|slots| - level, i requires 0 <= i < |slots| - level => a.cells[a.slots[level + i]])), slots, a.vars)
  }

  lemma RefreshedFacts(a: Abs, level: nat)
    requires level <= |a.slots| && forall i :: 0 <= i < |a.slots| ==> a.slots[i] in a.cells
    ensures var a' := Refreshed(a, level);
            && Renewed(a, a', level) && a'.vars == a.vars && |a'.slots| == |a.slots|
            && (forall i :: 0 <= i < |a.slots| ==>
               a'.slots[i] in a'.cells && a'.cells[a'.slots[i]] == a.cells[a.slots[i]])
            && (forall i, j :: level <= i < j < |a.slots| ==> a'.slots[i] != a'.slots[j])
            && (forall i :: 0 <= i < level ==> a'.slots[i] == a.slots[i])
  {
    hide NewSlots, Extended;
    var slots := NewSlots(a, level);
    var n := slots[level..];
    var values := seq(|slots| - level, i requires 0 <= i < |slots| - level => a.cells[a.slots[level + i]]);
    forall i | 0 <= i < level ensures slots[i] == a.slots[i] {
      assert slots[i] == slots[..level][i] && a.slots[i] == a.slots[..level][i];
    }
    forall i | level <= i < |slots| ensures slots[i] == n[i - level] && values[i - level] == a.cells[a.slots[i]] {}
    forall c | c in n ensures c !in a.cells {}
    var cells := Extended(a.cells, n, values);
    forall i | 0 <= i < |slots| ensures slots[i] in cells && cells[slots[i]] == a.cells[a.slots[i]] {
      if i >= level { assert n[i - level] in cells && cells[n[i - level]] == values[i - level]; }
    }
  }

  /** More cells, with values. */
  ghost function Extended(cells: map<nat, V>, n: seq<nat>, values: seq<V>): (r: map<nat, V>)
    requires |values| == |n| && (forall i, j :: 0 <= i < j < |n| ==> n[i] != n[j])
    ensures forall c :: c in r <==> c in cells || c in n
    ensures forall c :: c in cells && c !in n ==> r[c] == cells[c]
    ensures forall i :: 0 <= i < |n| ==> n[i] in r && r[n[i]] == values[i]
  {
    if n == [] then cells else Extended(cells, n[1..], values[1..])[n[0] := values[0]]
  }

  /** While upvalues are closed one by one, variables stay the cells they are. */
  ghost predicate Kept(a0: Abs, a: Abs, m0: map<nat, UpVal>, mem: map<nat, UpVal>, level: nat, closures: map<nat,
                       seq<nat>>)
  {
    && |a.slots| == |a0.slots| && level <= |a0.slots| && a.slots[..level] == a0.slots[..level]
    && (forall c :: c in a0.cells ==> c in a.cells && a.cells[c] == a0.cells[c])
    && (forall u :: u in a.vars ==> u in a0.vars && a.vars[u] == a0.vars[u])
    && (forall u :: u in m0 && References(closures)[u] > 0 ==> u in mem && u in a.vars)
    && m0.Keys == a0.vars.Keys
  }

  lemma KeptSelf(a: Abs, mem: map<nat, UpVal>, closures: map<nat, seq<nat>>)
    requires a.vars.Keys == mem.Keys
    ensures forall level: nat :: level <= |a.slots| ==> Kept(a, a, mem, mem, level, closures)
  {}

  lemma FreeOne(a: Abs, mem: map<nat, UpVal>, stack: seq<V>, base: int, closures: map<nat, seq<nat>>, brk: nat, u: nat)
    requires Shared(a, mem, stack, base) && Refs(mem, closures) && Allocated(mem, closures, brk) && u in mem &&
             mem[u].refcount == 0
    ensures Shared(a.(vars := a.vars - {u}), Without(mem, u), stack, base) && Refs(Without(mem, u), closures) &&
            Allocated(Without(mem, u), closures, brk)
    ensures References(closures)[u] == 0
  {
    forall w | w in Without(mem, u) ensures VarOk(a.(vars := a.vars - {u}), Without(mem, u)[w], w, stack, base) {
      assert VarOk(a, mem[w], w, stack, base);
    }
  }

  lemma CloseOne(a: Abs, mem: map<nat, UpVal>, stack: seq<V>, base: int, closures: map<nat, seq<nat>>, brk: nat, u: nat)
    requires Shared(a, mem, stack, base) && Refs(mem, closures) && Allocated(mem, closures, brk) && u in mem &&
             mem[u].refcount > 0
    requires mem[u].v.OnStack? && 0 <= mem[u].v.addr - base < |stack|
    requires forall w :: w in mem && mem[w].v.OnStack? && w != u ==> mem[w].v.addr != mem[u].v.addr
    ensures var i := mem[u].v.addr - base; i < |a.slots| && a.slots[i] in a.cells
    ensures var i := mem[u].v.addr - base; var mem' := mem[u := mem[u].(value := stack[i], v := Own)];
            Shared(RenewOne(a, i), mem', stack, base) && Refs(mem', closures) && Allocated(mem', closures, brk)
  {
    var i := mem[u].v.addr - base;
    var mem' := mem[u := mem[u].(value := stack[i], v := Own)];
    var a' := RenewOne(a, i);
    assert VarOk(a, mem[u], u, stack, base);
    forall w | w in mem' ensures VarOk(a', mem'[w], w, stack, base) {
      assert VarOk(a, mem[w], w, stack, base);
    }
  }

  lemma CloseList(mem: map<nat, UpVal>, mem': map<nat, UpVal>, bound: int, base: int, open: set<nat>, u: nat)
    requires OpenFrom(mem, u, bound, base, open) && OpenAll(mem, open) && u != NULL
    requires forall w :: w in mem && w != u ==> w in mem' && mem'[w] == mem[w]
    requires forall w :: w in mem' ==> w in mem && (w == u ==> mem'[w].v.Own?)
    ensures OpenFrom(mem', mem[u].next, bound, base, open - {u}) && OpenAll(mem', open - {u}) && u in open &&
            |open - {u}| < |open|
    ensures mem[u].next != NULL ==> mem[u].next in mem' && mem'[mem[u].next].v.OnStack?
  {
    OpenMembers(mem, u, bound, base, open);
    OpenMembers(mem, mem[u].next, mem[u].v.addr, base, open - {u});
    OpenFrame(mem, mem', mem[u].next, mem[u].v.addr, bound, base, open - {u});
  }

  lemma OthersBelow(mem: map<nat, UpVal>, u: nat, bound: int, base: int, open: set<nat>)
    requires OpenFrom(mem, u, bound, base, open) && OpenAll(mem, open) && u != NULL
    ensures u in mem && mem[u].v.OnStack? && forall w :: w in mem && mem[w].v.OnStack? && w != u ==>
            mem[w].v.addr < mem[u].v.addr
  {
    OpenMembers(mem, u, bound, base, open);
  }

  lemma FreeFirst(a0: Abs, a: Abs, m0: map<nat, UpVal>, mem: map<nat, UpVal>, stack: seq<V>, base: int, level: nat,
                  closures: map<nat, seq<nat>>, brk: nat, u: nat)
    requires Kept(a0, a, m0, mem, level, closures) && Shared(a, mem, stack, base) && Refs(mem, closures) &&
             Allocated(mem, closures, brk)
    requires u in mem && mem[u].refcount == 0
    ensures var a', mem' := a.(vars := a.vars - {u}), Without(mem, u);
            Kept(a0, a', m0, mem', level, closures) && Shared(a', mem', stack, base) && Refs(mem', closures) &&
              Allocated(mem', closures, brk)
  {
    hide Kept, Shared, Refs, Allocated, References, Without;
    FreeOne(a, mem, stack, base, closures, brk, u);
    KeptFree(a0, a, m0, mem, level, closures, u);
  }

  lemma KeepFirst(a0: Abs, a: Abs, m0: map<nat, UpVal>, mem: map<nat, UpVal>, stack: seq<V>, base: int, open: set<nat>,
                  level: nat,
                  closures: map<nat, seq<nat>>, brk: nat, u: nat)
    requires Kept(a0, a, m0, mem, level, closures) && OpenFrom(mem, u, base + |stack|, base, open) &&
             OpenAll(mem, open) && u != NULL
    requires Shared(a, mem, stack, base) && Refs(mem, closures) && Allocated(mem, closures, brk) && u in mem &&
             mem[u].refcount > 0
    requires mem[u].v.OnStack? && base + level <= mem[u].v.addr < base + |stack|
    ensures var i := mem[u].v.addr - base; i < |a.slots| && a.slots[i] in a.cells
    ensures var i := mem[u].v.addr - base;
            var a', mem' := RenewOne(a, i), mem[u := mem[u].(value := stack[i], v := Own)];
            && Kept(a0, a', m0, mem', level, closures) && Shared(a', mem', stack, base) && Refs(mem', closures) &&
               Allocated(mem', closures, brk)
            && OpenFrom(mem', mem[u].next, base + |stack|, base, open - {u}) && OpenAll(mem', open - {u}) &&
               u in open && |open - {u}| < |open|
            && (mem[u].next != NULL ==> mem[u].next in mem' && mem'[mem[u].next].v.OnStack?) && |a'.slots| == |a.slots|
  {
    hide Kept, OpenFrom, OpenAll, Shared, Refs, Allocated, References, RenewOne;
    var i := mem[u].v.addr - base;
    OthersBelow(mem, u, base + |stack|, base, open);
    CloseOne(a, mem, stack, base, closures, brk, u);
    KeptClose(a0, a, m0, mem, level, closures, u, i, stack[i]);
    CloseList(mem, mem[u := mem[u].(value := stack[i], v := Own)], base + |stack|, base, open, u);
  }

  lemma KeptFree(a0: Abs, a: Abs, m0: map<nat, UpVal>, mem: map<nat, UpVal>, level: nat, closures: map<nat, seq<nat>>,
                 u: nat)
    requires Kept(a0, a, m0, mem, level, closures) && References(closures)[u] == 0
    ensures Kept(a0, a.(vars := a.vars - {u}), m0, Without(mem, u), level, closures)
  {}

  lemma KeptClose(a0: Abs, a: Abs, m0: map<nat, UpVal>, mem: map<nat, UpVal>, level: nat, closures: map<nat, seq<nat>>,
                  u: nat, i: nat, v: V)
    requires Kept(a0, a, m0, mem, level, closures) && u in mem && level <= i < |a.slots| && a.slots[i] in a.cells
    ensures Kept(a0, RenewOne(a, i), m0, mem[u := mem[u].(value := v, v := Own)], level, closures) &&
            |RenewOne(a, i).slots| == |a.slots|
  {}

  lemma KeptRenewed(a0: Abs, a: Abs, m0: map<nat, UpVal>, mem: map<nat, UpVal>, level: nat, closures: map<nat,
                    seq<nat>>)
    requires Kept(a0, a, m0, mem, level, closures) && forall i :: 0 <= i < |a.slots| ==> a.slots[i] in a.cells
    ensures level <= |a.slots| && Renewed(a0, Refreshed(a, level), level) && |Refreshed(a, level).slots| == |a.slots|
    ensures var a' := Refreshed(a, level);
            forall u :: u in m0 && References(closures)[u] > 0 ==>
              u in mem && u in a0.vars && u in a'.vars && a'.vars[u] == a0.vars[u]
  {
    hide References, Refreshed;
    RefreshedFacts(a, level);
  }

  lemma NoneOpen(mem: map<nat, UpVal>, p: nat, bound: int, base: int, open: set<nat>, level: int)
    requires OpenFrom(mem, p, bound, base, open) && OpenAll(mem, open) &&
             (p != NULL ==> p in mem && mem[p].v.OnStack? && mem[p].v.addr < level)
    ensures forall u :: u in mem && mem[u].v.OnStack? ==> mem[u].v.addr < level
  {
    OpenMembers(mem, p, bound, base, open);
  }

  lemma RenewAll(a: Abs, mem: map<nat, UpVal>, stack: seq<V>, base: int, level: nat)
    requires Shared(a, mem, stack, base) && level <= |stack|
    requires forall u :: u in mem && mem[u].v.OnStack? ==> mem[u].v.addr < base + level
    ensures |a.slots| == |stack| && (forall i :: 0 <= i < |a.slots| ==> a.slots[i] in a.cells) &&
            Shared(Refreshed(a, level), mem, stack, base)
  {
    var a' := Refreshed(a, level);
    RefreshedFacts(a, level);
    forall u | u in mem ensures VarOk(a', mem[u], u, stack, base) {
      assert VarOk(a, mem[u], u, stack, base);
    }
  }

  lemma LinkedAll(mem: map<nat, UpVal>, open: set<nat>, u: nat, level: int, prev: nat, next: nat)
    requires OpenAll(mem, open) && (prev != NULL ==> prev in mem && prev != u)
    ensures OpenAll(Linked(mem, u, level, prev, next), open + {u})
  {}

  lemma LinkedShared(a: Abs, mem: map<nat, UpVal>, stack: seq<V>, base: int, open: set<nat>, u: nat, level: int,
                     prev: nat, next: nat)
    requires Shared(a, mem, stack, base) && OpenAll(mem, open) && u !in mem && base <= level < base + |stack|
    requires prev != NULL ==> prev in mem && prev != u
    requires forall w :: w in open && w in mem && mem[w].v.OnStack? ==> mem[w].v.addr != level
    ensures |a.slots| == |stack| && Shared(a.(vars := a.vars[u := a.slots[level - base]]),
            Linked(mem, u, level, prev, next), stack, base)
  {
    var a', mem' := a.(vars := a.vars[u := a.slots[level - base]]), Linked(mem, u, level, prev, next);
    forall w | w in mem ensures a.vars[w] != a.slots[level - base] {
      assert VarOk(a, mem[w], w, stack, base);
    }
    forall w | w in mem' ensures VarOk(a', mem'[w], w, stack, base) {
      if w != u { assert VarOk(a, mem[w], w, stack, base); }
    }
  }

  lemma LinkedRefs(mem: map<nat, UpVal>, closures: map<nat, seq<nat>>, u: nat, level: int, prev: nat, next: nat)
    requires Refs(mem, closures) && u !in mem && (prev != NULL ==> prev in mem && prev != u)
    ensures Refs(Linked(mem, u, level, prev, next), closures)
  {}

  lemma SlotShared(a: Abs, mem: map<nat, UpVal>, stack: seq<V>, base: int, i: nat, v: V)
    requires Shared(a, mem, stack, base) && i < |stack|
    ensures Shared(WriteSlot(a, i, v), mem, stack[i := v], base)
  {
    forall u | u in mem ensures VarOk(WriteSlot(a, i, v), mem[u], u, stack[i := v], base) {
      assert VarOk(a, mem[u], u, stack, base);
    }
  }

  lemma OwnShared(a: Abs, mem: map<nat, UpVal>, stack: seq<V>, base: int, u: nat, v: V)
    requires Shared(a, mem, stack, base) && u in mem && mem[u].v.Own?
    ensures Shared(WriteVar(a, u, v), mem[u := mem[u].(value := v)], stack, base)
  {
    assert VarOk(a, mem[u], u, stack, base);
    forall w | w in mem ensures VarOk(WriteVar(a, u, v), mem[u := mem[u].(value := v)][w], w, stack, base) {
      assert VarOk(a, mem[w], w, stack, base);
    }
  }
}
