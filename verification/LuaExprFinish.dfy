/** Negating an expression, comparing two, and bringing a value to a register. */
module LuaExprFinish {
  import opened LuaCode
  import opened LuaExpr
  import opened LuaExprLemmas
  import opened LuaExprSteps

  // ----- not -----

  /** No test before a jump of `s` yields a value any more. */
  ghost predicate Quieting(code: seq<Instr>, code': seq<Instr>, s: set<nat>)
  {
    |code'| == |code| && forall p :: 0 <= p < |code| ==> code'[p] == QuietedAt(code, s, p)
  }

  function QuietedAt(code: seq<Instr>, s: set<nat>, p: nat): Instr
    requires p < |code|
  {
    if p + 1 in s then Quieted(code[p]) else code[p]
  }

  lemma QuietingBase(c: Start, code: seq<Instr>, code': seq<Instr>, k: seq<Value>, l: Lists)
    requires Base(c, code, k, l) && Quieting(code, code', l.t + l.f)
    ensures Base(c, code', k, Lists(l.f, l.t, l.j)) && EntryKept(c, code, code')
    ensures forall j :: j in l.t || j in l.f ==> code'[j] == code[j] && code'[j - 1] == Quieted(code[j - 1])
  {
    assert forall j :: j in l.t + l.f ==> OpenAt(code, c.Lo(), j);
    forall p | 0 <= p < c.Lo() ensures FrameAt(c, code', p) {
      assert FrameAt(c, code, p);
    }
    if |code| > c.Lo() {
      forall j | j in l.j ensures HereAt(code', c.Lo(), j) {
        assert HereAt(code, c.Lo(), j);
      }
    }
  }

  /** Up to `end`, the jumps `j` now lead to `end`, and no test before a jump of `s` yields a value. */
  ghost predicate Negated(code: seq<Instr>, code': seq<Instr>, j: set<nat>, s: set<nat>, end: nat)
  {
    && end <= |code| && end <= |code'| && (j == {} || end == |code|)
    && forall p :: 0 <= p < end ==> code'[p] == if p + 1 in s then Quieted(SettledAt(code, j, end, p))
       else SettledAt(code, j, end, p)
  }

  lemma NegatedRewritten(c: Start, code: seq<Instr>, code': seq<Instr>, k: seq<Value>, l: Lists, j: set<nat>, end: nat)
    requires Base(c, code, k, l) && Negated(code, code', j, l.t + l.f, end) && c.Lo() <= end
    requires j == l.j || j == {}
    requires l.j == {} || end == |code|
    ensures RewrittenOf(c, code, code', end, end, l, Lists(l.f, l.t, l.j - j))
  {
    var l' := Lists(l.f, l.t, l.j - j);
    forall p | c.Lo() <= p < end
      ensures RewrittenAt(code, code', p, c.Lo(), end, end, l.t + l.f, l.j, l'.t + l'.f, l'.j)
    {
      assert p in l.t + l.f ==> OpenAt(code, c.Lo(), p);
      assert p in l.j ==> HereAt(code, c.Lo(), p);
      assert p + 1 in l.t + l.f ==> OpenAt(code, c.Lo(), p + 1);
      assert p + 1 in l.j ==> HereAt(code, c.Lo(), p + 1);
    }
  }

  /** `kind'` describes the negation of what `kind` describes. */
  ghost predicate Opposite(kind: Kind, code: seq<Instr>, kind': Kind, code': seq<Instr>, k: seq<Value>)
  {
    forall ord: Order, r: Regs, v: Value :: Denotes(kind, code, k, ord, r, v) ==>
      Denotes(kind', code', k, ord, r, Bool(!Truthy(v)))
  }

  lemma NegateMeans(c: Start, code: seq<Instr>, code': seq<Instr>, k: seq<Value>, l: Lists, j: set<nat>, kind: Kind,
                    kind': Kind, x: Expr)
    requires Base(c, code, k, l) && Means(c, code, k, l, Want(kind), x) && KindOk(c, code, k, l, kind)
    requires End(kind', |code'|) == End(kind, |code|) <= |code'| &&
             Negated(code, code', j, l.t + l.f, End(kind, |code|))
    requires j == l.j || j == {}
    requires Base(c, code', k, Lists(l.f, l.t, l.j - j)) && EntryKept(c, code, code') &&
             Opposite(kind, code, kind', code', k)
    requires forall j :: j in l.t || j in l.f ==> code'[j - 1] == Quieted(code[j - 1])
    ensures Means(c, code', k, Lists(l.f, l.t, l.j - j), Want(kind'), NotOf(x))
  {
    hide Run, RewrittenOf, ContinueOf, Same, Carries, Framed, RunOf, Right, Entry, EntryKept, Denotes, Negated;
    var l' := Lists(l.f, l.t, l.j - j);
    var end := End(kind, |code|);
    NegatedRewritten(c, code, code', k, l, j, end);
    forall ord: Order, r: Regs | Entry(c, code', r)
      ensures Right(c, code', k, ord, l', Want(kind'), Eval(NotOf(x), r, ord), r, RunOf(c, code', k, ord, l', end, r))
    {
      EntryBack(c, code, code', r);
      var o := Resume(c, code, code', k, k, ord, l, l', Want(kind), end, x, r);
      NegateRight(c, code, code', k, ord, l, j, kind, kind', Eval(x, r, ord), r, o);
      if o.Fall? {
        FallEnds(code', k, ord, end, l', o);
      } else {
        RightExit(c, code, k, ord, l, Want(kind), Eval(x, r, ord), r, o);
        assert OpenAt(code', c.Lo(), o.at);
        ExitStays(c, code', k, ord, end, end, l', o);
      }
    }
    MeansIntro(c, code', k, l', Want(kind'), NotOf(x));
  }

  lemma RightExit(c: Start, code: seq<Instr>, k: seq<Value>, ord: Order, l: Lists, g: Goal, v: Value, r: Regs,
                  o: Outcome)
    requires Right(c, code, k, ord, l, g, v, r, o) && !o.Fall?
    ensures o.Exit? && (o.at in l.t || o.at in l.f) && OpenAt(code, c.Lo(), o.at)
  {}

  lemma NegateRight(c: Start, code: seq<Instr>, code': seq<Instr>, k: seq<Value>, ord: Order, l: Lists, j: set<nat>,
                    kind: Kind, kind': Kind, v: Value, r: Regs, o: Outcome)
    requires Base(c, code, k, l) && Base(c, code', k, Lists(l.f, l.t, l.j - j)) && Opposite(kind, code, kind', code', k)
    requires forall j :: j in l.t || j in l.f ==> code'[j - 1] == Quieted(code[j - 1])
    requires Right(c, code, k, ord, l, Want(kind), v, r, o)
    ensures Right(c, code', k, ord, Lists(l.f, l.t, l.j - j), Want(kind'), Bool(!Truthy(v)), r, o)
  {
    hide Same, Denotes, Framed;
    if o.Exit? {
      assert OpenAt(code', c.Lo(), o.at);
    }
  }

  // ----- to a register -----

  /** The instruction puts what `kind` describes in `reg`. */
  ghost predicate Loads(kind: Kind, code: seq<Instr>, k: seq<Value>, k': seq<Value>, i: Instr, reg: nat)
  {
    && OperandsIn(i, k') && !i.Jmp? && !IsTest(i) && Next(i, 0) == 1
    && forall ord: Order, r: Regs, v: Value :: Denotes(kind, code, k, ord, r, v) ==> After(i, k', r) == Set(r, reg, v)
  }

  lemma LoadMeans(c: Start, code: seq<Instr>, code': seq<Instr>, k: seq<Value>, k': seq<Value>, l: Lists, kind: Kind,
                  reg: nat, x: Expr)
    requires Base(c, code, k, l) && Means(c, code, k, l, Want(kind), x) && KindOk(c, code, k, l, kind) && k <= k'
    requires Extends(code, code', l.j, End(kind, |code|)) && |code'| == End(kind, |code|) + 1
    requires Loads(kind, code, k, k', code'[|code'| - 1], reg) && c.fr <= reg < NO_REG &&
             OpenBefore(l, End(kind, |code|))
    ensures Base(c, code', k', Lists(l.t, l.f, {})) && Means(c, code', k', Lists(l.t, l.f, {}), Want(VNonReloc(reg)), x)
  {
    hide Run, RewrittenOf, ContinueOf, Same, Carries, Base, RunOf, Right, Entry, EntryKept, Denotes, Extends, Loads,
      OpenAt;
    var l' := Lists(l.t, l.f, {});
    var end := End(kind, |code|);
    ExtendsBase(c, code, code', k, k', l, end);
    ExtendsRewritten(c, code, code', k, l, l', end, end + 1);
    forall ord: Order, r: Regs | Entry(c, code', r)
      ensures Right(c, code', k', ord, l', Want(VNonReloc(reg)), Eval(x, r, ord), r,
              RunOf(c, code', k', ord, l', end + 1, r))
    {
      EntryBack(c, code, code', r);
      var o := Resume(c, code, code', k, k', ord, l, l', Want(kind), end + 1, x, r);
      LoadRuns(c, code, code', k, k', ord, l, kind, reg, Eval(x, r, ord), r, o);
    }
    MeansIntro(c, code', k', l', Want(VNonReloc(reg)), x);
  }

  lemma LoadRuns(c: Start, code: seq<Instr>, code': seq<Instr>, k: seq<Value>, k': seq<Value>, ord: Order, l: Lists,
                 kind: Kind,
                 reg: nat, v: Value, r: Regs, o: Outcome)
    requires 0 <= End(kind, |code|) && |code'| == End(kind, |code|) + 1 && c.fr <= reg < NO_REG
    requires Loads(kind, code, k, k', code'[|code'| - 1], reg)
    requires Right(c, code, k, ord, l, Want(kind), v, r, o) && (o.Exit? ==> o.at < End(kind, |code|))
    requires forall j :: j in l.t || j in l.f ==>
             OpenAt(code', c.Lo(), j) && 0 < j < |code| && code'[j - 1] == code[j - 1]
    ensures Right(c, code', k', ord, Lists(l.t, l.f, {}), Want(VNonReloc(reg)), v, r,
                  ContinueOf(code', k', ord, End(kind, |code|), |code'|, Lists(l.t, l.f, {}), o))
  {
    hide After, Run;
    if o.Exit? {
      ExitStays(c, code', k', ord, End(kind, |code|), |code'|, Lists(l.t, l.f, {}), o);
    } else {
      RunPlain(code', k', ord, End(kind, |code|), l.t + l.f, {}, o.regs);
      assert Denotes(kind, code, k, ord, o.regs, v);
    }
  }

  lemma RunPlain(code: seq<Instr>, k: seq<Value>, ord: Order, pc: nat, open: set<nat>, here: set<nat>, r: Regs)
    requires pc + 1 == |code| && OperandsIn(code[pc], k) && !code[pc].Jmp? && !IsTest(code[pc]) &&
             Next(code[pc], 0) == 1
    ensures Run(code, k, ord, pc, pc + 1, open, here, r) == Fall(After(code[pc], k, r))
  {}

  lemma LoadsNil(code: seq<Instr>, k: seq<Value>, reg: nat)
    ensures Loads(VNil, code, k, k, LoadNil(reg, 0), reg)
  {}

  lemma LoadsBool(code: seq<Instr>, k: seq<Value>, reg: nat, b: bool)
    ensures Loads(if b then VTrue else VFalse, code, k, k, LoadBool(reg, b, false), reg)
  {}

  lemma LoadsConstant(code: seq<Instr>, k: seq<Value>, k': seq<Value>, reg: nat, i: nat)
    requires i < |k'|
    ensures k <= k' && i < |k| ==> Loads(VK(i), code, k, k', LoadK(reg, i), reg)
    ensures k'[i].Int? ==> Loads(VKInt(k'[i].i), code, k, k', LoadK(reg, i), reg)
  {}

  lemma LoadsMove(code: seq<Instr>, k: seq<Value>, reg: nat, b: nat)
    ensures Loads(VNonReloc(b), code, k, k, Move(reg, b), reg)
  {}

  lemma LoadsNot(code: seq<Instr>, k: seq<Value>, reg: nat, pc: nat)
    requires pc < |code| && code[pc].Not?
    ensures Loads(VRelocable(pc), code, k, k, Not(reg, code[pc].b), reg)
  {}

  /** The instruction before the expression loads nil to the register as well. */
  lemma MergeNilMeans(c: Start, code: seq<Instr>, i: Instr, k: seq<Value>, l: Lists, reg: nat, x: Expr)
    requires Base(c, code, k, l) && Means(c, code, k, l, Want(VNil), x) && l.j == {}
    requires |code| == c.Lo() > c.lasttarget && code[c.Lo() - 1].LoadNil?
    requires MoreNils(code[c.Lo() - 1], i, c.fr) && InRange(reg, i) && reg < NO_REG
    ensures Base(c, code[c.Lo() - 1 := i], k, l) && Means(c, code[c.Lo() - 1 := i], k, l, Want(VNonReloc(reg)), x)
    ensures NoLists(l)
  {
    var code' := code[c.Lo() - 1 := i];
    assert forall j :: j in l.t || j in l.f ==> OpenAt(code, c.Lo(), j);
    forall p | 0 <= p < c.Lo() ensures FrameAt(c, code', p) {
      assert FrameAt(c, code, p);
    }
    forall ord: Order, r: Regs | Entry(c, code', r)
      ensures Right(c, code', k, ord, l, Want(VNonReloc(reg)), Eval(x, r, ord), r,
              RunOf(c, code', k, ord, l, |code|, r))
    {
      EntryBack(c, code, code', r);
      assert Right(c, code, k, ord, l, Want(VNil), Eval(x, r, ord), r,
             Run(code, k, ord, c.Lo(), |code|, l.t + l.f, l.j, r));
    }
  }

  // ----- comparing -----

  predicate IsOperand(kind: Kind, fr: nat) { kind.VK? || (kind.VNonReloc? && kind.info < fr && kind.info < 256) }

  /** The instruction compares as `op` does what the two kinds describe. */
  ghost predicate Compares(op: BinOpr, kind1: Kind, kind2: Kind, k: seq<Value>, i: Instr)
    requires !IsLogical(op)
  {
    && IsComparison(i) && OperandsIn(i, k)
    && forall ord: Order, r: Regs, v1: Value, v2: Value ::
         Denotes(kind1, [], k, ord, r, v1) && Denotes(kind2, [], k, ord, r, v2) ==>
           Taken(i, k, r, ord) == Compare(op, v1, v2, ord)
  }

  lemma OperandKept(kind: Kind, code: seq<Instr>, k: seq<Value>, k': seq<Value>, ord: Order, r: Regs, r': Regs, fr: nat,
                    v: Value)
    requires IsOperand(kind, fr) && Denotes(kind, code, k, ord, r, v) && k <= k' && Same(r, r', fr)
    ensures Denotes(kind, [], k', ord, r', v)
  {}

  ghost predicate NoLists(l: Lists) { l.t == {} && l.f == {} }

  lemma RightFalls(c: Start, code: seq<Instr>, k: seq<Value>, ord: Order, l: Lists, kind: Kind, v: Value, r: Regs,
                   o: Outcome)
    requires Right(c, code, k, ord, l, Want(kind), v, r, o) && NoLists(l)
    ensures o.Fall? && Same(r, o.regs, c.fr) && Denotes(kind, code, k, ord, o.regs, v)
  {}

  /** Both operands are there when the code of the second has run. */
  lemma BothRun(c: Start, l1: Lists, kind1: Kind, x1: Expr, c2: Start, code: seq<Instr>, k: seq<Value>, l2: Lists,
                kind2: Kind, x2: Expr,
                ord: Order, r: Regs) returns (r2: Regs)
    requires Follows(c, l1, c2) && Base(c2, code, k, l2) && NoLists(l1) && NoLists(l2)
    requires c2.k <= k && Scoped(x2, c.nactvar) && IsOperand(kind1, c2.fr) && IsOperand(kind2, 256)
    requires Means(c, c2.code, c2.k, l1, Want(kind1), x1) && Means(c2, code, k, l2, Want(kind2), x2)
    requires RewrittenOf(c, c2.code, code, c2.Lo(), |code|, l1, Join(l1, l2)) && EntryKept(c, c2.code, code) &&
             Entry(c, code, r)
    ensures RunOf(c, code, k, ord, Join(l1, l2), |code|, r) == Fall(r2) && Same(r, r2, c.fr)
    ensures Denotes(kind1, [], k, ord, r2, Eval(x1, r, ord)) && Denotes(kind2, [], k, ord, r2, Eval(x2, r, ord))
  {
    hide RewrittenOf, ListsOk, Framed, Eval, Scoped, Sealed, Labelled, Means, EntryKept, Denotes, Right, Leap;
    EntryBack(c, c2.code, code, r);
    var o1 := Resume(c, c2.code, code, c2.k, k, ord, l1, Join(l1, l2), Want(kind1), |code|, x1, r);
    RightFalls(c, c2.code, c2.k, ord, l1, kind1, Eval(x1, r, ord), r, o1);
    EntrySecond(c, l1, c2, code, r, o1.regs);
    EvalSame(x2, r, o1.regs, ord, c.nactvar, c.fr);
    var o2 := SecondRuns(c, l1, c2, code, k, ord, l2, Want(kind2), x2, o1.regs);
    RightFalls(c2, code, k, ord, l2, kind2, Eval(x2, r, ord), o1.regs, o2);
    r2 := o2.regs;
    OperandKept(kind1, c2.code, c2.k, k, ord, o1.regs, r2, c2.fr, Eval(x1, r, ord));
    OperandKept(kind2, code, k, k, ord, r2, r2, 256, Eval(x2, r, ord));
  }

  lemma CompareMeans(c: Start, l1: Lists, kind1: Kind, x1: Expr, c2: Start, code: seq<Instr>, k: seq<Value>, l2: Lists,
                     kind2: Kind, x2: Expr,
                     code': seq<Instr>, op: BinOpr)
    requires Follows(c, l1, c2) && Base(c2, code, k, l2) && NoLists(l1) && NoLists(l2) && !IsLogical(op)
    requires c2.k <= k && Scoped(x2, c.nactvar) && IsOperand(kind1, c2.fr) && IsOperand(kind2, 256)
    requires Means(c, c2.code, c2.k, l1, Want(kind1), x1) && Means(c2, code, k, l2, Want(kind2), x2)
    requires Extends(code, code', l2.j, |code|) && |code'| == |code| + 2 && Compares(op, kind1, kind2, k, code'[|code|])
    ensures Base(c, code', k, Lists({}, {}, {})) &&
            Means(c, code', k, Lists({}, {}, {}), Want(VJmp(|code'| - 1)), Binary(op, x1, x2))
  {
    hide RewrittenOf, ListsOk, Framed, Eval, Scoped, Means, EntryKept, Denotes, Right, Leap, Run, Base, Follows,
      Extends, Entry,
         IsOperand, Compares, Taken, RunOf;
    var l, l', end := Join(l1, l2), Lists({}, {}, {}), |code|;
    assert l.t == {} && l.f == {};
    JoinBase(c, l1, c2, code, k, l2);
    StartsBefore(c, l1, c2, code, k, l2);
    JoinRewritten(c, l1, c2, code, k, l2, end);
    ExtendsBase(c, code, code', k, k, l, end);
    ExtendsRewritten(c, code, code', k, l, l', end, end);
    forall ord: Order, r: Regs | Entry(c, code', r)
      ensures Right(c, code', k, ord, l', Want(VJmp(end + 1)), Eval(Binary(op, x1, x2), r, ord), r,
              RunOf(c, code', k, ord, l', end, r))
    {
      EntryBack(c, code, code', r);
      var r2 := BothRun(c, l1, kind1, x1, c2, code, k, l2, kind2, x2, ord, r);
      RunExtended(c, code, code', k, ord, l, l', r, r2);
      ComparesRight(c, code', k, ord, l', kind1, kind2, op, x1, x2, end, r, r2);
    }
    MeansIntro(c, code', k, l', Want(VJmp(end + 1)), Binary(op, x1, x2));
  }

  lemma StartsBefore(c: Start, l1: Lists, c2: Start, code: seq<Instr>, k: seq<Value>, l2: Lists)
    requires Follows(c, l1, c2) && Base(c2, code, k, l2)
    ensures c.Lo() <= c2.Lo() <= |code|
  {}

  lemma RunExtended(c: Start, code: seq<Instr>, code': seq<Instr>, k: seq<Value>, ord: Order, l: Lists, l': Lists,
                    r: Regs, r2: Regs)
    requires RunOf(c, code, k, ord, l, |code|, r) == Fall(r2) && RewrittenOf(c, code, code', |code|, |code|, l, l') &&
             c.Lo() <= |code|
    ensures RunOf(c, code', k, ord, l', |code|, r) == Fall(r2)
  {
    hide Rewritten, Run;
    RunRewritten(code, code', k, k, ord, c.Lo(), c.Lo(), |code|, |code|, l.t + l.f, l.j, l'.t + l'.f, l'.j, r);
    FallEnds(code', k, ord, |code|, l', Fall(r2));
  }

  lemma ComparesRight(c: Start, code': seq<Instr>, k: seq<Value>, ord: Order, l': Lists, kind1: Kind, kind2: Kind,
                      op: BinOpr,
                      x1: Expr, x2: Expr, end: nat, r: Regs, r2: Regs)
    requires !IsLogical(op) && |code'| == end + 2 && Compares(op, kind1, kind2, k, code'[end]) && Same(r, r2, c.fr)
    requires Denotes(kind1, [], k, ord, r2, Eval(x1, r, ord)) && Denotes(kind2, [], k, ord, r2, Eval(x2, r, ord))
    ensures Right(c, code', k, ord, l', Want(VJmp(end + 1)), Eval(Binary(op, x1, x2), r, ord), r, Fall(r2))
  {
    hide Compare, Taken, Same;
    assert Denotes(VJmp(end + 1), code', k, ord, r2, Bool(Taken(code'[end], k, r2, ord)));
    assert Eval(Binary(op, x1, x2), r, ord) == Bool(Compare(op, Eval(x1, r, ord), Eval(x2, r, ord), ord));
  }

  // ----- the final value of an expression with jumps -----

  /** A test that yields a value made to put it in `reg`. */
  function PatchedTest(i: Instr, reg: nat): Instr
    requires i.TestSet?
  {
    if reg != NO_REG && reg != i.b then TestSet(reg, i.b, i.c) else Test(i.b, i.c)
  }

  function PatchedAt(code: seq<Instr>, s: set<nat>, vtarget: int, reg: nat, dtarget: int, p: nat): Instr
    requires p < |code|
  {
    if p in s then Jmp((if p > 0 && code[p - 1].TestSet? then vtarget else dtarget) - (p + 1))
    else if p + 1 in s && code[p].TestSet? then PatchedTest(code[p], reg) else code[p]
  }

  /** The jumps of `s` lead to `vtarget` when the test before them yields a value, which then goes to `reg`, and else
      to `dtarget`. */
  ghost predicate Patched(code: seq<Instr>, code': seq<Instr>, s: set<nat>, vtarget: int, reg: nat, dtarget: int)
  {
    |code'| == |code| && forall p :: 0 <= p < |code| ==> code'[p] == PatchedAt(code, s, vtarget, reg, dtarget, p)
  }

  function FinishedAt(code: seq<Instr>, l: Lists, reg: nat, pf: int, hi: nat, p: nat): Instr
    requires p < |code|
  {
    if p in l.t || p in l.f then
      Jmp((if p > 0 && code[p - 1].TestSet? then hi else if p in l.t then pf + 1 else pf) - (p + 1))
    else if (p + 1 in l.t || p + 1 in l.f) && code[p].TestSet? then PatchedTest(code[p], reg)
    else code[p]
  }

  /** Patching the jumps to take on false and then those to take on true; code that loads false and true may follow. */
  ghost predicate Finished(code: seq<Instr>, code': seq<Instr>, l: Lists, reg: nat, pf: int)
  {
    |code| <= |code'| && forall p :: 0 <= p < |code| ==> code'[p] == FinishedAt(code, l, reg, pf, |code'|, p)
  }

  ghost predicate AllTestSets(code: seq<Instr>, l: Lists)
  {
    forall j :: (j in l.t || j in l.f) && 0 < j <= |code| ==> code[j - 1].TestSet?
  }

  /** What follows the code of the expression: nothing, if all its tests yield values, or code that loads false and
      true, which a value that is already there jumps over. */
  ghost predicate Tail(code: seq<Instr>, code': seq<Instr>, l: Lists, kind: Kind, reg: nat, pf: int, j: set<nat>)
  {
    var h := |code|;
    || (kind == VNonReloc(reg) && |code'| == h && AllTestSets(code, l) && j == l.j)
    || (kind == VNonReloc(reg) && |code'| == h + 3 && pf == h + 1 && code'[h].Jmp? && LoadsBoth(code', pf, reg) &&
       j == l.j + {h})
    || (kind == VFalse && |code'| == h + 2 && pf == h && LoadsBoth(code', pf, reg) && j == {} && l.j == {})
  }

  ghost predicate LoadsBoth(code: seq<Instr>, pf: int, reg: nat)
  {
    0 <= pf && pf + 2 == |code| && code[pf] == LoadBool(reg, false, true) && code[pf + 1] == LoadBool(reg, true, false)
  }

  lemma FinishBase(c: Start, code: seq<Instr>, code': seq<Instr>, k: seq<Value>, l: Lists, kind: Kind, reg: nat,
                   pf: int, j: set<nat>)
    requires Base(c, code, k, l) && Finished(code, code', l, reg, pf) && Tail(code, code', l, kind, reg, pf, j)
    requires c.Lo() < |code| && !IsTest(code[|code| - 1])
    ensures Base(c, code', k, Lists({}, {}, j)) && EntryKept(c, code, code')
  {
    assert forall p :: p in l.t + l.f ==> OpenAt(code, c.Lo(), p);
    assert forall p :: p in l.j ==> HereAt(code, c.Lo(), p);
    forall p | 0 <= p < c.Lo() ensures FrameAt(c, code', p) {
      assert FrameAt(c, code, p);
    }
    forall p | p in j ensures HereAt(code', c.Lo(), p) {
    }
  }

  lemma FinishRewritten(c: Start, code: seq<Instr>, code': seq<Instr>, k: seq<Value>, l: Lists, kind: Kind, reg: nat,
                        pf: int, j: set<nat>)
    requires Base(c, code, k, l) && Finished(code, code', l, reg, pf) && Tail(code, code', l, kind, reg, pf, j)
    requires c.Lo() < |code|
    ensures RewrittenOf(c, code, code', |code|, |code'|, l, Lists({}, {}, j))
  {
    var l' := Lists({}, {}, j);
    assert l'.t + l'.f == {};
    assert forall p :: p in l.t + l.f ==> OpenAt(code, c.Lo(), p);
    assert forall p :: p in l.j ==> HereAt(code, c.Lo(), p);
    forall p | c.Lo() <= p < |code|
      ensures RewrittenAt(code, code', p, c.Lo(), |code|, |code'|, l.t + l.f, l.j, l'.t + l'.f, j)
    {
    }
  }

  lemma RunLoads(code: seq<Instr>, k: seq<Value>, ord: Order, pf: nat, here: set<nat>, reg: nat, r: Regs)
    requires LoadsBoth(code, pf, reg)
    ensures Run(code, k, ord, pf, |code|, {}, here, r) == Fall(Set(r, reg, Bool(false)))
    ensures Run(code, k, ord, pf + 1, |code|, {}, here, r) == Fall(Set(r, reg, Bool(true)))
  {}

  ghost predicate Arrived(c: Start, reg: nat, v: Value, r: Regs, o: Outcome)
  {
    o.Fall? && Same(r, o.regs, c.fr) && Reg(o.regs, reg) == v
  }

  lemma FinishExit(c: Start, code: seq<Instr>, code': seq<Instr>, k: seq<Value>, ord: Order, l: Lists, g: Goal,
                   kind: Kind, reg: nat, pf: int,
                   j: set<nat>, v: Value, r: Regs, o: Outcome)
    requires Base(c, code, k, l) && Finished(code, code', l, reg, pf) && Tail(code, code', l, kind, reg, pf, j) &&
             c.Lo() < |code|
    requires c.fr <= reg < NO_REG && o.Exit? && Right(c, code, k, ord, l, g, v, r, o)
    ensures Arrived(c, reg, v, r, ContinueOf(code', k, ord, |code|, |code'|, Lists({}, {}, j), o))
  {
    hide Run, Framed, Reaches;
    var l' := Lists({}, {}, j);
    assert l'.t + l'.f == {};
    var p := o.at;
    assert OpenAt(code, c.Lo(), p);
    assert p !in j;
    if code[p - 1].TestSet? {
      LeapEnds(code', k, ord, p, j, AfterTest(code'[p - 1], o.regs));
    } else {
      RunLoads(code', k, ord, pf, j, reg, o.regs);
    }
  }

  lemma LeapEnds(code: seq<Instr>, k: seq<Value>, ord: Order, p: nat, j: set<nat>, r: Regs)
    requires p < |code| && code[p].Jmp? && Target(code, p) == |code| && p !in j
    ensures Leap(code, k, ord, p, |code|, {}, j, r) == Fall(r)
  {}

  lemma FinishFall(c: Start, code: seq<Instr>, code': seq<Instr>, k: seq<Value>, ord: Order, l: Lists, kind: Kind,
                   reg: nat, pf: int,
                   j: set<nat>, v: Value, r: Regs, o: Outcome)
    requires Finished(code, code', l, reg, pf) && Tail(code, code', l, kind, reg, pf, j)
    requires c.fr <= reg < NO_REG && o.Fall? && Right(c, code, k, ord, l, Want(kind), v, r, o)
    ensures Arrived(c, reg, v, r, ContinueOf(code', k, ord, |code|, |code'|, Lists({}, {}, j), o))
  {
    hide Run, Finished;
    var l' := Lists({}, {}, j);
    assert l'.t + l'.f == {};
    if kind == VFalse {
      RunLoads(code', k, ord, pf, j, reg, o.regs);
    } else if |code'| == |code| {
      FallEnds(code', k, ord, |code|, l', o);
    } else {
      RunOver(code', k, ord, |code|, j, o.regs);
    }
  }

  lemma RunOver(code: seq<Instr>, k: seq<Value>, ord: Order, pc: nat, j: set<nat>, r: Regs)
    requires pc < |code| && code[pc].Jmp? && pc in j
    ensures Run(code, k, ord, pc, |code|, {}, j, r) == Fall(r)
  {}

  lemma FinishMeans(c: Start, code: seq<Instr>, code': seq<Instr>, k: seq<Value>, l: Lists, kind: Kind, reg: nat,
                    pf: int, j: set<nat>, x: Expr)
    requires Base(c, code, k, l) && Means(c, code, k, l, Want(kind), x)
    requires Finished(code, code', l, reg, pf) && Tail(code, code', l, kind, reg, pf, j)
    requires c.Lo() < |code| && !IsTest(code[|code| - 1]) && c.fr <= reg < NO_REG
    ensures Base(c, code', k, Lists({}, {}, j)) && Means(c, code', k, Lists({}, {}, j), Want(VNonReloc(reg)), x)
  {
    hide RewrittenOf, Framed, EntryKept, Right, Leap, Run, Base, Finished, Entry, RunOf;
    FinishBase(c, code, code', k, l, kind, reg, pf, j);
    FinishRewritten(c, code, code', k, l, kind, reg, pf, j);
    var l' := Lists({}, {}, j);
    forall ord: Order, r: Regs | Entry(c, code', r)
      ensures Right(c, code', k, ord, l', Want(VNonReloc(reg)), Eval(x, r, ord), r,
              RunOf(c, code', k, ord, l', |code'|, r))
    {
      EntryBack(c, code, code', r);
      var o := Resume(c, code, code', k, k, ord, l, l', Want(kind), |code'|, x, r);
      if o.Fall? {
        FinishFall(c, code, code', k, ord, l, kind, reg, pf, j, Eval(x, r, ord), r, o);
      } else {
        RightNotStuck(c, code, k, ord, l, Want(kind), Eval(x, r, ord), r, o);
        FinishExit(c, code, code', k, ord, l, Want(kind), kind, reg, pf, j, Eval(x, r, ord), r, o);
      }
      ArrivedRight(c, code', k, ord, l', reg, Eval(x, r, ord), r, RunOf(c, code', k, ord, l', |code'|, r));
    }
    MeansIntro(c, code', k, l', Want(VNonReloc(reg)), x);
  }

  lemma ArrivedRight(c: Start, code: seq<Instr>, k: seq<Value>, ord: Order, l: Lists, reg: nat, v: Value, r: Regs,
                     o: Outcome)
    requires Arrived(c, reg, v, r, o)
    ensures Right(c, code, k, ord, l, Want(VNonReloc(reg)), v, r, o)
  {}

  /** A comparison whose jump is open falls through only with the value false. */
  lemma ComparisonOpen(c: Start, code: seq<Instr>, k: seq<Value>, l: Lists, pc: nat, x: Expr)
    requires Base(c, code, k, l) && Means(c, code, k, l, Want(VJmp(pc)), x) && KindOk(c, code, k, l, VJmp(pc))
    requires OpenBefore(l, pc - 1)
    ensures Base(c, code, k, Lists(l.t + {pc}, l.f, {})) &&
            Means(c, code, k, Lists(l.t + {pc}, l.f, {}), Want(VFalse), x)
  {
    hide Run, Entry, RewrittenOf, Extends, Denotes, ContinueOf, Base;
    var l' := Lists(l.t + {pc}, l.f, {});
    var end := pc - 1;
    assert Extends(code, code, {}, end) by { ExtendsSelf(code, end); }
    DecidesComparison(code, k, pc);
    BranchBase(c, code, code, k, l, end, true);
    ExtendsRewritten(c, code, code, k, l, l', end, end + 2);
    forall ord: Order, r: Regs | Entry(c, code, r)
      ensures Right(c, code, k, ord, l', Want(VFalse), Eval(x, r, ord), r, RunOf(c, code, k, ord, l', end + 2, r))
    {
      var o := Resume(c, code, code, k, k, ord, l, l', Want(VJmp(pc)), end + 2, x, r);
      if o.Exit? {
        ExitStays(c, code, k, ord, end, end + 2, l', o);
      } else {
        ComparisonRuns(c, code, k, ord, l, pc, Eval(x, r, ord), r, o);
      }
    }
  }

  lemma ExtendsSelf(code: seq<Instr>, end: nat)
    requires end < |code|
    ensures Extends(code, code, {}, end)
  {}

  lemma ComparisonRuns(c: Start, code: seq<Instr>, k: seq<Value>, ord: Order, l: Lists, pc: nat, v: Value, r: Regs,
                       o: Outcome)
    requires 0 < pc < |code| && pc + 1 == |code| && code[pc].Jmp? && IsComparison(code[pc - 1]) &&
             OperandsIn(code[pc - 1], k)
    requires o.Fall? && Same(r, o.regs, c.fr) && Denotes(VJmp(pc), code, k, ord, o.regs, v) && OpenAt(code, c.Lo(), pc)
    requires pc !in l.t && pc !in l.f
    ensures Right(c, code, k, ord, Lists(l.t + {pc}, l.f, {}), Want(VFalse), v, r,
                  ContinueOf(code, k, ord, pc - 1, pc + 1, Lists(l.t + {pc}, l.f, {}), o))
  {
    hide Same, OperandsIn, Run, Taken;
    var l' := Lists(l.t + {pc}, l.f, {});
    RunTest(code, k, ord, pc - 1, l'.t + l'.f, l'.j, o.regs);
  }

  // ----- whole steps -----

  lemma OpenBeforeEnd(c: Start, code: seq<Instr>, k: seq<Value>, l: Lists, kind: Kind)
    requires Base(c, code, k, l) && KindOk(c, code, k, l, kind)
    ensures c.Lo() <= End(kind, |code|) <= |code| && OpenBefore(l, End(kind, |code|))
  {
    assert forall j :: j in l.t || j in l.f ==> OpenAt(code, c.Lo(), j);
  }

  lemma ExtendsLists(c: Start, code: seq<Instr>, code': seq<Instr>, k: seq<Value>, l: Lists, end: nat, e: ExpDesc)
    requires Base(c, code, k, l) && Extends(code, code', l.j, end) && OpenBefore(l, end)
    requires IsList(code, e.t, l.t) && IsList(code, e.f, l.f)
    ensures IsList(code', e.t, l.t) && IsList(code', e.f, l.f)
  {
    hide Framed, IsList;
    assert forall j :: j in l.t || j in l.f ==> OpenAt(code, c.Lo(), j);
    assert forall j :: j in l.t || j in l.f ==> code'[j] == code[j];
    ListSame(code, code', e.t, l.t);
    ListSame(code, code', e.f, l.f);
  }

  /** After code that loads the value, it is in the register. */
  lemma Loaded(c: Start, code: seq<Instr>, code': seq<Instr>, k: seq<Value>, k': seq<Value>, l: Lists, e: ExpDesc,
               reg: nat, x: Expr)
    requires Base(c, code, k, l) && Means(c, code, k, l, Want(e.kind), x) && KindOk(c, code, k, l, e.kind) && k <= k'
    requires IsList(code, e.t, l.t) && IsList(code, e.f, l.f)
    requires Extends(code, code', l.j, End(e.kind, |code|)) && |code'| == End(e.kind, |code|) + 1
    requires Loads(e.kind, code, k, k', code'[|code'| - 1], reg) && c.fr <= reg < NO_REG
    ensures Base(c, code', k', Lists(l.t, l.f, {})) && Means(c, code', k', Lists(l.t, l.f, {}), Want(VNonReloc(reg)), x)
    ensures IsList(code', e.t, l.t) && IsList(code', e.f, l.f) && Ended(c, code')
  {
    hide Base, Means, KindOk, Extends, IsList;
    OpenBeforeEnd(c, code, k, l, e.kind);
    LoadMeans(c, code, code', k, k', l, e.kind, reg, x);
    ExtendsLists(c, code, code', k, l, End(e.kind, |code|), e);
  }

  lemma EmitExtends(code: seq<Instr>, j: set<nat>, tail: seq<Instr>)
    requires |tail| > 0
    ensures Extends(code, Settled(code, j) + tail, j, |code|)
  {}

  /** Instructions at the end replaced. */
  lemma CutExtends(code: seq<Instr>, end: nat, tail: seq<Instr>)
    requires |tail| > 0 && end <= |code|
    ensures Extends(code, code[..end] + tail, {}, end)
  {}

  /** Patching first one list and then the other finishes both. */
  lemma FinishedBy(code: seq<Instr>, code1: seq<Instr>, code2: seq<Instr>, code3: seq<Instr>, l: Lists, reg: nat,
                   pf: int, pt: int)
    requires |code| <= |code1| && code1[..|code|] == code && l.t !! l.f
    requires Patched(code1, code2, l.f, |code1|, reg, pf) && Patched(code2, code3, l.t, |code1|, reg, pt)
    requires forall j :: j in l.t || j in l.f ==> 0 < j < |code| && code[j].Jmp?
    requires pt == pf + 1 || forall j :: j in l.t || j in l.f ==> code[j - 1].TestSet?
    ensures Finished(code, code3, l, reg, pf) && code3[|code|..] == code1[|code|..]
    ensures forall p :: 0 <= p < |code| && p !in l.t && p !in l.f && code[p].Jmp? ==> code3[p] == code[p]
  {
    hide PatchedTest;
    forall p | 0 <= p < |code1|
      ensures code3[p] == if p < |code| then FinishedAt(code, l, reg, pf, |code1|, p) else code1[p]
    {
      assert code3[p] == PatchedAt(code2, l.t, |code1|, reg, pt, p);
      assert code2[p] == PatchedAt(code1, l.f, |code1|, reg, pf, p);
      assert p > 0 ==> code2[p - 1] == PatchedAt(code1, l.f, |code1|, reg, pf, p - 1);
      assert p < |code| ==> code1[p] == code[p];
      assert 0 < p <= |code| ==> code1[p - 1] == code[p - 1];
    }
  }

  lemma PatchedList(code: seq<Instr>, code': seq<Instr>, s: set<nat>, vtarget: int, reg: nat, dtarget: int, head: int,
                    s2: set<nat>)
    requires Patched(code, code', s, vtarget, reg, dtarget) && IsList(code, head, s2) && s !! s2
    ensures IsList(code', head, s2)
  {
    ListBounds(code, head, s2);
    forall p | p in s2 ensures code'[p] == code[p] {
      assert code'[p] == PatchedAt(code, s, vtarget, reg, dtarget, p);
    }
    ListSame(code, code', head, s2);
  }

  lemma TailPatched(code: seq<Instr>, code1: seq<Instr>, code3: seq<Instr>, l: Lists, kind: Kind, reg: nat, pf: int,
                    j: set<nat>)
    requires Tail(code, code1, l, kind, reg, pf, j) && |code3| == |code1| >= |code| &&
             code3[|code|..] == code1[|code|..]
    ensures Tail(code, code3, l, kind, reg, pf, j)
  {
    assert forall p :: |code| <= p < |code1| ==>
           code3[p] == code3[|code|..][p - |code|] && code1[p] == code1[|code|..][p - |code|];
  }

  lemma TailPending(c: Start, code: seq<Instr>, code1: seq<Instr>, k: seq<Value>, l: Lists, kind: Kind, reg: nat,
                    pf: int, j: set<nat>)
    requires Tail(code, code1, l, kind, reg, pf, j) && Base(c, code, k, l) && c.Lo() < |code|
    ensures j !! l.t && j !! l.f
  {
    assert forall p :: p in l.t + l.f ==> OpenAt(code, c.Lo(), p);
  }

  lemma ListsInside(c: Start, code: seq<Instr>, k: seq<Value>, l: Lists)
    requires Base(c, code, k, l)
    ensures forall p :: p in l.t || p in l.f ==> c.Lo() < p < |code| && code[p].Jmp? && IsTest(code[p - 1])
    ensures l.t !! l.f && l.t !! l.j && l.f !! l.j
    ensures |code| > c.Lo() ==> forall p :: p in l.j ==> p < |code|
    ensures |code| == c.Lo() ==> NoLists(l)
  {
    assert forall p :: p in l.t || p in l.f ==> OpenAt(code, c.Lo(), p);
    assert |code| > c.Lo() ==> forall p :: p in l.j ==> HereAt(code, c.Lo(), p);
  }

  /** The constant is what the kind describes. */
  predicate ConstantOf(kind: Kind, k: seq<Value>, v: Value)
  {
    match kind
    case VNil => v == Nil
    case VTrue => v == Bool(true)
    case VFalse => v == Bool(false)
    case VKInt(i) => v == Int(i)
    case VK(i) => i < |k| && v == k[i]
    case _ => false
  }

  lemma ConstantMeans(c: Start, code: seq<Instr>, k: seq<Value>, k': seq<Value>, l: Lists, kind: Kind, i: nat, x: Expr)
    requires Base(c, code, k, l) && Means(c, code, k, l, Want(kind), x) && k <= k' && i < |k'| &&
             ConstantOf(kind, k, k'[i])
    ensures Base(c, code, k', l) && Means(c, code, k', l, Want(VK(i)), x)
  {
    hide Run, RewrittenOf, ContinueOf, Same, Carries, Framed, RunOf, Entry, EntryKept;
    StartsAt(c, code, k, l);
    RelinkedRewritten(c, code, code, k, l, {}, |code|);
    forall ord: Order, r: Regs | Entry(c, code, r)
      ensures Right(c, code, k', ord, l, Want(VK(i)), Eval(x, r, ord), r, RunOf(c, code, k', ord, l, |code|, r))
    {
      var o := Resume(c, code, code, k, k', ord, l, l, Want(kind), |code|, x, r);
      if o.Fall? {
        FallEnds(code, k', ord, |code|, l, o);
      } else {
        ExitStays(c, code, k', ord, |code|, |code|, l, o);
      }
    }
    MeansIntro(c, code, k', l, Want(VK(i)), x);
  }

  lemma StartsAt(c: Start, code: seq<Instr>, k: seq<Value>, l: Lists)
    requires Base(c, code, k, l)
    ensures c.Lo() <= |code| && EntryKept(c, code, code)
  {}

  // ----- the steps of `not` -----

  /** What `not` does to the code: nothing for a constant, turning a comparison round, or one instruction. */
  ghost predicate NotStep(code: seq<Instr>, code': seq<Instr>, l: Lists, j: set<nat>, kind: Kind, kind': Kind)
  {
    match kind
    case VNil => code' == code && kind' == VTrue && j == {}
    case VFalse => code' == code && kind' == VTrue && j == {}
    case VTrue => code' == code && kind' == VFalse && j == {}
    case VKInt(_) => code' == code && kind' == VFalse && j == {}
    case VK(_) => code' == code && kind' == VFalse && j == {}
    case VJmp(pc) =>
      0 < pc < |code| && IsComparison(code[pc - 1]) && code' == code[pc - 1 := Flipped(code[pc - 1])] &&
        kind' == kind && j == {}
    case VNonReloc(reg) => code' == Settled(code, l.j) + [Not(0, reg)] && kind' == VRelocable(|code|) && j == l.j
    case _ => false
  }

  lemma NotStepBase(c: Start, code: seq<Instr>, code': seq<Instr>, k: seq<Value>, l: Lists, j: set<nat>, kind: Kind,
                    kind': Kind)
    requires Base(c, code, k, l) && KindOk(c, code, k, l, kind) && NotStep(code, code', l, j, kind, kind')
    ensures Base(c, code', k, Lists(l.t, l.f, l.j - j)) && EntryKept(c, code, code') && |code| <= |code'|
    ensures End(kind', |code'|) == End(kind, |code|) >= c.Lo() && (j == {} || j == l.j) &&
            (j == {} || End(kind, |code|) == |code|)
    ensures forall p :: 0 <= p < End(kind, |code|) ==> code'[p] == SettledAt(code, j, End(kind, |code|), p)
    ensures forall p :: p in l.t || p in l.f ==>
            c.Lo() < p < |code| && code'[p] == code[p] && code'[p - 1] == code[p - 1]
  {
    hide Framed;
    OpenBeforeEnd(c, code, k, l, kind);
    assert l.j - {} == l.j && l.j - l.j == {};
    assert forall p :: p in l.t || p in l.f ==> OpenAt(code, c.Lo(), p);
    if kind.VJmp? {
      var pc := kind.info;
      assert code' == code[..pc - 1] + [code'[pc - 1], code'[pc]];
      CutExtends(code, pc - 1, [code'[pc - 1], code'[pc]]);
      ExtendsBase(c, code, code', k, k, l, pc - 1);
    } else if kind.VNonReloc? {
      EmitExtends(code, l.j, [Not(0, kind.info)]);
      ExtendsBase(c, code, code', k, k, l, |code|);
    }
  }

  lemma NotStepQuieted(code: seq<Instr>, code1: seq<Instr>, code2: seq<Instr>, code3: seq<Instr>, l: Lists, j: set<nat>,
                       end: nat)
    requires end <= |code| <= |code1| && (j == {} || end == |code|)
    requires forall p :: 0 <= p < end ==> code1[p] == SettledAt(code, j, end, p)
    requires Quieting(code1, code2, l.t) && Quieting(code2, code3, l.f)
    ensures Negated(code, code3, j, l.t + l.f, end) && Quieting(code1, code3, l.t + l.f)
  {
    forall p | 0 <= p < |code1| ensures code3[p] == QuietedAt(code1, l.t + l.f, p) {
      assert code3[p] == QuietedAt(code2, l.f, p) && code2[p] == QuietedAt(code1, l.t, p);
    }
    forall p | 0 <= p < end
      ensures code3[p] == if p + 1 in l.t + l.f then Quieted(SettledAt(code, j, end, p)) else SettledAt(code, j, end, p)
    {
      assert code3[p] == QuietedAt(code1, l.t + l.f, p);
    }
  }

  lemma NotStepKind(c: Start, code: seq<Instr>, code1: seq<Instr>, code3: seq<Instr>, k: seq<Value>, l: Lists,
                    j: set<nat>, kind: Kind, kind': Kind)
    requires KindOk(c, code, k, l, kind) && NotStep(code, code1, l, j, kind, kind') && Quieting(code1, code3, l.t + l.f)
    requires c.Lo() <= |code| && forall p :: p in l.t || p in l.f ==> p < |code|
    requires kind.VK? ==> kind.info < |k| && Truthy(k[kind.info])
    ensures KindOk(c, code3, k, Lists(l.f, l.t, l.j - j), kind') && Opposite(kind, code, kind', code3, k)
    ensures |code3| == |code1| && (|code3| > 0 ==> code3[|code3| - 1] == code1[|code1| - 1])
    ensures |code1| > |code| || kind.VJmp? ==>
            |code1| > 0 && !IsTest(code1[|code1| - 1]) && !code1[|code1| - 1].LoadNil?
    ensures |code1| == |code| && !kind.VJmp? ==> code1 == code
  {
    if |code3| > 0 {
      assert code3[|code3| - 1] == QuietedAt(code1, l.t + l.f, |code3| - 1);
    }
    if kind.VJmp? {
      assert code3[kind.info - 1] == QuietedAt(code1, l.t + l.f, kind.info - 1);
    }
  }

  /** After all its steps, `not` yields the negation. */
  lemma NotDone(c: Start, code: seq<Instr>, code1: seq<Instr>, code2: seq<Instr>, code3: seq<Instr>, k: seq<Value>,
                l: Lists, j: set<nat>,
                e: ExpDesc, kind': Kind, x: Expr)
    requires Base(c, code, k, l) && Means(c, code, k, l, Want(e.kind), x) && KindOk(c, code, k, l, e.kind)
    requires IsList(code1, e.t, l.t) && IsList(code1, e.f, l.f)
    requires NotStep(code, code1, l, j, e.kind, kind') && Quieting(code1, code2, l.t) && Quieting(code2, code3, l.f)
    requires e.kind.VK? ==> e.kind.info < |k| && Truthy(k[e.kind.info])
    ensures Base(c, code3, k, Lists(l.f, l.t, l.j - j)) &&
            Means(c, code3, k, Lists(l.f, l.t, l.j - j), Want(kind'), NotOf(x))
    ensures KindOk(c, code3, k, Lists(l.f, l.t, l.j - j), kind') && IsList(code3, e.t, l.t) && IsList(code3, e.f, l.f)
    ensures |code1| > |code| || e.kind.VJmp? || code1 == code
    ensures |code1| > |code| || e.kind.VJmp? ==>
            |code3| > 0 && !IsTest(code3[|code3| - 1]) && !code3[|code3| - 1].LoadNil?
    ensures |code3| == |code1| && (|code3| > 0 ==> code3[|code3| - 1] == code1[|code1| - 1])
  {
    hide Base, Means, IsList, Quieting, Negated, Opposite, KindOk, NotStep, EntryKept, SettledAt;
    NotStepBase(c, code, code1, k, l, j, e.kind, kind');
    var end := End(e.kind, |code|);
    OpenBeforeEnd(c, code, k, l, e.kind);
    NotStepQuieted(code, code1, code2, code3, l, j, end);
    var l1 := Lists(l.t, l.f, l.j - j);
    QuietingBase(c, code1, code3, k, l1);
    NotStepKind(c, code, code1, code3, k, l, j, e.kind, kind');
    EntryKeptBoth(c, code, code1, code3);
    NegateMeans(c, code, code3, k, l, j, e.kind, kind', x);
    ListSame(code1, code3, e.t, l.t);
    ListSame(code1, code3, e.f, l.f);
  }

  lemma EntryKeptBoth(c: Start, code: seq<Instr>, code1: seq<Instr>, code2: seq<Instr>)
    requires EntryKept(c, code, code1) && EntryKept(c, code1, code2)
    ensures EntryKept(c, code, code2)
  {}

  // ----- operands and operators -----

  lemma LeafMeans(c: Start, k: seq<Value>, kind: Kind, x: Expr)
    requires StartOk(c) && c.k <= k
    requires (x.Const? && ConstantOf(kind, k, x.v)) || (x.Local? && kind == VLocal(x.reg))
    ensures Base(c, c.code, k, Lists({}, {}, c.jpc)) && Means(c, c.code, k, Lists({}, {}, c.jpc), Want(kind), x)
  {}

  lemma JoinKind(c: Start, l1: Lists, c2: Start, code: seq<Instr>, k: seq<Value>, l2: Lists, kind: Kind)
    requires Follows(c, l1, c2) && Base(c2, code, k, l2) && KindOk(c2, code, k, l2, kind)
    ensures KindOk(c, code, k, Join(l1, l2), kind)
  {
    assert forall j :: j in l1.t || j in l1.f ==> OpenAt(c2.code, c.Lo(), j);
  }

  lemma JoinSealed(c: Start, l1: Lists, c2: Start, code: seq<Instr>, k: seq<Value>, l2: Lists, lasttarget: nat)
    requires Follows(c, l1, c2) && Base(c2, code, k, l2) && Sealed(c2, code, lasttarget) &&
             Labelled(c2, code, lasttarget, l2)
    ensures Sealed(c, code, lasttarget) && Labelled(c, code, lasttarget, Join(l1, l2))
  {
    if |code| == c2.Lo() > c.Lo() {
      JoinBetween(c, l1, c2, code, |code| - 1);
    }
  }

  /** The lists of the first operand are still there after the second. */
  lemma JoinLists(c: Start, l1: Lists, c2: Start, code: seq<Instr>, k: seq<Value>, l2: Lists, head: int, s: set<nat>)
    requires Follows(c, l1, c2) && Base(c2, code, k, l2) && IsList(c2.code, head, s) && (s == l1.t || s == l1.f)
    ensures IsList(code, head, s) && s !! l2.t && s !! l2.f && s !! l2.j && |code| >= c2.Lo() &&
            (s != {} ==> |code| > c.Lo())
  {
    hide Framed;
    JoinBase(c, l1, c2, code, k, l2);
    FramedLength(c2, code);
    ListSame(c2.code, code, head, s);
    assert forall j :: j in s ==> OpenAt(c2.code, c.Lo(), j);
    assert forall j :: j in l2.t || j in l2.f ==> OpenAt(code, c2.Lo(), j);
    assert |code| > c2.Lo() ==> forall j :: j in l2.j ==> HereAt(code, c2.Lo(), j);
  }

  function Index(kind: Kind): nat
    requires kind.VK? || kind.VNonReloc?
  {
    if kind.VK? then BITRK + kind.info else kind.info
  }

  /** The comparison instruction for an operator, and its operands. */
  function Comparison(op: BinOpr, rk1: nat, rk2: nat): Instr
    requires !IsLogical(op)
  {
    match op
    case OprEq => Eq(true, rk1, rk2)
    case OprNe => Eq(false, rk1, rk2)
    case OprLt => Lt(true, rk1, rk2)
    case OprLe => Le(true, rk1, rk2)
    case OprGt => Lt(true, rk2, rk1)
    case OprGe => Le(true, rk2, rk1)
  }

  lemma ComparisonCompares(op: BinOpr, kind1: Kind, kind2: Kind, k: seq<Value>)
    requires !IsLogical(op) && IsOperand(kind1, 256) && IsOperand(kind2, 256)
    requires (kind1.VK? ==> kind1.info < |k|) && (kind2.VK? ==> kind2.info < |k|)
    ensures Compares(op, kind1, kind2, k, Comparison(op, Index(kind1), Index(kind2)))
  {
    var i := Comparison(op, Index(kind1), Index(kind2));
    forall ord: Order, r: Regs, v1: Value, v2: Value | Denotes(kind1, [], k, ord, r, v1) &&
      Denotes(kind2, [], k, ord, r, v2)
      ensures Taken(i, k, r, ord) == Compare(op, v1, v2, ord)
    {
      assert RK(k, r, Index(kind1)) == v1 && RK(k, r, Index(kind2)) == v2;
    }
  }
}
