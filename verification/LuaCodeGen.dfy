/** The code generator for expressions, which links jumps whose destination is not known yet through the jumps
    themselves and patches them in place. */
module LuaCodeGen {
  import opened LuaCode
  import opened LuaExpr
  import opened LuaExprLemmas
  import opened LuaExprSteps
  import opened LuaExprFinish

  lemma PatchedSettled(code: seq<Instr>, code': seq<Instr>, s: set<nat>)
    requires Patched(code, code', s, |code|, NO_REG, |code|)
    requires forall p :: p in s ==> p < |code| && code[p].Jmp?
    ensures code' == Settled(code, s)
  {
    forall p | 0 <= p < |code| ensures code'[p] == SettledAt(code, s, |code|, p) {
      assert code'[p] == PatchedAt(code, s, |code|, NO_REG, |code|, p);
    }
  }

  /** One more jump of the list has been patched. */
  lemma PatchedStep(code: seq<Instr>, before: seq<Instr>, after: seq<Instr>, done: set<nat>, node: nat, vtarget: int,
                    reg: nat, dtarget: int)
    requires Patched(code, before, done, vtarget, reg, dtarget) && node !in done && node < |code| && code[node].Jmp?
    requires forall p :: p in done ==> p < |code| && code[p].Jmp?
    requires var b := node > 0 && before[node - 1].TestSet?;
             after == (if b then before[node - 1 := PatchedTest(before[node - 1], reg)] else before)
                        [node := Jmp((if b then vtarget else dtarget) - (node + 1))]
    ensures Patched(code, after, done + {node}, vtarget, reg, dtarget)
  {
    hide PatchedTest;
    assert node > 0 ==> before[node - 1] == PatchedAt(code, done, vtarget, reg, dtarget, node - 1);
    forall p | 0 <= p < |code| ensures after[p] == PatchedAt(code, done + {node}, vtarget, reg, dtarget, p) {
      assert before[p] == PatchedAt(code, done, vtarget, reg, dtarget, p);
    }
  }

  lemma PatchedNone(code: seq<Instr>, vtarget: int, reg: nat, dtarget: int)
    ensures Patched(code, code, {}, vtarget, reg, dtarget)
  {}

  /** One more test has been silenced. */
  lemma QuietingStep(code: seq<Instr>, before: seq<Instr>, after: seq<Instr>, done: set<nat>, node: nat)
    requires Quieting(code, before, done) && node < |code| && code[node].Jmp?
    requires after == if node > 0 && before[node - 1].TestSet?
             then before[node - 1 := PatchedTest(before[node - 1], NO_REG)] else before
    ensures Quieting(code, after, done + {node})
  {
    forall p | 0 <= p < |code| ensures after[p] == QuietedAt(code, done + {node}, p) {
      assert before[p] == QuietedAt(code, done, p);
    }
  }

  lemma QuietingNone(code: seq<Instr>, s: set<nat>)
    requires s == {}
    ensures Quieting(code, code, s)
  {}

  lemma SettledNothing(code: seq<Instr>)
    ensures Settled(code, {}) == code
  {}

  lemma StartBounds(c: Start, code: seq<Instr>, k: seq<Value>, l: Lists)
    requires Base(c, code, k, l)
    ensures c.nactvar <= c.fr <= NO_REG && c.lasttarget <= c.Lo() <= |code| && c.k <= k
  {}

  lemma RegisterOk(c: Start, code: seq<Instr>, k: seq<Value>, l: Lists, reg: nat)
    requires reg < NO_REG
    ensures KindOk(c, code, k, l, VNonReloc(reg))
  {}

  lemma KindConstant(c: Start, code: seq<Instr>, k: seq<Value>, l: Lists, i: nat)
    requires KindOk(c, code, k, l, VK(i))
    ensures i < |k|
  {}

  lemma NoList(code: seq<Instr>)
    ensures IsList(code, NO_JUMP, {})
  {}

  lemma EmptyList(code: seq<Instr>, code': seq<Instr>, head: int)
    requires IsList(code, head, {})
    ensures IsList(code', head, {}) && head == NO_JUMP
  {}

  predicate YieldsValue(code: seq<Instr>, j: nat) { 0 < j <= |code| && code[j - 1].TestSet? }

  ghost predicate AllYield(code: seq<Instr>, l: Lists) { forall j :: j in l.t || j in l.f ==> YieldsValue(code, j) }

  lemma SealedEnded(c: Start, code: seq<Instr>, lasttarget: nat)
    requires Sealed(c, code, lasttarget)
    ensures Ended(c, code)
  {}

  lemma AllYieldTests(code: seq<Instr>, l: Lists)
    ensures AllYield(code, l) ==> forall j :: j in l.t || j in l.f ==> 0 < j <= |code| && code[j - 1].TestSet?
  {}

  lemma TailEnds(c: Start, code: seq<Instr>, code': seq<Instr>, l: Lists, kind: Kind, reg: nat, pf: int, j: set<nat>)
    requires Finished(code, code', l, reg, pf) && Tail(code, code', l, kind, reg, pf, j) && Ended(c, code) &&
             c.Lo() < |code|
    requires forall p :: p in l.t || p in l.f ==> p < |code|
    ensures Ended(c, code')
  {
    assert code'[|code| - 1] == FinishedAt(code, l, reg, pf, |code'|, |code| - 1);
  }

  lemma PatchedLength(code: seq<Instr>, code': seq<Instr>, s: set<nat>, vtarget: int, reg: nat, dtarget: int)
    requires Patched(code, code', s, vtarget, reg, dtarget)
    ensures |code'| == |code|
  {}

  lemma OneJump(code: seq<Instr>, pc: nat)
    requires pc < |code| && code[pc] == Jmp(NO_JUMP)
    ensures IsList(code, pc, {pc})
  {
    assert {pc} - {pc} == {};
  }

  lemma WithinOpen(c: Start, code: seq<Instr>, l: Lists, s: set<nat>)
    requires s <= l.t && |code| > c.Lo()
    ensures Within(c, code, l, s)
  {}

  lemma ListHead(code: seq<Instr>, head: int, s: set<nat>)
    requires IsList(code, head, s)
    ensures head != NO_JUMP ==> head >= 0 && head in s
  {}

  /** Lists with the same head are empty. */
  lemma NoJumps(code: seq<Instr>, t: int, f: int, l: Lists)
    requires IsList(code, t, l.t) && IsList(code, f, l.f) && l.t !! l.f && t == f
    ensures NoLists(l) && t == NO_JUMP
  {}

  lemma EndsInJump(c: Start, code: seq<Instr>)
    requires |code| > 0 && code[|code| - 1].Jmp?
    ensures Ended(c, code)
  {}

  lemma Fresh(c: Start, code: seq<Instr>, k: seq<Value>, l: Lists, kind: Kind, pc: nat)
    requires Base(c, code, k, l) && 0 <= End(kind, |code|) <= pc && OpenBefore(l, End(kind, |code|))
    ensures pc !in l.t && pc !in l.f
  {}

  lemma WithinLists(c: Start, code: seq<Instr>, k: seq<Value>, l: Lists, s: set<nat>)
    requires Base(c, code, k, l) && s <= l.t + l.f + l.j && (|code| == c.Lo() ==> s == {})
    ensures Within(c, code, l, s)
  {}

  lemma RelinkedList(code: seq<Instr>, code': seq<Instr>, s: set<nat>, head: int, s2: set<nat>)
    requires Relinked(code, code', s) && IsList(code, head, s2) && s !! s2
    ensures IsList(code', head, s2)
  {
    ListBounds(code, head, s2);
    ListSame(code, code', head, s2);
  }

  lemma EndedRelinked(c: Start, code: seq<Instr>, code': seq<Instr>, s: set<nat>)
    requires Relinked(code, code', s) && Ended(c, code)
    ensures Ended(c, code')
  {}

  /** A comparison, turned round if the code is to go on when it is true, jumps to take if it fails. */
  lemma BranchComparison(c: Start, code: seq<Instr>, code': seq<Instr>, k: seq<Value>, l: Lists, e: ExpDesc, cond: bool,
                         x: Expr)
    requires Base(c, code, k, l) && Means(c, code, k, l, Want(e.kind), x) && KindOk(c, code, k, l, e.kind) &&
             e.kind.VJmp?
    requires IsList(code, e.t, l.t) && IsList(code, e.f, l.f)
    requires code' == if cond then code else code[e.kind.info - 1 := Flipped(code[e.kind.info - 1])]
    ensures Base(c, code', k, Branch(l, cond, e.kind.info)) &&
            Means(c, code', k, Branch(l, cond, e.kind.info), Goes(!cond), x)
    ensures IsList(code', e.t, l.t) && IsList(code', e.f, l.f) && IsList(code', e.kind.info, {e.kind.info}) &&
            Ended(c, code')
    ensures e.kind.info !in l.t && e.kind.info !in l.f && l.j == {} && forall head :: IsList(code, head, {}) ==>
            IsList(code', head, {})
  {
    hide Base, Means, IsList, Extends, Decides, OpenBefore, Flipped;
    var pc := e.kind.info;
    OpenBeforeEnd(c, code, k, l, e.kind);
    assert code' == code[..pc - 1] + [code'[pc - 1], code'[pc]];
    CutExtends(code, pc - 1, [code'[pc - 1], code'[pc]]);
    DecidesComparison(code, k, pc);
    Conditional(c, code, code', k, l, e.kind, cond, x);
    ExtendsLists(c, code, code', k, l, pc - 1, e);
    OneJump(code', pc);
    forall head | IsList(code, head, {}) ensures IsList(code', head, {}) {
      EmptyList(code, code', head);
    }
  }

  lemma RelinkedLength(code: seq<Instr>, code': seq<Instr>, s: set<nat>)
    requires Relinked(code, code', s)
    ensures |code'| == |code|
  {}

  lemma QuietingList(code: seq<Instr>, code': seq<Instr>, s: set<nat>, head: int, s2: set<nat>)
    requires Quieting(code, code', s) && IsList(code, head, s2)
    ensures IsList(code', head, s2)
  {
    ListBounds(code, head, s2);
    forall p | p in s2 ensures code'[p] == code[p] {
      assert code'[p] == QuietedAt(code, s, p);
    }
    ListSame(code, code', head, s2);
  }

  lemma ComparisonAt(c: Start, code: seq<Instr>, k: seq<Value>, l: Lists, kind: Kind)
    requires KindOk(c, code, k, l, kind) && kind.VJmp?
    ensures 0 < kind.info < |code| && IsComparison(code[kind.info - 1]) && l.j == {}
  {}

  lemma SealedRelinked(c: Start, code: seq<Instr>, code': seq<Instr>, s: set<nat>, lasttarget: nat, l: Lists)
    requires Relinked(code, code', s) && Sealed(c, code, lasttarget) && Labelled(c, code, lasttarget, l)
    ensures Sealed(c, code', lasttarget) && Labelled(c, code', lasttarget, l)
  {}

  lemma FollowsBounds(c: Start, l1: Lists, c2: Start)
    requires Follows(c, l1, c2)
    ensures c2.nactvar == c.nactvar && c.nactvar <= c.fr <= NO_REG && c.Lo() <= c2.Lo()
  {}

  lemma ComparisonDone(c: Start, code: seq<Instr>, code': seq<Instr>, k: seq<Value>, j: set<nat>, i: Instr, l: Lists,
                       lasttarget: nat)
    requires code' == Settled(code, j) + [i, Jmp(NO_JUMP)] && c.Lo() <= |code| && IsComparison(i) && OperandsIn(i, k) &&
             l == Lists({}, {}, {})
    requires c.lasttarget <= lasttarget <= |code|
    ensures KindOk(c, code', k, l, VJmp(|code'| - 1)) && Sealed(c, code', lasttarget) &&
            Labelled(c, code', lasttarget, l)
  {}

  lemma JoinReady(c: Start, l1: Lists, c2: Start, code: seq<Instr>, k: seq<Value>, l2: Lists, op: BinOpr, kind: Kind,
                  x1: Expr, x2: Expr,
                  lasttarget: nat)
    requires IsLogical(op) && Follows(c, l1, c2) && c2.lasttarget == c2.Lo() && Scoped(x2, c.nactvar)
    requires Means(c, c2.code, c2.k, l1, Goes(op.OprAnd?), x1) && (if op.OprAnd? then l1.t else l1.f) == {}
    requires Base(c2, code, k, l2) && KindOk(c2, code, k, l2, kind) && Means(c2, code, k, l2, Want(kind), x2)
    requires Sealed(c2, code, lasttarget) && Labelled(c2, code, lasttarget, l2)
    ensures Base(c, code, k, Join(l1, l2)) && KindOk(c, code, k, Join(l1, l2), kind)
    ensures Means(c, code, k, Join(l1, l2), Want(kind), Binary(op, x1, x2))
    ensures Sealed(c, code, lasttarget) && Labelled(c, code, lasttarget, Join(l1, l2)) && c2.nactvar == c.nactvar
    ensures l2.t !! l2.f && l2.t !! l2.j && l2.f !! l2.j
  {
    hide IsList, Means, Sealed, Ended, KindOk, Labelled, Framed;
    JoinBase(c, l1, c2, code, k, l2);
    JoinMeans(c, l1, c2, code, k, l2, op, kind, x1, x2);
    JoinKind(c, l1, c2, code, k, l2, kind);
    JoinSealed(c, l1, c2, code, k, l2, lasttarget);
  }

  lemma CompareDone(c: Start, l1: Lists, kind1: Kind, x1: Expr, c2: Start, code: seq<Instr>, k: seq<Value>, l2: Lists,
                    kind2: Kind, x2: Expr,
                    code': seq<Instr>, op: BinOpr, lasttarget: nat)
    requires Follows(c, l1, c2) && Base(c2, code, k, l2) && NoLists(l1) && NoLists(l2) && !IsLogical(op)
    requires Scoped(x2, c.nactvar) && IsOperand(kind1, c2.fr) && IsOperand(kind2, 256) && c2.fr <= 256
    requires (kind1.VK? ==> kind1.info < |c2.k|) && (kind2.VK? ==> kind2.info < |k|)
    requires Means(c, c2.code, c2.k, l1, Want(kind1), x1) && Means(c2, code, k, l2, Want(kind2), x2)
    requires Sealed(c2, code, lasttarget) && Labelled(c2, code, lasttarget, l2)
    requires code' == Settled(code, l2.j) + [Comparison(op, Index(kind1), Index(kind2)), Jmp(NO_JUMP)]
    ensures Base(c, code', k, Lists({}, {}, {})) &&
            Means(c, code', k, Lists({}, {}, {}), Want(VJmp(|code'| - 1)), Binary(op, x1, x2))
    ensures KindOk(c, code', k, Lists({}, {}, {}), VJmp(|code'| - 1)) && Sealed(c, code', lasttarget)
    ensures Labelled(c, code', lasttarget, Lists({}, {}, {}))
  {
    hide IsList, Means, Sealed, Ended, KindOk, Framed, Extends, ListsOk, Comparison, Settled, Compares;
    StartBounds(c2, code, k, l2);
    EmitExtends(code, l2.j, [Comparison(op, Index(kind1), Index(kind2)), Jmp(NO_JUMP)]);
    ComparisonCompares(op, kind1, kind2, k);
    SettledLength(code, l2.j);
    CompareMeans(c, l1, kind1, x1, c2, code, k, l2, kind2, x2, code', op);
    JoinSealed(c, l1, c2, code, k, l2, lasttarget);
    FollowsBounds(c, l1, c2);
    ComparesOperands(op, kind1, kind2, k, Comparison(op, Index(kind1), Index(kind2)));
    ComparisonDone(c, code, code', k, l2.j, Comparison(op, Index(kind1), Index(kind2)), Lists({}, {}, {}), lasttarget);
  }

  lemma SettledLength(code: seq<Instr>, j: set<nat>)
    ensures |Settled(code, j)| == |code|
  {}

  lemma ComparesOperands(op: BinOpr, kind1: Kind, kind2: Kind, k: seq<Value>, i: Instr)
    requires !IsLogical(op) && Compares(op, kind1, kind2, k, i)
    ensures IsComparison(i) && OperandsIn(i, k)
  {}

  /** What is known of the first operand once the second is about to be compiled. */
  ghost predicate FirstReady(op: BinOpr, e1: ExpDesc, c: Start, l1: Lists, c2: Start, x1: Expr)
  {
    match op
    case OprAnd =>
      c2.lasttarget == c2.Lo() && c2.fr == c.fr && Means(c, c2.code, c2.k, l1, Goes(true), x1) && l1.t == {} &&
        IsList(c2.code, e1.f, l1.f)
    case OprOr =>
      c2.lasttarget == c2.Lo() && c2.fr == c.fr && Means(c, c2.code, c2.k, l1, Goes(false), x1) && l1.f == {} &&
        IsList(c2.code, e1.t, l1.t)
    case _ =>
      && NoLists(l1) && Means(c, c2.code, c2.k, l1, Want(e1.kind), x1) && IsOperand(e1.kind, c2.fr)
      && (e1.kind.VK? ==> e1.kind.info < |c2.k|) &&
         (e1.kind.VNonReloc? ==> e1.kind.info < c.nactvar || e1.kind.info == c.fr)
      && c2.fr == if e1.kind == VNonReloc(c.fr) then c.fr + 1 else c.fr
  }

  lemma NextStart(c: Start, code: seq<Instr>, k: seq<Value>, l: Lists, lasttarget: nat)
    requires Base(c, code, k, l) && Labelled(c, code, lasttarget, l) && Sealed(c, code, lasttarget)
    ensures forall fr :: c.fr <= fr <= NO_REG ==>
              StartOk(Start(code, k, lasttarget, fr, c.nactvar, l.j)) &&
                Follows(c, l, Start(code, k, lasttarget, fr, c.nactvar, l.j))
  {
    if |code| > c.Lo() {
      assert forall j :: j in l.j ==> HereAt(code, c.Lo(), j);
    } else {
      forall j | j in l.j ensures HereAt(code, 0, j) {
        assert FrameAt(c, code, j) && FrameAt(c, code, j - 1);
      }
    }
  }

  lemma ParenMeans(c: Start, code: seq<Instr>, k: seq<Value>, l: Lists, kind: Kind, x: Expr)
    requires Means(c, code, k, l, Want(kind), x)
    ensures Means(c, code, k, l, Want(kind), Paren(x))
  {
    hide Run, Right, Entry;
    forall ord: Order, r: Regs | Entry(c, code, r)
      ensures Right(c, code, k, ord, l, Want(kind), Eval(Paren(x), r, ord), r,
              RunOf(c, code, k, ord, l, End(kind, |code|), r))
    {
      assert Right(c, code, k, ord, l, Want(kind), Eval(x, r, ord), r,
             Run(code, k, ord, c.Lo(), End(kind, |code|), l.t + l.f, l.j, r));
    }
    MeansIntro(c, code, k, l, Want(kind), Paren(x));
  }

  /** However the registers stand and values compare, the code emitted since `c` runs to its end, leaves the value of
      the expression in `reg`, and leaves the registers that were in use as they were. */
  ghost predicate Yields(c: Start, code: seq<Instr>, k: seq<Value>, j: set<nat>, x: Expr, reg: nat)
  {
    c.Lo() <= |code| && forall ord: Order, r: Regs :: Entry(c, code, r) ==>
      Left(c, x, reg, ord, r, Run(code, k, ord, c.Lo(), |code|, {}, j, r))
  }

  ghost predicate Left(c: Start, x: Expr, reg: nat, ord: Order, r: Regs, o: Outcome)
  {
    o.Fall? && Reg(o.regs, reg) == Eval(x, r, ord) && Same(r, o.regs, c.fr)
  }

  lemma MeansYields(c: Start, code: seq<Instr>, k: seq<Value>, l: Lists, x: Expr, reg: nat)
    requires Means(c, code, k, l, Want(VNonReloc(reg)), x) && NoLists(l)
    ensures Yields(c, code, k, l.j, x, reg)
  {
    hide Run, Entry, Same;
    assert l.t + l.f == {};
    forall ord: Order, r: Regs | Entry(c, code, r)
      ensures Left(c, x, reg, ord, r, Run(code, k, ord, c.Lo(), |code|, {}, l.j, r))
    {
      assert Right(c, code, k, ord, l, Want(VNonReloc(reg)), Eval(x, r, ord), r,
             Run(code, k, ord, c.Lo(), |code|, l.t + l.f, l.j, r));
    }
  }

  lemma BaseFramed(c: Start, code: seq<Instr>, k: seq<Value>, l: Lists)
    requires Base(c, code, k, l)
    ensures Framed(c, code)
  {}

  lemma JumpSet(code: seq<Instr>, code': seq<Instr>, pc: nat, dest: int)
    requires pc < |code| == |code'| && code'[pc].Jmp? && Target(code', pc) == dest
    requires forall i :: 0 <= i < |code'| && i != pc ==> code'[i] == code[i]
    ensures code' == code[pc := Jmp(dest - (pc + 1))]
  {}

  /** Whatever the registers hold and however values compare, the jump after one of the two is taken exactly if it is
      not after the other. */
  ghost predicate Opposed(i: Instr, j: Instr)
  {
    forall k, r, ord :: Taken(i, k, r, ord) <==> !Taken(j, k, r, ord)
  }

  class FuncState {
    var code: seq<Instr>
    var jpc: int
    var lasttarget: nat
    var freereg: nat
    const nactvar: nat
    var k: seq<Value>
    /** Where constants were put, as far as the scanner remembers. */
    var h: map<Value, nat>

    constructor (nactvar: nat)
      requires nactvar <= NO_REG
      ensures Begins(StartHere({})) && code == [] && freereg == nactvar == this.nactvar && k == []
    {
      this.code, this.jpc, this.lasttarget, this.freereg, this.nactvar := [], NO_JUMP, 0, nactvar, nactvar;
      this.k, this.h := [], map[];
    }

    // ----- jumps and lists of jumps -----

    /** Makes a jump lead to a destination.  Read as a link of a list, it gives that destination back; a jump to itself
        ends a list. */
    method FixJump(pc: nat, dest: int)
      requires pc < |code| && code[pc].Jmp?
      modifies this`code
      ensures |code| == |old(code)| && code[pc].Jmp? && Target(code, pc) == dest
      ensures forall i :: 0 <= i < |code| && i != pc ==> code[i] == old(code)[i]
      ensures GetJump(code, pc) == if dest == pc then NO_JUMP else dest
    {
      var offset := dest - (pc + 1);
      code := code[pc := Jmp(offset)];
    }

    /** Joins two lists of jumps. */
    method Concat(l1: int, l2: int, ghost s1: set<nat>, ghost s2: set<nat>) returns (l: int)
      requires IsList(code, l1, s1) && IsList(code, l2, s2) && s1 !! s2
      modifies this`code
      ensures IsList(code, l, s1 + s2) && Relinked(old(code), code, if s1 == {} || s2 == {} then {} else s1)
      ensures l1 != NO_JUMP ==> l == l1
      ensures l1 == NO_JUMP ==> l == l2
    {
      ListBounds(code, l1, s1);
      ListBounds(code, l2, s2);
      if l2 == NO_JUMP {
        assert s1 + s2 == s1;
        return l1;
      } else if l1 == NO_JUMP {
        assert s1 + s2 == s2;
        return l2;
      }
      var list: nat := l1;
      ghost var rest := s1;
      while GetJump(code, list) != NO_JUMP
        invariant list < |code| && code[list].Jmp? && list in s1 && rest <= s1 && IsList(code, list, rest)
        decreases |rest|
      {
        var next := GetJump(code, list);
        rest := rest - {list};
        list := next;
      }
      ListLinked(code, l1, s1, list, l2, s2);
      ghost var before := code;
      FixJump(list, l2);
      JumpSet(before, code, list, l2);
      return l1;
    }

    /** Makes the test before the jump at `node` put its value in `reg`, or nowhere. */
    method PatchTestReg(node: nat, reg: nat, ghost head: int, ghost s: set<nat>) returns (b: bool)
      requires node < |code| && code[node].Jmp? && IsList(code, head, s)
      modifies this`code
      ensures b == (node > 0 && old(code)[node - 1].TestSet?)
      ensures code == if b then old(code)[node - 1 := PatchedTest(old(code)[node - 1], reg)] else old(code)
      ensures IsList(code, head, s)
    {
      var control := if node >= 1 && IsTest(code[node - 1]) then node - 1 else node;
      var i := code[control];
      if !i.TestSet? {
        return false;
      }
      ListBounds(code, head, s);
      ghost var before := code;
      if reg != NO_REG && reg != i.b {
        code := code[control := TestSet(reg, i.b, i.c)];
      } else {
        code := code[control := Test(i.b, i.c)];
      }
      ListSame(before, code, head, s);
      return true;
    }

    /** Makes sure that no test before a jump of the list yields a value. */
    method RemoveValues(head: int, ghost s: set<nat>)
      requires IsList(code, head, s)
      modifies this`code
      ensures Quieting(old(code), code, s)
    {
      hide Quieting, PatchedTest;
      var list := head;
      ghost var rest := s;
      ListBounds(code, head, s);
      assert Quieting(code, code, s - rest) by { QuietingNone(code, s - rest); }
      while list != NO_JUMP
        invariant rest <= s && IsList(code, list, rest) && Quieting(old(code), code, s - rest)
        decreases |rest|
      {
        ghost var before, node := code, list;
        var b := PatchTestReg(list, NO_REG, list, rest);
        QuietingStep(old(code), before, code, s - rest, node);
        list := GetJump(code, list);
        assert s - rest + {node} == s - (rest - {node});
        rest := rest - {node};
      }
      assert s - rest == s;
    }

    /** Makes the jumps of the list lead to their targets. */
    method PatchListAux(head: int, vtarget: int, reg: nat, dtarget: int, ghost s: set<nat>)
      requires IsList(code, head, s)
      modifies this`code
      ensures Patched(old(code), code, s, vtarget, reg, dtarget)
    {
      hide Patched, PatchedTest;
      var list := head;
      ghost var rest := s;
      ListBounds(code, head, s);
      PatchedNone(code, vtarget, reg, dtarget);
      assert s - rest == {};
      while list != NO_JUMP
        invariant rest <= s && IsList(code, list, rest) && Patched(old(code), code, s - rest, vtarget, reg, dtarget)
        decreases |rest|
      {
        ghost var before, node := code, list;
        var next := GetJump(code, list);
        ghost var left := rest - {node};
        var b := PatchTestReg(list, reg, next, left);
        ghost var between := code;
        FixJump(list, if b then vtarget else dtarget);
        ListSame(between, code, next, left);
        PatchedStep(old(code), before, code, s - rest, node, vtarget, reg, dtarget);
        assert s - rest + {node} == s - left;
        list := next;
        rest := left;
      }
      assert s - rest == s;
    }

    /** Makes the jumps pending to the current position lead there, with no values. */
    method DischargeJpc(ghost s: set<nat>)
      requires IsList(code, jpc, s)
      modifies this`code, this`jpc
      ensures code == Settled(old(code), s) && jpc == NO_JUMP
    {
      ListBounds(code, jpc, s);
      PatchListAux(jpc, |code|, NO_REG, |code|, s);
      PatchedSettled(old(code), code, s);
      jpc := NO_JUMP;
    }

    /** Marks the current position as a jump target. */
    method GetLabel() returns (pc: nat)
      modifies this`lasttarget
      ensures pc == lasttarget == |code|
    {
      lasttarget := |code|;
      return |code|;
    }

    /** Adds the jumps of the list to those pending to the current position. */
    method PatchToHere(list: int, ghost s: set<nat>, ghost j: set<nat>)
      requires IsList(code, jpc, j) && IsList(code, list, s) && j !! s
      modifies this`code, this`jpc, this`lasttarget
      ensures IsList(code, jpc, j + s) && Relinked(old(code), code, if j == {} || s == {} then {} else j)
      ensures lasttarget == |code|
    {
      var _ := GetLabel();
      jpc := Concat(jpc, list, j, s);
    }

    /** Emits an instruction, to which the pending jumps now lead. */
    method Code(i: Instr, ghost j: set<nat>) returns (pc: nat)
      requires IsList(code, jpc, j)
      modifies this`code, this`jpc
      ensures code == Settled(old(code), j) + [i] && jpc == NO_JUMP && pc == |old(code)|
    {
      DischargeJpc(j);
      code := code + [i];
      return |code| - 1;
    }

    /** Emits a jump, in a list with those that were pending to the current position. */
    method Jump(ghost j: set<nat>) returns (pc: nat)
      requires IsList(code, jpc, j)
      modifies this`code, this`jpc
      ensures pc == |old(code)| && jpc == NO_JUMP && |code| == pc + 1 && code[..pc] == old(code) && code[pc].Jmp?
      ensures IsList(code, pc, {pc} + j) && (j == {} ==> code[pc] == Jmp(NO_JUMP))
    {
      ListBounds(code, jpc, j);
      var pending := jpc;
      jpc := NO_JUMP;
      pc := Code(Jmp(NO_JUMP), {});
      SettledNothing(old(code));
      ListSame(old(code), code, pending, j);
      assert {pc} - {pc} == {};
      ghost var before := code;
      var l := Concat(pc, pending, {pc}, j);
      assert forall p :: 0 <= p < pc ==> code[p] == before[p];
    }

    /** Emits a test and the jump that it controls. */
    method CondJump(i: Instr, ghost j: set<nat>) returns (pc: nat)
      requires IsList(code, jpc, j)
      modifies this`code, this`jpc
      ensures code == Settled(old(code), j) + [i, Jmp(NO_JUMP)] && jpc == NO_JUMP && pc == |code| - 1 &&
              IsList(code, pc, {pc})
    {
      var _ := Code(i, j);
      pc := Jump({});
      assert {pc} + {} == {pc};
      assert code == code[..pc] + [code[pc]];
    }

    // ----- loading -----

    /** Loads nil to `n` registers, through the previous instruction if that is possible. */
    method CodeNil(first: nat, n: nat, ghost j: set<nat>)
      requires n >= 1 && IsList(code, jpc, j) && lasttarget <= |code|
      modifies this`code, this`jpc
      ensures var o := old(code);
        || (code == Settled(o, j) + [LoadNil(first, n - 1)] && jpc == NO_JUMP &&
           old(|o| == lasttarget || !o[|o| - 1].LoadNil? || !Connects(o[|o| - 1], first, n)))
        || (|o| > lasttarget && o[|o| - 1].LoadNil? && Connects(o[|o| - 1], first, n) && jpc == old(jpc) &&
            code == o[|o| - 1 := BothNil(o[|o| - 1], first, n)])
    {
      var from, l := first, first + n - 1;
      if |code| > lasttarget {
        var previous := code[|code| - 1];
        if previous.LoadNil? {
          var pfrom := previous.a;
          var pl := pfrom + previous.n;
          if (pfrom <= from <= pl + 1) || (from <= pfrom <= l + 1) {
            if pfrom < from { from := pfrom; }
            if pl > l { l := pl; }
            code := code[|code| - 1 := LoadNil(from, l - from)];
            return;
          }
        }
      }
      var _ := Code(LoadNil(from, n - 1), j);
    }

    /** Adds a constant, unless its index is found. As long as the indices of all constants are found, that is unless it
        is there already. */
    method AddK(v: Value) returns (i: nat)
      modifies this`k, this`h
      ensures i < |k| && k[i] == v && k == if old(Indexed(v)) then old(k) else old(k) + [v]
      ensures old(AllIndexed()) ==> AllIndexed() && k == if v in old(k) then old(k) else old(k) + [v]
    {
      if v in h {
        i := h[v];
        if i < |k| && k[i] == v {
          return;
        }
      }
      i := |k|;
      h := h[v := i];
      k := k + [v];
    }

    ghost predicate Indexed(v: Value)
      reads this`k, this`h
    {
      v in h && h[v] < |k| && k[h[v]] == v
    }

    ghost predicate AllIndexed()
      reads this`k, this`h
    {
      forall v :: v in k ==> Indexed(v)
    }

    // ----- registers -----

    method ReserveRegs(n: nat)
      requires freereg + n < MAXREGS
      modifies this`freereg
      ensures freereg == old(freereg) + n
    {
      freereg := freereg + n;
    }

    /** Frees a register that holds no local variable; only the last one can be freed. */
    method FreeReg(reg: int)
      requires reg < BITRK && (reg >= nactvar ==> reg + 1 == freereg)
      modifies this`freereg
      ensures freereg == if reg >= nactvar then old(freereg) - 1 else old(freereg)
    {
      if reg >= nactvar {
        freereg := freereg - 1;
        assert reg == freereg;
      }
    }

    /** Frees the registers of two operands, the later one first. */
    method FreeExps(e1: ExpDesc, e2: ExpDesc, ghost fr: nat)
      requires nactvar <= fr <= NO_REG && IsOperand(e1.kind, 256) && IsOperand(e2.kind, 256)
      requires var mid := if e1.kind == VNonReloc(fr) then fr + 1 else fr;
               (e1.kind.VNonReloc? ==> e1.kind.info < mid && (e1.kind.info < nactvar || e1.kind.info == fr)) &&
               (e2.kind.VNonReloc? ==> e2.kind.info < nactvar || e2.kind.info == mid) &&
               freereg == if e2.kind == VNonReloc(mid) then mid + 1 else mid
      modifies this`freereg
      ensures freereg == fr
    {
      var r1 := if e1.kind.VNonReloc? then e1.kind.info else -1;
      var r2 := if e2.kind.VNonReloc? then e2.kind.info else -1;
      if r1 > r2 {
        FreeReg(r1);
        FreeReg(r2);
      } else {
        FreeReg(r2);
        FreeReg(r1);
      }
    }

    method FreeExp(e: ExpDesc)
      requires e.kind.VNonReloc? ==> e.kind.info < BITRK && (e.kind.info >= nactvar ==> e.kind.info + 1 == freereg)
      modifies this`freereg
      ensures freereg == if e.kind.VNonReloc? && e.kind.info >= nactvar then old(freereg) - 1 else old(freereg)
    {
      if e.kind.VNonReloc? {
        FreeReg(e.kind.info);
      }
    }

    // ----- half-compiled expressions -----

    ghost predicate Listed(e: ExpDesc, l: Lists)
      reads this`code
    {
      IsList(code, e.t, l.t) && IsList(code, e.f, l.f)
    }

    ghost predicate Tidy(c: Start, l: Lists, k0: seq<Value>)
      reads this
    {
      && Base(c, code, k0, l) && k0 <= k && IsList(code, jpc, l.j) && Labelled(c, code, lasttarget, l)
      && nactvar == c.nactvar
    }

    /** The code emitted since `c` together with the description computes the expression, given the constants `k0`. */
    ghost predicate ComputesWith(c: Start, l: Lists, e: ExpDesc, x: Expr, k0: seq<Value>)
      reads this
    {
      Tidy(c, l, k0) && Listed(e, l) && KindOk(c, code, k0, l, e.kind) && Means(c, code, k0, l, Want(e.kind), x)
    }

    ghost predicate Computes(c: Start, l: Lists, e: ExpDesc, x: Expr)
      reads this
    {
      ComputesWith(c, l, e, x, k)
    }

    /** A constant from the text of the program is neither nil nor false. */
    ghost predicate TrueConstant(e: ExpDesc)
      reads this`k
    {
      e.kind.VK? ==> e.kind.info < |k| && Truthy(k[e.kind.info])
    }

    /** The registers taken since: the one the value is in, unless that is a local variable. */
    ghost predicate RegOk(c: Start, e: ExpDesc)
      reads this`freereg
    {
      || (freereg == c.fr && (e.kind.VNonReloc? || e.kind.VLocal? ==> e.kind.info < c.nactvar))
      || (freereg == c.fr + 1 && e.kind == VNonReloc(c.fr))
    }

    /** Makes sure that the expression is no variable. */
    method DischargeVars(e: ExpDesc, ghost c: Start, ghost l: Lists, ghost x: Expr) returns (e': ExpDesc)
      requires Computes(c, l, e, x)
      ensures Computes(c, l, e', x) && !e'.kind.VLocal?
      ensures e' == if e.kind.VLocal? then e.(kind := VNonReloc(e.kind.info)) else e
      ensures RegOk(c, e) ==> RegOk(c, e')
    {
      hide Base, IsList;
      if e.kind.VLocal? {
        LocalMeans(c, code, k, l, e.kind.info, x);
        assert c.nactvar <= c.fr <= NO_REG by { StartBounds(c, code, k, l); }
        return e.(kind := VNonReloc(e.kind.info));
      }
      return e;
    }

    /** Emits an instruction that puts the value in the register. */
    method Load(i: Instr, e: ExpDesc, reg: nat, ghost c: Start, ghost l: Lists, ghost x: Expr, ghost k0: seq<Value>)
        returns (e': ExpDesc, ghost l': Lists)
      requires ComputesWith(c, l, e, x, k0) && c.fr <= reg < NO_REG && End(e.kind, |code|) == |code|
      requires Loads(e.kind, code, k0, k, i, reg)
      modifies this`code, this`jpc
      ensures Computes(c, l', e', x) && Ended(c, code) && l' == Lists(l.t, l.f, {}) && e' == e.(kind := VNonReloc(reg))
      ensures |code| == |old(code)| + 1 && code[|code| - 1] == i
    {
      hide Base, IsList, Extends, Means, Loads, KindOk, Ended;
      ghost var code0 := code;
      l' := Lists(l.t, l.f, {});
      e' := e.(kind := VNonReloc(reg));
      var _ := Code(i, l.j);
      EmitExtends(code0, l.j, [i]);
      Loaded(c, code0, code, k0, k, l, e, reg, x);
      assert KindOk(c, code, k, l', VNonReloc(reg)) by { RegisterOk(c, code, k, l', reg); }
      assert IsList(code, NO_JUMP, {}) by { NoList(code); }
    }

    method LoadNil1(e: ExpDesc, reg: nat, ghost c: Start, ghost l: Lists, ghost x: Expr)
          returns (e': ExpDesc, ghost l': Lists)
      requires Computes(c, l, e, x) && c.fr <= reg < NO_REG && Sealed(c, code, lasttarget) && e.kind.VNil?
      modifies this`code, this`jpc
      ensures Computes(c, l', e', x) && Ended(c, code) && l'.t == l.t && l'.f == l.f && e' == e.(kind := VNonReloc(reg))
    {
      hide Base, IsList, Extends, Means, Loads, KindOk;
      ghost var code0 := code;
      StartBounds(c, code, k, l);
      e' := e.(kind := VNonReloc(reg));
      CodeNil(reg, 1, l.j);
      if |code| > |code0| {
        l' := Lists(l.t, l.f, {});
        EmitExtends(code0, l.j, [LoadNil(reg, 0)]);
        LoadsNil(code0, k, reg);
        Loaded(c, code0, code, k, k, l, e, reg, x);
        assert IsList(code, NO_JUMP, {}) by { NoList(code); }
      } else {
        l' := l;
        assert |code0| == c.Lo();
        MergeNilMeans(c, code0, code[|code| - 1], k, l, reg, x);
        ListSame(code0, code, e.t, l.t);
        ListSame(code0, code, e.f, l.f);
        ListSame(code0, code, jpc, l.j);
      }
      assert KindOk(c, code, k, l', VNonReloc(reg)) by { RegisterOk(c, code, k, l', reg); }
    }

    /** Makes the last instruction put its value in the register. */
    method Relocate(e: ExpDesc, reg: nat, ghost c: Start, ghost l: Lists, ghost x: Expr) returns (e': ExpDesc)
      requires Computes(c, l, e, x) && c.fr <= reg < NO_REG && e.kind.VRelocable?
      modifies this`code
      ensures Computes(c, l, e', x) && Sealed(c, code, lasttarget) && e' == e.(kind := VNonReloc(reg))
    {
      hide Base, IsList, Extends, Means, Loads;
      ghost var code0 := code;
      var pc := e.kind.info;
      e' := e.(kind := VNonReloc(reg));
      code := code[pc := Not(reg, code[pc].b)];
      assert code == code0[..pc] + [code[pc]];
      CutExtends(code0, pc, [code[pc]]);
      LoadsNot(code0, k, reg, pc);
      Loaded(c, code0, code, k, k, l, e, reg, x);
      assert l == Lists(l.t, l.f, {});
      assert IsList(code, jpc, {}) by { EmptyList(code0, code, jpc); }
    }

    /** Puts the value in the register, unless it is a comparison. */
    method Discharge2Reg(e: ExpDesc, reg: nat, ghost c: Start, ghost l: Lists, ghost x: Expr)
          returns (e': ExpDesc, ghost l': Lists)
      requires Computes(c, l, e, x) && c.fr <= reg < NO_REG && Sealed(c, code, lasttarget)
      modifies this`code, this`jpc, this`k, this`h
      ensures Computes(c, l', e', x) && Ended(c, code) && l'.t == l.t && l'.f == l.f && e'.t == e.t && e'.f == e.f
      ensures e.kind.VJmp? ==> e' == e && l' == l
      ensures !e.kind.VJmp? ==> e'.kind == VNonReloc(reg)
      ensures !e.kind.VNil? ==> Sealed(c, code, lasttarget)
      ensures old(k) <= k
    {
      hide Base, IsList, Extends, Means, Loads, KindOk;
      var e1 := DischargeVars(e, c, l, x);
      l', e' := l, e1;
      match e1.kind
      case VNil =>
        e', l' := LoadNil1(e1, reg, c, l, x);
      case VFalse =>
        LoadsBool(code, k, reg, false);
        e', l' := Load(LoadBool(reg, false, false), e1, reg, c, l, x, k);
      case VTrue =>
        LoadsBool(code, k, reg, true);
        e', l' := Load(LoadBool(reg, true, false), e1, reg, c, l, x, k);
      case VK(i) =>
        KindConstant(c, code, k, l, i);
        LoadsConstant(code, k, k, reg, i);
        e', l' := Load(LoadK(reg, i), e1, reg, c, l, x, k);
      case VKInt(i) =>
        ghost var k0 := k;
        var at := AddK(Int(i));
        LoadsConstant(code, k0, k, reg, at);
        e', l' := Load(LoadK(reg, at), e1, reg, c, l, x, k0);
      case VRelocable(pc) =>
        e' := Relocate(e1, reg, c, l, x);
      case VNonReloc(r) =>
        if reg != r {
          LoadsMove(code, k, reg, r);
          e', l' := Load(Move(reg, r), e1, reg, c, l, x, k);
        }
      case _ =>
    }

    method Discharge2AnyReg(e: ExpDesc, ghost c: Start, ghost l: Lists, ghost x: Expr)
          returns (e': ExpDesc, ghost l': Lists)
      requires Computes(c, l, e, x) && RegOk(c, e) && Sealed(c, code, lasttarget) && c.fr + 1 < MAXREGS &&
               !e.kind.VJmp? && !e.kind.VLocal?
      modifies this`code, this`jpc, this`k, this`h, this`freereg
      ensures Computes(c, l', e', x) && RegOk(c, e') && Ended(c, code) && l'.t == l.t && l'.f == l.f && e'.t == e.t &&
              e'.f == e.f
      ensures e'.kind.VNonReloc? && old(k) <= k
    {
      hide Base, IsList, Means, KindOk, Sealed, Ended;
      e', l' := e, l;
      if !e.kind.VNonReloc? {
        ReserveRegs(1);
        e', l' := Discharge2Reg(e, freereg - 1, c, l, x);
      } else {
        SealedEnded(c, code, lasttarget);
      }
    }

    method CodeLoadBool(a: nat, b: bool, jump: bool, ghost j: set<nat>) returns (pc: nat)
      requires IsList(code, jpc, j)
      modifies this`code, this`jpc, this`lasttarget
      ensures code == Settled(old(code), j) + [LoadBool(a, b, jump)] && jpc == NO_JUMP &&
              pc == lasttarget == |old(code)|
    {
      var _ := GetLabel();
      pc := Code(LoadBool(a, b, jump), j);
    }

    /** Whether the list has a jump whose test yields no value. */
    method NeedValue(head: int, ghost s: set<nat>) returns (b: bool)
      requires IsList(code, head, s)
      ensures b == exists j :: j in s && !YieldsValue(code, j)
    {
      var list := head;
      ghost var rest := s;
      while list != NO_JUMP
        invariant rest <= s && IsList(code, list, rest) && forall j :: j in s - rest ==> YieldsValue(code, j)
        decreases |rest|
      {
        var i := if list >= 1 && IsTest(code[list - 1]) then code[list - 1] else code[list];
        if !i.TestSet? {
          assert list in s && !YieldsValue(code, list);
          return true;
        }
        rest := rest - {list as nat};
        list := GetJump(code, list);
      }
      assert s - rest == s;
      return false;
    }

    /** Emits code that loads false and code that loads true, unless every test yields a value. */
    method LoadTruths(e: ExpDesc, reg: nat, ghost c: Start, ghost l: Lists)
          returns (pf: int, pt: int, ghost j: set<nat>)
      requires Listed(e, l) && IsList(code, jpc, l.j) && (e.kind.VFalse? ==> l.j == {}) &&
               (e.kind.VFalse? || e.kind == VNonReloc(reg))
      requires e.kind.VFalse? ==> exists j :: (j in l.t || j in l.f) && !YieldsValue(code, j)
      requires forall p :: p in l.t || p in l.f || p in l.j ==> p < |code|
      modifies this`code, this`jpc, this`lasttarget
      ensures |old(code)| <= |code| && code[..|old(code)|] == old(code) && IsList(code, jpc, j)
      ensures AllYield(old(code), l) || pt == pf + 1
      ensures Tail(old(code), code, l, e.kind, reg, pf, j)
    {
      hide IsList;
      var needT := NeedValue(e.t, l.t);
      var needF := NeedValue(e.f, l.f);
      pf, pt, j := NO_JUMP, NO_JUMP, l.j;
      if needT || needF {
        ghost var code0 := code;
        var fj := NO_JUMP;
        j := {};
        if !e.kind.VFalse? {
          fj := Jump(l.j);
          j := l.j + {fj as nat};
          assert {fj as nat} + l.j == j;
        } else {
          NoList(code);
          EmptyList(code, code, jpc);
        }
        ghost var code1 := code;
        NoList(code);
        pf := CodeLoadBool(reg, false, true, {});
        SettledNothing(code1);
        ghost var code2 := code;
        NoList(code);
        pt := CodeLoadBool(reg, true, false, {});
        SettledNothing(code2);
        NoList(code);
        ListSame(code1, code, fj, j);
        PatchToHere(fj, j, {});
        assert {} + j == j;
        assert code == code1 + [LoadBool(reg, false, true), LoadBool(reg, true, false)];
      }
    }

    /** Makes the jumps of the expression lead to where its value is in the register. */
    method PatchValues(e: ExpDesc, reg: nat, ghost c: Start, ghost l: Lists, ghost x: Expr) returns (ghost l': Lists)
      requires Tidy(c, l, k) && Listed(e, l) && Means(c, code, k, l, Want(e.kind), x) && HasJumps(e) &&
               c.fr <= reg < NO_REG
      requires e.kind.VFalse? || e.kind == VNonReloc(reg)
      requires e.kind.VFalse? ==> l.j == {} && exists j :: (j in l.t || j in l.f) && !YieldsValue(code, j)
      requires Ended(c, code)
      modifies this`code, this`jpc, this`lasttarget
      ensures Tidy(c, l', k) && Means(c, code, k, l', Want(VNonReloc(reg)), x) && NoLists(l') &&
              Sealed(c, code, lasttarget)
    {
      hide Base, IsList, Means, Finished, Patched, Tail, YieldsValue, IsTest;
      ghost var code0 := code;
      ListsInside(c, code, k, l);
      ListBounds(code, e.t, l.t);
      ListBounds(code, e.f, l.f);
      StartBounds(c, code, k, l);
      var pf, pt;
      ghost var j;
      pf, pt, j := LoadTruths(e, reg, c, l);
      ghost var code1 := code;
      TailPending(c, code0, code1, k, l, e.kind, reg, pf, j);
      var final := GetLabel();
      ListSame(code0, code, e.t, l.t);
      ListSame(code0, code, e.f, l.f);
      PatchListAux(e.f, final, reg, pf, l.f);
      PatchedList(code1, code, l.f, final, reg, pf, e.t, l.t);
      PatchedList(code1, code, l.f, final, reg, pf, jpc, j);
      ghost var code2 := code;
      PatchListAux(e.t, final, reg, pt, l.t);
      PatchedList(code2, code, l.t, final, reg, pt, jpc, j);
      AllYieldTests(code0, l);
      FinishedBy(code0, code1, code2, code, l, reg, pf, pt);
      PatchedLength(code1, code2, l.f, final, reg, pf);
      PatchedLength(code2, code, l.t, final, reg, pt);
      TailPatched(code0, code1, code, l, e.kind, reg, pf, j);
      FinishMeans(c, code0, code, k, l, e.kind, reg, pf, j, x);
      l' := Lists({}, {}, j);
      TailEnds(c, code0, code, l, e.kind, reg, pf, j);
    }

    /** Puts the open jump of a comparison among those to take when it is true. */
    method OpenComparison(e: ExpDesc, ghost c: Start, ghost l: Lists, ghost x: Expr) returns (t: int, ghost l': Lists)
      requires Computes(c, l, e, x) && e.kind.VJmp?
      modifies this`code
      ensures Tidy(c, l', k) && Listed(ExpDesc(VFalse, t, e.f), l') && Means(c, code, k, l', Want(VFalse), x) &&
              l'.j == {}
      ensures t != e.f && (exists j :: (j in l'.t || j in l'.f) && !YieldsValue(code, j)) && Ended(c, code)
    {
      hide Base, IsList, Means, Within;
      ghost var code0 := code;
      var pc := e.kind.info;
      l' := Lists(l.t + {pc}, l.f, {});
      OpenBeforeEnd(c, code, k, l, e.kind);
      ListsInside(c, code, k, l);
      ComparisonOpen(c, code, k, l, pc, x);
      OneJump(code, pc);
      t := Concat(e.t, pc, l.t, {pc});
      ghost var s := if l.t == {} || {pc} == {} then {} else l.t;
      WithinOpen(c, code0, l', s);
      RelinkedMeans(c, code0, code, k, l', Want(VFalse), x, s);
      ListSame(code0, code, e.f, l.f);
      EmptyList(code0, code, jpc);
      ListBounds(code, t, l'.t);
      ListHead(code, t, l'.t);
      ListHead(code, e.f, l'.f);
      assert pc in l'.t && !YieldsValue(code, pc);
    }

    /** Brings the value of the expression, including what its jumps yield, to the register. */
    method Exp2Reg(e: ExpDesc, reg: nat, ghost c: Start, ghost l: Lists, ghost x: Expr)
          returns (e': ExpDesc, ghost l': Lists)
      requires Computes(c, l, e, x) && c.fr <= reg < NO_REG && Sealed(c, code, lasttarget)
      modifies this`code, this`jpc, this`k, this`h, this`lasttarget
      ensures Computes(c, l', e', x) && e' == ExpDesc(VNonReloc(reg), NO_JUMP, NO_JUMP) && NoLists(l')
      ensures Ended(c, code) && (!e.kind.VNil? || HasJumps(e) ==> Sealed(c, code, lasttarget)) && old(k) <= k
    {
      hide Base, IsList, Means, Sealed, Ended, YieldsValue, Labelled;
      e', l' := Discharge2Reg(e, reg, c, l, x);
      var t, f, kind := e'.t, e'.f, e'.kind;
      if e'.kind.VJmp? {
        kind := VFalse;
        t, l' := OpenComparison(e', c, l', x);
      }
      if t != f {
        l' := PatchValues(ExpDesc(kind, t, f), reg, c, l', x);
        SealedEnded(c, code, lasttarget);
      } else {
        ListsInside(c, code, k, l');
        NoJumps(code, t, f, l');
      }
      e' := ExpDesc(VNonReloc(reg), NO_JUMP, NO_JUMP);
      assert IsList(code, NO_JUMP, {}) by { NoList(code); }
      assert KindOk(c, code, k, l', VNonReloc(reg)) by { RegisterOk(c, code, k, l', reg); }
    }

    method Exp2NextReg(e: ExpDesc, ghost c: Start, ghost l: Lists, ghost x: Expr) returns (e': ExpDesc, ghost l': Lists)
      requires Computes(c, l, e, x) && RegOk(c, e) && Sealed(c, code, lasttarget) && c.fr + 1 < MAXREGS
      modifies this`code, this`jpc, this`k, this`h, this`lasttarget, this`freereg
      ensures Computes(c, l', e', x) && e' == ExpDesc(VNonReloc(c.fr), NO_JUMP, NO_JUMP) && NoLists(l') &&
              freereg == c.fr + 1
      ensures Ended(c, code) && (!e.kind.VNil? || HasJumps(e) ==> Sealed(c, code, lasttarget)) && old(k) <= k
    {
      hide Base, IsList, Means, Sealed, Ended, KindOk, Labelled;
      StartBounds(c, code, k, l);
      var e1 := DischargeVars(e, c, l, x);
      FreeExp(e1);
      ReserveRegs(1);
      e', l' := Exp2Reg(e1, freereg - 1, c, l, x);
    }

    /** Brings the value to some register. */
    method Exp2AnyReg(e: ExpDesc, ghost c: Start, ghost l: Lists, ghost x: Expr) returns (e': ExpDesc, ghost l': Lists)
      requires Computes(c, l, e, x) && RegOk(c, e) && Sealed(c, code, lasttarget) && c.fr + 1 < MAXREGS &&
               (!e.kind.VNil? || HasJumps(e))
      modifies this`code, this`jpc, this`k, this`h, this`lasttarget, this`freereg
      ensures Computes(c, l', e', x) && RegOk(c, e') && Sealed(c, code, lasttarget) && old(k) <= k
      ensures e'.kind.VNonReloc? && !HasJumps(e') && NoLists(l')
    {
      hide Base, IsList, Means, Sealed, Ended, KindOk, Labelled;
      StartBounds(c, code, k, l);
      var e1 := DischargeVars(e, c, l, x);
      if e1.kind.VNonReloc? {
        if !HasJumps(e1) {
          ListsInside(c, code, k, l);
          NoJumps(code, e1.t, e1.f, l);
          return e1, l;
        }
        if e1.kind.info >= nactvar {
          e', l' := Exp2Reg(e1, e1.kind.info, c, l, x);
          return;
        }
      }
      e', l' := Exp2NextReg(e1, c, l, x);
    }

    method Exp2Val(e: ExpDesc, ghost c: Start, ghost l: Lists, ghost x: Expr) returns (e': ExpDesc, ghost l': Lists)
      requires Computes(c, l, e, x) && RegOk(c, e) && Sealed(c, code, lasttarget) && c.fr + 1 < MAXREGS
      modifies this`code, this`jpc, this`k, this`h, this`lasttarget, this`freereg
      ensures Computes(c, l', e', x) && RegOk(c, e') && Sealed(c, code, lasttarget) && old(k) <= k
      ensures !HasJumps(e') && NoLists(l') && !e'.kind.VLocal?
    {
      hide Base, IsList, Means, Sealed, Ended, KindOk, Labelled;
      if HasJumps(e) {
        e', l' := Exp2AnyReg(e, c, l, x);
      } else {
        ListsInside(c, code, k, l);
        NoJumps(code, e.t, e.f, l);
        e' := DischargeVars(e, c, l, x);
        l' := l;
      }
    }

    /** The operand is in the constants, at `rk - BITRK`, or in the register `rk`. */
    ghost predicate Operand(c: Start, l: Lists, e: ExpDesc, x: Expr)
      reads this
    {
      && Computes(c, l, e, x) && RegOk(c, e) && Sealed(c, code, lasttarget) && NoLists(l) && !HasJumps(e)
      && (e.kind.VNonReloc? || (e.kind.VK? && e.kind.info <= MAXINDEXRK))
    }

    method UseConstant(e: ExpDesc, v: Value, ghost c: Start, ghost l: Lists, ghost x: Expr) returns (e': ExpDesc)
      requires Computes(c, l, e, x) && RegOk(c, e) && Sealed(c, code, lasttarget) && NoLists(l) && !HasJumps(e) &&
               ConstantOf(e.kind, k, v)
      modifies this`k, this`h
      ensures Computes(c, l, e', x) && RegOk(c, e') && !HasJumps(e') && e'.kind.VK? && old(k) <= k
    {
      hide Base, IsList, Means, Labelled;
      ghost var k0 := k;
      var i := AddK(v);
      ConstantMeans(c, code, k0, k, l, e.kind, i, x);
      e' := e.(kind := VK(i));
    }

    /** Brings the value to where a comparison can find it. */
    method Exp2RK(e: ExpDesc, ghost c: Start, ghost l: Lists, ghost x: Expr)
          returns (e': ExpDesc, rk: nat, ghost l': Lists)
      requires Computes(c, l, e, x) && RegOk(c, e) && Sealed(c, code, lasttarget) && c.fr + 1 < MAXREGS
      modifies this`code, this`jpc, this`k, this`h, this`lasttarget, this`freereg
      ensures Operand(c, l', e', x) && old(k) <= k
      ensures rk == if e'.kind.VK? then BITRK + e'.kind.info else e'.kind.info
    {
      hide Base, IsList, Means, Sealed, Ended, Labelled;
      e', l' := Exp2Val(e, c, l, x);
      match e'.kind {
        case VTrue => e' := UseConstant(e', Bool(true), c, l', x);
        case VFalse => e' := UseConstant(e', Bool(false), c, l', x);
        case VNil => e' := UseConstant(e', Nil, c, l', x);
        case VKInt(i) => e' := UseConstant(e', Int(i), c, l', x);
        case _ =>
      }
      if e'.kind.VK? && e'.kind.info <= MAXINDEXRK {
        rk := BITRK + e'.kind.info;
      } else {
        e', l' := Exp2AnyReg(e', c, l', x);
        rk := e'.kind.info;
      }
    }

    // ----- conditions -----

    /** Makes the comparison that controls the jump the opposite one. */
    method NegateCondition(pc: nat)
      requires 0 < pc < |code| && IsComparison(code[pc - 1])
      modifies this`code
      ensures code == old(code)[pc - 1 := Flipped(old(code)[pc - 1])]
      ensures IsComparison(code[pc - 1]) && Opposed(old(code)[pc - 1], code[pc - 1])
    {
      var i := code[pc - 1];
      code := code[pc - 1 := match i case Eq(a, b, d) => Eq(!a, b, d) case Lt(a, b, d) =>
        Lt(!a, b, d) case Le(a, b, d) => Le(!a, b, d)];
    }

    /** Emits a test of the value and a jump to be taken if its truth is `cond`; a `not` just emitted is
        dropped and the test inverted. */
    method JumpOnCond(e: ExpDesc, cond: bool, ghost c: Start, ghost l: Lists, ghost x: Expr)
          returns (pc: nat, ghost l': Lists)
      requires Computes(c, l, e, x) && RegOk(c, e) && Sealed(c, code, lasttarget) && c.fr + 1 < MAXREGS &&
               !e.kind.VJmp? && !e.kind.VLocal?
      modifies this`code, this`jpc, this`k, this`h, this`freereg
      ensures Tidy(c, l', k) && Listed(e, l) && IsList(code, pc, {pc}) && Means(c, code, k, l', Goes(!cond), x) &&
              Ended(c, code)
      ensures l' == Branch(l, cond, pc) && pc !in l.t && pc !in l.f && freereg == c.fr && old(k) <= k
    {
      hide Base, IsList, Means, Extends, Decides, OpenBefore, Ended, Sealed;
      OpenBeforeEnd(c, code, k, l, e.kind);
      StartBounds(c, code, k, l);
      if e.kind.VRelocable? {
        ghost var code0 := code;
        var ie := code[e.kind.info];
        code := code[..|code| - 1];
        ghost var code1 := code;
        assert IsList(code, jpc, {}) by { EmptyList(code0, code, jpc); }
        pc := CondJump(Test(ie.b, !cond), {});
        SettledNothing(code1);
        l' := Branch(l, cond, pc);
        CutExtends(code0, e.kind.info, [Test(ie.b, !cond), Jmp(NO_JUMP)]);
        DecidesNot(code0, k, e.kind.info, cond);
        Conditional(c, code0, code, k, l, e.kind, cond, x);
        ExtendsLists(c, code0, code, k, l, e.kind.info, e);
        Fresh(c, code0, k, l, e.kind, pc);
      } else {
        var e1;
        ghost var l1;
        e1, l1 := Discharge2AnyReg(e, c, l, x);
        ghost var code0 := code;
        OpenBeforeEnd(c, code, k, l1, e1.kind);
        FreeExp(e1);
        var i := TestSet(NO_REG, e1.kind.info, cond);
        pc := CondJump(i, l1.j);
        l' := Branch(l1, cond, pc);
        EmitExtends(code0, l1.j, [i, Jmp(NO_JUMP)]);
        DecidesRegister(code0, k, e1.kind.info, cond);
        Conditional(c, code0, code, k, l1, e1.kind, cond, x);
        ExtendsLists(c, code0, code, k, l1, |code0|, e1);
        Fresh(c, code0, k, l1, e1.kind, pc);
      }
      assert IsList(code, jpc, {}) by { NoList(code); }
      EndsInJump(c, code);
    }

    /** The code goes on exactly when the truth of the expression is `b`; else it jumps, and the jumps are those
        of `list`. */
    ghost predicate Gated(c: Start, l: Lists, list: int, b: bool, x: Expr)
      reads this
    {
      && Tidy(c, l, k) && IsList(code, list, if b then l.f else l.t) && (if b then l.t else l.f) == {}
      && Means(c, code, k, l, Goes(b), x) && lasttarget == |code| && freereg == c.fr && Ended(c, code)
    }

    /** The code goes on if the truth of the expression is `b`, and the new jump, if any, is in no list yet. */
    ghost predicate Branches(c: Start, l: Lists, b: bool, s: set<nat>, pc: int, keep: int, here: int, x: Expr)
      reads this
    {
      && Tidy(c, l, k) && IsList(code, pc, s) && Means(c, code, k, l, Goes(b), x) && freereg == c.fr && Ended(c, code)
      && IsList(code, keep, (if b then l.f else l.t) - s) && IsList(code, here, if b then l.t else l.f) &&
         s <= if b then l.f else l.t
    }

    /** Adds the new jump, if any, to the list. */
    method InsertJump(keep: int, pc: int, b: bool, ghost s: set<nat>, ghost here: int, ghost c: Start, ghost l: Lists,
                      ghost x: Expr)
        returns (list: int)
      requires Branches(c, l, b, s, pc, keep, here, x)
      modifies this`code
      ensures Branches(c, l, b, {}, NO_JUMP, list, here, x)
    {
      hide Base, IsList, Means, Within, Relinked, Ended;
      ghost var code0 := code;
      ListsInside(c, code, k, l);
      ghost var all := if b then l.f else l.t;
      ghost var kept := all - s;
      list := Concat(keep, pc, kept, s);
      assert kept + s == all && all - {} == all;
      ghost var s1 := if kept == {} || s == {} then {} else kept;
      WithinLists(c, code0, k, l, s1);
      RelinkedMeans(c, code0, code, k, l, Goes(b), x, s1);
      RelinkedList(code0, code, s1, here, if b then l.t else l.f);
      RelinkedList(code0, code, s1, jpc, l.j);
      EndedRelinked(c, code0, code, s1);
      NoList(code);
      RelinkedLength(code0, code, s1);
    }

    /** Makes the other list lead to the current position. */
    method ListToHere(here: int, b: bool, ghost list: int, ghost c: Start, ghost l: Lists, ghost x: Expr)
          returns (ghost l': Lists)
      requires Branches(c, l, b, {}, NO_JUMP, list, here, x)
      modifies this`code, this`jpc, this`lasttarget
      ensures Gated(c, l', list, b, x)
    {
      hide Base, IsList, Means, Within, Relinked, Ended;
      ghost var code0 := code;
      ghost var moved, all := if b then l.t else l.f, if b then l.f else l.t;
      assert all - {} == all;
      ListsInside(c, code, k, l);
      PatchToHere(here, moved, l.j);
      ghost var s2 := if l.j == {} || moved == {} then {} else l.j;
      WithinLists(c, code0, k, l, s2);
      RelinkedMeans(c, code0, code, k, l, Goes(b), x, s2);
      RelinkedList(code0, code, s2, list, all);
      ToHereMeans(c, code, k, l, b, x);
      l' := ToHere(l, b);
      EndedRelinked(c, code0, code, s2);
      StartBounds(c, code, k, l);
    }

    /** Emits code to go on if the expression is true. */
    method GoIfTrue(e: ExpDesc, ghost c: Start, ghost l: Lists, ghost x: Expr) returns (e': ExpDesc, ghost l': Lists)
      requires Computes(c, l, e, x) && RegOk(c, e) && Sealed(c, code, lasttarget) && c.fr + 1 < MAXREGS &&
               TrueConstant(e)
      modifies this`code, this`jpc, this`k, this`h, this`freereg, this`lasttarget
      ensures Gated(c, l', e'.f, true, x) && e'.t == NO_JUMP && old(k) <= k
    {
      hide Base, IsList, Means, Sealed, Ended;
      var e1 := DischargeVars(e, c, l, x);
      var pc: int := NO_JUMP;
      ghost var s, l1: Lists := {}, l;
      SealedEnded(c, code, lasttarget);
      if e1.kind.VJmp? {
        ghost var code0 := code;
        NegateCondition(e1.kind.info);
        BranchComparison(c, code0, code, k, l, e1, false, x);
        pc, s, l1 := e1.kind.info, {e1.kind.info}, Branch(l, false, e1.kind.info);
      } else if e1.kind.VK? || e1.kind.VKInt? || e1.kind.VTrue? {
        KnownMeans(c, code, k, l, e1.kind, true, x);
        NoList(code);
      } else {
        pc, l1 := JumpOnCond(e1, false, c, l, x);
        s := {pc as nat};
      }
      assert l1.f - s == l.f;
      var f := InsertJump(e1.f, pc, true, s, e1.t, c, l1, x);
      l' := ListToHere(e1.t, true, f, c, l1, x);
      e' := ExpDesc(e1.kind, NO_JUMP, f);
    }

    /** Emits code to go on if the expression is false. */
    method GoIfFalse(e: ExpDesc, ghost c: Start, ghost l: Lists, ghost x: Expr) returns (e': ExpDesc, ghost l': Lists)
      requires Computes(c, l, e, x) && RegOk(c, e) && Sealed(c, code, lasttarget) && c.fr + 1 < MAXREGS
      modifies this`code, this`jpc, this`k, this`h, this`freereg, this`lasttarget
      ensures Gated(c, l', e'.t, false, x) && e'.f == NO_JUMP && old(k) <= k
    {
      hide Base, IsList, Means, Sealed, Ended;
      var e1 := DischargeVars(e, c, l, x);
      var pc: int := NO_JUMP;
      ghost var s, l1: Lists := {}, l;
      SealedEnded(c, code, lasttarget);
      if e1.kind.VJmp? {
        BranchComparison(c, code, code, k, l, e1, true, x);
        pc, s, l1 := e1.kind.info, {e1.kind.info}, Branch(l, true, e1.kind.info);
      } else if e1.kind.VNil? || e1.kind.VFalse? {
        KnownMeans(c, code, k, l, e1.kind, false, x);
        NoList(code);
      } else {
        pc, l1 := JumpOnCond(e1, true, c, l, x);
        s := {pc as nat};
      }
      assert l1.t - s == l.t;
      var t := InsertJump(e1.t, pc, false, s, e1.f, c, l1, x);
      l' := ListToHere(e1.f, false, t, c, l1, x);
      e' := ExpDesc(e1.kind, t, NO_JUMP);
    }

    method EmitNot(e: ExpDesc, ghost c: Start, ghost l: Lists, ghost x: Expr)
        returns (e': ExpDesc, kind: Kind, ghost l': Lists, ghost code0: seq<Instr>)
      requires Computes(c, l, e, x) && RegOk(c, e) && Sealed(c, code, lasttarget) && c.fr + 1 < MAXREGS &&
               !e.kind.VJmp? && !e.kind.VLocal?
      modifies this`code, this`jpc, this`k, this`h, this`freereg
      ensures Base(c, code0, k, l') && Means(c, code0, k, l', Want(e'.kind), x) && KindOk(c, code0, k, l', e'.kind)
      ensures e'.kind.VNonReloc? && Listed(e', l') && jpc == NO_JUMP && freereg == c.fr && kind.VRelocable?
      ensures NotStep(code0, code, l', l'.j, e'.kind, kind) && lasttarget <= |code0| < |code| && old(k) <= k
    {
      hide Base, IsList, Means, Quieting, KindOk, Sealed, Ended, Extends, OpenBefore;
      StartBounds(c, code, k, l);
      e', l' := Discharge2AnyReg(e, c, l, x);
      FreeExp(e');
      code0 := code;
      var pc := Code(Not(0, e'.kind.info), l'.j);
      kind := VRelocable(pc);
      EmitExtends(code0, l'.j, [Not(0, e'.kind.info)]);
      OpenBeforeEnd(c, code0, k, l', e'.kind);
      ExtendsLists(c, code0, code, k, l', |code0|, e');
    }

    /** Negates the expression and swaps its lists. */
    method CodeNot(e: ExpDesc, ghost c: Start, ghost l: Lists, ghost x: Expr) returns (e': ExpDesc, ghost l': Lists)
      requires Computes(c, l, e, x) && RegOk(c, e) && Sealed(c, code, lasttarget) && c.fr + 1 < MAXREGS &&
               TrueConstant(e)
      modifies this`code, this`jpc, this`k, this`h, this`freereg
      ensures Computes(c, l', e', NotOf(x)) && RegOk(c, e') && Sealed(c, code, lasttarget) && TrueConstant(e') &&
              old(k) <= k
    {
      hide Base, IsList, Means, Quieting, KindOk, Sealed, Ended, Extends, OpenBefore;
      StartBounds(c, code, k, l);
      var e1 := DischargeVars(e, c, l, x);
      ghost var l1, j := l, {};
      ghost var code0 := code;
      var kind := e1.kind;
      if e1.kind.VNil? || e1.kind.VFalse? {
        kind := VTrue;
      } else if e1.kind.VK? || e1.kind.VKInt? || e1.kind.VTrue? {
        kind := VFalse;
      } else if e1.kind.VJmp? {
        ComparisonAt(c, code, k, l, e1.kind);
        NegateCondition(e1.kind.info);
        BranchComparison(c, code0, code, k, l, e1, false, x);
      } else {
        e1, kind, l1, code0 := EmitNot(e1, c, l, x);
        j := l1.j;
        NoList(code);
      }
      assert l1.j - j == if j == {} then l1.j else {};
      l' := Lists(l1.f, l1.t, l1.j - j);
      e' := SwapLists(e1, kind, c, l1, j, code0, x);
    }

    method SwapLists(e: ExpDesc, kind: Kind, ghost c: Start, ghost l: Lists, ghost j: set<nat>, ghost code0: seq<Instr>,
                     ghost x: Expr)
        returns (e': ExpDesc)
      requires Base(c, code0, k, l) && Means(c, code0, k, l, Want(e.kind), x) && KindOk(c, code0, k, l, e.kind)
      requires Listed(e, l) && IsList(code, jpc, l.j - j) && NotStep(code0, code, l, j, e.kind, kind) && TrueConstant(e)
      requires nactvar == c.nactvar && lasttarget <= |code| && c.lasttarget <= lasttarget &&
               (l.j - j != {} ==> lasttarget == |code|)
      requires |code| == |code0| && !e.kind.VJmp? ==> Sealed(c, code0, lasttarget)
      modifies this`code
      ensures Computes(c, Lists(l.f, l.t, l.j - j), e', NotOf(x)) && e' == ExpDesc(kind, e.f, e.t) &&
              Sealed(c, code, lasttarget)
    {
      hide Base, IsList, Means, Quieting, KindOk, NotStep, IsTest;
      ghost var code1 := code;
      var t, f := e.f, e.t;
      ListBounds(code, e.t, l.t);
      ListBounds(code, e.f, l.f);
      ListsInside(c, code0, k, l);
      RemoveValues(f, l.t);
      ghost var code2 := code;
      QuietingList(code1, code2, l.t, e.f, l.f);
      QuietingList(code1, code2, l.t, jpc, l.j - j);
      RemoveValues(t, l.f);
      QuietingList(code2, code, l.f, jpc, l.j - j);
      NotDone(c, code0, code1, code2, code, k, l, j, e, kind, x);
      e' := ExpDesc(kind, t, f);
    }

    // ----- operators -----

    ghost predicate Done(c: Start, l: Lists, e: ExpDesc, x: Expr)
      reads this
    {
      Computes(c, l, e, x) && RegOk(c, e) && Sealed(c, code, lasttarget) && TrueConstant(e)
    }

    /** What was compiled so far as the start of what comes next. */
    ghost function StartHere(j: set<nat>): Start
      reads this
    {
      Start(code, k, lasttarget, freereg, nactvar, j)
    }

    /** The first operand is ready for the second to be compiled. */
    ghost predicate Ready(op: BinOpr, c: Start, l: Lists, e: ExpDesc, x: Expr)
      reads this
    {
      match op
      case OprAnd => Gated(c, l, e.f, true, x)
      case OprOr => Gated(c, l, e.t, false, x)
      case _ => Operand(c, l, e, x)
    }

    /** Deals with the first operand before the second is compiled. */
    method Infix(op: BinOpr, e: ExpDesc, ghost c: Start, ghost l: Lists, ghost x: Expr)
          returns (e': ExpDesc, ghost l': Lists)
      requires Done(c, l, e, x) && c.fr + 1 < MAXREGS
      modifies this`code, this`jpc, this`k, this`h, this`freereg, this`lasttarget
      ensures Ready(op, c, l', e', x) && old(k) <= k
      ensures op.OprAnd? ==> e'.t == NO_JUMP
      ensures op.OprOr? ==> e'.f == NO_JUMP
    {
      hide Base, IsList, Means, Sealed, Ended, KindOk, Labelled;
      match op
      case OprAnd => e', l' := GoIfTrue(e, c, l, x);
      case OprOr => e', l' := GoIfFalse(e, c, l, x);
      case _ =>
        var rk;
        e', rk, l' := Exp2RK(e, c, l, x);
    }

    /** Joins the second operand of `and` or `or` to the first. */
    method JoinOperands(op: BinOpr, e1: ExpDesc, e2: ExpDesc, ghost c: Start, ghost l1: Lists, ghost x1: Expr,
                        ghost c2: Start, ghost l2: Lists, ghost x2: Expr) returns (e: ExpDesc, ghost l: Lists)
      requires IsLogical(op) && Follows(c, l1, c2) && c2.lasttarget == c2.Lo() && Scoped(x2, c.nactvar) && c2.fr == c.fr
      requires Means(c, c2.code, c2.k, l1, Goes(op.OprAnd?), x1) && (if op.OprAnd? then l1.t else l1.f) == {}
      requires if op.OprAnd? then IsList(c2.code, e1.f, l1.f) else IsList(c2.code, e1.t, l1.t)
      requires Done(c2, l2, e2, x2)
      modifies this`code
      ensures Done(c, l, e, Binary(op, x1, x2))
    {
      hide Base, IsList, Means, Sealed, Ended, KindOk, Labelled, Follows, Within, Relinked;
      var e3 := DischargeVars(e2, c2, l2, x2);
      l := Join(l1, l2);
      JoinReady(c, l1, c2, code, k, l2, op, e3.kind, x1, x2, lasttarget);
      if op.OprAnd? {
        JoinLists(c, l1, c2, code, k, l2, e1.f, l1.f);
        assert l.t == l2.t && l.f == l2.f + l1.f;
        var f := LinkLists(e3.f, e1.f, l2.f, l1.f, e3.t, l2.t, e3.kind, c, l, Binary(op, x1, x2));
        e := e3.(f := f);
      } else {
        JoinLists(c, l1, c2, code, k, l2, e1.t, l1.t);
        assert l.f == l2.f && l.t == l2.t + l1.t;
        var t := LinkLists(e3.t, e1.t, l2.t, l1.t, e3.f, l2.f, e3.kind, c, l, Binary(op, x1, x2));
        e := e3.(t := t);
      }
    }

    /** Links one list to another of the same expression. */
    method LinkLists(head: int, head2: int, ghost s: set<nat>, ghost s2: set<nat>, ghost other: int, ghost so: set<nat>,
                     ghost kind: Kind,
                     ghost c: Start, ghost l: Lists, ghost x: Expr) returns (list: int)
      requires Tidy(c, l, k) && KindOk(c, code, k, l, kind) && Means(c, code, k, l, Want(kind), x) &&
               Sealed(c, code, lasttarget)
      requires IsList(code, head, s) && IsList(code, head2, s2) && IsList(code, other, so) && s !! s2 && so !! s &&
               s !! l.j
      requires s <= l.t || s <= l.f
      modifies this`code
      ensures Tidy(c, l, k) && KindOk(c, code, k, l, kind) && Means(c, code, k, l, Want(kind), x) &&
              Sealed(c, code, lasttarget)
      ensures IsList(code, list, s + s2) && IsList(code, other, so)
    {
      hide Base, IsList, Means, Sealed, KindOk, Labelled, Within, Relinked;
      ghost var code0 := code;
      ListsInside(c, code, k, l);
      list := Concat(head, head2, s, s2);
      ghost var s1 := if s == {} || s2 == {} then {} else s;
      RelinkedList(code0, code, s1, other, so);
      RelinkedList(code0, code, s1, jpc, l.j);
      WithinLists(c, code0, k, l, s1);
      RelinkedMeans(c, code0, code, k, l, Want(kind), x, s1);
      SealedRelinked(c, code0, code, s1, lasttarget, l);
    }

    /** Emits a comparison. */
    method CodeComp(op: BinOpr, e1: ExpDesc, e2: ExpDesc, ghost c: Start, ghost l1: Lists, ghost x1: Expr,
                    ghost c2: Start, ghost l2: Lists, ghost x2: Expr) returns (e: ExpDesc, ghost l: Lists)
      requires !IsLogical(op) && Follows(c, l1, c2) && Scoped(x2, c.nactvar) && NoLists(l1) && c2.fr + 1 < MAXREGS
      requires Means(c, c2.code, c2.k, l1, Want(e1.kind), x1) && IsOperand(e1.kind, c2.fr)
      requires (e1.kind.VK? ==> e1.kind.info < |c2.k|) &&
               (e1.kind.VNonReloc? ==> e1.kind.info < c.nactvar || e1.kind.info == c.fr)
      requires c2.fr == if e1.kind == VNonReloc(c.fr) then c.fr + 1 else c.fr
      requires Done(c2, l2, e2, x2)
      modifies this`code, this`jpc, this`k, this`h, this`freereg, this`lasttarget
      ensures Done(c, l, e, Binary(op, x1, x2)) && old(k) <= k
    {
      hide Base, IsList, Means, Sealed, Ended, Labelled, Follows, Extends, Compares;
      StartBounds(c2, code, k, l2);
      var rk1 := Index(e1.kind);
      var e3, rk2;
      ghost var l3;
      e3, rk2, l3 := Exp2RK(e2, c2, l2, x2);
      ghost var code0 := code;
      StartBounds(c2, code, k, l3);
      FollowsBounds(c, l1, c2);
      FreeExps(e1, e3, c.fr);
      var pc := CondJump(Comparison(op, rk1, rk2), l3.j);
      l := Lists({}, {}, {});
      e := ExpDesc(VJmp(pc), NO_JUMP, NO_JUMP);
      CompareDone(c, l1, e1.kind, x1, c2, code0, k, l3, e3.kind, x2, code, op, lasttarget);
      NoList(code);
    }

    /** Finishes a binary operation once its second operand is compiled. */
    method Posfix(op: BinOpr, e1: ExpDesc, e2: ExpDesc, ghost c: Start, ghost l1: Lists, ghost x1: Expr,
                  ghost c2: Start, ghost l2: Lists, ghost x2: Expr) returns (e: ExpDesc, ghost l: Lists)
      requires Follows(c, l1, c2) && Scoped(x2, c.nactvar) && c2.fr + 1 < MAXREGS && Done(c2, l2, e2, x2)
      requires FirstReady(op, e1, c, l1, c2, x1)
      modifies this`code, this`jpc, this`k, this`h, this`freereg, this`lasttarget
      ensures Done(c, l, e, Binary(op, x1, x2)) && old(k) <= k
    {
      hide Base, IsList, Means, Sealed, Ended, KindOk, Labelled, Follows, IsOperand;
      match op
      case OprAnd =>
        e, l := JoinOperands(op, e1, e2, c, l1, x1, c2, l2, x2);
      case OprOr =>
        e, l := JoinOperands(op, e1, e2, c, l1, x1, c2, l2, x2);
      case _ =>
        e, l := CodeComp(op, e1, e2, c, l1, x1, c2, l2, x2);
    }

    method Prefix(e: ExpDesc, ghost c: Start, ghost l: Lists, ghost x: Expr) returns (e': ExpDesc, ghost l': Lists)
      requires Done(c, l, e, x) && c.fr + 1 < MAXREGS
      modifies this`code, this`jpc, this`k, this`h, this`freereg
      ensures Done(c, l', e', NotOf(x)) && old(k) <= k
    {
      e', l' := CodeNot(e, c, l, x);
    }

    // ----- expressions -----

    /** Nothing was emitted since `c`. */
    ghost predicate Begins(c: Start)
      reads this
    {
      c == StartHere(c.jpc) && StartOk(c) && IsList(code, jpc, c.jpc)
    }

    /** The second operand can be compiled now. */
    lemma SecondBegins(op: BinOpr, c: Start, l: Lists, e: ExpDesc, x: Expr)
      requires Ready(op, c, l, e, x)
      ensures Begins(StartHere(l.j)) && Follows(c, l, StartHere(l.j)) && FirstReady(op, e, c, l, StartHere(l.j), x)
      ensures freereg <= if IsLogical(op) then c.fr else c.fr + 1
    {
      hide Means, ListsOk;
      NextStart(c, code, k, l, lasttarget);
    }

    method Leaf(kind: Kind, ghost c: Start, ghost x: Expr) returns (e: ExpDesc, ghost l: Lists)
      requires StartOk(c) && c.code == code && c.k <= k && c.lasttarget == lasttarget && c.fr == freereg &&
               c.nactvar == nactvar
      requires IsList(code, jpc, c.jpc) && Scoped(x, nactvar)
      requires (x.Const? && ConstantOf(kind, k, x.v) && (kind.VK? ==> Truthy(x.v))) ||
               (x.Local? && kind == VLocal(x.reg))
      ensures Done(c, l, e, x)
    {
      hide Framed, ListsOk;
      l := Lists({}, {}, c.jpc);
      e := ExpDesc(kind, NO_JUMP, NO_JUMP);
      LeafMeans(c, k, kind, x);
    }

    /** Compiles an expression, operand by operand, as the parser meets them. */
    method SubExpr(x: Expr, ghost c: Start) returns (e: ExpDesc, ghost l: Lists)
      requires Begins(c) && Scoped(x, nactvar) && c.fr + Need(x) < MAXREGS
      modifies this`code, this`jpc, this`k, this`h, this`freereg, this`lasttarget
      ensures Done(c, l, e, x) && old(k) <= k
      decreases x
    {
      hide Base, IsList, Means, Sealed, Ended, KindOk, Labelled, Follows, Computes, RegOk, StartOk, FirstReady;
      match x
      case Const(v) =>
        match v {
          case Nil => e, l := Leaf(VNil, c, x);
          case Bool(b) => e, l := Leaf(if b then VTrue else VFalse, c, x);
          case Int(i) => e, l := Leaf(VKInt(i), c, x);
          case Str(_) =>
            var at := AddK(v);
            e, l := Leaf(VK(at), c, x);
        }
      case Local(reg) =>
        e, l := Leaf(VLocal(reg), c, x);
      case NotOf(y) =>
        e, l := SubExpr(y, c);
        e, l := Prefix(e, c, l, y);
      case Paren(y) =>
        e, l := SubExpr(y, c);
        e := Parenthesis(e, c, l, y);
      case Binary(op, y, z) =>
        e, l := SubExpr(y, c);
        e, l := Infix(op, e, c, l, y);
        SecondBegins(op, c, l, e, y);
        ghost var c2, l2 := StartHere(l.j), l;
        var e2;
        e2, l2 := SubExpr(z, c2);
        e, l := Posfix(op, e, e2, c, l, y, c2, l2, z);
    }

    method Parenthesis(e: ExpDesc, ghost c: Start, ghost l: Lists, ghost x: Expr) returns (e': ExpDesc)
      requires Done(c, l, e, x)
      ensures Done(c, l, e', Paren(x))
    {
      hide Base, IsList, Sealed, KindOk, Labelled;
      e' := DischargeVars(e, c, l, x);
      ParenMeans(c, code, k, l, e'.kind, x);
    }

    /** Compiles an expression into the next register: running the emitted code from its start puts the value of
        the expression there, and keeps the registers below. */
    method ExprToNextReg(x: Expr, ghost j: set<nat>) returns (ghost j': set<nat>)
      requires Begins(StartHere(j)) && Scoped(x, nactvar) && freereg + Need(x) < MAXREGS
      modifies this`code, this`jpc, this`k, this`h, this`freereg, this`lasttarget
      ensures freereg == old(freereg) + 1 && old(k) <= k && IsList(code, jpc, j')
      ensures Yields(old(StartHere(j)), code, k, j', x, old(freereg))
      ensures Framed(old(StartHere(j)), code)
    {
      hide Base, IsList, Means, Sealed, Ended, KindOk, Labelled;
      ghost var c := StartHere(j);
      var e;
      ghost var l;
      e, l := SubExpr(x, c);
      e, l := Exp2NextReg(e, c, l, x);
      MeansYields(c, code, k, l, x, c.fr);
      assert Framed(c, code) by { BaseFramed(c, code, k, l); }
      j' := l.j;
    }
  }

  /** Registers `first` to `first + n - 1` adjoin or meet those of the instruction. */
  predicate Connects(i: Instr, first: nat, n: nat)
    requires i.LoadNil? && n >= 1
  {
    (i.a <= first <= i.a + i.n + 1) || (first <= i.a <= first + n)
  }

  function BothNil(i: Instr, first: nat, n: nat): (j: Instr)
    requires i.LoadNil? && n >= 1 && Connects(i, first, n)
    ensures j.LoadNil? && MoreNils(i, j, first) && forall x :: InRange(x, j) <==>
            InRange(x, i) || first <= x < first + n
  {
    var from := if i.a < first then i.a else first;
    var l := if i.a + i.n > first + n - 1 then i.a + i.n else first + n - 1;
    LoadNil(from, l - from)
  }
}
