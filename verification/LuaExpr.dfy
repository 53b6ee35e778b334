/** Expressions, descriptions of half-compiled expressions, and what it means that the code emitted so far
    together with such a description computes an expression. */
module LuaExpr {
  import opened LuaCode

  datatype BinOpr = OprAnd | OprOr | OprEq | OprLt | OprLe | OprNe | OprGt | OprGe

  datatype Expr =
    | Const(v: Value)
    | Local(reg: nat)
    | NotOf(e: Expr)
    | Binary(op: BinOpr, left: Expr, right: Expr)
    | Paren(e: Expr)

  predicate IsLogical(op: BinOpr) { op.OprAnd? || op.OprOr? }

  function Compare(op: BinOpr, a: Value, b: Value, ord: Order): bool
    requires !IsLogical(op)
  {
    match op
    case OprEq => ord.eq(a, b)
    case OprNe => !ord.eq(a, b)
    case OprLt => ord.lt(a, b)
    case OprLe => ord.le(a, b)
    case OprGt => ord.lt(b, a)
    case OprGe => ord.le(b, a)
  }

  /** Section 3.4 of the Lua 5.3 manual: comparisons, and logical operators that return an operand. */
  function Eval(x: Expr, r: Regs, ord: Order): Value
  {
    match x
    case Const(v) => v
    case Local(reg) => Reg(r, reg)
    case NotOf(e) => Bool(!Truthy(Eval(e, r, ord)))
    case Paren(e) => Eval(e, r, ord)
    case Binary(op, a, b) =>
      if op.OprAnd? then if Truthy(Eval(a, r, ord)) then Eval(b, r, ord) else Eval(a, r, ord)
      else if op.OprOr? then if Truthy(Eval(a, r, ord)) then Eval(a, r, ord) else Eval(b, r, ord)
      else Bool(Compare(op, Eval(a, r, ord), Eval(b, r, ord), ord))
  }

  /** The comparisons of two operands, by the three that the order has: `x > y` is `y < x`, `x >= y` is `y <= x`, and
      `x ~= y` is `not (x == y)` (sections 3.4.4 and 2.4 of the Lua 5.3 manual). */
  lemma ComparisonLaws(x: Expr, y: Expr, r: Regs, ord: Order)
    ensures var v, w := Eval(x, r, ord), Eval(y, r, ord);
            && Eval(Binary(OprEq, x, y), r, ord) == Bool(ord.eq(v, w))
            && Eval(Binary(OprLt, x, y), r, ord) == Bool(ord.lt(v, w))
            && Eval(Binary(OprLe, x, y), r, ord) == Bool(ord.le(v, w))
    ensures Eval(Binary(OprGt, x, y), r, ord) == Eval(Binary(OprLt, y, x), r, ord)
    ensures Eval(Binary(OprGe, x, y), r, ord) == Eval(Binary(OprLe, y, x), r, ord)
    ensures Eval(Binary(OprNe, x, y), r, ord) == Eval(NotOf(Binary(OprEq, x, y)), r, ord)
  {}

  /** Section 3.4.5 of the Lua 5.3 manual: nil and false are false and everything else is true; `not` gives true or
      false, and the other two give an operand. */
  lemma LogicLaws(x: Expr, y: Expr, r: Regs, ord: Order)
    ensures var v, w := Eval(x, r, ord), Eval(y, r, ord);
            if v == Nil || v == Bool(false) then
              && Eval(NotOf(x), r, ord) == Bool(true)
              && Eval(Binary(OprAnd, x, y), r, ord) == v && Eval(Binary(OprOr, x, y), r, ord) == w
            else
              && Eval(NotOf(x), r, ord) == Bool(false)
              && Eval(Binary(OprAnd, x, y), r, ord) == w && Eval(Binary(OprOr, x, y), r, ord) == v
    ensures Eval(Paren(x), r, ord) == Eval(x, r, ord)
  {}

  /** A constant is itself, and a local variable is the register that it lives in. */
  lemma LeafLaws(v: Value, i: nat, r: Regs, ord: Order)
    requires i < 256
    ensures Eval(Const(v), r, ord) == v && Eval(Local(i), r, ord) == r[i]
  {}

  /** Every local the expression reads is an active one. */
  predicate Scoped(x: Expr, nactvar: nat)
  {
    match x
    case Const(_) => true
    case Local(reg) => reg < nactvar
    case NotOf(e) => Scoped(e, nactvar)
    case Paren(e) => Scoped(e, nactvar)
    case Binary(_, a, b) => Scoped(a, nactvar) && Scoped(b, nactvar)
  }

  /** How many registers beyond the free one compiling the expression may take. */
  function Need(x: Expr): (n: nat)
    ensures n >= 1
  {
    match x
    case Const(_) => 1
    case Local(_) => 1
    case NotOf(e) => Need(e)
    case Paren(e) => Need(e)
    case Binary(op, a, b) =>
      var nb := if IsLogical(op) then Need(b) else Need(b) + 1;
      if Need(a) > nb then Need(a) else nb
  }

  predicate Same(r: Regs, r': Regs, fr: nat) { forall x :: 0 <= x < fr && x < 256 ==> r'[x] == r[x] }

  lemma EvalSame(x: Expr, r: Regs, r': Regs, ord: Order, nactvar: nat, fr: nat)
    requires Scoped(x, nactvar) && nactvar <= fr && Same(r, r', fr)
    ensures Eval(x, r', ord) == Eval(x, r, ord)
  {}

  // ----- expression descriptions -----

  datatype Kind = VNil | VTrue | VFalse | VKInt(ival: int) | VK(info: nat) | VLocal(info: nat)
                | VNonReloc(info: nat) | VRelocable(info: nat) | VJmp(info: nat)

  /** `t` and `f` are the heads of the lists of jumps to take when the expression is true or false. */
  datatype ExpDesc = ExpDesc(kind: Kind, t: int, f: int)

  predicate HasJumps(e: ExpDesc) { e.t != e.f }

  function GetJump(code: seq<Instr>, pc: nat): int
    requires pc < |code| && code[pc].Jmp?
  {
    if code[pc].sbx == NO_JUMP then NO_JUMP else pc + 1 + code[pc].sbx
  }

  /** The jumps at the positions `s` form one list, without repetition, that begins at `head`. */
  ghost predicate IsList(code: seq<Instr>, head: int, s: set<nat>)
    decreases |s|
  {
    if head == NO_JUMP then s == {}
    else
      && 0 <= head < |code| && code[head].Jmp? && head in s
      && IsList(code, GetJump(code, head), s - {head})
  }

  lemma {:induction false} ListSame(code: seq<Instr>, code': seq<Instr>, head: int, s: set<nat>)
    requires IsList(code, head, s) && forall p :: p in s && p < |code| ==> p < |code'| && code'[p] == code[p]
    ensures IsList(code', head, s)
    decreases |s|
  {
    if head != NO_JUMP {
      assert head in s;
      ListSame(code, code', GetJump(code, head), s - {head});
    }
  }

  lemma {:induction false} ListBounds(code: seq<Instr>, head: int, s: set<nat>)
    requires IsList(code, head, s)
    ensures forall p :: p in s ==> p < |code| && code[p].Jmp?
    ensures head == NO_JUMP <==> s == {}
    decreases |s|
  {
    if head != NO_JUMP {
      ListBounds(code, GetJump(code, head), s - {head});
      assert forall p :: p in s ==> p == head || p in s - {head};
    }
  }

  /** Linking the last element of one list to the head of another joins them. */
  lemma {:induction false} ListLinked(code: seq<Instr>, head: int, s: set<nat>, last: nat, head2: int, s2: set<nat>)
    requires IsList(code, head, s) && IsList(code, head2, s2) && s !! s2 && head2 != NO_JUMP
    requires last in s && last < |code| && code[last].Jmp? && GetJump(code, last) == NO_JUMP
    ensures IsList(code[last := Jmp(head2 - (last + 1))], head, s + s2)
    decreases |s|
  {
    var code' := code[last := Jmp(head2 - (last + 1))];
    ListSame(code, code', head2, s2);
    assert head in s && head2 in s2;
    if head == last {
      assert s - {head} == {};
      assert s + s2 - {head} == s2;
    } else {
      ListLinked(code, GetJump(code, head), s - {head}, last, head2, s2);
      assert s + s2 - {head} == (s - {head}) + s2;
    }
  }

  // ----- where an expression is being compiled -----

  /** The state in which the compilation of an expression began: the code and constants then, the last jump
      target, the first free register, the number of active locals, and the jumps pending to the current
      position. */
  datatype Start = Start(code: seq<Instr>, k: seq<Value>, lasttarget: nat, fr: nat, nactvar: nat, jpc: set<nat>)
  {
    function Lo(): nat { |code| }
  }

  ghost predicate StartOk(c: Start)
  {
    && c.lasttarget <= c.Lo() && c.nactvar <= c.fr <= NO_REG
    && (c.jpc != {} ==> c.lasttarget == c.Lo())
    && forall j :: j in c.jpc ==> HereAt(c.code, 0, j)
  }

  /** A test that would yield a value yields none. */
  function Quieted(i: Instr): Instr { if i.TestSet? then Test(i.b, i.c) else i }

  /** `code[p]` once the jumps of `jpc` were made to lead to `pc` with no value. */
  function SettledAt(code: seq<Instr>, jpc: set<nat>, pc: nat, p: nat): Instr
    requires p < |code|
  {
    if p in jpc then Jmp(pc - (p + 1)) else if p + 1 in jpc then Quieted(code[p]) else code[p]
  }

  function Settled(code: seq<Instr>, jpc: set<nat>): (code': seq<Instr>)
  {
    seq(|code|, p requires 0 <= p < |code| => SettledAt(code, jpc, |code|, p))
  }

  predicate InRange(x: int, i: Instr) requires i.LoadNil? { i.a <= x <= i.a + i.n }

  /** `j` sets to nil what `i` does, and some registers from `fr` on. */
  ghost predicate MoreNils(i: Instr, j: Instr, fr: nat)
  {
    && i.LoadNil? && j.LoadNil?
    && (forall x :: InRange(x, i) ==> InRange(x, j))
    && (forall x :: InRange(x, j) && !InRange(x, i) ==> x >= fr)
  }

  ghost predicate FrameAt(c: Start, code: seq<Instr>, p: nat)
    requires p < c.Lo() <= |code|
  {
    || code[p] == (if |code| > c.Lo() then SettledAt(c.code, c.jpc, c.Lo(), p) else c.code[p])
    || (p == c.Lo() - 1 && c.Lo() > c.lasttarget && MoreNils(c.code[p], code[p], c.fr))
  }

  /** The code from before the expression is as it was, except that the jumps that were pending now lead to
      the first instruction of the expression, and a trailing instruction that loads nil may load more. */
  ghost predicate Framed(c: Start, code: seq<Instr>)
  {
    c.Lo() <= |code| && forall p :: 0 <= p < c.Lo() ==> FrameAt(c, code, p)
  }

  /** Registers as they can be when control reaches the expression. */
  ghost predicate Entry(c: Start, code: seq<Instr>, r: Regs)
  {
    c.Lo() > c.lasttarget && 0 < c.Lo() <= |code| && code[c.Lo() - 1].LoadNil? ==>
      forall x :: InRange(x, code[c.Lo() - 1]) && 0 <= x < NO_REG ==> r[x] == Nil
  }

  /** Jumps to take when the expression is true, when it is false, and jumps pending to the current position. */
  datatype Lists = Lists(t: set<nat>, f: set<nat>, j: set<nat>)

  predicate OpenAt(code: seq<Instr>, lo: nat, j: nat)
  {
    lo < j < |code| && code[j].Jmp? && IsTest(code[j - 1]) && Quiet(code[j - 1])
  }

  predicate HereAt(code: seq<Instr>, lo: nat, j: nat)
  {
    lo < j < |code| && code[j].Jmp? && Quiet(code[j - 1])
  }

  /** The jumps in the lists are distinct jumps of the expression; until it has any code, what is pending is what
      was pending when it began. */
  ghost predicate ListsOk(c: Start, code: seq<Instr>, l: Lists)
  {
    && l.t !! l.f && l.t !! l.j && l.f !! l.j
    && (forall j :: j in l.t || j in l.f ==> OpenAt(code, c.Lo(), j))
    && (if |code| == c.Lo() then l.j == c.jpc else forall j :: j in l.j ==> HereAt(code, c.Lo(), j))
  }

  /** Where the code that computes the operands of the last instruction ends. */
  function End(kind: Kind, hi: nat): int
  {
    match kind
    case VRelocable(pc) => pc
    case VJmp(pc) => pc - 1
    case _ => hi
  }

  ghost predicate KindOk(c: Start, code: seq<Instr>, k: seq<Value>, l: Lists, kind: Kind)
  {
    match kind
    case VK(i) => i < |k|
    case VLocal(reg) => reg < c.nactvar
    case VNonReloc(reg) => reg < NO_REG
    case VRelocable(pc) => c.Lo() <= pc == |code| - 1 && code[pc].Not? && l.j == {}
    case VJmp(pc) =>
      && c.Lo() < pc == |code| - 1 && code[pc] == Jmp(NO_JUMP) && IsComparison(code[pc - 1])
      && OperandsIn(code[pc - 1], k) && l.j == {} && pc !in l.t && pc !in l.f
    case _ => true
  }

  /** What the code up to the end leaves: the value, as `kind` describes it, or only the knowledge
      whether the expression is true. */
  datatype Goal = Want(kind: Kind) | Goes(b: bool)

  function GoalEnd(g: Goal, hi: nat): int { if g.Want? then End(g.kind, hi) else hi }

  ghost predicate Denotes(kind: Kind, code: seq<Instr>, k: seq<Value>, ord: Order, r: Regs, v: Value)
  {
    match kind
    case VNil => v == Nil
    case VTrue => v == Bool(true)
    case VFalse => v == Bool(false)
    case VKInt(i) => v == Int(i)
    case VK(i) => i < |k| && v == k[i]
    case VLocal(reg) => v == Reg(r, reg)
    case VNonReloc(reg) => v == Reg(r, reg)
    case VRelocable(pc) => pc < |code| && code[pc].Not? && v == Bool(!Truthy(Reg(r, code[pc].b)))
    case VJmp(pc) => 0 < pc < |code| && v == Bool(Taken(code[pc - 1], k, r, ord))
  }

  ghost predicate Reaches(g: Goal, code: seq<Instr>, k: seq<Value>, ord: Order, r: Regs, v: Value)
  {
    match g
    case Want(kind) => Denotes(kind, code, k, ord, r, v)
    case Goes(b) => Truthy(v) == b
  }

  /** A jump controlled by the test `i` is taken with value `v`: a test that sets a register finds the value in the
      register it tests; after any other test the value is the truth value that the jump stands for. */
  predicate Carries(i: Instr, b: bool, r: Regs, v: Value)
  {
    if i.TestSet? then Reg(r, i.b) == v else v == Bool(b)
  }

  /** The run ended as it must for an expression of value `v`. */
  ghost predicate Right(c: Start, code: seq<Instr>, k: seq<Value>, ord: Order, l: Lists, g: Goal, v: Value, r: Regs,
                        o: Outcome)
  {
    match o
    case Stuck => false
    case Fall(r') => Same(r, r', c.fr) && Reaches(g, code, k, ord, r', v)
    case Exit(j, r') =>
      && Same(r, r', c.fr) && (j in l.t || j in l.f) && Truthy(v) == (j in l.t)
      && OpenAt(code, c.Lo(), j) && Carries(code[j - 1], j in l.t, r', v)
  }

  /** The code from where the expression began computes it. */
  ghost predicate Means(c: Start, code: seq<Instr>, k: seq<Value>, l: Lists, g: Goal, x: Expr)
  {
    && c.Lo() <= GoalEnd(g, |code|) <= |code|
    && forall ord: Order, r: Regs :: Entry(c, code, r) ==>
         Right(c, code, k, ord, l, g, Eval(x, r, ord), r,
           Run(code, k, ord, c.Lo(), GoalEnd(g, |code|), l.t + l.f, l.j, r))
  }

  /** What every step of the compilation of one expression keeps of the code. */
  ghost predicate Base(c: Start, code: seq<Instr>, k: seq<Value>, l: Lists)
  {
    StartOk(c) && Framed(c, code) && ListsOk(c, code, l) && c.k <= k
  }

  /** The code of the expression, if there is any, does not end in a test. */
  ghost predicate Ended(c: Start, code: seq<Instr>) { |code| > c.Lo() ==> !IsTest(code[|code| - 1]) }

  /** Nor does it end in loading nil, unless jumps may lead to its end. */
  ghost predicate Sealed(c: Start, code: seq<Instr>, lasttarget: nat)
  {
    Ended(c, code) && (|code| > c.Lo() ==> lasttarget == |code| || !code[|code| - 1].LoadNil?)
  }

  /** The last jump target is known, and no later than the end. */
  ghost predicate Labelled(c: Start, code: seq<Instr>, lasttarget: nat, l: Lists)
  {
    c.lasttarget <= lasttarget <= |code| && (l.j != {} ==> lasttarget == |code|)
  }
}
