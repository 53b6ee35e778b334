/** The instructions the expression compiler emits, and what running them does.  Conditional
    instructions are run together with the jump that follows them, as the virtual machine does. */
module LuaCode {

  datatype Value = Nil | Bool(b: bool) | Int(i: int) | Str(id: nat)

  predicate Truthy(v: Value) { v != Nil && v != Bool(false) }

  /** How two values compare. */
  datatype Order = Order(eq: (Value, Value) -> bool, lt: (Value, Value) -> bool, le: (Value, Value) -> bool)

  datatype Instr =
    | Move(a: nat, b: nat)
    | LoadK(a: nat, bx: nat)
    | LoadBool(a: nat, flag: bool, skip: bool)
    | LoadNil(a: nat, n: nat)
    | Not(a: nat, b: nat)
    | Jmp(sbx: int)
    | Eq(cond: bool, rb: nat, rc: nat)
    | Lt(cond: bool, rb: nat, rc: nat)
    | Le(cond: bool, rb: nat, rc: nat)
    | Test(a: nat, c: bool)
    | TestSet(a: nat, b: nat, c: bool)

  const NO_JUMP: int := -1
  const NO_REG: nat := 255
  const BITRK: nat := 256
  const MAXINDEXRK: nat := 255
  const MAXREGS: nat := 255

  type Regs = r: seq<Value> | |r| == 256 witness seq(256, i => Nil)

  predicate IsComparison(i: Instr) { i.Eq? || i.Lt? || i.Le? }

  /** The instructions that decide whether the jump after them is taken. */
  predicate IsTest(i: Instr) { IsComparison(i) || i.Test? || i.TestSet? }

  /** The value of an operand that is a register or a constant. */
  function RK(k: seq<Value>, r: Regs, x: nat): Value
  {
    if x < 256 then r[x] else if x - BITRK < |k| then k[x - BITRK] else Nil
  }

  function Reg(r: Regs, x: nat): Value { if x < 256 then r[x] else Nil }

  /** Register 255 stands for no register. */
  function Set(r: Regs, x: nat, v: Value): Regs { if x < NO_REG then r[x := v] else r }

  /** Registers `a` to `a + n` set to nil. */
  function SetNils(r: Regs, a: nat, n: nat): (r': Regs)
    decreases n
    ensures forall x :: 0 <= x < 256 ==> r'[x] == if a <= x <= a + n && x < NO_REG then Nil else r[x]
  {
    if n == 0 then Set(r, a, Nil) else SetNils(Set(r, a + n, Nil), a, n - 1)
  }

  /** The constants an instruction mentions exist. */
  predicate OperandsIn(i: Instr, k: seq<Value>)
  {
    && (i.LoadK? ==> i.bx < |k|)
    && (IsComparison(i) ==> i.rb < BITRK + |k| && i.rc < BITRK + |k|)
  }

  /** Whether a conditional instruction lets the jump after it be taken. */
  predicate Taken(i: Instr, k: seq<Value>, r: Regs, ord: Order)
  {
    match i
    case Eq(c, b, d) => ord.eq(RK(k, r, b), RK(k, r, d)) == c
    case Lt(c, b, d) => ord.lt(RK(k, r, b), RK(k, r, d)) == c
    case Le(c, b, d) => ord.le(RK(k, r, b), RK(k, r, d)) == c
    case Test(a, c) => Truthy(Reg(r, a)) == c
    case TestSet(_, b, c) => Truthy(Reg(r, b)) == c
    case _ => false
  }

  /** The registers after a conditional instruction whose jump is taken. */
  function AfterTest(i: Instr, r: Regs): Regs
  {
    if i.TestSet? then Set(r, i.a, Reg(r, i.b)) else r
  }

  /** The registers after an instruction that is no jump and no test. */
  function After(i: Instr, k: seq<Value>, r: Regs): Regs
  {
    match i
    case Move(a, b) => Set(r, a, Reg(r, b))
    case LoadK(a, bx) => if bx < |k| then Set(r, a, k[bx]) else r
    case LoadBool(a, b, _) => Set(r, a, Bool(b))
    case LoadNil(a, n) => SetNils(r, a, n)
    case Not(a, b) => Set(r, a, Bool(!Truthy(Reg(r, b))))
    case _ => r
  }

  function Next(i: Instr, pc: nat): nat { if i.LoadBool? && i.skip then pc + 2 else pc + 1 }

  /** How a run of a piece of code ends: at its end, at a taken jump whose destination is still open, or badly. */
  datatype Outcome = Fall(regs: Regs) | Exit(at: nat, regs: Regs) | Stuck

  function Target(code: seq<Instr>, pc: nat): int
    requires pc < |code| && code[pc].Jmp?
  {
    pc + 1 + code[pc].sbx
  }

  /** Runs `code` from `pc` to `hi`.  A taken jump in `open` ends the run; one in `here` leads to `hi`.
      Every other jump leads forward. */
  function Run(code: seq<Instr>, k: seq<Value>, ord: Order, pc: nat, hi: nat, open: set<nat>, here: set<nat>,
               r: Regs): Outcome
    decreases hi - pc
  {
    if pc == hi then Fall(r)
    else if pc > hi || hi > |code| || !OperandsIn(code[pc], k) then Stuck
    else if code[pc].Jmp? then
      if pc in open then Stuck else Leap(code, k, ord, pc, hi, open, here, r)
    else if IsTest(code[pc]) then
      if pc + 1 >= hi || !code[pc + 1].Jmp? then Stuck
      else if Taken(code[pc], k, r, ord) then Leap(code, k, ord, pc + 1, hi, open, here, AfterTest(code[pc], r))
      else Run(code, k, ord, pc + 2, hi, open, here, r)
    else if Next(code[pc], pc) > hi then Stuck
    else Run(code, k, ord, Next(code[pc], pc), hi, open, here, After(code[pc], k, r))
  }

  /** Takes the jump at `pc`. */
  function Leap(code: seq<Instr>, k: seq<Value>, ord: Order, pc: nat, hi: nat, open: set<nat>, here: set<nat>,
                r: Regs): Outcome
    requires pc < |code| && code[pc].Jmp? && pc < hi
    decreases hi - pc, 0
  {
    if pc in open then Exit(pc, r)
    else if pc in here then Fall(r)
    else if pc < Target(code, pc) <= hi then Run(code, k, ord, Target(code, pc), hi, open, here, r)
    else Stuck
  }

  // ----- rewriting code around pending jumps -----

  /** The test, if any, writes no register. */
  predicate Quiet(i: Instr) { i.TestSet? ==> i.a >= NO_REG }

  /** A test that sets no register yet may become one that sets a register, or a plain test. */
  predicate Retested(i: Instr, j: Instr)
  {
    || j == i
    || (i.TestSet? && i.a >= NO_REG && ((j.TestSet? && j.b == i.b && j.c == i.c) || j == Test(i.b, i.c)))
  }

  /** What may happen to the instruction at `p`, which lies between `lo` and `hi`. */
  ghost predicate RewrittenAt(code: seq<Instr>, code': seq<Instr>, p: nat, lo: nat, hi: nat, hi': nat,
                              open: set<nat>, here: set<nat>, open': set<nat>, here': set<nat>)
    requires lo <= p < hi <= |code| && hi <= hi' <= |code'|
  {
    && (p in open + here ==> code[p].Jmp? && code'[p].Jmp? && p > lo)
    && (p in open + here ==> Quiet(code[p - 1]))
    && (p !in open + here ==> Retested(code[p], code'[p]) && p !in open' + here')
    && (p !in open + here && p + 1 !in open + here ==> code[p] == code'[p])
    && (p in here ==> p !in open && p !in open' && Quiet(code'[p - 1]))
    && (p in here && p in here' ==> hi' == hi || (hi in here' && hi !in open' && code'[hi].Jmp?))
    && (p in here && p !in here' ==> Target(code', p) == hi)
  }

  /** `code'` does the same as `code` up to `hi`, except that pending jumps and the tests before them may have
      been rewritten: jumps in `here` now lead to `hi`, those in `open` lead anywhere. */
  ghost predicate Rewritten(code: seq<Instr>, code': seq<Instr>, lo: nat, hi: nat, hi': nat,
                            open: set<nat>, here: set<nat>, open': set<nat>, here': set<nat>)
  {
    && hi <= |code| && hi <= hi' <= |code'|
    && forall p :: lo <= p < hi ==> RewrittenAt(code, code', p, lo, hi, hi', open, here, open', here')
  }

  /** What the rewritten code does where the old code ended its run. */
  function Continue(code': seq<Instr>, k: seq<Value>, ord: Order, hi: nat, hi': nat,
                    open': set<nat>, here': set<nat>, o: Outcome): Outcome
  {
    match o
    case Fall(r) => Run(code', k, ord, hi, hi', open', here', r)
    case Stuck => Stuck
    case Exit(j, r) =>
      if 0 < j < hi' && j < |code'| && code'[j].Jmp? then
        Leap(code', k, ord, j, hi', open', here', AfterTest(code'[j - 1], r))
      else Stuck
  }

  lemma TakenRetested(i: Instr, j: Instr, k: seq<Value>, k': seq<Value>, r: Regs, ord: Order)
    requires Retested(i, j) && OperandsIn(i, k) && k <= k'
    ensures OperandsIn(j, k') && IsTest(j) == IsTest(i)
    ensures Taken(j, k', r, ord) == Taken(i, k, r, ord)
  {}

  lemma AfterMoreConstants(i: Instr, k: seq<Value>, k': seq<Value>, r: Regs)
    requires OperandsIn(i, k) && k <= k'
    ensures OperandsIn(i, k') && After(i, k', r) == After(i, k, r)
  {}

  lemma RewriteAt(code: seq<Instr>, code': seq<Instr>, lo: nat, p: nat, hi: nat, hi': nat,
                  open: set<nat>, here: set<nat>, open': set<nat>, here': set<nat>)
    requires Rewritten(code, code', lo, hi, hi', open, here, open', here') && lo <= p < hi
    ensures hi <= |code| && hi <= hi' <= |code'| && RewrittenAt(code, code', p, lo, hi, hi', open, here, open', here')
    ensures p !in open + here && !IsTest(code[p]) ==> code'[p] == code[p]
  {}

  /** A pending jump at the end of a run does what reaching the end does. */
  lemma HereRewritten(code: seq<Instr>, code': seq<Instr>, k': seq<Value>, ord: Order, lo: nat,
                      p: nat, hi: nat, hi': nat, open: set<nat>, here: set<nat>, open': set<nat>, here': set<nat>,
                        r: Regs)
    requires Rewritten(code, code', lo, hi, hi', open, here, open', here') && lo <= p < hi && p in here
    ensures lo < p && code[p].Jmp? && code'[p].Jmp? && p !in open && p !in open' && Quiet(code'[p - 1])
    ensures OperandsIn(code'[p], k')
    ensures Leap(code', k', ord, p, hi', open', here', r) == Run(code', k', ord, hi, hi', open', here', r)
  {
    RewriteAt(code, code', lo, p, hi, hi', open, here, open', here');
    if p in here' && hi' != hi {
      assert OperandsIn(code'[hi], k');
    }
  }

  /** A pending jump is taken: the old run ends here. */
  lemma LeapRewritten(code: seq<Instr>, code': seq<Instr>, k: seq<Value>, k': seq<Value>, ord: Order, lo: nat,
                      p: nat, hi: nat, hi': nat, open: set<nat>, here: set<nat>, open': set<nat>, here': set<nat>,
                        r: Regs)
    requires Rewritten(code, code', lo, hi, hi', open, here, open', here') && lo < p < hi && p in open + here
    ensures code[p].Jmp? && code'[p].Jmp? && AfterTest(code[p - 1], r) == r
    ensures Leap(code', k', ord, p, hi', open', here', AfterTest(code'[p - 1], r)) ==
            Continue(code', k', ord, hi, hi', open', here', Leap(code, k, ord, p, hi, open, here, r))
  {
    RewriteAt(code, code', lo, p, hi, hi', open, here, open', here');
    if p in here {
      HereRewritten(code, code', k', ord, lo, p, hi, hi', open, here, open', here', r);
    }
  }

  /** Running rewritten code is running the old code, and then whatever its end was turned into. */
  lemma {:induction false} RunRewritten(code: seq<Instr>, code': seq<Instr>, k: seq<Value>, k': seq<Value>, ord: Order,
                                        lo: nat,
                     pc: nat, hi: nat, hi': nat, open: set<nat>, here: set<nat>, open': set<nat>, here': set<nat>,
                       r: Regs)
    requires Rewritten(code, code', lo, hi, hi', open, here, open', here') && lo <= pc <= hi && k <= k'
    requires Run(code, k, ord, pc, hi, open, here, r) != Stuck
    ensures Run(code', k', ord, pc, hi', open', here', r) ==
            Continue(code', k', ord, hi, hi', open', here', Run(code, k, ord, pc, hi, open, here, r))
    decreases hi - pc
  {
    hide Rewritten, Taken, After, Retested, OperandsIn, AfterTest;
    if pc < hi {
      RewriteAt(code, code', lo, pc, hi, hi', open, here, open', here');
      if code[pc].Jmp? {
        if pc in here {
          HereRewritten(code, code', k', ord, lo, pc, hi, hi', open, here, open', here', r);
        } else {
          AfterMoreConstants(code[pc], k, k', r);
          RunRewritten(code, code', k, k', ord, lo, Target(code, pc), hi, hi', open, here, open', here', r);
        }
      } else if IsTest(code[pc]) {
        TakenRetested(code[pc], code'[pc], k, k', r, ord);
        RewriteAt(code, code', lo, pc + 1, hi, hi', open, here, open', here');
        if Taken(code[pc], k, r, ord) {
          if pc + 1 in open + here {
            LeapRewritten(code, code', k, k', ord, lo, pc + 1, hi, hi', open, here, open', here', r);
          } else {
            RunRewritten(code, code', k, k', ord, lo, Target(code, pc + 1), hi, hi', open, here, open', here',
              AfterTest(code[pc], r));
          }
        } else {
          RunRewritten(code, code', k, k', ord, lo, pc + 2, hi, hi', open, here, open', here', r);
        }
      } else {
        AfterMoreConstants(code[pc], k, k', r);
        RunRewritten(code, code', k, k', ord, lo, Next(code[pc], pc), hi, hi', open, here, open', here',
          After(code[pc], k, r));
      }
    }
  }

  /** A run ends early only at a jump inside the code it runs. */
  lemma {:induction false} ExitInside(code: seq<Instr>, k: seq<Value>, ord: Order, pc: nat, hi: nat, open: set<nat>,
                                      here: set<nat>, r: Regs)
    ensures Run(code, k, ord, pc, hi, open, here, r).Exit? ==> Run(code, k, ord, pc, hi, open, here, r).at < hi
    decreases hi - pc
  {
    hide Taken, After, AfterTest, OperandsIn;
    if pc < hi <= |code| && OperandsIn(code[pc], k) {
      if code[pc].Jmp? {
        if pc < Target(code, pc) <= hi { ExitInside(code, k, ord, Target(code, pc), hi, open, here, r); }
      } else if IsTest(code[pc]) {
        if pc + 1 < hi && code[pc + 1].Jmp? {
          if Taken(code[pc], k, r, ord) {
            if pc + 1 < Target(code, pc + 1) <= hi {
              ExitInside(code, k, ord, Target(code, pc + 1), hi, open, here, AfterTest(code[pc], r));
            }
          } else {
            ExitInside(code, k, ord, pc + 2, hi, open, here, r);
          }
        }
      } else if Next(code[pc], pc) <= hi {
        ExitInside(code, k, ord, Next(code[pc], pc), hi, open, here, After(code[pc], k, r));
      }
    }
  }

  // ----- what instructions do, by the comments of `lopcodes.h` -----

  /** An operand below 256 is a register; from 256 on it is a constant. */
  ghost predicate Operand(k: seq<Value>, r: Regs, x: nat, v: Value)
  {
    (x < 256 && r[x] == v) || (x >= 256 && x - 256 < |k| && k[x - 256] == v)
  }

  /** A test, a jump over the next instruction, and two loads: the usual code for a test as a value. */
  function AsValue(i: Instr, a: nat): seq<Instr> { [i, Jmp(1), LoadBool(a, false, true), LoadBool(a, true, false)] }

  /** The comparisons skip the jump unless the comparison is what the first operand says. */
  lemma ComparisonRuns(cond: bool, b: nat, c: nat, a: nat, k: seq<Value>, ord: Order, r: Regs, v: Value, w: Value)
    requires Operand(k, r, b, v) && Operand(k, r, c, w) && a < 255
    ensures Run(AsValue(Eq(cond, b, c), a), k, ord, 0, 4, {}, {}, r) == Fall(r[a := Bool(ord.eq(v, w) == cond)])
    ensures Run(AsValue(Lt(cond, b, c), a), k, ord, 0, 4, {}, {}, r) == Fall(r[a := Bool(ord.lt(v, w) == cond)])
    ensures Run(AsValue(Le(cond, b, c), a), k, ord, 0, 4, {}, {}, r) == Fall(r[a := Bool(ord.le(v, w) == cond)])
  {
    hide Run, AsValue;
    AsValueRuns(Eq(cond, b, c), a, k, ord, r);
    AsValueRuns(Lt(cond, b, c), a, k, ord, r);
    AsValueRuns(Le(cond, b, c), a, k, ord, r);
  }

  lemma AsValueRuns(i: Instr, a: nat, k: seq<Value>, ord: Order, r: Regs)
    requires IsTest(i) && OperandsIn(i, k) && a < 255
    ensures Run(AsValue(i, a), k, ord, 0, 4, {}, {}, r) ==
            if Taken(i, k, r, ord) then Fall(AfterTest(i, r)[a := Bool(true)]) else Fall(r[a := Bool(false)])
  {
    var code := AsValue(i, a);
    if Taken(i, k, r, ord) {
      var r' := AfterTest(i, r);
      assert Run(code, k, ord, 3, 4, {}, {}, r') == Run(code, k, ord, 4, 4, {}, {}, After(code[3], k, r'));
    } else {
      assert Run(code, k, ord, 2, 4, {}, {}, r) == Run(code, k, ord, 4, 4, {}, {}, After(code[2], k, r));
    }
  }

  /** The tests of a register skip the jump unless it is true or false as asked; one of them also copies it then, unless
      it has no register to copy it to. */
  lemma TestRuns(cond: bool, b: nat, c: nat, a: nat, k: seq<Value>, ord: Order, r: Regs)
    requires b < 256 && a < 255 && c <= 255
    ensures var holds := (r[b] != Nil && r[b] != Bool(false)) == cond;
            && Run(AsValue(Test(b, cond), a), k, ord, 0, 4, {}, {}, r) == Fall(r[a := Bool(holds)])
            && Run(AsValue(TestSet(c, b, cond), a), k, ord, 0, 4, {}, {}, r) ==
               if !holds then Fall(r[a := Bool(false)])
               else if c < 255 then Fall(r[c := r[b]][a := Bool(true)])
               else Fall(r[a := Bool(true)])
  {
    hide Run, AsValue;
    AsValueRuns(Test(b, cond), a, k, ord, r);
    AsValueRuns(TestSet(c, b, cond), a, k, ord, r);
  }

  /** Moves and loads write one register, or the registers from the first on. */
  lemma LoadsRun(a: nat, b: nat, n: nat, k: seq<Value>, ord: Order, r: Regs)
    requires a < 255 && b < 256
    ensures Run([Move(a, b)], k, ord, 0, 1, {}, {}, r) == Fall(r[a := r[b]])
    ensures Run([Not(a, b)], k, ord, 0, 1, {}, {}, r) == Fall(r[a := Bool(r[b] == Nil || r[b] == Bool(false))])
    ensures n < |k| ==> Run([LoadK(a, n)], k, ord, 0, 1, {}, {}, r) == Fall(r[a := k[n]])
    ensures a + n < 255 ==>
            var r' := Run([LoadNil(a, n)], k, ord, 0, 1, {}, {}, r);
            r'.Fall? && forall x :: 0 <= x < 256 ==> r'.regs[x] == if a <= x <= a + n then Nil else r[x]
  {}
}
