/** What the small steps of the code generator do to a half-compiled expression. */
module LuaExprLemmas {
  import opened LuaCode
  import opened LuaExpr

  // ----- carrying meaning over to rewritten code -----

  /** What loads nil just before the expression loads at least what it did. */
  ghost predicate EntryKept(c: Start, code: seq<Instr>, code': seq<Instr>)
  {
    && c.Lo() <= |code| && c.Lo() <= |code'|
    && (c.Lo() > c.lasttarget && c.Lo() > 0 && code[c.Lo() - 1].LoadNil? ==>
          NilsKept(code[c.Lo() - 1], code'[c.Lo() - 1]))
  }

  ghost predicate NilsKept(i: Instr, j: Instr) requires i.LoadNil?
  {
    j.LoadNil? && forall x :: InRange(x, i) ==> InRange(x, j)
  }

  ghost function RunOf(c: Start, code: seq<Instr>, k: seq<Value>, ord: Order, l: Lists, hi: nat, r: Regs): Outcome
  {
    Run(code, k, ord, c.Lo(), hi, l.t + l.f, l.j, r)
  }

  ghost predicate RewrittenOf(c: Start, code: seq<Instr>, code': seq<Instr>, hi: nat, hi': nat, l: Lists, l': Lists)
  {
    Rewritten(code, code', c.Lo(), hi, hi', l.t + l.f, l.j, l'.t + l'.f, l'.j)
  }

  ghost function ContinueOf(code: seq<Instr>, k: seq<Value>, ord: Order, hi: nat, hi': nat, l': Lists,
                            o: Outcome): Outcome
  {
    Continue(code, k, ord, hi, hi', l'.t + l'.f, l'.j, o)
  }

  lemma RightNotStuck(c: Start, code: seq<Instr>, k: seq<Value>, ord: Order, l: Lists, g: Goal, v: Value, r: Regs,
                      o: Outcome)
    requires Right(c, code, k, ord, l, g, v, r, o)
    ensures o != Stuck
  {}

  /** The new code runs as the old code did and goes on from where that ended. */
  lemma Resume(c: Start, code: seq<Instr>, code': seq<Instr>, k: seq<Value>, k': seq<Value>, ord: Order, l: Lists,
               l': Lists,
               g: Goal, hi': nat, x: Expr, r: Regs) returns (o: Outcome)
    requires Means(c, code, k, l, g, x) && EntryKept(c, code, code') && Entry(c, code', r) && k <= k'
    requires RewrittenOf(c, code, code', GoalEnd(g, |code|), hi', l, l')
    ensures Right(c, code, k, ord, l, g, Eval(x, r, ord), r, o)
    ensures RunOf(c, code', k', ord, l', hi', r) == ContinueOf(code', k', ord, GoalEnd(g, |code|), hi', l', o)
    ensures o == RunOf(c, code, k, ord, l, GoalEnd(g, |code|), r) && (o.Exit? ==> o.at < GoalEnd(g, |code|))
  {
    hide Rewritten, Right, Run, Continue;
    o := RunOf(c, code, k, ord, l, GoalEnd(g, |code|), r);
    assert Entry(c, code, r);
    assert Right(c, code, k, ord, l, g, Eval(x, r, ord), r, o);
    RightNotStuck(c, code, k, ord, l, g, Eval(x, r, ord), r, o);
    ExitInside(code, k, ord, c.Lo(), GoalEnd(g, |code|), l.t + l.f, l.j, r);
    RunRewritten(code, code', k, k', ord, c.Lo(), c.Lo(), GoalEnd(g, |code|), hi', l.t + l.f, l.j, l'.t + l'.f,
      l'.j, r);
  }

  // ----- links -----

  /** The code is the same except where jumps of `s` lead. */
  ghost predicate Relinked(code: seq<Instr>, code': seq<Instr>, s: set<nat>)
  {
    |code'| == |code| && forall p :: 0 <= p < |code| ==> if p in s then code[p].Jmp? && code'[p].Jmp?
      else code'[p] == code[p]
  }

  /** Only jumps of the expression are linked anew. */
  ghost predicate Within(c: Start, code: seq<Instr>, l: Lists, s: set<nat>)
  {
    s <= l.t + l.f + l.j && (s != {} ==> |code| > c.Lo())
  }

  lemma RelinkedBase(c: Start, code: seq<Instr>, code': seq<Instr>, k: seq<Value>, l: Lists, s: set<nat>)
    requires Base(c, code, k, l) && Relinked(code, code', s) && Within(c, code, l, s)
    ensures Base(c, code', k, l) && EntryKept(c, code, code')
  {
    assert forall p :: p in s ==> p > c.Lo();
    forall p | 0 <= p < c.Lo() ensures FrameAt(c, code', p) {
      assert FrameAt(c, code, p);
      assert code'[p] == code[p];
    }
    forall j | j in l.t || j in l.f ensures OpenAt(code', c.Lo(), j) {
      assert OpenAt(code, c.Lo(), j);
    }
    if |code| > c.Lo() {
      forall j | j in l.j ensures HereAt(code', c.Lo(), j) {
        assert HereAt(code, c.Lo(), j);
      }
    }
  }

  lemma RelinkedRewritten(c: Start, code: seq<Instr>, code': seq<Instr>, k: seq<Value>, l: Lists, s: set<nat>, end: nat)
    requires Base(c, code, k, l) && Relinked(code, code', s) && Within(c, code, l, s) && c.Lo() <= end <= |code|
    requires l.j == {} || end == |code|
    ensures RewrittenOf(c, code, code', end, end, l, l)
  {
    RelinkedBase(c, code, code', k, l, s);
    forall p | c.Lo() <= p < end
      ensures RewrittenAt(code, code', p, c.Lo(), end, end, l.t + l.f, l.j, l.t + l.f, l.j)
    {
      assert p in l.t + l.f ==> OpenAt(code, c.Lo(), p) && OpenAt(code', c.Lo(), p);
      assert p in l.j ==> HereAt(code, c.Lo(), p) && HereAt(code', c.Lo(), p);
      assert p + 1 in l.t + l.f ==> OpenAt(code, c.Lo(), p + 1);
    }
  }

  /** A run that ended at a jump that is still open ends there still. */
  lemma ExitStays(c: Start, code: seq<Instr>, k: seq<Value>, ord: Order, hi: nat, hi': nat, l: Lists, o: Outcome)
    requires o.Exit? && (o.at in l.t || o.at in l.f) && OpenAt(code, c.Lo(), o.at) && o.at < hi'
    ensures ContinueOf(code, k, ord, hi, hi', l, o) == o
  {}

  /** A run that ended at a jump that now leads to the end falls through. */
  lemma ExitFalls(c: Start, code: seq<Instr>, k: seq<Value>, ord: Order, hi: nat, hi': nat, l: Lists, o: Outcome)
    requires o.Exit? && o.at in l.j && o.at !in l.t && o.at !in l.f && OpenAt(code, c.Lo(), o.at) && o.at < hi'
    ensures ContinueOf(code, k, ord, hi, hi', l, o) == Fall(o.regs)
  {}

  lemma FallEnds(code: seq<Instr>, k: seq<Value>, ord: Order, hi: nat, l: Lists, o: Outcome)
    requires o.Fall?
    ensures ContinueOf(code, k, ord, hi, hi, l, o) == o
  {}

  ghost predicate GoalOk(c: Start, code: seq<Instr>, k: seq<Value>, l: Lists, g: Goal)
  {
    g.Want? ==> KindOk(c, code, k, l, g.kind)
  }

  /** Linking lists changes nothing. */
  lemma RelinkedMeans(c: Start, code: seq<Instr>, code': seq<Instr>, k: seq<Value>, l: Lists, g: Goal, x: Expr,
                      s: set<nat>)
    requires Base(c, code, k, l) && Relinked(code, code', s) && Within(c, code, l, s) && GoalOk(c, code, k, l, g)
    requires Means(c, code, k, l, g, x)
    ensures Base(c, code', k, l) && Means(c, code', k, l, g, x) && GoalOk(c, code', k, l, g)
  {
    hide Run, Entry, RewrittenOf, ContinueOf;
    RelinkedBase(c, code, code', k, l, s);
    var end := GoalEnd(g, |code|);
    RelinkedRewritten(c, code, code', k, l, s, end);
    forall ord: Order, r: Regs | Entry(c, code', r)
      ensures Right(c, code', k, ord, l, g, Eval(x, r, ord), r, RunOf(c, code', k, ord, l, end, r))
    {
      var o := Resume(c, code, code', k, k, ord, l, l, g, end, x, r);
      if o.Exit? {
        ExitStays(c, code', k, ord, end, end, l, o);
      } else {
        FallEnds(code', k, ord, end, l, o);
      }
    }
  }

  // ----- emitting code -----

  /** Up to `end` the code is as it was, with the pending jumps now leading to `end`; more follows. */
  ghost predicate Extends(code: seq<Instr>, code': seq<Instr>, j: set<nat>, end: nat)
  {
    && end <= |code| && end < |code'| && (j == {} || end == |code|)
    && forall p :: 0 <= p < end ==> code'[p] == SettledAt(code, j, end, p)
  }

  ghost predicate OpenBefore(l: Lists, end: nat) { forall j :: j in l.t || j in l.f ==> j < end }

  lemma ExtendsBase(c: Start, code: seq<Instr>, code': seq<Instr>, k: seq<Value>, k': seq<Value>, l: Lists, end: nat)
    requires Base(c, code, k, l) && Extends(code, code', l.j, end) && OpenBefore(l, end) && c.Lo() <= end && k <= k'
    ensures Base(c, code', k', Lists(l.t, l.f, {})) && EntryKept(c, code, code')
    ensures forall j :: j in l.t || j in l.f ==>
            OpenAt(code', c.Lo(), j) && 0 < j < |code| && code'[j - 1] == code[j - 1]
  {
    forall p | 0 <= p < c.Lo() ensures FrameAt(c, code', p) {
      assert FrameAt(c, code, p);
    }
    forall j | j in l.t || j in l.f ensures OpenAt(code', c.Lo(), j) && 0 < j < |code| && code'[j - 1] == code[j - 1] {
      assert OpenAt(code, c.Lo(), j);
    }
  }

  /** New jumps, if any, come after the old ones. */
  ghost predicate Grows(l: Lists, l': Lists, end: nat)
  {
    && (forall p :: 0 <= p < end ==> (p in l'.t || p in l'.f <==> p in l.t || p in l.f))
    && (forall p :: 0 <= p < end ==> p !in l'.j)
  }

  lemma ExtendsRewritten(c: Start, code: seq<Instr>, code': seq<Instr>, k: seq<Value>, l: Lists, l': Lists, end: nat,
                         end': nat)
    requires Base(c, code, k, l) && Extends(code, code', l.j, end) && c.Lo() <= end <= end' <= |code'|
    requires Grows(l, l', end)
    ensures RewrittenOf(c, code, code', end, end', l, l')
  {
    forall p | c.Lo() <= p < end
      ensures RewrittenAt(code, code', p, c.Lo(), end, end', l.t + l.f, l.j, l'.t + l'.f, l'.j)
    {
      assert p in l.t + l.f ==> OpenAt(code, c.Lo(), p);
      assert p in l.j ==> HereAt(code, c.Lo(), p);
      assert p + 1 in l.t + l.f ==> OpenAt(code, c.Lo(), p + 1);
      assert p + 1 in l.j ==> HereAt(code, c.Lo(), p + 1);
      assert p in l'.t + l'.f <==> p in l.t + l.f;
    }
  }

  /** The instruction tests what `kind` describes: the jump after it is taken when the truth of the value is `cond`. */
  ghost predicate Decides(kind: Kind, code: seq<Instr>, k: seq<Value>, i: Instr, cond: bool)
  {
    && OperandsIn(i, k) && IsTest(i) && Quiet(i)
    && forall ord: Order, r: Regs, v: Value :: Denotes(kind, code, k, ord, r, v) ==>
         Taken(i, k, r, ord) == (Truthy(v) == cond) && (Taken(i, k, r, ord) ==> Carries(i, cond, r, v))
  }

  function Branch(l: Lists, cond: bool, j: nat): Lists
  {
    Lists(if cond then l.t + {j} else l.t, if cond then l.f else l.f + {j}, {})
  }

  /** Running a test and its jump, which is open. */
  lemma RunTest(code: seq<Instr>, k: seq<Value>, ord: Order, pc: nat, open: set<nat>, here: set<nat>, r: Regs)
    requires pc + 2 <= |code| && IsTest(code[pc]) && Quiet(code[pc]) && OperandsIn(code[pc], k) && code[pc + 1].Jmp? &&
             pc + 1 in open
    ensures Run(code, k, ord, pc, pc + 2, open, here, r) == if Taken(code[pc], k, r, ord) then Exit(pc + 1, r)
            else Fall(r)
  {}

  /** A value is tested and the code goes on only if its truth is not `cond`. */
  lemma Conditional(c: Start, code: seq<Instr>, code': seq<Instr>, k: seq<Value>, l: Lists, kind: Kind, cond: bool,
                    x: Expr)
    requires Base(c, code, k, l) && Means(c, code, k, l, Want(kind), x) && KindOk(c, code, k, l, kind)
    requires Extends(code, code', l.j, End(kind, |code|)) && OpenBefore(l, End(kind, |code|))
    requires |code'| == End(kind, |code|) + 2 && code'[|code'| - 1].Jmp? &&
             Decides(kind, code, k, code'[|code'| - 2], cond)
    ensures Base(c, code', k, Branch(l, cond, |code'| - 1)) &&
            Means(c, code', k, Branch(l, cond, |code'| - 1), Goes(!cond), x)
  {
    hide Run, Entry, RewrittenOf, Extends, Denotes, ContinueOf, Base;
    var end := End(kind, |code|);
    var l' := Branch(l, cond, |code'| - 1);
    BranchBase(c, code, code', k, l, end, cond);
    ExtendsRewritten(c, code, code', k, l, l', end, end + 2);
    forall ord: Order, r: Regs | Entry(c, code', r)
      ensures Right(c, code', k, ord, l', Goes(!cond), Eval(x, r, ord), r, RunOf(c, code', k, ord, l', end + 2, r))
    {
      var o := Resume(c, code, code', k, k, ord, l, l', Want(kind), end + 2, x, r);
      if o.Exit? {
        ExitStays(c, code', k, ord, end, end + 2, l', o);
      } else {
        BranchRuns(c, code, code', k, ord, l, kind, cond, Eval(x, r, ord), r, o);
      }
    }
  }

  lemma BranchBase(c: Start, code: seq<Instr>, code': seq<Instr>, k: seq<Value>, l: Lists, end: nat, cond: bool)
    requires Base(c, code, k, l) && Extends(code, code', l.j, end) && OpenBefore(l, end) && c.Lo() <= end
    requires |code'| == end + 2 && code'[end + 1].Jmp? && IsTest(code'[end]) && Quiet(code'[end])
    ensures Base(c, code', k, Branch(l, cond, end + 1)) && EntryKept(c, code, code') &&
            Grows(l, Branch(l, cond, end + 1), end)
    ensures forall j :: j in l.t || j in l.f ==>
            OpenAt(code', c.Lo(), j) && 0 < j < |code| && code'[j - 1] == code[j - 1]
  {
    hide Extends, Framed, SettledAt;
    ExtendsBase(c, code, code', k, k, l, end);
    assert OpenAt(code', c.Lo(), end + 1);
  }

  lemma BranchRuns(c: Start, code: seq<Instr>, code': seq<Instr>, k: seq<Value>, ord: Order, l: Lists, kind: Kind,
                   cond: bool,
                   v: Value, r: Regs, o: Outcome)
    requires 0 <= End(kind, |code|) && |code'| == End(kind, |code|) + 2 && code'[|code'| - 1].Jmp?
    requires Decides(kind, code, k, code'[|code'| - 2], cond) && o.Fall? && Denotes(kind, code, k, ord, o.regs, v)
    requires Same(r, o.regs, c.fr) && OpenAt(code', c.Lo(), |code'| - 1) && |code'| - 1 !in l.t && |code'| - 1 !in l.f
    ensures Right(c, code', k, ord, Branch(l, cond, |code'| - 1), Goes(!cond), v, r,
                  ContinueOf(code', k, ord, End(kind, |code|), |code'|, Branch(l, cond, |code'| - 1), o))
  {
    hide Denotes, Same, OperandsIn, Carries, Run, Taken;
    var l' := Branch(l, cond, |code'| - 1);
    RunTest(code', k, ord, |code'| - 2, l'.t + l'.f, l'.j, o.regs);
  }

  // ----- testing values -----

  lemma DecidesRegister(code: seq<Instr>, k: seq<Value>, b: nat, cond: bool)
    ensures Decides(VNonReloc(b), code, k, TestSet(NO_REG, b, cond), cond)
  {}

  /** Testing the operand of `not` the other way round. */
  lemma DecidesNot(code: seq<Instr>, k: seq<Value>, pc: nat, cond: bool)
    requires pc < |code| && code[pc].Not?
    ensures Decides(VRelocable(pc), code, k, Test(code[pc].b, !cond), cond)
  {}

  function Flipped(i: Instr): Instr
    requires IsComparison(i)
  {
    match i
    case Eq(c, b, d) => Eq(!c, b, d)
    case Lt(c, b, d) => Lt(!c, b, d)
    case Le(c, b, d) => Le(!c, b, d)
  }

  lemma DecidesComparison(code: seq<Instr>, k: seq<Value>, pc: nat)
    requires 0 < pc < |code| && IsComparison(code[pc - 1]) && OperandsIn(code[pc - 1], k)
    ensures Decides(VJmp(pc), code, k, code[pc - 1], true)
    ensures Decides(VJmp(pc), code, k, Flipped(code[pc - 1]), false)
  {}

  // ----- jumps to the current position -----

  function ToHere(l: Lists, b: bool): Lists
  {
    if b then Lists({}, l.f, l.j + l.t) else Lists(l.t, {}, l.j + l.f)
  }

  /** The jumps that say what falling through says may lead to the end. */
  lemma ToHereMeans(c: Start, code: seq<Instr>, k: seq<Value>, l: Lists, b: bool, x: Expr)
    requires Base(c, code, k, l) && Means(c, code, k, l, Goes(b), x)
    ensures Base(c, code, k, ToHere(l, b)) && Means(c, code, k, ToHere(l, b), Goes(b), x)
  {
    hide Run, Entry, Same, Carries, ContinueOf;
    var l' := ToHere(l, b);
    assert ListsOk(c, code, l');
    forall p | c.Lo() <= p < |code|
      ensures RewrittenAt(code, code, p, c.Lo(), |code|, |code|, l.t + l.f, l.j, l'.t + l'.f, l'.j)
    {
      assert p in l.t + l.f ==> OpenAt(code, c.Lo(), p);
      assert p in l.j ==> HereAt(code, c.Lo(), p);
    }
    forall ord: Order, r: Regs | Entry(c, code, r)
      ensures Right(c, code, k, ord, l', Goes(b), Eval(x, r, ord), r, RunOf(c, code, k, ord, l', |code|, r))
    {
      var o := Resume(c, code, code, k, k, ord, l, l', Goes(b), |code|, x, r);
      if o.Fall? {
        FallEnds(code, k, ord, |code|, l', o);
      } else if o.at in l'.j {
        ExitFalls(c, code, k, ord, |code|, |code|, l', o);
      } else {
        ExitStays(c, code, k, ord, |code|, |code|, l', o);
      }
    }
  }

  /** A constant is known to be true or false without a test. */
  lemma KnownMeans(c: Start, code: seq<Instr>, k: seq<Value>, l: Lists, kind: Kind, b: bool, x: Expr)
    requires Means(c, code, k, l, Want(kind), x)
    requires if b then kind.VTrue? || kind.VKInt? || (kind.VK? && kind.info < |k| && Truthy(k[kind.info]))
             else kind.VNil? || kind.VFalse?
    ensures Means(c, code, k, l, Goes(b), x)
  {
    hide Run, Entry, Same, Carries;
    forall ord: Order, r: Regs | Entry(c, code, r)
      ensures Right(c, code, k, ord, l, Goes(b), Eval(x, r, ord), r, RunOf(c, code, k, ord, l, |code|, r))
    {
      assert Right(c, code, k, ord, l, Want(kind), Eval(x, r, ord), r, RunOf(c, code, k, ord, l, |code|, r));
    }
  }

  /** A local variable is a value in a register. */
  lemma LocalMeans(c: Start, code: seq<Instr>, k: seq<Value>, l: Lists, reg: nat, x: Expr)
    requires Means(c, code, k, l, Want(VLocal(reg)), x)
    ensures Means(c, code, k, l, Want(VNonReloc(reg)), x)
  {
    hide Run, Entry, Same, Carries;
    forall ord: Order, r: Regs | Entry(c, code, r)
      ensures Right(c, code, k, ord, l, Want(VNonReloc(reg)), Eval(x, r, ord), r, RunOf(c, code, k, ord, l, |code|, r))
    {
      assert Right(c, code, k, ord, l, Want(VLocal(reg)), Eval(x, r, ord), r, RunOf(c, code, k, ord, l, |code|, r));
    }
  }

  // ----- one expression after another -----

  /** The code of `c2` was begun right after that of `c`. */
  ghost predicate Follows(c: Start, l1: Lists, c2: Start)
  {
    && Base(c, c2.code, c2.k, l1) && c2.jpc == l1.j && c.fr <= c2.fr && c2.nactvar == c.nactvar
    && Labelled(c, c2.code, c2.lasttarget, l1) && Sealed(c, c2.code, c2.lasttarget)
  }

  function Join(l1: Lists, l2: Lists): Lists { Lists(l1.t + l2.t, l1.f + l2.f, l2.j) }

  lemma JoinFramed(c: Start, l1: Lists, c2: Start, code: seq<Instr>)
    requires Follows(c, l1, c2) && StartOk(c2) && Framed(c2, code)
    ensures Framed(c, code) && EntryKept(c, c2.code, code)
  {
    assert forall p :: p in l1.j && |c2.code| > c.Lo() ==> HereAt(c2.code, c.Lo(), p);
    forall p | 0 <= p < c.Lo() ensures FrameAt(c, code, p) {
      assert FrameAt(c, c2.code, p);
      assert FrameAt(c2, code, p);
    }
    if c.Lo() > c.lasttarget && c.Lo() > 0 {
      assert FrameAt(c2, code, c.Lo() - 1);
    }
  }

  /** Between the start of the first and of the second expression, only pending jumps and their tests changed. */
  lemma JoinBetween(c: Start, l1: Lists, c2: Start, code: seq<Instr>, p: nat)
    requires Follows(c, l1, c2) && StartOk(c2) && Framed(c2, code) && c.Lo() <= p < c2.Lo()
    ensures code[p] == if |code| > c2.Lo() then SettledAt(c2.code, l1.j, c2.Lo(), p) else c2.code[p]
    ensures p in l1.t || p in l1.f ==> OpenAt(code, c.Lo(), p) && code[p] == c2.code[p] && code[p - 1] == c2.code[p - 1]
    ensures p in l1.j ==> HereAt(code, c.Lo(), p)
  {
    assert FrameAt(c2, code, p);
    assert p > 0 ==> FrameAt(c2, code, p - 1);
    assert p in l1.t || p in l1.f ==> OpenAt(c2.code, c.Lo(), p);
    assert p in l1.j ==> HereAt(c2.code, c.Lo(), p);
  }

  lemma JoinBase(c: Start, l1: Lists, c2: Start, code: seq<Instr>, k: seq<Value>, l2: Lists)
    requires Follows(c, l1, c2) && Base(c2, code, k, l2)
    ensures Base(c, code, k, Join(l1, l2)) && EntryKept(c, c2.code, code)
    ensures forall j :: j in l1.t || j in l1.f ==> j < c2.Lo() && code[j] == c2.code[j]
  {
    hide Framed, SettledAt;
    JoinFramed(c, l1, c2, code);
    var l := Join(l1, l2);
    forall j | j in l1.t || j in l1.f ensures OpenAt(code, c.Lo(), j) && j < c2.Lo() && code[j] == c2.code[j] {
      assert OpenAt(c2.code, c.Lo(), j);
      JoinBetween(c, l1, c2, code, j);
    }
    assert forall j :: j in l2.t || j in l2.f ==> OpenAt(code, c2.Lo(), j);
    FramedLength(c2, code);
    if |code| > c.Lo() {
      forall j | j in l2.j ensures HereAt(code, c.Lo(), j) {
        if |code| == c2.Lo() {
          assert HereAt(c2.code, c.Lo(), j);
          JoinBetween(c, l1, c2, code, j);
        } else {
          assert HereAt(code, c2.Lo(), j);
        }
      }
    }
  }

  lemma FramedLength(c: Start, code: seq<Instr>)
    requires Framed(c, code)
    ensures c.Lo() <= |code|
  {}
}
