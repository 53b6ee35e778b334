/** What the code generator's operations on whole expressions do: `and`, `or`, `not`, comparisons, and moving
    a value to a register. */
module LuaExprSteps {
  import opened LuaCode
  import opened LuaExpr
  import opened LuaExprLemmas

  // ----- one expression after another -----

  lemma JoinRewritten(c: Start, l1: Lists, c2: Start, code: seq<Instr>, k: seq<Value>, l2: Lists, end: nat)
    requires Follows(c, l1, c2) && Base(c2, code, k, l2) && c2.Lo() <= end <= |code|
    ensures RewrittenOf(c, c2.code, code, c2.Lo(), end, l1, Join(l1, l2))
  {
    hide Framed, SettledAt;
    var l := Join(l1, l2);
    forall p | c.Lo() <= p < c2.Lo()
      ensures RewrittenAt(c2.code, code, p, c.Lo(), c2.Lo(), end, l1.t + l1.f, l1.j, l.t + l.f, l.j)
    {
      JoinAt(c, l1, c2, code, k, l2, end, p);
    }
  }

  lemma JoinAt(c: Start, l1: Lists, c2: Start, code: seq<Instr>, k: seq<Value>, l2: Lists, end: nat, p: nat)
    requires Follows(c, l1, c2) && Base(c2, code, k, l2) && c2.Lo() <= end <= |code| && c.Lo() <= p < c2.Lo()
    ensures RewrittenAt(c2.code, code, p, c.Lo(), c2.Lo(), end, l1.t + l1.f, l1.j, l1.t + l2.t + l1.f + l2.f, l2.j)
    ensures RewrittenAt(c2.code, code, p, c.Lo(), c2.Lo(), end, l1.t + l1.f, l1.j, Join(l1, l2).t + Join(l1, l2).f,
            l2.j)
  {
    hide Framed;
    JoinBetween(c, l1, c2, code, p);
    assert p in l1.t + l1.f ==> OpenAt(c2.code, c.Lo(), p);
    assert p in l1.j ==> HereAt(c2.code, c.Lo(), p);
    assert forall j :: j in l2.t || j in l2.f ==> OpenAt(code, c2.Lo(), j);
    assert |code| != c2.Lo() ==> forall j :: j in l2.j ==> HereAt(code, c2.Lo(), j);
    if p > c.Lo() { JoinBetween(c, l1, c2, code, p - 1); }
    assert p + 1 in l1.t + l1.f ==> OpenAt(c2.code, c.Lo(), p + 1);
    assert p + 1 in l1.j ==> HereAt(c2.code, c.Lo(), p + 1);
  }

  /** The code of the second expression, with the jumps of the first still open. */
  lemma SecondRewritten(c: Start, l1: Lists, c2: Start, code: seq<Instr>, k: seq<Value>, l2: Lists, end: nat)
    requires Follows(c, l1, c2) && Base(c2, code, k, l2) && c2.Lo() <= end <= |code|
    requires l2.j == {} || end == |code|
    ensures RewrittenOf(c2, code, code, end, end, l2, Join(l1, l2))
  {
    hide Framed;
    var l := Join(l1, l2);
    forall p | c2.Lo() <= p < end
      ensures RewrittenAt(code, code, p, c2.Lo(), end, end, l2.t + l2.f, l2.j, l.t + l.f, l.j)
    {
      assert p in l1.t + l1.f ==> OpenAt(c2.code, c.Lo(), p);
      assert p in l2.t + l2.f ==> OpenAt(code, c2.Lo(), p);
      assert p in l2.j ==> HereAt(code, c2.Lo(), p);
    }
  }

  lemma EntryBack(c: Start, code: seq<Instr>, code': seq<Instr>, r: Regs)
    requires EntryKept(c, code, code') && Entry(c, code', r)
    ensures Entry(c, code, r)
  {}

  /** Where the first expression ends, the second can be entered. */
  lemma EntrySecond(c: Start, l1: Lists, c2: Start, code: seq<Instr>, r: Regs, r1: Regs)
    requires Follows(c, l1, c2) && StartOk(c2) && Framed(c2, code) && Entry(c, code, r)
    requires c2.Lo() == c.Lo() ==> r1 == r
    ensures Entry(c2, code, r1)
  {
    assert c2.Lo() > c.Lo() ==> FrameAt(c2, code, c2.Lo() - 1);
  }

  /** What the value of `and` or `or` is once the first operand is known to be `b`, or not to be. */
  lemma ShortCircuit(op: BinOpr, x1: Expr, x2: Expr, r: Regs, ord: Order)
    requires IsLogical(op)
    ensures Eval(Binary(op, x1, x2), r, ord) ==
            if Truthy(Eval(x1, r, ord)) == op.OprAnd? then Eval(x2, r, ord) else Eval(x1, r, ord)
  {}

  /** The first expression ended early: so does the whole. */
  lemma JoinExit(c: Start, l1: Lists, c2: Start, code: seq<Instr>, k: seq<Value>, ord: Order, l2: Lists, g: Goal,
                 v: Value, r: Regs,
                 b: bool, o: Outcome)
    requires Follows(c, l1, c2) && Base(c2, code, k, l2)
    requires Right(c, c2.code, c2.k, ord, l1, Goes(b), v, r, o) && o.Exit? && o.at < c2.Lo()
    ensures Right(c, code, k, ord, Join(l1, l2), g, v, r, o) && OpenAt(code, c.Lo(), o.at)
    ensures o.at in Join(l1, l2).t || o.at in Join(l1, l2).f
  {
    hide Framed, Base, Same, Carries;
    JoinBetween2(c, l1, c2, code, k, l2, o.at);
  }

  lemma JoinBetween2(c: Start, l1: Lists, c2: Start, code: seq<Instr>, k: seq<Value>, l2: Lists, j: nat)
    requires Follows(c, l1, c2) && Base(c2, code, k, l2) && (j in l1.t || j in l1.f)
    ensures c.Lo() < j < c2.Lo() && OpenAt(code, c.Lo(), j) && code[j - 1] == c2.code[j - 1]
    ensures j in l1.t <==> j in Join(l1, l2).t
    ensures j in l1.f <==> j in Join(l1, l2).f
  {
    hide Framed;
    assert OpenAt(c2.code, c.Lo(), j);
    JoinBetween(c, l1, c2, code, j);
    assert j in l2.t || j in l2.f ==> OpenAt(code, c2.Lo(), j);
  }

  /** The second expression ended, one way or another: so does the whole. */
  lemma JoinSecond(c: Start, l1: Lists, c2: Start, code: seq<Instr>, k: seq<Value>, ord: Order, l2: Lists, g: Goal,
                   v: Value,
                   r: Regs, r1: Regs, o: Outcome)
    requires Follows(c, l1, c2) && Base(c2, code, k, l2) && Same(r, r1, c.fr)
    requires Right(c2, code, k, ord, l2, g, v, r1, o)
    ensures Right(c, code, k, ord, Join(l1, l2), g, v, r, o)
  {
    hide Framed, Reaches, Carries;
    FramedLength(c, c2.code);
    if o.Exit? {
      assert OpenAt(code, c2.Lo(), o.at);
      assert forall j :: j in l1.t || j in l1.f ==> OpenAt(c2.code, c.Lo(), j);
    }
  }

  lemma SecondRuns(c: Start, l1: Lists, c2: Start, code: seq<Instr>, k: seq<Value>, ord: Order, l2: Lists, g: Goal,
                   x: Expr,
                   r1: Regs) returns (o: Outcome)
    requires Follows(c, l1, c2) && Base(c2, code, k, l2) && Means(c2, code, k, l2, g, x) && Entry(c2, code, r1)
    requires l2.j == {} || GoalEnd(g, |code|) == |code|
    ensures Right(c2, code, k, ord, l2, g, Eval(x, r1, ord), r1, o)
    ensures RunOf(c2, code, k, ord, Join(l1, l2), GoalEnd(g, |code|), r1) == o
  {
    hide Run, Entry, RewrittenOf, ContinueOf, Base, Follows, Same, Reaches, Carries;
    var end := GoalEnd(g, |code|);
    SecondRewritten(c, l1, c2, code, k, l2, end);
    o := Resume(c2, code, code, k, k, ord, l2, Join(l1, l2), g, end, x, r1);
    if o.Fall? {
      FallEnds(code, k, ord, end, Join(l1, l2), o);
    } else {
      ExitStays(c2, code, k, ord, end, end, Join(l1, l2), o);
    }
  }

  /** The first expression was known to be `b`, or not, at its end; then `and` or `or` goes on with the second. */
  lemma JoinMeans(c: Start, l1: Lists, c2: Start, code: seq<Instr>, k: seq<Value>, l2: Lists, op: BinOpr, kind: Kind,
                  x1: Expr, x2: Expr)
    requires Follows(c, l1, c2) && Base(c2, code, k, l2) && IsLogical(op)
    requires c2.lasttarget == c2.Lo() && c2.k <= k && Scoped(x2, c.nactvar) && (if op.OprAnd? then l1.t else l1.f) == {}
    requires Means(c, c2.code, c2.k, l1, Goes(op.OprAnd?), x1) && Means(c2, code, k, l2, Want(kind), x2)
    requires KindOk(c2, code, k, l2, kind)
    ensures Means(c, code, k, Join(l1, l2), Want(kind), Binary(op, x1, x2))
  {
    hide Run, RewrittenOf, ContinueOf, Same, Reaches, Carries, ListsOk, Framed, RunOf, Right, Eval, Scoped, Sealed,
      Labelled;
    var l, end := Join(l1, l2), End(kind, |code|);
    JoinBase(c, l1, c2, code, k, l2);
    JoinRewritten(c, l1, c2, code, k, l2, end);
    forall ord: Order, r: Regs | Entry(c, code, r)
      ensures Right(c, code, k, ord, l, Want(kind), Eval(Binary(op, x1, x2), r, ord), r,
              RunOf(c, code, k, ord, l, end, r))
    {
      JoinRuns(c, l1, c2, code, k, ord, l2, op, kind, x1, x2, r);
    }
    MeansIntro(c, code, k, l, Want(kind), Binary(op, x1, x2));
  }

  lemma MeansIntro(c: Start, code: seq<Instr>, k: seq<Value>, l: Lists, g: Goal, x: Expr)
    requires c.Lo() <= GoalEnd(g, |code|) <= |code|
    requires forall ord: Order, r: Regs :: Entry(c, code, r) ==>
               Right(c, code, k, ord, l, g, Eval(x, r, ord), r, RunOf(c, code, k, ord, l, GoalEnd(g, |code|), r))
    ensures Means(c, code, k, l, g, x)
  {
    hide Run, Right, Entry;
  }

  lemma JoinRuns(c: Start, l1: Lists, c2: Start, code: seq<Instr>, k: seq<Value>, ord: Order, l2: Lists, op: BinOpr,
                 kind: Kind,
                 x1: Expr, x2: Expr, r: Regs)
    requires Follows(c, l1, c2) && Base(c2, code, k, l2) && IsLogical(op)
    requires c2.lasttarget == c2.Lo() && c2.k <= k && Scoped(x2, c.nactvar) && (if op.OprAnd? then l1.t else l1.f) == {}
    requires Means(c, c2.code, c2.k, l1, Goes(op.OprAnd?), x1) && Means(c2, code, k, l2, Want(kind), x2)
    requires KindOk(c2, code, k, l2, kind) && EntryKept(c, c2.code, code) && Entry(c, code, r)
    requires RewrittenOf(c, c2.code, code, c2.Lo(), End(kind, |code|), l1, Join(l1, l2))
    ensures Right(c, code, k, ord, Join(l1, l2), Want(kind), Eval(Binary(op, x1, x2), r, ord), r,
                  RunOf(c, code, k, ord, Join(l1, l2), End(kind, |code|), r))
  {
    hide Run, RewrittenOf, Carries, ListsOk, Framed, Eval, Scoped, Sealed, Labelled, Means, EntryKept;
    var l, end := Join(l1, l2), End(kind, |code|);
    var o1 := Resume(c, c2.code, code, c2.k, k, ord, l1, l, Goes(op.OprAnd?), end, x1, r);
    ShortCircuit(op, x1, x2, r, ord);
    if o1.Exit? {
      JoinExit(c, l1, c2, code, k, ord, l2, Want(kind), Eval(x1, r, ord), r, op.OprAnd?, o1);
      ExitStays(c, code, k, ord, c2.Lo(), end, l, o1);
    } else {
      EvalSame(x2, r, o1.regs, ord, c.nactvar, c.fr);
      var o2 := SecondRuns(c, l1, c2, code, k, ord, l2, Want(kind), x2, o1.regs);
      JoinSecond(c, l1, c2, code, k, ord, l2, Want(kind), Eval(x2, r, ord), r, o1.regs, o2);
    }
  }
}
