/** The parser of operator expressions: reads an operand, then climbs over operators by their priorities. */
module LuaParser {
  import opened LuaPrecedence

  datatype Result = Built(tree: Tree) | Raised(error: Error)

  class LexState {
    const toks: seq<Token>
    var pos: nat
    var nCcalls: nat

    ghost predicate Valid()
      reads this
    {
      pos <= |toks| && nCcalls <= MaxCCalls
    }

    /** The tokens not yet read. */
    ghost function Ahead(): seq<Token>
      requires Valid()
      reads this
    {
      toks[pos..]
    }

    constructor (toks: seq<Token>, nCcalls: nat)
      requires nCcalls <= MaxCCalls
      ensures Valid() && this.toks == toks && this.nCcalls == nCcalls && Ahead() == toks
    {
      this.toks, this.pos, this.nCcalls := toks, 0, nCcalls;
    }

    function Current(): (t: Token)
      requires Valid()
      reads this
      ensures t == First(Ahead())
    {
      if pos < |toks| then toks[pos] else Eos
    }

    method Next()
      requires Valid() && pos < |toks|
      modifies this`pos
      ensures Valid() && Ahead() == old(Ahead())[1..] && pos == old(pos) + 1
    {
      pos := pos + 1;
    }

    /** The outcome of reading, as the specification gives it. */
    ghost function AsOutcome(r: Result): Outcome
      requires Valid()
      reads this
    {
      match r
      case Built(t) => Parsed(t, Ahead())
      case Raised(e) => Failed(e)
    }

    method PrimaryExp() returns (r: Result)
      requires Valid()
      modifies this
      ensures Valid() && AsOutcome(r) == Simple(old(Ahead()), MaxCCalls - old(nCcalls))
      ensures r.Built? ==> nCcalls == old(nCcalls) && pos > old(pos)
      decreases |toks| - pos, 0
    {
      if Current().Atom? {
        r := Built(Leaf(Current().id));
        Next();
      } else if Current() == Open {
        Next();
        r := Expr();
        if r.Built? {
          if Current() == Close {
            Next();
            r := Built(Paren(r.tree));
          } else {
            r := Raised(CloseExpected);
          }
        }
      } else {
        r := Raised(UnexpectedSymbol);
      }
    }

    method SubExpr(limit: nat) returns (r: Result, op: Option<BinOpr>)
      requires Valid()
      modifies this
      ensures Valid() && AsOutcome(r) == Subexpr(old(Ahead()), limit, MaxCCalls - old(nCcalls))
      ensures r.Built? ==> nCcalls == old(nCcalls) && pos > old(pos) && op == GetBinOpr(Current())
      decreases |toks| - pos, 2
    {
      hide GetBinOpr, GetUnOpr, Left, Right;
      op := None;
      if nCcalls == MaxCCalls {
        return Raised(TooManyLevels), None;
      }
      nCcalls := nCcalls + 1;
      ghost var room := MaxCCalls - nCcalls;
      r := Head();
      if r.Raised? {
        return r, None;
      }
      var v := r.tree;
      op := GetBinOpr(Current());
      while op.Some? && Left(op.value) > limit
        invariant Valid() && nCcalls == old(nCcalls) + 1 && pos > old(pos) && r == Built(v)
        invariant op == GetBinOpr(First(Ahead()))
        invariant More(v, Ahead(), limit, room) == Subexpr(old(Ahead()), limit, room + 1)
        decreases |toks| - pos
      {
        SomeToken(First(Ahead()));
        Next();
        ghost var before := Ahead();
        var r2, nextop := SubExpr(Right(op.value));
        if r2.Raised? {
          return r2, None;
        }
        v := Binary(op.value, v, r2.tree);
        r := Built(v);
        op := nextop;
      }
      nCcalls := nCcalls - 1;
    }

    /** The operand at the beginning: a simple expression, or a unary operator and its operand. */
    method Head() returns (r: Result)
      requires Valid()
      modifies this
      ensures Valid() && AsOutcome(r) == Operand(old(Ahead()), MaxCCalls - old(nCcalls))
      ensures r.Built? ==> nCcalls == old(nCcalls) && pos > old(pos)
      decreases |toks| - pos, 1
    {
      hide GetUnOpr;
      var uop := GetUnOpr(Current());
      if uop.Some? {
        SomeUnary(First(Ahead()));
        Next();
        var op;
        r, op := SubExpr(UnaryPriority);
        if r.Built? {
          r := Built(Unary(uop.value, r.tree));
        }
      } else {
        r := PrimaryExp();
      }
    }

    /** Reads an expression: the only tree that the priorities allow at the beginning of the tokens, unless it is nested
        too deeply. */
    method Expr() returns (r: Result)
      requires Valid()
      modifies this
      ensures Valid() && AsOutcome(r) == Subexpr(old(Ahead()), 0, MaxCCalls - old(nCcalls))
      ensures r.Built? ==> nCcalls == old(nCcalls) && pos > old(pos)
      ensures r.Built? ==> Reads(old(Ahead()), 0, r.tree, Ahead()) && Levels(r.tree) <= MaxCCalls - nCcalls
      ensures forall t, rest :: Reads(old(Ahead()), 0, t, rest) ==>
        if Levels(t) <= MaxCCalls - old(nCcalls) then r == Built(t) && Ahead() == rest else r == Raised(TooManyLevels)
      decreases |toks| - pos, 3
    {
      ghost var room := MaxCCalls - nCcalls;
      ghost var all := Ahead();
      SubexprSound(all, 0, room);
      forall t, rest | Reads(all, 0, t, rest)
        ensures Subexpr(all, 0, room) == if Levels(t) <= room then Parsed(t, rest) else Failed(TooManyLevels)
      {
        SubexprComplete(t, rest, 0, room);
      }
      var op;
      r, op := SubExpr(0);
    }
  }

  lemma SomeToken(t: Token)
    requires GetBinOpr(t).Some?
    ensures t != Eos
  {}

  lemma SomeUnary(t: Token)
    requires GetUnOpr(t).Some?
    ensures t != Eos
  {}
}
