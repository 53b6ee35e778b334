/** Expressions with operators: which trees the priorities allow, and how a list of tokens is read as one of them. */
module LuaPrecedence {

  datatype UnOpr = Minus | Bnot | Not | Len

  datatype BinOpr = Add | Sub | Mul | Mod | Pow | Div | Idiv | Band | Bor | Bxor | Shl | Shr | Concat
    | Eq | Lt | Le | Ne | Gt | Ge | And | Or

  /** A token. A simple expression (a constant, a name with its suffixes, a constructor, a function) is one token
      here. */
  datatype Token = Atom(id: nat) | Open | Close | Eos
    | TkMinus | TkTilde | TkNot | TkHash
    | TkAdd | TkMul | TkMod | TkPow | TkDiv | TkIdiv | TkBand | TkBor | TkShl | TkShr | TkConcat
    | TkEq | TkLt | TkLe | TkNe | TkGt | TkGe | TkAnd | TkOr

  datatype Option<T> = None | Some(value: T)

  /** What the parser builds. */
  datatype Tree = Leaf(id: nat) | Unary(un: UnOpr, operand: Tree) | Binary(bin: BinOpr, left: Tree, right: Tree)
    | Paren(inner: Tree)

  function GetUnOpr(t: Token): Option<UnOpr> {
    match t
    case TkNot => Some(Not)
    case TkMinus => Some(Minus)
    case TkTilde => Some(Bnot)
    case TkHash => Some(Len)
    case _ => None
  }

  function GetBinOpr(t: Token): Option<BinOpr> {
    match t
    case TkAdd => Some(Add)
    case TkMinus => Some(Sub)
    case TkMul => Some(Mul)
    case TkMod => Some(Mod)
    case TkPow => Some(Pow)
    case TkDiv => Some(Div)
    case TkIdiv => Some(Idiv)
    case TkBand => Some(Band)
    case TkBor => Some(Bor)
    case TkTilde => Some(Bxor)
    case TkShl => Some(Shl)
    case TkShr => Some(Shr)
    case TkConcat => Some(Concat)
    case TkNe => Some(Ne)
    case TkEq => Some(Eq)
    case TkLt => Some(Lt)
    case TkLe => Some(Le)
    case TkGt => Some(Gt)
    case TkGe => Some(Ge)
    case TkAnd => Some(And)
    case TkOr => Some(Or)
    case _ => None
  }

  function UnToken(op: UnOpr): Token {
    match op
    case Minus => TkMinus
    case Bnot => TkTilde
    case Not => TkNot
    case Len => TkHash
  }

  function BinToken(op: BinOpr): Token {
    match op
    case Add => TkAdd
    case Sub => TkMinus
    case Mul => TkMul
    case Mod => TkMod
    case Pow => TkPow
    case Div => TkDiv
    case Idiv => TkIdiv
    case Band => TkBand
    case Bor => TkBor
    case Bxor => TkTilde
    case Shl => TkShl
    case Shr => TkShr
    case Concat => TkConcat
    case Eq => TkEq
    case Lt => TkLt
    case Le => TkLe
    case Ne => TkNe
    case Gt => TkGt
    case Ge => TkGe
    case And => TkAnd
    case Or => TkOr
  }

  lemma OperatorTokens(t: Token)
    ensures forall op :: GetBinOpr(t) == Some(op) <==> t == BinToken(op)
    ensures forall op :: GetUnOpr(t) == Some(op) <==> t == UnToken(op)
  {
    BinaryBack(t);
    UnaryTokens(t);
    forall op ensures GetBinOpr(t) == Some(op) <==> t == BinToken(op) {
      BinaryToken(op);
      hide GetBinOpr, BinToken;
    }
  }

  lemma BinaryToken(op: BinOpr)
    ensures GetBinOpr(BinToken(op)) == Some(op)
  {}

  lemma BinaryBack(t: Token)
    ensures GetBinOpr(t).Some? ==> t == BinToken(GetBinOpr(t).value)
  {}

  lemma UnaryTokens(t: Token)
    ensures forall op :: GetUnOpr(t) == Some(op) <==> t == UnToken(op)
  {}

  /** How tokens are written. */
  function Text(t: Token): string {
    match t
    case TkMinus => "-" case TkTilde => "~" case TkNot => "not" case TkHash => "#"
    case TkAdd => "+" case TkMul => "*" case TkMod => "%" case TkPow => "^" case TkDiv => "/" case TkIdiv => "//"
    case TkBand => "&" case TkBor => "|" case TkShl => "<<" case TkShr => ">>" case TkConcat => ".."
    case TkEq => "==" case TkLt => "<" case TkLe => "<=" case TkNe => "~=" case TkGt => ">" case TkGe => ">="
    case TkAnd => "and" case TkOr => "or"
    case Open => "(" case Close => ")"
    case _ => ""
  }

  /** How section 3.4 of the manual writes the operators. */
  function Written(op: BinOpr): string {
    match op
    case Add => "+" case Sub => "-" case Mul => "*" case Div => "/" case Idiv => "//" case Mod => "%" case Pow => "^"
    case Band => "&" case Bor => "|" case Bxor => "~" case Shr => ">>" case Shl => "<<"
    case Eq => "==" case Ne => "~=" case Lt => "<" case Gt => ">" case Le => "<=" case Ge => ">="
    case And => "and" case Or => "or" case Concat => ".."
  }

  function UnaryWritten(op: UnOpr): string {
    match op case Minus => "-" case Bnot => "~" case Not => "not" case Len => "#"
  }

  /** The token of an operator is written as the operator is. */
  lemma OperatorsWritten(op: BinOpr, un: UnOpr)
    ensures Text(BinToken(op)) == Written(op) && Text(UnToken(un)) == UnaryWritten(un)
  {}

  // ----- priorities -----

  function Left(op: BinOpr): nat {
    match op
    case Add => 10 case Sub => 10
    case Mul => 11 case Mod => 11
    case Pow => 14
    case Div => 11 case Idiv => 11
    case Band => 6 case Bor => 4 case Bxor => 5
    case Shl => 7 case Shr => 7
    case Concat => 9
    case Eq => 3 case Lt => 3 case Le => 3
    case Ne => 3 case Gt => 3 case Ge => 3
    case And => 2 case Or => 1
  }

  function Right(op: BinOpr): nat {
    match op
    case Add => 10 case Sub => 10
    case Mul => 11 case Mod => 11
    case Pow => 13
    case Div => 11 case Idiv => 11
    case Band => 6 case Bor => 4 case Bxor => 5
    case Shl => 7 case Shr => 7
    case Concat => 8
    case Eq => 3 case Lt => 3 case Le => 3
    case Ne => 3 case Gt => 3 case Ge => 3
    case And => 2 case Or => 1
  }

  const UnaryPriority: nat := 12

  /** The table of section 3.4.8 of the manual, from lower to higher precedence: a line of the table. */
  function Line(op: BinOpr): nat {
    match op
    case Or => 0
    case And => 1
    case Lt => 2 case Gt => 2 case Le => 2 case Ge => 2 case Ne => 2 case Eq => 2
    case Bor => 3
    case Bxor => 4
    case Band => 5
    case Shl => 6 case Shr => 6
    case Concat => 7
    case Add => 8 case Sub => 8
    case Mul => 9 case Div => 9 case Idiv => 9 case Mod => 9
    case Pow => 11
  }

  const UnaryLine: nat := 10

  predicate RightAssociative(op: BinOpr) { op == Concat || op == Pow }

  /** Between two operators the operand goes to the one on the later line of the table; on the same line, to the left
      one, unless they are right associative. A unary operator leaves its operand only to exponentiation. */
  lemma PrioritiesAsInManual(a: BinOpr, b: BinOpr)
    ensures Right(a) >= Left(b) <==> Line(a) > Line(b) || (Line(a) == Line(b) && !RightAssociative(a))
    ensures UnaryPriority >= Left(b) <==> UnaryLine > Line(b)
  {
    PriorityLine(a);
    PriorityLine(b);
    hide Left, Right, Line, RightAssociative;
  }

  /** The priorities of an operator, from its line in the table. */
  lemma PriorityLine(op: BinOpr)
    ensures Left(op) == (if Line(op) <= 6 then Line(op) + 1 else if Line(op) <= 9 then Line(op) + 2 else 14) &&
            Line(op) <= 11 && Line(op) != UnaryLine
    ensures Right(op) == Left(op) - if RightAssociative(op) then 1 else 0
    ensures RightAssociative(op) <==> Line(op) == 7 || Line(op) == 11
  {}

  // ----- trees -----

  /** No operator along the left edge is one that must not be taken at this limit. */
  predicate TakenAbove(t: Tree, limit: nat) {
    t.Binary? ==> Left(t.bin) > limit && TakenAbove(t.left, limit)
  }

  /** No operand along the right edge goes to an operator that follows with this priority. */
  predicate LeavesAlone(t: Tree, priority: nat) {
    match t
    case Unary(_, e) => UnaryPriority >= priority && LeavesAlone(e, priority)
    case Binary(op, _, r) => Right(op) >= priority && LeavesAlone(r, priority)
    case _ => true
  }

  /** Every operand is with the operator that the priorities give it to. */
  predicate Fits(t: Tree) {
    match t
    case Leaf(_) => true
    case Paren(e) => Fits(e)
    case Unary(_, e) => Fits(e) && TakenAbove(e, UnaryPriority)
    case Binary(op, l, r) => Fits(l) && Fits(r) && LeavesAlone(l, Left(op)) && TakenAbove(r, Right(op))
  }

  /** The tokens of a tree. */
  function Tokens(t: Tree): seq<Token> {
    match t
    case Leaf(id) => [Atom(id)]
    case Paren(e) => [Open] + Tokens(e) + [Close]
    case Unary(op, e) => [UnToken(op)] + Tokens(e)
    case Binary(op, l, r) => Tokens(l) + [BinToken(op)] + Tokens(r)
  }

  function First(toks: seq<Token>): Token { if toks == [] then Eos else toks[0] }

  /** A token that follows does not take the right edge of the tree. */
  predicate Leaves(t: Tree, next: Token) {
    var op := GetBinOpr(next);
    op.Some? ==> LeavesAlone(t, Left(op.value))
  }

  /** How many levels of recursion reading the tree takes. */
  function Levels(t: Tree): (n: nat)
    ensures n > 0
  {
    match t
    case Leaf(_) => 1
    case Paren(e) => 1 + Levels(e)
    case Unary(_, e) => 1 + Levels(e)
    case Binary(_, l, r) => if Levels(l) > Levels(r) then Levels(l) else 1 + Levels(r)
  }

  /** `toks` begins with a tree that may be read at this limit, and the rest begins with nothing that would belong to
      it. */
  ghost predicate Reads(toks: seq<Token>, limit: nat, t: Tree, rest: seq<Token>) {
    && toks == Tokens(t) + rest && Fits(t) && TakenAbove(t, limit) && Leaves(t, First(rest))
    && !Takes(First(rest), limit)
  }

  /** The token is an operator of which the left priority is above the limit. */
  predicate Takes(t: Token, limit: nat) {
    var op := GetBinOpr(t);
    op.Some? && Left(op.value) > limit
  }

  // ----- reading -----

  datatype Error = UnexpectedSymbol | CloseExpected | TooManyLevels

  datatype Outcome = Parsed(tree: Tree, rest: seq<Token>) | Failed(error: Error)

  const MaxCCalls: nat := 200

  /** Reads a subexpression: an operand, then operators as long as they have priorities above the limit. `room` is how
      many levels of recursion are left. */
  function Subexpr(toks: seq<Token>, limit: nat, room: nat): (o: Outcome)
    ensures o.Parsed? ==> |o.rest| < |toks|
    decreases |toks|, 2
  {
    if room == 0 then Failed(TooManyLevels)
    else
      var head := Operand(toks, room - 1);
      if head.Failed? then head else More(head.tree, head.rest, limit, room - 1)
  }

  function Operand(toks: seq<Token>, room: nat): (o: Outcome)
    ensures o.Parsed? ==> |o.rest| < |toks|
    decreases |toks|, 1
  {
    var uop := GetUnOpr(First(toks));
    if uop.Some? then
      var o := Subexpr(toks[1..], UnaryPriority, room);
      if o.Failed? then o else Parsed(Unary(uop.value, o.tree), o.rest)
    else Simple(toks, room)
  }

  function Simple(toks: seq<Token>, room: nat): (o: Outcome)
    ensures o.Parsed? ==> |o.rest| < |toks|
    decreases |toks|, 0
  {
    match First(toks)
    case Atom(id) => Parsed(Leaf(id), toks[1..])
    case Open => Closed(Subexpr(toks[1..], 0, room))
    case _ => Failed(UnexpectedSymbol)
  }

  /** What was read between parentheses. */
  function Closed(o: Outcome): (c: Outcome)
    ensures o.Parsed? && c.Parsed? ==> |c.rest| <= |o.rest|
    ensures c.Parsed? ==> o.Parsed?
  {
    if o.Failed? then o
    else if First(o.rest) != Close then Failed(CloseExpected)
    else Parsed(Paren(o.tree), o.rest[1..])
  }

  function More(t: Tree, toks: seq<Token>, limit: nat, room: nat): (o: Outcome)
    ensures o.Parsed? ==> |o.rest| <= |toks|
    decreases |toks|, 0
  {
    if !Takes(First(toks), limit) then Parsed(t, toks)
    else
      var op := GetBinOpr(First(toks)).value;
      var o := Subexpr(toks[1..], Right(op), room);
      if o.Failed? then o else More(Binary(op, t, o.tree), o.rest, limit, room)
  }

  // ----- what is read is allowed -----

  lemma {:induction false} SubexprSound(toks: seq<Token>, limit: nat, room: nat)
    ensures var o := Subexpr(toks, limit, room);
      o.Parsed? ==> Reads(toks, limit, o.tree, o.rest) && Levels(o.tree) <= room
    decreases |toks|, 2
  {
    if room > 0 {
      OperandSound(toks, room - 1);
      var head := Operand(toks, room - 1);
      if head.Parsed? {
        MoreSound(head.tree, head.rest, limit, room - 1);
      }
    }
  }

  /** An operand that is not a binary operation, however the next token goes on. */
  ghost predicate Headed(t: Tree, toks: seq<Token>, rest: seq<Token>, room: nat) {
    toks == Tokens(t) + rest && Fits(t) && !t.Binary? && Leaves(t, First(rest)) && Levels(t) <= room + 1
  }

  lemma {:induction false} OperandSound(toks: seq<Token>, room: nat)
    ensures var o := Operand(toks, room); o.Parsed? ==> Headed(o.tree, toks, o.rest, room)
    decreases |toks|, 1
  {
    var uop := GetUnOpr(First(toks));
    if uop.Some? {
      SubexprSound(toks[1..], UnaryPriority, room);
      OperatorTokens(First(toks));
      var o := Subexpr(toks[1..], UnaryPriority, room);
      if o.Parsed? {
        assert toks == [UnToken(uop.value)] + toks[1..];
        assert toks == [UnToken(uop.value)] + Tokens(o.tree) + o.rest;
      }
    } else {
      SimpleSound(toks, room);
    }
  }

  lemma {:induction false} SimpleSound(toks: seq<Token>, room: nat)
    ensures var o := Simple(toks, room); o.Parsed? ==> Headed(o.tree, toks, o.rest, room)
    decreases |toks|, 0
  {
    if First(toks).Open? {
      SubexprSound(toks[1..], 0, room);
      var o := Subexpr(toks[1..], 0, room);
      if o.Parsed? && First(o.rest) == Close {
        assert toks == [Open] + Tokens(o.tree) + [Close] + o.rest[1..];
      }
    } else if First(toks).Atom? {
      assert toks == [toks[0]] + toks[1..];
    }
  }

  lemma {:induction false} MoreSound(t: Tree, toks: seq<Token>, limit: nat, room: nat)
    requires Fits(t) && TakenAbove(t, limit) && Leaves(t, First(toks)) && Levels(t) <= room + 1
    ensures var o := More(t, toks, limit, room);
      o.Parsed? ==> Reads(Tokens(t) + toks, limit, o.tree, o.rest) && Levels(o.tree) <= room + 1
    decreases |toks|, 0
  {
    hide GetBinOpr, Left, Right, Takes, Leaves;
    if Takes(First(toks), limit) {
      var op := NextIs(toks, limit);
      SubexprSound(toks[1..], Right(op), room);
      var o := Subexpr(toks[1..], Right(op), room);
      if o.Parsed? {
        Joined(op, t, o.tree, toks, o.rest, limit);
        MoreSound(Binary(op, t, o.tree), o.rest, limit, room);
      }
    }
  }

  lemma NextIs(toks: seq<Token>, limit: nat) returns (op: BinOpr)
    requires Takes(First(toks), limit)
    ensures toks != [] && GetBinOpr(First(toks)) == Some(op) && toks[0] == BinToken(op) && Left(op) > limit
  {
    op := GetBinOpr(First(toks)).value;
    OperatorTokens(First(toks));
  }

  /** Two operands and the operator between them make a tree that fits. */
  lemma Joined(op: BinOpr, l: Tree, r: Tree, toks: seq<Token>, rest: seq<Token>, limit: nat)
    requires toks != [] && toks[0] == BinToken(op) && GetBinOpr(toks[0]) == Some(op) && Left(op) > limit
    requires Fits(l) && TakenAbove(l, limit) && Leaves(l, toks[0]) && Reads(toks[1..], Right(op), r, rest)
    ensures var t := Binary(op, l, r);
      Fits(t) && TakenAbove(t, limit) && Leaves(t, First(rest)) && Tokens(l) + toks == Tokens(t) + rest
  {
    hide GetBinOpr, Left, Right, BinToken;
    assert toks == [BinToken(op)] + toks[1..];
    assert Tokens(l) + toks == Tokens(l) + [BinToken(op)] + Tokens(r) + rest;
  }

  // ----- what is allowed is read -----

  /** Reading the tokens of a tree comes down to going on after the tree. */
  lemma {:induction false} Climb(t: Tree, rest: seq<Token>, limit: nat, room: nat)
    requires Fits(t) && TakenAbove(t, limit) && Leaves(t, First(rest))
    ensures Subexpr(Tokens(t) + rest, limit, room)
         == if Levels(t) <= room then More(t, rest, limit, room - 1) else Failed(TooManyLevels)
    decreases t, 1
  {
    hide GetBinOpr, Left, Right, Takes, Leaves, Fits, TakenAbove, More;
    if room > 0 {
      if t.Binary? {
        ClimbBinary(t.bin, t.left, t.right, rest, limit, room);
      } else {
        ClimbOperand(t, rest, room - 1);
      }
    }
  }

  lemma {:induction false} ClimbOperand(t: Tree, rest: seq<Token>, room: nat)
    requires !t.Binary? && Fits(t) && Leaves(t, First(rest))
    ensures Operand(Tokens(t) + rest, room) == if Levels(t) <= room + 1 then Parsed(t, rest) else Failed(TooManyLevels)
    decreases t, 0
  {
    hide Left, Right;
    var toks := Tokens(t) + rest;
    if t.Paren? {
      var after := [Close] + rest;
      assert toks[1..] == Tokens(t.inner) + after;
      AboveZero(t.inner);
      SubexprComplete(t.inner, after, 0, room);
      assert after[1..] == rest;
    } else if t.Unary? {
      assert toks[1..] == Tokens(t.operand) + rest;
      OperatorTokens(toks[0]);
      SubexprComplete(t.operand, rest, UnaryPriority, room);
    } else {
      assert toks[1..] == rest;
    }
  }

  lemma {:induction false} ClimbBinary(op: BinOpr, l: Tree, r: Tree, rest: seq<Token>, limit: nat, room: nat)
    requires var t := Binary(op, l, r); Fits(t) && TakenAbove(t, limit) && Leaves(t, First(rest))
    requires room > 0
    ensures Subexpr(Tokens(Binary(op, l, r)) + rest, limit, room)
         == if Levels(Binary(op, l, r)) <= room then More(Binary(op, l, r), rest, limit, room - 1)
           else Failed(TooManyLevels)
    decreases Binary(op, l, r), 0
  {
    hide GetBinOpr, Left, Right, Subexpr, BinToken, Takes, Leaves;
    var after := [BinToken(op)] + Tokens(r) + rest;
    assert Tokens(Binary(op, l, r)) + rest == Tokens(l) + after;
    BinaryParts(op, l, r, rest, limit);
    Climb(l, after, limit, room);
    assert after[1..] == Tokens(r) + rest;
    SubexprComplete(r, rest, Right(op), room - 1);
  }

  lemma BinaryParts(op: BinOpr, l: Tree, r: Tree, rest: seq<Token>, limit: nat)
    requires var t := Binary(op, l, r); Fits(t) && TakenAbove(t, limit) && Leaves(t, First(rest))
    ensures Fits(l) && Fits(r) && TakenAbove(l, limit) && TakenAbove(r, Right(op))
    ensures Leaves(l, BinToken(op)) && Leaves(r, First(rest)) && !Takes(First(rest), Right(op))
    ensures GetBinOpr(BinToken(op)) == Some(op) && Takes(BinToken(op), limit)
  {
    OperatorTokens(BinToken(op));
    hide Left, Right, GetBinOpr;
  }

  lemma {:induction false} SubexprComplete(t: Tree, rest: seq<Token>, limit: nat, room: nat)
    requires Fits(t) && TakenAbove(t, limit) && Leaves(t, First(rest)) && !Takes(First(rest), limit)
    ensures Subexpr(Tokens(t) + rest, limit, room) == if Levels(t) <= room then Parsed(t, rest)
            else Failed(TooManyLevels)
    decreases t, 2
  {
    Climb(t, rest, limit, room);
  }

  /** The tree at the beginning of a list of tokens and what is left are the only ones. */
  lemma ReadsOnce(toks: seq<Token>, limit: nat, t: Tree, rest: seq<Token>, u: Tree, rest': seq<Token>)
    requires Reads(toks, limit, t, rest) && Reads(toks, limit, u, rest')
    ensures t == u && rest == rest'
  {
    SubexprComplete(t, rest, limit, Levels(t) + Levels(u));
    SubexprComplete(u, rest', limit, Levels(t) + Levels(u));
  }

  // ----- trees printed with the parentheses they need -----

  /** The operators of a tree, without parentheses. */
  function Strip(t: Tree): Tree {
    match t
    case Leaf(_) => t
    case Paren(e) => Strip(e)
    case Unary(op, e) => Unary(op, Strip(e))
    case Binary(op, l, r) => Binary(op, Strip(l), Strip(r))
  }

  /** The tree with parentheses around exactly the operands that would otherwise go elsewhere. */
  function Parenthesized(t: Tree): (u: Tree)
    ensures Fits(u)
  {
    match t
    case Leaf(_) => t
    case Paren(e) => Paren(Parenthesized(e))
    case Unary(op, e) =>
      var e' := Parenthesized(e);
      Unary(op, if TakenAbove(e', UnaryPriority) then e' else Paren(e'))
    case Binary(op, l, r) =>
      var l', r' := Parenthesized(l), Parenthesized(r);
      Binary(op, if LeavesAlone(l', Left(op)) then l' else Paren(l'), if TakenAbove(r', Right(op)) then r'
        else Paren(r'))
  }

  lemma {:induction false} ParenthesizedKeeps(t: Tree)
    ensures Strip(Parenthesized(t)) == Strip(t)
  {
    match t
    case Leaf(_) =>
    case Paren(e) => ParenthesizedKeeps(e);
    case Unary(_, e) => ParenthesizedKeeps(e);
    case Binary(_, l, r) => ParenthesizedKeeps(l); ParenthesizedKeeps(r);
  }

  lemma {:induction false} AboveZero(t: Tree)
    ensures TakenAbove(t, 0)
  {
    if t.Binary? { AboveZero(t.left); }
  }

  /** Printing any tree of operators with the parentheses it needs, and reading it, gives the tree back. */
  lemma PrintRead(t: Tree, rest: seq<Token>, room: nat)
    requires !GetBinOpr(First(rest)).Some? && Levels(Parenthesized(t)) <= room
    ensures var o := Subexpr(Tokens(Parenthesized(t)) + rest, 0, room);
      o.Parsed? && Strip(o.tree) == Strip(t) && o.rest == rest
  {
    var u := Parenthesized(t);
    AboveZero(u);
    SubexprComplete(u, rest, 0, room);
    ParenthesizedKeeps(t);
  }

  /** A tree that fits needs no parentheses. */
  lemma {:induction false} FitsAsIs(t: Tree)
    requires Fits(t)
    ensures Parenthesized(t) == t
  {
    match t
    case Leaf(_) =>
    case Paren(e) => FitsAsIs(e);
    case Unary(_, e) => FitsAsIs(e);
    case Binary(_, l, r) => FitsAsIs(l); FitsAsIs(r);
  }

  /** Two trees that the priorities allow do not have the same tokens. */
  lemma OneTree(t: Tree, u: Tree)
    requires Fits(t) && Fits(u) && Tokens(t) == Tokens(u)
    ensures t == u
  {
    AboveZero(t);
    AboveZero(u);
    assert Tokens(t) + [] == Tokens(t);
    ReadsOnce(Tokens(t), 0, t, [], u, []);
  }

  /** A tree that does not fit is read as another one, or not at all: its parentheses were needed. */
  lemma OnlyFits(t: Tree, room: nat)
    requires !Fits(t)
    ensures Subexpr(Tokens(t), 0, room) != Parsed(t, [])
  {
    SubexprSound(Tokens(t), 0, room);
  }
}
