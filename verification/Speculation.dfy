/** Where the parser has to guess: a `<` may compare, or open the arguments of a generic instance. */
module Speculation {
  import opened Syntax
  import opened Grammar
  import opened Printer

  /** The tokens behind `>` that confirm a generic instance. */
  predicate Confirms(rest: seq<Token>) { rest != [] && rest[0] in {LParen, Semicolon, Comma} }

  /**
   * In the print of e for rung l, followed by rest, the guess comes out right: at every
   * comparison `<` the speculative reading fails, and every generic instance is confirmed.
   */
  predicate Clear(l: nat, e: Expr, rest: seq<Token>)
    decreases Size(e), 1
  {
    ClearForm(e, Behind(Level(e) < l, rest))
  }

  /** What follows an operand, in parentheses or not. */
  function Behind(parens: bool, rest: seq<Token>): seq<Token> { if parens then [RParen] + rest else rest }

  predicate ClearForm(e: Expr, rest: seq<Token>)
    decreases Size(e), 0
  {
    match e
    case Unary(op, x) => if IsPostfix(op) then Clear(POSTFIX, x, [UnaryToken(op)] + rest) else Clear(PREFIX, x, rest)
    case Binary(op, x, y) =>
      var after := [BinaryToken(op)] + (Print(OpLevel(op) + 1, y) + rest);
      && ClearLeft(op, x, after)
      && (op == Less ==> ParseGenericInst(after).Fail?)
      && Clear(OpLevel(op) + 1, y, rest)
    case Assign(op, x, y) => Clear(LOWEST, x, [AssignToken(op)] + (Print(0, y) + rest)) && Clear(0, y, rest)
    case Cast(x, t) => Clear(CAST, x, [As] + (PrintType(t) + rest)) && ClearType(t, rest)
    case Subscript(x, i) =>
      Clear(POSTFIX, x, [LBracket] + (Print(0, i) + ([RBracket] + rest))) && Clear(0, i, [RBracket] + rest)
    case Call(f, args) => Clear(POSTFIX, f, [LParen] + (PrintArgs(args) + ([RParen] + rest))) && ClearArgs(args, rest)
    case Member(x, m) => Clear(POSTFIX, x, [Dot, Word(Identifier(m))] + rest)
    case Inst(g, types) =>
      Clear(POSTFIX, g, [Lt] + (PrintTypes(types) + ([Gt] + rest))) && ClearTypes(types, Gt, rest) && Confirms(rest)
    case _ => true
  }

  predicate ClearLeft(op: BinaryOp, x: Expr, after: seq<Token>)
    decreases Size(x), 2
  {
    ClearForm(x, Behind(CastSwallows(op, x) || Level(x) < OpLevel(op), after))
  }

  predicate ClearArgs(es: seq<Expr>, rest: seq<Token>)
    decreases SizeAll(es), 2
  {
    es == [] || (Clear(0, es[0], PrintMoreArgs(es[1..]) + ([RParen] + rest)) && ClearArgs(es[1..], rest))
  }

  predicate ClearType(t: TypeExpr, rest: seq<Token>)
    decreases TypeSize(t), 1
  {
    match t
    case Pointer(x) => ClearType(x, rest)
    case Array(_, _) => ClearBase(Innermost(t), PrintDims(t) + rest) && ClearDims(t, rest)
    case Func(ps, None) => ClearTypes(ps, RParen, rest)
    case Func(ps, Some(r)) => ClearTypes(ps, RParen, [Arrow] + (PrintType(r) + rest)) && ClearType(r, rest)
    case Apply(b, args) => ClearAtom(b, [Lt] + (PrintTypes(args) + ([Gt] + rest))) && ClearTypes(args, Gt, rest)
    case _ => true
  }

  predicate ClearAtom(t: TypeExpr, rest: seq<Token>)
    decreases TypeSize(t), 2
  {
    ClearType(t, Behind(!IsAtom(t), rest))
  }

  predicate ClearBase(t: TypeExpr, rest: seq<Token>)
    decreases TypeSize(t), 3
  {
    if t.Apply? then ClearType(t, rest) else ClearAtom(t, rest)
  }

  predicate ClearDims(t: TypeExpr, rest: seq<Token>)
    decreases TypeSize(t), 0
  {
    match t
    case Array(None, x) => ClearDims(x, rest)
    case Array(Some(e), x) => Clear(0, e, [RBracket] + (PrintDims(x) + rest)) && ClearDims(x, rest)
    case _ => true
  }

  predicate ClearTypes(ts: seq<TypeExpr>, close: Token, rest: seq<Token>)
    decreases TypeSizeAll(ts), 2
  {
    ts == [] || (ClearType(ts[0], PrintMoreTypes(ts[1..]) + ([close] + rest)) && ClearTypes(ts[1..], close, rest))
  }

  // ---------- two kinds of trees for which every guess comes out right ----------

  lemma NotIn(a: seq<Token>, b: seq<Token>)
    ensures Gt !in a + b <==> Gt !in a && Gt !in b
  {}

  lemma InParens(ts: seq<Token>)
    requires Gt !in Paren(ts)
    ensures Gt !in ts
  {
    NotIn([LParen] + ts, [RParen]);
    NotIn([LParen], ts);
  }

  /** Without a `>` in sight no `<` can be taken for a bracket. */
  lemma {:induction false} NoCloserIsClear(e: Expr, rest: seq<Token>)
    requires Gt !in Bare(e) && Gt !in rest
    ensures ClearForm(e, rest)
    decreases Size(e), 0
  {
    match e
    case Int(_) =>
    case Const(_) =>
    case Ident(_) =>
    case Unary(op, x) =>
      if IsPostfix(op) {
        NoCloserIsClear(x, Behind(Level(x) < POSTFIX, [UnaryToken(op)] + rest));
      } else {
        NoCloserIsClear(x, Behind(Level(x) < PREFIX, rest));
      }
    case Binary(op, x, y) => NoCloserInBinary(op, x, y, rest);
    case Assign(op, x, y) =>
      NoCloserIsClear(x, Behind(Level(x) < LOWEST, [AssignToken(op)] + (Print(0, y) + rest)));
      NoCloserIsClear(y, rest);
    case Cast(x, t) =>
      NoCloserIsClear(x, Behind(Level(x) < CAST, [As] + (PrintType(t) + rest)));
      NoCloserInType(t, rest);
    case Subscript(x, i) =>
      NoCloserIsClear(x, Behind(Level(x) < POSTFIX, [LBracket] + (Print(0, i) + ([RBracket] + rest))));
      NoCloserIsClear(i, [RBracket] + rest);
    case Call(f, args) =>
      NoCloserIsClear(f, Behind(Level(f) < POSTFIX, [LParen] + (PrintArgs(args) + ([RParen] + rest))));
      NoCloserInArgs(args, rest);
    case Member(x, m) =>
      NoCloserIsClear(x, Behind(Level(x) < POSTFIX, [Dot, Word(Identifier(m))] + rest));
  }

  lemma {:induction false} NoCloserInBinary(op: BinaryOp, x: Expr, y: Expr, rest: seq<Token>)
    requires Gt !in Bare(Binary(op, x, y)) && Gt !in rest
    ensures ClearForm(Binary(op, x, y), rest)
    decreases Size(x) + Size(y), 5
  {
    var after := [BinaryToken(op)] + (Print(OpLevel(op) + 1, y) + rest);
    NotIn(PrintLeft(op, x), [BinaryToken(op)] + Print(OpLevel(op) + 1, y));
    assert Bare(Binary(op, x, y)) == PrintLeft(op, x) + ([BinaryToken(op)] + Print(OpLevel(op) + 1, y));
    if CastSwallows(op, x) || Level(x) < OpLevel(op) {
      InParens(Bare(x));
    }
    NoCloserIsClear(x, Behind(CastSwallows(op, x) || Level(x) < OpLevel(op), after));
    NoCloserIsClear(y, Behind(Level(y) < OpLevel(op) + 1, rest));
  }

  lemma {:induction false} NoCloserInArgs(es: seq<Expr>, rest: seq<Token>)
    requires Gt !in PrintArgs(es) && Gt !in rest
    ensures ClearArgs(es, rest)
    decreases SizeAll(es), 2
  {
    if es != [] {
      NoCloserIsClear(es[0], PrintMoreArgs(es[1..]) + ([RParen] + rest));
      NoCloserInArgs(es[1..], rest);
    }
  }

  lemma {:induction false} NoCloserInType(t: TypeExpr, rest: seq<Token>)
    requires Gt !in PrintType(t) && Gt !in rest
    ensures ClearType(t, rest)
    decreases TypeSize(t), 1
  {
    match t
    case Pointer(x) => NoCloserInType(x, rest);
    case Array(_, _) =>
      var base := Innermost(t);
      NotIn(PrintBase(base), PrintDims(t));
      NoCloserInBase(base, PrintDims(t) + rest);
      NoCloserInDims(t, rest);
    case Func(ps, None) => NoCloserInTypes(ps, rest);
    case Func(ps, Some(r)) =>
      NoCloserInTypes(ps, [Arrow] + (PrintType(r) + rest));
      NoCloserInType(r, rest);
    case _ =>
  }

  lemma {:induction false} NoCloserInBase(t: TypeExpr, rest: seq<Token>)
    requires Gt !in PrintBase(t) && Gt !in rest
    ensures ClearBase(t, rest)
    decreases TypeSize(t), 2
  {
    if t.Apply? || IsAtom(t) {
      NoCloserInType(t, rest);
    } else {
      InParens(PrintType(t));
      NoCloserInType(t, [RParen] + rest);
    }
  }

  lemma {:induction false} NoCloserInDims(t: TypeExpr, rest: seq<Token>)
    requires Gt !in PrintDims(t) && Gt !in rest
    ensures ClearDims(t, rest)
    decreases TypeSize(t), 0
  {
    match t
    case Array(None, x) => NoCloserInDims(x, rest);
    case Array(Some(e), x) =>
      NoCloserIsClear(e, [RBracket] + (PrintDims(x) + rest));
      NoCloserInDims(x, rest);
    case _ =>
  }

  lemma {:induction false} NoCloserInTypes(ts: seq<TypeExpr>, rest: seq<Token>)
    requires Gt !in PrintTypes(ts) && Gt !in rest
    ensures ClearTypes(ts, RParen, rest)
    decreases TypeSizeAll(ts), 2
  {
    if ts != [] {
      NoCloserInType(ts[0], PrintMoreTypes(ts[1..]) + ([RParen] + rest));
      NoCloserInTypes(ts[1..], rest);
    }
  }

  /** Trees of binary and prefix operators over 64-bit integer literals. */
  predicate LiteralTree(e: Expr)
  {
    match e
    case Int(v) => v <= IntegerLiterals.UINT64_MAX
    case Unary(op, x) => !IsPostfix(op) && LiteralTree(x)
    case Binary(_, l, r) => LiteralTree(l) && LiteralTree(r)
    case _ => false
  }

  /** Behind stars and opening parentheses comes something no type starts with. */
  predicate NoTypeAhead(ts: seq<Token>)
  {
    ts == [] || (if ts[0] == LParen || ts[0] == Star then NoTypeAhead(ts[1..]) else ts[0] != Fn && !ts[0].Word?)
  }

  lemma {:induction false} NoType(ts: seq<Token>)
    requires NoTypeAhead(ts)
    ensures ParseType(ts).Fail?
    decreases |ts|
  {
    if ts != [] && (ts[0] == LParen || ts[0] == Star) {
      NoType(ts[1..]);
    }
    if !At(ts, Star) {
      assert ParseTypeAtom(ts).Fail?;
      assert ParseSuffixed(ts).Fail?;
    }
  }

  lemma AheadOf(t: Token, ts: seq<Token>)
    ensures NoTypeAhead([t] + ts) == if t == LParen || t == Star then NoTypeAhead(ts) else t != Fn && !t.Word?
  {
    assert ([t] + ts)[1..] == ts;
  }

  lemma {:induction false} LiteralsAhead(parens: bool, e: Expr, rest: seq<Token>)
    requires LiteralTree(e)
    ensures NoTypeAhead((if parens then Paren(Bare(e)) else Bare(e)) + rest)
    decreases Size(e), if parens then 2 else 1
  {
    if parens {
      LiteralsAhead(false, e, [RParen] + rest);
      AheadOf(LParen, Bare(e) + ([RParen] + rest));
      assert Paren(Bare(e)) + rest == [LParen] + (Bare(e) + ([RParen] + rest));
    } else {
      match e
      case Int(v) => AheadOf(IntText(IntegerLiterals.Digits(v, 10)), rest);
      case Unary(op, x) => UnaryLiteralsAhead(op, x, rest);
      case Binary(op, x, y) => BinaryLiteralsAhead(op, x, y, rest);
    }
  }

  lemma {:induction false} UnaryLiteralsAhead(op: UnaryOp, x: Expr, rest: seq<Token>)
    requires LiteralTree(Unary(op, x))
    ensures NoTypeAhead(Bare(Unary(op, x)) + rest)
    decreases Size(Unary(op, x)), 0
  {
    LiteralsAhead(Level(x) < PREFIX, x, rest);
    AheadOf(UnaryToken(op), Print(PREFIX, x) + rest);
    assert Bare(Unary(op, x)) + rest == [UnaryToken(op)] + (Print(PREFIX, x) + rest);
  }

  lemma {:induction false} BinaryLiteralsAhead(op: BinaryOp, x: Expr, y: Expr, rest: seq<Token>)
    requires LiteralTree(Binary(op, x, y))
    ensures NoTypeAhead(Bare(Binary(op, x, y)) + rest)
    decreases Size(Binary(op, x, y)), 0
  {
    var tail := [BinaryToken(op)] + Print(OpLevel(op) + 1, y);
    LiteralsAhead(CastSwallows(op, x) || Level(x) < OpLevel(op), x, tail + rest);
    assert Bare(Binary(op, x, y)) + rest == PrintLeft(op, x) + (tail + rest);
  }

  /** Literals are not types: the speculative reading fails at every `<`, whatever the tree. */
  lemma {:induction false} LiteralTreeIsClear(e: Expr, rest: seq<Token>)
    requires LiteralTree(e)
    ensures Printable(e) && ClearForm(e, rest)
    decreases Size(e)
  {
    match e
    case Int(_) =>
    case Unary(_, x) => LiteralTreeIsClear(x, Behind(Level(x) < PREFIX, rest));
    case Binary(op, x, y) =>
      var right := Print(OpLevel(op) + 1, y);
      LiteralTreeIsClear(x, Behind(CastSwallows(op, x) || Level(x) < OpLevel(op), [BinaryToken(op)] + (right + rest)));
      LiteralTreeIsClear(y, Behind(Level(y) < OpLevel(op) + 1, rest));
      NotArguments(y, OpLevel(op) + 1, rest);
  }

  lemma NotArguments(e: Expr, l: nat, rest: seq<Token>)
    requires LiteralTree(e)
    ensures ParseGenericInst([Lt] + (Print(l, e) + rest)).Fail?
  {
    LiteralsAhead(Level(e) < l, e, rest);
    NoType(Print(l, e) + rest);
    assert ([Lt] + (Print(l, e) + rest))[1..] == Print(l, e) + rest;
  }
}
