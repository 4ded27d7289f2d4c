/** Minimally parenthesised token prints of expressions and types. */
module Printer {
  import opened Options
  import opened Syntax
  import opened IntegerLiterals

  // ---------- sizes, for termination ----------

  function Size(e: Expr): (n: nat)
    ensures n > 0
    decreases e, 0
  {
    match e
    case Int(_) => 1
    case Const(_) => 1
    case Ident(_) => 1
    case Unary(_, x) => 1 + Size(x)
    case Binary(_, l, r) => 1 + Size(l) + Size(r)
    case Assign(_, l, r) => 1 + Size(l) + Size(r)
    case Cast(x, t) => 1 + Size(x) + TypeSize(t)
    case Subscript(x, i) => 1 + Size(x) + Size(i)
    case Call(f, args) => 1 + Size(f) + SizeAll(args)
    case Member(x, _) => 1 + Size(x)
    case Inst(g, args) => 1 + Size(g) + TypeSizeAll(args)
  }

  function SizeAll(es: seq<Expr>): nat
    decreases es, 1
  {
    if es == [] then 0 else 1 + Size(es[0]) + SizeAll(es[1..])
  }

  function TypeSize(t: TypeExpr): (n: nat)
    ensures n > 0
    decreases t, 0
  {
    match t
    case Named(_) => 1
    case Dotted(_) => 1
    case Pointer(x) => 1 + TypeSize(x)
    case Array(None, x) => 1 + TypeSize(x)
    case Array(Some(e), x) => 1 + Size(e) + TypeSize(x)
    case Func(ps, None) => 1 + TypeSizeAll(ps)
    case Func(ps, Some(r)) => 1 + TypeSizeAll(ps) + TypeSize(r)
    case Apply(b, args) => 1 + TypeSize(b) + TypeSizeAll(args)
  }

  function TypeSizeAll(ts: seq<TypeExpr>): nat
    decreases ts, 1
  {
    if ts == [] then 0 else 1 + TypeSize(ts[0]) + TypeSizeAll(ts[1..])
  }

  // ---------- tokens of operators ----------

  function BinaryToken(op: BinaryOp): (t: Token)
    ensures BinaryOf(t) == Some(op)
  {
    match op
    case Or => OrOr
    case And => AndAnd
    case Equal => EqEq
    case NotEqual => BangEq
    case Less => Lt
    case Greater => Gt
    case LessEqual => LtEq
    case GreaterEqual => GtEq
    case Add => Plus
    case Sub => Minus
    case Mul => Star
    case Div => Slash
    case Mod => Percent
  }

  predicate IsPostfix(op: UnaryOp) { op == PostInc || op == PostDec }

  function UnaryToken(op: UnaryOp): (t: Token)
    ensures !IsPostfix(op) ==> PrefixOf(t) == Some(op)
  {
    match op
    case Positive => Plus
    case Negate => Minus
    case Not => Bang
    case Deref => Star
    case Address => Amp
    case PreInc | PostInc => PlusPlus
    case PreDec | PostDec => MinusMinus
  }

  function AssignToken(op: AssignOp): (t: Token)
    ensures AssignOf(t) == Some(op)
  {
    match op
    case Set => Equals
    case AddSet => PlusEq
    case SubSet => MinusEq
    case MulSet => StarEq
    case DivSet => SlashEq
    case ModSet => PercentEq
  }

  // ---------- expressions ----------

  /** Where an expression sits on the precedence ladder. */
  function Level(e: Expr): (l: nat)
    ensures l <= ATOM
  {
    match e
    case Assign(_, _, _) => 0
    case Binary(op, _, _) => OpLevel(op)
    case Cast(_, _) => CAST
    case Unary(op, _) => if IsPostfix(op) then POSTFIX else PREFIX
    case Subscript(_, _) => POSTFIX
    case Call(_, _) => POSTFIX
    case Member(_, _) => POSTFIX
    case Inst(_, _) => POSTFIX
    case _ => ATOM
  }

  /** Whether the bare print ends with the type of a cast, to which the type parser would add what follows. */
  predicate EndsInCast(e: Expr)
  {
    match e
    case Cast(_, _) => true
    case Binary(op, _, r) => Level(r) > OpLevel(op) && EndsInCast(r)
    case Assign(_, _, r) => EndsInCast(r)
    case _ => false
  }

  /** `a as T < b` and `a as T * b` need parentheses that precedence does not ask for. */
  predicate CastSwallows(op: BinaryOp, left: Expr)
  {
    (op == Less || op == Mul) && EndsInCast(left)
  }

  function Paren(ts: seq<Token>): seq<Token> { [LParen] + ts + [RParen] }

  /** The print of an expression where the parser expects one of level l or higher. */
  function Print(l: nat, e: Expr): (ts: seq<Token>)
    decreases Size(e), 1
  {
    if Level(e) < l then Paren(Bare(e)) else Bare(e)
  }

  function Bare(e: Expr): (ts: seq<Token>)
    decreases Size(e), 0
  {
    match e
    case Int(v) => [IntText(Digits(v, 10))]
    case Const(c) => [Literal(c)]
    case Ident(n) => [Word(n)]
    case Unary(op, x) =>
      if IsPostfix(op) then Print(POSTFIX, x) + [UnaryToken(op)] else [UnaryToken(op)] + Print(PREFIX, x)
    case Binary(op, l, r) => PrintLeft(op, l) + [BinaryToken(op)] + Print(OpLevel(op) + 1, r)
    case Assign(op, l, r) => Print(LOWEST, l) + [AssignToken(op)] + Print(0, r)
    case Cast(x, t) => Print(CAST, x) + [As] + PrintType(t)
    case Subscript(x, i) => Print(POSTFIX, x) + [LBracket] + Print(0, i) + [RBracket]
    case Call(f, args) => Print(POSTFIX, f) + [LParen] + PrintArgs(args) + [RParen]
    case Member(x, m) => Print(POSTFIX, x) + [Dot, Word(Identifier(m))]
    case Inst(g, args) => Print(POSTFIX, g) + [Lt] + PrintTypes(args) + [Gt]
  }

  function PrintLeft(op: BinaryOp, e: Expr): seq<Token>
    decreases Size(e), 2
  {
    if CastSwallows(op, e) then Paren(Bare(e)) else Print(OpLevel(op), e)
  }

  function PrintArgs(es: seq<Expr>): seq<Token>
    decreases SizeAll(es), 2
  {
    if es == [] then [] else Print(0, es[0]) + PrintMoreArgs(es[1..])
  }

  function PrintMoreArgs(es: seq<Expr>): seq<Token>
    decreases SizeAll(es), 3
  {
    if es == [] then [] else [Comma] + PrintArgs(es)
  }

  // ---------- types ----------

  predicate IsAtom(t: TypeExpr)
  {
    t.Named? || t.Dotted? || (t.Func? && t.ret.None?)
  }

  function Innermost(t: TypeExpr): (r: TypeExpr)
    ensures TypeSize(r) <= TypeSize(t) && !r.Array?
    ensures t.Array? ==> TypeSize(r) < TypeSize(t)
    decreases TypeSize(t)
  {
    if t.Array? then Innermost(t.base) else t
  }

  function PrintType(t: TypeExpr): (ts: seq<Token>)
    decreases TypeSize(t), 1
  {
    match t
    case Named(n) => [Word(n)]
    case Dotted(path) => PrintPath(path)
    case Pointer(x) => [Star] + PrintType(x)
    case Array(_, _) => PrintBase(Innermost(t)) + PrintDims(t)
    case Func(ps, None) => [Fn, LParen] + PrintTypes(ps) + [RParen]
    case Func(ps, Some(r)) => [Fn, LParen] + PrintTypes(ps) + [RParen, Arrow] + PrintType(r)
    case Apply(b, args) => PrintAtom(b) + [Lt] + PrintTypes(args) + [Gt]
  }

  function PrintAtom(t: TypeExpr): seq<Token>
    decreases TypeSize(t), 2
  {
    if IsAtom(t) then PrintType(t) else Paren(PrintType(t))
  }

  function PrintBase(t: TypeExpr): seq<Token>
    decreases TypeSize(t), 3
  {
    if t.Apply? then PrintType(t) else PrintAtom(t)
  }

  function PrintDims(t: TypeExpr): seq<Token>
    decreases TypeSize(t), 0
  {
    match t
    case Array(None, x) => [LBracket, RBracket] + PrintDims(x)
    case Array(Some(e), x) => [LBracket] + Print(0, e) + [RBracket] + PrintDims(x)
    case _ => []
  }

  function PrintTypes(ts: seq<TypeExpr>): seq<Token>
    decreases TypeSizeAll(ts), 2
  {
    if ts == [] then [] else PrintType(ts[0]) + PrintMoreTypes(ts[1..])
  }

  function PrintMoreTypes(ts: seq<TypeExpr>): seq<Token>
    decreases TypeSizeAll(ts), 3
  {
    if ts == [] then [] else [Comma] + PrintTypes(ts)
  }

  function PrintPath(path: seq<nat>): seq<Token>
  {
    if path == [] then [] else [Word(Identifier(path[0]))] + PrintPathTail(path[1..])
  }

  function PrintPathTail(path: seq<nat>): seq<Token>
  {
    if path == [] then [] else [Dot, Word(Identifier(path[0]))] + PrintPathTail(path[1..])
  }

  // ---------- which trees there are ----------

  /** Trees the parser can produce: literals that fit, targets that can be assigned, lists that cannot be empty. */
  predicate Printable(e: Expr)
    decreases Size(e), 0
  {
    match e
    case Int(v) => v <= UINT64_MAX
    case Const(_) => true
    case Ident(n) => StartsExpression(n)
    case Unary(_, x) => Printable(x)
    case Binary(_, l, r) => Printable(l) && Printable(r)
    case Assign(_, l, r) => IsLvalue(l) && Printable(l) && Printable(r)
    case Cast(x, t) => Printable(x) && PrintableType(t)
    case Subscript(x, i) => Printable(x) && Printable(i)
    case Call(f, args) => Printable(f) && AllPrintable(args)
    case Member(x, _) => Printable(x)
    case Inst(g, args) => Printable(g) && args != [] && AllPrintableTypes(args)
  }

  predicate AllPrintable(es: seq<Expr>)
    decreases SizeAll(es), 1
  {
    es == [] || (Printable(es[0]) && AllPrintable(es[1..]))
  }

  predicate PrintableType(t: TypeExpr)
    decreases TypeSize(t), 0
  {
    match t
    case Named(_) => true
    case Dotted(path) => |path| >= 2
    case Pointer(x) => PrintableType(x)
    case Array(None, x) => PrintableType(x)
    case Array(Some(e), x) => Printable(e) && PrintableType(x)
    case Func(ps, None) => AllPrintableTypes(ps)
    case Func(ps, Some(r)) => AllPrintableTypes(ps) && PrintableType(r)
    case Apply(b, args) => args != [] && PrintableType(b) && AllPrintableTypes(args)
  }

  predicate AllPrintableTypes(ts: seq<TypeExpr>)
    decreases TypeSizeAll(ts), 1
  {
    ts == [] || (PrintableType(ts[0]) && AllPrintableTypes(ts[1..]))
  }
}
