/** Tokens and syntax trees of expressions and types. */
module Syntax {
  import opened Options

  datatype Builtin =
    I8 | I16 | I32 | I64 | U8 | U16 | U32 | U64 | Bool | F32 | F64 | String | Char | Usize | Isize | Void

  datatype Name = Identifier(id: nat) | TypeName(builtin: Builtin)

  /** Literals other than integers: their tokens carry the value already. */
  datatype Constant = True | False | Null | CharacterOf(code: nat) | TextOf(id: nat)

  datatype Token =
    | Word(name: Name) | IntText(text: string) | Literal(constant: Constant)
    | Fn | As | Arrow
    | PlusPlus | MinusMinus | Plus | Minus | Star | Slash | Percent | Bang | Amp
    | EqEq | BangEq | Lt | Gt | LtEq | GtEq | AndAnd | OrOr
    | Equals | PlusEq | MinusEq | StarEq | SlashEq | PercentEq
    | Dot | LParen | RParen | LBracket | RBracket | Comma | Semicolon
    | Other(kind: nat)

  datatype UnaryOp = Positive | Negate | Not | Deref | Address | PreInc | PreDec | PostInc | PostDec
  datatype BinaryOp =
    | Or | And | Equal | NotEqual | Less | Greater | LessEqual | GreaterEqual
    | Add | Sub | Mul | Div | Mod
  datatype AssignOp = Set | AddSet | SubSet | MulSet | DivSet | ModSet

  datatype Expr =
    | Int(value: nat)
    | Const(constant: Constant)
    | Ident(name: Name)
    | Unary(unary: UnaryOp, operand: Expr)
    | Binary(op: BinaryOp, left: Expr, right: Expr)
    | Assign(assign: AssignOp, target: Expr, source: Expr)
    | Cast(operand: Expr, ty: TypeExpr)
    | Subscript(owner: Expr, index: Expr)
    | Call(callee: Expr, args: seq<Expr>)
    | Member(owner: Expr, field: nat)
    | Inst(generic: Expr, typeArgs: seq<TypeExpr>)

  datatype TypeExpr =
    | Named(name: Name)
    | Dotted(path: seq<nat>)
    | Pointer(base: TypeExpr)
    | Array(size: Option<Expr>, base: TypeExpr)
    | Func(params: seq<TypeExpr>, ret: Option<TypeExpr>)
    | Apply(base: TypeExpr, typeArgs: seq<TypeExpr>)

  predicate IsLvalue(e: Expr)
  {
    e.Ident? || e.Subscript? || e.Member? || (e.Unary? && e.unary == Deref)
  }

  // ---------- what each token stands for ----------

  const LOWEST: nat := 1
  const CAST: nat := 7
  const PREFIX: nat := 8
  const POSTFIX: nat := 9
  const ATOM: nat := 10

  /** The rung of the precedence ladder an operator belongs to: `||` is the lowest, `* / %` the highest. */
  function OpLevel(op: BinaryOp): (l: nat)
    ensures LOWEST <= l < CAST
  {
    match op
    case Or => 1
    case And => 2
    case Equal | NotEqual => 3
    case Less | Greater | LessEqual | GreaterEqual => 4
    case Add | Sub => 5
    case Mul | Div | Mod => 6
  }

  function BinaryOf(t: Token): Option<BinaryOp>
  {
    match t
    case OrOr => Some(Or)
    case AndAnd => Some(And)
    case EqEq => Some(Equal)
    case BangEq => Some(NotEqual)
    case Lt => Some(Less)
    case Gt => Some(Greater)
    case LtEq => Some(LessEqual)
    case GtEq => Some(GreaterEqual)
    case Plus => Some(Add)
    case Minus => Some(Sub)
    case Star => Some(Mul)
    case Slash => Some(Div)
    case Percent => Some(Mod)
    case _ => None
  }

  /** The map functions of the ladder: the operator a token stands for on one rung. */
  function OpAt(l: nat, t: Token): Option<BinaryOp>
  {
    var op := BinaryOf(t);
    if op.Some? && OpLevel(op.value) == l then op else None
  }

  function PrefixOf(t: Token): Option<UnaryOp>
  {
    match t
    case Plus => Some(Positive)
    case Minus => Some(Negate)
    case Bang => Some(Not)
    case Star => Some(Deref)
    case Amp => Some(Address)
    case PlusPlus => Some(PreInc)
    case MinusMinus => Some(PreDec)
    case _ => None
  }

  function AssignOf(t: Token): Option<AssignOp>
  {
    match t
    case Equals => Some(Set)
    case PlusEq => Some(AddSet)
    case MinusEq => Some(SubSet)
    case StarEq => Some(MulSet)
    case SlashEq => Some(DivSet)
    case PercentEq => Some(ModSet)
    case _ => None
  }

  /** The type keywords that may also start an expression. */
  predicate StartsExpression(n: Name)
  {
    n.Identifier? || n.builtin !in {String, Char, Usize, Isize}
  }
}
