/**
 * What the recursive-descent parser accepts, as functions from a token list to a
 * tree and the tokens left over.  Every function consumes tokens; none leaves a `>`
 * that was not there, and type arguments need one.
 */
module Grammar {
  import opened Options
  import opened Syntax
  import opened IntegerLiterals

  datatype Parsed<+T> = Fail | Got(value: T, rest: seq<Token>)

  predicate At(ts: seq<Token>, t: Token) { ts != [] && ts[0] == t }

  predicate AtIdentifier(ts: seq<Token>) { ts != [] && ts[0].Word? && ts[0].name.Identifier? }

  // ---------- expressions ----------

  function ParseExpr(ts: seq<Token>): (r: Parsed<Expr>)
    ensures r.Got? ==> |r.rest| < |ts| && (Gt in r.rest ==> Gt in ts)
    decreases |ts|, 20
  {
    match ParseLevel(LOWEST, ts)
    case Fail => Fail
    case Got(lhs, rest) => AssignTail(lhs, rest)
  }

  function AssignTail(lhs: Expr, ts: seq<Token>): (r: Parsed<Expr>)
    ensures r.Got? ==> |r.rest| <= |ts| && (Gt in r.rest ==> Gt in ts)
    decreases |ts|, 0
  {
    if ts == [] || AssignOf(ts[0]).None? then Got(lhs, ts)
    else if !IsLvalue(lhs) then Fail
    else
      match ParseExpr(ts[1..])
      case Fail => Fail
      case Got(rhs, rest) => Got(Assign(AssignOf(ts[0]).value, lhs, rhs), rest)
  }

  /** The precedence ladder: each rung parses operands one rung up, then loops over its own operators. */
  function ParseLevel(l: nat, ts: seq<Token>): (r: Parsed<Expr>)
    requires LOWEST <= l <= CAST
    ensures r.Got? ==> |r.rest| < |ts| && (Gt in r.rest ==> Gt in ts)
    decreases |ts|, 19 - l
  {
    if l == CAST then ParseCast(ts)
    else
      match ParseLevel(l + 1, ts)
      case Fail => Fail
      case Got(lhs, rest) => LeftAssoc(l, lhs, rest)
  }

  function LeftAssoc(l: nat, lhs: Expr, ts: seq<Token>): (r: Parsed<Expr>)
    requires LOWEST <= l < CAST
    ensures r.Got? ==> |r.rest| <= |ts| && (Gt in r.rest ==> Gt in ts)
    decreases |ts|, 0
  {
    if ts == [] || OpAt(l, ts[0]).None? then Got(lhs, ts)
    else
      match ParseLevel(l + 1, ts[1..])
      case Fail => Fail
      case Got(rhs, rest) => LeftAssoc(l, Binary(OpAt(l, ts[0]).value, lhs, rhs), rest)
  }

  function ParseCast(ts: seq<Token>): (r: Parsed<Expr>)
    ensures r.Got? ==> |r.rest| < |ts| && (Gt in r.rest ==> Gt in ts)
    decreases |ts|, 11
  {
    match ParseUnary(ts)
    case Fail => Fail
    case Got(e, rest) => CastTail(e, rest)
  }

  function CastTail(e: Expr, ts: seq<Token>): (r: Parsed<Expr>)
    ensures r.Got? ==> |r.rest| <= |ts| && (Gt in r.rest ==> Gt in ts)
    decreases |ts|, 0
  {
    if !At(ts, As) then Got(e, ts)
    else
      match ParseType(ts[1..])
      case Fail => Fail
      case Got(t, rest) => CastTail(Cast(e, t), rest)
  }

  function ParseUnary(ts: seq<Token>): (r: Parsed<Expr>)
    ensures r.Got? ==> |r.rest| < |ts| && (Gt in r.rest ==> Gt in ts)
    decreases |ts|, 10
  {
    if ts != [] && PrefixOf(ts[0]).Some? then
      match ParseUnary(ts[1..])
      case Fail => Fail
      case Got(e, rest) => Got(Unary(PrefixOf(ts[0]).value, e), rest)
    else ParsePostfix(ts)
  }

  function ParsePostfix(ts: seq<Token>): (r: Parsed<Expr>)
    ensures r.Got? ==> |r.rest| < |ts| && (Gt in r.rest ==> Gt in ts)
    decreases |ts|, 9
  {
    match ParsePrimary(ts)
    case Fail => Fail
    case Got(e, rest) => PostfixTail(e, rest)
  }

  function PostfixTail(e: Expr, ts: seq<Token>): (r: Parsed<Expr>)
    ensures r.Got? ==> |r.rest| <= |ts| && (Gt in r.rest ==> Gt in ts)
    decreases |ts|, 1
  {
    if ts == [] then Got(e, ts)
    else
      match ts[0]
      case PlusPlus => PostfixTail(Unary(PostInc, e), ts[1..])
      case MinusMinus => PostfixTail(Unary(PostDec, e), ts[1..])
      case Lt => (
        match ParseGenericInst(ts)
        case Fail => Got(e, ts)
        case Got(args, rest) => PostfixTail(Inst(e, args), rest))
      case LBracket => (
        match ParseExpr(ts[1..])
        case Fail => Fail
        case Got(index, rest) => if At(rest, RBracket) then PostfixTail(Subscript(e, index), rest[1..]) else Fail)
      case LParen => (
        match ArgumentList(ts[1..])
        case Fail => Fail
        case Got(args, rest) => if At(rest, RParen) then PostfixTail(Call(e, args), rest[1..]) else Fail)
      case Dot => if AtIdentifier(ts[1..]) then PostfixTail(Member(e, ts[1].name.id), ts[2..]) else Fail
      case _ => Got(e, ts)
  }

  /** The speculative reading of `<`: type arguments, then `>`, then a token that confirms it. */
  function ParseGenericInst(ts: seq<Token>): (r: Parsed<seq<TypeExpr>>)
    requires ts != []
    ensures r.Got? ==> |r.rest| < |ts| && Gt in ts
    decreases |ts|, 0
  {
    match TypeArguments(ts[1..])
    case Fail => Fail
    case Got(args, rest) =>
      if rest != [] && rest[0] in {LParen, Semicolon, Comma} then Got(args, rest) else Fail
  }

  /** The arguments of a call, up to its closing parenthesis; a comma may trail. */
  function ArgumentList(ts: seq<Token>): (r: Parsed<seq<Expr>>)
    ensures r.Got? ==> |r.rest| <= |ts| && (Gt in r.rest ==> Gt in ts)
    decreases |ts|, 22
  {
    if ts == [] then Fail else if ts[0] == RParen then Got([], ts) else Arguments(ts)
  }

  function Arguments(ts: seq<Token>): (r: Parsed<seq<Expr>>)
    ensures r.Got? ==> |r.rest| < |ts| && (Gt in r.rest ==> Gt in ts)
    decreases |ts|, 21
  {
    match ParseExpr(ts)
    case Fail => Fail
    case Got(e, rest) =>
      if At(rest, RParen) then Got([e], rest)
      else if !At(rest, Comma) then Fail
      else if At(rest[1..], RParen) then Got([e], rest[1..])
      else
        match Arguments(rest[1..])
        case Fail => Fail
        case Got(es, end) => Got([e] + es, end)
  }

  function ParsePrimary(ts: seq<Token>): (r: Parsed<Expr>)
    ensures r.Got? ==> |r.rest| < |ts| && (Gt in r.rest ==> Gt in ts)
    decreases |ts|, 8
  {
    if ts == [] then Fail
    else
      match ts[0]
      case IntText(text) => if IntLit(text).Some? then Got(Int(IntLit(text).value), ts[1..]) else Fail
      case Literal(c) => Got(Const(c), ts[1..])
      case Word(n) => if StartsExpression(n) then Got(Ident(n), ts[1..]) else Fail
      case LParen => (
        match ParseExpr(ts[1..])
        case Fail => Fail
        case Got(e, rest) => if At(rest, RParen) then Got(e, rest[1..]) else Fail)
      case _ => Fail
  }

  // ---------- types ----------

  /** Prefix stars wrap everything that follows them. */
  function ParseType(ts: seq<Token>): (r: Parsed<TypeExpr>)
    ensures r.Got? ==> |r.rest| < |ts| && (Gt in r.rest ==> Gt in ts)
    decreases |ts|, 7
  {
    if At(ts, Star) then
      match ParseType(ts[1..])
      case Fail => Fail
      case Got(t, rest) => Got(Pointer(t), rest)
    else ParseSuffixed(ts)
  }

  function ParseSuffixed(ts: seq<Token>): (r: Parsed<TypeExpr>)
    ensures r.Got? ==> |r.rest| < |ts| && (Gt in r.rest ==> Gt in ts)
    decreases |ts|, 6
  {
    match ParseTypeAtom(ts)
    case Fail => Fail
    case Got(atom, rest) =>
      if At(rest, Lt) then
        match TypeArguments(rest[1..])
        case Fail => Fail
        case Got(args, after) => Suffixes(Apply(atom, args), after)
      else Suffixes(atom, rest)
  }

  function Suffixes(base: TypeExpr, ts: seq<Token>): (r: Parsed<TypeExpr>)
    ensures r.Got? ==> |r.rest| <= |ts| && (Gt in r.rest ==> Gt in ts)
    decreases |ts|, 2
  {
    match Dimensions(base, ts)
    case Fail => Fail
    case Got(t, rest) => PointerSuffix(t, rest)
  }

  /** The first dimension written is the outermost: `T[a][b]` is an array of a elements of `T[b]`. */
  function Dimensions(base: TypeExpr, ts: seq<Token>): (r: Parsed<TypeExpr>)
    ensures r.Got? ==> |r.rest| <= |ts| && (Gt in r.rest ==> Gt in ts)
    decreases |ts|, 1
  {
    if !At(ts, LBracket) then Got(base, ts)
    else if At(ts[1..], RBracket) then
      match Dimensions(base, ts[2..])
      case Fail => Fail
      case Got(t, rest) => Got(Array(None, t), rest)
    else
      match ParseExpr(ts[1..])
      case Fail => Fail
      case Got(size, after) =>
        if !At(after, RBracket) then Fail
        else
          match Dimensions(base, after[1..])
          case Fail => Fail
          case Got(t, rest) => Got(Array(Some(size), t), rest)
  }

  function PointerSuffix(base: TypeExpr, ts: seq<Token>): (r: Parsed<TypeExpr>)
    ensures r.Got? && |r.rest| <= |ts| && (Gt in r.rest ==> Gt in ts)
    decreases |ts|, 0
  {
    if At(ts, Star) then PointerSuffix(Pointer(base), ts[1..]) else Got(base, ts)
  }

  /** One type or more between `<` and `>`, the latter consumed. */
  function TypeArguments(ts: seq<Token>): (r: Parsed<seq<TypeExpr>>)
    ensures r.Got? ==> |r.rest| < |ts| && Gt in ts
    decreases |ts|, 8
  {
    match ParseType(ts)
    case Fail => Fail
    case Got(t, rest) =>
      if At(rest, Gt) then Got([t], rest[1..])
      else if !At(rest, Comma) then Fail
      else
        match TypeArguments(rest[1..])
        case Fail => Fail
        case Got(more, end) => Got([t] + more, end)
  }

  function ParseTypeAtom(ts: seq<Token>): (r: Parsed<TypeExpr>)
    ensures r.Got? ==> |r.rest| < |ts| && (Gt in r.rest ==> Gt in ts)
    decreases |ts|, 5
  {
    if ts == [] then Fail
    else
      match ts[0]
      case LParen => (
        match ParseType(ts[1..])
        case Fail => Fail
        case Got(t, rest) => if At(rest, RParen) then Got(t, rest[1..]) else Fail)
      case Fn => ParseFunctionType(ts)
      case Word(TypeName(_)) => Got(Named(ts[0].name), ts[1..])
      case Word(Identifier(id)) => (
        match PathTail([id], ts[1..])
        case Fail => Fail
        case Got(path, rest) => Got(if |path| == 1 then Named(ts[0].name) else Dotted(path), rest))
      case _ => Fail
  }

  function PathTail(path: seq<nat>, ts: seq<Token>): (r: Parsed<seq<nat>>)
    ensures r.Got? ==> |r.rest| <= |ts| && (Gt in r.rest ==> Gt in ts) && path <= r.value
    decreases |ts|
  {
    if !At(ts, Dot) then Got(path, ts)
    else if AtIdentifier(ts[1..]) then PathTail(path + [ts[1].name.id], ts[2..])
    else Fail
  }

  function ParseFunctionType(ts: seq<Token>): (r: Parsed<TypeExpr>)
    ensures r.Got? ==> |r.rest| < |ts| && (Gt in r.rest ==> Gt in ts)
    decreases |ts|, 4
  {
    if |ts| < 2 || ts[0] != Fn || ts[1] != LParen then Fail
    else if At(ts[2..], RParen) then ReturnType([], ts[3..])
    else
      match ParameterTypes(ts[2..])
      case Fail => Fail
      case Got(params, rest) => if At(rest, RParen) then ReturnType(params, rest[1..]) else Fail
  }

  function ParameterTypes(ts: seq<Token>): (r: Parsed<seq<TypeExpr>>)
    ensures r.Got? ==> |r.rest| < |ts| && (Gt in r.rest ==> Gt in ts)
    decreases |ts|, 8
  {
    match ParseType(ts)
    case Fail => Fail
    case Got(t, rest) =>
      if !At(rest, Comma) then Got([t], rest)
      else
        match ParameterTypes(rest[1..])
        case Fail => Fail
        case Got(more, end) => Got([t] + more, end)
  }

  function ReturnType(params: seq<TypeExpr>, ts: seq<Token>): (r: Parsed<TypeExpr>)
    ensures r.Got? ==> |r.rest| <= |ts| && (Gt in r.rest ==> Gt in ts)
    decreases |ts|, 0
  {
    if !At(ts, Arrow) then Got(Func(params, None), ts)
    else
      match ParseType(ts[1..])
      case Fail => Fail
      case Got(t, rest) => Got(Func(params, Some(t)), rest)
  }
}
