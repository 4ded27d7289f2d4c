/** Parsing the print of a tree gives the tree back. */
module ParserRoundTrip {
  import opened Options
  import opened Syntax
  import opened IntegerLiterals
  import opened Grammar
  import opened Printer
  import opened Speculation

  // ---------- the ladder, rung by rung ----------

  /** The parsing function of a rung, from assignment (0) to primary expressions (10). */
  function ParseAt(l: nat, ts: seq<Token>): Parsed<Expr>
    requires l <= ATOM
  {
    if l == 0 then ParseExpr(ts)
    else if l <= CAST then ParseLevel(l, ts)
    else if l == PREFIX then ParseUnary(ts)
    else if l == POSTFIX then ParsePostfix(ts)
    else ParsePrimary(ts)
  }

  /** What a rung does once its first operand is parsed. */
  function TailAt(l: nat, e: Expr, ts: seq<Token>): Parsed<Expr>
    requires l <= ATOM
  {
    if l == 0 then AssignTail(e, ts)
    else if l < CAST then LeftAssoc(l, e, ts)
    else if l == CAST then CastTail(e, ts)
    else if l == POSTFIX then PostfixTail(e, ts)
    else Got(e, ts)
  }

  predicate AtPrefix(ts: seq<Token>) { ts != [] && PrefixOf(ts[0]).Some? }

  lemma Rung(l: nat, ts: seq<Token>)
    requires l < ATOM && (l == PREFIX ==> !AtPrefix(ts))
    ensures ParseAt(l, ts) ==
            match ParseAt(l + 1, ts) { case Fail => Fail case Got(e, rest) => TailAt(l, e, rest) }
  {
    if l == CAST {
      assert ParseLevel(l, ts) == ParseCast(ts);
    } else if 0 < l < CAST {
      assert ParseLevel(l, ts) ==
             match ParseLevel(l + 1, ts)
             case Fail => Fail
             case Got(e, rest) => LeftAssoc(l, e, rest);
    }
  }

  /** The rung whose loop takes a token, or -1. */
  function Continues(t: Token): int
  {
    if BinaryOf(t).Some? then OpLevel(BinaryOf(t).value)
    else if AssignOf(t).Some? then 0
    else if t == As then CAST
    else if t in {PlusPlus, MinusMinus, LBracket, LParen, Dot} then POSTFIX
    else -1
  }

  /** No rung above l takes the next token, not even the speculative one at `<`. */
  predicate Stops(l: int, rest: seq<Token>)
  {
    rest == []
    || (Continues(rest[0]) <= l && (l < POSTFIX && rest[0] == Lt ==> ParseGenericInst(rest).Fail?))
  }

  /** Nothing the type parser would add to a complete type. */
  predicate TypeStops(rest: seq<Token>) { rest == [] || rest[0] !in {Lt, LBracket, Star, Dot, Arrow} }

  lemma Done(l: int, m: nat, e: Expr, rest: seq<Token>)
    requires l < m <= ATOM && Stops(l, rest)
    ensures TailAt(m, e, rest) == Got(e, rest)
  {
    if m == POSTFIX && rest != [] {
      assert Continues(rest[0]) < POSTFIX;
    }
  }

  /** A primary expression climbs down to any rung when nothing above that rung follows. */
  lemma {:induction false} Descend(l: nat, ts: seq<Token>, e: Expr, rest: seq<Token>)
    requires l <= ATOM && !AtPrefix(ts) && Stops(l, rest) && ParsePrimary(ts) == Got(e, rest)
    ensures ParseAt(l, ts) == TailAt(l, e, rest)
    decreases ATOM - l
  {
    if l < ATOM {
      Widen(l, l + 1, rest);
      Descend(l + 1, ts, e, rest);
      Done(l, l + 1, e, rest);
      Rung(l, ts);
    }
  }

  lemma Widen(l: int, m: int, rest: seq<Token>)
    requires Stops(l, rest) && l <= m
    ensures Stops(m, rest)
  {}

  lemma ParenCase(l: nat, e: Expr, inner: seq<Token>, rest: seq<Token>)
    requires l <= ATOM && Stops(l, rest) && ParseExpr(inner + ([RParen] + rest)) == Got(e, [RParen] + rest)
    ensures ParseAt(l, Paren(inner) + rest) == TailAt(l, e, rest)
  {
    var ts := Paren(inner) + rest;
    assert ts[1..] == inner + ([RParen] + rest);
    assert ([RParen] + rest)[1..] == rest;
    assert ts[0] == LParen;
    Descend(l, ts, e, rest);
  }

  // ---------- token lists ----------

  lemma Drop(t: Token, ts: seq<Token>)
    ensures ([t] + ts)[0] == t && ([t] + ts)[1..] == ts
  {}

  lemma DropTwo(s: Token, t: Token, ts: seq<Token>)
    ensures var all := [s, t] + ts; At(all, s) && At(all[1..], t) && all[2..] == ts
  {}

  lemma First(a: seq<Token>, b: seq<Token>)
    requires a != []
    ensures (a + b)[0] == a[0]
  {}

  lemma Regroup(a: seq<Token>, b: seq<Token>, c: seq<Token>, d: seq<Token>, rest: seq<Token>)
    ensures a + b + c + d + rest == a + (b + (c + (d + rest)))
  {}

  lemma Join(a: seq<Token>, b: seq<Token>, c: seq<Token>)
    ensures a + b + c == a + (b + c)
  {}

  // ---------- one lemma per form of expression ----------

  lemma BinaryCase(op: BinaryOp, x: Expr, y: Expr, left: seq<Token>, right: seq<Token>, rest: seq<Token>)
    requires var after := [BinaryToken(op)] + (right + rest);
             ParseAt(OpLevel(op), left + after) == TailAt(OpLevel(op), x, after)
    requires ParseAt(OpLevel(op) + 1, right + rest) == Got(y, rest)
    ensures ParseAt(OpLevel(op), left + [BinaryToken(op)] + right + rest) == TailAt(OpLevel(op), Binary(op, x, y), rest)
  {
    var l := OpLevel(op);
    var after := [BinaryToken(op)] + (right + rest);
    assert left + [BinaryToken(op)] + right + rest == left + after;
    assert after[1..] == right + rest;
    assert OpAt(l, after[0]) == Some(op);
    assert LeftAssoc(l, x, after) == LeftAssoc(l, Binary(op, x, y), rest);
  }

  lemma AssignCase(op: AssignOp, x: Expr, y: Expr, left: seq<Token>, right: seq<Token>, rest: seq<Token>)
    requires var after := [AssignToken(op)] + (right + rest);
             ParseAt(LOWEST, left + after) == Got(x, after)
    requires IsLvalue(x) && ParseExpr(right + rest) == Got(y, rest)
    ensures ParseExpr(left + [AssignToken(op)] + right + rest) == Got(Assign(op, x, y), rest)
  {
    var after := [AssignToken(op)] + (right + rest);
    assert left + [AssignToken(op)] + right + rest == left + after;
    assert after[1..] == right + rest;
    Rung(0, left + after);
  }

  lemma CastCase(x: Expr, t: TypeExpr, operand: seq<Token>, ty: seq<Token>, rest: seq<Token>)
    requires var after := [As] + (ty + rest);
             ParseAt(CAST, operand + after) == CastTail(x, after)
    requires ParseType(ty + rest) == Got(t, rest)
    ensures ParseAt(CAST, operand + [As] + ty + rest) == CastTail(Cast(x, t), rest)
  {
    var after := [As] + (ty + rest);
    assert operand + [As] + ty + rest == operand + after;
    assert after[1..] == ty + rest;
  }

  lemma PrefixCase(op: UnaryOp, x: Expr, operand: seq<Token>, rest: seq<Token>)
    requires !IsPostfix(op) && ParseUnary(operand + rest) == Got(x, rest)
    ensures ParseUnary([UnaryToken(op)] + operand + rest) == Got(Unary(op, x), rest)
  {
    var ts := [UnaryToken(op)] + operand + rest;
    assert ts[1..] == operand + rest;
  }

  lemma PostfixCase(op: UnaryOp, x: Expr, operand: seq<Token>, rest: seq<Token>)
    requires IsPostfix(op)
    requires ParsePostfix(operand + ([UnaryToken(op)] + rest)) == PostfixTail(x, [UnaryToken(op)] + rest)
    ensures ParsePostfix(operand + [UnaryToken(op)] + rest) == PostfixTail(Unary(op, x), rest)
  {
    var after := [UnaryToken(op)] + rest;
    assert operand + [UnaryToken(op)] + rest == operand + after;
    assert after[1..] == rest;
  }

  lemma SubscriptStep(x: Expr, i: Expr, ts: seq<Token>, after: seq<Token>)
    requires At(ts, LBracket) && ParseExpr(ts[1..]) == Got(i, after) && At(after, RBracket)
    ensures PostfixTail(x, ts) == PostfixTail(Subscript(x, i), after[1..])
  {}

  lemma CallStep(f: Expr, args: seq<Expr>, ts: seq<Token>, after: seq<Token>)
    requires At(ts, LParen) && ArgumentList(ts[1..]) == Got(args, after) && At(after, RParen)
    ensures PostfixTail(f, ts) == PostfixTail(Call(f, args), after[1..])
  {}

  lemma SubscriptCase(x: Expr, i: Expr, owner: seq<Token>, index: seq<Token>, rest: seq<Token>)
    requires var after := [LBracket] + (index + ([RBracket] + rest));
             ParsePostfix(owner + after) == PostfixTail(x, after)
    requires ParseExpr(index + ([RBracket] + rest)) == Got(i, [RBracket] + rest)
    ensures ParsePostfix(owner + [LBracket] + index + [RBracket] + rest) == PostfixTail(Subscript(x, i), rest)
  {
    var after := [LBracket] + (index + ([RBracket] + rest));
    assert owner + [LBracket] + index + [RBracket] + rest == owner + after;
    assert after[1..] == index + ([RBracket] + rest);
    SubscriptStep(x, i, after, [RBracket] + rest);
    assert ([RBracket] + rest)[1..] == rest;
  }

  lemma CallCase(f: Expr, args: seq<Expr>, callee: seq<Token>, list: seq<Token>, rest: seq<Token>)
    requires var after := [LParen] + (list + ([RParen] + rest));
             ParsePostfix(callee + after) == PostfixTail(f, after)
    requires ArgumentList(list + ([RParen] + rest)) == Got(args, [RParen] + rest)
    ensures ParsePostfix(callee + [LParen] + list + [RParen] + rest) == PostfixTail(Call(f, args), rest)
  {
    var after := [LParen] + (list + ([RParen] + rest));
    assert callee + [LParen] + list + [RParen] + rest == callee + after;
    assert after[1..] == list + ([RParen] + rest);
    CallStep(f, args, after, [RParen] + rest);
    assert ([RParen] + rest)[1..] == rest;
  }

  lemma MemberCase(x: Expr, m: nat, owner: seq<Token>, rest: seq<Token>)
    requires var after := [Dot, Word(Identifier(m))] + rest;
             ParsePostfix(owner + after) == PostfixTail(x, after)
    ensures ParsePostfix(owner + [Dot, Word(Identifier(m))] + rest) == PostfixTail(Member(x, m), rest)
  {
    var after := [Dot, Word(Identifier(m))] + rest;
    assert owner + [Dot, Word(Identifier(m))] + rest == owner + after;
    assert after[1..][0] == Word(Identifier(m)) && after[2..] == rest;
  }

  lemma InstStep(g: Expr, types: seq<TypeExpr>, ts: seq<Token>, rest: seq<Token>)
    requires At(ts, Lt) && TypeArguments(ts[1..]) == Got(types, rest) && Confirms(rest)
    ensures PostfixTail(g, ts) == PostfixTail(Inst(g, types), rest)
  {
    assert ParseGenericInst(ts) == Got(types, rest);
  }

  lemma InstCase(g: Expr, types: seq<TypeExpr>, generic: seq<Token>, list: seq<Token>, rest: seq<Token>)
    requires Confirms(rest)
    requires var after := [Lt] + (list + ([Gt] + rest));
             ParsePostfix(generic + after) == PostfixTail(g, after)
    requires TypeArguments(list + ([Gt] + rest)) == Got(types, rest)
    ensures ParsePostfix(generic + [Lt] + list + [Gt] + rest) == PostfixTail(Inst(g, types), rest)
  {
    Regroup(generic, [Lt], list, [Gt], rest);
    Drop(Lt, list + ([Gt] + rest));
    InstStep(g, types, [Lt] + (list + ([Gt] + rest)), rest);
  }

  // ---------- how prints begin ----------

  predicate StartsExpr(t: Token)
  {
    t.IntText? || t.Literal? || t == LParen || PrefixOf(t).Some? || t.Word?
  }

  /** A print begins like an expression, and with a prefix operator only when the tree does. */
  lemma {:induction false} Head(l: nat, e: Expr)
    requires l <= ATOM
    ensures Print(l, e) != [] && StartsExpr(Print(l, e)[0])
    ensures l >= POSTFIX ==> PrefixOf(Print(l, e)[0]).None?
    decreases Size(e), if l > Level(e) then 1 else 0
  {
    if Level(e) < l {
    } else {
      match e
      case Int(_) =>
      case Const(_) =>
      case Ident(_) =>
      case Unary(op, x) => if IsPostfix(op) { Head(POSTFIX, x); } else { Head(PREFIX, x); }
      case Binary(op, x, y) =>
        Head(OpLevel(op), x);
        assert PrintLeft(op, x) != [] && Bare(e)[0] == PrintLeft(op, x)[0];
      case Assign(_, x, _) => Head(LOWEST, x);
      case Cast(x, _) => Head(CAST, x);
      case Subscript(x, _) => Head(POSTFIX, x);
      case Call(f, _) => Head(POSTFIX, f);
      case Member(x, _) => Head(POSTFIX, x);
      case Inst(g, _) => Head(POSTFIX, g);
    }
  }

  // ---------- how prints come apart ----------

  lemma Parens(inner: seq<Token>, rest: seq<Token>)
    ensures var ts := Paren(inner) + rest;
            ts[0] == LParen && ts[1..] == inner + ([RParen] + rest)
  {}

  lemma Printed(op: UnaryOp, x: Expr, rest: seq<Token>)
    ensures var ts := Bare(Unary(op, x)) + rest;
            if IsPostfix(op) then ts == Print(POSTFIX, x) + ([UnaryToken(op)] + rest)
            else ts[0] == UnaryToken(op) && ts[1..] == Print(PREFIX, x) + rest
  {
    if IsPostfix(op) {
      Join(Print(POSTFIX, x), [UnaryToken(op)], rest);
    } else {
      Join([UnaryToken(op)], Print(PREFIX, x), rest);
      Drop(UnaryToken(op), Print(PREFIX, x) + rest);
    }
  }

  lemma BinaryPrinted(op: BinaryOp, x: Expr, y: Expr, rest: seq<Token>)
    ensures var after := [BinaryToken(op)] + (Print(OpLevel(op) + 1, y) + rest);
            Bare(Binary(op, x, y)) + rest == PrintLeft(op, x) + after && after[1..] == Print(OpLevel(op) + 1, y) + rest
  {
    var token, right := [BinaryToken(op)], Print(OpLevel(op) + 1, y);
    Join(PrintLeft(op, x) + token, right, rest);
    Join(PrintLeft(op, x), token, right + rest);
    Drop(BinaryToken(op), right + rest);
  }

  lemma ArgsPrinted(es: seq<Expr>, end: seq<Token>)
    requires es != []
    ensures var tail := PrintMoreArgs(es[1..]) + end;
            && PrintArgs(es) + end == Print(0, es[0]) + tail
            && if es[1..] == [] then tail == end else At(tail, Comma) && tail[1..] == PrintArgs(es[1..]) + end
  {
    Join(Print(0, es[0]), PrintMoreArgs(es[1..]), end);
    if es[1..] != [] {
      Join([Comma], PrintArgs(es[1..]), end);
      Drop(Comma, PrintArgs(es[1..]) + end);
    }
  }

  lemma TypesPrinted(ts: seq<TypeExpr>, end: seq<Token>)
    requires ts != []
    ensures var tail := PrintMoreTypes(ts[1..]) + end;
            && PrintTypes(ts) + end == PrintType(ts[0]) + tail
            && if ts[1..] == [] then tail == end else At(tail, Comma) && tail[1..] == PrintTypes(ts[1..]) + end
  {
    Join(PrintType(ts[0]), PrintMoreTypes(ts[1..]), end);
    if ts[1..] != [] {
      Join([Comma], PrintTypes(ts[1..]), end);
      Drop(Comma, PrintTypes(ts[1..]) + end);
    }
  }

  lemma OpenPrinted(t: TypeExpr, rest: seq<Token>)
    requires t.Array? && t.size.None?
    ensures var ts := PrintDims(t) + rest;
            At(ts, LBracket) && At(ts[1..], RBracket) && ts[2..] == PrintDims(t.base) + rest
  {
    var brackets, more := [LBracket, RBracket], PrintDims(t.base) + rest;
    Join(brackets, PrintDims(t.base), rest);
    assert (brackets + more)[2..] == more;
  }

  lemma SizePrinted(e: Expr, dims: seq<Token>, rest: seq<Token>)
    ensures var ts := [LBracket] + Print(0, e) + [RBracket] + dims + rest;
            var after := [RBracket] + (dims + rest);
            && At(ts, LBracket) && ts[1..] == Print(0, e) + after && !At(ts[1..], RBracket)
            && after[1..] == dims + rest
  {
    var after := [RBracket] + (dims + rest);
    Regroup([LBracket], Print(0, e), [RBracket], dims, rest);
    Drop(LBracket, Print(0, e) + after);
    Drop(RBracket, dims + rest);
    NotClosed(e, after);
  }

  lemma NotClosed(e: Expr, after: seq<Token>)
    ensures !At(Print(0, e) + after, RBracket)
  {
    Head(0, e);
    First(Print(0, e), after);
  }

  // ---------- one lemma per form of type ----------

  lemma PathPrinted(path: seq<nat>, rest: seq<Token>)
    requires path != []
    ensures var ts := PrintPathTail(path) + rest;
            && At(ts, Dot) && AtIdentifier(ts[1..]) && ts[1].name.id == path[0]
            && ts[2..] == PrintPathTail(path[1..]) + rest
  {
    var step, more := [Dot, Word(Identifier(path[0]))], PrintPathTail(path[1..]) + rest;
    Join(step, PrintPathTail(path[1..]), rest);
    assert (step + more)[2..] == more;
  }

  lemma {:induction false} PathRoundTrip(seen: seq<nat>, path: seq<nat>, rest: seq<Token>)
    requires !At(rest, Dot)
    ensures PathTail(seen, PrintPathTail(path) + rest) == Got(seen + path, rest)
    decreases |path|
  {
    if path == [] {
      assert PrintPathTail(path) + rest == rest && seen + path == seen;
    } else {
      PathPrinted(path, rest);
      PathRoundTrip(seen + [path[0]], path[1..], rest);
      assert seen + [path[0]] + path[1..] == seen + path;
    }
  }

  lemma NamedCase(n: Name, rest: seq<Token>)
    requires !At(rest, Dot)
    ensures ParseTypeAtom([Word(n)] + rest) == Got(Named(n), rest)
  {
    assert ([Word(n)] + rest)[1..] == rest;
  }

  lemma DottedCase(path: seq<nat>, rest: seq<Token>)
    requires |path| >= 2 && !At(rest, Dot)
    ensures ParseTypeAtom(PrintPath(path) + rest) == Got(Dotted(path), rest)
  {
    var ts := PrintPath(path) + rest;
    assert ts[1..] == PrintPathTail(path[1..]) + rest;
    PathRoundTrip([path[0]], path[1..], rest);
    assert [path[0]] + path[1..] == path;
  }

  lemma TypeParenCase(t: TypeExpr, inner: seq<Token>, rest: seq<Token>)
    requires ParseType(inner + ([RParen] + rest)) == Got(t, [RParen] + rest)
    ensures ParseTypeAtom(Paren(inner) + rest) == Got(t, rest)
  {
    assert (Paren(inner) + rest)[1..] == inner + ([RParen] + rest);
    assert ([RParen] + rest)[1..] == rest;
  }

  lemma FunctionStep(params: seq<TypeExpr>, ts: seq<Token>, after: seq<Token>)
    requires At(ts, Fn) && At(ts[1..], LParen) && At(after, RParen)
    requires if params == [] then ts[1..][1..] == after
             else !At(ts[1..][1..], RParen) && ParameterTypes(ts[1..][1..]) == Got(params, after)
    ensures ParseTypeAtom(ts) == ReturnType(params, after[1..])
  {
    assert ts[1..][1..] == ts[2..];
    assert params == [] ==> ts[3..] == after[1..];
    assert ParseTypeAtom(ts) == ParseFunctionType(ts);
  }

  lemma FunctionCase(params: seq<TypeExpr>, list: seq<Token>, rest: seq<Token>)
    requires if params == [] then list == []
             else
               list != [] && list[0] != RParen
               && ParameterTypes(list + ([RParen] + rest)) == Got(params, [RParen] + rest)
    ensures ParseTypeAtom([Fn, LParen] + list + [RParen] + rest) == ReturnType(params, rest)
  {
    var after := [RParen] + rest;
    Regroup([Fn], [LParen], list, [RParen], rest);
    assert [Fn, LParen] == [Fn] + [LParen];
    Drop(Fn, [LParen] + (list + after));
    Drop(LParen, list + after);
    Drop(RParen, rest);
    assert params == [] ==> list + after == after;
    FunctionStep(params, [Fn] + ([LParen] + (list + after)), after);
  }

  lemma ApplyStep(base: TypeExpr, args: seq<TypeExpr>, ts: seq<Token>, after: seq<Token>, rest: seq<Token>)
    requires ParseTypeAtom(ts) == Got(base, after) && At(after, Lt) && TypeArguments(after[1..]) == Got(args, rest)
    ensures ParseSuffixed(ts) == Suffixes(Apply(base, args), rest)
  {}

  lemma ApplyCase(base: TypeExpr, args: seq<TypeExpr>, atom: seq<Token>, list: seq<Token>, rest: seq<Token>)
    requires ParseTypeAtom(atom + ([Lt] + (list + ([Gt] + rest)))) == Got(base, [Lt] + (list + ([Gt] + rest)))
    requires TypeArguments(list + ([Gt] + rest)) == Got(args, rest)
    ensures ParseSuffixed(atom + [Lt] + list + [Gt] + rest) == Suffixes(Apply(base, args), rest)
  {
    Regroup(atom, [Lt], list, [Gt], rest);
    Drop(Lt, list + ([Gt] + rest));
    ApplyStep(base, args, atom + ([Lt] + (list + ([Gt] + rest))), [Lt] + (list + ([Gt] + rest)), rest);
  }

  lemma OpenDimensionCase(base: TypeExpr, inner: TypeExpr, dims: seq<Token>, rest: seq<Token>)
    requires Dimensions(base, dims + rest) == Got(inner, rest)
    ensures Dimensions(base, [LBracket, RBracket] + dims + rest) == Got(Array(None, inner), rest)
  {
    assert [LBracket, RBracket] + dims + rest == [LBracket, RBracket] + (dims + rest);
    DropTwo(LBracket, RBracket, dims + rest);
    OpenDimensionStep(base, inner, [LBracket, RBracket] + (dims + rest), rest);
  }

  lemma OpenDimensionStep(base: TypeExpr, inner: TypeExpr, ts: seq<Token>, rest: seq<Token>)
    requires At(ts, LBracket) && At(ts[1..], RBracket) && Dimensions(base, ts[2..]) == Got(inner, rest)
    ensures Dimensions(base, ts) == Got(Array(None, inner), rest)
  {}

  lemma SizedDimensionStep(base: TypeExpr, e: Expr, inner: TypeExpr, ts: seq<Token>, after: seq<Token>,
                           rest: seq<Token>)
    requires At(ts, LBracket) && !At(ts[1..], RBracket) && ParseExpr(ts[1..]) == Got(e, after)
    requires At(after, RBracket) && Dimensions(base, after[1..]) == Got(inner, rest)
    ensures Dimensions(base, ts) == Got(Array(Some(e), inner), rest)
  {}

  lemma SizedDimensionCase(base: TypeExpr, e: Expr, inner: TypeExpr, size: seq<Token>, dims: seq<Token>,
                           rest: seq<Token>)
    requires Dimensions(base, dims + rest) == Got(inner, rest) && size != [] && size[0] != RBracket
    requires ParseExpr(size + ([RBracket] + (dims + rest))) == Got(e, [RBracket] + (dims + rest))
    ensures Dimensions(base, [LBracket] + size + [RBracket] + dims + rest) == Got(Array(Some(e), inner), rest)
  {
    var after := [RBracket] + (dims + rest);
    Regroup([LBracket], size, [RBracket], dims, rest);
    Drop(LBracket, size + after);
    Drop(RBracket, dims + rest);
    assert (size + after)[0] == size[0];
    SizedDimensionStep(base, e, inner, [LBracket] + (size + after), after, rest);
  }

  /** Where nothing continues a type, a suffixed type is a whole type. */
  lemma WholeType(t: TypeExpr, ts: seq<Token>, rest: seq<Token>)
    requires TypeStops(rest) && !At(ts, Star) && ParseSuffixed(ts) == Suffixes(t, rest)
    ensures ParseType(ts) == Got(t, rest)
  {
    assert Dimensions(t, rest) == Got(t, rest);
    assert PointerSuffix(t, rest) == Got(t, rest);
  }

  lemma WholeArray(base: TypeExpr, t: TypeExpr, ts: seq<Token>, after: seq<Token>, rest: seq<Token>)
    requires TypeStops(rest) && !At(ts, Star)
    requires ParseSuffixed(ts) == Suffixes(base, after) && Dimensions(base, after) == Got(t, rest)
    ensures ParseType(ts) == Got(t, rest)
  {
    assert PointerSuffix(t, rest) == Got(t, rest);
  }

  lemma PointerCase(x: TypeExpr, target: seq<Token>, rest: seq<Token>)
    requires ParseType(target + rest) == Got(x, rest)
    ensures ParseType([Star] + target + rest) == Got(Pointer(x), rest)
  {
    var ts := [Star] + target + rest;
    assert ts[1..] == target + rest;
  }

  predicate StartsType(t: Token) { t.Word? || t == Fn || t == LParen || t == Star }

  lemma {:induction false} TypeHead(t: TypeExpr)
    requires PrintableType(t)
    ensures PrintType(t) != [] && StartsType(PrintType(t)[0]) && (PrintType(t)[0] == Star ==> t.Pointer?)
    ensures PrintAtom(t) != [] && StartsType(PrintAtom(t)[0]) && PrintAtom(t)[0] != Star
    ensures PrintBase(t) != [] && StartsType(PrintBase(t)[0]) && PrintBase(t)[0] != Star
    decreases TypeSize(t)
  {
    if t.Apply? {
      TypeHead(t.base);
    } else if t.Array? {
      PrintableInside(t);
      TypeHead(Innermost(t));
    }
  }

  lemma {:induction false} PrintableInside(t: TypeExpr)
    requires PrintableType(t)
    ensures PrintableType(Innermost(t))
    decreases TypeSize(t)
  {
    if t.Array? {
      PrintableInside(t.base);
    }
  }

  // ---------- the round trip ----------

  lemma Parenthesised(l: nat, e: Expr, rest: seq<Token>)
    requires l <= ATOM && Stops(l, rest)
    requires ParseAt(0, Print(0, e) + ([RParen] + rest)) == TailAt(0, e, [RParen] + rest)
    ensures ParseAt(l, Paren(Bare(e)) + rest) == TailAt(l, e, rest)
  {
    Done(-1, 0, e, [RParen] + rest);
    ParenCase(l, e, Bare(e), rest);
  }

  lemma {:induction false} ClimbRoundTrip(l: nat, e: Expr, rest: seq<Token>)
    requires l < Level(e) && Printable(e) && ClearForm(e, rest) && Stops(if l == 0 then -1 else l, rest)
    requires EndsInCast(e) ==> TypeStops(rest)
    ensures ParseAt(l, Print(l, e) + rest) == TailAt(l, e, rest)
    decreases Size(e), 1 + Level(e) - l, 0
  {
    Widen(if l == 0 then -1 else l, l + 1, rest);
    ExprRoundTrip(l + 1, e, rest);
    LowerRung(l, e, rest);
  }

  /** From one rung to the rung below it. */
  lemma LowerRung(l: nat, e: Expr, rest: seq<Token>)
    requires l < Level(e) && Printable(e) && Stops(if l == 0 then -1 else l, rest)
    requires ParseAt(l + 1, Print(l + 1, e) + rest) == TailAt(l + 1, e, rest)
    ensures ParseAt(l, Print(l, e) + rest) == TailAt(l, e, rest)
  {
    Widen(if l == 0 then -1 else l, l + 1, rest);
    Done(if l == 0 then -1 else l, l + 1, e, rest);
    Head(l + 1, e);
    Rung(l, Bare(e) + rest);
  }

  /** Parsing at rung l the print made for rung l leaves that rung with the tree as its first operand. */
  lemma {:induction false} ExprRoundTrip(l: nat, e: Expr, rest: seq<Token>)
    requires l <= ATOM && Printable(e) && Clear(l, e, rest) && Stops(if l == 0 then -1 else l, rest)
    requires Level(e) >= l && EndsInCast(e) ==> TypeStops(rest)
    ensures ParseAt(l, Print(l, e) + rest) == TailAt(l, e, rest)
    decreases Size(e), if l > Level(e) then 30 else 1 + Level(e) - l
  {
    if l > Level(e) {
      RoundTripInParens(l, e, rest);
    } else if l < Level(e) {
      ClimbRoundTrip(l, e, rest);
    } else {
      FormRoundTrip(e, rest);
    }
  }

  lemma {:induction false} RoundTripInParens(l: nat, e: Expr, rest: seq<Token>)
    requires l <= ATOM && Stops(l, rest) && Printable(e) && ClearForm(e, [RParen] + rest)
    ensures ParseAt(l, Paren(Bare(e)) + rest) == TailAt(l, e, rest)
    decreases Size(e), 29
  {
    ExprRoundTrip(0, e, [RParen] + rest);
    Parenthesised(l, e, rest);
  }

  lemma AssignRoundTrip(op: AssignOp, x: Expr, y: Expr, rest: seq<Token>)
    requires IsLvalue(x) && Stops(-1, rest)
    requires var after := [AssignToken(op)] + (Print(0, y) + rest);
             ParseAt(LOWEST, Print(LOWEST, x) + after) == TailAt(LOWEST, x, after)
    requires ParseAt(0, Print(0, y) + rest) == TailAt(0, y, rest)
    ensures ParseAt(0, Bare(Assign(op, x, y)) + rest) == TailAt(0, Assign(op, x, y), rest)
  {
    Done(0, LOWEST, x, [AssignToken(op)] + (Print(0, y) + rest));
    AssignCase(op, x, y, Print(LOWEST, x), Print(0, y), rest);
  }

  lemma {:induction false} FormRoundTrip(e: Expr, rest: seq<Token>)
    requires Printable(e) && ClearForm(e, rest)
    requires Stops(if Level(e) == 0 then -1 else Level(e), rest) && (EndsInCast(e) ==> TypeStops(rest))
    ensures ParseAt(Level(e), Bare(e) + rest) == TailAt(Level(e), e, rest)
    decreases Size(e), 0, 1
  {
    match e
    case Int(v) => IntRoundTrip(v, rest);
    case Const(c) => assert ([Literal(c)] + rest)[1..] == rest;
    case Ident(n) => assert ([Word(n)] + rest)[1..] == rest;
    case Unary(op, x) =>
      if IsPostfix(op) {
        ExprRoundTrip(POSTFIX, x, [UnaryToken(op)] + rest);
        PostfixCase(op, x, Print(POSTFIX, x), rest);
      } else {
        ExprRoundTrip(PREFIX, x, rest);
        PrefixCase(op, x, Print(PREFIX, x), rest);
      }
    case Binary(op, x, y) => BinaryRoundTrip(op, x, y, rest);
    case Assign(op, x, y) =>
      ExprRoundTrip(LOWEST, x, [AssignToken(op)] + (Print(0, y) + rest));
      ExprRoundTrip(0, y, rest);
      AssignRoundTrip(op, x, y, rest);
    case Cast(x, t) =>
      ExprRoundTrip(CAST, x, [As] + (PrintType(t) + rest));
      TypeRoundTrip(t, rest);
      CastCase(x, t, Print(CAST, x), PrintType(t), rest);
    case _ => PostfixRoundTrip(e, rest);
  }

  /** Subscripts, calls, members and generic instances. */
  lemma {:induction false} PostfixRoundTrip(e: Expr, rest: seq<Token>)
    requires Printable(e) && ClearForm(e, rest) && (e.Subscript? || e.Call? || e.Member? || e.Inst?)
    ensures ParsePostfix(Bare(e) + rest) == PostfixTail(e, rest)
    decreases Size(e), 0, 0
  {
    match e
    case Subscript(x, i) =>
      ExprRoundTrip(POSTFIX, x, [LBracket] + (Print(0, i) + ([RBracket] + rest)));
      ExprRoundTrip(0, i, [RBracket] + rest);
      SubscriptCase(x, i, Print(POSTFIX, x), Print(0, i), rest);
    case Call(f, args) =>
      ExprRoundTrip(POSTFIX, f, [LParen] + (PrintArgs(args) + ([RParen] + rest)));
      ArgsRoundTrip(args, rest);
      CallCase(f, args, Print(POSTFIX, f), PrintArgs(args), rest);
    case Member(x, m) =>
      ExprRoundTrip(POSTFIX, x, [Dot, Word(Identifier(m))] + rest);
      MemberCase(x, m, Print(POSTFIX, x), rest);
    case Inst(g, types) =>
      ExprRoundTrip(POSTFIX, g, [Lt] + (PrintTypes(types) + ([Gt] + rest)));
      TypeArgumentsRoundTrip(types, rest);
      InstCase(g, types, Print(POSTFIX, g), PrintTypes(types), rest);
  }

  lemma {:induction false} BinaryRoundTrip(op: BinaryOp, x: Expr, y: Expr, rest: seq<Token>)
    requires Printable(Binary(op, x, y)) && ClearForm(Binary(op, x, y), rest) && Stops(OpLevel(op), rest)
    requires EndsInCast(Binary(op, x, y)) ==> TypeStops(rest)
    ensures ParseAt(OpLevel(op), Bare(Binary(op, x, y)) + rest) == TailAt(OpLevel(op), Binary(op, x, y), rest)
    decreases Size(x) + Size(y), 50
  {
    var l := OpLevel(op);
    LeftRoundTrip(op, x, Print(l + 1, y) + rest);
    Widen(l, l + 1, rest);
    ExprRoundTrip(l + 1, y, rest);
    Done(l, l + 1, y, rest);
    BinaryCase(op, x, y, PrintLeft(op, x), Print(l + 1, y), rest);
  }

  lemma {:induction false} LeftRoundTrip(op: BinaryOp, x: Expr, rest: seq<Token>)
    requires var after := [BinaryToken(op)] + rest;
             Printable(x) && ClearLeft(op, x, after) && (op == Less ==> ParseGenericInst(after).Fail?)
    ensures var after := [BinaryToken(op)] + rest;
            ParseAt(OpLevel(op), PrintLeft(op, x) + after) == TailAt(OpLevel(op), x, after)
    decreases Size(x), 40
  {
    var l, after := OpLevel(op), [BinaryToken(op)] + rest;
    assert Stops(l, after);
    if CastSwallows(op, x) {
      ExprRoundTrip(0, x, [RParen] + after);
      Parenthesised(l, x, after);
    } else {
      ExprRoundTrip(l, x, after);
    }
  }

  lemma {:induction false} StripNothing(s: string)
    requires '_' !in s
    ensures Strip(s) == s
  {
    if s != [] {
      StripNothing(s[..|s| - 1]);
    }
  }

  lemma IntRoundTrip(v: nat, rest: seq<Token>)
    requires v <= UINT64_MAX
    ensures ParsePrimary([IntText(Digits(v, 10))] + rest) == Got(Int(v), rest)
  {
    var text := Digits(v, 10);
    StripNothing(text);
    PrintedLiteralParses(v, 10, text);
    assert Prefix(10) + text == text;
    assert ([IntText(text)] + rest)[1..] == rest;
  }

  /** What follows an element of a list: its separator or its closing token. */
  lemma ListStops(tail: seq<Token>, close: Token, rest: seq<Token>)
    requires (tail == [] || tail[0] == Comma) && (close == RParen || close == Gt)
    ensures TypeStops(tail + ([close] + rest))
    ensures close == RParen ==> Stops(-1, tail + ([close] + rest))
  {
    assert (tail + ([close] + rest))[0] == if tail == [] then close else Comma;
  }

  lemma ArgumentsStep(es: seq<Expr>, ts: seq<Token>, after: seq<Token>, end: seq<Token>)
    requires es != [] && ParseExpr(ts) == Got(es[0], after) && At(end, RParen)
    requires if es[1..] == [] then after == end
             else At(after, Comma) && !At(after[1..], RParen) && Arguments(after[1..]) == Got(es[1..], end)
    ensures Arguments(ts) == Got(es, end)
  {
    assert [es[0]] + es[1..] == es;
    assert es[1..] == [] ==> [es[0]] == es;
  }

  lemma ArgsHead(es: seq<Expr>, end: seq<Token>)
    requires es != []
    ensures PrintArgs(es) != [] && !At(PrintArgs(es) + end, RParen)
  {
    Head(0, es[0]);
    assert PrintArgs(es)[0] == Print(0, es[0])[0];
    assert (PrintArgs(es) + end)[0] == PrintArgs(es)[0];
  }

  lemma {:induction false} ArgsRoundTrip(es: seq<Expr>, rest: seq<Token>)
    requires AllPrintable(es) && ClearArgs(es, rest)
    ensures ArgumentList(PrintArgs(es) + ([RParen] + rest)) == Got(es, [RParen] + rest)
    ensures es != [] ==> Arguments(PrintArgs(es) + ([RParen] + rest)) == Got(es, [RParen] + rest)
    decreases SizeAll(es), 0
  {
    var end := [RParen] + rest;
    if es == [] {
      assert PrintArgs(es) + end == end;
    } else {
      var more := es[1..];
      var tail := PrintMoreArgs(more) + end;
      ArgsPrinted(es, end);
      ListStops(PrintMoreArgs(more), RParen, rest);
      ExprRoundTrip(0, es[0], tail);
      Done(-1, 0, es[0], tail);
      if more != [] {
        ArgsRoundTrip(more, rest);
        ArgsHead(more, end);
      }
      ArgumentsStep(es, PrintArgs(es) + end, tail, end);
      ArgsHead(es, end);
    }
  }

  lemma {:induction false} TypeRoundTrip(t: TypeExpr, rest: seq<Token>)
    requires PrintableType(t) && ClearType(t, rest) && TypeStops(rest)
    ensures ParseType(PrintType(t) + rest) == Got(t, rest)
    decreases TypeSize(t), 2
  {
    match t
    case Pointer(x) =>
      TypeRoundTrip(x, rest);
      PointerCase(x, PrintType(x), rest);
    case Array(_, _) =>
      ArrayRoundTrip(t, rest);
    case Func(ps, Some(r)) =>
      TypeRoundTrip(r, rest);
      FunctionRoundTrip(ps, [Arrow] + (PrintType(r) + rest));
      ReturnCase(ps, r, PrintTypes(ps), PrintType(r), rest);
    case _ =>
      TypeHead(t);
      BaseRoundTrip(t, rest);
      assert PrintType(t) == PrintBase(t);
      WholeType(t, PrintBase(t) + rest, rest);
  }

  lemma {:induction false} ArrayRoundTrip(t: TypeExpr, rest: seq<Token>)
    requires PrintableType(t) && t.Array? && ClearType(t, rest) && TypeStops(rest)
    ensures ParseType(PrintType(t) + rest) == Got(t, rest)
    decreases TypeSize(t), 1
  {
    var base, dims := Innermost(t), PrintDims(t);
    PrintableInside(t);
    TypeHead(base);
    BaseRoundTrip(base, dims + rest);
    DimsRoundTrip(t, rest);
    Join(PrintBase(base), dims, rest);
    WholeArray(base, t, PrintBase(base) + (dims + rest), dims + rest, rest);
  }

  lemma ReturnCase(ps: seq<TypeExpr>, r: TypeExpr, list: seq<Token>, ret: seq<Token>, rest: seq<Token>)
    requires TypeStops(rest) && ParseType(ret + rest) == Got(r, rest)
    requires ParseTypeAtom([Fn, LParen] + list + [RParen] + ([Arrow] + (ret + rest)))
             == ReturnType(ps, [Arrow] + (ret + rest))
    ensures ParseType([Fn, LParen] + list + [RParen, Arrow] + ret + rest) == Got(Func(ps, Some(r)), rest)
  {
    var after := [Arrow] + (ret + rest);
    var ts := [Fn, LParen] + list + [RParen] + after;
    assert [Fn, LParen] + list + [RParen, Arrow] + ret + rest == ts;
    assert after[1..] == ret + rest;
    assert ParseSuffixed(ts) == Suffixes(Func(ps, Some(r)), rest);
    WholeType(Func(ps, Some(r)), ts, rest);
  }

  lemma {:induction false} BaseRoundTrip(t: TypeExpr, rest: seq<Token>)
    requires PrintableType(t) && !t.Array? && ClearBase(t, rest) && (rest == [] || rest[0] !in {Lt, Dot, Arrow})
    ensures ParseSuffixed(PrintBase(t) + rest) == Suffixes(t, rest)
    decreases TypeSize(t), if IsAtom(t) || t.Apply? then 1 else 4
  {
    if t.Apply? {
      AtomRoundTrip(t.base, [Lt] + (PrintTypes(t.typeArgs) + ([Gt] + rest)));
      TypeArgumentsRoundTrip(t.typeArgs, rest);
      ApplyCase(t.base, t.typeArgs, PrintAtom(t.base), PrintTypes(t.typeArgs), rest);
    } else {
      AtomRoundTrip(t, rest);
    }
  }

  lemma {:induction false} AtomRoundTrip(t: TypeExpr, rest: seq<Token>)
    requires PrintableType(t) && ClearAtom(t, rest) && (rest == [] || rest[0] !in {Dot, Arrow})
    ensures ParseTypeAtom(PrintAtom(t) + rest) == Got(t, rest)
    decreases TypeSize(t), if IsAtom(t) then 0 else 3
  {
    match t
    case Named(n) => NamedCase(n, rest);
    case Dotted(path) => DottedCase(path, rest);
    case Func(ps, None) => FunctionRoundTrip(ps, rest);
    case _ =>
      TypeRoundTrip(t, [RParen] + rest);
      TypeParenCase(t, PrintType(t), rest);
  }

  lemma {:induction false} FunctionRoundTrip(ps: seq<TypeExpr>, rest: seq<Token>)
    requires AllPrintableTypes(ps) && ClearTypes(ps, RParen, rest)
    ensures ParseTypeAtom([Fn, LParen] + PrintTypes(ps) + [RParen] + rest) == ReturnType(ps, rest)
    decreases TypeSizeAll(ps), 5
  {
    if ps != [] {
      TypeHead(ps[0]);
      TypesRoundTrip(ps, RParen, rest);
    }
    FunctionCase(ps, PrintTypes(ps), rest);
  }

  lemma {:induction false} DimsRoundTrip(t: TypeExpr, rest: seq<Token>)
    requires PrintableType(t) && ClearDims(t, rest) && !At(rest, LBracket)
    ensures Dimensions(Innermost(t), PrintDims(t) + rest) == Got(t, rest)
    decreases TypeSize(t), 0
  {
    match t
    case Array(None, x) =>
      DimsRoundTrip(x, rest);
      OpenDimensionCase(Innermost(t), x, PrintDims(x), rest);
    case Array(Some(e), x) =>
      DimsRoundTrip(x, rest);
      ExprRoundTrip(0, e, [RBracket] + (PrintDims(x) + rest));
      Head(0, e);
      SizedDimensionCase(Innermost(t), e, x, Print(0, e), PrintDims(x), rest);
    case _ =>
      assert PrintDims(t) + rest == rest;
  }

  lemma {:induction false} TypeArgumentsRoundTrip(ts: seq<TypeExpr>, rest: seq<Token>)
    requires AllPrintableTypes(ts) && ts != [] && ClearTypes(ts, Gt, rest)
    ensures TypeArguments(PrintTypes(ts) + ([Gt] + rest)) == Got(ts, rest)
    decreases TypeSizeAll(ts), 6
  {
    TypesRoundTrip(ts, Gt, rest);
  }

  lemma TypesStep(ts: seq<TypeExpr>, close: Token, list: seq<Token>, after: seq<Token>, rest: seq<Token>)
    requires ts != [] && (close == Gt || close == RParen) && ParseType(list) == Got(ts[0], after)
    requires if ts[1..] == [] then At(after, close) && after[1..] == rest
             else At(after, Comma)
                  && if close == Gt then TypeArguments(after[1..]) == Got(ts[1..], rest)
                     else ParameterTypes(after[1..]).Got? && ParameterTypes(after[1..]).value == ts[1..]
    ensures if close == Gt then TypeArguments(list) == Got(ts, rest)
            else ParameterTypes(list) == Got(ts, if ts[1..] == [] then after else ParameterTypes(after[1..]).rest)
  {
    assert [ts[0]] + ts[1..] == ts;
    assert ts[1..] == [] ==> [ts[0]] == ts;
  }

  /** A list of types, closed by `>` for type arguments and by `)` for parameters. */
  lemma {:induction false} TypesRoundTrip(ts: seq<TypeExpr>, close: Token, rest: seq<Token>)
    requires AllPrintableTypes(ts) && ts != [] && (close == Gt || close == RParen) && ClearTypes(ts, close, rest)
    ensures var list := PrintTypes(ts) + ([close] + rest);
            if close == Gt then TypeArguments(list) == Got(ts, rest)
            else ParameterTypes(list) == Got(ts, [close] + rest)
    decreases TypeSizeAll(ts), 0
  {
    var more, end := ts[1..], [close] + rest;
    var tail := PrintMoreTypes(more) + end;
    TypesPrinted(ts, end);
    ListStops(PrintMoreTypes(more), close, rest);
    TypeRoundTrip(ts[0], tail);
    if more != [] {
      TypesRoundTrip(more, close, rest);
    } else {
      Drop(close, rest);
    }
    TypesStep(ts, close, PrintTypes(ts) + end, tail, rest);
  }

  // ---------- the theorems ----------

  /** What may follow a complete expression or type in the grammar. */
  predicate Closes(rest: seq<Token>)
  {
    rest == [] || rest[0] in {RParen, RBracket, Comma, Semicolon, Gt} || rest[0].Other?
  }

  /** Where every guess comes out right, the parser undoes the printer and consumes exactly the print. */
  lemma ExpressionRoundTrip(e: Expr, rest: seq<Token>)
    requires Printable(e) && Clear(0, e, rest) && Closes(rest) && !At(rest, Gt)
    ensures ParseExpr(Print(0, e) + rest) == Got(e, rest)
  {
    ExprRoundTrip(0, e, rest);
    Done(-1, 0, e, rest);
  }

  lemma TypePrintRoundTrip(t: TypeExpr, rest: seq<Token>)
    requires PrintableType(t) && ClearType(t, rest) && Closes(rest)
    ensures ParseType(PrintType(t) + rest) == Got(t, rest)
  {
    TypeRoundTrip(t, rest);
  }

  /** Distinct trees have distinct prints. */
  lemma PrintIsInjective(e1: Expr, e2: Expr)
    requires Printable(e1) && Clear(0, e1, []) && Printable(e2) && Clear(0, e2, []) && Print(0, e1) == Print(0, e2)
    ensures e1 == e2
  {
    ExpressionRoundTrip(e1, []);
    ExpressionRoundTrip(e2, []);
    assert Print(0, e1) + [] == Print(0, e1);
  }

  /** Without `>` there is nothing to guess: comparisons, calls and casts all come back. */
  lemma NoCloserRoundTrip(e: Expr, rest: seq<Token>)
    requires Printable(e) && Closes(rest) && Gt !in Print(0, e) && Gt !in rest
    ensures ParseExpr(Print(0, e) + rest) == Got(e, rest)
  {
    NoCloserIsClear(e, rest);
    ExpressionRoundTrip(e, rest);
  }

  /** Over literals the speculative reading fails at every `<`, whatever the tree. */
  lemma LiteralTreeRoundTrip(e: Expr, rest: seq<Token>)
    requires LiteralTree(e) && Closes(rest) && !At(rest, Gt)
    ensures ParseExpr(Print(0, e) + rest) == Got(e, rest)
  {
    LiteralTreeIsClear(e, rest);
    ExpressionRoundTrip(e, rest);
  }
}
