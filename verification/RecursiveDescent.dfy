/** The recursive-descent parser itself: a cursor over the token array. */
module RecursiveDescent {
  import opened Options
  import opened Syntax
  import opened IntegerLiterals
  import opened Grammar

  /** A result NULL or not, with the cursor left where the grammar says. */
  ghost predicate Agrees<T>(r: Option<T>, parsed: Parsed<T>, left: seq<Token>)
  {
    match parsed
    case Fail => r == None
    case Got(value, rest) => r == Some(value) && left == rest
  }

  predicate StartsPostfix(t: Token) { t in {PlusPlus, MinusMinus, LBracket, LParen, Dot, Lt} }

  class Parser {
    const tokens: seq<Token>
    var current: nat

    constructor (tokens: seq<Token>)
      ensures this.tokens == tokens && current == 0
    {
      this.tokens := tokens;
      current := 0;
    }

    ghost predicate Valid()
      reads this
    {
      current <= |tokens|
    }

    ghost function Rest(): seq<Token>
      reads this
      requires Valid()
    {
      tokens[current..]
    }

    predicate Sees(t: Token)
      reads this
      requires Valid()
      ensures Sees(t) == At(Rest(), t)
    {
      current < |tokens| && tokens[current] == t
    }

    method Consume(expected: Token) returns (ok: bool)
      requires Valid()
      modifies this
      ensures Valid() && ok == At(old(Rest()), expected)
      ensures Rest() == if ok then old(Rest())[1..] else old(Rest())
    {
      ok := Sees(expected);
      if ok {
        current := current + 1;
      }
    }

    method Advance() returns (t: Token)
      requires Valid() && Rest() != []
      modifies this
      ensures Valid() && t == old(Rest())[0] && Rest() == old(Rest())[1..]
    {
      t := tokens[current];
      current := current + 1;
    }

    // ---------- expressions ----------

    method ParseExpression() returns (r: Option<Expr>)
      requires Valid()
      modifies this
      ensures Valid() && Agrees(r, ParseExpr(old(Rest())), Rest())
      decreases |Rest()|, 20
    {
      ghost var whole := Rest();
      var lhs := ParseLadder(LOWEST);
      if lhs.None? {
        return None;
      }
      assert ParseExpr(whole) == AssignTail(lhs.value, Rest());
      if current < |tokens| && AssignOf(tokens[current]).Some? {
        r := ParseAssignment(lhs.value);
      } else {
        r := lhs;
      }
    }

    method ParseAssignment(lhs: Expr) returns (r: Option<Expr>)
      requires Valid() && Rest() != [] && AssignOf(Rest()[0]).Some?
      modifies this
      ensures Valid() && Agrees(r, AssignTail(lhs, old(Rest())), Rest())
      decreases |Rest()|, 0
    {
      if !IsLvalue(lhs) {
        return None;
      }
      var op := Advance();
      var rhs := ParseExpression();
      if rhs.None? {
        return None;
      }
      return Some(Assign(AssignOf(op).value, lhs, rhs.value));
    }

    /** `parse_left_assoc_binary` on one rung, its operands parsed by the next one up. */
    method ParseLadder(l: nat) returns (r: Option<Expr>)
      requires Valid() && LOWEST <= l <= CAST
      modifies this
      ensures Valid() && Agrees(r, ParseLevel(l, old(Rest())), Rest())
      decreases |Rest()|, 19 - l
    {
      if l == CAST {
        r := ParseCasts();
        return;
      }
      ghost var whole := Rest();
      r := ParseLadder(l + 1);
      if r.None? {
        return None;
      }
      var lhs := r.value;
      while current < |tokens| && OpAt(l, tokens[current]).Some?
        invariant Valid() && |Rest()| < |whole|
        invariant ParseLevel(l, whole) == LeftAssoc(l, lhs, Rest())
        decreases |Rest()|
      {
        var op := Advance();
        var rhs := ParseLadder(l + 1);
        if rhs.None? {
          return None;
        }
        lhs := Binary(OpAt(l, op).value, lhs, rhs.value);
      }
      return Some(lhs);
    }

    method ParseCasts() returns (r: Option<Expr>)
      requires Valid()
      modifies this
      ensures Valid() && Agrees(r, ParseCast(old(Rest())), Rest())
      decreases |Rest()|, 11
    {
      ghost var whole := Rest();
      r := ParsePrefix();
      if r.None? {
        return None;
      }
      var expr := r.value;
      while Sees(As)
        invariant Valid() && |Rest()| < |whole|
        invariant ParseCast(whole) == CastTail(expr, Rest())
        decreases |Rest()|
      {
        var _ := Advance();
        var ty := ParseTypeNode();
        if ty.None? {
          return None;
        }
        expr := Cast(expr, ty.value);
      }
      return Some(expr);
    }

    method ParsePrefix() returns (r: Option<Expr>)
      requires Valid()
      modifies this
      ensures Valid() && Agrees(r, ParseUnary(old(Rest())), Rest())
      decreases |Rest()|, 10
    {
      if current < |tokens| && PrefixOf(tokens[current]).Some? {
        var op := Advance();
        var operand := ParsePrefix();
        if operand.None? {
          return None;
        }
        return Some(Unary(PrefixOf(op).value, operand.value));
      }
      r := ParsePostfixed();
    }

    /**
     * Type arguments are tried at `<`; when they do not work out the cursor goes back
     * to the `<`, as if nothing had been read.
     */
    method ParsePostfixGenericInst() returns (r: Option<seq<TypeExpr>>)
      requires Valid() && At(Rest(), Lt)
      modifies this
      ensures Valid()
      ensures match ParseGenericInst(old(Rest()))
              case Fail => r == None && current == old(current)
              case Got(args, rest) => r == Some(args) && Rest() == rest
      decreases |Rest()|, 0
    {
      var checkpoint := current;
      var _ := Advance();
      r := ParseTypeArguments();
      if r.Some? && current < |tokens| && tokens[current] in {LParen, Semicolon, Comma} {
        return;
      }
      current := checkpoint;
      return None;
    }

    method ParsePostfixed() returns (r: Option<Expr>)
      requires Valid()
      modifies this
      ensures Valid() && Agrees(r, ParsePostfix(old(Rest())), Rest())
      decreases |Rest()|, 9
    {
      ghost var whole := Rest();
      r := ParsePrimaryNode();
      if r.None? {
        return None;
      }
      var primary := r.value;
      while current < |tokens| && StartsPostfix(tokens[current])
        invariant Valid() && |Rest()| < |whole|
        invariant ParsePostfix(whole) == PostfixTail(primary, Rest())
        decreases |Rest()|
      {
        var next, more := ParsePostfixStep(primary);
        if !more {
          return next;
        }
        primary := next.value;
      }
      return Some(primary);
    }

    /** One postfix operator; no more when it fails, or when a `<` starts a comparison. */
    method ParsePostfixStep(primary: Expr) returns (next: Option<Expr>, more: bool)
      requires Valid() && Rest() != [] && StartsPostfix(Rest()[0])
      modifies this
      ensures Valid()
      ensures if more then next.Some? && PostfixTail(primary, old(Rest())) == PostfixTail(next.value, Rest())
              && |Rest()| < |old(Rest())|
              else Agrees(next, PostfixTail(primary, old(Rest())), Rest())
      decreases |Rest()|, 1
    {
      if Sees(PlusPlus) || Sees(MinusMinus) {
        var op := Advance();
        return Some(Unary(if op == PlusPlus then PostInc else PostDec, primary)), true;
      }
      if Sees(Lt) {
        var args := ParsePostfixGenericInst();
        if args.None? {
          return Some(primary), false;
        }
        return Some(Inst(primary, args.value)), true;
      }
      next := ParseSelector(primary);
      more := next.Some?;
    }

    /** A subscript, a call or a member access. */
    method ParseSelector(primary: Expr) returns (r: Option<Expr>)
      requires Valid() && Rest() != [] && Rest()[0] in {LBracket, LParen, Dot}
      modifies this
      ensures Valid()
      ensures match r
              case None => PostfixTail(primary, old(Rest())) == Fail
              case Some(e) => PostfixTail(primary, old(Rest())) == PostfixTail(e, Rest()) && |Rest()| < |old(Rest())|
      decreases |Rest()|, 0
    {
      var t := Advance();
      if t == LBracket {
        var index := ParseExpression();
        if index.None? {
          return None;
        }
        var ok := Consume(RBracket);
        return if ok then Some(Subscript(primary, index.value)) else None;
      } else if t == LParen {
        var args := ParseArgumentList();
        if args.None? {
          return None;
        }
        var ok := Consume(RParen);
        return if ok then Some(Call(primary, args.value)) else None;
      } else {
        if current == |tokens| || !AtIdentifier([tokens[current]]) {
          return None;
        }
        ghost var after := Rest();
        var name := Advance();
        assert after[1..] == old(Rest())[2..];
        return Some(Member(primary, name.name.id));
      }
    }

    method ParseArgumentList() returns (r: Option<seq<Expr>>)
      requires Valid()
      modifies this
      ensures Valid() && Agrees(r, ArgumentList(old(Rest())), Rest())
      decreases |Rest()|, 22
    {
      if current == |tokens| {
        return None;
      }
      if Sees(RParen) {
        return Some([]);
      }
      ghost var whole := Rest();
      var args := [];
      PrependNone(Arguments(whole));
      while true
        invariant Valid() && |Rest()| <= |whole|
        invariant Arguments(whole) == Prepend(args, Arguments(Rest()))
        decreases |Rest()|
      {
        var argument := ParseExpression();
        if argument.None? {
          return None;
        }
        ghost var before := args;
        args := args + [argument.value];
        if Sees(RParen) {
          break;
        }
        var comma := Consume(Comma);
        if !comma {
          return None;
        }
        if Sees(RParen) {
          break;
        }
        PrependMore(before, argument.value, Arguments(Rest()));
      }
      return Some(args);
    }

    method ParsePrimaryNode() returns (r: Option<Expr>)
      requires Valid()
      modifies this
      ensures Valid() && Agrees(r, ParsePrimary(old(Rest())), Rest())
      decreases |Rest()|, 8
    {
      if current == |tokens| {
        return None;
      }
      match tokens[current]
      case IntText(text) =>
        var v := ParseIntLit(text);
        if v.None? {
          return None;
        }
        var _ := Advance();
        return Some(Int(v.value));
      case Literal(c) =>
        var _ := Advance();
        return Some(Const(c));
      case Word(n) =>
        if !StartsExpression(n) {
          return None;
        }
        var _ := Advance();
        return Some(Ident(n));
      case LParen =>
        var _ := Advance();
        r := ParseExpression();
        if r.Some? {
          var ok := Consume(RParen);
          if !ok {
            return None;
          }
        }
      case _ =>
        return None;
    }

    // ---------- types ----------

    /**
     * Stars in front are counted first and applied last, dimensions are listed and then
     * applied from the last to the first.
     */
    method ParseTypeNode() returns (r: Option<TypeExpr>)
      requires Valid()
      modifies this
      ensures Valid() && Agrees(r, ParseType(old(Rest())), Rest())
      decreases |Rest()|, 7
    {
      ghost var whole := Rest();
      var stars: nat := 0;
      while Sees(Star)
        invariant Valid() && |Rest()| + stars == |whole|
        invariant ParseType(whole) == Starred(stars, ParseType(Rest()))
        decreases |Rest()|
      {
        ghost var here := Rest();
        var _ := Advance();
        StarredOnce(here);
        StarredMore(stars, ParseType(Rest()));
        stars := stars + 1;
      }
      ghost var suffixed := Rest();
      var atom := ParseAtom();
      if atom.None? {
        return None;
      }
      var base := atom.value;
      if Sees(Lt) {
        var _ := Advance();
        var args := ParseTypeArguments();
        if args.None? {
          return None;
        }
        base := Apply(base, args.value);
      }
      assert ParseSuffixed(suffixed) == Suffixes(base, Rest());
      r := ParseDimensions(base);
      if r.None? {
        return None;
      }
      base := r.value;
      while Sees(Star)
        invariant Valid()
        invariant ParseSuffixed(suffixed) == PointerSuffix(base, Rest())
        decreases |Rest()|
      {
        var _ := Advance();
        base := Pointer(base);
      }
      base := WrapPointers(stars, base);
      return Some(base);
    }

    method WrapPointers(stars: nat, base: TypeExpr) returns (r: TypeExpr)
      ensures r == Pointers(stars, base)
    {
      r := base;
      var i := stars;
      while i > 0
        invariant 0 <= i <= stars
        invariant Pointers(stars, base) == Pointers(i, r)
      {
        PointersInside(i - 1, r);
        r := Pointer(r);
        i := i - 1;
      }
    }

    method ParseDimensions(base: TypeExpr) returns (r: Option<TypeExpr>)
      requires Valid()
      modifies this
      ensures Valid() && Agrees(r, Dimensions(base, old(Rest())), Rest())
      decreases |Rest()|, 3
    {
      ghost var whole := Rest();
      var dims: seq<Option<Expr>> := [];
      while Sees(LBracket)
        invariant Valid() && |Rest()| <= |whole|
        invariant Dimensions(base, whole) == Wrapped(dims, Dimensions(base, Rest()))
        decreases |Rest()|
      {
        ghost var here := Rest();
        var _ := Advance();
        var size := None;
        if current < |tokens| && tokens[current] != RBracket {
          size := ParseExpression();
          if size.None? {
            return None;
          }
        }
        ghost var close := Rest();
        var ok := Consume(RBracket);
        if !ok {
          return None;
        }
        assert size.None? ==> Rest() == here[2..];
        WrappedMore(dims, size, Dimensions(base, Rest()));
        dims := dims + [size];
      }
      var t := ApplyDimensions(dims, base);
      return Some(t);
    }

    method ApplyDimensions(dims: seq<Option<Expr>>, base: TypeExpr) returns (t: TypeExpr)
      ensures t == WrapAll(dims, base)
    {
      t := base;
      var i := |dims|;
      assert dims[..i] == dims;
      while i > 0
        invariant 0 <= i <= |dims|
        invariant WrapAll(dims, base) == WrapAll(dims[..i], t)
      {
        WrapLast(dims[..i - 1], dims[i - 1], t);
        assert dims[..i - 1] + [dims[i - 1]] == dims[..i];
        t := Array(dims[i - 1], t);
        i := i - 1;
      }
    }

    method ParseTypeArguments() returns (r: Option<seq<TypeExpr>>)
      requires Valid()
      modifies this
      ensures Valid() && Agrees(r, TypeArguments(old(Rest())), Rest())
      decreases |Rest()|, 8
    {
      ghost var whole := Rest();
      var args := [];
      PrependNone(TypeArguments(whole));
      while true
        invariant Valid() && |Rest()| <= |whole|
        invariant TypeArguments(whole) == Prepend(args, TypeArguments(Rest()))
        decreases |Rest()|
      {
        var arg := ParseTypeNode();
        if arg.None? {
          return None;
        }
        ghost var before := args;
        args := args + [arg.value];
        if Sees(Gt) {
          break;
        }
        var comma := Consume(Comma);
        if !comma {
          break;
        }
        PrependMore(before, arg.value, TypeArguments(Rest()));
      }
      var ok := Consume(Gt);
      return if ok then Some(args) else None;
    }

    method ParseAtom() returns (r: Option<TypeExpr>)
      requires Valid()
      modifies this
      ensures Valid() && Agrees(r, ParseTypeAtom(old(Rest())), Rest())
      decreases |Rest()|, 5
    {
      if current == |tokens| {
        return None;
      }
      match tokens[current]
      case LParen =>
        var _ := Advance();
        r := ParseTypeNode();
        if r.Some? {
          var ok := Consume(RParen);
          if !ok {
            return None;
          }
        }
      case Fn =>
        r := ParseFunction();
      case Word(n) =>
        var _ := Advance();
        if n.TypeName? {
          return Some(Named(n));
        }
        var path := ParsePath(n.id);
        if path.None? {
          return None;
        }
        return Some(if |path.value| == 1 then Named(n) else Dotted(path.value));
      case _ =>
        return None;
    }

    method ParsePath(first: nat) returns (r: Option<seq<nat>>)
      requires Valid()
      modifies this
      ensures Valid() && Agrees(r, PathTail([first], old(Rest())), Rest())
    {
      ghost var whole := Rest();
      var path := [first];
      while Sees(Dot)
        invariant Valid()
        invariant PathTail([first], whole) == PathTail(path, Rest())
        decreases |Rest()|
      {
        ghost var here := Rest();
        var _ := Advance();
        if current == |tokens| || !AtIdentifier([tokens[current]]) {
          return None;
        }
        var name := Advance();
        assert Rest() == here[2..];
        path := path + [name.name.id];
      }
      return Some(path);
    }

    method ParseFunction() returns (r: Option<TypeExpr>)
      requires Valid()
      modifies this
      ensures Valid() && Agrees(r, ParseFunctionType(old(Rest())), Rest())
      decreases |Rest()|, 4
    {
      ghost var whole := Rest();
      var fn := Consume(Fn);
      if !fn {
        return None;
      }
      var open := Consume(LParen);
      if !open {
        return None;
      }
      assert Rest() == whole[2..];
      var params := [];
      if Sees(RParen) {
        var _ := Advance();
        assert Rest() == whole[3..];
      } else {
        var list := ParseParameterTypes();
        if list.None? {
          return None;
        }
        params := list.value;
        var close := Consume(RParen);
        if !close {
          return None;
        }
      }
      assert ParseFunctionType(whole) == ReturnType(params, Rest());
      r := ParseReturnType(params);
    }

    method ParseReturnType(params: seq<TypeExpr>) returns (r: Option<TypeExpr>)
      requires Valid()
      modifies this
      ensures Valid() && Agrees(r, ReturnType(params, old(Rest())), Rest())
      decreases |Rest()|, 4
    {
      var arrow := Consume(Arrow);
      if !arrow {
        return Some(Func(params, None));
      }
      var ret := ParseTypeNode();
      if ret.None? {
        return None;
      }
      return Some(Func(params, Some(ret.value)));
    }

    method ParseParameterTypes() returns (r: Option<seq<TypeExpr>>)
      requires Valid()
      modifies this
      ensures Valid() && Agrees(r, ParameterTypes(old(Rest())), Rest())
      decreases |Rest()|, 8
    {
      ghost var whole := Rest();
      var param := ParseTypeNode();
      if param.None? {
        return None;
      }
      var params := [param.value];
      while Sees(Comma)
        invariant Valid() && |Rest()| < |whole|
        invariant ParameterTypes(whole) ==
                  if At(Rest(), Comma) then Prepend(params, ParameterTypes(Rest()[1..])) else Got(params, Rest())
        decreases |Rest()|
      {
        var _ := Advance();
        ghost var here := Rest();
        param := ParseTypeNode();
        if param.None? {
          return None;
        }
        if At(Rest(), Comma) {
          PrependMore(params, param.value, ParameterTypes(Rest()[1..]));
        }
        params := params + [param.value];
      }
      return Some(params);
    }
  }

  // ---------- lists built from the front ----------

  function Prepend<T>(front: seq<T>, parsed: Parsed<seq<T>>): Parsed<seq<T>>
  {
    match parsed
    case Fail => Fail
    case Got(back, rest) => Got(front + back, rest)
  }

  lemma PrependNone<T>(parsed: Parsed<seq<T>>)
    ensures Prepend([], parsed) == parsed
  {
    if parsed.Got? {
      assert [] + parsed.value == parsed.value;
    }
  }

  lemma PrependMore<T>(front: seq<T>, x: T, parsed: Parsed<seq<T>>)
    ensures Prepend(front + [x], parsed) == Prepend(front, Prepend([x], parsed))
  {
    if parsed.Got? {
      assert front + [x] + parsed.value == front + ([x] + parsed.value);
    }
  }

  function Pointers(n: nat, base: TypeExpr): TypeExpr
  {
    if n == 0 then base else Pointer(Pointers(n - 1, base))
  }

  lemma PointersInside(n: nat, base: TypeExpr)
    ensures Pointers(n + 1, base) == Pointers(n, Pointer(base))
  {}

  function Starred(n: nat, parsed: Parsed<TypeExpr>): Parsed<TypeExpr>
  {
    match parsed
    case Fail => Fail
    case Got(t, rest) => Got(Pointers(n, t), rest)
  }

  lemma StarredOnce(ts: seq<Token>)
    requires At(ts, Star)
    ensures ParseType(ts) == Starred(1, ParseType(ts[1..]))
  {
    if ParseType(ts[1..]).Got? {
      var t := ParseType(ts[1..]).value;
      assert Pointers(1, t) == Pointer(Pointers(0, t));
    }
  }

  lemma StarredMore(n: nat, parsed: Parsed<TypeExpr>)
    ensures Starred(n, Starred(1, parsed)) == Starred(n + 1, parsed)
  {
    if parsed.Got? {
      PointersInside(n, parsed.value);
      assert Pointers(1, parsed.value) == Pointer(Pointers(0, parsed.value));
    }
  }

  /** The first dimension outermost. */
  function WrapAll(dims: seq<Option<Expr>>, base: TypeExpr): TypeExpr
  {
    if dims == [] then base else Array(dims[0], WrapAll(dims[1..], base))
  }

  lemma {:induction false} WrapLast(dims: seq<Option<Expr>>, size: Option<Expr>, base: TypeExpr)
    ensures WrapAll(dims + [size], base) == WrapAll(dims, Array(size, base))
    decreases |dims|
  {
    if dims != [] {
      WrapLast(dims[1..], size, base);
      assert (dims + [size])[1..] == dims[1..] + [size];
    } else {
      assert dims + [size] == [size] && [size][1..] == [];
    }
  }

  function Wrapped(dims: seq<Option<Expr>>, parsed: Parsed<TypeExpr>): Parsed<TypeExpr>
  {
    match parsed
    case Fail => Fail
    case Got(t, rest) => Got(WrapAll(dims, t), rest)
  }

  lemma WrappedMore(dims: seq<Option<Expr>>, size: Option<Expr>, parsed: Parsed<TypeExpr>)
    ensures Wrapped(dims + [size], parsed) ==
            Wrapped(dims, match parsed { case Fail => Fail case Got(t, rest) => Got(Array(size, t), rest) })
  {
    if parsed.Got? {
      WrapLast(dims, size, parsed.value);
    }
  }
}
