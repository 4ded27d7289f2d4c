/**
 * The converse of the round trip: where a guess at `<` comes out wrong, the tree does
 * not come back.  A parser that went astray has put other nodes above the same leftmost
 * part of the tree, and nothing it adds later can repair that.
 */
module Misreading {
  import opened Options
  import opened Syntax
  import opened Grammar
  import opened Printer
  import opened Speculation
  import opened ParserRoundTrip

  // ---------- the left spine of a tree ----------

  predicate HasLeft(e: Expr)
  {
    !e.Int? && !e.Const? && !e.Ident? && (e.Unary? ==> IsPostfix(e.unary))
  }

  /** The operand whose tokens come first. */
  function Left(e: Expr): (x: Expr)
    requires HasLeft(e)
    ensures Size(x) < Size(e)
  {
    match e
    case Unary(_, x) => x
    case Binary(_, x, _) => x
    case Assign(_, x, _) => x
    case Cast(x, _) => x
    case Subscript(x, _) => x
    case Call(f, _) => f
    case Member(x, _) => x
    case Inst(g, _) => g
  }

  predicate OnSpine(n: Expr, e: Expr)
    decreases Size(e)
  {
    n == e || (HasLeft(e) && OnSpine(n, Left(e)))
  }

  lemma {:induction false} SpineSize(n: Expr, e: Expr)
    requires OnSpine(n, e)
    ensures Size(n) <= Size(e)
    decreases Size(e)
  {
    if n != e {
      SpineSize(n, Left(e));
    }
  }

  lemma {:induction false} SpineGrows(a: Expr, b: Expr, c: Expr)
    requires OnSpine(a, b) && OnSpine(b, c)
    ensures OnSpine(a, c)
    decreases Size(c)
  {
    if b != c {
      SpineGrows(a, b, Left(c));
    }
  }

  lemma {:induction false} SpineIsLinear(a: Expr, b: Expr, c: Expr)
    requires OnSpine(a, c) && OnSpine(b, c)
    ensures OnSpine(a, b) || OnSpine(b, a)
    decreases Size(c)
  {
    if a != c && b != c {
      SpineIsLinear(a, b, Left(c));
    }
  }

  /** Neither can be the beginning of the other. */
  predicate Conflict(e: Expr, r: Expr) { !OnSpine(e, r) && !OnSpine(r, e) }

  lemma ConflictStays(e: Expr, r: Expr, bigger: Expr)
    requires Conflict(e, r) && OnSpine(r, bigger)
    ensures Conflict(e, bigger)
  {
    if OnSpine(e, bigger) {
      SpineIsLinear(e, r, bigger);
    }
    if OnSpine(bigger, e) {
      SpineGrows(r, bigger, e);
    }
  }

  lemma ConflictSpreads(x: Expr, e: Expr, r: Expr)
    requires Conflict(x, r) && OnSpine(x, e)
    ensures Conflict(e, r)
  {
    ConflictStays(r, x, e);
  }

  /** Two different nodes above one operand. */
  lemma Fork(e: Expr, n: Expr, r: Expr)
    requires HasLeft(e) && HasLeft(n) && Left(e) == Left(n) && e != n && OnSpine(n, r)
    ensures Conflict(e, r)
  {
    if OnSpine(e, n) {
      SpineSize(e, Left(n));
    }
    if OnSpine(n, e) {
      SpineSize(n, Left(e));
    }
    ConflictStays(e, n, r);
  }

  // ---------- what the loops of the parser add ----------

  lemma {:induction false} TailGrows(l: nat, e: Expr, ts: seq<Token>)
    requires l <= ATOM
    ensures TailAt(l, e, ts).Got? ==> OnSpine(e, TailAt(l, e, ts).value)
    decreases |ts|, 2
  {
    if TailAt(l, e, ts).Fail? || ts == [] {
    } else if 0 < l < CAST && OpAt(l, ts[0]).Some? {
      var right := ParseLevel(l + 1, ts[1..]);
      var node := Binary(OpAt(l, ts[0]).value, e, right.value);
      TailGrows(l, node, right.rest);
      SpineGrows(e, node, TailAt(l, e, ts).value);
    } else if l == CAST && ts[0] == As {
      var right := ParseType(ts[1..]);
      TailGrows(l, Cast(e, right.value), right.rest);
      SpineGrows(e, Cast(e, right.value), TailAt(l, e, ts).value);
    } else if l == POSTFIX {
      PostfixGrows(e, ts);
    }
  }

  lemma {:induction false} PostfixGrows(e: Expr, ts: seq<Token>)
    requires ts != [] && PostfixTail(e, ts).Got?
    ensures OnSpine(e, PostfixTail(e, ts).value)
    decreases |ts|, 1
  {
    match ts[0]
    case PlusPlus => Grows(e, Unary(PostInc, e), ts, ts[1..]);
    case MinusMinus => Grows(e, Unary(PostDec, e), ts, ts[1..]);
    case Lt =>
      var args := ParseGenericInst(ts);
      if args.Got? {
        Grows(e, Inst(e, args.value), ts, args.rest);
      }
    case LBracket => BracketGrows(e, ts);
    case LParen => BracketGrows(e, ts);
    case Dot => Grows(e, Member(e, ts[1].name.id), ts, ts[2..]);
    case _ =>
  }

  lemma {:induction false} BracketGrows(e: Expr, ts: seq<Token>)
    requires ts != [] && (ts[0] == LBracket || ts[0] == LParen) && PostfixTail(e, ts).Got?
    ensures OnSpine(e, PostfixTail(e, ts).value)
    decreases |ts|, 0
  {
    if ts[0] == LBracket {
      var index := ParseExpr(ts[1..]);
      Grows(e, Subscript(e, index.value), ts, index.rest[1..]);
    } else {
      var args := ArgumentList(ts[1..]);
      Grows(e, Call(e, args.value), ts, args.rest[1..]);
    }
  }

  lemma {:induction false} Grows(e: Expr, node: Expr, ts: seq<Token>, rest: seq<Token>)
    requires |rest| < |ts| && HasLeft(node) && Left(node) == e && PostfixTail(e, ts) == PostfixTail(node, rest)
    ensures PostfixTail(e, ts).Got? ==> OnSpine(e, PostfixTail(e, ts).value)
    decreases |rest|, 3
  {
    if PostfixTail(node, rest).Got? {
      TailGrows(POSTFIX, node, rest);
      SpineGrows(e, node, PostfixTail(node, rest).value);
    }
  }

  // ---------- going astray ----------

  /**
   * No way back to e: the parse failed, or built something in conflict with e, or
   * stopped in front of the bracket of a generic instance, which only a rung above
   * the comparisons can do.
   */
  ghost predicate Astray(l: nat, p: Parsed<Expr>, e: Expr)
  {
    p.Got? ==> Conflict(e, p.value) || (l > OpLevel(Less) && StoppedShort(p, e))
  }

  ghost predicate StoppedShort(p: Parsed<Expr>, e: Expr)
    requires p.Got?
  {
    At(p.rest, Lt) && exists types :: OnSpine(Inst(p.value, types), e)
  }

  lemma AstrayIsOther(l: nat, p: Parsed<Expr>, e: Expr)
    requires Astray(l, p, e) && p.Got?
    ensures p.value != e
  {
    if !Conflict(e, p.value) {
      var types :| OnSpine(Inst(p.value, types), e);
      SpineSize(Inst(p.value, types), e);
    }
  }

  lemma AstraySpreads(l: nat, p: Parsed<Expr>, x: Expr, e: Expr)
    requires Astray(l, p, x) && OnSpine(x, e)
    ensures Astray(l, p, e)
  {
    if p.Got? {
      if Conflict(x, p.value) {
        ConflictSpreads(x, e, p.value);
      } else {
        var types :| OnSpine(Inst(p.value, types), x);
        SpineGrows(Inst(p.value, types), x, e);
      }
    }
  }

  /** One rung down nothing is repaired, and comparisons do not stop at `<`. */
  lemma AstrayBelow(l: nat, p: Parsed<Expr>, e: Expr)
    requires l < POSTFIX && Astray(l + 1, p, e)
    ensures p.Got? ==> Astray(l, TailAt(l, p.value, p.rest), e)
  {
    if p.Got? {
      var next := TailAt(l, p.value, p.rest);
      TailGrows(l, p.value, p.rest);
      if Conflict(e, p.value) && next.Got? {
        ConflictStays(e, p.value, next.value);
      } else if !Conflict(e, p.value) {
        var types :| OnSpine(Inst(p.value, types), e);
        if l == OpLevel(Less) && next.Got? {
          var right := ParseLevel(l + 1, p.rest[1..]);
          var node := Binary(Less, p.value, right.value);
          TailGrows(l, node, right.rest);
          Fork(Inst(p.value, types), node, next.value);
          ConflictSpreads(Inst(p.value, types), e, next.value);
        } else {
          assert next.Got? ==> next == p;
        }
      }
    }
  }

  lemma {:induction false} Climb(l: nat, m: nat, ts: seq<Token>, e: Expr)
    requires l <= m <= POSTFIX && (l <= PREFIX < m ==> !AtPrefix(ts)) && Astray(m, ParseAt(m, ts), e)
    ensures Astray(l, ParseAt(l, ts), e)
    decreases m - l
  {
    if l < m {
      Climb(l + 1, m, ts, e);
      AstrayBelow(l, ParseAt(l + 1, ts), e);
      Rung(l, ts);
    }
  }

  /** From a node in the result to a node in the result of every lower rung. */
  lemma {:induction false} Carry(l: nat, m: nat, ts: seq<Token>, n: Expr)
    requires l <= m <= ATOM && (l <= PREFIX < m ==> !AtPrefix(ts))
    requires ParseAt(m, ts).Got? ==> OnSpine(n, ParseAt(m, ts).value)
    ensures ParseAt(l, ts).Got? ==> ParseAt(m, ts).Got? && OnSpine(n, ParseAt(l, ts).value)
    decreases m - l
  {
    if l < m {
      Carry(l + 1, m, ts, n);
      Rung(l, ts);
      var p := ParseAt(l + 1, ts);
      if p.Got? {
        TailGrows(l, p.value, p.rest);
        if ParseAt(l, ts).Got? {
          SpineGrows(n, p.value, ParseAt(l, ts).value);
        }
      }
    }
  }

  // ---------- types that are read wrongly ----------

  /** The types under dimensions and arguments. */
  predicate OnBase(n: TypeExpr, t: TypeExpr)
    decreases TypeSize(t)
  {
    n == t || ((t.Array? || t.Apply?) && OnBase(n, t.base))
  }

  lemma {:induction false} BaseSize(n: TypeExpr, t: TypeExpr)
    requires OnBase(n, t)
    ensures TypeSize(n) <= TypeSize(t)
    decreases TypeSize(t)
  {
    if n != t {
      BaseSize(n, t.base);
    }
  }

  lemma {:induction false} BaseGrows(a: TypeExpr, b: TypeExpr, c: TypeExpr)
    requires OnBase(a, b) && OnBase(b, c)
    ensures OnBase(a, c)
    decreases TypeSize(c)
  {
    if b != c {
      BaseGrows(a, b, c.base);
    }
  }

  lemma {:induction false} InnermostOnBase(t: TypeExpr)
    ensures OnBase(Innermost(t), t)
    decreases TypeSize(t)
  {
    if t.Array? {
      InnermostOnBase(t.base);
    }
  }

  /** Not t, and nothing that more arguments or, for other types than arrays, more dimensions turn into t. */
  ghost predicate Other(t: TypeExpr, r: TypeExpr)
  {
    if t.Array? then r != t && forall args :: !OnBase(Apply(t, args), r) else !OnBase(t, r)
  }

  ghost predicate LostType(t: TypeExpr, p: Parsed<TypeExpr>) { p.Got? ==> Other(t, p.value) }

  lemma {:induction false} DimensionsKeep(base: TypeExpr, b: TypeExpr, ts: seq<Token>)
    requires !OnBase(base, b) && !base.Array?
    ensures Dimensions(b, ts).Got? ==> !OnBase(base, Dimensions(b, ts).value)
    decreases |ts|
  {
    if At(ts, LBracket) {
      if At(ts[1..], RBracket) {
        DimensionsKeep(base, b, ts[2..]);
      } else if ParseExpr(ts[1..]).Got? && At(ParseExpr(ts[1..]).rest, RBracket) {
        DimensionsKeep(base, b, ParseExpr(ts[1..]).rest[1..]);
      }
    }
  }

  lemma {:induction false} StarsOrNothing(t: TypeExpr, ts: seq<Token>)
    ensures PointerSuffix(t, ts).value == t || PointerSuffix(t, ts).value.Pointer?
    decreases |ts|
  {
    if At(ts, Star) {
      StarsOrNothing(Pointer(t), ts[1..]);
    }
  }

  /** Dimensions and stars after a base that was read wrongly. */
  lemma SuffixesKeep(base: TypeExpr, b: TypeExpr, ts: seq<Token>)
    requires !OnBase(base, b) && !base.Array?
    ensures Suffixes(b, ts).Got? ==> Suffixes(b, ts).value.Pointer? || !OnBase(base, Suffixes(b, ts).value)
  {
    DimensionsKeep(base, b, ts);
    if Dimensions(b, ts).Got? {
      StarsOrNothing(Dimensions(b, ts).value, Dimensions(b, ts).rest);
    }
  }

  // ---------- the converse, form by form ----------

  lemma MisreadParens(l: nat, e: Expr, rest: seq<Token>)
    requires l <= POSTFIX && Astray(0, ParseExpr(Bare(e) + ([RParen] + rest)), e)
    ensures Astray(l, ParseAt(l, Paren(Bare(e)) + rest), e)
  {
    var ts := Paren(Bare(e)) + rest;
    Parens(Bare(e), rest);
    var p := ParsePrimary(ts);
    Rung(POSTFIX, ts);
    if p.Got? {
      TailGrows(POSTFIX, p.value, p.rest);
      if ParsePostfix(ts).Got? {
        ConflictStays(e, p.value, ParsePostfix(ts).value);
      }
    }
    Climb(l, POSTFIX, ts, e);
  }

  lemma {:induction false} Misread(l: nat, e: Expr, rest: seq<Token>)
    requires l <= POSTFIX && Printable(e) && !Clear(l, e, rest)
    requires Level(e) >= l && EndsInCast(e) ==> TypeStops(rest)
    ensures Astray(l, ParseAt(l, Print(l, e) + rest), e)
    decreases Size(e), if l > Level(e) then 30 else 1
  {
    if l > Level(e) {
      Misread(0, e, [RParen] + rest);
      MisreadParens(l, e, rest);
    } else {
      MisreadForm(e, rest);
      Head(Level(e), e);
      Climb(l, Level(e), Bare(e) + rest, e);
    }
  }

  lemma {:induction false} MisreadForm(e: Expr, rest: seq<Token>)
    requires Printable(e) && !ClearForm(e, rest) && (EndsInCast(e) ==> TypeStops(rest))
    ensures Level(e) <= POSTFIX && Astray(Level(e), ParseAt(Level(e), Bare(e) + rest), e)
    decreases Size(e), 0, 1
  {
    match e
    case Unary(op, x) => MisreadUnary(op, x, rest);
    case Binary(op, x, y) => MisreadBinary(op, x, y, rest);
    case Assign(op, x, y) => MisreadAssign(op, x, y, rest);
    case Cast(x, t) => MisreadCast(x, t, rest);
    case Subscript(_, _) => MisreadPostfix(e, rest);
    case Call(_, _) => MisreadPostfix(e, rest);
    case Member(_, _) => MisreadPostfix(e, rest);
    case Inst(_, _) => MisreadPostfix(e, rest);
  }

  lemma {:induction false} MisreadUnary(op: UnaryOp, x: Expr, rest: seq<Token>)
    requires Printable(x) && !ClearForm(Unary(op, x), rest)
    ensures var e := Unary(op, x);
            Astray(Level(e), ParseAt(Level(e), Bare(e) + rest), e)
    decreases Size(x), 50
  {
    var ts := Bare(Unary(op, x)) + rest;
    Printed(op, x, rest);
    if IsPostfix(op) {
      Misread(POSTFIX, x, [UnaryToken(op)] + rest);
      AstraySpreads(POSTFIX, ParsePostfix(ts), x, Unary(op, x));
    } else {
      Misread(PREFIX, x, rest);
      OtherOperand(ParseUnary(ts[1..]), x);
      MisreadOperand(op, x, ts);
    }
  }

  lemma OtherOperand(p: Parsed<Expr>, x: Expr)
    requires Astray(PREFIX, p, x)
    ensures p.Got? ==> p.value != x
  {
    if p.Got? {
      AstrayIsOther(PREFIX, p, x);
    }
  }

  lemma MisreadOperand(op: UnaryOp, x: Expr, ts: seq<Token>)
    requires !IsPostfix(op) && At(ts, UnaryToken(op))
    requires ParseUnary(ts[1..]).Got? ==> ParseUnary(ts[1..]).value != x
    ensures Astray(PREFIX, ParseUnary(ts), Unary(op, x))
  {
    assert ParseUnary(ts).Got? ==> ParseUnary(ts).value == Unary(op, ParseUnary(ts[1..]).value);
  }

  lemma {:induction false} MisreadBinary(op: BinaryOp, x: Expr, y: Expr, rest: seq<Token>)
    requires var e := Binary(op, x, y);
             Printable(e) && !ClearForm(e, rest) && (EndsInCast(e) ==> TypeStops(rest))
    ensures var e := Binary(op, x, y);
            Astray(OpLevel(op), ParseAt(OpLevel(op), Bare(e) + rest), e)
    decreases Size(x) + Size(y), 50
  {
    var l, e := OpLevel(op), Binary(op, x, y);
    var right := Print(l + 1, y);
    var after := [BinaryToken(op)] + (right + rest);
    var ts := Bare(e) + rest;
    BinaryPrinted(op, x, y, rest);
    if !ClearLeft(op, x, after) {
      MisreadLeft(op, x, after);
      AstraySpreads(l, ParseAt(l, ts), x, e);
    } else if op == Less && ParseGenericInst(after).Got? {
      OverrunLeft(x, y, after);
    } else {
      LeftRoundTrip(op, x, right + rest);
      Misread(l + 1, y, rest);
      MisreadRight(op, x, y, after);
    }
  }

  lemma MisreadRight(op: BinaryOp, x: Expr, y: Expr, after: seq<Token>)
    requires At(after, BinaryToken(op)) && Astray(OpLevel(op) + 1, ParseLevel(OpLevel(op) + 1, after[1..]), y)
    ensures Astray(OpLevel(op), LeftAssoc(OpLevel(op), x, after), Binary(op, x, y))
  {
    var l := OpLevel(op);
    var p := ParseLevel(l + 1, after[1..]);
    if p.Got? {
      AstrayIsOther(l + 1, p, y);
      TailGrows(l, Binary(op, x, p.value), p.rest);
      if LeftAssoc(l, x, after).Got? {
        Fork(Binary(op, x, y), Binary(op, x, p.value), LeftAssoc(l, x, after).value);
      }
    }
  }

  lemma {:induction false} MisreadLeft(op: BinaryOp, x: Expr, rest: seq<Token>)
    requires Printable(x) && At(rest, BinaryToken(op)) && !ClearLeft(op, x, rest)
    ensures Astray(OpLevel(op), ParseAt(OpLevel(op), PrintLeft(op, x) + rest), x)
    decreases Size(x), 40
  {
    if CastSwallows(op, x) || Level(x) < OpLevel(op) {
      Misread(0, x, [RParen] + rest);
      MisreadParens(OpLevel(op), x, rest);
    } else {
      Misread(OpLevel(op), x, rest);
    }
  }

  /** The guess at `<` behind x succeeded: x became the generic of an instance, or part of something else. */
  ghost predicate Over(p: Parsed<Expr>, x: Expr)
  {
    p.Got? ==> Conflict(x, p.value) || exists args :: OnSpine(Inst(x, args), p.value)
  }

  lemma OverIsAstray(l: nat, p: Parsed<Expr>, x: Expr, y: Expr)
    requires Over(p, x)
    ensures Astray(l, p, Binary(Less, x, y)) && (p.Got? ==> p.value != x)
  {
    if p.Got? {
      if Conflict(x, p.value) {
        ConflictSpreads(x, Binary(Less, x, y), p.value);
      } else {
        var args :| OnSpine(Inst(x, args), p.value);
        Fork(Binary(Less, x, y), Inst(x, args), p.value);
        SpineSize(Inst(x, args), p.value);
      }
    }
  }

  lemma {:induction false} OverrunLeft(x: Expr, y: Expr, after: seq<Token>)
    requires Printable(x) && ClearLeft(Less, x, after) && At(after, Lt) && ParseGenericInst(after).Got?
    ensures Astray(OpLevel(Less), ParseAt(OpLevel(Less), PrintLeft(Less, x) + after), Binary(Less, x, y))
    decreases Size(x), 70
  {
    var l, parens := OpLevel(Less), CastSwallows(Less, x) || Level(x) < OpLevel(Less);
    Overrun(parens, l, x, after);
    assert PrintLeft(Less, x) == if parens then Paren(Bare(x)) else Bare(x);
    OverIsAstray(l, ParseAt(l, PrintLeft(Less, x) + after), x, y);
  }

  lemma OverrunPostfix(l: nat, x: Expr, ts: seq<Token>, after: seq<Token>)
    requires l <= POSTFIX && !AtPrefix(ts) && ParsePostfix(ts) == PostfixTail(x, after)
    requires At(after, Lt) && ParseGenericInst(after).Got?
    ensures Over(ParseAt(l, ts), x)
  {
    var args := ParseGenericInst(after);
    var inst := Inst(x, args.value);
    assert ParsePostfix(ts) == PostfixTail(inst, args.rest);
    TailGrows(POSTFIX, inst, args.rest);
    Carry(l, POSTFIX, ts, inst);
  }

  lemma OverrunParen(l: nat, x: Expr, after: seq<Token>)
    requires l <= POSTFIX && Printable(x) && ClearForm(x, Behind(true, after))
    requires At(after, Lt) && ParseGenericInst(after).Got?
    ensures Over(ParseAt(l, Paren(Bare(x)) + after), x)
  {
    RoundTripInParens(POSTFIX, x, after);
    OverrunPostfix(l, x, Paren(Bare(x)) + after, after);
  }

  /** Also when x ends in the operand that the guess takes away. */
  lemma {:induction false} Overrun(parens: bool, l: nat, x: Expr, after: seq<Token>)
    requires OpLevel(Less) <= l <= POSTFIX && Printable(x) && ClearForm(x, Behind(parens, after))
    requires !parens ==> l <= Level(x) && !EndsInCast(x)
    requires At(after, Lt) && ParseGenericInst(after).Got?
    ensures Over(ParseAt(l, (if parens then Paren(Bare(x)) else Bare(x)) + after), x)
    decreases Size(x), 60
  {
    if parens {
      OverrunParen(l, x, after);
    } else if Level(x) >= POSTFIX {
      ExprRoundTrip(POSTFIX, x, after);
      Head(POSTFIX, x);
      OverrunPostfix(l, x, Bare(x) + after, after);
    } else {
      match x
      case Unary(op, z) => OverrunPrefix(l, op, z, after);
      case Binary(op, w, z) => OverrunBinary(l, op, w, z, after);
    }
  }

  lemma {:induction false} OverrunPrefix(l: nat, op: UnaryOp, z: Expr, after: seq<Token>)
    requires OpLevel(Less) <= l <= PREFIX && !IsPostfix(op) && Printable(z) && ClearForm(Unary(op, z), after)
    requires At(after, Lt) && ParseGenericInst(after).Got?
    ensures Over(ParseAt(l, Bare(Unary(op, z)) + after), Unary(op, z))
    decreases Size(z), 70
  {
    var ts := Bare(Unary(op, z)) + after;
    Overrun(Level(z) < PREFIX, PREFIX, z, after);
    Printed(op, z, after);
    var p := ParseUnary(ts[1..]);
    OverIsAstray(PREFIX, p, z, z);
    if ParseAt(l, ts).Got? {
      var node := if p.Got? then Unary(op, p.value) else z;
      Carry(l, PREFIX, ts, node);
      ConflictStays(Unary(op, z), node, ParseAt(l, ts).value);
    }
  }

  lemma {:induction false} OverrunBinary(l: nat, op: BinaryOp, w: Expr, z: Expr, after: seq<Token>)
    requires var x := Binary(op, w, z);
             OpLevel(Less) <= l <= OpLevel(op) && Printable(x) && ClearForm(x, after) && !EndsInCast(x)
    requires At(after, Lt) && ParseGenericInst(after).Got?
    ensures Over(ParseAt(l, Bare(Binary(op, w, z)) + after), Binary(op, w, z))
    decreases Size(w) + Size(z), 70
  {
    var m, x := OpLevel(op), Binary(op, w, z);
    var right := Print(m + 1, z);
    var tail := [BinaryToken(op)] + (right + after);
    var ts := Bare(x) + after;
    BinaryPrinted(op, w, z, after);
    LeftRoundTrip(op, w, right + after);
    Overrun(Level(z) < m + 1, m + 1, z, after);
    var node := OverrunRight(op, w, z, tail);
    Carry(l, m, ts, node);
    if ParseAt(l, ts).Got? {
      ConflictStays(x, node, ParseAt(l, ts).value);
    }
  }

  lemma OverrunRight(op: BinaryOp, w: Expr, z: Expr, tail: seq<Token>) returns (node: Expr)
    requires At(tail, BinaryToken(op)) && Over(ParseLevel(OpLevel(op) + 1, tail[1..]), z)
    ensures LeftAssoc(OpLevel(op), w, tail).Got? ==>
              OnSpine(node, LeftAssoc(OpLevel(op), w, tail).value) && Conflict(Binary(op, w, z), node)
  {
    var m := OpLevel(op);
    var p := ParseLevel(m + 1, tail[1..]);
    node := w;
    if p.Got? {
      OverIsAstray(m + 1, p, z, z);
      node := Binary(op, w, p.value);
      TailGrows(m, node, p.rest);
      Fork(Binary(op, w, z), node, node);
    }
  }

  lemma {:induction false} MisreadAssign(op: AssignOp, x: Expr, y: Expr, rest: seq<Token>)
    requires var e := Assign(op, x, y);
             Printable(e) && !ClearForm(e, rest) && (EndsInCast(e) ==> TypeStops(rest))
    ensures Astray(0, ParseExpr(Bare(Assign(op, x, y)) + rest), Assign(op, x, y))
    decreases Size(x) + Size(y), 50
  {
    var e, right := Assign(op, x, y), Print(0, y);
    var after := [AssignToken(op)] + (right + rest);
    var ts := Print(LOWEST, x) + after;
    assert Bare(e) + rest == ts && after[1..] == right + rest;
    if !Clear(LOWEST, x, after) {
      Misread(LOWEST, x, after);
      Climb(0, LOWEST, ts, x);
      AstraySpreads(0, ParseExpr(ts), x, e);
    } else {
      ExprRoundTrip(LOWEST, x, after);
      Done(0, LOWEST, x, after);
      Rung(0, ts);
      Misread(0, y, rest);
      var p := ParseExpr(after[1..]);
      if p.Got? {
        AstrayIsOther(0, p, y);
        Fork(e, Assign(op, x, p.value), Assign(op, x, p.value));
      }
    }
  }

  lemma {:induction false} MisreadCast(x: Expr, t: TypeExpr, rest: seq<Token>)
    requires Printable(Cast(x, t)) && !ClearForm(Cast(x, t), rest) && TypeStops(rest)
    ensures Astray(CAST, ParseAt(CAST, Bare(Cast(x, t)) + rest), Cast(x, t))
    decreases Size(x) + TypeSize(t), 50
  {
    var e, right := Cast(x, t), PrintType(t);
    var after := [As] + (right + rest);
    var ts := Print(CAST, x) + after;
    assert Bare(e) + rest == ts && after[1..] == right + rest;
    if !Clear(CAST, x, after) {
      Misread(CAST, x, after);
      AstraySpreads(CAST, ParseAt(CAST, ts), x, e);
    } else {
      ExprRoundTrip(CAST, x, after);
      MisreadType(t, rest);
      var p := ParseType(after[1..]);
      if p.Got? {
        assert OnBase(t, t);
        TailGrows(CAST, Cast(x, p.value), p.rest);
        if CastTail(x, after).Got? {
          Fork(e, Cast(x, p.value), CastTail(x, after).value);
        }
      }
    }
  }

  lemma {:induction false} MisreadPostfix(e: Expr, rest: seq<Token>)
    requires Printable(e) && !ClearForm(e, rest) && (e.Subscript? || e.Call? || e.Member? || e.Inst?)
    ensures Astray(POSTFIX, ParsePostfix(Bare(e) + rest), e)
    decreases Size(e), 0, 0
  {
    var x, after := Left(e), PostfixAfter(e, rest);
    PostfixPrinted(e, rest);
    if !Clear(POSTFIX, x, after) {
      Misread(POSTFIX, x, after);
      AstraySpreads(POSTFIX, ParsePostfix(Print(POSTFIX, x) + after), x, e);
    } else {
      ExprRoundTrip(POSTFIX, x, after);
      match e
      case Subscript(_, i) =>
        Misread(0, i, [RBracket] + rest);
        Drop(LBracket, Print(0, i) + ([RBracket] + rest));
        MisreadIndex(x, i, after);
      case Call(_, args) =>
        MisreadArgs(args, rest);
        Drop(LParen, PrintArgs(args) + ([RParen] + rest));
        MisreadCall(x, args, after);
      case Inst(_, types) =>
        MisreadInst(x, types, rest);
    }
  }

  /** The tokens of a subscript, call, member or instance behind its first operand. */
  function PostfixAfter(e: Expr, rest: seq<Token>): seq<Token>
    requires e.Subscript? || e.Call? || e.Member? || e.Inst?
  {
    match e
    case Subscript(_, i) => [LBracket] + (Print(0, i) + ([RBracket] + rest))
    case Call(_, args) => [LParen] + (PrintArgs(args) + ([RParen] + rest))
    case Member(_, m) => [Dot, Word(Identifier(m))] + rest
    case Inst(_, types) => [Lt] + (PrintTypes(types) + ([Gt] + rest))
  }

  lemma PostfixPrinted(e: Expr, rest: seq<Token>)
    requires e.Subscript? || e.Call? || e.Member? || e.Inst?
    ensures Bare(e) + rest == Print(POSTFIX, Left(e)) + PostfixAfter(e, rest)
  {
    var first := Print(POSTFIX, Left(e));
    match e
    case Subscript(_, i) => Regroup(first, [LBracket], Print(0, i), [RBracket], rest);
    case Call(_, args) => Regroup(first, [LParen], PrintArgs(args), [RParen], rest);
    case Member(_, m) => Join(first, [Dot, Word(Identifier(m))], rest);
    case Inst(_, types) => Regroup(first, [Lt], PrintTypes(types), [Gt], rest);
  }

  lemma MisreadIndex(x: Expr, i: Expr, after: seq<Token>)
    requires At(after, LBracket) && Astray(0, ParseExpr(after[1..]), i)
    ensures Astray(POSTFIX, PostfixTail(x, after), Subscript(x, i))
  {
    var p := ParseExpr(after[1..]);
    if PostfixTail(x, after).Got? {
      AstrayIsOther(0, p, i);
      TailGrows(POSTFIX, Subscript(x, p.value), p.rest[1..]);
      Fork(Subscript(x, i), Subscript(x, p.value), PostfixTail(x, after).value);
    }
  }

  lemma MisreadCall(f: Expr, args: seq<Expr>, after: seq<Token>)
    requires At(after, LParen) && (ArgumentList(after[1..]).Got? ==> ArgumentList(after[1..]).value != args)
    ensures Astray(POSTFIX, PostfixTail(f, after), Call(f, args))
  {
    var p := ArgumentList(after[1..]);
    if PostfixTail(f, after).Got? {
      TailGrows(POSTFIX, Call(f, p.value), p.rest[1..]);
      Fork(Call(f, args), Call(f, p.value), PostfixTail(f, after).value);
    }
  }

  lemma {:induction false} MisreadInst(g: Expr, types: seq<TypeExpr>, rest: seq<Token>)
    requires types != [] && AllPrintableTypes(types) && !(ClearTypes(types, Gt, rest) && Confirms(rest))
    ensures Astray(POSTFIX, PostfixTail(g, [Lt] + (PrintTypes(types) + ([Gt] + rest))), Inst(g, types))
    decreases TypeSizeAll(types), 50
  {
    var after := [Lt] + (PrintTypes(types) + ([Gt] + rest));
    Drop(Lt, PrintTypes(types) + ([Gt] + rest));
    if ClearTypes(types, Gt, rest) {
      TypeArgumentsRoundTrip(types, rest);
    } else {
      MisreadTypes(types, Gt, rest);
    }
    MisreadBracket(g, types, after);
  }

  lemma MisreadBracket(g: Expr, types: seq<TypeExpr>, after: seq<Token>)
    requires At(after, Lt) && (ParseGenericInst(after).Got? ==> ParseGenericInst(after).value != types)
    ensures Astray(POSTFIX, PostfixTail(g, after), Inst(g, types))
  {
    var e, p := Inst(g, types), ParseGenericInst(after);
    if p.Got? {
      TailGrows(POSTFIX, Inst(g, p.value), p.rest);
      if PostfixTail(g, after).Got? {
        Fork(e, Inst(g, p.value), PostfixTail(g, after).value);
      }
    } else {
      assert OnSpine(Inst(g, types), e);
    }
  }

  lemma {:induction false} MisreadArgs(es: seq<Expr>, rest: seq<Token>)
    requires AllPrintable(es) && !ClearArgs(es, rest)
    ensures var p := Arguments(PrintArgs(es) + ([RParen] + rest));
            ArgumentList(PrintArgs(es) + ([RParen] + rest)) == p && (p.Got? ==> p.value != es)
    decreases SizeAll(es), 2
  {
    var end, more := [RParen] + rest, es[1..];
    var tail := PrintMoreArgs(more) + end;
    var ts := PrintArgs(es) + end;
    ArgsPrinted(es, end);
    ArgsHead(es, end);
    ListStops(PrintMoreArgs(more), RParen, rest);
    if !Clear(0, es[0], tail) {
      Misread(0, es[0], tail);
      if ParseExpr(ts).Got? {
        AstrayIsOther(0, ParseExpr(ts), es[0]);
      }
      FirstArgument(es, ts);
    } else {
      ExprRoundTrip(0, es[0], tail);
      Done(-1, 0, es[0], tail);
      MisreadArgs(more, rest);
      ArgsHead(more, end);
      MoreArguments(es, ts, tail);
    }
  }

  lemma FirstArgument(es: seq<Expr>, ts: seq<Token>)
    requires es != [] && (ParseExpr(ts).Got? ==> ParseExpr(ts).value != es[0])
    ensures Arguments(ts).Got? ==> Arguments(ts).value != es
  {
    assert Arguments(ts).Got? ==> Arguments(ts).value[0] == ParseExpr(ts).value;
  }

  lemma MoreArguments(es: seq<Expr>, ts: seq<Token>, after: seq<Token>)
    requires es != [] && ParseExpr(ts) == Got(es[0], after) && At(after, Comma) && !At(after[1..], RParen)
    requires Arguments(after[1..]).Got? ==> Arguments(after[1..]).value != es[1..]
    ensures Arguments(ts).Got? ==> Arguments(ts).value != es
  {
    assert Arguments(ts).Got? ==> Arguments(ts).value[1..] == Arguments(after[1..]).value;
  }

  // ---------- types ----------

  lemma {:induction false} MisreadType(t: TypeExpr, rest: seq<Token>)
    requires PrintableType(t) && TypeStops(rest) && !ClearType(t, rest)
    ensures LostType(t, ParseType(PrintType(t) + rest))
    decreases TypeSize(t), 2
  {
    match t
    case Pointer(x) =>
      MisreadType(x, rest);
      Join([Star], PrintType(x), rest);
      Drop(Star, PrintType(x) + rest);
      MisreadPointer(x, PrintType(t) + rest);
    case Array(_, _) => MisreadArray(t, rest);
    case Func(ps, Some(r)) => MisreadReturn(ps, r, rest);
    case Func(_, None) => MisreadSuffixed(t, rest);
    case Apply(_, _) => MisreadSuffixed(t, rest);
  }

  lemma MisreadPointer(x: TypeExpr, ts: seq<Token>)
    requires At(ts, Star) && LostType(x, ParseType(ts[1..]))
    ensures LostType(Pointer(x), ParseType(ts))
  {
    assert OnBase(x, x);
  }

  lemma {:induction false} MisreadSuffixed(t: TypeExpr, rest: seq<Token>)
    requires PrintableType(t) && !ClearType(t, rest) && (t.Apply? || (t.Func? && t.ret.None?))
    ensures LostType(t, ParseType(PrintType(t) + rest))
    decreases TypeSize(t), 1, 1
  {
    var b, after := MisreadBase(t, rest);
    TypeHead(t);
    assert PrintType(t) == PrintBase(t);
    if ParseType(PrintType(t) + rest).Got? {
      SuffixesKeep(t, b, after);
    }
  }

  lemma {:induction false} MisreadReturn(ps: seq<TypeExpr>, r: TypeExpr, rest: seq<Token>)
    requires var t := Func(ps, Some(r));
             PrintableType(t) && TypeStops(rest) && !ClearType(t, rest)
    ensures LostType(Func(ps, Some(r)), ParseType(PrintType(Func(ps, Some(r))) + rest))
    decreases TypeSizeAll(ps) + TypeSize(r), 8
  {
    var t := Func(ps, Some(r));
    var after := [Arrow] + (PrintType(r) + rest);
    var ts := [Fn, LParen] + PrintTypes(ps) + [RParen] + after;
    assert PrintType(t) + rest == ts;
    if !ClearTypes(ps, RParen, after) {
      MisreadFunction(ps, after);
    } else {
      FunctionRoundTrip(ps, after);
      Drop(Arrow, PrintType(r) + rest);
      MisreadType(r, rest);
      assert OnBase(r, r);
    }
    var p := ParseTypeAtom(ts);
    assert p.Got? ==> p.value.Func? && p.value != t;
    AtomThenSuffixes(t, ts);
  }

  /** A wrong atom, perhaps with arguments behind it, then dimensions and stars. */
  lemma AtomThenSuffixes(t: TypeExpr, ts: seq<Token>)
    requires !At(ts, Star) && t.Func?
    requires ParseTypeAtom(ts).Got? ==> ParseTypeAtom(ts).value.Func? && ParseTypeAtom(ts).value != t
    ensures LostType(t, ParseType(ts))
  {
    var p := ParseTypeAtom(ts);
    if p.Got? {
      if At(p.rest, Lt) {
        var args := TypeArguments(p.rest[1..]);
        if args.Got? {
          SuffixesKeep(t, Apply(p.value, args.value), args.rest);
        }
      } else {
        SuffixesKeep(t, p.value, p.rest);
      }
    }
  }

  lemma {:induction false} MisreadArray(t: TypeExpr, rest: seq<Token>)
    requires PrintableType(t) && t.Array? && TypeStops(rest) && !ClearType(t, rest)
    ensures LostType(t, ParseType(PrintType(t) + rest))
    decreases TypeSize(t), 1
  {
    var base, dims := Innermost(t), PrintDims(t);
    var ts := PrintBase(base) + (dims + rest);
    assert PrintType(t) + rest == ts;
    PrintableInside(t);
    TypeHead(base);
    InnermostOnBase(t);
    if !ClearBase(base, dims + rest) {
      var b, after := MisreadBase(base, dims + rest);
      if ParseType(ts).Got? {
        SuffixesKeep(base, b, after);
        NotUnder(t, base, ParseType(ts).value);
      }
    } else {
      BaseRoundTrip(base, dims + rest);
      MisreadDims(t, rest);
      var p := Dimensions(base, dims + rest);
      if p.Got? {
        DimensionsEnd(base, dims + rest);
        StarsOrNothing(p.value, p.rest);
        OtherDimensions(t, p.value);
      }
    }
  }

  lemma NotUnder(t: TypeExpr, base: TypeExpr, r: TypeExpr)
    requires t.Array? && OnBase(base, t) && (r.Pointer? || !OnBase(base, r))
    ensures Other(t, r)
  {
    forall args | OnBase(Apply(t, args), r)
      ensures false
    {
      assert OnBase(t, t);
      BaseGrows(t, Apply(t, args), r);
      BaseGrows(base, t, r);
    }
  }

  lemma {:induction false} DimensionsEnd(b: TypeExpr, ts: seq<Token>)
    requires !b.Array? && Dimensions(b, ts).Got?
    ensures Innermost(Dimensions(b, ts).value) == b
    decreases |ts|
  {
    if At(ts, LBracket) {
      DimensionsEnd(b, if At(ts[1..], RBracket) then ts[2..] else ParseExpr(ts[1..]).rest[1..]);
    }
  }

  lemma {:induction false} UnderDimensions(n: TypeExpr, t: TypeExpr)
    requires OnBase(n, t) && !n.Array?
    ensures OnBase(n, Innermost(t))
    decreases TypeSize(t)
  {
    if t.Array? {
      UnderDimensions(n, t.base);
    }
  }

  lemma OtherDimensions(t: TypeExpr, r: TypeExpr)
    requires t.Array? && r != t && Innermost(r) == Innermost(t)
    ensures Other(t, r)
  {
    forall args | OnBase(Apply(t, args), r)
      ensures false
    {
      UnderDimensions(Apply(t, args), r);
      BaseSize(Apply(t, args), Innermost(t));
    }
  }

  lemma {:induction false} MisreadDims(t: TypeExpr, rest: seq<Token>)
    requires PrintableType(t) && !ClearDims(t, rest)
    ensures var p := Dimensions(Innermost(t), PrintDims(t) + rest);
            p.Got? ==> p.value != t
    decreases TypeSize(t), 0
  {
    match t
    case Array(None, x) =>
      MisreadDims(x, rest);
      OpenPrinted(t, rest);
    case Array(Some(e), x) =>
      var after := [RBracket] + (PrintDims(x) + rest);
      var ts := PrintDims(t) + rest;
      SizePrinted(e, PrintDims(x), rest);
      if !Clear(0, e, after) {
        Misread(0, e, after);
        if ParseExpr(ts[1..]).Got? {
          AstrayIsOther(0, ParseExpr(ts[1..]), e);
        }
      } else {
        ExprRoundTrip(0, e, after);
        Done(-1, 0, e, after);
        MisreadDims(x, rest);
      }
  }

  /** A base that was read wrongly, and what follows it. */
  lemma {:induction false} MisreadBase(t: TypeExpr, rest: seq<Token>) returns (b: TypeExpr, after: seq<Token>)
    requires PrintableType(t) && !t.Array? && !ClearBase(t, rest)
    ensures var p := ParseSuffixed(PrintBase(t) + rest);
            p.Fail? || (p == Suffixes(b, after) && !OnBase(t, b))
    decreases TypeSize(t), if IsAtom(t) || t.Apply? then 1 else 4, 0
  {
    if t.Apply? {
      b, after := MisreadApply(t.base, t.typeArgs, rest);
    } else {
      MisreadAtom(t, rest);
      var p := ParseTypeAtom(PrintAtom(t) + rest);
      b, after := t, rest;
      if p.Got? {
        b, after := SuffixBase(p);
      }
    }
  }

  /** What the dimensions and stars are put around: the atom, or the atom with arguments. */
  lemma SuffixBase(p: Parsed<TypeExpr>) returns (b: TypeExpr, after: seq<Token>)
    requires p.Got?
    ensures At(p.rest, Lt) ==> (TypeArguments(p.rest[1..]).Fail?
                                || (b == Apply(p.value, TypeArguments(p.rest[1..]).value)
                                    && after == TypeArguments(p.rest[1..]).rest))
    ensures !At(p.rest, Lt) ==> b == p.value && after == p.rest
  {
    b, after := p.value, p.rest;
    if At(p.rest, Lt) && TypeArguments(p.rest[1..]).Got? {
      b, after := Apply(p.value, TypeArguments(p.rest[1..]).value), TypeArguments(p.rest[1..]).rest;
    }
  }

  lemma {:induction false} MisreadApply(c: TypeExpr, args: seq<TypeExpr>, rest: seq<Token>)
    returns (b: TypeExpr, after: seq<Token>)
    requires PrintableType(Apply(c, args)) && !ClearType(Apply(c, args), rest)
    ensures var p := ParseSuffixed(PrintBase(Apply(c, args)) + rest);
            p.Fail? || (p == Suffixes(b, after) && !OnBase(Apply(c, args), b))
    decreases TypeSize(c) + TypeSizeAll(args), 10
  {
    var t, behind := Apply(c, args), [Lt] + (PrintTypes(args) + ([Gt] + rest));
    var ts := PrintAtom(c) + behind;
    assert PrintBase(t) + rest == ts;
    var p := ParseTypeAtom(ts);
    if !ClearAtom(c, behind) {
      MisreadAtom(c, behind);
      b, after := t, rest;
      if p.Got? {
        b, after := SuffixBase(p);
        assert OnBase(c, c) && OnBase(c, t);
        if OnBase(t, p.value) {
          BaseGrows(c, t, p.value);
        }
      }
    } else {
      AtomRoundTrip(c, behind);
      Drop(Lt, PrintTypes(args) + ([Gt] + rest));
      MisreadTypes(args, Gt, rest);
      b, after := SuffixBase(p);
      if OnBase(t, c) {
        BaseSize(t, c);
      }
    }
  }

  lemma {:induction false} MisreadAtom(t: TypeExpr, rest: seq<Token>)
    requires PrintableType(t) && !ClearAtom(t, rest)
    ensures LostType(t, ParseTypeAtom(PrintAtom(t) + rest))
    decreases TypeSize(t), if IsAtom(t) then 0 else 3
  {
    if IsAtom(t) {
      MisreadFunction(t.params, rest);
    } else {
      MisreadType(t, [RParen] + rest);
      Parens(PrintType(t), rest);
      ParenType(t, PrintAtom(t) + rest);
    }
  }

  lemma ParenType(t: TypeExpr, ts: seq<Token>)
    requires At(ts, LParen) && LostType(t, ParseType(ts[1..]))
    ensures LostType(t, ParseTypeAtom(ts))
  {}

  lemma {:induction false} MisreadFunction(ps: seq<TypeExpr>, rest: seq<Token>)
    requires AllPrintableTypes(ps) && !ClearTypes(ps, RParen, rest)
    ensures var p := ParseTypeAtom([Fn, LParen] + PrintTypes(ps) + [RParen] + rest);
            p.Got? ==> p.value.Func? && p.value.params != ps
    decreases TypeSizeAll(ps), 5
  {
    var list := PrintTypes(ps) + ([RParen] + rest);
    assert [Fn, LParen] + PrintTypes(ps) + [RParen] + rest == [Fn] + ([LParen] + list);
    Drop(Fn, [LParen] + list);
    Drop(LParen, list);
    TypeHead(ps[0]);
    assert list[0] == PrintType(ps[0])[0];
    MisreadTypes(ps, RParen, rest);
    FunctionParts([Fn] + ([LParen] + list), list);
  }

  lemma FunctionParts(ts: seq<Token>, list: seq<Token>)
    requires At(ts, Fn) && At(ts[1..], LParen) && ts[1..][1..] == list && !At(list, RParen)
    ensures var p := ParseTypeAtom(ts);
            p.Got? ==> p.value.Func? && ParameterTypes(list).Got? && p.value.params == ParameterTypes(list).value
  {
    assert ts[1..][1..] == ts[2..];
    var p := ParameterTypes(ts[2..]);
    assert ParseTypeAtom(ts) == ParseFunctionType(ts);
    if p.Got? && At(p.rest, RParen) {
      assert ParseFunctionType(ts) == ReturnType(p.value, p.rest[1..]);
    }
  }

  lemma {:induction false} MisreadTypes(ts: seq<TypeExpr>, close: Token, rest: seq<Token>)
    requires AllPrintableTypes(ts) && (close == Gt || close == RParen) && !ClearTypes(ts, close, rest)
    ensures var list := PrintTypes(ts) + ([close] + rest);
            var p := if close == Gt then TypeArguments(list) else ParameterTypes(list);
            p.Got? ==> p.value != ts
    decreases TypeSizeAll(ts), 0
  {
    var end, more := [close] + rest, ts[1..];
    var tail := PrintMoreTypes(more) + end;
    var list := PrintTypes(ts) + end;
    TypesPrinted(ts, end);
    ListStops(PrintMoreTypes(more), close, rest);
    if !ClearType(ts[0], tail) {
      MisreadType(ts[0], tail);
      assert OnBase(ts[0], ts[0]);
      FirstType(ts, close, list);
    } else {
      TypeRoundTrip(ts[0], tail);
      MisreadTypes(more, close, rest);
      MoreTypes(ts, close, list, tail);
    }
  }

  lemma FirstType(ts: seq<TypeExpr>, close: Token, list: seq<Token>)
    requires ts != [] && (ParseType(list).Got? ==> ParseType(list).value != ts[0])
    ensures var p := if close == Gt then TypeArguments(list) else ParameterTypes(list);
            p.Got? ==> p.value != ts
  {
    var p := if close == Gt then TypeArguments(list) else ParameterTypes(list);
    assert p.Got? ==> p.value[0] == ParseType(list).value;
  }

  lemma MoreTypes(ts: seq<TypeExpr>, close: Token, list: seq<Token>, after: seq<Token>)
    requires ts != [] && ParseType(list) == Got(ts[0], after) && At(after, Comma)
    requires var p := if close == Gt then TypeArguments(after[1..]) else ParameterTypes(after[1..]);
             p.Got? ==> p.value != ts[1..]
    ensures var p := if close == Gt then TypeArguments(list) else ParameterTypes(list);
            p.Got? ==> p.value != ts
  {
    var p := if close == Gt then TypeArguments(list) else ParameterTypes(list);
    assert p.Got? ==> p.value[1..] == (if close == Gt then TypeArguments(after[1..])
                                       else ParameterTypes(after[1..])).value;
  }

  // ---------- the theorems ----------

  /**
   * The parser undoes the printer if and only if every guess at `<` comes out right:
   * for all trees, whatever closes the expression.
   */
  lemma RoundTripIff(e: Expr, rest: seq<Token>)
    requires Printable(e) && Closes(rest) && !At(rest, Gt)
    ensures ParseExpr(Print(0, e) + rest) == Got(e, rest) <==> Clear(0, e, rest)
  {
    if Clear(0, e, rest) {
      ExpressionRoundTrip(e, rest);
    } else {
      Misread(0, e, rest);
      if ParseExpr(Print(0, e) + rest).Got? {
        AstrayIsOther(0, ParseExpr(Print(0, e) + rest), e);
      }
    }
  }

  lemma TypeRoundTripIff(t: TypeExpr, rest: seq<Token>)
    requires PrintableType(t) && Closes(rest)
    ensures ParseType(PrintType(t) + rest) == Got(t, rest) <==> ClearType(t, rest)
  {
    if ClearType(t, rest) {
      TypePrintRoundTrip(t, rest);
    } else {
      MisreadType(t, rest);
      assert OnBase(t, t);
    }
  }

  // ---------- where the grammar is ambiguous ----------

  lemma One(t: TypeExpr, e: Expr)
    ensures PrintTypes([t]) == PrintType(t) && (PrintableType(t) ==> AllPrintableTypes([t]))
    ensures PrintArgs([e]) == Print(0, e) && (Printable(e) ==> AllPrintable([e]))
  {
    assert [t][1..] == [] && [e][1..] == [];
  }

  lemma PrintsLikeCall(a: Name, b: Name, e: Expr)
    requires StartsExpression(a) && Printable(e) && 0 < Level(e) <= OpLevel(Greater)
    ensures Bare(Call(Inst(Ident(a), [Named(b)]), [e])) == Bare(Binary(Greater, Binary(Less, Ident(a), Ident(b)), e))
  {
    var less, inst := Binary(Less, Ident(a), Ident(b)), Inst(Ident(a), [Named(b)]);
    PrintsLikeInst(a, b, e);
    PrintsGreater(less, e);
    assert Bare(Call(inst, [e])) == Bare(inst) + [LParen] + Bare(e) + [RParen];
  }

  lemma PrintsGreater(less: Expr, e: Expr)
    requires less.Binary? && less.op == Less && 0 < Level(e) <= OpLevel(Greater)
    ensures Bare(Binary(Greater, less, e)) == Bare(less) + [Gt] + Paren(Bare(e))
  {
    PrintParen(5, e);
    assert PrintLeft(Greater, less) == Bare(less) && OpLevel(Greater) == 4;
  }

  lemma PrintsLikeInst(a: Name, b: Name, e: Expr)
    ensures Bare(Inst(Ident(a), [Named(b)])) == Bare(Binary(Less, Ident(a), Ident(b))) + [Gt]
    ensures PrintArgs([e]) == Print(0, e)
  {
    One(Named(b), e);
    PrintName(a);
    PrintName(b);
    assert Bare(Binary(Less, Ident(a), Ident(b))) == PrintLeft(Less, Ident(a)) + [Lt] + [Word(b)];
    assert Bare(Inst(Ident(a), [Named(b)])) == [Word(a)] + [Lt] + PrintType(Named(b)) + [Gt];
  }

  /**
   * `a < b > (e)` as two comparisons prints exactly like a call of the generic instance
   * `a<b>`, and the parser takes it for the call.
   */
  lemma ComparisonReadAsCall(a: Name, b: Name, e: Expr)
    requires StartsExpression(a) && Printable(e) && Clear(0, e, [RParen]) && 0 < Level(e) <= OpLevel(Greater)
    ensures ParseExpr(Print(0, Binary(Greater, Binary(Less, Ident(a), Ident(b)), e)))
            == Got(Call(Inst(Ident(a), [Named(b)]), [e]), [])
  {
    var asCall := Call(Inst(Ident(a), [Named(b)]), [e]);
    PrintsLikeCall(a, b, e);
    One(Named(b), e);
    CallIsClear(a, b, e);
    ExpressionRoundTrip(asCall, []);
    assert Print(0, asCall) + [] == Print(0, asCall);
  }

  lemma CallIsClear(a: Name, b: Name, e: Expr)
    requires Clear(0, e, [RParen])
    ensures Clear(0, Call(Inst(Ident(a), [Named(b)]), [e]), [])
  {
    var inst := Inst(Ident(a), [Named(b)]);
    var types, args := [Named(b)], [e];
    assert types[1..] == [] && args[1..] == [];
    assert PrintMoreArgs([]) + ([RParen] + []) == [RParen];
    assert ClearArgs(args, []);
    var after := [LParen] + (PrintArgs(args) + ([RParen] + []));
    assert ClearType(Named(b), PrintMoreTypes([]) + ([Gt] + after)) && ClearTypes([], Gt, after);
    assert ClearTypes(types, Gt, after) && Confirms(after);
    assert Clear(POSTFIX, Ident(a), [Lt] + (PrintTypes(types) + ([Gt] + after)));
    assert ClearForm(inst, after);
  }

  lemma PrintParen(l: nat, e: Expr)
    requires Level(e) < l
    ensures Print(l, e) == Paren(Bare(e))
  {}

  lemma PrintName(n: Name)
    ensures Print(0, Ident(n)) == Print(5, Ident(n)) == Print(POSTFIX, Ident(n)) == PrintLeft(Less, Ident(n))
            == [Word(n)]
  {}

  /** `x as T * y` without parentheses: the star goes to the type and `y` is left over. */
  lemma CastTakesStar(x: Expr, n: Name, y: Token, rest: seq<Token>)
    requires Printable(x) && Clear(CAST, x, [As, Word(n), Star, y] + rest) && Level(x) >= CAST
    requires y.Word? || y.IntText? || y.Literal?
    ensures ParseExpr(Print(CAST, x) + [As, Word(n), Star, y] + rest) == Got(Cast(x, Pointer(Named(n))), [y] + rest)
  {
    var left := [y] + rest;
    var after := [As, Word(n), Star, y] + rest;
    CastTokens(n, y, rest);
    ExprRoundTrip(CAST, x, after);
    StarAfterName(n, left);
    assert CastTail(x, after) == CastTail(Cast(x, Pointer(Named(n))), left);
    DescendCast(0, Print(CAST, x) + after, Cast(x, Pointer(Named(n))), left);
    Join(Print(CAST, x), [As, Word(n), Star, y], rest);
  }

  /**
   * `x as T < ...` without parentheses: the `<` opens type arguments, so the comparison with `x as
   * T` never comes back.
   */
  lemma CastTakesLess(x: Expr, n: Name, y: Expr, more: seq<Token>)
    requires Printable(x) && Clear(CAST, x, [As, Word(n), Lt] + more) && Level(x) >= CAST
    ensures var r := ParseExpr(Print(CAST, x) + ([As, Word(n), Lt] + more));
            r.Got? ==> r.value != Binary(Less, Cast(x, Named(n)), y)
  {
    var after := [As, Word(n), Lt] + more;
    var ts, cast := Print(CAST, x) + after, Cast(x, Named(n));
    var t := ParseType(after[1..]);
    assert after[1..] == [Word(n)] + ([Lt] + more);
    LessAfterName(n, more);
    ExprRoundTrip(CAST, x, after);
    assert t.Got? ==> CastTail(x, after) == CastTail(Cast(x, t.value), t.rest);
    var node := if t.Got? then Cast(x, t.value) else x;
    if t.Got? {
      TailGrows(CAST, node, t.rest);
    }
    Carry(0, CAST, ts, node);
    if ParseExpr(ts).Got? {
      Fork(cast, node, ParseExpr(ts).value);
      assert Left(Binary(Less, cast, y)) == cast && OnSpine(cast, Binary(Less, cast, y));
    }
  }

  lemma LessAfterName(n: Name, more: seq<Token>)
    ensures var r := ParseType([Word(n)] + ([Lt] + more)); r.Got? ==> !r.value.Named?
  {
    var ts := [Word(n)] + ([Lt] + more);
    NamedCase(n, [Lt] + more);
    Drop(Lt, more);
    var args := TypeArguments(more);
    if args.Got? {
      SuffixesBuild(Apply(Named(n), args.value), args.rest);
    }
  }

  /** A suffix makes an array or a pointer of a type, or leaves it as it is. */
  lemma SuffixesBuild(base: TypeExpr, ts: seq<Token>)
    requires !base.Named?
    ensures Suffixes(base, ts).Got? ==> !Suffixes(base, ts).value.Named?
  {
    DimensionsBuild(base, ts);
    var r := Dimensions(base, ts);
    if r.Got? {
      PointersBuild(r.value, r.rest);
    }
  }

  lemma {:induction false} DimensionsBuild(base: TypeExpr, ts: seq<Token>)
    ensures var r := Dimensions(base, ts); r.Got? ==> r.value == base || r.value.Array?
  {
  }

  lemma {:induction false} PointersBuild(base: TypeExpr, ts: seq<Token>)
    requires !base.Named?
    ensures var r := PointerSuffix(base, ts); r.Got? ==> !r.value.Named?
    decreases |ts|
  {
    if At(ts, Star) {
      PointersBuild(Pointer(base), ts[1..]);
    }
  }

  lemma CastTokens(n: Name, y: Token, rest: seq<Token>)
    ensures var after := [As, Word(n), Star, y] + rest;
            after[0] == As && after[1..] == [Word(n)] + ([Star] + ([y] + rest))
  {}

  lemma StarAfterName(n: Name, left: seq<Token>)
    requires !At(left, Star)
    ensures ParseType([Word(n)] + ([Star] + left)) == Got(Pointer(Named(n)), left)
  {
    var ts := [Word(n)] + ([Star] + left);
    NamedCase(n, [Star] + left);
    Drop(Star, left);
    assert Suffixes(Named(n), [Star] + left) == PointerSuffix(Named(n), [Star] + left) == Got(Pointer(Named(n)), left);
    assert ParseSuffixed(ts) == Got(Pointer(Named(n)), left);
  }

  lemma {:induction false} DescendCast(l: nat, ts: seq<Token>, e: Expr, rest: seq<Token>)
    requires l <= CAST && Stops(-1, rest) && ParseAt(CAST, ts) == Got(e, rest)
    ensures ParseAt(l, ts) == Got(e, rest)
    decreases CAST - l
  {
    if l < CAST {
      DescendCast(l + 1, ts, e, rest);
      Done(-1, l, e, rest);
      Rung(l, ts);
    }
  }
}
