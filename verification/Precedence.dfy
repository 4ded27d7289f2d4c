/**
 * Which operators bind tighter.  The ladder is given as a list, from the loosest operators to
 * the tightest; a chain of operands without parentheses is read by splitting it, again and
 * again, at its loosest operator, the last one if there are several.  The parser reads it so.
 */
module Precedence {
  import opened Options
  import opened Syntax
  import opened IntegerLiterals
  import opened Grammar
  import opened ParserRoundTrip

  // ---------- the ladder ----------

  const LADDER: seq<map<Token, BinaryOp>> :=
    [map[OrOr := Or],
     map[AndAnd := And],
     map[EqEq := Equal, BangEq := NotEqual],
     map[Lt := Less, Gt := Greater, LtEq := LessEqual, GtEq := GreaterEqual],
     map[Plus := Add, Minus := Sub],
     map[Star := Mul, Slash := Div, Percent := Mod]]

  const PREFIXES: map<Token, UnaryOp> :=
    map[Plus := Positive, Minus := Negate, Bang := Not, Star := Deref, Amp := Address,
        PlusPlus := PreInc, MinusMinus := PreDec]

  const ASSIGNMENTS: map<Token, AssignOp> :=
    map[Equals := Set, PlusEq := AddSet, MinusEq := SubSet, StarEq := MulSet, SlashEq := DivSet, PercentEq := ModSet]

  predicate OnRung(t: Token, k: nat) { k < |LADDER| && t in LADDER[k] }

  // ---------- operands ----------

  datatype Suffix = Increment | Decrement | Field(name: nat)

  /** A name or literal, with prefix operators in front of it, and suffixes and then casts behind it. */
  datatype Operand = Operand(prefixes: seq<Token>, atom: Token, suffixes: seq<Suffix>, casts: seq<Builtin>)

  function AtomTree(t: Token): Option<Expr>
  {
    match t
    case Word(Identifier(_)) => Some(Ident(t.name))
    case Literal(c) => Some(Const(c))
    case IntText(text) => if IntLit(text).Some? then Some(Int(IntLit(text).value)) else None
    case _ => None
  }

  predicate Proper(x: Operand)
  {
    AtomTree(x.atom).Some? && forall i :: 0 <= i < |x.prefixes| ==> x.prefixes[i] in PREFIXES
  }

  function Suffixed(e: Expr, s: Suffix): Expr
  {
    match s
    case Increment => Unary(PostInc, e)
    case Decrement => Unary(PostDec, e)
    case Field(f) => Member(e, f)
  }

  function WithSuffixes(e: Expr, ss: seq<Suffix>): Expr
    decreases |ss|
  {
    if ss == [] then e else WithSuffixes(Suffixed(e, ss[0]), ss[1..])
  }

  function WithPrefixes(ps: seq<Token>, e: Expr): Expr
    requires forall i :: 0 <= i < |ps| ==> ps[i] in PREFIXES
  {
    if ps == [] then e else Unary(PREFIXES[ps[0]], WithPrefixes(ps[1..], e))
  }

  function WithCasts(e: Expr, bs: seq<Builtin>): Expr
    decreases |bs|
  {
    if bs == [] then e else WithCasts(Cast(e, Named(TypeName(bs[0]))), bs[1..])
  }

  /** Suffixes bind tighter than prefixes, and those tighter than casts. */
  function Tree(x: Operand): Expr
    requires Proper(x)
  {
    WithCasts(WithPrefixes(x.prefixes, WithSuffixes(AtomTree(x.atom).value, x.suffixes)), x.casts)
  }

  function SpellSuffix(s: Suffix): seq<Token>
  {
    match s
    case Increment => [PlusPlus]
    case Decrement => [MinusMinus]
    case Field(f) => [Dot, Word(Identifier(f))]
  }

  function SpellSuffixes(ss: seq<Suffix>, rest: seq<Token>): seq<Token>
  {
    if ss == [] then rest else SpellSuffix(ss[0]) + SpellSuffixes(ss[1..], rest)
  }

  function SpellPrefixes(ps: seq<Token>, rest: seq<Token>): seq<Token>
  {
    if ps == [] then rest else [ps[0]] + SpellPrefixes(ps[1..], rest)
  }

  function SpellCasts(bs: seq<Builtin>, rest: seq<Token>): seq<Token>
  {
    if bs == [] then rest else [As, Word(TypeName(bs[0]))] + SpellCasts(bs[1..], rest)
  }

  /** The tokens of an operand, with what follows it. */
  function Spell(x: Operand, rest: seq<Token>): seq<Token>
  {
    SpellPrefixes(x.prefixes, [x.atom] + SpellSuffixes(x.suffixes, SpellCasts(x.casts, rest)))
  }

  // ---------- chains ----------

  /** A binary operator on its rung. */
  datatype Operator = Operator(rung: nat, token: Token)
  {
    predicate Ok() { OnRung(token, rung) }

    function Op(): BinaryOp
      requires Ok()
    {
      LADDER[rung][token]
    }
  }

  predicate AllOk(ops: seq<Operator>) { forall i :: 0 <= i < |ops| ==> ops[i].Ok() }

  predicate AllProper(xs: seq<Operand>) { forall i :: 0 <= i < |xs| ==> Proper(xs[i]) }

  function Trees(xs: seq<Operand>): (ts: seq<Expr>)
    requires AllProper(xs)
    ensures |ts| == |xs|
  {
    seq(|xs|, i requires 0 <= i < |xs| => Tree(xs[i]))
  }

  /** The tokens of a chain from the i-th operand on: the j-th operator stands between operands j and j + 1. */
  function Chain(xs: seq<Operand>, ops: seq<Operator>, i: nat, rest: seq<Token>): seq<Token>
    requires |xs| == |ops| + 1 && i < |xs|
    decreases |xs| - i, 1
  {
    Spell(xs[i], Behind(xs, ops, i, rest))
  }

  /** The tokens behind the i-th operand. */
  function Behind(xs: seq<Operand>, ops: seq<Operator>, i: nat, rest: seq<Token>): seq<Token>
    requires |xs| == |ops| + 1 && i < |xs|
    decreases |xs| - i, 0
  {
    if i == |ops| then rest else [ops[i].token] + Chain(xs, ops, i + 1, rest)
  }

  /** The last of the loosest operators from `lo` up to `hi`. */
  function Loosest(ops: seq<Operator>, lo: nat, hi: nat): (k: nat)
    requires lo < hi <= |ops|
    ensures lo <= k < hi && (forall j :: lo <= j < hi ==> ops[j].rung >= ops[k].rung)
    ensures forall j :: k < j < hi ==> ops[j].rung > ops[k].rung
    decreases hi
  {
    if hi == lo + 1 then lo
    else
      var k := Loosest(ops, lo, hi - 1);
      if ops[hi - 1].rung <= ops[k].rung then hi - 1 else k
  }

  /** The operands from `lo` to `hi` and the operators between them. */
  function Reading(trees: seq<Expr>, ops: seq<Operator>, lo: nat, hi: nat): Expr
    requires |trees| == |ops| + 1 && AllOk(ops) && lo <= hi < |trees|
    decreases hi - lo
  {
    if lo == hi then trees[lo]
    else
      var k := Loosest(ops, lo, hi);
      Binary(ops[k].Op(), Reading(trees, ops, lo, k), Reading(trees, ops, k + 1, hi))
  }

  /**
   * What follows an operand is not taken for a part of it: no guess at `<` finds type arguments,
   * and no type of a cast has `<` or `*` behind it.
   */
  predicate Apart(x: Operand, ts: seq<Token>)
  {
    ts != [] ==>
      && (ts[0] == Lt ==> ParseGenericInst(ts).Fail?)
      && (x.casts != [] ==> ts[0] !in {Lt, Star})
  }

  predicate ApartAt(xs: seq<Operand>, ops: seq<Operator>, i: nat, rest: seq<Token>)
    requires |xs| == |ops| + 1 && i < |xs|
  {
    Apart(xs[i], Behind(xs, ops, i, rest))
  }

  predicate AllApart(xs: seq<Operand>, ops: seq<Operator>, rest: seq<Token>)
    requires |xs| == |ops| + 1
  {
    forall i {:trigger ApartAt(xs, ops, i, rest)} :: 0 <= i < |xs| ==> ApartAt(xs, ops, i, rest)
  }

  predicate Closed(rest: seq<Token>) { rest == [] || rest[0] in {Semicolon, Comma, RParen, RBracket} }

  predicate Ended(rest: seq<Token>) { Closed(rest) || rest[0] in ASSIGNMENTS }

  // ---------- the parser's tables ----------

  lemma RungTakes(t: Token, k: nat, l: nat)
    requires OnRung(t, k) && LOWEST <= l < CAST
    ensures OpAt(l, t) == if l == k + 1 then Some(LADDER[k][t]) else None
    ensures t !in {PlusPlus, MinusMinus, LBracket, LParen, Dot, As}
  {
  }

  lemma PrefixTakes(t: Token)
    ensures PrefixOf(t) == if t in PREFIXES then Some(PREFIXES[t]) else None
  {
  }

  lemma AssignmentTakes(t: Token)
    ensures AssignOf(t) == if t in ASSIGNMENTS then Some(ASSIGNMENTS[t]) else None
  {
  }

  lemma EndTakesNothing(rest: seq<Token>, l: nat)
    requires Ended(rest) && rest != []
    ensures OpAt(l, rest[0]).None? && rest[0] !in {PlusPlus, MinusMinus, LBracket, LParen, Dot, As, Lt, Star}
    ensures Closed(rest) ==> AssignOf(rest[0]).None?
  {
  }

  // ---------- one operand ----------

  /** Neither a suffix nor a cast follows. */
  predicate Stopped(x: Operand, rest: seq<Token>)
  {
    Apart(x, rest) && (rest == [] || rest[0] !in {PlusPlus, MinusMinus, LBracket, LParen, Dot, As})
  }

  lemma {:induction false} SuffixesParse(e: Expr, ss: seq<Suffix>, rest: seq<Token>)
    requires rest == [] || rest[0] !in {PlusPlus, MinusMinus, LBracket, LParen, Dot}
    requires rest != [] && rest[0] == Lt ==> ParseGenericInst(rest).Fail?
    ensures PostfixTail(e, SpellSuffixes(ss, rest)) == Got(WithSuffixes(e, ss), rest)
    decreases |ss|
  {
    if ss != [] {
      SuffixStep(e, ss[0], SpellSuffixes(ss[1..], rest));
      SuffixesParse(Suffixed(e, ss[0]), ss[1..], rest);
    }
  }

  lemma {:induction false} SuffixStep(e: Expr, s: Suffix, more: seq<Token>)
    ensures PostfixTail(e, SpellSuffix(s) + more) == PostfixTail(Suffixed(e, s), more)
  {
    match s
    case Increment => Drop(PlusPlus, more);
    case Decrement => Drop(MinusMinus, more);
    case Field(f) =>
      DropTwo(Dot, Word(Identifier(f)), more);
      assert ([Dot, Word(Identifier(f))] + more)[1..] == [Word(Identifier(f))] + more;
  }

  lemma {:induction false} PrefixesParse(ps: seq<Token>, e: Expr, ts: seq<Token>, rest: seq<Token>)
    requires forall i :: 0 <= i < |ps| ==> ps[i] in PREFIXES
    requires ParseUnary(ts) == Got(e, rest)
    ensures ParseUnary(SpellPrefixes(ps, ts)) == Got(WithPrefixes(ps, e), rest)
    decreases |ps|
  {
    if ps != [] {
      PrefixTakes(ps[0]);
      Drop(ps[0], SpellPrefixes(ps[1..], ts));
      PrefixesParse(ps[1..], e, ts, rest);
    }
  }

  lemma CastParses(b: Builtin, rest: seq<Token>)
    requires rest == [] || rest[0] !in {Lt, Star, LBracket}
    ensures ParseType([Word(TypeName(b))] + rest) == Got(Named(TypeName(b)), rest)
  {
    Drop(Word(TypeName(b)), rest);
    assert ParseTypeAtom([Word(TypeName(b))] + rest) == Got(Named(TypeName(b)), rest);
    assert Suffixes(Named(TypeName(b)), rest) == Got(Named(TypeName(b)), rest);
  }

  lemma {:induction false} CastsParse(e: Expr, bs: seq<Builtin>, rest: seq<Token>)
    requires rest == [] || rest[0] != As
    requires rest == [] || bs == [] || rest[0] !in {Lt, Star, LBracket}
    ensures CastTail(e, SpellCasts(bs, rest)) == Got(WithCasts(e, bs), rest)
    decreases |bs|
  {
    if bs != [] {
      var more := SpellCasts(bs[1..], rest);
      assert ([As, Word(TypeName(bs[0]))] + more)[1..] == [Word(TypeName(bs[0]))] + more;
      CastParses(bs[0], more);
      CastsParse(Cast(e, Named(TypeName(bs[0]))), bs[1..], rest);
    }
  }

  lemma OperandParses(x: Operand, rest: seq<Token>)
    requires Proper(x) && Stopped(x, rest)
    ensures ParseCast(Spell(x, rest)) == Got(Tree(x), rest)
  {
    var behind := SpellCasts(x.casts, rest);
    var atom := AtomTree(x.atom).value;
    var ts := [x.atom] + SpellSuffixes(x.suffixes, behind);
    Drop(x.atom, SpellSuffixes(x.suffixes, behind));
    assert ParsePrimary(ts) == Got(atom, SpellSuffixes(x.suffixes, behind));
    SuffixesParse(atom, x.suffixes, behind);
    PrefixTakes(x.atom);
    assert ParseUnary(ts) == Got(WithSuffixes(atom, x.suffixes), behind);
    PrefixesParse(x.prefixes, WithSuffixes(atom, x.suffixes), ts, behind);
    CastsParse(WithPrefixes(x.prefixes, WithSuffixes(atom, x.suffixes)), x.casts, rest);
  }

  // ---------- one rung ----------

  /** An operand as the ladder meets it: its tree, the tokens from its start and those behind it. */
  datatype Row = Row(tree: Expr, at: seq<Token>, behind: seq<Token>)

  /** The tightest rung reads the i-th operand, and the next operator or the end is behind it. */
  predicate Stands(rows: seq<Row>, ops: seq<Operator>, i: nat, rest: seq<Token>)
    requires |rows| == |ops| + 1 && i < |rows|
  {
    && ParseCast(rows[i].at) == Got(rows[i].tree, rows[i].behind)
    && rows[i].behind == if i == |ops| then rest else [ops[i].token] + rows[i + 1].at
  }

  predicate AllStand(rows: seq<Row>, ops: seq<Operator>, rest: seq<Token>)
  {
    && |rows| == |ops| + 1 && AllOk(ops) && Ended(rest)
    && forall i {:trigger Stands(rows, ops, i, rest)} :: 0 <= i < |rows| ==> Stands(rows, ops, i, rest)
  }

  function TreesOf(rows: seq<Row>): (ts: seq<Expr>)
    ensures |ts| == |rows|
  {
    seq(|rows|, i requires 0 <= i < |rows| => rows[i].tree)
  }

  /** The first operator of rung l from i on, or the end. */
  function Next(l: nat, ops: seq<Operator>, i: nat, hi: nat): (k: nat)
    requires i <= hi <= |ops|
    ensures i <= k <= hi && (k < hi ==> ops[k].rung + 1 == l)
    ensures forall j :: i <= j < k ==> ops[j].rung + 1 != l
    decreases hi - i
  {
    if i == hi || ops[i].rung + 1 == l then i else Next(l, ops, i + 1, hi)
  }

  /** The operators from `lo` up to `hi`, and no more, are those that rung l and the rungs above it take. */
  predicate Takes(l: nat, ops: seq<Operator>, lo: nat, hi: nat)
  {
    && lo <= hi <= |ops|
    && (forall j :: lo <= j < hi ==> ops[j].rung + 1 >= l)
    && (hi < |ops| ==> ops[hi].rung + 1 < l)
  }

  /** Behind an operator of rung l, the rungs above take what is left up to the next one. */
  lemma NextTakes(l: nat, ops: seq<Operator>, lo: nat, i: nat, hi: nat) returns (next: nat)
    requires Takes(l, ops, lo, hi) && lo <= i < hi
    ensures i < next <= hi && (next < hi ==> ops[next].rung + 1 == l) && Takes(l + 1, ops, i + 1, next)
    ensures (forall j :: lo <= j < i ==> ops[j].rung + 1 >= l) && forall j :: i < j < next ==> ops[j].rung + 1 > l
  {
    next := Next(l, ops, i + 1, hi);
  }

  lemma LoosestIs(ops: seq<Operator>, lo: nat, i: nat, hi: nat)
    requires lo <= i < hi <= |ops| && (forall j :: lo <= j < i ==> ops[j].rung >= ops[i].rung)
    requires forall j :: i < j < hi ==> ops[j].rung > ops[i].rung
    ensures Loosest(ops, lo, hi) == i
  {
  }

  lemma {:induction false} ReadingSplits(trees: seq<Expr>, ops: seq<Operator>, lo: nat, i: nat, hi: nat)
    requires |trees| == |ops| + 1 && AllOk(ops) && lo <= i < hi <= |ops| && Loosest(ops, lo, hi) == i
    ensures Reading(trees, ops, lo, hi)
            == Binary(ops[i].Op(), Reading(trees, ops, lo, i), Reading(trees, ops, i + 1, hi))
  {
  }

  /** The rung's loop goes on at an operator of its own only. */
  lemma {:induction false} LoopEnd(l: nat, lhs: Expr, ops: seq<Operator>, rows: seq<Row>, i: nat, rest: seq<Token>)
    requires LOWEST <= l < CAST && AllStand(rows, ops, rest) && i < |rows|
    requires i < |ops| ==> ops[i].rung + 1 != l
    ensures LeftAssoc(l, lhs, rows[i].behind) == Got(lhs, rows[i].behind)
  {
    assert Stands(rows, ops, i, rest);
    if i < |ops| {
      RungTakes(ops[i].token, ops[i].rung, l);
    } else if rest != [] {
      EndTakesNothing(rest, l);
    }
  }

  lemma {:induction false} LoopTurn(l: nat, lhs: Expr, ops: seq<Operator>, rows: seq<Row>, i: nat, rest: seq<Token>,
                                    rhs: Expr, after: seq<Token>)
    requires LOWEST <= l < CAST && AllStand(rows, ops, rest) && i < |ops| && ops[i].rung + 1 == l
    requires ParseLevel(l + 1, rows[i + 1].at) == Got(rhs, after)
    ensures LeftAssoc(l, lhs, rows[i].behind) == LeftAssoc(l, Binary(ops[i].Op(), lhs, rhs), after)
  {
    assert Stands(rows, ops, i, rest);
    RungTakes(ops[i].token, ops[i].rung, l);
    Drop(ops[i].token, rows[i + 1].at);
  }

  /** One more operator of the rung, with its operand and what binds tighter. */
  lemma {:induction false} LoopOn(l: nat, ops: seq<Operator>, rows: seq<Row>, lo: nat, i: nat, next: nat,
                                  rest: seq<Token>)
    requires LOWEST <= l < CAST && AllStand(rows, ops, rest) && lo <= i < next <= |ops| && ops[i].rung + 1 == l
    requires (forall j :: lo <= j < i ==> ops[j].rung + 1 >= l) && forall j :: i < j < next ==> ops[j].rung + 1 > l
    requires ParseLevel(l + 1, rows[i + 1].at) == Got(Reading(TreesOf(rows), ops, i + 1, next), rows[next].behind)
    ensures LeftAssoc(l, Reading(TreesOf(rows), ops, lo, i), rows[i].behind)
            == LeftAssoc(l, Reading(TreesOf(rows), ops, lo, next), rows[next].behind)
  {
    var trees := TreesOf(rows);
    LoopTurn(l, Reading(trees, ops, lo, i), ops, rows, i, rest, Reading(trees, ops, i + 1, next), rows[next].behind);
    LoosestIs(ops, lo, i, next);
    ReadingSplits(trees, ops, lo, i, next);
  }

  /** Above the ladder there is no operator to take. */
  lemma {:induction false} TopReads(ops: seq<Operator>, rows: seq<Row>, lo: nat, hi: nat, rest: seq<Token>)
    requires AllStand(rows, ops, rest) && Takes(CAST, ops, lo, hi)
    ensures lo == hi && ParseLevel(CAST, rows[lo].at) == Got(rows[lo].tree, rows[lo].behind)
  {
    assert Stands(rows, ops, lo, rest);
  }

  lemma {:induction false} RungStep(l: nat, ts: seq<Token>, e: Expr, mid: seq<Token>)
    requires LOWEST <= l < CAST && ParseLevel(l + 1, ts) == Got(e, mid)
    ensures ParseLevel(l, ts) == LeftAssoc(l, e, mid)
  {
  }

  /** One rung reads its part of the chain. */
  lemma {:induction false} LevelReads(l: nat, ops: seq<Operator>, rows: seq<Row>, lo: nat, hi: nat, rest: seq<Token>)
    requires LOWEST <= l <= CAST && AllStand(rows, ops, rest) && Takes(l, ops, lo, hi)
    ensures ParseLevel(l, rows[lo].at) == Got(Reading(TreesOf(rows), ops, lo, hi), rows[hi].behind)
    decreases CAST - l, 2, 0
  {
    if l == CAST {
      TopReads(ops, rows, lo, hi, rest);
    } else {
      var mid := Next(l, ops, lo, hi);
      LevelReads(l + 1, ops, rows, lo, mid, rest);
      RungStep(l, rows[lo].at, Reading(TreesOf(rows), ops, lo, mid), rows[mid].behind);
      LoopReads(l, ops, rows, lo, mid, hi, rest);
    }
  }

  /** The loop of a rung, from the operator at i, which is one of its own if it is not the end. */
  lemma {:induction false} LoopReads(l: nat, ops: seq<Operator>, rows: seq<Row>, lo: nat, i: nat, hi: nat,
                                     rest: seq<Token>)
    requires LOWEST <= l < CAST && AllStand(rows, ops, rest) && Takes(l, ops, lo, hi)
    requires lo <= i <= hi && (i < hi ==> ops[i].rung + 1 == l)
    ensures LeftAssoc(l, Reading(TreesOf(rows), ops, lo, i), rows[i].behind)
            == Got(Reading(TreesOf(rows), ops, lo, hi), rows[hi].behind)
    decreases CAST - l, 1, hi - i
  {
    if i == hi {
      LoopEnd(l, Reading(TreesOf(rows), ops, lo, hi), ops, rows, hi, rest);
    } else {
      var next := LoopOnce(l, ops, rows, lo, i, hi, rest);
      LoopReads(l, ops, rows, lo, next, hi, rest);
    }
  }

  lemma {:induction false} LoopOnce(l: nat, ops: seq<Operator>, rows: seq<Row>, lo: nat, i: nat, hi: nat,
                                    rest: seq<Token>) returns (next: nat)
    requires LOWEST <= l < CAST && AllStand(rows, ops, rest) && Takes(l, ops, lo, hi)
    requires lo <= i < hi && ops[i].rung + 1 == l
    ensures i < next <= hi && (next < hi ==> ops[next].rung + 1 == l)
    ensures LeftAssoc(l, Reading(TreesOf(rows), ops, lo, i), rows[i].behind)
            == LeftAssoc(l, Reading(TreesOf(rows), ops, lo, next), rows[next].behind)
    decreases CAST - l, 0, 0
  {
    next := NextTakes(l, ops, lo, i, hi);
    LevelReads(l + 1, ops, rows, i + 1, next, rest);
    LoopOn(l, ops, rows, lo, i, next, rest);
  }

  // ---------- whole chains ----------

  function Rows(xs: seq<Operand>, ops: seq<Operator>, rest: seq<Token>): (rows: seq<Row>)
    requires |xs| == |ops| + 1 && AllProper(xs)
    ensures |rows| == |xs|
  {
    seq(|xs|, i requires 0 <= i < |xs| => Row(Tree(xs[i]), Chain(xs, ops, i, rest), Behind(xs, ops, i, rest)))
  }

  lemma {:induction false} RowStands(xs: seq<Operand>, ops: seq<Operator>, rest: seq<Token>, i: nat)
    requires |xs| == |ops| + 1 && AllProper(xs) && AllOk(ops) && Ended(rest) && i < |xs| && ApartAt(xs, ops, i, rest)
    ensures Stands(Rows(xs, ops, rest), ops, i, rest)
  {
    OperatorStops(xs, ops, rest, i);
    OperandParses(xs[i], Behind(xs, ops, i, rest));
  }

  lemma {:induction false} OperatorStops(xs: seq<Operand>, ops: seq<Operator>, rest: seq<Token>, i: nat)
    requires |xs| == |ops| + 1 && AllOk(ops) && Ended(rest) && i < |xs| && ApartAt(xs, ops, i, rest)
    ensures Stopped(xs[i], Behind(xs, ops, i, rest))
  {
    if i < |ops| {
      RungTakes(ops[i].token, ops[i].rung, LOWEST);
    }
  }

  lemma {:induction false} ChainClimbs(xs: seq<Operand>, ops: seq<Operator>, rest: seq<Token>)
    requires |xs| == |ops| + 1 && AllProper(xs) && AllOk(ops) && AllApart(xs, ops, rest) && Ended(rest)
    ensures ParseLevel(LOWEST, Chain(xs, ops, 0, rest)) == Got(Reading(Trees(xs), ops, 0, |ops|), rest)
  {
    var rows := Rows(xs, ops, rest);
    forall i {:trigger Stands(rows, ops, i, rest)} | 0 <= i < |rows|
      ensures Stands(rows, ops, i, rest)
    {
      assert ApartAt(xs, ops, i, rest);
      RowStands(xs, ops, rest, i);
    }
    LevelReads(LOWEST, ops, rows, 0, |ops|, rest);
    assert TreesOf(rows) == Trees(xs);
  }

  /**
   * A chain of any length is read as the ladder says: the loosest operator splits it, the last
   * one of several, and each side is read likewise.
   */
  lemma {:induction false} ChainReads(xs: seq<Operand>, ops: seq<Operator>, rest: seq<Token>)
    requires |xs| == |ops| + 1 && AllProper(xs) && AllOk(ops) && AllApart(xs, ops, rest) && Closed(rest)
    ensures ParseExpr(Chain(xs, ops, 0, rest)) == Got(Reading(Trees(xs), ops, 0, |ops|), rest)
  {
    ChainClimbs(xs, ops, rest);
    if rest != [] {
      EndTakesNothing(rest, LOWEST);
    }
  }

  // ---------- assignments ----------

  /** A name, a field, or what a pointer points to: what an operand must be to be assigned to. */
  predicate Place(x: Operand)
  {
    x.casts == [] &&
    if x.prefixes != [] then x.prefixes[0] == Star
    else if x.suffixes != [] then x.suffixes[|x.suffixes| - 1].Field?
    else x.atom.Word?
  }

  lemma {:induction false} LastSuffix(e: Expr, ss: seq<Suffix>)
    requires ss != []
    ensures IsLvalue(WithSuffixes(e, ss)) <==> ss[|ss| - 1].Field?
    decreases |ss|
  {
    if |ss| > 1 {
      LastSuffix(Suffixed(e, ss[0]), ss[1..]);
    }
  }

  lemma {:induction false} LastCast(e: Expr, bs: seq<Builtin>)
    requires bs != []
    ensures WithCasts(e, bs).Cast?
    decreases |bs|
  {
    if |bs| > 1 {
      LastCast(Cast(e, Named(TypeName(bs[0]))), bs[1..]);
    }
  }

  lemma PlaceIff(x: Operand)
    requires Proper(x)
    ensures IsLvalue(Tree(x)) <==> Place(x)
  {
    if x.casts != [] {
      LastCast(WithPrefixes(x.prefixes, WithSuffixes(AtomTree(x.atom).value, x.suffixes)), x.casts);
    } else if x.prefixes == [] && x.suffixes != [] {
      LastSuffix(AtomTree(x.atom).value, x.suffixes);
    }
  }

  /**
   * A chain in front of an assignment: a single operand that is a place takes the whole
   * expression behind it, so that assignments group to the right; anything else is an error.
   */
  lemma {:induction false} AssignmentReads(xs: seq<Operand>, ops: seq<Operator>, t: Token, ts: seq<Token>)
    requires |xs| == |ops| + 1 && AllProper(xs) && AllOk(ops) && AllApart(xs, ops, [t] + ts) && t in ASSIGNMENTS
    ensures ParseExpr(Chain(xs, ops, 0, [t] + ts)) ==
            if ops != [] || !Place(xs[0]) then Fail
            else
              match ParseExpr(ts)
              case Fail => Fail
              case Got(e, rest) => Got(Assign(ASSIGNMENTS[t], Tree(xs[0]), e), rest)
  {
    ChainClimbs(xs, ops, [t] + ts);
    AssignmentTakes(t);
    PlaceIff(xs[0]);
    Drop(t, ts);
  }

  /** Whatever stands in front of an assignment: only names, elements, fields and pointees are assigned to. */
  lemma {:induction false} AssignmentTargets(ts: seq<Token>, lhs: Expr, t: Token, more: seq<Token>, rhs: Expr,
                                             rest: seq<Token>)
    requires ParseLevel(LOWEST, ts) == Got(lhs, [t] + more) && t in ASSIGNMENTS && ParseExpr(more) == Got(rhs, rest)
    ensures ParseExpr(ts) ==
            match lhs
            case Ident(_) => Got(Assign(ASSIGNMENTS[t], lhs, rhs), rest)
            case Subscript(_, _) => Got(Assign(ASSIGNMENTS[t], lhs, rhs), rest)
            case Member(_, _) => Got(Assign(ASSIGNMENTS[t], lhs, rhs), rest)
            case Unary(Deref, _) => Got(Assign(ASSIGNMENTS[t], lhs, rhs), rest)
            case _ => Fail
  {
    AssignmentTakes(t);
    Drop(t, more);
  }

  // ---------- small print ----------

  /** The type keywords that may stand in an expression, and those that may not. */
  lemma KeywordsInExpressions(b: Builtin, rest: seq<Token>)
    ensures ParsePrimary([Word(TypeName(b))] + rest) ==
            if b in {I8, I16, I32, I64, U8, U16, U32, U64, F32, F64, Bool, Void} then Got(Ident(TypeName(b)), rest)
            else Fail
  {
    Drop(Word(TypeName(b)), rest);
  }

  /** A comma may trail the last argument of a call. */
  lemma TrailingComma(e: Expr, ts: seq<Token>, rest: seq<Token>)
    requires ParseExpr(ts) == Got(e, [Comma, RParen] + rest)
    ensures Arguments(ts) == Got([e], [RParen] + rest)
  {
    DropTwo(Comma, RParen, rest);
    assert ([Comma, RParen] + rest)[1..] == [RParen] + rest;
  }

  /** What is opened has to be closed by its own kind of bracket. */
  lemma {:induction false} ClosersAreRequired(owner: Expr, e: Expr, ts: seq<Token>, rest: seq<Token>)
    requires ParseExpr(ts) == Got(e, rest)
    ensures ParsePrimary([LParen] + ts) == if rest != [] && rest[0] == RParen then Got(e, rest[1..]) else Fail
    ensures PostfixTail(owner, [LBracket] + ts) ==
            if rest != [] && rest[0] == RBracket then PostfixTail(Subscript(owner, e), rest[1..]) else Fail
  {
    Drop(LParen, ts);
    Drop(LBracket, ts);
  }

  /** The same for types, whose lists allow no trailing comma. */
  lemma {:induction false} TypeClosersAreRequired(t: TypeExpr, ts: seq<Token>, rest: seq<Token>)
    requires ParseType(ts) == Got(t, rest)
    ensures ParseTypeAtom([LParen] + ts) == if rest != [] && rest[0] == RParen then Got(t, rest[1..]) else Fail
    ensures rest == [] || rest[0] !in {Comma, Gt} ==> TypeArguments(ts).Fail?
    ensures [Comma, Gt] <= rest ==> TypeArguments(ts).Fail?
    ensures [Comma, RParen] <= rest ==> ParameterTypes(ts).Fail?
  {
    Drop(LParen, ts);
    if [Comma, Gt] <= rest || [Comma, RParen] <= rest {
      NoTypeStarts(rest[1..]);
    }
  }

  lemma NoTypeStarts(ts: seq<Token>)
    requires ts != [] && ts[0] in {Gt, RParen}
    ensures ParseType(ts).Fail?
  {
    assert ParseTypeAtom(ts).Fail?;
  }

  // ---------- three operands ----------

  function Bare(atom: Token): Operand { Operand([], atom, [], []) }

  /** Three operands: the second operator takes the middle one exactly if it stands on a later rung. */
  lemma {:induction false} ThreeOperands(a: Token, p: Token, j: nat, b: Token, q: Token, k: nat, c: Token,
                                         rest: seq<Token>)
    requires AtomTree(a).Some? && AtomTree(b).Some? && AtomTree(c).Some? && OnRung(p, j) && OnRung(q, k) && Closed(rest)
    requires p == Lt ==> ParseGenericInst([p, b, q, c] + rest).Fail?
    requires q == Lt ==> ParseGenericInst([q, c] + rest).Fail?
    ensures var x, y, z := AtomTree(a).value, AtomTree(b).value, AtomTree(c).value;
            ParseExpr([a, p, b, q, c] + rest) ==
            Got(if j < k then Binary(LADDER[j][p], x, Binary(LADDER[k][q], y, z))
                else Binary(LADDER[k][q], Binary(LADDER[j][p], x, y), z), rest)
  {
    var xs, ops := [Bare(a), Bare(b), Bare(c)], [Operator(j, p), Operator(k, q)];
    ThreeApart(xs, ops, a, b, c, rest);
    ChainReads(xs, ops, rest);
    ReadThree(Trees(xs), ops);
  }

  lemma {:induction false} ThreeApart(xs: seq<Operand>, ops: seq<Operator>, a: Token, b: Token, c: Token,
                                      rest: seq<Token>)
    requires |xs| == 3 && xs[0] == Bare(a) && xs[1] == Bare(b) && xs[2] == Bare(c) && |ops| == 2 && Ended(rest)
    requires ops[0].token == Lt ==> ParseGenericInst([ops[0].token, b, ops[1].token, c] + rest).Fail?
    requires ops[1].token == Lt ==> ParseGenericInst([ops[1].token, c] + rest).Fail?
    ensures AllApart(xs, ops, rest) && Chain(xs, ops, 0, rest) == [a, ops[0].token, b, ops[1].token, c] + rest
  {
    SpellThree(xs, ops, a, b, c, rest);
    assert ApartAt(xs, ops, 0, rest) && ApartAt(xs, ops, 1, rest) && ApartAt(xs, ops, 2, rest);
  }

  lemma {:induction false} SpellThree(xs: seq<Operand>, ops: seq<Operator>, a: Token, b: Token, c: Token,
                                      rest: seq<Token>)
    requires |xs| == 3 && xs[0] == Bare(a) && xs[1] == Bare(b) && xs[2] == Bare(c) && |ops| == 2
    ensures Behind(xs, ops, 2, rest) == rest && Behind(xs, ops, 1, rest) == [ops[1].token, c] + rest
    ensures Behind(xs, ops, 0, rest) == [ops[0].token, b, ops[1].token, c] + rest
    ensures Chain(xs, ops, 0, rest) == [a, ops[0].token, b, ops[1].token, c] + rest
  {
    assert Chain(xs, ops, 2, rest) == [c] + rest;
    assert Chain(xs, ops, 1, rest) == [b, ops[1].token, c] + rest;
  }

  lemma {:induction false} ReadThree(trees: seq<Expr>, ops: seq<Operator>)
    requires |trees| == 3 && |ops| == 2 && AllOk(ops)
    ensures var op1, op2 := ops[0].Op(), ops[1].Op();
            Reading(trees, ops, 0, 2) ==
            if ops[0].rung < ops[1].rung then Binary(op1, trees[0], Binary(op2, trees[1], trees[2]))
            else Binary(op2, Binary(op1, trees[0], trees[1]), trees[2])
  {
    assert Loosest(ops, 0, 2) == if ops[0].rung < ops[1].rung then 0 else 1;
    assert Loosest(ops, 0, 1) == 0 && Loosest(ops, 1, 2) == 1;
  }
}
