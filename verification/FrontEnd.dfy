/** From source text to tree: the lexer followed by the parser. */
module FrontEnd {
  import opened Options
  import Interners
  import L = Lexing
  import opened LexerTheorems
  import opened Syntax
  import opened Grammar
  import opened Printer
  import opened Speculation
  import Misreading

  // ---------- from lexer tokens to parser tokens ----------

  function TypeKind(k: L.Kind): Option<Builtin>
  {
    match k
    case I8 => Some(I8)
    case I16 => Some(I16)
    case I32 => Some(I32)
    case I64 => Some(I64)
    case U8 => Some(U8)
    case U16 => Some(U16)
    case U32 => Some(U32)
    case U64 => Some(U64)
    case BOOL => Some(Bool)
    case F32 => Some(F32)
    case F64 => Some(F64)
    case STRING => Some(String)
    case CHAR => Some(Char)
    case USIZE => Some(Usize)
    case ISIZE => Some(Isize)
    case VOID => Some(Void)
    case _ => None
  }

  function Symbol(k: L.Kind): Option<Token>
  {
    match k
    case FN => Some(Fn)
    case AS => Some(As)
    case TRUE => Some(Literal(True))
    case FALSE => Some(Literal(False))
    case NULL => Some(Literal(Null))
    case ARROW => Some(Arrow)
    case PLUSPLUS => Some(PlusPlus)
    case MINUSMINUS => Some(MinusMinus)
    case PLUS => Some(Plus)
    case MINUS => Some(Minus)
    case STAR => Some(Star)
    case SLASH => Some(Slash)
    case PERCENT => Some(Percent)
    case BANG => Some(Bang)
    case AMP => Some(Amp)
    case EQ_EQ => Some(EqEq)
    case BANG_EQ => Some(BangEq)
    case LT => Some(Lt)
    case GT => Some(Gt)
    case LT_EQ => Some(LtEq)
    case GT_EQ => Some(GtEq)
    case AND_AND => Some(AndAnd)
    case OR_OR => Some(OrOr)
    case ASSIGN => Some(Equals)
    case PLUS_EQ => Some(PlusEq)
    case MINUS_EQ => Some(MinusEq)
    case STAR_EQ => Some(StarEq)
    case SLASH_EQ => Some(SlashEq)
    case PERCENT_EQ => Some(PercentEq)
    case DOT => Some(Dot)
    case LPAREN => Some(LParen)
    case RPAREN => Some(RParen)
    case LBRACKET => Some(LBracket)
    case RBRACKET => Some(RBracket)
    case COMMA => Some(Comma)
    case SEMICOLON => Some(Semicolon)
    case _ => None
  }

  const END: Token := Other(0)

  predicate SameText(a: string, b: string) { a == b }

  /** What the parser sees of a token: identifiers by their interned index, integers by their text. */
  function Seen(names: seq<string>, kind: L.Kind, text: string): Token
  {
    if kind == L.IDENTIFIER then Word(Identifier(Interners.IndexOf(names, SameText, text)))
    else if kind == L.INT_LIT then IntText(text)
    else if TypeKind(kind).Some? then Word(TypeName(TypeKind(kind).value))
    else if Symbol(kind).Some? then Symbol(kind).value
    else END
  }

  function SeenAll(names: seq<string>, src: string, ts: seq<L.Token>): seq<Token>
    requires Inside(src, ts)
  {
    if ts == [] then []
    else [Seen(names, ts[0].kind, src[ts[0].start..ts[0].end])] + SeenAll(names, src, ts[1..])
  }

  // ---------- spelling parser tokens ----------

  function TypeText(b: Builtin): string
  {
    match b
    case I8 => "i8"
    case I16 => "i16"
    case I32 => "i32"
    case I64 => "i64"
    case U8 => "u8"
    case U16 => "u16"
    case U32 => "u32"
    case U64 => "u64"
    case Bool => "bool"
    case F32 => "f32"
    case F64 => "f64"
    case String => "str"
    case Char => "char"
    case Usize => "usize"
    case Isize => "isize"
    case Void => "void"
  }

  predicate IsOperator(t: Token)
  {
    t in {Arrow, PlusPlus, MinusMinus, Plus, Minus, Star, Slash, Percent, Bang, Amp, EqEq, BangEq, Lt, Gt, LtEq, GtEq,
          AndAnd, OrOr, Equals, PlusEq, MinusEq, StarEq, SlashEq, PercentEq, Dot, LParen, RParen, LBracket, RBracket,
          Comma, Semicolon}
  }

  function OperatorText(t: Token): string
    requires IsOperator(t)
  {
    match t
    case Arrow => "->"
    case PlusPlus => "++"
    case MinusMinus => "--"
    case Plus => "+"
    case Minus => "-"
    case Star => "*"
    case Slash => "/"
    case Percent => "%"
    case Bang => "!"
    case Amp => "&"
    case EqEq => "=="
    case BangEq => "!="
    case Lt => "<"
    case Gt => ">"
    case LtEq => "<="
    case GtEq => ">="
    case AndAnd => "&&"
    case OrOr => "||"
    case Equals => "="
    case PlusEq => "+="
    case MinusEq => "-="
    case StarEq => "*="
    case SlashEq => "/="
    case PercentEq => "%="
    case Dot => "."
    case LParen => "("
    case RParen => ")"
    case LBracket => "["
    case RBracket => "]"
    case Comma => ","
    case Semicolon => ";"
  }

  predicate IsWord(w: string)
  {
    w != [] && L.IsAlpha(w[0]) && forall i :: 0 <= i < |w| ==> L.CharClass.WordChar.Has(w[i])
  }

  predicate AllDecimal(w: string) { w != [] && forall i :: 0 <= i < |w| ==> L.IsDigit(w[i]) }

  /** The keyword table knows the words the expression and type grammars use. */
  ghost predicate Speaks(keywords: L.Keywords)
  {
    && (forall t :: FixedWord(t).Some? ==> KeywordIs(keywords, FixedWord(t).value.0, FixedWord(t).value.1))
    && forall b: Builtin :: KeywordIs(keywords, TypeText(b), TypeWord(b))
  }

  /** The kind of the keyword that names a type. */
  function TypeWord(b: Builtin): (k: L.Kind)
    ensures TypeKind(k) == Some(b)
  {
    match b
    case I8 => L.I8
    case I16 => L.I16
    case I32 => L.I32
    case I64 => L.I64
    case U8 => L.U8
    case U16 => L.U16
    case U32 => L.U32
    case U64 => L.U64
    case Bool => L.BOOL
    case F32 => L.F32
    case F64 => L.F64
    case String => L.STRING
    case Char => L.CHAR
    case Usize => L.USIZE
    case Isize => L.ISIZE
    case Void => L.VOID
  }

  /** The keywords that are tokens of their own. */
  function FixedWord(t: Token): Option<(string, L.Kind)>
  {
    match t
    case Literal(True) => Some(("true", L.TRUE))
    case Literal(False) => Some(("false", L.FALSE))
    case Literal(Null) => Some(("null", L.NULL))
    case Fn => Some(("fn", L.FN))
    case As => Some(("as", L.AS))
    case _ => None
  }

  predicate KeywordIs(keywords: L.Keywords, w: string, k: L.Kind) { w in keywords && keywords[w] == k }

  /** Tokens with a spelling: all but character and string literals, whose text is not in the token. */
  predicate Spellable(keywords: L.Keywords, names: seq<string>, t: Token)
  {
    match t
    case Word(Identifier(id)) => id < |names| && IsWord(names[id]) && names[id] !in keywords
    case Word(TypeName(_)) => true
    case IntText(text) => AllDecimal(text)
    case _ => FixedWord(t).Some? || IsOperator(t)
  }

  function Spelling(keywords: L.Keywords, names: seq<string>, t: Token): string
    requires Spellable(keywords, names, t)
  {
    if IsOperator(t) then OperatorText(t)
    else if FixedWord(t).Some? then FixedWord(t).value.0
    else
      match t
      case Word(Identifier(id)) => names[id]
      case Word(TypeName(b)) => TypeText(b)
      case IntText(text) => text
  }

  // ---------- each spelling is one token, and the right one ----------

  /** The text is one token, seen by the parser as t. */
  ghost predicate Reads(keywords: L.Keywords, names: seq<string>, w: string, t: Token)
  {
    Lexeme(keywords, w) && Seen(names, L.Extent(keywords, w, 0).0, w) == t
  }

  lemma {:induction false} ScanAll(w: string, i: nat, chars: L.CharClass)
    requires i <= |w| && forall k :: i <= k < |w| ==> chars.Has(w[k])
    ensures L.ScanWhile(w, i, chars) == |w|
    decreases |w| - i
  {
    if i < |w| {
      ScanAll(w, i + 1, chars);
    }
  }

  lemma WordReads(keywords: L.Keywords, w: string)
    requires IsWord(w)
    ensures Lexeme(keywords, w) && L.Extent(keywords, w, 0).0 == L.WordKind(keywords, w)
  {
    ScanAll(w, 1, L.CharClass.WordChar);
    assert w[0..|w|] == w;
  }

  lemma NumberReads(keywords: L.Keywords, w: string)
    requires AllDecimal(w)
    ensures Lexeme(keywords, w) && L.Extent(keywords, w, 0).0 == L.INT_LIT
  {
    ScanAll(w, 1, L.CharClass.DecimalChar);
    assert L.DecimalEnd(w, 1) == (L.INT_LIT, |w|);
  }

  predicate OperatorChar(c: char)
  {
    !L.IsSpace(c) && !L.IsAlpha(c) && !L.IsDigit(c) && c != '"' && c != '\''
  }

  lemma SingleReads(keywords: L.Keywords, a: char)
    requires OperatorChar(a)
    ensures Lexeme(keywords, [a]) && L.Extent(keywords, [a], 0).0 == L.SingleOperator(a)
  {}

  lemma DoubleReads(keywords: L.Keywords, a: char, b: char)
    requires OperatorChar(a) && L.DoubleOperator(a, b).Some?
    ensures Lexeme(keywords, [a, b]) && L.Extent(keywords, [a, b], 0).0 == L.DoubleOperator(a, b).value
  {}

  predicate SpellsKind(w: string, k: L.Kind)
  {
    || (|w| == 1 && OperatorChar(w[0]) && L.SingleOperator(w[0]) == k)
    || (|w| == 2 && OperatorChar(w[0]) && L.DoubleOperator(w[0], w[1]) == Some(k))
  }

  lemma OneCharSpelled(t: Token) returns (k: L.Kind)
    requires IsOperator(t) && |OperatorText(t)| == 1
    ensures SpellsKind(OperatorText(t), k) && Symbol(k) == Some(t) && TypeKind(k).None?
  {
    k := L.SingleOperator(OperatorText(t)[0]);
  }

  lemma WithEqualsSpelled(t: Token) returns (k: L.Kind)
    requires IsOperator(t) && |OperatorText(t)| == 2 && OperatorText(t)[1] == '='
    ensures SpellsKind(OperatorText(t), k) && Symbol(k) == Some(t) && TypeKind(k).None?
  {
    k := L.DoubleOperator(OperatorText(t)[0], '=').value;
  }

  lemma TwoCharsSpelled(t: Token) returns (k: L.Kind)
    requires IsOperator(t) && |OperatorText(t)| == 2 && OperatorText(t)[1] != '='
    ensures SpellsKind(OperatorText(t), k) && Symbol(k) == Some(t) && TypeKind(k).None?
  {
    k := L.DoubleOperator(OperatorText(t)[0], OperatorText(t)[1]).value;
  }

  /** A text of a known kind, seen as the token of that kind. */
  lemma KindReads(keywords: L.Keywords, names: seq<string>, w: string, k: L.Kind, t: Token)
    requires Lexeme(keywords, w) && L.Extent(keywords, w, 0).0 == k && Symbol(k) == Some(t) && TypeKind(k).None?
    ensures Reads(keywords, names, w, t)
  {
    assert Seen(names, k, w) == t;
  }

  lemma OperatorReads(keywords: L.Keywords, names: seq<string>, t: Token)
    requires IsOperator(t)
    ensures Reads(keywords, names, OperatorText(t), t)
  {
    var w := OperatorText(t);
    if |w| == 1 {
      var k := OneCharSpelled(t);
      SingleReads(keywords, w[0]);
      assert w == [w[0]];
      KindReads(keywords, names, w, k, t);
    } else {
      var k: L.Kind;
      if w[1] == '=' {
        k := WithEqualsSpelled(t);
      } else {
        k := TwoCharsSpelled(t);
      }
      DoubleReads(keywords, w[0], w[1]);
      assert w == [w[0], w[1]];
      KindReads(keywords, names, w, k, t);
    }
  }

  lemma NameHasItsIndex(names: seq<string>, i: nat)
    requires i < |names| && forall j, k :: 0 <= j < k < |names| ==> names[j] != names[k]
    ensures Interners.IndexOf(names, SameText, names[i]) == i
  {
    var j := Interners.IndexOf(names, SameText, names[i]);
    assert j <= i by {
      assert SameText(names[i], names[i]);
    }
  }

  predicate Distinct(names: seq<string>) { forall j, k :: 0 <= j < k < |names| ==> names[j] != names[k] }

  lemma TypeTextIsWord(b: Builtin)
    ensures IsWord(TypeText(b))
  {}

  lemma KeywordReads(keywords: L.Keywords, names: seq<string>, w: string, k: L.Kind, t: Token)
    requires IsWord(w) && KeywordIs(keywords, w, k) && k != L.IDENTIFIER && k != L.INT_LIT
    requires if TypeKind(k).Some? then t == Word(TypeName(TypeKind(k).value)) else Symbol(k) == Some(t)
    ensures Reads(keywords, names, w, t)
  {
    WordReads(keywords, w);
  }

  lemma NameReads(keywords: L.Keywords, names: seq<string>, id: nat)
    requires Distinct(names) && Spellable(keywords, names, Word(Identifier(id)))
    ensures Reads(keywords, names, names[id], Word(Identifier(id)))
  {
    WordReads(keywords, names[id]);
    NameHasItsIndex(names, id);
  }

  lemma FixedWordReads(keywords: L.Keywords, names: seq<string>, t: Token)
    requires Speaks(keywords) && FixedWord(t).Some?
    ensures Reads(keywords, names, FixedWord(t).value.0, t)
  {
    var (w, k) := FixedWord(t).value;
    KeywordReads(keywords, names, w, k, t);
  }

  lemma SpellingReads(keywords: L.Keywords, names: seq<string>, t: Token)
    requires Speaks(keywords) && Distinct(names) && Spellable(keywords, names, t)
    ensures Reads(keywords, names, Spelling(keywords, names, t), t)
  {
    if IsOperator(t) {
      OperatorReads(keywords, names, t);
    } else if FixedWord(t).Some? {
      FixedWordReads(keywords, names, t);
    } else {
      match t
      case Word(Identifier(id)) => NameReads(keywords, names, id);
      case Word(TypeName(b)) =>
        TypeTextIsWord(b);
        KeywordReads(keywords, names, TypeText(b), keywords[TypeText(b)], t);
      case IntText(text) => NumberReads(keywords, text);
    }
  }

  // ---------- whole texts ----------

  predicate AllSpellable(keywords: L.Keywords, names: seq<string>, ts: seq<Token>)
  {
    ts == [] || (Spellable(keywords, names, ts[0]) && AllSpellable(keywords, names, ts[1..]))
  }

  function Spellings(keywords: L.Keywords, names: seq<string>, ts: seq<Token>): (ws: seq<string>)
    requires AllSpellable(keywords, names, ts)
    ensures |ws| == |ts|
  {
    if ts == [] then [] else [Spelling(keywords, names, ts[0])] + Spellings(keywords, names, ts[1..])
  }

  lemma {:induction false} SpellingsLex(keywords: L.Keywords, names: seq<string>, ts: seq<Token>)
    requires Speaks(keywords) && Distinct(names) && AllSpellable(keywords, names, ts)
    ensures Lexemes(keywords, Spellings(keywords, names, ts))
    decreases |ts|
  {
    if ts != [] {
      SpellingReads(keywords, names, ts[0]);
      SpellingsLex(keywords, names, ts[1..]);
      var ws := Spellings(keywords, names, ts);
      assert ws[0] == Spelling(keywords, names, ts[0]) && ws[1..] == Spellings(keywords, names, ts[1..]);
    }
  }

  lemma SeenStep(keywords: L.Keywords, names: seq<string>, src: string, l: L.Token, t: Token)
    requires Speaks(keywords) && Distinct(names) && Spellable(keywords, names, t)
    requires Lexeme(keywords, Spelling(keywords, names, t)) && SpelledAt(keywords, src, l, Spelling(keywords, names, t))
    ensures Seen(names, l.kind, src[l.start..l.end]) == t
  {
    SpellingReads(keywords, names, t);
  }

  lemma Unspell(keywords: L.Keywords, names: seq<string>, ts: seq<Token>)
    requires ts != [] && AllSpellable(keywords, names, ts)
    ensures var ws := Spellings(keywords, names, ts);
            ws[0] == Spelling(keywords, names, ts[0]) && ws[1..] == Spellings(keywords, names, ts[1..])
  {}

  predicate Inside(src: string, lexed: seq<L.Token>)
  {
    lexed == [] || (lexed[0].start <= lexed[0].end <= |src| && Inside(src, lexed[1..]))
  }

  /** The token list spells the parser's tokens. */
  predicate Writes(keywords: L.Keywords, names: seq<string>, src: string, lexed: seq<L.Token>, ts: seq<Token>)
    requires AllSpellable(keywords, names, ts)
  {
    var ws := Spellings(keywords, names, ts);
    Inside(src, lexed) && Lexemes(keywords, ws) && Spells(keywords, src, lexed, ws)
  }

  lemma SeenFirst(keywords: L.Keywords, names: seq<string>, src: string, lexed: seq<L.Token>, ts: seq<Token>)
    returns (rest: seq<L.Token>)
    requires Speaks(keywords) && Distinct(names) && ts != [] && AllSpellable(keywords, names, ts)
    requires Writes(keywords, names, src, lexed, ts)
    ensures Inside(src, rest) && SeenAll(names, src, lexed) == [ts[0]] + SeenAll(names, src, rest)
    ensures Writes(keywords, names, src, rest, ts[1..])
  {
    rest := lexed[1..];
    Unspell(keywords, names, ts);
    SeenStep(keywords, names, src, lexed[0], ts[0]);
  }

  lemma SeenEnd(keywords: L.Keywords, names: seq<string>, src: string, lexed: seq<L.Token>, ts: seq<Token>)
    requires ts == [] && Writes(keywords, names, src, lexed, ts)
    ensures SeenAll(names, src, lexed) == ts + [END]
  {
    assert lexed == [lexed[0]] && lexed[1..] == [];
  }

  lemma Glue(ts: seq<Token>)
    requires ts != []
    ensures [ts[0]] + (ts[1..] + [END]) == ts + [END]
  {}

  lemma {:induction false} SeenIsSpelled(keywords: L.Keywords, names: seq<string>, src: string, lexed: seq<L.Token>,
                                         ts: seq<Token>)
    requires Speaks(keywords) && Distinct(names) && AllSpellable(keywords, names, ts)
    requires Writes(keywords, names, src, lexed, ts)
    ensures SeenAll(names, src, lexed) == ts + [END]
    decreases |ts|
  {
    if ts == [] {
      SeenEnd(keywords, names, src, lexed, ts);
    } else {
      var rest := SeenFirst(keywords, names, src, lexed, ts);
      SeenIsSpelled(keywords, names, src, rest, ts[1..]);
      Glue(ts);
    }
  }

  lemma {:induction false} LexedInside(keywords: L.Keywords, src: string, p: nat)
    requires p <= |src|
    ensures Inside(src, L.Lex(keywords, src, p))
    decreases |src| - p
  {
    var t := L.NextToken(keywords, src, p);
    if t.kind == L.EOF {
      assert L.Lex(keywords, src, p)[1..] == [];
    } else {
      LexedInside(keywords, src, t.end);
      assert L.Lex(keywords, src, p)[1..] == L.Lex(keywords, src, t.end);
    }
  }

  /** The tree of a whole source text, which must be one expression. */
  function ParseText(keywords: L.Keywords, names: seq<string>, src: string): Option<Expr>
  {
    LexedInside(keywords, src, 0);
    match ParseExpr(SeenAll(names, src, L.Lex(keywords, src, 0)))
    case Fail => None
    case Got(e, rest) => if rest == [END] then Some(e) else None
  }

  /** The parser sees the tokens that were spelled, then the end. */
  lemma TextIsSeen(keywords: L.Keywords, names: seq<string>, ts: seq<Token>, gaps: seq<string>, src: string)
    requires Speaks(keywords) && Distinct(names) && AllSpellable(keywords, names, ts)
    requires Layout(gaps) && |gaps| == |ts| && src == Render(Spellings(keywords, names, ts), gaps)
    ensures Inside(src, L.Lex(keywords, src, 0)) && SeenAll(names, src, L.Lex(keywords, src, 0)) == ts + [END]
  {
    SpellingsLex(keywords, names, ts);
    RenderedWordsLexBack(keywords, Spellings(keywords, names, ts), gaps);
    LexedInside(keywords, src, 0);
    SeenIsSpelled(keywords, names, src, L.Lex(keywords, src, 0), ts);
  }

  lemma SeenIsParsed(keywords: L.Keywords, names: seq<string>, ts: seq<Token>, src: string, e: Expr)
    requires Inside(src, L.Lex(keywords, src, 0)) && SeenAll(names, src, L.Lex(keywords, src, 0)) == ts + [END]
    ensures ParseText(keywords, names, src) == Some(e) <==> ParseExpr(ts + [END]) == Got(e, [END])
  {}

  /**
   * Write a tree out with the fewest parentheses, spell its tokens, separate them by
   * any white space, lex the text and parse it: the same tree comes back if and only
   * if every guess at `<` comes out right.
   */
  lemma SourceRoundTrip(keywords: L.Keywords, names: seq<string>, e: Expr, gaps: seq<string>)
    requires Speaks(keywords) && Distinct(names) && Printable(e) && AllSpellable(keywords, names, Print(0, e))
    requires Layout(gaps) && |gaps| == |Print(0, e)|
    ensures ParseText(keywords, names, Render(Spellings(keywords, names, Print(0, e)), gaps)) == Some(e)
            <==> Clear(0, e, [END])
  {
    TextIsSeen(keywords, names, Print(0, e), gaps, Render(Spellings(keywords, names, Print(0, e)), gaps));
    Misreading.RoundTripIff(e, [END]);
    SeenIsParsed(keywords, names, Print(0, e), Render(Spellings(keywords, names, Print(0, e)), gaps), e);
  }
}
