/**
 * What the tokens look like: each kind by the texts it stands for, told independently of the
 * scan.  Every token is the longest text of its form; quoted texts come back as they were.
 */
module LexicalForms {
  import opened Options
  import opened Lexing

  // ---------- characters ----------

  predicate White(c: char) { c in {' ', '\t', '\n', '\U{B}', '\U{C}', '\r'} }

  predicate Digit(c: char) { c in {'0', '1', '2', '3', '4', '5', '6', '7', '8', '9'} }

  predicate HexLetter(c: char) { c in {'a', 'b', 'c', 'd', 'e', 'f', 'A', 'B', 'C', 'D', 'E', 'F'} }

  predicate Letter(c: char)
  {
    || c in {'a', 'b', 'c', 'd', 'e', 'f', 'g', 'h', 'i', 'j', 'k', 'l', 'm',
             'n', 'o', 'p', 'q', 'r', 's', 't', 'u', 'v', 'w', 'x', 'y', 'z'}
    || c in {'A', 'B', 'C', 'D', 'E', 'F', 'G', 'H', 'I', 'J', 'K', 'L', 'M',
             'N', 'O', 'P', 'Q', 'R', 'S', 'T', 'U', 'V', 'W', 'X', 'Y', 'Z'}
  }

  /** The characters a run of that class is made of. */
  predicate InClass(chars: CharClass, c: char)
  {
    c == '_' ||
    match chars
    case WordChar => Letter(c) || Digit(c)
    case DecimalChar => Digit(c)
    case HexChar => Digit(c) || HexLetter(c)
    case BinaryChar => c == '0' || c == '1'
  }

  lemma CharacterClasses(c: char)
    ensures IsSpace(c) <==> White(c)
    ensures IsDigit(c) <==> Digit(c)
    ensures IsAlpha(c) <==> Letter(c) || c == '_'
    ensures forall chars: CharClass :: chars.Has(c) <==> InClass(chars, c)
  {
  }

  predicate AllIn(src: string, a: nat, b: nat, chars: CharClass)
    requires a <= b <= |src|
  {
    forall i :: a <= i < b ==> InClass(chars, src[i])
  }

  /** A run and all that could be added to it. */
  lemma {:induction false} ScanIsLongest(src: string, p: nat, chars: CharClass)
    requires p <= |src|
    ensures var e := ScanWhile(src, p, chars);
            AllIn(src, p, e, chars) && (e < |src| ==> !InClass(chars, src[e]))
    decreases |src| - p
  {
    if p < |src| {
      CharacterClasses(src[p]);
      if chars.Has(src[p]) {
        ScanIsLongest(src, p + 1, chars);
      }
    }
  }

  lemma NoLonger(src: string, p: nat, chars: CharClass, e: nat)
    requires p <= e <= |src| && AllIn(src, p, e, chars)
    ensures e <= ScanWhile(src, p, chars)
  {
    ScanIsLongest(src, p, chars);
  }

  // ---------- words ----------

  /** A word is as long a run of letters, digits and underscores as there is, and its record is its text. */
  lemma WordIsLongest(keywords: Keywords, src: string, p: nat)
    requires p < |src| && (Letter(src[p]) || src[p] == '_')
    ensures var (k, e, rec) := Extent(keywords, src, p);
            && AllIn(src, p, e, WordChar) && (e < |src| ==> !InClass(WordChar, src[e]))
            && rec == Interned(src[p..e])
            && k == if src[p..e] in keywords then keywords[src[p..e]] else IDENTIFIER
  {
    CharacterClasses(src[p]);
    ScanIsLongest(src, p + 1, WordChar);
  }

  // ---------- numbers ----------

  predicate Whole(src: string, p: nat, e: nat)
  {
    p < e <= |src| && Digit(src[p]) && AllIn(src, p + 1, e, DecimalChar)
  }

  predicate Based(src: string, p: nat, e: nat, small: char, large: char, chars: CharClass)
  {
    p + 2 <= e <= |src| && src[p] == '0' && src[p + 1] in {small, large} && AllIn(src, p + 2, e, chars)
  }

  /** Nothing, or an `e` with a sign or none and digits, which may also be missing. */
  predicate Exponent(src: string, p: nat, e: nat)
    requires p <= e <= |src|
  {
    || p == e
    || (src[p] in {'e', 'E'}
        && (AllIn(src, p + 1, e, DecimalChar)
            || (p + 2 <= e && src[p + 1] in {'+', '-'} && AllIn(src, p + 2, e, DecimalChar))))
  }

  /** A whole number up to the point at q, digits behind it up to r, and an exponent. */
  predicate Fraction(src: string, p: nat, q: nat, r: nat, e: nat)
  {
    && Whole(src, p, q) && q + 2 <= r <= e <= |src| && src[q] == '.' && Digit(src[q + 1])
    && AllIn(src, q + 2, r, DecimalChar) && Exponent(src, r, e)
  }

  ghost predicate NumberForm(k: Kind, src: string, p: nat, e: nat)
  {
    match k
    case INT_LIT =>
      Whole(src, p, e) || Based(src, p, e, 'x', 'X', HexChar) || Based(src, p, e, 'b', 'B', BinaryChar)
    case FLOAT_LIT => exists q, r :: Fraction(src, p, q, r, e)
    case _ => false
  }

  lemma ExponentIsLongest(src: string, p: nat)
    requires p <= |src|
    ensures Exponent(src, p, ExponentEnd(src, p))
    ensures forall e :: p <= e <= |src| && Exponent(src, p, e) ==> e <= ExponentEnd(src, p)
  {
    if OneOf(src, p, 'e', 'E') {
      ScanIsLongest(src, p + 1, DecimalChar);
      if OneOf(src, p + 1, '+', '-') {
        ScanIsLongest(src, p + 2, DecimalChar);
      }
    }
  }

  /** From behind the first digit of a decimal number. */
  lemma DecimalIsForm(src: string, p: nat)
    requires p < |src| && Digit(src[p])
    ensures var (k, e) := DecimalEnd(src, p + 1); NumberForm(k, src, p, e)
  {
    var whole := ScanWhile(src, p + 1, DecimalChar);
    ScanIsLongest(src, p + 1, DecimalChar);
    assert Whole(src, p, whole);
    if DecimalEnd(src, p + 1).0 == FLOAT_LIT {
      FractionIsForm(src, p, whole);
    }
  }

  lemma FractionIsForm(src: string, p: nat, q: nat)
    requires Whole(src, p, q) && q + 1 < |src| && src[q] == '.' && IsDigit(src[q + 1])
    ensures var r := ScanWhile(src, q + 1, DecimalChar); Fraction(src, p, q, r, ExponentEnd(src, r))
  {
    CharacterClasses(src[q + 1]);
    var r := ScanWhile(src, q + 1, DecimalChar);
    ScanIsLongest(src, q + 1, DecimalChar);
    assert InClass(DecimalChar, src[q + 1]);
    ExponentIsLongest(src, r);
  }

  lemma WholeEnd(src: string, p: nat, q: nat)
    requires Whole(src, p, q) && q < |src| && src[q] == '.'
    ensures q == ScanWhile(src, p + 1, DecimalChar)
  {
    NoLonger(src, p + 1, DecimalChar, q);
    ScanIsLongest(src, p + 1, DecimalChar);
  }

  lemma FractionIsShorter(src: string, p: nat, q: nat, r: nat, e: nat)
    requires Fraction(src, p, q, r, e)
    ensures e <= DecimalEnd(src, p + 1).1
  {
    WholeEnd(src, p, q);
    CharacterClasses(src[q + 1]);
    var end := ScanWhile(src, q + 1, DecimalChar);
    NoLonger(src, q + 1, DecimalChar, r);
    ScanIsLongest(src, q + 1, DecimalChar);
    ExponentIsLongest(src, end);
    if r < end {
      assert InClass(DecimalChar, src[r]);
    }
  }

  lemma DecimalIsLongest(src: string, p: nat, k: Kind, e: nat)
    requires p < |src| && Digit(src[p]) && NumberForm(k, src, p, e)
    requires !Based(src, p, e, 'x', 'X', HexChar) && !Based(src, p, e, 'b', 'B', BinaryChar)
    ensures e <= DecimalEnd(src, p + 1).1
  {
    if k == INT_LIT {
      NoLonger(src, p + 1, DecimalChar, e);
      var whole := ScanWhile(src, p + 1, DecimalChar);
      if DecimalEnd(src, p + 1).0 == FLOAT_LIT {
        assert whole <= ScanWhile(src, whole + 1, DecimalChar);
      }
    } else {
      var q, r :| Fraction(src, p, q, r, e);
      FractionIsShorter(src, p, q, r, e);
    }
  }

  lemma NoFraction(src: string, p: nat, e: nat)
    requires p + 1 < |src| && !InClass(DecimalChar, src[p + 1]) && src[p + 1] != '.'
    ensures !NumberForm(FLOAT_LIT, src, p, e) && (Whole(src, p, e) ==> e == p + 1)
  {
    var second := src[p + 1];
    forall q: nat, r: nat
      ensures !Fraction(src, p, q, r, e)
    {
      assert Whole(src, p, q) && q > p + 1 ==> InClass(DecimalChar, second);
    }
    assert Whole(src, p, e) && e > p + 1 ==> InClass(DecimalChar, second);
  }

  /** With a letter behind its first digit, only the number in that base goes further than the digit. */
  lemma BasedIsLongest(src: string, p: nat, k: Kind, e: nat, small: char, large: char, chars: CharClass)
    requires p + 1 < |src| && src[p] == '0' && src[p + 1] in {small, large}
    requires (small, large, chars) in {('x', 'X', HexChar), ('b', 'B', BinaryChar)}
    requires NumberForm(k, src, p, e)
    ensures e <= ScanWhile(src, p + 2, chars)
  {
    NoFraction(src, p, e);
    if Based(src, p, e, small, large, chars) {
      NoLonger(src, p + 2, chars, e);
    }
  }

  lemma NumberIsForm(src: string, p: nat)
    requires p < |src| && IsDigit(src[p])
    ensures var (k, e) := NumberEnd(src, p); NumberForm(k, src, p, e)
  {
    CharacterClasses(src[p]);
    if src[p] == '0' && OneOf(src, p + 1, 'x', 'X') {
      ScanIsLongest(src, p + 2, HexChar);
    } else if src[p] == '0' && OneOf(src, p + 1, 'b', 'B') {
      ScanIsLongest(src, p + 2, BinaryChar);
    } else {
      DecimalIsForm(src, p);
    }
  }

  lemma FormIsShorter(src: string, p: nat, f: Kind, end: nat)
    requires p < |src| && IsDigit(src[p]) && NumberForm(f, src, p, end)
    ensures end <= NumberEnd(src, p).1
  {
    CharacterClasses(src[p]);
    if src[p] == '0' && OneOf(src, p + 1, 'x', 'X') {
      BasedIsLongest(src, p, f, end, 'x', 'X', HexChar);
    } else if src[p] == '0' && OneOf(src, p + 1, 'b', 'B') {
      BasedIsLongest(src, p, f, end, 'b', 'B', BinaryChar);
    } else {
      DecimalIsLongest(src, p, f, end);
    }
  }

  /** A number has one of the forms, and no longer text from its start has. */
  lemma NumberIsLongest(src: string, p: nat, f: Kind, end: nat)
    requires p < |src| && IsDigit(src[p])
    ensures var (k, e) := NumberEnd(src, p); NumberForm(k, src, p, e) && (NumberForm(f, src, p, end) ==> end <= e)
  {
    NumberIsForm(src, p);
    if NumberForm(f, src, p, end) {
      FormIsShorter(src, p, f, end);
    }
  }

  // ---------- operators and punctuation ----------

  /** The text of an operator or punctuation mark; none for the other kinds. */
  function OperatorText(k: Kind): string
  {
    match k
    case PLUSPLUS => "++"
    case MINUSMINUS => "--"
    case PLUS_EQ => "+="
    case MINUS_EQ => "-="
    case STAR_EQ => "*="
    case SLASH_EQ => "/="
    case PERCENT_EQ => "%="
    case EQ_EQ => "=="
    case BANG_EQ => "!="
    case LT_EQ => "<="
    case GT_EQ => ">="
    case AND_AND => "&&"
    case OR_OR => "||"
    case ARROW => "->"
    case ASSIGN => "="
    case PLUS => "+"
    case MINUS => "-"
    case STAR => "*"
    case SLASH => "/"
    case PERCENT => "%"
    case BANG => "!"
    case AMP => "&"
    case LT => "<"
    case GT => ">"
    case PIPE => "|"
    case DOT => "."
    case LPAREN => "("
    case RPAREN => ")"
    case LBRACE => "{"
    case RBRACE => "}"
    case LBRACKET => "["
    case RBRACKET => "]"
    case COMMA => ","
    case SEMICOLON => ";"
    case COLON => ":"
    case AT => "@"
    case _ => ""
  }

  /** The text of that kind stands at p. */
  predicate OperatorAt(k: Kind, src: string, p: nat)
    requires p < |src|
  {
    var w := OperatorText(k);
    || (|w| == 1 && src[p] == w[0])
    || (|w| == 2 && p + 1 < |src| && src[p] == w[0] && src[p + 1] == w[1])
  }

  lemma DoubleIsSpelled(a: char, b: char)
    ensures var k := DoubleOperator(a, b); k.Some? ==> k.value != UNKNOWN && OperatorText(k.value) == [a, b]
  {
    if b == '=' {
    } else {
    }
  }

  lemma SingleIsSpelled(a: char)
    ensures var k := SingleOperator(a); k != UNKNOWN ==> OperatorText(k) == [a]
  {
    if a in {'+', '-', '=', '!', '<', '>', '&', '|', '*', '/', '%'} {
    } else {
    }
  }

  lemma SpelledIsFound(k: Kind)
    ensures var w := OperatorText(k);
            && (|w| == 1 ==> SingleOperator(w[0]) == k != UNKNOWN)
            && (|w| == 2 ==> DoubleOperator(w[0], w[1]) == Some(k))
  {
  }

  /** Of the operators whose text stands at p, the longest is taken; an unknown character if there is none. */
  lemma OperatorIsLongest(src: string, p: nat, k: Kind)
    requires p < |src|
    ensures var (found, e) := OperatorEnd(src, p);
            && (if found == UNKNOWN then e == p + 1 && !OperatorAt(k, src, p)
                else OperatorAt(found, src, p) && e == p + |OperatorText(found)|)
            && (OperatorAt(k, src, p) ==>
                  |OperatorText(k)| <= |OperatorText(found)|
                  && (|OperatorText(k)| == |OperatorText(found)| ==> found == k))
  {
    SingleIsSpelled(src[p]);
    SpelledIsFound(k);
    if p + 1 < |src| {
      DoubleIsSpelled(src[p], src[p + 1]);
    }
  }

  // ---------- quoted texts ----------

  /** How a character is written inside quotes. */
  function Quote(c: char): (w: string)
    ensures |w| in {1, 2}
  {
    match c
    case '\n' => ['\\', 'n']
    case '\t' => ['\\', 't']
    case '\r' => ['\\', 'r']
    case '\0' => ['\\', '0']
    case '\\' => ['\\', '\\']
    case '"' => ['\\', '"']
    case '\'' => ['\\', '\'']
    case _ => [c]
  }

  function QuoteAll(text: string): (w: string)
    ensures text != [] ==> w != []
  {
    if text == [] then [] else Quote(text[0]) + QuoteAll(text[1..])
  }

  lemma {:induction false} QuoteUnescapes(text: string)
    ensures Unescape(QuoteAll(text)) == text
    decreases |text|
  {
    if text != [] {
      var w, rest := Quote(text[0]), QuoteAll(text[1..]);
      QuoteUnescapes(text[1..]);
      assert (w + rest)[|w|..] == rest;
      assert (w + rest)[0] == w[0];
      if |w| == 2 {
        assert (w + rest)[1] == w[1];
      }
      assert text == [text[0]] + text[1..];
    }
  }

  predicate StandsAt(src: string, p: nat, w: string)
  {
    p + |w| <= |src| && src[p..p + |w|] == w
  }

  lemma StandsParts(src: string, p: nat, a: string, b: string)
    requires StandsAt(src, p, a + b)
    ensures StandsAt(src, p, a) && StandsAt(src, p + |a|, b)
  {
    assert src[p..p + |a|] == src[p..p + |a + b|][..|a|];
    assert src[p + |a|..p + |a| + |b|] == src[p..p + |a + b|][|a|..];
  }

  lemma {:induction false} QuoteCloses(src: string, p: nat, text: string)
    requires StandsAt(src, p, QuoteAll(text) + ['"'])
    ensures QuoteEnd(src, p) == p + |QuoteAll(text)|
    decreases |text|
  {
    if text == [] {
      assert src[p] == src[p..p + 1][0];
    } else {
      var w, rest := Quote(text[0]), QuoteAll(text[1..]);
      assert w + rest + ['"'] == w + (rest + ['"']);
      StandsParts(src, p, w, rest + ['"']);
      QuoteCloses(src, p + |w|, text[1..]);
      assert src[p] == src[p..p + |w|][0];
      if |w| == 2 {
        assert src[p + 1] == src[p..p + |w|][1];
      }
    }
  }

  /** A text that is not empty, written in double quotes anywhere, is one token whose record is the text. */
  lemma StringLexesBack(keywords: Keywords, src: string, p: nat, text: string, w: string)
    requires text != [] && w == QuoteAll(text) && StandsAt(src, p, ['"'] + (w + ['"']))
    ensures Extent(keywords, src, p) == (STRING_LIT, p + |w| + 2, Interned(text))
  {
    StringParts(src, p, w);
    QuotedFacts(src, p + 1, text, w);
    StringOf(keywords, src, p, w);
  }

  lemma QuotedFacts(src: string, p: nat, text: string, w: string)
    requires text != [] && w == QuoteAll(text) && StandsAt(src, p, w + ['"'])
    ensures w != [] && Unescape(w) == text && QuoteEnd(src, p) == p + |w|
  {
    QuoteCloses(src, p, text);
    QuoteUnescapes(text);
  }

  lemma StringParts(src: string, p: nat, w: string)
    requires StandsAt(src, p, ['"'] + (w + ['"']))
    ensures StandsAt(src, p + 1, w + ['"']) && StandsAt(src, p + 1, w) && src[p] == src[p + 1 + |w|] == '"'
  {
    StandsParts(src, p, ['"'], w + ['"']);
    StandsParts(src, p + 1, w, ['"']);
    assert src[p] == src[p..p + 1][0];
    assert src[p + 1 + |w|] == src[p + 1 + |w|..p + 1 + |w| + 1][0];
  }

  lemma {:induction false} StringOf(keywords: Keywords, src: string, p: nat, w: string)
    requires p < |src| && src[p] == '"' && w != [] && StandsAt(src, p + 1, w) && QuoteEnd(src, p + 1) == p + 1 + |w|
    requires p + 1 + |w| < |src|
    ensures Extent(keywords, src, p) == (STRING_LIT, p + |w| + 2, Interned(Unescape(w)))
  {
    var e := p + |w| + 2;
    assert StringEnd(src, p) == (STRING_LIT, e);
    SameSlice(src, p + 1, p + 1 + |w|, e - 1);
    assert StringRecord(w) == Interned(Unescape(w));
  }

  lemma {:induction false} SameSlice(src: string, a: nat, b: nat, c: nat)
    requires a <= b == c <= |src|
    ensures src[a..c] == src[a..b]
  {
  }

  /** A character written in single quotes is one token with its code. */
  lemma CharacterLexesBack(keywords: Keywords, src: string, p: nat, c: char)
    requires StandsAt(src, p, ['\''] + (Quote(c) + ['\'']))
    ensures Extent(keywords, src, p) == (CHAR_LIT, p + |Quote(c)| + 2, Code(c))
  {
    var w := Quote(c);
    StandsParts(src, p, ['\''], w + ['\'']);
    StandsParts(src, p + 1, w, ['\'']);
    assert src[p] == src[p..p + 1][0] && src[p + 1] == src[p + 1..p + 1 + |w|][0];
    assert src[p + 1 + |w|] == src[p + 1 + |w|..p + 1 + |w| + 1][0];
    if |w| == 2 {
      assert src[p + 2] == src[p + 1..p + 1 + |w|][1];
    }
  }

  /** The empty text is a token without a record. */
  lemma EmptyString(keywords: Keywords, src: string, p: nat)
    requires StandsAt(src, p, ['"', '"'])
    ensures Extent(keywords, src, p) == (STRING_LIT, p + 2, NoRecord)
  {
    assert src[p] == src[p..p + 2][0] && src[p + 1] == src[p..p + 2][1];
    assert QuoteEnd(src, p + 1) == p + 1;
  }

  /** Without another quote a string is unknown, and runs to the end of the source. */
  lemma {:induction false} Unclosed(src: string, p: nat)
    requires p <= |src| && forall i :: p <= i < |src| ==> src[i] != '"'
    ensures QuoteEnd(src, p) == |src|
    decreases |src| - p
  {
    if p < |src| {
      Unclosed(src, if src[p] == '\\' && p + 1 < |src| then p + 2 else p + 1);
    }
  }

  lemma UnclosedString(keywords: Keywords, src: string, p: nat)
    requires p < |src| && src[p] == '"' && forall i :: p < i < |src| ==> src[i] != '"'
    ensures Extent(keywords, src, p) == (UNKNOWN, |src|, NoRecord)
  {
    Unclosed(src, p + 1);
  }

  /** A character literal is one character, or a backslash and one, between two quotes. */
  lemma CharacterForm(keywords: Keywords, src: string, p: nat)
    requires p < |src| && src[p] == '\''
    ensures var (k, e, rec) := Extent(keywords, src, p);
            k == CHAR_LIT <==>
            if p + 1 < |src| && src[p + 1] == '\\' then p + 3 < |src| && src[p + 3] == '\'' && e == p + 4
            else p + 2 < |src| && src[p + 2] == '\'' && e == p + 3
  {
  }

  /** A backslash in front of any other character stands for that character. */
  lemma OtherEscapes(c: char)
    requires c !in {'n', 't', 'r', '0'}
    ensures Unescape(['\\', c]) == [c]
  {
  }

  // ---------- positions ----------

  /** Lines and columns count from one; a newline starts a line, every other character a column. */
  lemma PositionsAdvance(src: string, p: nat)
    requires p < |src|
    ensures PositionAt(src, 0) == Position(1, 1)
    ensures var here, next := PositionAt(src, p), PositionAt(src, p + 1);
            next == if src[p] == '\n' then Position(here.line + 1, 1) else Position(here.line, here.col + 1)
  {
  }
}
