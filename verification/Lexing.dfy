/** What the lexer computes: where each token of a source text begins and ends, and what it is. */
module Lexing {
  import opened Options

  datatype Kind =
    // keywords
    | FN | IF | ELSE | WHILE | FOR | RETURN | BREAK | CONTINUE | DEFER | CONST | PUB | IMPORT | ALIAS
    | STRUCT | ENUM | IMPL | AS
    | I8 | I16 | I32 | I64 | U8 | U16 | U32 | U64 | BOOL | F32 | F64 | STRING | CHAR | USIZE | ISIZE | VOID
    | TRUE | FALSE | NULL
    // operators and punctuation
    | PLUSPLUS | MINUSMINUS | PLUS_EQ | MINUS_EQ | STAR_EQ | SLASH_EQ | PERCENT_EQ | EQ_EQ | BANG_EQ | LT_EQ | GT_EQ
    | AND_AND | OR_OR | ARROW | ASSIGN | PLUS | MINUS | STAR | SLASH | PERCENT | BANG | AMP | LT | GT | PIPE
    | DOT | LPAREN | RPAREN | LBRACE | RBRACE | LBRACKET | RBRACKET | COMMA | SEMICOLON | COLON | AT
    // the rest
    | FLOAT_LIT | INT_LIT | STRING_LIT | CHAR_LIT | IDENTIFIER | EOF | UNKNOWN

  /** What the record of a token points to: an interned text, or a character code. */
  datatype Record = NoRecord | Interned(text: string) | Code(code: char)

  datatype Position = Position(line: nat, col: nat)

  datatype Token = Token(kind: Kind, start: nat, end: nat, record: Record, from: Position, to: Position)

  // ---------- characters ----------

  predicate IsSpace(c: char) { c == ' ' || '\t' <= c <= '\r' }

  predicate IsDigit(c: char) { '0' <= c <= '9' }

  predicate IsAlpha(c: char) { c == '_' || 'a' <= c <= 'z' || 'A' <= c <= 'Z' }

  datatype CharClass = WordChar | DecimalChar | HexChar | BinaryChar
  {
    predicate Has(c: char)
    {
      match this
      case WordChar => IsAlpha(c) || IsDigit(c)
      case DecimalChar => IsDigit(c) || c == '_'
      case HexChar => IsDigit(c) || 'a' <= c <= 'f' || 'A' <= c <= 'F' || c == '_'
      case BinaryChar => c == '0' || c == '1' || c == '_'
    }
  }

  // ---------- positions ----------

  /** The column restarts after each newline; both are functions of the text before the position. */
  function LineStart(src: string, p: nat): (s: nat)
    requires p <= |src|
    ensures s <= p
  {
    if p == 0 then 0 else if src[p - 1] == '\n' then p else LineStart(src, p - 1)
  }

  function Newlines(src: string, p: nat): nat
    requires p <= |src|
  {
    if p == 0 then 0 else Newlines(src, p - 1) + if src[p - 1] == '\n' then 1 else 0
  }

  function PositionAt(src: string, p: nat): Position
    requires p <= |src|
  {
    Position(1 + Newlines(src, p), 1 + p - LineStart(src, p))
  }

  // ---------- whitespace and comments ----------

  function LineEnd(src: string, p: nat): (e: nat)
    requires p <= |src|
    ensures p <= e <= |src|
    decreases |src| - p
  {
    if p < |src| && src[p] != '\n' then LineEnd(src, p + 1) else p
  }

  predicate Pair(src: string, p: nat, a: char, b: char)
  {
    p + 1 < |src| && src[p] == a && src[p + 1] == b
  }

  function BlockEnd(src: string, p: nat): (e: nat)
    requires p <= |src|
    ensures p <= e <= |src|
    decreases |src| - p
  {
    if p == |src| then p else if Pair(src, p, '*', '/') then p + 2 else BlockEnd(src, p + 1)
  }

  function SkipBlank(src: string, p: nat): (e: nat)
    requires p <= |src|
    ensures p <= e <= |src|
    decreases |src| - p
  {
    if p == |src| then p
    else if Pair(src, p, '/', '/') then SkipBlank(src, LineEnd(src, p + 2))
    else if Pair(src, p, '/', '*') then SkipBlank(src, BlockEnd(src, p + 2))
    else if IsSpace(src[p]) then SkipBlank(src, p + 1)
    else p
  }

  // ---------- the extent of one token ----------

  function ScanWhile(src: string, p: nat, chars: CharClass): (e: nat)
    requires p <= |src|
    ensures p <= e <= |src|
    decreases |src| - p
  {
    if p < |src| && chars.Has(src[p]) then ScanWhile(src, p + 1, chars) else p
  }

  function OneOf(src: string, p: nat, a: char, b: char): bool
  {
    p < |src| && (src[p] == a || src[p] == b)
  }

  function ExponentEnd(src: string, p: nat): (e: nat)
    requires p <= |src|
    ensures p <= e <= |src|
  {
    if !OneOf(src, p, 'e', 'E') then p
    else if OneOf(src, p + 1, '+', '-') then ScanWhile(src, p + 2, DecimalChar)
    else ScanWhile(src, p + 1, DecimalChar)
  }

  /** The rest of a decimal number: a point counts only when a digit follows it. */
  function DecimalEnd(src: string, p: nat): (r: (Kind, nat))
    requires p <= |src|
    ensures p <= r.1 <= |src| && r.0 in {INT_LIT, FLOAT_LIT}
  {
    var whole := ScanWhile(src, p, DecimalChar);
    if whole + 1 < |src| && src[whole] == '.' && IsDigit(src[whole + 1]) then
      (FLOAT_LIT, ExponentEnd(src, ScanWhile(src, whole + 1, DecimalChar)))
    else (INT_LIT, whole)
  }

  function NumberEnd(src: string, p: nat): (r: (Kind, nat))
    requires p < |src| && IsDigit(src[p])
    ensures p < r.1 <= |src| && r.0 in {INT_LIT, FLOAT_LIT}
  {
    if src[p] == '0' && OneOf(src, p + 1, 'x', 'X') then (INT_LIT, ScanWhile(src, p + 2, HexChar))
    else if src[p] == '0' && OneOf(src, p + 1, 'b', 'B') then (INT_LIT, ScanWhile(src, p + 2, BinaryChar))
    else DecimalEnd(src, p + 1)
  }

  /** The closing quote of a string, escapes skipped; the end of the source when there is none. */
  function QuoteEnd(src: string, p: nat): (e: nat)
    requires p <= |src|
    ensures p <= e <= |src| && (e < |src| ==> src[e] == '"')
    decreases |src| - p
  {
    if p == |src| || src[p] == '"' then p
    else if src[p] == '\\' then (if p + 1 < |src| then QuoteEnd(src, p + 2) else p + 1)
    else QuoteEnd(src, p + 1)
  }

  function StringEnd(src: string, p: nat): (r: (Kind, nat))
    requires p < |src|
    ensures p < r.1 <= |src| && (r.0 == STRING_LIT ==> p + 2 <= r.1) && r.0 in {STRING_LIT, UNKNOWN}
  {
    var e := QuoteEnd(src, p + 1);
    if e == |src| then (UNKNOWN, e) else (STRING_LIT, e + 1)
  }

  function Escape(c: char): char
  {
    match c
    case 'n' => '\n'
    case 't' => '\t'
    case 'r' => '\r'
    case '0' => '\0'
    case _ => c
  }

  function CharEnd(src: string, p: nat): (r: (Kind, nat, Record))
    requires p < |src|
    ensures p < r.1 <= |src| && r.0 in {CHAR_LIT, UNKNOWN}
  {
    if p + 1 == |src| then (UNKNOWN, p + 1, NoRecord)
    else
      var escaped := src[p + 1] == '\\';
      if escaped && p + 2 == |src| then (UNKNOWN, p + 2, NoRecord)
      else
        var (code, close) := if escaped then (Escape(src[p + 2]), p + 3) else (src[p + 1], p + 2);
        if close < |src| && src[close] == '\'' then (CHAR_LIT, close + 1, Code(code)) else (UNKNOWN, close, NoRecord)
  }

  /** The content of a string literal with its escapes resolved. */
  function Unescape(raw: string): string
  {
    if raw == [] then []
    else if raw[0] != '\\' then [raw[0]] + Unescape(raw[1..])
    else if |raw| == 1 then []
    else [Escape(raw[1])] + Unescape(raw[2..])
  }

  /** An empty literal leaves the record unset: there is no memory to intern it from. */
  function StringRecord(raw: string): Record
  {
    if raw == [] then NoRecord else Interned(Unescape(raw))
  }

  /** The keyword interner, which keeps the kind of each word beside it. */
  type Keywords = m: map<string, Kind> | forall w :: w in m ==> m[w] != EOF && m[w] != UNKNOWN

  function WordKind(keywords: Keywords, word: string): Kind
  {
    if word in keywords then keywords[word] else IDENTIFIER
  }

  /** The two-character operators. */
  function DoubleOperator(a: char, b: char): Option<Kind>
  {
    if b == '=' then
      match a
      case '+' => Some(PLUS_EQ)
      case '-' => Some(MINUS_EQ)
      case '*' => Some(STAR_EQ)
      case '/' => Some(SLASH_EQ)
      case '%' => Some(PERCENT_EQ)
      case '=' => Some(EQ_EQ)
      case '!' => Some(BANG_EQ)
      case '<' => Some(LT_EQ)
      case '>' => Some(GT_EQ)
      case _ => None
    else if a == '+' && b == '+' then Some(PLUSPLUS)
    else if a == '-' && b == '-' then Some(MINUSMINUS)
    else if a == '-' && b == '>' then Some(ARROW)
    else if a == '&' && b == '&' then Some(AND_AND)
    else if a == '|' && b == '|' then Some(OR_OR)
    else None
  }

  function SingleOperator(a: char): Kind
  {
    match a
    case '+' => PLUS
    case '-' => MINUS
    case '=' => ASSIGN
    case '!' => BANG
    case '<' => LT
    case '>' => GT
    case '&' => AMP
    case '|' => PIPE
    case '(' => LPAREN
    case ')' => RPAREN
    case '{' => LBRACE
    case '}' => RBRACE
    case '[' => LBRACKET
    case ']' => RBRACKET
    case ',' => COMMA
    case ';' => SEMICOLON
    case ':' => COLON
    case '@' => AT
    case '*' => STAR
    case '/' => SLASH
    case '%' => PERCENT
    case '.' => DOT
    case _ => UNKNOWN
  }

  function OperatorEnd(src: string, p: nat): (r: (Kind, nat))
    requires p < |src|
    ensures p < r.1 <= |src| && r.0 != EOF
  {
    if p + 1 < |src| && DoubleOperator(src[p], src[p + 1]).Some? then (DoubleOperator(src[p], src[p + 1]).value, p + 2)
    else (SingleOperator(src[p]), p + 1)
  }

  function WordExtent(keywords: Keywords, src: string, p: nat): (r: (Kind, nat, Record))
    requires p < |src|
    ensures p < r.1 <= |src| && r.0 != EOF
  {
    var e := ScanWhile(src, p + 1, WordChar);
    (WordKind(keywords, src[p..e]), e, Interned(src[p..e]))
  }

  function NumberExtent(src: string, p: nat): (r: (Kind, nat, Record))
    requires p < |src| && IsDigit(src[p])
    ensures p < r.1 <= |src| && r.0 != EOF
  {
    var (k, e) := NumberEnd(src, p);
    (k, e, NoRecord)
  }

  function StringExtent(src: string, p: nat): (r: (Kind, nat, Record))
    requires p < |src|
    ensures p < r.1 <= |src| && r.0 != EOF
  {
    var (k, e) := StringEnd(src, p);
    (k, e, if k == STRING_LIT then StringRecord(src[p + 1..e - 1]) else NoRecord)
  }

  function OperatorExtent(src: string, p: nat): (r: (Kind, nat, Record))
    requires p < |src|
    ensures p < r.1 <= |src| && r.0 != EOF
  {
    var (k, e) := OperatorEnd(src, p);
    (k, e, NoRecord)
  }

  /** Kind, end and record of the token that starts at p. */
  function Extent(keywords: Keywords, src: string, p: nat): (r: (Kind, nat, Record))
    requires p < |src|
    ensures p < r.1 <= |src| && r.0 != EOF
  {
    if IsAlpha(src[p]) then WordExtent(keywords, src, p)
    else if IsDigit(src[p]) then NumberExtent(src, p)
    else if src[p] == '"' then StringExtent(src, p)
    else if src[p] == '\'' then CharEnd(src, p)
    else OperatorExtent(src, p)
  }

  function NextToken(keywords: Keywords, src: string, p: nat): (t: Token)
    requires p <= |src|
    ensures p <= t.start <= t.end <= |src| && (t.kind == EOF <==> t.start == |src|)
    ensures t.kind != EOF ==> t.start < t.end
  {
    var s := SkipBlank(src, p);
    if s == |src| then Token(EOF, s, s, NoRecord, PositionAt(src, s), PositionAt(src, s))
    else
      var (k, e, rec) := Extent(keywords, src, s);
      Token(k, s, e, rec, PositionAt(src, s), PositionAt(src, e))
  }

  function Lex(keywords: Keywords, src: string, p: nat): (ts: seq<Token>)
    requires p <= |src|
    ensures ts != []
    decreases |src| - p
  {
    var t := NextToken(keywords, src, p);
    if t.kind == EOF then [t] else [t] + Lex(keywords, src, t.end)
  }
}
