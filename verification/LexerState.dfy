/** The lexer as it runs: a cursor advanced one character at a time, keeping line and column. */
module LexerState {
  import opened Lexing

  lemma LexStep(keywords: Keywords, src: string, before: seq<Token>, p: nat, t: Token)
    requires p <= |src| && t == NextToken(keywords, src, p)
    ensures before + Lex(keywords, src, p) == before + [t] + if t.kind == EOF then [] else Lex(keywords, src, t.end)
    ensures t.kind == EOF ==> t.end == |src|
    ensures t.kind != EOF ==> p < t.end <= |src|
  {}

  lemma {:induction false} UnescapeStep(raw: string, r: nat, out: string)
    requires r < |raw|
    ensures out + Unescape(raw[r..]) ==
            if raw[r] != '\\' then out + [raw[r]] + Unescape(raw[r + 1..])
            else if r + 1 == |raw| then out
            else out + [Escape(raw[r + 1])] + Unescape(raw[r + 2..])
  {
    assert raw[r..][1..] == raw[r + 1..];
    if r + 1 < |raw| {
      assert raw[r..][2..] == raw[r + 2..];
    }
  }

  class Lexer {
    const source: string
    const keywords: Keywords
    var cur: nat
    var pos: nat
    var line: nat
    var col: nat
    var tokens: seq<Token>

    ghost predicate Valid()
      reads this
    {
      cur <= |source| && pos == cur && Position(line, col) == PositionAt(source, cur)
    }

    constructor (source: string, keywords: Keywords)
      ensures Valid() && this.source == source && this.keywords == keywords && cur == 0 && tokens == []
    {
      this.source := source;
      this.keywords := keywords;
      cur, pos, line, col := 0, 0, 1, 1;
      tokens := [];
    }

    method Advance() returns (c: char)
      requires Valid()
      modifies this`cur, this`pos, this`line, this`col
      ensures Valid()
      ensures if old(cur) == |source| then c == '\0' && cur == old(cur)
              else c == source[old(cur)] && cur == old(cur) + 1
    {
      if cur >= |source| {
        return '\0';
      }
      c := source[cur];
      cur := cur + 1;
      pos := pos + 1;
      if c == '\n' {
        line := line + 1;
        col := 1;
      } else {
        col := col + 1;
      }
    }

    /** Advances to a place found by scanning ahead. */
    method AdvanceTo(end: nat)
      requires Valid() && cur <= end <= |source|
      modifies this`cur, this`pos, this`line, this`col
      ensures Valid() && cur == end
    {
      while cur < end
        invariant Valid() && cur <= end
      {
        var _ := Advance();
      }
    }

    method SkipWhitespace()
      requires Valid()
      modifies this`cur, this`pos, this`line, this`col
      ensures Valid() && cur == SkipBlank(source, old(cur))
    {
      while cur < |source|
        invariant Valid() && SkipBlank(source, cur) == SkipBlank(source, old(cur))
        decreases |source| - cur
      {
        var c := source[cur];
        if c == '\n' {
          var _ := Advance();
        } else if c == '/' && cur + 1 < |source| && source[cur + 1] == '/' {
          var _ := Advance();
          var _ := Advance();
          SkipLine();
        } else if c == '/' && cur + 1 < |source| && source[cur + 1] == '*' {
          var _ := Advance();
          var _ := Advance();
          SkipBlock();
        } else if IsSpace(c) {
          var _ := Advance();
        } else {
          break;
        }
      }
    }

    method SkipLine()
      requires Valid()
      modifies this`cur, this`pos, this`line, this`col
      ensures Valid() && cur == LineEnd(source, old(cur))
    {
      while cur < |source| && source[cur] != '\n'
        invariant Valid() && LineEnd(source, cur) == LineEnd(source, old(cur))
      {
        var _ := Advance();
      }
    }

    method SkipBlock()
      requires Valid()
      modifies this`cur, this`pos, this`line, this`col
      ensures Valid() && cur == BlockEnd(source, old(cur))
    {
      while cur < |source|
        invariant Valid() && BlockEnd(source, cur) == BlockEnd(source, old(cur))
      {
        if source[cur] == '*' && cur + 1 < |source| && source[cur + 1] == '/' {
          var _ := Advance();
          var _ := Advance();
          return;
        }
        var _ := Advance();
      }
    }

    method Scan(start: nat, chars: CharClass) returns (p: nat)
      requires start <= |source|
      ensures p == ScanWhile(source, start, chars)
    {
      p := start;
      while p < |source| && chars.Has(source[p])
        invariant start <= p <= |source|
        invariant ScanWhile(source, p, chars) == ScanWhile(source, start, chars)
      {
        p := p + 1;
      }
    }

    method LexNumber(start: nat) returns (kind: Kind, end: nat)
      requires start < |source| && IsDigit(source[start])
      ensures (kind, end) == NumberEnd(source, start)
    {
      var p := start;
      if source[p] == '0' {
        p := p + 1;
        if p < |source| && (source[p] == 'x' || source[p] == 'X') {
          end := Scan(p + 1, HexChar);
          return INT_LIT, end;
        } else if p < |source| && (source[p] == 'b' || source[p] == 'B') {
          end := Scan(p + 1, BinaryChar);
          return INT_LIT, end;
        }
      }
      assert ScanWhile(source, p, DecimalChar) == ScanWhile(source, start + 1, DecimalChar);
      kind, end := LexDecimal(p);
    }

    /** Digits, then a fraction with its exponent when a digit follows the point. */
    method LexDecimal(start: nat) returns (kind: Kind, end: nat)
      requires start <= |source|
      ensures (kind, end) == DecimalEnd(source, start)
    {
      var p := Scan(start, DecimalChar);
      if p + 1 < |source| && source[p] == '.' && IsDigit(source[p + 1]) {
        p := Scan(p + 1, DecimalChar);
        if p < |source| && (source[p] == 'e' || source[p] == 'E') {
          p := p + 1;
          if p < |source| && (source[p] == '+' || source[p] == '-') {
            p := p + 1;
          }
          p := Scan(p, DecimalChar);
        }
        return FLOAT_LIT, p;
      }
      return INT_LIT, p;
    }

    method LexString(start: nat) returns (kind: Kind, end: nat)
      requires start < |source|
      ensures (kind, end) == StringEnd(source, start)
    {
      var p := start + 1;
      while p < |source| && source[p] != '"'
        invariant start + 1 <= p <= |source|
        invariant QuoteEnd(source, p) == QuoteEnd(source, start + 1)
      {
        if source[p] == '\\' {
          p := p + 1;
          if p < |source| {
            p := p + 1;
          }
        } else {
          p := p + 1;
        }
      }
      if p >= |source| {
        return UNKNOWN, p;
      }
      return STRING_LIT, p + 1;
    }

    method LexChar(start: nat) returns (kind: Kind, end: nat, record: Record)
      requires start < |source|
      ensures (kind, end, record) == CharEnd(source, start)
    {
      var p := start + 1;
      if p >= |source| {
        return UNKNOWN, p, NoRecord;
      }
      var code;
      if source[p] == '\\' {
        p := p + 1;
        if p >= |source| {
          return UNKNOWN, p, NoRecord;
        }
        code := Escape(source[p]);
      } else {
        code := source[p];
      }
      p := p + 1;
      if p >= |source| || source[p] != '\'' {
        return UNKNOWN, p, NoRecord;
      }
      return CHAR_LIT, p + 1, Code(code);
    }

    method UnescapeString(raw: string) returns (out: string)
      ensures out == Unescape(raw)
    {
      out := [];
      var r := 0;
      while r < |raw|
        invariant 0 <= r <= |raw|
        invariant Unescape(raw) == out + Unescape(raw[r..])
      {
        UnescapeStep(raw, r, out);
        if raw[r] == '\\' {
          r := r + 1;
          if r >= |raw| {
            break;
          }
          out := out + [Escape(raw[r])];
        } else {
          out := out + [raw[r]];
        }
        r := r + 1;
      }
    }

    method LexOperator(c: char) returns (kind: Kind)
      requires Valid() && 0 < cur && source[cur - 1] == c
      modifies this`cur, this`pos, this`line, this`col
      ensures Valid() && (kind, cur) == OperatorEnd(source, old(cur) - 1)
    {
      if cur < |source| {
        var both := DoubleOperator(c, source[cur]);
        if both.Some? {
          var _ := Advance();
          return both.value;
        }
      }
      return SingleOperator(c);
    }

    method LexStringToken() returns (kind: Kind, record: Record)
      requires Valid() && 0 < cur && source[cur - 1] == '"'
      modifies this`cur, this`pos, this`line, this`col
      ensures Valid()
      ensures var (k, e) := StringEnd(source, old(cur) - 1);
              kind == k && cur == e
              && record == if k == STRING_LIT then StringRecord(source[old(cur)..e - 1]) else NoRecord
    {
      var start := cur - 1;
      var k, end := LexString(start);
      AdvanceTo(end);
      kind, record := k, NoRecord;
      if kind == STRING_LIT {
        var raw := source[start + 1..cur - 1];
        if raw != [] {
          var content := UnescapeString(raw);
          record := Interned(content);
        }
      }
    }

    /** The token whose first character has just been consumed. */
    method LexToken(c: char) returns (kind: Kind, record: Record)
      requires Valid() && 0 < cur && source[cur - 1] == c
      modifies this`cur, this`pos, this`line, this`col
      ensures Valid() && (kind, cur, record) == Extent(keywords, source, old(cur) - 1)
    {
      var start := cur - 1;
      record := NoRecord;
      if IsAlpha(c) {
        var end := Scan(cur, WordChar);
        AdvanceTo(end);
        var word := source[start..cur];
        kind, record := WordKind(keywords, word), Interned(word);
      } else if IsDigit(c) {
        var end;
        kind, end := LexNumber(start);
        AdvanceTo(end);
      } else if c == '"' {
        kind, record := LexStringToken();
      } else if c == '\'' {
        var end;
        kind, end, record := LexChar(start);
        AdvanceTo(end);
      } else {
        kind := LexOperator(c);
      }
    }

    method Next() returns (t: Token)
      requires Valid()
      modifies this`cur, this`pos, this`line, this`col
      ensures Valid() && t == NextToken(keywords, source, old(cur)) && cur == t.end
    {
      SkipWhitespace();
      if cur >= |source| {
        return Token(EOF, cur, cur, NoRecord, Position(line, col), Position(line, col));
      }
      var start, from := cur, Position(line, col);
      var c := Advance();
      var kind, record := LexToken(c);
      return Token(kind, start, cur, record, from, Position(line, col));
    }

    /** Lexes the whole source; every position recorded is that of the text consumed so far. */
    method LexAll()
      requires Valid() && cur == 0 && tokens == []
      modifies this
      ensures Valid() && cur == |source| && tokens == Lex(keywords, source, 0)
    {
      while true
        invariant Valid() && Lex(keywords, source, 0) == tokens + Lex(keywords, source, cur)
        decreases |source| - cur
      {
        ghost var here := cur;
        var t := Next();
        LexStep(keywords, source, tokens, here, t);
        tokens := tokens + [t];
        if t.kind == EOF {
          break;
        }
      }
    }
  }
}
