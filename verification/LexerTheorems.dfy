/** The tokens tile the source, and layout does not matter. */
module LexerTheorems {
  import opened Lexing

  // ---------- what may lie between tokens ----------

  predicate NoNewline(src: string, a: nat, b: nat)
    requires a <= b <= |src|
  {
    forall i :: a <= i < b ==> src[i] != '\n'
  }

  predicate NoClose(src: string, a: nat, b: nat)
  {
    forall i :: a <= i < b ==> !Pair(src, i, '*', '/')
  }

  /** One blank character, one line comment up to its newline, or one block comment, closed or running to the end. */
  predicate Piece(src: string, a: nat, b: nat)
    requires a < b <= |src|
  {
    || (b == a + 1 && IsSpace(src[a]))
    || (Pair(src, a, '/', '/') && NoNewline(src, a + 2, if b < a + 2 then a + 2 else b)
        && (b == |src| || src[b] == '\n'))
    || (Pair(src, a, '/', '*') && a + 4 <= b && Pair(src, b - 2, '*', '/') && NoClose(src, a + 2, b - 2))
    || (Pair(src, a, '/', '*') && b == |src| && NoClose(src, a + 2, b))
  }

  ghost predicate Blank(src: string, a: nat, b: nat)
    requires a <= b <= |src|
    decreases b - a
  {
    a == b || exists m {:trigger Piece(src, a, m)} :: a < m <= b && Piece(src, a, m) && Blank(src, m, b)
  }

  predicate AtBlank(src: string, p: nat)
    requires p < |src|
  {
    IsSpace(src[p]) || Pair(src, p, '/', '/') || Pair(src, p, '/', '*')
  }

  lemma {:induction false} LineEndIsFirst(src: string, p: nat)
    requires p <= |src|
    ensures NoNewline(src, p, LineEnd(src, p)) && (LineEnd(src, p) == |src| || src[LineEnd(src, p)] == '\n')
    decreases |src| - p
  {
    if p < |src| && src[p] != '\n' {
      LineEndIsFirst(src, p + 1);
    }
  }

  lemma {:induction false} BlockEndIsFirst(src: string, p: nat)
    requires p <= |src|
    ensures var e := BlockEnd(src, p);
            || (p + 2 <= e && Pair(src, e - 2, '*', '/') && NoClose(src, p, e - 2))
            || (e == |src| && NoClose(src, p, e))
    decreases |src| - p
  {
    if p < |src| && !Pair(src, p, '*', '/') {
      BlockEndIsFirst(src, p + 1);
    }
  }

  /** What is skipped is blank, and nothing blank is left: the gap is maximal. */
  lemma {:induction false} SkipsBlank(src: string, p: nat)
    requires p <= |src|
    ensures var e := SkipBlank(src, p); Blank(src, p, e) && (e < |src| ==> !AtBlank(src, e))
    decreases |src| - p
  {
    if p < |src| && AtBlank(src, p) {
      var m := if Pair(src, p, '/', '/') then LineEnd(src, p + 2)
               else if Pair(src, p, '/', '*') then BlockEnd(src, p + 2) else p + 1;
      if Pair(src, p, '/', '/') {
        LineEndIsFirst(src, p + 2);
      } else if Pair(src, p, '/', '*') {
        BlockEndIsFirst(src, p + 2);
      }
      assert Piece(src, p, m);
      SkipsBlank(src, m);
    }
  }

  // ---------- tiling ----------

  function Before(ts: seq<Token>, p: nat, i: nat): nat
    requires i <= |ts|
  {
    if i == 0 then p else ts[i - 1].end
  }

  /** Token i sits after a maximal blank gap, is not empty unless it is the end, and knows its positions. */
  ghost predicate Placed(src: string, p: nat, ts: seq<Token>, i: nat)
    requires i < |ts|
  {
    var t := ts[i];
    && Before(ts, p, i) <= t.start <= t.end <= |src|
    && Blank(src, Before(ts, p, i), t.start) && (t.start < |src| ==> !AtBlank(src, t.start))
    && (t.kind == EOF <==> i == |ts| - 1)
    && (if t.kind == EOF then t.start == |src| else t.start < t.end)
    && t.from == PositionAt(src, t.start) && t.to == PositionAt(src, t.end)
  }

  lemma PlacedLater(src: string, p: nat, t: Token, ts: seq<Token>, i: nat)
    requires i < |ts| && Placed(src, t.end, ts, i)
    ensures Placed(src, p, [t] + ts, i + 1)
  {
    assert Before([t] + ts, p, i + 1) == Before(ts, t.end, i);
  }

  lemma FirstPlaced(keywords: Keywords, src: string, p: nat, rest: seq<Token>)
    requires p <= |src| && (NextToken(keywords, src, p).kind == EOF <==> rest == [])
    ensures Placed(src, p, [NextToken(keywords, src, p)] + rest, 0)
  {
    var t, ts := NextToken(keywords, src, p), [NextToken(keywords, src, p)] + rest;
    SkipsBlank(src, p);
    assert t.start == SkipBlank(src, p);
    assert ts[0] == t && Before(ts, p, 0) == p;
  }

  lemma {:induction false} LexTiles(keywords: Keywords, src: string, p: nat)
    requires p <= |src|
    ensures forall i :: 0 <= i < |Lex(keywords, src, p)| ==> Placed(src, p, Lex(keywords, src, p), i)
    decreases |src| - p
  {
    var t := NextToken(keywords, src, p);
    var rest := if t.kind == EOF then [] else Lex(keywords, src, t.end);
    assert Lex(keywords, src, p) == [t] + rest;
    FirstPlaced(keywords, src, p, rest);
    if t.kind != EOF {
      LexTiles(keywords, src, t.end);
      forall i | 1 <= i < |rest| + 1
        ensures Placed(src, p, [t] + rest, i)
      {
        PlacedLater(src, p, t, rest, i - 1);
      }
    }
  }

  /**
   * For every text: one end-of-file token, last; tokens in order, disjoint and not
   * empty; only blanks and comments between them, as many as there are; every
   * position that of the text before it.
   */
  lemma TokensTileTheSource(keywords: Keywords, src: string)
    ensures var ts := Lex(keywords, src, 0);
            && ts != [] && ts[|ts| - 1].kind == EOF && ts[|ts| - 1].end == |src|
            && forall i :: 0 <= i < |ts| ==> Placed(src, 0, ts, i)
  {
    LexTiles(keywords, src, 0);
    assert Placed(src, 0, Lex(keywords, src, 0), |Lex(keywords, src, 0)| - 1);
  }

  // ---------- a token alone and the same token in a text ----------

  /** The word stands at p, with a blank or nothing after it. */
  predicate Stands(src: string, p: nat, w: string)
  {
    && p + |w| <= |src| && src[p..p + |w|] == w
    && (p + |w| < |src| ==> IsSpace(src[p + |w|]))
  }

  lemma CharOf(src: string, p: nat, w: string, i: nat)
    requires Stands(src, p, w) && i < |w|
    ensures src[p + i] == w[i]
  {
    assert src[p..p + |w|][i] == w[i];
  }

  lemma SliceInside(src: string, p: nat, w: string, i: nat, j: nat)
    requires Stands(src, p, w) && i <= j <= |w|
    ensures src[p + i..p + j] == w[i..j]
  {
    forall k | i <= k < j
      ensures src[p + k] == w[k]
    {
      CharOf(src, p, w, k);
    }
  }

  lemma {:induction false} ScanInside(src: string, p: nat, w: string, i: nat, chars: CharClass)
    requires Stands(src, p, w) && i <= |w|
    ensures ScanWhile(src, p + i, chars) == p + ScanWhile(w, i, chars)
    decreases |w| - i
  {
    if i < |w| {
      CharOf(src, p, w, i);
      ScanInside(src, p, w, i + 1, chars);
    }
  }

  lemma PeekInside(src: string, p: nat, w: string, i: nat, a: char, b: char)
    requires Stands(src, p, w) && i <= |w| && !IsSpace(a) && !IsSpace(b)
    ensures OneOf(src, p + i, a, b) == OneOf(w, i, a, b)
  {
    if i < |w| {
      CharOf(src, p, w, i);
    }
  }

  lemma ExponentInside(src: string, p: nat, w: string, i: nat)
    requires Stands(src, p, w) && i <= |w|
    ensures ExponentEnd(src, p + i) == p + ExponentEnd(w, i)
  {
    PeekInside(src, p, w, i, 'e', 'E');
    if OneOf(w, i, 'e', 'E') {
      PeekInside(src, p, w, i + 1, '+', '-');
      ScanInside(src, p, w, i + 1, DecimalChar);
      if OneOf(w, i + 1, '+', '-') {
        ScanInside(src, p, w, i + 2, DecimalChar);
      }
    }
  }

  lemma PointInside(src: string, p: nat, w: string, whole: nat)
    requires Stands(src, p, w) && whole <= |w|
    ensures (p + whole + 1 < |src| && src[p + whole] == '.' && IsDigit(src[p + whole + 1]))
            == (whole + 1 < |w| && w[whole] == '.' && IsDigit(w[whole + 1]))
  {
    if whole < |w| {
      CharOf(src, p, w, whole);
    }
    if whole + 1 < |w| {
      CharOf(src, p, w, whole + 1);
    }
  }

  lemma DecimalInside(src: string, p: nat, w: string, i: nat)
    requires Stands(src, p, w) && i <= |w|
    ensures DecimalEnd(src, p + i) == (DecimalEnd(w, i).0, p + DecimalEnd(w, i).1)
  {
    var whole := ScanWhile(w, i, DecimalChar);
    ScanInside(src, p, w, i, DecimalChar);
    PointInside(src, p, w, whole);
    if whole + 1 < |w| {
      ScanInside(src, p, w, whole + 1, DecimalChar);
      ExponentInside(src, p, w, ScanWhile(w, whole + 1, DecimalChar));
    }
  }

  lemma NumberInside(src: string, p: nat, w: string)
    requires Stands(src, p, w) && w != [] && IsDigit(w[0])
    ensures IsDigit(src[p]) && NumberEnd(src, p) == (NumberEnd(w, 0).0, p + NumberEnd(w, 0).1)
  {
    CharOf(src, p, w, 0);
    PeekInside(src, p, w, 1, 'x', 'X');
    PeekInside(src, p, w, 1, 'b', 'B');
    if w[0] == '0' && OneOf(w, 1, 'x', 'X') {
      ScanInside(src, p, w, 2, HexChar);
    } else if w[0] == '0' && OneOf(w, 1, 'b', 'B') {
      ScanInside(src, p, w, 2, BinaryChar);
    } else {
      DecimalInside(src, p, w, 1);
    }
  }

  lemma {:induction false} QuoteInside(src: string, p: nat, w: string, i: nat)
    requires Stands(src, p, w) && i <= |w| && QuoteEnd(w, i) < |w|
    ensures QuoteEnd(src, p + i) == p + QuoteEnd(w, i)
    decreases |w| - i
  {
    CharOf(src, p, w, i);
    if w[i] == '"' {
    } else if w[i] == '\\' {
      QuoteInside(src, p, w, i + 2);
    } else {
      QuoteInside(src, p, w, i + 1);
    }
  }

  lemma CharInside(src: string, p: nat, w: string)
    requires Stands(src, p, w) && w != [] && CharEnd(w, 0).0 == CHAR_LIT
    ensures CharEnd(src, p) == (CHAR_LIT, p + CharEnd(w, 0).1, CharEnd(w, 0).2)
  {
    CharOf(src, p, w, 1);
    CharOf(src, p, w, 2);
    if w[1] == '\\' {
      CharOf(src, p, w, 3);
    }
  }

  lemma OperatorInside(src: string, p: nat, w: string)
    requires Stands(src, p, w) && w != []
    ensures OperatorEnd(src, p) == (OperatorEnd(w, 0).0, p + OperatorEnd(w, 0).1)
  {
    CharOf(src, p, w, 0);
    if |w| > 1 {
      CharOf(src, p, w, 1);
    } else if p + 1 < |src| {
      assert DoubleOperator(src[p], src[p + 1]).None?;
    }
  }

  /** A text that is exactly one token when it stands alone. */
  predicate Lexeme(keywords: Keywords, w: string)
  {
    && w != [] && !AtBlank(w, 0) && Extent(keywords, w, 0).1 == |w|
    && ((w[0] == '"' || w[0] == '\'') ==> Extent(keywords, w, 0).0 != UNKNOWN)
  }

  lemma StringInside(src: string, p: nat, w: string)
    requires Stands(src, p, w) && w != [] && StringEnd(w, 0) == (STRING_LIT, |w|)
    ensures StringExtent(src, p) == (STRING_LIT, p + |w|, StringExtent(w, 0).2)
  {
    QuoteInside(src, p, w, 1);
    SliceInside(src, p, w, 1, |w| - 1);
    assert StringEnd(src, p) == (STRING_LIT, p + |w|);
  }

  lemma WordInside(keywords: Keywords, src: string, p: nat, w: string)
    requires Stands(src, p, w) && w != [] && WordExtent(keywords, w, 0).1 == |w|
    ensures WordExtent(keywords, src, p) == (WordExtent(keywords, w, 0).0, p + |w|, WordExtent(keywords, w, 0).2)
  {
    ScanInside(src, p, w, 1, WordChar);
    assert w[0..|w|] == w == src[p..p + |w|];
  }

  lemma ExtentInside(keywords: Keywords, src: string, p: nat, w: string)
    requires Stands(src, p, w) && Lexeme(keywords, w)
    ensures Extent(keywords, src, p) == (Extent(keywords, w, 0).0, p + |w|, Extent(keywords, w, 0).2)
  {
    CharOf(src, p, w, 0);
    if IsAlpha(w[0]) {
      WordInside(keywords, src, p, w);
    } else if IsDigit(w[0]) {
      NumberInside(src, p, w);
    } else if w[0] == '"' {
      StringInside(src, p, w);
    } else if w[0] == '\'' {
      CharInside(src, p, w);
    } else {
      OperatorInside(src, p, w);
    }
  }

  lemma NotBlankInside(keywords: Keywords, src: string, p: nat, w: string)
    requires Stands(src, p, w) && Lexeme(keywords, w)
    ensures p < |src| && !AtBlank(src, p)
  {
    CharOf(src, p, w, 0);
    if |w| > 1 {
      CharOf(src, p, w, 1);
    }
  }

  // ---------- rendering ----------

  predicate Spaces(s: string) { forall i :: 0 <= i < |s| ==> IsSpace(s[i]) }

  /** Words each followed by their own non-empty white space. */
  function Render(words: seq<string>, gaps: seq<string>): string
    requires |gaps| == |words|
  {
    if words == [] then [] else words[0] + gaps[0] + Render(words[1..], gaps[1..])
  }

  predicate Layout(gaps: seq<string>) { gaps == [] || (gaps[0] != [] && Spaces(gaps[0]) && Layout(gaps[1..])) }

  predicate Lexemes(keywords: Keywords, words: seq<string>)
  {
    words == [] || (Lexeme(keywords, words[0]) && Lexemes(keywords, words[1..]))
  }

  lemma {:induction false} SkipSpaces(src: string, p: nat, n: nat)
    requires p + n <= |src| && Spaces(src[p..p + n])
    ensures SkipBlank(src, p) == SkipBlank(src, p + n)
    decreases n
  {
    if n > 0 {
      assert src[p..p + n][0] == src[p];
      assert src[p..p + n][1..] == src[p + 1..p + n];
      SkipSpaces(src, p + 1, n - 1);
    }
  }

  /** The tokens are those of the words, one for one, and the end of the file. */
  predicate Spells(keywords: Keywords, src: string, ts: seq<Token>, words: seq<string>)
    requires Lexemes(keywords, words)
  {
    && ts != []
    && if words == [] then |ts| == 1 && ts[0].kind == EOF
       else SpelledAt(keywords, src, ts[0], words[0]) && Spells(keywords, src, ts[1..], words[1..])
  }

  predicate SpelledAt(keywords: Keywords, src: string, t: Token, w: string)
    requires Lexeme(keywords, w)
  {
    SpelledAs(src, t, w, Extent(keywords, w, 0).0, Extent(keywords, w, 0).2)
  }

  predicate SpelledAs(src: string, t: Token, w: string, k: Kind, rec: Record)
  {
    t.start <= t.end <= |src| && src[t.start..t.end] == w && t.kind == k && t.record == rec
  }

  lemma NextIs(keywords: Keywords, src: string, p: nat, w: string, k: Kind, rec: Record)
    requires p < |src| && !AtBlank(src, p) && p + |w| <= |src| && src[p..p + |w|] == w
    requires Extent(keywords, src, p) == (k, p + |w|, rec)
    ensures var t := NextToken(keywords, src, p); SpelledAs(src, t, w, k, rec) && t.kind != EOF && t.end == p + |w|
  {
    assert SkipBlank(src, p) == p;
  }

  lemma LexStep(keywords: Keywords, src: string, p: nat, t: Token)
    requires p <= |src| && t == NextToken(keywords, src, p) && t.kind != EOF
    ensures Lex(keywords, src, p) == [t] + Lex(keywords, src, t.end)
  {}

  /** A text with a token of known kind and record at p, which ends at e. */
  lemma FirstToken(keywords: Keywords, src: string, p: nat, w: string, k: Kind, rec: Record, e: nat) returns (t: Token)
    requires p < |src| && !AtBlank(src, p) && p + |w| == e <= |src| && src[p..e] == w
    requires Extent(keywords, src, p) == (k, e, rec)
    ensures SpelledAs(src, t, w, k, rec) && Lex(keywords, src, p) == [t] + Lex(keywords, src, e)
  {
    t := NextToken(keywords, src, p);
    NextIs(keywords, src, p, w, k, rec);
    LexStep(keywords, src, p, t);
  }

  lemma GapThenLex(keywords: Keywords, src: string, e: nat, q: nat)
    requires e <= q <= |src| && Spaces(src[e..q])
    ensures Lex(keywords, src, e) == Lex(keywords, src, q)
  {
    SkipSpaces(src, e, q - e);
    assert NextToken(keywords, src, e) == NextToken(keywords, src, q);
  }

  lemma Slices(src: string, p: nat, w: string, gap: string, rest: string)
    requires p <= |src| && src[p..] == w + gap + rest && gap != [] && Spaces(gap)
    ensures var e, q := p + |w|, p + |w| + |gap|;
            q <= |src| && src[q..] == rest && Stands(src, p, w) && Spaces(src[e..q])
  {
    assert src[p..p + |w|] == src[p..][..|w|];
    assert src[p + |w|] == src[p..][|w|] == gap[0];
    assert src[p + |w|..p + |w| + |gap|] == src[p..][|w|..|w| + |gap|] == gap;
    assert src[p + |w| + |gap|..] == src[p..][|w| + |gap|..];
  }

  lemma ReadWord(keywords: Keywords, src: string, p: nat, w: string, e: nat) returns (t: Token)
    requires Stands(src, p, w) && Lexeme(keywords, w) && p + |w| == e
    ensures Lex(keywords, src, p) == [t] + Lex(keywords, src, e) && SpelledAt(keywords, src, t, w)
  {
    NotBlankInside(keywords, src, p, w);
    ExtentInside(keywords, src, p, w);
    t := FirstToken(keywords, src, p, w, Extent(keywords, w, 0).0, Extent(keywords, w, 0).2, e);
  }

  /** The words stand one after the other from p to the end, each with white space after it. */
  predicate Rendered(src: string, p: nat, words: seq<string>, gaps: seq<string>)
    decreases |words|
  {
    if words == [] then p == |src|
    else
      && gaps != []
      && var e := p + |words[0]|;
         var q := e + |gaps[0]|;
         q <= |src| && Stands(src, p, words[0]) && Spaces(src[e..q]) && Rendered(src, q, words[1..], gaps[1..])
  }

  lemma {:induction false} RenderIsRendered(src: string, p: nat, words: seq<string>, gaps: seq<string>)
    requires Layout(gaps) && |gaps| == |words| && p <= |src| && src[p..] == Render(words, gaps)
    ensures Rendered(src, p, words, gaps)
    decreases |words|
  {
    if words == [] {
      assert |src[p..]| == 0;
    } else {
      Slices(src, p, words[0], gaps[0], Render(words[1..], gaps[1..]));
      RenderIsRendered(src, p + |words[0]| + |gaps[0]|, words[1..], gaps[1..]);
    }
  }

  lemma NoWords(keywords: Keywords, src: string)
    ensures Spells(keywords, src, Lex(keywords, src, |src|), [])
  {}

  lemma SpellsMore(keywords: Keywords, src: string, t: Token, ts: seq<Token>, words: seq<string>)
    requires words != [] && Lexemes(keywords, words) && SpelledAt(keywords, src, t, words[0])
    requires Spells(keywords, src, ts, words[1..])
    ensures Spells(keywords, src, [t] + ts, words)
  {
    assert ([t] + ts)[1..] == ts;
  }

  lemma NextRendered(src: string, p: nat, words: seq<string>, gaps: seq<string>) returns (e: nat, q: nat)
    requires words != [] && p <= |src| && Rendered(src, p, words, gaps)
    ensures p + |words[0]| == e <= q <= |src| && Stands(src, p, words[0]) && Spaces(src[e..q])
    ensures gaps != [] && Rendered(src, q, words[1..], gaps[1..])
  {
    e, q := p + |words[0]|, p + |words[0]| + |gaps[0]|;
  }

  lemma {:induction false} RenderLexes(keywords: Keywords, src: string, p: nat, words: seq<string>, gaps: seq<string>)
    requires Lexemes(keywords, words) && p <= |src| && Rendered(src, p, words, gaps)
    ensures Spells(keywords, src, Lex(keywords, src, p), words)
    decreases |words|
  {
    if words == [] {
      NoWords(keywords, src);
    } else {
      var e, q := NextRendered(src, p, words, gaps);
      var t := ReadWord(keywords, src, p, words[0], e);
      GapThenLex(keywords, src, e, q);
      RenderLexes(keywords, src, q, words[1..], gaps[1..]);
      SpellsMore(keywords, src, t, Lex(keywords, src, q), words);
    }
  }

  /** Whatever white space separates them, the tokens of a text are those of its words. */
  lemma RenderedWordsLexBack(keywords: Keywords, words: seq<string>, gaps: seq<string>)
    requires Lexemes(keywords, words) && Layout(gaps) && |gaps| == |words|
    ensures Spells(keywords, Render(words, gaps), Lex(keywords, Render(words, gaps), 0), words)
  {
    var src := Render(words, gaps);
    assert src[0..] == src;
    RenderIsRendered(src, 0, words, gaps);
    RenderLexes(keywords, src, 0, words, gaps);
  }
}
