/** Integer literals: the text of an integer token read as a 64-bit value. */
module IntegerLiterals {
  import opened Options

  const UINT64_MAX: nat := 0xffff_ffff_ffff_ffff

  // ---------- what a literal means ----------

  function DetectBase(s: string): (r: (nat, nat))
    ensures r.0 <= |s| && r.1 in {2, 10, 16}
  {
    if |s| > 2 && s[0] == '0' && (s[1] == 'x' || s[1] == 'X') then (2, 16)
    else if |s| > 2 && s[0] == '0' && (s[1] == 'b' || s[1] == 'B') then (2, 2)
    else (0, 10)
  }

  function CharToDigit(c: char): int
  {
    if '0' <= c <= '9' then c as int - '0' as int
    else if 'a' <= c <= 'f' then 10 + (c as int - 'a' as int)
    else if 'A' <= c <= 'F' then 10 + (c as int - 'A' as int)
    else -1
  }

  predicate IsDigit(c: char, base: nat) { 0 <= CharToDigit(c) < base }

  predicate AllDigits(s: string, base: nat) { forall i :: 0 <= i < |s| ==> IsDigit(s[i], base) }

  /** The text without its underscores. */
  function Strip(s: string): (r: string)
    ensures '_' !in r && |r| <= |s|
  {
    if s == [] then []
    else if s[|s| - 1] == '_' then Strip(s[..|s| - 1])
    else Strip(s[..|s| - 1]) + [s[|s| - 1]]
  }

  /** Positional value, most significant digit first, unbounded. */
  function Value(s: string, base: nat): nat
    requires AllDigits(s, base)
  {
    if s == [] then 0 else Value(s[..|s| - 1], base) * base + CharToDigit(s[|s| - 1])
  }

  /** At least one digit, nothing but digits of the base and underscores, and a value that fits 64 bits. */
  predicate Exact(body: string, base: nat)
  {
    body != [] && AllDigits(body, base) && Value(body, base) <= UINT64_MAX
  }

  function IntLit(s: string): Option<nat>
  {
    var (start, base) := DetectBase(s);
    var body := Strip(s[start..]);
    if Exact(body, base) then Some(Value(body, base)) else None
  }

  // ---------- parse_int_lit ----------

  lemma StripPush(s: string, i: nat)
    requires i < |s|
    ensures Strip(s[..i + 1]) == if s[i] == '_' then Strip(s[..i]) else Strip(s[..i]) + [s[i]]
  {
    assert s[..i + 1][..i] == s[..i];
  }

  /** What is stripped early stays at the front. */
  lemma {:induction false} StripPrefix(s: string, i: nat)
    requires i <= |s|
    ensures Strip(s[..i]) <= Strip(s)
    decreases |s| - i
  {
    if i == |s| {
      assert s[..i] == s;
    } else {
      StripPush(s, i);
      StripPrefix(s, i + 1);
    }
  }

  /** More digits never make the value smaller. */
  lemma {:induction false} ValueGrows(s: string, k: nat, base: nat)
    requires k <= |s| && AllDigits(s, base) && base >= 1
    ensures Value(s[..k], base) <= Value(s, base)
    decreases |s|
  {
    if k == |s| {
      assert s[..k] == s;
    } else {
      var init := s[..|s| - 1];
      assert init[..k] == s[..k];
      ValueGrows(init, k, base);
      Scale(Value(init, base), base);
      assert Value(s, base) >= Value(init, base) * base;
    }
  }

  lemma Scale(v: nat, base: nat)
    requires base >= 1
    ensures v <= v * base
  {
    assert v * 1 <= v * base;
  }

  /** The division-based guard is exact: it stops precisely the steps that would overflow. */
  lemma GuardIsExact(val: nat, d: nat, base: nat)
    requires base in {2, 10, 16} && val <= UINT64_MAX && d < base
    ensures (val > UINT64_MAX / base || (val == UINT64_MAX / base && d > UINT64_MAX % base))
            <==> val * base + d > UINT64_MAX
  {
    if base == 2 {
    } else if base == 10 {
    } else {
    }
  }

  /** A prefix that cannot be the start of a literal rules the whole text out. */
  lemma PrefixDecides(body: string, k: nat, base: nat)
    requires k <= |body| && base >= 1
    requires !AllDigits(body[..k], base) || Value(body[..k], base) > UINT64_MAX
    ensures !Exact(body, base)
  {
    if AllDigits(body, base) {
      ValueGrows(body, k, base);
    }
  }

  lemma ValuePush(s: string, c: char, base: nat)
    requires AllDigits(s, base) && IsDigit(c, base)
    ensures AllDigits(s + [c], base) && Value(s + [c], base) == Value(s, base) * base + CharToDigit(c)
  {
    assert (s + [c])[..|s|] == s;
  }

  /** What the loop knows after k characters: their value so far, and whether there was a digit. */
  predicate ReadSoFar(text: string, k: nat, base: nat, val: nat, anyDigits: bool)
  {
    && k <= |text|
    && AllDigits(Strip(text[..k]), base) && val == Value(Strip(text[..k]), base) <= UINT64_MAX
    && anyDigits == (Strip(text[..k]) != [])
  }

  lemma NextDigit(body: string, seen: string, c: char, base: nat)
    requires seen + [c] <= body && AllDigits(seen, base) && base in {2, 10, 16}
    ensures IsDigit(c, base) ==>
              && AllDigits(seen + [c], base) && Value(seen + [c], base) == Value(seen, base) * base + CharToDigit(c)
              && (Value(seen + [c], base) > UINT64_MAX ==> !Exact(body, base))
    ensures !IsDigit(c, base) ==> !Exact(body, base)
  {
    var next := seen + [c];
    assert body[..|next|] == next;
    if IsDigit(c, base) {
      ValuePush(seen, c, base);
      if Value(next, base) > UINT64_MAX {
        PrefixDecides(body, |next|, base);
      }
    } else {
      assert next[|seen|] == c;
      PrefixDecides(body, |next|, base);
    }
  }

  /** One turn of the loop: the digit is refused exactly when no literal starts this way. */
  lemma ReadDigit(text: string, k: nat, base: nat, val: nat, anyDigits: bool)
    requires k < |text| && text[k] != '_' && base in {2, 10, 16}
    requires ReadSoFar(text, k, base, val, anyDigits)
    ensures var d := CharToDigit(text[k]);
            if 0 <= d < base && val * base + d <= UINT64_MAX then ReadSoFar(text, k + 1, base, val * base + d, true)
            else !Exact(Strip(text), base)
  {
    StripPush(text, k);
    StripPrefix(text, k + 1);
    NextDigit(Strip(text), Strip(text[..k]), text[k], base);
  }

  lemma SkipUnderscore(text: string, k: nat, base: nat, val: nat, anyDigits: bool)
    requires k < |text| && text[k] == '_' && ReadSoFar(text, k, base, val, anyDigits)
    ensures ReadSoFar(text, k + 1, base, val, anyDigits)
  {
    StripPush(text, k);
  }

  lemma ReadAll(text: string, base: nat, val: nat, anyDigits: bool)
    requires ReadSoFar(text, |text|, base, val, anyDigits)
    ensures Exact(Strip(text), base) == anyDigits
    ensures anyDigits ==> val == Value(Strip(text), base)
  {
    assert text[..|text|] == text;
  }

  method ParseIntLit(s: string) returns (r: Option<nat>)
    ensures r == IntLit(s)
  {
    if |s| == 0 {
      return None;
    }
    var (start, base) := DetectBase(s);
    var val: nat := 0;
    var anyDigits := false;
    var maxVal := UINT64_MAX / base;
    var rem := UINT64_MAX % base;
    ghost var text := s[start..];
    var i := start;
    while i < |s|
      invariant start <= i <= |s|
      invariant ReadSoFar(text, i - start, base, val, anyDigits)
    {
      if s[i] == '_' {
        SkipUnderscore(text, i - start, base, val, anyDigits);
      } else {
        ReadDigit(text, i - start, base, val, anyDigits);
        var d := CharToDigit(s[i]);
        if d == -1 || d >= base {
          return None;
        }
        GuardIsExact(val, d, base);
        if val > maxVal || (val == maxVal && d > rem) {
          return None;
        }
        val := val * base + d;
        anyDigits := true;
      }
      i := i + 1;
    }
    ReadAll(text, base, val, anyDigits);
    return if anyDigits then Some(val) else None;
  }

  // ---------- printing ----------

  function DigitChar(d: nat): (c: char)
    requires d < 16
    ensures CharToDigit(c) == d && c != '_'
  {
    if d < 10 then '0' + d as char else 'a' + (d - 10) as char
  }

  function Digits(v: nat, base: nat): (s: string)
    requires 2 <= base <= 16
    ensures s != [] && AllDigits(s, base)
    decreases v
  {
    if v < base then [DigitChar(v)] else Digits(v / base, base) + [DigitChar(v % base)]
  }

  function Prefix(base: nat): string
  {
    if base == 16 then "0x" else if base == 2 then "0b" else ""
  }

  lemma Divide(v: nat, base: nat)
    requires base >= 1
    ensures v / base * base + v % base == v
  {}

  lemma {:induction false} DigitsValue(v: nat, base: nat)
    requires 2 <= base <= 16
    ensures Value(Digits(v, base), base) == v
    decreases v
  {
    if v < base {
      assert Digits(v, base)[..0] == [];
    } else {
      DigitsValue(v / base, base);
      ValuePush(Digits(v / base, base), DigitChar(v % base), base);
      Divide(v, base);
    }
  }

  lemma {:induction false} StripKeeps(s: string, i: nat)
    requires i < |s| && s[i] != '_'
    ensures s[i] in Strip(s)
    decreases |s|
  {
    if i < |s| - 1 {
      StripKeeps(s[..|s| - 1], i);
    }
  }

  lemma PrintedBase(base: nat, text: string)
    requires base in {2, 10, 16} && text != [] && AllDigits(Strip(text), base)
    ensures var s := Prefix(base) + text; DetectBase(s) == (|Prefix(base)|, base) && s[|Prefix(base)|..] == text
  {
    if base == 10 && |text| > 2 && text[1] != '_' {
      StripKeeps(text, 1);
    }
  }

  /**
   * Any 64-bit value written in base 2, 10 or 16, with underscores put anywhere among
   * its digits, is read back as itself; a larger one is refused.
   */
  lemma PrintedLiteralParses(v: nat, base: nat, text: string)
    requires base in {2, 10, 16} && Strip(text) == Digits(v, base)
    ensures IntLit(Prefix(base) + text) == if v <= UINT64_MAX then Some(v) else None
  {
    PrintedBase(base, text);
    DigitsValue(v, base);
  }

  /** The limit is that of 64 binary digits. */
  lemma SixtyFourBits()
    ensures UINT64_MAX + 1 == 0x1_0000_0000 * 0x1_0000_0000
  {
  }

  // ---------- what the letters stand for ----------

  function UpperChar(c: char): char { if 'a' <= c <= 'z' then c - 'a' + 'A' else c }

  function Upper(s: string): (r: string)
    ensures |r| == |s| && forall i :: 0 <= i < |s| ==> r[i] == UpperChar(s[i])
  {
    seq(|s|, i requires 0 <= i < |s| => UpperChar(s[i]))
  }

  lemma {:induction false} StripUpper(s: string)
    ensures Strip(Upper(s)) == Upper(Strip(s))
    decreases |s|
  {
    if s != [] {
      var n := |s| - 1;
      assert Upper(s)[..n] == Upper(s[..n]);
      StripUpper(s[..n]);
      if s[n] != '_' {
        assert Upper(Strip(s[..n]) + [s[n]]) == Upper(Strip(s[..n])) + [UpperChar(s[n])];
      }
    }
  }

  lemma {:induction false} ValueUpper(s: string, base: nat)
    ensures AllDigits(Upper(s), base) <==> AllDigits(s, base)
    ensures AllDigits(s, base) ==> Value(Upper(s), base) == Value(s, base)
    decreases |s|
  {
    assert forall c :: CharToDigit(UpperChar(c)) == CharToDigit(c);
    if AllDigits(Upper(s), base) {
      forall i | 0 <= i < |s|
        ensures IsDigit(s[i], base)
      {
        assert IsDigit(Upper(s)[i], base);
      }
    }
    if s != [] {
      var n := |s| - 1;
      assert Upper(s)[..n] == Upper(s[..n]);
      ValueUpper(s[..n], base);
    }
  }

  lemma BaseOfUpper(s: string)
    ensures DetectBase(Upper(s)) == DetectBase(s)
  {
  }

  /** Upper and lower case mean the same, in the digits as in the prefix. */
  lemma CaseDoesNotMatter(s: string)
    ensures IntLit(Upper(s)) == IntLit(s)
  {
    var (start, base) := DetectBase(s);
    BaseOfUpper(s);
    assert Upper(s)[start..] == Upper(s[start..]);
    StripUpper(s[start..]);
    ValueUpper(Strip(s[start..]), base);
  }
}
