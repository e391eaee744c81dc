/**
  Character classes and scanning primitives shared by the REPL grammar:
  the JavaScript regular-expression classes the grammar uses, greedy
  repetition of a class (`[...]*`), `String.prototype.trim` and the
  decimal rendering of a count inside a template string.
*/
module Lexical {

  /** JavaScript's `\s`: the WhiteSpace and LineTerminator code points.
      `String.prototype.trim` strips exactly the same set. */
  predicate IsWhitespace(c: char) {
    || c == ' ' || c == '\t' || c == '\n' || c == '\r'
    || c == '\U{000B}' || c == '\U{000C}'
    || c == '\U{00A0}' || c == '\U{1680}'
    || ('\U{2000}' <= c <= '\U{200A}')
    || c == '\U{2028}' || c == '\U{2029}' || c == '\U{202F}'
    || c == '\U{205F}' || c == '\U{3000}' || c == '\U{FEFF}'
  }

  /** `[a-zA-Z]` */
  predicate IsLetter(c: char) {
    ('a' <= c <= 'z') || ('A' <= c <= 'Z')
  }

  /** `[0-9]` */
  predicate IsDigit(c: char) {
    '0' <= c <= '9'
  }

  /** `[a-zA-Z0-9_\-]`, the characters after the first one of an identifier */
  predicate IsIdentChar(c: char) {
    IsLetter(c) || IsDigit(c) || c == '_' || c == '-'
  }

  /** `[0-9\.e]`, the characters of a number token */
  predicate IsNumberChar(c: char) {
    IsDigit(c) || c == '.' || c == 'e'
  }

  /** Text matched in full by `[a-zA-Z][a-zA-Z0-9_\-]*`. */
  predicate IsIdentifier(t: string) {
    |t| > 0 && IsLetter(t[0]) && forall k :: 1 <= k < |t| ==> IsIdentChar(t[k])
  }

  /** End of the longest run of characters satisfying `p` that starts at `i`:
      a greedy `[...]*` anchored at `i`. */
  function Span(s: string, i: nat, p: char -> bool): (j: nat)
    ensures i <= j
    ensures i <= |s| ==> j <= |s|
    ensures |s| < i ==> j == i
    decreases |s| - i
  {
    if i < |s| && p(s[i]) then Span(s, i + 1, p) else i
  }

  /** The run stops at the end of the text or at a character failing `p`. */
  lemma {:induction false} SpanStops(s: string, i: nat, p: char -> bool)
    ensures Span(s, i, p) < |s| ==> !p(s[Span(s, i, p)])
    decreases |s| - i
  {
    if i < |s| && p(s[i]) {
      SpanStops(s, i + 1, p);
    }
  }

  /** Every character of the run satisfies `p`. */
  lemma {:induction false} SpanAll(s: string, i: nat, p: char -> bool)
    ensures forall k :: i <= k < Span(s, i, p) ==> k < |s| && p(s[k])
    decreases |s| - i
  {
    if i < |s| && p(s[i]) {
      SpanAll(s, i + 1, p);
      assert Span(s, i, p) == Span(s, i + 1, p);
    } else {
      assert Span(s, i, p) == i;
    }
  }

  /** A maximal run is unique: whoever exhibits one has found `Span`. */
  lemma {:induction false} SpanUnique(s: string, i: nat, j: nat, p: char -> bool)
    requires i <= j <= |s|
    requires forall k :: i <= k < j ==> p(s[k])
    requires j == |s| || !p(s[j])
    ensures Span(s, i, p) == j
    decreases j - i
  {
    if i < j {
      SpanUnique(s, i + 1, j, p);
    }
  }

  /** A slice of `s` that reads `a + b` reads `a` and then `b`. */
  lemma {:induction false} SliceParts(s: string, i: nat, a: string, b: string)
    requires i + |a| + |b| <= |s| && s[i..i + |a| + |b|] == a + b
    ensures s[i..i + |a|] == a && s[i + |a|..i + |a| + |b|] == b
  {
    var w := s[i..i + |a| + |b|];
    assert s[i..i + |a|] == w[..|a|];
    assert s[i + |a|..i + |a| + |b|] == w[|a|..];
  }

  /** End of the text up to `j` without its trailing whitespace, never
      before `a`. */
  function TrailEnd(s: string, a: nat, j: nat): (e: nat)
    requires a <= j <= |s|
    ensures a <= e <= j
    ensures e > a ==> !IsWhitespace(s[e - 1])
    decreases j
  {
    if j > a && IsWhitespace(s[j - 1]) then TrailEnd(s, a, j - 1) else j
  }

  /** Everything `TrailEnd` drops is whitespace. */
  lemma {:induction false} TrailAll(s: string, a: nat, j: nat)
    requires a <= j <= |s|
    ensures forall k :: TrailEnd(s, a, j) <= k < j ==> IsWhitespace(s[k])
    decreases j
  {
    if j > a && IsWhitespace(s[j - 1]) {
      TrailAll(s, a, j - 1);
      assert TrailEnd(s, a, j) == TrailEnd(s, a, j - 1);
    } else {
      assert TrailEnd(s, a, j) == j;
    }
  }

  /** `String.prototype.trim`: the input without leading and trailing whitespace. */
  function Trim(s: string): (r: string)
    ensures r == [] || (!IsWhitespace(r[0]) && !IsWhitespace(r[|r| - 1]))
  {
    var a := Span(s, 0, IsWhitespace);
    SpanStops(s, 0, IsWhitespace);
    if a < |s| then
      var e := TrailEnd(s, a, |s|);
      assert e > a by {
        assert TrailEnd(s, a, a + 1) == a + 1;
        TrailMonotone(s, a, a + 1, |s|);
      }
      s[a..e]
    else []
  }

  /** Dropping trailing whitespace from a longer text never ends earlier. */
  lemma {:induction false} TrailMonotone(s: string, a: nat, i: nat, j: nat)
    requires a <= i <= j <= |s|
    ensures TrailEnd(s, a, i) <= TrailEnd(s, a, j)
    decreases j
  {
    if j > i {
      if IsWhitespace(s[j - 1]) {
        TrailMonotone(s, a, i, j - 1);
      } else {
        assert TrailEnd(s, a, j) == j;
      }
    }
  }

  /** Text that neither starts nor ends with whitespace is left alone. */
  lemma {:induction false} TrimKeeps(s: string)
    requires s == [] || (!IsWhitespace(s[0]) && !IsWhitespace(s[|s| - 1]))
    ensures Trim(s) == s
  {
    if s != [] {
      assert Span(s, 0, IsWhitespace) == 0;
      assert TrailEnd(s, 0, |s|) == |s|;
      assert s[0..|s|] == s;
    }
  }

  /** Where some character is not whitespace, the trimmed text starts with
      the first such character. */
  lemma {:induction false} TrimStartsAt(s: string)
    requires Span(s, 0, IsWhitespace) < |s|
    ensures Trim(s) != [] && Trim(s)[0] == s[Span(s, 0, IsWhitespace)]
  {
    var a := Span(s, 0, IsWhitespace);
    SpanStops(s, 0, IsWhitespace);
    assert TrailEnd(s, a, a + 1) == a + 1;
    TrailMonotone(s, a, a + 1, |s|);
  }

  /** Trimming leaves nothing exactly when every character is whitespace. */
  lemma {:induction false} TrimEmpty(s: string)
    ensures Trim(s) == [] <==> forall k :: 0 <= k < |s| ==> IsWhitespace(s[k])
  {
    SpanAll(s, 0, IsWhitespace);
    if forall k :: 0 <= k < |s| ==> IsWhitespace(s[k]) {
      SpanUnique(s, 0, |s|, IsWhitespace);
    } else if Span(s, 0, IsWhitespace) < |s| {
      TrimStartsAt(s);
    }
  }

  /** The trimmed text starts with the first character that is not whitespace. */
  lemma {:induction false} TrimFirst(s: string, a: nat)
    requires a < |s| && !IsWhitespace(s[a])
    requires forall k :: 0 <= k < a ==> IsWhitespace(s[k])
    ensures Trim(s) != [] && Trim(s)[0] == s[a]
  {
    SpanUnique(s, 0, a, IsWhitespace);
    TrimStartsAt(s);
  }

  /** Dropping trailing whitespace stops after the last character that is
      not whitespace. */
  lemma {:induction false} TrailUnique(s: string, a: nat, e: nat, j: nat)
    requires a < e <= j <= |s| && !IsWhitespace(s[e - 1])
    requires forall k :: e <= k < j ==> IsWhitespace(s[k])
    ensures TrailEnd(s, a, j) == e
    decreases j
  {
    if j > e {
      TrailUnique(s, a, e, j - 1);
    }
  }

  /** Trimming removes exactly the whitespace around a text. */
  lemma {:induction false} TrimPadded(p: string, w: string, q: string)
    requires forall k :: 0 <= k < |p| ==> IsWhitespace(p[k])
    requires forall k :: 0 <= k < |q| ==> IsWhitespace(q[k])
    requires w == [] || (!IsWhitespace(w[0]) && !IsWhitespace(w[|w| - 1]))
    ensures Trim(p + w + q) == w
  {
    var s := p + w + q;
    forall k | 0 <= k < |p| ensures IsWhitespace(s[k]) {
      assert s[k] == p[k];
    }
    forall k | |p| + |w| <= k < |s| ensures IsWhitespace(s[k]) {
      assert s[k] == q[k - |p| - |w|];
    }
    if w == [] {
      TrimEmpty(s);
    } else {
      assert s[|p|] == w[0] && s[|p| + |w| - 1] == w[|w| - 1];
      SpanUnique(s, 0, |p|, IsWhitespace);
      TrailUnique(s, |p|, |p| + |w|, |s|);
      assert s[|p|..|p| + |w|] == w;
    }
  }

  /** The decimal digits of `n`, as `${n}` renders a count. */
  function Decimal(n: nat): (r: string)
    ensures |r| >= 1 && forall k :: 0 <= k < |r| ==> IsDigit(r[k])
  {
    if n < 10 then ["0123456789"[n]] else Decimal(n / 10) + ["0123456789"[n % 10]]
  }

  /** The number a run of decimal digits denotes, most significant first. */
  function DigitsValue(t: string): nat
    requires forall k :: 0 <= k < |t| ==> IsDigit(t[k])
  {
    if t == [] then 0
    else
      var d := t[|t| - 1];
      assert IsDigit(d);
      DigitsValue(t[..|t| - 1]) * 10 + (d as int - '0' as int)
  }

  /** `${n}` is the decimal numeral of `n`: its digits denote `n`, and it
      has no leading zero unless `n` is zero. */
  lemma {:induction false} DecimalValue(n: nat)
    ensures DigitsValue(Decimal(n)) == n
    ensures n > 0 ==> Decimal(n)[0] != '0'
  {
    var r := Decimal(n);
    if n >= 10 {
      DecimalValue(n / 10);
      assert r[..|r| - 1] == Decimal(n / 10);
    }
  }
}
