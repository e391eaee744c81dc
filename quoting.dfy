/**
  The escape-aware quoted-string scanner `between('"', '"')` of the REPL
  (src/repl.ts, lines 7-24): a literal runs from an opening `"` to the
  first `"` that is not taken by a preceding backslash; inside it the only
  escape is backslash + quote, which decodes to a quote.
*/
module Quoting {
  import opened Wrappers
  import opened Lexical
  import opened Parsing

  /** Where the scan that starts at `j` stops: the closing quote, or `None`
      when the input ends first. A backslash followed by a quote is stepped
      over as one unit; every other character, a lone backslash included,
      is stepped over by itself. */
  function ClosingQuote(s: string, j: nat): (k: Option<nat>)
    ensures k.Some? ==> j <= k.value < |s| && s[k.value] == '"'
    decreases |s| - j
  {
    if j >= |s| then None
    else if s[j] == '\\' && j + 1 < |s| && s[j + 1] == '"' then ClosingQuote(s, j + 2)
    else if s[j] == '"' then Some(j)
    else ClosingQuote(s, j + 1)
  }

  /** `.replace(/\\"/g, '"')`: every backslash + quote pair, read left to
      right, becomes a quote; nothing else changes. */
  function Unescape(t: string): (r: string)
    ensures |r| <= |t|
  {
    if |t| >= 2 && t[0] == '\\' && t[1] == '"' then ['"'] + Unescape(t[2..])
    else if t == [] then []
    else [t[0]] + Unescape(t[1..])
  }

  /** `between('"', '"')` as a parser, for the pure grammar. */
  function Quoted(s: string, i: nat): (r: Reply<string>)
    ensures r.Ok? ==> i < r.pos <= |s|
  {
    if i < |s| && s[i] == '"' then
      match ClosingQuote(s, i + 1)
      case None => Fail
      case Some(j) => Ok(Unescape(s[i + 1..j]), j + 1)
    else Fail
  }

  /** The scanner as the source runs it: a loop advancing `j` over the input. */
  method Between(input: string, i: nat) returns (r: Reply<string>)
    ensures r == Quoted(input, i)
  {
    if i >= |input| || input[i] != '"' {
      return Fail;
    }
    var j := i + 1;
    while j < |input|
      invariant i + 1 <= j <= |input|
      invariant ClosingQuote(input, j) == ClosingQuote(input, i + 1)
    {
      if input[j] == '\\' && j + 1 < |input| && input[j + 1] == '"' {
        j := j + 2;
      } else if input[j] == '"' {
        return Ok(Unescape(input[i + 1..j]), j + 1);
      } else {
        j := j + 1;
      }
    }
    return Fail;
  }

  /** A quote at `m` that ends a literal whose body starts at `j`: it is not
      directly preceded by a backslash inside the body. */
  ghost predicate Unescaped(s: string, j: nat, m: nat) {
    j <= m < |s| && s[m] == '"' && (m == j || s[m - 1] != '\\')
  }

  /** The first quote at or after `j` that is not escaped. */
  ghost predicate FirstUnescaped(s: string, j: nat, k: nat) {
    Unescaped(s, j, k) && forall m :: j <= m < k ==> !Unescaped(s, j, m)
  }

  /** The quote at `k` closes the literal opened at `i`. */
  ghost predicate ClosesLiteral(s: string, i: nat, k: nat) {
    FirstUnescaped(s, i + 1, k)
  }

  /** The scan stops exactly at the first unescaped quote, and finds none
      exactly when there is none. */
  lemma {:induction false} ClosingQuoteIsFirstUnescaped(s: string, j: nat)
    ensures ClosingQuote(s, j).Some? ==> FirstUnescaped(s, j, ClosingQuote(s, j).value)
    ensures ClosingQuote(s, j).None? ==> forall m :: j <= m < |s| ==> !Unescaped(s, j, m)
    decreases |s| - j
  {
    if j >= |s| {
    } else if s[j] == '\\' && j + 1 < |s| && s[j + 1] == '"' {
      ClosingQuoteIsFirstUnescaped(s, j + 2);
      forall m | j <= m < |s| && Unescaped(s, j, m)
        ensures m >= j + 2 && Unescaped(s, j + 2, m)
      {
      }
    } else if s[j] == '"' {
    } else {
      ClosingQuoteIsFirstUnescaped(s, j + 1);
      forall m | j <= m < |s| && Unescaped(s, j, m)
        ensures m >= j + 1 && Unescaped(s, j + 1, m)
      {
      }
      forall m | j + 1 <= m < |s| && Unescaped(s, j + 1, m)
        ensures Unescaped(s, j, m)
      {
      }
    }
  }

  /** What `between` promises: it fails unless the input has a quote at `i`
      and an unescaped quote after it; on success it ends just past the first
      unescaped quote and yields the body with `\"` replaced by `"`. */
  lemma {:induction false} QuotedSpec(s: string, i: nat)
    ensures Quoted(s, i).Ok? <==> i < |s| && s[i] == '"' && exists k :: ClosesLiteral(s, i, k)
    ensures Quoted(s, i).Ok? ==>
              && ClosesLiteral(s, i, Quoted(s, i).pos - 1)
              && Quoted(s, i).value == Unescape(s[i + 1..Quoted(s, i).pos - 1])
  {
    if i < |s| && s[i] == '"' {
      ClosingQuoteIsFirstUnescaped(s, i + 1);
      if ClosingQuote(s, i + 1).None? {
        forall k: nat ensures !ClosesLiteral(s, i, k) {
          if i + 1 <= k < |s| {
            assert !Unescaped(s, i + 1, k);
          }
        }
      } else {
        assert ClosesLiteral(s, i, ClosingQuote(s, i + 1).value);
      }
    }
  }

  /** The inverse of `Unescape`: every quote gets a backslash in front. */
  function Escape(t: string): (r: string)
    ensures |r| >= |t|
    ensures r == [] <==> t == []
    ensures r != [] ==> r[0] != '"' && r[|r| - 1] == t[|t| - 1]
  {
    if t == [] then []
    else if t[0] == '"' then ['\\', '"'] + Escape(t[1..])
    else [t[0]] + Escape(t[1..])
  }

  /** Decoding undoes escaping, for every text. */
  lemma {:induction false} UnescapeEscape(t: string)
    ensures Unescape(Escape(t)) == t
  {
    if t != [] {
      UnescapeEscape(t[1..]);
      var e := Escape(t[1..]);
      if t[0] == '"' {
        assert Escape(t) == ['\\', '"'] + e;
        assert Escape(t)[2..] == e;
      } else {
        assert Escape(t) == [t[0]] + e;
        assert Escape(t)[1..] == e;
        assert !(|Escape(t)| >= 2 && Escape(t)[0] == '\\' && Escape(t)[1] == '"');
      }
    }
  }

  /** Text without a backslash + quote pair decodes to itself. */
  lemma {:induction false} UnescapePlain(t: string)
    requires forall k :: 0 <= k < |t| - 1 ==> !(t[k] == '\\' && t[k + 1] == '"')
    ensures Unescape(t) == t
  {
    if t != [] {
      assert !(|t| >= 2 && t[0] == '\\' && t[1] == '"');
      UnescapePlain(t[1..]);
    }
  }

  /** A slice reading the escape of a non-empty text reads the escape of
      its first character, then the escape of the rest. */
  lemma {:induction false} EscapeFirst(s: string, j: nat, t: string)
    requires t != [] && j + |Escape(t)| <= |s| && s[j..j + |Escape(t)|] == Escape(t)
    ensures |Escape(t)| == (if t[0] == '"' then 2 else 1) + |Escape(t[1..])|
    ensures t[0] == '"' ==> s[j] == '\\' && s[j + 1] == '"'
    ensures t[0] != '"' ==> s[j] == t[0]
    ensures s[j + |Escape(t)| - |Escape(t[1..])|..j + |Escape(t)|] == Escape(t[1..])
  {
    var e := Escape(t[1..]);
    if t[0] == '"' {
      assert Escape(t) == ['\\', '"'] + e;
      SliceParts(s, j, ['\\', '"'], e);
      assert s[j..j + 2][0] == s[j] && s[j..j + 2][1] == s[j + 1];
    } else {
      assert Escape(t) == [t[0]] + e;
      SliceParts(s, j, [t[0]], e);
      assert s[j..j + 1][0] == s[j];
    }
  }

  /** The scan over an escaped text followed by a quote stops at that quote,
      as long as the text does not end with a backslash (which would escape
      the closing quote). */
  lemma {:induction false} ClosingQuoteAfterEscape(s: string, j: nat, t: string)
    requires t == [] || t[|t| - 1] != '\\'
    requires j + |Escape(t)| < |s| && s[j..j + |Escape(t)|] == Escape(t) && s[j + |Escape(t)|] == '"'
    ensures ClosingQuote(s, j) == Some(j + |Escape(t)|)
    decreases |t|
  {
    if t != [] {
      EscapeFirst(s, j, t);
      var n := |Escape(t)| - |Escape(t[1..])|;
      assert t[1..] == [] || t[1..][|t[1..]| - 1] == t[|t| - 1];
      if t[0] == '\\' {
        assert s[j + 1] == s[j + n..j + |Escape(t)|][0];
      }
      ClosingQuoteAfterEscape(s, j + n, t[1..]);
    }
  }

  /** A slice reading a body between two quotes reads each of the three. */
  lemma {:induction false} BetweenQuotes(s: string, i: nat, e: string)
    requires i + |e| + 2 <= |s| && s[i..i + |e| + 2] == ['"'] + e + ['"']
    ensures s[i] == '"' && s[i + 1..i + 1 + |e|] == e && s[i + 1 + |e|] == '"'
  {
    SliceParts(s, i, ['"'] + e, ['"']);
    SliceParts(s, i, ['"'], e);
    assert s[i..i + 1][0] == s[i];
    assert s[i + 1 + |e|..i + |e| + 2][0] == s[i + 1 + |e|];
  }

  /** Round trip: a text written as a quoted literal (quotes escaped) is read
      back exactly, and the scan ends just after the literal. */
  lemma {:induction false} QuotedRoundTrip(s: string, i: nat, t: string)
    requires t == [] || t[|t| - 1] != '\\'
    requires i + |Escape(t)| + 2 <= |s| && s[i..i + |Escape(t)| + 2] == ['"'] + Escape(t) + ['"']
    ensures Quoted(s, i) == Ok(t, i + |Escape(t)| + 2)
  {
    BetweenQuotes(s, i, Escape(t));
    ClosingQuoteAfterEscape(s, i + 1, t);
    UnescapeEscape(t);
  }
}
