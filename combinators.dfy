/**
  The part of the Parsimmon combinator library the REPL grammar relies on.

  A parser reads the input `s` from position `i` and either fails or
  succeeds with a value and the position just after what it consumed.
  Parsimmon never commits: a failing parser leaves the position where it
  was, so `alt` tries its next alternative at the same place, and a
  repetition that fails half way through an item ends just before it.
*/
module Parsing {
  import opened Lexical

  datatype Reply<+T> = Fail | Ok(value: T, pos: nat)

  type Parser<T> = (string, nat) -> Reply<T>

  /** Every success consumes at least one character and ends inside the input.
      Separators and list items have this property; it is what makes
      repetition terminate (Parsimmon raises an error instead when a repeated
      parser succeeds without consuming anything). */
  ghost predicate Consumes<T>(p: Parser<T>) {
    forall s: string, i: nat {:trigger p(s, i)} :: p(s, i).Ok? ==> i < p(s, i).pos <= |s|
  }

  /** The text `w` occurs in `s` at `i`, character by character. */
  predicate Placed(s: string, i: nat, w: string)
    ensures Placed(s, i, w) ==> i + |w| <= |s|
    decreases |w|
  {
    if w == [] then i <= |s| else i < |s| && s[i] == w[0] && Placed(s, i + 1, w[1..])
  }

  /** Placed text is the slice of `s` that it covers. */
  lemma {:induction false} PlacedSlice(s: string, i: nat, w: string)
    ensures Placed(s, i, w) <==> i + |w| <= |s| && s[i..i + |w|] == w
    decreases |w|
  {
    if w != [] {
      PlacedSlice(s, i + 1, w[1..]);
      if i + |w| <= |s| {
        var t := s[i..i + |w|];
        assert t[0] == s[i] && t[1..] == s[i + 1..i + 1 + |w[1..]|];
        assert t == w <==> t[0] == w[0] && t[1..] == w[1..] by {
          if t[0] == w[0] && t[1..] == w[1..] {
            assert t == [t[0]] + t[1..] && w == [w[0]] + w[1..];
          }
        }
      }
    }
  }

  /** `p.string(w)` */
  function Lit(w: string, s: string, i: nat): (r: Reply<()>)
    ensures r.Ok? <==> Placed(s, i, w)
    ensures r.Ok? ==> r.pos == i + |w|
  {
    if Placed(s, i, w) then Ok((), i + |w|) else Fail
  }

  /** A literal matches only where its first character is. */
  lemma {:induction false} LitStarts(w: string, s: string, i: nat)
    requires w != []
    ensures Lit(w, s, i).Ok? ==> i < |s| && s[i] == w[0]
    ensures Lit(w, s, i).Ok? && |w| >= 2 ==> i + 1 < |s| && s[i + 1] == w[1]
  {
    if Lit(w, s, i).Ok? && |w| >= 2 {
      assert Placed(s, i + 1, w[1..]);
      assert w[1..][0] == w[1];
    }
  }

  /** `p.alt` of two alternatives at the same position: the first reply
      that succeeds. */
  function Or<T>(a: Reply<T>, b: Reply<T>): (r: Reply<T>)
    ensures r.Ok? <==> a.Ok? || b.Ok?
  {
    if a.Ok? then a else b
  }

  /** `p.whitespace`, the regular expression `\s+` */
  function Whitespace(s: string, i: nat): (r: Reply<()>)
    ensures r.Ok? <==> i < |s| && IsWhitespace(s[i])
    ensures r.Ok? ==> i < r.pos <= |s| && r.pos == Span(s, i, IsWhitespace)
  {
    if i < |s| && IsWhitespace(s[i]) then Ok((), Span(s, i, IsWhitespace)) else Fail
  }

  /** `p.optWhitespace`, the regular expression `\s*`, which always succeeds:
      the position after the whitespace at `i`. */
  function OptWhitespace(s: string, i: nat): (j: nat)
    ensures i <= j && (i <= |s| ==> j <= |s|)
    ensures j < |s| ==> !IsWhitespace(s[j])
  {
    SpanStops(s, i, IsWhitespace);
    Span(s, i, IsWhitespace)
  }

  /** `p.sepBy1(item, sep)`: one item, then as many `sep` + item pairs as follow. */
  function SepBy1<T>(item: Parser<T>, sep: Parser<()>, s: string, i: nat): (r: Reply<seq<T>>)
    requires Consumes(item) && Consumes(sep)
    ensures r.Ok? <==> item(s, i).Ok?
    ensures r.Ok? ==> |r.value| >= 1 && r.value[0] == item(s, i).value
    ensures r.Ok? ==> item(s, i).pos <= r.pos <= |s|
  {
    match item(s, i)
    case Fail => Fail
    case Ok(x, j) =>
      var (xs, k) := MoreItems(item, sep, s, j);
      Ok([x] + xs, k)
  }

  /** `sep.then(item).many()`: the items that follow, each after a separator.
      A pair whose separator or item fails is not consumed at all. */
  function MoreItems<T>(item: Parser<T>, sep: Parser<()>, s: string, i: nat): (r: (seq<T>, nat))
    requires Consumes(item) && Consumes(sep)
    ensures i <= r.1 && (i <= |s| ==> r.1 <= |s|)
    ensures r.0 == [] <==> r.1 == i
    decreases |s| - i
  {
    match sep(s, i)
    case Fail => ([], i)
    case Ok(_, j) =>
      match item(s, j)
      case Fail => ([], i)
      case Ok(x, k) =>
        var (xs, e) := MoreItems(item, sep, s, k);
        ([x] + xs, e)
  }

  /** `p.sepBy(item, sep)`: like `SepBy1`, or no item at all. */
  function SepBy<T>(item: Parser<T>, sep: Parser<()>, s: string, i: nat): (r: Reply<seq<T>>)
    requires Consumes(item) && Consumes(sep)
    ensures r.Ok?
    ensures r.value == [] <==> item(s, i).Fail?
    ensures r.value == [] ==> r.pos == i
    ensures i <= r.pos && (i <= |s| ==> r.pos <= |s|)
  {
    match SepBy1(item, sep, s, i)
    case Ok(xs, j) => Ok(xs, j)
    case Fail => Ok([], i)
  }
}
