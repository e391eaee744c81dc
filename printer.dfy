/**
  A printer for the command language and the proof that the grammar reads
  printed text back: values, variables, triples and the comma-, semicolon-
  and whitespace-separated lists all come back as printed, in order, and
  each parser stops exactly at the end of what was printed.

  A reading is stated relative to what follows the printed text: a token
  ends where a character that cannot continue it comes, or at the end of
  the input.
*/
module Printer {
  import opened Lexical
  import opened Parsing
  import opened Quoting
  import opened Grammar

  // ----- placing text and reading it back ----------------------------------

  /** Position `j` is the end of `s` or holds a character satisfying `stop`. */
  predicate Stops(s: string, j: nat, stop: char -> bool) {
    j == |s| || (j < |s| && stop(s[j]))
  }

  /** The characters that end a value token in printed commands. */
  predicate Delimiter(c: char) {
    IsWhitespace(c) || c == ',' || c == ';'
  }

  /** The characters that end an AND-list in printed commands. */
  predicate ConjunctionEnd(c: char) {
    IsWhitespace(c) || c == ';'
  }

  /** Wherever `w` is placed and followed by a stop, `p` reads `x` from all of `w`. */
  ghost predicate Reads<T>(p: Parser<T>, x: T, w: string, stop: char -> bool) {
    forall s: string, i: nat {:trigger p(s, i), Placed(s, i, w)} ::
      Placed(s, i, w) && Stops(s, i + |w|, stop) ==> p(s, i) == Ok(x, i + |w|)
  }

  /** Text that neither starts nor ends with whitespace. */
  predicate Solid(w: string) {
    w != [] && !IsWhitespace(w[0]) && !IsWhitespace(w[|w| - 1])
  }

  /** Text placed as `a + b` has `a` and then `b` in place. */
  lemma {:induction false} PlacedSplit(s: string, i: nat, a: string, b: string)
    requires Placed(s, i, a + b)
    ensures Placed(s, i, a) && Placed(s, i + |a|, b)
  {
    PlacedSlice(s, i, a + b);
    SliceParts(s, i, a, b);
    PlacedSlice(s, i, a);
    PlacedSlice(s, i + |a|, b);
  }

  /** Every character of placed text is where it was placed. */
  lemma {:induction false} PlacedAt(s: string, i: nat, w: string, k: nat)
    requires Placed(s, i, w) && k < |w|
    ensures s[i + k] == w[k]
  {
    PlacedSlice(s, i, w);
    assert s[i..i + |w|][k] == s[i + k];
  }

  /** A single blank before non-blank text is what `p.whitespace` reads. */
  lemma {:induction false} OneBlank(s: string, j: nat)
    requires j + 1 < |s| && IsWhitespace(s[j]) && !IsWhitespace(s[j + 1])
    ensures Whitespace(s, j) == Ok((), j + 1)
    ensures OptWhitespace(s, j) == j + 1
  {
    SpanUnique(s, j, j + 1, IsWhitespace);
  }

  /** Before non-blank text `p.optWhitespace` reads nothing. */
  lemma {:induction false} NoBlank(s: string, j: nat)
    requires j < |s| && !IsWhitespace(s[j])
    ensures OptWhitespace(s, j) == j
  {
    SpanUnique(s, j, j, IsWhitespace);
  }

  /** `w` followed by one blank and non-blank text is read by `Keyword(w)`. */
  lemma {:induction false} KeywordAt(w: string, s: string, i: nat)
    requires Placed(s, i, w + " ") && i + |w| + 1 < |s| && !IsWhitespace(s[i + |w| + 1])
    ensures Keyword(w, s, i) == Ok((), i + |w| + 1)
  {
    PlacedSplit(s, i, w, " ");
    PlacedAt(s, i + |w|, " ", 0);
    OneBlank(s, i + |w|);
  }

  /** A command word and a blank, followed by solid text: the keyword parser
      reads the word and the blank. */
  lemma {:induction false} CommandWordAt(word: string, s: string, i: nat, w: string)
    requires Placed(s, i, word + " ") && Placed(s, i + |word| + 1, w) && Solid(w)
    ensures Keyword(word, s, i) == Ok((), i + |word| + 1)
  {
    PlacedAt(s, i + |word| + 1, w, 0);
    KeywordAt(word, s, i);
  }

  // ----- value tokens ------------------------------------------------------

  /** A string is printed bare when it is an identifier and quoted otherwise;
      a quoted string must not end with a backslash, which would take the
      closing quote. */
  predicate PrintableString(t: string) {
    IsIdentifier(t) || t == [] || t[|t| - 1] != '\\'
  }

  function PrintString(t: string): (w: string)
    requires PrintableString(t)
    ensures Solid(w)
  {
    if IsIdentifier(t) then
      assert IsIdentChar(t[|t| - 1]) || |t| == 1;
      t
    else "\"" + Escape(t) + "\""
  }

  /** A number is printed as its lexeme, which must be a number token that
      `parseFloat` reads. */
  predicate PrintableNumber(n: Number) {
    IsNumberToken(n.lexeme) && HasFloatPrefix(n.lexeme)
  }

  predicate PrintableValue(v: Value) {
    match v
    case Num(n) => PrintableNumber(n)
    case Str(t) => PrintableString(t)
  }

  function PrintValue(v: Value): (w: string)
    requires PrintableValue(v)
    ensures Solid(w)
  {
    match v
    case Num(n) =>
      NumberTokenChars(n.lexeme);
      n.lexeme
    case Str(t) => PrintString(t)
  }

  /** The characters of a number token after its optional minus sign. */
  lemma {:induction false} NumberTokenChars(t: string)
    requires IsNumberToken(t)
    ensures |t| > 0 && IsNumberChar(t[|t| - 1])
    ensures forall k :: (if t[0] == '-' then 1 else 0) <= k < |t| ==> IsNumberChar(t[k])
  {
    if t[0] == '-' {
      forall k | 1 <= k < |t| ensures IsNumberChar(t[k]) {
        assert t[1..][k - 1] == t[k];
      }
    }
  }

  /** An identifier followed by a character that cannot continue it. */
  lemma {:induction false} IdentifierAt(s: string, i: nat, t: string)
    requires IsIdentifier(t) && Placed(s, i, t)
    requires i + |t| == |s| || !IsIdentChar(s[i + |t|])
    ensures Identifier(s, i) == Ok(t, i + |t|)
  {
    PlacedAt(s, i, t, 0);
    forall k | i + 1 <= k < i + |t| ensures IsIdentChar(s[k]) {
      PlacedAt(s, i, t, k - i);
    }
    SpanUnique(s, i + 1, i + |t|, IsIdentChar);
    PlacedSlice(s, i, t);
  }

  /** No number is read at a letter: `parseFloat` gives NaN for any token
      that starts with one (the letter `e` alone is a number character). */
  lemma {:induction false} NoNumberAtLetter(s: string, i: nat)
    requires i < |s| && IsLetter(s[i])
    ensures PNumber(s, i).Fail?
  {
    var j := NumberTokenEnd(s, i);
    if j > i {
      assert s[i..j][0] == s[i];
    }
  }

  /** A number token followed by a character outside `[0-9\.e]` is the
      longest match at its start. */
  lemma {:induction false} NumberTokenAt(s: string, i: nat, t: string)
    requires IsNumberToken(t) && Placed(s, i, t)
    requires i + |t| == |s| || !IsNumberChar(s[i + |t|])
    ensures NumberTokenEnd(s, i) == i + |t| && s[i..i + |t|] == t
  {
    var j := i + |t|;
    PlacedAt(s, i, t, 0);
    var d := if t[0] == '-' then 1 else 0;
    NumberTokenChars(t);
    forall k | i + d <= k < j ensures IsNumberChar(s[k]) {
      PlacedAt(s, i, t, k - i);
    }
    SpanUnique(s, i + d, j, IsNumberChar);
    PlacedSlice(s, i, t);
  }

  /** A printed number followed by a character outside `[0-9\.e]`. */
  lemma {:induction false} NumberAt(s: string, i: nat, n: Number)
    requires PrintableNumber(n) && Placed(s, i, n.lexeme)
    requires i + |n.lexeme| == |s| || !IsNumberChar(s[i + |n.lexeme|])
    ensures PNumber(s, i) == Ok(n, i + |n.lexeme|)
  {
    NumberTokenAt(s, i, n.lexeme);
  }

  /** A printed value followed by a delimiter is read back by `pValue`; it
      does not start with the `?` of a variable. */
  lemma {:induction false} ValueAt(s: string, i: nat, v: Value)
    requires PrintableValue(v) && Placed(s, i, PrintValue(v))
    requires Stops(s, i + |PrintValue(v)|, Delimiter)
    ensures PValue(s, i) == Ok(v, i + |PrintValue(v)|)
    ensures s[i] != '?'
  {
    var w := PrintValue(v);
    PlacedAt(s, i, w, 0);
    match v
    case Num(n) =>
      NumberAt(s, i, n);
    case Str(t) =>
      StringAt(s, i, t);
  }

  /** A printed string followed by a delimiter: an identifier is read by the
      first alternative of `pString`, anything else by the quoted one. */
  lemma {:induction false} StringAt(s: string, i: nat, t: string)
    requires PrintableString(t) && Placed(s, i, PrintString(t))
    requires Stops(s, i + |PrintString(t)|, Delimiter)
    ensures PNumber(s, i).Fail?
    ensures PString(s, i) == Ok(t, i + |PrintString(t)|)
  {
    PlacedAt(s, i, PrintString(t), 0);
    if IsIdentifier(t) {
      NoNumberAtLetter(s, i);
      IdentifierAt(s, i, t);
    } else {
      PlacedSlice(s, i, PrintString(t));
      assert s[i] == '"';
      assert NumberTokenEnd(s, i) == i;
      QuotedRoundTrip(s, i, t);
    }
  }

  /** Reading a printed value needs only a delimiter after it. */
  lemma {:induction false} ValueReads(v: Value)
    requires PrintableValue(v)
    ensures Reads(PValue, v, PrintValue(v), Delimiter)
  {
    forall s: string, i: nat | Placed(s, i, PrintValue(v)) && Stops(s, i + |PrintValue(v)|, Delimiter)
      ensures PValue(s, i) == Ok(v, i + |PrintValue(v)|)
    {
      ValueAt(s, i, v);
    }
  }

  /** In a filter, a printed value is read as a literal term. */
  lemma {:induction false} LiteralReads(v: Value)
    requires PrintableValue(v)
    ensures Reads(PTerm, Literal(v), PrintValue(v), Delimiter)
  {
    forall s: string, i: nat | Placed(s, i, PrintValue(v)) && Stops(s, i + |PrintValue(v)|, Delimiter)
      ensures PTerm(s, i) == Ok(Literal(v), i + |PrintValue(v)|)
    {
      ValueAt(s, i, v);
      assert PVar(s, i).Fail?;
    }
  }

  /** A variable is printed as `?` and its name. */
  function PrintVar(name: string): (w: string)
    requires IsIdentifier(name)
    ensures Solid(w)
  {
    assert IsIdentChar(name[|name| - 1]) || |name| == 1;
    "?" + name
  }

  lemma {:induction false} VarAt(s: string, i: nat, name: string)
    requires IsIdentifier(name) && Placed(s, i, PrintVar(name))
    requires Stops(s, i + |PrintVar(name)|, Delimiter)
    ensures PVar(s, i) == Ok(name, i + |PrintVar(name)|)
    ensures PTerm(s, i) == Ok(Variable(name), i + |PrintVar(name)|)
  {
    PlacedSplit(s, i, "?", name);
    PlacedAt(s, i, "?", 0);
    IdentifierAt(s, i + 1, name);
  }

  /** Reading a printed variable needs only a delimiter after it. */
  lemma {:induction false} VarReads(name: string)
    requires IsIdentifier(name)
    ensures Reads(PVar, name, PrintVar(name), Delimiter)
    ensures Reads(PTerm, Variable(name), PrintVar(name), Delimiter)
  {
    forall s: string, i: nat | Placed(s, i, PrintVar(name)) && Stops(s, i + |PrintVar(name)|, Delimiter)
      ensures PVar(s, i) == Ok(name, i + |PrintVar(name)|)
      ensures PTerm(s, i) == Ok(Variable(name), i + |PrintVar(name)|)
    {
      VarAt(s, i, name);
    }
  }

  // ----- triples -----------------------------------------------------------

  /** Three texts separated by single blanks. */
  function Spaced(a: string, b: string, c: string): string {
    a + " " + b + " " + c
  }

  /** Where the parts of three spaced texts are. */
  lemma {:induction false} SpacedParts(s: string, i: nat, wa: string, wb: string, wc: string)
    requires Placed(s, i, Spaced(wa, wb, wc))
    ensures |Spaced(wa, wb, wc)| == |wa| + |wb| + |wc| + 2
    ensures Placed(s, i, wa) && s[i + |wa|] == ' '
    ensures Placed(s, i + |wa| + 1, wb) && s[i + |wa| + 1 + |wb|] == ' '
    ensures Placed(s, i + |wa| + |wb| + 2, wc)
  {
    PlacedSplit(s, i, wa + " " + wb + " ", wc);
    PlacedSplit(s, i, wa + " " + wb, " ");
    PlacedSplit(s, i, wa + " ", wb);
    PlacedSplit(s, i, wa, " ");
    PlacedAt(s, i + |wa|, " ", 0);
    PlacedAt(s, i + |wa| + 1 + |wb|, " ", 0);
  }

  /** `pTriple(item)` at a position where the three items and the single
      blanks between them are known. */
  lemma {:induction false} TripleAt<T>(item: Parser<T>, s: string, i: nat, t: Triple<T>, p1: nat, p2: nat, e: nat)
    requires Consumes(item)
    requires item(s, i) == Ok(t.first, p1)
    requires p1 + 1 < |s| && IsWhitespace(s[p1]) && !IsWhitespace(s[p1 + 1])
    requires item(s, p1 + 1) == Ok(t.second, p2)
    requires p2 + 1 < |s| && IsWhitespace(s[p2]) && !IsWhitespace(s[p2 + 1])
    requires item(s, p2 + 1) == Ok(t.third, e)
    ensures PTriple(item, s, i) == Ok(t, e)
  {
    OneBlank(s, p1);
    OneBlank(s, p2);
  }

  /** `pTriple(item)` reads three printed items separated by single blanks,
      in the order they were printed. */
  lemma {:induction false} TripleReads<T>(item: Parser<T>, t: Triple<T>, wa: string, wb: string, wc: string, stop: char -> bool)
    requires Consumes(item) && stop(' ')
    requires Reads(item, t.first, wa, stop) && Reads(item, t.second, wb, stop) && Reads(item, t.third, wc, stop)
    requires Solid(wb) && Solid(wc)
    ensures forall s: string, i: nat {:trigger PTriple(item, s, i), Placed(s, i, Spaced(wa, wb, wc))} ::
      Placed(s, i, Spaced(wa, wb, wc)) && Stops(s, i + |Spaced(wa, wb, wc)|, stop) ==>
        PTriple(item, s, i) == Ok(t, i + |Spaced(wa, wb, wc)|)
  {
    forall s: string, i: nat | Placed(s, i, Spaced(wa, wb, wc)) && Stops(s, i + |Spaced(wa, wb, wc)|, stop)
      ensures PTriple(item, s, i) == Ok(t, i + |Spaced(wa, wb, wc)|)
    {
      SpacedParts(s, i, wa, wb, wc);
      var p1 := i + |wa|;
      var p2 := p1 + 1 + |wb|;
      PlacedAt(s, p1 + 1, wb, 0);
      PlacedAt(s, p2 + 1, wc, 0);
      assert Stops(s, p1, stop) && Stops(s, p2, stop);
      assert item(s, i) == Ok(t.first, p1);
      assert item(s, p1 + 1) == Ok(t.second, p2);
      assert item(s, p2 + 1) == Ok(t.third, i + |Spaced(wa, wb, wc)|);
      TripleAt(item, s, i, t, p1, p2, i + |Spaced(wa, wb, wc)|);
    }
  }

  // ----- separated lists ---------------------------------------------------

  /** Each text preceded by the separator text. */
  function Chain(ws: seq<string>, sep: string): string
    decreases |ws|
  {
    if ws == [] then [] else sep + ws[0] + Chain(ws[1..], sep)
  }

  /** The texts with the separator text between each two. */
  function Joined(ws: seq<string>, sep: string): string
    requires |ws| >= 1
  {
    ws[0] + Chain(ws[1..], sep)
  }

  /** A chain of solid texts ends like its last text. */
  lemma {:induction false} ChainLast(ws: seq<string>, sep: string)
    requires |ws| >= 1 && ws[|ws| - 1] != []
    ensures Chain(ws, sep) != []
    ensures Chain(ws, sep)[|Chain(ws, sep)| - 1] == ws[|ws| - 1][|ws[|ws| - 1]| - 1]
    decreases |ws|
  {
    var rest := Chain(ws[1..], sep);
    if |ws| > 1 {
      ChainLast(ws[1..], sep);
    }
    assert Chain(ws, sep) == (sep + ws[0]) + rest;
  }

  /** Joined solid texts are solid. */
  lemma {:induction false} JoinedSolid(ws: seq<string>, sep: string)
    requires |ws| >= 1 && forall k :: 0 <= k < |ws| ==> Solid(ws[k])
    ensures Solid(Joined(ws, sep))
  {
    if |ws| > 1 {
      ChainLast(ws[1..], sep);
    }
  }

  /** Every item text is solid and read back as the corresponding item. */
  ghost predicate AllRead<T>(item: Parser<T>, xs: seq<T>, ws: seq<string>, stop: char -> bool) {
    |xs| == |ws| && forall k :: 0 <= k < |xs| ==> Reads(item, xs[k], ws[k], stop) && Solid(ws[k])
  }

  /** The separator parser reads its printed text when non-blank text follows. */
  ghost predicate SepReads(sep: Parser<()>, w: string) {
    forall s: string, j: nat {:trigger sep(s, j), Placed(s, j, w)} ::
      Placed(s, j, w) && j + |w| < |s| && !IsWhitespace(s[j + |w|]) ==> sep(s, j) == Ok((), j + |w|)
  }

  /** Where the parts of a non-empty chain are. */
  lemma {:induction false} ChainParts(s: string, i: nat, ws: seq<string>, sep: string)
    requires |ws| >= 1 && Placed(s, i, Chain(ws, sep))
    ensures |Chain(ws, sep)| == |sep| + |ws[0]| + |Chain(ws[1..], sep)|
    ensures Placed(s, i, sep) && Placed(s, i + |sep|, ws[0])
    ensures Placed(s, i + |sep| + |ws[0]|, Chain(ws[1..], sep))
  {
    assert Chain(ws, sep) == sep + ws[0] + Chain(ws[1..], sep);
    PlacedSplit(s, i, sep + ws[0], Chain(ws[1..], sep));
    PlacedSplit(s, i, sep, ws[0]);
  }

  /** What follows an item of a printed list: the next separator, or what
      follows the whole list. */
  lemma {:induction false} StopsAfterItem(s: string, k: nat, ws: seq<string>, sep: string, stop: char -> bool, e: nat)
    requires sep != [] && stop(sep[0])
    requires Placed(s, k, Chain(ws, sep)) && e == k + |Chain(ws, sep)| && Stops(s, e, stop)
    ensures Stops(s, k, stop)
  {
    if ws != [] {
      ChainParts(s, k, ws, sep);
      PlacedAt(s, k, sep, 0);
    }
  }

  lemma {:induction false} AllReadTail<T>(item: Parser<T>, xs: seq<T>, ws: seq<string>, stop: char -> bool)
    requires |xs| >= 1 && AllRead(item, xs, ws, stop)
    ensures AllRead(item, xs[1..], ws[1..], stop)
    ensures Reads(item, xs[0], ws[0], stop) && Solid(ws[0])
  {
    forall m | 0 <= m < |xs| - 1
      ensures Reads(item, xs[1..][m], ws[1..][m], stop) && Solid(ws[1..][m])
    {
      assert xs[1..][m] == xs[m + 1] && ws[1..][m] == ws[m + 1];
    }
  }

  /** What `Reads` promises at one position. */
  lemma {:induction false} UseReads<T>(item: Parser<T>, x: T, w: string, stop: char -> bool, s: string, i: nat)
    ensures Reads(item, x, w, stop) && Placed(s, i, w) && Stops(s, i + |w|, stop) ==> item(s, i) == Ok(x, i + |w|)
  {
  }

  lemma {:induction false} UseSepReads(sep: Parser<()>, w: string, s: string, j: nat)
    requires SepReads(sep, w) && Placed(s, j, w) && j + |w| < |s| && !IsWhitespace(s[j + |w|])
    ensures sep(s, j) == Ok((), j + |w|)
  {
  }

  /** The repetition stops where no separator follows. */
  lemma {:induction false} NoSeparator<T>(item: Parser<T>, sep: Parser<()>, s: string, e: nat)
    requires Consumes(item) && Consumes(sep) && sep(s, e).Fail?
    ensures MoreItems(item, sep, s, e).0 == []
  {
  }

  /** One round of `sep.then(item).many()`. */
  lemma {:induction false} MoreItemsStep<T>(item: Parser<T>, sep: Parser<()>, s: string, i: nat, j: nat, x: T, k: nat)
    requires Consumes(item) && Consumes(sep)
    requires sep(s, i) == Ok((), j) && item(s, j) == Ok(x, k)
    ensures MoreItems(item, sep, s, i) == ([x] + MoreItems(item, sep, s, k).0, MoreItems(item, sep, s, k).1)
  {
  }

  /** The first round of the repetition over a non-empty printed chain:
      the separator and the first item are read, and the rest of the chain
      is placed after them. */
  lemma {:induction false} FirstRoundAt<T>(item: Parser<T>, sep: Parser<()>, sepText: string,
                                           xs: seq<T>, ws: seq<string>, stop: char -> bool, s: string, i: nat)
    requires |xs| >= 1 && AllRead(item, xs, ws, stop)
    requires SepReads(sep, sepText) && sepText != [] && stop(sepText[0])
    requires Placed(s, i, Chain(ws, sepText))
    requires Stops(s, i + |Chain(ws, sepText)|, stop)
    ensures var k := i + |sepText| + |ws[0]|;
      && sep(s, i) == Ok((), i + |sepText|)
      && item(s, i + |sepText|) == Ok(xs[0], k)
      && AllRead(item, xs[1..], ws[1..], stop)
      && Placed(s, k, Chain(ws[1..], sepText))
      && k + |Chain(ws[1..], sepText)| == i + |Chain(ws, sepText)|
  {
    var e := i + |Chain(ws, sepText)|;
    ChainParts(s, i, ws, sepText);
    AllReadTail(item, xs, ws, stop);
    var j := i + |sepText|;
    var k := j + |ws[0]|;
    PlacedAt(s, j, ws[0], 0);
    UseSepReads(sep, sepText, s, i);
    StopsAfterItem(s, k, ws[1..], sepText, stop, e);
    UseReads(item, xs[0], ws[0], stop, s, j);
  }

  /** The repetition after the first item reads every printed separator and
      item, in order, and stops where the printed chain ends. */
  lemma {:induction false} MoreItemsAt<T>(item: Parser<T>, sep: Parser<()>, sepText: string,
                                          xs: seq<T>, ws: seq<string>, stop: char -> bool, s: string, i: nat)
    requires Consumes(item) && Consumes(sep)
    requires AllRead(item, xs, ws, stop)
    requires SepReads(sep, sepText) && sepText != [] && stop(sepText[0])
    requires Placed(s, i, Chain(ws, sepText))
    requires Stops(s, i + |Chain(ws, sepText)|, stop)
    requires MoreItems(item, sep, s, i + |Chain(ws, sepText)|).0 == []
    ensures MoreItems(item, sep, s, i) == (xs, i + |Chain(ws, sepText)|)
    decreases |xs|
  {
    if xs == [] {
      assert |Chain(ws, sepText)| == 0;
    } else {
      FirstRoundAt(item, sep, sepText, xs, ws, stop, s, i);
      var k := i + |sepText| + |ws[0]|;
      MoreItemsAt(item, sep, sepText, xs[1..], ws[1..], stop, s, k);
      MoreItemsStep(item, sep, s, i, i + |sepText|, xs[0], k);
      assert xs == [xs[0]] + xs[1..];
    }
  }

  /** `p.sepBy1(item, sep)` reads a printed list back in full and in order. */
  lemma {:induction false} SepBy1At<T>(item: Parser<T>, sep: Parser<()>, sepText: string,
                    xs: seq<T>, ws: seq<string>, stop: char -> bool, s: string, i: nat)
    requires Consumes(item) && Consumes(sep)
    requires |xs| >= 1 && AllRead(item, xs, ws, stop)
    requires SepReads(sep, sepText) && sepText != [] && stop(sepText[0])
    requires Placed(s, i, Joined(ws, sepText))
    requires Stops(s, i + |Joined(ws, sepText)|, stop)
    requires MoreItems(item, sep, s, i + |Joined(ws, sepText)|).0 == []
    ensures SepBy1(item, sep, s, i) == Ok(xs, i + |Joined(ws, sepText)|)
  {
    PlacedSplit(s, i, ws[0], Chain(ws[1..], sepText));
    AllReadTail(item, xs, ws, stop);
    var k := i + |ws[0]|;
    StopsAfterItem(s, k, ws[1..], sepText, stop, i + |Joined(ws, sepText)|);
    assert item(s, i) == Ok(xs[0], k);
    MoreItemsAt(item, sep, sepText, xs[1..], ws[1..], stop, s, k);
    assert xs == [xs[0]] + xs[1..];
  }

  /** The separators of the grammar read their printed texts. */
  lemma {:induction false} CommaReads()
    ensures SepReads(CommaSep, ", ")
  {
    forall s: string, j: nat | Placed(s, j, ", ") && j + 2 < |s| && !IsWhitespace(s[j + 2])
      ensures CommaSep(s, j) == Ok((), j + 2)
    {
      KeywordAt(",", s, j);
    }
  }

  lemma {:induction false} SemicolonReads()
    ensures SepReads(SemicolonSep, "; ")
  {
    forall s: string, j: nat | Placed(s, j, "; ") && j + 2 < |s| && !IsWhitespace(s[j + 2])
      ensures SemicolonSep(s, j) == Ok((), j + 2)
    {
      KeywordAt(";", s, j);
    }
  }

  lemma {:induction false} BlankReads()
    ensures SepReads(Whitespace, " ")
  {
    forall s: string, j: nat | Placed(s, j, " ") && j + 1 < |s| && !IsWhitespace(s[j + 1])
      ensures Whitespace(s, j) == Ok((), j + 1)
    {
      PlacedAt(s, j, " ", 0);
      OneBlank(s, j);
    }
  }

  /** `p.string(",")...` cannot start where the text has no comma. */
  lemma {:induction false} CommaEnds(s: string, e: nat)
    requires Stops(s, e, ConjunctionEnd)
    ensures CommaSep(s, e).Fail?
  {
  }

  /** `p.string(";")...` cannot start where the text has no semicolon. */
  lemma {:induction false} SemicolonEnds(s: string, e: nat)
    requires Stops(s, e, IsWhitespace)
    ensures SemicolonSep(s, e).Fail?
  {
  }

  // ----- facts -------------------------------------------------------------

  predicate PrintableFact(f: Fact) {
    PrintableValue(f.first) && PrintableValue(f.second) && PrintableValue(f.third)
  }

  function PrintFact(f: Fact): (w: string)
    requires PrintableFact(f)
    ensures Solid(w)
  {
    Spaced(PrintValue(f.first), PrintValue(f.second), PrintValue(f.third))
  }

  /** Three texts that read as the entity, attribute and value of a fact,
      separated by blanks, read as the fact. */
  lemma {:induction false} FactTextReads(f: Fact, wa: string, wb: string, wc: string)
    requires Reads(PValue, f.first, wa, Delimiter) && Reads(PValue, f.second, wb, Delimiter)
    requires Reads(PValue, f.third, wc, Delimiter) && Solid(wb) && Solid(wc)
    ensures Reads(PFact, f, Spaced(wa, wb, wc), Delimiter)
  {
    TripleReads(PValue, f, wa, wb, wc, Delimiter);
    forall s: string, i: nat | Placed(s, i, Spaced(wa, wb, wc)) && Stops(s, i + |Spaced(wa, wb, wc)|, Delimiter)
      ensures PFact(s, i) == Ok(f, i + |Spaced(wa, wb, wc)|)
    {
      assert PTriple(PValue, s, i) == Ok(f, i + |Spaced(wa, wb, wc)|);
    }
  }

  /** A printed fact is read back as that fact. */
  lemma {:induction false} FactReads(f: Fact)
    requires PrintableFact(f)
    ensures Reads(PFact, f, PrintFact(f), Delimiter)
  {
    ValueReads(f.first);
    ValueReads(f.second);
    ValueReads(f.third);
    FactTextReads(f, PrintValue(f.first), PrintValue(f.second), PrintValue(f.third));
  }

  predicate PrintableFacts(fs: seq<Fact>) {
    |fs| >= 1 && forall k :: 0 <= k < |fs| ==> PrintableFact(fs[k])
  }

  function FactTexts(fs: seq<Fact>): (ws: seq<string>)
    requires PrintableFacts(fs)
    ensures |ws| == |fs| && forall k :: 0 <= k < |fs| ==> ws[k] == PrintFact(fs[k])
  {
    seq(|fs|, k requires 0 <= k < |fs| => PrintFact(fs[k]))
  }

  /** The facts of `set` and `remove`, separated by a comma and a blank. */
  function PrintFacts(fs: seq<Fact>): (w: string)
    requires PrintableFacts(fs)
    ensures Solid(w)
  {
    JoinedSolid(FactTexts(fs), ", ");
    Joined(FactTexts(fs), ", ")
  }

  /** Every printed fact of a list reads back as that fact. */
  lemma {:induction false} FactTextsRead(fs: seq<Fact>)
    requires PrintableFacts(fs)
    ensures AllRead(PFact, fs, FactTexts(fs), Delimiter)
  {
    forall k | 0 <= k < |fs| ensures Reads(PFact, fs[k], FactTexts(fs)[k], Delimiter) {
      FactReads(fs[k]);
    }
  }

  /** Facts joined by commas are read back in full and in order, when what
      follows is the end of the line, a blank or a semicolon. */
  lemma {:induction false} FactListAt(s: string, i: nat, fs: seq<Fact>, ws: seq<string>)
    requires |fs| >= 1 && AllRead(PFact, fs, ws, Delimiter)
    requires Placed(s, i, Joined(ws, ", ")) && Stops(s, i + |Joined(ws, ", ")|, ConjunctionEnd)
    ensures PFacts(s, i) == Ok(fs, i + |Joined(ws, ", ")|)
  {
    var e := i + |Joined(ws, ", ")|;
    CommaReads();
    CommaEnds(s, e);
    assert Stops(s, e, Delimiter);
    NoSeparator(PFact, CommaSep, s, e);
    SepBy1At(PFact, CommaSep, ", ", fs, ws, Delimiter, s, i);
  }

  lemma {:induction false} FactListReads(fs: seq<Fact>, ws: seq<string>)
    requires |fs| >= 1 && AllRead(PFact, fs, ws, Delimiter)
    ensures Reads(PFacts, fs, Joined(ws, ", "), ConjunctionEnd)
  {
    forall s: string, i: nat | Placed(s, i, Joined(ws, ", ")) && Stops(s, i + |Joined(ws, ", ")|, ConjunctionEnd)
      ensures PFacts(s, i) == Ok(fs, i + |Joined(ws, ", ")|)
    {
      FactListAt(s, i, fs, ws);
    }
  }

  /** The printed fact list of `set` and `remove` is read back in full and
      in order. */
  lemma {:induction false} FactsReads(fs: seq<Fact>)
    requires PrintableFacts(fs)
    ensures Reads(PFacts, fs, PrintFacts(fs), ConjunctionEnd)
  {
    FactTextsRead(fs);
    FactListReads(fs, FactTexts(fs));
  }

  // ----- filters -----------------------------------------------------------

  /** The term a slot record was made from. */
  function TermOf(slot: Slot): (t: Term)
    ensures SlotOf(t) == slot
  {
    match slot
    case VarSlot(name) => Variable(name)
    case ValueSlot(v) => Literal(v)
  }

  function TermsOf(e: Expression): (t: Triple<Term>)
    ensures ExpressionOf(t) == e
  {
    Triple(TermOf(e.first), TermOf(e.second), TermOf(e.third))
  }

  predicate PrintableSlot(slot: Slot) {
    match slot
    case VarSlot(name) => IsIdentifier(name)
    case ValueSlot(v) => PrintableValue(v)
  }

  function PrintSlot(slot: Slot): (w: string)
    requires PrintableSlot(slot)
    ensures Solid(w)
  {
    match slot
    case VarSlot(name) => PrintVar(name)
    case ValueSlot(v) => PrintValue(v)
  }

  lemma {:induction false} SlotReads(slot: Slot)
    requires PrintableSlot(slot)
    ensures Reads(PTerm, TermOf(slot), PrintSlot(slot), Delimiter)
  {
    match slot
    case VarSlot(name) => VarReads(name);
    case ValueSlot(v) => LiteralReads(v);
  }

  predicate PrintableExpression(e: Expression) {
    PrintableSlot(e.first) && PrintableSlot(e.second) && PrintableSlot(e.third)
  }

  function PrintExpression(e: Expression): (w: string)
    requires PrintableExpression(e)
    ensures Solid(w)
  {
    Spaced(PrintSlot(e.first), PrintSlot(e.second), PrintSlot(e.third))
  }

  lemma {:induction false} ExpressionIsTriple(s: string, i: nat)
    ensures PExpression(s, i) == PTriple(PTerm, s, i)
  {
  }

  lemma {:induction false} ExpressionReads(e: Expression)
    requires PrintableExpression(e)
    ensures Reads(PExpression, TermsOf(e), PrintExpression(e), Delimiter)
  {
    SlotReads(e.first);
    SlotReads(e.second);
    SlotReads(e.third);
    TripleReads(PTerm, TermsOf(e), PrintSlot(e.first), PrintSlot(e.second), PrintSlot(e.third), Delimiter);
    forall s: string, i: nat | Placed(s, i, PrintExpression(e)) && Stops(s, i + |PrintExpression(e)|, Delimiter)
      ensures PExpression(s, i) == Ok(TermsOf(e), i + |PrintExpression(e)|)
    {
      ExpressionIsTriple(s, i);
    }
  }

  predicate PrintableConjunction(c: seq<Expression>) {
    |c| >= 1 && forall k :: 0 <= k < |c| ==> PrintableExpression(c[k])
  }

  function ConjunctionTerms(c: seq<Expression>): (r: seq<Triple<Term>>)
    ensures |r| == |c| && forall k :: 0 <= k < |c| ==> r[k] == TermsOf(c[k])
  {
    seq(|c|, k requires 0 <= k < |c| => TermsOf(c[k]))
  }

  function ExpressionTexts(c: seq<Expression>): (ws: seq<string>)
    requires PrintableConjunction(c)
    ensures |ws| == |c| && forall k :: 0 <= k < |c| ==> ws[k] == PrintExpression(c[k])
  {
    seq(|c|, k requires 0 <= k < |c| => PrintExpression(c[k]))
  }

  /** An AND-list: expressions separated by a comma and a blank. */
  function PrintConjunction(c: seq<Expression>): (w: string)
    requires PrintableConjunction(c)
    ensures Solid(w)
  {
    JoinedSolid(ExpressionTexts(c), ", ");
    Joined(ExpressionTexts(c), ", ")
  }

  lemma {:induction false} ConjunctionReads(c: seq<Expression>)
    requires PrintableConjunction(c)
    ensures Reads(PAndExpression, ConjunctionTerms(c), PrintConjunction(c), ConjunctionEnd)
  {
    forall k | 0 <= k < |c| ensures Reads(PExpression, ConjunctionTerms(c)[k], ExpressionTexts(c)[k], Delimiter) {
      ExpressionReads(c[k]);
    }
    assert AllRead(PExpression, ConjunctionTerms(c), ExpressionTexts(c), Delimiter);
    CommaReads();
    forall s: string, i: nat | Placed(s, i, PrintConjunction(c)) && Stops(s, i + |PrintConjunction(c)|, ConjunctionEnd)
      ensures PAndExpression(s, i) == Ok(ConjunctionTerms(c), i + |PrintConjunction(c)|)
    {
      CommaEnds(s, i + |PrintConjunction(c)|);
      NoSeparator(PExpression, CommaSep, s, i + |PrintConjunction(c)|);
      SepBy1At(PExpression, CommaSep, ", ", ConjunctionTerms(c), ExpressionTexts(c), Delimiter, s, i);
    }
  }

  predicate PrintableFilter(f: Filter) {
    |f| >= 1 && forall a :: 0 <= a < |f| ==> PrintableConjunction(f[a])
  }

  function FilterTerms(f: Filter): (r: seq<seq<Triple<Term>>>)
    ensures |r| == |f| && forall a :: 0 <= a < |f| ==> r[a] == ConjunctionTerms(f[a])
  {
    seq(|f|, a requires 0 <= a < |f| => ConjunctionTerms(f[a]))
  }

  function ConjunctionTexts(f: Filter): (ws: seq<string>)
    requires PrintableFilter(f)
    ensures |ws| == |f| && forall a :: 0 <= a < |f| ==> ws[a] == PrintConjunction(f[a])
  {
    seq(|f|, a requires 0 <= a < |f| => PrintConjunction(f[a]))
  }

  /** An OR-list: AND-lists separated by a semicolon and a blank. */
  function PrintFilter(f: Filter): (w: string)
    requires PrintableFilter(f)
    ensures Solid(w)
  {
    JoinedSolid(ConjunctionTexts(f), "; ");
    Joined(ConjunctionTexts(f), "; ")
  }

  /** Mapping the terms of a filter back to slot records gives the filter. */
  lemma {:induction false} FilterOfTerms(f: Filter)
    ensures FilterOf(FilterTerms(f)) == f
  {
    var g := FilterOf(FilterTerms(f));
    forall a | 0 <= a < |f| ensures g[a] == f[a] {
      forall e | 0 <= e < |f[a]| ensures g[a][e] == f[a][e] {
        assert g[a][e] == ExpressionOf(TermsOf(f[a][e]));
      }
    }
  }

  /** `filter`, a blank and solid text the OR-list parser reads in full,
      when what follows is the end of the line or a blank. */
  lemma {:induction false} FilterTextAt(s: string, i: nat, or: seq<seq<Triple<Term>>>, w: string)
    requires Reads(POrExpression, or, w, IsWhitespace) && Solid(w)
    requires Placed(s, i, "filter" + " ") && Placed(s, i + 7, w) && Stops(s, i + 7 + |w|, IsWhitespace)
    ensures PFilter(s, i) == Ok(FilterOf(or), i + 7 + |w|)
  {
    CommandWordAt("filter", s, i, w);
    UseReads(POrExpression, or, w, IsWhitespace, s, i + 7);
    FilterFrom(s, i, or, i + 7 + |w|);
  }

  lemma {:induction false} FilterFrom(s: string, i: nat, or: seq<seq<Triple<Term>>>, e: nat)
    ensures Keyword("filter", s, i) == Ok((), i + 7) && POrExpression(s, i + 7) == Ok(or, e) ==>
      PFilter(s, i) == Ok(FilterOf(or), e)
  {
  }

  /** The OR-list of a printed filter reads back as its terms. */
  lemma {:induction false} FilterReads(f: Filter)
    requires PrintableFilter(f)
    ensures Reads(POrExpression, FilterTerms(f), PrintFilter(f), IsWhitespace)
  {
    ConjunctionsRead(f);
    OrListReads(FilterTerms(f), ConjunctionTexts(f));
  }

  /** Every AND-list of a printed filter reads back as its terms. */
  lemma {:induction false} ConjunctionsRead(f: Filter)
    requires PrintableFilter(f)
    ensures AllRead(PAndExpression, FilterTerms(f), ConjunctionTexts(f), ConjunctionEnd)
  {
    forall a | 0 <= a < |f| ensures Reads(PAndExpression, FilterTerms(f)[a], ConjunctionTexts(f)[a], ConjunctionEnd) {
      ConjunctionReads(f[a]);
    }
  }

  /** AND-lists joined by semicolons are read back in full and in order. */
  lemma {:induction false} OrListReads(ts: seq<seq<Triple<Term>>>, ws: seq<string>)
    requires |ts| >= 1 && AllRead(PAndExpression, ts, ws, ConjunctionEnd)
    ensures Reads(POrExpression, ts, Joined(ws, "; "), IsWhitespace)
  {
    forall s: string, j: nat | Placed(s, j, Joined(ws, "; ")) && Stops(s, j + |Joined(ws, "; ")|, IsWhitespace)
      ensures POrExpression(s, j) == Ok(ts, j + |Joined(ws, "; ")|)
    {
      OrListAt(s, j, ts, ws);
    }
  }

  /** Printed AND-lists joined by semicolons are read back in full and in order. */
  lemma {:induction false} OrListAt(s: string, j: nat, ts: seq<seq<Triple<Term>>>, ws: seq<string>)
    requires |ts| >= 1 && AllRead(PAndExpression, ts, ws, ConjunctionEnd)
    requires Placed(s, j, Joined(ws, "; "))
    requires Stops(s, j + |Joined(ws, "; ")|, IsWhitespace)
    ensures POrExpression(s, j) == Ok(ts, j + |Joined(ws, "; ")|)
  {
    var e := j + |Joined(ws, "; ")|;
    SemicolonReads();
    SemicolonEnds(s, e);
    NoSeparator(PAndExpression, SemicolonSep, s, e);
    SepBy1At(PAndExpression, SemicolonSep, "; ", ts, ws, ConjunctionEnd, s, j);
  }

  // ----- sort keys ---------------------------------------------------------

  predicate PrintableVars(vs: seq<string>) {
    |vs| >= 1 && forall k :: 0 <= k < |vs| ==> IsIdentifier(vs[k])
  }

  function VarTexts(vs: seq<string>): (ws: seq<string>)
    requires PrintableVars(vs)
    ensures |ws| == |vs| && forall k :: 0 <= k < |vs| ==> ws[k] == PrintVar(vs[k])
  {
    seq(|vs|, k requires 0 <= k < |vs| => PrintVar(vs[k]))
  }

  /** Variables separated by single blanks. */
  function PrintVars(vs: seq<string>): (w: string)
    requires PrintableVars(vs)
    ensures Solid(w)
  {
    JoinedSolid(VarTexts(vs), " ");
    Joined(VarTexts(vs), " ")
  }

  /** Printed variables at the end of the line are read back in order. */
  lemma {:induction false} VarsAtEnd(s: string, i: nat, vs: seq<string>)
    requires PrintableVars(vs) && Placed(s, i, PrintVars(vs)) && i + |PrintVars(vs)| == |s|
    ensures PVars(s, i) == Ok(vs, |s|)
  {
    forall k | 0 <= k < |vs| ensures Reads(PVar, vs[k], VarTexts(vs)[k], Delimiter) {
      VarReads(vs[k]);
    }
    assert AllRead(PVar, vs, VarTexts(vs), Delimiter);
    BlankReads();
    NoSeparator(PVar, Whitespace, s, |s|);
    SepBy1At(PVar, Whitespace, " ", vs, VarTexts(vs), Delimiter, s, i);
  }

  // ----- query clauses -----------------------------------------------------

  /** A blank, `|` and a blank at `j`, before non-blank text. */
  predicate PipePlaced(s: string, j: nat) {
    Placed(s, j, " | ") && j + 3 < |s| && !IsWhitespace(s[j + 3])
  }

  /** `sort`, a blank and printed variables at `k`, ending the line. */
  predicate SortPlaced(s: string, k: nat, vs: seq<string>) {
    PrintableVars(vs) && Placed(s, k, "sort" + " ") && Placed(s, k + 5, PrintVars(vs))
    && k + 5 + |PrintVars(vs)| == |s|
  }

  /** `index`, a blank, a printed name, a blank and printed variables at `k`,
      ending the line. */
  predicate IndexPlaced(s: string, k: nat, name: string, vs: seq<string>) {
    PrintableString(name) && PrintableVars(vs)
    && Placed(s, k, "index" + " ") && Placed(s, k + 6, PrintString(name))
    && k + 6 + |PrintString(name)| < |s| && s[k + 6 + |PrintString(name)|] == ' '
    && Placed(s, k + 7 + |PrintString(name)|, PrintVars(vs))
    && k + 7 + |PrintString(name)| + |PrintVars(vs)| == |s|
  }

  /** The pipe between a filter and its sort or index clause. */
  lemma {:induction false} PipeAt(s: string, j: nat)
    requires PipePlaced(s, j)
    ensures PPipe(s, j) == Ok((), j + 3)
  {
    PlacedAt(s, j, " | ", 0);
    PlacedAt(s, j, " | ", 1);
    PlacedAt(s, j, " | ", 2);
    OneBlank(s, j);
    assert Placed(s, j + 1, "|");
    OneBlank(s, j + 2);
  }

  /** The pipe before solid text. */
  lemma {:induction false} PipeBefore(s: string, j: nat, w: string)
    ensures Placed(s, j, " | ") && Placed(s, j + 3, w) && Solid(w) ==> PPipe(s, j) == Ok((), j + 3)
  {
    if Placed(s, j, " | ") && Placed(s, j + 3, w) && Solid(w) {
      PlacedAt(s, j + 3, w, 0);
      PipeAt(s, j);
    }
  }

  /** The pipe before an `index` clause: the sort alternative fails there. */
  lemma {:induction false} PipeBeforeIndex(s: string, j: nat, w: string)
    ensures Placed(s, j, " | ") && Placed(s, j + 3, w) && Solid(w) && w[0] == 'i' ==>
      PPipe(s, j) == Ok((), j + 3) && PSort(s, j + 3).Fail?
  {
    if Placed(s, j, " | ") && Placed(s, j + 3, w) && Solid(w) && w[0] == 'i' {
      PlacedAt(s, j + 3, w, 0);
      PipeAt(s, j);
      SortNeedsS(s, j + 3);
    }
  }

  /** A printed sort clause ending the line is read back in order. */
  lemma {:induction false} SortAt(s: string, k: nat, vs: seq<string>)
    requires SortPlaced(s, k, vs)
    ensures PSort(s, k) == Ok(vs, |s|)
  {
    CommandWordAt("sort", s, k, PrintVars(vs));
    VarsAtEnd(s, k + 5, vs);
  }

  lemma {:induction false} IndexFrom(s: string, k: nat, name: string, vs: seq<string>, m: nat)
    ensures (Keyword("index", s, k) == Ok((), k + 6) && PString(s, k + 6) == Ok(name, m)
      && Whitespace(s, m) == Ok((), m + 1) && PVars(s, m + 1) == Ok(vs, |s|)) ==>
      PIndex(s, k) == Ok((name, vs), |s|)
  {
  }

  /** A printed name, a blank and printed variables at the end of the line. */
  lemma {:induction false} NameAndVarsAt(s: string, j: nat, name: string, vs: seq<string>)
    requires PrintableString(name) && PrintableVars(vs)
    requires Placed(s, j, PrintString(name))
    requires j + |PrintString(name)| < |s| && s[j + |PrintString(name)|] == ' '
    requires Placed(s, j + |PrintString(name)| + 1, PrintVars(vs))
    requires j + |PrintString(name)| + 1 + |PrintVars(vs)| == |s|
    ensures PString(s, j) == Ok(name, j + |PrintString(name)|)
    ensures Whitespace(s, j + |PrintString(name)|) == Ok((), j + |PrintString(name)| + 1)
    ensures PVars(s, j + |PrintString(name)| + 1) == Ok(vs, |s|)
  {
    var k := j + |PrintString(name)|;
    var w := PrintVars(vs);
    PlacedAt(s, k + 1, w, 0);
    assert !IsWhitespace(s[k + 1]);
    OneBlank(s, k);
    StringAt(s, j, name);
    VarsAtEnd(s, k + 1, vs);
  }

  /** A printed index clause ending the line is read back, and `sort` does
      not match there. */
  lemma {:induction false} IndexAt(s: string, k: nat, name: string, vs: seq<string>)
    requires IndexPlaced(s, k, name, vs)
    ensures PSort(s, k).Fail?
    ensures PIndex(s, k) == Ok((name, vs), |s|)
  {
    PlacedAt(s, k, "index" + " ", 0);
    LitStarts("sort", s, k);
    CommandWordAt("index", s, k, PrintString(name));
    NameAndVarsAt(s, k + 6, name, vs);
    IndexFrom(s, k, name, vs, k + 6 + |PrintString(name)|);
  }

  // ----- whole clauses -----------------------------------------------------

  /** No character may follow: the clause ends the line. */
  predicate LineEnd(c: char) {
    false
  }

  /** `filter`, a blank and a printed OR-list. */
  function FilterClause(f: Filter): (w: string)
    requires PrintableFilter(f)
    ensures Solid(w) && w[0] == 'f'
  {
    "filter" + " " + PrintFilter(f)
  }

  /** `sort`, a blank and printed variables. */
  function SortClause(vs: seq<string>): (w: string)
    requires PrintableVars(vs)
    ensures Solid(w) && w[0] == 's'
  {
    "sort" + " " + PrintVars(vs)
  }

  /** `index`, a blank, a printed name, a blank and printed variables. */
  function IndexClause(name: string, vs: seq<string>): (w: string)
    requires PrintableString(name) && PrintableVars(vs)
    ensures Solid(w) && w[0] == 'i'
  {
    "index" + " " + PrintString(name) + " " + PrintVars(vs)
  }

  /** A printed filter clause is read back as its filter wherever it is
      placed before a blank or the end of the line. */
  lemma {:induction false} FilterClauseReads(f: Filter)
    requires PrintableFilter(f)
    ensures Reads(PFilter, f, FilterClause(f), IsWhitespace)
  {
    FilterReads(f);
    FilterOfTerms(f);
    FilterWordReads(FilterTerms(f), PrintFilter(f));
  }

  /** `filter`, a blank and text the OR-list parser reads in full. */
  lemma {:induction false} FilterWordReads(or: seq<seq<Triple<Term>>>, w: string)
    requires Reads(POrExpression, or, w, IsWhitespace) && Solid(w)
    ensures Reads(PFilter, FilterOf(or), "filter" + " " + w, IsWhitespace)
  {
    forall s: string, i: nat | Placed(s, i, "filter" + " " + w) && Stops(s, i + |"filter" + " " + w|, IsWhitespace)
      ensures PFilter(s, i) == Ok(FilterOf(or), i + |"filter" + " " + w|)
    {
      PlacedSplit(s, i, "filter" + " ", w);
      FilterTextAt(s, i, or, w);
    }
  }

  /** A printed sort clause ending the line is read back as its variables. */
  lemma {:induction false} SortClauseReads(vs: seq<string>)
    requires PrintableVars(vs)
    ensures Reads(PSort, vs, SortClause(vs), LineEnd)
  {
    forall s: string, k: nat | Placed(s, k, SortClause(vs)) && Stops(s, k + |SortClause(vs)|, LineEnd)
      ensures PSort(s, k) == Ok(vs, k + |SortClause(vs)|)
    {
      PlacedSplit(s, k, "sort" + " ", PrintVars(vs));
      SortAt(s, k, vs);
    }
  }

  /** A printed index clause ending the line is read back as its name and
      variables. */
  lemma {:induction false} IndexClauseReads(name: string, vs: seq<string>)
    requires PrintableString(name) && PrintableVars(vs)
    ensures Reads(PIndex, (name, vs), IndexClause(name, vs), LineEnd)
  {
    var n, v := PrintString(name), PrintVars(vs);
    forall s: string, k: nat | Placed(s, k, IndexClause(name, vs)) && Stops(s, k + |IndexClause(name, vs)|, LineEnd)
      ensures PIndex(s, k) == Ok((name, vs), k + |IndexClause(name, vs)|)
    {
      PlacedSplit(s, k, "index" + " " + n + " ", v);
      PlacedSplit(s, k, "index" + " " + n, " ");
      PlacedSplit(s, k, "index" + " ", n);
      PlacedAt(s, k + 6 + |n|, " ", 0);
      IndexAt(s, k, name, vs);
    }
  }

  /** `sort` does not match where the character is not `s`. */
  lemma {:induction false} SortNeedsS(s: string, k: nat)
    requires k < |s| && s[k] != 's'
    ensures PSort(s, k).Fail?
  {
    LitStarts("sort", s, k);
  }
}
