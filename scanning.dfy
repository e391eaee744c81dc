/**
  Scan lines (src/repl.ts, lines 123-175): how bound tokens are written,
  that `pTuple`, `pBound` and `pScan` read them back, and what a whole
  `scan` line hands to the store.
*/
module Scanning {
  import opened Wrappers
  import opened Lexical
  import opened Parsing
  import opened Grammar
  import opened Store
  import opened Repl
  import opened Printer
  import opened Lines
  import Bounds

  // ----- tuples ------------------------------------------------------------

  /** An item that can be written: a sentinel, or a printable value that is
      not the text `MAX` or `MIN` (those always come back as sentinels). */
  predicate PrintableItem(it: TupleItem) {
    match it
    case Plain(v) => PrintableValue(v) && v != Str("MAX") && v != Str("MIN")
    case MaxSentinel => true
    case MinSentinel => true
  }

  /** The value an item is written as: the sentinels as the texts `MAX` and `MIN`. */
  function ItemValue(it: TupleItem): (v: Value)
    ensures PrintableItem(it) ==> PrintableValue(v) && Sentinel(v) == it
  {
    match it
    case Plain(v) => v
    case MaxSentinel =>
      assert IsIdentifier("MAX") by { assert IsLetter("MAX"[0]); }
      Str("MAX")
    case MinSentinel =>
      assert IsIdentifier("MIN") by { assert IsLetter("MIN"[0]); }
      Str("MIN")
  }

  predicate PrintableTuple(items: seq<TupleItem>) {
    |items| >= 1 && forall k :: 0 <= k < |items| ==> PrintableItem(items[k])
  }

  function ItemValues(items: seq<TupleItem>): (vs: seq<Value>)
    ensures |vs| == |items| && forall k :: 0 <= k < |items| ==> vs[k] == ItemValue(items[k])
  {
    seq(|items|, k requires 0 <= k < |items| => ItemValue(items[k]))
  }

  function ItemTexts(items: seq<TupleItem>): (ws: seq<string>)
    requires PrintableTuple(items)
    ensures |ws| == |items| && forall k :: 0 <= k < |items| ==> ws[k] == PrintValue(ItemValue(items[k]))
  {
    seq(|items|, k requires 0 <= k < |items| => PrintValue(ItemValue(items[k])))
  }

  /** The items of a tuple, separated by single blanks. */
  function PrintTuple(items: seq<TupleItem>): (w: string)
    requires PrintableTuple(items)
    ensures Solid(w)
  {
    JoinedSolid(ItemTexts(items), " ");
    Joined(ItemTexts(items), " ")
  }

  /** Position `j` starts a printed bound token: an operator character, or
      a lone `-` before a blank or the end of the line. */
  predicate BoundStart(s: string, j: nat) {
    j < |s| && (s[j] in {'>', '<', '=', '!'} || (s[j] == '-' && (j + 1 == |s| || s[j + 1] == ' ')))
  }

  /** No value starts where a bound token does. */
  lemma {:induction false} NoValueAtBound(s: string, j: nat)
    requires BoundStart(s, j)
    ensures PValue(s, j).Fail?
  {
    assert NumberTokenEnd(s, j) == j;
  }

  /** What may follow a bound token on a printed line: the end of the line,
      or one blank before the next bound token. */
  predicate TupleEnd(s: string, e: nat) {
    e == |s| || (e < |s| && s[e] == ' ' && BoundStart(s, e + 1))
  }

  /** Where a tuple ends on a printed line, `sepBy1` takes no further value. */
  lemma {:induction false} TupleStops(s: string, e: nat)
    requires TupleEnd(s, e)
    ensures Stops(s, e, Delimiter)
    ensures MoreItems(PValue, Whitespace, s, e).0 == []
  {
    if e < |s| {
      OneBlank(s, e);
      NoValueAtBound(s, e + 1);
    }
  }

  /** A printed tuple is read back item by item, `MAX` and `MIN` as the
      sentinels, as long as no further value follows it. */
  lemma {:induction false} TupleAt(s: string, j: nat, items: seq<TupleItem>)
    requires PrintableTuple(items) && Placed(s, j, PrintTuple(items))
    requires TupleEnd(s, j + |PrintTuple(items)|)
    ensures PTuple(s, j) == Ok(items, j + |PrintTuple(items)|)
  {
    var ws, vs := ItemTexts(items), ItemValues(items);
    forall k | 0 <= k < |vs| ensures Reads(PValue, vs[k], ws[k], Delimiter) && Solid(ws[k]) {
      ValueReads(vs[k]);
    }
    BlankReads();
    TupleStops(s, j + |Joined(ws, " ")|);
    SepBy1At(PValue, Whitespace, " ", vs, ws, Delimiter, s, j);
    assert PTuple(s, j).value == items;
  }

  /** A printed tuple starts with a character that is not a blank. */
  lemma {:induction false} TupleFirst(s: string, j: nat, items: seq<TupleItem>)
    requires PrintableTuple(items) && Placed(s, j, PrintTuple(items))
    ensures j < |s| && !IsWhitespace(s[j])
  {
    PlacedAt(s, j, PrintTuple(items), 0);
  }

  // ----- bound tokens ------------------------------------------------------

  /** The operator a bound token starts with. */
  function OperatorText(key: Key): (w: string)
    ensures |w| >= 1 && !IsWhitespace(w[0]) && !IsNumberChar(w[0]) && !IsLetter(w[0])
    ensures w[0] != '"' && w[0] != '?'
  {
    match key
    case Gt => ">"
    case Gte => ">="
    case Lt => "<"
    case Lte => "<="
    case Prefix => "="
    case Reverse => "-"
    case Limit => "!"
  }

  /** A bound that can be written: `-` sets the flag, `!` carries a printable
      number, every other key a printable tuple. */
  predicate PrintableBound(b: Bound) {
    match b.key
    case Reverse => b.arg == Flag(true)
    case Limit => b.arg.Count? && PrintableNumber(b.arg.n)
    case _ => b.arg.Tuple? && PrintableTuple(b.arg.items)
  }

  /** A bound token: `-`, `!` and a number, or an operator and a tuple. */
  function PrintBound(b: Bound): (w: string)
    requires PrintableBound(b)
    ensures Solid(w) && w[0] == OperatorText(b.key)[0]
    ensures b.key == Reverse ==> w == "-"
  {
    match b.arg
    case Flag(_) => "-"
    case Count(n) =>
      NumberTokenChars(n.lexeme);
      "!" + n.lexeme
    case Tuple(items) => OperatorText(b.key) + PrintTuple(items)
  }

  /** An operator and a tuple after it, with no blank between them. */
  lemma {:induction false} ComparisonAt(s: string, i: nat, op: string, key: Key, items: seq<TupleItem>, e: nat)
    requires Placed(s, i, op) && i + |op| < |s| && !IsWhitespace(s[i + |op|])
    requires PTuple(s, i + |op|) == Ok(items, e)
    ensures PComparison(op, key, s, i) == Ok(Bound(key, Tuple(items)), e)
  {
    NoBlank(s, i + |op|);
    ComparisonFrom(s, i, op, key, items, e);
  }

  /** A printed comparison token, an operator and a printed tuple, is read
      by the table entry of its key. */
  lemma {:induction false} ComparisonsAt(s: string, i: nat, op: string, key: Key, items: seq<TupleItem>)
    requires PrintableTuple(items) && Placed(s, i, op) && Placed(s, i + |op|, PrintTuple(items))
    requires TupleEnd(s, i + |op| + |PrintTuple(items)|)
    ensures PComparison(op, key, s, i) == Ok(Bound(key, Tuple(items)), i + |op| + |PrintTuple(items)|)
  {
    TupleFirst(s, i + |op|, items);
    TupleAt(s, i + |op|, items);
    ComparisonAt(s, i, op, key, items, i + |op| + |PrintTuple(items)|);
  }

  /** `pComparison` from its parts: the operator, no blank, the tuple. */
  lemma {:induction false} ComparisonFrom(s: string, i: nat, op: string, key: Key, items: seq<TupleItem>, e: nat)
    requires Placed(s, i, op) && OptWhitespace(s, i + |op|) == i + |op| && PTuple(s, i + |op|) == Ok(items, e)
    ensures PComparison(op, key, s, i) == Ok(Bound(key, Tuple(items)), e)
  {
  }

  /** Which alternative of `pBound` reads a comparison: the ones tried
      before it fail, `>` and `<` because no tuple starts with `=`. */
  lemma {:induction false} ComparisonChosen(s: string, i: nat, key: Key, r: Reply<Bound>)
    requires key !in {Reverse, Limit} && Placed(s, i, OperatorText(key))
    requires PComparison(OperatorText(key), key, s, i) == r && r.Ok?
    ensures PComparisons(s, i) == r
  {
    var op := OperatorText(key);
    PlacedAt(s, i, op, 0);
    if |op| == 2 {
      PlacedAt(s, i, op, 1);
    }
    match key
    case Gt =>
    case Gte =>
      GreaterEqualChosen(s, i, r);
    case Lt =>
      LessChosen(s, i, r);
    case Lte =>
      LessEqualChosen(s, i, r);
    case Prefix =>
      EqualsChosen(s, i, r);
  }

  lemma {:induction false} GreaterEqualChosen(s: string, i: nat, r: Reply<Bound>)
    requires i + 1 < |s| && s[i] == '>' && s[i + 1] == '=' && PComparison(">=", Gte, s, i) == r
    ensures PComparisons(s, i) == r
  {
    Bounds.EqualsAfterOperator(">", Gt, s, i);
  }

  lemma {:induction false} LessChosen(s: string, i: nat, r: Reply<Bound>)
    requires i < |s| && s[i] == '<' && PComparison("<", Lt, s, i) == r && r.Ok?
    ensures PComparisons(s, i) == r
  {
    Bounds.OperatorAbsent(">", Gt, s, i);
    Bounds.OperatorAbsent(">=", Gte, s, i);
  }

  lemma {:induction false} LessEqualChosen(s: string, i: nat, r: Reply<Bound>)
    requires i + 1 < |s| && s[i] == '<' && s[i + 1] == '=' && PComparison("<=", Lte, s, i) == r && r.Ok?
    ensures PComparisons(s, i) == r
  {
    Bounds.OperatorAbsent(">", Gt, s, i);
    Bounds.OperatorAbsent(">=", Gte, s, i);
    Bounds.EqualsAfterOperator("<", Lt, s, i);
  }

  lemma {:induction false} EqualsChosen(s: string, i: nat, r: Reply<Bound>)
    requires i < |s| && s[i] == '=' && PComparison("=", Prefix, s, i) == r
    ensures PComparisons(s, i) == r
  {
    Bounds.OperatorAbsent(">", Gt, s, i);
    Bounds.OperatorAbsent(">=", Gte, s, i);
    Bounds.OperatorAbsent("<", Lt, s, i);
    Bounds.OperatorAbsent("<=", Lte, s, i);
  }

  /** Text `w`, placed anywhere and followed by the end of the line or by a
      blank and a bound token, is read back by `pBound` as `b`. */
  ghost predicate BoundParsed(b: Bound, w: string) {
    forall s: string, i: nat {:trigger PBound(s, i), Placed(s, i, w)} ::
      Placed(s, i, w) && TupleEnd(s, i + |w|) ==> PBound(s, i) == Ok(b, i + |w|)
  }

  /** A printed bound token is read back by `pBound` as that bound. */
  lemma {:induction false} BoundParses(b: Bound)
    requires PrintableBound(b)
    ensures BoundParsed(b, PrintBound(b))
  {
    if b.key == Limit {
      LimitParses(b);
    } else if b.key != Reverse {
      ComparisonText(b);
      ComparisonParses(b.key, b.arg.items);
    } else {
      FlagParses(b);
    }
  }

  /** `-` alone: the first alternative. */
  lemma {:induction false} FlagParses(b: Bound)
    requires PrintableBound(b) && b.key == Reverse
    ensures BoundParsed(b, PrintBound(b))
  {
    var w := PrintBound(b);
    forall s: string, i: nat | Placed(s, i, w) && TupleEnd(s, i + |w|)
      ensures PBound(s, i) == Ok(b, i + |w|)
    {
      PlacedAt(s, i, w, 0);
    }
  }

  /** `!` and a number. */
  lemma {:induction false} LimitParses(b: Bound)
    requires PrintableBound(b) && b.key == Limit
    ensures BoundParsed(b, PrintBound(b))
  {
    var w := PrintBound(b);
    forall s: string, i: nat | Placed(s, i, w) && TupleEnd(s, i + |w|)
      ensures PBound(s, i) == Ok(b, i + |w|)
    {
      LimitAt(s, i, b);
    }
  }

  /** An operator and a tuple. */
  lemma {:induction false} ComparisonParses(key: Key, items: seq<TupleItem>)
    requires key !in {Reverse, Limit} && PrintableTuple(items)
    ensures BoundParsed(Bound(key, Tuple(items)), OperatorText(key) + PrintTuple(items))
  {
    var op, t := OperatorText(key), PrintTuple(items);
    forall s: string, i: nat | Placed(s, i, op + t) && TupleEnd(s, i + |op + t|)
      ensures PBound(s, i) == Ok(Bound(key, Tuple(items)), i + |op + t|)
    {
      PlacedSplit(s, i, op, t);
      TupleBoundAt(s, i, key, items);
    }
  }

  /** A comparison token is its operator followed by its tuple. */
  lemma {:induction false} ComparisonText(b: Bound)
    requires PrintableBound(b) && b.key !in {Reverse, Limit}
    ensures b == Bound(b.key, Tuple(b.arg.items))
    ensures PrintBound(b) == OperatorText(b.key) + PrintTuple(b.arg.items)
  {
  }

  /** `!` and a number: `-` is tried first and fails. */
  lemma {:induction false} LimitAt(s: string, i: nat, b: Bound)
    requires PrintableBound(b) && b.key == Limit && Placed(s, i, PrintBound(b))
    requires TupleEnd(s, i + |PrintBound(b)|)
    ensures PBound(s, i) == Ok(b, i + |PrintBound(b)|)
  {
    var n := b.arg.n;
    PlacedSplit(s, i, "!", n.lexeme);
    LitStarts("-", s, i);
    NumberAt(s, i + 1, n);
  }

  /** An operator and a tuple: `-` and `!` are tried first and fail. */
  lemma {:induction false} TupleBoundAt(s: string, i: nat, key: Key, items: seq<TupleItem>)
    requires key !in {Reverse, Limit} && PrintableTuple(items)
    requires Placed(s, i, OperatorText(key)) && Placed(s, i + |OperatorText(key)|, PrintTuple(items))
    requires TupleEnd(s, i + |OperatorText(key)| + |PrintTuple(items)|)
    ensures PBound(s, i) == Ok(Bound(key, Tuple(items)), i + |OperatorText(key)| + |PrintTuple(items)|)
  {
    var op := OperatorText(key);
    PlacedAt(s, i, op, 0);
    LitStarts("-", s, i);
    LitStarts("!", s, i);
    ComparisonsAt(s, i, op, key, items);
    ComparisonChosen(s, i, key, Ok(Bound(key, Tuple(items)), i + |op| + |PrintTuple(items)|));
  }

  /** A printed bound token followed by a blank or the end of the line
      starts a bound token. */
  lemma {:induction false} StartsBound(s: string, j: nat, b: Bound)
    requires PrintableBound(b) && Placed(s, j, PrintBound(b))
    requires j + |PrintBound(b)| == |s| || s[j + |PrintBound(b)|] == ' '
    ensures BoundStart(s, j)
  {
    PlacedAt(s, j, PrintBound(b), 0);
  }

  // ----- the bounds of a scan line -----------------------------------------

  predicate PrintableBounds(bs: seq<Bound>) {
    forall k :: 0 <= k < |bs| ==> PrintableBound(bs[k])
  }

  function BoundTexts(bs: seq<Bound>): (ws: seq<string>)
    requires PrintableBounds(bs)
    ensures |ws| == |bs| && forall k :: 0 <= k < |bs| ==> ws[k] == PrintBound(bs[k])
  {
    seq(|bs|, k requires 0 <= k < |bs| => PrintBound(bs[k]))
  }

  /** The bound tokens of a scan line, each after one blank. */
  function PrintBounds(bs: seq<Bound>): string
    requires PrintableBounds(bs)
  {
    Chain(BoundTexts(bs), " ")
  }

  /** The first text of a chain that ends the line comes after a separator
      and is followed by the next separator or the end of the line. */
  lemma {:induction false} ChainHead(s: string, k: nat, ws: seq<string>, sep: string)
    requires ws != [] && sep != [] && Placed(s, k, Chain(ws, sep)) && k + |Chain(ws, sep)| == |s|
    ensures s[k] == sep[0] && Placed(s, k + |sep|, ws[0])
    ensures Placed(s, k + |sep| + |ws[0]|, Chain(ws[1..], sep))
    ensures k + |sep| + |ws[0]| + |Chain(ws[1..], sep)| == |s|
    ensures k + |sep| + |ws[0]| == |s| || s[k + |sep| + |ws[0]|] == sep[0]
  {
    ChainParts(s, k, ws, sep);
    PlacedAt(s, k, sep, 0);
    var e := k + |sep| + |ws[0]|;
    if |ws| > 1 {
      ChainParts(s, e, ws[1..], sep);
      PlacedAt(s, e, sep, 0);
    }
  }

  /** Wherever `w` is placed with a valid end after it, `pBound` reads `b`
      from all of it; followed by a blank or the end of the line, it starts
      a bound token. */
  ghost predicate BoundRead(b: Bound, w: string) {
    && Solid(w)
    && BoundParsed(b, w)
    && (forall s: string, i: nat {:trigger Placed(s, i, w)} ::
          Placed(s, i, w) && (i + |w| == |s| || s[i + |w|] == ' ') ==> BoundStart(s, i))
  }

  /** A printed bound token reads back as its bound. */
  lemma {:induction false} BoundReads(b: Bound)
    requires PrintableBound(b)
    ensures BoundRead(b, PrintBound(b))
  {
    BoundParses(b);
    BoundStarts(b);
  }

  lemma {:induction false} BoundStarts(b: Bound)
    requires PrintableBound(b)
    ensures var w := PrintBound(b);
      forall s: string, i: nat {:trigger Placed(s, i, w)} ::
        Placed(s, i, w) && (i + |w| == |s| || s[i + |w|] == ' ') ==> BoundStart(s, i)
  {
    var w := PrintBound(b);
    forall s: string, i: nat | Placed(s, i, w) && (i + |w| == |s| || s[i + |w|] == ' ')
      ensures BoundStart(s, i)
    {
      StartsBound(s, i, b);
    }
  }

  /** Each text of `ws` reads as the bound of `bs` at the same place. */
  ghost predicate BoundsRead(bs: seq<Bound>, ws: seq<string>) {
    |ws| == |bs| && forall m :: 0 <= m < |bs| ==> BoundRead(bs[m], ws[m])
  }

  lemma {:induction false} PrintedBoundsRead(bs: seq<Bound>)
    requires PrintableBounds(bs)
    ensures BoundsRead(bs, BoundTexts(bs))
  {
    forall m | 0 <= m < |bs| ensures BoundRead(bs[m], BoundTexts(bs)[m]) {
      BoundReads(bs[m]);
    }
  }

  /** What follows a printed bound token inside a chain that ends the line
      is a valid end for it. */
  lemma {:induction false} ChainEnd(s: string, k: nat, bs: seq<Bound>, ws: seq<string>)
    requires BoundsRead(bs, ws) && Placed(s, k, Chain(ws, " ")) && k + |Chain(ws, " ")| == |s|
    ensures TupleEnd(s, k)
  {
    if bs != [] {
      ChainHead(s, k, ws, " ");
      assert BoundRead(bs[0], ws[0]);
    }
  }

  /** `item` reads, after each blank of the chain of texts `ws` placed at
      `k`, the item printed there. */
  ghost predicate ItemsAt<T>(item: Parser<T>, s: string, k: nat, xs: seq<T>, ws: seq<string>)
    decreases |xs|
  {
    |xs| == |ws| &&
    (xs != [] ==> item(s, k + 1) == Ok(xs[0], k + 1 + |ws[0]|) && ItemsAt(item, s, k + 1 + |ws[0]|, xs[1..], ws[1..]))
  }

  /** `(p.whitespace.then(item)).many()` over a chain of blank-separated
      solid texts that ends the line reads the items printed there, in order. */
  lemma {:induction false} ChainItemsAt<T>(item: Parser<T>, s: string, k: nat, xs: seq<T>, ws: seq<string>)
    requires Consumes(item)
    requires Placed(s, k, Chain(ws, " ")) && k + |Chain(ws, " ")| == |s|
    requires forall m :: 0 <= m < |ws| ==> Solid(ws[m])
    requires ItemsAt(item, s, k, xs, ws)
    ensures MoreItems(item, Whitespace, s, k) == (xs, |s|)
    decreases |xs|
  {
    if xs == [] {
      assert k == |s|;
    } else {
      ChainHead(s, k, ws, " ");
      PlacedAt(s, k + 1, ws[0], 0);
      OneBlank(s, k);
      var e := k + 1 + |ws[0]|;
      ChainItemsAt(item, s, e, xs[1..], ws[1..]);
      MoreItemsStep(item, Whitespace, s, k, k + 1, xs[0], e);
      assert xs == [xs[0]] + xs[1..];
    }
  }

  /** `p.optWhitespace` and then `p.sepBy(item, p.whitespace)` over a
      non-empty chain that ends the line read all its items. */
  lemma {:induction false} SepByChainAt<T>(item: Parser<T>, s: string, k: nat, xs: seq<T>, ws: seq<string>)
    requires Consumes(item) && xs != []
    requires Placed(s, k, Chain(ws, " ")) && k + |Chain(ws, " ")| == |s|
    requires forall m :: 0 <= m < |ws| ==> Solid(ws[m])
    requires ItemsAt(item, s, k, xs, ws)
    ensures SepBy(item, Whitespace, s, OptWhitespace(s, k)) == Ok(xs, |s|)
  {
    ChainHead(s, k, ws, " ");
    PlacedAt(s, k + 1, ws[0], 0);
    OneBlank(s, k);
    ChainItemsAt(item, s, k + 1 + |ws[0]|, xs[1..], ws[1..]);
    assert xs == [xs[0]] + xs[1..];
  }

  /** The rest of a chain after its first bound. */
  lemma {:induction false} ChainRest(s: string, k: nat, bs: seq<Bound>, ws: seq<string>)
    requires bs != [] && BoundsRead(bs, ws) && Placed(s, k, Chain(ws, " ")) && k + |Chain(ws, " ")| == |s|
    ensures var e := k + 1 + |ws[0]|;
      BoundsRead(bs[1..], ws[1..]) && Placed(s, e, Chain(ws[1..], " ")) && e + |Chain(ws[1..], " ")| == |s|
  {
    ChainHead(s, k, ws, " ");
    forall m | 0 <= m < |bs| - 1 ensures BoundRead(bs[1..][m], ws[1..][m]) {
      assert bs[1..][m] == bs[m + 1] && ws[1..][m] == ws[m + 1];
    }
  }

  /** The first bound of a chain that ends the line is read by `pBound`. */
  lemma {:induction false} FirstBoundRead(s: string, k: nat, bs: seq<Bound>, ws: seq<string>)
    requires bs != [] && BoundsRead(bs, ws) && Placed(s, k, Chain(ws, " ")) && k + |Chain(ws, " ")| == |s|
    ensures PBound(s, k + 1) == Ok(bs[0], k + 1 + |ws[0]|)
  {
    ChainRest(s, k, bs, ws);
    ChainEnd(s, k + 1 + |ws[0]|, bs[1..], ws[1..]);
    ChainHead(s, k, ws, " ");
    assert BoundRead(bs[0], ws[0]);
  }

  /** `pBound` reads every printed bound of a chain that ends the line. */
  lemma {:induction false} BoundsItemsAt(s: string, k: nat, bs: seq<Bound>, ws: seq<string>)
    requires BoundsRead(bs, ws) && Placed(s, k, Chain(ws, " ")) && k + |Chain(ws, " ")| == |s|
    ensures ItemsAt(PBound, s, k, bs, ws)
    decreases |bs|
  {
    if bs != [] {
      FirstBoundRead(s, k, bs, ws);
      ChainRest(s, k, bs, ws);
      BoundsItemsAt(s, k + 1 + |ws[0]|, bs[1..], ws[1..]);
    }
  }

  /** After the index name, `p.optWhitespace` and `sepBy(pBound, p.whitespace)`
      read every printed bound, in order, up to the end of the line; with no
      bounds they read nothing. */
  lemma {:induction false} BoundsAt(s: string, k: nat, bs: seq<Bound>)
    requires PrintableBounds(bs) && Placed(s, k, PrintBounds(bs)) && k + |PrintBounds(bs)| == |s|
    ensures SepBy(PBound, Whitespace, s, OptWhitespace(s, k)) == Ok(bs, |s|)
  {
    if bs == [] {
      assert k == |s|;
      Bounds.BoundKeyIsOperator(s, k);
    } else {
      PrintedBoundsRead(bs);
      BoundsItemsAt(s, k, bs, BoundTexts(bs));
      SepByChainAt(PBound, s, k, bs, BoundTexts(bs));
    }
  }

  // ----- scan lines --------------------------------------------------------

  /** `scan`, the index name and the bound tokens. */
  function ScanText(name: string, bs: seq<Bound>): string
    requires PrintableString(name) && PrintableBounds(bs)
  {
    "scan" + " " + PrintString(name) + PrintBounds(bs)
  }

  /** `pScan` on a line holding `scan`, a name and a chain of bounds that
      ends the line. */
  lemma {:induction false} ScanAt(s: string, name: string, bs: seq<Bound>)
    requires PrintableString(name) && PrintableBounds(bs)
    requires Placed(s, 0, "scan" + " ") && Placed(s, 5, PrintString(name))
    requires Placed(s, 5 + |PrintString(name)|, PrintBounds(bs)) && 5 + |PrintString(name)| + |PrintBounds(bs)| == |s|
    ensures PScan(s, 0) == Ok(ScanFold(name, bs), |s|)
  {
    var w := PrintString(name);
    var k := 5 + |w|;
    CommandWordAt("scan", s, 0, w);
    BoundsAt(s, k, bs);
    PrintedBoundsRead(bs);
    ChainEnd(s, k, bs, BoundTexts(bs));
    StringAt(s, 5, name);
    ScanFrom(s, name, k, bs, |s|);
  }

  /** `pScan` from its parts: the keyword, the name, and the bounds read
      after the optional whitespace. */
  lemma {:induction false} ScanFrom(s: string, name: string, k: nat, bs: seq<Bound>, e: nat)
    requires Keyword("scan", s, 0) == Ok((), 5) && PString(s, 5) == Ok(name, k)
    requires SepBy(PBound, Whitespace, s, OptWhitespace(s, k)) == Ok(bs, e)
    ensures PScan(s, 0) == Ok(ScanFold(name, bs), e)
  {
  }

  /** A line starting with `sc` is no `set`, `remove` or query command. */
  lemma {:induction false} ScanProgram(s: string, args: ScanArgs, e: nat)
    requires |s| >= 2 && s[0] == 's' && s[1] == 'c' && PScan(s, 0) == Ok(args, e)
    ensures Program(s) == Ok(ScanCmd(args), e)
  {
    LitStarts("set", s, 0);
    LitStarts("remove", s, 0);
    LitStarts("filter", s, 0);
  }

  /** The bound tokens of a scan line end with a non-blank character. */
  lemma {:induction false} BoundsLast(bs: seq<Bound>)
    requires PrintableBounds(bs)
    ensures PrintBounds(bs) == [] || !IsWhitespace(PrintBounds(bs)[|PrintBounds(bs)| - 1])
  {
    var ws := BoundTexts(bs);
    if bs != [] {
      assert Solid(ws[|ws| - 1]);
      ChainLast(ws, " ");
    }
  }

  /** `scan`, a blank, a solid name and text ending in a non-blank make a
      solid line starting with `sc`. */
  lemma {:induction false} ScanLineSolid(s: string, w: string, c: string)
    requires Placed(s, 0, "scan" + " ") && Placed(s, 5, w) && Solid(w)
    requires Placed(s, 5 + |w|, c) && 5 + |w| + |c| == |s|
    requires c == [] || !IsWhitespace(c[|c| - 1])
    ensures Solid(s) && s[0] == 's' && s[1] == 'c'
  {
    PlacedAt(s, 0, "scan" + " ", 0);
    PlacedAt(s, 0, "scan" + " ", 1);
    PlacedAt(s, 5, w, |w| - 1);
    if c != [] {
      PlacedAt(s, 5 + |w|, c, |c| - 1);
    }
  }

  /** A printed scan line is solid and is parsed in full as a scan command. */
  lemma {:induction false} ScanLineFrom(s: string, name: string, bs: seq<Bound>)
    requires PrintableString(name) && PrintableBounds(bs)
    requires Placed(s, 0, "scan" + " ") && Placed(s, 5, PrintString(name))
    requires Placed(s, 5 + |PrintString(name)|, PrintBounds(bs)) && 5 + |PrintString(name)| + |PrintBounds(bs)| == |s|
    ensures Solid(s) && s[0] == 's' && Program(s) == Ok(ScanCmd(ScanFold(name, bs)), |s|)
  {
    ScanAt(s, name, bs);
    BoundsLast(bs);
    ScanLineSolid(s, PrintString(name), PrintBounds(bs));
    ScanProgram(s, ScanFold(name, bs), |s|);
  }

  /** A printed scan line is solid and is parsed in full as a scan command. */
  lemma {:induction false} ScanLineParses(name: string, bs: seq<Bound>)
    requires PrintableString(name) && PrintableBounds(bs)
    ensures Solid(ScanText(name, bs)) && ScanText(name, bs)[0] == 's'
    ensures Program(ScanText(name, bs)) == Ok(ScanCmd(ScanFold(name, bs)), |ScanText(name, bs)|)
  {
    Thirds("scan" + " ", PrintString(name), PrintBounds(bs));
    ScanLineFrom(ScanText(name, bs), name, bs);
  }

  /** A printed `scan` line makes exactly one `db.scanIndex` call, whose
      record names the index and holds, for each key a bound token sets,
      the value of the last token setting it (see `Bounds.ScanFoldSpec`),
      and returns what the store answered. */
  lemma {:induction false} ScanLine(name: string, bs: seq<Bound>)
    requires PrintableString(name) && PrintableBounds(bs)
    ensures EvaluateSpec(ScanText(name, bs)).calls == [Call.ScanIndex(ScanFold(name, bs))]
    ensures EvaluateSpec(ScanText(name, bs)).output == Result(AnswerTo(Call.ScanIndex(ScanFold(name, bs))))
  {
    ScanLineParses(name, bs);
    ParsedLine(ScanText(name, bs), ScanCmd(ScanFold(name, bs)));
  }
}
