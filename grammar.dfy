/**
  The grammar of the REPL's command language (src/repl.ts, lines 26-175),
  one function per parser of the source, each reading the input `s` from
  position `i` with the semantics of the Parsimmon combinators it is built
  from (see module Parsing).
*/
module Grammar {
  import opened Wrappers
  import opened Lexical
  import opened Parsing
  import opened Quoting

  // ----- parse results -----------------------------------------------------

  /** A JavaScript number produced by `parseFloat`. Floating point is not
      modelled: the number is identified by the lexeme it was read from. */
  datatype Number = Float(lexeme: string)

  /** `number | string` */
  datatype Value = Num(n: Number) | Str(s: string)

  /** A fixed-arity triple, in input order. */
  datatype Triple<T> = Triple(first: T, second: T, third: T)

  /** A fact of `set` and `remove`: entity, attribute, value. */
  type Fact = Triple<Value>

  /** What `p.alt(pVar, pValue)` yields: a `Variable` object or a value. */
  datatype Term = Variable(name: string) | Literal(value: Value)

  /** A slot of a filter expression: `{var: name}` or `{value: v}`. */
  datatype Slot = VarSlot(name: string) | ValueSlot(value: Value)

  type Expression = Triple<Slot>

  /** An OR-list of AND-lists of expressions. */
  type Filter = seq<seq<Expression>>

  /** `{filter, name?, sort?}`; a sort is a list of variable names, each
      handed to the store as `{var: name}`. */
  datatype QueryArgs = QueryArgs(filter: Filter, name: Option<string>, sort: Option<seq<string>>)

  /** An element of a bound tuple: a value, or the store's `MAX` / `MIN`. */
  datatype TupleItem = Plain(value: Value) | MaxSentinel | MinSentinel

  /** The keys of a scan-argument record other than `index`. */
  datatype Key = Gt | Gte | Lt | Lte | Prefix | Reverse | Limit

  datatype BoundArg = Tuple(items: seq<TupleItem>) | Flag(on: bool) | Count(n: Number)

  /** A partial bound record with a single key, as one bound token yields. */
  datatype Bound = Bound(key: Key, arg: BoundArg)

  /** `{index, gt?, gte?, lt?, lte?, prefix?, reverse?, limit?}` */
  datatype ScanArgs = ScanArgs(index: string, bounds: map<Key, BoundArg>)

  /** The value of whichever of the four command parsers succeeded. */
  datatype Command =
    | SetCmd(facts: seq<Fact>)
    | RemoveCmd(facts: seq<Fact>)
    | QueryCmd(query: QueryArgs)
    | ScanCmd(scan: ScanArgs)

  // ----- lexical primitives ------------------------------------------------

  /** The regular expression `[a-zA-Z][a-zA-Z0-9_\-]*` of `pString`: the longest identifier at `i`. */
  function Identifier(s: string, i: nat): (r: Reply<string>)
    ensures r.Ok? <==> i < |s| && IsLetter(s[i])
    ensures r.Ok? ==> i < r.pos <= |s| && r.value == s[i..r.pos] && IsIdentifier(r.value)
    ensures r.Ok? ==> r.pos == |s| || !IsIdentChar(s[r.pos])
  {
    if i < |s| && IsLetter(s[i]) then
      var j := Span(s, i + 1, IsIdentChar);
      SpanAll(s, i + 1, IsIdentChar);
      SpanStops(s, i + 1, IsIdentChar);
      Ok(s[i..j], j)
    else Fail
  }

  /** `pString`: an identifier, or else a quoted literal. */
  function PString(s: string, i: nat): (r: Reply<string>)
    ensures r.Ok? ==> i < r.pos <= |s|
    ensures r.Ok? <==> i < |s| && (IsLetter(s[i]) || (s[i] == '"' && ClosingQuote(s, i + 1).Some?))
  {
    var id := Identifier(s, i);
    if id.Ok? then id else Quoted(s, i)
  }

  /** Text matched in full by `-?[0-9\.e]+`. */
  predicate IsNumberToken(t: string) {
    var u := if |t| > 0 && t[0] == '-' then t[1..] else t;
    |u| > 0 && forall k :: 0 <= k < |u| ==> IsNumberChar(u[k])
  }

  /** End of the longest match of `-?[0-9\.e]+` at `i`, or `i` when there is
      none (a lone `-` matches nothing: `[0-9\.e]` cannot match a `-`). */
  function NumberTokenEnd(s: string, i: nat): (j: nat)
    ensures j == i || (i < j <= |s| && IsNumberToken(s[i..j]) && (j == |s| || !IsNumberChar(s[j])))
    ensures j == i <==> !(i < |s| && (IsNumberChar(s[i]) || (s[i] == '-' && i + 1 < |s| && IsNumberChar(s[i + 1]))))
  {
    var start := if i < |s| && s[i] == '-' then i + 1 else i;
    var j := Span(s, start, IsNumberChar);
    SpanAll(s, start, IsNumberChar);
    SpanStops(s, start, IsNumberChar);
    if j == start then i
    else
      assert forall k :: 0 <= k < j - start ==> s[start..j][k] == s[start + k];
      assert start == i + 1 ==> s[i..j][1..] == s[start..j];
      j
  }

  /** `parseFloat` is not NaN on a token of `-?[0-9\.e]+` exactly when, after
      the optional minus sign, the token starts with a digit, or with a point
      and a digit: it then reads the longest prefix that is a decimal literal. */
  predicate HasFloatPrefix(t: string) {
    var u := if |t| > 0 && t[0] == '-' then t[1..] else t;
    (|u| > 0 && IsDigit(u[0])) || (|u| > 1 && u[0] == '.' && IsDigit(u[1]))
  }

  /** `parseFloat`, with `None` for NaN. */
  function ParseFloat(t: string): (r: Option<Number>)
    ensures r.Some? <==> HasFloatPrefix(t)
  {
    if HasFloatPrefix(t) then Some(Float(t)) else None
  }

  /** `pNumber`: the longest number token, failing when it converts to NaN. */
  function PNumber(s: string, i: nat): (r: Reply<Number>)
    ensures r.Ok? ==> i < r.pos <= |s|
    ensures r.Ok? <==> NumberTokenEnd(s, i) > i && HasFloatPrefix(s[i..NumberTokenEnd(s, i)])
    ensures r.Ok? ==> r.pos == NumberTokenEnd(s, i) && r.value == Float(s[i..r.pos])
  {
    var j := NumberTokenEnd(s, i);
    if j == i then Fail
    else
      match ParseFloat(s[i..j])
      case None => Fail
      case Some(n) => Ok(n, j)
  }

  /** `pValue = p.alt(pNumber, pString)` */
  function PValue(s: string, i: nat): (r: Reply<Value>)
    ensures r.Ok? ==> i < r.pos <= |s|
    ensures r.Ok? && r.value.Num? ==> PNumber(s, i) == Ok(r.value.n, r.pos)
    ensures r.Ok? && r.value.Str? ==> PNumber(s, i).Fail? && PString(s, i) == Ok(r.value.s, r.pos)
    ensures r.Fail? <==> PNumber(s, i).Fail? && PString(s, i).Fail?
  {
    var n := PNumber(s, i);
    if n.Ok? then Ok(Num(n.value), n.pos)
    else
      var t := PString(s, i);
      if t.Ok? then Ok(Str(t.value), t.pos) else Fail
  }

  /** `pVar`: `?` and an identifier; the result is the name without the `?`. */
  function PVar(s: string, i: nat): (r: Reply<string>)
    ensures r.Ok? <==> i + 1 < |s| && s[i] == '?' && IsLetter(s[i + 1])
    ensures r.Ok? ==> i + 1 < r.pos <= |s| && r.value == s[i + 1..r.pos] && IsIdentifier(r.value)
    ensures r.Ok? ==> r.pos == |s| || !IsIdentChar(s[r.pos])
  {
    if i < |s| && s[i] == '?' then Identifier(s, i + 1) else Fail
  }

  // ----- structural parsers ------------------------------------------------

  /** `p.string(w).then(p.whitespace)`: a keyword and the whitespace after it. */
  function Keyword(w: string, s: string, i: nat): (r: Reply<()>)
    ensures r.Ok? <==> Lit(w, s, i).Ok? && Whitespace(s, i + |w|).Ok?
    ensures r.Ok? ==> r == Whitespace(s, i + |w|)
  {
    if Lit(w, s, i).Ok? then Whitespace(s, i + |w|) else Fail
  }

  /** `pTriple(item)`: three items in input order, each of the first two
      followed by at least one whitespace character; the next item starts
      after the whole run of whitespace. */
  function PTriple<T>(item: Parser<T>, s: string, i: nat): (r: Reply<Triple<T>>)
    requires Consumes(item)
    ensures r.Ok? ==> i < r.pos <= |s|
    ensures r.Ok? ==>
      var a := item(s, i);
      a.Ok? && r.value.first == a.value && a.pos < |s| && IsWhitespace(s[a.pos]) &&
      var b := item(s, Span(s, a.pos, IsWhitespace));
      b.Ok? && r.value.second == b.value && b.pos < |s| && IsWhitespace(s[b.pos]) &&
      var c := item(s, Span(s, b.pos, IsWhitespace));
      c.Ok? && r.value.third == c.value && r.pos == c.pos
  {
    match item(s, i)
    case Fail => Fail
    case Ok(a, j) =>
      match Whitespace(s, j)
      case Fail => Fail
      case Ok(_, j') =>
        match item(s, j')
        case Fail => Fail
        case Ok(b, k) =>
          match Whitespace(s, k)
          case Fail => Fail
          case Ok(_, k') =>
            match item(s, k')
            case Fail => Fail
            case Ok(c, e) => Ok(Triple(a, b, c), e)
  }

  /** Two items with no whitespace between them are not a triple. */
  lemma {:induction false} TripleNeedsWhitespace<T>(item: Parser<T>, s: string, i: nat, j: nat, k: nat)
    requires Consumes(item)
    ensures item(s, i).Ok? && item(s, i).pos == j && (j == |s| || !IsWhitespace(s[j])) ==> PTriple(item, s, i).Fail?
    ensures (item(s, i).Ok? && item(s, i).pos == j && j < |s| && IsWhitespace(s[j]) &&
             item(s, Span(s, j, IsWhitespace)).Ok? && item(s, Span(s, j, IsWhitespace)).pos == k &&
             (k == |s| || !IsWhitespace(s[k]))) ==> PTriple(item, s, i).Fail?
  {
  }

  /** `pFact = pTriple(pValue)` */
  function PFact(s: string, i: nat): (r: Reply<Fact>)
    ensures r.Ok? ==> i < r.pos <= |s|
  {
    PTriple(PValue, s, i)
  }

  /** `p.string(",").then(p.whitespace)` */
  function CommaSep(s: string, i: nat): (r: Reply<()>)
    ensures r.Ok? ==> i < r.pos <= |s|
  {
    Keyword(",", s, i)
  }

  /** `p.string(";").then(p.whitespace)` */
  function SemicolonSep(s: string, i: nat): (r: Reply<()>)
    ensures r.Ok? ==> i < r.pos <= |s|
  {
    Keyword(";", s, i)
  }

  /** `p.sepBy1(pFact, p.string(",").then(p.whitespace))`: the fact list of
      `set` and `remove`. */
  function PFacts(s: string, i: nat): (r: Reply<seq<Fact>>)
    ensures r.Ok? ==> i < r.pos <= |s| && |r.value| >= 1
  {
    SepBy1(PFact, CommaSep, s, i)
  }

  /** `pSet` and `pRemove`: the keyword, whitespace, the fact list. */
  function PFactCommand(keyword: string, s: string, i: nat): (r: Reply<seq<Fact>>)
    ensures r.Ok? ==> i < r.pos <= |s| && |r.value| >= 1
    ensures r.Ok? ==> Keyword(keyword, s, i).Ok?
  {
    match Keyword(keyword, s, i)
    case Fail => Fail
    case Ok(_, j) => PFacts(s, j)
  }

  /** `p.alt(pVar, pValue)`: a variable is tried first, so `?x` is not read
      as the start of anything else. */
  function PTerm(s: string, i: nat): (r: Reply<Term>)
    ensures r.Ok? ==> i < r.pos <= |s|
    ensures r.Ok? ==> (r.value.Variable? <==> PVar(s, i).Ok?)
  {
    match PVar(s, i)
    case Ok(name, j) => Ok(Variable(name), j)
    case Fail =>
      match PValue(s, i)
      case Ok(v, j) => Ok(Literal(v), j)
      case Fail => Fail
  }

  /** `pExpression = pTriple(p.alt(pVar, pValue))` */
  function PExpression(s: string, i: nat): (r: Reply<Triple<Term>>)
    ensures r.Ok? ==> i < r.pos <= |s|
  {
    PTriple(PTerm, s, i)
  }

  /** `pAndExpression`: expressions separated by `,` and whitespace. */
  function PAndExpression(s: string, i: nat): (r: Reply<seq<Triple<Term>>>)
    ensures r.Ok? ==> i < r.pos <= |s| && |r.value| >= 1
  {
    SepBy1(PExpression, CommaSep, s, i)
  }

  /** `pOrExpression`: AND-lists separated by `;` and whitespace. */
  function POrExpression(s: string, i: nat): (r: Reply<seq<seq<Triple<Term>>>>)
    ensures r.Ok? ==> i < r.pos <= |s| && |r.value| >= 1
  {
    SepBy1(PAndExpression, SemicolonSep, s, i)
  }

  /** The `{var}` / `{value}` record a term becomes inside `pFilter`. */
  function SlotOf(t: Term): (r: Slot)
    ensures r.VarSlot? <==> t.Variable?
    ensures r.VarSlot? ==> r.name == t.name
    ensures r.ValueSlot? ==> r.value == t.value
  {
    match t
    case Variable(name) => VarSlot(name)
    case Literal(v) => ValueSlot(v)
  }

  function ExpressionOf(t: Triple<Term>): Expression {
    Triple(SlotOf(t.first), SlotOf(t.second), SlotOf(t.third))
  }

  /** The mapping of `pFilter`: every slot of every expression of every
      AND-list becomes a slot record; nothing is added, dropped or moved. */
  function FilterOf(or: seq<seq<Triple<Term>>>): (f: Filter)
    ensures |f| == |or|
    ensures forall a :: 0 <= a < |or| ==> |f[a]| == |or[a]|
    ensures forall a, e :: 0 <= a < |or| && 0 <= e < |or[a]| ==> f[a][e] == ExpressionOf(or[a][e])
  {
    seq(|or|, a requires 0 <= a < |or| =>
      seq(|or[a]|, e requires 0 <= e < |or[a]| => ExpressionOf(or[a][e])))
  }

  /** `pFilter`: `filter`, whitespace, the OR-list, mapped to slot records. */
  function PFilter(s: string, i: nat): (r: Reply<Filter>)
    ensures r.Ok? ==> i < r.pos <= |s| && |r.value| >= 1
    ensures r.Ok? ==> Keyword("filter", s, i).Ok?
  {
    match Keyword("filter", s, i)
    case Fail => Fail
    case Ok(_, j) =>
      match POrExpression(s, j)
      case Fail => Fail
      case Ok(or, k) => Ok(FilterOf(or), k)
  }

  /** `p.sepBy1(pVar, p.whitespace)`: the variables of a sort key. */
  function PVars(s: string, i: nat): (r: Reply<seq<string>>)
    ensures r.Ok? ==> i < r.pos <= |s| && |r.value| >= 1
  {
    SepBy1(PVar, Whitespace, s, i)
  }

  /** `pSort`: `sort`, whitespace, one or more variables. */
  function PSort(s: string, i: nat): (r: Reply<seq<string>>)
    ensures r.Ok? ==> i < r.pos <= |s| && |r.value| >= 1
  {
    match Keyword("sort", s, i)
    case Fail => Fail
    case Ok(_, j) => PVars(s, j)
  }

  /** `pIndex`: `index`, whitespace, a name, whitespace, one or more variables. */
  function PIndex(s: string, i: nat): (r: Reply<(string, seq<string>)>)
    ensures r.Ok? ==> i < r.pos <= |s| && |r.value.1| >= 1
  {
    match Keyword("index", s, i)
    case Fail => Fail
    case Ok(_, j) =>
      match PString(s, j)
      case Fail => Fail
      case Ok(name, k) =>
        match Whitespace(s, k)
        case Fail => Fail
        case Ok(_, m) =>
          match PVars(s, m)
          case Fail => Fail
          case Ok(vars, e) => Ok((name, vars), e)
  }

  /** `pPipe`: whitespace, `|`, whitespace. */
  function PPipe(s: string, i: nat): (r: Reply<()>)
    ensures r.Ok? ==> i < r.pos <= |s|
  {
    match Whitespace(s, i)
    case Fail => Fail
    case Ok(_, j) => if Lit("|", s, j).Ok? then Whitespace(s, j + 1) else Fail
  }

  /** `pPipe` reads a `|` with whitespace on both sides, and all of that
      whitespace. */
  lemma {:induction false} PipeShape(s: string, i: nat)
    ensures PPipe(s, i).Ok? <==>
      var j := Span(s, i, IsWhitespace);
      i < |s| && IsWhitespace(s[i]) && j + 1 < |s| && s[j] == '|' && IsWhitespace(s[j + 1])
    ensures PPipe(s, i).Ok? ==> PPipe(s, i).pos == Span(s, Span(s, i, IsWhitespace) + 1, IsWhitespace)
  {
    if i < |s| && IsWhitespace(s[i]) {
      LitStarts("|", s, Span(s, i, IsWhitespace));
    }
  }

  /** `pIndex` needs whitespace after the index name: the name is what
      `pString` reads after `index`, and the first variable is read after
      the whole run of whitespace that follows it. */
  lemma {:induction false} IndexShape(s: string, i: nat)
    ensures PIndex(s, i).Ok? ==> Keyword("index", s, i).Ok? && PString(s, Keyword("index", s, i).pos).Ok?
    ensures PIndex(s, i).Ok? ==>
      var name := PString(s, Keyword("index", s, i).pos);
      PIndex(s, i).value.0 == name.value && name.pos < |s| && IsWhitespace(s[name.pos]) &&
      PVar(s, Span(s, name.pos, IsWhitespace)).Ok? &&
      PIndex(s, i).value.1[0] == PVar(s, Span(s, name.pos, IsWhitespace)).value
  {
  }

  /** `pQuery`: a filter, then `| sort ...`, else `| index ...`, else nothing. */
  function PQuery(s: string, i: nat): (r: Reply<QueryArgs>)
    ensures r.Ok? ==> i < r.pos <= |s|
    ensures r.Ok? <==> PFilter(s, i).Ok?
    ensures r.Ok? ==> r.value.filter == PFilter(s, i).value
    ensures r.Ok? && r.value.name.Some? ==> r.value.sort.Some?
    ensures r.Ok? && r.value.sort.Some? ==> |r.value.sort.value| >= 1
  {
    match PFilter(s, i)
    case Fail => Fail
    case Ok(filter, j) =>
      match PPipe(s, j)
      case Fail => Ok(QueryArgs(filter, None, None), j)
      case Ok(_, k) =>
        match PSort(s, k)
        case Ok(sort, e) => Ok(QueryArgs(filter, None, Some(sort)), e)
        case Fail =>
          match PIndex(s, k)
          case Ok((name, sort), e) => Ok(QueryArgs(filter, Some(name), Some(sort)), e)
          case Fail => Ok(QueryArgs(filter, None, None), j)
  }

  /** The item `pTuple` makes of a value: the text `MAX` or `MIN` becomes the
      store's sentinel, anything else stays as it is. */
  function Sentinel(v: Value): (r: TupleItem)
    ensures r == MaxSentinel <==> v == Str("MAX")
    ensures r == MinSentinel <==> v == Str("MIN")
    ensures r.Plain? ==> r.value == v
  {
    if v == Str("MAX") then MaxSentinel
    else if v == Str("MIN") then MinSentinel
    else Plain(v)
  }

  /** `p.sepBy1(pValue, p.whitespace)`, the values of a bound tuple. */
  function PValues(s: string, i: nat): (r: Reply<seq<Value>>)
    ensures r.Ok? ==> i < r.pos <= |s| && |r.value| >= 1
  {
    SepBy1(PValue, Whitespace, s, i)
  }

  /** `pTuple`: the values, each mapped through `Sentinel`, length and order kept. */
  function PTuple(s: string, i: nat): (r: Reply<seq<TupleItem>>)
    ensures r.Ok? <==> PValues(s, i).Ok?
    ensures r.Ok? ==> r.pos == PValues(s, i).pos && |r.value| == |PValues(s, i).value|
    ensures r.Ok? ==> forall k :: 0 <= k < |r.value| ==> r.value[k] == Sentinel(PValues(s, i).value[k])
  {
    match PValues(s, i)
    case Fail => Fail
    case Ok(vs, j) => Ok(seq(|vs|, k requires 0 <= k < |vs| => Sentinel(vs[k])), j)
  }

  /** One entry of the `bounds` table as a parser: the operator, optional
      whitespace and a tuple, giving a bound with the entry's key. */
  function PComparison(op: string, key: Key, s: string, i: nat): (r: Reply<Bound>)
    ensures r.Ok? ==> Lit(op, s, i).Ok? && r.value.key == key
    ensures r.Ok? ==> i + |op| <= r.pos <= |s| && r.value.arg.Tuple? && |r.value.arg.items| >= 1
  {
    if Lit(op, s, i).Ok? then
      match PTuple(s, OptWhitespace(s, i + |op|))
      case Fail => Fail
      case Ok(items, e) => Ok(Bound(key, Tuple(items)), e)
    else Fail
  }

  /** The comparison alternatives of `pBound`, in the insertion order
      `Object.entries` keeps for the `bounds` table: `>`, `>=`, `<`, `<=`, `=`. */
  function PComparisons(s: string, i: nat): (r: Reply<Bound>)
    ensures r.Ok? ==> i < r.pos <= |s| && r.value.arg.Tuple? && |r.value.arg.items| >= 1
    ensures r.Ok? ==> r.value.key in {Gt, Gte, Lt, Lte, Prefix}
  {
    Or(PComparison(">", Gt, s, i),
    Or(PComparison(">=", Gte, s, i),
    Or(PComparison("<", Lt, s, i),
    Or(PComparison("<=", Lte, s, i),
       PComparison("=", Prefix, s, i)))))
  }

  /** `pBound`: `-`, else `!` and a number, else the comparisons in table order. */
  function PBound(s: string, i: nat): (r: Reply<Bound>)
    ensures r.Ok? ==> i < r.pos <= |s|
    ensures r.Ok? && r.value.key == Reverse ==> r.value.arg == Flag(true)
    ensures r.Ok? && r.value.key == Limit ==> r.value.arg.Count?
    ensures r.Ok? && r.value.key !in {Reverse, Limit} ==> r.value.arg.Tuple?
  {
    if Lit("-", s, i).Ok? then Ok(Bound(Reverse, Flag(true)), i + 1)
    else if Lit("!", s, i).Ok? && PNumber(s, i + 1).Ok? then
      Ok(Bound(Limit, Count(PNumber(s, i + 1).value)), PNumber(s, i + 1).pos)
    else PComparisons(s, i)
  }

  /** The record merge `{...a, ...b}` for a single-key `b`. */
  function Merge(acc: ScanArgs, b: Bound): (r: ScanArgs)
    ensures r.index == acc.index
    ensures r.bounds.Keys == acc.bounds.Keys + {b.key}
    ensures r.bounds[b.key] == b.arg
    ensures forall k :: k in acc.bounds && k != b.key ==> r.bounds[k] == acc.bounds[k]
  {
    acc.(bounds := acc.bounds[b.key := b.arg])
  }

  /** `bs.reduce(merge, acc)`, a left fold. */
  function FoldBounds(acc: ScanArgs, bs: seq<Bound>): (r: ScanArgs)
    decreases |bs|
  {
    if bs == [] then acc else FoldBounds(Merge(acc, bs[0]), bs[1..])
  }

  /** The scan arguments `pScan` builds: the fold starting from `{index}`. */
  function ScanFold(index: string, bs: seq<Bound>): (r: ScanArgs)
  {
    FoldBounds(ScanArgs(index, map[]), bs)
  }

  /** `pScan`: `scan`, whitespace, the index name, optional whitespace, then
      zero or more bounds separated by whitespace, folded into one record. */
  function PScan(s: string, i: nat): (r: Reply<ScanArgs>)
    ensures r.Ok? ==> i < r.pos <= |s|
  {
    match Keyword("scan", s, i)
    case Fail => Fail
    case Ok(_, j) =>
      match PString(s, j)
      case Fail => Fail
      case Ok(name, k) =>
        var bs := SepBy(PBound, Whitespace, s, OptWhitespace(s, k));
        Ok(ScanFold(name, bs.value), bs.pos)
  }

  /** `pScan` succeeds exactly when `scan`, whitespace and an index name are
      read, whatever follows; the record's index is that name. */
  lemma {:induction false} ScanHeader(s: string, i: nat)
    ensures PScan(s, i).Ok? <==> Keyword("scan", s, i).Ok? && PString(s, Keyword("scan", s, i).pos).Ok?
    ensures PScan(s, i).Ok? ==> PScan(s, i).value.index == PString(s, Keyword("scan", s, i).pos).value
  {
    if PScan(s, i).Ok? {
      FoldIndex(ScanArgs(PString(s, Keyword("scan", s, i).pos).value, map[]),
        SepBy(PBound, Whitespace, s, OptWhitespace(s, PString(s, Keyword("scan", s, i).pos).pos)).value);
    }
  }

  /** The fold keeps the index of its start record. */
  lemma {:induction false} FoldIndex(acc: ScanArgs, bs: seq<Bound>)
    ensures FoldBounds(acc, bs).index == acc.index
    decreases |bs|
  {
    if bs != [] {
      FoldIndex(Merge(acc, bs[0]), bs[1..]);
    }
  }

  /** The command alternation of `evaluate` without its actions: `pSet`,
      `pRemove`, `pQuery`, `pScan` tried in this order at the start of the
      line; the first that succeeds wins, whatever follows it. */
  function Program(s: string): (r: Reply<Command>)
    ensures r.Ok? ==> 0 < r.pos <= |s|
  {
    match PFactCommand("set", s, 0)
    case Ok(facts, j) => Ok(SetCmd(facts), j)
    case Fail =>
      match PFactCommand("remove", s, 0)
      case Ok(facts, j) => Ok(RemoveCmd(facts), j)
      case Fail =>
        match PQuery(s, 0)
        case Ok(args, j) => Ok(QueryCmd(args), j)
        case Fail =>
          match PScan(s, 0)
          case Ok(args, j) => Ok(ScanCmd(args), j)
          case Fail => Fail
  }
}
