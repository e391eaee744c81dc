/**
  Whole input lines through `evaluate` (src/repl.ts, lines 177-266): a
  printed command on a line of its own runs exactly the action of that
  command, trailing text still runs it but reports a failure, and blank
  lines, comments, `help` and text no command parser accepts never reach
  the store.
*/
module Lines {
  import opened Wrappers
  import opened Lexical
  import opened Parsing
  import opened Grammar
  import opened Store
  import opened Repl
  import opened Printer

  // ----- texts made of parts -----------------------------------------------

  /** A text made of two parts has each part in place. */
  lemma {:induction false} Halves(a: string, b: string)
    ensures Placed(a + b, 0, a) && Placed(a + b, |a|, b)
  {
    PlacedSlice(a + b, 0, a + b);
    assert (a + b)[0..|a + b|] == a + b;
    PlacedSplit(a + b, 0, a, b);
  }

  /** Where the three parts of a text are. */
  lemma {:induction false} Thirds(a: string, b: string, c: string)
    ensures Placed(a + b + c, 0, a) && Placed(a + b + c, |a|, b) && Placed(a + b + c, |a| + |b|, c)
  {
    Halves(a, b);
    Halves(a + b, c);
    PlacedSplit(a + b + c, 0, a, b);
  }

  /** Where the four parts of a text are. */
  lemma {:induction false} Quarters(a: string, b: string, c: string, d: string)
    ensures var s := a + b + c + d;
      Placed(s, 0, a) && Placed(s, |a|, b) && Placed(s, |a| + |b|, c) && Placed(s, |a| + |b| + |c|, d)
  {
    var s := a + b + c + d;
    Halves(a + b + c, d);
    PlacedSplit(s, 0, a + b, c);
    PlacedSplit(s, 0, a, b);
  }

  /** A text is in place at the start of itself. */
  lemma {:induction false} Whole(s: string)
    ensures Placed(s, 0, s)
  {
    PlacedSlice(s, 0, s);
    assert s[0..|s|] == s;
  }

  /** A line that starts with text whose first character is not blank and
      ends with solid text is solid, and its first character is that of
      the text it starts with. */
  lemma {:induction false} LineEnds(s: string, first: string, k: nat, last: string)
    requires Placed(s, 0, first) && first != [] && !IsWhitespace(first[0])
    requires Placed(s, k, last) && k + |last| == |s| && Solid(last)
    ensures Solid(s) && s[0] == first[0]
  {
    PlacedAt(s, 0, first, 0);
    PlacedAt(s, k, last, |last| - 1);
  }

  // ----- from a parsed line to its evaluation ------------------------------

  /** A solid line that is neither a comment nor `help` is trimmed to
      itself and goes to the command parsers. */
  lemma {:induction false} WholeCommand(line: string)
    ensures Solid(line) && line[0] != '#' && line[0] != 'h' ==>
      EvaluateSpec(line) == Outcome(line, Program(line))
  {
    if Solid(line) {
      TrimKeeps(line);
    }
  }

  /** A solid line, neither a comment nor `help`, that a command parses in
      full gets exactly that command's action and output. */
  lemma {:induction false} ParsedLine(s: string, c: Command)
    requires Solid(s) && s[0] != '#' && s[0] != 'h'
    requires Program(s) == Ok(c, |s|)
    ensures EvaluateSpec(s) == Dispatch(c)
  {
    WholeCommand(s);
  }

  /** A solid line, neither a comment nor `help`, on which a command stops
      short of the end: the command's calls are made, and the output is the
      failure message. */
  lemma {:induction false} TrailingLine(s: string, c: Command, e: nat)
    requires Solid(s) && s[0] != '#' && s[0] != 'h'
    requires Program(s) == Ok(c, e) && e < |s|
    ensures EvaluateSpec(s) == Evaluation(Message(ParseFailure), Dispatch(c).calls)
  {
    WholeCommand(s);
  }

  /** `evaluate` trims its input: whitespace around a solid line changes
      nothing. */
  lemma {:induction false} PaddedLine(p: string, line: string, q: string)
    requires forall k :: 0 <= k < |p| ==> IsWhitespace(p[k])
    requires forall k :: 0 <= k < |q| ==> IsWhitespace(q[k])
    requires Solid(line)
    ensures EvaluateSpec(p + line + q) == EvaluateSpec(line)
  {
    TrimPadded(p, line, q);
    TrimKeeps(line);
  }

  // ----- lines that never reach the store ----------------------------------

  /** An input of whitespace only gives `undefined` and calls nothing. */
  lemma {:induction false} BlankInput(input: string)
    requires forall k :: 0 <= k < |input| ==> IsWhitespace(input[k])
    ensures EvaluateSpec(input) == Evaluation(NoOutput, [])
  {
    TrimEmpty(input);
  }

  /** An input whose first character that is not whitespace is `#` is a
      comment: `undefined`, no store call, whatever follows. */
  lemma {:induction false} CommentInput(input: string, a: nat)
    requires a < |input| && input[a] == '#'
    requires forall k :: 0 <= k < a ==> IsWhitespace(input[k])
    ensures EvaluateSpec(input) == Evaluation(NoOutput, [])
  {
    TrimFirst(input, a);
  }

  /** `help`, with any whitespace around it, gives the help text and calls
      nothing. */
  lemma {:induction false} HelpInput(p: string, q: string)
    requires forall k :: 0 <= k < |p| ==> IsWhitespace(p[k])
    requires forall k :: 0 <= k < |q| ==> IsWhitespace(q[k])
    ensures EvaluateSpec(p + "help" + q) == Evaluation(HelpText, [])
  {
    TrimPadded(p, "help", q);
  }

  /** Every command parser starts with its keyword: a parsed line starts
      with `s`, `r` or `f`. */
  lemma {:induction false} ProgramStarts(s: string)
    ensures Program(s).Ok? ==> s != [] && (s[0] == 's' || s[0] == 'r' || s[0] == 'f')
  {
    LitStarts("set", s, 0);
    LitStarts("remove", s, 0);
    LitStarts("filter", s, 0);
    LitStarts("scan", s, 0);
  }

  /** A line that is not `help` and starts with none of the command
      keywords' letters fails to parse, and nothing reaches the store. */
  lemma {:induction false} UnknownCommand(line: string)
    requires Solid(line) && line != "help" && line[0] !in {'s', 'r', 'f', '#'}
    ensures EvaluateSpec(line) == Evaluation(Message(ParseFailure), [])
  {
    TrimKeeps(line);
    ProgramStarts(line);
  }

  // ----- the command alternatives ------------------------------------------
  // These lemmas unfold `Program` and `PQuery`; they state the order in
  // which the alternatives are tried.

  /** `pSet` is tried first. */
  lemma {:induction false} ProgramSet(s: string)
    ensures PFactCommand("set", s, 0).Ok? ==>
      Program(s) == Ok(SetCmd(PFactCommand("set", s, 0).value), PFactCommand("set", s, 0).pos)
  {
  }

  /** `pRemove` is tried when `pSet` fails. */
  lemma {:induction false} ProgramRemove(s: string)
    ensures PFactCommand("set", s, 0).Fail? && PFactCommand("remove", s, 0).Ok? ==>
      Program(s) == Ok(RemoveCmd(PFactCommand("remove", s, 0).value), PFactCommand("remove", s, 0).pos)
  {
  }

  /** `pQuery` is tried when neither fact command matches. */
  lemma {:induction false} ProgramQuery(s: string)
    ensures PFactCommand("set", s, 0).Fail? && PFactCommand("remove", s, 0).Fail? && PQuery(s, 0).Ok? ==>
      Program(s) == Ok(QueryCmd(PQuery(s, 0).value), PQuery(s, 0).pos)
  {
  }

  /** A line starting with neither `s` nor `r` is no `set` or `remove` command. */
  lemma {:induction false} NotFactCommand(s: string)
    ensures s != [] && s[0] != 's' && s[0] != 'r' ==>
      PFactCommand("set", s, 0).Fail? && PFactCommand("remove", s, 0).Fail?
  {
    LitStarts("set", s, 0);
    LitStarts("remove", s, 0);
  }

  /** A line starting with `f` that `pQuery` reads is a query command. */
  lemma {:induction false} QueryProgram(s: string, args: QueryArgs, e: nat)
    requires s != [] && s[0] == 'f' && PQuery(s, 0) == Ok(args, e)
    ensures Program(s) == Ok(QueryCmd(args), e)
  {
    NotFactCommand(s);
    ProgramQuery(s);
  }

  // ----- set and remove ----------------------------------------------------

  /** A command word, a blank and a fact list up to a blank or the end of
      the line: the fact-command parser reads all the facts, in order. */
  lemma {:induction false} FactCommandAt(word: string, s: string, fs: seq<Fact>, w: string)
    requires Reads(PFacts, fs, w, ConjunctionEnd) && Solid(w)
    requires Placed(s, 0, word + " ") && Placed(s, |word| + 1, w)
    requires Stops(s, |word| + 1 + |w|, IsWhitespace)
    ensures PFactCommand(word, s, 0) == Ok(fs, |word| + 1 + |w|)
  {
    CommandWordAt(word, s, 0, w);
    assert Stops(s, |word| + 1 + |w|, ConjunctionEnd);
    UseReads(PFacts, fs, w, ConjunctionEnd, s, |word| + 1);
  }

  /** `set`, a blank and a fact list, up to a blank or the end of the line:
      `pSet` reads all the facts. */
  lemma {:induction false} SetProgram(s: string, fs: seq<Fact>, w: string)
    requires Reads(PFacts, fs, w, ConjunctionEnd) && Solid(w)
    requires Placed(s, 0, "set" + " ") && Placed(s, 4, w)
    requires Stops(s, 4 + |w|, IsWhitespace)
    ensures Program(s) == Ok(SetCmd(fs), 4 + |w|)
  {
    FactCommandAt("set", s, fs, w);
    ProgramSet(s);
  }

  /** `remove`, a blank and a fact list, up to a blank or the end of the
      line: `pSet` does not match, `pRemove` reads all the facts. */
  lemma {:induction false} RemoveProgram(s: string, fs: seq<Fact>, w: string)
    requires Reads(PFacts, fs, w, ConjunctionEnd) && Solid(w)
    requires Placed(s, 0, "remove" + " ") && Placed(s, 7, w)
    requires Stops(s, 7 + |w|, IsWhitespace)
    ensures Program(s) == Ok(RemoveCmd(fs), 7 + |w|)
  {
    FactCommandAt("remove", s, fs, w);
    PlacedAt(s, 0, "remove" + " ", 0);
    LitStarts("set", s, 0);
    ProgramRemove(s);
  }

  /** A printed `set` line is parsed in full as a `set` command. */
  lemma {:induction false} SetLineParses(fs: seq<Fact>)
    requires PrintableFacts(fs)
    ensures Solid("set" + " " + PrintFacts(fs)) && ("set" + " " + PrintFacts(fs))[0] == 's'
    ensures Program("set" + " " + PrintFacts(fs)) == Ok(SetCmd(fs), |"set" + " " + PrintFacts(fs)|)
  {
    var w := PrintFacts(fs);
    Halves("set" + " ", w);
    FactsReads(fs);
    SetLineFrom("set" + " " + w, fs, w);
  }

  lemma {:induction false} SetLineFrom(s: string, fs: seq<Fact>, w: string)
    requires Reads(PFacts, fs, w, ConjunctionEnd) && Solid(w)
    requires Placed(s, 0, "set" + " ") && Placed(s, 4, w) && 4 + |w| == |s|
    ensures Solid(s) && s[0] == 's' && Program(s) == Ok(SetCmd(fs), |s|)
  {
    SetProgram(s, fs, w);
    LineEnds(s, "set" + " ", 4, w);
  }

  /** A printed `remove` line is parsed in full as a `remove` command. */
  lemma {:induction false} RemoveLineParses(fs: seq<Fact>)
    requires PrintableFacts(fs)
    ensures Solid("remove" + " " + PrintFacts(fs)) && ("remove" + " " + PrintFacts(fs))[0] == 'r'
    ensures Program("remove" + " " + PrintFacts(fs)) == Ok(RemoveCmd(fs), |"remove" + " " + PrintFacts(fs)|)
  {
    var w := PrintFacts(fs);
    Halves("remove" + " ", w);
    FactsReads(fs);
    RemoveLineFrom("remove" + " " + w, fs, w);
  }

  lemma {:induction false} RemoveLineFrom(s: string, fs: seq<Fact>, w: string)
    requires Reads(PFacts, fs, w, ConjunctionEnd) && Solid(w)
    requires Placed(s, 0, "remove" + " ") && Placed(s, 7, w) && 7 + |w| == |s|
    ensures Solid(s) && s[0] == 'r' && Program(s) == Ok(RemoveCmd(fs), |s|)
  {
    RemoveProgram(s, fs, w);
    LineEnds(s, "remove" + " ", 7, w);
  }

  /** A `set` line opens one transaction, sets every fact in order, commits,
      and reports how many facts it added. */
  lemma {:induction false} SetLine(fs: seq<Fact>)
    requires PrintableFacts(fs)
    ensures EvaluateSpec("set" + " " + PrintFacts(fs)) == Dispatch(SetCmd(fs))
  {
    SetLineParses(fs);
    ParsedLine("set" + " " + PrintFacts(fs), SetCmd(fs));
  }

  /** A `remove` line opens one transaction, removes every fact in order,
      commits, and reports how many facts it removed. */
  lemma {:induction false} RemoveLine(fs: seq<Fact>)
    requires PrintableFacts(fs)
    ensures EvaluateSpec("remove" + " " + PrintFacts(fs)) == Dispatch(RemoveCmd(fs))
  {
    RemoveLineParses(fs);
    ParsedLine("remove" + " " + PrintFacts(fs), RemoveCmd(fs));
  }

  /** Text after a complete `set` command: the facts are still set and
      committed, and then the line reports a failure. */
  lemma {:induction false} SetTrailing(fs: seq<Fact>, tail: string)
    requires PrintableFacts(fs) && Solid(tail)
    ensures EvaluateSpec("set" + " " + PrintFacts(fs) + " " + tail) ==
      Evaluation(Message(ParseFailure), Dispatch(SetCmd(fs)).calls)
  {
    SetTrailingParses(fs, tail);
    WholeCommand("set" + " " + PrintFacts(fs) + " " + tail);
  }

  /** A printed `set` command followed by a blank and more text: `pSet`
      stops before the blank. */
  lemma {:induction false} SetTrailingParses(fs: seq<Fact>, tail: string)
    requires PrintableFacts(fs) && Solid(tail)
    ensures var s := "set" + " " + PrintFacts(fs) + " " + tail;
      Solid(s) && s[0] == 's' && Program(s) == Ok(SetCmd(fs), 4 + |PrintFacts(fs)|) && 4 + |PrintFacts(fs)| < |s|
  {
    var w := PrintFacts(fs);
    Quarters("set" + " ", w, " ", tail);
    FactsReads(fs);
    SetTrailingFrom("set" + " " + w + " " + tail, fs, w, tail);
  }

  lemma {:induction false} SetTrailingFrom(s: string, fs: seq<Fact>, w: string, tail: string)
    requires Reads(PFacts, fs, w, ConjunctionEnd) && Solid(w) && Solid(tail)
    requires Placed(s, 0, "set" + " ") && Placed(s, 4, w) && Placed(s, 4 + |w|, " ")
    requires Placed(s, 5 + |w|, tail) && 5 + |w| + |tail| == |s|
    ensures Solid(s) && s[0] == 's' && Program(s) == Ok(SetCmd(fs), 4 + |w|)
  {
    PlacedAt(s, 4 + |w|, " ", 0);
    SetProgram(s, fs, w);
    LineEnds(s, "set" + " ", 5 + |w|, tail);
  }

  // ----- query lines -------------------------------------------------------

  /** No pipe follows the filter: `pQuery` gives the filter alone. */
  lemma {:induction false} QueryPlain(s: string, i: nat, f: Filter)
    ensures PFilter(s, i) == Ok(f, |s|) ==> PQuery(s, i) == Ok(QueryArgs(f, None, None), |s|)
  {
  }

  /** The sort branch of `pQuery` (an unfolding of `PQuery`). */
  lemma {:induction false} QuerySorted(s: string, i: nat, f: Filter, j: nat, vs: seq<string>, e: nat)
    ensures PFilter(s, i) == Ok(f, j) && PPipe(s, j) == Ok((), j + 3) && PSort(s, j + 3) == Ok(vs, e) ==>
      PQuery(s, i) == Ok(QueryArgs(f, None, Some(vs)), e)
  {
  }

  /** The index branch of `pQuery`, taken when the sort branch fails (an
      unfolding of `PQuery`). */
  lemma {:induction false} QueryIndexed(s: string, i: nat, f: Filter, j: nat, name: string, vs: seq<string>, e: nat)
    ensures (PFilter(s, i) == Ok(f, j) && PPipe(s, j) == Ok((), j + 3)
      && PSort(s, j + 3).Fail? && PIndex(s, j + 3) == Ok((name, vs), e)) ==>
      PQuery(s, i) == Ok(QueryArgs(f, Some(name), Some(vs)), e)
  {
  }

  /** A pipe followed by neither a sort nor an index clause: `pQuery` falls
      back to the filter alone and stops before the pipe (an unfolding of
      `PQuery`). */
  lemma {:induction false} QueryFallback(s: string, i: nat, f: Filter, j: nat)
    requires PFilter(s, i) == Ok(f, j)
    requires PPipe(s, j).Fail? || (PSort(s, PPipe(s, j).pos).Fail? && PIndex(s, PPipe(s, j).pos).Fail?)
    ensures PQuery(s, i) == Ok(QueryArgs(f, None, None), j)
  {
  }

  /** A filter, a pipe and text that starts neither `sort` nor `index`:
      the filter and the pipe are read, and both pipe alternatives fail. */
  lemma {:induction false} QueryTrailingParts(s: string, i: nat, f: Filter, wf: string, tail: string)
    requires Reads(PFilter, f, wf, IsWhitespace)
    requires Placed(s, i, wf) && Placed(s, i + |wf|, " | ") && Placed(s, i + |wf| + 3, tail)
    requires Solid(tail) && tail[0] != 's' && tail[0] != 'i'
    ensures PFilter(s, i) == Ok(f, i + |wf|) && PPipe(s, i + |wf|) == Ok((), i + |wf| + 3)
    ensures PSort(s, i + |wf| + 3).Fail? && PIndex(s, i + |wf| + 3).Fail?
  {
    PipeBefore(s, i + |wf|, tail);
    PlacedAt(s, i + |wf|, " | ", 0);
    UseReads(PFilter, f, wf, IsWhitespace, s, i);
    PlacedAt(s, i + |wf| + 3, tail, 0);
    SortNeedsS(s, i + |wf| + 3);
    IndexNeedsI(s, i + |wf| + 3);
  }

  /** `index` does not match where the character is not `i`. */
  lemma {:induction false} IndexNeedsI(s: string, k: nat)
    requires k < |s| && s[k] != 'i'
    ensures PIndex(s, k).Fail?
  {
    LitStarts("index", s, k);
  }

  lemma {:induction false} QueryTrailingFrom(s: string, f: Filter, wf: string, tail: string)
    requires Reads(PFilter, f, wf, IsWhitespace) && Solid(wf) && wf[0] == 'f'
    requires Placed(s, 0, wf) && Placed(s, |wf|, " | ") && Placed(s, |wf| + 3, tail)
    requires |wf| + 3 + |tail| == |s| && Solid(tail) && tail[0] != 's' && tail[0] != 'i'
    ensures Solid(s) && s[0] == 'f' && Program(s) == Ok(QueryCmd(QueryArgs(f, None, None)), |wf|)
  {
    QueryTrailingParts(s, 0, f, wf, tail);
    QueryFallback(s, 0, f, |wf|);
    LineEnds(s, wf, |wf| + 3, tail);
    QueryProgram(s, QueryArgs(f, None, None), |wf|);
  }

  /** A printed filter clause, a pipe and text that starts neither `sort`
      nor `index`: the command parsers read the filter alone. */
  lemma {:induction false} QueryTrailingParses(f: Filter, tail: string)
    requires PrintableFilter(f) && Solid(tail) && tail[0] != 's' && tail[0] != 'i'
    ensures var s := FilterClause(f) + " | " + tail;
      Solid(s) && s[0] == 'f' && |FilterClause(f)| < |s|
      && Program(s) == Ok(QueryCmd(QueryArgs(f, None, None)), |FilterClause(f)|)
  {
    var wf := FilterClause(f);
    Thirds(wf, " | ", tail);
    FilterClauseReads(f);
    QueryTrailingFrom(wf + " | " + tail, f, wf, tail);
  }

  /** After a pipe, text that is neither a sort nor an index clause is not
      part of the query: `db.query` still runs on the filter, and then the
      line reports a failure. */
  lemma {:induction false} QueryTrailing(f: Filter, tail: string)
    requires PrintableFilter(f) && Solid(tail) && tail[0] != 's' && tail[0] != 'i'
    ensures EvaluateSpec(FilterClause(f) + " | " + tail) == Evaluation(Message(ParseFailure), [Call.Query(f)])
  {
    var s := FilterClause(f) + " | " + tail;
    QueryTrailingParses(f, tail);
    TrailingLine(s, QueryCmd(QueryArgs(f, None, None)), |FilterClause(f)|);
  }

  /** A filter, a pipe and a sort clause ending the line: each of the
      parsers on the sort branch of `pQuery` reads its part. */
  lemma {:induction false} SortQueryParts(s: string, i: nat, f: Filter, wf: string, vs: seq<string>, ws: string)
    requires Reads(PFilter, f, wf, IsWhitespace) && Reads(PSort, vs, ws, LineEnd)
    requires Placed(s, i, wf) && Placed(s, i + |wf|, " | ") && Placed(s, i + |wf| + 3, ws)
    requires i + |wf| + 3 + |ws| == |s| && Solid(ws)
    ensures PFilter(s, i) == Ok(f, i + |wf|) && PPipe(s, i + |wf|) == Ok((), i + |wf| + 3)
    ensures PSort(s, i + |wf| + 3) == Ok(vs, |s|)
  {
    PipeBefore(s, i + |wf|, ws);
    UseReads(PFilter, f, wf, IsWhitespace, s, i);
    SortAtEnd(s, i + |wf| + 3, vs, ws);
  }

  /** A sort clause that ends the line is read by `pSort`. */
  lemma {:induction false} SortAtEnd(s: string, j: nat, vs: seq<string>, ws: string)
    requires Reads(PSort, vs, ws, LineEnd) && Placed(s, j, ws) && j + |ws| == |s|
    ensures PSort(s, j) == Ok(vs, |s|)
  {
    UseReads(PSort, vs, ws, LineEnd, s, j);
  }

  /** A filter, a pipe and an index clause ending the line: the sort
      alternative fails on `index`, and each of the parsers on the index
      branch of `pQuery` reads its part. */
  lemma {:induction false} IndexQueryParts(s: string, i: nat, f: Filter, wf: string, name: string, vs: seq<string>, wi: string)
    requires Reads(PFilter, f, wf, IsWhitespace) && Reads(PIndex, (name, vs), wi, LineEnd)
    requires Placed(s, i, wf) && Placed(s, i + |wf|, " | ") && Placed(s, i + |wf| + 3, wi)
    requires i + |wf| + 3 + |wi| == |s| && Solid(wi) && wi[0] == 'i'
    ensures PFilter(s, i) == Ok(f, i + |wf|) && PPipe(s, i + |wf|) == Ok((), i + |wf| + 3)
    ensures PSort(s, i + |wf| + 3).Fail? && PIndex(s, i + |wf| + 3) == Ok((name, vs), |s|)
  {
    PipeBeforeIndex(s, i + |wf|, wi);
    UseReads(PFilter, f, wf, IsWhitespace, s, i);
    IndexAtEnd(s, i + |wf| + 3, name, vs, wi);
  }

  /** An index clause that ends the line is read by `pIndex`. */
  lemma {:induction false} IndexAtEnd(s: string, j: nat, name: string, vs: seq<string>, wi: string)
    requires Reads(PIndex, (name, vs), wi, LineEnd) && Placed(s, j, wi) && j + |wi| == |s|
    ensures PIndex(s, j) == Ok((name, vs), |s|)
  {
    UseReads(PIndex, (name, vs), wi, LineEnd, s, j);
  }

  /** A solid line starting with `f` that `pQuery` parses in full runs the
      query command. */
  lemma {:induction false} QueryLine(s: string, args: QueryArgs)
    requires Solid(s) && s[0] == 'f' && PQuery(s, 0) == Ok(args, |s|)
    ensures EvaluateSpec(s) == Dispatch(QueryCmd(args))
  {
    QueryProgram(s, args, |s|);
    ParsedLine(s, QueryCmd(args));
  }

  /** A printed filter clause alone is parsed in full by `pQuery`. */
  lemma {:induction false} FilterLineParses(f: Filter)
    requires PrintableFilter(f)
    ensures PQuery(FilterClause(f), 0) == Ok(QueryArgs(f, None, None), |FilterClause(f)|)
  {
    var s := FilterClause(f);
    Whole(s);
    FilterClauseReads(f);
    UseReads(PFilter, f, s, IsWhitespace, s, 0);
    QueryPlain(s, 0, f);
  }

  /** A filter, a pipe and a sort clause ending the line: `pQuery` takes the
      sort branch. */
  lemma {:induction false} SortQueryFrom(s: string, f: Filter, wf: string, vs: seq<string>, ws: string)
    requires Reads(PFilter, f, wf, IsWhitespace) && Reads(PSort, vs, ws, LineEnd)
    requires Placed(s, 0, wf) && Placed(s, |wf|, " | ") && Placed(s, |wf| + 3, ws)
    requires |wf| + 3 + |ws| == |s| && Solid(wf) && wf[0] == 'f' && Solid(ws)
    ensures Solid(s) && s[0] == 'f' && PQuery(s, 0) == Ok(QueryArgs(f, None, Some(vs)), |s|)
  {
    SortQueryParts(s, 0, f, wf, vs, ws);
    QuerySorted(s, 0, f, |wf|, vs, |s|);
    LineEnds(s, wf, |wf| + 3, ws);
  }

  /** A filter, a pipe and an index clause ending the line: `pQuery` takes
      the index branch. */
  lemma {:induction false} IndexQueryFrom(s: string, f: Filter, wf: string, name: string, vs: seq<string>, wi: string)
    requires Reads(PFilter, f, wf, IsWhitespace) && Reads(PIndex, (name, vs), wi, LineEnd)
    requires Placed(s, 0, wf) && Placed(s, |wf|, " | ") && Placed(s, |wf| + 3, wi)
    requires |wf| + 3 + |wi| == |s| && Solid(wf) && wf[0] == 'f' && Solid(wi) && wi[0] == 'i'
    ensures Solid(s) && s[0] == 'f' && PQuery(s, 0) == Ok(QueryArgs(f, Some(name), Some(vs)), |s|)
  {
    IndexQueryParts(s, 0, f, wf, name, vs, wi);
    QueryIndexed(s, 0, f, |wf|, name, vs, |s|);
    LineEnds(s, wf, |wf| + 3, wi);
  }

  /** A printed filter clause, a pipe and a printed sort clause are parsed
      in full by `pQuery`, on its sort branch. */
  lemma {:induction false} SortLineParses(f: Filter, vs: seq<string>)
    requires PrintableFilter(f) && PrintableVars(vs)
    ensures Solid(FilterClause(f) + " | " + SortClause(vs)) && (FilterClause(f) + " | " + SortClause(vs))[0] == 'f'
    ensures PQuery(FilterClause(f) + " | " + SortClause(vs), 0) ==
      Ok(QueryArgs(f, None, Some(vs)), |FilterClause(f) + " | " + SortClause(vs)|)
  {
    var wf, ws := FilterClause(f), SortClause(vs);
    Thirds(wf, " | ", ws);
    FilterClauseReads(f);
    SortClauseReads(vs);
    SortQueryFrom(wf + " | " + ws, f, wf, vs, ws);
  }

  /** A printed filter clause, a pipe and a printed index clause are parsed
      in full by `pQuery`, on its index branch. */
  lemma {:induction false} IndexLineParses(f: Filter, name: string, vs: seq<string>)
    requires PrintableFilter(f) && PrintableString(name) && PrintableVars(vs)
    ensures Solid(FilterClause(f) + " | " + IndexClause(name, vs)) && (FilterClause(f) + " | " + IndexClause(name, vs))[0] == 'f'
    ensures PQuery(FilterClause(f) + " | " + IndexClause(name, vs), 0) ==
      Ok(QueryArgs(f, Some(name), Some(vs)), |FilterClause(f) + " | " + IndexClause(name, vs)|)
  {
    var wf, wi := FilterClause(f), IndexClause(name, vs);
    Thirds(wf, " | ", wi);
    FilterClauseReads(f);
    IndexClauseReads(name, vs);
    IndexQueryFrom(wf + " | " + wi, f, wf, name, vs, wi);
  }

  /** A `filter` line runs `db.query` with the filter. */
  lemma {:induction false} FilterLine(f: Filter)
    requires PrintableFilter(f)
    ensures EvaluateSpec(FilterClause(f)) == Dispatch(QueryCmd(QueryArgs(f, None, None)))
  {
    FilterLineParses(f);
    QueryLine(FilterClause(f), QueryArgs(f, None, None));
  }

  /** A `filter ... | sort ...` line runs `db.querySort` with the filter and
      the sort variables. */
  lemma {:induction false} SortLine(f: Filter, vs: seq<string>)
    requires PrintableFilter(f) && PrintableVars(vs)
    ensures EvaluateSpec(FilterClause(f) + " | " + SortClause(vs)) == Dispatch(QueryCmd(QueryArgs(f, None, Some(vs))))
  {
    SortLineParses(f, vs);
    QueryLine(FilterClause(f) + " | " + SortClause(vs), QueryArgs(f, None, Some(vs)));
  }

  /** A `filter ... | index ...` line creates the index when its name is not
      empty; with the empty name it runs `db.querySort` instead. */
  lemma {:induction false} IndexLine(f: Filter, name: string, vs: seq<string>)
    requires PrintableFilter(f) && PrintableString(name) && PrintableVars(vs)
    ensures EvaluateSpec(FilterClause(f) + " | " + IndexClause(name, vs)) == Dispatch(QueryCmd(QueryArgs(f, Some(name), Some(vs))))
  {
    IndexLineParses(f, name, vs);
    QueryLine(FilterClause(f) + " | " + IndexClause(name, vs), QueryArgs(f, Some(name), Some(vs)));
  }

  /** `index ""` names no index: the empty name is falsy, so the line runs
      `db.querySort` with the filter and the sort variables. */
  lemma {:induction false} EmptyIndexName(f: Filter, vs: seq<string>)
    requires PrintableFilter(f) && PrintableVars(vs)
    ensures EvaluateSpec(FilterClause(f) + " | " + IndexClause("", vs)) ==
      Evaluation(Result(AnswerTo(Call.QuerySort(f, vs))), [Call.QuerySort(f, vs)])
  {
    IndexLine(f, "", vs);
  }

  /** An index clause with a name that is not empty creates that index over
      the filter, sorted by the variables, and nothing else. */
  lemma {:induction false} NamedIndex(f: Filter, name: string, vs: seq<string>)
    requires PrintableFilter(f) && PrintableString(name) && PrintableVars(vs) && name != ""
    ensures EvaluateSpec(FilterClause(f) + " | " + IndexClause(name, vs)) ==
      Evaluation(Message("created index " + name), [Call.EnsureIndex(name, vs, f)])
  {
    IndexLine(f, name, vs);
  }
}
