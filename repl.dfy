/**
  `evaluate` (src/repl.ts, lines 177-266): one line of input becomes at most
  one interaction with the store and a value to show.

  The line is trimmed; blank lines and comments are ignored and `help`
  shows the help text. Otherwise the four command parsers are tried in
  order on the line. The action of the first one that succeeds runs at
  once, before anyone checks that the command used up the whole line:
  a line with trailing text still reaches the store, and then reports
  `Failed to parse.`.
*/
module Repl {
  import opened Wrappers
  import opened Lexical
  import opened Parsing
  import opened Grammar
  import opened Store

  /** What `evaluate` returns: `undefined`, the help text (its wording is not
      modelled), a message, or whatever the store answered. */
  datatype Output = NoOutput | HelpText | Message(text: string) | Result(answer: Answer)

  /** The returned value and the store calls made on the way, in order. */
  datatype Evaluation = Evaluation(output: Output, calls: seq<Call>)

  const ParseFailure: string := "Failed to parse."

  /** One `tx.set` per fact, in list order. */
  function SetCalls(facts: seq<Fact>): (r: seq<Call>)
    ensures |r| == |facts| && forall k :: 0 <= k < |facts| ==> r[k] == TxSet(facts[k])
  {
    seq(|facts|, k requires 0 <= k < |facts| => TxSet(facts[k]))
  }

  /** One `tx.remove` per fact, in list order. */
  function RemoveCalls(facts: seq<Fact>): (r: seq<Call>)
    ensures |r| == |facts| && forall k :: 0 <= k < |facts| ==> r[k] == TxRemove(facts[k])
  {
    seq(|facts|, k requires 0 <= k < |facts| => TxRemove(facts[k]))
  }

  /** The action attached to each command parser: what it asks of the store
      and what it returns. A query creates an index only when it has a sort
      and a name that is not the empty string (JavaScript's `name && sort`). */
  function Dispatch(c: Command): (r: Evaluation)
  {
    match c
    case SetCmd(facts) =>
      Evaluation(Message("added " + Decimal(|facts|) + " facts"), [Call.Transact] + SetCalls(facts) + [Call.Commit])
    case RemoveCmd(facts) =>
      Evaluation(Message("removed " + Decimal(|facts|) + " facts"), [Call.Transact] + RemoveCalls(facts) + [Call.Commit])
    case QueryCmd(QueryArgs(filter, name, sort)) =>
      if name.Some? && name.value != "" && sort.Some? then
        Evaluation(Message("created index " + name.value), [Call.EnsureIndex(name.value, sort.value, filter)])
      else if sort.Some? then
        Evaluation(Result(AnswerTo(Call.QuerySort(filter, sort.value))), [Call.QuerySort(filter, sort.value)])
      else
        Evaluation(Result(AnswerTo(Call.Query(filter))), [Call.Query(filter)])
    case ScanCmd(args) =>
      Evaluation(Result(AnswerTo(Call.ScanIndex(args))), [Call.ScanIndex(args)])
  }

  /** Each action's store calls: one transaction, opened first and committed
      last, around one call per fact for `set` and `remove`; exactly one call
      for a query or a scan. The output is always a message or an answer. */
  lemma {:induction false} DispatchCalls(c: Command)
    ensures (c.SetCmd? || c.RemoveCmd?) ==>
      var calls := Dispatch(c).calls;
      |calls| == |c.facts| + 2 && calls[0] == Call.Transact && calls[|calls| - 1] == Call.Commit
    ensures c.QueryCmd? || c.ScanCmd? ==> |Dispatch(c).calls| == 1
    ensures Dispatch(c).output.Message? || Dispatch(c).output.Result?
  {
  }

  /** `evaluate` on a line: its result and the store calls it makes. */
  function EvaluateSpec(input: string): (r: Evaluation)
  {
    var line := Trim(input);
    if line == [] || line[0] == '#' then Evaluation(NoOutput, [])
    else if line == "help" then Evaluation(HelpText, [])
    else Outcome(line, Program(line))
  }

  /** What becomes of a line that is neither blank, a comment nor `help`,
      given what the command parsers made of it: no parse is a failure
      without any store call; a parse runs its action, and text left over
      after it turns the output into a failure but keeps the calls. */
  function Outcome(line: string, parsed: Reply<Command>): (r: Evaluation)
  {
    match parsed
    case Fail => Evaluation(Message(ParseFailure), [])
    case Ok(cmd, end) =>
      var done := Dispatch(cmd);
      if end == |line| then done else Evaluation(Message(ParseFailure), done.calls)
  }

  /** What happens after parsing: no parse means no store call and the
      failure message; a parse makes its action's calls, and a parse that
      stops short of the end of the line answers the failure message. */
  lemma {:induction false} OutcomeCalls(line: string, parsed: Reply<Command>)
    ensures parsed.Fail? ==> Outcome(line, parsed) == Evaluation(Message(ParseFailure), [])
    ensures parsed.Ok? ==> Outcome(line, parsed).calls == Dispatch(parsed.value).calls
    ensures parsed.Ok? && parsed.pos != |line| ==> Outcome(line, parsed).output == Message(ParseFailure)
    ensures parsed.Ok? && parsed.pos == |line| ==> Outcome(line, parsed) == Dispatch(parsed.value)
  {
  }

  /** The early exits of `evaluate`: nothing is shown exactly for a blank
      line or a comment, the help text exactly for `help`, and neither makes
      a store call. */
  lemma {:induction false} EvaluateExits(input: string)
    ensures EvaluateSpec(input).output == NoOutput <==> Trim(input) == [] || Trim(input)[0] == '#'
    ensures EvaluateSpec(input).output == HelpText <==> Trim(input) == "help"
    ensures EvaluateSpec(input).output.NoOutput? || EvaluateSpec(input).output.HelpText? ==> EvaluateSpec(input).calls == []
  {
    var line := Trim(input);
    if line != [] && line[0] != '#' && line != "help" && Program(line).Ok? {
      DispatchCalls(Program(line).value);
    }
  }

  /** The action of `pSet`: one transaction, one `tx.set` per fact, a commit. */
  method SetAction(db: Triplestore, facts: seq<Fact>) returns (out: Output)
    modifies db
    ensures out == Dispatch(SetCmd(facts)).output
    ensures db.log == old(db.log) + Dispatch(SetCmd(facts)).calls
  {
    var tx := db.Transact();
    for k := 0 to |facts|
      invariant db.log == old(db.log) + [Call.Transact] + SetCalls(facts[..k])
    {
      tx.Set(facts[k]);
      assert SetCalls(facts[..k + 1]) == SetCalls(facts[..k]) + [TxSet(facts[k])];
    }
    tx.Commit();
    assert facts[..|facts|] == facts;
    out := Message("added " + Decimal(|facts|) + " facts");
  }

  /** The action of `pRemove`: one transaction, one `tx.remove` per fact, a commit. */
  method RemoveAction(db: Triplestore, facts: seq<Fact>) returns (out: Output)
    modifies db
    ensures out == Dispatch(RemoveCmd(facts)).output
    ensures db.log == old(db.log) + Dispatch(RemoveCmd(facts)).calls
  {
    var tx := db.Transact();
    for k := 0 to |facts|
      invariant db.log == old(db.log) + [Call.Transact] + RemoveCalls(facts[..k])
    {
      tx.Remove(facts[k]);
      assert RemoveCalls(facts[..k + 1]) == RemoveCalls(facts[..k]) + [TxRemove(facts[k])];
    }
    tx.Commit();
    assert facts[..|facts|] == facts;
    out := Message("removed " + Decimal(|facts|) + " facts");
  }

  /** The action of `pQuery`. */
  method QueryAction(db: Triplestore, args: QueryArgs) returns (out: Output)
    modifies db
    ensures out == Dispatch(QueryCmd(args)).output
    ensures db.log == old(db.log) + Dispatch(QueryCmd(args)).calls
  {
    var QueryArgs(filter, name, sort) := args;
    if name.Some? && name.value != "" && sort.Some? {
      db.EnsureIndex(name.value, sort.value, filter);
      out := Message("created index " + name.value);
    } else if sort.Some? {
      var answer := db.QuerySort(filter, sort.value);
      out := Result(answer);
    } else {
      var answer := db.Query(filter);
      out := Result(answer);
    }
  }

  /** The action of whichever command parser succeeded. */
  method Perform(db: Triplestore, c: Command) returns (out: Output)
    modifies db
    ensures out == Dispatch(c).output
    ensures db.log == old(db.log) + Dispatch(c).calls
  {
    match c {
      case SetCmd(facts) =>
        out := SetAction(db, facts);
      case RemoveCmd(facts) =>
        out := RemoveAction(db, facts);
      case QueryCmd(args) =>
        out := QueryAction(db, args);
      case ScanCmd(args) =>
        var answer := db.ScanIndex(args);
        out := Result(answer);
    }
  }

  /** `evaluate(db, input)` */
  method Evaluate(db: Triplestore, input: string) returns (out: Output)
    modifies db
    ensures out == EvaluateSpec(input).output
    ensures db.log == old(db.log) + EvaluateSpec(input).calls
  {
    var line := Trim(input);
    if line == [] || line[0] == '#' {
      return NoOutput;
    }
    if line == "help" {
      return HelpText;
    }
    var parsed := Program(line);
    assert EvaluateSpec(input) == Outcome(line, parsed);
    if parsed.Fail? {
      return Message(ParseFailure);
    }
    var value := Perform(db, parsed.value);
    if parsed.pos != |line| {
      return Message(ParseFailure);
    }
    return value;
  }
}
