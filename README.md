# triplestore-repl query front end, in Dafny

This project models the query language of the triplestore REPL
(`src/repl.ts`) and proves properties of that model. The model covers the
parser-combinator grammar that turns one line of text into a command, and
`evaluate`, which runs that command against a triplestore. Each line is
one of:

- `set` or `remove` with one or more facts;
- `filter`, with an optional `| sort` or `| index` stage;
- `scan` with bound tokens;
- a comment, a blank line or `help`.

Parsers are total functions from a text and a position to a reply
(`Fail`, or `Ok(value, position)`). They follow the Parsimmon combinators
the source uses:

- `alt` takes the first alternative that succeeds;
- `sepBy1` reads one item and then as many separator + item pairs as follow;
- `whitespace` needs at least one whitespace character, while
  `optWhitespace` accepts none;
- `parse` requires the whole input to be read.

The store is a class whose `log` records every call, in order. Its
answers are opaque values.

Modules, in dependency order:

- `Wrappers` holds `Option`.
- `Lexical` holds the character classes, `Span` and `trim`.
- `Parsing` (combinators.dfy) holds `Reply`, `string`, `alt`, `whitespace` and `sepBy1`/`sepBy`.
- `Quoting` holds `between`, both as the source's loop and as a function.
- `Grammar` holds every parser of the file.
- `Store` holds the logged triplestore and its transactions.
- `Repl` holds `evaluate`.
- `Printer` writes values, facts, filters and query clauses, and proves they read back.
- `Bounds` says which key a bound token sets and what the fold builds.
- `Scanning` writes tuples, bound tokens and `scan` lines, and proves they read back.
- `Lines` follows whole lines through `evaluate`.
- `Samples` holds single inputs for the edge cases.

The round-trip lemmas follow one pattern. A printing function writes a
value as the language expects it, with single blanks. `Reads(p, x, w,
stop)` says that wherever the text `w` is placed, followed by a character
from `stop` or by the end of the line, the parser `p` reads exactly `x`
and all of `w`. On top of this, the `Lines` lemmas compute `evaluate` on
whole printed lines: the result, and the exact calls the store receives.

Behaviour of the code that is easy to misread, which the model keeps:

- `pNumber` accepts any token of `-?[0-9.e]+` that `parseFloat` does not
  turn into NaN. That is a token whose first character after an optional
  minus sign is a digit, or a point followed by a digit. `parseFloat`
  reads the longest valid prefix, so `1.2.3e` is accepted whole (see
  `Samples.LaxNumber`).
- The comparison alternatives of `pBound` are tried in the insertion
  order of the `bounds` object: `>`, `>=`, `<`, `<=` and then `=`, so
  `>` is tried before `>=`. `>=` is still read as `gte`, because after
  `>` a tuple would have to start with `=`, and no value does. The model
  keeps the code's order and proves the outcome
  (`Bounds.GreaterEqualKey`, `Bounds.BoundKeyIsOperator`).
- The store is called inside the `.map` callbacks, as soon as a command
  parser accepts a prefix of the line. Whether the whole line was
  read is decided only afterwards. So `set a b c d` sets and commits one fact and then
  answers `Failed to parse.` (`Lines.SetTrailing`, `Lines.QueryTrailing`).
- `if (name && sort)` treats the empty name of `index ""` as false.
  Such a query runs `querySort` and creates no index
  (`Lines.EmptyIndexName`).

## Model

| member | source | states |
|---|---|---|
| Lexical.Trim | src/repl.ts:207 | the trimmed line neither starts nor ends with whitespace |
| Lexical.TrimPadded | src/repl.ts:207 | trimming whitespace around a text that neither starts nor ends with whitespace gives exactly that text |
| Lexical.TrimEmpty | src/repl.ts:207-208 | the trimmed input is empty exactly when every character is whitespace |
| Lexical.TrimFirst | src/repl.ts:207-208 | the trimmed input starts with the first character that is not whitespace |
| Lexical.Decimal | src/repl.ts:183 | a count is rendered as a non-empty run of decimal digits |
| Lexical.DecimalValue | src/repl.ts:183 | the digits `${n}` renders denote `n`, with no leading zero unless `n` is zero |
| Quoting.ClosingQuote | src/repl.ts:11-20 | the scan, stepping over backslash + quote pairs, stops only at a quote inside the input |
| Quoting.Quoted | src/repl.ts:7-24 | `between` as a parser: a success reads at least the opening quote and stays within the input; its full meaning is stated by `Quoting.QuotedSpec` |
| Quoting.Unescape | src/repl.ts:16 | the decoded body is never longer than the raw one; `Quoting.UnescapeEscape` and `Quoting.UnescapePlain` state what it decodes |
| Quoting.Between | src/repl.ts:7-24 | the source's `while` loop returns exactly what `Quoted` specifies: failure unless there is a quote at `i`, else the unescaped body and the position after the closing quote, or failure when none is found |
| Quoting.ClosingQuoteIsFirstUnescaped | src/repl.ts:12-19 | the scan stops at the first quote not taken by a preceding backslash, and finds nothing exactly when there is no such quote |
| Quoting.QuotedSpec | src/repl.ts:10-21 | `between` succeeds iff there is a quote at `i` and an unescaped quote after it; it then ends one past that quote and yields the body with every `\"` replaced by `"` |
| Quoting.UnescapeEscape | src/repl.ts:16 | decoding undoes escaping for every text |
| Quoting.UnescapePlain | src/repl.ts:16 | a body without a backslash + quote pair is returned unchanged |
| Quoting.QuotedRoundTrip | src/repl.ts:7-24 | a text written as a quoted literal (not ending in a backslash) is read back exactly, ending just after the literal |
| Grammar.Identifier | src/repl.ts:27 | succeeds iff a letter is at `i`; yields the maximal identifier run, and the next character cannot continue it |
| Grammar.PString | src/repl.ts:26-29 | succeeds iff an identifier starts at `i` or a quoted literal there is closed |
| Grammar.NumberTokenEnd | src/repl.ts:31 | the end of the longest match of `-?[0-9.e]+`, which is empty exactly when no digit, point or `e` starts there after an optional `-` |
| Grammar.ParseFloat | src/repl.ts:32-33 | NaN exactly when the token has no float prefix |
| Grammar.PNumber | src/repl.ts:31-35 | succeeds iff the longest number token is non-empty and not NaN; the value is that token and the position is its end |
| Grammar.PValue | src/repl.ts:38 | a number whenever `pNumber` succeeds; a string only when `pNumber` fails and `pString` succeeds; fails iff both fail |
| Grammar.PVar | src/repl.ts:44-46 | succeeds iff `?` and a letter are at `i`; the name is the maximal identifier run after the `?` |
| Grammar.Keyword | src/repl.ts:59-60 | a keyword is read iff its text is there and at least one whitespace character follows |
| Grammar.PTriple | src/repl.ts:48-54 | a triple is three items read in input order; each of the first two is followed by at least one whitespace character, and the next item is read after the whole whitespace run |
| Grammar.TripleNeedsWhitespace | src/repl.ts:48-54 | two items with no whitespace between them, in either gap, do not form a triple |
| Grammar.PFact | src/repl.ts:56 | a fact reads a non-empty part of the input; `Printer.FactReads` states that a printed fact is read back as itself |
| Grammar.PFacts | src/repl.ts:58-61 | the fact list holds at least one fact and reads a non-empty part of the input; `Printer.FactsReads` states the contents and order |
| Grammar.PFactCommand | src/repl.ts:58-66 | `set`/`remove` need their keyword and whitespace and yield at least one fact |
| Grammar.PTerm | src/repl.ts:68 | a term is a variable exactly when `pVar` succeeds, so variables are tried first |
| Grammar.PExpression | src/repl.ts:68 | an expression reads a non-empty part of the input; `Printer.ExpressionReads` states its three terms |
| Grammar.PAndExpression | src/repl.ts:69 | an AND-list holds at least one expression; `Printer.ConjunctionReads` states the contents and order |
| Grammar.POrExpression | src/repl.ts:70 | an OR-list holds at least one AND-list; `Printer.FilterReads` states the contents and order |
| Grammar.SlotOf | src/repl.ts:80 | a slot is `{var: name}` exactly for a variable, with the name kept, and otherwise `{value: v}` |
| Grammar.FilterOf | src/repl.ts:76-84 | the OR-list and every AND-list keep their length and order, and each expression is mapped slot by slot |
| Grammar.PFilter | src/repl.ts:72-84 | a filter needs `filter` and whitespace and has at least one AND-list |
| Grammar.PQuery | src/repl.ts:115-121 | succeeds iff `pFilter` does, with its filter; a name only comes with a non-empty sort |
| Grammar.PSort | src/repl.ts:86-93 | a sort clause yields at least one variable; `Printer.SortClauseReads` states that a printed clause is read back as its variables in order |
| Grammar.PIndex | src/repl.ts:95-105 | an index clause yields at least one variable; `Printer.IndexClauseReads` states that a printed clause is read back as its name and variables |
| Grammar.IndexShape | src/repl.ts:95-105 | the name is what `pString` reads after `index` and whitespace; whitespace after the name is mandatory, and the first variable is read after all of it |
| Grammar.PPipe | src/repl.ts:107 | a pipe reads a non-empty part of the input |
| Grammar.PipeShape | src/repl.ts:107 | `pPipe` succeeds exactly when whitespace, `|` and whitespace follow; it ends after the whole second whitespace run |
| Grammar.Sentinel | src/repl.ts:124-128 | the string `MAX` becomes the MAX sentinel and `MIN` the MIN sentinel, exactly those; every other value is kept |
| Grammar.PTuple | src/repl.ts:123-129 | succeeds iff the values do; same length and position, each item mapped through `Sentinel` |
| Grammar.PComparison | src/repl.ts:155-161 | on success the operator is in place and the bound has the entry's key and a non-empty tuple |
| Grammar.PComparisons | src/repl.ts:131-137 | a comparison token sets one of `gt`, `gte`, `lt`, `lte`, `prefix`, with a non-empty tuple |
| Grammar.PBound | src/repl.ts:139-162 | `reverse` is always `true`, `limit` carries a number, and every other key carries a tuple |
| Grammar.Merge | src/repl.ts:173 | `{...a, ...b}` keeps the index, adds `b`'s key with its value and keeps every other key |
| Grammar.FoldIndex | src/repl.ts:173 | the `reduce` over the bound records keeps the index of its start record `{index}` |
| Grammar.PScan | src/repl.ts:164-175 | a scan reads a non-empty part of the input; `Grammar.ScanHeader`, `Bounds.ScanRecord` and `Scanning.ScanLine` give the record it returns |
| Grammar.ScanHeader | src/repl.ts:164-168 | `pScan` succeeds exactly when `scan`, whitespace and an index name are read, whatever follows, and the record's index is that name |
| Grammar.Program | src/repl.ts:178-205 | a parsed command reads a non-empty prefix of the line |
| Store.Triplestore.Transact | src/repl.ts:180 | logs one `transact` and returns a transaction on this store |
| Store.Triplestore.EnsureIndex | src/repl.ts:194 | logs `ensureIndex` with the name, sort and filter |
| Store.Triplestore.QuerySort | src/repl.ts:197 | logs `querySort` with the filter and sort |
| Store.Triplestore.Query | src/repl.ts:199 | logs `query` with the filter |
| Store.Triplestore.ScanIndex | src/repl.ts:203 | logs `scanIndex` with the folded arguments |
| Store.Transaction.Set | src/repl.ts:181 | logs one `tx.set` of the fact |
| Store.Transaction.Remove | src/repl.ts:187 | logs one `tx.remove` of the fact |
| Store.Transaction.Commit | src/repl.ts:182 | logs one `commit` |
| Repl.SetCalls | src/repl.ts:181 | one `tx.set` per fact, in list order |
| Repl.RemoveCalls | src/repl.ts:187 | one `tx.remove` per fact, in list order |
| Repl.DispatchCalls | src/repl.ts:179-204 | `set` and `remove` open one transaction first, make one call per fact and commit last; a query or a scan makes exactly one call; the output is a message or a store answer |
| Repl.OutcomeCalls | src/repl.ts:260-265 | a failed parse makes no call and answers `Failed to parse.`; a parse makes its action's calls, and answers `Failed to parse.` when it stops short of the end of the line, else the action's output |
| Repl.EvaluateExits | src/repl.ts:207-213 | `undefined` exactly for a blank or `#` line, the help text exactly for `help`, and neither makes a store call |
| Repl.SetAction | src/repl.ts:179-184 | the log grows by one `transact`, a `tx.set` per fact in order and one `commit`; the output is `added N facts` |
| Repl.RemoveAction | src/repl.ts:185-190 | the log grows by one `transact`, a `tx.remove` per fact in order and one `commit`; the output is `removed N facts` |
| Repl.QueryAction | src/repl.ts:191-201 | with a non-empty name and a sort: exactly one `ensureIndex` and `created index <name>`; with a sort only: exactly one `querySort`; otherwise exactly one `query` |
| Repl.Perform | src/repl.ts:178-205 | exactly the action of the command that was parsed |
| Repl.Evaluate | src/repl.ts:177-266 | output and new log are those of `EvaluateSpec`: trim; blank or `#` gives `undefined` with no call; `help` gives the help text; otherwise the first command parser that succeeds runs its action, and the output is `Failed to parse.` when no parser succeeds or the line was not read in full |
| Printer.StringAt | src/repl.ts:26-29 | a printed string is read back by `pString`, and never as a number |
| Printer.NoNumberAtLetter | src/repl.ts:31-35 | no number is read at a letter, although `e` can start a number token |
| Printer.ValueReads | src/repl.ts:38 | every printed value is read back by `pValue` before a delimiter |
| Printer.VarReads | src/repl.ts:44-46 | a printed `?name` is read back by `pVar`, and as a variable term |
| Printer.TripleReads | src/repl.ts:48-54 | three printed items separated by blanks are read back as one triple, in order |
| Printer.FactReads | src/repl.ts:56 | a printed fact is read back as that fact |
| Printer.FactsReads | src/repl.ts:58-66 | a printed comma-separated fact list is read back in full and in order |
| Printer.ExpressionReads | src/repl.ts:68 | a printed expression is read back as its three terms in order |
| Printer.ConjunctionReads | src/repl.ts:69 | a printed AND-list is read back in full and in order |
| Printer.FilterReads | src/repl.ts:70 | a printed OR-list is read back in full and in order |
| Printer.FilterOfTerms | src/repl.ts:76-84 | mapping the terms of a filter back to slot records gives the same filter |
| Printer.FilterClauseReads | src/repl.ts:72-84 | a printed `filter` clause is read back as its filter |
| Printer.PipeAt | src/repl.ts:107 | a blank, `|` and a blank are read by `pPipe` |
| Printer.SortNeedsS | src/repl.ts:117 | the sort alternative fails where no `s` is |
| Printer.SortClauseReads | src/repl.ts:86-93 | a printed `sort` clause is read back as its variables in order |
| Printer.IndexClauseReads | src/repl.ts:95-105 | a printed `index` clause is read back as its name and variables |
| Bounds.NoTupleAtEquals | src/repl.ts:123 | no tuple starts with `=` |
| Bounds.OperatorAbsent | src/repl.ts:155-161 | a table entry fails where its operator is not |
| Bounds.EqualsAfterOperator | src/repl.ts:155-161 | a table entry fails where `=` follows its operator |
| Bounds.NoComparison | src/repl.ts:131-137 | no comparison is read where no operator starts |
| Bounds.BoundIsComparison | src/repl.ts:150-155 | without `-` or `!`, only the comparisons are left |
| Bounds.GreaterEqualKey | src/repl.ts:131-137 | `>=` sets `gte`, although `>` is tried first |
| Bounds.GreaterKey | src/repl.ts:131-137 | `>` not followed by `=` sets `gt` |
| Bounds.LessEqualKey | src/repl.ts:131-137 | `<=` sets `lte`, although `<` is tried first |
| Bounds.LessKey | src/repl.ts:131-137 | `<` not followed by `=` sets `lt` |
| Bounds.EqualsKey | src/repl.ts:131-137 | `=` sets `prefix` |
| Bounds.BoundKeyIsOperator | src/repl.ts:139-162 | a bound token sets the key of the operator read greedily at its start (`-` reverse, `!` limit, `>=`, `>`, `<=`, `<`, `=`), and without an operator there is no bound |
| Bounds.FoldLastWins | src/repl.ts:173 | the left fold `FoldBounds` keeps the index; its keys are those of the start record and the tokens; the last token with a key decides its value; a key no token sets keeps its value |
| Bounds.ScanFoldSpec | src/repl.ts:164-175 | `ScanFold`, the record `pScan` builds, has the parsed index, exactly the keys the tokens set, each from the last token setting it, and is exactly `{index}` with no tokens |
| Bounds.ScanRecord | src/repl.ts:164-175 | on any input, `pScan`'s record has the parsed index name and exactly the keys its bound tokens set, each from the last token setting it, and no keys when no token follows |
| Scanning.ItemValue | src/repl.ts:124-128 | a writable tuple item is written as a value that `pTuple` maps back to the same item |
| Scanning.TupleAt | src/repl.ts:123-129 | a printed tuple is read back item by item, in order, with `MAX`/`MIN` as sentinels |
| Scanning.ComparisonChosen | src/repl.ts:155-161 | the alternatives tried before a comparison's own entry fail, so the comparison is what `pBound` yields |
| Scanning.BoundParses | src/repl.ts:139-162 | every printed bound token (`-`, `!n`, operator and tuple) is read back by `pBound` as its bound |
| Scanning.ScanLine | src/repl.ts:164-175 | a printed `scan` line calls `scanIndex` exactly once, with the fold of its bound tokens, and returns the answer |
| Lines.PaddedLine | src/repl.ts:207 | whitespace around a line does not change what `evaluate` does |
| Lines.BlankInput | src/repl.ts:207-211 | whitespace-only input gives `undefined` and no store call |
| Lines.CommentInput | src/repl.ts:207-211 | input whose first character other than whitespace is `#` gives `undefined` and no store call |
| Lines.HelpInput | src/repl.ts:212-213 | `help` with any whitespace around it gives the help text and no store call |
| Lines.ProgramStarts | src/repl.ts:178-205 | a line any command parser accepts starts with `s`, `r` or `f` |
| Lines.UnknownCommand | src/repl.ts:260-263 | a line starting with no command letter that is not `help` gives `Failed to parse.` and no store call |
| Lines.ProgramSet | src/repl.ts:178-179 | `pSet` is tried first |
| Lines.ProgramRemove | src/repl.ts:185 | `pRemove` is tried when `pSet` fails |
| Lines.ProgramQuery | src/repl.ts:191 | `pQuery` is tried when neither fact command matches |
| Lines.SetLine | src/repl.ts:179-184 | a printed `set` line runs exactly one transaction, with every fact set in order, and answers `added N facts` |
| Lines.RemoveLine | src/repl.ts:185-190 | a printed `remove` line runs exactly one transaction, with every fact removed in order, and answers `removed N facts` |
| Lines.TrailingLine | src/repl.ts:260-263 | when a command stops short of the end of a line, its store calls are still made and the output is `Failed to parse.` |
| Lines.SetTrailing | src/repl.ts:260-263 | with text after a complete `set` command, the facts are still set and committed, and the answer is `Failed to parse.` |
| Lines.QuerySorted | src/repl.ts:117 | the `| sort` branch is tried first |
| Lines.QueryIndexed | src/repl.ts:118 | the `| index` branch is taken when the sort branch fails |
| Lines.QueryFallback | src/repl.ts:119 | with no sort or index stage after the filter, the query is the filter alone and stops before the pipe |
| Lines.QueryTrailing | src/repl.ts:260-263 | after a pipe with neither stage, `query` still runs on the filter, and the answer is `Failed to parse.` |
| Lines.FilterLine | src/repl.ts:198-199 | a printed `filter` line calls exactly `query` with the filter |
| Lines.SortLine | src/repl.ts:196-197 | a `filter ... \| sort ...` line calls exactly `querySort` with the filter and variables |
| Lines.IndexLine | src/repl.ts:193-197 | a `filter ... \| index ...` line gets the query action with both name and sort |
| Lines.NamedIndex | src/repl.ts:193-195 | with a non-empty name, the index line calls exactly `ensureIndex` and answers `created index <name>` |
| Lines.EmptyIndexName | src/repl.ts:193-197 | with the empty name, the index line calls `querySort` instead and creates no index |
| Samples.NumberBeforeWord | src/repl.ts:38 | `12abc` reads as the number `12`, and the rest is left over |
| Samples.WordStartingWithExponent | src/repl.ts:31-38 | `eve` is a number token that is NaN, so it reads as the string `eve` |
| Samples.LaxNumber | src/repl.ts:31-35 | `1.2.3e` is accepted whole as a number |
| Samples.AnyLimit | src/repl.ts:151-154 | `!-1.5` is a limit: any number is taken |
| Samples.GreaterEqualOperator | src/repl.ts:155-161 | `>=1` sets `gte` to the tuple `[1]` |
| Samples.MaxInTuple | src/repl.ts:125 | `MAX` in a tuple is the sentinel |

## Left out

- Parsimmon itself is not modelled. Only the semantics of the combinators the file uses are re-stated. Failure carries no position or expected-token message.
- Floating-point values are not modelled. A number is kept as the token `pNumber` read, and only whether `parseFloat` gives NaN is decided. So the `limit` and tuple numbers the store receives are lexemes, not doubles.
- The wording of the help text is not modelled: `help` yields an opaque `HelpText` output.
- The triplestore engine is not modelled: storage, indexes, query execution and errors. The store only logs calls. Its answers are opaque values naming the call, and a store error or exception is not represented.
- The round-trip lemmas write commands with single blanks. The parsers also accept other whitespace layouts, but no lemma states what those read as.
- Printer.PrintableString: a text that ends with a backslash has no quoted form, because that backslash would escape the closing quote. Such names and strings are outside the round-trip lemmas.
- Scanning.PrintableItem: the strings `MAX` and `MIN` can never be plain tuple items, because `pTuple` always turns them into sentinels. Round trips are stated for tuples without them as plain strings.
- The `Lines` lemmas use the shape every printed command has. A line not printed by `Printer`/`Scanning` is covered only through `Repl.Evaluate`, `Lines.UnknownCommand`, `Lines.BlankInput`, `Lines.CommentInput` and `Lines.HelpInput`.
- JavaScript strings are sequences of UTF-16 code units, while a Dafny `char` is a Unicode scalar value, so a lone surrogate (for example inside a quoted literal) cannot be represented in the model.
- src/components/App.tsx is not part of this model: React state and rendering, and its `JSON.stringify` wrapper.
- src/cli.ts is not part of this model: the readline input loop.
- src/index.tsx is not part of this model: DOM start-up.
- src/AppStorage.ts is not part of this model: `localStorage` persistence.
