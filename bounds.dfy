/**
  What the bound tokens of `scan` mean (src/repl.ts, lines 131-175): which
  key each token sets, and the record the left fold over the tokens builds.
*/
module Bounds {
  import opened Wrappers
  import opened Lexical
  import opened Parsing
  import opened Grammar

  // ----- which key a bound token sets --------------------------------------

  /** The bound operator at `i`, read greedily: `>=` and `<=` are operators
      of their own, not `>` or `<` followed by `=`. */
  function OperatorKey(s: string, i: nat): Option<Key> {
    if i >= |s| then None
    else if s[i] == '-' then Some(Reverse)
    else if s[i] == '!' then Some(Limit)
    else if s[i] == '>' then (if i + 1 < |s| && s[i + 1] == '=' then Some(Gte) else Some(Gt))
    else if s[i] == '<' then (if i + 1 < |s| && s[i + 1] == '=' then Some(Lte) else Some(Lt))
    else if s[i] == '=' then Some(Prefix)
    else None
  }

  /** No value starts with `=`, and no blank is skipped before it. */
  lemma {:induction false} NoTupleAtEquals(s: string, j: nat)
    ensures j < |s| && s[j] == '=' ==> OptWhitespace(s, j) == j && PValue(s, j).Fail? && PTuple(s, j).Fail?
  {
    if j < |s| && s[j] == '=' {
      assert NumberTokenEnd(s, j) == j;
    }
  }

  /** An entry of the table does not match where its operator does not start. */
  lemma {:induction false} OperatorAbsent(op: string, key: Key, s: string, i: nat)
    ensures op != [] && (i >= |s| || s[i] != op[0]) ==> PComparison(op, key, s, i).Fail?
  {
    if op != [] {
      LitStarts(op, s, i);
    }
  }

  /** An entry of the table does not match where `=` follows its operator:
      no tuple starts there. */
  lemma {:induction false} EqualsAfterOperator(op: string, key: Key, s: string, i: nat)
    ensures i + |op| < |s| && s[i + |op|] == '=' ==> PComparison(op, key, s, i).Fail?
  {
    NoTupleAtEquals(s, i + |op|);
  }

  /** No comparison matches where no operator starts. */
  lemma {:induction false} NoComparison(s: string, i: nat)
    ensures (i >= |s| || (s[i] != '>' && s[i] != '<' && s[i] != '=')) ==> PComparisons(s, i).Fail?
  {
    OperatorAbsent(">", Gt, s, i);
    OperatorAbsent(">=", Gte, s, i);
    OperatorAbsent("<", Lt, s, i);
    OperatorAbsent("<=", Lte, s, i);
    OperatorAbsent("=", Prefix, s, i);
  }

  /** Where the character at `i` is neither `-` nor `!`, only the
      comparisons are left. */
  lemma {:induction false} BoundIsComparison(s: string, i: nat)
    requires i >= |s| || (s[i] != '-' && s[i] != '!')
    ensures PBound(s, i) == PComparisons(s, i)
  {
    LitStarts("-", s, i);
    LitStarts("!", s, i);
  }

  /** `>=` sets the lower bound with equality: `>` is tried first but fails,
      as no tuple starts with `=`. */
  lemma {:induction false} GreaterEqualKey(s: string, i: nat)
    requires i + 1 < |s| && s[i] == '>' && s[i + 1] == '='
    ensures PComparisons(s, i).Ok? ==> PComparisons(s, i).value.key == Gte
  {
    EqualsAfterOperator(">", Gt, s, i);
    OperatorAbsent("<", Lt, s, i);
    OperatorAbsent("<=", Lte, s, i);
    OperatorAbsent("=", Prefix, s, i);
  }

  /** `>` not followed by `=` sets the strict lower bound. */
  lemma {:induction false} GreaterKey(s: string, i: nat)
    requires i < |s| && s[i] == '>' && !(i + 1 < |s| && s[i + 1] == '=')
    ensures PComparisons(s, i).Ok? ==> PComparisons(s, i).value.key == Gt
  {
    LitStarts(">=", s, i);
    OperatorAbsent("<", Lt, s, i);
    OperatorAbsent("<=", Lte, s, i);
    OperatorAbsent("=", Prefix, s, i);
  }

  /** `<=` sets the upper bound with equality: `<` is tried first but fails. */
  lemma {:induction false} LessEqualKey(s: string, i: nat)
    requires i + 1 < |s| && s[i] == '<' && s[i + 1] == '='
    ensures PComparisons(s, i).Ok? ==> PComparisons(s, i).value.key == Lte
  {
    OperatorAbsent(">", Gt, s, i);
    OperatorAbsent(">=", Gte, s, i);
    EqualsAfterOperator("<", Lt, s, i);
    OperatorAbsent("=", Prefix, s, i);
  }

  /** `<` not followed by `=` sets the strict upper bound. */
  lemma {:induction false} LessKey(s: string, i: nat)
    requires i < |s| && s[i] == '<' && !(i + 1 < |s| && s[i + 1] == '=')
    ensures PComparisons(s, i).Ok? ==> PComparisons(s, i).value.key == Lt
  {
    OperatorAbsent(">", Gt, s, i);
    OperatorAbsent(">=", Gte, s, i);
    LitStarts("<=", s, i);
    OperatorAbsent("=", Prefix, s, i);
  }

  /** After `=`: the prefix key. */
  lemma {:induction false} EqualsKey(s: string, i: nat)
    requires i < |s| && s[i] == '='
    ensures PComparisons(s, i).Ok? ==> PComparisons(s, i).value.key == Prefix
  {
    OperatorAbsent(">", Gt, s, i);
    OperatorAbsent(">=", Gte, s, i);
    OperatorAbsent("<", Lt, s, i);
    OperatorAbsent("<=", Lte, s, i);
  }

  /** The key a bound token sets is the greedily read operator at its start:
      `-` reverses, `!` limits, `>=` and `<=` win over `>` and `<` even though
      those are tried first, and nothing else starts a bound. */
  lemma {:induction false} BoundKeyIsOperator(s: string, i: nat)
    ensures PBound(s, i).Ok? ==> OperatorKey(s, i) == Some(PBound(s, i).value.key)
    ensures OperatorKey(s, i).None? ==> PBound(s, i).Fail?
  {
    if i < |s| && s[i] == '-' {
    } else if i < |s| && s[i] == '!' {
      NoComparison(s, i);
    } else {
      BoundIsComparison(s, i);
      if i >= |s| {
        NoComparison(s, i);
      } else if s[i] == '>' && i + 1 < |s| && s[i + 1] == '=' {
        GreaterEqualKey(s, i);
      } else if s[i] == '>' {
        GreaterKey(s, i);
      } else if s[i] == '<' && i + 1 < |s| && s[i + 1] == '=' {
        LessEqualKey(s, i);
      } else if s[i] == '<' {
        LessKey(s, i);
      } else if s[i] == '=' {
        EqualsKey(s, i);
      } else {
        NoComparison(s, i);
      }
    }
  }

  // ----- the fold over the bound tokens ------------------------------------

  /** The keys the tokens of `bs` set. */
  function KeysOf(bs: seq<Bound>): set<Key> {
    set n | 0 <= n < |bs| :: bs[n].key
  }

  /** Token `n` is the last one of `bs` with its key. */
  predicate LastOfKey(bs: seq<Bound>, n: nat) {
    n < |bs| && forall m :: n < m < |bs| ==> bs[m].key != bs[n].key
  }

  /** The keys of a non-empty list: those of its first token and of the rest. */
  lemma {:induction false} KeysOfFirst(bs: seq<Bound>)
    requires bs != []
    ensures KeysOf(bs) == {bs[0].key} + KeysOf(bs[1..])
  {
    var rest := bs[1..];
    forall k | k in KeysOf(bs) ensures k in {bs[0].key} + KeysOf(rest) {
      var n :| 0 <= n < |bs| && bs[n].key == k;
      if n > 0 {
        assert rest[n - 1].key == k;
      }
    }
    forall k | k in KeysOf(rest) ensures k in KeysOf(bs) {
      var n :| 0 <= n < |rest| && rest[n].key == k;
      assert bs[n + 1].key == k;
    }
  }

  /** The last token with a key is either the first one, whose key no later
      token sets, or the last one with that key among the rest. */
  lemma {:induction false} LastOfKeyFirst(bs: seq<Bound>, n: nat)
    requires bs != [] && LastOfKey(bs, n)
    ensures n == 0 ==> bs[0].key !in KeysOf(bs[1..])
    ensures n > 0 ==> LastOfKey(bs[1..], n - 1)
  {
    var rest := bs[1..];
    if n == 0 {
      forall m | 0 <= m < |rest| ensures rest[m].key != bs[0].key {
        assert rest[m] == bs[m + 1];
      }
    } else {
      forall m | n - 1 < m < |rest| ensures rest[m].key != rest[n - 1].key {
        assert bs[m + 1].key != bs[n].key;
      }
    }
  }

  /** The left fold of `{...a, ...b}`: the index is kept, the keys are those
      of the accumulator and of the tokens, the last token with a key decides
      its value, and a key no token sets keeps the accumulator's value. */
  lemma {:induction false} FoldLastWins(acc: ScanArgs, bs: seq<Bound>)
    ensures FoldBounds(acc, bs).index == acc.index
    ensures FoldBounds(acc, bs).bounds.Keys == acc.bounds.Keys + KeysOf(bs)
    ensures forall n: nat :: LastOfKey(bs, n) ==> FoldBounds(acc, bs).bounds[bs[n].key] == bs[n].arg
    ensures forall k :: k in acc.bounds && k !in KeysOf(bs) ==> FoldBounds(acc, bs).bounds[k] == acc.bounds[k]
    decreases |bs|
  {
    if bs != [] {
      var next, rest := Merge(acc, bs[0]), bs[1..];
      FoldLastWins(next, rest);
      assert FoldBounds(acc, bs) == FoldBounds(next, rest);
      KeysOfFirst(bs);
      forall n: nat | LastOfKey(bs, n) ensures FoldBounds(acc, bs).bounds[bs[n].key] == bs[n].arg {
        LastOfKeyFirst(bs, n);
      }
    }
  }

  /** What `pScan` hands to the store: the index it names, exactly the keys
      its tokens set, each with the value of the last token setting it; with
      no tokens, just `{index}`. */
  lemma {:induction false} ScanFoldSpec(index: string, bs: seq<Bound>)
    ensures ScanFold(index, bs).index == index
    ensures ScanFold(index, bs).bounds.Keys == KeysOf(bs)
    ensures forall n: nat :: LastOfKey(bs, n) ==> ScanFold(index, bs).bounds[bs[n].key] == bs[n].arg
    ensures bs == [] ==> ScanFold(index, bs) == ScanArgs(index, map[])
  {
    FoldLastWins(ScanArgs(index, map[]), bs);
  }

  /** The bound tokens `pScan` reads after the index name. */
  function ScanTokens(s: string, i: nat): seq<Bound>
    requires Keyword("scan", s, i).Ok? && PString(s, Keyword("scan", s, i).pos).Ok?
  {
    SepBy(PBound, Whitespace, s, OptWhitespace(s, PString(s, Keyword("scan", s, i).pos).pos)).value
  }

  /** The record `pScan` returns on any input: the index it names, exactly
      the keys its bound tokens set, each with the value of the last token
      setting it, and just `{index}` when no token follows the name. */
  lemma {:induction false} ScanRecord(s: string, i: nat)
    ensures PScan(s, i).Ok? ==>
      var r := PScan(s, i).value;
      var bs := ScanTokens(s, i);
      r.index == PString(s, Keyword("scan", s, i).pos).value &&
      r.bounds.Keys == KeysOf(bs) &&
      (forall n: nat :: LastOfKey(bs, n) ==> r.bounds[bs[n].key] == bs[n].arg) &&
      (bs == [] ==> r.bounds == map[])
  {
    if PScan(s, i).Ok? {
      ScanFoldSpec(PString(s, Keyword("scan", s, i).pos).value, ScanTokens(s, i));
    }
  }
}
