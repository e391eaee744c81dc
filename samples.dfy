/**
  Single inputs through the lexical and bound parsers of src/repl.ts, the
  edge cases of each written out.
*/
module Samples {
  import opened Wrappers
  import opened Lexical
  import opened Parsing
  import opened Grammar
  import opened Printer
  import opened Scanning

  /** `pValue` tries a number first: the digits are a number and the rest
      of the word is left over. */
  lemma {:induction false} NumberBeforeWord()
    ensures PValue("12abc", 0) == Ok(Num(Float("12")), 2)
  {
    var s := "12abc";
    assert IsNumberToken("12") by { assert IsNumberChar("12"[0]) && IsNumberChar("12"[1]); }
    assert s[0..2] == "12";
    NumberAt(s, 0, Float("12"));
  }

  /** A word starting with `e` is a number token that does not parse as a
      float, so `pValue` reads it as a string. */
  lemma {:induction false} WordStartingWithExponent()
    ensures PValue("eve", 0) == Ok(Str("eve"), 3)
  {
    var s := "eve";
    assert IsNumberToken("e") by { assert IsNumberChar("e"[0]); }
    assert s[0..1] == "e";
    NumberTokenAt(s, 0, "e");
    SpanUnique(s, 1, 3, IsIdentChar);
    assert s[0..3] == "eve";
  }

  /** The number token is read greedily and only its prefix needs to be a
      float: `1.2.3e` is accepted whole. */
  lemma {:induction false} LaxNumber()
    ensures PNumber("1.2.3e", 0) == Ok(Float("1.2.3e"), 6)
  {
    var s := "1.2.3e";
    assert IsNumberToken(s) by {
      forall k | 0 <= k < |s| ensures IsNumberChar(s[k]) {
      }
    }
    assert s[0..6] == s;
    NumberAt(s, 0, Float(s));
  }

  /** `!` takes any number, negative and fractional ones included. */
  lemma {:induction false} AnyLimit()
    ensures PBound("!-1.5", 0) == Ok(Bound(Limit, Count(Float("-1.5"))), 5)
  {
    var s, t := "!-1.5", "-1.5";
    assert IsNumberToken(t) by {
      assert t[1..] == "1.5";
      forall k | 0 <= k < 3 ensures IsNumberChar(t[1..][k]) {
      }
    }
    assert s[0..1] == "!" && s[1..5] == t;
    NumberAt(s, 1, Float(t));
  }

  /** `>=` is read as one operator although `>` is tried before it. */
  lemma {:induction false} GreaterEqualOperator()
    ensures PBound(">=1", 0) == Ok(Bound(Gte, Tuple([Plain(Num(Float("1")))])), 3)
  {
    var s, items := ">=1", [Plain(Num(Float("1")))];
    assert IsNumberToken("1") by { assert IsNumberChar("1"[0]); }
    assert PrintTuple(items) == "1";
    assert s[0..2] == ">=" && s[2..3] == "1";
    TupleBoundAt(s, 0, Gte, items);
  }

  /** `MAX` in a tuple is the store's sentinel, not the string. */
  lemma {:induction false} MaxInTuple()
    ensures PTuple("MAX", 0) == Ok([MaxSentinel], 3)
  {
    var s := "MAX";
    assert IsIdentifier(s) by { assert IsLetter(s[0]); }
    assert PrintTuple([MaxSentinel]) == s;
    assert s[0..3] == s;
    TupleAt(s, 0, [MaxSentinel]);
  }
}
