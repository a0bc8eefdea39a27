/**
 * Sample buffers and what load makes of them, for every number lexer.
 *
 * Each sample is proved step by step: a lemma collects the facts about its
 * characters, and the one-step lemmas below combine the results of the rules
 * involved, one rule at a time.
 */
module Samples {
  import opened Options
  import opened KeyOrder
  import opened Skipper
  import opened StringGrammar
  import opened Components
  import opened JsonGrammar
  import opened GrammarProperties
  import opened Serializer

  // ---------------------------------------------------------------------
  // One-step lemmas: a rule's result from the results of its parts.
  // ---------------------------------------------------------------------

  /** A literal that does not match at i. */
  lemma NoToken(s: string, i: nat, t: string)
    requires i < |s| && |t| > 0 && !IsSpace(s[i]) && s[i] != t[0]
    ensures Literal(s, i, t) == Fail
  {
    assert SkipSpaces(s, i) == i;
  }

  /** A word at i: its first character at i, the rest right after. */
  lemma AtSplit(s: string, i: nat, q: string)
    requires At(s, i, q) && |q| > 0
    ensures i < |s| && s[i] == q[0] && At(s, i + 1, q[1..])
  {
    assert s[i] == s[i..i + |q|][0];
    assert s[i + 1..i + |q|] == s[i..i + |q|][1..];
  }

  /** A quoted string without white space inside. */
  lemma Quoted(s: string, i: nat, t: string)
    requires ValidContent(t) && At(s, i, "\"" + t + "\"")
    ensures ParseString(s, i) == Ok(t, i + |t| + 2)
  {
    var q := "\"" + t + "\"";
    AtSplit(s, i, q);
    assert q[0] == '"' && q[1..] == t + "\"";
    ContentComplete(s, i + 1, t);
    StringAt(s, i);
  }

  /** The Object of a single pair. */
  lemma OneEntry(p: Pair)
    ensures FromPairs([p]) == Object([Entry(p.name, p.value)])
  {
    assert [p][..0] == [];
  }

  /** The Object of two pairs: one entry when the names are equal, two in key order otherwise. */
  lemma TwoEntries(p: Pair, q: Pair)
    ensures p.name == q.name ==> FromPairs([p, q]) == Object([Entry(q.name, q.value)])
    ensures Less(q.name, p.name) ==> FromPairs([p, q]) == Object([Entry(q.name, q.value), Entry(p.name, p.value)])
  {
    assert [p, q][..1] == [p];
    OneEntry(p);
    var es := [Entry(p.name, p.value)];
    assert FromPairs([p, q]).entries == Put(es, q.name, q.value);
    if Less(q.name, p.name) {
      LessIrreflexive(p.name);
      assert Put(es, q.name, q.value) == [Entry(q.name, q.value)] + es;
    }
  }

  lemma PairMatch(s: string, i: nat, num: NumberLexer, t: string, k: nat, v: Component, e: nat)
    requires i <= |s| && k < |s|
    requires ParseString(s, i) == Ok(t, k)
    requires Literal(s, k, ":") == Ok((), k + 1)
    requires ParseValue(s, k + 1, num) == Ok(v, e)
    ensures ParsePair(s, i, num) == Ok(Pair(t, v), e)
  {
    var key := ParseString(s, i);
    assert key.next == k;
    var colon := Literal(s, key.next, ":");
    assert colon.next == k + 1;
    assert ParseValue(s, colon.next, num) == Ok(v, e);
  }

  lemma PairNoKey(s: string, i: nat, num: NumberLexer)
    requires i <= |s| && ParseString(s, i) == Fail
    ensures ParsePair(s, i, num) == Fail
  {
  }

  lemma PairNoValue(s: string, i: nat, num: NumberLexer, t: string, k: nat)
    requires i <= |s| && k < |s|
    requires ParseString(s, i) == Ok(t, k)
    requires Literal(s, k, ":") == Ok((), k + 1)
    requires ParseValue(s, k + 1, num) == Fail
    ensures ParsePair(s, i, num) == Fail
  {
  }

  /** A single pair that no comma follows. */
  lemma OnePair(s: string, i: nat, num: NumberLexer, p: Pair, e: nat)
    requires i <= |s| && e <= |s|
    requires ParsePair(s, i, num) == Ok(p, e)
    requires Literal(s, e, ",") == Fail
    ensures ParsePairs(s, i, num) == Ok([p], e)
  {
    assert MorePairs(s, e, num) == Ok([], e);
    assert [p] + [] == [p];
  }

  /** A pair, then a comma that no pair follows: the list ends before the comma. */
  lemma PairThenComma(s: string, i: nat, num: NumberLexer, p: Pair, e: nat)
    requires i <= |s| && e < |s|
    requires ParsePair(s, i, num) == Ok(p, e)
    requires Literal(s, e, ",") == Ok((), e + 1)
    requires ParsePair(s, e + 1, num) == Fail
    ensures ParsePairs(s, i, num) == Ok([p], e)
  {
    assert MorePairs(s, e, num) == Ok([], e);
    assert [p] + [] == [p];
  }

  /** The second and last pair of a list. */
  lemma LastPair(s: string, i: nat, num: NumberLexer, q: Pair, f: nat)
    requires i < |s| && f <= |s|
    requires Literal(s, i, ",") == Ok((), i + 1)
    requires ParsePair(s, i + 1, num) == Ok(q, f)
    requires Literal(s, f, ",") == Fail
    ensures MorePairs(s, i, num) == Ok([q], f)
  {
    assert MorePairs(s, f, num) == Ok([], f);
    assert [q] + [] == [q];
  }

  /** Two pairs separated by a comma. */
  lemma TwoPairs(s: string, i: nat, num: NumberLexer, p: Pair, e: nat, q: Pair, f: nat)
    requires i <= |s| && e < |s|
    requires ParsePair(s, i, num) == Ok(p, e)
    requires MorePairs(s, e, num) == Ok([q], f)
    ensures ParsePairs(s, i, num) == Ok([p, q], f)
  {
    assert [p] + [q] == [p, q];
  }

  lemma PairsNone(s: string, i: nat, num: NumberLexer)
    requires i <= |s| && ParsePair(s, i, num) == Fail
    ensures ParsePairs(s, i, num) == Fail
  {
  }

  lemma ObjectMatch(s: string, i: nat, num: NumberLexer, ps: seq<Pair>, f: nat)
    requires i < |s| && f < |s|
    requires Literal(s, i, "{") == Ok((), i + 1)
    requires ParsePairs(s, i + 1, num) == Ok(ps, f)
    requires Literal(s, f, "}") == Ok((), f + 1)
    ensures ParseObject(s, i, num) == Ok(FromPairs(ps), f + 1)
  {
  }

  /** The pairs parsed, but no closing brace follows them. */
  lemma ObjectUnclosed(s: string, i: nat, num: NumberLexer, ps: seq<Pair>, f: nat)
    requires i < |s| && f <= |s|
    requires Literal(s, i, "{") == Ok((), i + 1)
    requires ParsePairs(s, i + 1, num) == Ok(ps, f)
    requires Literal(s, f, "}") == Fail
    ensures ParseObject(s, i, num) == Fail
  {
  }

  /** No pair list, and no closing brace right after the opening one. */
  lemma ObjectNoPairs(s: string, i: nat, num: NumberLexer)
    requires i < |s|
    requires Literal(s, i, "{") == Ok((), i + 1)
    requires ParsePairs(s, i + 1, num) == Fail
    requires Literal(s, i + 1, "}") == Fail
    ensures ParseObject(s, i, num) == Fail
  {
  }

  lemma OneObject(s: string, i: nat, num: NumberLexer, o: Object, e: nat)
    requires i <= |s| && e <= |s|
    requires ParseObject(s, i, num) == Ok(o, e)
    requires Literal(s, e, ",") == Fail
    ensures ParseObjects(s, i, num) == Ok([o], e)
  {
    assert MoreObjects(s, e, num) == Ok([], e);
    assert [o] + [] == [o];
  }

  lemma ArrayMatch(s: string, i: nat, num: NumberLexer, os: seq<Object>, f: nat)
    requires i < |s| && f < |s|
    requires Literal(s, i, "[") == Ok((), i + 1)
    requires ParseObjects(s, i + 1, num) == Ok(os, f)
    requires Literal(s, f, "]") == Ok((), f + 1)
    ensures ParseArray(s, i, num) == Ok(Array(os), f + 1)
  {
  }

  lemma Accepted(s: string, num: NumberLexer, o: Object, e: nat)
    requires ParseObject(s, 0, num) == Ok(o, e) && SkipSpaces(s, e) == |s|
    ensures Parse(s, num) == Some(o)
  {
  }

  lemma Rejected(s: string, num: NumberLexer)
    requires ParseObject(s, 0, num) == Fail
    ensures Parse(s, num) == None
  {
  }

  /** A document holding one pair. */
  lemma OnePairDocument(s: string, num: NumberLexer, p: Pair, e: nat)
    requires 0 < |s| && e < |s|
    requires Literal(s, 0, "{") == Ok((), 1)
    requires ParsePair(s, 1, num) == Ok(p, e)
    requires Literal(s, e, ",") == Fail && Literal(s, e, "}") == Ok((), e + 1)
    requires SkipSpaces(s, e + 1) == |s|
    ensures Parse(s, num) == Some(FromPairs([p]))
  {
    OnePair(s, 1, num, p, e);
    ObjectMatch(s, 0, num, [p], e);
    Accepted(s, num, FromPairs([p]), e + 1);
  }

  /** A document holding two pairs. */
  lemma TwoPairDocument(s: string, num: NumberLexer, p: Pair, e: nat, q: Pair, f: nat)
    requires 0 < |s| && e < |s| && f < |s|
    requires Literal(s, 0, "{") == Ok((), 1)
    requires ParsePair(s, 1, num) == Ok(p, e)
    requires Literal(s, e, ",") == Ok((), e + 1)
    requires ParsePair(s, e + 1, num) == Ok(q, f)
    requires Literal(s, f, ",") == Fail && Literal(s, f, "}") == Ok((), f + 1)
    requires SkipSpaces(s, f + 1) == |s|
    ensures Parse(s, num) == Some(FromPairs([p, q]))
  {
    LastPair(s, e, num, q, f);
    TwoPairs(s, 1, num, p, e, q, f);
    ObjectMatch(s, 0, num, [p, q], f);
    Accepted(s, num, FromPairs([p, q]), f + 1);
  }

  /** A document whose first pair does not parse. */
  lemma BadPairDocument(s: string, num: NumberLexer)
    requires 1 < |s|
    requires Literal(s, 0, "{") == Ok((), 1)
    requires ParsePair(s, 1, num) == Fail
    requires Literal(s, 1, "}") == Fail
    ensures Parse(s, num) == None
  {
    assert ParsePairs(s, 1, num) == Fail by { PairsNone(s, 1, num); }
    assert ParseObject(s, 0, num) == Fail by { ObjectNoPairs(s, 0, num); }
    Rejected(s, num);
  }

  // ---------------------------------------------------------------------
  // {"a":true,"a":null}: the later of two pairs with one name wins.
  // ---------------------------------------------------------------------

  const Duplicate := "{\"a\":true,\"a\":null}"

  /** The characters of Duplicate that the parse looks at. */
  predicate DuplicateChars(s: string)
  {
    |s| == 19 && s[0] == '{' && At(s, 1, "\"a\"") && s[4] == ':' && At(s, 5, "true")
    && s[9] == ',' && At(s, 10, "\"a\"") && s[13] == ':' && At(s, 14, "null") && s[18] == '}'
  }

  /** The tokens of Duplicate, as the parse sees them. */
  predicate DuplicateTokens(s: string)
  {
    |s| == 19 && At(s, 1, "\"a\"") && At(s, 5, "true") && At(s, 10, "\"a\"") && At(s, 14, "null")
    && SkipSpaces(s, 5) == 5 && SkipSpaces(s, 14) == 14 && SkipSpaces(s, 19) == 19
    && Literal(s, 0, "{") == Ok((), 1) && Literal(s, 18, "}") == Ok((), 19)
    && Literal(s, 4, ":") == Ok((), 5) && Literal(s, 13, ":") == Ok((), 14)
    && Literal(s, 9, ",") == Ok((), 10) && Literal(s, 18, ",") == Fail
  }

  lemma DuplicateHasChars()
    ensures DuplicateChars(Duplicate)
  {
    var s := Duplicate;
    assert |s| == 19;
    assert s[0] == '{';
    assert s[4] == ':';
    assert s[9] == ',';
    assert s[13] == ':';
    assert s[18] == '}';
    assert At(s, 1, "\"a\"");
    assert At(s, 5, "true");
    assert At(s, 10, "\"a\"");
    assert At(s, 14, "null");
  }

  lemma DuplicateCharsTokens(s: string)
    requires DuplicateChars(s)
    ensures DuplicateTokens(s)
  {
    LiteralAfterSpaces(s, 0, 0, "{");
    LiteralAfterSpaces(s, 18, 18, "}");
    LiteralAfterSpaces(s, 4, 4, ":");
    LiteralAfterSpaces(s, 13, 13, ":");
    LiteralAfterSpaces(s, 9, 9, ",");
    NoToken(s, 18, ",");
  }

  lemma DuplicateFirst(s: string, num: NumberLexer)
    requires DuplicateTokens(s)
    ensures ParsePair(s, 1, num) == Ok(Pair("a", Boolean(true)), 9)
  {
    Quoted(s, 1, "a");
    ValueBool(s, 5, num, true);
    PairMatch(s, 1, num, "a", 4, Boolean(true), 9);
  }

  lemma DuplicateSecond(s: string, num: NumberLexer)
    requires DuplicateTokens(s)
    ensures ParsePair(s, 10, num) == Ok(Pair("a", Null), 18)
  {
    Quoted(s, 10, "a");
    ValueNull(s, 14, num);
    PairMatch(s, 10, num, "a", 13, Null, 18);
  }

  lemma DuplicateParse(s: string, num: NumberLexer)
    requires DuplicateTokens(s)
    ensures Parse(s, num) == Some(FromPairs([Pair("a", Boolean(true)), Pair("a", Null)]))
  {
    DuplicateFirst(s, num);
    DuplicateSecond(s, num);
    TwoPairDocument(s, num, Pair("a", Boolean(true)), 9, Pair("a", Null), 18);
  }

  /** Parsing {"a":true,"a":null} yields the single entry a: null. */
  lemma DuplicateKeyLastWins(num: NumberLexer)
    ensures Parse(Duplicate, num) == Some(Object([Entry("a", Null)]))
  {
    DuplicateHasChars();
    DuplicateCharsTokens(Duplicate);
    DuplicateParse(Duplicate, num);
    TwoEntries(Pair("a", Boolean(true)), Pair("a", Null));
  }

  // ---------------------------------------------------------------------
  // {"b":null,"a":true}: entries are kept, and printed, in key order.
  // ---------------------------------------------------------------------

  const Unordered := "{\"b\":null,\"a\":true}"

  predicate UnorderedChars(s: string)
  {
    |s| == 19 && s[0] == '{' && At(s, 1, "\"b\"") && s[4] == ':' && At(s, 5, "null")
    && s[9] == ',' && At(s, 10, "\"a\"") && s[13] == ':' && At(s, 14, "true") && s[18] == '}'
  }

  predicate UnorderedTokens(s: string)
  {
    |s| == 19 && At(s, 1, "\"b\"") && At(s, 5, "null") && At(s, 10, "\"a\"") && At(s, 14, "true")
    && SkipSpaces(s, 5) == 5 && SkipSpaces(s, 14) == 14 && SkipSpaces(s, 19) == 19
    && Literal(s, 0, "{") == Ok((), 1) && Literal(s, 18, "}") == Ok((), 19)
    && Literal(s, 4, ":") == Ok((), 5) && Literal(s, 13, ":") == Ok((), 14)
    && Literal(s, 9, ",") == Ok((), 10) && Literal(s, 18, ",") == Fail
  }

  lemma UnorderedHasChars()
    ensures UnorderedChars(Unordered)
  {
    var s := Unordered;
    assert |s| == 19;
    assert s[0] == '{';
    assert s[4] == ':';
    assert s[9] == ',';
    assert s[13] == ':';
    assert s[18] == '}';
    assert At(s, 1, "\"b\"");
    assert At(s, 5, "null");
    assert At(s, 10, "\"a\"");
    assert At(s, 14, "true");
  }

  lemma UnorderedCharsTokens(s: string)
    requires UnorderedChars(s)
    ensures UnorderedTokens(s)
  {
    LiteralAfterSpaces(s, 0, 0, "{");
    LiteralAfterSpaces(s, 18, 18, "}");
    LiteralAfterSpaces(s, 4, 4, ":");
    LiteralAfterSpaces(s, 13, 13, ":");
    LiteralAfterSpaces(s, 9, 9, ",");
    NoToken(s, 18, ",");
  }

  lemma UnorderedFirst(s: string, num: NumberLexer)
    requires UnorderedTokens(s)
    ensures ParsePair(s, 1, num) == Ok(Pair("b", Null), 9)
  {
    Quoted(s, 1, "b");
    ValueNull(s, 5, num);
    PairMatch(s, 1, num, "b", 4, Null, 9);
  }

  lemma UnorderedSecond(s: string, num: NumberLexer)
    requires UnorderedTokens(s)
    ensures ParsePair(s, 10, num) == Ok(Pair("a", Boolean(true)), 18)
  {
    Quoted(s, 10, "a");
    ValueBool(s, 14, num, true);
    PairMatch(s, 10, num, "a", 13, Boolean(true), 18);
  }

  lemma UnorderedParse(s: string, num: NumberLexer)
    requires UnorderedTokens(s)
    ensures Parse(s, num) == Some(FromPairs([Pair("b", Null), Pair("a", Boolean(true))]))
  {
    UnorderedFirst(s, num);
    UnorderedSecond(s, num);
    TwoPairDocument(s, num, Pair("b", Null), 9, Pair("a", Boolean(true)), 18);
  }

  /** Parsing {"b":null,"a":true} yields the entries a: true and b: null, in that order. */
  lemma UnorderedKeysSorted(num: NumberLexer)
    ensures Parse(Unordered, num) == Some(Object([Entry("a", Boolean(true)), Entry("b", Null)]))
  {
    UnorderedHasChars();
    UnorderedCharsTokens(Unordered);
    UnorderedParse(Unordered, num);
    assert Less("a", "b");
    TwoEntries(Pair("b", Null), Pair("a", Boolean(true)));
  }

  /** That object prints as {a:1,b:null}: keys in order, true as 1, no quotes. */
  lemma UnorderedPrinted(fmt: Double -> string)
    ensures Show(ObjectValue(Object([Entry("a", Boolean(true)), Entry("b", Null)])), fmt) == "{a:1,b:null}"
  {
    var items := EntryItems([Entry("a", Boolean(true)), Entry("b", Null)], fmt);
    assert items[0] == "a:1" by { assert ShowEntry(Entry("a", Boolean(true)), fmt) == "a" + ":" + "1"; }
    assert items[1] == "b:null" by { assert ShowEntry(Entry("b", Null), fmt) == "b" + ":" + "null"; }
    assert Join(items[..1]) == "a:1";
    assert Join(items) == "a:1" + "," + "b:null";
  }

  // ---------------------------------------------------------------------
  // {"x":[{"y":null}]}: an array of objects as a value.
  // ---------------------------------------------------------------------

  const Nested := "{\"x\":[{\"y\":null}]}"

  predicate NestedChars(s: string)
  {
    |s| == 18 && s[0] == '{' && At(s, 1, "\"x\"") && s[4] == ':' && s[5] == '[' && s[6] == '{'
    && At(s, 7, "\"y\"") && s[10] == ':' && At(s, 11, "null") && s[15] == '}' && s[16] == ']' && s[17] == '}'
  }

  predicate NestedTokens(s: string)
  {
    |s| == 18 && At(s, 1, "\"x\"") && At(s, 7, "\"y\"") && At(s, 11, "null")
    && SkipSpaces(s, 11) == 11 && SkipSpaces(s, 18) == 18 && NextIs(s, 5, '[')
    && Literal(s, 0, "{") == Ok((), 1) && Literal(s, 4, ":") == Ok((), 5)
    && Literal(s, 5, "[") == Ok((), 6) && Literal(s, 6, "{") == Ok((), 7)
    && Literal(s, 10, ":") == Ok((), 11)
    && Literal(s, 15, ",") == Fail && Literal(s, 15, "}") == Ok((), 16)
    && Literal(s, 16, ",") == Fail && Literal(s, 16, "]") == Ok((), 17)
    && Literal(s, 17, ",") == Fail && Literal(s, 17, "}") == Ok((), 18)
  }

  lemma NestedHasChars()
    ensures NestedChars(Nested)
  {
    var s := Nested;
    assert |s| == 18;
    assert s[0] == '{';
    assert s[4] == ':';
    assert s[5] == '[';
    assert s[6] == '{';
    assert s[10] == ':';
    assert s[15] == '}';
    assert s[16] == ']';
    assert s[17] == '}';
    assert At(s, 1, "\"x\"");
    assert At(s, 7, "\"y\"");
    assert At(s, 11, "null");
  }

  lemma NestedCharsTokens(s: string)
    requires NestedChars(s)
    ensures NestedTokens(s)
  {
    assert SkipSpaces(s, 5) == 5;
    LiteralAfterSpaces(s, 0, 0, "{");
    LiteralAfterSpaces(s, 4, 4, ":");
    LiteralAfterSpaces(s, 5, 5, "[");
    LiteralAfterSpaces(s, 6, 6, "{");
    LiteralAfterSpaces(s, 10, 10, ":");
    NoToken(s, 15, ",");
    LiteralAfterSpaces(s, 15, 15, "}");
    NoToken(s, 16, ",");
    LiteralAfterSpaces(s, 16, 16, "]");
    NoToken(s, 17, ",");
    LiteralAfterSpaces(s, 17, 17, "}");
  }

  lemma NestedInner(s: string, num: NumberLexer)
    requires NestedTokens(s)
    ensures ParseObject(s, 6, num) == Ok(FromPairs([Pair("y", Null)]), 16)
  {
    Quoted(s, 7, "y");
    ValueNull(s, 11, num);
    PairMatch(s, 7, num, "y", 10, Null, 15);
    OnePair(s, 7, num, Pair("y", Null), 15);
    ObjectMatch(s, 6, num, [Pair("y", Null)], 15);
  }

  lemma NestedValue(s: string, num: NumberLexer)
    requires NestedTokens(s)
    ensures ParseValue(s, 5, num) == Ok(ArrayValue(Array([FromPairs([Pair("y", Null)])])), 17)
  {
    var inner := FromPairs([Pair("y", Null)]);
    NestedInner(s, num);
    OneObject(s, 6, num, inner, 16);
    ArrayMatch(s, 5, num, [inner], 16);
    ValueArray(s, 5, num);
  }

  lemma NestedParse(s: string, num: NumberLexer)
    requires NestedTokens(s)
    ensures Parse(s, num) == Some(FromPairs([Pair("x", ArrayValue(Array([FromPairs([Pair("y", Null)])])))]))
  {
    var v := ArrayValue(Array([FromPairs([Pair("y", Null)])]));
    NestedValue(s, num);
    Quoted(s, 1, "x");
    PairMatch(s, 1, num, "x", 4, v, 17);
    OnePairDocument(s, num, Pair("x", v), 17);
  }

  /** Parsing {"x":[{"y":null}]} yields x: an array holding the object {y: null}. */
  lemma NestedArray(num: NumberLexer)
    ensures Parse(Nested, num) == Some(Object([Entry("x", ArrayValue(Array([Object([Entry("y", Null)])])))]))
  {
    NestedHasChars();
    NestedCharsTokens(Nested);
    NestedParse(Nested, num);
    var inner := FromPairs([Pair("y", Null)]);
    OneEntry(Pair("y", Null));
    OneEntry(Pair("x", ArrayValue(Array([inner]))));
  }

  lemma InnerPrinted(fmt: Double -> string)
    ensures ShowObject(Object([Entry("y", Null)]), fmt) == "{y:null}"
  {
    var items := EntryItems([Entry("y", Null)], fmt);
    assert items[0] == "y" + ":" + "null";
    assert Join(items) == "y:null";
  }

  lemma ArrayPrinted(fmt: Double -> string)
    ensures Show(ArrayValue(Array([Object([Entry("y", Null)])])), fmt) == "[{y:null}]"
  {
    var items := ObjectItems([Object([Entry("y", Null)])], fmt);
    InnerPrinted(fmt);
    assert items[0] == "{y:null}";
    assert Join(items) == "{y:null}";
  }

  /** That object prints as {x:[{y:null}]}. */
  lemma NestedPrinted(fmt: Double -> string)
    ensures Show(ObjectValue(Object([Entry("x", ArrayValue(Array([Object([Entry("y", Null)])])))])), fmt) == "{x:[{y:null}]}"
  {
    var v := ArrayValue(Array([Object([Entry("y", Null)])]));
    var items := EntryItems([Entry("x", v)], fmt);
    ArrayPrinted(fmt);
    assert items[0] == ShowEntry(Entry("x", v), fmt) == "x" + ":" + "[{y:null}]";
    assert Join(items) == items[0] == "x:[{y:null}]";
    assert ShowObject(Object([Entry("x", v)]), fmt) == "{" + "x:[{y:null}]" + "}";
  }

  // ---------------------------------------------------------------------
  // {"x":[1]}: an array may hold objects only.
  // ---------------------------------------------------------------------

  const NumberArray := "{\"x\":[1]}"

  predicate NumberArrayChars(s: string)
  {
    |s| == 9 && s[0] == '{' && At(s, 1, "\"x\"") && s[4] == ':' && s[5] == '[' && s[6] == '1'
  }

  predicate NumberArrayTokens(s: string)
  {
    |s| == 9 && At(s, 1, "\"x\"") && NextIs(s, 5, '[') && SkipSpaces(s, 5) == 5
    && !NextIs(s, 6, '{') && !NextIs(s, 6, ']')
    && Literal(s, 0, "{") == Ok((), 1) && Literal(s, 4, ":") == Ok((), 5) && Literal(s, 1, "}") == Fail
  }

  lemma NumberArrayHasChars()
    ensures NumberArrayChars(NumberArray)
  {
    var s := NumberArray;
    assert |s| == 9;
    assert s[0] == '{';
    assert s[4] == ':';
    assert s[5] == '[';
    assert s[6] == '1';
    assert At(s, 1, "\"x\"");
  }

  lemma NumberArrayCharsTokens(s: string)
    requires NumberArrayChars(s)
    ensures NumberArrayTokens(s)
  {
    assert SkipSpaces(s, 5) == 5 && SkipSpaces(s, 6) == 6;
    LiteralAfterSpaces(s, 0, 0, "{");
    LiteralAfterSpaces(s, 4, 4, ":");
    NoToken(s, 1, "}");
  }

  lemma NumberArrayValue(s: string, num: NumberLexer)
    requires NumberArrayTokens(s)
    ensures ParseValue(s, 5, num) == Fail
  {
    if ParseArray(s, 5, num).Ok? {
      ArrayHoldsObjects(s, 5, num);
      assert false;
    }
    ValueArray(s, 5, num);
  }

  lemma NumberArrayParse(s: string, num: NumberLexer)
    requires NumberArrayTokens(s)
    ensures Parse(s, num) == None
  {
    Quoted(s, 1, "x");
    NumberArrayValue(s, num);
    PairNoValue(s, 1, num, "x", 4);
    BadPairDocument(s, num);
  }

  /** {"x":[1]} is rejected, whatever the number lexer: [1] is no value. */
  lemma NumberArrayRejected(num: NumberLexer)
    ensures Parse(NumberArray, num) == None
  {
    NumberArrayHasChars();
    NumberArrayCharsTokens(NumberArray);
    NumberArrayParse(NumberArray, num);
  }

  // ---------------------------------------------------------------------
  // {"a":}: a pair needs a value.
  // ---------------------------------------------------------------------

  const MissingValue := "{\"a\":}"

  predicate MissingValueChars(s: string)
  {
    |s| == 6 && s[0] == '{' && At(s, 1, "\"a\"") && s[4] == ':' && s[5] == '}'
  }

  predicate MissingValueTokens(s: string)
  {
    |s| == 6 && At(s, 1, "\"a\"") && SkipSpaces(s, 5) == 5 && s[5] == '}'
    && Literal(s, 0, "{") == Ok((), 1) && Literal(s, 4, ":") == Ok((), 5) && Literal(s, 1, "}") == Fail
  }

  lemma MissingValueHasChars()
    ensures MissingValueChars(MissingValue)
  {
    var s := MissingValue;
    assert |s| == 6;
    assert s[0] == '{';
    assert s[4] == ':';
    assert s[5] == '}';
    assert At(s, 1, "\"a\"");
  }

  lemma MissingValueCharsTokens(s: string)
    requires MissingValueChars(s)
    ensures MissingValueTokens(s)
  {
    assert SkipSpaces(s, 5) == 5;
    LiteralAfterSpaces(s, 0, 0, "{");
    LiteralAfterSpaces(s, 4, 4, ":");
    NoToken(s, 1, "}");
  }

  lemma MissingValueParse(s: string, num: NumberLexer)
    requires MissingValueTokens(s)
    ensures Parse(s, num) == None
  {
    if ParseValue(s, 5, num).Ok? {
      ValueStart(s, 5, num);
      assert false;
    }
    Quoted(s, 1, "a");
    PairNoValue(s, 1, num, "a", 4);
    BadPairDocument(s, num);
  }

  /** {"a":} is rejected: a closing brace starts no value. */
  lemma MissingValueRejected(num: NumberLexer)
    ensures Parse(MissingValue, num) == None
  {
    MissingValueHasChars();
    MissingValueCharsTokens(MissingValue);
    MissingValueParse(MissingValue, num);
  }

  // ---------------------------------------------------------------------
  // {"a":null,}: no comma after the last pair.
  // ---------------------------------------------------------------------

  const TrailingComma := "{\"a\":null,}"

  predicate TrailingCommaChars(s: string)
  {
    |s| == 11 && s[0] == '{' && At(s, 1, "\"a\"") && s[4] == ':' && At(s, 5, "null") && s[9] == ',' && s[10] == '}'
  }

  predicate TrailingCommaTokens(s: string)
  {
    |s| == 11 && At(s, 1, "\"a\"") && At(s, 5, "null") && SkipSpaces(s, 5) == 5
    && Literal(s, 0, "{") == Ok((), 1) && Literal(s, 4, ":") == Ok((), 5)
    && Literal(s, 9, ",") == Ok((), 10) && Literal(s, 9, "}") == Fail && ParseString(s, 10) == Fail
  }

  lemma TrailingCommaHasChars()
    ensures TrailingCommaChars(TrailingComma)
  {
    var s := TrailingComma;
    assert |s| == 11;
    assert s[0] == '{';
    assert s[4] == ':';
    assert s[9] == ',';
    assert s[10] == '}';
    assert At(s, 1, "\"a\"");
    assert At(s, 5, "null");
  }

  lemma TrailingCommaCharsTokens(s: string)
    requires TrailingCommaChars(s)
    ensures TrailingCommaTokens(s)
  {
    assert SkipSpaces(s, 5) == 5 && SkipSpaces(s, 10) == 10;
    LiteralAfterSpaces(s, 0, 0, "{");
    LiteralAfterSpaces(s, 4, 4, ":");
    LiteralAfterSpaces(s, 9, 9, ",");
    NoToken(s, 9, "}");
  }

  lemma TrailingCommaParse(s: string, num: NumberLexer)
    requires TrailingCommaTokens(s)
    ensures Parse(s, num) == None
  {
    Quoted(s, 1, "a");
    ValueNull(s, 5, num);
    PairMatch(s, 1, num, "a", 4, Null, 9);
    PairNoKey(s, 10, num);
    PairThenComma(s, 1, num, Pair("a", Null), 9);
    assert ParseObject(s, 0, num) == Fail by { ObjectUnclosed(s, 0, num, [Pair("a", Null)], 9); }
    Rejected(s, num);
  }

  /** {"a":null,} is rejected: the list stops before the comma, where no brace is. */
  lemma TrailingCommaRejected(num: NumberLexer)
    ensures Parse(TrailingComma, num) == None
  {
    TrailingCommaHasChars();
    TrailingCommaCharsTokens(TrailingComma);
    TrailingCommaParse(TrailingComma, num);
  }

  // ---------------------------------------------------------------------
  // " {} " and "{} x": white space around the object, and other text after it.
  // ---------------------------------------------------------------------

  const Padded := " {} "

  const Followed := "{} x"

  /** " {} " is the empty object: white space before and after it is skipped. */
  lemma PaddedAccepted(num: NumberLexer)
    ensures Parse(Padded, num) == Some(Object([]))
  {
    var s := Padded;
    assert |s| == 4 && s[0] == ' ' && s[1] == '{' && s[2] == '}' && s[3] == ' ';
    assert SkipSpaces(s, 0) == 1 && SkipSpaces(s, 2) == 2 && SkipSpaces(s, 3) == 4;
    EmptyObject(s, 0, num);
    Accepted(s, num, Object([]), 3);
  }

  /** "{} x" is rejected: the object matches, but text other than white space follows it. */
  lemma FollowedRejected(num: NumberLexer)
    ensures ParseObject(Followed, 0, num) == Ok(Object([]), 2)
    ensures Parse(Followed, num) == None
  {
    var s := Followed;
    assert |s| == 4 && s[0] == '{' && s[1] == '}' && s[2] == ' ' && s[3] == 'x';
    assert SkipSpaces(s, 0) == 0 && SkipSpaces(s, 1) == 1 && SkipSpaces(s, 2) == 3;
    EmptyObject(s, 0, num);
  }

  // ---------------------------------------------------------------------
  // {"a b":null}: white space inside a string is skipped too.
  // ---------------------------------------------------------------------

  const SpacedKey := "{\"a b\":null}"

  predicate SpacedKeyChars(s: string)
  {
    |s| == 12 && s[0] == '{' && s[1] == '"' && s[2] == 'a' && s[3] == ' ' && s[4] == 'b' && s[5] == '"'
    && s[6] == ':' && At(s, 7, "null") && s[11] == '}'
  }

  predicate SpacedKeyTokens(s: string)
  {
    |s| == 12 && At(s, 7, "null") && SkipSpaces(s, 7) == 7 && SkipSpaces(s, 12) == 12
    && ParseString(s, 1) == Ok("ab", 6)
    && Literal(s, 0, "{") == Ok((), 1) && Literal(s, 6, ":") == Ok((), 7)
    && Literal(s, 11, ",") == Fail && Literal(s, 11, "}") == Ok((), 12)
  }

  lemma SpacedKeyHasChars()
    ensures SpacedKeyChars(SpacedKey)
  {
    var s := SpacedKey;
    assert |s| == 12;
    assert s[0] == '{';
    assert s[1] == '"';
    assert s[2] == 'a';
    assert s[3] == ' ';
    assert s[4] == 'b';
    assert s[5] == '"';
    assert s[6] == ':';
    assert s[11] == '}';
    assert At(s, 7, "null");
  }

  /** The string "a b" reads as ab: the space before b is skipped. */
  lemma SpacedKeyString(s: string)
    requires SpacedKeyChars(s)
    ensures ParseString(s, 1) == Ok("ab", 6)
  {
    assert Content(s, 5) == Ok([], 6) by {
      assert SkipSpaces(s, 5) == 5 && ItemLength(s, 5) == 0;
    }
    assert Content(s, 3) == Ok("b", 6) by {
      assert SkipSpaces(s, 3) == 4 && ItemLength(s, 4) == 1;
      assert s[4..5] == "b" && "b" + [] == "b";
    }
    assert Content(s, 2) == Ok("ab", 6) by {
      assert SkipSpaces(s, 2) == 2 && ItemLength(s, 2) == 1;
      assert s[2..3] == "a" && "a" + "b" == "ab";
    }
    assert SkipSpaces(s, 1) == 1;
  }

  lemma SpacedKeyCharsTokens(s: string)
    requires SpacedKeyChars(s)
    ensures SpacedKeyTokens(s)
  {
    SpacedKeyString(s);
    assert SkipSpaces(s, 7) == 7;
    LiteralAfterSpaces(s, 0, 0, "{");
    LiteralAfterSpaces(s, 6, 6, ":");
    NoToken(s, 11, ",");
    LiteralAfterSpaces(s, 11, 11, "}");
  }

  lemma SpacedKeyParse(s: string, num: NumberLexer)
    requires SpacedKeyTokens(s)
    ensures Parse(s, num) == Some(FromPairs([Pair("ab", Null)]))
  {
    ValueNull(s, 7, num);
    PairMatch(s, 1, num, "ab", 6, Null, 11);
    OnePairDocument(s, num, Pair("ab", Null), 11);
  }

  /** Parsing {"a b":null} yields the key ab. */
  lemma SpacedKeySqueezed(num: NumberLexer)
    ensures Parse(SpacedKey, num) == Some(Object([Entry("ab", Null)]))
  {
    SpacedKeyHasChars();
    SpacedKeyCharsTokens(SpacedKey);
    SpacedKeyParse(SpacedKey, num);
    OneEntry(Pair("ab", Null));
  }

  // ---------------------------------------------------------------------
  // {"a\n":null}: a backslash may only escape a quote or a backslash.
  // ---------------------------------------------------------------------

  const BadEscape := "{\"a\\n\":null}"

  predicate BadEscapeChars(s: string)
  {
    |s| == 12 && s[0] == '{' && s[1] == '"' && s[2..3] == "a" && s[3] == '\\' && s[4] == 'n'
  }

  lemma BadEscapeHasChars()
    ensures BadEscapeChars(BadEscape)
  {
    var s := BadEscape;
    assert |s| == 12;
    assert s[0] == '{';
    assert s[1] == '"';
    assert s[2..3] == "a";
    assert s[3] == '\\';
    assert s[4] == 'n';
  }

  lemma BadEscapeParse(s: string, num: NumberLexer)
    requires BadEscapeChars(s)
    ensures Parse(s, num) == None
  {
    BadEscapeContent(s, 2, "a");
    assert SkipSpaces(s, 1) == 1;
    assert ParseString(s, 1) == Fail;
    PairNoKey(s, 1, num);
    LiteralAfterSpaces(s, 0, 0, "{");
    NoToken(s, 1, "}");
    BadPairDocument(s, num);
  }

  /** {"a\n":null} is rejected: the escape \n is not part of the string grammar. */
  lemma BadEscapeRejected(num: NumberLexer)
    ensures Parse(BadEscape, num) == None
  {
    BadEscapeHasChars();
    BadEscapeParse(BadEscape, num);
  }

  // ---------------------------------------------------------------------
  // {"a\"b":null}: an escaped quote stays in the key, backslash and all.
  // ---------------------------------------------------------------------

  const EscapedQuote := "{\"a\\\"b\":null}"

  predicate EscapedQuoteChars(s: string)
  {
    |s| == 13 && s[0] == '{' && At(s, 1, "\"a\\\"b\"") && s[7] == ':' && At(s, 8, "null") && s[12] == '}'
  }

  predicate EscapedQuoteTokens(s: string)
  {
    |s| == 13 && At(s, 1, "\"a\\\"b\"") && At(s, 8, "null") && SkipSpaces(s, 8) == 8 && SkipSpaces(s, 13) == 13
    && Literal(s, 0, "{") == Ok((), 1) && Literal(s, 7, ":") == Ok((), 8)
    && Literal(s, 12, ",") == Fail && Literal(s, 12, "}") == Ok((), 13)
  }

  lemma EscapedQuoteHasChars()
    ensures EscapedQuoteChars(EscapedQuote)
  {
    var s := EscapedQuote;
    assert |s| == 13;
    assert s[0] == '{';
    assert s[7] == ':';
    assert s[12] == '}';
    assert At(s, 1, "\"a\\\"b\"");
    assert At(s, 8, "null");
  }

  lemma EscapedQuoteCharsTokens(s: string)
    requires EscapedQuoteChars(s)
    ensures EscapedQuoteTokens(s)
  {
    assert SkipSpaces(s, 8) == 8;
    LiteralAfterSpaces(s, 0, 0, "{");
    LiteralAfterSpaces(s, 7, 7, ":");
    NoToken(s, 12, ",");
    LiteralAfterSpaces(s, 12, 12, "}");
  }

  lemma EscapedQuoteParse(s: string, num: NumberLexer)
    requires EscapedQuoteTokens(s)
    ensures Parse(s, num) == Some(FromPairs([Pair("a\\\"b", Null)]))
  {
    assert ValidContent("a\\\"b");
    assert "\"" + "a\\\"b" + "\"" == "\"a\\\"b\"";
    Quoted(s, 1, "a\\\"b");
    ValueNull(s, 8, num);
    PairMatch(s, 1, num, "a\\\"b", 7, Null, 12);
    OnePairDocument(s, num, Pair("a\\\"b", Null), 12);
  }

  /** Parsing {"a\"b":null} yields the four-character key a\"b. */
  lemma EscapedQuoteKept(num: NumberLexer)
    ensures Parse(EscapedQuote, num) == Some(Object([Entry("a\\\"b", Null)]))
  {
    EscapedQuoteHasChars();
    EscapedQuoteCharsTokens(EscapedQuote);
    EscapedQuoteParse(EscapedQuote, num);
    OneEntry(Pair("a\\\"b", Null));
  }

  // double_ also takes NaN with a payload, such as nan(1,2): the comma inside
  // the parentheses belongs to the number, and the contract of a number
  // lexer allows it.

  /** A lexer that reads the NaN form nan(1,2) as one number. */
  function NanLexer(s: string, i: nat): NumScan
  {
    if At(s, i, "nan(1,2)") then Scanned(Double(0x7FF8_0000_0000_0000), i + 8) else NoNumber
  }

  /** NanLexer is a number lexer, although its match holds a comma. */
  lemma NanLexerAllowed()
    ensures IsNumberLexer(NanLexer)
  {
    forall s: string, i: nat | NanLexer(s, i).Scanned?
      ensures i < NanLexer(s, i).next <= |s| && NumberStart(s[i]) && !At(s, i, "null")
      ensures NumberLast(s[NanLexer(s, i).next - 1])
    {
      var w := s[i..i + 8];
      assert w == "nan(1,2)";
      assert s[i] == w[0] && s[i + 1] == w[1] && s[i + 5] == w[5] && s[i + 7] == w[7];
      assert s[i..i + 4] == w[..4] == "nan(";
    }
  }
}
