/** What the grammar accepts and builds, stated over every number lexer. */
module GrammarProperties {
  import opened Options
  import opened Skipper
  import opened StringGrammar
  import opened Components
  import opened JsonGrammar

  /** The first character of the next token, after white space. */
  predicate NextIs(s: string, i: nat, c: char)
    requires i <= |s|
  {
    SkipSpaces(s, i) < |s| && s[SkipSpaces(s, i)] == c
  }

  /** A word that does not start with the character at j is not at j. */
  lemma NotAt(s: string, j: nat, t: string)
    requires j < |s| && |t| > 0 && t[0] != s[j]
    ensures !At(s, j, t)
  {
    assert j + |t| <= |s| ==> s[j..j + |t|][0] == s[j];
  }

  /** The next character rules out every alternative that cannot start with it. */
  lemma Excluded(s: string, i: nat, num: NumberLexer, c: char)
    requires i <= |s| && NextIs(s, i, c)
    ensures c != '"' ==> ParseString(s, i).Fail?
    ensures c != 't' && c != 'f' ==> ParseBool(s, i).Fail?
    ensures !NumberStart(c) ==> ParseNumber(s, i, num).Fail?
    ensures c != '{' ==> ParseObject(s, i, num).Fail?
    ensures c != '[' ==> ParseArray(s, i, num).Fail?
    ensures c != 'n' ==> Literal(s, i, "null").Fail?
  {
    var j := SkipSpaces(s, i);
    if c != 't' && c != 'f' {
      NotAt(s, j, "true");
      NotAt(s, j, "false");
    }
    if c != '{' {
      NotAt(s, j, "{");
      ObjectNeedsBrace(s, i, num);
    }
    if c != '[' {
      NotAt(s, j, "[");
      ArrayNeedsBracket(s, i, num);
    }
    if c != 'n' {
      NotAt(s, j, "null");
    }
  }

  /** A token that opens with a quote is a string or nothing: no later alternative is reached. */
  lemma ValueQuote(s: string, i: nat, num: NumberLexer)
    requires i <= |s| && NextIs(s, i, '"')
    ensures ParseValue(s, i, num) ==
      match ParseString(s, i)
      case Ok(t, k) => Ok(Str(t), k)
      case Fail => Fail
  {
    Excluded(s, i, num, '"');
  }

  /** The words true and false are booleans. */
  lemma ValueBool(s: string, i: nat, num: NumberLexer, b: bool)
    requires i <= |s| && At(s, SkipSpaces(s, i), if b then "true" else "false")
    ensures ParseValue(s, i, num) == Ok(Boolean(b), SkipSpaces(s, i) + if b then 4 else 5)
  {
    var j := SkipSpaces(s, i);
    var c := if b then 't' else 'f';
    assert s[j] == s[j..j + if b then 4 else 5][0] == c;
    Excluded(s, i, num, c);
    if !b {
      NotAt(s, j, "true");
    }
  }

  /** A token that opens with a brace is an object or nothing. */
  lemma ValueObject(s: string, i: nat, num: NumberLexer)
    requires i <= |s| && NextIs(s, i, '{')
    ensures ParseValue(s, i, num) ==
      match ParseObject(s, i, num)
      case Ok(o, k) => Ok(ObjectValue(o), k)
      case Fail => Fail
  {
    Excluded(s, i, num, '{');
  }

  /** A token that opens with a bracket is an array or nothing. */
  lemma ValueArray(s: string, i: nat, num: NumberLexer)
    requires i <= |s| && NextIs(s, i, '[')
    ensures ParseValue(s, i, num) ==
      match ParseArray(s, i, num)
      case Ok(a, k) => Ok(ArrayValue(a), k)
      case Fail => Fail
  {
    Excluded(s, i, num, '[');
  }

  /** An object needs its opening brace. */
  lemma ObjectNeedsBrace(s: string, i: nat, num: NumberLexer)
    requires i <= |s| && Literal(s, i, "{").Fail?
    ensures ParseObject(s, i, num).Fail?
  {
  }

  /** An array needs its opening bracket. */
  lemma ArrayNeedsBracket(s: string, i: nat, num: NumberLexer)
    requires i <= |s| && Literal(s, i, "[").Fail?
    ensures ParseArray(s, i, num).Fail?
  {
  }

  /** Helper, an unfolding of ParseValue: when the first five alternatives fail, the value is null or nothing. */
  lemma ValueLast(s: string, i: nat, num: NumberLexer)
    requires i <= |s|
    requires ParseString(s, i).Fail? && ParseBool(s, i).Fail? && ParseNumber(s, i, num).Fail?
    requires ParseObject(s, i, num).Fail? && ParseArray(s, i, num).Fail?
    ensures ParseValue(s, i, num) == if Literal(s, i, "null").Ok? then Ok(Null, Literal(s, i, "null").next) else Fail
  {
  }

  /** The word null is Null: double_ never takes it for a number. */
  lemma ValueNull(s: string, i: nat, num: NumberLexer)
    requires i <= |s| && At(s, SkipSpaces(s, i), "null")
    ensures ParseValue(s, i, num) == Ok(Null, SkipSpaces(s, i) + 4)
  {
    var j := SkipSpaces(s, i);
    assert s[j] == s[j..j + 4][0] == 'n';
    Excluded(s, i, num, 'n');
    assert ParseBool(s, i).Fail?;
    assert ParseNumber(s, i, num).Fail?;
    ValueLast(s, i, num);
  }

  /** Nothing but white space left: no alternative matches. */
  lemma ValueAtEnd(s: string, i: nat, num: NumberLexer)
    requires i <= |s| && SkipSpaces(s, i) == |s|
    ensures ParseValue(s, i, num).Fail?
  {
    ObjectNeedsBrace(s, i, num);
    ArrayNeedsBracket(s, i, num);
    ValueLast(s, i, num);
  }

  /** A value only starts where one of the six alternatives can start. */
  lemma ValueStart(s: string, i: nat, num: NumberLexer)
    requires i <= |s| && ParseValue(s, i, num).Ok?
    ensures SkipSpaces(s, i) < |s|
    ensures var c := s[SkipSpaces(s, i)]; c == '"' || c == 't' || c == 'f' || c == '{' || c == '[' || NumberStart(c)
  {
    var j := SkipSpaces(s, i);
    if j == |s| {
      ValueAtEnd(s, i, num);
    } else {
      var c := s[j];
      if !(c == '"' || c == 't' || c == 'f' || c == '{' || c == '[' || NumberStart(c)) {
        Excluded(s, i, num, c);
        ValueLast(s, i, num);
      }
    }
  }

  /** An object opens with '{' and, once its pairs are read, ends with '}'. */
  lemma ObjectBraces(s: string, i: nat, num: NumberLexer)
    requires i <= |s| && ParseObject(s, i, num).Ok?
    ensures NextIs(s, i, '{')
    ensures s[ParseObject(s, i, num).next - 1] == '}'
  {
    var j := SkipSpaces(s, i);
    assert s[j..j + 1] == "{";
    var k := ParseObject(s, i, num).next;
    assert s[k - 1..k] == "}";
  }

  /** The parts of an array match: the bracket, the optional list, and the closing bracket after it. */
  lemma ArrayParts(s: string, i: nat, num: NumberLexer)
    requires i <= |s| && ParseArray(s, i, num).Ok?
    ensures Literal(s, i, "[").Ok?
    ensures var j := SkipSpaces(s, i) + 1;
            var elements := ParseObjects(s, j, num);
            Literal(s, if elements.Ok? then elements.next else j, "]").Ok?
  {
  }

  /** A list of objects starts with an object. */
  lemma ObjectsFirst(s: string, i: nat, num: NumberLexer)
    requires i <= |s| && ParseObjects(s, i, num).Ok?
    ensures ParseObject(s, i, num).Ok?
  {
  }

  /** A one-character literal that matches is the next character. */
  lemma LiteralChar(s: string, i: nat, c: char)
    requires i <= |s| && Literal(s, i, [c]).Ok?
    ensures NextIs(s, i, c)
  {
    var j := SkipSpaces(s, i);
    assert s[j..j + 1] == [c];
    assert s[j] == s[j..j + 1][0];
  }

  /** An array's list holds objects only: after '[' comes '{' or the closing ']'. */
  lemma ArrayHoldsObjects(s: string, i: nat, num: NumberLexer)
    requires i <= |s| && ParseArray(s, i, num).Ok?
    ensures NextIs(s, i, '[')
    ensures NextIs(s, SkipSpaces(s, i) + 1, '{') || NextIs(s, SkipSpaces(s, i) + 1, ']')
  {
    var j := SkipSpaces(s, i);
    ArrayParts(s, i, num);
    LiteralChar(s, i, '[');
    if ParseObjects(s, j + 1, num).Ok? {
      assert NextIs(s, j + 1, '{') by {
        ObjectsFirst(s, j + 1, num);
        ObjectBraces(s, j + 1, num);
      }
    } else {
      LiteralChar(s, j + 1, ']');
    }
  }

  /**
   * Helper, an unfolding of ParseObject: the Object a match builds is the
   * Object of the pairs read between its braces, or of no pairs at all for {}.
   */
  lemma ObjectFromMembers(s: string, i: nat, num: NumberLexer)
    requires i <= |s| && ParseObject(s, i, num).Ok?
    ensures var members := ParsePairs(s, SkipSpaces(s, i) + 1, num);
            ParseObject(s, i, num).value == FromPairs(if members.Ok? then members.value else [])
  {
    var open := Literal(s, i, "{");
    var members := ParsePairs(s, open.next, num);
    var close := Literal(s, if members.Ok? then members.next else open.next, "}");
    assert ParseObject(s, i, num) == Ok(FromPairs(if members.Ok? then members.value else []), close.next);
  }

  /**
   * Helper, an unfolding of ParseArray: the Array a match builds holds the
   * objects read between its brackets, in the order and number they were
   * read, or none at all for [].
   */
  lemma ArrayFromElements(s: string, i: nat, num: NumberLexer)
    requires i <= |s| && ParseArray(s, i, num).Ok?
    ensures var elements := ParseObjects(s, SkipSpaces(s, i) + 1, num);
            ParseArray(s, i, num).value.objects == if elements.Ok? then elements.value else []
  {
    var open := Literal(s, i, "[");
    var elements := ParseObjects(s, open.next, num);
    var close := Literal(s, if elements.Ok? then elements.next else open.next, "]");
    assert ParseArray(s, i, num) == Ok(Array(if elements.Ok? then elements.value else []), close.next);
  }

  /** Helper, an unfolding of ParseObject: with no list, the brace closes right after it opens. */
  lemma ObjectNoMembers(s: string, i: nat, num: NumberLexer, j: nat, k: nat)
    requires i <= |s| && j < |s|
    requires Literal(s, i, "{") == Ok((), j + 1)
    requires ParsePairs(s, j + 1, num).Fail?
    requires Literal(s, j + 1, "}") == Ok((), k)
    ensures ParseObject(s, i, num) == Ok(Object([]), k)
  {
  }

  /** {} matches, with no pairs. */
  lemma EmptyObject(s: string, i: nat, num: NumberLexer)
    requires i <= |s| && NextIs(s, i, '{') && NextIs(s, SkipSpaces(s, i) + 1, '}')
    ensures ParseObject(s, i, num) == Ok(Object([]), SkipSpaces(s, SkipSpaces(s, i) + 1) + 1)
  {
    var j := SkipSpaces(s, i);
    var k := SkipSpaces(s, j + 1);
    assert Literal(s, i, "{") == Ok((), j + 1) by {
      assert s[j..j + 1] == "{";
    }
    assert Literal(s, j + 1, "}") == Ok((), k + 1) by {
      assert s[k..k + 1] == "}";
    }
    assert ParsePairs(s, j + 1, num).Fail? by {
      Excluded(s, j + 1, num, '}');
    }
    ObjectNoMembers(s, i, num, j, k + 1);
  }

  /** Helper, an unfolding of ParseArray: with no list, the bracket closes right after it opens. */
  lemma ArrayNoElements(s: string, i: nat, num: NumberLexer, j: nat, k: nat)
    requires i <= |s| && j < |s|
    requires Literal(s, i, "[") == Ok((), j + 1)
    requires ParseObjects(s, j + 1, num).Fail?
    requires Literal(s, j + 1, "]") == Ok((), k)
    ensures ParseArray(s, i, num) == Ok(Array([]), k)
  {
  }

  /** [] matches, with no objects. */
  lemma EmptyArray(s: string, i: nat, num: NumberLexer)
    requires i <= |s| && NextIs(s, i, '[') && NextIs(s, SkipSpaces(s, i) + 1, ']')
    ensures ParseArray(s, i, num) == Ok(Array([]), SkipSpaces(s, SkipSpaces(s, i) + 1) + 1)
  {
    var j := SkipSpaces(s, i);
    var k := SkipSpaces(s, j + 1);
    assert Literal(s, i, "[") == Ok((), j + 1) by {
      assert s[j..j + 1] == "[";
    }
    assert Literal(s, j + 1, "]") == Ok((), k + 1) by {
      assert s[k..k + 1] == "]";
    }
    assert ParseObjects(s, j + 1, num).Fail? by {
      assert !At(s, k, "{");
      ObjectNeedsBrace(s, j + 1, num);
    }
    ArrayNoElements(s, i, num, j, k + 1);
  }

  /** A pair's name is what the string rule returned: its content without the quotes. */
  lemma PairName(s: string, i: nat, num: NumberLexer)
    requires i <= |s| && ParsePair(s, i, num).Ok?
    ensures ParseString(s, i).Ok? && ParseString(s, i).value == ParsePair(s, i, num).value.name
    ensures ValidContent(ParsePair(s, i, num).value.name)
    ensures Squeeze(s[i..ParseString(s, i).next]) == "\"" + ParsePair(s, i, num).value.name + "\""
  {
    StringSound(s, i);
  }

  /**
   * load prints OK exactly when the object rule matches after leading white
   * space and only white space follows it; anything else after the object is
   * a failure.
   */
  lemma {:induction false} LoadAccepts(s: string, num: NumberLexer, o: Object)
    ensures Parse(s, num) == Some(o) <==>
      exists j: nat :: ParseObject(s, 0, num) == Ok(o, j) && forall k :: j <= k < |s| ==> IsSpace(s[k])
  {
    var r := ParseObject(s, 0, num);
    if r.Ok? {
      SkipSpacesToEnd(s, r.next);
    }
  }

  // Every Object the grammar builds, at any depth, is a sorted std::map.

  lemma {:induction false} ValueSorted(s: string, i: nat, num: NumberLexer)
    requires i <= |s| && ParseValue(s, i, num).Ok?
    ensures SortedTree(ParseValue(s, i, num).value)
    decreases |s| - i, 3
  {
    if ParseString(s, i).Fail? && ParseBool(s, i).Fail? && ParseNumber(s, i, num).Fail? {
      if ParseObject(s, i, num).Ok? {
        ObjectSorted(s, i, num);
      } else if ParseArray(s, i, num).Ok? {
        ArraySorted(s, i, num);
      }
    }
  }

  lemma {:induction false} PairSorted(s: string, i: nat, num: NumberLexer)
    requires i <= |s| && ParsePair(s, i, num).Ok?
    ensures SortedTree(ParsePair(s, i, num).value.value)
    decreases |s| - i, 0
  {
    var key := ParseString(s, i);
    var colon := Literal(s, key.next, ":");
    ValueSorted(s, colon.next, num);
  }

  lemma {:induction false} PairListSorted(s: string, i: nat, num: NumberLexer)
    requires i <= |s| && ParsePairs(s, i, num).Ok?
    ensures PairsSorted(ParsePairs(s, i, num).value)
    decreases |s| - i, 1
  {
    var p := ParsePair(s, i, num);
    var more := MorePairs(s, p.next, num);
    PairSorted(s, i, num);
    MorePairsSorted(s, p.next, num);
    ConsPairsSorted(p.value, more.value);
  }

  lemma {:induction false} MorePairsSorted(s: string, i: nat, num: NumberLexer)
    requires i <= |s|
    ensures PairsSorted(MorePairs(s, i, num).value)
    decreases |s| - i, 1
  {
    var comma := Literal(s, i, ",");
    if comma.Ok? {
      var p := ParsePair(s, comma.next, num);
      if p.Ok? {
        PairSorted(s, comma.next, num);
        MorePairsSorted(s, p.next, num);
        ConsPairsSorted(p.value, MorePairs(s, p.next, num).value);
      }
    }
  }

  lemma {:induction false} ObjectSorted(s: string, i: nat, num: NumberLexer)
    requires i <= |s| && ParseObject(s, i, num).Ok?
    ensures SortedObject(ParseObject(s, i, num).value)
    decreases |s| - i, 2
  {
    var open := Literal(s, i, "{");
    var members := ParsePairs(s, open.next, num);
    if members.Ok? {
      PairListSorted(s, open.next, num);
      FromPairsSorted(members.value);
    } else {
      FromPairsSorted([]);
    }
  }

  lemma {:induction false} ObjectListSorted(s: string, i: nat, num: NumberLexer)
    requires i <= |s| && ParseObjects(s, i, num).Ok?
    ensures ObjectsSorted(ParseObjects(s, i, num).value)
    decreases |s| - i, 3
  {
    var o := ParseObject(s, i, num);
    ObjectSorted(s, i, num);
    MoreObjectsSorted(s, o.next, num);
    ConsObjectsSorted(o.value, MoreObjects(s, o.next, num).value);
  }

  lemma {:induction false} MoreObjectsSorted(s: string, i: nat, num: NumberLexer)
    requires i <= |s|
    ensures ObjectsSorted(MoreObjects(s, i, num).value)
    decreases |s| - i, 3
  {
    var comma := Literal(s, i, ",");
    if comma.Ok? {
      var o := ParseObject(s, comma.next, num);
      if o.Ok? {
        ObjectSorted(s, comma.next, num);
        MoreObjectsSorted(s, o.next, num);
        ConsObjectsSorted(o.value, MoreObjects(s, o.next, num).value);
      }
    }
  }

  lemma {:induction false} ArraySorted(s: string, i: nat, num: NumberLexer)
    requires i <= |s| && ParseArray(s, i, num).Ok?
    ensures SortedTree(ArrayValue(ParseArray(s, i, num).value))
    decreases |s| - i, 2
  {
    var open := Literal(s, i, "[");
    if ParseObjects(s, open.next, num).Ok? {
      ObjectListSorted(s, open.next, num);
    }
  }

  /** What load accepts is a map sorted by key, and so is every Object nested in it. */
  lemma LoadSorted(s: string, num: NumberLexer)
    requires Parse(s, num).Some?
    ensures SortedObject(Parse(s, num).value)
  {
    ObjectSorted(s, 0, num);
  }
}
