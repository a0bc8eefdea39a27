/**
 * The separated lists of the grammar end on an element: every value ends on
 * a character that is neither a comma nor white space, so the closing brace
 * of an object and the closing bracket of an array never follow a comma
 * (white space aside). A trailing comma is therefore rejected wherever it
 * occurs, not only in a particular document.
 */
module CommaLists {
  import opened Options
  import opened Skipper
  import opened StringGrammar
  import opened JsonGrammar
  import opened GrammarProperties

  /** The match that ends at e ends on a character other than a comma or white space. */
  predicate EndsSolid(s: string, e: nat)
  {
    0 < e <= |s| && s[e - 1] != ',' && !IsSpace(s[e - 1])
  }

  /** A literal that matches ends on its own last character. */
  lemma LiteralEnd(s: string, i: nat, t: string)
    requires i <= |s| && t != [] && Literal(s, i, t).Ok?
    ensures s[Literal(s, i, t).next - 1] == t[|t| - 1]
  {
    var j := SkipSpaces(s, i);
    assert s[j..j + |t|][|t| - 1] == s[j + |t| - 1];
  }

  /** The match that ends at e ends on the character c. */
  predicate EndsOn(s: string, e: nat, c: char)
  {
    0 < e <= |s| && s[e - 1] == c
  }

  /** A string ends on its closing quote. */
  lemma StringEnd(s: string, i: nat)
    requires i <= |s| && ParseString(s, i).Ok?
    ensures EndsSolid(s, ParseString(s, i).next)
    ensures EndsOn(s, ParseString(s, i).next, '"')
  {
    StringSound(s, i);
  }

  /** true ends on e, and so does false. */
  lemma BoolEnd(s: string, i: nat)
    requires i <= |s| && ParseBool(s, i).Ok?
    ensures EndsOn(s, ParseBool(s, i).next, 'e')
    ensures EndsSolid(s, ParseBool(s, i).next)
  {
    var j := SkipSpaces(s, i);
    if At(s, j, "true") {
      assert s[j..j + 4][3] == s[j + 3];
    } else {
      assert s[j..j + 5][4] == s[j + 4];
    }
  }

  /** A number ends on a NumberLast character, never on a comma or white space. */
  lemma NumberEnd(s: string, i: nat, num: NumberLexer)
    requires i <= |s| && ParseNumber(s, i, num).Ok?
    ensures EndsSolid(s, ParseNumber(s, i, num).next)
    ensures 0 < ParseNumber(s, i, num).next <= |s| && NumberLast(s[ParseNumber(s, i, num).next - 1])
  {
    var j := SkipSpaces(s, i);
    assert num(s, j).next == ParseNumber(s, i, num).next;
  }

  /** null ends on l. */
  lemma NullEnd(s: string, i: nat)
    requires i <= |s| && Literal(s, i, "null").Ok?
    ensures EndsOn(s, Literal(s, i, "null").next, 'l')
    ensures EndsSolid(s, Literal(s, i, "null").next)
  {
    LiteralEnd(s, i, "null");
  }

  /** An object ends on its closing brace. */
  lemma ObjectEnd(s: string, i: nat, num: NumberLexer)
    requires i <= |s| && ParseObject(s, i, num).Ok?
    ensures EndsOn(s, ParseObject(s, i, num).next, '}')
  {
    ObjectBraces(s, i, num);
  }

  /** An array ends on its closing bracket. */
  lemma ArrayEnd(s: string, i: nat, num: NumberLexer)
    requires i <= |s| && ParseArray(s, i, num).Ok?
    ensures EndsOn(s, ParseArray(s, i, num).next, ']')
  {
    var j := SkipSpaces(s, i) + 1;
    var elements := ParseObjects(s, j, num);
    var e := if elements.Ok? then elements.next else j;
    assert ParseArray(s, i, num).next == Literal(s, e, "]").next;
    LiteralEnd(s, e, "]");
  }

  /** Every value ends on a solid character. */
  lemma ValueEnd(s: string, i: nat, num: NumberLexer)
    requires i <= |s| && ParseValue(s, i, num).Ok?
    ensures EndsSolid(s, ParseValue(s, i, num).next)
  {
    if ParseString(s, i).Ok? {
      StringEnd(s, i);
    } else if ParseBool(s, i).Ok? {
      BoolEnd(s, i);
    } else if ParseNumber(s, i, num).Ok? {
      NumberEnd(s, i, num);
    } else if ParseObject(s, i, num).Ok? {
      assert ParseValue(s, i, num).next == ParseObject(s, i, num).next;
      ObjectEnd(s, i, num);
    } else if ParseArray(s, i, num).Ok? {
      assert ParseValue(s, i, num).next == ParseArray(s, i, num).next;
      ArrayEnd(s, i, num);
    } else {
      assert ParseValue(s, i, num).next == Literal(s, i, "null").next;
      NullEnd(s, i);
    }
  }

  /** A pair ends on a character that is neither a comma nor white space, the last one of its value. */
  lemma PairEnd(s: string, i: nat, num: NumberLexer)
    requires i <= |s| && ParsePair(s, i, num).Ok?
    ensures EndsSolid(s, ParsePair(s, i, num).next)
  {
    var key := ParseString(s, i);
    var colon := Literal(s, key.next, ":");
    ValueEnd(s, colon.next, num);
  }

  /** The repetition of comma and pair either reads nothing or ends on a character that is neither a comma nor white space. */
  lemma {:induction false} MorePairsEnd(s: string, i: nat, num: NumberLexer)
    requires i <= |s|
    ensures var r := MorePairs(s, i, num); r.next == i || EndsSolid(s, r.next)
    decreases |s| - i
  {
    var comma := Literal(s, i, ",");
    if comma.Ok? {
      var p := ParsePair(s, comma.next, num);
      if p.Ok? {
        assert MorePairs(s, i, num).next == MorePairs(s, p.next, num).next;
        PairEnd(s, comma.next, num);
        MorePairsEnd(s, p.next, num);
      }
    }
  }

  /** A member list ends on a character that is neither a comma nor white space. */
  lemma PairsEnd(s: string, i: nat, num: NumberLexer)
    requires i <= |s| && ParsePairs(s, i, num).Ok?
    ensures EndsSolid(s, ParsePairs(s, i, num).next)
  {
    var p := ParsePair(s, i, num);
    assert ParsePairs(s, i, num).next == MorePairs(s, p.next, num).next;
    PairEnd(s, i, num);
    MorePairsEnd(s, p.next, num);
  }

  /** The repetition of comma and object either reads nothing or ends with a brace. */
  lemma {:induction false} MoreObjectsEnd(s: string, i: nat, num: NumberLexer)
    requires i <= |s|
    ensures var r := MoreObjects(s, i, num); r.next == i || EndsOn(s, r.next, '}')
    decreases |s| - i
  {
    var comma := Literal(s, i, ",");
    if comma.Ok? {
      var o := ParseObject(s, comma.next, num);
      if o.Ok? {
        assert MoreObjects(s, i, num).next == MoreObjects(s, o.next, num).next;
        ObjectEnd(s, comma.next, num);
        MoreObjectsEnd(s, o.next, num);
      }
    }
  }

  /** An element list ends with the brace of its last object. */
  lemma ObjectsEnd(s: string, i: nat, num: NumberLexer)
    requires i <= |s| && ParseObjects(s, i, num).Ok?
    ensures EndsOn(s, ParseObjects(s, i, num).next, '}')
  {
    var o := ParseObject(s, i, num);
    assert ParseObjects(s, i, num).next == MoreObjects(s, o.next, num).next;
    ObjectEnd(s, i, num);
    MoreObjectsEnd(s, o.next, num);
  }

  /**
   * Between the last solid character e - 1 of what a list or an opening
   * token read and the closing character at k - 1 lies only white space.
   */
  ghost predicate ClosesAfter(s: string, e: nat, k: nat)
  {
    EndsSolid(s, e) && e < k <= |s| && forall x :: e <= x < k - 1 ==> IsSpace(s[x])
  }

  /** The closing literal after a solid end: only white space comes between. */
  lemma CloseAfter(s: string, e: nat, t: string)
    requires e <= |s| && EndsSolid(s, e) && |t| == 1 && Literal(s, e, t).Ok?
    ensures ClosesAfter(s, e, Literal(s, e, t).next)
    ensures s[Literal(s, e, t).next - 1] == t[0]
  {
    LiteralSound(s, e, t);
    LiteralEnd(s, e, t);
  }

  /** Where the member list of an object ends (its opening brace when it has none): a solid character, then the closing brace. */
  lemma ObjectBody(s: string, i: nat, num: NumberLexer) returns (e: nat)
    requires i <= |s| && ParseObject(s, i, num).Ok?
    ensures i < e <= |s| && EndsSolid(s, e) && Literal(s, e, "}").Ok?
    ensures ParseObject(s, i, num).next == Literal(s, e, "}").next
  {
    var open := Literal(s, i, "{");
    LiteralEnd(s, i, "{");
    var members := ParsePairs(s, open.next, num);
    if members.Ok? {
      PairsEnd(s, open.next, num);
    }
    e := if members.Ok? then members.next else open.next;
  }

  /** Where the element list of an array ends (its opening bracket when it has none): a solid character, then the closing bracket. */
  lemma ArrayBody(s: string, i: nat, num: NumberLexer) returns (e: nat)
    requires i <= |s| && ParseArray(s, i, num).Ok?
    ensures i < e <= |s| && EndsSolid(s, e) && Literal(s, e, "]").Ok?
    ensures ParseArray(s, i, num).next == Literal(s, e, "]").next
  {
    var open := Literal(s, i, "[");
    LiteralEnd(s, i, "[");
    var elements := ParseObjects(s, open.next, num);
    if elements.Ok? {
      ObjectsEnd(s, open.next, num);
    }
    e := if elements.Ok? then elements.next else open.next;
  }

  /** No trailing comma in an object: the last solid character before its closing brace is not a comma. */
  lemma ObjectNoTrailingComma(s: string, i: nat, num: NumberLexer)
    requires i <= |s| && ParseObject(s, i, num).Ok?
    ensures var k := ParseObject(s, i, num).next;
      s[k - 1] == '}' && exists e: nat {:trigger ClosesAfter(s, e, k)} :: i < e && ClosesAfter(s, e, k)
  {
    var e := ObjectBody(s, i, num);
    CloseAfter(s, e, "}");
    assert i < e && ClosesAfter(s, e, ParseObject(s, i, num).next);
  }

  /** No trailing comma in an array: the last solid character before its closing bracket is not a comma. */
  lemma ArrayNoTrailingComma(s: string, i: nat, num: NumberLexer)
    requires i <= |s| && ParseArray(s, i, num).Ok?
    ensures var k := ParseArray(s, i, num).next;
      s[k - 1] == ']' && exists e: nat {:trigger ClosesAfter(s, e, k)} :: i < e && ClosesAfter(s, e, k)
  {
    var e := ArrayBody(s, i, num);
    CloseAfter(s, e, "]");
    assert i < e && ClosesAfter(s, e, ParseArray(s, i, num).next);
  }

  /** A comma followed by white space and the character at k - 1 leaves nothing solid in between. */
  lemma CommaGap(s: string, m: nat, k: nat, e: nat)
    requires m + 1 < k <= |s| && s[m] == ','
    requires forall x :: m < x < k - 1 ==> IsSpace(s[x])
    ensures !ClosesAfter(s, e, k)
  {
    if 0 < e <= |s| && e < k {
      if e - 1 < m {
        assert e <= m < k - 1 && !IsSpace(s[m]);
      } else if e - 1 > m {
        assert m < e - 1 < k - 1;
      }
    }
  }

  /** Hence no object ends with a closing brace that follows a comma and white space. */
  lemma TrailingCommaObject(s: string, i: nat, num: NumberLexer, m: nat, k: nat)
    requires i <= |s| && m + 1 < k <= |s| && s[m] == ','
    requires forall x :: m < x < k - 1 ==> IsSpace(s[x])
    ensures !(ParseObject(s, i, num).Ok? && ParseObject(s, i, num).next == k)
  {
    if ParseObject(s, i, num).Ok? && ParseObject(s, i, num).next == k {
      ObjectNoTrailingComma(s, i, num);
      var e: nat :| i < e && ClosesAfter(s, e, k);
      CommaGap(s, m, k, e);
    }
  }

  /** Hence no array ends with a closing bracket that follows a comma and white space, as in [{},]. */
  lemma TrailingCommaArray(s: string, i: nat, num: NumberLexer, m: nat, k: nat)
    requires i <= |s| && m + 1 < k <= |s| && s[m] == ','
    requires forall x :: m < x < k - 1 ==> IsSpace(s[x])
    ensures !(ParseArray(s, i, num).Ok? && ParseArray(s, i, num).next == k)
  {
    if ParseArray(s, i, num).Ok? && ParseArray(s, i, num).next == k {
      ArrayNoTrailingComma(s, i, num);
      var e: nat :| i < e && ClosesAfter(s, e, k);
      CommaGap(s, m, k, e);
    }
  }
}
