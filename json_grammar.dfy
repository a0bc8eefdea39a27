/**
 * JsonGrammar: the JSON rules as a recursive-descent parser with ordered
 * choice. In terms of the functions below:
 *
 *   ParseValue   ::= ParseString / ParseBool / ParseNumber / ParseObject / ParseArray / "null"
 *   ParsePair    ::= ParseString ":" ParseValue
 *   ParseObject  ::= "{" [ParsePairs] "}"      ParsePairs  ::= ParsePair { "," ParsePair }
 *   ParseArray   ::= "[" [ParseObjects] "]"    ParseObjects ::= ParseObject { "," ParseObject }
 *
 * where "/" tries the alternatives left to right and keeps the first that
 * matches. Parse accepts a line when an object matches at its start and only
 * white space follows it.
 *
 * Every rule takes the text and a position and returns its attribute with the
 * position after it, or Fail; white space is skipped in front of every token.
 */
module JsonGrammar {
  import opened Options
  import opened Skipper
  import opened StringGrammar
  import opened Components

  /** What double_ finds at a position: no number, or a value and the position after it. */
  datatype NumScan = NoNumber | Scanned(value: Double, next: nat)

  /** A character double_ can start with: a sign, a digit, a dot, or the first letter of nan or inf. */
  predicate NumberStart(c: char)
  {
    c == '+' || c == '-' || c == '.' || '0' <= c <= '9' || c == 'n' || c == 'N' || c == 'i' || c == 'I'
  }

  /**
   * A character a floating-point literal can end on: a digit, the dot, the
   * last letter of nan, inf or infinity, or the closing parenthesis of the
   * payload nan(...) may carry. None of them is white space, a separator of
   * JSON or the quote; the payload itself may hold any character but ')'.
   */
  predicate NumberLast(c: char)
  {
    !IsSpace(c) && c != ',' && c != ':' && c != '{' && c != '}' && c != '[' && c != ']' && c != '"'
  }

  /**
   * What is known of double_ without modelling floating point: a match
   * consumes at least one character of the text, starts at a character
   * NumberStart allows, never starts at the word null, and ends on a
   * NumberLast character.
   */
  ghost predicate IsNumberLexer(f: (string, nat) -> NumScan)
  {
    forall s: string, i: nat {:trigger f(s, i)} ::
      f(s, i).Scanned? ==>
        i < f(s, i).next <= |s| && NumberStart(s[i]) && !At(s, i, "null") &&
        NumberLast(s[f(s, i).next - 1])
  }

  /** The floating-point literal parser, a parameter of the grammar. */
  type NumberLexer = f: (string, nat) -> NumScan | IsNumberLexer(f)
    witness (s: string, i: nat) => NoNumber

  /** bool_: the words true and false, after white space. */
  function ParseBool(s: string, i: nat): (r: Parsed<bool>)
    requires i <= |s|
    ensures r.Ok? ==> i < r.next <= |s|
  {
    var j := SkipSpaces(s, i);
    if At(s, j, "true") then Ok(true, j + 4)
    else if At(s, j, "false") then Ok(false, j + 5)
    else Fail
  }

  /** double_, after white space. */
  function ParseNumber(s: string, i: nat, num: NumberLexer): (r: Parsed<Double>)
    requires i <= |s|
    ensures r.Ok? ==> i < r.next <= |s|
  {
    var j := SkipSpaces(s, i);
    match num(s, j)
    case Scanned(d, k) => Ok(d, k)
    case NoNumber => Fail
  }

  /** A value (the factor rule): the alternatives are tried in order and the first that matches wins. */
  function ParseValue(s: string, i: nat, num: NumberLexer): (r: Parsed<Component>)
    requires i <= |s|
    ensures r.Ok? ==> i < r.next <= |s|
    decreases |s| - i, 3
  {
    var str := ParseString(s, i);
    if str.Ok? then Ok(Str(str.value), str.next)
    else
      var b := ParseBool(s, i);
      if b.Ok? then Ok(Boolean(b.value), b.next)
      else
        var n := ParseNumber(s, i, num);
        if n.Ok? then Ok(Number(n.value), n.next)
        else
          var o := ParseObject(s, i, num);
          if o.Ok? then Ok(ObjectValue(o.value), o.next)
          else
            var a := ParseArray(s, i, num);
            if a.Ok? then Ok(ArrayValue(a.value), a.next)
            else
              var z := Literal(s, i, "null");
              if z.Ok? then Ok(Null, z.next) else Fail
  }

  /** A member of an object: a string, a colon and a value. */
  function ParsePair(s: string, i: nat, num: NumberLexer): (r: Parsed<Pair>)
    requires i <= |s|
    ensures r.Ok? ==> i < r.next <= |s|
    decreases |s| - i, 0
  {
    var key := ParseString(s, i);
    if key.Fail? then Fail
    else
      var colon := Literal(s, key.next, ":");
      if colon.Fail? then Fail
      else
        var v := ParseValue(s, colon.next, num);
        if v.Fail? then Fail else Ok(Pair(key.value, v.value), v.next)
  }

  /** The member list of an object: one pair or more, separated by commas. */
  function ParsePairs(s: string, i: nat, num: NumberLexer): (r: Parsed<seq<Pair>>)
    requires i <= |s|
    ensures r.Ok? ==> i < r.next <= |s| && |r.value| > 0
    decreases |s| - i, 1
  {
    var p := ParsePair(s, i, num);
    if p.Fail? then Fail
    else
      var more := MorePairs(s, p.next, num);
      Ok([p.value] + more.value, more.next)
  }

  /** The repetition of comma and pair inside the list; it stops before a comma that no pair follows. */
  function MorePairs(s: string, i: nat, num: NumberLexer): (r: Parsed<seq<Pair>>)
    requires i <= |s|
    ensures r.Ok? && i <= r.next <= |s|
    decreases |s| - i, 1
  {
    var comma := Literal(s, i, ",");
    if comma.Fail? then Ok([], i)
    else
      var p := ParsePair(s, comma.next, num);
      if p.Fail? then Ok([], i)
      else
        var more := MorePairs(s, p.next, num);
        Ok([p.value] + more.value, more.next)
  }

  /** An object: braces around an optional list of pairs; the Object is built from the pairs. */
  function ParseObject(s: string, i: nat, num: NumberLexer): (r: Parsed<Object>)
    requires i <= |s|
    ensures r.Ok? ==> i < r.next <= |s|
    decreases |s| - i, 2
  {
    var open := Literal(s, i, "{");
    if open.Fail? then Fail
    else
      var members := ParsePairs(s, open.next, num);
      var pairs := if members.Ok? then members.value else [];
      var close := Literal(s, if members.Ok? then members.next else open.next, "}");
      if close.Fail? then Fail else Ok(FromPairs(pairs), close.next)
  }

  /** The element list of an array: one object or more, separated by commas. */
  function ParseObjects(s: string, i: nat, num: NumberLexer): (r: Parsed<seq<Object>>)
    requires i <= |s|
    ensures r.Ok? ==> i < r.next <= |s| && |r.value| > 0
    decreases |s| - i, 3
  {
    var o := ParseObject(s, i, num);
    if o.Fail? then Fail
    else
      var more := MoreObjects(s, o.next, num);
      Ok([o.value] + more.value, more.next)
  }

  /** The repetition of comma and object inside the list. */
  function MoreObjects(s: string, i: nat, num: NumberLexer): (r: Parsed<seq<Object>>)
    requires i <= |s|
    ensures r.Ok? && i <= r.next <= |s|
    decreases |s| - i, 3
  {
    var comma := Literal(s, i, ",");
    if comma.Fail? then Ok([], i)
    else
      var o := ParseObject(s, comma.next, num);
      if o.Fail? then Ok([], i)
      else
        var more := MoreObjects(s, o.next, num);
        Ok([o.value] + more.value, more.next)
  }

  /** An array: brackets around an optional list of objects. */
  function ParseArray(s: string, i: nat, num: NumberLexer): (r: Parsed<Array>)
    requires i <= |s|
    ensures r.Ok? ==> i < r.next <= |s|
    decreases |s| - i, 2
  {
    var open := Literal(s, i, "[");
    if open.Fail? then Fail
    else
      var elements := ParseObjects(s, open.next, num);
      var objects := if elements.Ok? then elements.value else [];
      var close := Literal(s, if elements.Ok? then elements.next else open.next, "]");
      if close.Fail? then Fail else Ok(Array(objects), close.next)
  }

  /** The Object load accepts, or None when it prints Fail; like the std::map it models, its keys are in order. */
  function Parse(buffer: string, num: NumberLexer): (r: Option<Object>)
    ensures r.Some? ==> Sorted(r.value.entries)
  {
    var r := ParseObject(buffer, 0, num);
    if r.Ok? && SkipSpaces(buffer, r.next) == |buffer| then Some(r.value) else None
  }

  /**
   * load: phrase_parse advances begin over the object and the white space
   * after it; ok is the flag load prints (OK when the object matched and begin
   * reached the end). When the object rule matched, result holds its Object
   * even if text follows; when it did not, result is an empty Object here, of
   * which nothing is claimed.
   */
  method Load(buffer: string, num: NumberLexer) returns (result: Object, ok: bool)
    ensures ok <==> Parse(buffer, num).Some?
    ensures ok ==> result == Parse(buffer, num).value
    ensures ParseObject(buffer, 0, num).Ok? ==> result == ParseObject(buffer, 0, num).value
  {
    result := Object([]);
    var begin := 0;
    var r := ParseObject(buffer, begin, num);
    var isSuccess := r.Ok?;
    if isSuccess {
      result := r.value;
      begin := SkipSpaces(buffer, r.next);
    }
    ok := isSuccess && begin == |buffer|;
  }
}
