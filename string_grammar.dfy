/**
 * StringGrammar: a quoted text whose content is kept verbatim. A content
 * item is one character other than the quote and the backslash, or one of
 * the two-character sequences backslash-quote and backslash-backslash; a
 * string is a quote, any number of items, and a closing quote.
 *
 * The rules carry the skipper and no lexeme[] directive, so white space is
 * skipped before the opening quote, before every content character and
 * before the closing quote: it never reaches the content.
 */
module StringGrammar {
  import opened Options
  import opened Skipper

  /** A character that is a content item by itself: anything but the quote, the backslash and white space (which the skipper removes). */
  predicate PlainChar(c: char)
  {
    c != '"' && c != '\\' && !IsSpace(c)
  }

  /** A content the string rule can produce: plain characters and the two-character sequences \" and \\. */
  predicate ValidContent(t: string)
    decreases |t|
  {
    if t == [] then true
    else if PlainChar(t[0]) then ValidContent(t[1..])
    else |t| >= 2 && t[0] == '\\' && (t[1] == '"' || t[1] == '\\') && ValidContent(t[2..])
  }

  /** The text with its white space removed. */
  function Squeeze(s: string): string
  {
    if s == [] then [] else (if IsSpace(s[0]) then [] else [s[0]]) + Squeeze(s[1..])
  }

  lemma {:induction false} SqueezeAppend(a: string, b: string)
    ensures Squeeze(a + b) == Squeeze(a) + Squeeze(b)
  {
    if a != [] {
      assert (a + b)[1..] == a[1..] + b;
      SqueezeAppend(a[1..], b);
    } else {
      assert a + b == b;
    }
  }

  /** A text without white space. */
  predicate NoSpace(s: string)
  {
    forall k :: 0 <= k < |s| ==> !IsSpace(s[k])
  }

  /**
   * A content item at j (white space already skipped): the length of the item there,
   * 1 for a plain character, 2 for \" or \\, and 0 when none matches.
   */
  function ItemLength(s: string, j: nat): (n: nat)
    requires j <= |s|
    ensures n <= 2 && j + n <= |s|
  {
    if j < |s| && PlainChar(s[j]) then 1
    else if j + 1 < |s| && s[j] == '\\' && (s[j + 1] == '"' || s[j + 1] == '\\') then 2
    else 0
  }

  /** Puts an item in front of the content that follows it. */
  function Prepend(item: string, r: Parsed<string>): Parsed<string>
  {
    if r.Ok? then Ok(item + r.value, r.next) else Fail
  }

  /** Content items, then the closing quote: the content from position i up to and including that quote. */
  function Content(s: string, i: nat): (r: Parsed<string>)
    requires i <= |s|
    ensures r.Ok? ==> i < r.next <= |s|
    decreases |s| - i
  {
    var j := SkipSpaces(s, i);
    var n := ItemLength(s, j);
    if n > 0 then Prepend(s[j..j + n], Content(s, j + n))
    else if j < |s| && s[j] == '"' then Ok([], j + 1)
    else Fail
  }

  /** A string: the content of the quoted text starting (after white space) at i. */
  function ParseString(s: string, i: nat): (r: Parsed<string>)
    requires i <= |s|
    ensures r.Ok? ==> i < r.next <= |s|
  {
    var j := SkipSpaces(s, i);
    if j < |s| && s[j] == '"' then Content(s, j + 1) else Fail
  }

  /** A string that opens right at i: the content starts after the quote. */
  lemma StringAt(s: string, i: nat)
    requires i < |s| && s[i] == '"'
    ensures ParseString(s, i) == Content(s, i + 1)
  {
    assert SkipSpaces(s, i) == i;
  }

  lemma {:induction false} SqueezeSpaces(s: string, i: nat, j: nat)
    requires i <= j <= |s|
    requires forall k :: i <= k < j ==> IsSpace(s[k])
    ensures Squeeze(s[i..j]) == []
    decreases j - i
  {
    if i < j {
      assert s[i..j][1..] == s[i + 1..j];
      SqueezeSpaces(s, i + 1, j);
    }
  }

  /** Squeezing s[i..k] splits at any skipped stretch followed by the rest. */
  lemma SqueezeSplit(s: string, i: nat, j: nat, k: nat)
    requires i <= j <= k <= |s|
    ensures Squeeze(s[i..k]) == Squeeze(s[i..j]) + Squeeze(s[j..k])
  {
    assert s[i..k] == s[i..j] + s[j..k];
    SqueezeAppend(s[i..j], s[j..k]);
  }

  /** Skipped white space, then the token s[j..m], then the rest up to k. */
  lemma SqueezeToken(s: string, i: nat, j: nat, m: nat, k: nat)
    requires i <= j <= m <= k <= |s|
    requires forall x :: i <= x < j ==> IsSpace(s[x])
    requires forall x :: j <= x < m ==> !IsSpace(s[x])
    ensures Squeeze(s[i..k]) == s[j..m] + Squeeze(s[m..k])
  {
    SqueezeSpaces(s, i, j);
    SqueezeSplit(s, i, j, k);
    SqueezeSplit(s, j, m, k);
    NoSpaceSqueeze(s[j..m]);
  }

  /** What ContentSound establishes about Content(s, i) == Ok(t, e). */
  ghost predicate SoundContent(s: string, i: nat, t: string, e: nat)
  {
    && ValidContent(t)
    && i < e <= |s| && s[e - 1] == '"'
    && Squeeze(s[i..e]) == t + "\""
  }

  /** One content item s[j..m] (after the white space from i) in front of a sound rest. */
  lemma SoundStep(s: string, i: nat, j: nat, m: nat, t': string, e: nat)
    requires i <= j < m <= |s|
    requires forall x :: i <= x < j ==> IsSpace(s[x])
    requires m == j + ItemLength(s, j)
    requires SoundContent(s, m, t', e)
    ensures SoundContent(s, i, s[j..m] + t', e)
  {
    SqueezeToken(s, i, j, m, e);
    assert (s[j..m] + t')[m - j..] == t';
    if m == j + 1 {
      assert (s[j..m] + t')[0] == s[j];
    } else {
      assert (s[j..m] + t')[0] == s[j] && (s[j..m] + t')[1] == s[j + 1];
    }
  }

  lemma {:induction false} ContentSound(s: string, i: nat, t: string, e: nat)
    requires i <= |s|
    requires Content(s, i) == Ok(t, e)
    ensures SoundContent(s, i, t, e)
    decreases |s| - i
  {
    var j := SkipSpaces(s, i);
    var n := ItemLength(s, j);
    SkippedAreSpaces(s, i);
    if n > 0 {
      var t' := Content(s, j + n).value;
      ContentSound(s, j + n, t', e);
      SoundStep(s, i, j, j + n, t', e);
    } else {
      SqueezeToken(s, i, j, j + 1, e);
      assert s[j..j + 1] == [s[j]];
    }
  }

  /**
   * What the string rule accepts: the content is a valid content, the match
   * ends with the closing quote, and the matched text without its white space
   * is the content between two quotes.
   */
  lemma StringSound(s: string, i: nat)
    requires i <= |s|
    requires ParseString(s, i).Ok?
    ensures ValidContent(ParseString(s, i).value)
    ensures s[ParseString(s, i).next - 1] == '"'
    ensures Squeeze(s[i..ParseString(s, i).next]) == "\"" + ParseString(s, i).value + "\""
  {
    var j := SkipSpaces(s, i);
    var e := ParseString(s, i).next;
    SkippedAreSpaces(s, i);
    ContentSound(s, j + 1, ParseString(s, i).value, e);
    SqueezeToken(s, i, j, j + 1, e);
    assert s[j..j + 1] == [s[j]];
  }

  /** Content reads the item at i, when there is one, and continues after it. */
  lemma ContentItem(s: string, i: nat, n: nat)
    requires i <= |s| && SkipSpaces(s, i) == i && n > 0 && ItemLength(s, i) == n
    ensures Content(s, i) == Prepend(s[i..i + n], Content(s, i + n))
  {
  }

  /** The first item of a valid content t at i: its length n, and the rest of t after it. */
  lemma CompleteStep(s: string, i: nat, t: string, n: nat)
    requires ValidContent(t) && t != [] && At(s, i, t + "\"")
    requires n == if PlainChar(t[0]) then 1 else 2
    ensures n <= |t| && ValidContent(t[n..]) && At(s, i + n, t[n..] + "\"")
    ensures SkipSpaces(s, i) == i && ItemLength(s, i) == n
    ensures s[i..i + n] + t[n..] == t
  {
    assert s[i] == (t + "\"")[0] == t[0];
    if n == 2 {
      assert s[i + 1] == (t + "\"")[1] == t[1];
    }
    assert s[i + n..i + |t| + 1] == (t + "\"")[n..];
    assert (t + "\"")[n..] == t[n..] + "\"";
    assert s[i..i + n] == t[..n];
    assert t[..n] + t[n..] == t;
  }

  lemma {:induction false} ContentComplete(s: string, i: nat, t: string)
    requires ValidContent(t)
    requires At(s, i, t + "\"")
    ensures Content(s, i) == Ok(t, i + |t| + 1)
    decreases |t|
  {
    if t == [] {
      assert s[i] == (t + "\"")[0] == '"';
    } else {
      var n: nat := if PlainChar(t[0]) then 1 else 2;
      CompleteStep(s, i, t, n);
      ContentComplete(s, i + n, t[n..]);
      ContentItem(s, i, n);
    }
  }

  /** Every valid content between two quotes is accepted, and returned verbatim. */
  lemma StringComplete(t: string, rest: string)
    requires ValidContent(t)
    ensures ParseString("\"" + t + "\"" + rest, 0) == Ok(t, |t| + 2)
  {
    var s := "\"" + t + "\"" + rest;
    assert s[0] == '"' && !IsSpace(s[0]);
    assert s[1..1 + |t + "\""|] == t + "\"";
    ContentComplete(s, 1, t);
  }

  /** On a text without white space the string rule succeeds exactly on a quoted valid content. */
  lemma StringAcceptsNoSpace(s: string)
    requires NoSpace(s)
    ensures ParseString(s, 0).Ok? <==> exists t :: ValidContent(t) && At(s, 0, "\"" + t + "\"")
  {
    if ParseString(s, 0).Ok? {
      var t := ParseString(s, 0).value;
      var e := ParseString(s, 0).next;
      StringSound(s, 0);
      NoSpaceSqueeze(s[..e]);
      assert s[0..e] == s[..e];
      assert At(s, 0, "\"" + t + "\"");
    }
    if exists t :: ValidContent(t) && At(s, 0, "\"" + t + "\"") {
      var t :| ValidContent(t) && At(s, 0, "\"" + t + "\"");
      assert s == "\"" + t + "\"" + s[|t| + 2..];
      StringComplete(t, s[|t| + 2..]);
    }
  }

  lemma {:induction false} NoSpaceSqueeze(s: string)
    requires NoSpace(s)
    ensures Squeeze(s) == s
  {
    if s != [] {
      NoSpaceSqueeze(s[1..]);
      assert s == [s[0]] + s[1..];
    }
  }

  /**
   * A text the content rule reads item by item without meeting its end: content
   * items, with white space anywhere between them (the skipper removes it).
   */
  predicate SpacedContent(t: string)
    decreases |t|
  {
    if t == [] then true
    else if IsSpace(t[0]) || PlainChar(t[0]) then SpacedContent(t[1..])
    else |t| >= 2 && t[0] == '\\' && (t[1] == '"' || t[1] == '\\') && SpacedContent(t[2..])
  }

  /** Every valid content is also a spaced one (with no white space in it). */
  lemma {:induction false} ValidIsSpaced(t: string)
    requires ValidContent(t)
    ensures SpacedContent(t)
    decreases |t|
  {
    if t != [] {
      if PlainChar(t[0]) {
        ValidIsSpaced(t[1..]);
      } else {
        ValidIsSpaced(t[2..]);
      }
    }
  }

  /** White space at i is skipped: the content rule reads on from i + 1. */
  lemma ContentSpace(s: string, i: nat)
    requires i < |s| && IsSpace(s[i])
    ensures Content(s, i) == Content(s, i + 1)
  {
    assert SkipSpaces(s, i) == SkipSpaces(s, i + 1);
  }

  /**
   * A backslash followed by anything but '"' or '\\' ends the content without a
   * closing quote, whatever items and white space precede it.
   */
  lemma BadEscapeFails(t: string, c: char, rest: string)
    requires SpacedContent(t)
    requires c != '"' && c != '\\'
    ensures ParseString("\"" + t + "\\" + [c] + rest, 0) == Fail
  {
    var s := "\"" + t + "\\" + [c] + rest;
    assert s[0] == '"' && !IsSpace(s[0]);
    BadEscapeContent(s, 1, t);
  }

  /** The first item of a spaced content t at i, when s holds t from i on and t opens with an item. */
  lemma ItemStep(s: string, i: nat, t: string, n: nat)
    requires SpacedContent(t) && t != [] && !IsSpace(t[0]) && i + |t| <= |s| && s[i..i + |t|] == t
    requires n == if PlainChar(t[0]) then 1 else 2
    ensures n <= |t| && SpacedContent(t[n..]) && s[i + n..i + |t|] == t[n..]
    ensures SkipSpaces(s, i) == i && ItemLength(s, i) == n
  {
    assert s[i] == t[0];
    if n == 2 {
      assert s[i + 1] == t[1];
    }
    assert s[i + n..i + |t|] == s[i..i + |t|][n..];
  }

  /** White space opening t at i: s holds the rest of t from i + 1 on. */
  lemma SpaceStep(s: string, i: nat, t: string)
    requires SpacedContent(t) && t != [] && IsSpace(t[0]) && i + |t| <= |s| && s[i..i + |t|] == t
    ensures SpacedContent(t[1..]) && s[i + 1..i + |t|] == t[1..] && IsSpace(s[i])
  {
    assert s[i] == t[0];
    assert s[i + 1..i + |t|] == s[i..i + |t|][1..];
  }

  /** A backslash at b that starts no item: the text ends after it, or neither a quote nor a backslash follows. */
  predicate BadEscape(s: string, b: nat)
  {
    b < |s| && s[b] == '\\' && (b + 1 == |s| || (s[b + 1] != '"' && s[b + 1] != '\\'))
  }

  /** The content rule fails right at such a backslash. */
  lemma BadEscapeAt(s: string, i: nat)
    requires BadEscape(s, i)
    ensures Content(s, i) == Fail
  {
    assert SkipSpaces(s, i) == i && ItemLength(s, i) == 0;
  }

  lemma {:induction false} BadEscapeContent(s: string, i: nat, t: string)
    requires SpacedContent(t)
    requires i + |t| < |s|
    requires s[i..i + |t|] == t
    requires BadEscape(s, i + |t|)
    ensures Content(s, i) == Fail
    decreases |t|
  {
    if t == [] {
      BadEscapeAt(s, i);
    } else {
      if IsSpace(t[0]) {
        SpaceStep(s, i, t);
        BadEscapeContent(s, i + 1, t[1..]);
        ContentSpace(s, i);
      } else {
        var n: nat := if PlainChar(t[0]) then 1 else 2;
        ItemStep(s, i, t, n);
        BadEscapeContent(s, i + n, t[n..]);
        ContentItem(s, i, n);
      }
    }
  }

  /** A backslash as the last character of the input fails the string, whatever comes before it. */
  lemma TrailingBackslashFails(t: string)
    requires SpacedContent(t)
    ensures ParseString("\"" + t + "\\", 0) == Fail
  {
    var s := "\"" + t + "\\";
    assert s[0] == '"' && !IsSpace(s[0]);
    assert s[1..1 + |t|] == t;
    BadEscapeContent(s, 1, t);
  }

  /** A string whose closing quote is missing fails once the input ends, white space or not. */
  lemma UnterminatedFails(t: string)
    requires SpacedContent(t)
    ensures ParseString("\"" + t, 0) == Fail
  {
    var s := "\"" + t;
    assert s[0] == '"' && !IsSpace(s[0]);
    UnterminatedContent(s, 1, t);
  }

  lemma {:induction false} UnterminatedContent(s: string, i: nat, t: string)
    requires SpacedContent(t)
    requires i + |t| == |s|
    requires s[i..] == t
    ensures Content(s, i) == Fail
    decreases |t|
  {
    assert s[i..i + |t|] == t;
    if t != [] {
      if IsSpace(t[0]) {
        SpaceStep(s, i, t);
        assert s[i + 1..] == t[1..];
        UnterminatedContent(s, i + 1, t[1..]);
        ContentSpace(s, i);
      } else {
        var n: nat := if PlainChar(t[0]) then 1 else 2;
        ItemStep(s, i, t, n);
        assert s[i + n..] == t[n..];
        UnterminatedContent(s, i + n, t[n..]);
        ContentItem(s, i, n);
      }
    }
  }

  // Acceptance of every string, white space inside the quotes included.

  /** A spaced content followed by a quote is read in full; the result is the content with its white space removed. */
  lemma SpacedContentComplete(s: string, i: nat, t: string)
    requires SpacedContent(t)
    requires i + |t| < |s| && s[i..i + |t|] == t && s[i + |t|] == '"'
    ensures Content(s, i) == Ok(Squeeze(t), i + |t| + 1)
  {
    SpacedRead(s, i, i + |t|);
  }

  /** The same, by position: the spaced content s[i..e] and the quote at e. */
  lemma {:induction false} SpacedRead(s: string, i: nat, e: nat)
    requires i <= e < |s| && SpacedContent(s[i..e]) && s[e] == '"'
    ensures Content(s, i) == Ok(Squeeze(s[i..e]), e + 1)
    decreases e - i
  {
    if i == e {
      assert SkipSpaces(s, i) == i && ItemLength(s, i) == 0;
    } else {
      var n: nat := if IsSpace(s[i]) || PlainChar(s[i]) then 1 else 2;
      SpacedRest(s, i, e, n);
      SpacedRead(s, i + n, e);
      if IsSpace(s[i]) {
        SpaceRead(s, i, e);
      } else {
        ItemRead(s, i, e, n);
      }
    }
  }

  /** The first character or item of the spaced content s[i..e], and the spaced content after it. */
  lemma SpacedRest(s: string, i: nat, e: nat, n: nat)
    requires i < e <= |s| && SpacedContent(s[i..e])
    requires n == if IsSpace(s[i]) || PlainChar(s[i]) then 1 else 2
    ensures i + n <= e && SpacedContent(s[i + n..e])
    ensures !IsSpace(s[i]) ==> SkipSpaces(s, i) == i && ItemLength(s, i) == n
  {
    assert s[i..e][0] == s[i];
    if n == 2 {
      assert s[i..e][1] == s[i + 1];
    }
    assert s[i..e][n..] == s[i + n..e];
  }

  /** White space at i: reading from i is reading from i + 1. */
  lemma SpaceRead(s: string, i: nat, e: nat)
    requires i < e <= |s| && IsSpace(s[i])
    requires Content(s, i + 1) == Ok(Squeeze(s[i + 1..e]), e + 1)
    ensures Content(s, i) == Ok(Squeeze(s[i..e]), e + 1)
  {
    ContentSpace(s, i);
    assert s[i..e][0] == s[i] && s[i..e][1..] == s[i + 1..e];
    assert Squeeze(s[i..e]) == Squeeze(s[i + 1..e]);
  }

  /** An item at i: reading from i is that item, then reading from i + n. */
  lemma ItemRead(s: string, i: nat, e: nat, n: nat)
    requires i + n <= e <= |s| && SkipSpaces(s, i) == i && 0 < n == ItemLength(s, i)
    requires Content(s, i + n) == Ok(Squeeze(s[i + n..e]), e + 1)
    ensures Content(s, i) == Ok(Squeeze(s[i..e]), e + 1)
  {
    ContentItem(s, i, n);
    SqueezeToken(s, i, i, i + n, e);
  }

  /** Every spaced content between two quotes is accepted; the string is that content squeezed. */
  lemma SpacedStringComplete(t: string, rest: string)
    requires SpacedContent(t)
    ensures ParseString("\"" + t + "\"" + rest, 0) == Ok(Squeeze(t), |t| + 2)
  {
    var q := "\"" + t + "\"";
    var s := q + rest;
    assert s[0] == q[0] == '"';
    assert SkipSpaces(s, 0) == 0;
    assert s[0..|q|] == q;
    QuotedComplete(s, 0, t);
  }

  /** Spaced white space from i to j, then a spaced content from j to e, is a spaced content. */
  lemma {:induction false} SpacesThenSpaced(s: string, i: nat, j: nat, e: nat)
    requires i <= j <= e <= |s|
    requires forall x :: i <= x < j ==> IsSpace(s[x])
    requires SpacedContent(s[j..e])
    ensures SpacedContent(s[i..e])
    decreases j - i
  {
    if i < j {
      SpacesThenSpaced(s, i + 1, j, e);
      assert s[i..e][0] == s[i] && s[i..e][1..] == s[i + 1..e];
    }
  }

  /** An item at j, then a spaced content up to e, is a spaced content. */
  lemma ItemThenSpaced(s: string, j: nat, e: nat)
    requires j <= |s| && 0 < ItemLength(s, j) && j + ItemLength(s, j) <= e <= |s|
    requires SpacedContent(s[j..e][ItemLength(s, j)..])
    ensures SpacedContent(s[j..e])
  {
    assert s[j..e][0] == s[j];
    if ItemLength(s, j) == 2 {
      assert s[j..e][1] == s[j + 1];
    }
  }

  /** What the content rule reads, up to the closing quote at e - 1, is a spaced content. */
  lemma {:induction false} ContentSpaced(s: string, i: nat, e: nat)
    requires i <= |s| && Content(s, i).Ok? && Content(s, i).next == e
    ensures s[e - 1] == '"' && SpacedContent(s[i..e - 1])
    decreases |s| - i
  {
    var j := SkipSpaces(s, i);
    var n := ItemLength(s, j);
    SkippedAreSpaces(s, i);
    if n > 0 {
      ContentSpaced(s, j + n, e);
      SpacedStep(s, i, j, n, e);
    } else {
      SpacesThenEnd(s, i, j);
    }
  }

  /** White space from i to j, the item at j, then a spaced content up to e - 1. */
  lemma SpacedStep(s: string, i: nat, j: nat, n: nat, e: nat)
    requires i <= j <= |s| && 0 < n == ItemLength(s, j) && j + n < e <= |s|
    requires forall x :: i <= x < j ==> IsSpace(s[x])
    requires SpacedContent(s[j + n..e - 1])
    ensures SpacedContent(s[i..e - 1])
  {
    assert s[j..e - 1][n..] == s[j + n..e - 1];
    ItemThenSpaced(s, j, e - 1);
    SpacesThenSpaced(s, i, j, e - 1);
  }

  /** White space alone from i to j is a spaced content. */
  lemma SpacesThenEnd(s: string, i: nat, j: nat)
    requires i <= j <= |s|
    requires forall x :: i <= x < j ==> IsSpace(s[x])
    ensures SpacedContent(s[i..j])
  {
    assert SpacedContent(s[j..j]);
    SpacesThenSpaced(s, i, j, j);
  }

  /** The quotes and the content of a quoted text at j. */
  lemma QuotedParts(s: string, j: nat, t: string)
    requires At(s, j, "\"" + t + "\"")
    ensures j + |t| + 1 < |s| && s[j] == '"' && s[j + 1..j + 1 + |t|] == t && s[j + 1 + |t|] == '"'
  {
    var q := "\"" + t + "\"";
    assert |q| == |t| + 2;
    assert s[j] == s[j..j + |q|][0] == q[0];
    assert s[j + 1 + |t|] == s[j..j + |q|][1 + |t|] == q[1 + |t|];
    forall k | 0 <= k < |t|
      ensures s[j + 1..j + 1 + |t|][k] == t[k]
    {
      assert s[j + 1 + k] == s[j..j + |q|][1 + k] == q[1 + k];
    }
  }

  /** Two quotes at j and e - 1 enclose the text between them. */
  lemma QuotedAt(s: string, j: nat, e: nat)
    requires j + 1 < e <= |s| && s[j] == '"' && s[e - 1] == '"'
    ensures At(s, j, "\"" + s[j + 1..e - 1] + "\"")
  {
    var t := s[j + 1..e - 1];
    assert s[j..e] == [s[j]] + t + [s[e - 1]];
  }

  /** A quoted spaced content after white space is a string, and the string rule returns its content squeezed. */
  lemma QuotedComplete(s: string, i: nat, t: string)
    requires i <= |s| && SpacedContent(t) && At(s, SkipSpaces(s, i), "\"" + t + "\"")
    ensures ParseString(s, i) == Ok(Squeeze(t), SkipSpaces(s, i) + |t| + 2)
  {
    var j := SkipSpaces(s, i);
    QuotedParts(s, j, t);
    SpacedContentComplete(s, j + 1, t);
  }

  /** A string match is a quote, a spaced content and a closing quote, after white space. */
  lemma StringQuoted(s: string, i: nat)
    requires i <= |s| && ParseString(s, i).Ok?
    ensures var j := SkipSpaces(s, i); var t := s[j + 1..ParseString(s, i).next - 1];
      SpacedContent(t) && At(s, j, "\"" + t + "\"")
  {
    var j := SkipSpaces(s, i);
    var e := Content(s, j + 1).next;
    assert e == ParseString(s, i).next;
    ContentSpaced(s, j + 1, e);
    QuotedAt(s, j, e);
  }

  /**
   * The string rule succeeds at i exactly when, after white space, a quote,
   * a spaced content t and a closing quote follow; it then returns t squeezed.
   */
  lemma StringAccepts(s: string, i: nat)
    requires i <= |s|
    ensures ParseString(s, i).Ok? <==>
      exists t :: SpacedContent(t) && At(s, SkipSpaces(s, i), "\"" + t + "\"")
    ensures forall t :: SpacedContent(t) && At(s, SkipSpaces(s, i), "\"" + t + "\"") ==>
      ParseString(s, i) == Ok(Squeeze(t), SkipSpaces(s, i) + |t| + 2)
  {
    forall t | SpacedContent(t) && At(s, SkipSpaces(s, i), "\"" + t + "\"")
      ensures ParseString(s, i) == Ok(Squeeze(t), SkipSpaces(s, i) + |t| + 2)
    {
      QuotedComplete(s, i, t);
    }
    if ParseString(s, i).Ok? {
      StringQuoted(s, i);
      var j := SkipSpaces(s, i);
      var t := s[j + 1..ParseString(s, i).next - 1];
      assert SpacedContent(t) && At(s, j, "\"" + t + "\"");
    }
  }
}
