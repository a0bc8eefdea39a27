/**
 * Phrase-level parsing with the boost::spirit::ascii::space skipper: every
 * primitive parser first skips the ASCII white space in front of it.
 */
module Skipper {
  import opened Options

  /** ascii::space: the characters std::isspace accepts, space and \t \n \v \f \r. */
  predicate IsSpace(c: char)
  {
    c == ' ' || '\t' <= c <= '\r'
  }

  /** The pre-skip: the first position at or after i that is not white space. */
  function SkipSpaces(s: string, i: nat): (j: nat)
    requires i <= |s|
    ensures i <= j <= |s|
    ensures j == |s| || !IsSpace(s[j])
    decreases |s| - i
  {
    if i < |s| && IsSpace(s[i]) then SkipSpaces(s, i + 1) else i
  }

  /** Everything the pre-skip passes over is white space. */
  lemma {:induction false} SkippedAreSpaces(s: string, i: nat)
    requires i <= |s|
    ensures forall k :: i <= k < SkipSpaces(s, i) ==> IsSpace(s[k])
    decreases |s| - i
  {
    if i < |s| && IsSpace(s[i]) {
      SkippedAreSpaces(s, i + 1);
    }
  }

  /** Skipping is idempotent: skipping again from a skipped position stays there. */
  lemma SkipSpacesIdempotent(s: string, i: nat)
    requires i <= |s|
    ensures SkipSpaces(s, SkipSpaces(s, i)) == SkipSpaces(s, i)
  {
  }

  /** Skipping reaches the end exactly when only white space is left. */
  lemma SkipSpacesToEnd(s: string, i: nat)
    requires i <= |s|
    ensures SkipSpaces(s, i) == |s| <==> forall k :: i <= k < |s| ==> IsSpace(s[k])
  {
    SkippedAreSpaces(s, i);
  }

  /** A stretch of white space ending at a non-space character (or the end) is exactly what the pre-skip passes over. */
  lemma {:induction false} SkipOver(s: string, i: nat, j: nat)
    requires i <= j <= |s|
    requires forall k :: i <= k < j ==> IsSpace(s[k])
    requires j == |s| || !IsSpace(s[j])
    ensures SkipSpaces(s, i) == j
    decreases j - i
  {
    if i < j {
      SkipOver(s, i + 1, j);
    }
  }

  /** The text at position i starts with t. */
  predicate At(s: string, i: nat, t: string)
  {
    i + |t| <= |s| && s[i..i + |t|] == t
  }

  /** A literal (qi::lit, a character or a string): pre-skip, then t contiguously. */
  function Literal(s: string, i: nat, t: string): (r: Parsed<()>)
    requires i <= |s|
    ensures r.Ok? <==> At(s, SkipSpaces(s, i), t)
    ensures r.Ok? ==> r.next == SkipSpaces(s, i) + |t|
  {
    var j := SkipSpaces(s, i);
    if At(s, j, t) then Ok((), j + |t|) else Fail
  }

  /** A literal that matches consumed white space and then exactly t, and stopped at the first non-space character. */
  lemma LiteralSound(s: string, i: nat, t: string)
    requires i <= |s| && Literal(s, i, t).Ok?
    ensures var e := Literal(s, i, t).next;
      && i + |t| <= e <= |s|
      && (forall k :: i <= k < e - |t| ==> IsSpace(s[k]))
      && s[e - |t|..e] == t
      && (e - |t| == |s| || !IsSpace(s[e - |t|]))
  {
    SkippedAreSpaces(s, i);
  }

  /** Conversely, white space followed by t is matched, ending right after t (t must not open with white space). */
  lemma LiteralAfterSpaces(s: string, i: nat, j: nat, t: string)
    requires i <= j <= |s|
    requires forall k :: i <= k < j ==> IsSpace(s[k])
    requires At(s, j, t) && t != [] && !IsSpace(t[0])
    ensures Literal(s, i, t) == Ok((), j + |t|)
  {
    assert s[j] == s[j..j + |t|][0];
    SkipOver(s, i, j);
  }
}
