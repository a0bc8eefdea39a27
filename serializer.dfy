/**
 * The Serialize visitor: renders a Component as text. Booleans print as the
 * digits 1 and 0, strings are quoted but not re-escaped, object keys are
 * printed without quotes in the map's (ascending) order, and the elements of
 * arrays and objects are separated by commas.
 *
 * Show states the text as a plain join; Serialize builds it the way the
 * visitor does, appending each item and a comma and then cutting the last
 * comma, and is proved to produce Show's text.
 */
module Serializer {
  import opened KeyOrder
  import opened Components

  /** The items separated by commas; no items give the empty text. */
  function Join(items: seq<string>): string
  {
    if |items| == 0 then ""
    else if |items| == 1 then items[0]
    else Join(items[..|items| - 1]) + "," + items[|items| - 1]
  }

  /** Every item followed by a comma: what the loops have built before the last comma is cut. */
  function Terminated(items: seq<string>): string
  {
    if items == [] then "" else Terminated(items[..|items| - 1]) + items[|items| - 1] + ","
  }

  /** The text of one map entry: the key, unquoted, a colon and the value. */
  function ShowEntry(e: Entry, fmt: Double -> string): string
    decreases e, 0
  {
    e.key + ":" + Show(e.value, fmt)
  }

  function EntryItems(es: seq<Entry>, fmt: Double -> string): (items: seq<string>)
    ensures |items| == |es|
    decreases es
  {
    seq(|es|, k requires 0 <= k < |es| => ShowEntry(es[k], fmt))
  }

  function ShowObject(o: Object, fmt: Double -> string): string
    decreases o
  {
    "{" + Join(EntryItems(o.entries, fmt)) + "}"
  }

  function ObjectItems(os: seq<Object>, fmt: Double -> string): (items: seq<string>)
    ensures |items| == |os|
    decreases os
  {
    seq(|os|, k requires 0 <= k < |os| => ShowObject(os[k], fmt))
  }

  function ShowArray(a: Array, fmt: Double -> string): string
    decreases a
  {
    "[" + Join(ObjectItems(a.objects, fmt)) + "]"
  }

  /** The text of a Component; fmt stands for std::to_string on a double. */
  function Show(c: Component, fmt: Double -> string): string
    decreases c
  {
    match c
    case Blank => ""
    case Number(d) => fmt(d)
    case Boolean(b) => if b then "1" else "0"
    case Str(t) => "\"" + t + "\""
    case Null => "null"
    case PairValue(p) => p.name + ":" + Show(p.value, fmt)
    case ArrayValue(a) => ShowArray(a, fmt)
    case ObjectValue(o) => ShowObject(o, fmt)
  }

  /** Appending item and comma, then cutting the last comma, is the plain join. */
  lemma {:induction false} CutLastComma(items: seq<string>)
    ensures var v := Terminated(items);
            (if |v| != 0 then v[..|v| - 1] else v) == Join(items)
  {
    if items != [] {
      TerminatedJoin(items);
    }
  }

  lemma {:induction false} TerminatedJoin(items: seq<string>)
    requires items != []
    ensures Terminated(items) == Join(items) + ","
  {
    var init := items[..|items| - 1];
    if |items| > 1 {
      TerminatedJoin(init);
    }
  }

  /** The keys of the map in its iteration order. */
  function KeySeq(es: seq<Entry>): (ks: seq<string>)
    ensures |ks| == |es|
  {
    seq(|es|, n requires 0 <= n < |es| => es[n].key)
  }

  /**
   * An Object prints as key:value items in ascending key order: the text
   * depends only on which value each key maps to, and ks, the keys listed in
   * ascending order, fixes the order of the items.
   */
  lemma ShowObjectInKeyOrder(o: Object, ks: seq<string>, fmt: Double -> string)
    requires Sorted(o.entries)
    requires Ascending(ks) && forall k :: k in ks <==> k in KeysOf(o.entries)
    ensures ShowObject(o, fmt) ==
      "{" + Join(seq(|ks|, n requires 0 <= n < |ks| => ks[n] + ":" + Show(ValueAt(o.entries, ks[n]), fmt))) + "}"
  {
    var es := o.entries;
    var order := KeySeq(es);
    forall k ensures k in order <==> k in ks {
      KeysIndex(es, k);
      if k in order {
        var n :| 0 <= n < |order| && order[n] == k;
        assert es[n].key == k;
      }
      if k in KeysOf(es) {
        var n :| 0 <= n < |es| && es[n].key == k;
        assert order[n] == k;
      }
    }
    AscendingUnique(order, ks);
    var items := seq(|ks|, n requires 0 <= n < |ks| => ks[n] + ":" + Show(ValueAt(es, ks[n]), fmt));
    forall n | 0 <= n < |ks| ensures EntryItems(es, fmt)[n] == items[n] {
      FindAt(es, n);
      assert order[n] == es[n].key;
    }
    assert EntryItems(es, fmt) == items;
  }

  /**
   * The Object built from a pair list prints each distinct name once, unquoted,
   * in ascending order, with the value of the last pair of that name.
   */
  lemma ShowObjectFromPairs(pairs: seq<Pair>, ks: seq<string>, fmt: Double -> string)
    requires Ascending(ks) && forall k :: k in ks <==> k in Names(pairs)
    ensures ShowObject(FromPairs(pairs), fmt) ==
      "{" + Join(seq(|ks|, n requires 0 <= n < |ks| => ks[n] + ":" + Show(LastValue(pairs, ks[n]), fmt))) + "}"
  {
    var o := FromPairs(pairs);
    FromPairsKeys(pairs);
    ShowObjectInKeyOrder(o, ks, fmt);
    forall n | 0 <= n < |ks| ensures ValueAt(o.entries, ks[n]) == LastValue(pairs, ks[n]) {
      FromPairsFind(pairs, ks[n]);
    }
    assert seq(|ks|, n requires 0 <= n < |ks| => ks[n] + ":" + Show(ValueAt(o.entries, ks[n]), fmt))
        == seq(|ks|, n requires 0 <= n < |ks| => ks[n] + ":" + Show(LastValue(pairs, ks[n]), fmt));
  }

  /** serialize(c): the visitor applied to c. */
  method Serialize(c: Component, fmt: Double -> string) returns (text: string)
    ensures text == Show(c, fmt)
    decreases c
  {
    match c
    case Blank => text := "";
    case Number(d) => text := fmt(d);
    case Boolean(b) => text := if b then "1" else "0";
    case Str(t) => text := "\"" + t + "\"";
    case Null => text := "null";
    case PairValue(p) =>
      var v := Serialize(p.value, fmt);
      text := p.name + ":" + v;
    case ArrayValue(a) => text := SerializeArray(a, fmt);
    case ObjectValue(o) => text := SerializeObject(o, fmt);
  }

  /** The Array case: each object's text and a comma, the last comma cut, in brackets. */
  method SerializeArray(a: Array, fmt: Double -> string) returns (text: string)
    ensures text == ShowArray(a, fmt)
    ensures a.objects == [] ==> text == "[]"
    decreases a
  {
    ghost var items := ObjectItems(a.objects, fmt);
    var v := "";
    for i := 0 to |a.objects|
      invariant v == Terminated(items[..i])
    {
      var item := SerializeObject(a.objects[i], fmt);
      assert items[..i + 1][..i] == items[..i];
      v := v + item + ",";
    }
    assert items[..|a.objects|] == items;
    CutLastComma(items);
    if |v| != 0 {
      v := v[..|v| - 1];
    }
    text := "[" + v + "]";
  }

  /** The Object case: each key:value and a comma, in map order, the last comma cut, in braces. */
  method SerializeObject(o: Object, fmt: Double -> string) returns (text: string)
    ensures text == ShowObject(o, fmt)
    ensures o.entries == [] ==> text == "{}"
    decreases o
  {
    ghost var items := EntryItems(o.entries, fmt);
    var v := "";
    for i := 0 to |o.entries|
      invariant v == Terminated(items[..i])
    {
      var e := o.entries[i];
      var value := Serialize(e.value, fmt);
      assert items[..i + 1][..i] == items[..i];
      assert items[i] == ShowEntry(e, fmt) == e.key + ":" + value;
      assert v + e.key + ":" + value + "," == v + (e.key + ":" + value) + ",";
      v := v + e.key + ":" + value + ",";
    }
    assert items[..|o.entries|] == items;
    CutLastComma(items);
    if |v| != 0 {
      v := v[..|v| - 1];
    }
    text := "{" + v + "}";
  }
}
