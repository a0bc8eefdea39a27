/**
 * The tree that parsing builds: the Component variant and the Pair, Object
 * and Array classes that it holds.
 *
 * An Object's std::map is represented by the sequence of its entries in the
 * order the map iterates them: strictly ascending by key (KeyOrder.Less).
 */
module Components {
  import opened Options
  import opened KeyOrder

  /** A double, kept as its 64-bit IEEE-754 pattern; the model never computes with it. */
  datatype Double = Double(bits: bv64)

  /** boost::variant<blank, double, bool, std::string, Null, Pair, Array, Object>. */
  datatype Component =
    | Blank
    | Number(number: Double)
    | Boolean(boolean: bool)
    | Str(text: string)
    | Null
    | PairValue(pair: Pair)
    | ArrayValue(array: Array)
    | ObjectValue(object: Object)

  /** A member "name": value, produced while parsing an object. */
  datatype Pair = Pair(name: string, value: Component)

  /** One element of an Object's map, std::pair<const std::string, Component>. */
  datatype Entry = Entry(key: string, value: Component)

  /** The entries of the std::map, in its iteration order. */
  datatype Object = Object(entries: seq<Entry>)

  /** An Array holds Objects only, in their original order. */
  datatype Array = Array(objects: seq<Object>)

  /** The std::map invariant: keys strictly ascending, hence unique. */
  ghost predicate Sorted(es: seq<Entry>)
  {
    forall i, j :: 0 <= i < j < |es| ==> Less(es[i].key, es[j].key)
  }

  /** The keys of the map. */
  function KeysOf(es: seq<Entry>): set<string>
  {
    if es == [] then {} else {es[0].key} + KeysOf(es[1..])
  }

  /** The lookup of key k (std::map::find). */
  function Find(es: seq<Entry>, k: string): Option<Component>
  {
    if es == [] then None
    else if es[0].key == k then Some(es[0].value)
    else Find(es[1..], k)
  }

  lemma {:induction false} FindKeys(es: seq<Entry>, k: string)
    ensures Find(es, k).Some? <==> k in KeysOf(es)
  {
    if es != [] {
      FindKeys(es[1..], k);
    }
  }

  lemma {:induction false} KeysIndex(es: seq<Entry>, x: string)
    ensures x in KeysOf(es) <==> exists j :: 0 <= j < |es| && es[j].key == x
  {
    if es != [] {
      KeysIndex(es[1..], x);
      if x in KeysOf(es[1..]) {
        var j :| 0 <= j < |es| - 1 && es[1..][j].key == x;
        assert es[j + 1].key == x;
      }
      if exists j :: 0 <= j < |es| && es[j].key == x {
        var j :| 0 <= j < |es| && es[j].key == x;
        if j > 0 {
          assert es[1..][j - 1].key == x;
        }
      }
    }
  }

  /** Every key of a sorted map is above any key that precedes its first one. */
  lemma KeysAbove(es: seq<Entry>, k: string)
    requires Sorted(es)
    requires es != [] ==> Less(k, es[0].key)
    ensures forall j :: 0 <= j < |es| ==> Less(k, es[j].key)
    ensures forall x :: x in KeysOf(es) ==> Less(k, x)
  {
    forall j | 0 <= j < |es| ensures Less(k, es[j].key) {
      if j > 0 {
        LessTransitive(k, es[0].key, es[j].key);
      }
    }
    forall x | x in KeysOf(es) ensures Less(k, x) {
      KeysIndex(es, x);
    }
  }

  /**
   * _v[k] = v on a std::map: inserts k when it is new and replaces its value
   * when it is present; the map stays sorted and nothing else changes.
   */
  function Put(es: seq<Entry>, k: string, v: Component): (r: seq<Entry>)
    requires Sorted(es)
    ensures Sorted(r)
    ensures KeysOf(r) == KeysOf(es) + {k}
    ensures forall x :: Find(r, x) == if x == k then Some(v) else Find(es, x)
    ensures |r| == if k in KeysOf(es) then |es| else |es| + 1
  {
    if es == [] then [Entry(k, v)]
    else if es[0].key == k then
      KeysAbove(es[1..], k);
      KeyAbsentFromTail(es);
      [Entry(k, v)] + es[1..]
    else if Less(k, es[0].key) then
      KeysAbove(es, k);
      LessIrreflexive(k);
      assert k !in KeysOf(es);
      [Entry(k, v)] + es
    else
      var rest := Put(es[1..], k, v);
      LessTotal(k, es[0].key);
      KeysAbove(es[1..], es[0].key);
      SortedCons(es[0], rest);
      assert es[0].key !in KeysOf(es[1..]) by { LessIrreflexive(es[0].key); }
      [es[0]] + rest
  }

  /** An entry placed before a sorted map whose keys are all above its own keeps it sorted. */
  lemma SortedCons(e: Entry, es: seq<Entry>)
    requires Sorted(es)
    requires forall x :: x in KeysOf(es) ==> Less(e.key, x)
    ensures Sorted([e] + es)
  {
    forall j | 0 <= j < |es| ensures Less(e.key, es[j].key) {
      KeysIndex(es, es[j].key);
    }
  }

  /** In a sorted map the first key does not occur again. */
  lemma KeyAbsentFromTail(es: seq<Entry>)
    requires Sorted(es) && es != []
    ensures es[0].key !in KeysOf(es[1..])
  {
    KeysAbove(es[1..], es[0].key);
    LessIrreflexive(es[0].key);
  }

  /**
   * Object(const std::vector<Pair>&): every pair is stored in turn, so a later
   * pair with the same name overwrites an earlier one.
   */
  function FromPairs(pairs: seq<Pair>): (o: Object)
    ensures Sorted(o.entries)
  {
    if pairs == [] then Object([])
    else
      var last := pairs[|pairs| - 1];
      Object(Put(FromPairs(pairs[..|pairs| - 1]).entries, last.name, last.value))
  }

  /** Every Object in the tree, at any depth, keeps the std::map invariant. */
  ghost predicate SortedTree(c: Component)
    decreases c
  {
    match c
    case PairValue(p) => SortedTree(p.value)
    case ArrayValue(a) => forall k :: 0 <= k < |a.objects| ==> SortedObject(a.objects[k])
    case ObjectValue(o) => SortedObject(o)
    case _ => true
  }

  /** An Object whose own map and every value below it are sorted. */
  ghost predicate SortedObject(o: Object)
    decreases o
  {
    Sorted(o.entries) && ValuesSorted(o.entries)
  }

  ghost predicate ValuesSorted(es: seq<Entry>)
    decreases es
  {
    forall k :: 0 <= k < |es| ==> SortedTree(es[k].value)
  }

  /** Pairs whose values are all sorted trees. */
  ghost predicate PairsSorted(ps: seq<Pair>)
  {
    forall j :: 0 <= j < |ps| ==> SortedTree(ps[j].value)
  }

  /** Objects that are all sorted trees. */
  ghost predicate ObjectsSorted(os: seq<Object>)
  {
    forall j :: 0 <= j < |os| ==> SortedObject(os[j])
  }

  lemma ConsPairsSorted(p: Pair, ps: seq<Pair>)
    requires SortedTree(p.value) && PairsSorted(ps)
    ensures PairsSorted([p] + ps)
  {
    forall j | 0 < j < |[p] + ps| ensures SortedTree(([p] + ps)[j].value) {
      assert ([p] + ps)[j] == ps[j - 1];
    }
  }

  lemma ConsObjectsSorted(o: Object, os: seq<Object>)
    requires SortedObject(o) && ObjectsSorted(os)
    ensures ObjectsSorted([o] + os)
  {
    forall j | 0 < j < |[o] + os| ensures SortedObject(([o] + os)[j]) {
      assert ([o] + os)[j] == os[j - 1];
    }
  }

  /** Storing a sorted tree in a map of sorted trees leaves only sorted trees in it. */
  lemma {:induction false} PutSortedTrees(es: seq<Entry>, k: string, v: Component)
    requires Sorted(es) && ValuesSorted(es) && SortedTree(v)
    ensures ValuesSorted(Put(es, k, v))
  {
    var r := Put(es, k, v);
    if es == [] {
    } else if es[0].key == k {
      assert r == [Entry(k, v)] + es[1..];
      forall n | 0 <= n < |r| ensures SortedTree(r[n].value) {
        if n > 0 {
          assert r[n] == es[n];
        }
      }
    } else if Less(k, es[0].key) {
      assert r == [Entry(k, v)] + es;
      forall n | 0 <= n < |r| ensures SortedTree(r[n].value) {
        if n > 0 {
          assert r[n] == es[n - 1];
        }
      }
    } else {
      var rest := Put(es[1..], k, v);
      assert ValuesSorted(es[1..]) by {
        forall n | 0 <= n < |es| - 1 ensures SortedTree(es[1..][n].value) {
          assert es[1..][n] == es[n + 1];
        }
      }
      PutSortedTrees(es[1..], k, v);
      assert r == [es[0]] + rest;
      forall n | 0 <= n < |r| ensures SortedTree(r[n].value) {
        if n > 0 {
          assert r[n] == rest[n - 1];
        }
      }
    }
  }

  /** The Object built from pairs whose values are sorted trees is a sorted tree itself. */
  lemma {:induction false} FromPairsSorted(pairs: seq<Pair>)
    requires PairsSorted(pairs)
    ensures SortedObject(FromPairs(pairs))
  {
    if pairs != [] {
      var init := pairs[..|pairs| - 1];
      assert forall j :: 0 <= j < |init| ==> init[j] == pairs[j];
      FromPairsSorted(init);
      PutSortedTrees(FromPairs(init).entries, pairs[|pairs| - 1].name, pairs[|pairs| - 1].value);
    }
  }

  /** The names of the pairs. */
  function Names(pairs: seq<Pair>): set<string>
  {
    set i | 0 <= i < |pairs| :: pairs[i].name
  }

  /** The name of an earlier pair is a name of the pairs up to the last one. */
  lemma NameBeforeLast(pairs: seq<Pair>, k: string)
    requires k in Names(pairs) && pairs[|pairs| - 1].name != k
    ensures k in Names(pairs[..|pairs| - 1])
  {
    var i :| 0 <= i < |pairs| && pairs[i].name == k;
    assert pairs[..|pairs| - 1][i] == pairs[i];
  }

  /** The value of the last pair named k, found by searching from the end. */
  function LastValue(pairs: seq<Pair>, k: string): Component
    requires k in Names(pairs)
  {
    var last := pairs[|pairs| - 1];
    if last.name == k then last.value
    else
      NameBeforeLast(pairs, k);
      LastValue(pairs[..|pairs| - 1], k)
  }

  /** The value found at a key of a sorted map is the value stored with it. */
  lemma {:induction false} FindAt(es: seq<Entry>, n: nat)
    requires Sorted(es) && n < |es|
    ensures Find(es, es[n].key) == Some(es[n].value)
  {
    if n > 0 {
      assert Less(es[0].key, es[n].key);
      LessIrreflexive(es[0].key);
      assert es[1..][n - 1] == es[n];
      FindAt(es[1..], n - 1);
    }
  }

  /** The value stored under a key of the map. */
  function ValueAt(es: seq<Entry>, k: string): Component
    requires k in KeysOf(es)
  {
    FindKeys(es, k);
    Find(es, k).value
  }

  /** The loop of the Object constructor, writing each pair into the map in place. */
  method MakeObject(pairs: seq<Pair>) returns (o: Object)
    ensures o == FromPairs(pairs)
  {
    var v: seq<Entry> := [];
    for i := 0 to |pairs|
      invariant v == FromPairs(pairs[..i]).entries
    {
      assert pairs[..i + 1][..i] == pairs[..i];
      v := Put(v, pairs[i].name, pairs[i].value);
    }
    assert pairs[..|pairs|] == pairs;
    o := Object(v);
  }

  /** The Object built from a list of pairs has exactly the pairs' names as keys. */
  lemma {:induction false} FromPairsKeys(pairs: seq<Pair>)
    ensures KeysOf(FromPairs(pairs).entries) == Names(pairs)
  {
    if pairs != [] {
      var init := pairs[..|pairs| - 1];
      FromPairsKeys(init);
      assert Names(pairs) == Names(init) + {pairs[|pairs| - 1].name} by {
        forall x | x in Names(pairs) ensures x in Names(init) + {pairs[|pairs| - 1].name} {
          var i :| 0 <= i < |pairs| && pairs[i].name == x;
          if i < |pairs| - 1 {
            assert init[i] == pairs[i];
          }
        }
        forall x | x in Names(init) ensures x in Names(pairs) {
          var i :| 0 <= i < |init| && init[i].name == x;
          assert pairs[i] == init[i];
        }
      }
    }
  }

  /** Last pair wins: a key maps to the value of the last pair that has that name. */
  lemma {:induction false} FromPairsLastWins(pairs: seq<Pair>, i: nat)
    requires i < |pairs|
    requires forall j :: i < j < |pairs| ==> pairs[j].name != pairs[i].name
    ensures Find(FromPairs(pairs).entries, pairs[i].name) == Some(pairs[i].value)
  {
    var init := pairs[..|pairs| - 1];
    if i < |pairs| - 1 {
      FromPairsLastWins(init, i);
    }
  }

  /**
   * The lookup of any key in the Object built from pairs: the value of the
   * last pair with that name, or nothing when no pair has it.
   */
  lemma {:induction false} FromPairsFind(pairs: seq<Pair>, k: string)
    ensures Find(FromPairs(pairs).entries, k) == if k in Names(pairs) then Some(LastValue(pairs, k)) else None
  {
    if pairs != [] {
      var init := pairs[..|pairs| - 1];
      FromPairsFind(init, k);
      if k != pairs[|pairs| - 1].name {
        if k in Names(pairs) {
          NameBeforeLast(pairs, k);
        }
      } else {
        assert pairs[|pairs| - 1].name in Names(pairs);
      }
    }
  }

  /** A name that no pair carries is not a key. */
  lemma FromPairsAbsent(pairs: seq<Pair>, k: string)
    requires k !in Names(pairs)
    ensures Find(FromPairs(pairs).entries, k) == None
  {
    FromPairsKeys(pairs);
    FindKeys(FromPairs(pairs).entries, k);
  }

  /**
   * A sorted map is determined by its keys and values: two Objects holding
   * the same key/value associations are the same Object, whatever order the
   * pairs came in.
   */
  lemma {:induction false} SortedCanonical(a: seq<Entry>, b: seq<Entry>)
    requires Sorted(a) && Sorted(b)
    requires forall k :: Find(a, k) == Find(b, k)
    ensures a == b
    decreases |a|
  {
    if a != [] {
      assert Find(a, a[0].key).Some?;
    }
    if b != [] {
      assert Find(b, b[0].key).Some?;
    }
    if a != [] && b != [] {
      FindKeys(a, b[0].key);
      FindKeys(b, a[0].key);
      FindKeys(a, a[0].key);
      FindKeys(b, b[0].key);
      KeysAbove(a[1..], a[0].key);
      KeysAbove(b[1..], b[0].key);
      if a[0].key != b[0].key {
        FindKeys(a[1..], b[0].key);
        FindKeys(b[1..], a[0].key);
        LessAsymmetric(a[0].key, b[0].key);
      }
      assert a[0].key == b[0].key;
      assert a[0] == b[0] by {
        assert Find(a, a[0].key) == Some(a[0].value);
        assert Find(b, b[0].key) == Some(b[0].value);
      }
      forall k ensures Find(a[1..], k) == Find(b[1..], k) {
        if k == a[0].key {
          FindKeys(a[1..], k);
          FindKeys(b[1..], k);
          LessIrreflexive(k);
        } else {
          assert Find(a, k) == Find(a[1..], k);
          assert Find(b, k) == Find(b[1..], k);
        }
      }
      SortedCanonical(a[1..], b[1..]);
      assert a == [a[0]] + a[1..] && b == [b[0]] + b[1..];
    }
  }
}
