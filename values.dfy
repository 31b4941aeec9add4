/**
 * Python values as the exporter meets them: the scalars JSON can hold,
 * mappings, lists, tuples, sets, and any other object.
 */
module Values {
  import opened Wrappers
  import opened TextUtils

  /** A hashable dictionary key. A key of any other type (a float, a tuple,
      a frozenset, an arbitrary object) is carried with the text `str()`
      gives for it. */
  datatype Key =
    | KStr(s: string)
    | KInt(i: int)
    | KBool(b: bool)
    | KNone
    | KOther(text: string)

  /** A Python value. Floats are carried as the decimal literal they were
      read from; a mapping as its items in iteration order; a set as its
      elements in the order iteration yields them; any other object with the
      text `str()` gives for it. */
  datatype Value =
    | Null
    | Bool(b: bool)
    | Int(i: int)
    | Float(x: Decimal)
    | Str(s: string)
    | Mapping(entries: seq<(Key, Value)>)
    | List(items: seq<Value>)
    | Tuple(items: seq<Value>)
    | Set(items: seq<Value>)
    | Object(text: string)

  // ---------------------------------------------------------------------
  // Dictionaries
  // ---------------------------------------------------------------------

  /** A dictionary's items: a Python dict keeps each key once, at the
      position where it was first inserted. */
  type Entries = seq<(Key, Value)>

  predicate DistinctKeys(es: Entries) {
    forall i, j | 0 <= i < j < |es| :: es[i].0 != es[j].0
  }

  /** The position of key `k`. */
  function IndexOf(es: Entries, k: Key): (r: Option<nat>)
    ensures r.None? <==> forall i | 0 <= i < |es| :: es[i].0 != k
    ensures r.Some? ==> r.value < |es| && es[r.value].0 == k
  {
    if es == [] then None
    else if es[0].0 == k then Some(0)
    else match IndexOf(es[1..], k)
      case None => None
      case Some(i) => Some(i + 1)
  }

  /** `d.get(k)`. */
  function Get(es: Entries, k: Key): Option<Value> {
    match IndexOf(es, k)
    case None => None
    case Some(i) => Some(es[i].1)
  }

  /** `d[k] = v`: an existing key keeps its place and takes the new value; a
      new key goes at the end. */
  function Put(es: Entries, k: Key, v: Value): Entries {
    match IndexOf(es, k)
    case Some(i) => es[i := (k, v)]
    case None => es + [(k, v)]
  }

  /** Inserting the items of `news` one after the other. */
  function PutAll(es: Entries, news: Entries): Entries {
    if news == [] then es
    else
      var last := news[|news| - 1];
      Put(PutAll(es, news[..|news| - 1]), last.0, last.1)
  }

  /** The dict that a display or comprehension yielding `pairs` builds. */
  function DictOf(pairs: Entries): Entries {
    PutAll([], pairs)
  }

  /** `{**a, **b}`. */
  function Merge(a: Entries, b: Entries): Entries {
    DictOf(a + b)
  }

  /** The value the last pair with key `k` carries. */
  function LastValue(pairs: Entries, k: Key): Option<Value> {
    if pairs == [] then None
    else if pairs[|pairs| - 1].0 == k then Some(pairs[|pairs| - 1].1)
    else LastValue(pairs[..|pairs| - 1], k)
  }

  /** The value of the last pair with a key is the value that key ends up
      with. */
  lemma {:induction false} LastValueAt(pairs: Entries, i: nat)
    requires i < |pairs| && forall j | i < j < |pairs| :: pairs[j].0 != pairs[i].0
    ensures LastValue(pairs, pairs[i].0) == Some(pairs[i].1)
  {
    if i < |pairs| - 1 {
      var init := pairs[..|pairs| - 1];
      LastValueAt(init, i);
    }
  }

  /** A put reads back, and leaves every other key alone. */
  lemma GetPut(es: Entries, k: Key, v: Value, k': Key)
    ensures Get(Put(es, k, v), k') == if k' == k then Some(v) else Get(es, k')
  {
    var r := Put(es, k, v);
    match IndexOf(es, k)
    case Some(i) =>
      assert forall j | 0 <= j < |r| :: r[j].0 == es[j].0;
      IndexOfSameKeys(es, r, k');
    case None =>
      IndexOfAppend(es, (k, v), k');
  }

  lemma {:induction false} IndexOfSameKeys(a: Entries, b: Entries, k: Key)
    requires |a| == |b| && forall i | 0 <= i < |a| :: a[i].0 == b[i].0
    ensures IndexOf(a, k) == IndexOf(b, k)
  {
    if a != [] && a[0].0 != k {
      IndexOfSameKeys(a[1..], b[1..], k);
    }
  }

  lemma {:induction false} IndexOfAppend(es: Entries, e: (Key, Value), k: Key)
    requires IndexOf(es, e.0).None?
    ensures IndexOf(es + [e], k) == if IndexOf(es, k).Some? then IndexOf(es, k) else if e.0 == k then Some(|es|) else None
  {
    if es != [] {
      assert (es + [e])[1..] == es[1..] + [e];
      if es[0].0 != k {
        IndexOfAppend(es[1..], e, k);
      }
    }
  }

  /** A key read after a run of inserts has the value the last insert of it
      gave, or its old value when no insert touched it. */
  lemma {:induction false} GetPutAll(es: Entries, news: Entries, k: Key)
    ensures Get(PutAll(es, news), k) == if LastValue(news, k).Some? then LastValue(news, k) else Get(es, k)
  {
    if news != [] {
      var last := news[|news| - 1];
      GetPutAll(es, news[..|news| - 1], k);
      GetPut(PutAll(es, news[..|news| - 1]), last.0, last.1, k);
    }
  }

  /** Inserting keeps the keys distinct, adds at most one entry per insert,
      and every entry is an old one or an inserted one. */
  lemma {:induction false} PutAllShape(es: Entries, news: Entries)
    requires DistinctKeys(es)
    ensures DistinctKeys(PutAll(es, news))
    ensures |PutAll(es, news)| <= |es| + |news|
    ensures forall e | e in PutAll(es, news) :: e in es || e in news
    decreases |news|
  {
    if news != [] {
      var init := news[..|news| - 1];
      var last := news[|news| - 1];
      PutAllShape(es, init);
      var m := PutAll(es, init);
      var r := PutAll(es, news);
      forall e | e in r ensures e in es || e in news {
        var j :| 0 <= j < |r| && r[j] == e;
        if e != last {
          assert j < |m| && e == m[j];
          assert m[j] in m;
          if e in init {
            var i :| 0 <= i < |init| && init[i] == e;
            assert news[i] == e;
          }
        } else {
          assert news[|news| - 1] in news;
        }
      }
      match IndexOf(m, last.0)
      case Some(i) =>
        assert forall j | 0 <= j < |m| :: r[j].0 == m[j].0;
        assert DistinctKeys(r);
      case None =>
        assert forall j | 0 <= j < |m| :: r[j] == m[j];
        assert r[|m|] == last;
        assert DistinctKeys(r);
    }
  }

  function Keys(es: Entries): (ks: seq<Key>)
    ensures |ks| == |es|
  {
    seq(|es|, i requires 0 <= i < |es| => es[i].0)
  }

  /** Building a dict from pairs whose keys are distinct gives those pairs. */
  lemma {:induction false} DictOfDistinct(pairs: Entries)
    requires DistinctKeys(pairs)
    ensures DictOf(pairs) == pairs
  {
    if pairs != [] {
      var init := pairs[..|pairs| - 1];
      var last := pairs[|pairs| - 1];
      assert DistinctKeys(init);
      DictOfDistinct(init);
      assert IndexOf(init, last.0).None?;
      assert init + [last] == pairs;
    }
  }

  /** Inserting into `a` a dict `b` with the same keys in the same order
      replaces every value: the result is `b`. */
  lemma {:induction false} PutAllSameKeys(a: Entries, b: Entries, j: nat)
    requires |a| == |b| && DistinctKeys(a) && j <= |b|
    requires forall i | 0 <= i < |a| :: a[i].0 == b[i].0
    ensures PutAll(a, b[..j]) == b[..j] + a[j..]
  {
    if j > 0 {
      PutAllSameKeys(a, b, j - 1);
      assert b[..j][..j - 1] == b[..j - 1];
      var m := b[..j - 1] + a[j - 1..];
      SpliceKeys(a, b, j - 1);
      IndexOfSameKeys(a, m, b[j - 1].0);
      IndexOfDistinct(a, j - 1);
      SpliceStep(a, b, j);
    }
  }

  lemma SpliceKeys(a: Entries, b: Entries, j: nat)
    requires |a| == |b| && j <= |b|
    requires forall i | 0 <= i < |a| :: a[i].0 == b[i].0
    ensures |b[..j] + a[j..]| == |a|
    ensures forall i | 0 <= i < |a| :: (b[..j] + a[j..])[i].0 == a[i].0
  {
  }

  lemma SpliceStep(a: Entries, b: Entries, j: nat)
    requires |a| == |b| && 0 < j <= |b|
    ensures (b[..j - 1] + a[j - 1..])[j - 1 := b[j - 1]] == b[..j] + a[j..]
  {
    assert b[..j] == b[..j - 1] + [b[j - 1]];
    assert a[j - 1..] == [a[j - 1]] + a[j..];
  }

  lemma IndexOfDistinct(es: Entries, i: nat)
    requires i < |es| && DistinctKeys(es)
    ensures IndexOf(es, es[i].0) == Some(i)
  {
  }

  /** `{**a, **b}` of two dicts with the same keys in the same order is `b`:
      every value of `b` wins, `None` included. */
  lemma MergeSameKeys(a: Entries, b: Entries)
    requires |a| == |b| && DistinctKeys(a)
    requires forall i | 0 <= i < |a| :: a[i].0 == b[i].0
    ensures Merge(a, b) == b
  {
    PutAllConcat([], a, b);
    DictOfDistinct(a);
    PutAllSameKeys(a, b, |b|);
    assert b[..|b|] == b && a[|b|..] == [];
  }

  lemma {:induction false} PutAllConcat(es: Entries, x: Entries, y: Entries)
    ensures PutAll(es, x + y) == PutAll(PutAll(es, x), y)
  {
    if y == [] {
      assert x + y == x;
    } else {
      assert (x + y)[..|x + y| - 1] == x + y[..|y| - 1];
      assert (x + y)[|x + y| - 1] == y[|y| - 1];
      PutAllConcat(es, x, y[..|y| - 1]);
    }
  }
}
