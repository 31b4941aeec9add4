/**
 * The JSON exporter: `_ensure_serializable`, which turns any value into one
 * that `json.dump` accepts, and the per-record mapping of `export_to_json`.
 */
module Exporters {
  import opened Wrappers
  import opened TextUtils
  import opened Values
  import opened Records

  function DigitChar(d: nat): char
    requires d < 10
  {
    "0123456789"[d]
  }

  function NatText(n: nat): (s: string)
    ensures |s| >= 1
  {
    if n < 10 then [DigitChar(n)] else NatText(n / 10) + [DigitChar(n % 10)]
  }

  /** `str(i)` of an int. */
  function IntText(i: int): string {
    if i < 0 then "-" + NatText(-i) else NatText(i)
  }

  /** `str(k)` of a dictionary key. */
  function KeyText(k: Key): string {
    match k
    case KStr(s) => s
    case KInt(i) => IntText(i)
    case KBool(b) => if b then "True" else "False"
    case KNone => "None"
    case KOther(text) => text
  }

  /** What `json.dump` accepts: scalars, lists of such values, and dicts with
      string keys, each once, and such values. */
  predicate IsJson(v: Value) {
    match v
    case Null => true
    case Bool(_) => true
    case Int(_) => true
    case Float(_) => true
    case Str(_) => true
    case Mapping(es) => DistinctKeys(es) && forall i | 0 <= i < |es| :: es[i].0.KStr? && IsJson(es[i].1)
    case List(xs) => forall i | 0 <= i < |xs| :: IsJson(xs[i])
    case Tuple(_) => false
    case Set(_) => false
    case Object(_) => false
  }

  /** `_ensure_serializable(record)`: scalars as they are; a mapping as the
      dict comprehension `{str(k): ...}` builds it, so keys that print the same
      collapse into one, which keeps its first place and takes its last
      value; lists, tuples and sets as lists; anything else as `str()`. */
  function Normalize(v: Value): Value {
    match v
    case Null => v
    case Bool(_) => v
    case Int(_) => v
    case Float(_) => v
    case Str(_) => v
    case Mapping(es) =>
      Mapping(DictOf(seq(|es|, i requires 0 <= i < |es| => (KStr(KeyText(es[i].0)), Normalize(es[i].1)))))
    case List(xs) => List(seq(|xs|, i requires 0 <= i < |xs| => Normalize(xs[i])))
    case Tuple(xs) => List(seq(|xs|, i requires 0 <= i < |xs| => Normalize(xs[i])))
    case Set(xs) => List(seq(|xs|, i requires 0 <= i < |xs| => Normalize(xs[i])))
    case Object(text) => Str(text)
  }

  /** The pairs the comprehension over a mapping's items yields. */
  function KeyedPairs(es: Entries): (ps: Entries)
    ensures |ps| == |es|
  {
    seq(|es|, i requires 0 <= i < |es| => (KStr(KeyText(es[i].0)), Normalize(es[i].1)))
  }

  lemma NormalizeMapping(es: Entries)
    ensures Normalize(Mapping(es)) == Mapping(DictOf(KeyedPairs(es)))
  {
  }

  /** Whatever goes in, what comes out is JSON. */
  lemma {:induction false} NormalizeIsJson(v: Value)
    ensures IsJson(Normalize(v))
  {
    match v
    case Mapping(es) =>
      var ps := KeyedPairs(es);
      NormalizeMapping(es);
      PutAllShape([], ps);
      var d := DictOf(ps);
      forall i | 0 <= i < |d| ensures d[i].0.KStr? && IsJson(d[i].1) {
        assert d[i] in ps;
        var j :| 0 <= j < |ps| && ps[j] == d[i];
        NormalizeIsJson(es[j].1);
      }
    case List(xs) =>
      forall i | 0 <= i < |xs| ensures IsJson(Normalize(xs[i])) { NormalizeIsJson(xs[i]); }
    case Tuple(xs) =>
      forall i | 0 <= i < |xs| ensures IsJson(Normalize(xs[i])) { NormalizeIsJson(xs[i]); }
    case Set(xs) =>
      forall i | 0 <= i < |xs| ensures IsJson(Normalize(xs[i])) { NormalizeIsJson(xs[i]); }
    case _ =>
  }

  /** A value that is already JSON comes out unchanged. */
  lemma {:induction false} JsonFixpoint(v: Value)
    requires IsJson(v)
    ensures Normalize(v) == v
  {
    match v
    case Mapping(es) =>
      var ps := KeyedPairs(es);
      forall i | 0 <= i < |es| ensures ps[i] == es[i] {
        JsonFixpoint(es[i].1);
      }
      assert ps == es;
      NormalizeMapping(es);
      DictOfDistinct(es);
    case List(xs) =>
      forall i | 0 <= i < |xs| ensures Normalize(xs[i]) == xs[i] { JsonFixpoint(xs[i]); }
      assert Normalize(v).items == xs;
    case _ =>
  }

  /** Normalising twice is normalising once. */
  lemma NormalizeIdempotent(v: Value)
    ensures Normalize(Normalize(v)) == Normalize(v)
  {
    NormalizeIsJson(v);
    JsonFixpoint(Normalize(v));
  }

  /** A mapping keeps each distinct printed key once, so it has no more
      entries than it had. */
  lemma NormalizeMappingSize(es: Entries)
    ensures Normalize(Mapping(es)).Mapping?
    ensures |Normalize(Mapping(es)).entries| <= |es|
  {
    NormalizeMapping(es);
    PutAllShape([], KeyedPairs(es));
  }

  /** Every printed key is in the result with the normalised value of the
      last item that prints to it. */
  lemma NormalizeMappingLookup(es: Entries, i: nat)
    requires i < |es| && forall j | i < j < |es| :: KeyText(es[j].0) != KeyText(es[i].0)
    ensures Get(Normalize(Mapping(es)).entries, KStr(KeyText(es[i].0))) == Some(Normalize(es[i].1))
  {
    var ps := KeyedPairs(es);
    NormalizeMapping(es);
    LastValueAt(ps, i);
    GetPutAll([], ps, KStr(KeyText(es[i].0)));
  }

  /** Lists, tuples and sets become lists of the same length; lists and
      tuples keep their order, each element normalised in place. */
  lemma NormalizeSequence(v: Value)
    requires v.List? || v.Tuple? || v.Set?
    ensures Normalize(v).List? && |Normalize(v).items| == |v.items|
    ensures !v.Set? ==> forall k | 0 <= k < |v.items| :: Normalize(v).items[k] == Normalize(v.items[k])
  {
  }

  /** Two keys that print the same merge: the int key `1` and the string
      key `"1"` leave one entry, with the later value. */
  lemma CollidingKeys()
    ensures Normalize(Mapping([(KInt(1), Str("a")), (KStr("1"), Str("b"))])) == Mapping([(KStr("1"), Str("b"))])
  {
    var es := [(KInt(1), Str("a")), (KStr("1"), Str("b"))];
    assert IntText(1) == "1";
    assert KeyedPairs(es) == [(KStr("1"), Str("a")), (KStr("1"), Str("b"))];
    NormalizeMapping(es);
    SameKeyTwice(KStr("1"), Str("a"), Str("b"));
  }

  lemma SameKeyTwice(k: Key, a: Value, b: Value)
    ensures DictOf([(k, a), (k, b)]) == [(k, b)]
  {
    var ps := [(k, a), (k, b)];
    var one := [(k, a)];
    assert ps[..1] == one && one[..0] == [];
    DictOfDistinct(one);
    assert IndexOf(one, k) == Some(0);
  }

  /** `[_ensure_serializable(r) for r in records]`. */
  function ExportRecords(records: seq<Value>): (out: seq<Value>)
    ensures |out| == |records|
  {
    seq(|records|, k requires 0 <= k < |records| => Normalize(records[k]))
  }

  /** One output element per record, in order, each the record normalised and
      so JSON. */
  lemma ExportRecordsSpec(records: seq<Value>)
    ensures forall k | 0 <= k < |records| ::
      ExportRecords(records)[k] == Normalize(records[k]) && IsJson(ExportRecords(records)[k])
  {
    forall k | 0 <= k < |records| ensures IsJson(Normalize(records[k])) {
      NormalizeIsJson(records[k]);
    }
  }

  /** A business dictionary is JSON already, so exporting leaves it as it
      is. */
  lemma BusinessIsJson(b: Business)
    ensures IsJson(ToDict(b))
    ensures Normalize(ToDict(b)) == ToDict(b)
  {
    ToDictKeysDistinct(b);
    JsonFixpoint(ToDict(b));
  }
}
