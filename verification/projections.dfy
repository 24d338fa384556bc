/**
 The lodash pipelines the terms and languages resources use as results:
 `_.getOr`, `_.keyBy` and `_.mapValues`, composed as
 `_.flow([_.getOr([], collection), _.keyBy(keyField), _.mapValues(_.getOr(d, valueField))])`.
 */
module Projections {
  import opened Wrappers
  import opened OrderedMaps
  import opened Values
  import opened Coercion

  /** `_.getOr(d, k)(v)`: the property when it is defined, else the default. */
  function GetOr(d: Value, k: string, v: Value): Value {
    var found := Prop(v, k);
    if found.Nil? then d else found
  }

  /** What lodash's collection functions visit: a list's items, an object's
      values in key order, a text's characters; nothing in anything else. */
  function Members(v: Value): seq<Value> {
    match v
    case List(items) => items
    case Obj(fs) => ValuesOf(fs)
    case Str(s) => seq(|s|, i requires 0 <= i < |s| => Str([s[i]]))
    case _ => []
  }

  /** The key `_.keyBy(f)` files an item under: `String(item[f])`. */
  function KeyOf(item: Value, f: string): string {
    ToText(Prop(item, f))
  }

  /** `_.keyBy(f)`: each item assigned under its key in turn. */
  function KeyBy(items: seq<Value>, f: string): OMap<Value>
    decreases |items|
  {
    if |items| == 0 then []
    else
      var last := items[|items| - 1];
      Put(KeyBy(items[..|items| - 1], f), KeyOf(last, f), last)
  }

  /** `_.mapValues(g)`: every value mapped, keys and order kept. */
  function MapValues(m: OMap<Value>, g: Value -> Value): OMap<Value>
    decreases |m|
  {
    if |m| == 0 then [] else [(m[0].0, g(m[0].1))] + MapValues(m[1..], g)
  }

  /** The whole pipeline applied to a response. */
  function IndexBy(collection: string, keyField: string, valueField: string, d: Value, response: Value): Value {
    var items := Members(GetOr(List([]), collection, response));
    Obj(MapValues(KeyBy(items, keyField), item => GetOr(d, valueField, item)))
  }

  /** Item `i` is the last item filed under key `k`. */
  predicate IsLastKeyed(items: seq<Value>, f: string, k: string, i: int) {
    0 <= i < |items| && KeyOf(items[i], f) == k &&
    forall j | i < j < |items| :: KeyOf(items[j], f) != k
  }

  /** A sequence with each element's later repeats removed. */
  function Dedup(ks: seq<string>): seq<string>
    decreases |ks|
  {
    if |ks| == 0 then []
    else
      var init := Dedup(ks[..|ks| - 1]);
      if ks[|ks| - 1] in ks[..|ks| - 1] then init else init + [ks[|ks| - 1]]
  }

  /** The keys of the items in item order. */
  function ItemKeys(items: seq<Value>, f: string): (ks: seq<string>)
    ensures |ks| == |items|
    ensures forall i | 0 <= i < |items| :: ks[i] == KeyOf(items[i], f)
  {
    seq(|items|, i requires 0 <= i < |items| => KeyOf(items[i], f))
  }

  /** A key is absent exactly when no item has it. */
  lemma {:induction false} KeyByAbsent(items: seq<Value>, f: string, k: string)
    ensures Get(KeyBy(items, f), k).None? <==> forall i | 0 <= i < |items| :: KeyOf(items[i], f) != k
    decreases |items|
  {
    if |items| > 0 {
      var n := |items|;
      var init := items[..n - 1];
      var last := items[n - 1];
      KeyByAbsent(init, f, k);
      GetPut(KeyBy(init, f), KeyOf(last, f), last, k);
      assert (forall i | 0 <= i < n :: KeyOf(items[i], f) != k) <==>
        (forall i | 0 <= i < n - 1 :: KeyOf(init[i], f) != k) && KeyOf(last, f) != k by {
        assert forall i | 0 <= i < n - 1 :: init[i] == items[i];
      }
    }
  }

  /** A key reads as the last item filed under it: a later item replaces an
      earlier one with the same key. */
  lemma {:induction false} KeyByLast(items: seq<Value>, f: string, k: string, i: int)
    requires IsLastKeyed(items, f, k, i)
    ensures Get(KeyBy(items, f), k) == Some(items[i])
    decreases |items|
  {
    var n := |items|;
    var init := items[..n - 1];
    var last := items[n - 1];
    GetPut(KeyBy(init, f), KeyOf(last, f), last, k);
    if i < n - 1 {
      assert KeyOf(last, f) != k;
      assert init[i] == items[i];
      assert IsLastKeyed(init, f, k, i) by {
        forall j | i < j < |init| ensures KeyOf(init[j], f) != k {
          assert init[j] == items[j];
        }
      }
      KeyByLast(init, f, k, i);
    }
  }

  /** The keys are the item keys, each once, in order of first appearance. */
  lemma {:induction false} KeyByKeys(items: seq<Value>, f: string)
    ensures Keys(KeyBy(items, f)) == Dedup(ItemKeys(items, f))
    decreases |items|
  {
    if |items| > 0 {
      var n := |items|;
      var init := items[..n - 1];
      var last := items[n - 1];
      KeyByKeys(init, f);
      KeysPut(KeyBy(init, f), KeyOf(last, f), last);
      var ks := ItemKeys(items, f);
      assert ks[..n - 1] == ItemKeys(init, f);
      DedupMembers(ItemKeys(init, f));
    }
  }

  /** Deduplication keeps exactly the elements present. */
  lemma {:induction false} DedupMembers(ks: seq<string>)
    ensures forall k :: k in Dedup(ks) <==> k in ks
    decreases |ks|
  {
    if |ks| > 0 {
      var init := ks[..|ks| - 1];
      DedupMembers(init);
      assert ks == init + [ks[|ks| - 1]];
    }
  }

  /** Deduplication leaves no repeats. */
  lemma {:induction false} DedupDistinct(ks: seq<string>)
    ensures forall i, j | 0 <= i < j < |Dedup(ks)| :: Dedup(ks)[i] != Dedup(ks)[j]
    decreases |ks|
  {
    if |ks| > 0 {
      var init := ks[..|ks| - 1];
      DedupDistinct(init);
      DedupMembers(init);
    }
  }

  /** Mapping values keeps the keys and maps each read. */
  lemma {:induction false} MapValuesGet(m: OMap<Value>, g: Value -> Value, k: string)
    ensures Keys(MapValues(m, g)) == Keys(m)
    ensures Get(MapValues(m, g), k) == if Get(m, k).Some? then Some(g(Get(m, k).value)) else None
    decreases |m|
  {
    if |m| > 0 {
      MapValuesGet(m[1..], g, k);
      var r := MapValues(m, g);
      assert r[1..] == MapValues(m[1..], g);
      assert Keys(r) == [m[0].0] + Keys(MapValues(m[1..], g));
      assert Keys(m) == [m[0].0] + Keys(m[1..]);
    }
  }

  /**
   The pipeline files each member of the response's collection under its
   key, in order of first appearance, with the value field of the last
   member with that key (the default when it has none); a key no member
   has is absent.
   */
  lemma IndexByGet(collection: string, keyField: string, valueField: string, d: Value, response: Value, k: string)
    ensures IndexBy(collection, keyField, valueField, d, response).Obj?
    ensures Keys(IndexBy(collection, keyField, valueField, d, response).fields) ==
      Dedup(ItemKeys(Members(GetOr(List([]), collection, response)), keyField))
    ensures var items := Members(GetOr(List([]), collection, response));
      && (Get(IndexBy(collection, keyField, valueField, d, response).fields, k).None? <==>
          forall i | 0 <= i < |items| :: KeyOf(items[i], keyField) != k)
      && (forall i | IsLastKeyed(items, keyField, k, i) ::
          Get(IndexBy(collection, keyField, valueField, d, response).fields, k) == Some(GetOr(d, valueField, items[i])))
  {
    var items := Members(GetOr(List([]), collection, response));
    var g := item => GetOr(d, valueField, item);
    KeyByAbsent(items, keyField, k);
    forall i | IsLastKeyed(items, keyField, k, i)
      ensures Get(KeyBy(items, keyField), k) == Some(items[i])
    {
      KeyByLast(items, keyField, k, i);
    }
    KeyByKeys(items, keyField);
    MapValuesGet(KeyBy(items, keyField), g, k);
  }
}
