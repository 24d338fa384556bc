/**
 Insertion-ordered, string-keyed maps: the model of a JavaScript plain
 object's own enumerable properties. `Get` is property read (`obj[k]`),
 `Put` is property assignment (`obj[k] = v`, an existing key keeps its
 position) and `Merge` is object spread (`{...a, ...b}`).
 */
module OrderedMaps {
  import opened Wrappers

  type OMap<V> = seq<(string, V)>

  function Keys<V>(m: OMap<V>): (ks: seq<string>)
    ensures |ks| == |m|
    ensures forall i | 0 <= i < |m| :: ks[i] == m[i].0
  {
    seq(|m|, i requires 0 <= i < |m| => m[i].0)
  }

  /** No key occurs twice: what every JavaScript object satisfies. */
  predicate Distinct<V>(m: OMap<V>) {
    forall i, j | 0 <= i < j < |m| :: m[i].0 != m[j].0
  }

  /** The value of the first entry named `k`, if any. */
  function Get<V>(m: OMap<V>, k: string): (r: Option<V>)
    ensures r.None? <==> k !in Keys(m)
  {
    if |m| == 0 then None
    else if m[0].0 == k then Some(m[0].1)
    else
      assert Keys(m) == [m[0].0] + Keys(m[1..]);
      Get(m[1..], k)
  }

  /** No key of `x` is a key of `y`. */
  predicate Apart<V>(x: OMap<V>, y: OMap<V>) {
    forall i, j | 0 <= i < |x| && 0 <= j < |y| :: x[i].0 != y[j].0
  }

  /** Two maps without duplicates and with no key in common join into one without duplicates. */
  lemma DistinctConcat<V>(x: OMap<V>, y: OMap<V>)
    requires Distinct(x) && Distinct(y) && Apart(x, y)
    ensures Distinct(x + y)
  {
    forall i, j | 0 <= i < j < |x + y|
      ensures (x + y)[i].0 != (x + y)[j].0
    {
      if i >= |x| {
        assert (x + y)[i] == y[i - |x|] && (x + y)[j] == y[j - |x|];
      } else if j >= |x| {
        assert (x + y)[j] == y[j - |x|];
      }
    }
  }

  /** Keys apart from `z` on both sides of a join stay apart from `z`. */
  lemma ApartConcat<V>(x: OMap<V>, y: OMap<V>, z: OMap<V>)
    requires Apart(x, z) && Apart(y, z)
    ensures Apart(x + y, z)
  {
    forall i, j | 0 <= i < |x + y| && 0 <= j < |z|
      ensures (x + y)[i].0 != z[j].0
    {
      if i >= |x| {
        assert (x + y)[i] == y[i - |x|];
      }
    }
  }

  /** Four maps without duplicates and pairwise apart join into one without duplicates. */
  lemma DistinctJoin4<V>(a: OMap<V>, b: OMap<V>, c: OMap<V>, d: OMap<V>)
    requires Distinct(a) && Distinct(b) && Distinct(c) && Distinct(d)
    requires Apart(a, b) && Apart(a, c) && Apart(b, c)
    requires Apart(a, d) && Apart(b, d) && Apart(c, d)
    ensures Distinct(a + b + c + d)
  {
    DistinctConcat(a, b);
    ApartConcat(a, b, c);
    DistinctConcat(a + b, c);
    ApartConcat(a, b, d);
    ApartConcat(a + b, c, d);
    DistinctConcat(a + b + c, d);
  }

  /** A key none of four maps has is not a key of their join. */
  lemma AbsentJoin4<V>(a: OMap<V>, b: OMap<V>, c: OMap<V>, d: OMap<V>, k: string)
    requires k !in Keys(a) && k !in Keys(b) && k !in Keys(c) && k !in Keys(d)
    ensures k !in Keys(a + b + c + d)
  {
    KeysConcat(a, b);
    KeysConcat(a + b, c);
    KeysConcat(a + b + c, d);
  }

  /** In a map without duplicates, entry `i` is what a read of its key finds. */
  lemma {:induction false} GetAt<V>(m: OMap<V>, i: nat)
    requires Distinct(m)
    requires i < |m|
    ensures Get(m, m[i].0) == Some(m[i].1)
  {
    if i > 0 {
      assert m[0].0 != m[i].0;
      assert m[1..][i - 1] == m[i];
      GetAt(m[1..], i - 1);
    }
  }

  /** Whatever a read finds is an entry of the map. */
  lemma {:induction false} GetFound<V>(m: OMap<V>, k: string)
    requires Get(m, k).Some?
    ensures exists i | 0 <= i < |m| :: m[i] == (k, Get(m, k).value)
  {
    if m[0].0 != k {
      GetFound(m[1..], k);
      var i :| 0 <= i < |m[1..]| && m[1..][i] == (k, Get(m, k).value);
      assert m[i + 1] == m[1..][i];
    }
  }

  /** Property assignment: replaces the value of an existing key in place,
      or appends a new entry at the end. */
  function Put<V>(m: OMap<V>, k: string, v: V): (r: OMap<V>)
    ensures |r| == if k in Keys(m) then |m| else |m| + 1
  {
    if |m| == 0 then [(k, v)]
    else if m[0].0 == k then [(k, v)] + m[1..]
    else
      assert Keys(m) == [m[0].0] + Keys(m[1..]);
      [m[0]] + Put(m[1..], k, v)
  }

  /** After `obj[k] = v`, reading `k` gives `v` and every other key is unchanged. */
  lemma {:induction false} GetPut<V>(m: OMap<V>, k: string, v: V, k': string)
    ensures Get(Put(m, k, v), k') == if k' == k then Some(v) else Get(m, k')
  {
    if |m| > 0 && m[0].0 != k {
      GetPut(m[1..], k, v, k');
    }
  }

  /** Keys distribute over concatenation. */
  lemma KeysConcat<V>(x: OMap<V>, y: OMap<V>)
    ensures Keys(x + y) == Keys(x) + Keys(y)
  {
  }

  /** Assignment keeps the key order; a new key goes last. */
  lemma {:induction false} KeysPut<V>(m: OMap<V>, k: string, v: V)
    ensures Keys(Put(m, k, v)) == if k in Keys(m) then Keys(m) else Keys(m) + [k]
  {
    if |m| == 0 {
      assert Keys([(k, v)]) == [k];
    } else {
      KeysConcat([m[0]], m[1..]);
      assert m == [m[0]] + m[1..];
      assert Keys([m[0]]) == [m[0].0];
      if m[0].0 != k {
        KeysPut(m[1..], k, v);
        KeysConcat([m[0]], Put(m[1..], k, v));
      } else {
        KeysConcat([(k, v)], m[1..]);
        assert Keys([(k, v)]) == [k];
      }
    }
  }

  /** Assignment never introduces a duplicate key. */
  lemma DistinctPut<V>(m: OMap<V>, k: string, v: V)
    requires Distinct(m)
    ensures Distinct(Put(m, k, v))
  {
    var r := Put(m, k, v);
    KeysPut(m, k, v);
    assert Keys(r) == if k in Keys(m) then Keys(m) else Keys(m) + [k];
    forall i, j | 0 <= i < j < |r|
      ensures r[i].0 != r[j].0
    {
      assert Keys(r)[i] == r[i].0 && Keys(r)[j] == r[j].0;
      if k !in Keys(m) && j == |m| {
        assert Keys(m)[i] == Keys(r)[i];
      } else {
        assert Keys(m)[i] == Keys(r)[i] && Keys(m)[j] == Keys(r)[j];
      }
    }
  }

  /** Assigning an absent key appends exactly one entry. */
  lemma {:induction false} PutAbsent<V>(m: OMap<V>, k: string, v: V)
    requires k !in Keys(m)
    ensures Put(m, k, v) == m + [(k, v)]
  {
    if |m| > 0 {
      assert Keys(m) == [m[0].0] + Keys(m[1..]);
      PutAbsent(m[1..], k, v);
      assert [m[0]] + (m[1..] + [(k, v)]) == m + [(k, v)];
    }
  }

  /** The entries after the first of a map without duplicates have none either. */
  lemma DistinctTail<V>(m: OMap<V>)
    requires Distinct(m) && |m| > 0
    ensures Distinct(m[1..])
  {
    forall a, b | 0 <= a < b < |m[1..]| ensures m[1..][a].0 != m[1..][b].0 {
      assert m[1..][a] == m[a + 1] && m[1..][b] == m[b + 1];
    }
  }

  /** Updating entry `i` of a map is updating entry `i - 1` of its tail. */
  lemma UpdateTail<V>(m: OMap<V>, i: nat, e: (string, V))
    requires 0 < i < |m|
    ensures [m[0]] + m[1..][i - 1 := e] == m[i := e]
  {
  }

  /** Assigning a present key of a distinct map overwrites its entry in place. */
  lemma {:induction false} PutPresent<V>(m: OMap<V>, i: nat, v: V)
    requires Distinct(m)
    requires i < |m|
    ensures Put(m, m[i].0, v) == m[i := (m[i].0, v)]
  {
    if i > 0 {
      assert m[0].0 != m[i].0;
      assert m[1..][i - 1] == m[i];
      DistinctTail(m);
      PutPresent(m[1..], i - 1, v);
      UpdateTail(m, i, (m[i].0, v));
    }
  }

  /** Object spread `{...a, ...b}`: the entries of `b` assigned in order onto `a`. */
  function Merge<V>(a: OMap<V>, b: OMap<V>): OMap<V>
    decreases |b|
  {
    if |b| == 0 then a else Merge(Put(a, b[0].0, b[0].1), b[1..])
  }

  /** In `{...a, ...b}` a key of `b` reads as in `b`, any other key as in `a`. */
  lemma {:induction false} GetMerge<V>(a: OMap<V>, b: OMap<V>, k: string)
    requires Distinct(b)
    ensures Get(Merge(a, b), k) == if k in Keys(b) then Get(b, k) else Get(a, k)
    decreases |b|
  {
    if |b| > 0 {
      assert Keys(b) == [b[0].0] + Keys(b[1..]);
      assert Distinct(b[1..]) by {
        forall i, j | 0 <= i < j < |b[1..]| ensures b[1..][i].0 != b[1..][j].0 {
          assert b[1..][i] == b[i + 1] && b[1..][j] == b[j + 1];
        }
      }
      GetMerge(Put(a, b[0].0, b[0].1), b[1..], k);
      GetPut(a, b[0].0, b[0].1, k);
      if k == b[0].0 {
        assert k !in Keys(b[1..]) by {
          forall i | 0 <= i < |b[1..]| ensures Keys(b[1..])[i] != k {
            assert b[1..][i] == b[i + 1];
          }
        }
      }
    }
  }

  /** Spreading one distinct object into an empty one copies it unchanged. */
  lemma MergeIntoEmpty<V>(m: OMap<V>)
    requires Distinct(m)
    ensures Merge([], m) == m
  {
    MergeDisjoint([], m);
  }

  /** The first entry of `b` appends to `a`, and the rest of `b` stays clear of the result. */
  lemma DisjointStep<V>(a: OMap<V>, b: OMap<V>)
    requires |b| > 0 && Distinct(b)
    requires forall i | 0 <= i < |b| :: b[i].0 !in Keys(a)
    ensures Put(a, b[0].0, b[0].1) == a + [b[0]]
    ensures forall i | 0 <= i < |b[1..]| :: b[1..][i].0 !in Keys(a + [b[0]])
  {
    PutAbsent(a, b[0].0, b[0].1);
    KeysConcat(a, [b[0]]);
    assert Keys(a + [b[0]]) == Keys(a) + [b[0].0];
    forall i | 0 <= i < |b[1..]| ensures b[1..][i].0 !in Keys(a + [b[0]]) {
      assert b[1..][i] == b[i + 1];
      assert b[0].0 != b[i + 1].0;
    }
  }

  /** Spreading an object none of whose keys are present appends its entries. */
  lemma {:induction false} MergeDisjoint<V>(a: OMap<V>, b: OMap<V>)
    requires Distinct(b)
    requires forall i | 0 <= i < |b| :: b[i].0 !in Keys(a)
    ensures Merge(a, b) == a + b
    decreases |b|
  {
    if |b| > 0 {
      DisjointStep(a, b);
      DistinctTail(b);
      MergeDisjoint(a + [b[0]], b[1..]);
      assert (a + [b[0]]) + b[1..] == a + b;
    }
  }

  /** Spreading a one-entry object is a single assignment. */
  lemma MergeSingle<V>(m: OMap<V>, k: string, v: V)
    ensures Merge(m, [(k, v)]) == Put(m, k, v)
  {
    assert [(k, v)][1..] == [];
  }

  /** Spreading never drops a key and never introduces a duplicate. */
  lemma KeysMerge<V>(a: OMap<V>, b: OMap<V>)
    ensures forall k :: k in Keys(Merge(a, b)) <==> k in Keys(a) || k in Keys(b)
    ensures Distinct(a) ==> Distinct(Merge(a, b))
  {
    MergeKeysIn(a, b);
    if Distinct(a) {
      MergeDistinct(a, b);
    }
  }

  lemma {:induction false} MergeKeysIn<V>(a: OMap<V>, b: OMap<V>)
    ensures forall k :: k in Keys(Merge(a, b)) <==> k in Keys(a) || k in Keys(b)
    decreases |b|
  {
    if |b| > 0 {
      var a' := Put(a, b[0].0, b[0].1);
      KeysPut(a, b[0].0, b[0].1);
      MergeKeysIn(a', b[1..]);
      assert Keys(b) == [b[0].0] + Keys(b[1..]);
      assert Merge(a, b) == Merge(a', b[1..]);
      forall k ensures k in Keys(Merge(a, b)) <==> k in Keys(a) || k in Keys(b) {
        assert k in Keys(a') <==> k in Keys(a) || k == b[0].0;
        assert k in Keys(b) <==> k == b[0].0 || k in Keys(b[1..]);
      }
    }
  }

  lemma {:induction false} MergeDistinct<V>(a: OMap<V>, b: OMap<V>)
    requires Distinct(a)
    ensures Distinct(Merge(a, b))
    decreases |b|
  {
    if |b| > 0 {
      DistinctPut(a, b[0].0, b[0].1);
      MergeDistinct(Put(a, b[0].0, b[0].1), b[1..]);
    }
  }

  /** The entries of `m` whose keys are in `ks`, in `m`'s order. */
  function Restrict<V>(m: OMap<V>, ks: seq<string>): OMap<V>
  {
    if |m| == 0 then []
    else if m[0].0 in ks then [m[0]] + Restrict(m[1..], ks)
    else Restrict(m[1..], ks)
  }

  /** Restricting to `ks` changes no read of a key in `ks`. */
  lemma {:induction false} GetRestrict<V>(m: OMap<V>, ks: seq<string>, k: string)
    requires k in ks
    ensures Get(Restrict(m, ks), k) == Get(m, k)
  {
    if |m| > 0 {
      GetRestrict(m[1..], ks, k);
    }
  }

  /** Position of the first entry named `k`, or `|m|` when there is none. */
  function IndexOfKey<V>(m: OMap<V>, k: string): (i: nat)
    ensures i <= |m|
    ensures i < |m| <==> k in Keys(m)
    ensures i < |m| ==> m[i].0 == k && Get(m, k) == Some(m[i].1)
  {
    if |m| == 0 || m[0].0 == k then 0
    else
      var r := IndexOfKey(m[1..], k);
      assert Keys(m) == [m[0].0] + Keys(m[1..]);
      assert r < |m| - 1 ==> m[1 + r] == m[1..][r];
      1 + r
  }

  /** The values in key order (`_.toArray` of an object). */
  function ValuesOf<V>(m: OMap<V>): (vs: seq<V>)
    ensures |vs| == |m|
    ensures forall i | 0 <= i < |m| :: vs[i] == m[i].1
  {
    seq(|m|, i requires 0 <= i < |m| => m[i].1)
  }
}
