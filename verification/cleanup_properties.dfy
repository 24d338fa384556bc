/**
 What response cleanup guarantees: which singular a plural key has, which
 entries survive, what each surviving key holds, when pagination fields are
 lifted, and how a collection becomes a list.
 */
module CleanupProperties {
  import opened Wrappers
  import opened OrderedMaps
  import opened DecimalText
  import opened Values
  import opened Coercion
  import opened XmlCleanup

  // ---------------------------------------------------------------- plurals

  /** The irregular table has no duplicate plural. */
  lemma IrregularDistinct()
    ensures Distinct(IrregularPlurals)
  {
  }

  /** An irregular plural has the singular the table gives it. */
  lemma SingularIrregular(i: nat)
    requires i < |IrregularPlurals|
    ensures Singular(IrregularPlurals[i].0) == IrregularPlurals[i].1
    ensures Singular(IrregularPlurals[i].0) != IrregularPlurals[i].0
  {
    IrregularDistinct();
    GetAt(IrregularPlurals, i);
  }

  /** Any other key is a plural exactly when it ends in `s`, and its
      singular is then the key without that `s`. */
  lemma SingularRegular(key: string)
    requires key !in Keys(IrregularPlurals)
    ensures Singular(key) != key <==> |key| > 0 && key[|key| - 1] == 's'
    ensures Singular(key) != key ==> Singular(key) + "s" == key
  {
    if |key| > 0 && key[|key| - 1] == 's' {
      assert |Singular(key)| < |key|;
      assert key[..|key| - 1] + "s" == key;
    }
  }

  /** `default_terms` holds its items under `terms`. */
  lemma DefaultTermsSingular()
    ensures Singular("default_terms") == "terms"
  {
    SingularIrregular(4);
  }

  /** `clients` holds its items under `client`. */
  lemma ClientsSingular()
    ensures Singular("clients") == "client"
  {
    assert Keys(IrregularPlurals) == ["categories", "staff_members", "taxes", "time_entries", "default_terms", "currencies"];
    SingularRegular("clients");
  }

  /** A sub-map is a plural collection exactly when the key has a singular
      of its own and the sub-map holds a defined value under it. */
  lemma PluralIff(key: string, cs: OMap<Raw>)
    ensures IsPlural(false, key, cs) <==>
      Singular(key) != key && Get(cs, Singular(key)).Some? && !Get(cs, Singular(key)).value.Empty?
  {
  }

  /** List items are never unwrapped, whatever they hold. */
  lemma IndexedNeverPlural(key: string, cs: OMap<Raw>)
    ensures !IsPlural(true, key, cs)
  {
  }

  // ------------------------------------------------------------- hoisting

  /** A key is in the pagination fields from `j` on exactly when it is field
      `j` or in those after it. */
  lemma PagingSuffix(j: nat, k: string)
    requires j < |PagingKeys|
    ensures k in PagingKeys[j..] <==> k == PagingKeys[j] || k in PagingKeys[j + 1..]
  {
    assert PagingKeys[j..] == [PagingKeys[j]] + PagingKeys[j + 1..];
  }

  /** Lifting writes each pagination field and changes no other key. */
  lemma {:induction false} GetHoist(m: Mode, acc: OMap<Value>, cs: OMap<Raw>, j: nat, k: string)
    requires j <= |PagingKeys|
    ensures Get(Hoist(m, acc, cs, j), k) ==
      if k in PagingKeys[j..] then Some(HoistedValue(m, Get(cs, k).GetOr(Empty))) else Get(acc, k)
    decreases |PagingKeys| - j
  {
    if j < |PagingKeys| {
      var p := PagingKeys[j];
      var acc' := Put(acc, p, HoistedValue(m, Get(cs, p).GetOr(Empty)));
      assert Hoist(m, acc, cs, j) == Hoist(m, acc', cs, j + 1);
      GetHoist(m, acc', cs, j + 1, k);
      GetPut(acc, p, HoistedValue(m, Get(cs, p).GetOr(Empty)), k);
      PagingSuffix(j, k);
    } else {
      assert PagingKeys[j..] == [];
    }
  }

  /** Lifting adds exactly the pagination fields and keeps keys distinct. */
  lemma {:induction false} KeysHoist(m: Mode, acc: OMap<Value>, cs: OMap<Raw>, j: nat)
    requires j <= |PagingKeys|
    ensures forall k :: k in Keys(Hoist(m, acc, cs, j)) <==> k in Keys(acc) || k in PagingKeys[j..]
    ensures Distinct(acc) ==> Distinct(Hoist(m, acc, cs, j))
    decreases |PagingKeys| - j
  {
    forall k
      ensures k in Keys(Hoist(m, acc, cs, j)) <==> k in Keys(acc) || k in PagingKeys[j..]
    {
      GetHoist(m, acc, cs, j, k);
    }
    if j < |PagingKeys| {
      var p := PagingKeys[j];
      var acc' := Put(acc, p, HoistedValue(m, Get(cs, p).GetOr(Empty)));
      KeysHoist(m, acc', cs, j + 1);
      if Distinct(acc) {
        DistinctPut(acc, p, HoistedValue(m, Get(cs, p).GetOr(Empty)));
      }
    }
  }

  /** The pagination field names are distinct. */
  lemma PagingKeysDistinct()
    ensures forall i, j | 0 <= i < j < |PagingKeys| :: PagingKeys[i] != PagingKeys[j]
  {
  }

  /** Appending element `j` and then the rest of `s` appends `s[j..]`. */
  lemma SuffixCons<T>(a: seq<T>, s: seq<T>, j: nat)
    requires j < |s|
    ensures a + [s[j]] + s[j + 1..] == a + s[j..]
  {
    assert s[j..] == [s[j]] + s[j + 1..];
  }

  /** Writing field `j` onto a map without the remaining fields appends it
      and leaves the fields after it absent. */
  lemma HoistFreshStep(m: Mode, acc: OMap<Value>, cs: OMap<Raw>, j: nat)
    requires j < |PagingKeys|
    requires forall i | j <= i < |PagingKeys| :: PagingKeys[i] !in Keys(acc)
    ensures var p := PagingKeys[j];
      var acc' := Put(acc, p, HoistedValue(m, Get(cs, p).GetOr(Empty)));
      && Keys(acc') == Keys(acc) + [p]
      && forall i | j + 1 <= i < |PagingKeys| :: PagingKeys[i] !in Keys(acc')
  {
    var p := PagingKeys[j];
    KeysPut(acc, p, HoistedValue(m, Get(cs, p).GetOr(Empty)));
    PagingKeysDistinct();
  }

  /** Lifting onto a map that has none of the remaining pagination fields
      appends them, in order. */
  lemma {:induction false} KeysHoistFresh(m: Mode, acc: OMap<Value>, cs: OMap<Raw>, j: nat)
    requires j <= |PagingKeys|
    requires forall i | j <= i < |PagingKeys| :: PagingKeys[i] !in Keys(acc)
    ensures Keys(Hoist(m, acc, cs, j)) == Keys(acc) + PagingKeys[j..]
    decreases |PagingKeys| - j
  {
    if j < |PagingKeys| {
      var p := PagingKeys[j];
      var acc' := Put(acc, p, HoistedValue(m, Get(cs, p).GetOr(Empty)));
      assert Hoist(m, acc, cs, j) == Hoist(m, acc', cs, j + 1);
      HoistFreshStep(m, acc, cs, j);
      KeysHoistFresh(m, acc', cs, j + 1);
      SuffixCons(Keys(acc), PagingKeys, j);
    } else {
      assert Keys(acc) + [] == Keys(acc);
    }
  }

  /** Lifting onto an empty map gives the four fields in order. */
  lemma KeysHoistEmpty(m: Mode, cs: OMap<Raw>)
    ensures Keys(Hoist(m, [], cs)) == PagingKeys
  {
    KeysHoistFresh(m, [], cs, 0);
    assert Keys<Value>([]) == [];
  }

  // ------------------------------------------------------ one entry, one key

  /** An entry is dropped exactly when it is an `xmlns` text, an empty
      element, or a deprecated sub-map. */
  lemma DroppedIff(m: Mode, indexed: bool, key: string, value: Raw)
    ensures EntryOut(m, indexed, key, value).None? <==>
      (value.Text? && key == "xmlns") || value.Empty? || (value.Node? && Deprecated(value.children))
  {
  }

  /** A kept text leaf holds its coerced value. */
  lemma LeafCoerced(m: Mode, indexed: bool, key: string, s: string)
    requires key != "xmlns"
    ensures EntryOut(m, indexed, key, Text(s)) == Some(ParseValue(s))
  {
  }

  /** A kept sub-map becomes a list exactly when it is a plural collection,
      and is otherwise cleaned as a map under the same key. */
  lemma UnwrapIff(m: Mode, key: string, cs: OMap<Raw>)
    requires !Deprecated(cs)
    ensures EntryOut(m, false, key, Node(cs)).Some?
    ensures EntryOut(m, false, key, Node(cs)).value.List? <==>
      Singular(key) != key && Get(cs, Singular(key)).Some? && !Get(cs, Singular(key)).value.Empty?
    ensures !IsPlural(false, key, cs) ==> EntryOut(m, false, key, Node(cs)) == Some(CleanupIn(m, Node(cs)))
  {
    PluralIff(key, cs);
  }

  /** One step leaves every key other than its own and the pagination
      fields untouched. */
  lemma StepOther(m: Mode, r: Raw, i: nat, acc: OMap<Value>, k: string)
    requires r.Node? || r.Repeated?
    requires i < EntryCount(r)
    requires k !in PagingKeys && k != EntryName(r, i)
    ensures Get(Step(m, r, i, acc), k) == Get(acc, k)
  {
    var key := EntryName(r, i);
    var value := if r.Node? then r.children[i].1 else r.items[i];
    match EntryOut(m, r.Repeated?, key, value)
    case None =>
    case Some(v) =>
      var lifted := if Lifts(r.Repeated?, key, value) then Hoist(m, acc, value.children) else acc;
      GetPut(lifted, key, v, k);
      if Lifts(r.Repeated?, key, value) {
        GetHoist(m, acc, value.children, 0, k);
      }
  }

  /** One step writes what its entry produced under its own key, or leaves
      the key as it was when the entry is dropped. */
  lemma StepOwn(m: Mode, r: Raw, i: nat, acc: OMap<Value>)
    requires r.Node? || r.Repeated?
    requires i < EntryCount(r)
    requires EntryName(r, i) !in PagingKeys
    ensures var out := EntryOut(m, r.Repeated?, EntryName(r, i), if r.Node? then r.children[i].1 else r.items[i]);
      Get(Step(m, r, i, acc), EntryName(r, i)) == if out.Some? then out else Get(acc, EntryName(r, i))
  {
    var key := EntryName(r, i);
    var value := if r.Node? then r.children[i].1 else r.items[i];
    match EntryOut(m, r.Repeated?, key, value)
    case None =>
    case Some(v) =>
      var lifted := if Lifts(r.Repeated?, key, value) then Hoist(m, acc, value.children) else acc;
      GetPut(lifted, key, v, key);
  }

  /** One step adds at most its own key and the pagination fields, and
      keeps keys distinct. */
  lemma StepKeys(m: Mode, r: Raw, i: nat, acc: OMap<Value>)
    requires r.Node? || r.Repeated?
    requires i < EntryCount(r)
    ensures forall k | k in Keys(Step(m, r, i, acc)) :: k in Keys(acc) || k == EntryName(r, i) || k in PagingKeys
    ensures Distinct(acc) ==> Distinct(Step(m, r, i, acc))
  {
    var key := EntryName(r, i);
    var value := if r.Node? then r.children[i].1 else r.items[i];
    match EntryOut(m, r.Repeated?, key, value)
    case None =>
    case Some(v) =>
      var lifted := if Lifts(r.Repeated?, key, value) then Hoist(m, acc, value.children) else acc;
      if Lifts(r.Repeated?, key, value) {
        KeysHoist(m, acc, value.children, 0);
      }
      KeysPut(lifted, key, v);
      if Distinct(acc) {
        DistinctPut(lifted, key, v);
      }
  }

  // ------------------------------------------------------------ whole pass

  /** Every key after `n` entries is one of their names or a pagination
      field, and no key occurs twice. */
  lemma {:induction false} FoldKeys(m: Mode, r: Raw, n: nat)
    requires r.Node? || r.Repeated?
    requires n <= EntryCount(r)
    ensures forall k | k in Keys(Fold(m, r, n)) :: k in EntryNames(r)[..n] || k in PagingKeys
    ensures Distinct(Fold(m, r, n))
  {
    if n > 0 {
      FoldKeys(m, r, n - 1);
      StepKeys(m, r, n - 1, Fold(m, r, n - 1));
      assert EntryNames(r)[..n] == EntryNames(r)[..n - 1] + [EntryName(r, n - 1)];
    }
  }

  /** Distinct numbers have distinct digits. */
  lemma NatDigitsInjective(a: nat, b: nat)
    requires a != b
    ensures NatDigits(a) != NatDigits(b)
  {
    NatDigitsValue(a);
    NatDigitsValue(b);
  }

  /**
   Nothing but the input's own keys and the pagination fields appears in
   the output, and no key appears twice: the result is a well-formed object.
   */
  lemma CleanupKeys(m: Mode, r: Raw)
    ensures forall k | k in Keys(CleanupIn(m, r).fields) :: k in EntryNames(r) || k in PagingKeys
    ensures Distinct(CleanupIn(m, r).fields)
  {
    match r
    case Text(s) =>
      var fs := CleanupIn(m, r).fields;
      assert Keys(fs) == EntryNames(r);
      forall i, j | 0 <= i < j < |fs|
        ensures fs[i].0 != fs[j].0
      {
        NatDigitsInjective(i, j);
      }
    case Empty =>
    case Node(cs) =>
      FoldKeys(m, r, |cs|);
      assert EntryNames(r)[..|cs|] == EntryNames(r);
    case Repeated(items) =>
      FoldKeys(m, r, |items|);
      assert EntryNames(r)[..|items|] == EntryNames(r);
  }

  /** The `n`-th entry leaves every other non-pagination key as it was. */
  lemma FoldStepOther(m: Mode, r: Raw, n: nat, k: string)
    requires r.Node? || r.Repeated?
    requires 0 < n <= EntryCount(r)
    requires k !in PagingKeys && k != EntryName(r, n - 1)
    ensures Get(Fold(m, r, n), k) == Get(Fold(m, r, n - 1), k)
  {
    StepOther(m, r, n - 1, Fold(m, r, n - 1), k);
  }

  /** A key no entry among the first `n` is named after, and that is no
      pagination field, is absent after them. */
  lemma {:induction false} FoldUntouched(m: Mode, r: Raw, n: nat, k: string)
    requires r.Node? || r.Repeated?
    requires n <= EntryCount(r)
    requires k !in PagingKeys
    requires forall j | 0 <= j < n :: EntryName(r, j) != k
    ensures Get(Fold(m, r, n), k) == None
  {
    if n > 0 {
      FoldUntouched(m, r, n - 1, k);
      FoldStepOther(m, r, n, k);
    }
  }

  /** Entries after `i` not named `k` leave `k` as entry `i` left it. */
  lemma {:induction false} FoldAfter(m: Mode, r: Raw, n: nat, i: nat, k: string)
    requires r.Node? || r.Repeated?
    requires i < n <= EntryCount(r)
    requires k !in PagingKeys
    requires forall j | i < j < n :: EntryName(r, j) != k
    ensures Get(Fold(m, r, n), k) == Get(Fold(m, r, i + 1), k)
  {
    if n == i + 1 {
      assert Get(Fold(m, r, n), k) == Get(Fold(m, r, i + 1), k);
    } else {
      assert EntryName(r, n - 1) != k;
      FoldAfter(m, r, n - 1, i, k);
      FoldStepOther(m, r, n, k);
      assert Get(Fold(m, r, n), k) == Get(Fold(m, r, i + 1), k);
    }
  }

  /**
   In a map whose names are distinct, each non-pagination key of the output
   holds exactly what its own entry produced (nothing, when the entry is
   dropped), whatever the other entries are.
   */
  lemma GetCleanupEntry(m: Mode, cs: OMap<Raw>, i: nat)
    requires Distinct(cs)
    requires i < |cs|
    requires cs[i].0 !in PagingKeys
    ensures Get(CleanupIn(m, Node(cs)).fields, cs[i].0) == EntryOut(m, false, cs[i].0, cs[i].1)
  {
    var r := Node(cs);
    var k := cs[i].0;
    FoldAfter(m, r, |cs|, i, k);
    forall j | 0 <= j < i ensures EntryName(r, j) != k {
      assert cs[j].0 != cs[i].0;
    }
    FoldUntouched(m, r, i, k);
    StepOwn(m, r, i, Fold(m, r, i));
  }

  /** A non-pagination key the input lacks is absent from the output. */
  lemma GetCleanupAbsent(m: Mode, cs: OMap<Raw>, k: string)
    requires k !in Keys(cs)
    requires k !in PagingKeys
    ensures Get(CleanupIn(m, Node(cs)).fields, k) == None
  {
    FoldUntouched(m, Node(cs), |cs|, k);
  }

  /** A non-pagination key survives exactly when its entry is not dropped. */
  lemma KeptIff(m: Mode, cs: OMap<Raw>, i: nat)
    requires Distinct(cs)
    requires i < |cs|
    requires cs[i].0 !in PagingKeys
    ensures cs[i].0 in Keys(CleanupIn(m, Node(cs)).fields) <==>
      !((cs[i].1.Text? && cs[i].0 == "xmlns") || cs[i].1.Empty? || (cs[i].1.Node? && Deprecated(cs[i].1.children)))
  {
    GetCleanupEntry(m, cs, i);
    DroppedIff(m, false, cs[i].0, cs[i].1);
  }

  // ------------------------------------------------------------ collections

  /** A list whose items are all live sub-maps is walked into one entry per
      item, keyed by index, in document order. */
  lemma {:induction false} FoldNodes(m: Mode, items: seq<Raw>, n: nat)
    requires n <= |items|
    requires forall j | 0 <= j < |items| :: items[j].Node? && !Deprecated(items[j].children)
    ensures Fold(m, Repeated(items), n) == seq(n, j requires 0 <= j < n => (NatDigits(j), CleanupIn(m, items[j])))
  {
    if n > 0 {
      var r := Repeated(items);
      var prev := Fold(m, r, n - 1);
      FoldNodes(m, items, n - 1);
      assert NatDigits(n - 1) !in Keys(prev) by {
        forall j | 0 <= j < n - 1 ensures Keys(prev)[j] != NatDigits(n - 1) {
          NatDigitsInjective(j, n - 1);
        }
      }
      assert EntryOut(m, true, NatDigits(n - 1), items[n - 1]) == Some(CleanupIn(m, items[n - 1]));
      assert !Lifts(true, NatDigits(n - 1), items[n - 1]);
      assert Fold(m, r, n) == Put(prev, NatDigits(n - 1), CleanupIn(m, items[n - 1]));
      PutAbsent(prev, NatDigits(n - 1), CleanupIn(m, items[n - 1]));
    }
  }

  /** Repeated sub-map items become a list of their cleaned maps, in
      document order, in the source's pass and the corrected one alike. */
  lemma RepeatedKeepOrder(m: Mode, items: seq<Raw>)
    requires |items| >= 2
    requires forall j | 0 <= j < |items| :: items[j].Node? && !Deprecated(items[j].children)
    ensures Unwrap(m, Repeated(items)) == List(seq(|items|, j requires 0 <= j < |items| => CleanupIn(m, items[j])))
  {
    var r := Repeated(items);
    FoldNodes(m, items, |items|);
    var fs := Fold(m, r, |items|);
    assert CleanupIn(m, r) == Obj(fs);
    assert ValuesOf(fs) == seq(|items|, j requires 0 <= j < |items| => CleanupIn(m, items[j]));
    if !m.listItems {
      assert NatDigits(0) == "0" && NatDigits(1) == "1";
      GetSecond(fs, "1");
    }
  }

  /** A key the first entry does not have and the second does reads as the second. */
  lemma GetSecond<V>(m: OMap<V>, k: string)
    requires |m| >= 2 && m[0].0 != k && m[1].0 == k
    ensures Get(m, k) == Some(m[1].1)
  {
    assert m[1..][0] == m[1];
  }

  /** A lone sub-map item becomes a one-item list (as long as it has no
      child named `1`, which no element name can be). */
  lemma LoneItem(m: Mode, cs: OMap<Raw>)
    requires "1" !in Keys(cs)
    ensures Unwrap(m, Node(cs)) == List([CleanupIn(m, Node(cs))])
  {
    CleanupKeys(m, Node(cs));
    assert "1" !in PagingKeys;
    assert "1" !in Keys(CleanupIn(m, Node(cs)).fields);
  }

  /** Casting to a list keeps a list and always gives a list; a map becomes
      its values only when its field `1` is truthy. */
  lemma CastArrayCases(v: Value)
    ensures v.List? ==> CastArray(v) == v
    ensures v.Obj? ==> (CastArray(v).items == ValuesOf(v.fields) <==> Truthy(Prop(v, "1")))
  {
    if v.Obj? && |v.fields| == 1 {
      assert v.fields[0].1 != v;
    }
  }

  // ------------------------------------------------------------- lifting

  /**
   A paged collection alone in its parent: the pagination fields are lifted
   (in order, before the collection) exactly when all four are present, and
   each lifted field holds the sub-map's value.
   */
  lemma LiftedFields(m: Mode, key: string, cs: OMap<Raw>)
    requires key !in PagingKeys
    requires !Deprecated(cs) && IsPlural(false, key, cs)
    ensures Keys(CleanupIn(m, Node([(key, Node(cs))])).fields) == (if HasPaging(cs) then PagingKeys else []) + [key]
    ensures HasPaging(cs) ==> forall j | 0 <= j < |PagingKeys| ::
      Get(CleanupIn(m, Node([(key, Node(cs))])).fields, PagingKeys[j]) ==
        Some(HoistedValue(m, Get(cs, PagingKeys[j]).GetOr(Empty)))
  {
    var r := Node([(key, Node(cs))]);
    var v := Unwrap(m, cs[IndexOfKey(cs, Singular(key))].1);
    var lifted := if HasPaging(cs) then Hoist(m, [], cs) else [];
    assert EntryOut(m, false, key, Node(cs)) == Some(v);
    assert Lifts(false, key, Node(cs)) == HasPaging(cs);
    assert EntryName(r, 0) == key;
    assert Step(m, r, 0, []) == Put(lifted, key, v);
    assert Fold(m, r, 1) == Step(m, r, 0, Fold(m, r, 0));
    if HasPaging(cs) {
      KeysHoistEmpty(m, cs);
    }
    assert key !in Keys(lifted);
    KeysPut(lifted, key, v);
    if HasPaging(cs) {
      forall j | 0 <= j < |PagingKeys|
        ensures Get(Put(lifted, key, v), PagingKeys[j]) == Some(HoistedValue(m, Get(cs, PagingKeys[j]).GetOr(Empty)))
      {
        GetPut(lifted, key, v, PagingKeys[j]);
        GetHoist(m, [], cs, 0, PagingKeys[j]);
      }
    }
  }
}
