/**
 Response cleanup (`cleanup` in src/utils/xml.js): the pass that turns the
 tree the XML parser returns into the plain value a caller sees. Leaf text is
 coerced, `xmlns` leaves, empty leaves and deprecated sub-maps are dropped,
 plural collections (`<clients><client/>…</clients>`) become lists, and the
 four pagination fields of a collection are lifted to its parent.

 The parser runs with `explicitArray: false`, `mergeAttrs: true` and
 `emptyTag: undefined`, so each element is a text, an empty (undefined)
 value, a map of its attributes and children, or — when a name repeats — a
 list of such items.
 */
module XmlCleanup {
  import opened Wrappers
  import opened OrderedMaps
  import opened DecimalText
  import opened Values
  import opened Coercion

  /** What the parser returns for one element. */
  datatype Raw =
    | Text(s: string)              // text-only element (or attribute)
    | Empty                        // empty element: undefined
    | Node(children: OMap<Raw>)    // attributes and child elements by name
    | Repeated(items: seq<Raw>)    // a name that occurs more than once

  /**
   Which variant of the pass to run.
   - `coerceHoisted`: hoisted pagination fields are coerced like leaves
     (the source copies the raw text).
   - `listItems`: a collection's items, and the items of any repeated
     element, are built one per element (the source passes a lone text item
     of a collection, and each text item of a repeated element, through the
     map-building pass, which walks a text character by character).
   */
  datatype Mode = Mode(coerceHoisted: bool, listItems: bool)

  /** The pass as the source writes it. */
  const AsWritten := Mode(false, false)
  /** The pass as callers and tests expect it: pagination fields are
      numbers, and each element of a collection or of a repeated name is
      one item. */
  const Intended := Mode(true, true)

  /** The pagination fields, in the order they are lifted. */
  const PagingKeys: seq<string> := ["page", "per_page", "pages", "total"]

  /** Plurals that are not the singular plus a trailing `s`. */
  const IrregularPlurals: OMap<string> := [
    ("categories", "category"),
    ("staff_members", "member"),
    ("taxes", "tax"),
    ("time_entries", "time_entry"),
    ("default_terms", "terms"),
    ("currencies", "currency")
  ]

  /** The candidate singular of a key: from the irregular table, else the key without one trailing `s`. */
  function Singular(key: string): string {
    match Get(IrregularPlurals, key)
    case Some(s) => s
    case None => if |key| > 0 && key[|key| - 1] == 's' then key[..|key| - 1] else key
  }

  /** JavaScript truthiness of a raw parser value. */
  predicate RawTruthy(r: Raw) {
    match r
    case Text(s) => s != ""
    case Empty => false
    case Node(_) => true
    case Repeated(_) => true
  }

  /** A sub-map whose `deprecated` field is truthy. */
  predicate Deprecated(cs: OMap<Raw>) {
    RawTruthy(Get(cs, "deprecated").GetOr(Empty))
  }

  /**
   The sub-map under `key` is a plural collection: the key is a name (not a
   list index), it has a singular different from itself, and the sub-map
   holds a defined value under that singular.
   */
  predicate IsPlural(indexed: bool, key: string, cs: OMap<Raw>) {
    && !indexed
    && Singular(key) != key
    && IndexOfKey(cs, Singular(key)) < |cs|
    && !cs[IndexOfKey(cs, Singular(key))].1.Empty?
  }

  /** All four pagination fields are present. */
  predicate HasPaging(cs: OMap<Raw>) {
    forall j | 0 <= j < |PagingKeys| :: PagingKeys[j] in Keys(cs)
  }

  /** The plain value of an uncoerced parser value. */
  function RawValue(r: Raw): Value {
    match r
    case Text(s) => Str(s)
    case Empty => Nil
    case Node(cs) => Obj(seq(|cs|, i requires 0 <= i < |cs| => (cs[i].0, RawValue(cs[i].1))))
    case Repeated(items) => List(seq(|items|, i requires 0 <= i < |items| => RawValue(items[i])))
  }

  /** The value a pagination field takes when it is lifted. */
  function HoistedValue(m: Mode, r: Raw): Value {
    if m.coerceHoisted && r.Text? then ParseValue(r.s) else RawValue(r)
  }

  /** Lift the pagination fields `PagingKeys[j..]` of `cs` onto `acc`, in order. */
  function Hoist(m: Mode, acc: OMap<Value>, cs: OMap<Raw>, j: nat := 0): OMap<Value>
    requires j <= |PagingKeys|
    decreases |PagingKeys| - j
  {
    if j == |PagingKeys| then acc
    else
      var k := PagingKeys[j];
      Hoist(m, Put(acc, k, HoistedValue(m, Get(cs, k).GetOr(Empty))), cs, j + 1)
  }

  /** `castArray` in src/utils/xml.js: a list stays, a map with a truthy
      field `1` becomes its values, anything else a one-item list. */
  function CastArray(v: Value): (r: Value)
    ensures r.List?
  {
    match v
    case List(_) => v
    case Obj(fs) => if Truthy(Prop(v, "1")) then List(ValuesOf(fs)) else List([v])
    case _ => List([v])
  }

  /** Number of entries the pass iterates over. */
  function EntryCount(r: Raw): nat {
    match r
    case Text(s) => |s|
    case Empty => 0
    case Node(cs) => |cs|
    case Repeated(items) => |items|
  }

  /** The key of entry `i`: a child's name, or the index written as digits. */
  function EntryName(r: Raw, i: nat): string
    requires i < EntryCount(r)
  {
    if r.Node? then r.children[i].0 else NatDigits(i)
  }

  /** The keys the pass iterates over, in order. */
  function EntryNames(r: Raw): (ns: seq<string>)
    ensures |ns| == EntryCount(r)
    ensures forall i | 0 <= i < EntryCount(r) :: ns[i] == EntryName(r, i)
  {
    seq(EntryCount(r), i requires 0 <= i < EntryCount(r) => EntryName(r, i))
  }

  /**
   The cleaned value of a parser value: always a map. A text is walked
   character by character (keys "0", "1", …), a list by index, a map by
   child name.
   */
  function CleanupIn(m: Mode, r: Raw): (v: Value)
    ensures v.Obj?
    decreases r, 4
  {
    match r
    case Text(s) => Obj(seq(|s|, i requires 0 <= i < |s| => (NatDigits(i), ParseValue([s[i]]))))
    case Empty => Obj([])
    case Node(_) => Obj(Fold(m, r, |r.children|))
    case Repeated(_) => Obj(Fold(m, r, |r.items|))
  }

  /** The result after the first `n` entries of a map or list. */
  function Fold(m: Mode, r: Raw, n: nat): OMap<Value>
    requires r.Node? || r.Repeated?
    requires n <= EntryCount(r)
    decreases r, 3, n
  {
    if n == 0 then [] else Step(m, r, n - 1, Fold(m, r, n - 1))
  }

  /** One entry of a map or list: write its value under its key, lifting
      the pagination fields first when it is a paged collection. */
  function Step(m: Mode, r: Raw, i: nat, acc: OMap<Value>): OMap<Value>
    requires r.Node? || r.Repeated?
    requires i < EntryCount(r)
    decreases r, 2
  {
    var key := EntryName(r, i);
    var value := if r.Node? then r.children[i].1 else r.items[i];
    match EntryOut(m, r.Repeated?, key, value)
    case None => acc
    case Some(v) =>
      var lifted := if Lifts(r.Repeated?, key, value) then Hoist(m, acc, value.children) else acc;
      Put(lifted, key, v)
  }

  /** The entry is a paged collection whose pagination fields are lifted. */
  predicate Lifts(indexed: bool, key: string, value: Raw) {
    value.Node? && !Deprecated(value.children) && IsPlural(indexed, key, value.children)
      && HasPaging(value.children)
  }

  /** The value an entry leaves under its own key, or None when it is dropped. */
  function EntryOut(m: Mode, indexed: bool, key: string, value: Raw): Option<Value>
    decreases value, 5
  {
    match value
    case Text(s) => if key == "xmlns" then None else Some(ParseValue(s))
    case Empty => None
    case Repeated(items) => Some(List(seq(|items|, j requires 0 <= j < |items| => ItemValue(m, items[j]))))
    case Node(cs) =>
      if Deprecated(cs) then None
      else if IsPlural(indexed, key, cs) then Some(Unwrap(m, cs[IndexOfKey(cs, Singular(key))].1))
      else Some(CleanupIn(m, value))
  }

  /** One item of a repeated element. */
  function ItemValue(m: Mode, item: Raw): Value
    decreases item, 5
  {
    if m.listItems && item.Text? then ParseValue(item.s) else CleanupIn(m, item)
  }

  /** The list a plural collection becomes, from the value under its singular. */
  function Unwrap(m: Mode, r: Raw): (v: Value)
    ensures v.List?
    decreases r, 5
  {
    if !m.listItems then CastArray(CleanupIn(m, r))
    else
      match r
      case Text(s) => List([ParseValue(s)])
      case Node(_) => List([CleanupIn(m, r)])
      case Repeated(_) => List(ValuesOf(CleanupIn(m, r).fields))
      case Empty => List([])
  }

  /** The pass as the rest of the model uses it: both corrections applied. */
  function Cleanup(r: Raw): (v: Value)
    ensures v.Obj?
  {
    CleanupIn(Intended, r)
  }

  /** The pass as the source writes it. */
  function CleanupAsWritten(r: Raw): (v: Value)
    ensures v.Obj?
  {
    CleanupIn(AsWritten, r)
  }
}
