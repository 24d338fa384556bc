/**
 Spreading on the schemas and options of the repository's own request
 examples (test/params.js).
 */
module ParamsExamples {
  import opened Wrappers
  import opened OrderedMaps
  import opened DecimalText
  import opened Values
  import opened Coercion
  import opened TypeStrings
  import opened Params
  import opened ParamsProperties

  /** `array[link]` and `array[link]!` both write items under `<link>`. */
  lemma LinkPath(required: bool)
    ensures ArrayKeys(ArrayPrefix + "link" + "]" + (if required then "!" else "")) == Some(["link"])
  {
    WellFormedArrayType("link", required);
    IndexOfAbsent("link", '.');
  }

  /** A field outside the schema is not written, and a missing optional
      array field is skipped. */
  lemma OmitsPropsOutsideSchema()
    ensures Spread([("links", "array[link]")], [("text", Str("abc"))]) == Ok([])
  {
    var schema := [("links", "array[link]")];
    var obj := [("text", Str("abc"))];
    assert FieldValue(obj, "links") == Nil;
    assert !IsRequired("array[link]");
    MissingField("links", "array[link]");
    assert SpreadField("links", "array[link]", Nil, false) == Ok([]);
    assert schema[1..] == [];
    assert SpreadIn(schema[1..], obj, false) == Ok([]);
    assert SpreadField(schema[0].0, schema[0].1, FieldValue(obj, schema[0].0), false) == Ok([]);
    var none: seq<Xml> := [];
    assert none + none == none;
    assert SpreadIn(schema, obj, false) == Ok(none);
  }

  /**
   As src/utils/params.js orders validation, the same call fails: the
   missing optional field is type-checked as an array before it is skipped.
   */
  lemma AsWrittenRejectsOmittedArray()
    ensures SpreadAsWritten([("links", "array[link]")], [("text", Str("abc"))]) == Err(NotAnArray("links"))
  {
    assert IsArrayType("array[link]");
    AsWrittenRejectsMissingOptional("links", "array[link]");
  }

  /** A missing required field fails, naming it. */
  lemma MissingRequiredFails()
    ensures Spread([("estimate_id", "string!")], [("text", Str("abc"))]) == Err(Required("estimate_id"))
  {
    MissingField("estimate_id", "string!");
  }

  /** A list or a boolean in a scalar field, or a string in an array field, fails. */
  lemma WrongTypesFail()
    ensures Spread([("estimate_id", "string")], [("estimate_id", List([]))]) == Err(NotText("estimate_id"))
    ensures Spread([("estimate_id", "string")], [("estimate_id", Bool(true))]) == Err(NotText("estimate_id"))
    ensures Spread([("lines", "array[line]")], [("lines", Str("text"))]) == Err(NotAnArray("lines"))
  {
    assert FieldValue([("estimate_id", List([]))], "estimate_id") == List([]);
    assert FieldValue([("estimate_id", Bool(true))], "estimate_id") == Bool(true);
    assert FieldValue([("lines", Str("text"))], "lines") == Str("text");
    assert !IsRequired("string") && !IsRequired("array[line]");
    assert !IsArrayType("string");
    assert IsArrayType("array[line]");
  }

  /** The optional `array[line]` type has the one-step path `line`. */
  lemma OptionalLineType()
    ensures IsArrayType("array[line]") && ArrayKeys("array[line]") == Some(["line"])
  {
    WellFormedArrayType("line", false);
    IndexOfAbsent("line", '.');
    assert ArrayPrefix + "line" + "]" + "" == "array[line]";
  }

  /** An item with a field holding a list is unsupported, naming the field's type. */
  lemma NestedUnsupportedFails()
    ensures Spread([("lines", "array[line]")], [("lines", List([Obj([("x", List([]))])]))]) == Err(Unsupported("lines", "object"))
  {
    OptionalLineType();
  }

  /** A boolean item is unsupported. */
  lemma BooleanItemFails()
    ensures Spread([("lines", "array[line]")], [("lines", List([Bool(true)]))]) == Err(Unsupported("lines", "boolean"))
  {
    OptionalLineType();
  }

  /** A one-field schema given just that field spreads as the field does. */
  lemma OneField(prop: string, t: string, v: Value)
    ensures Spread([(prop, t)], [(prop, v)]) == SpreadField(prop, t, v, false)
  {
    var schema := [(prop, t)];
    var obj := [(prop, v)];
    assert FieldValue(obj, prop) == v;
    assert schema[1..] == [];
    var none: seq<Xml> := [];
    assert SpreadIn(schema[1..], obj, false) == Ok(none);
    match SpreadField(prop, t, v, false)
    case Err(e) =>
    case Ok(xs) => assert xs + none == xs;
  }

  /** Two text items on a one-step path: one element per item, holding its text. */
  lemma TwoTextItems(prop: string, p: string, a: string, b: string)
    ensures EmitItems(prop, [p], [Str(a), Str(b)]) == Ok([Leaf(p, a), Leaf(p, b)])
  {
    var items := [Str(a), Str(b)];
    var none: seq<Xml> := [];
    assert items[1..][1..] == [];
    assert EmitItems(prop, [p], items[1..][1..]) == Ok(none);
    assert [Leaf(p, b)] + none == [Leaf(p, b)];
    assert Chain([p], TextBody(b)) == Leaf(p, b) && Chain([p], TextBody(a)) == Leaf(p, a);
    assert items[1..] == [Str(b)];
    assert EmitItems(prop, [p], items[1..]) == Ok([Leaf(p, b)]);
    assert [Leaf(p, a)] + [Leaf(p, b)] == [Leaf(p, a), Leaf(p, b)];
  }

  /** Text items each become a path element holding the text. */
  lemma ArrayOfStrings(a: string, b: string)
    ensures Spread([("links", "array[link]!")], [("links", List([Str(a), Str(b)]))]) ==
      Ok([Branch("links", [Leaf("link", a), Leaf("link", b)])])
  {
    var t := "array[link]!";
    LinkPath(true);
    assert ArrayPrefix + "link" + "]" + "!" == t;
    TwoTextItems("links", "link", a, b);
    ArrayFieldList("links", t, [Str(a), Str(b)], [Leaf("link", a), Leaf("link", b)]);
    OneField("links", t, List([Str(a), Str(b)]));
  }

  /** An item of four text fields: one element per field, in the item's key order. */
  lemma FourTextFields(prop: string, k1: string, k2: string, k3: string, k4: string, v1: string, v2: string, v3: string, v4: string)
    ensures ObjectFields(prop, Obj([(k1, Str(v1)), (k2, Str(v2)), (k3, Str(v3)), (k4, Str(v4))])) ==
      Ok([Leaf(k1, v1), Leaf(k2, v2), Leaf(k3, v3), Leaf(k4, v4)])
  {
    var o := Obj([(k1, Str(v1)), (k2, Str(v2)), (k3, Str(v3)), (k4, Str(v4))]);
    var none: seq<Xml> := [];
    assert ObjectFields(prop, o, 4) == Ok(none);
    assert [Leaf(k4, v4)] + none == [Leaf(k4, v4)];
    assert ObjectFields(prop, o, 3) == Ok([Leaf(k4, v4)]);
    assert [Leaf(k3, v3)] + [Leaf(k4, v4)] == [Leaf(k3, v3), Leaf(k4, v4)];
    assert ObjectFields(prop, o, 2) == Ok([Leaf(k3, v3), Leaf(k4, v4)]);
    assert [Leaf(k2, v2)] + [Leaf(k3, v3), Leaf(k4, v4)] == [Leaf(k2, v2), Leaf(k3, v3), Leaf(k4, v4)];
    assert ObjectFields(prop, o, 1) == Ok([Leaf(k2, v2), Leaf(k3, v3), Leaf(k4, v4)]);
    assert [Leaf(k1, v1)] + [Leaf(k2, v2), Leaf(k3, v3), Leaf(k4, v4)] == [Leaf(k1, v1), Leaf(k2, v2), Leaf(k3, v3), Leaf(k4, v4)];
  }

  /** An object of one text field: one text element. */
  lemma OneTextField(prop: string, k: string, v: string)
    ensures ObjectFields(prop, Obj([(k, Str(v))])) == Ok([Leaf(k, v)])
  {
    var o := Obj([(k, Str(v))]);
    var none: seq<Xml> := [];
    assert ObjectFields(prop, o, 1) == Ok(none);
    assert [Leaf(k, v)] + none == [Leaf(k, v)];
  }

  /** An item whose second field holds a plain object: that field becomes an
      element named after it, holding the object's own fields. */
  lemma NestedObjectFields(prop: string, name: string, rate: string)
    ensures ObjectFields(prop, Obj([("name", Str(name)), ("tax", Obj([("rate", Str(rate))]))])) ==
      Ok([Leaf("name", name), Branch("tax", [Leaf("rate", rate)])])
  {
    var o := Obj([("name", Str(name)), ("tax", Obj([("rate", Str(rate))]))]);
    var none: seq<Xml> := [];
    OneTextField(prop, "rate", rate);
    assert FieldElement(prop, "tax", Obj([("rate", Str(rate))])) == Ok(Branch("tax", [Leaf("rate", rate)]));
    assert ObjectFields(prop, o, 2) == Ok(none);
    assert [Branch("tax", [Leaf("rate", rate)])] + none == [Branch("tax", [Leaf("rate", rate)])];
    assert ObjectFields(prop, o, 1) == Ok([Branch("tax", [Leaf("rate", rate)])]);
    assert [Leaf("name", name)] + [Branch("tax", [Leaf("rate", rate)])] == [Leaf("name", name), Branch("tax", [Leaf("rate", rate)])];
  }

  /** One object item on a one-step path: one element holding the item's fields. */
  lemma OneObjectItem(prop: string, p: string, fs: OMap<Value>, cs: seq<Xml>)
    requires ObjectFields(prop, Obj(fs)) == Ok(cs)
    ensures EmitItems(prop, [p], [Obj(fs)]) == Ok([Branch(p, cs)])
  {
    var items := [Obj(fs)];
    var none: seq<Xml> := [];
    assert items[1..] == [];
    assert EmitItems(prop, [p], items[1..]) == Ok(none);
    assert [Branch(p, cs)] + none == [Branch(p, cs)];
  }

  /** Two object items on a one-step path: one element per item, holding its fields. */
  lemma TwoObjectItems(prop: string, p: string, fs1: OMap<Value>, cs1: seq<Xml>, fs2: OMap<Value>, cs2: seq<Xml>)
    requires ObjectFields(prop, Obj(fs1)) == Ok(cs1)
    requires ObjectFields(prop, Obj(fs2)) == Ok(cs2)
    ensures EmitItems(prop, [p], [Obj(fs1), Obj(fs2)]) == Ok([Branch(p, cs1), Branch(p, cs2)])
  {
    var items := [Obj(fs1), Obj(fs2)];
    OneObjectItem(prop, p, fs2, cs2);
    assert items[1..] == [Obj(fs2)];
    assert [Branch(p, cs1)] + [Branch(p, cs2)] == [Branch(p, cs1), Branch(p, cs2)];
  }

  /** A line item `{name, unit_cost, quantity, type}`, all text. */
  function LineItem(name: string, cost: string, quantity: string, kind: string): OMap<Value> {
    [("name", Str(name)), ("unit_cost", Str(cost)), ("quantity", Str(quantity)), ("type", Str(kind))]
  }

  /** The elements a line item is written as, in its key order. */
  function LineElements(name: string, cost: string, quantity: string, kind: string): seq<Xml> {
    [Leaf("name", name), Leaf("unit_cost", cost), Leaf("quantity", quantity), Leaf("type", kind)]
  }

  /** Two object items each become a path element holding the item's fields in key order. */
  lemma TwoLineItems(n1: string, c1: string, q1: string, t1: string, n2: string, c2: string, q2: string, t2: string)
    ensures Spread([("lines", "array[line]!")], [("lines", List([Obj(LineItem(n1, c1, q1, t1)), Obj(LineItem(n2, c2, q2, t2))]))]) ==
      Ok([Branch("lines", [Branch("line", LineElements(n1, c1, q1, t1)), Branch("line", LineElements(n2, c2, q2, t2))])])
  {
    var t := "array[line]!";
    WellFormedArrayType("line", true);
    IndexOfAbsent("line", '.');
    assert ArrayPrefix + "line" + "]" + "!" == t;
    var fs1, fs2 := LineItem(n1, c1, q1, t1), LineItem(n2, c2, q2, t2);
    var cs1, cs2 := LineElements(n1, c1, q1, t1), LineElements(n2, c2, q2, t2);
    FourTextFields("lines", "name", "unit_cost", "quantity", "type", n1, c1, q1, t1);
    FourTextFields("lines", "name", "unit_cost", "quantity", "type", n2, c2, q2, t2);
    TwoObjectItems("lines", "line", fs1, cs1, fs2, cs2);
    ArrayFieldList("lines", t, [Obj(fs1), Obj(fs2)], [Branch("line", cs1), Branch("line", cs2)]);
    OneField("lines", t, List([Obj(fs1), Obj(fs2)]));
  }

  /** The two line items of the repository's array-of-objects test, written in key order. */
  lemma ArrayOfObjects()
    ensures Spread([("lines", "array[line]!")], [("lines", List([
        Obj([("name", Str("Test")), ("unit_cost", Str("5.00")), ("quantity", Str("5")), ("type", Str("Item"))]),
        Obj([("name", Str("Test Big")), ("unit_cost", Str("15.00")), ("quantity", Str("3")), ("type", Str("Item"))])
      ]))]) ==
      Ok([Branch("lines", [
        Branch("line", [Leaf("name", "Test"), Leaf("unit_cost", "5.00"), Leaf("quantity", "5"), Leaf("type", "Item")]),
        Branch("line", [Leaf("name", "Test Big"), Leaf("unit_cost", "15.00"), Leaf("quantity", "3"), Leaf("type", "Item")])
      ])])
  {
    TwoLineItems("Test", "5.00", "5", "Item", "Test Big", "15.00", "3", "Item");
  }

  /** A plain object inside an object item is written as an element holding its own fields. */
  lemma ArrayOfNestedObjects(name: string, rate: string)
    ensures Spread([("lines", "array[line]!")], [("lines", List([Obj([("name", Str(name)), ("tax", Obj([("rate", Str(rate))]))])]))]) ==
      Ok([Branch("lines", [Branch("line", [Leaf("name", name), Branch("tax", [Leaf("rate", rate)])])])])
  {
    var t := "array[line]!";
    WellFormedArrayType("line", true);
    IndexOfAbsent("line", '.');
    assert ArrayPrefix + "line" + "]" + "!" == t;
    var fs := [("name", Str(name)), ("tax", Obj([("rate", Str(rate))]))];
    var cs := [Leaf("name", name), Branch("tax", [Leaf("rate", rate)])];
    NestedObjectFields("lines", name, rate);
    OneObjectItem("lines", "line", fs, cs);
    ArrayFieldList("lines", t, [Obj(fs)], [Branch("line", cs)]);
    OneField("lines", t, List([Obj(fs)]));
  }

  /**
   The array of strings as the code stands: the field passes validation,
   and no element at all is written, where the repository's tests expect
   `<links>` holding one `<link>` per item.
   */
  lemma ArrayItemsDroppedAsWritten(a: string, b: string)
    ensures ArrayFieldAsWritten("links", "array[link]!", [Str(a), Str(b)]) == Ok([])
    ensures Spread([("links", "array[link]!")], [("links", List([Str(a), Str(b)]))]) ==
      Ok([Branch("links", [Leaf("link", a), Leaf("link", b)])])
  {
    LinkPath(true);
    assert ArrayPrefix + "link" + "]" + "!" == "array[link]!";
    ArrayOfStrings(a, b);
  }
}
