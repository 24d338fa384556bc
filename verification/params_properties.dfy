/**
 What spreading guarantees: which fields fail and why, that only schema
 fields are visited and in schema order, that each present field yields
 exactly one element named after it, and that extra caller keys change
 nothing.
 */
module ParamsProperties {
  import opened Wrappers
  import opened OrderedMaps
  import opened DecimalText
  import opened Values
  import opened Coercion
  import opened TypeStrings
  import opened Params

  /** The outcome of schema field `i` on its own. */
  function FieldAt(schema: OMap<string>, obj: OMap<Value>, i: nat): Result<seq<Xml>, SpreadError>
    requires i < |schema|
  {
    SpreadField(schema[i].0, schema[i].1, FieldValue(obj, schema[i].0), false)
  }

  // ------------------------------------------------------------ one field

  /** A missing field fails exactly when its type is required, and then
      names the field; otherwise it contributes nothing. */
  lemma MissingField(prop: string, t: string)
    ensures SpreadField(prop, t, Nil, false) == if IsRequired(t) then Err(Required(prop)) else Ok([])
  {
  }

  /** A present value of a scalar field fails exactly when it is neither a
      number nor a string, and otherwise is one element holding its text. */
  lemma ScalarField(prop: string, t: string, v: Value)
    requires IsScalarType(t) && !v.Nil?
    ensures SpreadField(prop, t, v, false) ==
      if IsText(v) then Ok([Leaf(prop, ToText(v))]) else Err(NotText(prop))
  {
  }

  /** A one-field scalar schema whose field holds text is one element holding that text. */
  lemma SpreadOneScalar(prop: string, t: string, obj: OMap<Value>)
    requires IsScalarType(t) && IsText(FieldValue(obj, prop))
    ensures Spread([(prop, t)], obj) == Ok([Leaf(prop, ToText(FieldValue(obj, prop)))])
  {
    var schema := [(prop, t)];
    var none: seq<Xml> := [];
    assert schema[1..] == [];
    assert SpreadIn(schema[1..], obj, false) == Ok(none);
    var x := [Leaf(prop, ToText(FieldValue(obj, prop)))];
    assert x + none == x;
  }

  /** A present value of an array field that is not a list fails, naming the field. */
  lemma ArrayFieldNotList(prop: string, t: string, v: Value)
    requires IsArrayType(t) && !v.Nil? && !v.List?
    ensures SpreadField(prop, t, v, false) == Err(NotAnArray(prop))
  {
  }

  /** An array field's items each become the path chain around their body,
      in order, and the field fails exactly when some item does. */
  lemma {:induction false} ItemsShape(prop: string, path: seq<string>, items: seq<Value>)
    requires |path| >= 1
    ensures EmitItems(prop, path, items).Ok? <==> forall j | 0 <= j < |items| :: ItemBody(prop, items[j]).Ok?
    ensures EmitItems(prop, path, items).Ok? ==>
      |EmitItems(prop, path, items).value| == |items| &&
      forall j | 0 <= j < |items| :: EmitItems(prop, path, items).value[j] == Chain(path, ItemBody(prop, items[j]).value)
  {
    if |items| > 0 {
      ItemsShape(prop, path, items[1..]);
      forall j | 0 <= j < |items[1..]| ensures items[1..][j] == items[j + 1] { }
    }
  }

  /** A list given to an array field with a path becomes one element named
      after the field, holding the items' elements. */
  lemma ArrayFieldList(prop: string, t: string, items: seq<Value>, cs: seq<Xml>)
    requires IsArrayType(t) && ArrayKeys(t).Some? && |ArrayKeys(t).value| >= 1
    requires EmitItems(prop, ArrayKeys(t).value, items) == Ok(cs)
    ensures SpreadField(prop, t, List(items), false) == Ok([Branch(prop, cs)])
  {
  }

  /** The outermost element of an item is the first path name. */
  lemma ChainName(path: seq<string>, body: Body)
    requires |path| >= 1
    ensures Chain(path, body).name == path[0]
  {
  }

  /** Every successful field contributes nothing when missing and exactly one
      element named after it when present. */
  lemma FieldShape(prop: string, t: string, v: Value, asWritten: bool)
    requires SpreadField(prop, t, v, asWritten).Ok?
    ensures v.Nil? ==> SpreadField(prop, t, v, asWritten).value == []
    ensures !v.Nil? ==> (|SpreadField(prop, t, v, asWritten).value| == 1 &&
      SpreadField(prop, t, v, asWritten).value[0].name == prop)
  {
  }

  /** A number written into a request reads back as the same number. */
  lemma NumberFieldEcho(prop: string, t: string, n: Number)
    requires IsScalarType(t)
    ensures SpreadField(prop, t, Num(n), false) == Ok([Leaf(prop, Render(n))])
    ensures ParseValue(Render(n)) == Num(n)
  {
    NumberRoundTrip(n);
  }

  // ---------------------------------------------------------- whole schema

  /** Spreading succeeds exactly when every schema field does. */
  lemma {:induction false} SpreadOkIff(schema: OMap<string>, obj: OMap<Value>)
    ensures Spread(schema, obj).Ok? <==> forall i | 0 <= i < |schema| :: FieldAt(schema, obj, i).Ok?
    decreases |schema|
  {
    if |schema| > 0 {
      SpreadOkIff(schema[1..], obj);
      assert forall i | 0 <= i < |schema[1..]| :: FieldAt(schema[1..], obj, i) == FieldAt(schema, obj, i + 1);
      assert Spread(schema, obj).Ok? <==> FieldAt(schema, obj, 0).Ok? && Spread(schema[1..], obj).Ok?;
      if FieldAt(schema, obj, 0).Ok? && Spread(schema[1..], obj).Ok? {
        forall i | 0 <= i < |schema| ensures FieldAt(schema, obj, i).Ok? {
          if i > 0 {
            assert FieldAt(schema[1..], obj, i - 1).Ok?;
          }
        }
      }
    }
  }

  /** A failure is the failure of the first failing field, in schema order. */
  lemma {:induction false} SpreadFirstError(schema: OMap<string>, obj: OMap<Value>)
    requires Spread(schema, obj).Err?
    ensures exists i | 0 <= i < |schema| ::
      && FieldAt(schema, obj, i) == Err(Spread(schema, obj).error)
      && forall j | 0 <= j < i :: FieldAt(schema, obj, j).Ok?
    decreases |schema|
  {
    if FieldAt(schema, obj, 0).Ok? {
      SpreadFirstError(schema[1..], obj);
      var i :| 0 <= i < |schema[1..]| &&
        FieldAt(schema[1..], obj, i) == Err(Spread(schema[1..], obj).error) &&
        forall j | 0 <= j < i :: FieldAt(schema[1..], obj, j).Ok?;
      assert FieldAt(schema[1..], obj, i) == FieldAt(schema, obj, i + 1);
      forall j | 0 <= j < i + 1 ensures FieldAt(schema, obj, j).Ok? {
        if j > 0 {
          assert FieldAt(schema[1..], obj, j - 1) == FieldAt(schema, obj, j);
        }
      }
    } else {
      assert FieldAt(schema, obj, 0) == Err(Spread(schema, obj).error);
    }
  }

  /** Conversely, when field `i` fails and every field before it succeeds,
      spreading fails with field `i`'s error. */
  lemma {:induction false} SpreadFailsAt(schema: OMap<string>, obj: OMap<Value>, i: nat)
    requires i < |schema| && FieldAt(schema, obj, i).Err?
    requires forall j | 0 <= j < i :: FieldAt(schema, obj, j).Ok?
    ensures Spread(schema, obj) == Err(FieldAt(schema, obj, i).error)
    decreases i
  {
    if i > 0 {
      assert FieldAt(schema, obj, 0).Ok?;
      forall j | 0 <= j < i - 1 ensures FieldAt(schema[1..], obj, j).Ok? {
        assert FieldAt(schema[1..], obj, j) == FieldAt(schema, obj, j + 1);
      }
      assert FieldAt(schema[1..], obj, i - 1) == FieldAt(schema, obj, i);
      SpreadFailsAt(schema[1..], obj, i - 1);
    }
  }

  /** The request holds one element per present schema field, named after
      it, in schema order: no other key of the caller's options appears. */
  lemma {:induction false} SpreadNames(schema: OMap<string>, obj: OMap<Value>)
    requires Spread(schema, obj).Ok?
    ensures Names(Spread(schema, obj).value) == PresentFields(schema, obj)
    decreases |schema|
  {
    if |schema| > 0 {
      var v := FieldValue(obj, schema[0].0);
      var head := SpreadField(schema[0].0, schema[0].1, v, false).value;
      FieldShape(schema[0].0, schema[0].1, v, false);
      SpreadNames(schema[1..], obj);
      var tail := Spread(schema[1..], obj).value;
      assert Spread(schema, obj).value == head + tail;
      NamesConcat(head, tail);
      assert Names(head) == if v.Nil? then [] else [schema[0].0];
    }
  }

  /** The names of two bodies in sequence are the names of each in sequence. */
  lemma NamesConcat(xs: seq<Xml>, ys: seq<Xml>)
    ensures Names(xs + ys) == Names(xs) + Names(ys)
  {
  }

  /** Caller keys outside the schema are ignored: dropping them changes nothing. */
  lemma {:induction false} SpreadIgnoresExtraKeys(schema: OMap<string>, obj: OMap<Value>, ks: seq<string>)
    requires forall i | 0 <= i < |schema| :: schema[i].0 in ks
    ensures Spread(schema, Restrict(obj, ks)) == Spread(schema, obj)
    decreases |schema|
  {
    if |schema| > 0 {
      GetRestrict(obj, ks, schema[0].0);
      SpreadIgnoresExtraKeys(schema[1..], obj, ks);
    }
  }

  /** The schema's own fields are all a request needs from the caller. */
  lemma SpreadRestrict(schema: OMap<string>, obj: OMap<Value>)
    ensures Spread(schema, Restrict(obj, Keys(schema))) == Spread(schema, obj)
  {
    SpreadIgnoresExtraKeys(schema, obj, Keys(schema));
  }

  // ------------------------------------------------------ validation order

  /**
   As src/utils/params.js orders validation, every missing optional field
   is an error (its type check runs before the skip), while the order the tests expect
   skips it.
   */
  lemma AsWrittenRejectsMissingOptional(prop: string, t: string)
    requires !IsRequired(t)
    ensures SpreadField(prop, t, Nil, true) == Err(if IsArrayType(t) then NotAnArray(prop) else NotText(prop))
    ensures SpreadField(prop, t, Nil, false) == Ok([])
  {
  }

  /** The two orders agree on every field the caller supplies, and on every
      required field. */
  lemma ValidationOrdersAgree(prop: string, t: string, v: Value)
    requires !v.Nil? || IsRequired(t)
    ensures SpreadField(prop, t, v, true) == SpreadField(prop, t, v, false)
  {
  }
}
