/**
 What an action's composition promises: the merge precedence of its
 effective schema, the marking of its required fields, how its options are
 prepared, and how a call's result depends on the response.
 */
module EndpointProperties {
  import opened Wrappers
  import opened OrderedMaps
  import opened DecimalText
  import opened Values
  import opened TypeStrings
  import opened XmlCleanup
  import opened Params
  import opened ParamsProperties
  import opened Endpoints

  /** The required overrides hold exactly the required names that have a
      type, each marked required, and no key twice. */
  lemma {:induction false} OverridesGet(required: seq<string>, actionSchema: OMap<string>, baseSchema: OMap<string>, k: string)
    ensures Get(Overrides(required, actionSchema, baseSchema), k) ==
      if k in required && RequiredType(k, actionSchema, baseSchema) != "" then Some(MarkRequired(RequiredType(k, actionSchema, baseSchema)))
      else None
    ensures Distinct(Overrides(required, actionSchema, baseSchema))
    decreases |required|
  {
    if |required| > 0 {
      var init := required[..|required| - 1];
      var prop := required[|required| - 1];
      OverridesGet(init, actionSchema, baseSchema, k);
      var acc := Overrides(init, actionSchema, baseSchema);
      var t := RequiredType(prop, actionSchema, baseSchema);
      assert required == init + [prop];
      assert k in required <==> k in init || k == prop;
      if t != "" {
        GetPut(acc, prop, MarkRequired(t), k);
        DistinctPut(acc, prop, MarkRequired(t));
      }
    }
  }

  /**
   Merge precedence of the effective schema, lowest first: the base schema
   (when `schema` is set), the select schema (when `select` is set), the
   paging fields (when paginating), the action schema, the required
   overrides.
   */
  lemma SchemaPrecedence(base: Base, a: Action, k: string)
    requires WellFormed(base, a)
    ensures Get(EffectiveSchema(base, a), k) ==
      if k in a.required && RequiredType(k, a.actionSchema, base.schema) != "" then
        Some(MarkRequired(RequiredType(k, a.actionSchema, base.schema)))
      else if k in Keys(a.actionSchema) then Get(a.actionSchema, k)
      else if Paginates(a) && k in Keys(PagingSchema) then Get(PagingSchema, k)
      else if a.select && k in Keys(base.select) then Get(base.select, k)
      else if a.schema then Get(base.schema, k)
      else None
  {
    var s := if a.schema then base.schema else [];
    var sel := if a.select then base.select else [];
    var pg := if Paginates(a) then PagingSchema else [];
    var o := Overrides(a.required, a.actionSchema, base.schema);
    OverridesGet(a.required, a.actionSchema, base.schema, k);
    assert Distinct(PagingSchema);
    GetMerge([], s, k);
    GetMerge(Merge([], s), sel, k);
    GetMerge(Merge(Merge([], s), sel), pg, k);
    GetMerge(Merge(Merge(Merge([], s), sel), pg), a.actionSchema, k);
    GetMerge(Merge(Merge(Merge(Merge([], s), sel), pg), a.actionSchema), o, k);
  }

  /** A required name with a type ends up marked required; one that
      neither the action nor the base schema types adds no entry of its own. */
  lemma RequiredFieldsMarked(base: Base, a: Action, p: string)
    requires WellFormed(base, a)
    requires p in a.required
    ensures RequiredType(p, a.actionSchema, base.schema) != "" ==>
      && Get(EffectiveSchema(base, a), p) == Some(MarkRequired(RequiredType(p, a.actionSchema, base.schema)))
      && IsRequired(Get(EffectiveSchema(base, a), p).value)
    ensures p !in Keys(a.actionSchema) && p !in Keys(base.schema) && p !in Keys(base.select) && p !in Keys(PagingSchema) ==>
      p !in Keys(EffectiveSchema(base, a))
  {
    SchemaPrecedence(base, a, p);
  }

  /** The type a required name is marked from comes from the action schema
      before the base schema. */
  lemma RequiredLookupOrder(prop: string, actionSchema: OMap<string>, baseSchema: OMap<string>)
    ensures Get(actionSchema, prop).Some? && Get(actionSchema, prop).value != "" ==>
      RequiredType(prop, actionSchema, baseSchema) == Get(actionSchema, prop).value
    ensures Get(actionSchema, prop).GetOr("") == "" ==>
      RequiredType(prop, actionSchema, baseSchema) == Get(baseSchema, prop).GetOr("")
  {
  }

  /** A bare argument of an action that selects without a schema is read
      as the id field; every other field is a default or absent. */
  lemma ShorthandSelects(base: Base, a: Action, arg: Value, k: string)
    requires !arg.Obj? && a.select && !a.schema
    ensures FieldValue(OptionFields(PrepareOptions(base, a, arg)), k) ==
      if k == base.key then arg
      else if a.defaults.Some? then FieldValue(a.defaults.value, k)
      else Nil
  {
    var single := [(base.key, arg)];
    if a.defaults.Some? {
      GetMerge(a.defaults.value, single, k);
    }
  }

  /** Caller options override default options key by key. */
  lemma DefaultsUnderOptions(base: Base, a: Action, arg: Value, k: string)
    requires a.defaults.Some?
    requires arg.Obj? && Distinct(arg.fields)
    ensures FieldValue(OptionFields(PrepareOptions(base, a, arg)), k) ==
      if k in Keys(arg.fields) then FieldValue(arg.fields, k) else FieldValue(a.defaults.value, k)
  {
    GetMerge(a.defaults.value, arg.fields, k);
  }

  /** A call is refused before anything is posted exactly when its
      prepared options are missing while the schema has a field, or
      spreading them over its effective schema fails; a request that
      is built names the resource and the action. */
  lemma BuildIff(name: string, base: Base, a: Action, arg: Value)
    ensures BuildRequest(name, base, a, arg).Err? <==>
      (PrepareOptions(base, a, arg).Nil? && |EffectiveSchema(base, a)| > 0) ||
      Spread(EffectiveSchema(base, a), OptionFields(PrepareOptions(base, a, arg))).Err?
    ensures PrepareOptions(base, a, arg).Nil? && |EffectiveSchema(base, a)| > 0 ==>
      BuildRequest(name, base, a, arg) == Err(NoOptions(EffectiveSchema(base, a)[0].0))
    ensures BuildRequest(name, base, a, arg).Ok? ==> BuildRequest(name, base, a, arg).value.call == name + "." + a.name
  {
  }

  /** Options given as an object, with no default options, are refused
      with the first error spreading them meets. */
  lemma SpreadRefusal(name: string, base: Base, a: Action, fields: OMap<Value>, e: SpreadError)
    requires a.defaults.None? && Spread(EffectiveSchema(base, a), fields) == Err(e)
    ensures BuildRequest(name, base, a, Obj(fields)) == Err(e)
  {
  }

  /** A request carries one element per schema field the prepared options
      give a value, in schema order: directly when unwrapped, and inside one
      element named after the resource or after the `wrap` text otherwise. */
  lemma RequestFields(name: string, base: Base, a: Action, arg: Value)
    requires BuildRequest(name, base, a, arg).Ok?
    ensures (a.wrap.NoWrap? || a.wrap == WrapIn("")) ==>
      Names(BuildRequest(name, base, a, arg).value.body) == PresentFields(EffectiveSchema(base, a), OptionFields(PrepareOptions(base, a, arg)))
    ensures a.wrap.WrapInName? ==>
      && |BuildRequest(name, base, a, arg).value.body| == 1
      && BuildRequest(name, base, a, arg).value.body[0].name == name
      && Names(BuildRequest(name, base, a, arg).value.body[0].children) == PresentFields(EffectiveSchema(base, a), OptionFields(PrepareOptions(base, a, arg)))
    ensures a.wrap.WrapIn? && a.wrap.tag != "" ==>
      && |BuildRequest(name, base, a, arg).value.body| == 1
      && BuildRequest(name, base, a, arg).value.body[0].name == a.wrap.tag
      && Names(BuildRequest(name, base, a, arg).value.body[0].children) == PresentFields(EffectiveSchema(base, a), OptionFields(PrepareOptions(base, a, arg)))
  {
    SpreadNames(EffectiveSchema(base, a), OptionFields(PrepareOptions(base, a, arg)));
  }

  /** A refused call never consults the transport. */
  lemma RefusedBeforePosting(name: string, base: Base, a: Action, arg: Value, post1: Request -> Raw, post2: Request -> Raw)
    requires BuildRequest(name, base, a, arg).Err?
    ensures Invoke(name, base, a, arg, post1) == Invoke(name, base, a, arg, post2)
    ensures Invoke(name, base, a, arg, post1) == Err(BuildRequest(name, base, a, arg).error)
  {
  }

  /** A boolean result is returned whatever the response. */
  lemma FlagIgnoresResponse(name: string, base: Base, a: Action, arg: Value, post: Request -> Raw)
    requires a.result.Flag?
    requires BuildRequest(name, base, a, arg).Ok?
    ensures Invoke(name, base, a, arg, post) == Ok(Bool(a.result.b))
  {
  }

  /** A field result is that field of the cleaned response. */
  lemma FieldResult(name: string, base: Base, a: Action, arg: Value, post: Request -> Raw)
    requires a.result.Field?
    requires BuildRequest(name, base, a, arg).Ok?
    ensures Invoke(name, base, a, arg, post) ==
      Ok(Prop(Cleanup(post(BuildRequest(name, base, a, arg).value)), a.result.name))
  {
  }

  /** A picked field reads as in the response when it is named, and is
      absent otherwise. */
  lemma {:induction false} PickGet(names: seq<string>, fs: OMap<Value>, k: string)
    ensures Get(PickFields(names, fs), k) == if k in names then Get(fs, k) else None
    decreases |names|
  {
    if |names| > 0 {
      var init := names[..|names| - 1];
      var last := names[|names| - 1];
      assert names == init + [last];
      assert k in names <==> k in init || k == last;
      PickGet(init, fs, k);
      match Get(fs, last)
      case Some(v) => GetPut(PickFields(init, fs), last, v, k);
      case None =>
    }
  }

  /** Every picked key is named, in the order first named. */
  lemma {:induction false} PickKeys(names: seq<string>, fs: OMap<Value>)
    ensures forall i | 0 <= i < |PickFields(names, fs)| :: PickFields(names, fs)[i].0 in names
    decreases |names|
  {
    if |names| > 0 {
      var init := names[..|names| - 1];
      var last := names[|names| - 1];
      assert names == init + [last];
      PickKeys(init, fs);
      match Get(fs, last)
      case Some(v) =>
        KeysPut(PickFields(init, fs), last, v);
        var r := PickFields(names, fs);
        forall i | 0 <= i < |r| ensures r[i].0 in names {
          assert Keys(r)[i] == r[i].0;
          if i < |PickFields(init, fs)| {
            assert Keys(PickFields(init, fs))[i] == PickFields(init, fs)[i].0;
          }
        }
      case None =>
    }
  }

  /** An action that only selects spreads with the select schema, plus
      its own schema when that shares no key with it. */
  lemma SelectShape(base: Base, a: Action)
    requires Distinct(base.select) && Distinct(a.actionSchema)
    requires a.select && !a.schema && !Paginates(a) && a.required == []
    requires forall i | 0 <= i < |a.actionSchema| :: a.actionSchema[i].0 !in Keys(base.select)
    ensures EffectiveSchema(base, a) == base.select + a.actionSchema
  {
    MergeIntoEmpty(base.select);
    MergeDisjoint(base.select, a.actionSchema);
  }

  /** A paginated action without schema or select spreads with the paging
      fields followed by its own filters. */
  lemma ListShape(base: Base, a: Action)
    requires Distinct(a.actionSchema)
    requires !a.select && !a.schema && Paginates(a) && a.required == []
    requires forall i | 0 <= i < |a.actionSchema| :: a.actionSchema[i].0 !in Keys(PagingSchema)
    ensures EffectiveSchema(base, a) == PagingSchema + a.actionSchema
  {
    assert Distinct(PagingSchema);
    MergeIntoEmpty(PagingSchema);
    MergeDisjoint(PagingSchema, a.actionSchema);
  }

  /** An action with the base schema and the select schema spreads with
      the base schema, the select fields assigned onto it. */
  lemma SchemaSelectShape(base: Base, a: Action)
    requires Distinct(base.schema)
    requires a.schema && a.select && !Paginates(a) && a.actionSchema == []
    requires forall i | 0 <= i < |a.required| :: a.required[i] !in Keys(base.schema)
    ensures EffectiveSchema(base, a) == Merge(base.schema, base.select)
  {
    MergeIntoEmpty(base.schema);
    NoOverrides(a.required, base.schema);
  }

  /** A bare text id given to an action that only selects becomes the one
      element of the request, named after the id field. */
  lemma BareIdRequest(name: string, base: Base, a: Action, id: string)
    requires |base.select| == 1 && base.select[0].0 == base.key && IsScalarType(base.select[0].1)
    requires a.select && !a.schema && !Paginates(a) && a.actionSchema == [] && a.required == []
    requires a.defaults.None? && a.wrap.NoWrap?
    ensures BuildRequest(name, base, a, Str(id)) == Ok(Request(name + "." + a.name, [Leaf(base.key, id)]))
  {
    SelectShape(base, a);
    assert base.select + [] == base.select;
    var o := [(base.key, Str(id))];
    assert PrepareOptions(base, a, Str(id)) == Obj(o);
    assert FieldValue(o, base.key) == Str(id);
    var none: seq<Xml> := [];
    assert base.select[1..] == [];
    assert SpreadIn(base.select[1..], o, false) == Ok(none);
    assert SpreadField(base.key, base.select[0].1, Str(id), false) == Ok([Leaf(base.key, id)]);
    assert [Leaf(base.key, id)] + none == [Leaf(base.key, id)];
    assert Spread(base.select, o) == Ok([Leaf(base.key, id)]);
  }

  /** An updating action whose id field is not among the base fields
      spreads with the base fields followed by the id field. */
  lemma UpdateShape(base: Base, a: Action)
    requires Distinct(base.schema) && Distinct(base.select)
    requires forall i | 0 <= i < |base.select| :: base.select[i].0 !in Keys(base.schema)
    requires a.schema && a.select && !Paginates(a) && a.actionSchema == [] && a.required == []
    ensures EffectiveSchema(base, a) == base.schema + base.select
  {
    SchemaSelectShape(base, a);
    MergeDisjoint(base.schema, base.select);
  }

  /** An updating action whose id field is base field `i` spreads with the
      base fields, that field's type replaced in place by the select type. */
  lemma UpdateShapeInPlace(base: Base, a: Action, i: nat)
    requires Distinct(base.schema) && i < |base.schema| && |base.select| == 1 && base.select[0].0 == base.schema[i].0
    requires a.schema && a.select && !Paginates(a) && a.actionSchema == [] && a.required == []
    ensures EffectiveSchema(base, a) == base.schema[i := base.select[0]]
  {
    SchemaSelectShape(base, a);
    assert base.select == [(base.select[0].0, base.select[0].1)];
    MergeSingle(base.schema, base.select[0].0, base.select[0].1);
    PutPresent(base.schema, i, base.select[0].1);
  }

  /** Required names that no schema types add no override. */
  lemma {:induction false} NoOverrides(required: seq<string>, baseSchema: OMap<string>)
    requires forall i | 0 <= i < |required| :: required[i] !in Keys(baseSchema)
    ensures Overrides(required, [], baseSchema) == []
    decreases |required|
  {
    if |required| > 0 {
      NoOverrides(required[..|required| - 1], baseSchema);
    }
  }

  /** A creating action (base schema, one required name) spreads with the
      base schema, that name's type marked required in place. */
  lemma CreateShape(base: Base, a: Action, i: nat)
    requires Distinct(base.schema) && i < |base.schema| && base.schema[i].1 != ""
    requires a.schema && !a.select && !Paginates(a) && a.actionSchema == [] && a.required == [base.schema[i].0]
    ensures EffectiveSchema(base, a) == base.schema[i := (base.schema[i].0, MarkRequired(base.schema[i].1))]
  {
    var (p, t) := base.schema[i];
    MergeIntoEmpty(base.schema);
    assert [p][..0] == [];
    var merged := Merge(Merge(Merge(Merge([], base.schema), []), []), []);
    assert merged == base.schema;
    assert EffectiveSchema(base, a) == Merge(merged, Overrides([p], [], base.schema));
    GetAt(base.schema, i);
    assert RequiredType(p, [], base.schema) == t;
    assert Overrides([p], [], base.schema) == [(p, MarkRequired(t))];
    MergeSingle(base.schema, p, MarkRequired(t));
    PutPresent(base.schema, i, MarkRequired(t));
  }

  /**
   An action that takes the base fields and the select field and requires
   base field `i`: the base fields, then the select fields, with field `i`
   marked required in place.
   */
  lemma SelectRequiredShape(base: Base, a: Action, i: nat)
    requires Distinct(base.schema) && Distinct(base.select)
    requires forall j | 0 <= j < |base.select| :: base.select[j].0 !in Keys(base.schema)
    requires i < |base.schema| && base.schema[i].1 != ""
    requires a.schema && a.select && !Paginates(a) && a.actionSchema == [] && a.required == [base.schema[i].0]
    ensures EffectiveSchema(base, a) ==
      (base.schema + base.select)[i := (base.schema[i].0, MarkRequired(base.schema[i].1))]
  {
    var (p, t) := base.schema[i];
    var both := base.schema + base.select;
    MergeIntoEmpty(base.schema);
    MergeDisjoint(base.schema, base.select);
    assert [p][..0] == [];
    var merged := Merge(Merge(Merge(Merge([], base.schema), base.select), []), []);
    assert merged == both;
    assert EffectiveSchema(base, a) == Merge(both, Overrides([p], [], base.schema));
    forall x, y | 0 <= x < y < |both|
      ensures both[x].0 != both[y].0
    {
      if x < |base.schema| <= y {
        assert both[y] == base.select[y - |base.schema|];
        assert Keys(base.schema)[x] == both[x].0;
      }
    }
    GetAt(base.schema, i);
    assert RequiredType(p, [], base.schema) == t;
    assert Overrides([p], [], base.schema) == [(p, MarkRequired(t))];
    assert both[i] == (p, t);
    MergeSingle(both, p, MarkRequired(t));
    PutPresent(both, i, MarkRequired(t));
  }

  /** A required name the base schema lacks adds nothing: the schema is the base schema. */
  lemma CreateShapeAbsent(base: Base, a: Action, p: string)
    requires Distinct(base.schema) && p !in Keys(base.schema)
    requires a.schema && !a.select && !Paginates(a) && a.actionSchema == [] && a.required == [p]
    ensures EffectiveSchema(base, a) == base.schema
  {
    MergeIntoEmpty(base.schema);
    assert [p][..0] == [];
    var merged := Merge(Merge(Merge(Merge([], base.schema), []), []), []);
    assert merged == base.schema;
    assert EffectiveSchema(base, a) == Merge(merged, Overrides([p], [], base.schema));
    assert RequiredType(p, [], base.schema) == "";
  }
}
