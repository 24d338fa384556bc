/**
 The callback resource (src/api/callback.js): its schemas and method
 table, and the effective schema of each action. `create` names a required
 field the schema lacks; `verify` both selects and requires `verifier`.
 */
module ApiCallback {
  import opened Wrappers
  import opened OrderedMaps
  import opened Values
  import opened TypeStrings
  import opened Params
  import opened ParamsProperties
  import opened Endpoints
  import opened EndpointProperties
  import opened Registry

  const Name := "callback"
  const Collection := "callbacks"
  const Key := "callback_id"
  const Select: OMap<string> := [(Key, "string!")]

  const Schema: OMap<string> := [
    ("event", "string"),
    ("uri", "string"),
    ("verifier", "string")
  ]

  const Filter: OMap<string> := [("event", "string"), ("uri", "string")]

  const CallbackBase := Base(Schema, Select, Key)

  const Create := Plain("create").(schema := true, required := ["email"], wrap := WrapInName, result := Field(Key))
  const Delete := Plain("delete").(select := true, result := Flag(true))
  const List := Plain("list").(paginate := Some(Collection), actionSchema := Filter)
  const Verify := Plain("verify").(schema := true, select := true, required := ["verifier"], wrap := WrapInName, result := Flag(true))
  const ResendToken := Plain("resendToken").(select := true, result := Flag(true))

  const Table := [Create, Delete, List, Verify, ResendToken]

  /** `create` requires `email`, which no callback field is: all three
      fields stay optional. */
  lemma CreateSchema()
    ensures EffectiveSchema(CallbackBase, Create) == [("event", "string"), ("uri", "string"), ("verifier", "string")]
  {
    assert Distinct(Schema) && "email" !in Keys(Schema);
    CreateShapeAbsent(CallbackBase, Create, "email");
  }

  /** `verify` takes the callback fields with `verifier` required in place,
      followed by the required `callback_id`. */
  lemma VerifySchema()
    ensures EffectiveSchema(CallbackBase, Verify) ==
      [("event", "string"), ("uri", "string"), ("verifier", "string!"), ("callback_id", "string!")]
  {
    SchemaFacts();
    VerifyOptions();
    SelectRequiredShape(CallbackBase, Verify, 2);
  }

  /** The callback fields are distinct, do not include the id field, and
      `verifier` is the third. */
  lemma SchemaFacts()
    ensures Distinct(Schema) && Key !in Keys(Schema)
    ensures Schema[2] == ("verifier", "string")
  {
  }

  /** `verify` uses the base fields and the id and requires the third field. */
  lemma VerifyOptions()
    ensures Verify.schema && Verify.select && !Paginates(Verify) && Verify.actionSchema == []
    ensures Verify.required == [Schema[2].0] && MarkRequired(Schema[2].1) == "string!"
  {
  }

  /** The `verify` fields, spread from options without `verifier`, fail on it. */
  lemma MissingVerifier(schema: OMap<string>, o: OMap<Value>)
    requires schema == [("event", "string"), ("uri", "string"), ("verifier", "string!"), ("callback_id", "string!")]
    requires FieldValue(o, "event") == Nil && FieldValue(o, "uri") == Nil && FieldValue(o, "verifier") == Nil
    ensures Spread(schema, o) == Err(Required("verifier"))
  {
    assert FieldAt(schema, o, 0).Ok? && FieldAt(schema, o, 1).Ok?;
    assert FieldAt(schema, o, 2) == Err(Required("verifier"));
    SpreadFailsAt(schema, o, 2);
  }

  /** A `verify` call given only the id is refused for the missing verifier. */
  lemma VerifyNeedsVerifier(id: string)
    ensures BuildRequest(Name, CallbackBase, Verify, Obj([(Key, Str(id))])) == Err(Required("verifier"))
  {
    VerifySchema();
    var o := [(Key, Str(id))];
    assert FieldValue(o, "event") == Nil && FieldValue(o, "uri") == Nil && FieldValue(o, "verifier") == Nil;
    MissingVerifier(EffectiveSchema(CallbackBase, Verify), o);
    SpreadRefusal(Name, CallbackBase, Verify, o, Required("verifier"));
  }

  /** `delete` and `resendToken` take only the required `callback_id`. */
  lemma SelectingSchemas()
    ensures EffectiveSchema(CallbackBase, Delete) == [("callback_id", "string!")]
    ensures EffectiveSchema(CallbackBase, ResendToken) == [("callback_id", "string!")]
  {
    SelectShape(CallbackBase, Delete);
    SelectShape(CallbackBase, ResendToken);
  }

  /** `list` takes the optional paging fields and the event and uri filters. */
  lemma ListSchema()
    ensures EffectiveSchema(CallbackBase, List) ==
      [("page", "string"), ("per_page", "string"), ("event", "string"), ("uri", "string")]
  {
    assert Keys(PagingSchema) == ["page", "per_page"];
    ListShape(CallbackBase, List);
  }

  /** Registration records the five actions in table order and defines the
      `listAll` companion. */
  lemma Registered()
    ensures SetMethods(Fresh, Table).names == ["create", "delete", "list", "verify", "resendToken"]
    ensures "listAll" in SetMethods(Fresh, Table).defined
  {
    var table := Table;
    Registers(table);
    assert ActionNames(table) == ["create", "delete", "list", "verify", "resendToken"];
    assert table[2].paginate.Some? && table[2].name + "All" == "listAll";
  }
}
