/**
 The item resource (src/api/item.js): its schemas and method table, and
 the effective schema of each action.
 */
module ApiItem {
  import opened Wrappers
  import opened OrderedMaps
  import opened Values
  import opened TypeStrings
  import opened Params
  import opened ParamsProperties
  import opened Endpoints
  import opened EndpointProperties
  import opened Registry

  const Name := "item"
  const Collection := "items"
  const Key := "item_id"
  const Select: OMap<string> := [(Key, "string!")]

  const Schema: OMap<string> := [
    ("name", "string"),
    ("description", "string"),
    ("unit_cost", "string"),
    ("quantity", "string"),
    ("inventory", "string"),
    ("folder", "string")
  ]

  const Filter: OMap<string> := [("folder", "string")]

  const ItemBase := Base(Schema, Select, Key)

  const Create := Plain("create").(schema := true, required := ["name"], wrap := WrapInName, result := Field(Key))
  const Update := Plain("update").(schema := true, select := true, wrap := WrapInName, result := Flag(true))
  const GetOne := Plain("get").(select := true, result := Field(Name))
  const Delete := Plain("delete").(select := true, result := Flag(true))
  const List := Plain("list").(paginate := Some(Collection), actionSchema := Filter)

  const Table := [Create, Update, GetOne, Delete, List]

  /** The item fields are distinct and do not include the id field. */
  lemma SchemaFacts()
    ensures Distinct(Schema) && Key !in Keys(Schema)
  {
  }

  /** `create` uses the base fields and requires the first of them, `name`. */
  lemma CreateOptions()
    ensures Create.schema && !Create.select && !Paginates(Create) && Create.actionSchema == []
    ensures Create.required == [Schema[0].0] && Schema[0].0 == "name" && MarkRequired(Schema[0].1) == "string!"
  {
  }

  /** `create` takes the item fields with `name` required, wraps them in
      `<item>` and returns the new `item_id`. */
  lemma CreateSchema()
    ensures EffectiveSchema(ItemBase, Create) ==
      [("name", "string!"), ("description", "string"), ("unit_cost", "string"),
       ("quantity", "string"), ("inventory", "string"), ("folder", "string")]
  {
    SchemaFacts();
    CreateOptions();
    CreateShape(ItemBase, Create, 0);
    NameMarked();
  }

  lemma NameMarked()
    ensures Schema[0 := ("name", "string!")] ==
      [("name", "string!"), ("description", "string"), ("unit_cost", "string"),
       ("quantity", "string"), ("inventory", "string"), ("folder", "string")]
  {
  }

  /** `update` takes the item fields followed by the required `item_id`. */
  lemma UpdateSchema()
    ensures EffectiveSchema(ItemBase, Update) == Schema + [("item_id", "string!")]
  {
    SchemaFacts();
    UpdateShape(ItemBase, Update);
  }

  /** `list` takes the optional paging fields and the folder filter. */
  lemma ListSchema()
    ensures EffectiveSchema(ItemBase, List) ==
      [("page", "string"), ("per_page", "string"), ("folder", "string")]
  {
    assert Keys(PagingSchema) == ["page", "per_page"];
    ListShape(ItemBase, List);
  }

  /** A `create` call without a name is refused before anything is sent. */
  lemma CreateNeedsName(fields: OMap<Value>)
    requires "name" !in Keys(fields)
    ensures BuildRequest(Name, ItemBase, Create, Obj(fields)) == Err(Required("name"))
  {
    CreateSchema();
    var schema := EffectiveSchema(ItemBase, Create);
    assert schema[0] == ("name", "string!");
    assert FieldValue(fields, "name") == Nil;
    assert FieldAt(schema, fields, 0) == Err(Required("name"));
    SpreadFailsAt(schema, fields, 0);
    SpreadRefusal(Name, ItemBase, Create, fields, Required("name"));
  }

  /** Registration records the five actions in table order and defines the
      `listAll` companion. */
  lemma Registered()
    ensures SetMethods(Fresh, Table).names == ["create", "update", "get", "delete", "list"]
    ensures "listAll" in SetMethods(Fresh, Table).defined
  {
    var table := Table;
    Registers(table);
    assert ActionNames(table) == ["create", "update", "get", "delete", "list"];
    assert table[4].paginate.Some? && table[4].name + "All" == "listAll";
  }
}
