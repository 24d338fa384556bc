/**
 The client resource (src/api/client.js): its schemas and method table,
 and the effective schema of each action.
 */
module ApiClient {
  import opened Wrappers
  import opened OrderedMaps
  import opened Values
  import opened TypeStrings
  import opened Params
  import opened Endpoints
  import opened EndpointProperties
  import opened Registry

  const Name := "client"
  const Collection := "clients"
  const Key := "client_id"
  const Select: OMap<string> := [(Key, "string!")]

  /** The client fields, in the order src/api/client.js lists them. */
  const Schema: OMap<string> := PersonFields + PhoneFields + PrimaryAddress + SecondaryAddress

  const PersonFields: OMap<string> := [
    ("first_name", "string"),
    ("last_name", "string"),
    ("organization", "string"),
    ("email", "string"),
    ("username", "string"),
    ("password", "string"),
    ("contacts", "array[contact]")
  ]

  /** Phones, language, currency and notes. */
  const PhoneFields: OMap<string> := [
    ("work_phone", "string"),
    ("home_phone", "string"),
    ("mobile", "string"),
    ("fax", "string"),
    ("language", "string"),
    ("currency_code", "string"),
    ("notes", "string")
  ]

  const PrimaryAddress: OMap<string> := [
    ("p_street1", "string"),
    ("p_street2", "string"),
    ("p_city", "string"),
    ("p_state", "string"),
    ("p_country", "string"),
    ("p_code", "string")
  ]

  /** The secondary address, then the VAT fields. */
  const SecondaryAddress: OMap<string> := [
    ("s_street1", "string"),
    ("s_street2", "string"),
    ("s_city", "string"),
    ("s_state", "string"),
    ("s_country", "string"),
    ("s_code", "string"),
    ("vat_name", "string"),
    ("vat_number", "string")
  ]

  const Filter: OMap<string> := [
    ("email", "string"),
    ("username", "string"),
    ("updated_from", "string"),
    ("updated_to", "string"),
    ("folder", "string")
  ]

  const ClientBase := Base(Schema, Select, Key)

  const Create := Plain("create").(schema := true, required := ["email"], wrap := WrapInName, result := Field(Key))
  const Update := Plain("update").(schema := true, select := true, wrap := WrapInName, result := Flag(true))
  const GetOne := Plain("get").(select := true, result := Field(Name))
  const Delete := Plain("delete").(select := true, result := Flag(true))
  const List := Plain("list").(paginate := Some(Collection), actionSchema := Filter)

  const Table := [Create, Update, GetOne, Delete, List]

  /** The client fields are distinct and do not include the id field. */
  lemma SchemaFacts()
    ensures Distinct(Schema) && Key !in Keys(Schema)
  {
    GroupsDistinct();
    AddressesDistinct();
    GroupsLackKey();
    GroupsApart();
    GroupsApartSecondary();
    DistinctJoin4(PersonFields, PhoneFields, PrimaryAddress, SecondaryAddress);
    AbsentJoin4(PersonFields, PhoneFields, PrimaryAddress, SecondaryAddress, Key);
  }

  lemma GroupsDistinct()
    ensures Distinct(PersonFields) && Distinct(PhoneFields)
  {
  }

  lemma AddressesDistinct()
    ensures Distinct(PrimaryAddress) && Distinct(SecondaryAddress)
  {
  }

  lemma GroupsLackKey()
    ensures Key !in Keys(PersonFields) && Key !in Keys(PhoneFields)
    ensures Key !in Keys(PrimaryAddress) && Key !in Keys(SecondaryAddress)
  {
  }

  lemma GroupsApart()
    ensures Apart(PersonFields, PhoneFields) && Apart(PersonFields, PrimaryAddress) && Apart(PhoneFields, PrimaryAddress)
  {
  }

  lemma GroupsApartSecondary()
    ensures Apart(PersonFields, SecondaryAddress) && Apart(PhoneFields, SecondaryAddress)
    ensures Apart(PrimaryAddress, SecondaryAddress)
  {
  }

  /** `create` uses the base fields and requires the fourth of them, `email`. */
  lemma CreateOptions()
    ensures Create.schema && !Create.select && !Paginates(Create) && Create.actionSchema == []
    ensures Create.required == [Schema[3].0] && Schema[3].0 == "email" && MarkRequired(Schema[3].1) == "string!"
  {
  }

  /** `create` takes the client fields with `email` required in place,
      wraps them in `<client>` and returns the new `client_id`. */
  lemma CreateSchema()
    ensures EffectiveSchema(ClientBase, Create) == Schema[3 := ("email", "string!")]
    ensures Create.wrap == WrapInName && Create.result == Field("client_id")
  {
    SchemaFacts();
    CreateOptions();
    CreateShape(ClientBase, Create, 3);
  }

  /** `update` takes the client fields followed by the required `client_id`. */
  lemma UpdateSchema()
    ensures EffectiveSchema(ClientBase, Update) == Schema + [("client_id", "string!")]
  {
    SchemaFacts();
    UpdateShape(ClientBase, Update);
  }

  /** `get` and `delete` take only the required `client_id`. */
  lemma SelectingSchemas()
    ensures EffectiveSchema(ClientBase, GetOne) == [("client_id", "string!")]
    ensures EffectiveSchema(ClientBase, Delete) == [("client_id", "string!")]
  {
    SelectShape(ClientBase, GetOne);
    SelectShape(ClientBase, Delete);
  }

  /** `list` takes the optional paging fields and filters, and pages through `clients`. */
  lemma ListSchema()
    ensures EffectiveSchema(ClientBase, List) == PagingSchema + Filter
    ensures List.paginate == Some("clients")
  {
    assert Keys(PagingSchema) == ["page", "per_page"];
    ListShape(ClientBase, List);
  }

  /**
   The required check only rejects null and undefined: an empty id is a
   present text and is written as an empty `<client_id>`.
   */
  lemma EmptyIdPasses()
    ensures BuildRequest(Name, ClientBase, Delete, Str("")) == Ok(Request("client.delete", [Leaf("client_id", "")]))
  {
    TextTypesScalar();
    BareIdRequest(Name, ClientBase, Delete, "");
    assert Name + "." + Delete.name == "client.delete";
  }

  /** Registration records the five actions in table order and defines the
      `listAll` companion. */
  lemma Registered()
    ensures SetMethods(Fresh, Table).names == ["create", "update", "get", "delete", "list"]
    ensures "listAll" in SetMethods(Fresh, Table).defined
  {
    var table := Table;
    Registers(table);
    assert ActionNames(table) == ["create", "update", "get", "delete", "list"];
    assert table[4].paginate.Some? && table[4].name + "All" == "listAll";
  }
}
