/**
 The estimate resource (src/api/estimate.js): its schemas and method table,
 and the effective schema of each action.
 */
module ApiEstimate {
  import opened Wrappers
  import opened OrderedMaps
  import opened Values
  import opened TypeStrings
  import opened Params
  import opened Endpoints
  import opened EndpointProperties
  import opened Registry

  const Name := "estimate"
  const Collection := "estimates"
  const Key := "estimate_id"
  const Select: OMap<string> := [(Key, "string!")]

  /** The estimate fields, in the order src/api/estimate.js lists them. */
  const Schema: OMap<string> := HeaderFields + TermsFields + Recipient + TaxAndLines

  /** The client, its contacts and the status. */
  const HeaderFields: OMap<string> := [
    ("client_id", "string"),
    ("contacts", "array[contact.contact_id]"),
    ("status", "string")
  ]

  const TermsFields: OMap<string> := [
    ("po_number", "string"),
    ("discount", "string"),
    ("currency_code", "string"),
    ("language", "string"),
    ("notes", "string"),
    ("terms", "string")
  ]

  /** The recipient's name, organization and primary address. */
  const Recipient: OMap<string> := [
    ("first_name", "string"),
    ("last_name", "string"),
    ("organization", "string"),
    ("p_street1", "string"),
    ("p_street2", "string"),
    ("p_city", "string"),
    ("p_state", "string"),
    ("p_country", "string"),
    ("p_code", "string")
  ]

  const TaxAndLines: OMap<string> := [
    ("vat_name", "string"),
    ("vat_number", "string"),
    ("lines", "array[line]")
  ]

  const Filter: OMap<string> := [
    ("client_id", "string"),
    ("folder", "string"),
    ("date_from", "string"),
    ("date_to", "string")
  ]

  const EstimateBase := Base(Schema, Select, Key)

  const Create := Plain("create").(schema := true, required := ["client_id"], wrap := WrapInName, result := Field(Key))
  const Update := Plain("update").(schema := true, select := true, wrap := WrapInName, result := Flag(true))
  const GetOne := Plain("get").(select := true, result := Field(Name))
  const Delete := Plain("delete").(select := true, result := Flag(true))
  const List := Plain("list").(paginate := Some(Collection), actionSchema := Filter)
  const SendByEmail := Plain("sendByEmail").(select := true, result := Flag(true),
                                               actionSchema := [("subject", "string"), ("message", "string")])
  const GetPdf := Plain("getPDF").(select := true)
  const Accept := Plain("accept").(select := true, result := Flag(true))
  const MarkAsSent := Plain("markAsSent").(select := true, result := Flag(true))

  const Table := [Create, Update, GetOne, Delete, List, SendByEmail, GetPdf, Accept, MarkAsSent]

  /** The estimate fields are distinct and do not include the id field. */
  lemma SchemaFacts()
    ensures Distinct(Schema) && Key !in Keys(Schema)
  {
    GroupsDistinct();
    RecipientDistinct();
    GroupsLackKey();
    GroupsApart();
    GroupsApartLast();
    DistinctJoin4(HeaderFields, TermsFields, Recipient, TaxAndLines);
    AbsentJoin4(HeaderFields, TermsFields, Recipient, TaxAndLines, Key);
  }

  lemma GroupsDistinct()
    ensures Distinct(HeaderFields) && Distinct(TermsFields)
  {
  }

  lemma RecipientDistinct()
    ensures Distinct(Recipient) && Distinct(TaxAndLines)
  {
  }

  lemma GroupsLackKey()
    ensures Key !in Keys(HeaderFields) && Key !in Keys(TermsFields)
    ensures Key !in Keys(Recipient) && Key !in Keys(TaxAndLines)
  {
  }

  lemma GroupsApart()
    ensures Apart(HeaderFields, TermsFields) && Apart(HeaderFields, Recipient) && Apart(TermsFields, Recipient)
  {
  }

  lemma GroupsApartLast()
    ensures Apart(HeaderFields, TaxAndLines) && Apart(TermsFields, TaxAndLines) && Apart(Recipient, TaxAndLines)
  {
  }

  /** `create` uses the base fields and requires the first of them. */
  lemma CreateOptions()
    ensures Create.schema && !Create.select && !Paginates(Create) && Create.actionSchema == []
    ensures Create.required == [Schema[0].0] && MarkRequired(Schema[0].1) == "string!"
  {
  }

  /** `create` takes the estimate fields with `client_id` required, wraps
      them in `<estimate>` and returns the new `estimate_id`. */
  lemma CreateSchema()
    ensures EffectiveSchema(EstimateBase, Create) == Schema[0 := ("client_id", "string!")]
    ensures Create.wrap == WrapInName && Create.result == Field("estimate_id")
  {
    SchemaFacts();
    CreateOptions();
    CreateShape(EstimateBase, Create, 0);
  }

  /** The selecting actions take only the required `estimate_id`. */
  lemma SelectingSchemas()
    ensures EffectiveSchema(EstimateBase, GetOne) == [("estimate_id", "string!")]
    ensures EffectiveSchema(EstimateBase, Delete) == [("estimate_id", "string!")]
    ensures EffectiveSchema(EstimateBase, GetPdf) == [("estimate_id", "string!")]
    ensures EffectiveSchema(EstimateBase, Accept) == [("estimate_id", "string!")]
    ensures EffectiveSchema(EstimateBase, MarkAsSent) == [("estimate_id", "string!")]
  {
    SelectShape(EstimateBase, GetOne);
    SelectShape(EstimateBase, Delete);
    SelectShape(EstimateBase, GetPdf);
    SelectShape(EstimateBase, Accept);
    SelectShape(EstimateBase, MarkAsSent);
  }

  /** `update` takes the estimate fields followed by the required `estimate_id`. */
  lemma UpdateSchema()
    ensures EffectiveSchema(EstimateBase, Update) == Schema + [("estimate_id", "string!")]
  {
    SchemaFacts();
    UpdateShape(EstimateBase, Update);
  }

  /** `list` takes the optional paging fields and filters, and pages through `estimates`. */
  lemma ListSchema()
    ensures EffectiveSchema(EstimateBase, List) == PagingSchema + Filter
    ensures forall i | 0 <= i < |PagingSchema + Filter| :: !IsRequired((PagingSchema + Filter)[i].1)
    ensures List.paginate == Some("estimates")
  {
    assert Keys(PagingSchema) == ["page", "per_page"];
    ListShape(EstimateBase, List);
    ListOptional();
  }

  /** None of the `list` fields is required by its type. */
  lemma ListOptional()
    ensures forall i | 0 <= i < |PagingSchema + Filter| :: !IsRequired((PagingSchema + Filter)[i].1)
  {
  }

  /** `sendByEmail` requires `estimate_id` and takes an optional subject and message. */
  lemma SendByEmailSchema()
    ensures EffectiveSchema(EstimateBase, SendByEmail) ==
      [("estimate_id", "string!"), ("subject", "string"), ("message", "string")]
  {
    SelectShape(EstimateBase, SendByEmail);
  }

  /** A bare id is the `estimate_id` of the request. */
  lemma BareId(id: string)
    ensures BuildRequest(Name, EstimateBase, GetOne, Str(id)) == Ok(Request("estimate.get", [Leaf("estimate_id", id)]))
  {
    TextTypesScalar();
    BareIdRequest(Name, EstimateBase, GetOne, id);
    assert Name + "." + GetOne.name == "estimate.get";
  }

  /** `contacts` items are written under `<contact><contact_id>`. */
  lemma ContactsPath()
    ensures Schema[1].0 == "contacts" && ArrayKeys(Schema[1].1) == Some(["contact", "contact_id"])
  {
    var group, field := "contact", "contact_id";
    TwoStepPath(group, field, false);
    ContactsType(group, field);
    assert Schema[1] == HeaderFields[1];
  }

  lemma ContactsType(group: string, field: string)
    requires group == "contact" && field == "contact_id"
    ensures HeaderFields[1].1 == ArrayPrefix + group + "." + field + "]" + ""
  {
  }

  /** Registration records the nine actions in table order and defines the
      `listAll` companion. */
  lemma Registered()
    ensures SetMethods(Fresh, Table).names ==
      ["create", "update", "get", "delete", "list", "sendByEmail", "getPDF", "accept", "markAsSent"]
    ensures "listAll" in SetMethods(Fresh, Table).defined
  {
    var table := Table;
    Registers(table);
    assert ActionNames(table) == ["create", "update", "get", "delete", "list", "sendByEmail", "getPDF", "accept", "markAsSent"];
    assert table[4].paginate.Some? && table[4].name + "All" == "listAll";
  }
}
