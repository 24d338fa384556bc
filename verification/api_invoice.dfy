/**
 The invoice resource (src/api/invoice.js): its schemas and method table,
 and the effective schema of each action. Its base fields include the id
 field itself, and `create` names a required field the schema lacks.
 */
module ApiInvoice {
  import opened Wrappers
  import opened OrderedMaps
  import opened Values
  import opened TypeStrings
  import opened Params
  import opened Endpoints
  import opened EndpointProperties
  import opened Registry

  const Name := "invoice"
  const Collection := "invoices"
  const Key := "invoice_id"
  const Select: OMap<string> := [(Key, "string!")]

  /** The invoice fields, in the order src/api/invoice.js lists them. */
  const Schema: OMap<string> := HeaderFields + TermsFields + Recipient + TaxAndLines

  /** The id, the client, and the invoice's number, amounts, status and date. */
  const HeaderFields: OMap<string> := [
    ("invoice_id", "string"),
    ("client_id", "string"),
    ("contacts", "array[contact]"),
    ("number", "string"),
    ("amount", "string"),
    ("amount_outstanding", "string"),
    ("status", "string"),
    ("date", "string")
  ]

  const TermsFields: OMap<string> := [
    ("po_number", "string"),
    ("discount", "string"),
    ("notes", "string"),
    ("currency_code", "string"),
    ("folder", "string"),
    ("language", "string"),
    ("terms", "string")
  ]

  /** The recipient's name, organization and primary address. */
  const Recipient: OMap<string> := [
    ("first_name", "string"),
    ("last_name", "string"),
    ("organization", "string"),
    ("p_street1", "string"),
    ("p_street2", "string"),
    ("p_city", "string"),
    ("p_state", "string"),
    ("p_country", "string"),
    ("p_code", "string")
  ]

  const TaxAndLines: OMap<string> := [
    ("vat_name", "string"),
    ("vat_number", "string"),
    ("lines", "array[line]")
  ]

  const Filter: OMap<string> := [
    ("email", "string"),
    ("username", "string"),
    ("updated_from", "string"),
    ("updated_to", "string"),
    ("folder", "string")
  ]

  const InvoiceBase := Base(Schema, Select, Key)

  const Create := Plain("create").(schema := true, required := ["email"], wrap := WrapInName, result := Field(Key))
  const Update := Plain("update").(schema := true, select := true, wrap := WrapInName, result := Flag(true))
  const GetOne := Plain("get").(select := true, result := Field(Name))
  const Delete := Plain("delete").(select := true, result := Flag(true))
  const List := Plain("list").(paginate := Some(Collection), actionSchema := Filter)

  const Table := [Create, Update, GetOne, Delete, List]

  /** The invoice fields are distinct, start with the id field and have no `email`. */
  lemma SchemaFacts()
    ensures Distinct(Schema) && Schema[0].0 == Key && "email" !in Keys(Schema)
  {
    GroupsDistinct();
    RecipientDistinct();
    GroupsLackEmail();
    GroupsApart();
    GroupsApartLast();
    DistinctJoin4(HeaderFields, TermsFields, Recipient, TaxAndLines);
    AbsentJoin4(HeaderFields, TermsFields, Recipient, TaxAndLines, "email");
    assert Schema[0] == HeaderFields[0];
  }

  lemma GroupsDistinct()
    ensures Distinct(HeaderFields) && Distinct(TermsFields)
  {
  }

  lemma RecipientDistinct()
    ensures Distinct(Recipient) && Distinct(TaxAndLines)
  {
  }

  lemma GroupsLackEmail()
    ensures "email" !in Keys(HeaderFields) && "email" !in Keys(TermsFields)
    ensures "email" !in Keys(Recipient) && "email" !in Keys(TaxAndLines)
  {
  }

  lemma GroupsApart()
    ensures Apart(HeaderFields, TermsFields) && Apart(HeaderFields, Recipient) && Apart(TermsFields, Recipient)
  {
  }

  lemma GroupsApartLast()
    ensures Apart(HeaderFields, TaxAndLines) && Apart(TermsFields, TaxAndLines) && Apart(Recipient, TaxAndLines)
  {
  }

  /** No invoice field is required by its own type. */
  lemma SchemaOptional()
    ensures forall i | 0 <= i < |Schema| :: !IsRequired(Schema[i].1)
  {
  }

  /** `create` uses the base fields only and requires `email`. */
  lemma CreateOptions()
    ensures Create.schema && !Create.select && !Paginates(Create) && Create.actionSchema == [] && Create.required == ["email"]
  {
  }

  /**
   `create` requires `email`, which no invoice field is: nothing is
   marked, so every invoice field is optional, and the call is wrapped in
   `<invoice>` and returns the new `invoice_id`.
   */
  lemma CreateSchema()
    ensures EffectiveSchema(InvoiceBase, Create) == Schema
    ensures forall i | 0 <= i < |Schema| :: !IsRequired(Schema[i].1)
  {
    SchemaFacts();
    SchemaOptional();
    CreateOptions();
    CreateShapeAbsent(InvoiceBase, Create, "email");
  }

  /** `update` takes the invoice fields with `invoice_id` made required in
      place, first among them. */
  lemma UpdateSchema()
    ensures EffectiveSchema(InvoiceBase, Update) == Schema[0 := ("invoice_id", "string!")]
  {
    SchemaFacts();
    UpdateShapeInPlace(InvoiceBase, Update, 0);
  }

  /** `get` and `delete` take only the required `invoice_id`. */
  lemma SelectingSchemas()
    ensures EffectiveSchema(InvoiceBase, GetOne) == [("invoice_id", "string!")]
    ensures EffectiveSchema(InvoiceBase, Delete) == [("invoice_id", "string!")]
  {
    SelectShape(InvoiceBase, GetOne);
    SelectShape(InvoiceBase, Delete);
  }

  /** `list` takes the optional paging fields and filters, and pages through `invoices`. */
  lemma ListSchema()
    ensures EffectiveSchema(InvoiceBase, List) == PagingSchema + Filter
    ensures List.paginate == Some("invoices")
  {
    assert Keys(PagingSchema) == ["page", "per_page"];
    ListShape(InvoiceBase, List);
  }

  /** Registration records the five actions in table order and defines the
      `listAll` companion. */
  lemma Registered()
    ensures SetMethods(Fresh, Table).names == ["create", "update", "get", "delete", "list"]
    ensures "listAll" in SetMethods(Fresh, Table).defined
  {
    var table := Table;
    Registers(table);
    assert ActionNames(table) == ["create", "update", "get", "delete", "list"];
    assert table[4].paginate.Some? && table[4].name + "All" == "listAll";
  }
}
