/**
 The default-terms resource (src/api/terms.js): terms are selected by
 their `type`; `get` returns a term's message and `list` returns the
 messages keyed by type.
 */
module ApiTerms {
  import opened Wrappers
  import opened OrderedMaps
  import opened Values
  import opened TypeStrings
  import opened XmlCleanup
  import opened Params
  import opened Endpoints
  import opened EndpointProperties
  import opened Registry
  import opened Projections

  const Name := "default_terms"
  const Key := "type"
  const Select: OMap<string> := [(Key, "string!")]
  const Schema: OMap<string> := [("type", "string"), ("message", "string")]

  const TermsBase := Base(Schema, Select, Key)

  /** `_.getOr('', 'message')`: a term's message, or the empty text. */
  function TermMessage(response: Value): Value {
    GetOr(Str(""), "message", response)
  }

  /** The `default_terms` collection's messages keyed by term type. */
  function TermsByType(response: Value): Value {
    IndexBy(Name, Key, "message", Str(""), response)
  }

  const List := Plain("list").(result := Apply(TermsByType))
  const GetOne := Plain("get").(select := true, result := Apply(TermMessage))
  const Update := Plain("update").(schema := true, select := true, wrap := WrapInName, result := Flag(true))

  const Table := [List, GetOne, Update]

  /** `update` takes the term fields with `type` made required in place. */
  lemma UpdateSchema()
    ensures EffectiveSchema(TermsBase, Update) == [("type", "string!"), ("message", "string")]
  {
    assert Distinct(Schema);
    UpdateShapeInPlace(TermsBase, Update, 0);
  }

  /** `list` has no fields, so it may be called without options: the
      request is empty and the result is the messages keyed by type. */
  lemma ListWithoutOptions(post: Request -> Raw)
    ensures BuildRequest(Name, TermsBase, List, Nil) == Ok(Request("default_terms.list", []))
    ensures Invoke(Name, TermsBase, List, Nil, post) ==
      Ok(TermsByType(Cleanup(post(Request("default_terms.list", [])))))
  {
    assert EffectiveSchema(TermsBase, List) == [];
    var none: seq<Xml> := [];
    assert Spread([], []) == Ok(none);
    assert Name + "." + List.name == "default_terms.list";
  }

  /** A bare text selects the term of that type, and the result is its
      message, or the empty text when the response has none. */
  lemma GetByType(t: string, post: Request -> Raw)
    ensures BuildRequest(Name, TermsBase, GetOne, Str(t)) == Ok(Request("default_terms.get", [Leaf("type", t)]))
    ensures var response := Cleanup(post(Request("default_terms.get", [Leaf("type", t)])));
      Invoke(Name, TermsBase, GetOne, Str(t), post) ==
        Ok(if Prop(response, "message").Nil? then Str("") else Prop(response, "message"))
  {
    TextTypesScalar();
    BareIdRequest(Name, TermsBase, GetOne, t);
    assert Name + "." + GetOne.name == "default_terms.get";
  }

  /** `get` without an argument is refused: the shorthand selects an
      undefined `type`, which is required. */
  lemma GetWithoutType()
    ensures BuildRequest(Name, TermsBase, GetOne, Nil) == Err(Required("type"))
  {
    SelectShape(TermsBase, GetOne);
    assert Select + [] == Select;
    var o := [(Key, Nil)];
    assert PrepareOptions(TermsBase, GetOne, Nil) == Obj(o);
    assert FieldValue(o, Key) == Nil;
  }

  /**
   Listing files each term of the response's `default_terms` collection
   under its type, the last term of a type winning; a type no term has is
   absent.
   */
  lemma ListedMessages(response: Value, t: string)
    ensures TermsByType(response).Obj?
    ensures var terms := Members(GetOr(Value.List([]), "default_terms", response));
      && (Get(TermsByType(response).fields, t).None? <==> forall i | 0 <= i < |terms| :: KeyOf(terms[i], "type") != t)
      && (forall i | IsLastKeyed(terms, "type", t, i) :: Get(TermsByType(response).fields, t) == Some(TermMessage(terms[i])))
  {
    IndexByGet(Name, Key, "message", Str(""), response, t);
  }

  /** Registration records the three actions and defines no companion. */
  lemma Registered()
    ensures SetMethods(Fresh, Table).names == ["list", "get", "update"]
    ensures forall x | x in SetMethods(Fresh, Table).defined :: x in ["list", "get", "update"]
  {
    SetAllNames(Fresh, Table);
    SetAllOnly(Fresh, Table);
    forall x | DefinedBy(Table, x) ensures x in ["list", "get", "update"] {
      var i :| 0 <= i < |Table| && (x == Table[i].name || (Table[i].paginate.Some? && x == Table[i].name + "All"));
      assert Table[i].paginate.None?;
    }
  }
}
