/**
 The languages resource (src/api/languages.js): one `list` action with no
 base options, asking for 100 languages per page unless the caller says
 otherwise, and returning the language names keyed by code.
 */
module ApiLanguages {
  import opened Wrappers
  import opened OrderedMaps
  import opened DecimalText
  import opened Values
  import opened Coercion
  import opened TypeStrings
  import opened XmlCleanup
  import opened Params
  import opened ParamsProperties
  import opened Endpoints
  import opened EndpointProperties
  import opened Registry
  import opened Projections

  const Name := "language"

  /** No base options: no base schema, no select schema, no id field. */
  const LanguageBase := Base([], [], "")

  const Defaults: OMap<Value> := [("per_page", Int(100))]

  /** `_.flow([_.getOr([], 'languages'), _.keyBy('code'), _.mapValues(_.getOr('', 'name'))])`. */
  function LanguageNames(response: Value): Value {
    IndexBy("languages", "code", "name", Str(""), response)
  }

  const List := Plain("list").(defaults := Some(Defaults), result := Apply(LanguageNames),
                               actionSchema := [("per_page", "string")])

  const Table := [List]

  /** `list` takes only an optional `per_page`. */
  lemma ListSchema()
    ensures EffectiveSchema(LanguageBase, List) == [("per_page", "string")]
  {
    MergeIntoEmpty(List.actionSchema);
  }

  /** The default `per_page` is written as `100`. */
  lemma DefaultText()
    ensures ToText(Int(100)) == "100"
  {
    assert NatDigits(100) == NatDigits(10) + [DigitChar(0)];
    assert NatDigits(10) == NatDigits(1) + [DigitChar(0)];
  }

  /** Called without options, `list` asks for 100 languages. */
  lemma DefaultPageSize()
    ensures BuildRequest(Name, LanguageBase, List, Nil) == Ok(Request("language.list", [Leaf("per_page", "100")]))
  {
    ListSchema();
    assert PrepareOptions(LanguageBase, List, Nil) == Obj(Defaults);
    DefaultText();
    TextTypesScalar();
    assert FieldValue(Defaults, "per_page") == Int(100);
    SpreadOneScalar("per_page", "string", Defaults);
    assert Name + "." + List.name == "language.list";
  }

  /** A caller's `per_page` replaces the default one in the options. */
  lemma CallerOptions(n: Value)
    ensures PrepareOptions(LanguageBase, List, Obj([("per_page", n)])) == Obj([("per_page", n)])
  {
    MergeSingle(Defaults, "per_page", n);
  }

  /** A caller's `per_page` overrides the default. */
  lemma CallerPageSize(n: Value)
    requires n.Str? || n.Num?
    ensures BuildRequest(Name, LanguageBase, List, Obj([("per_page", n)])) ==
      Ok(Request("language.list", [Leaf("per_page", ToText(n))]))
  {
    ListSchema();
    var fields := [("per_page", n)];
    CallerOptions(n);
    TextTypesScalar();
    assert FieldValue(fields, "per_page") == n;
    SpreadOneScalar("per_page", "string", fields);
    assert Name + "." + List.name == "language.list";
  }

  /**
   The result files each member of the response's `languages` collection
   under its code, with the name of the last member of that code (the
   empty text when it has none); a code no member has is absent.
   */
  lemma NamesByCode(response: Value, code: string)
    ensures LanguageNames(response).Obj?
    ensures var languages := Members(GetOr(Value.List([]), "languages", response));
      && (Get(LanguageNames(response).fields, code).None? <==> forall i | 0 <= i < |languages| :: KeyOf(languages[i], "code") != code)
      && (forall i | IsLastKeyed(languages, "code", code, i) ::
            Get(LanguageNames(response).fields, code) == Some(GetOr(Str(""), "name", languages[i])))
  {
    IndexByGet("languages", "code", "name", Str(""), response, code);
  }

  /** Registration records the one action and defines no companion. */
  lemma Registered()
    ensures SetMethods(Fresh, Table).names == ["list"]
    ensures forall x | x in SetMethods(Fresh, Table).defined :: x == "list"
  {
    SetAllNames(Fresh, Table);
    SetAllOnly(Fresh, Table);
  }
}
