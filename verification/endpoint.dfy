/**
 Endpoint composition (src/Endpoint.js): how one entry of a resource's
 method table becomes a callable action. The action's effective schema is
 merged from the resource's base schema, its select key, the paging fields
 and the action's own schema, with the required fields marked; a call
 prepares its options (bare-id shorthand, default options), spreads them
 into a request, posts it, cleans the response and projects the result.
 */
module Endpoints {
  import opened Wrappers
  import opened OrderedMaps
  import opened DecimalText
  import opened Values
  import opened Coercion
  import opened TypeStrings
  import opened XmlCleanup
  import opened Params

  /** What a resource shares among its actions: its field schema, its
      select schema (the id field) and the name of the id field. */
  datatype Base = Base(schema: OMap<string>, select: OMap<string>, key: string)

  /** Where an action's fields go: straight under the request, under an
      element named after the resource (`wrap: true`), or under a given name. */
  datatype Wrap = NoWrap | WrapInName | WrapIn(tag: string)

  /** What a call returns, from the `result` option. */
  datatype Projection =
    | Identity                 // the cleaned response
    | Flag(b: bool)            // a fixed boolean
    | Field(name: string)      // one field of the response
    | Pick(names: seq<string>) // the named fields that are present
    | Apply(f: Value -> Value) // a function of the response

  /**
   One entry of a method table: its name, the options object
   (`required`, `wrap`, `schema`, `select`, `paginate`, `options`,
   `result`) and its own schema.
   */
  datatype Action = Action(
    name: string,
    required: seq<string>,
    wrap: Wrap,
    schema: bool,
    select: bool,
    paginate: Option<string>,
    defaults: Option<OMap<Value>>,
    result: Projection,
    actionSchema: OMap<string>)

  /** A table entry with every option unset and no schema of its own. */
  function Plain(name: string): Action {
    Action(name, [], NoWrap, false, false, None, None, Identity, [])
  }

  /** The fields a paginated action accepts. */
  const PagingSchema: OMap<string> := [("page", "string"), ("per_page", "string")]

  /** `paginate` is truthy: a non-empty collection name. */
  predicate Paginates(a: Action) {
    a.paginate.Some? && a.paginate.value != ""
  }

  /** A JavaScript object: no key twice. */
  predicate WellFormed(base: Base, a: Action) {
    Distinct(base.schema) && Distinct(base.select) && Distinct(a.actionSchema)
  }

  /** The type a required name is marked from: its type in the action
      schema, else in the base schema; "" when neither has one. */
  function RequiredType(prop: string, actionSchema: OMap<string>, baseSchema: OMap<string>): string {
    var own := Get(actionSchema, prop).GetOr("");
    if own != "" then own else Get(baseSchema, prop).GetOr("")
  }

  /** The required overrides, one per required name with a type, in the order named. */
  function Overrides(required: seq<string>, actionSchema: OMap<string>, baseSchema: OMap<string>): OMap<string>
    decreases |required|
  {
    if |required| == 0 then []
    else
      var acc := Overrides(required[..|required| - 1], actionSchema, baseSchema);
      var prop := required[|required| - 1];
      var t := RequiredType(prop, actionSchema, baseSchema);
      if t != "" then Put(acc, prop, MarkRequired(t)) else acc
  }

  /** The schema an action's options are spread with. */
  function EffectiveSchema(base: Base, a: Action): OMap<string> {
    var fromSchema := Merge([], if a.schema then base.schema else []);
    var fromSelect := Merge(fromSchema, if a.select then base.select else []);
    var fromPaging := Merge(fromSelect, if Paginates(a) then PagingSchema else []);
    var fromAction := Merge(fromPaging, a.actionSchema);
    Merge(fromAction, Overrides(a.required, a.actionSchema, base.schema))
  }

  /** The own enumerable properties object spread `{...v}` copies. */
  function Entries(v: Value): OMap<Value> {
    match v
    case Obj(fs) => fs
    case Str(s) => seq(|s|, i requires 0 <= i < |s| => (NatDigits(i), Str([s[i]])))
    case List(items) => seq(|items|, i requires 0 <= i < |items| => (NatDigits(i), items[i]))
    case _ => []
  }

  /**
   The options a call spreads: a bare argument that is not a plain object
   becomes `{key: arg}` when the action selects and has no schema; default
   options sit under the caller's.
   */
  function PrepareOptions(base: Base, a: Action, arg: Value): (o: Value)
    ensures arg.Obj? ==> o.Obj?
    ensures a.defaults.Some? ==> o.Obj?
    ensures a.defaults.None? && (arg.Obj? || !a.select || a.schema) ==> o == arg
  {
    var o := if !arg.Obj? && a.select && !a.schema then Obj([(base.key, arg)]) else arg;
    match a.defaults
    case None => o
    case Some(d) => Obj(Merge(d, Entries(o)))
  }

  /** The fields the schema reads: those of an object, none of anything else. */
  function OptionFields(o: Value): OMap<Value> {
    if o.Obj? then o.fields else []
  }

  /** A request document: the `method` attribute (`call`) and the root's children. */
  datatype Request = Request(call: string, body: seq<Xml>)

  /** The spread fields, under the wrapper element when there is one. */
  function Wrapped(w: Wrap, name: string, fields: seq<Xml>): (body: seq<Xml>)
    ensures w.NoWrap? || w == WrapIn("") ==> body == fields
    ensures w.WrapInName? ==> body == [Branch(name, fields)]
    ensures w.WrapIn? && w.tag != "" ==> body == [Branch(w.tag, fields)]
  {
    match w
    case NoWrap => fields
    case WrapInName => [Branch(name, fields)]
    case WrapIn(tag) => if tag == "" then fields else [Branch(tag, fields)]
  }

  /**
   The fields spread from options `o`: reading a field of null or
   undefined options throws, which only happens when the schema has a
   field to read; any other non-object has none of the schema's fields.
   */
  function SpreadOptions(schema: OMap<string>, o: Value): Result<seq<Xml>, SpreadError> {
    if o.Nil? && |schema| > 0 then Err(NoOptions(schema[0].0))
    else Spread(schema, OptionFields(o))
  }

  /** The request a call posts for resource `name`, or why it is refused
      before anything is sent. */
  function BuildRequest(name: string, base: Base, a: Action, arg: Value): Result<Request, SpreadError> {
    var fields :- SpreadOptions(EffectiveSchema(base, a), PrepareOptions(base, a, arg));
    Ok(Request(name + "." + a.name, Wrapped(a.wrap, name, fields)))
  }

  /** `_.pick(names, response)`: the named fields that are present, in the order named. */
  function PickFields(names: seq<string>, fs: OMap<Value>): OMap<Value>
    decreases |names|
  {
    if |names| == 0 then []
    else
      var acc := PickFields(names[..|names| - 1], fs);
      var k := names[|names| - 1];
      match Get(fs, k)
      case Some(v) => Put(acc, k, v)
      case None => acc
  }

  /** What a call returns for a cleaned response. */
  function Project(p: Projection, response: Value): Value {
    match p
    case Identity => response
    case Flag(b) => Bool(b)
    case Field(k) => Prop(response, k)
    case Pick(names) => Obj(PickFields(names, OptionFields(response)))
    case Apply(f) => f(response)
  }

  /**
   One call of action `a` on resource `name`: build the request, post it
   through `post` (the transport, which returns the parsed response tree),
   clean the response and project it.
   */
  function Invoke(name: string, base: Base, a: Action, arg: Value, post: Request -> Raw): Result<Value, SpreadError> {
    var request :- BuildRequest(name, base, a, arg);
    Ok(Project(a.result, Cleanup(post(request))))
  }
}
