/**
 Request spreading (`spread` in src/utils/params.js): the caller's options
 are checked against a schema (field name → type string) and written as
 child elements of the request, one field at a time in schema order. A
 scalar field becomes one element holding the value's text. As the
 repository's tests expect, an array field becomes one element wrapping, per
 item, the chain of path elements its type names, holding the item's text or
 the item's own fields; `ArrayFieldAsWritten` is the array branch as the code
 stands.
 */
module Params {
  import opened Wrappers
  import opened OrderedMaps
  import opened DecimalText
  import opened Values
  import opened Coercion
  import opened TypeStrings

  /** An element of the request document. */
  datatype Xml =
    | Leaf(name: string, text: string)
    | Branch(name: string, children: seq<Xml>)

  /** Why a request could not be built. */
  datatype SpreadError =
    | Required(field: string)                   // a required field is null or undefined
    | NotAnArray(field: string)                 // an array field holds something else
    | NotText(field: string)                    // a scalar field holds neither number nor string
    | BadArrayType(field: string)               // an array type without a bracketed path
    | Unsupported(field: string, kind: string)  // an array item, or an item's field, of type `kind`
    | NoOptions(field: string)                  // the options are null or undefined and the schema has this first field to read

  /** `valueIsString`: a finite number or a string. */
  predicate IsText(v: Value) {
    v.Num? || v.Str?
  }

  /** JavaScript's `typeof`. */
  function TypeName(v: Value): string {
    match v
    case Nil => "undefined"
    case Bool(_) => "boolean"
    case Num(_) => "number"
    case NaN => "number"
    case Str(_) => "string"
    case List(_) => "object"
    case Obj(_) => "object"
  }

  /**
   Field validation in the order the tests expect: a missing required field
   fails, any other missing field is skipped, and a present value must fit
   its type.
   */
  function Validate(v: Value, t: string, prop: string): Option<SpreadError> {
    if IsRequired(t) && v.Nil? then Some(Required(prop))
    else if v.Nil? then None
    else ValidateType(v, t, prop)
  }

  /** Field validation as src/utils/params.js orders it: the type checks run
      before a missing field is skipped. */
  function ValidateAsWritten(v: Value, t: string, prop: string): Option<SpreadError> {
    if IsRequired(t) && v.Nil? then Some(Required(prop))
    else ValidateType(v, t, prop)
  }

  /** An array type needs a list, any other type a number or a string. */
  function ValidateType(v: Value, t: string, prop: string): Option<SpreadError> {
    if IsArrayType(t) && !v.List? then Some(NotAnArray(prop))
    else if IsScalarType(t) && !IsText(v) then Some(NotText(prop))
    else None
  }

  /** What the innermost path element of an array item holds. */
  datatype Body = TextBody(text: string) | Fields(children: seq<Xml>)

  /** The path elements, nested, around an item's body. */
  function Chain(path: seq<string>, body: Body): Xml
    requires |path| >= 1
  {
    if |path| == 1 then
      match body
      case TextBody(t) => Leaf(path[0], t)
      case Fields(cs) => Branch(path[0], cs)
    else Branch(path[0], [Chain(path[1..], body)])
  }

  /**
   The fields of object `v` from its `i`-th key on, in key order: a number
   or a text becomes a text element, a nested plain object an element
   holding its own fields, and anything else is unsupported.
   */
  function ObjectFields(prop: string, v: Value, i: nat := 0): Result<seq<Xml>, SpreadError>
    requires v.Obj? && i <= |v.fields|
    decreases v, 0, |v.fields| - i
  {
    if i == |v.fields| then Ok([])
    else
      var head :- FieldElement(prop, v.fields[i].0, v.fields[i].1);
      var rest :- ObjectFields(prop, v, i + 1);
      Ok([head] + rest)
  }

  /** The element field `k` of an object item becomes. */
  function FieldElement(prop: string, k: string, x: Value): Result<Xml, SpreadError>
    decreases x, 1
  {
    if IsText(x) then Ok(Leaf(k, ToText(x)))
    else if x.Obj? then
      var cs :- ObjectFields(prop, x);
      Ok(Branch(k, cs))
    else Err(Unsupported(prop, TypeName(x)))
  }

  /** The body of one array item: its text, or its fields. */
  function ItemBody(prop: string, item: Value): Result<Body, SpreadError> {
    if IsText(item) then Ok(TextBody(ToText(item)))
    else if item.Obj? then
      var cs :- ObjectFields(prop, item);
      Ok(Fields(cs))
    else Err(Unsupported(prop, TypeName(item)))
  }

  /** The items of an array field, each wrapped in the path. */
  function EmitItems(prop: string, path: seq<string>, items: seq<Value>): Result<seq<Xml>, SpreadError>
    requires |path| >= 1
  {
    if |items| == 0 then Ok([])
    else
      var body :- ItemBody(prop, items[0]);
      var rest :- EmitItems(prop, path, items[1..]);
      Ok([Chain(path, body)] + rest)
  }

  /** The elements one schema field contributes, or why it fails. */
  function SpreadField(prop: string, t: string, v: Value, asWritten: bool): Result<seq<Xml>, SpreadError> {
    var check := if asWritten then ValidateAsWritten(v, t, prop) else Validate(v, t, prop);
    if check.Some? then Err(check.value)
    else if v.Nil? then Ok([])
    else if IsScalarType(t) then Ok([Leaf(prop, ToText(v))])
    else match (ArrayKeys(t), v)
      case (Some(path), List(items)) =>
        var cs :- EmitItems(prop, path, items);
        Ok([Branch(prop, cs)])
      case _ => Err(BadArrayType(prop))
  }

  /**
   A present array field as the code stands. The item loop passes the items
   first and the callback second, but `lodash/fp`'s `forEach` takes the
   callback first, so it walks the callback's own properties (there are
   none) and writes nothing. Only the path is still parsed, so a malformed
   array type still fails.
   */
  function ArrayFieldAsWritten(prop: string, t: string, items: seq<Value>): (r: Result<seq<Xml>, SpreadError>)
    ensures r.Err? <==> ArrayKeys(t).None?
    ensures r.Ok? ==> |r.value| == 0
  {
    if ArrayKeys(t).Some? then Ok([]) else Err(BadArrayType(prop))
  }

  /** The value the caller gave a field (`undefined` when absent). */
  function FieldValue(obj: OMap<Value>, prop: string): Value {
    Get(obj, prop).GetOr(Nil)
  }

  /** The fields of `schema` in order, the first failure winning. */
  function SpreadIn(schema: OMap<string>, obj: OMap<Value>, asWritten: bool): Result<seq<Xml>, SpreadError>
    decreases |schema|
  {
    if |schema| == 0 then Ok([])
    else
      var head :- SpreadField(schema[0].0, schema[0].1, FieldValue(obj, schema[0].0), asWritten);
      var tail :- SpreadIn(schema[1..], obj, asWritten);
      Ok(head + tail)
  }

  /** Spreading with the validation order the repository's tests expect. */
  function Spread(schema: OMap<string>, obj: OMap<Value>): Result<seq<Xml>, SpreadError> {
    SpreadIn(schema, obj, false)
  }

  /** Spreading with the validation order of src/utils/params.js. */
  function SpreadAsWritten(schema: OMap<string>, obj: OMap<Value>): Result<seq<Xml>, SpreadError> {
    SpreadIn(schema, obj, true)
  }

  /** The element names of a request body, in order. */
  function Names(xs: seq<Xml>): seq<string> {
    seq(|xs|, i requires 0 <= i < |xs| => xs[i].name)
  }

  /** The schema fields the caller gave a defined value, in schema order. */
  function PresentFields(schema: OMap<string>, obj: OMap<Value>): seq<string>
    decreases |schema|
  {
    if |schema| == 0 then []
    else if FieldValue(obj, schema[0].0).Nil? then PresentFields(schema[1..], obj)
    else [schema[0].0] + PresentFields(schema[1..], obj)
  }
}
