# freshbooks-classic request and response core, in Dafny

A model of the core of the `freshbooks-classic` JavaScript client for the
FreshBooks Classic XML API, with proofs about it:

- **Response cleanup** (`src/utils/xml.js`): the pass that turns the XML
  parser's tree into the value a caller sees. It coerces leaf text to
  numbers, NaN and booleans and drops `xmlns`, empty leaves and deprecated
  entries. Plural collections become lists, and a collection's four
  pagination fields move up to its parent.
- **Request spreading** (`src/utils/params.js`): type strings (`string`,
  `string!`, `array[a.b]`), validation, and writing a caller's options
  into request elements in schema order.
- **Endpoint composition** (`src/Endpoint.js`): how one entry of a
  resource's method table becomes an action. This covers:
  - the effective schema: base schema, select schema, paging fields, the
    action's own schema and the required overrides;
  - the bare-id shorthand and the default options;
  - building and posting the request, and projecting the result;
  - the `…All` pagination loop;
  - method registration and freezing.
- **Resource tables** (`src/api`): estimate, client, invoice, item,
  callback, terms and languages. Each has lemmas giving the effective
  schema of its actions and the behaviour its tests rely on.

JavaScript values are `Values.Value`: undefined, boolean, exact decimal
number, NaN, text, array, or object. Objects are insertion-ordered association
lists (`OrderedMaps`):
- `Get` is property read.
- `Put` is assignment; an existing key keeps its position.
- `Merge` is object spread.

The parser tree is `XmlCleanup.Raw`. The transport (`post`) is a function
parameter from a request to the parsed response tree.

`Cleanup` is the corrected response pass that the rest of the model uses.
`CleanupAsWritten` is the pass as the source writes it; the
differences are listed under Findings. Spreading follows the order the
repository's tests expect (`Params.Spread`). `Params.SpreadAsWritten` keeps
the code's validation order; it writes array fields as `Params.Spread` does,
and `Params.ArrayFieldAsWritten` is the code's array branch.

## Model

| member | source | states |
|---|---|---|
| OrderedMaps.GetPut | src/utils/xml.js:63 | after `result[key] = v`, reading `key` gives `v` and every other key reads as before |
| OrderedMaps.KeysPut | src/utils/xml.js:55 | assignment keeps key order; a new key goes last |
| OrderedMaps.DistinctPut | src/utils/xml.js:58 | assignment never creates a duplicate key |
| OrderedMaps.GetMerge | src/Endpoint.js:21-33 | in `{...a, ...b}` a key reads from `b` when `b` has it, else from `a` |
| OrderedMaps.KeysMerge | src/Endpoint.js:21-33 | the spread has exactly the keys of both sides, and no duplicates when `a` has none |
| OrderedMaps.MergeDisjoint | src/Endpoint.js:21-33 | spreading an object with only new keys appends its entries in order |
| OrderedMaps.PutPresent | src/Endpoint.js:30 | assigning a present key overwrites its entry in place |
| DecimalText.ParseDecimal | src/utils/xml.js:40 | a text parses as a number exactly when it is plain decimal text |
| DecimalText.ParseRender | src/utils/xml.js:40 | the text written for a number parses back to that number |
| DecimalText.RenderParts | src/utils/params.js:30 | the written text of a number has its integer digits, its fraction digits, and a leading `-` exactly when negative |
| DecimalText.NatDigitsValue | src/utils/xml.js:40 | the decimal digits of `n` denote `n` |
| DecimalText.WholeIffZeroFraction | src/utils/xml.js:40 | a parsed number is whole (`x % 1 === 0`) exactly when its fraction digits are all zero |
| Coercion.ParseValue | src/utils/xml.js:39-42 | a leaf is NaN exactly for blank text (empty or white space only, which `isFinite` accepts and `parseInt` reads as NaN); a number exactly for decimal text, whole exactly when its fraction is zeros; otherwise a boolean exactly for `true`/`false` in any letter case (true iff it lower-cases to `true`); otherwise the unchanged text |
| Coercion.BlankNotDecimal | src/utils/xml.js:40 | a blank text is never decimal text, so the NaN rule and the number rule never both apply |
| Coercion.LowerAscii | src/utils/xml.js:41 | lower-casing keeps length and maps each character |
| Coercion.BoolLiteralNotDecimal | src/utils/xml.js:6 | a boolean literal is never decimal text, so the number rule and the boolean rule never both apply |
| Coercion.NumberRoundTrip | src/utils/xml.js:39-42 | coercing the text written for a number gives that number back |
| Coercion.ParseNatDigits | src/utils/xml.js:40 | the digits of a natural number coerce to that integer |
| Coercion.CoercionStable | src/utils/xml.js:39-42 | writing a coerced value as text and coercing again changes nothing, except NaN, whose text `"NaN"` coerces to that text |
| Coercion.IntegerExample | src/utils/xml.js:40 | `"42"` coerces to the integer 42 |
| Coercion.TrailingZerosExample | src/utils/xml.js:40 | `"5.00"` coerces to the integer 5: a zero fraction is not kept |
| Coercion.FractionExample | src/utils/xml.js:40 | `"3.5"` coerces to 3.5 |
| Coercion.BoolExamples | src/utils/xml.js:41 | `"TRUE"` and `"False"` coerce to booleans |
| Coercion.TextExamples | src/utils/xml.js:39-42 | `"abc"` is neither blank, decimal nor boolean, and is kept as text |
| Coercion.BlankExamples | src/utils/xml.js:40 | `""` and `" "` coerce to NaN, and `" 5"` does not |
| XmlCleanup.CastArray | src/utils/xml.js:34-38 | the result is always an array |
| XmlCleanup.Cleanup | src/utils/xml.js:44-64 | the cleaned response is always an object |
| XmlCleanup.Unwrap | src/utils/xml.js:55 | a lifted collection is always an array |
| CleanupProperties.IrregularDistinct | src/utils/xml.js:17-24 | the irregular plural table names each plural once |
| CleanupProperties.SingularIrregular | src/utils/xml.js:28 | each irregular plural maps to its listed singular, which differs from it |
| CleanupProperties.SingularRegular | src/utils/xml.js:28 | any other key has a different singular exactly when it ends in `s`, and the singular plus `s` is the key |
| CleanupProperties.DefaultTermsSingular | src/utils/xml.js:22 | `default_terms` collects `terms` |
| CleanupProperties.ClientsSingular | src/utils/xml.js:28 | `clients` collects `client` |
| CleanupProperties.PluralIff | src/utils/xml.js:26-33 | a named map is a collection exactly when its singular differs from its name and is one of its entries |
| CleanupProperties.IndexedNeverPlural | src/utils/xml.js:27 | an array index is never a collection name |
| CleanupProperties.GetHoist | src/utils/xml.js:31-32 | the lifted pagination fields read as the collection's values, and any other key as before |
| CleanupProperties.KeysHoist | src/utils/xml.js:53 | lifting adds exactly the pagination keys and no duplicate |
| CleanupProperties.KeysHoistEmpty | src/utils/xml.js:31-32 | lifted into an empty object, the keys are `page`, `per_page`, `pages`, `total` in that order |
| CleanupProperties.DroppedIff | src/utils/xml.js:50-62 | an entry is dropped exactly when it is deprecated, is `xmlns`, or is empty |
| CleanupProperties.LeafCoerced | src/utils/xml.js:63 | a leaf other than `xmlns` becomes its coerced value |
| CleanupProperties.UnwrapIff | src/utils/xml.js:49-59 | a kept map becomes an array exactly when it is a collection, and otherwise is cleaned in place |
| CleanupProperties.StepOther | src/utils/xml.js:44-64 | one step of the pass reads every other key as before |
| CleanupProperties.StepOwn | src/utils/xml.js:44-64 | one step writes the entry's cleaned value under its name, or leaves it absent when dropped |
| CleanupProperties.StepKeys | src/utils/xml.js:44-64 | one step adds only its own name and the pagination keys, and no duplicate |
| CleanupProperties.FoldKeys | src/utils/xml.js:44-64 | the cleaned object holds only entry names and pagination keys, each once |
| CleanupProperties.NatDigitsInjective | src/utils/xml.js:46 | distinct array indices give distinct keys |
| CleanupProperties.CleanupKeys | src/utils/xml.js:44-64 | the result's keys are entry names or pagination keys, with no duplicates |
| CleanupProperties.FoldUntouched | src/utils/xml.js:44-64 | a key no entry so far has, and no pagination key, is absent |
| CleanupProperties.FoldAfter | src/utils/xml.js:44-64 | later entries of other names do not change a key's value |
| CleanupProperties.GetCleanupEntry | src/utils/xml.js:44-64 | in the result, an entry's name reads as that entry's cleaned value |
| CleanupProperties.GetCleanupAbsent | src/utils/xml.js:44-64 | a name the response lacks is absent from the result |
| CleanupProperties.KeptIff | src/utils/xml.js:50-62 | an entry's name is in the result exactly when the entry is not dropped |
| CleanupProperties.FoldNodes | src/utils/xml.js:45-47 | repeated elements clean to their cleaned items under their indices |
| CleanupProperties.RepeatedKeepOrder | src/utils/xml.js:55 | a collection of several elements becomes the array of their cleaned items, in document order |
| CleanupProperties.LoneItem | src/utils/xml.js:36-37 | a lone map item without a key `1` is wrapped in a one-element array |
| CleanupProperties.CastArrayCases | src/utils/xml.js:34-38 | arrays pass through; an object's result is its list of values exactly when `a[1]` is truthy, and otherwise it is wrapped |
| CleanupProperties.LiftedFields | src/utils/xml.js:51-56 | a paged collection's parent gets the four pagination fields and then the collection, under their own names |
| CleanupFindings.PagesLifted | src/utils/xml.js:31 | the lifted `pages` is the collection's raw text when written as in the source, and coerced when corrected |
| CleanupFindings.LiftedPagesStayText | src/utils/xml.js:31-53 | on a paged `clients` response, the source leaves `pages` as the text `"n"`; the corrected pass gives the integer n |
| CleanupFindings.TwoDigitsSplit | src/utils/xml.js:34-38 | the source pass turns a two-character text item into an array of its two characters |
| CleanupFindings.LoneTextItemSplits | src/utils/xml.js:55 | a lone two-digit `<id>` in `<ids>` becomes two one-digit items as written, and one number when corrected |
| CleanupFindings.RepeatedTextSplits | src/utils/xml.js:45-46 | two sibling `<note>` texts `x` and `y` outside any collection become `[{0: "x"}, {0: "y"}]` as written, and `["x", "y"]` when corrected |
| CleanupFindings.TwoTextsFold | src/utils/xml.js:45-47 | two text items clean to their coerced values under keys `0` and `1` |
| CleanupFindings.FalsySecondItemWrapsWhole | src/utils/xml.js:36 | items `[n, 0]` are wrapped whole as written, because `a[1]` is falsy; corrected, they give the array `[n, 0]` |
| TypeStrings.LineEnd | src/utils/params.js:7 | finds the first line terminator at or after a position |
| TypeStrings.LastIndexIn | src/utils/params.js:7 | finds the last `]` a greedy `(.+)\]` can end at |
| TypeStrings.JoinSplit | src/utils/params.js:7 | joining the `.`-split parts gives the text back |
| TypeStrings.SplitJoin | src/utils/params.js:7 | splitting parts joined with `.` gives the parts back when none contains `.` |
| TypeStrings.SplitParts | src/utils/params.js:7 | no split part contains the separator |
| TypeStrings.WellFormedArrayType | src/utils/params.js:4-7 | `array[p]` and `array[p]!` have bracket contents `p` and element path `p` split on `.` |
| TypeStrings.TwoStepPath | src/utils/params.js:7 | `array[a.b]` writes each item under `<a><b>` |
| TypeStrings.MarkRequired | src/Endpoint.js:30 | a marked type is always required |
| TypeStrings.MarkRequiredProps | src/Endpoint.js:30 | marking is idempotent, changes exactly the optional types by appending `!`, and keeps array types array types |
| ParamsProperties.MissingField | src/utils/params.js:10-27 | a missing field fails as required when its type is required, and is skipped otherwise |
| ParamsProperties.ScalarField | src/utils/params.js:16-31 | a present scalar field is written as its text when it is a number or text, and fails otherwise |
| ParamsProperties.ArrayFieldNotList | src/utils/params.js:13-15 | a present non-array value of an array field fails, naming the field |
| ParamsProperties.ItemsShape | src/utils/params.js:35-39 | array items are written exactly when every item is, one element per item, each under the path's first name |
| ParamsProperties.ChainName | src/utils/params.js:36 | an item is written under the first name of its path |
| ParamsProperties.FieldShape | src/utils/params.js:27-39 | a written field gives no element when missing, and otherwise exactly one element named after the field |
| ParamsProperties.NumberFieldEcho | src/utils/params.js:30 | a number written into a request reads back as the same number |
| ParamsProperties.SpreadOkIff | src/utils/params.js:21-40 | spreading succeeds exactly when every schema field does |
| ParamsProperties.SpreadFirstError | src/utils/params.js:21-40 | a failed spread reports the first failing field in schema order |
| ParamsProperties.SpreadFailsAt | src/utils/params.js:21-40 | conversely, when a field fails and every field before it passes, the spread fails with that field's error |
| ParamsProperties.SpreadNames | src/utils/params.js:21-40 | a successful spread writes one element per present schema field, in schema order |
| ParamsProperties.SpreadIgnoresExtraKeys | src/utils/params.js:22 | options outside the schema do not affect the request |
| ParamsProperties.SpreadRestrict | src/utils/params.js:40 | spreading reads only the schema's keys |
| ParamsProperties.AsWrittenRejectsMissingOptional | src/utils/params.js:25-27 | as written, a missing optional field fails its type check; in the order the repository's tests expect it is skipped |
| ParamsProperties.ValidationOrdersAgree | src/utils/params.js:25-27 | the two orders agree whenever the value is present or the type is required |
| ParamsExamples.LinkPath | src/utils/params.js:7 | `array[link]` and `array[link]!` write items under `<link>` |
| ParamsExamples.OmitsPropsOutsideSchema | test/params.js:37-41 | a field outside the schema is not written, and a missing optional array is skipped |
| ParamsExamples.AsWrittenRejectsOmittedArray | src/utils/params.js:25 | as written, the same call fails because `links` is not an array |
| ParamsExamples.MissingRequiredFails | test/params.js:43-47 | a missing `string!` field fails as required |
| ParamsExamples.WrongTypesFail | test/params.js:49-57 | an array or a boolean in a text field, and text in an array field, are rejected |
| ParamsExamples.NestedUnsupportedFails | test/params.js:59-65 | an item whose field holds an array is unsupported, and the error names the type `object` |
| ParamsExamples.BooleanItemFails | test/params.js:59-65 | a boolean item is unsupported, and the error names the type `boolean` |
| ParamsExamples.OneField | src/utils/params.js:21-40 | a one-field schema spreads as that field does |
| ParamsExamples.ArrayOfStrings | test/params.js:67-71 | text items become `<links><link>…</link>…</links>` |
| ParamsExamples.TwoLineItems | test/params.js:73-80 | any two line items of four text fields become two `<line>` elements inside `<lines>`, each holding its item's fields in key order |
| ParamsExamples.ArrayOfObjects | test/params.js:73-80 | the test's two items (`Test`, `5.00`, `5`, `Item` and `Test Big`, `15.00`, `3`, `Item`) give exactly the element tree the test expects |
| ParamsExamples.NestedObjectFields | src/utils/params.js:35-38 | a field holding a plain object becomes an element named after the field, holding the object's own fields, after the item's earlier fields |
| ParamsExamples.ArrayOfNestedObjects | src/utils/params.js:35-38 | an item `{name, tax: {rate}}` becomes `<lines><line><name/><tax><rate/></tax></line></lines>` |
| Params.ArrayFieldAsWritten | src/utils/params.js:33-39 | as the code stands, a present array field fails only when its type has no path, and otherwise writes no element |
| ParamsExamples.ArrayItemsDroppedAsWritten | src/utils/params.js:35-38 | as written, `links: ['1', '2']` writes nothing; in the behaviour the repository's tests expect it writes `<links>` with two `<link>` elements |
| Endpoints.PrepareOptions | src/Endpoint.js:44-49 | object arguments and defaulted actions give object options; without defaults, an object argument, or an action that does not select without a schema, leaves the argument unchanged |
| Endpoints.Wrapped | src/Endpoint.js:41-43 | fields go under the resource's name for `wrap: true`, under the given name for a non-empty text, and stay unwrapped otherwise |
| EndpointProperties.OverridesGet | src/Endpoint.js:26-32 | the required overrides hold exactly the required names that have a type, each marked required, once |
| EndpointProperties.SchemaPrecedence | src/Endpoint.js:21-33 | an effective-schema key reads from the first of these that has it: required override, action schema, paging fields, select schema, base schema |
| EndpointProperties.RequiredFieldsMarked | src/Endpoint.js:26-32 | a typed required name is marked required; an untyped one adds no field |
| EndpointProperties.RequiredLookupOrder | src/Endpoint.js:28 | a required name's type comes from the action schema before the base schema |
| EndpointProperties.ShorthandSelects | src/Endpoint.js:44-46 | a bare argument to a selecting action without a schema becomes the id field; other fields come from the defaults or are absent |
| EndpointProperties.DefaultsUnderOptions | src/Endpoint.js:47-49 | a caller's option overrides the default of the same name |
| EndpointProperties.BuildIff | src/Endpoint.js:50 | a call is refused exactly when options are missing and the schema has a field, or spreading fails; a built request is named `resource.action` |
| EndpointProperties.RequestFields | src/Endpoint.js:39-50 | a built request has one element per present schema field, in schema order: directly without a wrapper (or with an empty `wrap` text), and inside one element named after the resource for `wrap: true` or after the `wrap` text for a non-empty text |
| EndpointProperties.RefusedBeforePosting | src/Endpoint.js:50-51 | a refused call returns the spread error and never reaches the transport |
| EndpointProperties.FlagIgnoresResponse | src/Endpoint.js:53 | a boolean result is returned whatever the response |
| EndpointProperties.FieldResult | src/Endpoint.js:54 | a text result is that field of the cleaned response |
| EndpointProperties.PickGet | src/Endpoint.js:55 | an array result reads each named field as in the response and has no other field |
| EndpointProperties.PickKeys | src/Endpoint.js:55 | an array result's keys are all named |
| EndpointProperties.SelectShape | src/Endpoint.js:21-33 | a select-only action's schema is the select schema followed by its own |
| EndpointProperties.ListShape | src/Endpoint.js:24-25 | a paginated action's schema is `page`, `per_page`, then its filters |
| EndpointProperties.SchemaSelectShape | src/Endpoint.js:21-33 | an action with both schemas spreads with the base schema and the select schema assigned onto it |
| EndpointProperties.UpdateShape | src/Endpoint.js:21-23 | when the id is not a base field, the schema is the base fields followed by the id |
| EndpointProperties.UpdateShapeInPlace | src/Endpoint.js:21-23 | when the id is a base field, its type is replaced in place by the select type |
| EndpointProperties.NoOverrides | src/Endpoint.js:29 | required names that no schema types add nothing |
| EndpointProperties.CreateShape | src/Endpoint.js:21-32 | a creating action's schema is the base schema with the required field marked in place |
| EndpointProperties.SelectRequiredShape | src/Endpoint.js:21-32 | an action with the base fields and the id that requires one base field gets the base fields, that field marked required in place, followed by the id |
| EndpointProperties.CreateShapeAbsent | src/Endpoint.js:29 | a required name the base schema lacks leaves the base schema unchanged |
| EndpointProperties.BareIdRequest | src/Endpoint.js:44-46 | a bare text id to a select-only action becomes the single `<key>` element of the request |
| ListAll.PageOptions | src/Endpoint.js:61 | each page request carries object options |
| ListAll.ListAllPages | src/Endpoint.js:59-73 | the loop returns what `AllPages` specifies: fail with `NoFirstPage` when page 1 is null or undefined, stop at the first failing page, or collect pages 2 to `pages` after page 1 |
| ListAll.FailureSticks | src/Endpoint.js:67-70 | once a page fails, every longer run fails the same way |
| ListAllProperties.PageOptionsGet | src/Endpoint.js:61 | `page` and `per_page: 100` override the caller's options, and every other option is kept |
| ListAllProperties.EmptyWhenNoPages | src/Endpoint.js:63-65 | a first page with falsy `pages`, or with no array under the collection, gives an empty result; a null or undefined first page fails with `NoFirstPage`, as destructuring `pages` from it throws |
| ListAllProperties.IntegerPagesBound | src/Endpoint.js:67 | with an integer `pages`, the last page requested is `pages` |
| ListAllProperties.TextPagesBound | src/Endpoint.js:67 | with `pages` the text of n, `pages + 1` concatenates, and the loop runs to page 10·n |
| ListAllProperties.TextPagesOvershoot | src/Endpoint.js:67 | a paged response cleaned as written sends the loop to page 10·n; cleaned correctly, to page n |
| ListAllProperties.CollectedSnoc | src/Endpoint.js:69 | the items of pages from..n are those of from..n−1 followed by page n's |
| ListAllProperties.PagesUpToIff | src/Endpoint.js:66-71 | the run to page n succeeds exactly when pages 2..n all hold an iterable collection; it is then page 1's items followed by pages 2..n in order |
| ListAllProperties.ThreePagesOfTwo | src/Endpoint.js:59-73 | three pages of two clients give the six clients in page order |
| Registry.Define | src/Endpoint.js:38 | defining a name adds exactly that name |
| Registry.Freeze | src/Endpoint.js:76-78 | freezing keeps the names and definitions |
| Registry.FrozenIgnores | src/Endpoint.js:18 | after freezing, `setMethod` changes nothing |
| Registry.SetAllNames | src/Endpoint.js:35-36 | registration records the action names in table order |
| Registry.SetAllDefines | src/Endpoint.js:38-60 | every entry is defined, plus `<name>All` for each entry with a text `paginate` |
| Registry.SetAllOnly | src/Endpoint.js:38-60 | nothing else is defined |
| Registry.Registers | src/Endpoint.js:10-15 | a whole table on a fresh endpoint records the entry names in table order and defines the companion of each entry with a text `paginate` |
| Registry.SetMethodsFreezes | src/Endpoint.js:10-15 | `setMethods` leaves the endpoint frozen, so later definitions do nothing |
| Projections.KeyByAbsent | src/api/terms.js:13 | a key is absent from `_.keyBy` exactly when no item has it |
| Projections.KeyByLast | src/api/terms.js:13 | a key reads as the last item filed under it |
| Projections.KeyByKeys | src/api/terms.js:13 | the keys are the items' keys, each once, in order of first appearance |
| Projections.DedupMembers | src/api/terms.js:13 | deduplication keeps exactly the elements present |
| Projections.DedupDistinct | src/api/terms.js:13 | deduplication leaves no repeats |
| Projections.MapValuesGet | src/api/terms.js:13 | `_.mapValues` keeps the keys and maps each read |
| Projections.IndexByGet | src/api/languages.js:7-11 | the pipeline files each collection member under its key, in order of first appearance, with the value field of the last member of that key (the default when it has none); a key no member has is absent |
| ApiEstimate.CreateSchema | src/api/estimate.js:37 | `create` takes the estimate fields with `client_id` required in place, wraps them in `<estimate>` and returns `estimate_id` |
| ApiEstimate.SelectingSchemas | src/api/estimate.js:39-48 | `get`, `delete`, `getPDF`, `accept` and `markAsSent` take only the required `estimate_id` |
| ApiEstimate.UpdateSchema | src/api/estimate.js:38 | `update` takes the estimate fields followed by the required `estimate_id` |
| ApiEstimate.ListSchema | src/api/estimate.js:41 | `list` takes optional paging fields and filters, and pages through `estimates` |
| ApiEstimate.SendByEmailSchema | src/api/estimate.js:42-45 | `sendByEmail` requires `estimate_id` and takes an optional subject and message |
| ApiEstimate.BareId | src/api/estimate.js:39 | `get` with a bare id posts `estimate.get` with `<estimate_id>` |
| ApiEstimate.ContactsPath | src/api/estimate.js:9 | `contacts` items are written under `<contact><contact_id>` |
| ApiEstimate.Registered | src/api/estimate.js:36-49 | the nine actions are registered in table order, and `listAll` is defined |
| ApiClient.CreateSchema | src/api/client.js:45 | `create` takes the client fields with `email` required in place |
| ApiClient.UpdateSchema | src/api/client.js:46 | `update` takes the client fields followed by the required `client_id` |
| ApiClient.SelectingSchemas | src/api/client.js:47-48 | `get` and `delete` take only the required `client_id` |
| ApiClient.ListSchema | src/api/client.js:49 | `list` takes paging fields and filters, and pages through `clients` |
| ApiClient.EmptyIdPasses | src/utils/params.js:10 | an empty id is present, so `delete("")` posts an empty `<client_id>` |
| ApiClient.Registered | src/api/client.js:44-50 | the five actions are registered in order, and `listAll` is defined |
| ApiInvoice.CreateSchema | src/api/invoice.js:44 | `create` requires `email`, which is not an invoice field, so every field stays optional |
| ApiInvoice.UpdateSchema | src/api/invoice.js:45 | `update` takes the invoice fields with `invoice_id` made required in place, first |
| ApiInvoice.SelectingSchemas | src/api/invoice.js:46-47 | `get` and `delete` take only the required `invoice_id` |
| ApiInvoice.ListSchema | src/api/invoice.js:48 | `list` takes paging fields and filters, and pages through `invoices` |
| ApiInvoice.Registered | src/api/invoice.js:43-49 | the five actions are registered in order, and `listAll` is defined |
| ApiItem.CreateSchema | src/api/item.js:19 | `create` takes the item fields with `name` required |
| ApiItem.UpdateSchema | src/api/item.js:20 | `update` takes the item fields followed by the required `item_id` |
| ApiItem.ListSchema | src/api/item.js:23 | `list` takes paging fields and the folder filter |
| ApiItem.CreateNeedsName | src/api/item.js:19 | a `create` without `name` is refused as required |
| ApiItem.Registered | src/api/item.js:18-24 | the five actions are registered in order, and `listAll` is defined |
| ApiCallback.CreateSchema | src/api/callback.js:17 | `create` requires `email`, which is not a callback field, so all three fields stay optional |
| ApiCallback.VerifySchema | src/api/callback.js:20 | `verify` takes the fields with `verifier` required in place, then the required `callback_id` |
| ApiCallback.VerifyNeedsVerifier | src/api/callback.js:20 | a `verify` given only the id is refused for the missing verifier |
| ApiCallback.SelectingSchemas | src/api/callback.js:18-21 | `delete` and `resendToken` take only the required `callback_id` |
| ApiCallback.ListSchema | src/api/callback.js:19 | `list` takes paging fields and the event and uri filters |
| ApiCallback.Registered | src/api/callback.js:16-22 | the five actions are registered in order, and `listAll` is defined |
| ApiTerms.UpdateSchema | src/api/terms.js:18 | `update` takes the term fields with `type` required in place |
| ApiTerms.ListWithoutOptions | src/api/terms.js:16 | `list()` posts an empty `default_terms.list` and returns the messages keyed by type |
| ApiTerms.GetByType | src/api/terms.js:12-17 | `get(type)` posts `<type>` and returns the message, or `""` when there is none |
| ApiTerms.GetWithoutType | test/terms.js:32-33 | `get()` is refused because `type` is required |
| ApiTerms.ListedMessages | src/api/terms.js:13 | `list` files each term under its type, the last term of a type winning; a type no term has is absent |
| ApiTerms.Registered | src/api/terms.js:15-19 | the three actions are registered, and no companion is defined |
| ApiLanguages.ListSchema | src/api/languages.js:4-14 | `list` takes only an optional `per_page` |
| ApiLanguages.DefaultPageSize | src/api/languages.js:5 | `list()` asks for 100 languages |
| ApiLanguages.CallerPageSize | src/Endpoint.js:48 | a caller's `per_page` overrides the default |
| ApiLanguages.NamesByCode | src/api/languages.js:7-11 | the result maps each language code to the name of the last language with that code; unknown codes are absent |
| ApiLanguages.Registered | src/api/languages.js:13-15 | the one action is registered, and no companion is defined |

## Left out

- Parsing XML text into the tree and serialising requests to XML text (`xml2js`, `xmlbuilder`) are outside the model. The response is given as the parsed tree (`Raw`) and the request as an element tree (`Xml`).
- The HTTP transport (`src/utils/fetch.js`), its status and API error handling, and `raw: true` (the PDF passthrough of `getPDF`) are outside the model. `post` is a pure function parameter, so the same request always yields the same response.
- Promises and `async` are not modelled: a call is a function from its argument to its result.
- The legacy `lib/` classes and the capitalised `src/api/*.js` files are outside the model; they are not wired to `Endpoint`.
- Coercion.ParseValue: covers blank text (NaN) and the plain decimal grammar (`[+-]?digits(.digits*)?`). It does not cover the rest of what JavaScript's `isFinite` accepts: white space around a number, exponents, hexadecimal, `.5`. (`isFinite("Infinity")` is false, so `Infinity` stays text, as it does here.)
- ListAll.LastPage: reads the concatenated text `pages + "1"` with the same plain decimal grammar. JavaScript's comparison `page < …` converts it with `Number`, which also accepts white space, hexadecimal and exponents: a text `pages` of `"0x1"` makes the loop run to page 16 there, and to page 1 here.
- Text is walked by Unicode character (a Dafny `char`), not by UTF-16 code unit as `lodash.transform` walks a JavaScript string: a character outside the Basic Multilingual Plane in a text walked by `CleanupIn` gives one key here and two keys, each holding half a surrogate pair, in the source.
- Numbers are exact decimals, not IEEE doubles: rounding and `parseFloat` precision are not modelled.
- DecimalText.Render writes every number in plain decimal notation. JavaScript's `String(n)`, which `_.toString` (src/utils/params.js:30) uses, switches to exponent notation below 1e-6 and from 1e21 upwards; that form is not modelled.
- `undefined` and `null` are one value (`Nil`).
- `_.get` with dotted paths is not modelled: result fields are single names.
- The index properties of text options (`"abc"[0]`) are not modelled: non-object options read as having no fields.
- Integer-like object keys, which JavaScript enumerates first, keep their insertion order here. XML names are never integer-like, but other keys can be: `_.keyBy` keys taken from the data (Projections.KeyBy, for src/api/terms.js:13 and src/api/languages.js:9, where a code such as `"12"` would be enumerated first in JavaScript), and the index keys that Endpoints.Entries gives to text and array options.
- Error messages are modelled as error kinds (`SpreadError`, `ListError`), not as texts.
- Params.Spread: array fields follow the repository's tests (test/params.js:59-80), not the code, which writes nothing for them (see Findings). Text items become the path element's text; an object item's fields become child elements in key order, and a field holding a plain object becomes an element holding that object's fields in the same way; an array, boolean, NaN or missing item, or such a field inside an object item, is an `Unsupported` error.
- The `__methods` list is shared by all instances of a resource class. Here it belongs to one registration, and repeated construction is not modelled.
- ListAll.ListAllPages: a later page whose collection is neither an array nor a text stops with `NotIterable`, which stands for the `TypeError` that spreading it throws.

## Findings

| source | as written | input that shows it | evidently intended | confidence | as-written member | corrected member |
|---|---|---|---|---|---|---|
| src/utils/xml.js:31-53 | lifted `page`, `per_page`, `pages` and `total` are copied as raw text | a `clients` collection with `pages="3"`: `pages` is `"3"`, so the loop's `pages + 1` is `"31"` and the loop's bound becomes page 30 | the four fields are coerced like every other leaf, and the loop stops at page 3 | not executed | CleanupFindings.LiftedPagesStayText, ListAllProperties.TextPagesOvershoot | XmlCleanup.Cleanup |
| src/utils/xml.js:34-55 | a collection's contents go through `cleanup` and `castArray`: a lone text item is treated as a map of its characters; `a[1]` decides whether an object is unwrapped. Every repeated text element, in a collection or not, goes through `cleanup` at line 46 and is walked the same way | `<ids><id>12</id></ids>` gives `[1, 2]`; items `"7"` and `"0"` give `[{0: 7, 1: 0}]`; two sibling `<note>` texts `x` and `y` give `[{0: "x"}, {0: "y"}]` | a lone item is a one-element array, several items are their array, and a repeated text element is the list of its coerced texts | not executed | CleanupFindings.LoneTextItemSplits, CleanupFindings.FalsySecondItemWrapsWhole, CleanupFindings.RepeatedTextSplits | XmlCleanup.Cleanup |
| src/utils/params.js:25-27 | `validate` runs before a missing field is skipped, so a missing optional field fails its type check | `spread({links: 'array[link]'}, {text: 'abc'})` throws "must be an Array"; test/params.js:37-41 expects an empty request | a missing optional field is skipped | not executed | Params.SpreadAsWritten, ParamsExamples.AsWrittenRejectsOmittedArray | Params.Spread, ParamsExamples.OmitsPropsOutsideSchema |
| src/utils/params.js:35-38 | `_.forEach(value, item => …)` passes the items first, but `lodash/fp`'s `forEach` takes the callback first, so it walks the callback's (absent) own properties; inside, `spread(schema, item, $item)` returns a builder that is never applied | `spread({links: 'array[link]!'}, {links: ['1', '2']})` writes no element; test/params.js:67-71 expects `<links><link>1</link><link>2</link></links>` | each item is written under its path inside an element named after the field, with the item's text or fields | not executed; relies on the argument order of `lodash/fp` | Params.ArrayFieldAsWritten, ParamsExamples.ArrayItemsDroppedAsWritten | Params.Spread, ParamsExamples.ArrayOfStrings, ParamsExamples.ArrayOfObjects |
