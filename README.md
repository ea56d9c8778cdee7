# oapi-express-gen parameter coercion, in Dafny

This project models the runtime core of oapi-express-gen, a tool that
generates typed Express request handlers from an OpenAPI 3 document and
ships a middleware that coerces path and query parameters to the types the
document declares. It models:

- **The schema type coercer** (`parseValue`, `parseInteger`,
  `parseNumber`, `parseBoolean`, `parseString`). This is a closed dispatch
  on the schema's `type`. A thrown `Error` becomes an `Err` of a
  `CoercionError` (`InvalidInteger`, `InvalidNumber`, `InvalidBoolean`,
  `InvalidDate`, `InvalidDateTime`, `InvalidUUID`).
- **The path matcher.** This covers `convertExpressPathToOpenAPI`,
  `pathsMatch`, `findPathItem`, `findPathParameter`, and the route regular
  expression of `extractPathParams`.
- **The parameter parser** (`parsePathParams`, `parseQueryParams`). The
  `OpenAPIParser` class holds its document and options as constants. Each
  method's loop is proved equal to a specification function, and lemmas
  state what those functions promise.
- **The two middleware handlers**, `openAPIParser` and the legacy
  `createOpenAPIParser`. Each is a method that changes a `Request` object.
- **The generator's structural part.** This covers `mapOpenAPITypeToTS`,
  `convertPathToExpress`, `buildTemplateData`, `getSpecInfo` and
  `getOperationCount`.

JavaScript values are the `JsVal` datatype
(`Undef | Null | Bool | Num | Str | Arr | Obj`). A JSON object whose key
order matters, or a JavaScript `Map`, is a `Dict`: its keys in insertion
order plus a map. Numbers are exact decimals, NaN or an infinity. `Number()`
follows ECMAScript StringToNumber for decimal, exponent, `Infinity` and
`0x`/`0o`/`0b` literals, and `String()` writes plain decimals. Whether
`new Date(s)` is a valid date is a parameter (`validDate`) that the parser
object holds.

Files: `jsvalues.dfy` (JavaScript values and built-ins), `openapi.dfy` (the
document), `coercion.dfy`, `pathmatching.dfy`, `parameterparser.dfy`,
`middleware.dfy`, `generator.dfy` (type mapping and path conversion) and
`templatedata.dfy` (`buildTemplateData` and the generator object).

## Model

| member | source | states |
|---|---|---|
| Coercion.ResolveOptions | src/parser.ts:24-32 | An absent option takes its default: `coerceTypes` on, `strictNumbers` and `strictBooleans` off. A given option counts by its truthiness. |
| Coercion.ParseInteger | src/parser.ts:127-136 | `null`, `undefined` and `''` give `null` in either mode. It fails with `InvalidInteger(v)` exactly when `strictNumbers` is on and `Number(v)` is not an integer. Otherwise the result is that integer, or `null` when `Number(v)` is not one. |
| Coercion.ParseNumber | src/parser.ts:138-147 | The same as `ParseInteger`, with finiteness in place of integrality and `InvalidNumber` as the error. |
| Coercion.ParseIntegerOfDecimal | src/parser.ts:127-147 | The decimal spelling of any integer `n` parses to `n` as an integer and as a number, in both modes. |
| Coercion.WordIsNotANumber | test/parser.test.ts:300-329 | `"abc"` is NaN. Lenient mode gives `null`, and strict mode throws "Invalid integer" or "Invalid number". |
| Coercion.DecimalFraction | test/parser.test.ts:300-318 | `"123.45"` is the number 123.45. As an integer it gives `null` in lenient mode and throws in strict mode. As a number it gives 123.45. |
| Coercion.ParseBoolean | src/parser.ts:149-170 | Blank input gives `null`. In strict mode `'true'` gives `true`, `'false'` gives `false`, and it fails with `InvalidBoolean(v)` exactly when `v` is neither of these strings. Permissive mode never fails. Every non-blank success is a boolean. |
| Coercion.PermissiveBooleans | src/parser.ts:158-169 | Permissive mode maps `true`/`1`/`yes` in any letter case to true and `false`/`0`/`no` to false. A native boolean is returned unchanged, and a number is true when it is non-zero. Any other non-empty string, and any array or object, is true. |
| Coercion.BooleanLetterCase | src/parser.ts:158-169 | `"TRUE"` and `"Yes"` are true and `"No"` is false in permissive mode. Strict mode rejects all three. |
| Coercion.StrictBooleansRejectNatives | src/parser.ts:152-156 | Strict mode rejects the native `true`, the native `false` and `'1'`. |
| Coercion.ParseString | src/parser.ts:172-196 | `null` and `undefined` give `null`. Otherwise the result is `String(v)` unchanged. It fails exactly when the format is `date-time` or `date` and the string is not a valid date, or when the format is `uuid` and the string does not match the UUID pattern. The error kind follows the format. |
| Coercion.UuidIgnoresCase | src/parser.ts:189 | The UUID pattern accepts a string exactly when it accepts the lower-cased string. |
| Coercion.UuidExamples | test/parser.test.ts:261-273 | `123e4567-e89b-12d3-a456-426614174000` matches the UUID pattern and `invalid-uuid` does not. |
| Coercion.ParseValue | src/parser.ts:91-125 | A schema without `type` returns the value. So do unknown types, and an array schema without typed `items` given a non-string. An array given an array, or a string, yields an array of the same length, or of one element per comma-separated piece. |
| Coercion.ParseAll | src/parser.ts:97 | A successful element-wise coercion has one element per input. |
| Coercion.ParseAllElements | src/parser.ts:95-100 | An array is coerced exactly when each element is, and then element by element. Otherwise the error is that of the first element that fails. |
| Coercion.ArrayFromString | src/parser.ts:103-110 | A string splits into (number of commas + 1) pieces. Without typed `items` the pieces are kept untrimmed. With typed `items` each piece is trimmed and coerced. An error is that of the first piece whose coercion fails; every earlier piece coerces. |
| Coercion.StringListRoundTrip | test/parser.test.ts:275-282 | Comma-joined strings free of commas and outer blanks come back as the same strings against an array of strings. |
| Coercion.IntegerListRoundTrip | src/parser.ts:103-115 | The comma-joined decimal spellings of integers come back as those integers against an array of integers. |
| Coercion.ParseValueIdempotent | src/parser.ts:91-196 | With permissive booleans, coercing a coerced value again returns it unchanged. |
| Coercion.StrictBooleansNotIdempotent | src/parser.ts:152-156 | With strict booleans, `'true'` coerces to `true`, but a native `true` is then rejected. |
| JsValues.SplitPieces | src/parser.ts:105 | `split(',')` yields one piece more than there are commas, and no piece holds a comma. |
| JsValues.SplitJoin | src/parser.ts:105 | Joining the pieces of a split with the separator gives the string back. |
| JsValues.JoinSplit | src/parser.ts:105 | Splitting a join of separator-free pieces gives the pieces back. |
| JsValues.IntegerStringReadsBack | src/parser.ts:130 | `Number(String(n))` is `n` for every integer `n`. |
| PathMatching.ToOpenAPINoSlots | src/parser.ts:217-220 | After the rewrite, no `/:name` is left to rewrite. |
| PathMatching.ToOpenAPIIdempotent | src/parser.ts:217-220 | `convertExpressPathToOpenAPI` is idempotent. |
| PathMatching.PathsMatchOnlyItself | src/parser.ts:222-226 | A converted path matches exactly one template key: itself. So the fallback scan of `findPathItem` finds nothing beyond the exact lookup. |
| PathMatching.PathItemFor | src/parser.ts:198-215 | The path item found is the one stored under the converted path, and it is found whenever that key exists. |
| PathMatching.ConcretePathVerbatim | src/parser.ts:198-215 | A path without `/:` segments is looked up verbatim, so `/users/123` never resolves to `/users/{userId}`. |
| PathMatching.FirstPathParam | src/parser.ts:252-257 | `find` returns a parameter of the list that is `in: 'path'` with that name. It returns nothing exactly when no parameter qualifies. |
| PathMatching.FirstPathParamIsFirst | src/parser.ts:252-257 | The parameter found is the first that qualifies. |
| PathMatching.FindPathParameter | src/parser.ts:249-258 | Only the path item's own `parameters` are searched, never an operation's. The result is an `in: 'path'` parameter object of that name, and nothing is found exactly when there is none. |
| PathMatching.MatchSound | src/parser.ts:231-236 | Every capture of a whole-URL match is non-empty and free of `/`. Filling the route's slots with the captures gives the URL back. |
| PathMatching.MatchComplete | src/parser.ts:231-236 | Filling a route's slots with non-empty, `/`-free segments gives a URL that the route matches, and the match captures those segments. |
| PathMatching.MatchExactly | src/parser.ts:228-247 | A URL matches with given captures exactly when those segments fill the route to give that URL. |
| PathMatching.BindLastWins | src/parser.ts:241-243 | A name that occurs several times holds the capture of its last occurrence. |
| PathMatching.SubstituteExtract | src/parser.ts:228-247 | Substituting a segment for each `:name` and extracting gives, for each name, exactly that segment, and no other keys. |
| ParameterParser.PathEntriesMeaning | src/parser.ts:43-50 | After `n` entries of the loop, each entry is coerced when its path-level parameter has a schema and kept raw otherwise. If the loop throws, the error is that of the first entry that throws; every earlier entry succeeds. |
| ParameterParser.PathEntriesErrorSticks | src/parser.ts:43-50 | Once an entry throws, later entries do not change the outcome. |
| ParameterParser.PathParamsContract | src/parser.ts:37-53 | With no path item the input is returned unchanged. Otherwise every key is kept in order: undeclared keys keep their raw value and declared keys get their coercion. If a coercion throws, the error is that of the first key, in key order, whose coercion throws. |
| ParameterParser.OperationFor | src/parser.ts:62-63 | The operation is the one under the lower-cased method, and it is found only when it carries an `operationId` key. |
| ParameterParser.DeclaredQueryMeaning | src/parser.ts:67-76 | The first loop coerces exactly the keys of `in: 'query'` parameters that have a schema and a present, non-`undefined` value. Each key gets the coercion of its last such declaration. If it throws, the error is that of the first coerced declaration that throws; every earlier declaration is skipped or coerces. |
| ParameterParser.MergeRawMeaning | src/parser.ts:78-83 | The corrected merge: the second loop keeps every coerced key and adds each remaining query key with its raw value, testing only the coerced keys and not names inherited from `Object.prototype`. |
| ParameterParser.QueryForOperationContract | src/parser.ts:65-85 | The result has the same key set as the query. Undeclared keys keep their raw value. Each declared key has the coercion of its last declaration. A throw is that of the first coerced declaration that throws. This uses the corrected merge. |
| ParameterParser.QueryParamsContract | src/parser.ts:58-86 | With no path item, or no operation with an `operationId` for the lower-cased method, the query is returned unchanged. Otherwise the result is what the two loops give, with the query's key set. |
| ParameterParser.QueryIgnoresPathLevelParameters | src/parser.ts:62-76 | Path-level parameters, even `in: 'query'` ones, never affect query coercion. |
| ParameterParser.MergeRawAsWritten | src/parser.ts:79-83 | The merge loop as written: every key of its result comes from the coerced keys or from the query. |
| ParameterParser.InheritedQueryKeyDropped | src/parser.ts:79-83 | As written, `?constructor=x` loses its key. The corrected merge keeps it. |
| ParameterParser.OpenAPIParser.constructor | src/parser.ts:24-32 | The parser holds the document and the options with their defaults applied. |
| ParameterParser.OpenAPIParser.FindPathItem | src/parser.ts:198-215 | The exact lookup, then the scan over the document's keys, returns the path item stored under the converted path. |
| ParameterParser.OpenAPIParser.ParsePathParams | src/parser.ts:37-53 | The loop returns what `PathParams` specifies. |
| ParameterParser.OpenAPIParser.ParseQueryParams | src/parser.ts:58-86 | The two loops return what `QueryParams` specifies, with the corrected merge (`name !in parsed` tests own keys only). |
| ParameterParser.OpenAPIParser.ExtractPathParams | src/parser.ts:228-247 | A mismatch gives the empty map. A match binds each `:name`, in declaration order, to its capture. |
| Middleware.FormatOf | src/parser.ts:284-288 | YAML is chosen exactly for names ending in `.yaml` or `.yml`; its last four characters are then `.yml` or `yaml`. |
| Middleware.FormatExamples | src/parser.ts:284 | `.yaml` and `.yml` are YAML. `.json` is JSON, and so is `.YAML`, because the test is case-sensitive. |
| Middleware.RouteOf | src/parser.ts:306 | The route is `req.route?.path` when it is a non-empty string, and `req.path` otherwise. |
| Middleware.HandleContract | src/parser.ts:304-322 | Empty `params` and `query` are left alone. A completed run keeps every key. On a forwarded error `query` stays raw. A query error leaves `params` already replaced. |
| Middleware.OpenAPIParserHandler | src/parser.ts:304-322 | The handler replaces non-empty `params`, then non-empty `query`, with their coercions. A throw goes to `next(error)`. `parsedParams` and `parsedQuery` are untouched. |
| Middleware.LegacyAgrees | src/parser.ts:329-345 | The legacy handler ends the same way as the current one. It stores in `parsedParams` and `parsedQuery` exactly what the current one writes, and only in the cases where that one writes. |
| Middleware.CreateOpenAPIParserHandler | src/parser.ts:329-345 | The legacy handler writes `parsedParams` and `parsedQuery` and never `params` or `query`. |
| Generator.MapType | src/index.ts:104-150 | Every schema maps to a non-empty type, and a schema without `type` maps to `any`. |
| Generator.MapTypeShape | src/index.ts:104-150 | Exactly array schemas map to a type ending in `[]`. No type ends in a bare `Item` name. |
| Generator.NamedItemType | src/index.ts:122-129 | A type ends in `Item[]` exactly when the items are an object schema with `properties` and both an operation id and a property name are given. The name is then `${operationId}${Capitalised property}Item`. |
| Generator.ScalarTypes | src/index.ts:107-120 | `number` comes exactly from `integer` and `number`, and `boolean` exactly from `boolean`. `Date` comes exactly from a string without enum formatted `date` or `date-time`, and `string` from any other string without enum. |
| Generator.EnumType | src/index.ts:108 | A string enum maps to its values, each quoted, separated by ` \| `. |
| Generator.ArrayAndObjectTypes | src/index.ts:122-141 | An array without typed `items` is `any[]`. Otherwise it is the items' own type plus `[]`, unless it names an item interface. An object is `any` with properties and `Record<string, any>` without. |
| Generator.ToExpressPlaceholder | src/index.ts:152-155 | `{name}` becomes `:name` for a non-empty name free of `}`. |
| Generator.ToExpressTemplate | src/index.ts:152-155 | On a template of whole-segment placeholders, `convertPathToExpress` gives the Express route. |
| Generator.ToOpenAPITemplate | src/parser.ts:217-220 | On such a route, `convertExpressPathToOpenAPI` gives the template. |
| Generator.ConvertRoundTrip | src/index.ts:152-155 | The two conversions are inverse on templates whose placeholders are whole segments with names free of `/` and `}`. |
| TemplateBuilder.ParametersIn | src/index.ts:183 | The filter keeps exactly the parameter objects at the location. |
| TemplateBuilder.ParameterFieldsMeaning | src/index.ts:188-201 | Members are exactly the parameters with a typed schema, and the last of several with one name wins. `required` lists those that are required. A path parameter is required unless `required: false`; a query parameter only with `required: true`. |
| TemplateBuilder.CollectParameterFields | src/index.ts:190-201 | The `forEach` fills `properties` and `required` as `ParameterFields` specifies. |
| TemplateBuilder.SchemaFieldsOrder | src/index.ts:254-262 | The members are the typed properties, in the schema's order. |
| TemplateBuilder.SchemaFieldsMembers | src/index.ts:254-262 | Each member comes from a typed property. It carries that property's mapped type and description, and it is required exactly when the schema's `required` lists it. |
| TemplateBuilder.TypedPropertiesKept | src/index.ts:254-262 | Every typed property becomes a member. |
| TemplateBuilder.CollectSchemaFields | src/index.ts:286-294 | The `forEach` over `Object.entries(properties)` fills `properties` as `SchemaFields` specifies. |
| TemplateBuilder.Assemble | src/index.ts:381-396 | Each `has*` flag is true exactly when its list is non-empty. |
| TemplateBuilder.OperationsListed | src/index.ts:166-179 | There is one entry per operation with a truthy `operationId`, path by path, in the order get, post, put, delete, patch, head, options. Each entry has its verb and the Express form of its path. |
| TemplateBuilder.ParameterShapeClosed | src/index.ts:203-208 | Parameter interfaces are closed and require only their own members. |
| TemplateBuilder.ResponseItemsMeaning | src/index.ts:340-371 | Every array property of the response registers `${operationId}${Capitalised property}Item` as a closed interface with an empty `required`. |
| TemplateBuilder.AddOperationConsistent | src/index.ts:171-378 | Processing one operation keeps the maps and the operations list consistent. |
| TemplateBuilder.TemplateInvariants | src/index.ts:157-397 | Every interface an entry names is declared, and no interface is declared twice. Parameter and array-item interfaces are closed. Every `…Item[]` member type of a response names a declared array-item interface. |
| TemplateBuilder.SuccessResponseShadowing | src/index.ts:276 | A present `200` response decides alone: without properties it yields no response interface, even when `201` has one. |
| TemplateBuilder.ObjectShapesOpenness | src/index.ts:243-303 | Body and response interfaces are open unless the schema says `additionalProperties: false`, and their `required` is the schema's own. |
| TemplateBuilder.UndeclaredBodyType | src/index.ts:244-246 | As written, `bodySchema` names `${operationId}Body` for any body with `content`, even when that interface is never declared. |
| TemplateBuilder.UndeclaredBodyTypeExample | src/index.ts:244-270 | An array body of strings names `tagBody` while no body interface is declared. |
| TemplateBuilder.CollectParameters | src/index.ts:181-241 | The path- or query-parameter block adds the interface and reference that `WithParameters` and `ParametersRef` specify. |
| TemplateBuilder.CollectObjectShape | src/index.ts:248-270 | The interface built from an object schema is `ObjectShape`. |
| TemplateBuilder.CollectBody | src/index.ts:243-272 | The request-body block adds `${operationId}Body` when the JSON schema has properties, as `WithBody` specifies. It sets `bodySchema` only then, which is the corrected behaviour; `BodySchemaRefAsWritten` models the source's reference for any body with `content`. |
| TemplateBuilder.CollectResponse | src/index.ts:274-304 | The response block adds `${operationId}Response` when the success schema has properties, and references it only then. |
| TemplateBuilder.CollectResponseItems | src/index.ts:346-372 | The `forEach` over response properties registers what `ResponseItems` specifies. |
| TemplateBuilder.CollectArrayItems | src/index.ts:306-375 | The two array-item blocks register the body's `ArrayItem` interface, then the response's item interfaces. |
| TemplateBuilder.CollectOperation | src/index.ts:171-378 | One operation is processed as `AddOperation` specifies, with the corrected `bodySchema`. It is skipped without a truthy `operationId`. |
| TemplateBuilder.BuildTemplateData | src/index.ts:157-397 | The nested loops over paths and methods give `TemplateDataOf(spec)`, built with the corrected `bodySchema`. |
| TemplateBuilder.OpenAPIGenerator.constructor | src/index.ts:81-86 | The generator holds the template data of its document. |
| TemplateBuilder.OpenAPIGenerator.GetSpecInfo | src/index.ts:424-426 | The result is the template title, ` v`, then the template version. A document without `info` gives `Unknown API v1.0.0`. |
| TemplateBuilder.OpenAPIGenerator.GetOperationCount | src/index.ts:428-430 | The result is the number of operations with a truthy `operationId`. |

## Left out

- Reading and decoding the document is not modelled. This covers `fs.readFileSync`, `yaml.load` and `JSON.parse` in `createParser`, and the `OpenAPIGenerator` constructor. These are I/O and third-party parsers. Only the choice of format by extension (`FormatOf`) is modelled, and the generator takes an already decoded document.
- `generate` (Handlebars rendering, `mkdir`, file write and console output), the `require.main` block of `src/index.ts` and `src/cli.ts` are not modelled. They are I/O and process plumbing.
- Coercion.ParseNumber: numbers are exact decimals, not IEEE-754 doubles. Rounding and overflow are not modelled; for example, `"1e400"` is finite here but `Infinity` in JavaScript.
- Coercion.ParseInteger: for the same reason, a decimal too precise for a double (`"1.0000000000000000001"`) is not an integer here, though JavaScript rounds it to 1.
- JsValues.ToJsString: `String()` of a number is always written in plain decimal notation. JavaScript's exponent notation for very large or very small numbers is not modelled.
- `new Date(str)` is not modelled. A foreign parser decides its validity, so that is the `validDate` parameter.
- PathMatching.Match: the route's regular expression is modelled segment by segment. A route whose literal text holds regular-expression metacharacters (`.`, `*`, `(`, …) is read literally here, though the source does not escape them.
- The Express `req`, `res` and `next` objects are not modelled beyond `params`, `query`, `parsedParams`, `parsedQuery`, the route path, the path and the method. A missing or non-object `req.params` / `req.query` is not modelled.
- The `coerceTypes` option is stored but never read, so it is an inert field.
- JsValues.ToLower and Generator.Capitalize: case mapping is ASCII only. Strings are sequences of Unicode scalar values rather than UTF-16 code units.
- Property lookups that reach `Object.prototype` are not modelled. Only `MergeRawAsWritten` models the inherited-name test of the merge loop listed under Findings; the parser itself uses the corrected merge. The unmodelled lookups include `query[param.name]` for an absent inherited name and assignments to `__proto__`. Neither is the rule that JavaScript lists integer-like keys first in an object.
- OpenAPIParser.ParseQueryParams, QueryForOperation and QueryParams follow the corrected merge of the first Findings row: a query key is copied unless it is an own key of the coerced result. The as-written test, which also drops names inherited from `Object.prototype`, exists only in `MergeRawAsWritten`.
- CollectBody, OperationEntry, CollectOperation and BuildTemplateData follow the corrected `bodySchema` of the second Findings row: an operation references `${operationId}Body` only when that interface is declared. The as-written reference, set for any body with `content`, exists only in `BodySchemaRefAsWritten`.
- Test servers, type-safety tests, snapshots, `examples/parser-demo.ts` and `src/types/express.d.ts` are not modelled. They hold no runtime logic.

## Findings

| source | as written | input that shows it | evidently intended | confidence | as-written member | corrected member |
|---|---|---|---|---|---|---|
| src/parser.ts:79-83 | `name in parsed` is also true for names inherited from `Object.prototype`, so such raw query keys are dropped | `?constructor=x` against an operation with an `operationId` and no parameters | every query key that was not coerced keeps its raw value | high; not executed | ParameterParser.InheritedQueryKeyDropped | ParameterParser.QueryForOperationContract |
| src/index.ts:244-246 | `bodySchema` is set for every request body with `content`, but `${operationId}Body` is declared only when the JSON schema is an object schema with `properties` | a `post` with `operationId: tag` whose JSON body is `{type: array, items: {type: string}}` | an operation references only body interfaces that are declared | medium; not executed | TemplateBuilder.UndeclaredBodyTypeExample | TemplateBuilder.TemplateInvariants |
