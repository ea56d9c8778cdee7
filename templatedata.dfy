/**
 * `buildTemplateData`: the operations of a document and the interfaces
 * (path and query parameters, request bodies, responses, array items) the
 * handler template declares for them.
 */
module TemplateBuilder {
  import opened JsValues
  import opened OpenApi
  import opened PathMatching
  import opened Generator

  /** One member of a generated interface. */
  datatype PropertyInfo = PropertyInfo(ty: string, required: bool, description: Option<string>)

  /** A generated interface: the parameters, body, response or array items of an operation. */
  datatype Shape = Shape(name: string, properties: Dict<PropertyInfo>, required: seq<string>, additionalProperties: bool)

  /** One entry of `operations`; the optional fields name generated interfaces. */
  datatype OperationData = OperationData(
    operationId: string,
    httpMethod: string,
    path: string,
    pathParams: Option<string>,
    queryParams: Option<string>,
    bodySchema: Option<string>,
    responseSchema: Option<string>)

  /** What the handler template is rendered with. */
  datatype TemplateData = TemplateData(
    specTitle: string,
    specVersion: string,
    operations: seq<OperationData>,
    pathParams: seq<Shape>,
    queryParams: seq<Shape>,
    bodySchemas: seq<Shape>,
    responseSchemas: seq<Shape>,
    arrayItemSchemas: seq<Shape>,
    hasPathParams: bool,
    hasQueryParams: bool,
    hasBodySchemas: bool,
    hasResponseSchemas: bool,
    hasArrayItemSchemas: bool)

  /** The operations list and the five `Map`s `buildTemplateData` fills, keyed by interface name. */
  datatype Collected = Collected(
    operations: seq<OperationData>,
    pathParams: Dict<Shape>,
    queryParams: Dict<Shape>,
    bodySchemas: Dict<Shape>,
    responseSchemas: Dict<Shape>,
    arrayItemSchemas: Dict<Shape>)

  /** The HTTP methods looked up on each path item, in this order. */
  const HttpMethods: seq<string> := ["get", "post", "put", "delete", "patch", "head", "options"]

  // ---- parameters

  function ParametersOf(op: Operation): seq<Parameter> {
    if op.parameters.Some? then op.parameters.value else []
  }

  /** `parameters.filter(p => isParameterObject(p) && p.in === location)` */
  function ParametersIn(ps: seq<Parameter>, location: string): (r: seq<Parameter>)
    ensures forall i :: 0 <= i < |r| ==> r[i].ParamObj? && r[i].location == location
    ensures r == [] <==> forall i :: 0 <= i < |ps| ==> !(ps[i].ParamObj? && ps[i].location == location)
  {
    if ps == [] then []
    else
      var rest := ParametersIn(ps[1..], location);
      assert forall i :: 1 <= i < |ps| ==> ps[i] == ps[1..][i - 1];
      if ps[0].ParamObj? && ps[0].location == location then [ps[0]] + rest else rest
  }

  /** The guard of the `forEach` body: a parameter object whose `schema` is a schema object. */
  predicate HasTypedSchema(p: Parameter) {
    p.ParamObj? && p.schema.Some? && IsSchemaObject(p.schema.value)
  }

  /** Path parameters are required unless `required: false`; query parameters only with `required: true`. */
  function IsRequired(location: string, required: Option<bool>): bool {
    if location == "path" then required != Some(false) else required == Some(true)
  }

  function ParameterProperty(operationId: string, p: Parameter, location: string): PropertyInfo
    requires HasTypedSchema(p)
  {
    PropertyInfo(MapType(p.schema.value, operationId, p.name), IsRequired(location, p.required), p.description)
  }

  datatype Fields = Fields(properties: Dict<PropertyInfo>, required: seq<string>)

  /** `properties` and `required` after the `forEach` over `list`. */
  function ParameterFields(operationId: string, list: seq<Parameter>, location: string): Fields
    decreases |list|
  {
    if list == [] then Fields(EmptyDict(), [])
    else
      var f := ParameterFields(operationId, list[..|list| - 1], location);
      var p := list[|list| - 1];
      if HasTypedSchema(p) then
        Fields(DictSet(f.properties, p.name, ParameterProperty(operationId, p, location)),
               if IsRequired(location, p.required) then f.required + [p.name] else f.required)
      else f
  }

  /** Whether some parameter of `list` with a typed schema is named `k` (and, with `requiredOnly`, is required). */
  predicate Declares(list: seq<Parameter>, location: string, k: string, requiredOnly: bool) {
    exists j :: 0 <= j < |list| && HasTypedSchema(list[j]) && list[j].name == k &&
      (requiredOnly ==> IsRequired(location, list[j].required))
  }

  lemma {:induction false} DeclaresStep(list: seq<Parameter>, location: string, k: string, requiredOnly: bool)
    requires list != []
    ensures var p := list[|list| - 1];
      Declares(list, location, k, requiredOnly) <==>
        Declares(list[..|list| - 1], location, k, requiredOnly) ||
        (HasTypedSchema(p) && p.name == k && (requiredOnly ==> IsRequired(location, p.required)))
  {
    var n := |list| - 1;
    var front := list[..n];
    if Declares(list, location, k, requiredOnly) {
      var j :| 0 <= j < |list| && HasTypedSchema(list[j]) && list[j].name == k &&
        (requiredOnly ==> IsRequired(location, list[j].required));
      if j < n {
        assert front[j] == list[j];
      }
    }
    if Declares(front, location, k, requiredOnly) {
      var j :| 0 <= j < n && HasTypedSchema(front[j]) && front[j].name == k &&
        (requiredOnly ==> IsRequired(location, front[j].required));
      assert list[j] == front[j];
    }
  }

  /** The members are the names of the parameters with a typed schema; `required` lists the required ones. */
  lemma {:induction false} ParameterNames(operationId: string, list: seq<Parameter>, location: string)
    ensures var f := ParameterFields(operationId, list, location);
      forall k :: k in f.properties.at <==> Declares(list, location, k, false)
    ensures var f := ParameterFields(operationId, list, location);
      forall k :: k in f.required <==> Declares(list, location, k, true)
    decreases |list|
  {
    if list != [] {
      ParameterNames(operationId, list[..|list| - 1], location);
      var f := ParameterFields(operationId, list, location);
      forall k
        ensures k in f.properties.at <==> Declares(list, location, k, false)
        ensures k in f.required <==> Declares(list, location, k, true)
      {
        DeclaresStep(list, location, k, false);
        DeclaresStep(list, location, k, true);
      }
    }
  }

  /** Of several parameters with one name, the last with a typed schema gives the member. */
  lemma {:induction false} ParameterLastWins(operationId: string, list: seq<Parameter>, location: string, j: nat)
    requires j < |list| && HasTypedSchema(list[j])
    requires forall j' :: j < j' < |list| && HasTypedSchema(list[j']) ==> list[j'].name != list[j].name
    ensures var f := ParameterFields(operationId, list, location);
      list[j].name in f.properties.at && f.properties.at[list[j].name] == ParameterProperty(operationId, list[j], location)
    decreases |list|
  {
    var n := |list| - 1;
    if j < n {
      var front := list[..n];
      assert front[j] == list[j];
      forall j' | j < j' < |front| && HasTypedSchema(front[j'])
        ensures front[j'].name != front[j].name
      {
        assert front[j'] == list[j'];
      }
      ParameterLastWins(operationId, front, location, j);
    }
  }

  /**
   * Required defaulting: a parameter with a typed schema becomes a member
   * (the last of several with one name wins), listed in `required` exactly
   * when it is required for its location; a parameter without a typed
   * schema appears in neither.
   */
  lemma ParameterFieldsMeaning(operationId: string, list: seq<Parameter>, location: string)
    ensures var f := ParameterFields(operationId, list, location);
      forall k :: k in f.properties.at <==> Declares(list, location, k, false)
    ensures var f := ParameterFields(operationId, list, location);
      forall k :: k in f.required <==> Declares(list, location, k, true)
    ensures var f := ParameterFields(operationId, list, location);
      forall j :: (0 <= j < |list| && HasTypedSchema(list[j]) &&
                   (forall j' :: j < j' < |list| && HasTypedSchema(list[j']) ==> list[j'].name != list[j].name)) ==>
        list[j].name in f.properties.at && f.properties.at[list[j].name] == ParameterProperty(operationId, list[j], location)
  {
    ParameterNames(operationId, list, location);
    forall j | (0 <= j < |list| && HasTypedSchema(list[j]) &&
                (forall j' :: j < j' < |list| && HasTypedSchema(list[j']) ==> list[j'].name != list[j].name))
      ensures var f := ParameterFields(operationId, list, location);
        list[j].name in f.properties.at && f.properties.at[list[j].name] == ParameterProperty(operationId, list[j], location)
    {
      ParameterLastWins(operationId, list, location, j);
    }
  }

  /** The `forEach` over `list`, filling `properties` and `required`. */
  method CollectParameterFields(operationId: string, list: seq<Parameter>, location: string)
    returns (properties: Dict<PropertyInfo>, required: seq<string>)
    ensures Fields(properties, required) == ParameterFields(operationId, list, location)
  {
    properties := EmptyDict();
    required := [];
    for i := 0 to |list|
      invariant Fields(properties, required) == ParameterFields(operationId, list[..i], location)
    {
      var param := list[i];
      assert list[..i + 1][..i] == list[..i];
      if param.ParamObj? && param.schema.Some? && IsSchemaObject(param.schema.value) {
        properties := DictSet(properties, param.name, ParameterProperty(operationId, param, location));
        if IsRequired(location, param.required) {
          required := required + [param.name];
        }
      }
    }
    assert list[..|list|] == list;
  }

  // ---- object properties

  function RequiredOf(s: Schema): seq<string> {
    if s.required.Some? then s.required.value else []
  }

  /**
   * `properties` after the `forEach` over the first `n` entries of a
   * schema's `properties`; `named` says whether the property name is passed
   * on to the type mapping.
   */
  function SchemaFields(operationId: string, props: Dict<Schema>, required: seq<string>, named: bool, n: nat): Dict<PropertyInfo>
    requires n <= |props.keys|
  {
    if n == 0 then EmptyDict()
    else
      var d := SchemaFields(operationId, props, required, named, n - 1);
      var k := props.keys[n - 1];
      var s := props.at[k];
      if IsSchemaObject(s) then
        DictSet(d, k, PropertyInfo(MapType(s, operationId, if named then k else ""), k in required, s.description))
      else d
  }

  /** The first `n` keys of `props` whose schema is a schema object, in order. */
  function TypedKeys(props: Dict<Schema>, n: nat): seq<string>
    requires n <= |props.keys|
  {
    if n == 0 then []
    else TypedKeys(props, n - 1) + (if IsSchemaObject(props.at[props.keys[n - 1]]) then [props.keys[n - 1]] else [])
  }

  /** The typed properties, and only they, become members, in the schema's order. */
  lemma {:induction false} SchemaFieldsOrder(operationId: string, props: Dict<Schema>, required: seq<string>, named: bool, n: nat)
    requires n <= |props.keys|
    ensures SchemaFields(operationId, props, required, named, n).keys == TypedKeys(props, n)
    decreases n
  {
    if n > 0 {
      SchemaFieldsOrder(operationId, props, required, named, n - 1);
      var k := props.keys[n - 1];
      var d := SchemaFields(operationId, props, required, named, n - 1);
      assert k !in d.at by {
        assert forall j :: 0 <= j < n - 1 ==> props.keys[j] != k;
        TypedKeysFrom(props, n - 1);
      }
    }
  }

  /**
   * Each member comes from a typed property: it is required exactly when
   * the schema's `required` lists it, and carries the mapped type and the
   * description of the property's schema.
   */
  lemma {:induction false} SchemaFieldsMembers(operationId: string, props: Dict<Schema>, required: seq<string>, named: bool, n: nat)
    requires n <= |props.keys|
    ensures var d := SchemaFields(operationId, props, required, named, n);
      forall k :: k in d.at ==>
        k in props.at && IsSchemaObject(props.at[k]) &&
        d.at[k].required == (k in required) &&
        d.at[k].ty == MapType(props.at[k], operationId, if named then k else "") &&
        d.at[k].description == props.at[k].description
    decreases n
  {
    if n > 0 {
      SchemaFieldsMembers(operationId, props, required, named, n - 1);
    }
  }

  lemma {:induction false} TypedKeysFrom(props: Dict<Schema>, n: nat)
    requires n <= |props.keys|
    ensures forall k :: k in TypedKeys(props, n) ==> k in props.keys[..n]
    decreases n
  {
    if n > 0 {
      TypedKeysFrom(props, n - 1);
      assert props.keys[..n] == props.keys[..n - 1] + [props.keys[n - 1]];
    }
  }

  /** Every typed property of the schema is a member. */
  lemma TypedPropertiesKept(operationId: string, props: Dict<Schema>, required: seq<string>, named: bool, k: string)
    requires k in props.at && IsSchemaObject(props.at[k])
    ensures k in SchemaFields(operationId, props, required, named, |props.keys|).at
  {
    var i :| 0 <= i < |props.keys| && props.keys[i] == k;
    TypedKeysTo(props, |props.keys|, i);
    SchemaFieldsOrder(operationId, props, required, named, |props.keys|);
  }

  lemma {:induction false} TypedKeysTo(props: Dict<Schema>, n: nat, i: nat)
    requires i < n <= |props.keys| && IsSchemaObject(props.at[props.keys[i]])
    ensures props.keys[i] in TypedKeys(props, n)
    decreases n
  {
    if i < n - 1 {
      TypedKeysTo(props, n - 1, i);
    }
  }

  /** One more property of the `forEach`. */
  lemma SchemaFieldsStep(operationId: string, props: Dict<Schema>, required: seq<string>, named: bool, i: nat)
    requires i < |props.keys|
    ensures var k := props.keys[i];
      var s := props.at[k];
      var d := SchemaFields(operationId, props, required, named, i);
      SchemaFields(operationId, props, required, named, i + 1) ==
        if IsSchemaObject(s) then DictSet(d, k, PropertyInfo(MapType(s, operationId, if named then k else ""), k in required, s.description))
        else d
  {
  }

  /** The `forEach` over `Object.entries(props)`. */
  method CollectSchemaFields(operationId: string, props: Dict<Schema>, required: seq<string>, named: bool)
    returns (properties: Dict<PropertyInfo>)
    ensures properties == SchemaFields(operationId, props, required, named, |props.keys|)
  {
    properties := EmptyDict();
    for i := 0 to |props.keys|
      invariant properties == SchemaFields(operationId, props, required, named, i)
    {
      var propName := props.keys[i];
      var propSchema := props.at[propName];
      SchemaFieldsStep(operationId, props, required, named, i);
      if IsSchemaObject(propSchema) {
        properties := DictSet(properties, propName,
          PropertyInfo(MapType(propSchema, operationId, if named then propName else ""), propName in required, propSchema.description));
      }
    }
  }

  // ---- request bodies and responses

  /** `content['application/json'].schema` of a request body or response that has `content`. */
  function JsonSchema(b: Body): Option<Schema> {
    if b.content.Some? && "application/json" in b.content.value then b.content.value["application/json"].schema
    else None
  }

  /** `responses['200'] || responses['201']`: any present `200` response is taken, so `201` is read only without one. */
  function SuccessResponse(op: Operation): Option<Body> {
    if op.responses.None? then None
    else if "200" in op.responses.value then Some(op.responses.value["200"])
    else if "201" in op.responses.value then Some(op.responses.value["201"])
    else None
  }

  /** `schema && isSchemaObject(schema) && schema.properties` */
  predicate HasProperties(s: Option<Schema>) {
    s.Some? && IsSchemaObject(s.value) && s.value.properties.Some?
  }

  /** The JSON schema of the request body. */
  function BodySchema(op: Operation): Option<Schema> {
    if op.requestBody.Some? then JsonSchema(op.requestBody.value) else None
  }

  /** The JSON schema of the success response. */
  function ResponseSchema(op: Operation): Option<Schema> {
    var r := SuccessResponse(op);
    if r.Some? then JsonSchema(r.value) else None
  }

  // ---- the interfaces of one operation

  /** `${operationId}PathParams` or `${operationId}QueryParams` */
  function ParametersName(operationId: string, location: string): string {
    operationId + (if location == "path" then "PathParams" else "QueryParams")
  }

  /** The closed interface of the parameters at `location`. */
  function ParameterShape(operationId: string, list: seq<Parameter>, location: string): Shape {
    var f := ParameterFields(operationId, list, location);
    Shape(ParametersName(operationId, location), f.properties, f.required, false)
  }

  /** The parameter interfaces after `op`: one more when it has parameter objects at `location`. */
  function WithParameters(shapes: Dict<Shape>, operationId: string, op: Operation, location: string): Dict<Shape> {
    var list := ParametersIn(ParametersOf(op), location);
    if list != [] then DictSet(shapes, ParametersName(operationId, location), ParameterShape(operationId, list, location))
    else shapes
  }

  /** `operationData.pathParams` / `operationData.queryParams` */
  function ParametersRef(operationId: string, op: Operation, location: string): Option<string> {
    if ParametersIn(ParametersOf(op), location) != [] then Some(ParametersName(operationId, location)) else None
  }

  /** The interface of an object schema: its typed properties and its `required`; open unless `additionalProperties: false`. */
  function ObjectShape(name: string, operationId: string, s: Schema): Shape
    requires s.properties.Some?
  {
    Shape(name, SchemaFields(operationId, s.properties.value, RequiredOf(s), true, |s.properties.value.keys|),
          RequiredOf(s), s.additionalProperties != Some(false))
  }

  /** The body interfaces after `op`: `${operationId}Body` when the JSON body schema has properties. */
  function WithBody(shapes: Dict<Shape>, operationId: string, op: Operation): Dict<Shape> {
    var s := BodySchema(op);
    if HasProperties(s) then DictSet(shapes, operationId + "Body", ObjectShape(operationId + "Body", operationId, s.value))
    else shapes
  }

  /** The response interfaces after `op`: `${operationId}Response` when the success schema has properties. */
  function WithResponse(shapes: Dict<Shape>, operationId: string, op: Operation): Dict<Shape> {
    var s := ResponseSchema(op);
    if HasProperties(s) then DictSet(shapes, operationId + "Response", ObjectShape(operationId + "Response", operationId, s.value))
    else shapes
  }

  /** As written: `bodySchema` is set for every request body with `content`, whether or not its interface is generated. */
  function BodySchemaRefAsWritten(operationId: string, op: Operation): Option<string> {
    if op.requestBody.Some? && op.requestBody.value.content.Some? then Some(operationId + "Body") else None
  }

  /** Corrected: `bodySchema` names `${operationId}Body` exactly when that interface is generated. */
  function BodySchemaRef(operationId: string, op: Operation): Option<string> {
    if HasProperties(BodySchema(op)) then Some(operationId + "Body") else None
  }

  /** `operationData.responseSchema` */
  function ResponseSchemaRef(operationId: string, op: Operation): Option<string> {
    if HasProperties(ResponseSchema(op)) then Some(operationId + "Response") else None
  }

  /**
   * The closed interface of array items: the typed properties of an item
   * object schema, typed without a property name; `required` stays empty.
   */
  function ItemShape(name: string, operationId: string, items: Schema): Shape {
    var properties :=
      if IsSchemaObject(items) && items.properties.Some? then
        SchemaFields(operationId, items.properties.value, RequiredOf(items), false, |items.properties.value.keys|)
      else EmptyDict();
    Shape(name, properties, [], false)
  }

  /** A typed array schema with `items`. */
  predicate HasItems(s: Schema) {
    IsSchemaObject(s) && s.ty == Some("array") && s.items.Some?
  }

  /** The array-item interfaces after the body of `op`: `${operationId}ArrayItem` when the body is an array. */
  function WithBodyItems(shapes: Dict<Shape>, operationId: string, op: Operation): Dict<Shape> {
    var s := BodySchema(op);
    if s.Some? && HasItems(s.value) then
      DictSet(shapes, operationId + "ArrayItem", ItemShape(operationId + "ArrayItem", operationId, s.value.items.value))
    else shapes
  }

  /** The array-item interfaces after the first `n` response properties: one per array property. */
  function ResponseItems(shapes: Dict<Shape>, operationId: string, props: Dict<Schema>, n: nat): Dict<Shape>
    requires n <= |props.keys|
  {
    if n == 0 then shapes
    else
      var d := ResponseItems(shapes, operationId, props, n - 1);
      var k := props.keys[n - 1];
      if HasItems(props.at[k]) then
        DictSet(d, ItemTypeName(operationId, k), ItemShape(ItemTypeName(operationId, k), operationId, props.at[k].items.value))
      else d
  }

  /** The array-item interfaces after the response of `op`. */
  function WithResponseItems(shapes: Dict<Shape>, operationId: string, op: Operation): Dict<Shape> {
    var s := ResponseSchema(op);
    if HasProperties(s) then ResponseItems(shapes, operationId, s.value.properties.value, |s.value.properties.value.keys|)
    else shapes
  }

  /** The `operations` entry of `op`, found under `template` and `verb`. */
  function OperationEntry(operationId: string, verb: string, template: string, op: Operation): OperationData {
    OperationData(operationId, verb, ToExpress(template),
      ParametersRef(operationId, op, "path"), ParametersRef(operationId, op, "query"),
      BodySchemaRef(operationId, op), ResponseSchemaRef(operationId, op))
  }

  /** One operation; skipped unless its `operationId` is truthy. */
  function AddOperation(c: Collected, template: string, verb: string, op: Operation): Collected {
    if op.operationId.None? || op.operationId.value == [] then c
    else
      var id := op.operationId.value;
      Collected(c.operations + [OperationEntry(id, verb, template, op)],
        WithParameters(c.pathParams, id, op, "path"),
        WithParameters(c.queryParams, id, op, "query"),
        WithBody(c.bodySchemas, id, op),
        WithResponse(c.responseSchemas, id, op),
        WithResponseItems(WithBodyItems(c.arrayItemSchemas, id, op), id, op))
  }

  // ---- the whole document

  function EmptyCollected(): Collected {
    Collected([], EmptyDict(), EmptyDict(), EmptyDict(), EmptyDict(), EmptyDict())
  }

  /** The first `m` HTTP methods of one path item. */
  function CollectMethods(c: Collected, template: string, item: PathItem, m: nat): Collected
    requires m <= |HttpMethods|
  {
    if m == 0 then c
    else
      var d := CollectMethods(c, template, item, m - 1);
      var verb := HttpMethods[m - 1];
      if verb in item.operations then AddOperation(d, template, verb, item.operations[verb]) else d
  }

  /** The first `n` paths of the document; a null path item is skipped. */
  function CollectPaths(spec: Document, n: nat): Collected
    requires n <= |spec.paths.keys|
  {
    if n == 0 then EmptyCollected()
    else
      var c := CollectPaths(spec, n - 1);
      var item := spec.paths.at[spec.paths.keys[n - 1]];
      if item.Some? then CollectMethods(c, spec.paths.keys[n - 1], item.value, |HttpMethods|) else c
  }

  /** `spec.info?.title || 'Unknown API'` */
  function TitleOf(spec: Document): string {
    if spec.info.Some? && spec.info.value.title.Some? && spec.info.value.title.value != [] then spec.info.value.title.value
    else "Unknown API"
  }

  /** `spec.info?.version || '1.0.0'` */
  function VersionOf(spec: Document): string {
    if spec.info.Some? && spec.info.value.version.Some? && spec.info.value.version.value != [] then spec.info.value.version.value
    else "1.0.0"
  }

  /** The object `buildTemplateData` returns: the maps' values in insertion order, and a flag per map. */
  function Assemble(spec: Document, c: Collected): (t: TemplateData)
    ensures t.hasPathParams <==> t.pathParams != []
    ensures t.hasQueryParams <==> t.queryParams != []
    ensures t.hasBodySchemas <==> t.bodySchemas != []
    ensures t.hasResponseSchemas <==> t.responseSchemas != []
    ensures t.hasArrayItemSchemas <==> t.arrayItemSchemas != []
  {
    TemplateData(TitleOf(spec), VersionOf(spec), c.operations,
      DictValues(c.pathParams), DictValues(c.queryParams), DictValues(c.bodySchemas),
      DictValues(c.responseSchemas), DictValues(c.arrayItemSchemas),
      |c.pathParams.keys| > 0, |c.queryParams.keys| > 0, |c.bodySchemas.keys| > 0,
      |c.responseSchemas.keys| > 0, |c.arrayItemSchemas.keys| > 0)
  }

  function TemplateDataOf(spec: Document): TemplateData {
    Assemble(spec, CollectPaths(spec, |spec.paths.keys|))
  }

  // ---- the operations listed

  /** An operation the document declares: its `operationId`, verb and path template. */
  datatype Listing = Listing(operationId: string, httpMethod: string, template: string)

  /** Whether `op` has a truthy `operationId`. */
  predicate Identified(op: Operation) {
    op.operationId.Some? && op.operationId.value != []
  }

  /** The identified operations among the first `m` HTTP methods of one path item. */
  function MethodListing(template: string, item: PathItem, m: nat): seq<Listing>
    requires m <= |HttpMethods|
  {
    if m == 0 then []
    else
      var verb := HttpMethods[m - 1];
      MethodListing(template, item, m - 1) +
        if verb in item.operations && Identified(item.operations[verb])
        then [Listing(item.operations[verb].operationId.value, verb, template)]
        else []
  }

  /** The identified operations of the first `n` paths, path by path, in the order of `HttpMethods`. */
  function OperationListing(spec: Document, n: nat): seq<Listing>
    requires n <= |spec.paths.keys|
  {
    if n == 0 then []
    else
      var item := spec.paths.at[spec.paths.keys[n - 1]];
      OperationListing(spec, n - 1) + if item.Some? then MethodListing(spec.paths.keys[n - 1], item.value, |HttpMethods|) else []
  }

  /** `ops` are the entries for `l`, one for one, with Express paths. */
  predicate Lists(ops: seq<OperationData>, l: seq<Listing>) {
    |ops| == |l| &&
    forall i :: 0 <= i < |ops| ==>
      ops[i].operationId == l[i].operationId && ops[i].httpMethod == l[i].httpMethod && ops[i].path == ToExpress(l[i].template)
  }

  lemma ListsAppend(ops: seq<OperationData>, l: seq<Listing>, d: OperationData, x: Listing)
    requires Lists(ops, l)
    requires d.operationId == x.operationId && d.httpMethod == x.httpMethod && d.path == ToExpress(x.template)
    ensures Lists(ops + [d], l + [x])
  {
  }

  lemma {:induction false} MethodsListed(c: Collected, template: string, item: PathItem, m: nat, l: seq<Listing>)
    requires m <= |HttpMethods| && Lists(c.operations, l)
    ensures Lists(CollectMethods(c, template, item, m).operations, l + MethodListing(template, item, m))
  {
    if m > 0 {
      MethodsListed(c, template, item, m - 1, l);
      var verb := HttpMethods[m - 1];
      var ops := CollectMethods(c, template, item, m - 1).operations;
      var l' := l + MethodListing(template, item, m - 1);
      CollectMethodsStep(c, template, item, m);
      var before := MethodListing(template, item, m - 1);
      if verb in item.operations && Identified(item.operations[verb]) {
        var op := item.operations[verb];
        var x := Listing(op.operationId.value, verb, template);
        ListsAppend(ops, l', OperationEntry(op.operationId.value, verb, template, op), x);
        assert MethodListing(template, item, m) == before + [x];
        assert l' + [x] == l + (before + [x]);
      } else {
        assert MethodListing(template, item, m) == before + [];
        assert before + [] == before;
      }
    }
  }

  /** One more HTTP method appends the entry of its operation when that has an `operationId`, and nothing otherwise. */
  lemma CollectMethodsStep(c: Collected, template: string, item: PathItem, m: nat)
    requires 0 < m <= |HttpMethods|
    ensures var verb := HttpMethods[m - 1];
      CollectMethods(c, template, item, m).operations ==
        CollectMethods(c, template, item, m - 1).operations +
          if verb in item.operations && Identified(item.operations[verb])
          then [OperationEntry(item.operations[verb].operationId.value, verb, template, item.operations[verb])]
          else []
  {
    var verb := HttpMethods[m - 1];
    var d := CollectMethods(c, template, item, m - 1);
    if verb !in item.operations || !Identified(item.operations[verb]) {
      assert CollectMethods(c, template, item, m).operations == d.operations + [];
    }
  }

  /**
   * `operations` holds one entry per operation with a truthy
   * `operationId`, in document order, each with its verb and the Express
   * form of its path; operations without one are skipped.
   */
  lemma {:induction false} OperationsListed(spec: Document)
    ensures Lists(TemplateDataOf(spec).operations, OperationListing(spec, |spec.paths.keys|))
  {
    PathsListed(spec, |spec.paths.keys|);
  }

  lemma {:induction false} PathsListed(spec: Document, n: nat)
    requires n <= |spec.paths.keys|
    ensures Lists(CollectPaths(spec, n).operations, OperationListing(spec, n))
  {
    if n > 0 {
      PathsListed(spec, n - 1);
      var item := spec.paths.at[spec.paths.keys[n - 1]];
      if item.Some? {
        MethodsListed(CollectPaths(spec, n - 1), spec.paths.keys[n - 1], item.value, |HttpMethods|, OperationListing(spec, n - 1));
      } else {
        assert OperationListing(spec, n) == OperationListing(spec, n - 1) + [];
      }
    }
  }

  // ---- what the handler template relies on

  /** Every interface is stored under its own name. */
  predicate NamesAgree(shapes: Dict<Shape>) {
    forall k :: k in shapes.at ==> shapes.at[k].name == k
  }

  /** A closed interface whose `required` lists only its own members. */
  predicate Closed(s: Shape) {
    !s.additionalProperties && forall r :: r in s.required ==> r in s.properties.at
  }

  /** A closed interface with an empty `required` list, as array-item interfaces are. */
  predicate PlainItems(s: Shape) {
    !s.additionalProperties && s.required == []
  }

  /** Every member of `s` typed `X[]` with `X` ending in `Item` has `X` among `names`. */
  predicate ItemTypesIn(s: Shape, names: set<string>) {
    forall p :: p in s.properties.at ==>
      var ty := s.properties.at[p].ty;
      EndsWith(ty, "Item[]") ==> ty[..|ty| - 2] in names
  }

  /** The interface an entry names, if any, is among `names`. */
  predicate Resolves(ref: Option<string>, names: set<string>) {
    ref.Some? ==> ref.value in names
  }

  /** What `buildTemplateData` keeps true of its maps and `operations` after every operation. */
  predicate Consistent(c: Collected) {
    && NamesAgree(c.pathParams) && NamesAgree(c.queryParams) && NamesAgree(c.bodySchemas)
    && NamesAgree(c.responseSchemas) && NamesAgree(c.arrayItemSchemas)
    && (forall k :: k in c.pathParams.at ==> Closed(c.pathParams.at[k]))
    && (forall k :: k in c.queryParams.at ==> Closed(c.queryParams.at[k]))
    && (forall k :: k in c.arrayItemSchemas.at ==> PlainItems(c.arrayItemSchemas.at[k]))
    && (forall k :: k in c.responseSchemas.at ==> ItemTypesIn(c.responseSchemas.at[k], c.arrayItemSchemas.at.Keys))
    && (forall i :: 0 <= i < |c.operations| ==>
          && Resolves(c.operations[i].pathParams, c.pathParams.at.Keys)
          && Resolves(c.operations[i].queryParams, c.queryParams.at.Keys)
          && Resolves(c.operations[i].bodySchema, c.bodySchemas.at.Keys)
          && Resolves(c.operations[i].responseSchema, c.responseSchemas.at.Keys))
  }

  /** A parameter interface requires only parameters it has as members. */
  lemma ParameterShapeClosed(operationId: string, list: seq<Parameter>, location: string)
    ensures Closed(ParameterShape(operationId, list, location))
  {
    var f := ParameterFields(operationId, list, location);
    ParameterNames(operationId, list, location);
    forall r | r in f.required
      ensures r in f.properties.at
    {
      assert Declares(list, location, r, true);
      var j :| 0 <= j < |list| && HasTypedSchema(list[j]) && list[j].name == r && IsRequired(location, list[j].required);
      assert Declares(list, location, r, false);
    }
  }

  /** The response's array properties each get an item interface, and nothing is removed or breaks the invariant. */
  lemma ResponseItemsMeaning(shapes: Dict<Shape>, operationId: string, props: Dict<Schema>, n: nat)
    requires n <= |props.keys|
    ensures var r := ResponseItems(shapes, operationId, props, n);
      shapes.at.Keys <= r.at.Keys
    ensures var r := ResponseItems(shapes, operationId, props, n);
      NamesAgree(shapes) && (forall k :: k in shapes.at ==> PlainItems(shapes.at[k])) ==>
        NamesAgree(r) && forall k :: k in r.at ==> PlainItems(r.at[k])
    ensures var r := ResponseItems(shapes, operationId, props, n);
      forall i :: 0 <= i < n && HasItems(props.at[props.keys[i]]) ==> ItemTypeName(operationId, props.keys[i]) in r.at
  {
    ResponseItemsGrow(shapes, operationId, props, 0, n);
    if NamesAgree(shapes) && (forall k :: k in shapes.at ==> PlainItems(shapes.at[k])) {
      ResponseItemsPlain(shapes, operationId, props, n);
    }
    ResponseItemsCover(shapes, operationId, props, n);
  }

  lemma {:induction false} ResponseItemsPlain(shapes: Dict<Shape>, operationId: string, props: Dict<Schema>, n: nat)
    requires n <= |props.keys|
    requires NamesAgree(shapes) && forall k :: k in shapes.at ==> PlainItems(shapes.at[k])
    ensures var r := ResponseItems(shapes, operationId, props, n);
      NamesAgree(r) && forall k :: k in r.at ==> PlainItems(r.at[k])
    decreases n
  {
    if n > 0 {
      ResponseItemsPlain(shapes, operationId, props, n - 1);
    }
  }

  lemma ResponseItemsCover(shapes: Dict<Shape>, operationId: string, props: Dict<Schema>, n: nat)
    requires n <= |props.keys|
    ensures var r := ResponseItems(shapes, operationId, props, n);
      forall i :: 0 <= i < n && HasItems(props.at[props.keys[i]]) ==> ItemTypeName(operationId, props.keys[i]) in r.at
  {
    forall i | 0 <= i < n && HasItems(props.at[props.keys[i]])
      ensures ItemTypeName(operationId, props.keys[i]) in ResponseItems(shapes, operationId, props, n).at
    {
      ResponseItemRegistered(shapes, operationId, props, n, i);
    }
  }

  /** The item interface of one array property stays registered after the later properties. */
  lemma ResponseItemRegistered(shapes: Dict<Shape>, operationId: string, props: Dict<Schema>, n: nat, i: nat)
    requires i < n <= |props.keys|
    requires HasItems(props.at[props.keys[i]])
    ensures ItemTypeName(operationId, props.keys[i]) in ResponseItems(shapes, operationId, props, n).at
  {
    ResponseItemsStep(shapes, operationId, props, i + 1);
    ResponseItemsGrow(shapes, operationId, props, i + 1, n);
  }

  /** Later properties only add names. */
  lemma {:induction false} ResponseItemsGrow(shapes: Dict<Shape>, operationId: string, props: Dict<Schema>, m: nat, n: nat)
    requires m <= n <= |props.keys|
    ensures ResponseItems(shapes, operationId, props, m).at.Keys <= ResponseItems(shapes, operationId, props, n).at.Keys
    decreases n
  {
    if m < n {
      ResponseItemsGrow(shapes, operationId, props, m, n - 1);
      ResponseItemsStepKeys(shapes, operationId, props, n);
    }
  }

  /** One more response property keeps every registered name. */
  lemma ResponseItemsStepKeys(shapes: Dict<Shape>, operationId: string, props: Dict<Schema>, n: nat)
    requires 0 < n <= |props.keys|
    ensures ResponseItems(shapes, operationId, props, n - 1).at.Keys <= ResponseItems(shapes, operationId, props, n).at.Keys
  {
  }

  /** One more response property registers its own item interface if it has one. */
  lemma ResponseItemsStep(shapes: Dict<Shape>, operationId: string, props: Dict<Schema>, n: nat)
    requires 0 < n <= |props.keys|
    ensures HasItems(props.at[props.keys[n - 1]]) ==>
      ItemTypeName(operationId, props.keys[n - 1]) in ResponseItems(shapes, operationId, props, n).at
  {
  }

  /** The `Item[]` members of a new response interface name the item interfaces registered for its properties. */
  lemma NewResponseItemTypes(name: string, operationId: string, s: Schema, names: set<string>)
    requires HasProperties(Some(s))
    requires var props := s.properties.value;
      forall i :: 0 <= i < |props.keys| && HasItems(props.at[props.keys[i]]) ==> ItemTypeName(operationId, props.keys[i]) in names
    ensures ItemTypesIn(ObjectShape(name, operationId, s), names)
  {
    var props := s.properties.value;
    SchemaFieldsMembers(operationId, props, RequiredOf(s), true, |props.keys|);
    MemberItemTypes(operationId, props, SchemaFields(operationId, props, RequiredOf(s), true, |props.keys|), names);
  }

  /** Members typed by `MapType` with their own names have their `Item[]` types among `names`. */
  lemma MemberItemTypes(operationId: string, props: Dict<Schema>, d: Dict<PropertyInfo>, names: set<string>)
    requires forall k :: k in d.at ==> k in props.at && d.at[k].ty == MapType(props.at[k], operationId, k)
    requires forall i :: 0 <= i < |props.keys| && HasItems(props.at[props.keys[i]]) ==> ItemTypeName(operationId, props.keys[i]) in names
    ensures forall p :: p in d.at ==> var ty := d.at[p].ty; EndsWith(ty, "Item[]") ==> ty[..|ty| - 2] in names
  {
    forall p | p in d.at
      ensures var ty := d.at[p].ty; EndsWith(ty, "Item[]") ==> ty[..|ty| - 2] in names
    {
      ItemTypeOfProperty(operationId, props, p, names);
    }
  }

  lemma ItemTypeOfProperty(operationId: string, props: Dict<Schema>, p: string, names: set<string>)
    requires p in props.at
    requires forall i :: 0 <= i < |props.keys| && HasItems(props.at[props.keys[i]]) ==> ItemTypeName(operationId, props.keys[i]) in names
    ensures var ty := MapType(props.at[p], operationId, p);
      EndsWith(ty, "Item[]") ==> ty[..|ty| - 2] in names
  {
    var ty := MapType(props.at[p], operationId, p);
    NamedItemType(props.at[p], operationId, p);
    if EndsWith(ty, "Item[]") {
      assert HasItems(props.at[p]);
      var i :| 0 <= i < |props.keys| && props.keys[i] == p;
    }
  }

  /** The parameter interfaces stay named and closed, and the entry's reference resolves. */
  lemma WithParametersOk(shapes: Dict<Shape>, operationId: string, op: Operation, location: string)
    requires NamesAgree(shapes) && forall k :: k in shapes.at ==> Closed(shapes.at[k])
    ensures var r := WithParameters(shapes, operationId, op, location);
      NamesAgree(r) && (forall k :: k in r.at ==> Closed(r.at[k])) && shapes.at.Keys <= r.at.Keys
    ensures Resolves(ParametersRef(operationId, op, location), WithParameters(shapes, operationId, op, location).at.Keys)
  {
    ParameterShapeClosed(operationId, ParametersIn(ParametersOf(op), location), location);
  }

  /** The body interfaces stay named, and the entry's (corrected) reference resolves. */
  lemma WithBodyOk(shapes: Dict<Shape>, operationId: string, op: Operation)
    requires NamesAgree(shapes)
    ensures var r := WithBody(shapes, operationId, op);
      NamesAgree(r) && shapes.at.Keys <= r.at.Keys && Resolves(BodySchemaRef(operationId, op), r.at.Keys)
  {
  }

  /** The body's array-item interface keeps the array-item interfaces named and plain. */
  lemma WithBodyItemsOk(items: Dict<Shape>, operationId: string, op: Operation)
    requires NamesAgree(items) && forall k :: k in items.at ==> PlainItems(items.at[k])
    ensures var r := WithBodyItems(items, operationId, op);
      NamesAgree(r) && (forall k :: k in r.at ==> PlainItems(r.at[k])) && items.at.Keys <= r.at.Keys
  {
  }

  /**
   * The response's array-item interfaces keep the array-item interfaces
   * named and plain, and every response interface's `Item[]` types stay
   * declared, those of the new one included.
   */
  lemma WithResponseItemsOk(items: Dict<Shape>, responses: Dict<Shape>, operationId: string, op: Operation)
    requires NamesAgree(items) && forall k :: k in items.at ==> PlainItems(items.at[k])
    requires NamesAgree(responses) && forall k :: k in responses.at ==> ItemTypesIn(responses.at[k], items.at.Keys)
    ensures var r := WithResponseItems(items, operationId, op);
      NamesAgree(r) && (forall k :: k in r.at ==> PlainItems(r.at[k])) && items.at.Keys <= r.at.Keys
    ensures var r := WithResponseItems(items, operationId, op);
      var rs := WithResponse(responses, operationId, op);
      NamesAgree(rs) && Resolves(ResponseSchemaRef(operationId, op), rs.at.Keys) &&
      forall k :: k in rs.at ==> ItemTypesIn(rs.at[k], r.at.Keys)
  {
    var r := WithResponseItems(items, operationId, op);
    var rs := WithResponse(responses, operationId, op);
    var response := ResponseSchema(op);
    if HasProperties(response) {
      var props := response.value.properties.value;
      ResponseItemsMeaning(items, operationId, props, |props.keys|);
      NewResponseItemTypes(operationId + "Response", operationId, response.value, r.at.Keys);
    }
    forall k | k in rs.at
      ensures ItemTypesIn(rs.at[k], r.at.Keys)
    {
      if k in responses.at && rs.at[k] == responses.at[k] {
        ItemTypesGrow(responses.at[k], items.at.Keys, r.at.Keys);
      }
    }
  }

  lemma ItemTypesGrow(s: Shape, names: set<string>, more: set<string>)
    requires ItemTypesIn(s, names) && names <= more
    ensures ItemTypesIn(s, more)
  {
  }

  /** Maps that only grew, keep their shapes right and resolve the new entry keep `Consistent`. */
  lemma ConsistentStep(c: Collected, r: Collected, e: OperationData)
    requires Consistent(c) && r.operations == c.operations + [e]
    requires NamesAgree(r.pathParams) && NamesAgree(r.queryParams) && NamesAgree(r.bodySchemas)
    requires NamesAgree(r.responseSchemas) && NamesAgree(r.arrayItemSchemas)
    requires forall k :: k in r.pathParams.at ==> Closed(r.pathParams.at[k])
    requires forall k :: k in r.queryParams.at ==> Closed(r.queryParams.at[k])
    requires forall k :: k in r.arrayItemSchemas.at ==> PlainItems(r.arrayItemSchemas.at[k])
    requires forall k :: k in r.responseSchemas.at ==> ItemTypesIn(r.responseSchemas.at[k], r.arrayItemSchemas.at.Keys)
    requires c.pathParams.at.Keys <= r.pathParams.at.Keys && c.queryParams.at.Keys <= r.queryParams.at.Keys
    requires c.bodySchemas.at.Keys <= r.bodySchemas.at.Keys && c.responseSchemas.at.Keys <= r.responseSchemas.at.Keys
    requires Resolves(e.pathParams, r.pathParams.at.Keys) && Resolves(e.queryParams, r.queryParams.at.Keys)
    requires Resolves(e.bodySchema, r.bodySchemas.at.Keys) && Resolves(e.responseSchema, r.responseSchemas.at.Keys)
    ensures Consistent(r)
  {
    forall i | 0 <= i < |r.operations|
      ensures Resolves(r.operations[i].pathParams, r.pathParams.at.Keys)
      ensures Resolves(r.operations[i].queryParams, r.queryParams.at.Keys)
      ensures Resolves(r.operations[i].bodySchema, r.bodySchemas.at.Keys)
      ensures Resolves(r.operations[i].responseSchema, r.responseSchemas.at.Keys)
    {
      if i < |c.operations| {
        assert r.operations[i] == c.operations[i];
      }
    }
  }

  /** One operation keeps the maps and `operations` consistent. */
  lemma AddOperationConsistent(c: Collected, template: string, verb: string, op: Operation)
    requires Consistent(c)
    ensures Consistent(AddOperation(c, template, verb, op))
  {
    if Identified(op) {
      var id := op.operationId.value;
      WithParametersOk(c.pathParams, id, op, "path");
      WithParametersOk(c.queryParams, id, op, "query");
      WithBodyOk(c.bodySchemas, id, op);
      WithBodyItemsOk(c.arrayItemSchemas, id, op);
      var mid := WithBodyItems(c.arrayItemSchemas, id, op);
      forall k | k in c.responseSchemas.at
        ensures ItemTypesIn(c.responseSchemas.at[k], mid.at.Keys)
      {
        ItemTypesGrow(c.responseSchemas.at[k], c.arrayItemSchemas.at.Keys, mid.at.Keys);
      }
      WithResponseItemsOk(mid, c.responseSchemas, id, op);
      ConsistentStep(c, AddOperation(c, template, verb, op), OperationEntry(id, verb, template, op));
    }
  }

  lemma {:induction false} CollectMethodsConsistent(c: Collected, template: string, item: PathItem, m: nat)
    requires m <= |HttpMethods| && Consistent(c)
    ensures Consistent(CollectMethods(c, template, item, m))
  {
    if m > 0 {
      CollectMethodsConsistent(c, template, item, m - 1);
      var verb := HttpMethods[m - 1];
      if verb in item.operations {
        AddOperationConsistent(CollectMethods(c, template, item, m - 1), template, verb, item.operations[verb]);
      }
    }
  }

  lemma {:induction false} CollectPathsConsistent(spec: Document, n: nat)
    requires n <= |spec.paths.keys|
    ensures Consistent(CollectPaths(spec, n))
  {
    if n > 0 {
      CollectPathsConsistent(spec, n - 1);
      var item := spec.paths.at[spec.paths.keys[n - 1]];
      if item.Some? {
        CollectMethodsConsistent(CollectPaths(spec, n - 1), spec.paths.keys[n - 1], item.value, |HttpMethods|);
      }
    }
  }

  /** The names of the interfaces in a list. */
  function Names(shapes: seq<Shape>): set<string> {
    set j | 0 <= j < |shapes| :: shapes[j].name
  }

  /** No two interfaces of a list share a name. */
  predicate UniquelyNamed(shapes: seq<Shape>) {
    forall i, j :: 0 <= i < j < |shapes| ==> shapes[i].name != shapes[j].name
  }

  /** A map whose interfaces sit under their own names lists each name once, and exactly its keys. */
  lemma ValuesNamed(d: Dict<Shape>)
    requires NamesAgree(d)
    ensures Names(DictValues(d)) == d.at.Keys
    ensures UniquelyNamed(DictValues(d))
  {
    var vs := DictValues(d);
    forall k | k in d.at
      ensures k in Names(vs)
    {
      var j :| 0 <= j < |d.keys| && d.keys[j] == k;
      assert vs[j].name == k;
    }
  }

  /**
   * What the handler template can rely on: every interface an operation
   * names is declared, no interface is declared twice, parameter and
   * array-item interfaces are closed, parameter interfaces require only
   * their own members, and every `…Item[]` member type of a response
   * interface names a declared array-item interface.
   */
  lemma TemplateInvariants(spec: Document)
    ensures var t := TemplateDataOf(spec);
      forall i :: 0 <= i < |t.operations| ==>
        && Resolves(t.operations[i].pathParams, Names(t.pathParams))
        && Resolves(t.operations[i].queryParams, Names(t.queryParams))
        && Resolves(t.operations[i].bodySchema, Names(t.bodySchemas))
        && Resolves(t.operations[i].responseSchema, Names(t.responseSchemas))
    ensures var t := TemplateDataOf(spec);
      UniquelyNamed(t.pathParams) && UniquelyNamed(t.queryParams) && UniquelyNamed(t.bodySchemas) &&
      UniquelyNamed(t.responseSchemas) && UniquelyNamed(t.arrayItemSchemas)
    ensures var t := TemplateDataOf(spec);
      (forall j :: 0 <= j < |t.pathParams| ==> Closed(t.pathParams[j])) &&
      (forall j :: 0 <= j < |t.queryParams| ==> Closed(t.queryParams[j])) &&
      (forall j :: 0 <= j < |t.arrayItemSchemas| ==> PlainItems(t.arrayItemSchemas[j]))
    ensures var t := TemplateDataOf(spec);
      forall j :: 0 <= j < |t.responseSchemas| ==> ItemTypesIn(t.responseSchemas[j], Names(t.arrayItemSchemas))
  {
    var c := CollectPaths(spec, |spec.paths.keys|);
    CollectPathsConsistent(spec, |spec.paths.keys|);
    ValuesNamed(c.pathParams);
    ValuesNamed(c.queryParams);
    ValuesNamed(c.bodySchemas);
    ValuesNamed(c.responseSchemas);
    ValuesNamed(c.arrayItemSchemas);
  }

  // ---- behaviours worth naming

  /**
   * A present `200` response decides the response interface on its own:
   * when it has no JSON object schema with properties, no response
   * interface is generated even if `201` has one.
   */
  lemma SuccessResponseShadowing(c: Collected, template: string, verb: string, op: Operation)
    requires Identified(op) && op.responses.Some? && "200" in op.responses.value
    requires !HasProperties(JsonSchema(op.responses.value["200"]))
    ensures AddOperation(c, template, verb, op).responseSchemas == c.responseSchemas
    ensures AddOperation(c, template, verb, op).operations[|c.operations|].responseSchema == None
  {
  }

  /**
   * Body and response interfaces are open unless the schema says
   * `additionalProperties: false`; their `required` is the schema's own.
   */
  lemma ObjectShapesOpenness(c: Collected, template: string, verb: string, op: Operation)
    requires Identified(op)
    ensures var id := op.operationId.value; var r := AddOperation(c, template, verb, op);
      HasProperties(BodySchema(op)) ==>
        id + "Body" in r.bodySchemas.at &&
        r.bodySchemas.at[id + "Body"].additionalProperties == (BodySchema(op).value.additionalProperties != Some(false)) &&
        r.bodySchemas.at[id + "Body"].required == RequiredOf(BodySchema(op).value)
    ensures var id := op.operationId.value; var r := AddOperation(c, template, verb, op);
      HasProperties(ResponseSchema(op)) ==>
        id + "Response" in r.responseSchemas.at &&
        r.responseSchemas.at[id + "Response"].additionalProperties == (ResponseSchema(op).value.additionalProperties != Some(false)) &&
        r.responseSchemas.at[id + "Response"].required == RequiredOf(ResponseSchema(op).value)
  {
  }

  /**
   * As written, `bodySchema` names `${operationId}Body` for every request
   * body with `content`, but the interface is generated only when the JSON
   * schema is an object schema with properties: for an array body, a
   * non-JSON body or a schema without properties the entry names a type
   * that is never declared.
   */
  lemma UndeclaredBodyType(c: Collected, template: string, verb: string, op: Operation)
    requires Identified(op) && op.requestBody.Some? && op.requestBody.value.content.Some?
    requires !HasProperties(BodySchema(op))
    requires op.operationId.value + "Body" !in c.bodySchemas.at
    ensures BodySchemaRefAsWritten(op.operationId.value, op) == Some(op.operationId.value + "Body")
    ensures op.operationId.value + "Body" !in AddOperation(c, template, verb, op).bodySchemas.at
    ensures BodySchemaRef(op.operationId.value, op) == None
  {
  }

  /** The same, on a document: an operation whose JSON body is an array of strings. */
  lemma UndeclaredBodyTypeExample()
    ensures var items := Schema(Some("string"), None, None, None, None, None, None, None);
      var body := Schema(Some("array"), None, None, Some(items), None, None, None, None);
      var op := Operation(Some("tag"), None, Some(Body(Some(map["application/json" := MediaType(Some(body))]))), None);
      BodySchemaRefAsWritten("tag", op) == Some("tagBody") &&
      AddOperation(EmptyCollected(), "/tags", "post", op).bodySchemas.at == map[]
  {
    var items := Schema(Some("string"), None, None, None, None, None, None, None);
    var body := Schema(Some("array"), None, None, Some(items), None, None, None, None);
    var op := Operation(Some("tag"), None, Some(Body(Some(map["application/json" := MediaType(Some(body))]))), None);
    assert BodySchema(op) == Some(body);
    assert Identified(op);
    UndeclaredBodyType(EmptyCollected(), "/tags", "post", op);
    assert "tag" + "Body" == "tagBody";
    assert AddOperation(EmptyCollected(), "/tags", "post", op).bodySchemas == EmptyDict();
  }

  // ---- the loops of `buildTemplateData`

  /** The `forEach` over the response schema's properties that registers array-item interfaces. */
  method CollectResponseItems(shapes: Dict<Shape>, operationId: string, props: Dict<Schema>) returns (r: Dict<Shape>)
    ensures r == ResponseItems(shapes, operationId, props, |props.keys|)
  {
    r := shapes;
    for i := 0 to |props.keys|
      invariant r == ResponseItems(shapes, operationId, props, i)
    {
      var propName := props.keys[i];
      var propSchema := props.at[propName];
      if IsSchemaObject(propSchema) && propSchema.ty == Some("array") && propSchema.items.Some? {
        var name := ItemTypeName(operationId, propName);
        var items := propSchema.items.value;
        var properties := EmptyDict();
        if IsSchemaObject(items) && items.properties.Some? {
          properties := CollectSchemaFields(operationId, items.properties.value, RequiredOf(items), false);
        }
        r := DictSet(r, name, Shape(name, properties, [], false));
      }
    }
  }

  /** The "Process path parameters" or "Process query parameters" block. */
  method CollectParameters(shapes: Dict<Shape>, operationId: string, op: Operation, location: string)
    returns (r: Dict<Shape>, ref: Option<string>)
    ensures r == WithParameters(shapes, operationId, op, location)
    ensures ref == ParametersRef(operationId, op, location)
  {
    r, ref := shapes, None;
    var list := ParametersIn(ParametersOf(op), location);
    if list != [] {
      var name := ParametersName(operationId, location);
      ref := Some(name);
      var properties, required := CollectParameterFields(operationId, list, location);
      r := DictSet(r, name, Shape(name, properties, required, false));
    }
  }

  /** The interface of an object schema, built by the `forEach` over its properties. */
  method CollectObjectShape(name: string, operationId: string, schema: Schema) returns (shape: Shape)
    requires schema.properties.Some?
    ensures shape == ObjectShape(name, operationId, schema)
  {
    var required := RequiredOf(schema);
    var properties := CollectSchemaFields(operationId, schema.properties.value, required, true);
    shape := Shape(name, properties, required, schema.additionalProperties != Some(false));
  }

  /** The "Process request body" block, with the corrected `bodySchema`. */
  method CollectBody(shapes: Dict<Shape>, operationId: string, op: Operation) returns (r: Dict<Shape>, ref: Option<string>)
    ensures r == WithBody(shapes, operationId, op)
    ensures ref == BodySchemaRef(operationId, op)
  {
    r, ref := shapes, None;
    var body := BodySchema(op);
    if HasProperties(body) {
      var name := operationId + "Body";
      ref := Some(name);
      var shape := CollectObjectShape(name, operationId, body.value);
      r := DictSet(r, name, shape);
    }
  }

  /** The "Process responses" block. */
  method CollectResponse(shapes: Dict<Shape>, operationId: string, op: Operation) returns (r: Dict<Shape>, ref: Option<string>)
    ensures r == WithResponse(shapes, operationId, op)
    ensures ref == ResponseSchemaRef(operationId, op)
  {
    r, ref := shapes, None;
    var response := ResponseSchema(op);
    if HasProperties(response) {
      var name := operationId + "Response";
      ref := Some(name);
      var shape := CollectObjectShape(name, operationId, response.value);
      r := DictSet(r, name, shape);
    }
  }

  /** The two "Process array items" blocks: the request body's, then the response's. */
  method CollectArrayItems(shapes: Dict<Shape>, operationId: string, op: Operation) returns (r: Dict<Shape>)
    ensures r == WithResponseItems(WithBodyItems(shapes, operationId, op), operationId, op)
  {
    r := shapes;
    var body := BodySchema(op);
    if body.Some? && IsSchemaObject(body.value) && body.value.ty == Some("array") && body.value.items.Some? {
      var name := operationId + "ArrayItem";
      var items := body.value.items.value;
      var properties := EmptyDict();
      if IsSchemaObject(items) && items.properties.Some? {
        properties := CollectSchemaFields(operationId, items.properties.value, RequiredOf(items), false);
      }
      r := DictSet(r, name, Shape(name, properties, [], false));
    }
    var response := ResponseSchema(op);
    if HasProperties(response) {
      r := CollectResponseItems(r, operationId, response.value.properties.value);
    }
  }

  /** The body of `methods.forEach`: one operation of one path item. */
  method CollectOperation(c: Collected, template: string, verb: string, op: Operation) returns (r: Collected)
    ensures r == AddOperation(c, template, verb, op)
  {
    if op.operationId.None? || op.operationId.value == [] {
      return c;
    }
    var id := op.operationId.value;
    var pathParams, pathRef := CollectParameters(c.pathParams, id, op, "path");
    var queryParams, queryRef := CollectParameters(c.queryParams, id, op, "query");
    var bodySchemas, bodyRef := CollectBody(c.bodySchemas, id, op);
    var responseSchemas, responseRef := CollectResponse(c.responseSchemas, id, op);
    var arrayItemSchemas := CollectArrayItems(c.arrayItemSchemas, id, op);
    var entry := OperationData(id, verb, ToExpress(template), pathRef, queryRef, bodyRef, responseRef);
    r := Collected(c.operations + [entry], pathParams, queryParams, bodySchemas, responseSchemas, arrayItemSchemas);
  }

  /** `buildTemplateData`: every path, every HTTP method in order. */
  method BuildTemplateData(spec: Document) returns (t: TemplateData)
    ensures t == TemplateDataOf(spec)
  {
    var c := EmptyCollected();
    for i := 0 to |spec.paths.keys|
      invariant c == CollectPaths(spec, i)
    {
      var template := spec.paths.keys[i];
      var pathItem := spec.paths.at[template];
      if pathItem.Some? {
        ghost var start := c;
        for m := 0 to |HttpMethods|
          invariant c == CollectMethods(start, template, pathItem.value, m)
        {
          var verb := HttpMethods[m];
          if verb in pathItem.value.operations {
            c := CollectOperation(c, template, verb, pathItem.value.operations[verb]);
          }
        }
      }
    }
    t := Assemble(spec, c);
  }

  /** The generator once its document is loaded; the document is read and parsed by the caller. */
  class OpenAPIGenerator {
    const spec: Document
    const templateData: TemplateData

    /** `templateData` is what `buildTemplateData` makes of `spec`. */
    ghost predicate Valid() {
      templateData == TemplateDataOf(spec)
    }

    constructor(spec: Document)
      ensures this.spec == spec && Valid()
    {
      this.spec := spec;
      var t := BuildTemplateData(spec);
      this.templateData := t;
    }

    /** `getSpecInfo`: the title and version the template data carries, with their defaults. */
    function GetSpecInfo(): (r: string)
      requires Valid()
      ensures r == templateData.specTitle + " v" + templateData.specVersion
      ensures spec.info.None? ==> r == "Unknown API v1.0.0"
    {
      TitleOf(spec) + " v" + VersionOf(spec)
    }

    /** `getOperationCount` */
    function GetOperationCount(): (n: nat)
      requires Valid()
      ensures n == |OperationListing(spec, |spec.paths.keys|)|
    {
      OperationsListed(spec);
      |templateData.operations|
    }
  }
}
