/**
 * The part of an OpenAPI 3 document that the parser and the generator read.
 *
 * JSON objects whose key order matters are `Dict`s: the keys in the order
 * `Object.keys` yields them, and the value at each key. The same type models
 * the JavaScript `Map`s the generator fills.
 */
module OpenApi {
  import opened JsValues

  datatype RawDict<T> = RawDict(keys: seq<string>, at: map<string, T>)

  /** Keys are distinct and are exactly the keys of the map. */
  ghost predicate DictOk<T>(d: RawDict<T>) {
    && (forall i, j :: 0 <= i < j < |d.keys| ==> d.keys[i] != d.keys[j])
    && (forall k :: k in d.at <==> k in d.keys)
  }

  /** An insertion-ordered dictionary: a JSON object or a JavaScript `Map`. */
  type Dict<T> = d: RawDict<T> | DictOk(d) witness RawDict([], map[])

  function EmptyDict<T>(): (d: Dict<T>)
    ensures d.keys == [] && d.at == map[]
  {
    RawDict([], map[])
  }

  /** `map.set(k, v)`: a new key goes last, an existing key keeps its place. */
  function DictSet<T>(d: Dict<T>, k: string, v: T): (r: Dict<T>)
    ensures r.at == d.at[k := v]
    ensures r.keys == if k in d.at then d.keys else d.keys + [k]
  {
    var r := RawDict(if k in d.at then d.keys else d.keys + [k], d.at[k := v]);
    assert forall x :: x in r.at <==> x in r.keys;
    r
  }

  /** `Array.from(map.values())` */
  function DictValues<T>(d: Dict<T>): (vs: seq<T>)
    ensures |vs| == |d.keys|
    ensures forall i :: 0 <= i < |d.keys| ==> vs[i] == d.at[d.keys[i]]
  {
    seq(|d.keys|, i requires 0 <= i < |d.keys| => d.at[d.keys[i]])
  }

  /**
   * A schema object. `ty` is None when the object has no `type` key (a `$ref`
   * or an untyped schema); `additionalProperties` is None when it is absent or
   * a schema rather than a boolean.
   */
  datatype Schema = Schema(
    ty: Option<string>,
    format: Option<string>,
    enumValues: Option<seq<string>>,
    items: Option<Schema>,
    properties: Option<Dict<Schema>>,
    required: Option<seq<string>>,
    additionalProperties: Option<bool>,
    description: Option<string>)

  /** `isSchemaObject`: an object that carries a `type` key. */
  predicate IsSchemaObject(s: Schema) {
    s.ty.Some?
  }

  /** A parameter object (it has an `in` key) or a `$ref` to one. */
  datatype Parameter =
    | ParamRef(ref: string)
    | ParamObj(name: string, location: string, required: Option<bool>, schema: Option<Schema>, description: Option<string>)

  /** `isParameterObject` */
  predicate IsParameterObject(p: Parameter) {
    p.ParamObj?
  }

  datatype MediaType = MediaType(schema: Option<Schema>)

  /** A request body or a response; `content` is None when the object has no `content` key. */
  datatype Body = Body(content: Option<map<string, MediaType>>)

  /** `operationId` is None when the key is absent. */
  datatype Operation = Operation(
    operationId: Option<string>,
    parameters: Option<seq<Parameter>>,
    requestBody: Option<Body>,
    responses: Option<map<string, Body>>)

  /** Path-level parameters and the operations, keyed by the lower-case HTTP verb. */
  datatype PathItem = PathItem(parameters: Option<seq<Parameter>>, operations: map<string, Operation>)

  datatype Info = Info(title: Option<string>, version: Option<string>)

  /** The document; a path template mapped to None stands for a JSON `null` path item. */
  datatype Document = Document(info: Option<Info>, paths: Dict<Option<PathItem>>)
}
