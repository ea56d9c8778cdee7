/**
 * The `OpenAPIParser` class: it holds a document and options fixed at
 * construction and turns the raw path and query parameters of a request
 * into typed values.
 *
 * Each method is proved equal to a specification function below; the
 * lemmas state what those functions promise.
 */
module ParameterParser {
  import opened JsValues
  import opened OpenApi
  import opened Coercion
  import opened PathMatching

  // ---------------------------------------------------------------- path parameters

  /** The value `parsePathParams` stores for one entry: coerced when a path-level parameter with a schema declares it, raw otherwise. */
  function PathParamValue(item: PathItem, name: string, raw: JsVal, opts: Options, validDate: string -> bool): Coerced {
    var param := FindPathParameter(item, name);
    if param.Some? && param.value.ParamObj? && param.value.schema.Some? then
      ParseValue(raw, param.value.schema.value, opts, validDate)
    else Ok(raw)
  }

  /** What `parsePathParams` computes for each key, in the order of the keys. */
  function PathOutcomes(item: PathItem, params: Dict<JsVal>, opts: Options, validDate: string -> bool): (outs: seq<Coerced>)
    ensures |outs| == |params.keys|
    ensures forall i :: 0 <= i < |outs| ==>
      outs[i] == PathParamValue(item, params.keys[i], params.at[params.keys[i]], opts, validDate)
  {
    seq(|params.keys|, i requires 0 <= i < |params.keys| =>
      PathParamValue(item, params.keys[i], params.at[params.keys[i]], opts, validDate))
  }

  /**
   * A loop that stores, key by key, the outcome computed for that key and
   * stops at the first throw: the loop of `parsePathParams` after the first
   * `n` keys, given each key's outcome.
   */
  function Entries(params: Dict<JsVal>, outs: seq<Coerced>, n: nat): (r: Result<Dict<JsVal>>)
    requires n <= |params.keys| == |outs|
    ensures r.Ok? ==> r.value.keys == params.keys[..n]
  {
    if n == 0 then Ok(EmptyDict())
    else
      match Entries(params, outs, n - 1)
      case Err(e) => Err(e)
      case Ok(d) =>
        var k := params.keys[n - 1];
        assert k !in d.keys by {
          assert forall j :: 0 <= j < n - 1 ==> params.keys[j] != k;
        }
        assert params.keys[..n] == params.keys[..n - 1] + [k];
        match outs[n - 1]
        case Err(e) => Err(e)
        case Ok(v) => Ok(DictSet(d, k, v))
  }

  /** The result of the loop of `parsePathParams` after the first `n` entries. */
  function PathEntries(item: PathItem, params: Dict<JsVal>, n: nat, opts: Options, validDate: string -> bool): (r: Result<Dict<JsVal>>)
    requires n <= |params.keys|
    ensures r.Ok? ==> r.value.keys == params.keys[..n]
  {
    Entries(params, PathOutcomes(item, params, opts, validDate), n)
  }

  /** One more entry of the loop of `parsePathParams`. */
  lemma PathEntriesStep(item: PathItem, params: Dict<JsVal>, n: nat, opts: Options, validDate: string -> bool)
    requires n < |params.keys|
    ensures PathEntries(item, params, n + 1, opts, validDate) ==
      match PathEntries(item, params, n, opts, validDate)
      case Err(e) => Err(e)
      case Ok(d) =>
        match PathParamValue(item, params.keys[n], params.at[params.keys[n]], opts, validDate)
        case Err(e) => Err(e)
        case Ok(v) => Ok(DictSet(d, params.keys[n], v))
  {
    var outs := PathOutcomes(item, params, opts, validDate);
    assert outs[n] == PathParamValue(item, params.keys[n], params.at[params.keys[n]], opts, validDate);
  }

  /** A throw ends the loop: later keys do not change the outcome. */
  lemma {:induction false} EntriesErrorSticks(params: Dict<JsVal>, outs: seq<Coerced>, n: nat, m: nat)
    requires n <= m <= |params.keys| == |outs|
    requires Entries(params, outs, n).Err?
    ensures Entries(params, outs, m) == Entries(params, outs, n)
    decreases m
  {
    if m > n {
      EntriesErrorSticks(params, outs, n, m - 1);
    }
  }

  /** A throw ends the loop of `parsePathParams`: later entries do not change the outcome. */
  lemma PathEntriesErrorSticks(item: PathItem, params: Dict<JsVal>, n: nat, m: nat, opts: Options, validDate: string -> bool)
    requires n <= m <= |params.keys|
    requires PathEntries(item, params, n, opts, validDate).Err?
    ensures PathEntries(item, params, m, opts, validDate) == PathEntries(item, params, n, opts, validDate)
  {
    EntriesErrorSticks(params, PathOutcomes(item, params, opts, validDate), n, m);
  }

  /** `parsePathParams` */
  function PathParams(spec: Document, opts: Options, validDate: string -> bool, path: string, params: Dict<JsVal>): Result<Dict<JsVal>> {
    match PathItemFor(spec, path)
    case None => Ok(params)
    case Some(item) => PathEntries(item, params, |params.keys|, opts, validDate)
  }

  /** The loop gets through the first `n` keys exactly when none of their outcomes is a throw. */
  lemma {:induction false} EntriesOk(params: Dict<JsVal>, outs: seq<Coerced>, n: nat)
    requires n <= |params.keys| == |outs|
    ensures Entries(params, outs, n).Ok? <==> forall i :: 0 <= i < n ==> outs[i].Ok?
  {
    if n > 0 {
      EntriesOk(params, outs, n - 1);
      EntriesStep(params, outs, n - 1);
      if Entries(params, outs, n - 1).Err? {
        var i :| 0 <= i < n - 1 && !outs[i].Ok?;
        assert !outs[i].Ok?;
      } else if outs[n - 1].Err? {
        assert !outs[n - 1].Ok?;
      } else {
        assert forall i :: 0 <= i < n - 1 ==> outs[i].Ok?;
      }
    }
  }

  /** One more key of the loop: the previous throw, this key's throw, or one more entry. */
  lemma EntriesStep(params: Dict<JsVal>, outs: seq<Coerced>, n: nat)
    requires n < |params.keys| == |outs|
    ensures Entries(params, outs, n + 1).Ok? <==> Entries(params, outs, n).Ok? && outs[n].Ok?
    ensures Entries(params, outs, n).Err? ==> Entries(params, outs, n + 1) == Entries(params, outs, n)
    ensures Entries(params, outs, n).Ok? && outs[n].Err? ==> Entries(params, outs, n + 1) == Err(outs[n].error)
    ensures Entries(params, outs, n).Ok? && outs[n].Ok? ==>
      Entries(params, outs, n + 1) == Ok(DictSet(Entries(params, outs, n).value, params.keys[n], outs[n].value))
  {
  }

  /** Each of the first `n` keys holds its outcome's value. */
  lemma {:induction false} EntriesValues(params: Dict<JsVal>, outs: seq<Coerced>, n: nat)
    requires n <= |params.keys| == |outs|
    requires Entries(params, outs, n).Ok?
    ensures var d := Entries(params, outs, n).value;
      forall i :: 0 <= i < n ==> params.keys[i] in d.at && outs[i].Ok? && d.at[params.keys[i]] == outs[i].value
  {
    if n > 0 {
      var k := params.keys[n - 1];
      var prev := Entries(params, outs, n - 1);
      assert prev.Ok? && outs[n - 1].Ok?;
      EntriesValues(params, outs, n - 1);
      var cur := Entries(params, outs, n).value;
      assert cur == DictSet(prev.value, k, outs[n - 1].value);
      forall i | 0 <= i < n
        ensures params.keys[i] in cur.at && outs[i].Ok? && cur.at[params.keys[i]] == outs[i].value
      {
        if i < n - 1 {
          assert params.keys[i] != k;
        }
      }
    }
  }

  /** A throw in the first `n` keys is the outcome of the first of them that throws. */
  lemma {:induction false} EntriesError(params: Dict<JsVal>, outs: seq<Coerced>, n: nat)
    requires n <= |params.keys| == |outs|
    requires Entries(params, outs, n).Err?
    ensures exists i :: (0 <= i < n && outs[i] == Err(Entries(params, outs, n).error) &&
      forall j :: 0 <= j < i ==> outs[j].Ok?)
  {
    assert n > 0;
    var e := Entries(params, outs, n).error;
    EntriesStep(params, outs, n - 1);
    if Entries(params, outs, n - 1).Err? {
      EntriesError(params, outs, n - 1);
      var i :| 0 <= i < n - 1 && outs[i] == Err(Entries(params, outs, n - 1).error) &&
        forall j :: 0 <= j < i ==> outs[j].Ok?;
      assert outs[i] == Err(e);
    } else {
      EntriesOk(params, outs, n - 1);
      assert outs[n - 1] == Err(e);
      assert forall j :: 0 <= j < n - 1 ==> outs[j].Ok?;
    }
  }

  /** Entry by entry: the first `n` entries are each coerced, or the first that fails is reported. */
  lemma PathEntriesMeaning(item: PathItem, params: Dict<JsVal>, n: nat, opts: Options, validDate: string -> bool)
    requires n <= |params.keys|
    ensures PathEntries(item, params, n, opts, validDate).Ok? <==>
      forall i :: 0 <= i < n ==> PathParamValue(item, params.keys[i], params.at[params.keys[i]], opts, validDate).Ok?
    ensures var r := PathEntries(item, params, n, opts, validDate);
      r.Ok? ==> forall i :: 0 <= i < n ==> (
        var v := PathParamValue(item, params.keys[i], params.at[params.keys[i]], opts, validDate);
        params.keys[i] in r.value.at && v.Ok? && r.value.at[params.keys[i]] == v.value)
    ensures var r := PathEntries(item, params, n, opts, validDate);
      r.Err? ==> exists i :: (0 <= i < n &&
        PathParamValue(item, params.keys[i], params.at[params.keys[i]], opts, validDate) == Err(r.error) &&
        forall j :: 0 <= j < i ==> PathParamValue(item, params.keys[j], params.at[params.keys[j]], opts, validDate).Ok?)
  {
    var outs := PathOutcomes(item, params, opts, validDate);
    EntriesOk(params, outs, n);
    if Entries(params, outs, n).Ok? {
      EntriesValues(params, outs, n);
    } else {
      EntriesError(params, outs, n);
      var i :| 0 <= i < n && outs[i] == Err(Entries(params, outs, n).error) && forall j :: 0 <= j < i ==> outs[j].Ok?;
      assert PathParamValue(item, params.keys[i], params.at[params.keys[i]], opts, validDate) == outs[i];
    }
  }

  /** The whole loop of `parsePathParams`, when nothing throws: same keys in the same order, each with its value. */
  lemma PathEntriesKeep(item: PathItem, params: Dict<JsVal>, opts: Options, validDate: string -> bool)
    requires PathEntries(item, params, |params.keys|, opts, validDate).Ok?
    ensures var d := PathEntries(item, params, |params.keys|, opts, validDate).value;
      d.keys == params.keys &&
      forall k :: k in params.at ==> (k in d.at && PathParamValue(item, k, params.at[k], opts, validDate).Ok? &&
        d.at[k] == PathParamValue(item, k, params.at[k], opts, validDate).value)
  {
    var n := |params.keys|;
    assert params.keys[..n] == params.keys;
    forall k | k in params.at
      ensures var d := PathEntries(item, params, n, opts, validDate).value;
        k in d.at && PathParamValue(item, k, params.at[k], opts, validDate).Ok? &&
        d.at[k] == PathParamValue(item, k, params.at[k], opts, validDate).value
    {
      PathEntryAt(item, params, opts, validDate, k);
    }
  }

  /** When the whole loop of `parsePathParams` gets through, one key holds its value. */
  lemma PathEntryAt(item: PathItem, params: Dict<JsVal>, opts: Options, validDate: string -> bool, k: string)
    requires PathEntries(item, params, |params.keys|, opts, validDate).Ok?
    requires k in params.at
    ensures var d := PathEntries(item, params, |params.keys|, opts, validDate).value;
      k in d.at && PathParamValue(item, k, params.at[k], opts, validDate).Ok? &&
      d.at[k] == PathParamValue(item, k, params.at[k], opts, validDate).value
  {
    var n := |params.keys|;
    var outs := PathOutcomes(item, params, opts, validDate);
    EntriesValues(params, outs, n);
    assert k in params.keys;
    var i :| 0 <= i < n && params.keys[i] == k;
    assert outs[i] == PathParamValue(item, k, params.at[k], opts, validDate);
  }


  /**
   * `parsePathParams`: the input itself when no path item is found;
   * otherwise every key is kept, in order, undeclared keys keep their raw
   * value and declared ones are coerced by their schema, unless a
   * coercion throws, when the first key whose coercion throws is reported.
   */
  lemma PathParamsContract(spec: Document, opts: Options, validDate: string -> bool, path: string, params: Dict<JsVal>)
    ensures PathItemFor(spec, path).None? ==> PathParams(spec, opts, validDate, path, params) == Ok(params)
    ensures var r := PathParams(spec, opts, validDate, path, params);
      PathItemFor(spec, path).Some? && r.Ok? ==> (r.value.keys == params.keys &&
        forall k :: k in params.at ==> (k in r.value.at &&
          PathParamValue(PathItemFor(spec, path).value, k, params.at[k], opts, validDate).Ok? &&
          r.value.at[k] == PathParamValue(PathItemFor(spec, path).value, k, params.at[k], opts, validDate).value))
    ensures var r := PathParams(spec, opts, validDate, path, params);
      PathItemFor(spec, path).Some? && r.Err? ==> exists i :: (0 <= i < |params.keys| &&
        PathParamValue(PathItemFor(spec, path).value, params.keys[i], params.at[params.keys[i]], opts, validDate) == Err(r.error) &&
        forall j :: 0 <= j < i ==>
          PathParamValue(PathItemFor(spec, path).value, params.keys[j], params.at[params.keys[j]], opts, validDate).Ok?)
  {
    var r := PathParams(spec, opts, validDate, path, params);
    if PathItemFor(spec, path).Some? {
      if r.Ok? {
        PathEntriesKeep(PathItemFor(spec, path).value, params, opts, validDate);
      } else {
        PathEntriesMeaning(PathItemFor(spec, path).value, params, |params.keys|, opts, validDate);
      }
    }
  }

  // ---------------------------------------------------------------- query parameters

  /** `pathItem[method.toLowerCase()]` when it is an operation object, i.e. carries an `operationId` key. */
  function OperationFor(item: PathItem, httpMethod: string): (op: Option<Operation>)
    ensures op.Some? ==> (op.value.operationId.Some? && ToLower(httpMethod) in item.operations &&
      item.operations[ToLower(httpMethod)] == op.value)
    ensures op.None? <==> (ToLower(httpMethod) !in item.operations ||
      item.operations[ToLower(httpMethod)].operationId.None?)
  {
    var m := ToLower(httpMethod);
    if m in item.operations && item.operations[m].operationId.Some? then Some(item.operations[m]) else None
  }

  /** Whether `p` gets coerced: an `in: 'query'` parameter object with a schema whose value is present. */
  predicate CoercesQuery(p: Parameter, query: Dict<JsVal>) {
    p.ParamObj? && p.location == "query" && p.schema.Some? && p.name in query.at && query.at[p.name] != Undef
  }

  /** The operation's own parameters; `[]` when it has none. */
  function OwnParameters(op: Operation): seq<Parameter> {
    if op.parameters.Some? then op.parameters.value else []
  }

  /** The first loop of `parseQueryParams` after the first `n` declared parameters. */
  function DeclaredQuery(ps: seq<Parameter>, n: nat, query: Dict<JsVal>, opts: Options, validDate: string -> bool): (r: Result<Dict<JsVal>>)
    requires n <= |ps|
    ensures r.Ok? ==> forall k :: k in r.value.at ==> k in query.at
  {
    if n == 0 then Ok(EmptyDict())
    else
      match DeclaredQuery(ps, n - 1, query, opts, validDate)
      case Err(e) => Err(e)
      case Ok(d) =>
        var p := ps[n - 1];
        if CoercesQuery(p, query) then
          match ParseValue(query.at[p.name], p.schema.value, opts, validDate)
          case Err(e) => Err(e)
          case Ok(v) => Ok(DictSet(d, p.name, v))
        else Ok(d)
  }

  /** A throw ends the declared loop: later parameters do not change the outcome. */
  lemma {:induction false} DeclaredQueryErrorSticks(ps: seq<Parameter>, n: nat, m: nat, query: Dict<JsVal>, opts: Options, validDate: string -> bool)
    requires n <= m <= |ps|
    requires DeclaredQuery(ps, n, query, opts, validDate).Err?
    ensures DeclaredQuery(ps, m, query, opts, validDate) == DeclaredQuery(ps, n, query, opts, validDate)
    decreases m
  {
    if m > n {
      DeclaredQueryErrorSticks(ps, n, m - 1, query, opts, validDate);
    }
  }

  /** The second loop of `parseQueryParams` after the first `n` query keys: copy each key not yet present. */
  function MergeRaw(parsed: Dict<JsVal>, query: Dict<JsVal>, n: nat): (d: Dict<JsVal>)
    requires n <= |query.keys|
    ensures forall k :: k in parsed.at ==> k in d.at && d.at[k] == parsed.at[k]
  {
    if n == 0 then parsed
    else
      var d := MergeRaw(parsed, query, n - 1);
      var k := query.keys[n - 1];
      if k in d.at then d else DictSet(d, k, query.at[k])
  }

  /** `parseQueryParams` once the operation is found: coerce the declared keys, then copy the rest. */
  function QueryForOperation(op: Operation, opts: Options, validDate: string -> bool, query: Dict<JsVal>): Result<Dict<JsVal>> {
    var ps := OwnParameters(op);
    match DeclaredQuery(ps, |ps|, query, opts, validDate)
    case Err(e) => Err(e)
    case Ok(parsed) => Ok(MergeRaw(parsed, query, |query.keys|))
  }

  /** `parseQueryParams` once the path item is found. */
  function QueryForItem(item: PathItem, opts: Options, validDate: string -> bool, httpMethod: string, query: Dict<JsVal>): Result<Dict<JsVal>> {
    match OperationFor(item, httpMethod)
    case None => Ok(query)
    case Some(op) => QueryForOperation(op, opts, validDate, query)
  }

  /** `parseQueryParams` */
  function QueryParams(spec: Document, opts: Options, validDate: string -> bool, path: string, httpMethod: string, query: Dict<JsVal>): Result<Dict<JsVal>> {
    match PathItemFor(spec, path)
    case None => Ok(query)
    case Some(item) => QueryForItem(item, opts, validDate, httpMethod, query)
  }

  /** Whether the last parameter among the first `n` that coerces `k` is at index `i`. */
  predicate LastCoercer(ps: seq<Parameter>, n: nat, query: Dict<JsVal>, k: string, i: int)
    requires n <= |ps|
  {
    0 <= i < n && CoercesQuery(ps[i], query) && ps[i].name == k &&
    forall j :: i < j < n ==> !(CoercesQuery(ps[j], query) && ps[j].name == k)
  }

  /** The declared loop: a key gets the coercion of its last declaration; undeclared keys are absent; the first throw wins. */
  lemma DeclaredQueryMeaning(ps: seq<Parameter>, n: nat, query: Dict<JsVal>, opts: Options, validDate: string -> bool)
    requires n <= |ps|
    ensures var r := DeclaredQuery(ps, n, query, opts, validDate);
      r.Ok? ==> forall k :: k in r.value.at <==> exists i :: 0 <= i < n && CoercesQuery(ps[i], query) && ps[i].name == k
    ensures var r := DeclaredQuery(ps, n, query, opts, validDate);
      r.Ok? ==> forall k, i :: k in r.value.at && LastCoercer(ps, n, query, k, i) ==>
        ParseValue(query.at[k], ps[i].schema.value, opts, validDate).Ok? &&
        r.value.at[k] == ParseValue(query.at[k], ps[i].schema.value, opts, validDate).value
    ensures var r := DeclaredQuery(ps, n, query, opts, validDate);
      r.Err? ==> exists i :: (0 <= i < n && CoercesQuery(ps[i], query) &&
        ParseValue(query.at[ps[i].name], ps[i].schema.value, opts, validDate) == Err(r.error) &&
        forall j :: 0 <= j < i ==> PassesQuery(ps[j], query, opts, validDate))
  {
    if DeclaredQuery(ps, n, query, opts, validDate).Ok? {
      DeclaredQueryKeys(ps, n, query, opts, validDate);
      DeclaredQueryValues(ps, n, query, opts, validDate);
    } else {
      DeclaredQueryError(ps, n, query, opts, validDate);
    }
  }

  /** One more parameter of the declared loop. */
  lemma DeclaredQueryStep(ps: seq<Parameter>, n: nat, query: Dict<JsVal>, opts: Options, validDate: string -> bool)
    requires n < |ps|
    ensures DeclaredQuery(ps, n + 1, query, opts, validDate) ==
      match DeclaredQuery(ps, n, query, opts, validDate)
      case Err(e) => Err(e)
      case Ok(d) =>
        if CoercesQuery(ps[n], query) then
          match ParseValue(query.at[ps[n].name], ps[n].schema.value, opts, validDate)
          case Err(e) => Err(e)
          case Ok(v) => Ok(DictSet(d, ps[n].name, v))
        else Ok(d)
  {
  }

  /** The keys the declared loop sets are exactly the names of the parameters it coerces. */
  lemma {:induction false} DeclaredQueryKeys(ps: seq<Parameter>, n: nat, query: Dict<JsVal>, opts: Options, validDate: string -> bool)
    requires n <= |ps|
    requires DeclaredQuery(ps, n, query, opts, validDate).Ok?
    ensures forall k :: k in DeclaredQuery(ps, n, query, opts, validDate).value.at <==>
      exists i :: 0 <= i < n && CoercesQuery(ps[i], query) && ps[i].name == k
  {
    if n > 0 {
      DeclaredQueryStep(ps, n - 1, query, opts, validDate);
      DeclaredQueryKeys(ps, n - 1, query, opts, validDate);
    }
  }

  /** Each key the declared loop sets holds the coercion of its last declaration. */
  lemma DeclaredQueryValues(ps: seq<Parameter>, n: nat, query: Dict<JsVal>, opts: Options, validDate: string -> bool)
    requires n <= |ps|
    requires DeclaredQuery(ps, n, query, opts, validDate).Ok?
    ensures var r := DeclaredQuery(ps, n, query, opts, validDate);
      forall k, i :: k in r.value.at && LastCoercer(ps, n, query, k, i) ==>
        ParseValue(query.at[k], ps[i].schema.value, opts, validDate).Ok? &&
        r.value.at[k] == ParseValue(query.at[k], ps[i].schema.value, opts, validDate).value
  {
    var r := DeclaredQuery(ps, n, query, opts, validDate);
    forall k, i | k in r.value.at && LastCoercer(ps, n, query, k, i)
      ensures ParseValue(query.at[k], ps[i].schema.value, opts, validDate).Ok? &&
        r.value.at[k] == ParseValue(query.at[k], ps[i].schema.value, opts, validDate).value
    {
      DeclaredQueryValueAt(ps, n, query, opts, validDate, k, i);
    }
  }

  /** The key of the last coercing declaration holds that declaration's coercion. */
  lemma {:induction false} DeclaredQueryValueAt(ps: seq<Parameter>, n: nat, query: Dict<JsVal>, opts: Options, validDate: string -> bool,
                                                k: string, i: int)
    requires n <= |ps|
    requires DeclaredQuery(ps, n, query, opts, validDate).Ok?
    requires LastCoercer(ps, n, query, k, i)
    ensures var r := DeclaredQuery(ps, n, query, opts, validDate);
      k in r.value.at && ParseValue(query.at[k], ps[i].schema.value, opts, validDate).Ok? &&
      r.value.at[k] == ParseValue(query.at[k], ps[i].schema.value, opts, validDate).value
    decreases n
  {
    DeclaredQueryStep(ps, n - 1, query, opts, validDate);
    assert DeclaredQuery(ps, n - 1, query, opts, validDate).Ok?;
    if i < n - 1 {
      assert LastCoercer(ps, n - 1, query, k, i);
      DeclaredQueryValueAt(ps, n - 1, query, opts, validDate, k, i);
      assert !(CoercesQuery(ps[n - 1], query) && ps[n - 1].name == k);
    }
  }

  /** Whether the declared loop gets past `p`: it is not coerced, or its coercion does not throw. */
  predicate PassesQuery(p: Parameter, query: Dict<JsVal>, opts: Options, validDate: string -> bool) {
    CoercesQuery(p, query) ==> ParseValue(query.at[p.name], p.schema.value, opts, validDate).Ok?
  }

  /** When the declared loop gets through the first `n` parameters, it got past each of them. */
  lemma {:induction false} DeclaredQueryPasses(ps: seq<Parameter>, n: nat, query: Dict<JsVal>, opts: Options, validDate: string -> bool)
    requires n <= |ps|
    requires DeclaredQuery(ps, n, query, opts, validDate).Ok?
    ensures forall j :: 0 <= j < n ==> PassesQuery(ps[j], query, opts, validDate)
  {
    if n > 0 {
      DeclaredQueryStep(ps, n - 1, query, opts, validDate);
      DeclaredQueryPasses(ps, n - 1, query, opts, validDate);
      assert PassesQuery(ps[n - 1], query, opts, validDate);
    }
  }

  /** A throw of the declared loop is the throw of the first parameter it coerces whose coercion throws. */
  lemma {:induction false} DeclaredQueryError(ps: seq<Parameter>, n: nat, query: Dict<JsVal>, opts: Options, validDate: string -> bool)
    requires n <= |ps|
    requires DeclaredQuery(ps, n, query, opts, validDate).Err?
    ensures exists i :: (0 <= i < n && CoercesQuery(ps[i], query) &&
      ParseValue(query.at[ps[i].name], ps[i].schema.value, opts, validDate) == Err(DeclaredQuery(ps, n, query, opts, validDate).error) &&
      forall j :: 0 <= j < i ==> PassesQuery(ps[j], query, opts, validDate))
  {
    assert n > 0;
    DeclaredQueryStep(ps, n - 1, query, opts, validDate);
    if DeclaredQuery(ps, n - 1, query, opts, validDate).Err? {
      DeclaredQueryError(ps, n - 1, query, opts, validDate);
    } else {
      DeclaredQueryPasses(ps, n - 1, query, opts, validDate);
      var p := ps[n - 1];
      assert CoercesQuery(p, query);
      assert ParseValue(query.at[p.name], p.schema.value, opts, validDate) == Err(DeclaredQuery(ps, n, query, opts, validDate).error);
    }
  }

  /** The merge loop keeps what it was given and adds every query key, each missing one with its raw value. */
  lemma MergeRawMeaning(parsed: Dict<JsVal>, query: Dict<JsVal>, n: nat)
    requires n <= |query.keys|
    ensures forall k :: k in MergeRaw(parsed, query, n).at <==> k in parsed.at || k in query.keys[..n]
    ensures forall k :: k in query.keys[..n] && k !in parsed.at ==> MergeRaw(parsed, query, n).at[k] == query.at[k]
  {
    MergeRawKeys(parsed, query, n);
    MergeRawValues(parsed, query, n);
  }

  /** The merge loop's keys: those it was given and the first `n` query keys. */
  lemma {:induction false} MergeRawKeys(parsed: Dict<JsVal>, query: Dict<JsVal>, n: nat)
    requires n <= |query.keys|
    ensures forall k :: k in MergeRaw(parsed, query, n).at <==> k in parsed.at || k in query.keys[..n]
  {
    if n > 0 {
      MergeRawKeys(parsed, query, n - 1);
      assert query.keys[..n] == query.keys[..n - 1] + [query.keys[n - 1]];
    }
  }

  /** A query key the merge loop adds carries its raw value. */
  lemma {:induction false} MergeRawValues(parsed: Dict<JsVal>, query: Dict<JsVal>, n: nat)
    requires n <= |query.keys|
    ensures var d := MergeRaw(parsed, query, n);
      forall k :: k in query.keys[..n] && k !in parsed.at ==> k in d.at && d.at[k] == query.at[k]
  {
    if n > 0 {
      MergeRawKeys(parsed, query, n - 1);
      MergeRawValues(parsed, query, n - 1);
      assert query.keys[..n] == query.keys[..n - 1] + [query.keys[n - 1]];
    }
  }

  /**
   * The two loops of `parseQueryParams`: the same key set as the query,
   * each undeclared key with its raw value and each declared key with the
   * coercion of its last `in: 'query'` declaration among the operation's
   * own parameters, unless a coercion throws, when the first declaration
   * whose coercion throws is reported.
   */
  lemma QueryForOperationContract(op: Operation, opts: Options, validDate: string -> bool, query: Dict<JsVal>)
    ensures var r := QueryForOperation(op, opts, validDate, query);
      r.Ok? ==> forall k :: k in r.value.at <==> k in query.at
    ensures var r := QueryForOperation(op, opts, validDate, query);
      var ps := OwnParameters(op);
      r.Ok? ==> forall k :: k in query.at && (forall i :: 0 <= i < |ps| ==> !(CoercesQuery(ps[i], query) && ps[i].name == k)) ==>
        k in r.value.at && r.value.at[k] == query.at[k]
    ensures var r := QueryForOperation(op, opts, validDate, query);
      var ps := OwnParameters(op);
      r.Ok? ==> forall k, i :: LastCoercer(ps, |ps|, query, k, i) ==>
        k in r.value.at && ParseValue(query.at[k], ps[i].schema.value, opts, validDate).Ok? &&
        r.value.at[k] == ParseValue(query.at[k], ps[i].schema.value, opts, validDate).value
    ensures var r := QueryForOperation(op, opts, validDate, query);
      var ps := OwnParameters(op);
      r.Err? ==> exists i :: (0 <= i < |ps| && CoercesQuery(ps[i], query) &&
        ParseValue(query.at[ps[i].name], ps[i].schema.value, opts, validDate) == Err(r.error) &&
        forall j :: 0 <= j < i ==> PassesQuery(ps[j], query, opts, validDate))
  {
    var ps := OwnParameters(op);
    DeclaredQueryMeaning(ps, |ps|, query, opts, validDate);
    var dq := DeclaredQuery(ps, |ps|, query, opts, validDate);
    if dq.Ok? {
      MergeRawMeaning(dq.value, query, |query.keys|);
      assert query.keys[..|query.keys|] == query.keys;
      var d := MergeRaw(dq.value, query, |query.keys|);
      forall k, i | LastCoercer(ps, |ps|, query, k, i)
        ensures k in d.at && ParseValue(query.at[k], ps[i].schema.value, opts, validDate).Ok? &&
          d.at[k] == ParseValue(query.at[k], ps[i].schema.value, opts, validDate).value
      {
        assert k in dq.value.at;
      }
    }
  }

  /**
   * `parseQueryParams`: the input itself when there is no path item or no
   * operation with an `operationId` for the lower-cased method; otherwise
   * what the two loops over the operation's own parameters give.
   */
  lemma QueryParamsContract(spec: Document, opts: Options, validDate: string -> bool, path: string, httpMethod: string, query: Dict<JsVal>)
    ensures PathItemFor(spec, path).None? ==> QueryParams(spec, opts, validDate, path, httpMethod, query) == Ok(query)
    ensures PathItemFor(spec, path).Some? && OperationFor(PathItemFor(spec, path).value, httpMethod).None? ==>
      QueryParams(spec, opts, validDate, path, httpMethod, query) == Ok(query)
    ensures PathItemFor(spec, path).Some? && OperationFor(PathItemFor(spec, path).value, httpMethod).Some? ==>
      QueryParams(spec, opts, validDate, path, httpMethod, query) ==
        QueryForOperation(OperationFor(PathItemFor(spec, path).value, httpMethod).value, opts, validDate, query)
    ensures var r := QueryParams(spec, opts, validDate, path, httpMethod, query);
      r.Ok? ==> forall k :: k in r.value.at <==> k in query.at
  {
    if PathItemFor(spec, path).Some? && OperationFor(PathItemFor(spec, path).value, httpMethod).Some? {
      QueryForOperationContract(OperationFor(PathItemFor(spec, path).value, httpMethod).value, opts, validDate, query);
    }
  }

  /** Path-level parameters, even `in: 'query'` ones, never affect query coercion. */
  lemma QueryIgnoresPathLevelParameters(item: PathItem, pathLevel: Option<seq<Parameter>>, opts: Options, validDate: string -> bool, httpMethod: string, query: Dict<JsVal>)
    ensures QueryForItem(item.(parameters := pathLevel), opts, validDate, httpMethod, query) ==
      QueryForItem(item, opts, validDate, httpMethod, query)
  {
    assert OperationFor(item.(parameters := pathLevel), httpMethod) == OperationFor(item, httpMethod);
  }

  // ---------------------------------------------------------------- the parser object

  class OpenAPIParser {
    const spec: Document
    const options: Options
    /** Whether `new Date(s)` is a valid date; a parameter of the model. */
    const validDate: string -> bool

    /** `new OpenAPIParser(spec, options)`: the defaults, overridden by what the caller gives. */
    constructor(spec: Document, given: UserOptions, validDate: string -> bool)
      ensures this.spec == spec && this.options == ResolveOptions(given) && this.validDate == validDate
    {
      this.spec := spec;
      this.options := ResolveOptions(given);
      this.validDate := validDate;
    }

    /** `findPathItem`: the exact lookup, then the scan over the document's paths. */
    method FindPathItem(path: string) returns (item: Option<PathItem>)
      ensures item == PathItemFor(spec, path)
    {
      var openApiPath := ToOpenAPI(path);
      if openApiPath in spec.paths.at && spec.paths.at[openApiPath].Some? {
        return spec.paths.at[openApiPath];
      }
      var keys := spec.paths.keys;
      for i := 0 to |keys|
        invariant forall j :: 0 <= j < i ==> keys[j] != openApiPath
      {
        PathsMatchOnlyItself(path, keys[i]);
        if PathsMatch(openApiPath, keys[i]) {
          return spec.paths.at[keys[i]];
        }
      }
      return None;
    }

    /** `parsePathParams` */
    method ParsePathParams(path: string, params: Dict<JsVal>) returns (r: Result<Dict<JsVal>>)
      ensures r == PathParams(spec, options, validDate, path, params)
    {
      var item := FindPathItem(path);
      if item.None? {
        return Ok(params);
      }
      var parsed: Dict<JsVal> := EmptyDict();
      for i := 0 to |params.keys|
        invariant PathEntries(item.value, params, i, options, validDate) == Ok(parsed)
      {
        var name := params.keys[i];
        var value := params.at[name];
        var param := FindPathParameter(item.value, name);
        if param.Some? && param.value.ParamObj? && param.value.schema.Some? {
          var coerced := ParseValue(value, param.value.schema.value, options, validDate);
          assert PathParamValue(item.value, name, value, options, validDate) == coerced;
          if coerced.Err? {
            PathEntriesStep(item.value, params, i, options, validDate);
            PathEntriesErrorSticks(item.value, params, i + 1, |params.keys|, options, validDate);
            return Err(coerced.error);
          }
          PathEntriesStep(item.value, params, i, options, validDate);
          parsed := DictSet(parsed, name, coerced.value);
        } else {
          assert PathParamValue(item.value, name, value, options, validDate) == Ok(value);
          PathEntriesStep(item.value, params, i, options, validDate);
          parsed := DictSet(parsed, name, value);
        }
      }
      assert params.keys[..|params.keys|] == params.keys;
      return Ok(parsed);
    }

    /** `parseQueryParams` */
    method ParseQueryParams(path: string, httpMethod: string, query: Dict<JsVal>) returns (r: Result<Dict<JsVal>>)
      ensures r == QueryParams(spec, options, validDate, path, httpMethod, query)
    {
      var item := FindPathItem(path);
      if item.None? {
        return Ok(query);
      }
      var operation := OperationFor(item.value, httpMethod);
      if operation.None? {
        return Ok(query);
      }
      var ps := OwnParameters(operation.value);
      var parsed: Dict<JsVal> := EmptyDict();
      for i := 0 to |ps|
        invariant DeclaredQuery(ps, i, query, options, validDate) == Ok(parsed)
      {
        var param := ps[i];
        if CoercesQuery(param, query) {
          var coerced := ParseValue(query.at[param.name], param.schema.value, options, validDate);
          if coerced.Err? {
            DeclaredQueryErrorSticks(ps, i + 1, |ps|, query, options, validDate);
            return Err(coerced.error);
          }
          parsed := DictSet(parsed, param.name, coerced.value);
        }
      }
      var declared := parsed;
      for i := 0 to |query.keys|
        invariant parsed == MergeRaw(declared, query, i)
      {
        var name := query.keys[i];
        if name !in parsed.at {
          parsed := DictSet(parsed, name, query.at[name]);
        }
      }
      return Ok(parsed);
    }

    /** `extractPathParams`: the captures of a whole-URL match bound to the route's names; the empty map on a mismatch. */
    method ExtractPathParams(route: string, url: string) returns (params: Dict<JsVal>)
      ensures Match(RouteParts(route), url).None? ==> params == EmptyDict()
      ensures Match(RouteParts(route), url).Some? ==> params == Bind(ParamNames(route), Match(RouteParts(route), url).value)
    {
      params := EmptyDict();
      var captures := Match(RouteParts(route), url);
      if captures.Some? {
        var names := ParamNames(route);
        var caps := captures.value;
        for i := 0 to |names|
          invariant params == Bind(names[..i], caps[..i])
        {
          BindStep(names, caps, i);
          params := DictSet(params, names[i], Str(caps[i]));
        }
        assert names[..|names|] == names;
        assert caps[..|caps|] == caps;
      }
    }
  }

  // ---------------------------------------------------------------- an inherited-key defect

  /** Keys every plain JavaScript object answers `in` for, through `Object.prototype`. */
  const InheritedNames: set<string> := {
    "constructor", "hasOwnProperty", "isPrototypeOf", "propertyIsEnumerable", "toLocaleString",
    "toString", "valueOf", "__proto__", "__defineGetter__", "__defineSetter__",
    "__lookupGetter__", "__lookupSetter__"}

  /** The merge loop as written: `name in parsed` also holds for inherited names. */
  function MergeRawAsWritten(parsed: Dict<JsVal>, query: Dict<JsVal>, n: nat): (d: Dict<JsVal>)
    requires n <= |query.keys|
    ensures forall k :: k in d.at ==> k in parsed.at || k in query.at
  {
    if n == 0 then parsed
    else
      var d := MergeRawAsWritten(parsed, query, n - 1);
      var k := query.keys[n - 1];
      if k in d.at || k in InheritedNames then d else DictSet(d, k, query.at[k])
  }

  /** `?constructor=x` against an operation without parameters: as written the key is lost; merging own keys keeps it. */
  lemma InheritedQueryKeyDropped()
    ensures var query := DictSet(EmptyDict(), "constructor", Str("x"));
      "constructor" in query.at &&
      "constructor" !in MergeRawAsWritten(EmptyDict(), query, 1).at &&
      MergeRaw(EmptyDict(), query, 1).at == query.at
  {
    var query := DictSet(EmptyDict(), "constructor", Str("x"));
    assert query.keys == ["constructor"];
  }
}
