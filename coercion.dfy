/**
 * The schema type coercer of `OpenAPIParser`: `parseValue` and the
 * per-type parsers it dispatches to. A thrown `Error` is an `Err` result.
 */
module Coercion {
  import opened JsValues
  import opened OpenApi

  /** The errors the coercer throws; each carries the offending raw value. */
  datatype CoercionError =
    | InvalidInteger(raw: JsVal)
    | InvalidNumber(raw: JsVal)
    | InvalidBoolean(raw: JsVal)
    | InvalidDateTime(raw: JsVal)
    | InvalidDate(raw: JsVal)
    | InvalidUUID(raw: JsVal)

  /** A value, or the error thrown while computing it. */
  datatype Result<+T> = Ok(value: T) | Err(error: CoercionError)

  type Coerced = Result<JsVal>

  /** The message of the thrown `Error`, with the raw value interpolated. */
  function Message(e: CoercionError): string {
    match e
    case InvalidInteger(v) => "Invalid integer: " + ToJsString(v)
    case InvalidNumber(v) => "Invalid number: " + ToJsString(v)
    case InvalidBoolean(v) => "Invalid boolean: " + ToJsString(v)
    case InvalidDateTime(v) => "Invalid date-time: " + ToJsString(v)
    case InvalidDate(v) => "Invalid date: " + ToJsString(v)
    case InvalidUUID(v) => "Invalid UUID: " + ToJsString(v)
  }

  /** The parser's options once defaults are applied; only the truthiness of each flag matters. */
  datatype Options = Options(coerceTypes: bool, strictNumbers: bool, strictBooleans: bool)

  /** The options object a caller passes; None for a key that is absent. */
  datatype UserOptions = UserOptions(coerceTypes: Option<JsVal>, strictNumbers: Option<JsVal>, strictBooleans: Option<JsVal>)

  function Flag(given: Option<JsVal>, default: bool): bool {
    match given
    case None => default
    case Some(v) => Truthy(v)
  }

  /** `{coerceTypes: true, strictNumbers: false, strictBooleans: false, ...options}` */
  function ResolveOptions(u: UserOptions): (o: Options)
    ensures u.coerceTypes.None? ==> o.coerceTypes
    ensures u.strictNumbers.None? ==> !o.strictNumbers
    ensures u.strictBooleans.None? ==> !o.strictBooleans
    ensures u.strictNumbers.Some? ==> (o.strictNumbers <==> Truthy(u.strictNumbers.value))
    ensures u.strictBooleans.Some? ==> (o.strictBooleans <==> Truthy(u.strictBooleans.value))
  {
    Options(Flag(u.coerceTypes, true), Flag(u.strictNumbers, false), Flag(u.strictBooleans, false))
  }

  /** `null`, `undefined` or the empty string: what the numeric and boolean parsers map to null. */
  predicate Blank(v: JsVal) {
    v.Null? || v.Undef? || v == Str("")
  }

  // ---------------------------------------------------------------- numbers

  /** `parseInteger` */
  function ParseInteger(v: JsVal, opts: Options): (r: Coerced)
    ensures Blank(v) ==> r == Ok(Null)
    ensures r.Err? <==> !Blank(v) && opts.strictNumbers && !IsInteger(ToNumber(v))
    ensures r.Err? ==> r.error == InvalidInteger(v)
    ensures r.Ok? ==> r.value == Null || (r.value == Num(ToNumber(v)) && IsInteger(r.value.n))
    ensures r.Ok? && !Blank(v) && IsInteger(ToNumber(v)) ==> r.value == Num(ToNumber(v))
  {
    if Blank(v) then Ok(Null)
    else
      var num := ToNumber(v);
      if opts.strictNumbers && !IsInteger(num) then Err(InvalidInteger(v))
      else Ok(if IsInteger(num) then Num(num) else Null)
  }

  /** `parseNumber` */
  function ParseNumber(v: JsVal, opts: Options): (r: Coerced)
    ensures Blank(v) ==> r == Ok(Null)
    ensures r.Err? <==> !Blank(v) && opts.strictNumbers && !IsFinite(ToNumber(v))
    ensures r.Err? ==> r.error == InvalidNumber(v)
    ensures r.Ok? ==> r.value == Null || (r.value == Num(ToNumber(v)) && IsFinite(r.value.n))
    ensures r.Ok? && !Blank(v) && IsFinite(ToNumber(v)) ==> r.value == Num(ToNumber(v))
  {
    if Blank(v) then Ok(Null)
    else
      var num := ToNumber(v);
      if opts.strictNumbers && !IsFinite(num) then Err(InvalidNumber(v))
      else Ok(if IsFinite(num) then Num(num) else Null)
  }

  /** A decimal integer string is parsed to that integer, in either mode. */
  lemma ParseIntegerOfDecimal(n: int, opts: Options)
    ensures ParseInteger(Str(IntToDecimal(n)), opts) == Ok(Num(Finite(n, 0)))
    ensures ParseNumber(Str(IntToDecimal(n)), opts) == Ok(Num(Finite(n, 0)))
  {
    var v := Str(IntToDecimal(n));
    IntegerStringReadsBack(n);
    assert ToNumber(v) == Finite(n, 0);
    assert !Blank(v) by { assert IntToDecimal(n) != ""; }
    assert IsInteger(Finite(n, 0)) by { assert Pow10(0) == 1; }
  }

  /** A non-numeric string is null when lenient and an error when strict. */
  lemma WordIsNotANumber(opts: Options)
    ensures ToNumber(Str("abc")) == NaN
    ensures ParseInteger(Str("abc"), opts) ==
      if opts.strictNumbers then Err(InvalidInteger(Str("abc"))) else Ok(Null)
    ensures ParseNumber(Str("abc"), opts) ==
      if opts.strictNumbers then Err(InvalidNumber(Str("abc"))) else Ok(Null)
  {
    WordNaN();
    assert ToNumber(Str("abc")) == StringToNumber("abc");
    NotANumber(Str("abc"), opts);
  }

  /** A value that `Number()` reads as NaN is null when lenient and an error when strict. */
  lemma NotANumber(v: JsVal, opts: Options)
    requires !Blank(v) && ToNumber(v) == NaN
    ensures ParseInteger(v, opts) == if opts.strictNumbers then Err(InvalidInteger(v)) else Ok(Null)
    ensures ParseNumber(v, opts) == if opts.strictNumbers then Err(InvalidNumber(v)) else Ok(Null)
  {
  }

  /** "abc" is not a numeric literal. */
  lemma WordNaN()
    ensures StringToNumber("abc") == NaN
  {
    TrimUntouched("abc");
    WordLedLiteral("abc");
    assert StringToNumber("abc") == NumericLiteral(Trim("abc"));
  }

  /** The digits of "12345" read as twelve thousand three hundred and forty-five. */
  lemma DigitsOf12345()
    ensures DigitsValue("12345", 10) == 12345
  {
    assert "12345"[..4] == "1234" && "1234"[..3] == "123" && "123"[..2] == "12" && "12"[..1] == "1";
    assert DigitsValue("1", 10) == 1;
    assert DigitsValue("12", 10) == 12;
    assert DigitsValue("123", 10) == 123;
    assert DigitsValue("1234", 10) == 1234;
  }

  /** "123.45" is read as the unsigned decimal 12345 / 10^2. */
  lemma ReadsFraction()
    ensures ParseUnsignedDecimal("123.45") == Some(Finite(12345, 2))
  {
    var u := "123.45";
    assert DigitRun(".45") == 0;
    assert DigitRun("3.45") == 1 by { assert "3.45"[1..] == ".45"; }
    assert DigitRun("23.45") == 2 by { assert "23.45"[1..] == "3.45"; }
    assert DigitRun(u) == 3 by { assert u[1..] == "23.45"; }
    assert DigitRun("") == 0;
    assert DigitRun("5") == 1 by { assert "5"[1..] == ""; }
    assert DigitRun("45") == 2 by { assert "45"[1..] == "5"; }
    assert u[3..] == ".45" && u[..3] == "123";
    assert ".45"[1..] == "45" && "45"[..2] == "45" && "45"[2..] == "";
    assert FractionPart(".45") == ("45", "");
    assert "123" + "45" == "12345";
    DigitsOf12345();
    assert Pow10(2) == 100;
    assert Normalize(12345, 2) == Finite(12345, 2);
  }

  /** "123.45" is a finite number but not an integer: null or an error as an integer, itself as a number. */
  lemma DecimalFraction(opts: Options)
    ensures ToNumber(Str("123.45")) == Finite(12345, 2)
    ensures ParseInteger(Str("123.45"), opts) ==
      if opts.strictNumbers then Err(InvalidInteger(Str("123.45"))) else Ok(Null)
    ensures ParseNumber(Str("123.45"), opts) == Ok(Num(Finite(12345, 2)))
  {
    FractionNumber();
    var v := Str("123.45");
    var n := Finite(12345, 2);
    assert ToNumber(v) == n;
    assert !IsInteger(n) by {
      assert Pow10(2) == 100;
    }
    assert !Blank(v);
    assert IsFinite(n);
  }

  lemma FractionNumber()
    ensures StringToNumber("123.45") == Finite(12345, 2)
  {
    var t := "123.45";
    TrimUntouched(t);
    ReadsFraction();
    DigitLedLiteral(t);
  }

  // ---------------------------------------------------------------- booleans

  const TrueWords: set<string> := {"true", "1", "yes"}
  const FalseWords: set<string> := {"false", "0", "no"}

  /** `parseBoolean` */
  function ParseBoolean(v: JsVal, opts: Options): (r: Coerced)
    ensures Blank(v) ==> r == Ok(Null)
    ensures opts.strictBooleans ==>
      (r.Err? <==> !Blank(v) && v != Str("true") && v != Str("false"))
    ensures opts.strictBooleans && v == Str("true") ==> r == Ok(Bool(true))
    ensures opts.strictBooleans && v == Str("false") ==> r == Ok(Bool(false))
    ensures r.Err? ==> r.error == InvalidBoolean(v)
    ensures !opts.strictBooleans ==> r.Ok?
    ensures r.Ok? && !Blank(v) ==> r.value.Bool?
  {
    if Blank(v) then Ok(Null)
    else if opts.strictBooleans then
      if v == Str("true") then Ok(Bool(true))
      else if v == Str("false") then Ok(Bool(false))
      else Err(InvalidBoolean(v))
    else if v.Bool? then Ok(v)
    else if v.Str? && ToLower(v.s) in TrueWords then Ok(Bool(true))
    else if v.Str? && ToLower(v.s) in FalseWords then Ok(Bool(false))
    else if v.Num? then Ok(Bool(!IsZero(v.n)))
    else Ok(Bool(Truthy(v)))
  }

  /** Permissive mode: the documented words in any letter case, native booleans, numbers, and the rest. */
  lemma PermissiveBooleans(v: JsVal, opts: Options)
    requires !opts.strictBooleans && !Blank(v)
    ensures v.Str? && ToLower(v.s) in TrueWords ==> ParseBoolean(v, opts) == Ok(Bool(true))
    ensures v.Str? && ToLower(v.s) in FalseWords ==> ParseBoolean(v, opts) == Ok(Bool(false))
    ensures v.Bool? ==> ParseBoolean(v, opts) == Ok(v)
    ensures v.Num? ==> ParseBoolean(v, opts) == Ok(Bool(!IsZero(v.n)))
    ensures (v.Str? && ToLower(v.s) !in TrueWords + FalseWords) || v.Arr? || v.Obj? ==>
      ParseBoolean(v, opts) == Ok(Bool(true))
  {
  }

  /** "TRUE" and "Yes" are true and "No" is false when permissive; strict mode rejects all three. */
  lemma BooleanLetterCase(opts: Options)
    ensures ParseBoolean(Str("TRUE"), opts) ==
      if opts.strictBooleans then Err(InvalidBoolean(Str("TRUE"))) else Ok(Bool(true))
    ensures ParseBoolean(Str("Yes"), opts) ==
      if opts.strictBooleans then Err(InvalidBoolean(Str("Yes"))) else Ok(Bool(true))
    ensures ParseBoolean(Str("No"), opts) ==
      if opts.strictBooleans then Err(InvalidBoolean(Str("No"))) else Ok(Bool(false))
  {
    assert ToLower("TRUE") == "true";
    assert ToLower("Yes") == "yes";
    assert ToLower("No") == "no";
  }

  /** Strict mode rejects the native booleans and "1". */
  lemma StrictBooleansRejectNatives(opts: Options)
    requires opts.strictBooleans
    ensures ParseBoolean(Bool(true), opts) == Err(InvalidBoolean(Bool(true)))
    ensures ParseBoolean(Bool(false), opts) == Err(InvalidBoolean(Bool(false)))
    ensures ParseBoolean(Str("1"), opts) == Err(InvalidBoolean(Str("1")))
  {
  }

  // ---------------------------------------------------------------- strings

  predicate IsHexDigit(c: char) {
    ('0' <= c <= '9') || ('a' <= c <= 'f') || ('A' <= c <= 'F')
  }

  /** What the UUID pattern accepts at position `i`: dashes, version 1-5, variant 8/9/a/b, hex digits. */
  predicate UuidCharOk(i: int, c: char) {
    if i == 8 || i == 13 || i == 18 || i == 23 then c == '-'
    else if i == 14 then '1' <= c <= '5'
    else if i == 19 then c in "89abAB"
    else IsHexDigit(c)
  }

  /** `/^[0-9a-f]{8}-[0-9a-f]{4}-[1-5][0-9a-f]{3}-[89ab][0-9a-f]{3}-[0-9a-f]{12}$/i` */
  predicate IsUuid(s: string) {
    |s| == 36 && forall i :: 0 <= i < 36 ==> UuidCharOk(i, s[i])
  }

  /** The pattern is case-insensitive. */
  lemma UuidIgnoresCase(s: string)
    ensures IsUuid(ToLower(s)) <==> IsUuid(s)
  {
    var t := ToLower(s);
    forall i | 0 <= i < |s|
      ensures UuidCharOk(i, t[i]) <==> UuidCharOk(i, s[i])
    {
      if 'A' <= s[i] <= 'Z' {
        assert t[i] == (s[i] as int + 32) as char;
      }
    }
    if IsUuid(s) {
      assert forall i :: 0 <= i < 36 ==> UuidCharOk(i, t[i]);
    }
    if IsUuid(t) {
      assert forall i :: 0 <= i < 36 ==> UuidCharOk(i, s[i]);
    }
  }

  /** The example identifier is accepted; "invalid-uuid" is not. */
  lemma UuidExamples()
    ensures IsUuid("123e4567-e89b-12d3-a456-426614174000")
    ensures !IsUuid("invalid-uuid")
  {
    var s := "123e4567-e89b-12d3-a456-426614174000";
    forall i | 0 <= i < 36 ensures UuidCharOk(i, s[i]) {
      assert s[i] == "123e4567-e89b-12d3-a456-426614174000"[i];
    }
  }

  /** `parseString`: a format validates the string but never changes it. */
  function ParseString(v: JsVal, format: Option<string>, validDate: string -> bool): (r: Coerced)
    ensures v.Null? || v.Undef? ==> r == Ok(Null)
    ensures r.Ok? && !v.Null? && !v.Undef? ==> r.value == Str(ToJsString(v))
    ensures r.Err? <==>
      !v.Null? && !v.Undef? &&
      ((format == Some("date-time") && !validDate(ToJsString(v))) ||
       (format == Some("date") && !validDate(ToJsString(v))) ||
       (format == Some("uuid") && !IsUuid(ToJsString(v))))
    ensures r.Err? ==> r.error == (if format == Some("date-time") then InvalidDateTime(v)
                                   else if format == Some("date") then InvalidDate(v)
                                   else InvalidUUID(v))
  {
    if v.Null? || v.Undef? then Ok(Null)
    else
      var str := ToJsString(v);
      if format == Some("date-time") then
        (if validDate(str) then Ok(Str(str)) else Err(InvalidDateTime(v)))
      else if format == Some("date") then
        (if validDate(str) then Ok(Str(str)) else Err(InvalidDate(v)))
      else if format == Some("uuid") then
        (if IsUuid(str) then Ok(Str(str)) else Err(InvalidUUID(v)))
      else Ok(Str(str))
  }

  // ---------------------------------------------------------------- parseValue

  /** The schema of the elements when it is a schema object (`schema.items && isSchemaObject(schema.items)`). */
  predicate HasTypedItems(schema: Schema) {
    schema.items.Some? && IsSchemaObject(schema.items.value)
  }

  /** The comma-separated pieces of a query string, trimmed (for typed items) or as they are. */
  function Pieces(s: string, trimmed: bool): (vs: seq<JsVal>)
    ensures |vs| == |Split(s, ',')|
    ensures forall i :: 0 <= i < |vs| ==>
      vs[i] == Str(if trimmed then Trim(Split(s, ',')[i]) else Split(s, ',')[i])
  {
    var pieces := Split(s, ',');
    seq(|pieces|, i requires 0 <= i < |pieces| => Str(if trimmed then Trim(pieces[i]) else pieces[i]))
  }

  /** `parseValue`: a closed dispatch on the schema's type. */
  function ParseValue(v: JsVal, schema: Schema, opts: Options, validDate: string -> bool): (r: Coerced)
    ensures !IsSchemaObject(schema) ==> r == Ok(v)
    ensures schema.ty == Some("array") && v.Arr? && r.Ok? ==>
      r.value.Arr? && |r.value.elems| == |v.elems|
    ensures schema.ty == Some("array") && v.Str? && r.Ok? ==>
      r.value.Arr? && |r.value.elems| == |Split(v.s, ',')|
    ensures schema.ty == Some("array") && !HasTypedItems(schema) && !v.Str? ==> r == Ok(v)
    ensures schema.ty.Some? && schema.ty.value !in {"array", "integer", "number", "boolean", "string"} ==> r == Ok(v)
    decreases schema, 0, 0
  {
    if !IsSchemaObject(schema) then Ok(v)
    else if schema.ty == Some("array") && v.Arr? then
      if HasTypedItems(schema) then ParseAll(v.elems, schema.items.value, opts, validDate)
      else Ok(v)
    else if schema.ty == Some("array") && v.Str? then
      if HasTypedItems(schema) then ParseAll(Pieces(v.s, true), schema.items.value, opts, validDate)
      else Ok(Arr(Pieces(v.s, false)))
    else if schema.ty == Some("integer") then ParseInteger(v, opts)
    else if schema.ty == Some("number") then ParseNumber(v, opts)
    else if schema.ty == Some("boolean") then ParseBoolean(v, opts)
    else if schema.ty == Some("string") then ParseString(v, schema.format, validDate)
    else Ok(v)
  }

  /** `values.map(item => parseValue(item, items))`: left to right, the first error aborts. */
  function ParseAll(vs: seq<JsVal>, item: Schema, opts: Options, validDate: string -> bool): (r: Coerced)
    ensures r.Ok? ==> r.value.Arr? && |r.value.elems| == |vs|
    decreases item, 1, |vs|
  {
    if vs == [] then Ok(Arr([]))
    else
      match ParseValue(vs[0], item, opts, validDate)
      case Err(e) => Err(e)
      case Ok(w) =>
        match ParseAll(vs[1..], item, opts, validDate)
        case Err(e) => Err(e)
        case Ok(rest) => Ok(Arr([w] + rest.elems))
  }

  /** Element-wise meaning of `ParseAll`: every element parsed, or the first failure reported. */
  lemma {:induction false} ParseAllElements(vs: seq<JsVal>, item: Schema, opts: Options, validDate: string -> bool)
    ensures ParseAll(vs, item, opts, validDate).Ok? <==>
      forall i :: 0 <= i < |vs| ==> ParseValue(vs[i], item, opts, validDate).Ok?
    ensures ParseAll(vs, item, opts, validDate).Ok? ==>
      forall i :: 0 <= i < |vs| ==>
        ParseValue(vs[i], item, opts, validDate) == Ok(ParseAll(vs, item, opts, validDate).value.elems[i])
    ensures ParseAll(vs, item, opts, validDate).Err? ==>
      exists i :: 0 <= i < |vs| &&
        ParseValue(vs[i], item, opts, validDate) == Err(ParseAll(vs, item, opts, validDate).error) &&
        forall j :: 0 <= j < i ==> ParseValue(vs[j], item, opts, validDate).Ok?
    decreases |vs|
  {
    if vs != [] {
      ParseAllElements(vs[1..], item, opts, validDate);
      var r := ParseAll(vs, item, opts, validDate);
      var head := ParseValue(vs[0], item, opts, validDate);
      var tail := ParseAll(vs[1..], item, opts, validDate);
      if head.Ok? && tail.Ok? {
        assert r.value.elems == [head.value] + tail.value.elems;
        forall i | 0 <= i < |vs|
          ensures ParseValue(vs[i], item, opts, validDate) == Ok(r.value.elems[i])
        {
          if i > 0 { assert vs[i] == vs[1..][i - 1]; }
        }
      } else if head.Ok? {
        var i :| 0 <= i < |vs[1..]| && ParseValue(vs[1..][i], item, opts, validDate) == Err(tail.error) &&
          forall j :: 0 <= j < i ==> ParseValue(vs[1..][j], item, opts, validDate).Ok?;
        assert ParseValue(vs[i + 1], item, opts, validDate) == Err(r.error);
        forall j | 0 <= j < i + 1 ensures ParseValue(vs[j], item, opts, validDate).Ok? {
          if j > 0 { assert vs[j] == vs[1..][j - 1]; }
        }
        assert !ParseValue(vs[1..][i], item, opts, validDate).Ok?;
      } else {
        assert ParseValue(vs[0], item, opts, validDate) == Err(r.error);
      }
    }
  }

  /** An array schema whose `items` is a schema object coerces each trimmed piece. */
  lemma ArrayTyped(s: string, schema: Schema, opts: Options, validDate: string -> bool)
    requires schema.ty == Some("array") && HasTypedItems(schema)
    ensures ParseValue(Str(s), schema, opts, validDate) ==
      ParseAll(Pieces(s, true), schema.items.value, opts, validDate)
  {
    assert IsSchemaObject(schema) && !Str(s).Arr?;
  }

  /** An array schema without typed `items` keeps the untrimmed pieces as strings. */
  lemma ArrayUntyped(s: string, schema: Schema, opts: Options, validDate: string -> bool)
    requires schema.ty == Some("array") && !HasTypedItems(schema)
    ensures ParseValue(Str(s), schema, opts, validDate) == Ok(Arr(Pieces(s, false)))
  {
  }

  /** A comma-separated string against an array schema: one element per piece, trimmed and coerced when `items` is typed, verbatim otherwise. */
  lemma ArrayFromString(s: string, schema: Schema, opts: Options, validDate: string -> bool)
    requires schema.ty == Some("array")
    ensures !HasTypedItems(schema) ==>
      ParseValue(Str(s), schema, opts, validDate) == Ok(Arr(Pieces(s, false)))
    ensures HasTypedItems(schema) && ParseValue(Str(s), schema, opts, validDate).Ok? ==>
      var es := ParseValue(Str(s), schema, opts, validDate).value.elems;
      |es| == Count(s, ',') + 1 &&
      forall i :: 0 <= i < |es| ==>
        ParseValue(Str(Trim(Split(s, ',')[i])), schema.items.value, opts, validDate) == Ok(es[i])
    ensures HasTypedItems(schema) && ParseValue(Str(s), schema, opts, validDate).Err? ==>
      exists i :: (0 <= i < |Split(s, ',')| &&
        ParseValue(Str(Trim(Split(s, ',')[i])), schema.items.value, opts, validDate) ==
          Err(ParseValue(Str(s), schema, opts, validDate).error) &&
        forall j :: 0 <= j < i ==> ParseValue(Str(Trim(Split(s, ',')[j])), schema.items.value, opts, validDate).Ok?)
  {
    SplitPieces(s, ',');
    if HasTypedItems(schema) {
      var vs := Pieces(s, true);
      var item := schema.items.value;
      ArrayTyped(s, schema, opts, validDate);
      ParseAllElements(vs, item, opts, validDate);
      var r := ParseAll(vs, item, opts, validDate);
      if r.Ok? {
        forall i | 0 <= i < |r.value.elems|
          ensures ParseValue(Str(Trim(Split(s, ',')[i])), item, opts, validDate) == Ok(r.value.elems[i])
        {
          assert vs[i] == Str(Trim(Split(s, ',')[i]));
        }
      } else {
        var i :| 0 <= i < |vs| && ParseValue(vs[i], item, opts, validDate) == Err(r.error) &&
          forall j :: 0 <= j < i ==> ParseValue(vs[j], item, opts, validDate).Ok?;
        forall j | 0 <= j <= i ensures vs[j] == Str(Trim(Split(s, ',')[j])) {
        }
      }
    } else {
      ArrayUntyped(s, schema, opts, validDate);
    }
  }

  /** The schema `{type: "array", items: {type: t}}`. */
  function ArrayOf(t: string): (schema: Schema)
    ensures schema.ty == Some("array") && HasTypedItems(schema) && schema.items.value.ty == Some(t)
  {
    Schema(Some("array"), None, None, Some(Schema(Some(t), None, None, None, None, None, None, None)), None, None, None, None)
  }

  /** When every element parses to the matching result element, the whole sequence does. */
  lemma {:induction false} ParseAllPointwise(vs: seq<JsVal>, ws: seq<JsVal>, item: Schema, opts: Options, validDate: string -> bool)
    requires |ws| == |vs|
    requires forall i :: 0 <= i < |vs| ==> ParseValue(vs[i], item, opts, validDate) == Ok(ws[i])
    ensures ParseAll(vs, item, opts, validDate) == Ok(Arr(ws))
    decreases |vs|
  {
    if vs != [] {
      assert ParseValue(vs[0], item, opts, validDate) == Ok(ws[0]);
      ParseAllPointwise(vs[1..], ws[1..], item, opts, validDate);
      assert [ws[0]] + ws[1..] == ws;
    }
  }

  /** A string is its own coercion against a `string` schema without a format. */
  lemma PlainStringItem(x: string, opts: Options, validDate: string -> bool)
    ensures ParseValue(Str(x), ArrayOf("string").items.value, opts, validDate) == Ok(Str(x))
  {
  }

  /** The separator-free, trimmed pieces of a join, as `Pieces` yields them. */
  lemma PiecesOfJoin(xs: seq<string>)
    requires |xs| >= 1
    requires forall i :: 0 <= i < |xs| ==> ',' !in xs[i] && Trim(xs[i]) == xs[i]
    ensures Pieces(Join(xs, ","), true) == seq(|xs|, i requires 0 <= i < |xs| => Str(xs[i]))
  {
    JoinSplit(xs, ',');
  }

  /** Comma-joined strings come back as the same strings against an array of strings. */
  lemma StringListRoundTrip(xs: seq<string>, opts: Options, validDate: string -> bool)
    requires |xs| >= 1
    requires forall i :: 0 <= i < |xs| ==> ',' !in xs[i] && Trim(xs[i]) == xs[i]
    ensures ParseValue(Str(Join(xs, ",")), ArrayOf("string"), opts, validDate) ==
      Ok(Arr(seq(|xs|, i requires 0 <= i < |xs| => Str(xs[i]))))
  {
    var s := Join(xs, ",");
    var vs := seq(|xs|, i requires 0 <= i < |xs| => Str(xs[i]));
    PiecesOfJoin(xs);
    forall i | 0 <= i < |vs| ensures ParseValue(vs[i], ArrayOf("string").items.value, opts, validDate) == Ok(vs[i]) {
      PlainStringItem(xs[i], opts, validDate);
    }
    ParseAllPointwise(vs, vs, ArrayOf("string").items.value, opts, validDate);
    ArrayTyped(s, ArrayOf("string"), opts, validDate);
  }

  /** A decimal integer string is that integer against an `integer` schema. */
  lemma DecimalIntegerItem(n: int, opts: Options, validDate: string -> bool)
    ensures ParseValue(Str(IntToDecimal(n)), ArrayOf("integer").items.value, opts, validDate) == Ok(Num(Finite(n, 0)))
  {
    ParseIntegerOfDecimal(n, opts);
  }

  /** `String` of each integer. */
  function Decimals(ns: seq<int>): (xs: seq<string>)
    ensures |xs| == |ns|
    ensures forall i :: 0 <= i < |ns| ==> xs[i] == IntToDecimal(ns[i])
  {
    seq(|ns|, i requires 0 <= i < |ns| => IntToDecimal(ns[i]))
  }

  /** The pieces of the comma-joined decimals are the decimals. */
  lemma DecimalPieces(ns: seq<int>)
    requires |ns| >= 1
    ensures var xs := Decimals(ns);
      Pieces(Join(xs, ","), true) == seq(|xs|, i requires 0 <= i < |xs| => Str(xs[i]))
  {
    var xs := Decimals(ns);
    forall i | 0 <= i < |xs| ensures ',' !in xs[i] && Trim(xs[i]) == xs[i] {
      IntToDecimalShape(ns[i]);
    }
    PiecesOfJoin(xs);
  }

  /** `String` of each integer, comma-joined, comes back as those integers against an array of integers. */
  lemma IntegerListRoundTrip(ns: seq<int>, opts: Options, validDate: string -> bool)
    requires |ns| >= 1
    ensures ParseValue(Str(Join(Decimals(ns), ",")), ArrayOf("integer"), opts, validDate) ==
      Ok(Arr(seq(|ns|, i requires 0 <= i < |ns| => Num(Finite(ns[i], 0)))))
  {
    var xs := Decimals(ns);
    var vs := seq(|xs|, i requires 0 <= i < |xs| => Str(xs[i]));
    var ws := seq(|ns|, i requires 0 <= i < |ns| => Num(Finite(ns[i], 0)));
    var item := ArrayOf("integer").items.value;
    forall i | 0 <= i < |vs| ensures ParseValue(vs[i], item, opts, validDate) == Ok(ws[i]) {
      DecimalIntegerItem(ns[i], opts, validDate);
    }
    ParseAllPointwise(vs, ws, item, opts, validDate);
    DecimalPieces(ns);
    ArrayTyped(Join(Decimals(ns), ","), ArrayOf("integer"), opts, validDate);
  }

  /**
   * Coercing an already coerced value again changes nothing, as long as
   * booleans are permissive.
   */
  lemma {:induction false} ParseValueIdempotent(v: JsVal, schema: Schema, opts: Options, validDate: string -> bool)
    requires !opts.strictBooleans
    requires ParseValue(v, schema, opts, validDate).Ok?
    ensures var w := ParseValue(v, schema, opts, validDate).value;
      ParseValue(w, schema, opts, validDate) == Ok(w)
    decreases schema, 0, 0
  {
    var w := ParseValue(v, schema, opts, validDate).value;
    if !IsSchemaObject(schema) {
    } else if schema.ty == Some("array") && v.Arr? {
      if HasTypedItems(schema) {
        ParseAllIdempotent(v.elems, schema.items.value, opts, validDate);
      }
    } else if schema.ty == Some("array") && v.Str? {
      if HasTypedItems(schema) {
        ParseAllIdempotent(Pieces(v.s, true), schema.items.value, opts, validDate);
      }
    } else if schema.ty == Some("integer") {
      IntegerIdempotent(v, opts);
      assert w.Null? || w.Num?;
    } else if schema.ty == Some("number") {
      NumberIdempotent(v, opts);
      assert w.Null? || w.Num?;
    } else if schema.ty == Some("boolean") {
      BooleanIdempotent(v, opts);
      assert w.Null? || w.Bool?;
    } else if schema.ty == Some("string") {
      StringIdempotent(v, schema.format, validDate);
      assert w.Null? || w.Str?;
    }
  }

  lemma IntegerIdempotent(v: JsVal, opts: Options)
    requires ParseInteger(v, opts).Ok?
    ensures ParseInteger(ParseInteger(v, opts).value, opts) == ParseInteger(v, opts)
  {
  }

  lemma NumberIdempotent(v: JsVal, opts: Options)
    requires ParseNumber(v, opts).Ok?
    ensures ParseNumber(ParseNumber(v, opts).value, opts) == ParseNumber(v, opts)
  {
  }

  lemma BooleanIdempotent(v: JsVal, opts: Options)
    requires !opts.strictBooleans
    ensures ParseBoolean(ParseBoolean(v, opts).value, opts) == ParseBoolean(v, opts)
  {
  }

  lemma StringIdempotent(v: JsVal, format: Option<string>, validDate: string -> bool)
    requires ParseString(v, format, validDate).Ok?
    ensures ParseString(ParseString(v, format, validDate).value, format, validDate) ==
      ParseString(v, format, validDate)
  {
    if !v.Null? && !v.Undef? {
      assert ToJsString(Str(ToJsString(v))) == ToJsString(v);
    }
  }

  lemma {:induction false} ParseAllIdempotent(vs: seq<JsVal>, item: Schema, opts: Options, validDate: string -> bool)
    requires !opts.strictBooleans
    requires ParseAll(vs, item, opts, validDate).Ok?
    ensures var w := ParseAll(vs, item, opts, validDate).value;
      ParseAll(w.elems, item, opts, validDate) == Ok(w)
    decreases item, 1, |vs|
  {
    if vs != [] {
      var w := ParseAll(vs, item, opts, validDate).value;
      var head := ParseValue(vs[0], item, opts, validDate).value;
      var tail := ParseAll(vs[1..], item, opts, validDate).value;
      ParseValueIdempotent(vs[0], item, opts, validDate);
      ParseAllIdempotent(vs[1..], item, opts, validDate);
      assert w.elems == [head] + tail.elems;
      assert w.elems[1..] == tail.elems;
    }
  }

  /** With strict booleans the coercion is not idempotent: a coerced `true` is rejected when coerced again. */
  lemma StrictBooleansNotIdempotent(opts: Options, validDate: string -> bool)
    requires opts.strictBooleans
    ensures
      var booleans := Schema(Some("boolean"), None, None, None, None, None, None, None);
      ParseValue(Str("true"), booleans, opts, validDate) == Ok(Bool(true)) &&
      ParseValue(Bool(true), booleans, opts, validDate) == Err(InvalidBoolean(Bool(true)))
  {
  }
}
