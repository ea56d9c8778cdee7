/**
 * The code generator's model of a document: the TypeScript type it writes
 * for a schema, the Express form of a path template, and the template data
 * (operations and named interface shapes) that `buildTemplateData`
 * collects for the handler template.
 */
module Generator {
  import opened JsValues
  import opened OpenApi
  import opened PathMatching

  // ---------------------------------------------------------------- TypeScript types

  /** ASCII `toUpperCase` of one character. */
  function UpperChar(c: char): char {
    if 'a' <= c <= 'z' then (c as int - 32) as char else c
  }

  /** `s.charAt(0).toUpperCase() + s.slice(1)` */
  function Capitalize(s: string): (r: string)
    ensures |r| == |s|
  {
    if s == [] then [] else [UpperChar(s[0])] + s[1..]
  }

  /** The interface name given to the items of an array property: `${operationId}${Capitalised property}Item`. */
  function ItemTypeName(operationId: string, propertyName: string): string {
    operationId + Capitalize(propertyName) + "Item"
  }

  /**
   * `mapOpenAPITypeToTS(schema, operationId, propertyName)`. A missing
   * `operationId` or `propertyName` is passed as the empty string: both are
   * falsy, and the function only tests their truthiness.
   */
  function MapType(schema: Schema, operationId: string, propertyName: string): (r: string)
    ensures r != []
    ensures !IsSchemaObject(schema) ==> r == "any"
    decreases schema
  {
    if schema.ty == Some("string") then
      if schema.enumValues.Some? then
        "'" + Join(schema.enumValues.value, "' | '") + "'"
      else if schema.format == Some("date-time") || schema.format == Some("date") then "Date"
      else "string"
    else if schema.ty == Some("number") || schema.ty == Some("integer") then "number"
    else if schema.ty == Some("boolean") then "boolean"
    else if schema.ty == Some("array") then
      if schema.items.Some? && IsSchemaObject(schema.items.value) then
        if operationId != [] && propertyName != [] && schema.items.value.properties.Some? then
          ItemTypeName(operationId, propertyName) + "[]"
        else MapType(schema.items.value, "", "") + "[]"
      else "any[]"
    else if schema.ty == Some("object") then
      if schema.properties.Some? then "any" else "Record<string, any>"
    else "any"
  }

  /** A string that ends with a non-empty suffix ends with the suffix's last character. */
  lemma EndsWithLast(s: string, suffix: string)
    ensures suffix != [] && EndsWith(s, suffix) ==> s[|s| - 1] == suffix[|suffix| - 1]
  {
    assert suffix != [] && EndsWith(s, suffix) ==> s[|s| - |suffix|..][|suffix| - 1] == s[|s| - 1];
  }

  /** A type ending in `Item[]` ends in `[]`. */
  lemma ItemArraySuffix(s: string)
    ensures EndsWith(s, "Item[]") ==> EndsWith(s, "[]")
  {
    assert EndsWith(s, "Item[]") ==> s[|s| - 2..] == s[|s| - 6..][4..];
  }

  /** `s + "[]"` ends with `suffix + "[]"` only when `s` ends with `suffix`. */
  lemma BracketedSuffix(s: string, suffix: string)
    requires EndsWith(s + "[]", suffix + "[]")
    ensures EndsWith(s, suffix)
  {
    var t := s + "[]";
    assert s[|s| - |suffix|..] == t[|t| - |suffix + "[]"|..][..|suffix|];
  }

  /**
   * Exactly the array schemas map to a type ending in `[]`, and no type
   * ends in a bare `Item`: an item interface name is always followed by `[]`.
   */
  lemma MapTypeShape(schema: Schema, operationId: string, propertyName: string)
    ensures var r := MapType(schema, operationId, propertyName);
      schema.ty == Some("array") <==> EndsWith(r, "[]")
    ensures !EndsWith(MapType(schema, operationId, propertyName), "Item")
  {
    var r := MapType(schema, operationId, propertyName);
    if schema.ty == Some("string") {
      if schema.enumValues.Some? {
        var j := Join(schema.enumValues.value, "' | '");
        assert r == "'" + j + "'";
        assert r[|r| - 1] == '\'';
      } else if schema.format == Some("date-time") || schema.format == Some("date") {
        assert r == "Date";
      } else {
        assert r == "string";
      }
    } else if schema.ty == Some("number") || schema.ty == Some("integer") {
      assert r == "number";
    } else if schema.ty == Some("boolean") {
      assert r == "boolean";
    } else if schema.ty == Some("array") {
      var t := if HasTypedItemsSchema(schema) && operationId != [] && propertyName != [] && schema.items.value.properties.Some?
        then ItemTypeName(operationId, propertyName)
        else if HasTypedItemsSchema(schema) then MapType(schema.items.value, "", "")
        else "any";
      assert r == t + "[]";
      assert r[|r| - 2..] == "[]";
    } else if schema.ty == Some("object") {
      assert r == "any" || r == "Record<string, any>";
    } else {
      assert r == "any";
    }
    if schema.ty != Some("array") {
      EndsWithLast(r, "[]");
    }
    EndsWithLast(r, "Item");
  }

  /** Whether `mapOpenAPITypeToTS` names a generated item interface for this schema and these arguments. */
  predicate NamesItemType(schema: Schema, operationId: string, propertyName: string) {
    && schema.ty == Some("array")
    && schema.items.Some? && IsSchemaObject(schema.items.value) && schema.items.value.properties.Some?
    && operationId != [] && propertyName != []
  }

  /**
   * A type ending in `Item[]` is exactly an array of a named item
   * interface, and the name is `ItemTypeName(operationId, propertyName)`.
   */
  lemma NamedItemType(schema: Schema, operationId: string, propertyName: string)
    ensures var r := MapType(schema, operationId, propertyName);
      EndsWith(r, "Item[]") <==> NamesItemType(schema, operationId, propertyName)
    ensures var r := MapType(schema, operationId, propertyName);
      NamesItemType(schema, operationId, propertyName) ==> r[..|r| - 2] == ItemTypeName(operationId, propertyName)
  {
    var r := MapType(schema, operationId, propertyName);
    if NamesItemType(schema, operationId, propertyName) {
      var n := ItemTypeName(operationId, propertyName);
      assert r == n + "[]";
      assert r[..|r| - 2] == n;
      assert r[|r| - 6..] == "Item[]";
    } else if schema.ty == Some("array") {
      var x := if HasTypedItemsSchema(schema) then MapType(schema.items.value, "", "") else "any";
      assert r == x + "[]";
      if HasTypedItemsSchema(schema) {
        MapTypeShape(schema.items.value, "", "");
      } else {
        EndsWithLast(x, "Item");
      }
      if EndsWith(r, "Item[]") {
        BracketedSuffix(x, "Item");
      }
    } else {
      MapTypeShape(schema, operationId, propertyName);
      ItemArraySuffix(r);
    }
  }

  /**
   * The scalar results identify the schema's JSON type: `number`,
   * `boolean`, `Date` and `string` each come from exactly one kind of schema.
   */
  lemma ScalarTypes(schema: Schema, operationId: string, propertyName: string)
    ensures var r := MapType(schema, operationId, propertyName);
      r == "number" <==> schema.ty == Some("number") || schema.ty == Some("integer")
    ensures MapType(schema, operationId, propertyName) == "boolean" <==> schema.ty == Some("boolean")
    ensures var r := MapType(schema, operationId, propertyName);
      r == "Date" <==> (schema.ty == Some("string") && schema.enumValues.None? &&
                        (schema.format == Some("date") || schema.format == Some("date-time")))
    ensures var r := MapType(schema, operationId, propertyName);
      r == "string" <==> (schema.ty == Some("string") && schema.enumValues.None? &&
                          schema.format != Some("date") && schema.format != Some("date-time"))
  {
    var r := MapType(schema, operationId, propertyName);
    if schema.ty == Some("string") && schema.enumValues.Some? {
      assert r[0] == '\'';
    } else if schema.ty == Some("array") {
      MapTypeShape(schema, operationId, propertyName);
      assert r[|r| - 1] == ']';
    }
  }

  /**
   * Arrays and objects: an array of typed items is the items' own type
   * followed by `[]` unless it names a generated item interface; an array
   * without typed items is `any[]`; an object is `any` with properties and
   * `Record<string, any>` without.
   */
  lemma ArrayAndObjectTypes(schema: Schema, operationId: string, propertyName: string)
    ensures schema.ty == Some("array") && !HasTypedItemsSchema(schema) ==>
      MapType(schema, operationId, propertyName) == "any[]"
    ensures schema.ty == Some("array") && HasTypedItemsSchema(schema) && !NamesItemType(schema, operationId, propertyName) ==>
      MapType(schema, operationId, propertyName) == MapType(schema.items.value, "", "") + "[]"
    ensures schema.ty == Some("object") ==>
      MapType(schema, operationId, propertyName) == if schema.properties.Some? then "any" else "Record<string, any>"
  {
  }

  /** `schema.items && isSchemaObject(schema.items)` */
  predicate HasTypedItemsSchema(schema: Schema) {
    schema.items.Some? && IsSchemaObject(schema.items.value)
  }

  /** The members of an enum, each in single quotes, separated by ` | `. */
  function QuotedUnion(values: seq<string>): string {
    if values == [] then ""
    else if |values| == 1 then "'" + values[0] + "'"
    else "'" + values[0] + "'" + " | " + QuotedUnion(values[1..])
  }

  /** A string enum maps to the union of its quoted members. */
  lemma {:induction false} EnumType(schema: Schema, operationId: string, propertyName: string)
    requires schema.ty == Some("string") && schema.enumValues.Some? && schema.enumValues.value != []
    ensures MapType(schema, operationId, propertyName) == QuotedUnion(schema.enumValues.value)
  {
    JoinQuoted(schema.enumValues.value);
  }

  lemma {:induction false} JoinQuoted(values: seq<string>)
    requires values != []
    ensures "'" + Join(values, "' | '") + "'" == QuotedUnion(values)
    decreases |values|
  {
    if |values| > 1 {
      JoinQuoted(values[1..]);
      assert Join(values, "' | '") == values[0] + "' | '" + Join(values[1..], "' | '");
    }
  }

  // ---------------------------------------------------------------- Express paths

  /**
   * `convertPathToExpress`: `path.replace(/\{([^}]+)\}/g, ':$1')`. Scanning
   * left to right, a `{` followed by a non-empty run free of `}` and then
   * `}` becomes `:` and the run; anything else is copied.
   */
  function ToExpress(p: string): (r: string)
    ensures |r| <= |p|
    decreases |p|
  {
    if p == [] then []
    else
      var k := RunBefore(p[1..], '}');
      if p[0] == '{' && 0 < k < |p| - 1 then ":" + p[1..1 + k] + ToExpress(p[2 + k..])
      else [p[0]] + ToExpress(p[1..])
  }

  /** Text without `{` is copied through unchanged. */
  lemma {:induction false} ToExpressCopies(a: string, b: string)
    requires '{' !in a
    ensures ToExpress(a + b) == a + ToExpress(b)
    decreases |a|
  {
    if a != [] {
      assert a + b == [a[0]] + (a[1..] + b);
      ToExpressCopiesFirst(a[0], a[1..] + b);
      ToExpressCopies(a[1..], b);
      assert [a[0]] + (a[1..] + ToExpress(b)) == a + ToExpress(b);
    } else {
      assert a + b == b;
    }
  }

  /** A placeholder `{name}` becomes `:name`. */
  lemma ToExpressPlaceholder(name: string, b: string)
    requires name != [] && '}' !in name
    ensures ToExpress("{" + name + "}" + b) == ":" + name + ToExpress(b)
  {
    var p := "{" + name + "}" + b;
    assert p[1..] == name + ("}" + b);
    RunBeforeOf(name, '}', "}" + b);
    assert p[1..1 + |name|] == name;
    assert p[2 + |name|..] == b;
  }

  /** One segment of a path template: literal text or a placeholder. */
  datatype PathSegment = Literal(text: string) | Placeholder(name: string)

  /**
   * Segments the two conversions invert on: literals free of `/` and `{`
   * that do not start with `:`; placeholder names that are non-empty and
   * free of `/` and `}`.
   */
  predicate Invertible(seg: PathSegment) {
    match seg
    case Literal(t) => '/' !in t && '{' !in t && (t == [] || t[0] != ':')
    case Placeholder(n) => n != [] && '/' !in n && '}' !in n
  }

  predicate AllInvertible(segs: seq<PathSegment>) {
    segs == [] || (Invertible(segs[0]) && AllInvertible(segs[1..]))
  }

  /** The OpenAPI template `/seg/{name}/…` of a segment list. */
  function OpenApiTemplate(segs: seq<PathSegment>): string {
    if segs == [] then []
    else
      match segs[0]
      case Literal(t) => ['/'] + (t + OpenApiTemplate(segs[1..]))
      case Placeholder(n) => ['/'] + ("{" + n + "}" + OpenApiTemplate(segs[1..]))
  }

  /** The Express route `/seg/:name/…` of a segment list. */
  function ExpressRoute(segs: seq<PathSegment>): (r: string)
    ensures r == [] || r[0] == '/'
  {
    if segs == [] then []
    else
      match segs[0]
      case Literal(t) => ['/'] + (t + ExpressRoute(segs[1..]))
      case Placeholder(n) => ['/'] + (":" + n + ExpressRoute(segs[1..]))
  }

  /** `convertPathToExpress` copies a literal segment. */
  lemma ToExpressLiteral(t: string, rest: string)
    requires '{' !in t
    ensures ToExpress(['/'] + (t + rest)) == ['/'] + (t + ToExpress(rest))
  {
    assert (['/'] + (t + rest))[1..] == t + rest;
    ToExpressCopies(t, rest);
  }

  /** A character other than `{` is copied. */
  lemma ToExpressCopiesFirst(c: char, q: string)
    requires c != '{'
    ensures ToExpress([c] + q) == [c] + ToExpress(q)
  {
    assert ([c] + q)[1..] == q;
  }

  /** `convertPathToExpress` turns a `/{name}` segment into `/:name`. */
  lemma ToExpressSlot(n: string, rest: string)
    requires n != [] && '}' !in n
    ensures ToExpress(['/'] + ("{" + n + "}" + rest)) == ['/'] + (":" + n + ToExpress(rest))
  {
    ToExpressCopiesFirst('/', "{" + n + "}" + rest);
    ToExpressPlaceholder(n, rest);
  }

  lemma {:induction false} ToExpressTemplate(segs: seq<PathSegment>)
    requires AllInvertible(segs)
    ensures ToExpress(OpenApiTemplate(segs)) == ExpressRoute(segs)
    decreases |segs|
  {
    if segs != [] {
      ToExpressTemplate(segs[1..]);
      match segs[0]
      case Literal(t) => ToExpressLiteral(t, OpenApiTemplate(segs[1..]));
      case Placeholder(n) => ToExpressSlot(n, OpenApiTemplate(segs[1..]));
    }
  }

  /** `convertExpressPathToOpenAPI` copies a literal segment. */
  lemma ToOpenAPILiteral(t: string, rest: string)
    requires '/' !in t && (t == [] || t[0] != ':')
    requires rest == [] || rest[0] == '/'
    ensures ToOpenAPI(['/'] + (t + rest)) == ['/'] + (t + ToOpenAPI(rest))
  {
    var q := t + rest;
    assert !SlotAt(['/'] + q) by {
      if t == [] {
        assert q == rest;
      } else {
        assert q[0] == t[0];
      }
    }
    assert (['/'] + q)[1..] == q;
    ToOpenAPICopies(t, rest);
  }

  /** `convertExpressPathToOpenAPI` turns a `/:name` segment into `/{name}`. */
  lemma ToOpenAPISlot(n: string, rest: string)
    requires n != [] && '/' !in n
    requires rest == [] || rest[0] == '/'
    ensures ToOpenAPI(['/'] + (":" + n + rest)) == ['/'] + ("{" + n + "}" + ToOpenAPI(rest))
  {
    var q := ":" + n + rest;
    var p := ['/'] + q;
    assert p[1..] == q && q[1..] == n + rest;
    assert p[2..] == n + rest;
    RunBeforeOf(n, '/', rest);
    var k := RunBefore(p[2..], '/');
    assert p[2..2 + k] == (n + rest)[..|n|] == n;
    assert p[2 + k..] == (n + rest)[|n|..] == rest;
    assert SlotAt(p) by { assert p[2] == n[0]; }
  }

  lemma {:induction false} ToOpenAPITemplate(segs: seq<PathSegment>)
    requires AllInvertible(segs)
    ensures ToOpenAPI(ExpressRoute(segs)) == OpenApiTemplate(segs)
    decreases |segs|
  {
    if segs != [] {
      ToOpenAPITemplate(segs[1..]);
      match segs[0]
      case Literal(t) => ToOpenAPILiteral(t, ExpressRoute(segs[1..]));
      case Placeholder(n) => ToOpenAPISlot(n, ExpressRoute(segs[1..]));
    }
  }

  /**
   * `convertPathToExpress` and the parser's `convertExpressPathToOpenAPI`
   * are inverse on templates whose placeholders are whole segments.
   */
  lemma ConvertRoundTrip(segs: seq<PathSegment>)
    requires AllInvertible(segs)
    ensures ToExpress(OpenApiTemplate(segs)) == ExpressRoute(segs)
    ensures ToOpenAPI(ToExpress(OpenApiTemplate(segs))) == OpenApiTemplate(segs)
    ensures ToExpress(ToOpenAPI(ExpressRoute(segs))) == ExpressRoute(segs)
  {
    ToExpressTemplate(segs);
    ToOpenAPITemplate(segs);
  }
}
