/**
 * Path templates in the parser: Express `/:name` routes rewritten to OpenAPI
 * `/{name}` templates, the lookup of a path item and of a path parameter,
 * and the route regular expression that `extractPathParams` builds.
 */
module PathMatching {
  import opened JsValues
  import opened OpenApi

  /** The length of the longest prefix of `s` free of `stop`. */
  function RunBefore(s: string, stop: char): (n: nat)
    ensures n <= |s|
    ensures n < |s| ==> s[n] == stop
  {
    if s != [] && s[0] != stop then 1 + RunBefore(s[1..], stop) else 0
  }

  /** The run holds no `stop`. */
  lemma {:induction false} RunBeforeFree(s: string, stop: char)
    ensures stop !in s[..RunBefore(s, stop)]
    decreases |s|
  {
    if s != [] && s[0] != stop {
      RunBeforeFree(s[1..], stop);
      assert s[..RunBefore(s, stop)] == [s[0]] + s[1..][..RunBefore(s[1..], stop)];
    }
  }

  /** A run free of `stop` followed by `stop` or the end is the whole run. */
  lemma {:induction false} RunBeforeOf(a: string, stop: char, b: string)
    requires stop !in a
    requires b == [] || b[0] == stop
    ensures RunBefore(a + b, stop) == |a|
    decreases |a|
  {
    if a != [] {
      RunBeforeOf(a[1..], stop, b);
      assert (a + b)[1..] == a[1..] + b;
    }
  }

  /** Whether `/\/:([^\/]+)/` matches at the start of `p`. */
  predicate SlotAt(p: string) {
    |p| >= 3 && p[0] == '/' && p[1] == ':' && p[2] != '/'
  }

  /** `convertExpressPathToOpenAPI`: every `/:name` becomes `/{name}`, left to right. */
  function ToOpenAPI(p: string): (r: string)
    ensures p == [] <==> r == []
    ensures p != [] ==> r[0] == p[0]
    decreases |p|
  {
    if p == [] then []
    else if SlotAt(p) then
      var k := RunBefore(p[2..], '/');
      ['/'] + ("{" + p[2..2 + k] + "}" + ToOpenAPI(p[2 + k..]))
    else [p[0]] + ToOpenAPI(p[1..])
  }

  /** No `/:name` left to rewrite. */
  predicate NoSlots(s: string) {
    forall i :: 0 <= i < |s| ==> !SlotAt(s[i..])
  }

  /** A path with nothing to rewrite is its own OpenAPI form. */
  lemma {:induction false} NoSlotsFixed(s: string)
    requires NoSlots(s)
    ensures ToOpenAPI(s) == s
    decreases |s|
  {
    if s != [] {
      assert !SlotAt(s[0..]) by { assert s[0..] == s; }
      forall i | 0 <= i < |s[1..]| ensures !SlotAt(s[1..][i..]) {
        assert s[1..][i..] == s[i + 1..];
      }
      NoSlotsFixed(s[1..]);
    }
  }

  /** `/{name}` with no `/` in `name`, in front of text with nothing to rewrite, leaves nothing to rewrite. */
  lemma SlotHeadNoSlots(name: string, rest: string)
    requires '/' !in name
    requires NoSlots(rest)
    ensures NoSlots(['/'] + ("{" + name + "}" + rest))
  {
    var head := "/{" + name + "}";
    var r := ['/'] + ("{" + name + "}" + rest);
    assert r == head + rest;
    forall i | 0 <= i < |r| ensures !SlotAt(r[i..]) {
      if i >= |head| {
        assert r[i..] == rest[i - |head|..];
      } else if i == 0 {
        assert r[1] == '{';
      } else {
        assert r[i] == head[i];
        assert r[i] != '/';
      }
    }
  }

  /** A path that does not start with `/:name` is not rewritten into one that does. */
  lemma CopiedHead(p: string)
    requires p != [] && !SlotAt(p)
    ensures !SlotAt(ToOpenAPI(p))
  {
    var q := p[1..];
    assert ToOpenAPI(p) == [p[0]] + ToOpenAPI(q);
    if q != [] {
      assert ToOpenAPI(p)[1] == q[0];
      if q[0] == ':' {
        assert !SlotAt(q);
        assert ToOpenAPI(q) == [q[0]] + ToOpenAPI(q[1..]);
        if q[1..] != [] {
          assert ToOpenAPI(p)[2] == q[1] == p[2];
        }
      }
    }
  }

  /** Copying a first character that starts no `/:name` keeps the result free of them. */
  lemma CopiedNoSlots(p: string)
    requires p != [] && !SlotAt(p)
    requires NoSlots(ToOpenAPI(p[1..]))
    ensures NoSlots(ToOpenAPI(p))
  {
    var r := ToOpenAPI(p);
    var rest := ToOpenAPI(p[1..]);
    assert r == [p[0]] + rest;
    CopiedHead(p);
    forall i | 0 <= i < |r| ensures !SlotAt(r[i..]) {
      if i == 0 {
        assert r[i..] == r;
      } else {
        assert r[i..] == rest[i - 1..];
      }
    }
  }

  /** Rewriting a leading `/:name` keeps the result free of them when the rewritten rest is. */
  lemma RewrittenNoSlots(p: string)
    requires SlotAt(p)
    requires NoSlots(ToOpenAPI(p[2 + RunBefore(p[2..], '/')..]))
    ensures NoSlots(ToOpenAPI(p))
  {
    var k := RunBefore(p[2..], '/');
    RunBeforeFree(p[2..], '/');
    var name, run := p[2..2 + k], p[2..][..k];
    forall j | 0 <= j < |name| ensures name[j] != '/' {
      assert name[j] == run[j];
    }
    SlotHeadNoSlots(name, ToOpenAPI(p[2 + k..]));
  }

  /** The rewritten path has nothing left to rewrite. */
  lemma {:induction false} ToOpenAPINoSlots(p: string)
    ensures NoSlots(ToOpenAPI(p))
    decreases |p|
  {
    if p != [] {
      if SlotAt(p) {
        ToOpenAPINoSlots(p[2 + RunBefore(p[2..], '/')..]);
        RewrittenNoSlots(p);
      } else {
        ToOpenAPINoSlots(p[1..]);
        CopiedNoSlots(p);
      }
    }
  }

  /** `convertExpressPathToOpenAPI` is idempotent. */
  lemma ToOpenAPIIdempotent(p: string)
    ensures ToOpenAPI(ToOpenAPI(p)) == ToOpenAPI(p)
  {
    ToOpenAPINoSlots(p);
    NoSlotsFixed(ToOpenAPI(p));
  }

  /** Text free of `/` is copied through unchanged. */
  lemma {:induction false} ToOpenAPICopies(a: string, b: string)
    requires '/' !in a
    ensures ToOpenAPI(a + b) == a + ToOpenAPI(b)
    decreases |a|
  {
    if a != [] {
      var ab := a + b;
      assert ab[0] == a[0] && a[0] != '/';
      assert !SlotAt(ab);
      assert ab[1..] == a[1..] + b;
      assert ToOpenAPI(ab) == [a[0]] + ToOpenAPI(ab[1..]);
      ToOpenAPICopies(a[1..], b);
      assert [a[0]] + (a[1..] + ToOpenAPI(b)) == a + ToOpenAPI(b);
    } else {
      assert a + b == b;
    }
  }

  /** `pathsMatch`: the OpenAPI form of the first path equals the second. */
  predicate PathsMatch(expressPath: string, openApiPath: string) {
    ToOpenAPI(expressPath) == openApiPath
  }

  /** An already rewritten path matches exactly one template: itself. */
  lemma PathsMatchOnlyItself(p: string, key: string)
    ensures PathsMatch(ToOpenAPI(p), key) <==> key == ToOpenAPI(p)
  {
    ToOpenAPIIdempotent(p);
  }

  /** What `findPathItem` finds: the path item stored under the OpenAPI form of the route, if any. */
  function PathItemFor(spec: Document, path: string): (item: Option<PathItem>)
    ensures item.Some? ==> ToOpenAPI(path) in spec.paths.at && spec.paths.at[ToOpenAPI(path)] == item
    ensures ToOpenAPI(path) in spec.paths.at ==> item == spec.paths.at[ToOpenAPI(path)]
  {
    var key := ToOpenAPI(path);
    if key in spec.paths.at then spec.paths.at[key] else None
  }

  /** A path without `/:` segments is looked up verbatim: `/users/123` never finds `/users/{userId}`. */
  lemma ConcretePathVerbatim(spec: Document, path: string)
    requires NoSlots(path)
    ensures PathItemFor(spec, path) == if path in spec.paths.at then spec.paths.at[path] else None
  {
    NoSlotsFixed(path);
  }

  /** Whether `p` is an `in: 'path'` parameter object named `name`. */
  predicate IsPathParam(p: Parameter, name: string) {
    p.ParamObj? && p.location == "path" && p.name == name
  }

  /** `ps.find(p => IsPathParam(p, name))` */
  function FirstPathParam(ps: seq<Parameter>, name: string): (r: Option<Parameter>)
    ensures r.None? <==> forall i :: 0 <= i < |ps| ==> !IsPathParam(ps[i], name)
    ensures r.Some? ==> r.value in ps && IsPathParam(r.value, name)
  {
    if ps == [] then None
    else if IsPathParam(ps[0], name) then Some(ps[0])
    else FirstPathParam(ps[1..], name)
  }

  /** The parameter found is the first that qualifies. */
  lemma {:induction false} FirstPathParamIsFirst(ps: seq<Parameter>, name: string)
    requires FirstPathParam(ps, name).Some?
    ensures exists i :: (0 <= i < |ps| && ps[i] == FirstPathParam(ps, name).value &&
      forall j :: 0 <= j < i ==> !IsPathParam(ps[j], name))
  {
    if !IsPathParam(ps[0], name) {
      var r := FirstPathParam(ps, name);
      FirstPathParamIsFirst(ps[1..], name);
      var i :| 0 <= i < |ps[1..]| && ps[1..][i] == r.value &&
        forall j :: 0 <= j < i ==> !IsPathParam(ps[1..][j], name);
      assert ps[i + 1] == r.value;
      forall j | 0 <= j < i + 1 ensures !IsPathParam(ps[j], name) {
        if j > 0 { assert ps[j] == ps[1..][j - 1]; }
      }
    } else {
      assert ps[0] == FirstPathParam(ps, name).value;
    }
  }

  /** `findPathParameter`: only the path item's own `parameters` are searched, never an operation's. */
  function FindPathParameter(item: PathItem, name: string): (r: Option<Parameter>)
    ensures r.Some? ==> item.parameters.Some? && r.value in item.parameters.value && IsPathParam(r.value, name)
    ensures r.None? <==> (item.parameters.None? ||
      forall i :: 0 <= i < |item.parameters.value| ==> !IsPathParam(item.parameters.value[i], name))
  {
    if item.parameters.None? then None else FirstPathParam(item.parameters.value, name)
  }

  // ---------------------------------------------------------------- the route regular expression

  /**
   * A route read as `extractPathParams` reads it: literal characters, and
   * `/:name` slots, each of which the route's regular expression turns into
   * `/([^/]+)`.
   */
  datatype RoutePart = Lit(c: char) | Slot(name: string)

  /** After a slot the route continues with `/` or ends. */
  predicate SlotsDelimited(parts: seq<RoutePart>) {
    forall i :: 0 <= i < |parts| - 1 && parts[i].Slot? ==>
      parts[i + 1] == Lit('/') || parts[i + 1].Slot?
  }

  function RouteParts(route: string): (parts: seq<RoutePart>)
    ensures SlotsDelimited(parts)
    ensures parts != [] && parts[0].Lit? ==> route != [] && route[0] == parts[0].c
    ensures parts != [] && parts[0].Slot? ==> route != [] && route[0] == '/'
    decreases |route|
  {
    if route == [] then []
    else if SlotAt(route) then
      var k := RunBefore(route[2..], '/');
      var rest := RouteParts(route[2 + k..]);
      assert rest != [] && rest[0].Lit? ==> rest[0].c == '/';
      [Slot(route[2..2 + k])] + rest
    else
      var rest := RouteParts(route[1..]);
      [Lit(route[0])] + rest
  }

  /** The names of the slots, in order: `(route.match(/\/:([^\/]+)/g) || []).map(m => m.substring(2))`. */
  function SlotNames(parts: seq<RoutePart>): (names: seq<string>)
    ensures |names| <= |parts|
  {
    if parts == [] then []
    else if parts[0].Slot? then [parts[0].name] + SlotNames(parts[1..])
    else SlotNames(parts[1..])
  }

  function ParamNames(route: string): seq<string> {
    SlotNames(RouteParts(route))
  }

  /** What `[^/]+` may capture. */
  predicate Segment(v: string) {
    v != [] && '/' !in v
  }

  /** The URL the route describes when its slots hold `values`, one per slot in order. */
  function Fill(parts: seq<RoutePart>, values: seq<string>): (url: string)
    requires |values| == |SlotNames(parts)|
  {
    if parts == [] then []
    else if parts[0].Slot? then "/" + values[0] + Fill(parts[1..], values[1..])
    else [parts[0].c] + Fill(parts[1..], values)
  }

  /** The whole-string match of the route regex against `url`, and its captures in order. */
  function Match(parts: seq<RoutePart>, url: string): (captures: Option<seq<string>>)
    ensures captures.Some? ==> |captures.value| == |SlotNames(parts)|
    decreases |parts|
  {
    if parts == [] then (if url == [] then Some([]) else None)
    else if url == [] then None
    else if parts[0].Lit? then
      (if url[0] == parts[0].c then Match(parts[1..], url[1..]) else None)
    else if url[0] != '/' then None
    else
      var k := RunBefore(url[1..], '/');
      if k == 0 then None
      else
        match Match(parts[1..], url[1 + k..])
        case None => None
        case Some(rest) => Some([url[1..1 + k]] + rest)
  }

  /** Soundness: a match fills the route's slots with segments to give exactly `url`. */
  lemma {:induction false} MatchSound(parts: seq<RoutePart>, url: string)
    requires Match(parts, url).Some?
    ensures var vs := Match(parts, url).value;
      (forall i :: 0 <= i < |vs| ==> Segment(vs[i])) && Fill(parts, vs) == url
    decreases |parts|
  {
    if parts != [] {
      if parts[0].Lit? {
        MatchSound(parts[1..], url[1..]);
        assert [url[0]] + url[1..] == url;
      } else {
        var k := RunBefore(url[1..], '/');
        RunBeforeFree(url[1..], '/');
        var v, tail := url[1..1 + k], url[1 + k..];
        assert v == url[1..][..k];
        assert url == "/" + v + tail;
        MatchSlot(parts, v, tail);
        MatchSound(parts[1..], tail);
        FillSlot(parts, v, Match(parts[1..], tail).value);
      }
    }
  }

  /** Filling a leading slot with a segment puts `/` and the segment before the rest. */
  lemma FillSlot(parts: seq<RoutePart>, v: string, rest: seq<string>)
    requires parts != [] && parts[0].Slot?
    requires Segment(v)
    requires |rest| == |SlotNames(parts[1..])|
    requires forall i :: 0 <= i < |rest| ==> Segment(rest[i])
    ensures |[v] + rest| == |SlotNames(parts)|
    ensures forall i :: 0 <= i < |[v] + rest| ==> Segment(([v] + rest)[i])
    ensures Fill(parts, [v] + rest) == "/" + v + Fill(parts[1..], rest)
  {
    var vs := [v] + rest;
    assert vs[0] == v && vs[1..] == rest;
    forall i | 0 <= i < |vs|
      ensures Segment(vs[i])
    {
      if i > 0 {
        assert vs[i] == rest[i - 1];
      }
    }
  }

  /** Dropping the first part keeps the slots delimited. */
  lemma DelimitedTail(parts: seq<RoutePart>)
    requires parts != [] && SlotsDelimited(parts)
    ensures SlotsDelimited(parts[1..])
  {
    forall i | 0 <= i < |parts[1..]| - 1 && parts[1..][i].Slot?
      ensures parts[1..][i + 1] == Lit('/') || parts[1..][i + 1].Slot?
    {
      assert parts[1..][i] == parts[i + 1];
    }
  }

  /** A slot captures the run up to the next `/`, and the rest of the route must match what follows. */
  lemma MatchSlotStep(parts: seq<RoutePart>, url: string, k: nat)
    requires parts != [] && parts[0].Slot?
    requires url != [] && url[0] == '/'
    requires 0 < k == RunBefore(url[1..], '/')
    ensures Match(parts, url) ==
      match Match(parts[1..], url[1 + k..])
      case None => None
      case Some(rest) => Some([url[1..1 + k]] + rest)
  {
  }

  /** A slot captures a segment that the rest of the URL, starting at `/` or empty, does not extend. */
  lemma MatchSlot(parts: seq<RoutePart>, v: string, tail: string)
    requires parts != [] && parts[0].Slot?
    requires Segment(v)
    requires tail == [] || tail[0] == '/'
    ensures Match(parts, "/" + v + tail) ==
      match Match(parts[1..], tail)
      case None => None
      case Some(rest) => Some([v] + rest)
  {
    var url := "/" + v + tail;
    assert url[1..] == v + tail;
    RunBeforeOf(v, '/', tail);
    assert url[1..1 + |v|] == v;
    assert url[1 + |v|..] == tail;
    MatchSlotStep(parts, url, |v|);
  }

  /** Completeness: filling delimited slots with segments gives a URL the route matches, capturing those segments back. */
  lemma {:induction false} MatchComplete(parts: seq<RoutePart>, values: seq<string>)
    requires SlotsDelimited(parts)
    requires |values| == |SlotNames(parts)|
    requires forall i :: 0 <= i < |values| ==> Segment(values[i])
    ensures Match(parts, Fill(parts, values)) == Some(values)
    decreases |parts|
  {
    if parts != [] {
      DelimitedTail(parts);
      if parts[0].Lit? {
        MatchComplete(parts[1..], values);
        assert Fill(parts, values)[1..] == Fill(parts[1..], values);
      } else {
        var tail := Fill(parts[1..], values[1..]);
        assert Segment(values[0]);
        MatchComplete(parts[1..], values[1..]);
        assert tail == [] || tail[0] == '/' by {
          if tail != [] {
            assert parts[1] == Lit('/') || parts[1].Slot?;
          }
        }
        MatchSlot(parts, values[0], tail);
        assert [values[0]] + values[1..] == values;
      }
    }
  }

  /** Which values fill a route is unique: a URL matches exactly when some segments fill the route to give it. */
  lemma MatchExactly(route: string, url: string, values: seq<string>)
    requires |values| == |ParamNames(route)|
    ensures Match(RouteParts(route), url) == Some(values) <==>
      (forall i :: 0 <= i < |values| ==> Segment(values[i])) && Fill(RouteParts(route), values) == url
  {
    var parts := RouteParts(route);
    if Match(parts, url) == Some(values) {
      MatchSound(parts, url);
    }
    if (forall i :: 0 <= i < |values| ==> Segment(values[i])) && Fill(parts, values) == url {
      MatchComplete(parts, values);
    }
  }

  /** `params[names[i]] = captures[i]` for each i in turn: first insertion fixes the position, the last write the value. */
  function Bind(names: seq<string>, captures: seq<string>): (d: Dict<JsVal>)
    requires |names| == |captures|
    ensures forall k :: k in d.at <==> k in names
    decreases |names|
  {
    if names == [] then EmptyDict()
    else
      var n := |names| - 1;
      assert names == names[..n] + [names[n]];
      DictSet(Bind(names[..n], captures[..n]), names[n], Str(captures[n]))
  }

  /** Binding one more name extends the binding of the prefix by that name. */
  lemma BindStep(names: seq<string>, captures: seq<string>, i: nat)
    requires |names| == |captures|
    requires i < |names|
    ensures Bind(names[..i + 1], captures[..i + 1]) ==
      DictSet(Bind(names[..i], captures[..i]), names[i], Str(captures[i]))
  {
    var ns, cs := names[..i + 1], captures[..i + 1];
    assert ns[..i] == names[..i] && cs[..i] == captures[..i];
    assert ns[i] == names[i] && cs[i] == captures[i];
  }

  /** Each bound name holds the capture of its last occurrence. */
  lemma {:induction false} BindLastWins(names: seq<string>, captures: seq<string>, i: nat)
    requires |names| == |captures|
    requires i < |names|
    requires forall j :: i < j < |names| ==> names[j] != names[i]
    ensures Bind(names, captures).at[names[i]] == Str(captures[i])
    decreases |names|
  {
    var n := |names| - 1;
    var front, caps := names[..n], captures[..n];
    var prev := Bind(front, caps);
    assert Bind(names, captures).at == prev.at[names[n] := Str(captures[n])];
    if i < n {
      assert front[i] == names[i] && caps[i] == captures[i];
      assert forall j :: i < j < n ==> front[j] != front[i] by {
        forall j | i < j < n ensures front[j] != front[i] {
          assert front[j] == names[j];
        }
      }
      BindLastWins(front, caps, i);
      assert names[n] != names[i];
    }
  }

  /** The position of the last occurrence of `k`. */
  lemma {:induction false} LastIndexOf(names: seq<string>, k: string) returns (i: nat)
    requires k in names
    ensures i < |names| && names[i] == k
    ensures forall j :: i < j < |names| ==> names[j] != k
    decreases |names|
  {
    var n := |names| - 1;
    if names[n] == k {
      i := n;
    } else {
      assert k in names[..n] by {
        var m :| 0 <= m < |names| && names[m] == k;
        assert names[..n][m] == k;
      }
      i := LastIndexOf(names[..n], k);
    }
  }

  /** Substituting a value for each name and extracting gives the values back: the round trip of `extractPathParams`. */
  lemma SubstituteExtract(route: string, values: map<string, string>)
    requires forall k :: k in ParamNames(route) ==> k in values && Segment(values[k])
    ensures var names := ParamNames(route);
      var caps := seq(|names|, i requires 0 <= i < |names| => values[names[i]]);
      Match(RouteParts(route), Fill(RouteParts(route), caps)) == Some(caps) &&
      forall k :: k in Bind(names, caps).at <==> k in names
    ensures var names := ParamNames(route);
      var caps := seq(|names|, i requires 0 <= i < |names| => values[names[i]]);
      forall k :: k in names ==> Bind(names, caps).at[k] == Str(values[k])
  {
    var names := ParamNames(route);
    var caps := seq(|names|, i requires 0 <= i < |names| => values[names[i]]);
    MatchComplete(RouteParts(route), caps);
    forall k | k in names ensures Bind(names, caps).at[k] == Str(values[k]) {
      var i := LastIndexOf(names, k);
      BindLastWins(names, caps, i);
    }
  }
}
