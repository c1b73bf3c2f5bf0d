// The API designer's OpenAPI 3.1.1 export of a project: the fixed header,
// the info block with empty contact, license and terms dropped, one path
// entry per endpoint path holding an operation per lower-cased method, the
// servers that have a URL, and the cleaned schemas.
module OpenApiExport {
  import opened Wrappers
  import opened Strings
  import opened Json
  import opened DesignerProject
  import opened SchemaExport

  const OPENAPI_VERSION: string := "3.1.1"
  const DIALECT: string := "https://json-schema.org/draft/2020-12/schema"
  const CONTACT_KEYS: seq<string> := ["name", "email", "url"]
  const LICENSE_KEYS: seq<string> := ["name", "url"]

  // ---------------------------------------------------------------- info

  /** `...(c[k] ? {[k]: c[k]} : {})` for each of `keys`, in order. */
  function TruthyPairs(c: Value, keys: seq<string>): Fields
    decreases |keys|
  {
    if keys == [] then []
    else
      var t := TruthyPairs(c, keys[..|keys| - 1]);
      var k := keys[|keys| - 1];
      if Truthy(Prop(c, k)) then Set(t, k, Prop(c, k)) else t
  }

  /** The contact or license block: present only when one of its fields is
    * truthy, and then carrying only the truthy ones. */
  function SubObject(c: Value, keys: seq<string>): Value
  {
    if Truthy(c) && exists k :: k in keys && Truthy(Prop(c, k)) then Obj(TruthyPairs(c, keys)) else Undefined
  }

  function Info(p: Project): Value
  {
    Obj([("title", Get(p, "name")),
         ("description", Get(p, "description")),
         ("version", Get(p, "version")),
         ("contact", SubObject(Get(p, "contact"), CONTACT_KEYS)),
         ("termsOfService", Or(Get(p, "termsOfService"), Undefined)),
         ("license", SubObject(Get(p, "license"), LICENSE_KEYS))])
  }

  // ---------------------------------------------------------------- servers

  /** A server that is exported: truthy and with a truthy URL. */
  predicate Listed(s: Value) { Truthy(s) && Truthy(Prop(s, "url")) }

  function ServerEntry(s: Value): Value
  {
    Obj([("url", Prop(s, "url")), ("description", Or(Prop(s, "description"), Undefined))])
  }

  /** `xs.filter(keep).map(f)`. */
  function FilterMap(xs: seq<Value>, keep: Value -> bool, f: Value -> Value): seq<Value>
    decreases |xs|
  {
    if xs == [] then []
    else
      var last := xs[|xs| - 1];
      FilterMap(xs[..|xs| - 1], keep, f) + (if keep(last) then [f(last)] else [])
  }

  /** `servers.filter(s => s && s.url).map(...)`. */
  function ListedServers(servers: seq<Value>): seq<Value>
  {
    FilterMap(servers, Listed, ServerEntry)
  }

  /** The servers of a non-empty array; none for anything else. */
  function Servers(v: Value): Value
  {
    if v.Arr? && |v.items| > 0 then Arr(ListedServers(v.items)) else Undefined
  }

  // ---------------------------------------------------------------- paths

  /** The parameters when they are a non-empty array. */
  function Parameters(e: Value): Value
  {
    var ps := Prop(e, "parameters");
    if ps.Arr? && |ps.items| > 0 then ps else Undefined
  }

  /** The request body when its content has at least one key. */
  function RequestBody(e: Value): Value
  {
    var rb := Prop(e, "requestBody");
    if Truthy(rb) && Truthy(Prop(rb, "content")) && KeyCount(Prop(rb, "content")) > 0 then rb else Undefined
  }

  const DEFAULT_RESPONSES: Value := Obj([("200", Obj([("description", Str("Success"))]))])

  /** The responses when there is at least one, else a single '200'. */
  function Responses(e: Value): Value
  {
    var rs := Prop(e, "responses");
    if Truthy(rs) && KeyCount(rs) > 0 then rs else DEFAULT_RESPONSES
  }

  function Operation(e: Value): Value
  {
    Obj([("summary", Prop(e, "summary")),
         ("description", Prop(e, "description")),
         ("parameters", Parameters(e)),
         ("requestBody", RequestBody(e)),
         ("responses", Responses(e))])
  }

  /** The property key `paths[endpoint.path]` uses. */
  function PathKey(e: Value): string { JsString(Prop(e, "path")) }

  /** `endpoint.method.toLowerCase()`; a null endpoint or a method that is
    * not text throws. */
  function MethodName(e: Value): (r: Result<string>)
    ensures r.Ok? <==> HasMethod(e)
  {
    if IsNullish(e) then Err(TypeError("cannot read path of null"))
    else match Prop(e, "method")
      case Str(m) => Ok(ToLower(m))
      case _ => Err(TypeError("method.toLowerCase is not a function"))
  }

  /** An endpoint whose method can be lower-cased. */
  predicate HasMethod(e: Value)
  {
    !IsNullish(e) && Prop(e, "method").Str?
  }

  /** One step of the reduce: the path's entry, created empty when missing,
    * gets the endpoint's operation, as `op` makes it, under its method. */
  function AddOperation(paths: Fields, e: Value, op: Value -> Value): Result<Fields>
  {
    match MethodName(e)
    case Err(f) => Err(f)
    case Ok(m) =>
      var k := PathKey(e);
      var entry := if Truthy(Get(paths, k)) then Get(paths, k) else Obj([]);
      Ok(Set(paths, k, With(entry, m, op(e))))
  }

  /** The reduce over the endpoints. */
  function Grouped(endpoints: seq<Value>, op: Value -> Value): Result<Fields>
    decreases |endpoints|
  {
    if endpoints == [] then Ok([])
    else
      match Grouped(endpoints[..|endpoints| - 1], op)
      case Err(f) => Err(f)
      case Ok(paths) => AddOperation(paths, endpoints[|endpoints| - 1], op)
  }

  /** The document's `paths`. */
  function Paths(endpoints: seq<Value>): Result<Fields>
  {
    Grouped(endpoints, Operation)
  }

  /** Reference definition: the operation of the last endpoint with that
    * path and method. */
  function LastOperation(endpoints: seq<Value>, path: string, m: string, op: Value -> Value): (r: Value)
    ensures (forall i :: 0 <= i < |endpoints| ==> PathKey(endpoints[i]) != path) ==> r == Undefined
    decreases |endpoints|
  {
    if endpoints == [] then Undefined
    else
      var last := endpoints[|endpoints| - 1];
      if PathKey(last) == path && MethodName(last) == Ok(m) then op(last)
      else
        var init := endpoints[..|endpoints| - 1];
        assert forall i :: 0 <= i < |init| ==> init[i] == endpoints[i];
        LastOperation(init, path, m, op)
  }

  /** The exported document; reducing endpoints or schemas that are not
    * arrays throws. */
  function Spec(p: Project): Result<Value>
  {
    var endpoints := Get(p, "endpoints");
    var schemas := Get(p, "schemas");
    if !endpoints.Arr? then Err(TypeError("endpoints.reduce is not a function"))
    else match Paths(endpoints.items)
      case Err(f) => Err(f)
      case Ok(paths) =>
        if !schemas.Arr? then Err(TypeError("schemas.reduce is not a function"))
        else match Schemas(schemas.items)
          case Err(f) => Err(f)
          case Ok(ss) => Ok(Document(Info(p), paths, Servers(Get(p, "servers")), ss))
  }

  function Document(info: Value, paths: Fields, servers: Value, schemas: Fields): Value
  {
    Obj([("openapi", Str(OPENAPI_VERSION)),
         ("jsonSchemaDialect", Str(DIALECT)),
         ("info", info),
         ("paths", Obj(paths)),
         ("servers", servers),
         ("components", Obj([("schemas", Obj(schemas))]))])
  }

  // ---------------------------------------------------------------- the loops

  /** The reduce over the endpoints, filling `paths` in place. */
  method BuildPaths(endpoints: seq<Value>) returns (r: Result<Fields>)
    ensures r == Paths(endpoints)
  {
    var paths: Fields := [];
    for i := 0 to |endpoints|
      invariant Grouped(endpoints[..i], Operation) == Ok(paths)
    {
      var e := endpoints[i];
      var q := endpoints[..i + 1];
      assert q[..|q| - 1] == endpoints[..i];
      assert q[|q| - 1] == e;
      var m := MethodName(e);
      if m.Err? {
        PathsErrSticky(endpoints, i + 1);
        return Err(m.error);
      }
      var k := PathKey(e);
      if !Truthy(Get(paths, k)) {
        SetTwice(paths, k, Obj([]), With(Obj([]), m.value, Operation(e)));
        paths := Set(paths, k, Obj([]));
      }
      paths := Set(paths, k, With(Get(paths, k), m.value, Operation(e)));
    }
    assert endpoints[..|endpoints|] == endpoints;
    r := Ok(paths);
  }

  lemma {:induction false} PathsErrSticky(endpoints: seq<Value>, i: nat)
    requires i <= |endpoints|
    requires Grouped(endpoints[..i], Operation).Err?
    ensures Grouped(endpoints, Operation) == Grouped(endpoints[..i], Operation)
    decreases |endpoints| - i
  {
    if i == |endpoints| {
      assert endpoints[..i] == endpoints;
    } else {
      var q := endpoints[..i + 1];
      assert q[..|q| - 1] == endpoints[..i];
      PathsErrSticky(endpoints, i + 1);
    }
  }

  /** `exportSpec`'s document, built with the two reduce loops. */
  method ExportSpec(p: Project) returns (r: Result<Value>)
    ensures r == Spec(p)
  {
    var endpoints := Get(p, "endpoints");
    if !endpoints.Arr? {
      return Err(TypeError("endpoints.reduce is not a function"));
    }
    var paths := BuildPaths(endpoints.items);
    if paths.Err? {
      return Err(paths.error);
    }
    var schemas := Get(p, "schemas");
    if !schemas.Arr? {
      return Err(TypeError("schemas.reduce is not a function"));
    }
    var ss := BuildSchemas(schemas.items);
    if ss.Err? {
      return Err(ss.error);
    }
    r := Ok(Document(Info(p), paths.value, Servers(Get(p, "servers")), ss.value));
  }

  // ---------------------------------------------------------------- properties

  lemma {:induction false} TruthyPairsRules(c: Value, keys: seq<string>)
    ensures forall k :: HasKey(TruthyPairs(c, keys), k) <==> k in keys && Truthy(Prop(c, k))
    ensures forall k :: Get(TruthyPairs(c, keys), k) == if k in keys && Truthy(Prop(c, k)) then Prop(c, k) else Undefined
    decreases |keys|
  {
    var r := TruthyPairs(c, keys);
    if keys == [] {
      forall k ensures Get(r, k) == Undefined { GetAbsent(r, k); }
    } else {
      var init := keys[..|keys| - 1];
      var k0 := keys[|keys| - 1];
      assert keys == init + [k0];
      assert forall k :: k in keys <==> k in init || k == k0;
      TruthyPairsRules(c, init);
      if Truthy(Prop(c, k0)) {
        SetHasKey(TruthyPairs(c, init), k0, Prop(c, k0));
      }
    }
  }

  /** A block is exported exactly when one of its fields is truthy, and it
    * then carries exactly the truthy fields with their values. */
  lemma SubObjectRules(c: Value, keys: seq<string>)
    ensures SubObject(c, keys).Undefined? <==> forall k :: k in keys ==> !Truthy(Prop(c, k))
    ensures SubObject(c, keys) != Undefined ==>
      && SubObject(c, keys).Obj?
      && (forall k :: HasKey(SubObject(c, keys).fields, k) <==> k in keys && Truthy(Prop(c, k)))
      && (forall k :: k in keys ==> Prop(SubObject(c, keys), k) == if Truthy(Prop(c, k)) then Prop(c, k) else Undefined)
  {
    TruthyPairsRules(c, keys);
    if !c.Obj? {
      assert forall k :: Prop(c, k) == Undefined;
    }
  }

  /** The info block: the project's name, description and version; the
    * contact and license blocks as above; the terms of service only when
    * truthy. */
  lemma InfoRules(p: Project)
    ensures Prop(Info(p), "title") == Get(p, "name")
    ensures Prop(Info(p), "description") == Get(p, "description")
    ensures Prop(Info(p), "version") == Get(p, "version")
    ensures Prop(Info(p), "contact") == SubObject(Get(p, "contact"), CONTACT_KEYS)
    ensures Prop(Info(p), "termsOfService") == if Truthy(Get(p, "termsOfService")) then Get(p, "termsOfService") else Undefined
    ensures Prop(Info(p), "license") == SubObject(Get(p, "license"), LICENSE_KEYS)
  {
    InfoFields(Get(p, "name"), Get(p, "description"), Get(p, "version"),
               SubObject(Get(p, "contact"), CONTACT_KEYS), Or(Get(p, "termsOfService"), Undefined),
               SubObject(Get(p, "license"), LICENSE_KEYS));
  }

  /** Reading back the six fields of an info block. */
  lemma InfoFields(title: Value, description: Value, version: Value, contact: Value, terms: Value, license: Value)
    ensures var info := Obj([("title", title), ("description", description), ("version", version),
                             ("contact", contact), ("termsOfService", terms), ("license", license)]);
      && Prop(info, "title") == title && Prop(info, "description") == description
      && Prop(info, "version") == version && Prop(info, "contact") == contact
      && Prop(info, "termsOfService") == terms && Prop(info, "license") == license
  {
    var fs := [("title", title), ("description", description), ("version", version),
               ("contact", contact), ("termsOfService", terms), ("license", license)];
    GetAt(fs, 0);
    GetAt(fs, 1);
    GetAt(fs, 2);
    GetAt(fs, 3);
    GetAt(fs, 4);
    GetAt(fs, 5);
  }

  /** The exported servers are the truthy ones with a truthy URL, in order,
    * each with its URL and its description when truthy. */
  lemma ListedServersRules(servers: seq<Value>)
    ensures forall x :: x in ListedServers(servers) <==> exists i :: 0 <= i < |servers| && Listed(servers[i]) && x == ServerEntry(servers[i])
    ensures (forall i :: 0 <= i < |servers| ==> Listed(servers[i])) ==>
      |ListedServers(servers)| == |servers| && forall i :: 0 <= i < |servers| ==> ListedServers(servers)[i] == ServerEntry(servers[i])
    ensures |ListedServers(servers)| <= |servers|
  {
    FilterMapRules(servers, Listed, ServerEntry);
  }

  lemma {:induction false} FilterMapRules(xs: seq<Value>, keep: Value -> bool, f: Value -> Value)
    ensures forall x :: x in FilterMap(xs, keep, f) <==> exists i :: 0 <= i < |xs| && keep(xs[i]) && x == f(xs[i])
    ensures (forall i :: 0 <= i < |xs| ==> keep(xs[i])) ==>
      |FilterMap(xs, keep, f)| == |xs| && forall i :: 0 <= i < |xs| ==> FilterMap(xs, keep, f)[i] == f(xs[i])
    ensures |FilterMap(xs, keep, f)| <= |xs|
    decreases |xs|
  {
    if xs != [] {
      var init := xs[..|xs| - 1];
      var last := xs[|xs| - 1];
      FilterMapRules(init, keep, f);
      assert forall i :: 0 <= i < |init| ==> init[i] == xs[i];
      var r := FilterMap(xs, keep, f);
      assert r == FilterMap(init, keep, f) + (if keep(last) then [f(last)] else []);
      forall x | x in r ensures exists i :: 0 <= i < |xs| && keep(xs[i]) && x == f(xs[i]) {
        if x in FilterMap(init, keep, f) {
          var i :| 0 <= i < |init| && keep(init[i]) && x == f(init[i]);
          assert xs[i] == init[i];
        } else {
          assert keep(xs[|xs| - 1]) && x == f(xs[|xs| - 1]);
        }
      }
      if forall i :: 0 <= i < |xs| ==> keep(xs[i]) {
        assert keep(xs[|xs| - 1]);
        assert forall i :: 0 <= i < |init| ==> keep(init[i]);
        assert r == FilterMap(init, keep, f) + [f(last)];
        forall i | 0 <= i < |xs| ensures r[i] == f(xs[i]) {
          if i < |init| {
            assert r[i] == FilterMap(init, keep, f)[i];
          }
        }
      }
    }
  }

  /** Servers are exported from a non-empty array only. */
  lemma ServersRules(v: Value)
    ensures Servers(v).Undefined? <==> !(v.Arr? && |v.items| > 0)
    ensures v.Arr? && |v.items| > 0 ==> Servers(v) == Arr(ListedServers(v.items))
    ensures Prop(ServerEntry(Obj([("url", Str("u")), ("description", Str(""))])), "description") == Undefined
  {
    var fs: Fields := [("url", Prop(Obj([("url", Str("u")), ("description", Str(""))]), "url")),
                       ("description", Or(Prop(Obj([("url", Str("u")), ("description", Str(""))]), "description"), Undefined))];
    GetAt(fs, 1);
  }

  /** An operation: the summary and description as given, the parameters
    * only when a non-empty array, the request body only when its content
    * has keys, and the responses or a single '200' "Success". */
  lemma OperationRules(e: Value)
    ensures Prop(Operation(e), "summary") == Prop(e, "summary")
    ensures Prop(Operation(e), "description") == Prop(e, "description")
    ensures var ps := Prop(e, "parameters");
      Prop(Operation(e), "parameters") == if ps.Arr? && ps.items != [] then ps else Undefined
    ensures var rb := Prop(e, "requestBody");
      Prop(Operation(e), "requestBody") == if Truthy(rb) && KeyCount(Prop(rb, "content")) > 0 then rb else Undefined
    ensures var rs := Prop(e, "responses");
      Prop(Operation(e), "responses") == if Truthy(rs) && KeyCount(rs) > 0 then rs else DEFAULT_RESPONSES
  {
    var fs := Operation(e).fields;
    GetAt(fs, 0);
    GetAt(fs, 1);
    GetAt(fs, 2);
    GetAt(fs, 3);
    GetAt(fs, 4);
    var content := Prop(Prop(e, "requestBody"), "content");
    if KeyCount(content) > 0 {
      EntriesTruthy(content);
    }
  }

  /** A value with keys is truthy. */
  lemma EntriesTruthy(v: Value)
    requires KeyCount(v) > 0
    ensures Truthy(v)
  {
  }

  /** Building the paths throws exactly when an endpoint is null or has a
    * method that is not text. */
  lemma {:induction false} PathsErr(endpoints: seq<Value>, op: Value -> Value)
    ensures Grouped(endpoints, op).Ok? <==> forall i :: 0 <= i < |endpoints| ==> HasMethod(endpoints[i])
    decreases |endpoints|
  {
    if endpoints != [] {
      var init := endpoints[..|endpoints| - 1];
      var last := endpoints[|endpoints| - 1];
      GroupedStep(endpoints, op);
      PathsErr(init, op);
      if Grouped(init, op).Err? {
        var i :| 0 <= i < |init| && !HasMethod(init[i]);
        assert endpoints[i] == init[i];
      } else if !HasMethod(last) {
        assert !HasMethod(endpoints[|endpoints| - 1]);
      } else {
        AllHaveMethod(endpoints, init);
      }
    }
  }

  lemma AllHaveMethod(endpoints: seq<Value>, init: seq<Value>)
    requires endpoints != [] && init == endpoints[..|endpoints| - 1]
    requires forall i :: 0 <= i < |init| ==> HasMethod(init[i])
    requires HasMethod(endpoints[|endpoints| - 1])
    ensures forall i :: 0 <= i < |endpoints| ==> HasMethod(endpoints[i])
  {
    forall i | 0 <= i < |endpoints| ensures HasMethod(endpoints[i]) {
      if i < |init| { assert endpoints[i] == init[i]; }
    }
  }

  /** One step of the reduce succeeds when the earlier ones did and the
    * endpoint has a method. */
  lemma GroupedStep(endpoints: seq<Value>, op: Value -> Value)
    requires endpoints != []
    ensures Grouped(endpoints, op).Ok?
            <==> Grouped(endpoints[..|endpoints| - 1], op).Ok? && HasMethod(endpoints[|endpoints| - 1])
  {
  }

  /** The step writes the endpoint's operation into its path's entry. */
  lemma GroupedValue(endpoints: seq<Value>, op: Value -> Value)
    requires endpoints != [] && Grouped(endpoints, op).Ok?
    ensures var acc := Grouped(endpoints[..|endpoints| - 1], op).value;
      var last := endpoints[|endpoints| - 1];
      var k := PathKey(last);
      && Grouped(endpoints[..|endpoints| - 1], op).Ok?
      && Grouped(endpoints, op).value
         == Set(acc, k, With(if Truthy(Get(acc, k)) then Get(acc, k) else Obj([]), MethodName(last).value, op(last)))
  {
    var init := endpoints[..|endpoints| - 1];
    var last := endpoints[|endpoints| - 1];
    assert Grouped(init, op).Ok?;
    assert Grouped(endpoints, op) == AddOperation(Grouped(init, op).value, last, op);
    AddOperationValue(Grouped(init, op).value, last, op);
  }

  /** A step that succeeds writes the operation under the method's name. */
  lemma AddOperationValue(paths: Fields, e: Value, op: Value -> Value)
    requires AddOperation(paths, e, op).Ok?
    ensures MethodName(e).Ok?
    ensures var k := PathKey(e);
      AddOperation(paths, e, op).value
      == Set(paths, k, With(if Truthy(Get(paths, k)) then Get(paths, k) else Obj([]), MethodName(e).value, op(e)))
  {
  }

  /** Every path of the endpoints has an entry, and only those; each entry
    * is an object. */
  lemma {:induction false} PathsShape(endpoints: seq<Value>, op: Value -> Value)
    requires Grouped(endpoints, op).Ok?
    ensures forall k :: HasKey(Grouped(endpoints, op).value, k) <==> exists i :: 0 <= i < |endpoints| && PathKey(endpoints[i]) == k
    ensures forall k :: HasKey(Grouped(endpoints, op).value, k) ==> Get(Grouped(endpoints, op).value, k).Obj?
    decreases |endpoints|
  {
    if endpoints != [] {
      var init := endpoints[..|endpoints| - 1];
      var last := endpoints[|endpoints| - 1];
      GroupedValue(endpoints, op);
      PathsShape(init, op);
      var acc := Grouped(init, op).value;
      var k0 := PathKey(last);
      var entry := if Truthy(Get(acc, k0)) then Get(acc, k0) else Obj([]);
      ShapeStep(endpoints, init, acc, With(entry, MethodName(last).value, op(last)));
    }
  }

  /** What one step does to the set of paths and the shape of their entries. */
  lemma ShapeStep(endpoints: seq<Value>, init: seq<Value>, acc: Fields, x: Value)
    requires endpoints != [] && init == endpoints[..|endpoints| - 1] && x.Obj?
    requires forall k :: HasKey(acc, k) <==> exists i :: 0 <= i < |init| && PathKey(init[i]) == k
    requires forall k :: HasKey(acc, k) ==> Get(acc, k).Obj?
    ensures var ps := Set(acc, PathKey(endpoints[|endpoints| - 1]), x);
      && (forall k :: HasKey(ps, k) <==> exists i :: 0 <= i < |endpoints| && PathKey(endpoints[i]) == k)
      && (forall k :: HasKey(ps, k) ==> Get(ps, k).Obj?)
  {
    var k0 := PathKey(endpoints[|endpoints| - 1]);
    SetHasKey(acc, k0, x);
    forall k ensures HasKey(acc, k) || k == k0 <==> exists i :: 0 <= i < |endpoints| && PathKey(endpoints[i]) == k {
      KeyStep(endpoints, init, k);
    }
  }

  /** A path belongs to the endpoints when it belongs to the earlier ones or
    * to the last. */
  lemma KeyStep(endpoints: seq<Value>, init: seq<Value>, k: string)
    requires endpoints != [] && init == endpoints[..|endpoints| - 1]
    ensures (exists i :: 0 <= i < |endpoints| && PathKey(endpoints[i]) == k)
            <==> (exists i :: 0 <= i < |init| && PathKey(init[i]) == k) || PathKey(endpoints[|endpoints| - 1]) == k
  {
    if exists i :: 0 <= i < |init| && PathKey(init[i]) == k {
      var i :| 0 <= i < |init| && PathKey(init[i]) == k;
      assert endpoints[i] == init[i];
    }
    if exists i :: 0 <= i < |endpoints| && PathKey(endpoints[i]) == k {
      var i :| 0 <= i < |endpoints| && PathKey(endpoints[i]) == k;
      if i < |init| { assert init[i] == endpoints[i]; }
    }
  }

  /** Paths group the endpoints by path and key them by lower-cased method;
    * of two endpoints with the same path and method the later one wins. */
  lemma {:induction false} PathsLookup(endpoints: seq<Value>, op: Value -> Value, path: string, m: string)
    requires Grouped(endpoints, op).Ok?
    ensures Prop(Get(Grouped(endpoints, op).value, path), m) == LastOperation(endpoints, path, m, op)
    decreases |endpoints|
  {
    if endpoints == [] {
      GetAbsent([], path);
    } else {
      var init := endpoints[..|endpoints| - 1];
      var last := endpoints[|endpoints| - 1];
      GroupedValue(endpoints, op);
      PathsLookup(init, op, path, m);
      var acc := Grouped(init, op).value;
      var k0 := PathKey(last);
      var m0 := MethodName(last).value;
      var entry := if Truthy(Get(acc, k0)) then Get(acc, k0) else Obj([]);
      LookupStep(acc, k0, entry, m0, op(last), path, m);
      if path == k0 && m != m0 && !Truthy(Get(acc, k0)) {
        PathsShape(init, op);
        NoPath(acc, init, path);
      }
    }
  }

  /** A path with no truthy entry belongs to no endpoint. */
  lemma NoPath(acc: Fields, init: seq<Value>, path: string)
    requires forall k :: HasKey(acc, k) <==> exists i :: 0 <= i < |init| && PathKey(init[i]) == k
    requires forall k :: HasKey(acc, k) ==> Get(acc, k).Obj?
    requires !Truthy(Get(acc, path))
    ensures forall i :: 0 <= i < |init| ==> PathKey(init[i]) != path
  {
  }

  /** Reading a path and method back after one step. */
  lemma LookupStep(acc: Fields, k0: string, entry: Value, m0: string, y: Value, path: string, m: string)
    ensures Prop(Get(Set(acc, k0, With(entry, m0, y)), path), m)
            == if path != k0 then Prop(Get(acc, path), m) else if m == m0 then y else Prop(entry, m)
  {
  }

  /** Exporting throws exactly when the endpoints or the schemas are not
    * arrays, an endpoint is null or has a method that is not text, or a
    * schema is null. */
  lemma SpecErr(p: Project)
    ensures Spec(p).Ok? <==>
      && Get(p, "endpoints").Arr? && Get(p, "schemas").Arr?
      && (forall i :: 0 <= i < |Get(p, "endpoints").items| ==> HasMethod(Get(p, "endpoints").items[i]))
      && (forall i :: 0 <= i < |Get(p, "schemas").items| ==> !IsNullish(Get(p, "schemas").items[i]))
  {
    if Get(p, "endpoints").Arr? {
      PathsErr(Get(p, "endpoints").items, Operation);
      if Get(p, "schemas").Arr? {
        ReduceErr(Get(p, "schemas").items, SchemaObject);
      }
    }
  }

  /** The exported document is the fixed header, the info block, the paths,
    * the servers and the schemas. */
  lemma SpecShape(p: Project)
    requires Spec(p).Ok?
    ensures Get(p, "endpoints").Arr? && Paths(Get(p, "endpoints").items).Ok?
    ensures Get(p, "schemas").Arr? && Schemas(Get(p, "schemas").items).Ok?
    ensures Spec(p).value == Document(Info(p), Paths(Get(p, "endpoints").items).value,
                                      Servers(Get(p, "servers")), Schemas(Get(p, "schemas").items).value)
  {
  }

  /** The document's fields read back. */
  lemma DocumentRules(info: Value, paths: Fields, servers: Value, schemas: Fields)
    ensures var d := Document(info, paths, servers, schemas);
      && Prop(d, "openapi") == Str(OPENAPI_VERSION)
      && Prop(d, "jsonSchemaDialect") == Str(DIALECT)
      && Prop(d, "info") == info
      && Prop(d, "paths") == Obj(paths)
      && Prop(d, "servers") == servers
      && Prop(Prop(d, "components"), "schemas") == Obj(schemas)
  {
    var fs := Document(info, paths, servers, schemas).fields;
    GetAt(fs, 0);
    GetAt(fs, 1);
    GetAt(fs, 2);
    GetAt(fs, 3);
    GetAt(fs, 4);
    GetAt(fs, 5);
    GetAt([("schemas", Obj(schemas))], 0);
  }
}
