// The endpoint editor of the API designer. Each handler builds an update
// for the edited endpoint — new `parameters`, `requestBody` or `responses` —
// from the endpoint as it is, and hands it to the project's
// `updateEndpoint`, which merges it into every endpoint with that id.
// Object spreads copy an object's pairs and a written key keeps its place
// (a new key goes last); `x || {}` and `x?.y` read missing parts as empty.
module EndpointEditor {
  import opened Wrappers
  import opened Strings
  import opened Json
  import opened DesignerProject
  import SchemaEditor

  const JSON_CONTENT: string := "application/json"

  /** What `addParameter` appends. */
  const NEW_PARAMETER: Value := Obj([("name", Str("newParam")), ("in", Str("query")),
                                     ("required", Bool(false)), ("schema", Obj([("type", Str("string"))]))])

  /** The schema a content type is read as when it has none. */
  const DEFAULT_SCHEMA: Value := Obj([("type", Str("object")), ("properties", Obj([]))])

  /** The fragment `addSchemaProperty` writes. */
  const NEW_SCHEMA_PROPERTY: Value := Obj([("type", Str("string")), ("description", Str(""))])

  /** `handleUpdate(updates)`: `updateEndpoint(endpoint.id, updates)`. */
  function Edit(p: Project, endpoint: Value, updates: Result<Value>): Result<Project>
  {
    match updates
    case Err(e) => Err(e)
    case Ok(u) => UpdateEndpoint(p, Prop(endpoint, "id"), u)
  }

  // ---------------------------------------------------------------- parameters

  function ParametersOf(endpoint: Value): Value
  {
    Or(Prop(endpoint, "parameters"), Arr([]))
  }

  /** `[...(endpoint.parameters || []), newParam]`. */
  function AddParameter(endpoint: Value): Result<Value>
  {
    match SchemaEditor.SpreadList(ParametersOf(endpoint), "parameters")
    case Err(e) => Err(e)
    case Ok(xs) => Ok(Obj([("parameters", Arr(xs + [NEW_PARAMETER]))]))
  }

  /** `n` holes, which read as `undefined`. */
  function Holes(n: nat): (r: seq<Value>)
    ensures |r| == n && forall i :: 0 <= i < n ==> r[i] == Undefined
  {
    seq(n, i => Undefined)
  }

  /** `xs[index] = v` on an array: past the end the array grows, with holes
    * before the new element. */
  function Store(xs: seq<Value>, index: nat, v: Value): seq<Value>
  {
    if index < |xs| then xs[index := v] else xs + Holes(index - |xs|) + [v]
  }

  /** The element at `index`, `undefined` past the end. */
  function At(xs: seq<Value>, index: nat): Value
  {
    if index < |xs| then xs[index] else Undefined
  }

  /** `updatedParams[index] = { ...updatedParams[index], ...updates }`. */
  function UpdateParameter(endpoint: Value, index: nat, updates: Value): Result<Value>
  {
    match SchemaEditor.SpreadList(ParametersOf(endpoint), "parameters")
    case Err(e) => Err(e)
    case Ok(xs) => Ok(Obj([("parameters", Arr(Store(xs, index, Spread(At(xs, index), updates))))]))
  }

  /** `.filter((_, i) => i !== index)`, from position `from` on. */
  function DropIndex(xs: seq<Value>, index: nat, from: nat): seq<Value>
    decreases |xs|
  {
    if xs == [] then []
    else (if from == index then [] else [xs[0]]) + DropIndex(xs[1..], index, from + 1)
  }

  function RemoveParameter(endpoint: Value, index: nat): Result<Value>
  {
    match ParametersOf(endpoint)
    case Arr(xs) => Ok(Obj([("parameters", Arr(DropIndex(xs, index, 0)))]))
    case _ => Err(TypeError("parameters.filter is not a function"))
  }

  // ---------------------------------------------------------------- request body

  function RequestBody(endpoint: Value): Value { Prop(endpoint, "requestBody") }

  /** `endpoint.requestBody?.content || {}`. */
  function ContentOf(endpoint: Value): Value
  {
    Or(Prop(RequestBody(endpoint), "content"), Obj([]))
  }

  /** `{ ...endpoint.requestBody, content }`. */
  function WithContent(endpoint: Value, content: Fields): Value
  {
    Obj([("requestBody", Obj(Set(Entries(RequestBody(endpoint)), "content", Obj(content))))])
  }

  /** The content `addRequestBodyContent` writes. */
  function NewContent(contentType: string): Value
  {
    Obj([("schema", DEFAULT_SCHEMA), ("example", Str(if contentType == JSON_CONTENT then "{}" else ""))])
  }

  function AddRequestBodyContent(endpoint: Value, contentType: string): Value
  {
    WithContent(endpoint, Set(Entries(ContentOf(endpoint)), contentType, NewContent(contentType)))
  }

  function RemoveRequestBodyContent(endpoint: Value, contentType: string): Value
  {
    WithContent(endpoint, Delete(Entries(ContentOf(endpoint)), contentType))
  }

  /** `{ ...(content?.[contentType] || {}), ...updates }` under its content type. */
  function UpdateRequestBodyContent(endpoint: Value, contentType: string, updates: Value): Value
  {
    var prior := Or(Prop(ContentOf(endpoint), contentType), Obj([]));
    WithContent(endpoint, Set(Entries(ContentOf(endpoint)), contentType,
                              Obj(Merge(Entries(prior), Entries(updates)))))
  }

  // ---------------------------------------------------------------- request schema properties

  /** `endpoint.requestBody?.content?.[contentType]?.schema || {type: 'object', properties: {}}`. */
  function CurrentSchema(endpoint: Value, contentType: string): Value
  {
    Or(Prop(Prop(ContentOf(endpoint), contentType), "schema"), DEFAULT_SCHEMA)
  }

  /** `{ ...(currentSchema.properties || {}) }`. */
  function PropertiesOf(schema: Value): Fields
  {
    Entries(Or(Prop(schema, "properties"), Obj([])))
  }

  /** `updateRequestBodyContent(contentType, { schema: {...currentSchema, properties} })`. */
  function WithProperties(endpoint: Value, contentType: string, props: Fields): Value
  {
    var schema := CurrentSchema(endpoint, contentType);
    UpdateRequestBodyContent(endpoint, contentType,
                             Obj([("schema", Obj(Set(Entries(schema), "properties", Obj(props))))]))
  }

  function AddSchemaProperty(endpoint: Value, contentType: string): Value
  {
    var props := PropertiesOf(CurrentSchema(endpoint, contentType));
    WithProperties(endpoint, contentType, Set(props, SchemaEditor.NewPropertyName(|props|), NEW_SCHEMA_PROPERTY))
  }

  /** The key is deleted only when the name changes; the fragment is then
    * written under the new name. */
  function RenamedProperties(props: Fields, oldName: string, newName: string, schema: Value): Fields
  {
    Set(if oldName != newName then Delete(props, oldName) else props, newName, schema)
  }

  function UpdateSchemaProperty(endpoint: Value, contentType: string, oldName: string, newName: string, schema: Value): Value
  {
    var props := PropertiesOf(CurrentSchema(endpoint, contentType));
    WithProperties(endpoint, contentType, RenamedProperties(props, oldName, newName, schema))
  }

  function RemoveSchemaProperty(endpoint: Value, contentType: string, name: string): Value
  {
    WithProperties(endpoint, contentType, Delete(PropertiesOf(CurrentSchema(endpoint, contentType)), name))
  }

  // ---------------------------------------------------------------- responses

  /** The description a new response gets from its status code. */
  function ResponseDescription(code: string): string
  {
    if code == "200" then "OK"
    else if code == "201" then "Created"
    else if code == "400" then "Bad Request"
    else if code == "401" then "Unauthorized"
    else if code == "403" then "Forbidden"
    else if code == "404" then "Not Found"
    else if code == "500" then "Internal Server Error"
    else "Response"
  }

  function NewResponse(code: string): Value
  {
    Obj([("description", Str(ResponseDescription(code))), ("headers", Obj([])), ("content", Obj([]))])
  }

  /** The status select's `onChange`: the empty choice does nothing. */
  function AddResponse(endpoint: Value, code: string): Option<Value>
  {
    if code == "" then None
    else Some(Obj([("responses", Obj(Set(Entries(Prop(endpoint, "responses")), code, NewResponse(code))))]))
  }

  /** The header-name input's `onChange` for the header `headerName` of the
    * response under `status`. */
  function RenameHeader(endpoint: Value, status: string, headerName: string, newName: string): Value
  {
    var response := Prop(Prop(endpoint, "responses"), status);
    var headers := Entries(Or(Prop(response, "headers"), Obj([])));
    var header := Get(headers, headerName);
    var updated := Set(Delete(headers, headerName), newName, header);
    Obj([("responses", Obj(Set(Entries(Prop(endpoint, "responses")), status,
                               Obj(Set(Entries(response), "headers", Obj(updated))))))])
  }

  // ---------------------------------------------------------------- properties

  /** The new parameter goes last and the earlier ones stay as they were;
    * without parameters it is the only one. */
  lemma AddParameterRules(endpoint: Value)
    ensures ParametersOf(endpoint).Arr? ==>
      AddParameter(endpoint) == Ok(Obj([("parameters", Arr(ParametersOf(endpoint).items + [NEW_PARAMETER]))]))
    ensures !Truthy(Prop(endpoint, "parameters")) ==>
      AddParameter(endpoint) == Ok(Obj([("parameters", Arr([NEW_PARAMETER]))]))
    ensures ParametersOf(endpoint).Obj? || ParametersOf(endpoint).Num? || ParametersOf(endpoint).Bool? ==>
      AddParameter(endpoint).Err?
  {
    assert [] + [NEW_PARAMETER] == [NEW_PARAMETER];
  }

  /** Updating parameter `index` merges into that one only; every other
    * parameter and the count stay, and past the end the list grows to it. */
  lemma UpdateParameterRules(xs: seq<Value>, index: nat, updates: Value)
    ensures var r := Store(xs, index, Spread(At(xs, index), updates));
      && |r| == (if index < |xs| then |xs| else index + 1)
      && (forall k :: Prop(r[index], k) == (if HasKey(FieldsOf(updates), k) then Prop(updates, k) else Prop(At(xs, index), k)))
      && (forall i :: 0 <= i < |xs| && i != index ==> r[i] == xs[i])
      && (forall i :: |xs| <= i < index ==> r[i] == Undefined)
  {
  }

  /** The reference the filter meets: the list without position `index`. */
  lemma {:induction false} DropIndexIsSplice(xs: seq<Value>, index: nat, from: nat)
    requires from <= index
    ensures index - from < |xs| ==> DropIndex(xs, index, from) == xs[..index - from] + xs[index - from + 1..]
    ensures index - from >= |xs| ==> DropIndex(xs, index, from) == xs
    decreases |xs|
  {
    if xs != [] {
      if from == index {
        DropIndexPast(xs[1..], index, from + 1);
        assert xs[..0] + xs[1..] == xs[1..];
      } else {
        DropIndexIsSplice(xs[1..], index, from + 1);
        if index - from < |xs| {
          assert xs[1..][..index - from - 1] == xs[1..index - from];
          assert [xs[0]] + xs[1..index - from] == xs[..index - from];
          assert xs[1..][index - from..] == xs[index - from + 1..];
        } else {
          assert [xs[0]] + xs[1..] == xs;
        }
      }
    }
  }

  /** Once the filter has passed `index`, it keeps everything. */
  lemma {:induction false} DropIndexPast(xs: seq<Value>, index: nat, from: nat)
    requires from > index
    ensures DropIndex(xs, index, from) == xs
    decreases |xs|
  {
    if xs != [] {
      DropIndexPast(xs[1..], index, from + 1);
      assert [xs[0]] + xs[1..] == xs;
    }
  }

  /** Removal drops exactly parameter `index`, keeping the order of the
    * rest; an index past the end removes nothing. */
  lemma RemoveParameterRules(endpoint: Value, index: nat)
    ensures ParametersOf(endpoint).Arr? ==>
      var xs := ParametersOf(endpoint).items;
      RemoveParameter(endpoint, index) ==
        Ok(Obj([("parameters", Arr(if index < |xs| then xs[..index] + xs[index + 1..] else xs))]))
    ensures !ParametersOf(endpoint).Arr? ==> RemoveParameter(endpoint, index).Err?
  {
    if ParametersOf(endpoint).Arr? {
      DropIndexIsSplice(ParametersOf(endpoint).items, index, 0);
    }
  }

  /** Removing the parameter just added gives the old parameters back. */
  lemma RemoveUndoesAddParameter(xs: seq<Value>)
    ensures DropIndex(xs + [NEW_PARAMETER], |xs|, 0) == xs
  {
    DropIndexIsSplice(xs + [NEW_PARAMETER], |xs|, 0);
    assert (xs + [NEW_PARAMETER])[..|xs|] == xs;
  }

  /** The request body keeps every field but `content`, which is the one
    * written. */
  lemma WithContentRules(endpoint: Value, content: Fields)
    ensures Keys(WithContent(endpoint, content).fields) == ["requestBody"]
    ensures var rb := Prop(WithContent(endpoint, content), "requestBody");
      && Prop(rb, "content") == Obj(content)
      && forall k :: k != "content" ==> Prop(rb, k) == Get(Entries(RequestBody(endpoint)), k)
  {
  }

  /** Adding a content type writes an object schema with no properties and
    * an example that is `{}` for JSON alone; the other content types stay. */
  lemma AddContentRules(endpoint: Value, contentType: string)
    ensures var c := FieldsOf(Prop(Prop(AddRequestBodyContent(endpoint, contentType), "requestBody"), "content"));
      && Get(c, contentType) == NewContent(contentType)
      && (forall k :: k != contentType ==> Get(c, k) == Get(Entries(ContentOf(endpoint)), k))
    ensures Prop(NewContent(contentType), "schema") == DEFAULT_SCHEMA
    ensures Prop(NewContent(contentType), "example") == Str("{}") <==> contentType == JSON_CONTENT
  {
    WithContentRules(endpoint, Set(Entries(ContentOf(endpoint)), contentType, NewContent(contentType)));
    GetAt(NewContent(contentType).fields, 0);
    GetAt(NewContent(contentType).fields, 1);
  }

  /** Removing a content type drops it alone. */
  lemma RemoveContentRules(endpoint: Value, contentType: string)
    ensures var c := FieldsOf(Prop(Prop(RemoveRequestBodyContent(endpoint, contentType), "requestBody"), "content"));
      && !HasKey(c, contentType)
      && (forall k :: k != contentType ==> Get(c, k) == Get(Entries(ContentOf(endpoint)), k))
  {
    WithContentRules(endpoint, Delete(Entries(ContentOf(endpoint)), contentType));
  }

  /** Deleting a key just added gives the object back. */
  lemma DeleteSetNew(o: Fields, k: string, v: Value)
    requires !HasKey(o, k)
    ensures Delete(Set(o, k, v), k) == o
  {
    assert Set(o, k, v) == o + [(k, v)];
    assert (o + [(k, v)])[..|o|] == o;
  }

  /** Removing a content type just added gives the content back. */
  lemma RemoveUndoesAddContent(endpoint: Value, contentType: string)
    requires !HasKey(Entries(ContentOf(endpoint)), contentType)
    ensures var added := Set(Entries(ContentOf(endpoint)), contentType, NewContent(contentType));
      Delete(added, contentType) == Entries(ContentOf(endpoint))
  {
    DeleteSetNew(Entries(ContentOf(endpoint)), contentType, NewContent(contentType));
  }

  /** Updating a content type merges into it and leaves the other content
    * types alone. */
  lemma UpdateContentRules(endpoint: Value, contentType: string, updates: Value)
    ensures var c := FieldsOf(Prop(Prop(UpdateRequestBodyContent(endpoint, contentType, updates), "requestBody"), "content"));
      var prior := Or(Prop(ContentOf(endpoint), contentType), Obj([]));
      && (forall k :: Prop(Get(c, contentType), k) == if HasKey(Entries(updates), k) then Get(Entries(updates), k) else Get(Entries(prior), k))
      && (forall k :: k != contentType ==> Get(c, k) == Get(Entries(ContentOf(endpoint)), k))
  {
    var prior := Or(Prop(ContentOf(endpoint), contentType), Obj([]));
    WithContentRules(endpoint, Set(Entries(ContentOf(endpoint)), contentType, Obj(Merge(Entries(prior), Entries(updates)))));
  }

  /** Renaming a request-schema property moves the fragment and drops the
    * old key; every other property stays, and unlike the schema editor no
    * `required` list is touched. */
  lemma RenamedPropertiesRules(props: Fields, oldName: string, newName: string, schema: Value)
    ensures Get(RenamedProperties(props, oldName, newName, schema), newName) == schema
    ensures oldName != newName ==> !HasKey(RenamedProperties(props, oldName, newName, schema), oldName)
    ensures forall k :: k != oldName && k != newName ==> Get(RenamedProperties(props, oldName, newName, schema), k) == Get(props, k)
    ensures oldName == newName && HasKey(props, newName) ==> Keys(RenamedProperties(props, oldName, newName, schema)) == Keys(props)
  {
    var base := if oldName != newName then Delete(props, oldName) else props;
    SetHasKey(base, newName, schema);
    SetKeys(base, newName, schema);
  }

  /** The schema written back is the current schema with new properties:
    * its other fields, `required` among them, are unchanged. */
  lemma WithPropertiesRules(endpoint: Value, contentType: string, props: Fields)
    ensures var c := FieldsOf(Prop(Prop(WithProperties(endpoint, contentType, props), "requestBody"), "content"));
      var schema := Prop(Get(c, contentType), "schema");
      && Prop(schema, "properties") == Obj(props)
      && forall k :: k != "properties" ==> Prop(schema, k) == Get(Entries(CurrentSchema(endpoint, contentType)), k)
  {
    var schema := CurrentSchema(endpoint, contentType);
    var u := Obj([("schema", Obj(Set(Entries(schema), "properties", Obj(props))))]);
    UpdateContentRules(endpoint, contentType, u);
    assert Entries(u) == [("schema", Obj(Set(Entries(schema), "properties", Obj(props))))];
    assert HasKey(Entries(u), "schema");
  }

  /** A new request-schema property is `property{N+1}` with the string
    * fragment, beside the N there were. */
  lemma AddSchemaPropertyRules(endpoint: Value, contentType: string)
    ensures var props := PropertiesOf(CurrentSchema(endpoint, contentType));
      var name := SchemaEditor.NewPropertyName(|props|);
      var c := FieldsOf(Prop(Prop(AddSchemaProperty(endpoint, contentType), "requestBody"), "content"));
      var written := FieldsOf(Prop(Prop(Get(c, contentType), "schema"), "properties"));
      && Get(written, name) == NEW_SCHEMA_PROPERTY
      && forall k :: k != name ==> Get(written, k) == Get(props, k)
  {
    var props := PropertiesOf(CurrentSchema(endpoint, contentType));
    WithPropertiesRules(endpoint, contentType, Set(props, SchemaEditor.NewPropertyName(|props|), NEW_SCHEMA_PROPERTY));
  }

  /** Removing a request-schema property deletes only that name. */
  lemma RemoveSchemaPropertyRules(endpoint: Value, contentType: string, name: string)
    ensures var props := PropertiesOf(CurrentSchema(endpoint, contentType));
      var c := FieldsOf(Prop(Prop(RemoveSchemaProperty(endpoint, contentType, name), "requestBody"), "content"));
      var written := FieldsOf(Prop(Prop(Get(c, contentType), "schema"), "properties"));
      && !HasKey(written, name)
      && forall k :: k != name ==> Get(written, k) == Get(props, k)
  {
    var props := PropertiesOf(CurrentSchema(endpoint, contentType));
    WithPropertiesRules(endpoint, contentType, Delete(props, name));
  }

  /** A new status code gets its description from the table and empty
    * headers and content, replacing any response it had; the other codes
    * stay. */
  lemma AddResponseRules(endpoint: Value, code: string)
    ensures code == "" ==> AddResponse(endpoint, code) == None
    ensures code != "" ==>
      var r := AddResponse(endpoint, code);
      var rs := FieldsOf(Prop(r.value, "responses"));
      && r.Some? && Keys(r.value.fields) == ["responses"]
      && Get(rs, code) == NewResponse(code)
      && (forall k :: k != code ==> Get(rs, k) == Get(Entries(Prop(endpoint, "responses")), k))
    ensures Prop(NewResponse(code), "description") == Str(ResponseDescription(code))
    ensures Prop(NewResponse(code), "headers") == Obj([]) && Prop(NewResponse(code), "content") == Obj([])
  {
    GetAt(NewResponse(code).fields, 0);
    GetAt(NewResponse(code).fields, 1);
    GetAt(NewResponse(code).fields, 2);
  }

  /** The table: seven known codes, "Response" for any other. */
  lemma ResponseDescriptionTable(code: string)
    ensures code !in ["200", "201", "400", "401", "403", "404", "500"] ==> ResponseDescription(code) == "Response"
    ensures ResponseDescription("404") == "Not Found" && ResponseDescription("500") == "Internal Server Error"
  {
  }

  /** A renamed header keeps its object under the new name; the old name is
    * gone, the response's other headers and fields and the other status
    * codes stay. Renaming to the same name moves the header last. */
  lemma RenameHeaderRules(endpoint: Value, status: string, headerName: string, newName: string)
    ensures var response := Prop(Prop(endpoint, "responses"), status);
      var headers := Entries(Or(Prop(response, "headers"), Obj([])));
      var rs := FieldsOf(Prop(RenameHeader(endpoint, status, headerName, newName), "responses"));
      var written := Get(rs, status);
      var hs := FieldsOf(Prop(written, "headers"));
      && Get(hs, newName) == Get(headers, headerName)
      && (headerName != newName ==> !HasKey(hs, headerName))
      && (forall k :: k != headerName && k != newName ==> Get(hs, k) == Get(headers, k))
      && (forall k :: k != "headers" ==> Prop(written, k) == Get(Entries(response), k))
      && (forall k :: k != status ==> Get(rs, k) == Get(Entries(Prop(endpoint, "responses")), k))
  {
    var response := Prop(Prop(endpoint, "responses"), status);
    var headers := Entries(Or(Prop(response, "headers"), Obj([])));
    var updated := Set(Delete(headers, headerName), newName, Get(headers, headerName));
    var written := Obj(Set(Entries(response), "headers", Obj(updated)));
    var rs := Set(Entries(Prop(endpoint, "responses")), status, written);
    assert RenameHeader(endpoint, status, headerName, newName) == Obj([("responses", Obj(rs))]);
    assert Prop(Obj([("responses", Obj(rs))]), "responses") == Obj(rs);
    assert Get(rs, status) == written;
    assert Prop(written, "headers") == Obj(updated);
    SetHasKey(Delete(headers, headerName), newName, Get(headers, headerName));
  }

  /** Every edit reaches the endpoints with the edited endpoint's id and no
    * other project property. */
  lemma EditRules(p: Project, endpoint: Value, u: Value)
    requires Get(p, ENDPOINTS).Arr? && !HasNullItem(Get(p, ENDPOINTS).items)
    ensures var items := Get(p, ENDPOINTS).items;
      var r := Edit(p, endpoint, Ok(u));
      && r.Ok? && |Get(r.value, ENDPOINTS).items| == |items|
      && (forall i :: 0 <= i < |items| && HasId(items[i], Prop(endpoint, "id")) ==>
            forall k :: Prop(Get(r.value, ENDPOINTS).items[i], k)
                        == if HasKey(FieldsOf(u), k) then Prop(u, k) else Prop(items[i], k))
      && (forall i :: 0 <= i < |items| && !HasId(items[i], Prop(endpoint, "id")) ==>
            Get(r.value, ENDPOINTS).items[i] == items[i])
      && (forall k :: k != ENDPOINTS ==> Get(r.value, k) == Get(p, k))
  {
    UpdateRules(p, ENDPOINTS, Prop(endpoint, "id"), u);
  }
}
