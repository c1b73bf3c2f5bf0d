// The basic-details page of the API designer: the top-level fields, the
// contact and license sub-objects, and the server list. Each edit is one
// `updateProject` merge of a single key. The server list is copied first;
// a `servers` value that is not an array is read as an empty list.
module BasicDetails {
  import opened Json
  import opened DesignerProject
  import EndpointEditor

  const SERVERS: string := "servers"

  /** What `addServer` appends. */
  const NEW_SERVER: Value := Obj([("url", Str("")), ("description", Str(""))])

  /** `handleChange(field, value)`. */
  function HandleChange(p: Project, field: string, value: Value): Project
  {
    UpdateProject(p, [(field, value)])
  }

  /** `handleNestedChange(objField, field, value)`. */
  function HandleNestedChange(p: Project, objField: string, field: string, value: Value): Project
  {
    UpdateProject(p, [(objField, Obj(Set(Entries(Or(Get(p, objField), Obj([]))), field, value)))])
  }

  /** `Array.isArray(project.servers) ? [...project.servers] : []`. */
  function ServersOf(p: Project): seq<Value>
  {
    ItemsOf(Get(p, SERVERS))
  }

  /** `servers[index] = { ...(servers[index] || {}), [field]: value }`. */
  function HandleServerChange(p: Project, index: nat, field: string, value: Value): Project
  {
    var servers := ServersOf(p);
    var server := Obj(Set(Entries(Or(EndpointEditor.At(servers, index), Obj([]))), field, value));
    UpdateProject(p, [(SERVERS, Arr(EndpointEditor.Store(servers, index, server)))])
  }

  function AddServer(p: Project): Project
  {
    UpdateProject(p, [(SERVERS, Arr(ServersOf(p) + [NEW_SERVER]))])
  }

  /** `servers.splice(index, 1)`: an index past the end removes nothing. */
  function Splice(xs: seq<Value>, index: nat): seq<Value>
  {
    if index < |xs| then xs[..index] + xs[index + 1..] else xs
  }

  function RemoveServer(p: Project, index: nat): Project
  {
    UpdateProject(p, [(SERVERS, Arr(Splice(ServersOf(p), index)))])
  }

  // ---------------------------------------------------------------- properties

  /** A one-key update writes that key and keeps every other. */
  lemma UpdateOne(p: Project, k: string, v: Value)
    ensures Get(UpdateProject(p, [(k, v)]), k) == v
    ensures forall j :: j != k ==> Get(UpdateProject(p, [(k, v)]), j) == Get(p, j)
  {
    assert Keys([(k, v)]) == [k];
    UpdateProjectRules(p, [(k, v)]);
  }

  /** A top-level edit sets that field alone. */
  lemma HandleChangeRules(p: Project, field: string, value: Value)
    ensures Get(HandleChange(p, field, value), field) == value
    ensures forall j :: j != field ==> Get(HandleChange(p, field, value), j) == Get(p, j)
  {
    UpdateOne(p, field, value);
  }

  /** A contact or license edit sets one sub-field and keeps the others;
    * a missing sub-object starts empty. */
  lemma NestedChangeRules(p: Project, objField: string, field: string, value: Value)
    ensures var o := Get(HandleNestedChange(p, objField, field, value), objField);
      && Prop(o, field) == value
      && (forall k :: k != field ==> Prop(o, k) == Get(Entries(Or(Get(p, objField), Obj([]))), k))
    ensures !Truthy(Get(p, objField)) ==>
      Get(HandleNestedChange(p, objField, field, value), objField) == Obj([(field, value)])
    ensures forall j :: j != objField ==> Get(HandleNestedChange(p, objField, field, value), j) == Get(p, j)
  {
    UpdateOne(p, objField, Obj(Set(Entries(Or(Get(p, objField), Obj([]))), field, value)));
  }

  /** A server edit sets one field of server `index` and keeps its other
    * fields, the other servers and the count; past the end the list grows
    * with holes. */
  lemma ServerChangeRules(p: Project, index: nat, field: string, value: Value)
    ensures var servers := ServersOf(p);
      var r := Get(HandleServerChange(p, index, field, value), SERVERS);
      && r.Arr?
      && |r.items| == (if index < |servers| then |servers| else index + 1)
      && Prop(r.items[index], field) == value
      && (forall k :: k != field ==> Prop(r.items[index], k) == Get(Entries(Or(EndpointEditor.At(servers, index), Obj([]))), k))
      && (forall i :: 0 <= i < |servers| && i != index ==> r.items[i] == servers[i])
      && (forall i :: |servers| <= i < index ==> r.items[i] == Undefined)
    ensures forall j :: j != SERVERS ==> Get(HandleServerChange(p, index, field, value), j) == Get(p, j)
  {
    var servers := ServersOf(p);
    var server := Obj(Set(Entries(Or(EndpointEditor.At(servers, index), Obj([]))), field, value));
    UpdateOne(p, SERVERS, Arr(EndpointEditor.Store(servers, index, server)));
  }

  /** A non-array `servers` is read as empty: adding gives the one new
    * server, editing server 0 gives a server with that field alone. */
  lemma NonArrayServers(p: Project, field: string, value: Value)
    requires !Get(p, SERVERS).Arr?
    ensures Get(AddServer(p), SERVERS) == Arr([NEW_SERVER])
    ensures Get(HandleServerChange(p, 0, field, value), SERVERS) == Arr([Obj([(field, value)])])
    ensures Get(RemoveServer(p, 0), SERVERS) == Arr([])
  {
    assert ServersOf(p) == [];
    assert [] + [NEW_SERVER] == [NEW_SERVER];
    UpdateOne(p, SERVERS, Arr([NEW_SERVER]));
    assert EndpointEditor.At([], 0) == Undefined;
    assert Or(Undefined, Obj([])) == Obj([]);
    assert Entries(Obj([])) == [];
    assert Set([], field, value) == [(field, value)];
    assert EndpointEditor.Store([], 0, Obj([(field, value)])) == [Obj([(field, value)])];
    UpdateOne(p, SERVERS, Arr([Obj([(field, value)])]));
    UpdateOne(p, SERVERS, Arr([]));
  }

  /** Adding appends the empty server after the others. */
  lemma AddServerRules(p: Project)
    ensures Get(AddServer(p), SERVERS) == Arr(ServersOf(p) + [NEW_SERVER])
    ensures forall j :: j != SERVERS ==> Get(AddServer(p), j) == Get(p, j)
  {
    UpdateOne(p, SERVERS, Arr(ServersOf(p) + [NEW_SERVER]));
  }

  /** Removal takes out exactly server `index`: one fewer, the ones before
    * it in place, the ones after it shifted down by one. */
  lemma RemoveServerRules(p: Project, index: nat)
    ensures var servers := ServersOf(p);
      var r := Get(RemoveServer(p, index), SERVERS).items;
      && Get(RemoveServer(p, index), SERVERS).Arr?
      && (index < |servers| ==>
            && |r| == |servers| - 1
            && (forall i :: 0 <= i < index ==> r[i] == servers[i])
            && (forall i :: index <= i < |r| ==> r[i] == servers[i + 1]))
      && (index >= |servers| ==> r == servers)
    ensures forall j :: j != SERVERS ==> Get(RemoveServer(p, index), j) == Get(p, j)
  {
    UpdateOne(p, SERVERS, Arr(Splice(ServersOf(p), index)));
  }

  /** Removing the server just added gives the list back. */
  lemma RemoveUndoesAddServer(p: Project)
    ensures Get(RemoveServer(AddServer(p), |ServersOf(p)|), SERVERS) == Arr(ServersOf(p))
  {
    var servers := ServersOf(p);
    AddServerRules(p);
    assert ServersOf(AddServer(p)) == servers + [NEW_SERVER];
    assert (servers + [NEW_SERVER])[..|servers|] + (servers + [NEW_SERVER])[|servers| + 1..] == servers;
    UpdateOne(AddServer(p), SERVERS, Arr(servers));
  }
}
