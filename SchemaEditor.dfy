// The schema editor of the API designer. The schema being edited is the
// first schema of the project whose id is the selected id; each edit builds
// the new `properties` and `required` of that schema from the old ones and
// hands them to the project's `updateSchema`, which merges them into every
// schema with that id. Spreading `properties` copies an object's pairs (an
// array's or a string's elements under their indices, nothing for other
// values); `required` defaults to `[]` when it is falsy, and calling `.map`
// or `.filter` on a `required` that is not an array throws a TypeError.
module SchemaEditor {
  import opened Wrappers
  import opened Strings
  import opened Json
  import opened DesignerProject

  /** The fragment `addProperty` writes for a new property. */
  const NEW_PROPERTY: Value := Obj([("type", Str("string")), ("description", Str("")),
                                    ("required", Bool(false)), ("format", Str("")),
                                    ("validation", Obj([]))])

  /** The editor's own state around the project. */
  datatype Form = Form(selectedId: Value, newName: string, showForm: bool)

  // ---------------------------------------------------------------- the selected schema

  /** `items.find(s => s.id === id)`: the first item with that id; reading
    * `.id` of a null item before it throws. */
  function FindById(items: seq<Value>, id: Value): Result<Option<Value>>
  {
    if items == [] then Ok(None)
    else if IsNullish(items[0]) then Err(TypeError("cannot read id of null"))
    else if HasId(items[0], id) then Ok(Some(items[0]))
    else FindById(items[1..], id)
  }

  /** `selectedSchemaId ? project.schemas.find(...) : null`. */
  function Selected(p: Project, selectedId: Value): Result<Option<Value>>
  {
    if !Truthy(selectedId) then Ok(None)
    else match Get(p, SCHEMAS)
      case Arr(items) => FindById(items, selectedId)
      case _ => Err(TypeError("schemas.find is not a function"))
  }

  // ---------------------------------------------------------------- list helpers

  /** `required.map(req => req === oldName ? newName : req)`. */
  function Rename(xs: seq<Value>, oldName: string, newName: string): (r: seq<Value>)
    ensures |r| == |xs|
    ensures forall i :: 0 <= i < |xs| ==> r[i] == if xs[i] == Str(oldName) then Str(newName) else xs[i]
  {
    seq(|xs|, i requires 0 <= i < |xs| => if xs[i] == Str(oldName) then Str(newName) else xs[i])
  }

  /** `required.filter(req => req !== name)`. */
  function Without(xs: seq<Value>, x: Value): seq<Value>
  {
    if xs == [] then []
    else
      var rest := Without(xs[..|xs| - 1], x);
      if xs[|xs| - 1] == x then rest else rest + [xs[|xs| - 1]]
  }

  /** `[...v]`: an array's items, a string's characters; anything else is
    * not iterable. `what` names `v` in the error. */
  function SpreadList(v: Value, what: string): Result<seq<Value>>
  {
    match v
    case Arr(items) => Ok(items)
    case Str(s) => Ok(CharItems(s))
    case _ => Err(TypeError(what + " is not iterable"))
  }

  /** `selectedSchema.required || []`. */
  function RequiredOf(s: Value): Value
  {
    Or(Prop(s, "required"), Arr([]))
  }

  // ---------------------------------------------------------------- the updates each edit builds

  function NewPropertyName(n: nat): string
  {
    "property" + NatToString(n + 1)
  }

  /** `addProperty`: `Object.keys` of null or undefined throws. */
  function AddPropertyUpdates(s: Value): Result<Value>
  {
    var props := Prop(s, "properties");
    if IsNullish(props) then Err(TypeError("cannot convert undefined or null to object"))
    else
      var fs := Entries(props);
      Ok(Obj([("properties", Obj(Set(fs, NewPropertyName(|fs|), NEW_PROPERTY)))]))
  }

  /** `updateProperty(oldName, newName, propertySchema)`. */
  function UpdatePropertyUpdates(s: Value, oldName: string, newName: string, schema: Value): Result<Value>
  {
    var fs := Entries(Prop(s, "properties"));
    if oldName != newName then
      match RequiredOf(s)
      case Arr(req) =>
        Ok(Obj([("properties", Obj(Set(Delete(fs, oldName), newName, schema))),
                ("required", Arr(Rename(req, oldName, newName)))]))
      case _ => Err(TypeError("required.map is not a function"))
    else
      Ok(Obj([("properties", Obj(Set(fs, newName, schema)))]))
  }

  /** `removeProperty(propertyName)`. */
  function RemovePropertyUpdates(s: Value, name: string): Result<Value>
  {
    var fs := Entries(Prop(s, "properties"));
    match RequiredOf(s)
    case Arr(req) =>
      Ok(Obj([("properties", Obj(Delete(fs, name))), ("required", Arr(Without(req, Str(name))))]))
    case _ => Err(TypeError("required.filter is not a function"))
  }

  /** `toggleRequired(propertyName, isRequired)`. */
  function ToggleRequiredUpdates(s: Value, name: string, isRequired: bool): Result<Value>
  {
    var req := RequiredOf(s);
    if isRequired then
      match SpreadList(req, "required")
      case Ok(xs) => Ok(Obj([("required", Arr(xs + [Str(name)]))]))
      case Err(e) => Err(e)
    else
      match req
      case Arr(xs) => Ok(Obj([("required", Arr(Without(xs, Str(name))))]))
      case _ => Err(TypeError("required.filter is not a function"))
  }

  // ---------------------------------------------------------------- the handlers

  /** `handleUpdateSchema(updates)`: nothing without a selected schema. */
  function Apply(p: Project, selected: Option<Value>, updates: Value -> Result<Value>): Result<Project>
  {
    match selected
    case None => Ok(p)
    case Some(s) =>
      match updates(s)
      case Err(e) => Err(e)
      case Ok(u) => UpdateSchema(p, Prop(s, "id"), u)
  }

  function AddProperty(p: Project, selected: Option<Value>): Result<Project>
  {
    Apply(p, selected, s => AddPropertyUpdates(s))
  }

  function UpdateProperty(p: Project, selected: Option<Value>, oldName: string, newName: string, schema: Value): Result<Project>
  {
    Apply(p, selected, s => UpdatePropertyUpdates(s, oldName, newName, schema))
  }

  function RemoveProperty(p: Project, selected: Option<Value>, name: string): Result<Project>
  {
    Apply(p, selected, s => RemovePropertyUpdates(s, name))
  }

  function ToggleRequired(p: Project, selected: Option<Value>, name: string, isRequired: bool): Result<Project>
  {
    Apply(p, selected, s => ToggleRequiredUpdates(s, name, isRequired))
  }

  /** The schema `handleCreateSchema` adds; its id is `Date.now()` as text. */
  function NewSchema(id: string, name: string): Value
  {
    Obj([("id", Str(id)), ("name", Str(name)), ("type", Str("object")),
         ("properties", Obj([])), ("required", Arr([]))])
  }

  /** `handleCreateSchema`: a blank name does nothing; otherwise the schema
    * is added, selected, and the form is cleared and closed. */
  function CreateSchema(p: Project, form: Form, id: string): Result<(Project, Form)>
  {
    if JsTrim(form.newName) == "" then Ok((p, form))
    else match AddSchema(p, NewSchema(id, form.newName))
      case Err(e) => Err(e)
      case Ok(q) => Ok((q, Form(Str(id), "", false)))
  }

  // ---------------------------------------------------------------- properties

  /** The search returns the first item with the id, after items that are
    * neither null nor that id. */
  lemma {:induction false} FindFirst(items: seq<Value>, id: Value)
    ensures FindById(items, id).Ok? && FindById(items, id).value.Some? ==>
      exists i :: 0 <= i < |items| && items[i] == FindById(items, id).value.value && HasId(items[i], id)
        && forall j :: 0 <= j < i ==> !IsNullish(items[j]) && !HasId(items[j], id)
  {
    if items != [] && !IsNullish(items[0]) && !HasId(items[0], id) {
      FindFirst(items[1..], id);
      var r := FindById(items[1..], id);
      if r.Ok? && r.value.Some? {
        var i :| 0 <= i < |items[1..]| && items[1..][i] == r.value.value && HasId(items[1..][i], id)
          && forall j :: 0 <= j < i ==> !IsNullish(items[1..][j]) && !HasId(items[1..][j], id);
        assert items[i + 1] == items[1..][i];
        assert forall j :: 0 < j <= i ==> items[j] == items[1..][j - 1];
      }
    }
  }

  /** The search finds nothing exactly when no item has the id and none is
    * null. */
  lemma {:induction false} FindNone(items: seq<Value>, id: Value)
    ensures FindById(items, id) == Ok(None) <==>
      forall i :: 0 <= i < |items| ==> !IsNullish(items[i]) && !HasId(items[i], id)
  {
    if items != [] && !IsNullish(items[0]) && !HasId(items[0], id) {
      FindNone(items[1..], id);
      assert forall i :: 0 < i < |items| ==> items[i] == items[1..][i - 1];
    }
  }

  /** Without a selected id nothing is selected; a found schema has the
    * selected id. */
  lemma SelectedRules(p: Project, selectedId: Value)
    ensures !Truthy(selectedId) ==> Selected(p, selectedId) == Ok(None)
    ensures Truthy(selectedId) && !Get(p, SCHEMAS).Arr? ==> Selected(p, selectedId).Err?
    ensures Selected(p, selectedId).Ok? && Selected(p, selectedId).value.Some? ==>
      HasId(Selected(p, selectedId).value.value, selectedId) && Selected(p, selectedId).value.value in Get(p, SCHEMAS).items
  {
    if Truthy(selectedId) && Get(p, SCHEMAS).Arr? {
      FindFirst(Get(p, SCHEMAS).items, selectedId);
    }
  }

  /** Without a selected schema every edit leaves the project as it is. */
  lemma NoSelectionNoChange(p: Project, oldName: string, newName: string, schema: Value, name: string, isRequired: bool)
    ensures AddProperty(p, None) == Ok(p)
    ensures UpdateProperty(p, None, oldName, newName, schema) == Ok(p)
    ensures RemoveProperty(p, None, name) == Ok(p)
    ensures ToggleRequired(p, None, name, isRequired) == Ok(p)
  {
  }

  /** Renaming in `required` replaces every occurrence of the old name and
    * nothing else; renaming back restores the list when the new name was
    * not in it. */
  lemma RenameRules(xs: seq<Value>, oldName: string, newName: string)
    ensures Str(oldName) !in xs ==> Rename(xs, oldName, newName) == xs
    ensures oldName != newName ==> Str(oldName) !in Rename(xs, oldName, newName)
    ensures Str(newName) !in xs ==> Rename(Rename(xs, oldName, newName), newName, oldName) == xs
  {
    if oldName != newName {
      assert forall i :: 0 <= i < |xs| ==> Rename(xs, oldName, newName)[i] != Str(oldName);
    }
  }

  /** Filtering keeps exactly the other elements, in order; it drops every
    * occurrence, and a second filter changes nothing. */
  lemma {:induction false} WithoutRules(xs: seq<Value>, x: Value)
    ensures forall y :: y in Without(xs, x) <==> y in xs && y != x
    ensures x !in xs ==> Without(xs, x) == xs
    ensures |Without(xs, x)| <= |xs|
    ensures |Without(xs, x)| == |xs| <==> x !in xs
  {
    if xs != [] {
      var init := xs[..|xs| - 1];
      assert xs == init + [xs[|xs| - 1]];
      WithoutRules(init, x);
    }
  }

  lemma WithoutTwice(xs: seq<Value>, x: Value)
    ensures Without(Without(xs, x), x) == Without(xs, x)
  {
    WithoutRules(xs, x);
    WithoutRules(Without(xs, x), x);
  }

  /** `addProperty` on `N` properties writes `property{N+1}` with the
    * default fragment and keeps every other property; the name is new unless
    * a property already has it, in which case it is overwritten in place. */
  lemma AddPropertyRules(s: Value)
    ensures IsNullish(Prop(s, "properties")) ==> AddPropertyUpdates(s).Err?
    ensures !IsNullish(Prop(s, "properties")) ==>
      var fs := Entries(Prop(s, "properties"));
      var name := NewPropertyName(|fs|);
      var r := AddPropertyUpdates(s);
      && r.Ok? && Keys(FieldsOf(r.value)) == ["properties"]
      && Prop(Prop(r.value, "properties"), name) == NEW_PROPERTY
      && (forall k :: k != name ==> Prop(Prop(r.value, "properties"), k) == Get(fs, k))
      && (!HasKey(fs, name) ==> Keys(FieldsOf(Prop(r.value, "properties"))) == Keys(fs) + [name])
      && (HasKey(fs, name) ==> Keys(FieldsOf(Prop(r.value, "properties"))) == Keys(fs))
  {
    if !IsNullish(Prop(s, "properties")) {
      var fs := Entries(Prop(s, "properties"));
      var r := AddPropertyUpdates(s);
      assert Prop(r.value, "properties") == Obj(Set(fs, NewPropertyName(|fs|), NEW_PROPERTY));
      SetKeys(fs, NewPropertyName(|fs|), NEW_PROPERTY);
    }
  }

  /** The generated name can be one the schema already uses: a lone
    * property named `property2` gives a count of one, so the new name is
    * `property2` and that property's fragment is replaced. */
  lemma AddPropertyCanOverwrite(x: Value)
    ensures var s := Obj([("properties", Obj([("property2", x)]))]);
      && AddPropertyUpdates(s).Ok?
      && Prop(AddPropertyUpdates(s).value, "properties") == Obj([("property2", NEW_PROPERTY)])
  {
    var s := Obj([("properties", Obj([("property2", x)]))]);
    var fs := [("property2", x)];
    assert Prop(s, "properties") == Obj(fs);
    assert NatToString(2) == "2";
    assert NewPropertyName(|fs|) == "property2";
    assert Keys(fs) == ["property2"];
    assert Set(fs, "property2", NEW_PROPERTY) == [("property2", NEW_PROPERTY)];
  }

  /** A rename moves the fragment to the new key, drops the old key, keeps
    * the other properties and renames the name in `required`. */
  lemma RenamePropertyRules(s: Value, oldName: string, newName: string, schema: Value)
    requires oldName != newName
    ensures RequiredOf(s).Arr? ==>
      var fs := Entries(Prop(s, "properties"));
      var r := UpdatePropertyUpdates(s, oldName, newName, schema);
      var props := FieldsOf(Prop(r.value, "properties"));
      && r.Ok? && Keys(FieldsOf(r.value)) == ["properties", "required"]
      && Get(props, newName) == schema && !HasKey(props, oldName)
      && (forall k :: k != oldName && k != newName ==> Get(props, k) == Get(fs, k))
      && Prop(r.value, "required") == Arr(Rename(RequiredOf(s).items, oldName, newName))
    ensures !RequiredOf(s).Arr? ==> UpdatePropertyUpdates(s, oldName, newName, schema).Err?
  {
    if RequiredOf(s).Arr? {
      var fs := Entries(Prop(s, "properties"));
      var props := Set(Delete(fs, oldName), newName, schema);
      var req := Rename(RequiredOf(s).items, oldName, newName);
      assert UpdatePropertyUpdates(s, oldName, newName, schema) == Ok(Obj([("properties", Obj(props)), ("required", Arr(req))]));
      PropertiesAndRequired(props, req);
      RenamedProperties(fs, oldName, newName, schema);
    }
  }

  lemma PropertiesAndRequired(props: Fields, req: seq<Value>)
    ensures var v := Obj([("properties", Obj(props)), ("required", Arr(req))]);
      && Keys(FieldsOf(v)) == ["properties", "required"]
      && FieldsOf(Prop(v, "properties")) == props
      && Prop(v, "required") == Arr(req)
  {
    var v := Obj([("properties", Obj(props)), ("required", Arr(req))]);
    GetAt(v.fields, 0);
    GetAt(v.fields, 1);
  }

  /** The properties after a rename: the new name holds the schema, the
    * old one is gone, every other key is kept. */
  lemma RenamedProperties(fs: Fields, oldName: string, newName: string, schema: Value)
    requires oldName != newName
    ensures var props := Set(Delete(fs, oldName), newName, schema);
      && Get(props, newName) == schema && !HasKey(props, oldName)
      && (forall k :: k != oldName && k != newName ==> Get(props, k) == Get(fs, k))
  {
    SetHasKey(Delete(fs, oldName), newName, schema);
  }

  /** Saving a property under its own name replaces only that fragment and
    * sends no `required`, so the schema's `required` stays as it was. */
  lemma SameNamePropertyRules(s: Value, name: string, schema: Value)
    ensures var fs := Entries(Prop(s, "properties"));
      var r := UpdatePropertyUpdates(s, name, name, schema);
      && r.Ok? && !HasKey(FieldsOf(r.value), "required")
      && Prop(Prop(r.value, "properties"), name) == schema
      && (forall k :: k != name ==> Prop(Prop(r.value, "properties"), k) == Get(fs, k))
      && (HasKey(fs, name) ==> Keys(FieldsOf(Prop(r.value, "properties"))) == Keys(fs))
  {
    var fs := Entries(Prop(s, "properties"));
    SetKeys(fs, name, schema);
  }

  /** Removal drops the key and every occurrence of the name in `required`,
    * keeping the other properties and the other names in order. */
  lemma RemovePropertyRules(s: Value, name: string)
    ensures RequiredOf(s).Arr? ==>
      var fs := Entries(Prop(s, "properties"));
      var r := RemovePropertyUpdates(s, name);
      var props := FieldsOf(Prop(r.value, "properties"));
      var req := Prop(r.value, "required");
      && r.Ok? && !HasKey(props, name)
      && (forall k :: k != name ==> Get(props, k) == Get(fs, k))
      && req == Arr(Without(RequiredOf(s).items, Str(name)))
      && (forall y :: y in req.items <==> y in RequiredOf(s).items && y != Str(name))
    ensures !RequiredOf(s).Arr? ==> RemovePropertyUpdates(s, name).Err?
  {
    if RequiredOf(s).Arr? {
      var fs := Entries(Prop(s, "properties"));
      var r := RemovePropertyUpdates(s, name);
      var w := Without(RequiredOf(s).items, Str(name));
      assert r.value == Obj([("properties", Obj(Delete(fs, name))), ("required", Arr(w))]);
      GetAt(r.value.fields, 0);
      GetAt(r.value.fields, 1);
      WithoutRules(RequiredOf(s).items, Str(name));
    }
  }

  /** Marking required appends the name even when it is there already;
    * unmarking filters it out. */
  lemma ToggleRequiredRules(s: Value, name: string)
    requires RequiredOf(s).Arr?
    ensures ToggleRequiredUpdates(s, name, true) == Ok(Obj([("required", Arr(RequiredOf(s).items + [Str(name)]))]))
    ensures ToggleRequiredUpdates(s, name, false) == Ok(Obj([("required", Arr(Without(RequiredOf(s).items, Str(name))))]))
  {
  }

  /** A truthy `required` that is an object, a number or `true` is not a
    * list, and either toggle throws. */
  lemma ToggleRequiredFails(s: Value, name: string, isRequired: bool)
    requires RequiredOf(s).Obj? || RequiredOf(s).Num? || RequiredOf(s).Bool?
    ensures ToggleRequiredUpdates(s, name, isRequired).Err?
  {
  }

  /** Marking a name required and then unmarking it leaves `required`
    * without the name and otherwise as it was. */
  lemma {:induction false} ToggleOnThenOff(xs: seq<Value>, name: string)
    ensures Without(xs + [Str(name)], Str(name)) == Without(xs, Str(name))
  {
    assert (xs + [Str(name)])[..|xs|] == xs;
  }

  /** A blank name adds nothing; any other name adds the new object schema
    * last, under the given id, and selects it with the form cleared. */
  lemma CreateSchemaRules(p: Project, form: Form, id: string)
    ensures JsTrim(form.newName) == "" ==> CreateSchema(p, form, id) == Ok((p, form))
    ensures JsTrim(form.newName) != "" && Get(p, SCHEMAS).Arr? ==>
      var r := CreateSchema(p, form, id);
      && r.Ok?
      && Get(r.value.0, SCHEMAS) == Arr(Get(p, SCHEMAS).items + [NewSchema(id, form.newName)])
      && (forall k :: k != SCHEMAS ==> Get(r.value.0, k) == Get(p, k))
      && r.value.1 == Form(Str(id), "", false)
    ensures JsTrim(form.newName) != "" && Get(p, SCHEMAS).Str? ==>
      CreateSchema(p, form, id) ==
        Ok((Set(p, SCHEMAS, Arr(CharItems(Get(p, SCHEMAS).s) + [NewSchema(id, form.newName)])), Form(Str(id), "", false)))
    ensures JsTrim(form.newName) != "" && !Get(p, SCHEMAS).Arr? && !Get(p, SCHEMAS).Str? ==>
      CreateSchema(p, form, id).Err?
  {
    AddRules(p, SCHEMAS, NewSchema(id, form.newName));
  }

  /** The new schema is an object schema with no properties and nothing
    * required. */
  lemma NewSchemaFields(id: string, name: string)
    ensures Prop(NewSchema(id, name), "id") == Str(id)
    ensures Prop(NewSchema(id, name), "name") == Str(name)
    ensures Prop(NewSchema(id, name), "type") == Str("object")
    ensures Prop(NewSchema(id, name), "properties") == Obj([])
    ensures Prop(NewSchema(id, name), "required") == Arr([])
  {
    var fs := NewSchema(id, name).fields;
    GetAt(fs, 0);
    GetAt(fs, 1);
    GetAt(fs, 2);
    GetAt(fs, 3);
    GetAt(fs, 4);
  }

  /** An edit of the selected schema changes, in every schema with its id,
    * exactly the keys the update carries, and no other project property. */
  lemma EditReachesSelected(p: Project, s: Value, u: Value)
    requires Get(p, SCHEMAS).Arr? && !HasNullItem(Get(p, SCHEMAS).items)
    ensures var items := Get(p, SCHEMAS).items;
      var r := UpdateSchema(p, Prop(s, "id"), u);
      && r.Ok? && |Get(r.value, SCHEMAS).items| == |items|
      && (forall i :: 0 <= i < |items| && HasId(items[i], Prop(s, "id")) ==>
            forall k :: Prop(Get(r.value, SCHEMAS).items[i], k)
                        == if HasKey(FieldsOf(u), k) then Prop(u, k) else Prop(items[i], k))
      && (forall k :: k != SCHEMAS ==> Get(r.value, k) == Get(p, k))
  {
    UpdateRules(p, SCHEMAS, Prop(s, "id"), u);
  }
}
