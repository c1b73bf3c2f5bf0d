// The API designer's project state: one JavaScript object holding the API's
// description (name, version, contact, license, servers, ...) and two lists,
// its endpoints and its schemas. Every edit replaces the project with a new
// object: a shallow merge for the description, and for the lists an append,
// a merge into the items with a given id, or a filter dropping them.
// Reading `.map` or `.filter` of a list that is not an array, spreading one
// that is neither an array nor a string, or reading `.id` of a null item,
// throws a TypeError.
module DesignerProject {
  import opened Wrappers
  import opened Json

  type Project = Fields

  const ENDPOINTS: string := "endpoints"
  const SCHEMAS: string := "schemas"

  /** The project the designer starts from. */
  const INITIAL: Project := [
    ("id", Str("")), ("name", Str("")), ("description", Str("")), ("version", Str("1.0")),
    ("contact", Obj([("name", Str("")), ("email", Str("")), ("url", Str(""))])),
    ("termsOfService", Str("")),
    ("license", Obj([("name", Str("")), ("url", Str(""))])),
    ("servers", Arr([Obj([("url", Str("")), ("description", Str("SANDBOX"))]),
                     Obj([("url", Str("")), ("description", Str("PROD"))])])),
    ("endpoints", Arr([])), ("schemas", Arr([]))]

  /** `a === b` on ids: objects and arrays have an identity of their own, so
    * two of them built apart are never equal. */
  predicate SameId(a: Value, b: Value)
  {
    a == b && !a.Obj? && !a.Arr?
  }

  predicate HasId(item: Value, id: Value) { SameId(Prop(item, "id"), id) }

  /** `updateProject(updates)`: `{...prev, ...updates}`. */
  function UpdateProject(p: Project, updates: Fields): Project
  {
    Merge(p, updates)
  }

  /** The items a spread of a string gives: its characters, one per item. */
  function CharItems(s: string): (r: seq<Value>)
    ensures |r| == |s| && forall i :: 0 <= i < |s| ==> r[i] == Str([s[i]])
  {
    seq(|s|, i requires 0 <= i < |s| => Str([s[i]]))
  }

  /** `[...prev[list], item]`: an array and a string are iterable, the
    * string giving its characters; anything else throws. */
  function AddItem(p: Project, list: string, item: Value): Result<Project>
  {
    match Get(p, list)
    case Arr(items) => Ok(Set(p, list, Arr(items + [item])))
    case Str(text) => Ok(Set(p, list, Arr(CharItems(text) + [item])))
    case _ => Err(TypeError(list + " is not iterable"))
  }

  /** The items with `{...item, ...updates}` for those whose id is `id`. */
  function MergeMatching(items: seq<Value>, id: Value, updates: Value): (r: seq<Value>)
    ensures |r| == |items|
    ensures forall i :: 0 <= i < |r| ==> r[i] == if HasId(items[i], id) then Spread(items[i], updates) else items[i]
  {
    seq(|items|, i requires 0 <= i < |items| => if HasId(items[i], id) then Spread(items[i], updates) else items[i])
  }

  /** The items whose id is not `id`, in order. */
  function DropMatching(items: seq<Value>, id: Value): seq<Value>
  {
    if items == [] then []
    else
      var rest := DropMatching(items[..|items| - 1], id);
      var last := items[|items| - 1];
      if HasId(last, id) then rest else rest + [last]
  }

  predicate HasNullItem(items: seq<Value>)
  {
    exists i :: 0 <= i < |items| && IsNullish(items[i])
  }

  /** `prev[list].map(e => e.id === id ? {...e, ...updates} : e)`. */
  function UpdateItems(p: Project, list: string, id: Value, updates: Value): Result<Project>
  {
    match Get(p, list)
    case Arr(items) =>
      if HasNullItem(items) then Err(TypeError("cannot read id of null"))
      else Ok(Set(p, list, Arr(MergeMatching(items, id, updates))))
    case _ => Err(TypeError(list + ".map is not a function"))
  }

  /** `prev[list].filter(e => e.id !== id)`. */
  function RemoveItems(p: Project, list: string, id: Value): Result<Project>
  {
    match Get(p, list)
    case Arr(items) =>
      if HasNullItem(items) then Err(TypeError("cannot read id of null"))
      else Ok(Set(p, list, Arr(DropMatching(items, id))))
    case _ => Err(TypeError(list + ".filter is not a function"))
  }

  function AddEndpoint(p: Project, e: Value): Result<Project> { AddItem(p, ENDPOINTS, e) }
  function UpdateEndpoint(p: Project, id: Value, updates: Value): Result<Project> { UpdateItems(p, ENDPOINTS, id, updates) }
  function RemoveEndpoint(p: Project, id: Value): Result<Project> { RemoveItems(p, ENDPOINTS, id) }
  function AddSchema(p: Project, s: Value): Result<Project> { AddItem(p, SCHEMAS, s) }
  function UpdateSchema(p: Project, id: Value, updates: Value): Result<Project> { UpdateItems(p, SCHEMAS, id, updates) }
  function RemoveSchema(p: Project, id: Value): Result<Project> { RemoveItems(p, SCHEMAS, id) }

  // ---------------------------------------------------------------- properties

  /** The merge takes every key the updates carry and keeps every other one. */
  lemma UpdateProjectRules(p: Project, updates: Fields)
    ensures forall k :: HasKey(updates, k) ==> Get(UpdateProject(p, updates), k) == Get(updates, k)
    ensures forall k :: !HasKey(updates, k) ==> Get(UpdateProject(p, updates), k) == Get(p, k)
    ensures UpdateProject(p, []) == p
  {
  }

  /** Adding puts the item last, after the earlier ones in their order, and
    * touches no other property; a string list is spread into its
    * characters first; a list that is neither an array nor a string throws. */
  lemma AddRules(p: Project, list: string, item: Value)
    ensures Get(p, list).Arr? || Get(p, list).Str? ==>
      var before := if Get(p, list).Arr? then Get(p, list).items else CharItems(Get(p, list).s);
      var r := AddItem(p, list, item);
      && r.Ok?
      && Get(r.value, list) == Arr(before + [item])
      && (forall k :: k != list ==> Get(r.value, k) == Get(p, k))
      && Keys(r.value) == Keys(p)
    ensures !Get(p, list).Arr? && !Get(p, list).Str? ==> AddItem(p, list, item).Err?
  {
    if Get(p, list).Arr? {
      GetKeyed(p, list);
      SetKeys(p, list, Arr(Get(p, list).items + [item]));
    } else if Get(p, list).Str? {
      GetKeyed(p, list);
      SetKeys(p, list, Arr(CharItems(Get(p, list).s) + [item]));
    }
  }

  /** A property that reads as something other than undefined is present. */
  lemma GetKeyed(p: Fields, k: string)
    requires !Get(p, k).Undefined?
    ensures HasKey(p, k)
  {
    if !HasKey(p, k) {
      GetAbsent(p, k);
    }
  }

  /** Writing a list back: that list reads as written, every other property
    * is unchanged, and writing back the same items gives the project back. */
  lemma WriteList(p: Project, list: string, xs: seq<Value>)
    requires Get(p, list).Arr?
    ensures Get(Set(p, list, Arr(xs)), list) == Arr(xs)
    ensures forall k :: k != list ==> Get(Set(p, list, Arr(xs)), k) == Get(p, k)
    ensures xs == Get(p, list).items ==> Set(p, list, Arr(xs)) == p
  {
    if xs == Get(p, list).items {
      GetKeyed(p, list);
      SetGetSame(p, list);
    }
  }

  /** Updating merges into exactly the items with that id, keeps the others
    * and the list's length, and with an id no item has changes nothing. */
  lemma UpdateRules(p: Project, list: string, id: Value, updates: Value)
    ensures Get(p, list).Arr? && !HasNullItem(Get(p, list).items) ==>
      var items := Get(p, list).items;
      var r := UpdateItems(p, list, id, updates);
      && r.Ok?
      && Get(r.value, list).Arr?
      && |Get(r.value, list).items| == |items|
      && (forall i :: 0 <= i < |items| && HasId(items[i], id) ==>
            forall k :: Prop(Get(r.value, list).items[i], k)
                        == if HasKey(FieldsOf(updates), k) then Prop(updates, k) else Prop(items[i], k))
      && (forall i :: 0 <= i < |items| && !HasId(items[i], id) ==> Get(r.value, list).items[i] == items[i])
      && (forall k :: k != list ==> Get(r.value, k) == Get(p, k))
      && ((forall i :: 0 <= i < |items| ==> !HasId(items[i], id)) ==> r.value == p)
    ensures !Get(p, list).Arr? || HasNullItem(Get(p, list).items) ==> UpdateItems(p, list, id, updates).Err?
  {
    if Get(p, list).Arr? && !HasNullItem(Get(p, list).items) {
      var items := Get(p, list).items;
      var ms := MergeMatching(items, id, updates);
      assert UpdateItems(p, list, id, updates) == Ok(Set(p, list, Arr(ms)));
      WriteList(p, list, ms);
      if forall i :: 0 <= i < |items| ==> !HasId(items[i], id) {
        assert ms == items;
      }
    }
  }

  /** What removal keeps: the items without that id, in their order. */
  lemma {:induction false} DropMatchingRules(items: seq<Value>, id: Value)
    ensures forall x :: x in DropMatching(items, id) <==> x in items && !HasId(x, id)
    ensures (forall i :: 0 <= i < |items| ==> !HasId(items[i], id)) ==> DropMatching(items, id) == items
    ensures |DropMatching(items, id)| <= |items|
  {
    if items != [] {
      var init := items[..|items| - 1];
      assert items == init + [items[|items| - 1]];
      DropMatchingRules(init, id);
    }
  }

  /** Removing drops exactly the items with that id and keeps the rest in
    * order; an id no item has changes nothing. */
  lemma RemoveRules(p: Project, list: string, id: Value)
    ensures Get(p, list).Arr? && !HasNullItem(Get(p, list).items) ==>
      var items := Get(p, list).items;
      var r := RemoveItems(p, list, id);
      && r.Ok?
      && Get(r.value, list) == Arr(DropMatching(items, id))
      && (forall x :: x in DropMatching(items, id) <==> x in items && !HasId(x, id))
      && (forall k :: k != list ==> Get(r.value, k) == Get(p, k))
      && ((forall i :: 0 <= i < |items| ==> !HasId(items[i], id)) ==> r.value == p)
    ensures !Get(p, list).Arr? || HasNullItem(Get(p, list).items) ==> RemoveItems(p, list, id).Err?
  {
    if Get(p, list).Arr? && !HasNullItem(Get(p, list).items) {
      var items := Get(p, list).items;
      var ds := DropMatching(items, id);
      assert RemoveItems(p, list, id) == Ok(Set(p, list, Arr(ds)));
      DropMatchingRules(items, id);
      WriteList(p, list, ds);
    }
  }

  /** Removing an item just added, by an id no earlier item has, gives the
    * project back. */
  lemma RemoveUndoesAdd(p: Project, list: string, item: Value)
    requires Get(p, list).Arr?
    requires !IsNullish(item) && !HasNullItem(Get(p, list).items)
    requires !Prop(item, "id").Obj? && !Prop(item, "id").Arr?
    requires forall i :: 0 <= i < |Get(p, list).items| ==> !HasId(Get(p, list).items[i], Prop(item, "id"))
    ensures AddItem(p, list, item).Ok?
    ensures RemoveItems(AddItem(p, list, item).value, list, Prop(item, "id")) == Ok(p)
  {
    var items := Get(p, list).items;
    var id := Prop(item, "id");
    var q := Set(p, list, Arr(items + [item]));
    assert AddItem(p, list, item) == Ok(q);
    WriteList(p, list, items + [item]);
    assert Get(q, list) == Arr(items + [item]);
    assert (items + [item])[..|items|] == items;
    DropMatchingRules(items, id);
    assert DropMatching(items + [item], id) == items;
    assert !HasNullItem(items + [item]) by {
      forall i | 0 <= i < |items| + 1 ensures !IsNullish((items + [item])[i]) {
        if i < |items| { assert (items + [item])[i] == items[i]; }
      }
    }
    assert RemoveItems(q, list, id) == Ok(Set(q, list, Arr(items)));
    SetTwice(p, list, Arr(items + [item]), Arr(items));
    WriteList(p, list, items);
  }
}
