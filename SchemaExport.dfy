// The `components.schemas` part of the API designer's OpenAPI export. Each
// schema of the project becomes an entry under its name; each of its
// properties is cleaned down to the keys OpenAPI knows, dropping values that
// are undefined, null or blank text, and the schema's required list gathers
// the declared names and the properties that mark themselves required.
module SchemaExport {
  import opened Wrappers
  import opened Strings
  import opened Json

  /** The property keys a cleaned property may keep, in the order written. */
  const ALLOWED: seq<string> := [
    "type", "format", "description", "example", "deprecated",
    "minimum", "maximum", "exclusiveMinimum", "exclusiveMaximum",
    "minLength", "maxLength", "pattern", "enum", "multipleOf",
    "items", "properties", "$ref", "default"]

  /** A value a cleaned property keeps: not undefined, not null, not text
    * that trims to nothing. */
  predicate Kept(v: Value)
  {
    !IsNullish(v) && !(v.Str? && JsTrim(v.s) == "")
  }

  /** The fragment a property is cleaned from: a property object carrying a
    * nested `schema` has the nested keys spread over its own; any other
    * falsy value reads as `{}`. */
  function Base(pv: Value): Value
  {
    if Truthy(pv) && (pv.Obj? || pv.Arr?) && Truthy(Prop(pv, "schema")) then Spread(pv, Prop(pv, "schema"))
    else Or(pv, Obj([]))
  }

  /** `clean[k] = base[k]` for each of `keys` whose value is kept. */
  function CleanPairs(base: Value, keys: seq<string>): Fields
    decreases |keys|
  {
    if keys == [] then []
    else
      var c := CleanPairs(base, keys[..|keys| - 1]);
      var k := keys[|keys| - 1];
      if Kept(Prop(base, k)) then Set(c, k, Prop(base, k)) else c
  }

  /** The cleaned property: the allowed keys kept, the fragment's own truthy
    * `type` when none was kept, and `{type: 'string'}` when nothing is left. */
  function CleanFragment(base: Value): Fields
  {
    var c := CleanPairs(base, ALLOWED);
    var c1 := if !Truthy(Get(c, "type")) && Truthy(Prop(base, "type")) then Set(c, "type", Prop(base, "type")) else c;
    if |c1| == 0 then Set(c1, "type", Str("string")) else c1
  }

  /** `Object.entries(schema.properties || {})`. */
  function PropEntries(schema: Value): Fields
  {
    Entries(Or(Prop(schema, "properties"), Obj([])))
  }

  /** Every property's cleaned fragment under its name. */
  function CleanProperties(entries: Fields): Fields
    decreases |entries|
  {
    if entries == [] then []
    else
      var last := entries[|entries| - 1];
      Set(CleanProperties(entries[..|entries| - 1]), last.0, Obj(CleanFragment(Base(last.1))))
  }

  lemma CleanPropertiesSnoc(entries: Fields, i: int)
    requires 0 <= i < |entries|
    ensures CleanProperties(entries[..i + 1])
            == Set(CleanProperties(entries[..i]), entries[i].0, Obj(CleanFragment(Base(entries[i].1))))
  {
    var q := entries[..i + 1];
    assert q[..|q| - 1] == entries[..i];
  }

  /** A property whose own fragment says `required: true`. */
  predicate MarkedRequired(pv: Value)
  {
    Prop(Base(pv), "required") == Bool(true)
  }

  /** The names of the properties `marked`, in order. */
  function FlaggedBy(entries: Fields, marked: Value -> bool): seq<Value>
    decreases |entries|
  {
    if entries == [] then []
    else
      var last := entries[|entries| - 1];
      FlaggedBy(entries[..|entries| - 1], marked) + (if marked(last.1) then [Str(last.0)] else [])
  }

  /** The names of the properties marked required. */
  function Flagged(entries: Fields): seq<Value>
  {
    FlaggedBy(entries, MarkedRequired)
  }

  lemma FlaggedSnoc(entries: Fields, i: int, marked: Value -> bool)
    requires 0 <= i < |entries|
    ensures FlaggedBy(entries[..i + 1], marked) == FlaggedBy(entries[..i], marked) + (if marked(entries[i].1) then [Str(entries[i].0)] else [])
  {
    var q := entries[..i + 1];
    assert q[..|q| - 1] == entries[..i];
  }

  /** `Array.isArray(schema.required) ? schema.required : []`. */
  function Declared(schema: Value): seq<Value>
  {
    ItemsOf(Prop(schema, "required"))
  }

  /** The required names: a set filled with the declared names, then the
    * flagged properties, read back in insertion order. */
  function Required(schema: Value): seq<Value>
  {
    Dedupe(Declared(schema) + Flagged(PropEntries(schema)))
  }

  /** The exported schema object. */
  function SchemaObject(schema: Value): Value
  {
    var props := CleanProperties(PropEntries(schema));
    var req := Required(schema);
    Obj([("type", Or(Prop(schema, "type"), Str("object"))),
         ("description", Or(Prop(schema, "description"), Undefined)),
         ("properties", if |props| > 0 then Obj(props) else Undefined),
         ("required", if |req| > 0 then Arr(req) else Undefined),
         ("additionalProperties", if Prop(schema, "additionalProperties") == Bool(false) then Bool(false) else Undefined)])
  }

  /** The reduce over the project's schemas, each written under its name
    * as `export` makes it; reading a property of a null schema throws. */
  function Reduce(schemas: seq<Value>, exportOf: Value -> Value): Result<Fields>
    decreases |schemas|
  {
    if schemas == [] then Ok([])
    else
      var last := schemas[|schemas| - 1];
      match Reduce(schemas[..|schemas| - 1], exportOf)
      case Err(f) => Err(f)
      case Ok(acc) =>
        if IsNullish(last) then Err(TypeError("cannot read required of null"))
        else Ok(Set(acc, JsString(Prop(last, "name")), exportOf(last)))
  }

  /** `components.schemas`. */
  function Schemas(schemas: seq<Value>): Result<Fields>
  {
    Reduce(schemas, SchemaObject)
  }

  // ---------------------------------------------------------------- the loops

  /** The `allowedKeys.forEach` loop filling `clean`. */
  method CleanProperty(base: Value) returns (clean: Fields)
    ensures clean == CleanFragment(base)
  {
    clean := [];
    for j := 0 to |ALLOWED|
      invariant clean == CleanPairs(base, ALLOWED[..j])
    {
      var k := ALLOWED[j];
      var v := Prop(base, k);
      assert ALLOWED[..j + 1][..j] == ALLOWED[..j];
      if Kept(v) {
        clean := Set(clean, k, v);
      }
    }
    assert ALLOWED[..|ALLOWED|] == ALLOWED;
    if !Truthy(Get(clean, "type")) && Truthy(Prop(base, "type")) {
      clean := Set(clean, "type", Prop(base, "type"));
    }
    if |clean| == 0 {
      clean := Set(clean, "type", Str("string"));
    }
  }

  /** A set's `add`: a new element goes last, a present one stays put. */
  lemma DedupeSnoc<T(!new)>(xs: seq<T>, x: T)
    ensures Dedupe(xs + [x]) == if x in Dedupe(xs) then Dedupe(xs) else Dedupe(xs) + [x]
  {
    assert (xs + [x])[..|xs|] == xs;
  }

  /** One schema of the reduce: the `forEach` over its properties filling
    * `cleanProperties` and `requiredSet`. */
  method CleanSchema(schema: Value) returns (r: Value)
    requires !IsNullish(schema)
    ensures r == SchemaObject(schema)
  {
    var clean, req := CleanEntries(PropEntries(schema), Declared(schema));
    r := Obj([("type", Or(Prop(schema, "type"), Str("object"))),
              ("description", Or(Prop(schema, "description"), Undefined)),
              ("properties", if |clean| > 0 then Obj(clean) else Undefined),
              ("required", if |req| > 0 then Arr(req) else Undefined),
              ("additionalProperties", if Prop(schema, "additionalProperties") == Bool(false) then Bool(false) else Undefined)]);
  }

  /** The `forEach` over the property entries: each cleaned under its name,
    * and the flagged names added to the set started from `declared`. */
  method CleanEntries(entries: Fields, declared: seq<Value>) returns (clean: Fields, req: seq<Value>)
    ensures clean == CleanProperties(entries)
    ensures req == Dedupe(declared + Flagged(entries))
  {
    clean := [];
    req := Dedupe(declared);
    ghost var flagged: seq<Value> := [];
    assert declared + flagged == declared;
    for i := 0 to |entries|
      invariant clean == CleanProperties(entries[..i])
      invariant flagged == FlaggedBy(entries[..i], MarkedRequired)
      invariant req == Dedupe(declared + flagged)
    {
      var name := entries[i].0;
      var b := Base(entries[i].1);
      FlaggedSnoc(entries, i, MarkedRequired);
      CleanPropertiesSnoc(entries, i);
      if Prop(b, "required") == Bool(true) {
        SetAdd(declared, flagged, Str(name));
        if Str(name) !in req {
          req := req + [Str(name)];
        }
        flagged := flagged + [Str(name)];
      }
      var c := CleanProperty(b);
      clean := Set(clean, name, Obj(c));
    }
    assert entries[..|entries|] == entries;
  }

  /** Adding one more name to the set filled from `xs + ys`. */
  lemma SetAdd<T(!new)>(xs: seq<T>, ys: seq<T>, x: T)
    ensures Dedupe(xs + (ys + [x])) == if x in Dedupe(xs + ys) then Dedupe(xs + ys) else Dedupe(xs + ys) + [x]
  {
    assert xs + (ys + [x]) == (xs + ys) + [x];
    DedupeSnoc(xs + ys, x);
  }

  /** The reduce over the schemas, each written under its name. */
  method BuildSchemas(schemas: seq<Value>) returns (r: Result<Fields>)
    ensures r == Schemas(schemas)
  {
    var acc: Fields := [];
    for i := 0 to |schemas|
      invariant Reduce(schemas[..i], SchemaObject) == Ok(acc)
    {
      var q := schemas[..i + 1];
      assert q[..|q| - 1] == schemas[..i];
      assert q[|q| - 1] == schemas[i];
      if IsNullish(schemas[i]) {
        ReduceErrSticky(schemas, SchemaObject, i + 1);
        return Err(TypeError("cannot read required of null"));
      }
      var s := CleanSchema(schemas[i]);
      acc := Set(acc, JsString(Prop(schemas[i], "name")), s);
    }
    assert schemas[..|schemas|] == schemas;
    r := Ok(acc);
  }

  /** Once a prefix throws, the whole reduce throws the same error. */
  lemma {:induction false} ReduceErrSticky(schemas: seq<Value>, exportOf: Value -> Value, i: nat)
    requires i <= |schemas|
    requires Reduce(schemas[..i], exportOf).Err?
    ensures Reduce(schemas, exportOf) == Reduce(schemas[..i], exportOf)
    decreases |schemas| - i
  {
    if i == |schemas| {
      assert schemas[..i] == schemas;
    } else {
      var q := schemas[..i + 1];
      assert q[..|q| - 1] == schemas[..i];
      assert Reduce(q, exportOf).Err?;
      ReduceErrSticky(schemas, exportOf, i + 1);
    }
  }

  // ---------------------------------------------------------------- properties

  /** The kept pairs: exactly the keys listed whose value is kept, each with
    * the fragment's value. */
  lemma {:induction false} CleanPairsRules(base: Value, keys: seq<string>)
    ensures forall k :: HasKey(CleanPairs(base, keys), k) <==> k in keys && Kept(Prop(base, k))
    ensures forall k :: Get(CleanPairs(base, keys), k) == if k in keys && Kept(Prop(base, k)) then Prop(base, k) else Undefined
    decreases |keys|
  {
    var c := CleanPairs(base, keys);
    if keys == [] {
      forall k ensures Get(c, k) == Undefined { GetAbsent(c, k); }
    } else {
      var init := keys[..|keys| - 1];
      var k0 := keys[|keys| - 1];
      assert keys == init + [k0];
      assert forall k :: k in keys <==> k in init || k == k0;
      CleanPairsRules(base, init);
      if Kept(Prop(base, k0)) {
        SetHasKey(CleanPairs(base, init), k0, Prop(base, k0));
      }
    }
  }

  /** A cleaned property is never empty and keeps only allowed keys; every
    * allowed key but `type` carries the fragment's value exactly when that
    * value is kept; `type` is the fragment's when kept or truthy (so a blank
    * type survives), else 'string' when nothing else was kept. */
  lemma CleanFragmentRules(base: Value)
    ensures var c := CleanFragment(base);
      && c != []
      && (forall k :: HasKey(c, k) ==> k in ALLOWED)
      && (forall k :: k in ALLOWED && k != "type" ==>
            Get(c, k) == if Kept(Prop(base, k)) then Prop(base, k) else Undefined)
      && Get(c, "type") == (var t := Prop(base, "type");
            if Kept(t) || Truthy(t) then t
            else if forall k :: k in ALLOWED ==> !Kept(Prop(base, k)) then Str("string")
            else Undefined)
  {
    var c := CleanPairs(base, ALLOWED);
    var t := Prop(base, "type");
    CleanPairsRules(base, ALLOWED);
    CleanPairsEmpty(base);
    var c1 := if !Truthy(Get(c, "type")) && Truthy(t) then Set(c, "type", t) else c;
    TypeFallback(c, t);
    StringFallback(c1);
    assert CleanFragment(base) == if |c1| == 0 then Set(c1, "type", Str("string")) else c1;
    assert "type" in ALLOWED;
    assert Get(c, "type") == if Kept(t) then t else Undefined;
    if Kept(t) {
      assert HasKey(c, "type");
      assert c1 != [];
    } else if Truthy(t) {
      assert c1 != [];
      assert Get(c1, "type") == t;
    } else {
      assert c1 == c;
    }
  }

  /** No key kept leaves the pairs empty, and any key kept makes them not. */
  lemma CleanPairsEmpty(base: Value)
    ensures CleanPairs(base, ALLOWED) == [] <==> forall k :: k in ALLOWED ==> !Kept(Prop(base, k))
  {
    CleanPairsRules(base, ALLOWED);
    var c := CleanPairs(base, ALLOWED);
    if c != [] {
      assert HasKey(c, c[0].0);
    }
  }

  /** The fallback to the fragment's own truthy `type`. */
  lemma TypeFallback(c: Fields, t: Value)
    ensures var c1 := if !Truthy(Get(c, "type")) && Truthy(t) then Set(c, "type", t) else c;
      && (forall k :: HasKey(c1, k) <==> HasKey(c, k) || (k == "type" && !Truthy(Get(c, "type")) && Truthy(t)))
      && (forall k :: k != "type" ==> Get(c1, k) == Get(c, k))
      && Get(c1, "type") == (if !Truthy(Get(c, "type")) && Truthy(t) then t else Get(c, "type"))
      && (c1 == [] <==> c == [] && !(!Truthy(Get(c, "type")) && Truthy(t)))
  {
    if !Truthy(Get(c, "type")) && Truthy(t) {
      SetHasKey(c, "type", t);
      var c1 := Set(c, "type", t);
      assert HasKey(c1, "type");
    }
  }

  /** The fallback to `{type: 'string'}` for an empty result. */
  lemma StringFallback(c1: Fields)
    ensures var c2 := if |c1| == 0 then Set(c1, "type", Str("string")) else c1;
      && c2 != []
      && (forall k :: HasKey(c2, k) <==> HasKey(c1, k) || (k == "type" && c1 == []))
      && (forall k :: k != "type" ==> Get(c2, k) == Get(c1, k))
      && Get(c2, "type") == (if c1 == [] then Str("string") else Get(c1, "type"))
  {
    if |c1| == 0 {
      SetHasKey(c1, "type", Str("string"));
      assert HasKey(Set(c1, "type", Str("string")), "type");
    }
  }

  /** An empty fragment exports as `{type: 'string'}`. */
  lemma EmptyFragment()
    ensures CleanFragment(Base(Undefined)) == [("type", Str("string"))]
    ensures CleanFragment(Base(Obj([]))) == [("type", Str("string"))]
  {
    CleanPairsRules(Obj([]), ALLOWED);
    var cp := CleanPairs(Obj([]), ALLOWED);
    assert cp == [] by {
      if cp != [] { assert HasKey(cp, cp[0].0); }
    }
  }

  /** The cleaned properties: one entry per property name, the fragment of
    * the last entry with that name. */
  lemma {:induction false} CleanPropertiesRules(entries: Fields)
    ensures forall k :: HasKey(CleanProperties(entries), k) <==> HasKey(entries, k)
    ensures forall k :: HasKey(entries, k) ==>
      Get(CleanProperties(entries), k) == Obj(CleanFragment(Base(Get(entries, k))))
    decreases |entries|
  {
    if entries != [] {
      var init := entries[..|entries| - 1];
      var last := entries[|entries| - 1];
      assert entries == init + [last];
      assert Keys(entries) == Keys(init) + [last.0];
      CleanPropertiesRules(init);
      var cpi := CleanProperties(init);
      var x := Obj(CleanFragment(Base(last.1)));
      assert CleanProperties(entries) == Set(cpi, last.0, x);
      SetHasKey(cpi, last.0, x);
      assert forall k :: HasKey(entries, k) <==> HasKey(init, k) || k == last.0;
      forall k | HasKey(entries, k)
        ensures Get(CleanProperties(entries), k) == Obj(CleanFragment(Base(Get(entries, k))))
      {
        GetAppend(init, last, k);
      }
    }
  }

  /** The flagged names: exactly the names of the marked properties. */
  lemma {:induction false} FlaggedRules(entries: Fields, marked: Value -> bool)
    ensures forall x :: x in FlaggedBy(entries, marked) <==>
      exists i :: 0 <= i < |entries| && x == Str(entries[i].0) && marked(entries[i].1)
    decreases |entries|
  {
    if entries != [] {
      var init := entries[..|entries| - 1];
      var last := entries[|entries| - 1];
      FlaggedRules(init, marked);
      forall x | x in FlaggedBy(entries, marked)
        ensures exists i :: 0 <= i < |entries| && x == Str(entries[i].0) && marked(entries[i].1)
      {
        if x in FlaggedBy(init, marked) {
          var i :| 0 <= i < |init| && x == Str(init[i].0) && marked(init[i].1);
          assert entries[i] == init[i];
        } else {
          assert x == Str(entries[|entries| - 1].0);
        }
      }
      forall x, i | 0 <= i < |entries| && x == Str(entries[i].0) && marked(entries[i].1)
        ensures x in FlaggedBy(entries, marked)
      {
        if i < |init| {
          assert init[i] == entries[i];
        }
      }
    }
  }

  /** The required list has no duplicates, starts with the declared names in
    * their order, and holds exactly the declared names and the properties
    * flagged `required: true`; it is exported only when not empty. */
  lemma RequiredRules(schema: Value)
    ensures Distinct(Required(schema))
    ensures forall x :: x in Required(schema) <==>
      x in Declared(schema)
      || exists i :: 0 <= i < |PropEntries(schema)| && x == Str(PropEntries(schema)[i].0)
                     && MarkedRequired(PropEntries(schema)[i].1)
    ensures Distinct(Declared(schema)) ==>
      |Required(schema)| >= |Declared(schema)| && Required(schema)[..|Declared(schema)|] == Declared(schema)
    ensures Prop(SchemaObject(schema), "required") == if Required(schema) == [] then Undefined else Arr(Required(schema))
  {
    FlaggedRules(PropEntries(schema), MarkedRequired);
    if Distinct(Declared(schema)) {
      DedupePrefix(Declared(schema), Flagged(PropEntries(schema)));
    }
    var props := CleanProperties(PropEntries(schema));
    var req := Required(schema);
    var fs: Fields := [("type", Or(Prop(schema, "type"), Str("object"))),
         ("description", Or(Prop(schema, "description"), Undefined)),
         ("properties", if |props| > 0 then Obj(props) else Undefined),
         ("required", if |req| > 0 then Arr(req) else Undefined),
         ("additionalProperties", if Prop(schema, "additionalProperties") == Bool(false) then Bool(false) else Undefined)];
    GetAt(fs, 3);
  }

  /** A set filled with distinct elements and then more keeps the first ones
    * first. */
  lemma {:induction false} DedupePrefix<T(!new)>(xs: seq<T>, ys: seq<T>)
    requires Distinct(xs)
    ensures |Dedupe(xs + ys)| >= |xs| && Dedupe(xs + ys)[..|xs|] == xs
    decreases |ys|
  {
    if ys == [] {
      assert xs + ys == xs;
      DedupeOfDistinct(xs);
    } else {
      var init := ys[..|ys| - 1];
      assert xs + ys == (xs + init) + [ys[|ys| - 1]];
      DedupePrefix(xs, init);
      DedupeSnoc(xs + init, ys[|ys| - 1]);
    }
  }

  /** The schema's own fields: its type, 'object' when falsy; its
    * description when truthy; `additionalProperties` only when `false`. */
  lemma SchemaObjectRules(schema: Value)
    ensures Prop(SchemaObject(schema), "type") == if Truthy(Prop(schema, "type")) then Prop(schema, "type") else Str("object")
    ensures Prop(SchemaObject(schema), "description") == if Truthy(Prop(schema, "description")) then Prop(schema, "description") else Undefined
    ensures Prop(SchemaObject(schema), "additionalProperties") == if Prop(schema, "additionalProperties") == Bool(false) then Bool(false) else Undefined
    ensures Prop(SchemaObject(schema), "properties") ==
      if PropEntries(schema) == [] then Undefined else Obj(CleanProperties(PropEntries(schema)))
  {
    var entries := PropEntries(schema);
    var props := CleanProperties(entries);
    var req := Required(schema);
    CleanPropertiesEmpty(entries);
    SchemaFieldsRules(Or(Prop(schema, "type"), Str("object")), Or(Prop(schema, "description"), Undefined),
                      if |props| > 0 then Obj(props) else Undefined, if |req| > 0 then Arr(req) else Undefined,
                      if Prop(schema, "additionalProperties") == Bool(false) then Bool(false) else Undefined);
  }

  /** The cleaned properties are empty exactly when there are none. */
  lemma CleanPropertiesEmpty(entries: Fields)
    ensures |CleanProperties(entries)| > 0 <==> entries != []
  {
    if entries != [] {
      CleanPropertiesRules(entries);
      assert HasKey(entries, entries[0].0);
      assert HasKey(CleanProperties(entries), entries[0].0);
    }
  }

  /** The five fields of an exported schema read back. */
  lemma SchemaFieldsRules(t: Value, d: Value, props: Value, req: Value, ap: Value)
    ensures var o := Obj([("type", t), ("description", d), ("properties", props), ("required", req), ("additionalProperties", ap)]);
      Prop(o, "type") == t && Prop(o, "description") == d && Prop(o, "properties") == props
      && Prop(o, "required") == req && Prop(o, "additionalProperties") == ap
  {
    var fs := [("type", t), ("description", d), ("properties", props), ("required", req), ("additionalProperties", ap)];
    GetAt(fs, 0);
    GetAt(fs, 1);
    GetAt(fs, 2);
    GetAt(fs, 3);
    GetAt(fs, 4);
  }


  /** The last schema of the list exported under `name`, if there is one. */
  function LastNamed(schemas: seq<Value>, name: string): (r: Option<Value>)
    ensures r.None? <==> forall i :: 0 <= i < |schemas| ==> JsString(Prop(schemas[i], "name")) != name
    ensures r.Some? ==> r.value in schemas
    decreases |schemas|
  {
    if schemas == [] then None
    else
      var last := schemas[|schemas| - 1];
      if JsString(Prop(last, "name")) == name then Some(last)
      else
        var r := LastNamed(schemas[..|schemas| - 1], name);
        assert forall i :: 0 <= i < |schemas| - 1 ==> schemas[..|schemas| - 1][i] == schemas[i];
        r
  }

  /** The reduce throws exactly when some schema is null or undefined. */
  lemma {:induction false} ReduceErr(schemas: seq<Value>, exportOf: Value -> Value)
    ensures Reduce(schemas, exportOf).Err? <==> exists i :: 0 <= i < |schemas| && IsNullish(schemas[i])
    decreases |schemas|
  {
    if schemas != [] {
      var init := schemas[..|schemas| - 1];
      var last := schemas[|schemas| - 1];
      ReduceErr(init, exportOf);
      if Reduce(init, exportOf).Err? {
        var i :| 0 <= i < |init| && IsNullish(init[i]);
        assert schemas[i] == init[i];
      } else if IsNullish(last) {
        assert IsNullish(schemas[|schemas| - 1]);
      } else {
        forall i | 0 <= i < |schemas| ensures !IsNullish(schemas[i]) {
          if i < |init| { assert schemas[i] == init[i]; }
        }
      }
    }
  }

  /** Every name holds the export of the last schema with that name, and no
    * other name is written. */
  lemma {:induction false} ReduceLookup(schemas: seq<Value>, exportOf: Value -> Value, name: string)
    requires Reduce(schemas, exportOf).Ok?
    ensures HasKey(Reduce(schemas, exportOf).value, name) <==> LastNamed(schemas, name).Some?
    ensures Get(Reduce(schemas, exportOf).value, name)
            == if LastNamed(schemas, name).Some? then exportOf(LastNamed(schemas, name).value) else Undefined
    decreases |schemas|
  {
    if schemas == [] {
      GetAbsent([], name);
    } else {
      var init := schemas[..|schemas| - 1];
      var last := schemas[|schemas| - 1];
      var acc := Reduce(init, exportOf).value;
      var n := JsString(Prop(last, "name"));
      var x := exportOf(last);
      assert Reduce(schemas, exportOf).value == Set(acc, n, x);
      SetHasKey(acc, n, x);
      if name != n {
        ReduceLookup(init, exportOf, name);
        assert LastNamed(schemas, name) == LastNamed(init, name);
      }
    }
  }
}
