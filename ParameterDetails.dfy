// The parameter-details dialog of the API designer. It opens with a form
// read from the parameter and its schema, and on save builds the schema
// updates from the form: each field becomes `undefined` when it is empty
// (numbers are parsed, the enum text is split on commas), the keys left
// `undefined` are deleted, and the parameter's schema is spread under what
// remains. `parseFloat` and `parseInt` are parameters of the model.
module ParameterDetails {
  import opened Wrappers
  import opened Strings
  import opened Json

  /** The dialog's form; `enumText` is the enum shown joined by ", ". */
  datatype Form = Form(
    description: Value, required: Value, schemaType: Value, format: Value,
    minimum: Value, maximum: Value, minLength: Value, maxLength: Value,
    pattern: Value, enumText: string, defaultValue: Value, example: Value,
    deprecated: Value, multipleOf: Value, exclusiveMinimum: Value, exclusiveMaximum: Value)

  /** `array.join(sep)`: null and undefined items give "". */
  function JoinValues(items: seq<Value>, sep: string): string
  {
    Join(seq(|items|, i requires 0 <= i < |items| => if IsNullish(items[i]) then "" else JsString(items[i])), sep)
  }

  function Strs(xs: seq<string>): (r: seq<Value>)
    ensures |r| == |xs| && forall i :: 0 <= i < |xs| ==> r[i] == Str(xs[i])
  {
    seq(|xs|, i requires 0 <= i < |xs| => Str(xs[i]))
  }

  /** The form the dialog opens with; `.join` on a truthy enum that is not
    * an array throws. */
  function InitialForm(parameter: Value): Result<Form>
  {
    var schema := Prop(parameter, "schema");
    var enumV := Prop(schema, "enum");
    var enumText: Result<string> :=
      if !Truthy(enumV) then Ok("")
      else if enumV.Arr? then Ok(JoinValues(enumV.items, ", "))
      else Err(TypeError("enum.join is not a function"));
    match enumText
    case Err(e) => Err(e)
    case Ok(text) =>
      Ok(Form(Or(Prop(parameter, "description"), Str("")), Or(Prop(parameter, "required"), Bool(false)),
              Or(Prop(schema, "type"), Str("string")), Or(Prop(schema, "format"), Str("")),
              Or(Prop(schema, "minimum"), Str("")), Or(Prop(schema, "maximum"), Str("")),
              Or(Prop(schema, "minLength"), Str("")), Or(Prop(schema, "maxLength"), Str("")),
              Or(Prop(schema, "pattern"), Str("")), text, Or(Prop(schema, "default"), Str("")),
              Or(Prop(parameter, "example"), Str("")), Or(Prop(parameter, "deprecated"), Bool(false)),
              Or(Prop(schema, "multipleOf"), Str("")), Or(Prop(schema, "exclusiveMinimum"), Bool(false)),
              Or(Prop(schema, "exclusiveMaximum"), Bool(false))))
  }

  /** `v ? parse(v) : undefined`. */
  function Parsed(v: Value, parse: string -> Value): Value
  {
    if Truthy(v) then parse(JsString(v)) else Undefined
  }

  /** `formData.enum ? formData.enum.split(',').map(v => v.trim()).filter(v => v) : undefined`. */
  function EnumOf(text: string): Value
  {
    if text != "" then Arr(Strs(CsvValues(text))) else Undefined
  }

  const SCHEMA_KEYS: seq<string> := ["type", "format", "minimum", "maximum", "minLength", "maxLength",
                                     "pattern", "enum", "default", "multipleOf", "exclusiveMinimum", "exclusiveMaximum"]

  /** `schemaUpdates` as first built, before the undefined keys go. */
  function SchemaUpdates(f: Form, parseFloat: string -> Value, parseInt: string -> Value): Fields
  {
    [("type", f.schemaType), ("format", Or(f.format, Undefined)),
     ("minimum", Parsed(f.minimum, parseFloat)), ("maximum", Parsed(f.maximum, parseFloat)),
     ("minLength", Parsed(f.minLength, parseInt)), ("maxLength", Parsed(f.maxLength, parseInt)),
     ("pattern", Or(f.pattern, Undefined)), ("enum", EnumOf(f.enumText)),
     ("default", Or(f.defaultValue, Undefined)), ("multipleOf", Parsed(f.multipleOf, parseFloat)),
     ("exclusiveMinimum", Or(f.exclusiveMinimum, Undefined)), ("exclusiveMaximum", Or(f.exclusiveMaximum, Undefined))]
  }

  /** The pairs whose value is not `undefined`, in order. */
  function Defined(fs: Fields): Fields
  {
    if fs == [] then []
    else Defined(fs[..|fs| - 1]) + (if fs[|fs| - 1].1 == Undefined then [] else [fs[|fs| - 1]])
  }

  /** The `forEach` that deletes every key whose value is `undefined`. */
  method RemoveUndefined(fs: Fields) returns (r: Fields)
    ensures r == Defined(fs)
  {
    r := [];
    var i := 0;
    while i < |fs|
      invariant i <= |fs|
      invariant r == Defined(fs[..i])
    {
      assert fs[..i + 1][..i] == fs[..i];
      if fs[i].1 != Undefined {
        r := r + [fs[i]];
      }
      i := i + 1;
    }
    assert fs[..|fs|] == fs;
  }

  /** `handleSave`: the updates handed to `onUpdate`. */
  function Save(parameter: Value, f: Form, parseFloat: string -> Value, parseInt: string -> Value): Value
  {
    var su := Defined(SchemaUpdates(f, parseFloat, parseInt));
    Updates(f, Obj(Merge(Entries(Prop(parameter, "schema")), su)))
  }

  /** The object handed to `onUpdate`, around the merged schema. */
  function Updates(f: Form, schema: Value): Value
  {
    Obj([("description", f.description), ("required", f.required), ("deprecated", f.deprecated),
         ("example", Or(f.example, Undefined)), ("schema", schema)])
  }

  /** `getFormatOptions(type)`. */
  function FormatOptions(t: Value): seq<string>
  {
    if t == Str("string") then ["", "date-time", "date", "time", "email", "hostname", "ipv4", "ipv6", "uri", "uuid"]
    else if t == Str("number") then ["", "float", "double"]
    else if t == Str("integer") then ["", "int32", "int64"]
    else [""]
  }

  // ---------------------------------------------------------------- properties

  predicate DistinctKeys(fs: Fields)
  {
    forall i, j :: 0 <= i < j < |fs| ==> fs[i].0 != fs[j].0
  }

  /** The filter keeps exactly the defined pairs, so no key it keeps is
    * `undefined` and distinct keys stay distinct. */
  lemma {:induction false} DefinedRules(fs: Fields)
    ensures forall p :: p in Defined(fs) <==> p in fs && p.1 != Undefined
    ensures DistinctKeys(fs) ==> DistinctKeys(Defined(fs))
  {
    if fs != [] {
      var init := fs[..|fs| - 1];
      assert fs == init + [fs[|fs| - 1]];
      DefinedRules(init);
      if DistinctKeys(fs) {
        assert DistinctKeys(init);
        forall p | p in Defined(init) ensures p.0 != fs[|fs| - 1].0 {
          var i :| 0 <= i < |init| && init[i] == p;
          assert fs[i] == p;
        }
      }
    }
  }

  /** With distinct keys, a pair's key reads its value. */
  lemma {:induction false} GetMember(fs: Fields, k: string, v: Value)
    requires DistinctKeys(fs) && (k, v) in fs
    ensures Get(fs, k) == v
  {
    var init := fs[..|fs| - 1];
    assert fs == init + [fs[|fs| - 1]];
    if fs[|fs| - 1] != (k, v) {
      assert (k, v) in init;
      var i :| 0 <= i < |init| && init[i] == (k, v);
      assert fs[i] == (k, v);
      assert fs[|fs| - 1].0 != k;
      GetMember(init, k, v);
    }
  }

  /** After the filter, pair `i`'s key holds its value when that is
    * defined and is gone when it is `undefined`. */
  lemma DefinedAt(fs: Fields, i: nat)
    requires DistinctKeys(fs) && i < |fs|
    ensures HasKey(Defined(fs), fs[i].0) <==> fs[i].1 != Undefined
    ensures Get(Defined(fs), fs[i].0) == fs[i].1
  {
    DefinedRules(fs);
    var d := Defined(fs);
    if fs[i].1 != Undefined {
      GetMember(d, fs[i].0, fs[i].1);
    } else {
      forall j | 0 <= j < |d| ensures d[j].0 != fs[i].0 {
        assert d[j] in fs;
        var m :| 0 <= m < |fs| && fs[m] == d[j];
        assert m != i;
      }
      assert !HasKey(d, fs[i].0);
      GetAbsent(d, fs[i].0);
    }
  }

  /** The schema updates have the twelve keys, each once. */
  lemma SchemaUpdatesKeys(f: Form, parseFloat: string -> Value, parseInt: string -> Value)
    ensures Keys(SchemaUpdates(f, parseFloat, parseInt)) == SCHEMA_KEYS
    ensures DistinctKeys(SchemaUpdates(f, parseFloat, parseInt))
  {
    var fs := SchemaUpdates(f, parseFloat, parseInt);
    assert forall i :: 0 <= i < |fs| ==> fs[i].0 == SCHEMA_KEYS[i];
    assert forall i, j :: 0 <= i < j < |SCHEMA_KEYS| ==> SCHEMA_KEYS[i] != SCHEMA_KEYS[j];
  }

  /** Key `i` of the schema updates after the filter. */
  lemma SchemaKeyAt(f: Form, parseFloat: string -> Value, parseInt: string -> Value, i: nat)
    requires i < 12
    ensures var fs := SchemaUpdates(f, parseFloat, parseInt);
      && fs[i].0 == SCHEMA_KEYS[i]
      && (HasKey(Defined(fs), SCHEMA_KEYS[i]) <==> fs[i].1 != Undefined)
      && Get(Defined(fs), SCHEMA_KEYS[i]) == fs[i].1
  {
    SchemaUpdatesKeys(f, parseFloat, parseInt);
    DefinedAt(SchemaUpdates(f, parseFloat, parseInt), i);
  }

  /** `x || undefined` is `undefined` exactly when `x` is falsy. */
  lemma OrUndefined(x: Value)
    ensures Or(x, Undefined) == Undefined <==> !Truthy(x)
  {
  }

  /** Empty text fields and false flags are left out of the updates; a
    * filled one is written as it is. */
  lemma OmitsEmptyFields(f: Form, parseFloat: string -> Value, parseInt: string -> Value)
    ensures var su := Defined(SchemaUpdates(f, parseFloat, parseInt));
      && (HasKey(su, "format") <==> Truthy(f.format))
      && (HasKey(su, "pattern") <==> Truthy(f.pattern))
      && (HasKey(su, "default") <==> Truthy(f.defaultValue))
      && (HasKey(su, "exclusiveMinimum") <==> Truthy(f.exclusiveMinimum))
      && (HasKey(su, "exclusiveMaximum") <==> Truthy(f.exclusiveMaximum))
      && (Truthy(f.format) ==> Get(su, "format") == f.format)
      && (Truthy(f.pattern) ==> Get(su, "pattern") == f.pattern)
  {
    OrUndefined(f.format);
    OrUndefined(f.pattern);
    OrUndefined(f.defaultValue);
    OrUndefined(f.exclusiveMinimum);
    OrUndefined(f.exclusiveMaximum);
    SchemaKeyAt(f, parseFloat, parseInt, 1);
    SchemaKeyAt(f, parseFloat, parseInt, 6);
    SchemaKeyAt(f, parseFloat, parseInt, 8);
    SchemaKeyAt(f, parseFloat, parseInt, 10);
    SchemaKeyAt(f, parseFloat, parseInt, 11);
  }

  /** The enum is written as the trimmed, non-empty comma-separated values
    * of its text, each free of commas; an empty text writes no enum. */
  lemma EnumRules(f: Form, parseFloat: string -> Value, parseInt: string -> Value)
    ensures var su := Defined(SchemaUpdates(f, parseFloat, parseInt));
      && (HasKey(su, "enum") <==> f.enumText != "")
      && (f.enumText != "" ==> Get(su, "enum") == Arr(Strs(CsvValues(f.enumText))))
      && forall x :: x in CsvValues(f.enumText) ==> IsCsvValue(x)
  {
    SchemaKeyAt(f, parseFloat, parseInt, 7);
    CsvValuesWellFormed(f.enumText);
  }

  /** A number field is parsed when filled and left out when empty. */
  lemma NumberFieldRules(f: Form, parseFloat: string -> Value, parseInt: string -> Value)
    ensures var su := Defined(SchemaUpdates(f, parseFloat, parseInt));
      && (!Truthy(f.minimum) ==> !HasKey(su, "minimum"))
      && (Truthy(f.minimum) && parseFloat(JsString(f.minimum)) != Undefined ==>
            Get(su, "minimum") == parseFloat(JsString(f.minimum)))
      && (!Truthy(f.maxLength) ==> !HasKey(su, "maxLength"))
      && (Truthy(f.maxLength) && parseInt(JsString(f.maxLength)) != Undefined ==>
            Get(su, "maxLength") == parseInt(JsString(f.maxLength)))
      && Get(su, "type") == f.schemaType
  {
    SchemaKeyAt(f, parseFloat, parseInt, 0);
    SchemaKeyAt(f, parseFloat, parseInt, 2);
    SchemaKeyAt(f, parseFloat, parseInt, 5);
  }

  /** The saved schema is the old schema with the surviving updates over
    * it; every key not updated keeps its old value. */
  lemma SaveSchemaRules(parameter: Value, f: Form, parseFloat: string -> Value, parseInt: string -> Value)
    ensures var su := Defined(SchemaUpdates(f, parseFloat, parseInt));
      var schema := Prop(Save(parameter, f, parseFloat, parseInt), "schema");
      forall k :: Prop(schema, k) == if HasKey(su, k) then Get(su, k) else Get(Entries(Prop(parameter, "schema")), k)
  {
    var schema := Obj(Merge(Entries(Prop(parameter, "schema")), Defined(SchemaUpdates(f, parseFloat, parseInt))));
    GetAt(Updates(f, schema).fields, 4);
  }

  /** Description, required and deprecated are always written; an empty
    * example is written as `undefined`. */
  lemma SaveFieldsRules(parameter: Value, f: Form, parseFloat: string -> Value, parseInt: string -> Value)
    ensures var u := Save(parameter, f, parseFloat, parseInt);
      && Keys(u.fields) == ["description", "required", "deprecated", "example", "schema"]
      && Prop(u, "description") == f.description
      && Prop(u, "required") == f.required
      && Prop(u, "deprecated") == f.deprecated
      && (Prop(u, "example") == Undefined <==> !Truthy(f.example))
  {
    var schema := Obj(Merge(Entries(Prop(parameter, "schema")), Defined(SchemaUpdates(f, parseFloat, parseInt))));
    UpdatesRules(f, schema);
  }

  lemma UpdatesRules(f: Form, schema: Value)
    ensures var u := Updates(f, schema);
      && Keys(u.fields) == ["description", "required", "deprecated", "example", "schema"]
      && Prop(u, "description") == f.description
      && Prop(u, "required") == f.required
      && Prop(u, "deprecated") == f.deprecated
      && (Prop(u, "example") == Undefined <==> !Truthy(f.example))
  {
    var fs := Updates(f, schema).fields;
    GetAt(fs, 0);
    GetAt(fs, 1);
    GetAt(fs, 2);
    GetAt(fs, 3);
  }

  /** Clearing a text field does not clear it: the empty value is left out
    * of the updates, so the schema keeps the value it had. */
  lemma ClearedFieldKept(parameter: Value, f: Form, parseFloat: string -> Value, parseInt: string -> Value)
    requires !Truthy(f.format)
    ensures Prop(Prop(Save(parameter, f, parseFloat, parseInt), "schema"), "format")
            == Get(Entries(Prop(parameter, "schema")), "format")
  {
    var fs := SchemaUpdates(f, parseFloat, parseInt);
    OrUndefined(f.format);
    assert fs[1].1 == Undefined;
    SchemaKeyAt(f, parseFloat, parseInt, 1);
    assert !HasKey(Defined(fs), "format");
    SaveSchemaRules(parameter, f, parseFloat, parseInt);
  }

  /** A list enum opens as its items joined by ", ". */
  lemma InitialEnumText(parameter: Value, xs: seq<string>)
    requires Prop(Prop(parameter, "schema"), "enum") == Arr(Strs(xs))
    ensures InitialForm(parameter).Ok?
    ensures InitialForm(parameter).value.enumText == Join(xs, ", ")
  {
    var items := Strs(xs);
    assert seq(|items|, i requires 0 <= i < |items| => if IsNullish(items[i]) then "" else JsString(items[i])) == xs;
    assert JoinValues(items, ", ") == Join(xs, ", ");
  }

  /** A schema key the form does not write keeps the value it had. */
  lemma UnwrittenKeyKept(parameter: Value, f: Form, parseFloat: string -> Value, parseInt: string -> Value, k: string)
    requires !HasKey(Defined(SchemaUpdates(f, parseFloat, parseInt)), k)
    ensures Prop(Prop(Save(parameter, f, parseFloat, parseInt), "schema"), k) == Get(Entries(Prop(parameter, "schema")), k)
  {
    SaveSchemaRules(parameter, f, parseFloat, parseInt);
  }

  /** An empty enum text writes no enum, so the saved schema keeps the enum
    * the parameter's schema had. */
  lemma BlankEnumTextKeeps(parameter: Value, f: Form, parseFloat: string -> Value, parseInt: string -> Value)
    requires f.enumText == "" && Prop(parameter, "schema").Obj?
    ensures Prop(Prop(Save(parameter, f, parseFloat, parseInt), "schema"), "enum") == Prop(Prop(parameter, "schema"), "enum")
  {
    EnumRules(f, parseFloat, parseInt);
    UnwrittenKeyKept(parameter, f, parseFloat, parseInt, "enum");
    var sc := Prop(parameter, "schema");
    assert Entries(sc) == FieldsOf(sc);
  }

  /** The empty enum list, truthy as every array, opens as the empty text;
    * that text writes no enum, so the spread schema keeps the empty list. */
  lemma EmptyEnumKept(parameter: Value, parseFloat: string -> Value, parseInt: string -> Value)
    requires Prop(Prop(parameter, "schema"), "enum") == Arr([])
    ensures InitialForm(parameter).Ok? && InitialForm(parameter).value.enumText == ""
    ensures Prop(Prop(Save(parameter, InitialForm(parameter).value, parseFloat, parseInt), "schema"), "enum") == Arr([])
  {
    assert Strs([]) == [];
    assert Prop(parameter, "schema").Obj?;
    InitialEnumText(parameter, []);
    BlankEnumTextKeeps(parameter, InitialForm(parameter).value, parseFloat, parseInt);
  }

  /** A non-empty enum opens joined by ", " and is split back into itself. */
  lemma ListedEnumRoundTrip(parameter: Value, xs: seq<string>, parseFloat: string -> Value, parseInt: string -> Value)
    requires xs != [] && forall i :: 0 <= i < |xs| ==> IsCsvValue(xs[i])
    requires Prop(Prop(parameter, "schema"), "enum") == Arr(Strs(xs))
    ensures InitialForm(parameter).Ok?
    ensures Prop(Prop(Save(parameter, InitialForm(parameter).value, parseFloat, parseInt), "schema"), "enum")
            == Arr(Strs(xs))
  {
    InitialEnumText(parameter, xs);
    var f := InitialForm(parameter).value;
    CsvRoundTrip(xs);
    assert f.enumText != "" by {
      CsvValuesEmpty();
    }
    EnumRules(f, parseFloat, parseInt);
    SaveSchemaRules(parameter, f, parseFloat, parseInt);
  }

  /** An enum of trimmed, non-empty, comma-free strings, the empty enum
    * included, opens as its values joined by ", " and is saved back as the
    * same list. */
  lemma EnumRoundTrip(parameter: Value, xs: seq<string>, parseFloat: string -> Value, parseInt: string -> Value)
    requires forall i :: 0 <= i < |xs| ==> IsCsvValue(xs[i])
    requires Prop(Prop(parameter, "schema"), "enum") == Arr(Strs(xs))
    ensures InitialForm(parameter).Ok?
    ensures Prop(Prop(Save(parameter, InitialForm(parameter).value, parseFloat, parseInt), "schema"), "enum")
            == Arr(Strs(xs))
  {
    if xs == [] {
      assert Strs(xs) == [];
      EmptyEnumKept(parameter, parseFloat, parseInt);
    } else {
      ListedEnumRoundTrip(parameter, xs, parseFloat, parseInt);
    }
  }

  /** Every type offers the empty format first; types other than string,
    * number and integer offer nothing else. */
  lemma FormatOptionsRules(t: Value)
    ensures |FormatOptions(t)| >= 1 && FormatOptions(t)[0] == ""
    ensures t != Str("string") && t != Str("number") && t != Str("integer") ==> FormatOptions(t) == [""]
    ensures t == Str("string") ==> "email" in FormatOptions(t) && |FormatOptions(t)| == 10
  {
  }
}
