// The API designer's YAML export: `convertToYAML`, a small recursive writer
// for a subset of YAML. An object's entries come out one per line as
// `key:` at two spaces per level; `null` and `undefined` values are
// skipped; a nested object follows on the next lines one level deeper; an
// empty array is written ` []`, a non-empty one as `- ` items; a string is
// wrapped in double quotes (without escaping) and any other scalar is
// written as JavaScript prints it. An array item that is an object, an
// array or `null` is written by the same procedure two levels deeper, so a
// `null` item throws the TypeError of `Object.entries(null)`.
module YamlWriter {
  import opened Wrappers
  import opened Strings
  import opened Json
  import OpenApiExport
  import DesignerProject
  import SchemaExport

  const NULL_TO_OBJECT: string := "Cannot convert undefined or null to object"

  /** `'  '.repeat(indent)`. */
  function Spaces(indent: nat): (r: string)
    ensures |r| == 2 * indent
    ensures forall i :: 0 <= i < |r| ==> r[i] == ' '
  {
    if indent == 0 then "" else Spaces(indent - 1) + "  "
  }

  /** `typeof v === 'object'`: objects, arrays and `null`. */
  predicate IsObjectType(v: Value) { v.Obj? || v.Arr? || v.Null? }

  /** A scalar after `key:`: a string in double quotes, anything else as
    * `${value}` prints it. */
  function ScalarText(v: Value): string
  {
    if v.Str? then "\"" + v.s + "\"" else JsString(v)
  }

  /** The line of a scalar entry. */
  function ScalarLine(key: string, x: Value, indent: nat): string
  {
    Spaces(indent) + key + ": " + ScalarText(x) + "\n"
  }

  /** `ok(a) + ok(b)`, the first failure winning. */
  function Then(a: Result<string>, b: Result<string>): Result<string>
  {
    match a
    case Err(f) => Err(f)
    case Ok(s) => match b
      case Err(f) => Err(f)
      case Ok(t) => Ok(s + t)
  }

  /** `convertToYAML(v, indent)`: the entries of `v`, in order. */
  function Yaml(v: Value, indent: nat): Result<string>
    decreases v, 2
  {
    EntriesYaml(v, |Entries(v)|, indent)
  }

  /** The text of the first `n` entries of `v`; `Object.entries` of `null`
    * or `undefined` throws. */
  function EntriesYaml(v: Value, n: nat, indent: nat): Result<string>
    requires n <= |Entries(v)|
    decreases v, 1, n
  {
    if IsNullish(v) then Err(TypeError(NULL_TO_OBJECT))
    else if n == 0 then Ok("")
    else Then(EntriesYaml(v, n - 1, indent), EntryAt(v, n - 1, indent))
  }

  /** The text of entry `i` of `v`. */
  function EntryAt(v: Value, i: nat, indent: nat): Result<string>
    requires i < |Entries(v)|
    decreases v, 0
  {
    match v
    case Obj(fs) => EntryYaml(fs[i].0, fs[i].1, indent)
    case Arr(xs) => EntryYaml(NatToString(i), xs[i], indent)
    case Str(s) => Ok(ScalarLine(NatToString(i), Str([s[i]]), indent))
  }

  /** One entry: nothing for a nullish value, else `key:` and the value. */
  function EntryYaml(key: string, x: Value, indent: nat): Result<string>
    decreases x, 3
  {
    var head := Spaces(indent) + key + ":";
    if IsNullish(x) then Ok("")
    else if x.Obj? then Then(Ok(head + "\n"), Yaml(x, indent + 1))
    else if x.Arr? then
      if x.items == [] then Ok(head + " []\n")
      else Then(Ok(head + "\n"), ItemsYaml(x.items, |x.items|, indent))
    else Ok(ScalarLine(key, x, indent))
  }

  /** The first `m` items of an array value. */
  function ItemsYaml(xs: seq<Value>, m: nat, indent: nat): Result<string>
    requires m <= |xs|
    decreases Arr(xs), 2, m
  {
    if m == 0 then Ok("")
    else Then(ItemsYaml(xs, m - 1, indent), ItemYaml(xs[m - 1], indent))
  }

  /** One item after `- `: an object-typed one written two levels deeper on
    * the following lines, anything else as `${item}`. */
  function ItemYaml(item: Value, indent: nat): Result<string>
    decreases item, 3
  {
    if IsObjectType(item) then Then(Ok(Spaces(indent) + "  - \n"), Yaml(item, indent + 2))
    else Ok(Spaces(indent) + "  - " + JsString(item) + "\n")
  }

  /** `convertToYAML`, with its loop over the entries. */
  method ConvertToYaml(v: Value, indent: nat) returns (r: Result<string>)
    ensures r == Yaml(v, indent)
    decreases v, 2
  {
    if IsNullish(v) {
      return Err(TypeError(NULL_TO_OBJECT));
    }
    var entries := Entries(v);
    var yaml := "";
    var i := 0;
    while i < |entries|
      invariant 0 <= i <= |entries|
      invariant EntriesYaml(v, i, indent) == Ok(yaml)
    {
      EntriesStep(v, i, indent);
      var line := WriteEntry(v, i, indent);
      if line.Err? {
        EntriesSticky(v, i + 1, |entries|, indent);
        return line;
      }
      yaml := yaml + line.value;
      i := i + 1;
    }
    return Ok(yaml);
  }

  /** The loop's body for entry `i` of `v`. */
  method WriteEntry(v: Value, i: nat, indent: nat) returns (line: Result<string>)
    requires !IsNullish(v) && i < |Entries(v)|
    ensures line == EntryYaml(Entries(v)[i].0, Entries(v)[i].1, indent)
    decreases v, 1
  {
    var key := Entries(v)[i].0;
    var value := Entries(v)[i].1;
    line := Ok("");
    if !IsNullish(value) {
      var head := Spaces(indent) + key + ":";
      if value.Obj? {
        var sub := ConvertToYaml(value, indent + 1);
        line := Then(Ok(head + "\n"), sub);
      } else if value.Arr? {
        if |value.items| == 0 {
          line := Ok(head + " []\n");
        } else {
          var lines := WriteItems(value.items, indent);
          line := Then(Ok(head + "\n"), lines);
        }
      } else {
        line := Ok(ScalarLine(key, value, indent));
      }
    }
  }

  /** `value.map(item => ...).join('')` for a non-empty array value. */
  method WriteItems(xs: seq<Value>, indent: nat) returns (r: Result<string>)
    ensures r == ItemsYaml(xs, |xs|, indent)
    decreases Arr(xs), 1
  {
    var lines := "";
    var j := 0;
    while j < |xs|
      invariant 0 <= j <= |xs|
      invariant ItemsYaml(xs, j, indent) == Ok(lines)
    {
      var item := xs[j];
      assert ItemsYaml(xs, j + 1, indent) == Then(Ok(lines), ItemYaml(item, indent));
      var text: Result<string>;
      if IsObjectType(item) {
        var sub := ConvertToYaml(item, indent + 2);
        text := Then(Ok(Spaces(indent) + "  - \n"), sub);
      } else {
        text := Ok(Spaces(indent) + "  - " + JsString(item) + "\n");
      }
      assert ItemYaml(item, indent) == text;
      if text.Err? {
        assert ItemsYaml(xs, j + 1, indent) == text;
        ItemsSticky(xs, j + 1, |xs|, indent);
        return text;
      }
      assert ItemsYaml(xs, j + 1, indent) == Ok(lines + text.value);
      lines := lines + text.value;
      j := j + 1;
    }
    return Ok(lines);
  }

  /** `ExportSpec('yaml')`: the document written from level 0. */
  function ExportYaml(p: DesignerProject.Project): Result<string>
  {
    match OpenApiExport.Spec(p)
    case Err(f) => Err(f)
    case Ok(doc) => Yaml(doc, 0)
  }

  // ---------------------------------------------------------------- properties

  /** One more entry adds that entry's text; a string's characters are
    * entries whose text is their scalar line. */
  lemma EntriesStep(v: Value, i: nat, indent: nat)
    requires !IsNullish(v) && i < |Entries(v)|
    ensures EntriesYaml(v, i + 1, indent) == Then(EntriesYaml(v, i, indent), EntryYaml(Entries(v)[i].0, Entries(v)[i].1, indent))
  {
  }

  /** Once an entry fails, the whole text fails with that error. */
  lemma {:induction false} EntriesSticky(v: Value, i: nat, n: nat, indent: nat)
    requires i <= n <= |Entries(v)|
    requires EntriesYaml(v, i, indent).Err?
    ensures EntriesYaml(v, n, indent) == EntriesYaml(v, i, indent)
    decreases n
  {
    if n > i {
      EntriesSticky(v, i, n - 1, indent);
      if !IsNullish(v) {
        assert EntriesYaml(v, n, indent) == EntriesYaml(v, n - 1, indent) by {
          ThenErr(EntriesYaml(v, n - 1, indent), EntryAt(v, n - 1, indent));
        }
      }
    }
  }

  lemma ThenErr(a: Result<string>, b: Result<string>)
    requires a.Err?
    ensures Then(a, b) == a
  {
  }

  lemma {:induction false} ItemsSticky(xs: seq<Value>, j: nat, m: nat, indent: nat)
    requires j <= m <= |xs|
    requires ItemsYaml(xs, j, indent).Err?
    ensures ItemsYaml(xs, m, indent) == ItemsYaml(xs, j, indent)
    decreases m
  {
    if m > j {
      ItemsSticky(xs, j, m - 1, indent);
    }
  }

  lemma ThenAssoc(a: Result<string>, b: Result<string>, c: Result<string>)
    ensures Then(Then(a, b), c) == Then(a, Then(b, c))
  {
    if a.Ok? && b.Ok? && c.Ok? {
      assert (a.value + b.value) + c.value == a.value + (b.value + c.value);
    }
  }

  lemma ThenEmpty(a: Result<string>)
    ensures Then(a, Ok("")) == a && Then(Ok(""), a) == a
  {
    if a.Ok? {
      assert a.value + "" == a.value;
      assert "" + a.value == a.value;
    }
  }

  /** An object's first `n` entries are written as the object of those
    * entries alone. */
  lemma {:induction false} ObjectPrefix(fs: Fields, n: nat, indent: nat)
    requires n <= |fs|
    ensures EntriesYaml(Obj(fs), n, indent) == Yaml(Obj(fs[..n]), indent)
    decreases n
  {
    if n > 0 {
      var q := fs[..n];
      assert q[..n - 1] == fs[..n - 1];
      ObjectPrefix(fs, n - 1, indent);
      ObjectPrefix(q, n - 1, indent);
      assert EntryAt(Obj(fs), n - 1, indent) == EntryAt(Obj(q), n - 1, indent);
    }
  }

  /** One more entry adds its text at the end. */
  lemma ObjectSnoc(fs: Fields, e: (string, Value), indent: nat)
    ensures Yaml(Obj(fs + [e]), indent) == Then(Yaml(Obj(fs), indent), EntryYaml(e.0, e.1, indent))
  {
    var q := fs + [e];
    assert q[..|fs|] == fs;
    ObjectPrefix(q, |fs|, indent);
    assert EntryAt(Obj(q), |fs|, indent) == EntryYaml(q[|fs|].0, q[|fs|].1, indent);
    assert Yaml(Obj(q), indent) == Then(EntriesYaml(Obj(q), |fs|, indent), EntryYaml(q[|fs|].0, q[|fs|].1, indent));
  }

  /** The text of an object is the text of its first entries followed by
    * that of the rest. */
  lemma {:induction false} AppendEntries(a: Fields, b: Fields, indent: nat)
    ensures Yaml(Obj(a + b), indent) == Then(Yaml(Obj(a), indent), Yaml(Obj(b), indent))
    decreases |b|
  {
    if b == [] {
      assert a + b == a;
      ThenEmpty(Yaml(Obj(a), indent));
    } else {
      var b0 := b[..|b| - 1];
      var e := b[|b| - 1];
      assert b == b0 + [e];
      assert a + b == (a + b0) + [e];
      ObjectSnoc(a + b0, e, indent);
      ObjectSnoc(b0, e, indent);
      AppendEntries(a, b0, indent);
      ThenAssoc(Yaml(Obj(a), indent), Yaml(Obj(b0), indent), EntryYaml(e.0, e.1, indent));
    }
  }

  /** `null` and `undefined` entries are skipped: dropping one leaves the
    * text unchanged. */
  lemma SkipsNullish(a: Fields, k: string, x: Value, b: Fields, indent: nat)
    requires IsNullish(x)
    ensures Yaml(Obj(a + [(k, x)] + b), indent) == Yaml(Obj(a + b), indent)
  {
    AppendEntries(a + [(k, x)], b, indent);
    AppendEntries(a, [(k, x)], indent);
    AppendEntries(a, b, indent);
    SingleEntry(k, x, indent);
    ThenEmpty(Yaml(Obj(a), indent));
  }

  /** The text of a one-entry object. */
  function Single(k: string, x: Value, indent: nat): Result<string>
  {
    Yaml(Obj([(k, x)]), indent)
  }

  lemma SingleEntry(k: string, x: Value, indent: nat)
    ensures Single(k, x, indent) == EntryYaml(k, x, indent)
  {
    var v := Obj([(k, x)]);
    assert |Entries(v)| == 1;
    assert EntriesYaml(v, 0, indent) == Ok("");
    assert EntriesYaml(v, 1, indent) == Then(Ok(""), EntryYaml(k, x, indent));
    ThenEmpty(EntryYaml(k, x, indent));
  }

  /** A string is written in double quotes, an integer and a boolean as
    * JavaScript prints them. */
  lemma ScalarEntries(k: string, s: string, n: int, b: bool, indent: nat)
    ensures Single(k, Str(s), indent) == Ok(Spaces(indent) + k + ": \"" + s + "\"\n")
    ensures Single(k, Num(n), indent) == Ok(Spaces(indent) + k + ": " + IntToString(n) + "\n")
    ensures Single(k, Bool(b), indent) == Ok(Spaces(indent) + k + ": " + (if b then "true" else "false") + "\n")
  {
    var h := Spaces(indent) + k;
    assert Single(k, Str(s), indent) == Ok(Spaces(indent) + k + ": \"" + s + "\"\n") by {
      ScalarSingle(k, Str(s), indent);
      assert h + ": " + ("\"" + s + "\"") + "\n" == h + ": \"" + s + "\"\n";
    }
    assert Single(k, Num(n), indent) == Ok(Spaces(indent) + k + ": " + IntToString(n) + "\n") by {
      ScalarSingle(k, Num(n), indent);
    }
    assert Single(k, Bool(b), indent) == Ok(Spaces(indent) + k + ": " + (if b then "true" else "false") + "\n") by {
      ScalarSingle(k, Bool(b), indent);
    }
  }

  /** A scalar entry is its scalar line. */
  lemma ScalarSingle(k: string, x: Value, indent: nat)
    requires !IsNullish(x) && !x.Obj? && !x.Arr?
    ensures Single(k, x, indent) == Ok(ScalarLine(k, x, indent))
  {
    SingleEntry(k, x, indent);
  }

  /** A one-item array of a scalar is that item's `- ` line. */
  lemma ScalarItems(x: Value, indent: nat)
    requires !IsObjectType(x)
    ensures ItemsYaml([x], 1, indent) == Ok(Spaces(indent) + "  - " + JsString(x) + "\n")
  {
    assert ItemsYaml([x], 0, indent) == Ok("");
    ThenEmpty(ItemYaml(x, indent));
  }

  /** `null` and `undefined` write nothing; an empty array writes ` []`. */
  lemma EmptyEntries(k: string, indent: nat)
    ensures Single(k, Null, indent) == Ok("") && Single(k, Undefined, indent) == Ok("")
    ensures Single(k, Arr([]), indent) == Ok(Spaces(indent) + k + ": []\n")
  {
    SingleEntry(k, Null, indent);
    SingleEntry(k, Undefined, indent);
    SingleEntry(k, Arr([]), indent);
    var h := Spaces(indent) + k;
    assert h + ":" + " []\n" == h + ": []\n";
  }

  /** A nested object follows `key:` on the next lines, one level deeper. */
  lemma NestedEntry(k: string, g: Fields, indent: nat)
    ensures Single(k, Obj(g), indent) == Then(Ok(Spaces(indent) + k + ":\n"), Yaml(Obj(g), indent + 1))
  {
    SingleEntry(k, Obj(g), indent);
    var h := Spaces(indent) + k;
    assert h + ":" + "\n" == h + ":\n";
  }

  /** A scalar array item follows `- ` on its own line. */
  lemma ScalarItem(k: string, s: string, indent: nat)
    ensures Single(k, Arr([Str(s)]), indent) == Ok(Spaces(indent) + k + ":\n" + Spaces(indent) + "  - " + s + "\n")
  {
    var h := Spaces(indent) + k;
    var d := Spaces(indent) + "  - ";
    assert Single(k, Arr([Str(s)]), indent) == Then(Ok(h + ":\n"), ItemsYaml([Str(s)], 1, indent)) by {
      SingleEntry(k, Arr([Str(s)]), indent);
      assert h + ":" + "\n" == h + ":\n";
    }
    assert ItemsYaml([Str(s)], 1, indent) == Ok(d + s + "\n") by {
      ScalarItems(Str(s), indent);
    }
    assert (h + ":\n") + (d + s + "\n") == h + ":\n" + Spaces(indent) + "  - " + s + "\n";
  }

  /** An object array item is written after `- ` and then on the following
    * lines, two levels deeper. */
  lemma ObjectItem(k: string, g: Fields, indent: nat)
    ensures Single(k, Arr([Obj(g)]), indent)
      == Then(Ok(Spaces(indent) + k + ":\n" + Spaces(indent) + "  - \n"), Yaml(Obj(g), indent + 2))
  {
    var h := Spaces(indent) + k;
    var d := Spaces(indent) + "  - \n";
    var y := Yaml(Obj(g), indent + 2);
    assert h + ":" + "\n" == h + ":\n";
    SingleEntry(k, Arr([Obj(g)]), indent);
    assert ItemsYaml([Obj(g)], 1, indent) == Then(Ok(""), ItemYaml(Obj(g), indent));
    assert ItemYaml(Obj(g), indent) == Then(Ok(d), y);
    ThenEmpty(ItemYaml(Obj(g), indent));
    ThenAssoc(Ok(h + ":\n"), Ok(d), y);
    assert (h + ":\n") + d == h + ":\n" + Spaces(indent) + "  - \n";
  }

  // ---------------------------------------------------------------- failure

  /** The values `convertToYAML(v)` can write without throwing: `v` is not
    * `null` or `undefined`, and neither is any array item below it that is
    * object-typed. */
  predicate Writable(v: Value)
    decreases v, 2
  {
    !IsNullish(v) && EntriesWritable(v, |Entries(v)|)
  }

  /** The first `n` entries of `v` are writable. */
  predicate EntriesWritable(v: Value, n: nat)
    requires n <= |Entries(v)|
    decreases v, 1, n
  {
    n == 0 || (EntriesWritable(v, n - 1) && EntryWritable(v, n - 1))
  }

  predicate EntryWritable(v: Value, i: nat)
    requires i < |Entries(v)|
    decreases v, 0
  {
    match v
    case Obj(fs) => ValueWritable(fs[i].1)
    case Arr(xs) => ValueWritable(xs[i])
    case _ => true
  }

  /** An entry's value: a nested object must be writable, and so must every
    * object-typed item of a non-empty array. */
  predicate ValueWritable(x: Value)
    decreases x, 3
  {
    if x.Obj? then Writable(x)
    else if x.Arr? then forall i :: 0 <= i < |x.items| ==> ItemWritable(x.items[i])
    else true
  }

  predicate ItemWritable(item: Value)
    decreases item, 4
  {
    IsObjectType(item) ==> Writable(item)
  }

  lemma ThenOk(a: Result<string>, b: Result<string>)
    ensures Then(a, b).Ok? <==> a.Ok? && b.Ok?
  {
  }

  /** The writer succeeds exactly on the writable values. */
  lemma {:induction false} YamlOk(v: Value, indent: nat)
    ensures Yaml(v, indent).Ok? <==> Writable(v)
    decreases v, 2
  {
    if !IsNullish(v) {
      var n := |Entries(v)|;
      EntriesOk(v, n, indent);
      assert Yaml(v, indent) == EntriesYaml(v, n, indent);
    }
  }

  lemma {:induction false} EntriesOk(v: Value, n: nat, indent: nat)
    requires n <= |Entries(v)| && !IsNullish(v)
    ensures EntriesYaml(v, n, indent).Ok? <==> EntriesWritable(v, n)
    decreases v, 1, n
  {
    if n > 0 {
      EntriesOk(v, n - 1, indent);
      EntryAtOk(v, n - 1, indent);
      ThenOk(EntriesYaml(v, n - 1, indent), EntryAt(v, n - 1, indent));
    }
  }

  lemma {:induction false} EntryAtOk(v: Value, i: nat, indent: nat)
    requires i < |Entries(v)|
    ensures EntryAt(v, i, indent).Ok? <==> EntryWritable(v, i)
    decreases v, 0
  {
    match v
    case Obj(fs) => EntryOk(fs[i].0, fs[i].1, indent);
    case Arr(xs) => EntryOk(NatToString(i), xs[i], indent);
    case Str(_) =>
  }

  lemma {:induction false} EntryOk(key: string, x: Value, indent: nat)
    ensures EntryYaml(key, x, indent).Ok? <==> ValueWritable(x)
    decreases x, 3
  {
    if x.Obj? {
      YamlOk(x, indent + 1);
    } else if x.Arr? && x.items != [] {
      ItemsOk(x.items, |x.items|, indent);
    }
  }

  lemma {:induction false} ItemsOk(xs: seq<Value>, m: nat, indent: nat)
    requires m <= |xs|
    ensures ItemsYaml(xs, m, indent).Ok? <==> forall i :: 0 <= i < m ==> ItemWritable(xs[i])
    decreases Arr(xs), 2, m
  {
    if m > 0 {
      ItemsOk(xs, m - 1, indent);
      ItemOk(xs[m - 1], indent);
    }
  }

  lemma {:induction false} ItemOk(item: Value, indent: nat)
    ensures ItemYaml(item, indent).Ok? <==> ItemWritable(item)
    decreases item, 3
  {
    if IsObjectType(item) {
      YamlOk(item, indent + 2);
    }
  }

  /** A `null` item in an array value throws, wherever the array sits. */
  lemma NullItemThrows(fs: Fields, i: nat, j: nat, indent: nat)
    requires i < |fs| && fs[i].1.Arr? && j < |fs[i].1.items| && fs[i].1.items[j] == Null
    ensures Yaml(Obj(fs), indent).Err?
  {
    var v := Obj(fs);
    assert !ItemWritable(fs[i].1.items[j]);
    assert !ValueWritable(fs[i].1);
    EntryAtOk(v, i, indent);
    ThenOk(EntriesYaml(v, i, indent), EntryAt(v, i, indent));
    assert EntriesYaml(v, i + 1, indent).Err?;
    EntriesSticky(v, i + 1, |fs|, indent);
  }

  // ---------------------------------------------------------------- export

  /** `key: "s"` on its own line. */
  function QuotedLine(key: string, s: string, indent: nat): string
  {
    Spaces(indent) + key + ": \"" + s + "\"\n"
  }

  /** Two leading string entries become the first two lines. */
  lemma TwoStringsFirst(doc: Value, k1: string, s1: string, k2: string, s2: string, indent: nat)
    requires doc.Obj? && |doc.fields| >= 2
    requires doc.fields[0] == (k1, Str(s1)) && doc.fields[1] == (k2, Str(s2))
    ensures Yaml(doc, indent).Ok? ==> QuotedLine(k1, s1, indent) + QuotedLine(k2, s2, indent) <= Yaml(doc, indent).value
  {
    var a := [(k1, Str(s1)), (k2, Str(s2))];
    var rest := doc.fields[2..];
    assert doc.fields == a + rest;
    AppendEntries(a, rest, indent);
    assert a == [(k1, Str(s1))] + [(k2, Str(s2))];
    AppendEntries([(k1, Str(s1))], [(k2, Str(s2))], indent);
    ScalarEntries(k1, s1, 0, true, indent);
    ScalarEntries(k2, s2, 0, true, indent);
  }

  lemma DocumentFirst(info: Value, paths: Fields, servers: Value, schemas: Fields)
    ensures var d := OpenApiExport.Document(info, paths, servers, schemas);
      && d.Obj? && |d.fields| == 6
      && d.fields[0] == ("openapi", Str(OpenApiExport.OPENAPI_VERSION))
      && d.fields[1] == ("jsonSchemaDialect", Str(OpenApiExport.DIALECT))
  {
  }

  /** The exported text: the document's errors pass through; otherwise it
    * starts with the `openapi` and `jsonSchemaDialect` lines and succeeds
    * exactly when the document is writable. */
  lemma ExportYamlRules(p: DesignerProject.Project)
    ensures OpenApiExport.Spec(p).Err? ==> ExportYaml(p) == Err(OpenApiExport.Spec(p).error)
    ensures OpenApiExport.Spec(p).Ok? ==> (ExportYaml(p).Ok? <==> Writable(OpenApiExport.Spec(p).value))
    ensures ExportYaml(p).Ok? ==>
      QuotedLine("openapi", OpenApiExport.OPENAPI_VERSION, 0)
      + QuotedLine("jsonSchemaDialect", OpenApiExport.DIALECT, 0) <= ExportYaml(p).value
  {
    if OpenApiExport.Spec(p).Ok? {
      var doc := OpenApiExport.Spec(p).value;
      YamlOk(doc, 0);
      OpenApiExport.SpecShape(p);
      DocumentFirst(OpenApiExport.Info(p), OpenApiExport.Paths(Get(p, "endpoints").items).value,
                    OpenApiExport.Servers(Get(p, "servers")), SchemaExport.Schemas(Get(p, "schemas").items).value);
      TwoStringsFirst(doc, "openapi", OpenApiExport.OPENAPI_VERSION, "jsonSchemaDialect", OpenApiExport.DIALECT, 0);
    }
  }
}
