// The provider registry UI's API detail view: its YAML check, which adds a
// warning when the text hardly looks like key: value pairs, and the rough
// OpenAPI summary that picks the title, version, description and paths out
// of the text line by line.
module ApiDetailModal {
  import opened Wrappers
  import opened Strings
  import opened YamlLint

  const KEY_VALUE_WARNING: string := "YAML does not appear to contain typical key:value structure"
  const SCANNED_LINES: int := 50
  const MIN_KEY_VALUES: int := 3

  /** `/:\s*\S/.test(ln)`: a ':' followed, after optional white space, by a
    * character that is not white space. */
  predicate KeyValueAt(ln: string, p: int, q: int)
  {
    0 <= p < q < |ln| && ln[p] == ':' && !IsJsSpace(ln[q]) && (forall k :: p < k < q ==> IsJsSpace(ln[k]))
  }

  predicate KeyValueLine(ln: string)
  {
    exists p, q :: 0 <= p < q < |ln| && KeyValueAt(ln, p, q)
  }

  /** The test holds exactly when some ':' has a non-space character
    * anywhere after it: the first such character closes the match. */
  lemma KeyValueLineIff(ln: string)
    ensures KeyValueLine(ln) <==> exists p, q :: 0 <= p < q < |ln| && ln[p] == ':' && !IsJsSpace(ln[q])
  {
    if exists p, q :: 0 <= p < q < |ln| && ln[p] == ':' && !IsJsSpace(ln[q]) {
      var p, q :| 0 <= p < q < |ln| && ln[p] == ':' && !IsJsSpace(ln[q]);
      var first := FirstNonSpace(ln, p + 1, q);
      assert KeyValueAt(ln, p, first);
    }
  }

  /** The first index in [from, q] whose character is not white space. */
  lemma {:induction false} FirstNonSpace(ln: string, from: int, q: int) returns (first: int)
    requires 0 <= from <= q < |ln| && !IsJsSpace(ln[q])
    ensures from <= first <= q && !IsJsSpace(ln[first])
    ensures forall k :: from <= k < first ==> IsJsSpace(ln[k])
    decreases q - from
  {
    if !IsJsSpace(ln[from]) {
      first := from;
    } else {
      first := FirstNonSpace(ln, from + 1, q);
    }
  }

  /** How many of the first n lines pass the key: value test. */
  function KeyValueCount(lines: seq<string>, n: nat): nat
    requires n <= |lines|
  {
    if n == 0 then 0 else KeyValueCount(lines, n - 1) + (if KeyValueLine(lines[n - 1]) then 1 else 0)
  }

  function Scanned(lines: seq<string>): nat
  {
    if |lines| < SCANNED_LINES then |lines| else SCANNED_LINES
  }

  /** The counting loop over the first 50 lines. */
  method ColonCount(lines: seq<string>) returns (colonCount: nat)
    ensures colonCount == KeyValueCount(lines, Scanned(lines))
  {
    colonCount := 0;
    var i := 0;
    var bound := if |lines| < SCANNED_LINES then |lines| else SCANNED_LINES;
    while i < bound
      invariant 0 <= i <= bound
      invariant colonCount == KeyValueCount(lines, i)
    {
      if KeyValueLine(lines[i]) {
        colonCount := colonCount + 1;
      }
      i := i + 1;
    }
  }

  function LintOf(yaml: string): Lint
  {
    if EmptySpec(Some(yaml)) then Lint(true, None, [EMPTY_SPEC])
    else
      var lines := Lines(yaml);
      var errors := Messages(TabLines(lines));
      Lint(|errors| == 0, Some(errors),
           if KeyValueCount(lines, Scanned(lines)) < MIN_KEY_VALUES then [KEY_VALUE_WARNING] else [])
  }

  /** `lintYaml` of the detail view (a missing spec arrives as ""). */
  method LintYaml(yaml: string) returns (r: Lint)
    ensures r == LintOf(yaml)
  {
    if yaml == "" || JsTrim(yaml) == "" {
      assert EmptySpec(Some(yaml));
      return Lint(true, None, [EMPTY_SPEC]);
    }
    assert !EmptySpec(Some(yaml));
    var lines := Lines(yaml);
    var errors := TabErrors(lines);
    var warnings := [];
    var colonCount := ColonCount(lines);
    if colonCount < MIN_KEY_VALUES {
      warnings := warnings + [KEY_VALUE_WARNING];
    }
    r := Lint(|errors| == 0, Some(errors), warnings);
    assert r.warnings == LintOf(yaml).warnings;
  }

  /** The verdict depends on tabs alone; the warning says that fewer than
    * three of the first fifty lines look like key: value. */
  lemma LintRules(yaml: string)
    ensures EmptySpec(Some(yaml)) ==> LintOf(yaml) == Lint(true, None, [EMPTY_SPEC])
    ensures !EmptySpec(Some(yaml)) ==>
      (LintOf(yaml).ok <==> '\t' !in yaml)
      && (LintOf(yaml).warnings == [KEY_VALUE_WARNING]
          <==> KeyValueCount(Lines(yaml), Scanned(Lines(yaml))) < MIN_KEY_VALUES)
      && (LintOf(yaml).warnings == [] <==> KeyValueCount(Lines(yaml), Scanned(Lines(yaml))) >= MIN_KEY_VALUES)
  {
    if !EmptySpec(Some(yaml)) {
      NoTabNoError(yaml);
    }
  }

  // ---------------------------------------------------------------- summary

  const INFO: string := "info"
  const PATHS: string := "paths"
  const COMPONENTS: string := "components"
  const INFO_KEYS: seq<string> := ["title", "version", "description"]

  /** `/^name:\s*$/.test(t)`. */
  predicate Header(t: string, name: string)
  {
    IsPrefix(name + ":", t) && All(t[|name| + 1..], IsJsSpace)
  }

  /** `t.match(/^(title|version|description):\s*(.*)$/)`: the key and the
    * value after the white space; `.` stops at a line terminator, so a
    * value holding one does not match. */
  function InfoEntry(t: string): Option<(string, string)>
  {
    if IsPrefix("title:", t) then InfoValue("title", t)
    else if IsPrefix("version:", t) then InfoValue("version", t)
    else if IsPrefix("description:", t) then InfoValue("description", t)
    else None
  }

  function InfoValue(k: string, t: string): Option<(string, string)>
    requires IsPrefix(k + ":", t)
  {
    var v := TrimStart(t[|k| + 1..], IsJsSpace);
    if forall i :: 0 <= i < |v| ==> !IsJsLineTerminator(v[i]) then Some((k, v)) else None
  }

  /** The characters of `[\s\-\w\/_{}:]`. */
  predicate PathChar(c: char)
  {
    IsJsSpace(c) || c == '-' || IsWordChar(c) || c == '/' || c == '{' || c == '}' || c == ':'
  }

  /** `t.match(/^([\s\-\w\/_{}:]+):\s*$/)` on a line whose trailing white
    * space is gone: the ':' has to be its last character, and the group is
    * everything before it. */
  function PathKey(t: string): Option<string>
  {
    if |t| >= 2 && t[|t| - 1] == ':' && (forall i :: 0 <= i < |t| - 1 ==> PathChar(t[i])) then Some(t[..|t| - 1])
    else None
  }

  /** On a line ending in a non-space character, the only ':' the pattern
    * can close on is the last character, so `PathKey` is the match. */
  lemma PathColonIsLast(t: string, j: int)
    requires t != [] && !IsJsSpace(t[|t| - 1])
    requires 0 <= j < |t| && t[j] == ':' && All(t[j + 1..], IsJsSpace)
    ensures j == |t| - 1
  {
  }

  datatype Doc = Doc(info: map<string, string>, paths: seq<string>)

  datatype Walk = Walk(doc: Doc, inInfo: bool, inPaths: bool)

  /** One turn of the forEach over the lines. */
  function Step(w: Walk, ln: string): Walk
  {
    var t := JsTrimEnd(ln);
    if Header(t, INFO) then w.(inInfo := true, inPaths := false)
    else if Header(t, PATHS) then w.(inPaths := true, inInfo := false)
    else if Header(t, COMPONENTS) then w.(inPaths := false, inInfo := false)
    else if w.inInfo then
      (match InfoEntry(t)
       case Some(kv) => w.(doc := w.doc.(info := w.doc.info[kv.0 := kv.1]))
       case None => w)
    else if w.inPaths then
      (match PathKey(t)
       case Some(p) => if p[0] == '/' then w.(doc := w.doc.(paths := w.doc.paths + [p])) else w
       case None => w)
    else w
  }

  function WalkAll(lines: seq<string>): Walk
  {
    if lines == [] then Walk(Doc(map[], []), false, false)
    else Step(WalkAll(lines[..|lines| - 1]), lines[|lines| - 1])
  }

  /** What `OpenApiSummary` shows: `None` for "No spec.". */
  function SummaryOf(yaml: string): Option<Doc>
  {
    if yaml == "" then None else Some(WalkAll(Lines(yaml)).doc)
  }

  /** The walk, with its two flags. */
  method OpenApiSummary(yaml: string) returns (r: Option<Doc>)
    ensures r == SummaryOf(yaml)
  {
    if yaml == "" {
      return None;
    }
    var lines := Lines(yaml);
    var info: map<string, string> := map[];
    var paths: seq<string> := [];
    var inInfo, inPaths := false, false;
    var i := 0;
    while i < |lines|
      invariant 0 <= i <= |lines|
      invariant WalkAll(lines[..i]) == Walk(Doc(info, paths), inInfo, inPaths)
    {
      assert lines[..i + 1][..i] == lines[..i];
      var t := JsTrimEnd(lines[i]);
      if Header(t, INFO) {
        inInfo, inPaths := true, false;
      } else if Header(t, PATHS) {
        inPaths, inInfo := true, false;
      } else if Header(t, COMPONENTS) {
        inPaths, inInfo := false, false;
      } else if inInfo {
        var m := InfoEntry(t);
        if m.Some? {
          info := info[m.value.0 := m.value.1];
        }
      } else if inPaths {
        var m := PathKey(t);
        if m.Some? && m.value[0] == '/' {
          paths := paths + [m.value];
        }
      }
      i := i + 1;
    }
    assert lines[..i] == lines;
    r := Some(Doc(info, paths));
  }

  // ---------------------------------------------------------------- properties

  /** An empty spec shows "No spec.". */
  lemma NoSpec()
    ensures SummaryOf("") == None
  {
  }

  /** An indented line changes nothing: it is not a section header, not an
    * info entry, and a path key it carries starts with white space, not
    * with '/'. */
  lemma IndentedLineIgnored(w: Walk, ln: string)
    requires |ln| > 0 && IsJsSpace(ln[0])
    ensures Step(w, ln) == w
  {
    var t := JsTrimEnd(ln);
    if t != [] {
      var c := t[0];
      assert c == ln[0];
      NotPrefixAt(INFO + ":", t);
      NotPrefixAt(PATHS + ":", t);
      NotPrefixAt(COMPONENTS + ":", t);
      NotPrefixAt("title:", t);
      NotPrefixAt("version:", t);
      NotPrefixAt("description:", t);
    }
  }

  /** A text whose first character is white space has no key as prefix. */
  lemma NotPrefixAt(k: string, t: string)
    requires k != [] && !IsJsSpace(k[0]) && t != [] && IsJsSpace(t[0])
    ensures !IsPrefix(k, t)
  {
  }

  /** Each of the three headers switches section, whatever came before. */
  lemma HeadersSwitch(w: Walk)
    ensures Step(w, "info:") == w.(inInfo := true, inPaths := false)
    ensures Step(w, "paths:") == w.(inPaths := true, inInfo := false)
    ensures Step(w, "components:") == w.(inPaths := false, inInfo := false)
  {
    assert JsTrimEnd("info:") == "info:" && Header("info:", INFO);
    assert JsTrimEnd("paths:") == "paths:";
    assert "paths:"[0] != "info:"[0];
    assert Header("paths:", PATHS);
    assert JsTrimEnd("components:") == "components:";
    assert "components:"[0] != "info:"[0] && "components:"[0] != "paths:"[0];
    assert Header("components:", COMPONENTS);
  }

  /** Inside info, an entry line sets its key, so a later line for the same
    * key overwrites an earlier one. */
  lemma InfoEntrySets(w: Walk, ln: string, k: string, v: string)
    requires w.inInfo && InfoEntry(JsTrimEnd(ln)) == Some((k, v))
    ensures Step(w, ln).doc.info == w.doc.info[k := v] && Step(w, ln).inInfo
  {
    var t := JsTrimEnd(ln);
    var key := if IsPrefix("title:", t) then "title:" else if IsPrefix("version:", t) then "version:"
               else "description:";
    assert IsPrefix(key, t);
    OtherPrefix(key, INFO + ":", t);
    OtherPrefix(key, PATHS + ":", t);
    OtherPrefix(key, COMPONENTS + ":", t);
  }

  /** Keys with different first letters are never prefixes of one text. */
  lemma OtherPrefix(k: string, h: string, t: string)
    requires k != [] && h != [] && k[0] != h[0] && IsPrefix(k, t)
    ensures !IsPrefix(h, t)
  {
    assert t[0] == k[0];
  }

  /** Every recorded path starts with '/', so the walk never records an
    * indented key. */
  lemma {:induction false} PathsStartWithSlash(lines: seq<string>)
    ensures forall i :: 0 <= i < |WalkAll(lines).doc.paths| ==>
      WalkAll(lines).doc.paths[i] != "" && WalkAll(lines).doc.paths[i][0] == '/'
  {
    if lines != [] {
      PathsStartWithSlash(lines[..|lines| - 1]);
    }
  }

  /** Inside paths, an unindented key line "/x...:" is recorded. */
  lemma PathRecorded(w: Walk, p: string)
    requires w.inPaths && !w.inInfo
    requires |p| >= 1 && p[0] == '/' && forall i :: 0 <= i < |p| ==> PathChar(p[i])
    ensures Step(w, p + ":").doc.paths == w.doc.paths + [p]
  {
    var t := p + ":";
    assert JsTrimEnd(t) == t;
    assert t[0] == '/';
    assert t[..|t| - 1] == p;
  }
}
