// The API designer's YAML import, `parseYamlToProject`: not a YAML parser
// but a handful of regular expressions over the text. The title,
// description and version are the first `key:` followed by a value
// anywhere in the text, with fixed defaults. The paths are the lines
// `  /...:` of the section after the first `paths:` line. Every path gets
// one endpoint for each `    get:`-style method line found anywhere in
// that section, and each endpoint's summary is the first `summary:` after
// the first mention of its method. Each regular-expression search is
// written out as a function that tries the positions left to right and, at
// each position, the alternatives in the order JavaScript's backtracking
// tries them.
module YamlImport {
  import opened Wrappers
  import opened Strings
  import opened Json
  import YamlWriter

  const TITLE_KEY: string := "title:"
  const DESCRIPTION_KEY: string := "description:"
  const VERSION_KEY: string := "version:"
  const PATHS_KEY: string := "paths:"
  const SUMMARY_KEY: string := "summary:"
  const DEFAULT_NAME: string := "Imported API"
  const DEFAULT_DESCRIPTION: string := "Imported from YAML"
  const DEFAULT_VERSION: string := "1.0.0"

  /** The alternatives of `(get|post|put|delete|patch)`, in order. */
  const METHOD_WORDS: seq<string> := ["get", "post", "put", "delete", "patch"]
  const METHODS: seq<string> := ["GET", "POST", "PUT", "DELETE", "PATCH"]

  // ---------------------------------------------------------------- matching

  predicate IsQuote(c: char) { c == '"' || c == '\'' }

  /** `[^"'\n]`. */
  predicate IsPlain(c: char) { !IsQuote(c) && c != '\n' }

  /** `[^:\n]`. */
  predicate IsPathChar(c: char) { c != ':' && c != '\n' }

  /** The length of the run of characters satisfying `p` from `i`, as a
    * greedy repetition takes it. */
  function Run(t: string, i: nat, p: char -> bool): (n: nat)
    requires i <= |t|
    ensures i + n <= |t|
    decreases |t| - i
  {
    if i < |t| && p(t[i]) then 1 + Run(t, i + 1, p) else 0
  }

  /** `key` at `p`, ASCII letters compared case-insensitively when `fold`
    * (the `i` flag; `key` is then given in lower case). */
  predicate KeyAt(t: string, p: nat, key: string, fold: bool)
  {
    p + |key| <= |t| && (if fold then ToLower(t[p..p + |key|]) == key else t[p..p + |key|] == key)
  }

  /** `["']?([^"'\n]+)` at `q`: with the optional quote first, then without it. */
  function ValueAt(t: string, q: nat): Option<string>
    requires q <= |t|
  {
    if q + 1 < |t| && IsQuote(t[q]) && IsPlain(t[q + 1]) then Some(t[q + 1..q + 1 + Run(t, q + 1, IsPlain)])
    else if q < |t| && IsPlain(t[q]) then Some(t[q..q + Run(t, q, IsPlain)])
    else None
  }

  /** The `\s*` before the value, `w` characters wide and backing off one
    * character at a time. */
  function ValueAfterSpaces(t: string, start: nat, w: nat): Option<string>
    requires start + w <= |t|
    decreases w
  {
    var v := ValueAt(t, start + w);
    if v.Some? || w == 0 then v else ValueAfterSpaces(t, start, w - 1)
  }

  /** `\s*["']?([^"'\n]+)["']?` from `start`, its group; the closing quote
    * is optional and never decides the match. */
  function ValueFrom(t: string, start: nat): Option<string>
    requires start <= |t|
  {
    ValueAfterSpaces(t, start, Run(t, start, IsJsSpace))
  }

  /** `t.match(/key\s*["']?([^"'\n]+)["']?/)`, searching from `p`: the
    * value after the leftmost `key` that is followed by one. */
  function FirstValue(t: string, key: string, fold: bool, p: nat): Option<string>
    requires p <= |t|
    decreases |t| - p
  {
    var v := MatchAt(t, key, fold, p);
    if v.Some? || p == |t| then v else FirstValue(t, key, fold, p + 1)
  }

  /** The value the pattern reads when it is tried at `p`: the one after
    * `key`, or none when `key` is not there or no value follows it. */
  function MatchAt(t: string, key: string, fold: bool, p: nat): Option<string>
    requires p <= |t|
  {
    if KeyAt(t, p, key, fold) then ValueFrom(t, p + |key|) else None
  }

  // ---------------------------------------------------------------- paths section

  /** The `\n` after `paths:\s*`: the greedy `\s*` backs off to the last
    * newline of the whitespace; the section starts just after it. */
  function NewlineIn(t: string, start: nat, w: nat): (r: Option<nat>)
    requires start + w <= |t|
    ensures r.Some? ==> r.value <= |t|
    decreases w
  {
    if start + w < |t| && t[start + w] == '\n' then Some(start + w + 1)
    else if w == 0 then None
    else NewlineIn(t, start, w - 1)
  }

  /** `(?=\n\w|$)` without the `m` flag. */
  predicate SectionStops(t: string, e: nat)
  {
    e == |t| || (e + 1 < |t| && t[e] == '\n' && IsWordChar(t[e + 1]))
  }

  /** The lazy `([\s\S]*?)`: up to the first position where the lookahead holds. */
  function SectionEnd(t: string, e: nat): (r: nat)
    requires e <= |t|
    ensures e <= r <= |t|
    decreases |t| - e
  {
    if SectionStops(t, e) then e else SectionEnd(t, e + 1)
  }

  /** `t.match(/paths:\s*\n([\s\S]*?)(?=\n\w|$)/)`, its group, searching from `p`. */
  function PathsSection(t: string, p: nat): Option<string>
    requires p <= |t|
    decreases |t| - p
  {
    var s := if KeyAt(t, p, PATHS_KEY, false)
             then NewlineIn(t, p + |PATHS_KEY|, Run(t, p + |PATHS_KEY|, IsJsSpace))
             else None;
    if s.Some? then Some(t[s.value..SectionEnd(t, s.value)])
    else if p == |t| then None
    else PathsSection(t, p + 1)
  }

  // ---------------------------------------------------------------- paths

  /** `^` with the `m` flag. */
  predicate LineStart(s: string, p: nat)
    requires p <= |s|
  {
    p == 0 || IsJsLineTerminator(s[p - 1])
  }

  /** `^\s{2}(\/[^:\n]+):` at `p`: the path and where the match ends. The
    * greedy `[^:\n]+` takes the whole run, which `:` must then follow. */
  function PathAt(s: string, p: nat): Option<(string, nat)>
    requires p <= |s|
  {
    if LineStart(s, p) && p + 3 < |s| && IsJsSpace(s[p]) && IsJsSpace(s[p + 1]) && s[p + 2] == '/' then
      var n := Run(s, p + 3, IsPathChar);
      if n > 0 && p + 3 + n < |s| && s[p + 3 + n] == ':' then Some((s[p + 2..p + 3 + n], p + 4 + n)) else None
    else None
  }

  /** `pathRegex.exec(section)` with `lastIndex` at `from`. */
  function ExecPath(s: string, from: nat): (r: Option<(string, nat)>)
    requires from <= |s|
    ensures r.Some? ==> from < r.value.1 <= |s|
    decreases |s| - from
  {
    var m := PathAt(s, from);
    if m.Some? || from == |s| then m else ExecPath(s, from + 1)
  }

  /** The paths the `exec` loop finds from `from`, in order. */
  function Paths(s: string, from: nat): seq<string>
    requires from <= |s|
    decreases |s| - from
  {
    match ExecPath(s, from)
    case None => []
    case Some((path, next)) => [path] + Paths(s, next)
  }

  // ---------------------------------------------------------------- methods

  /** The first of `words` that sits at `q` followed by `:`, as matched. */
  function WordAt(s: string, q: nat, words: seq<string>): (r: Option<string>)
    ensures r.Some? ==> q + |r.value| < |s| && ToLower(r.value) in words
  {
    if words == [] then None
    else if KeyAt(s, q, words[0] + ":", true) then
      assert ToLower(s[q..q + |words[0]|]) == words[0] by {
        assert ToLower(s[q..q + |words[0]|]) == ToLower(s[q..q + |words[0]| + 1])[..|words[0]|];
      }
      Some(s[q..q + |words[0]|])
    else WordAt(s, q, words[1..])
  }

  /** `\s{4}(get|post|put|delete|patch):` at `p` with the `i` flag: the
    * word as matched and where the match ends. */
  function MethodAt(s: string, p: nat): (r: Option<(string, nat)>)
    requires p <= |s|
    ensures r.Some? ==> p < r.value.1 <= |s| && ToLower(r.value.0) in METHOD_WORDS
  {
    if p + 4 <= |s| && IsJsSpace(s[p]) && IsJsSpace(s[p + 1]) && IsJsSpace(s[p + 2]) && IsJsSpace(s[p + 3]) then
      match WordAt(s, p + 4, METHOD_WORDS)
      case None => None
      case Some(w) => Some((w, p + 5 + |w|))
    else None
  }

  /** `methodRegex.exec(section)` with `lastIndex` at `from`. */
  function ExecMethod(s: string, from: nat): (r: Option<(string, nat)>)
    requires from <= |s|
    ensures r.Some? ==> from < r.value.1 <= |s| && ToLower(r.value.0) in METHOD_WORDS
    decreases |s| - from
  {
    var m := MethodAt(s, from);
    if m.Some? || from == |s| then m else ExecMethod(s, from + 1)
  }

  /** The methods the `exec` loop finds from `from`, upper-cased, in order. */
  function Methods(s: string, from: nat): seq<string>
    requires from <= |s|
    decreases |s| - from
  {
    match ExecMethod(s, from)
    case None => []
    case Some((w, next)) => [ToUpper(w)] + Methods(s, next)
  }

  // ---------------------------------------------------------------- endpoints

  /** `new RegExp(`${m}:[\s\S]*?summary:\s*["']?([^"'\n]+)["']?`, 'i')`,
    * searching from `p`: from the leftmost `m:`, the lazy gap reaches the
    * first later `summary:` followed by a value. */
  function SummaryFrom(s: string, m: string, p: nat): Option<string>
    requires p <= |s|
    decreases |s| - p
  {
    var v := if KeyAt(s, p, m + ":", true) then FirstValue(s, SUMMARY_KEY, true, p + |m| + 1) else None;
    if v.Some? || p == |s| then v else SummaryFrom(s, m, p + 1)
  }

  function SummaryOf(s: string, path: string, verb: string): string
  {
    SummaryFrom(s, ToLower(verb), 0).GetOr(verb + " " + path)
  }

  /** `.replace(/[^a-zA-Z0-9]/g, '-')`. */
  function Sanitize(s: string): string
  {
    seq(|s|, i requires 0 <= i < |s| => if IsAlnum(s[i]) then s[i] else '-')
  }

  function EndpointId(path: string, verb: string): string
  {
    Sanitize(path + "-" + verb)
  }

  /** The endpoint pushed for a path and a method. */
  function Endpoint(s: string, path: string, verb: string): Value
  {
    Obj([("id", Str(EndpointId(path, verb))), ("path", Str(path)), ("method", Str(verb)),
         ("summary", Str(SummaryOf(s, path, verb))), ("description", Str("")),
         ("parameters", Arr([])),
         ("responses", Obj([("200", Obj([("description", Str("Success"))]))]))])
  }

  /** One path's endpoints, one per method in order. */
  function Row(s: string, path: string, methods: seq<string>): seq<Value>
  {
    if methods == [] then []
    else Row(s, path, methods[..|methods| - 1]) + [Endpoint(s, path, methods[|methods| - 1])]
  }

  /** Every path's row, path by path. */
  function Rows(s: string, paths: seq<string>, methods: seq<string>): seq<Value>
  {
    if paths == [] then []
    else Rows(s, paths[..|paths| - 1], methods) + Row(s, paths[|paths| - 1], methods)
  }

  function Endpoints(t: string): seq<Value>
  {
    match PathsSection(t, 0)
    case None => []
    case Some(s) => Rows(s, Paths(s, 0), Methods(s, 0))
  }

  /** `parseYamlToProject(t)`, keys in the order the object gets them. */
  function Parse(t: string): Fields
  {
    [("endpoints", Arr(Endpoints(t))), ("schemas", Arr([])),
     ("name", Str(FirstValue(t, TITLE_KEY, false, 0).GetOr(DEFAULT_NAME))),
     ("description", Str(FirstValue(t, DESCRIPTION_KEY, false, 0).GetOr(DEFAULT_DESCRIPTION))),
     ("version", Str(FirstValue(t, VERSION_KEY, false, 0).GetOr(DEFAULT_VERSION))),
     ("id", Str("1"))]
  }

  /** `parseYamlToProject`, with its two `exec` loops. */
  method ParseYamlToProject(t: string) returns (p: Fields)
    ensures p == Parse(t)
  {
    var endpoints: seq<Value> := [];
    var section := PathsSection(t, 0);
    if section.Some? {
      var s := section.value;
      ghost var methods := Methods(s, 0);
      ghost var done: seq<string> := [];
      var last := 0;
      var m := ExecPath(s, 0);
      while m.Some?
        invariant last <= |s| && m == ExecPath(s, last)
        invariant Paths(s, 0) == done + Paths(s, last)
        invariant endpoints == Rows(s, done, methods)
        decreases |s| - last
      {
        var path := m.value.0;
        endpoints := PushMethods(s, path, endpoints);
        PathStep(s, done, methods, last);
        done := done + [path];
        last := m.value.1;
        m := ExecPath(s, last);
      }
      assert done == Paths(s, 0);
    }
    p := [("endpoints", Arr(endpoints)), ("schemas", Arr([])),
          ("name", Str(FirstValue(t, TITLE_KEY, false, 0).GetOr(DEFAULT_NAME))),
          ("description", Str(FirstValue(t, DESCRIPTION_KEY, false, 0).GetOr(DEFAULT_DESCRIPTION))),
          ("version", Str(FirstValue(t, VERSION_KEY, false, 0).GetOr(DEFAULT_VERSION))),
          ("id", Str("1"))];
  }

  /** The inner loop: a fresh method regex over the whole section, one
    * endpoint for `path` per match. */
  method PushMethods(s: string, path: string, acc: seq<Value>) returns (r: seq<Value>)
    ensures r == acc + Row(s, path, Methods(s, 0))
  {
    var row: seq<Value> := [];
    ghost var done: seq<string> := [];
    var last := 0;
    var m := ExecMethod(s, 0);
    while m.Some?
      invariant last <= |s| && m == ExecMethod(s, last)
      invariant Methods(s, 0) == done + Methods(s, last)
      invariant row == Row(s, path, done)
      decreases |s| - last
    {
      var verb := ToUpper(m.value.0);
      MethodStep(s, path, done, last);
      row := row + [Endpoint(s, path, verb)];
      done := done + [verb];
      last := m.value.1;
      m := ExecMethod(s, last);
    }
    assert done == Methods(s, 0);
    r := acc + row;
  }

  // ---------------------------------------------------------------- steps

  lemma PathsStep(s: string, from: nat)
    requires from <= |s| && ExecPath(s, from).Some?
    ensures Paths(s, from) == [ExecPath(s, from).value.0] + Paths(s, ExecPath(s, from).value.1)
  {
  }

  lemma MethodsStep(s: string, from: nat)
    requires from <= |s| && ExecMethod(s, from).Some?
    ensures Methods(s, from) == [ToUpper(ExecMethod(s, from).value.0)] + Methods(s, ExecMethod(s, from).value.1)
  {
  }

  /** One turn of the method loop: the method found is the next one of
    * the section's, and its endpoint comes next in the row. */
  lemma MethodStep(s: string, path: string, done: seq<string>, last: nat)
    requires last <= |s| && ExecMethod(s, last).Some?
    requires Methods(s, 0) == done + Methods(s, last)
    ensures var m := ExecMethod(s, last).value;
      && Methods(s, 0) == (done + [ToUpper(m.0)]) + Methods(s, m.1)
      && Row(s, path, done + [ToUpper(m.0)]) == Row(s, path, done) + [Endpoint(s, path, ToUpper(m.0))]
  {
    var m := ExecMethod(s, last).value;
    var verb := ToUpper(m.0);
    var rest := Methods(s, m.1);
    MethodsStep(s, last);
    assert Methods(s, last) == [verb] + rest;
    assert done + ([verb] + rest) == (done + [verb]) + rest;
    RowSnoc(s, path, done, verb);
  }

  /** One turn of the path loop: the path found is the next one of the
    * section's, and its row comes next in the endpoint list. */
  lemma PathStep(s: string, done: seq<string>, methods: seq<string>, last: nat)
    requires last <= |s| && ExecPath(s, last).Some?
    requires Paths(s, 0) == done + Paths(s, last)
    ensures var m := ExecPath(s, last).value;
      && Paths(s, 0) == (done + [m.0]) + Paths(s, m.1)
      && Rows(s, done + [m.0], methods) == Rows(s, done, methods) + Row(s, m.0, methods)
  {
    var m := ExecPath(s, last).value;
    var rest := Paths(s, m.1);
    PathsStep(s, last);
    assert Paths(s, last) == [m.0] + rest;
    assert done + ([m.0] + rest) == (done + [m.0]) + rest;
    RowsSnoc(s, done, m.0, methods);
  }

  lemma RowSnoc(s: string, path: string, methods: seq<string>, verb: string)
    ensures Row(s, path, methods + [verb]) == Row(s, path, methods) + [Endpoint(s, path, verb)]
  {
    assert (methods + [verb])[..|methods|] == methods;
  }

  lemma RowsSnoc(s: string, paths: seq<string>, path: string, methods: seq<string>)
    ensures Rows(s, paths + [path], methods) == Rows(s, paths, methods) + Row(s, path, methods)
  {
    assert (paths + [path])[..|paths|] == paths;
  }

  // ---------------------------------------------------------------- properties

  /** Every character of the run satisfies `p`, and the one after it does not. */
  lemma {:induction false} RunRules(t: string, i: nat, p: char -> bool)
    requires i <= |t|
    ensures forall k :: i <= k < i + Run(t, i, p) ==> p(t[k])
    ensures i + Run(t, i, p) == |t| || !p(t[i + Run(t, i, p)])
    decreases |t| - i
  {
    if i < |t| && p(t[i]) {
      RunRules(t, i + 1, p);
    }
  }

  /** A run that stops after `n` characters is `n` long. */
  lemma {:induction false} RunIs(t: string, i: nat, n: nat, p: char -> bool)
    requires i + n <= |t|
    requires forall k :: i <= k < i + n ==> p(t[k])
    requires i + n == |t| || !p(t[i + n])
    ensures Run(t, i, p) == n
    decreases n
  {
    if n > 0 {
      RunIs(t, i + 1, n - 1, p);
    }
  }

  /** Positions where the key does not occur are passed over. */
  lemma {:induction false} FirstValueSkips(t: string, key: string, fold: bool, p: nat, q: nat)
    requires p <= q <= |t|
    requires forall i :: p <= i < q ==> !KeyAt(t, i, key, fold)
    ensures FirstValue(t, key, fold, p) == FirstValue(t, key, fold, q)
    decreases q - p
  {
    if p < q {
      FirstValueSkips(t, key, fold, p + 1, q);
    }
  }

  lemma {:induction false} FirstValueNone(t: string, key: string, fold: bool, p: nat)
    requires p <= |t|
    ensures FirstValue(t, key, fold, p).None? <==> forall i :: p <= i <= |t| ==> MatchAt(t, key, fold, i).None?
    decreases |t| - p
  {
    if MatchAt(t, key, fold, p).None? && p < |t| {
      FirstValueNone(t, key, fold, p + 1);
    }
  }

  lemma {:induction false} FirstValueFound(t: string, key: string, fold: bool, p: nat)
    requires p <= |t| && FirstValue(t, key, fold, p).Some?
    ensures
      exists i :: p <= i <= |t| && MatchAt(t, key, fold, i) == FirstValue(t, key, fold, p)
        && forall j :: p <= j < i ==> MatchAt(t, key, fold, j).None?
    decreases |t| - p
  {
    if MatchAt(t, key, fold, p).None? {
      FirstValueFound(t, key, fold, p + 1);
      var i :| p + 1 <= i <= |t| && MatchAt(t, key, fold, i) == FirstValue(t, key, fold, p + 1)
        && forall j :: p + 1 <= j < i ==> MatchAt(t, key, fold, j).None?;
      assert forall j :: p <= j < i ==> MatchAt(t, key, fold, j).None?;
    } else {
      assert MatchAt(t, key, fold, p) == FirstValue(t, key, fold, p);
    }
  }

  /** The search finds exactly the leftmost position where the key is
    * followed by a value, and nothing when there is no such position. */
  lemma FirstValueLeftmost(t: string, key: string, fold: bool, p: nat)
    requires p <= |t|
    ensures FirstValue(t, key, fold, p).None? <==> forall i :: p <= i <= |t| ==> MatchAt(t, key, fold, i).None?
    ensures FirstValue(t, key, fold, p).Some? ==>
      exists i :: p <= i <= |t| && MatchAt(t, key, fold, i) == FirstValue(t, key, fold, p)
        && forall j :: p <= j < i ==> MatchAt(t, key, fold, j).None?
  {
    FirstValueNone(t, key, fold, p);
    if FirstValue(t, key, fold, p).Some? {
      FirstValueFound(t, key, fold, p);
    }
  }

  /** Without the key the search finds nothing. */
  lemma FirstValueAbsent(t: string, key: string, fold: bool, p: nat)
    requires p <= |t| && forall i :: p <= i <= |t| ==> !KeyAt(t, i, key, fold)
    ensures FirstValue(t, key, fold, p) == None
  {
    FirstValueSkips(t, key, fold, p, |t|);
  }

  /** The layout of a quoted line, as offsets from the start of its key. */
  lemma QuotedLineLayout(pre: string, k: string, x: string, indent: nat, post: string)
    ensures var t := pre + YamlWriter.QuotedLine(k, x, indent) + post;
      var p := |pre| + 2 * indent;
      var st := p + |k| + 1;
      && st + 2 + |x| < |t|
      && t[p..st] == k + ":" && t[st] == ' ' && t[st + 1] == '"'
      && t[st + 2..st + 2 + |x|] == x && t[st + 2 + |x|] == '"'
  {
    var sp := YamlWriter.Spaces(indent);
    var t := pre + YamlWriter.QuotedLine(k, x, indent) + post;
    assert t == (pre + sp) + (k + ":") + (" \"" + x) + ("\"\n" + post);
  }

  /** ` "x"` after the key is read as `x`. */
  lemma QuotedValue(t: string, st: nat, x: string)
    requires x != "" && forall c :: c in x ==> IsPlain(c)
    requires st + 2 + |x| < |t| && t[st] == ' ' && t[st + 1] == '"'
    requires t[st + 2..st + 2 + |x|] == x && t[st + 2 + |x|] == '"'
    ensures ValueFrom(t, st) == Some(x)
  {
    RunIs(t, st, 1, IsJsSpace);
    assert forall c :: st + 2 <= c < st + 2 + |x| ==> IsPlain(t[c]) by {
      forall c | st + 2 <= c < st + 2 + |x| ensures IsPlain(t[c]) {
        assert t[c] == x[c - st - 2];
      }
    }
    RunIs(t, st + 2, |x|, IsPlain);
    assert ValueAt(t, st + 1) == Some(x);
  }

  /** A `key: "x"` line as the YAML writer writes it reads back as `x`,
    * when the key does not occur before it. */
  lemma ReadsQuotedLine(pre: string, k: string, x: string, indent: nat, post: string)
    requires x != "" && forall c :: c in x ==> IsPlain(c)
    requires forall i :: 0 <= i < |pre| + 2 * indent ==>
      !KeyAt(pre + YamlWriter.QuotedLine(k, x, indent) + post, i, k + ":", false)
    ensures FirstValue(pre + YamlWriter.QuotedLine(k, x, indent) + post, k + ":", false, 0) == Some(x)
  {
    var t := pre + YamlWriter.QuotedLine(k, x, indent) + post;
    var p := |pre| + 2 * indent;
    var key := k + ":";
    QuotedLineLayout(pre, k, x, indent, post);
    QuotedMatch(t, p, k, x);
    assert FirstValue(t, key, false, p) == Some(x);
    FirstValueSkips(t, key, false, 0, p);
  }

  /** `key: "x"` at `p` is a match of the key's pattern with value `x`. */
  lemma QuotedMatch(t: string, p: nat, k: string, x: string)
    requires x != "" && forall c :: c in x ==> IsPlain(c)
    requires var st := p + |k| + 1;
      && st + 2 + |x| < |t|
      && t[p..st] == k + ":" && t[st] == ' ' && t[st + 1] == '"'
      && t[st + 2..st + 2 + |x|] == x && t[st + 2 + |x|] == '"'
    ensures MatchAt(t, k + ":", false, p) == Some(x)
  {
    QuotedValue(t, p + |k| + 1, x);
    assert KeyAt(t, p, k + ":", false);
  }

  /** The key order and the fields of `Parse`, read back. */
  lemma SixFields(e: Value, n: Value, d: Value, v: Value)
    ensures var fs := [("endpoints", e), ("schemas", Arr([])), ("name", n), ("description", d), ("version", v), ("id", Str("1"))];
      && Get(fs, "endpoints") == e && Get(fs, "schemas") == Arr([]) && Get(fs, "name") == n
      && Get(fs, "description") == d && Get(fs, "version") == v && Get(fs, "id") == Str("1")
  {
    var fs := [("endpoints", e), ("schemas", Arr([])), ("name", n), ("description", d), ("version", v), ("id", Str("1"))];
    GetAt(fs, 0);
    GetAt(fs, 1);
    GetAt(fs, 2);
    GetAt(fs, 3);
    GetAt(fs, 4);
    GetAt(fs, 5);
  }

  lemma {:induction false} PathsSectionAbsent(t: string, p: nat)
    requires p <= |t| && forall i :: p <= i <= |t| ==> !KeyAt(t, i, PATHS_KEY, false)
    ensures PathsSection(t, p) == None
    decreases |t| - p
  {
    if p < |t| {
      PathsSectionAbsent(t, p + 1);
    }
  }

  /** The import's fixed parts: id `1`, no schemas, the defaults for a key
    * that does not occur, and no endpoints without a `paths:` key. */
  lemma ParseDefaults(t: string)
    ensures Get(Parse(t), "id") == Str("1") && Get(Parse(t), "schemas") == Arr([])
    ensures (forall i :: 0 <= i <= |t| ==> !KeyAt(t, i, TITLE_KEY, false)) ==> Get(Parse(t), "name") == Str(DEFAULT_NAME)
    ensures (forall i :: 0 <= i <= |t| ==> !KeyAt(t, i, DESCRIPTION_KEY, false))
      ==> Get(Parse(t), "description") == Str(DEFAULT_DESCRIPTION)
    ensures (forall i :: 0 <= i <= |t| ==> !KeyAt(t, i, VERSION_KEY, false)) ==> Get(Parse(t), "version") == Str(DEFAULT_VERSION)
    ensures (forall i :: 0 <= i <= |t| ==> !KeyAt(t, i, PATHS_KEY, false)) ==> Get(Parse(t), "endpoints") == Arr([])
  {
    var n := FirstValue(t, TITLE_KEY, false, 0);
    var d := FirstValue(t, DESCRIPTION_KEY, false, 0);
    var v := FirstValue(t, VERSION_KEY, false, 0);
    SixFields(Arr(Endpoints(t)), Str(n.GetOr(DEFAULT_NAME)), Str(d.GetOr(DEFAULT_DESCRIPTION)), Str(v.GetOr(DEFAULT_VERSION)));
    if forall i :: 0 <= i <= |t| ==> !KeyAt(t, i, TITLE_KEY, false) {
      FirstValueAbsent(t, TITLE_KEY, false, 0);
    }
    if forall i :: 0 <= i <= |t| ==> !KeyAt(t, i, DESCRIPTION_KEY, false) {
      FirstValueAbsent(t, DESCRIPTION_KEY, false, 0);
    }
    if forall i :: 0 <= i <= |t| ==> !KeyAt(t, i, VERSION_KEY, false) {
      FirstValueAbsent(t, VERSION_KEY, false, 0);
    }
    if forall i :: 0 <= i <= |t| ==> !KeyAt(t, i, PATHS_KEY, false) {
      PathsSectionAbsent(t, 0);
    }
  }

  /** An exported title line is imported as the project's name. */
  lemma ImportsExportedTitle(pre: string, x: string, indent: nat, post: string)
    requires x != "" && forall c :: c in x ==> IsPlain(c)
    requires forall i :: 0 <= i < |pre| + 2 * indent ==>
      !KeyAt(pre + YamlWriter.QuotedLine("title", x, indent) + post, i, TITLE_KEY, false)
    ensures Get(Parse(pre + YamlWriter.QuotedLine("title", x, indent) + post), "name") == Str(x)
  {
    var t := pre + YamlWriter.QuotedLine("title", x, indent) + post;
    assert "title" + ":" == TITLE_KEY;
    ReadsQuotedLine(pre, "title", x, indent, post);
    SixFields(Arr(Endpoints(t)), Str(x), Str(FirstValue(t, DESCRIPTION_KEY, false, 0).GetOr(DEFAULT_DESCRIPTION)),
              Str(FirstValue(t, VERSION_KEY, false, 0).GetOr(DEFAULT_VERSION)));
  }

  // ---------------------------------------------------------------- the endpoint list

  /** One path's row holds one endpoint per method, in the methods' order. */
  lemma RowRules(s: string, path: string, methods: seq<string>)
    ensures |Row(s, path, methods)| == |methods|
    ensures forall j :: 0 <= j < |methods| ==> Row(s, path, methods)[j] == Endpoint(s, path, methods[j])
  {
    RowLength(s, path, methods);
    forall j | 0 <= j < |methods| ensures Row(s, path, methods)[j] == Endpoint(s, path, methods[j]) {
      RowAt(s, path, methods, j);
    }
  }

  lemma {:induction false} RowLength(s: string, path: string, methods: seq<string>)
    ensures |Row(s, path, methods)| == |methods|
  {
    if methods != [] {
      RowLength(s, path, methods[..|methods| - 1]);
    }
  }

  lemma {:induction false} RowAt(s: string, path: string, methods: seq<string>, j: nat)
    requires j < |methods|
    ensures j < |Row(s, path, methods)| && Row(s, path, methods)[j] == Endpoint(s, path, methods[j])
    decreases |methods|
  {
    var init := methods[..|methods| - 1];
    RowLength(s, path, init);
    if j < |init| {
      RowAt(s, path, init, j);
    }
  }

  /** Where row `i` starts when every row is `m` long, counted row by row. */
  function Offset(i: nat, m: nat): nat
  {
    if i == 0 then 0 else Offset(i - 1, m) + m
  }

  lemma {:induction false} OffsetIsProduct(i: nat, m: nat)
    ensures Offset(i, m) == i * m
  {
    if i > 0 {
      OffsetIsProduct(i - 1, m);
      assert (i - 1) * m + m == i * m;
    }
  }

  lemma {:induction false} RowsSize(s: string, paths: seq<string>, methods: seq<string>)
    ensures |Rows(s, paths, methods)| == Offset(|paths|, |methods|)
  {
    if paths != [] {
      var n := |paths| - 1;
      RowsSize(s, paths[..n], methods);
      RowLength(s, paths[n], methods);
    }
  }

  lemma ConcatAt(a: seq<Value>, b: seq<Value>, k: nat)
    requires k < |a| + |b|
    ensures (a + b)[k] == if k < |a| then a[k] else b[k - |a|]
  {
  }

  lemma {:induction false} RowsAt(s: string, paths: seq<string>, methods: seq<string>, i: nat, j: nat)
    requires i < |paths| && j < |methods|
    ensures |Row(s, paths[i], methods)| == |methods|
    ensures Offset(i, |methods|) + j < |Rows(s, paths, methods)|
    ensures Rows(s, paths, methods)[Offset(i, |methods|) + j] == Row(s, paths[i], methods)[j]
    decreases |paths|
  {
    var n := |paths| - 1;
    var m := |methods|;
    var init := paths[..n];
    var left := Rows(s, init, methods);
    var row := Row(s, paths[n], methods);
    assert Rows(s, paths, methods) == left + row;
    RowsSize(s, init, methods);
    RowLength(s, paths[i], methods);
    RowLength(s, paths[n], methods);
    if i < n {
      RowsAt(s, init, methods, i, j);
      assert paths[i] == init[i];
      ConcatAt(left, row, Offset(i, m) + j);
    } else {
      assert i == n;
      assert Offset(i, m) == |left|;
      ConcatAt(left, row, |left| + j);
    }
  }

  /** The pushed endpoints: for every path in order, one per method in
    * order, so the endpoint for path `i` and method `j` sits at
    * `Offset(i, |methods|) + j`, that is `i * |methods| + j`. */
  lemma RowsRules(s: string, paths: seq<string>, methods: seq<string>)
    ensures |Rows(s, paths, methods)| == |paths| * |methods|
    ensures forall i, j :: 0 <= i < |paths| && 0 <= j < |methods| ==>
      Offset(i, |methods|) + j < |Rows(s, paths, methods)| &&
      Rows(s, paths, methods)[Offset(i, |methods|) + j] == Endpoint(s, paths[i], methods[j])
  {
    RowsSize(s, paths, methods);
    OffsetIsProduct(|paths|, |methods|);
    forall i, j | 0 <= i < |paths| && 0 <= j < |methods|
      ensures Offset(i, |methods|) + j < |Rows(s, paths, methods)|
      ensures Rows(s, paths, methods)[Offset(i, |methods|) + j] == Endpoint(s, paths[i], methods[j])
    {
      RowsAt(s, paths, methods, i, j);
      RowAt(s, paths[i], methods, j);
    }
  }

  /** Lower-casing to lower-case letters and then upper-casing gives the
    * word's upper case, however the word was matched. */
  lemma UpperOfLower(w: string, x: string)
    requires ToLower(w) == x && forall i :: 0 <= i < |x| ==> IsLower(x[i])
    ensures ToUpper(w) == ToUpper(x)
  {
    forall i | 0 <= i < |w| ensures ToUpper(w)[i] == ToUpper(x)[i] {
      assert LowerChar(w[i]) == x[i];
    }
  }

  /** The upper case of each method word is an HTTP method. */
  lemma HttpWord(x: string)
    requires x in METHOD_WORDS
    ensures forall i :: 0 <= i < |x| ==> IsLower(x[i])
    ensures ToUpper(x) in METHODS
  {
    if x == "get" { assert ToUpper(x) == "GET"; }
    else if x == "post" { assert ToUpper(x) == "POST"; }
    else if x == "put" { assert ToUpper(x) == "PUT"; }
    else if x == "delete" { assert ToUpper(x) == "DELETE"; }
    else { assert ToUpper(x) == "PATCH"; }
  }

  /** Every method the loop finds is one of the five, in upper case. */
  lemma {:induction false} MethodsAreHttp(s: string, from: nat)
    requires from <= |s|
    ensures forall k :: 0 <= k < |Methods(s, from)| ==> Methods(s, from)[k] in METHODS
    decreases |s| - from
  {
    match ExecMethod(s, from)
    case None =>
    case Some((w, next)) =>
      HttpWord(ToLower(w));
      UpperOfLower(w, ToLower(w));
      MethodsAreHttp(s, next);
  }

  /** A path as matched: a `/`, then at least one character that is
    * neither `:` nor a line break. */
  predicate IsPath(path: string)
  {
    |path| >= 2 && path[0] == '/' && forall k :: 1 <= k < |path| ==> IsPathChar(path[k])
  }

  lemma PathAtRules(s: string, p: nat)
    requires p <= |s|
    ensures PathAt(s, p).Some? ==> IsPath(PathAt(s, p).value.0)
  {
    if PathAt(s, p).Some? {
      RunRules(s, p + 3, IsPathChar);
      var path := PathAt(s, p).value.0;
      assert forall k :: 1 <= k < |path| ==> path[k] == s[p + 2 + k];
    }
  }

  lemma {:induction false} ExecPathRules(s: string, from: nat)
    requires from <= |s|
    ensures ExecPath(s, from).Some? ==> IsPath(ExecPath(s, from).value.0)
    decreases |s| - from
  {
    PathAtRules(s, from);
    if PathAt(s, from).None? && from < |s| {
      ExecPathRules(s, from + 1);
    }
  }

  /** Every path the loop finds has the shape the pattern demands. */
  lemma {:induction false} PathsShape(s: string, from: nat)
    requires from <= |s|
    ensures forall k :: 0 <= k < |Paths(s, from)| ==> IsPath(Paths(s, from)[k])
    decreases |s| - from
  {
    ExecPathRules(s, from);
    match ExecPath(s, from)
    case None =>
    case Some((path, next)) =>
      PathsShape(s, next);
  }

  /** A `  /path:` line at the start of a line is matched as that path, and
    * the search goes on just after its colon. */
  lemma ReadsPathLine(pre: string, path: string, post: string)
    requires pre == [] || pre[|pre| - 1] == '\n'
    requires IsPath(path)
    ensures ExecPath(pre + "  " + path + ":" + post, |pre|) == Some((path, |pre| + |path| + 3))
  {
    var s := pre + "  " + path + ":" + post;
    var p := |pre|;
    assert s[p] == ' ' && s[p + 1] == ' ' && s[p + 2] == '/';
    assert p > 0 ==> s[p - 1] == '\n';
    assert forall k :: p + 3 <= k < p + 2 + |path| ==> s[k] == path[k - p - 2];
    RunIs(s, p + 3, |path| - 1, IsPathChar);
    assert s[p + 2 + |path|] == ':';
    assert s[p + 2..p + 2 + |path|] == path;
  }

  // ---------------------------------------------------------------- summaries and ids

  /** A method's summary is found exactly when some `m:` is followed, later,
    * by a `summary:` with a value. */
  lemma {:induction false} SummaryFromNone(s: string, m: string, p: nat)
    requires p <= |s|
    ensures SummaryFrom(s, m, p).None? <==>
      forall i :: p <= i <= |s| && KeyAt(s, i, m + ":", true) ==> FirstValue(s, SUMMARY_KEY, true, i + |m| + 1).None?
    decreases |s| - p
  {
    if p < |s| {
      SummaryFromNone(s, m, p + 1);
    }
  }

  /** Without a summary, the endpoint's summary is `METHOD path`. */
  lemma SummaryFallback(s: string, path: string, verb: string)
    requires (forall i :: 0 <= i <= |s| ==> !KeyAt(s, i, ToLower(verb) + ":", true))
          || (forall i :: 0 <= i <= |s| ==> !KeyAt(s, i, SUMMARY_KEY, true))
    ensures SummaryOf(s, path, verb) == verb + " " + path
  {
    var m := ToLower(verb);
    SummaryFromNone(s, m, 0);
    forall i | 0 <= i <= |s| && KeyAt(s, i, m + ":", true)
      ensures FirstValue(s, SUMMARY_KEY, true, i + |m| + 1).None?
    {
      FirstValueAbsent(s, SUMMARY_KEY, true, i + |m| + 1);
    }
  }

  /** Letters and digits stay, every other character becomes `-`; doing it
    * twice changes nothing more, and ids made only of letters and digits
    * are kept as they are. */
  lemma SanitizeRules(x: string)
    ensures |Sanitize(x)| == |x|
    ensures forall i :: 0 <= i < |x| ==> Sanitize(x)[i] == (if IsAlnum(x[i]) then x[i] else '-')
    ensures forall i :: 0 <= i < |x| ==> IsAlnum(Sanitize(x)[i]) || Sanitize(x)[i] == '-'
    ensures Sanitize(Sanitize(x)) == Sanitize(x)
    ensures (forall i :: 0 <= i < |x| ==> IsAlnum(x[i])) ==> Sanitize(x) == x
  {
  }

  lemma SanitizeConcat(a: string, b: string)
    ensures Sanitize(a + b) == Sanitize(a) + Sanitize(b)
  {
  }

  /** An endpoint id is the sanitized path, `-` and the method untouched,
    * and holds nothing but letters, digits and `-`. */
  lemma EndpointIdRules(path: string, verb: string)
    requires verb in METHODS
    ensures EndpointId(path, verb) == Sanitize(path) + "-" + verb
    ensures |EndpointId(path, verb)| == |path| + 1 + |verb|
    ensures forall i :: 0 <= i < |EndpointId(path, verb)| ==>
      IsAlnum(EndpointId(path, verb)[i]) || EndpointId(path, verb)[i] == '-'
  {
    SanitizeConcat(path + "-", verb);
    SanitizeConcat(path, "-");
    assert Sanitize("-") == "-";
    assert forall i :: 0 <= i < |verb| ==> IsUpper(verb[i]);
    SanitizeRules(verb);
    SanitizeRules(path + "-" + verb);
  }

  /** Two different paths can share an id, so id-based edits in the
    * designer then reach both endpoints. */
  lemma IdsCanCollide()
    ensures EndpointId("/a-b", "GET") == EndpointId("/a/b", "GET")
  {
    SanitizeRules("/a-b-GET");
    SanitizeRules("/a/b-GET");
  }
}
