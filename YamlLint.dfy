// The OpenAPI editor's and the detail view's quick YAML check: the text is
// cut into lines at "\r?\n" and every line holding a tab gets one error.
module YamlLint {
  import opened Wrappers
  import opened Strings

  const EMPTY_SPEC: string := "Empty spec"
  const TAB_MESSAGE: string := ": Tab character found; use spaces for YAML"

  /** The outcome of `lintYaml`; `errors` is absent for an empty spec. */
  datatype Lint = Lint(ok: bool, errors: Option<seq<string>>, warnings: seq<string>)

  function DropCR(p: string): string
  {
    if |p| > 0 && p[|p| - 1] == '\r' then p[..|p| - 1] else p
  }

  /** `s.split(/\r?\n/)`: the parts between line feeds, each losing one
    * carriage return just before its line feed; every part is kept. */
  function Lines(s: string): (r: seq<string>)
    ensures |r| == |Split(s, '\n')| >= 1
    ensures forall i :: 0 <= i < |r| ==> '\n' !in r[i]
  {
    var parts := Split(s, '\n');
    seq(|parts|, i requires 0 <= i < |parts| => if i < |parts| - 1 then DropCR(parts[i]) else parts[i])
  }

  /** The 1-based numbers of the lines holding a tab, in order. */
  function TabLines(lines: seq<string>): seq<nat>
  {
    if lines == [] then []
    else TabLines(lines[..|lines| - 1]) + (if '\t' in lines[|lines| - 1] then [|lines|] else [])
  }

  function TabMessage(n: nat): string
  {
    "Line " + NatToString(n) + TAB_MESSAGE
  }

  function Messages(ns: seq<nat>): (r: seq<string>)
    ensures |r| == |ns|
  {
    seq(|ns|, i requires 0 <= i < |ns| => TabMessage(ns[i]))
  }

  /** Exactly the lines holding a tab are listed, each once, in order. */
  lemma {:induction false} TabLinesRule(lines: seq<string>)
    ensures forall n :: n in TabLines(lines) <==> 1 <= n <= |lines| && '\t' in lines[n - 1]
    ensures forall i, j :: 0 <= i < j < |TabLines(lines)| ==> TabLines(lines)[i] < TabLines(lines)[j]
    ensures forall i :: 0 <= i < |TabLines(lines)| ==> 1 <= TabLines(lines)[i] <= |lines|
  {
    if lines != [] {
      var init := lines[..|lines| - 1];
      TabLinesRule(init);
      forall i | 0 <= i < |init| ensures lines[i] == init[i] {}
    }
  }

  /** The errors pushed by the forEach over the lines. */
  method TabErrors(lines: seq<string>) returns (errors: seq<string>)
    ensures errors == Messages(TabLines(lines))
  {
    errors := [];
    var idx := 0;
    while idx < |lines|
      invariant 0 <= idx <= |lines|
      invariant errors == Messages(TabLines(lines[..idx]))
    {
      assert lines[..idx + 1][..idx] == lines[..idx];
      if '\t' in lines[idx] {
        errors := errors + [TabMessage(idx + 1)];
      }
      idx := idx + 1;
    }
    assert lines[..idx] == lines;
  }

  /** A spec is empty when it is missing or nothing but white space. */
  predicate EmptySpec(yaml: Option<string>)
  {
    yaml.None? || yaml.value == "" || JsTrim(yaml.value) == ""
  }

  /** No tab anywhere gives no error, and a tab anywhere gives at least one. */
  lemma NoTabNoError(s: string)
    ensures TabLines(Lines(s)) == [] <==> '\t' !in s
  {
    var lines := Lines(s);
    TabLinesRule(lines);
    LinesCover(s);
    if TabLines(lines) != [] {
      var n := TabLines(lines)[0];
      assert n in TabLines(lines);
    }
    if '\t' in s {
      var i :| 0 <= i < |lines| && '\t' in lines[i];
      assert i + 1 in TabLines(lines);
    }
  }

  /** A tab is in some line exactly when it is in the text. */
  lemma LinesCover(s: string)
    ensures '\t' in s <==> exists i :: 0 <= i < |Lines(s)| && '\t' in Lines(s)[i]
  {
    var parts := Split(s, '\n');
    JoinSplit(s, '\n');
    TabInJoin(parts, "\n");
    var lines := Lines(s);
    forall i | 0 <= i < |parts|
      ensures '\t' in parts[i] <==> '\t' in lines[i]
    {
      var p := parts[i];
      if |p| > 0 && p[|p| - 1] == '\r' && i < |parts| - 1 {
        assert p == p[..|p| - 1] + "\r";
      }
    }
    if '\t' in s {
      var i :| 0 <= i < |parts| && '\t' in parts[i];
      assert '\t' in lines[i];
    }
  }

  lemma {:induction false} TabInJoin(xs: seq<string>, sep: string)
    requires '\t' !in sep
    ensures '\t' in Join(xs, sep) <==> exists i :: 0 <= i < |xs| && '\t' in xs[i]
  {
    if |xs| > 1 {
      TabInJoin(xs[1..], sep);
      assert Join(xs, sep) == xs[0] + sep + Join(xs[1..], sep);
      forall i | 1 <= i < |xs| ensures xs[i] == xs[1..][i - 1] {}
      if '\t' in Join(xs[1..], sep) {
        var j :| 0 <= j < |xs[1..]| && '\t' in xs[1..][j];
        assert '\t' in xs[j + 1];
      }
    }
  }
}
