// The provider registry UI's API edit page: the YAML check of the OpenAPI
// text, the bold/italic/code buttons that wrap the selected description
// text, and the form that shows tags and domains as ", "-joined text and
// sends them back as lists.
module ApiEdit {
  import opened Wrappers
  import opened Strings
  import opened YamlLint

  const DEFAULT_VERSION: string := "1.0.0"
  const DRAFT: string := "DRAFT"

  /** The lint result as a reference definition. */
  function LintOf(yaml: Option<string>): Lint
  {
    if EmptySpec(yaml) then Lint(true, None, [EMPTY_SPEC])
    else
      var errors := Messages(TabLines(Lines(yaml.value)));
      Lint(|errors| == 0, Some(errors), [])
  }

  /** `lintYaml`. */
  method LintYaml(yaml: Option<string>) returns (r: Lint)
    ensures r == LintOf(yaml)
  {
    if yaml.None? || yaml.value == "" || JsTrim(yaml.value) == "" {
      return Lint(true, None, [EMPTY_SPEC]);
    }
    var lines := Lines(yaml.value);
    var errors := TabErrors(lines);
    r := Lint(|errors| == 0, Some(errors), []);
  }

  /** An empty spec passes with the single warning "Empty spec"; any other
    * spec passes exactly when it holds no tab, has no warning, and lists one
    * error per line with a tab, numbered from 1. */
  lemma LintRules(yaml: Option<string>)
    ensures EmptySpec(yaml) ==> LintOf(yaml) == Lint(true, None, [EMPTY_SPEC])
    ensures !EmptySpec(yaml) ==>
      (LintOf(yaml).ok <==> '\t' !in yaml.value)
      && LintOf(yaml).warnings == []
      && LintOf(yaml).errors == Some(Messages(TabLines(Lines(yaml.value))))
      && (LintOf(yaml).ok <==> LintOf(yaml).errors == Some([]))
  {
    if !EmptySpec(yaml) {
      NoTabNoError(yaml.value);
    }
  }

  // ---------------------------------------------------------------- formatting

  /** The description editor: its text and selection. The browser keeps
    * 0 <= selectionStart <= selectionEnd <= length. */
  datatype Editor = Editor(value: string, selectionStart: int, selectionEnd: int)

  predicate ValidEditor(el: Editor)
  {
    0 <= el.selectionStart <= el.selectionEnd <= |el.value|
  }

  /** The new description and the selection, moved past the left wrapper. */
  datatype Formatted = Formatted(text: string, selectionStart: int, selectionEnd: int)

  /** `applyFormatting(wrapL, wrapR = wrapL)`; nothing happens without the
    * editor element. */
  function ApplyFormatting(el: Option<Editor>, wrapL: string, wrapR: Option<string>): (r: Option<Formatted>)
    requires el.Some? ==> ValidEditor(el.value)
  {
    if el.None? then None
    else
      var e := el.value;
      var right := if wrapR.Some? then wrapR.value else wrapL;
      Some(Formatted(e.value[..e.selectionStart] + wrapL + e.value[e.selectionStart..e.selectionEnd]
                     + right + e.value[e.selectionEnd..],
                     e.selectionStart + |wrapL|, e.selectionEnd + |wrapL|))
  }

  /** The text before and after the selection is untouched, the wrappers
    * surround it, the new selection still covers the same text, and the
    * right wrapper defaults to the left one. */
  lemma FormattingRules(e: Editor, wrapL: string, wrapR: Option<string>)
    requires ValidEditor(e)
    ensures var f := ApplyFormatting(Some(e), wrapL, wrapR).value;
      var right := wrapR.GetOr(wrapL);
      var (s, t) := (e.selectionStart, e.selectionEnd);
      && |f.text| == |e.value| + |wrapL| + |right|
      && f.text[..s] == e.value[..s]
      && f.text[s..f.selectionStart] == wrapL
      && f.text[f.selectionStart..f.selectionEnd] == e.value[s..t]
      && f.text[f.selectionEnd..f.selectionEnd + |right|] == right
      && f.text[f.selectionEnd + |right|..] == e.value[t..]
  {
  }

  /** Taking the wrappers out again gives the original text. */
  lemma FormattingUndone(e: Editor, wrapL: string, wrapR: Option<string>)
    requires ValidEditor(e)
    ensures var f := ApplyFormatting(Some(e), wrapL, wrapR).value;
      var right := wrapR.GetOr(wrapL);
      f.text[..e.selectionStart] + f.text[f.selectionStart..f.selectionEnd] + f.text[f.selectionEnd + |right|..]
        == e.value
  {
    FormattingRules(e, wrapL, wrapR);
    var s, t := e.selectionStart, e.selectionEnd;
    assert e.value == e.value[..s] + e.value[s..t] + e.value[t..];
  }

  // ---------------------------------------------------------------- the form

  /** The API as the detail call returns it; any field may be missing. */
  datatype ApiData = ApiData(name: Option<string>, owner: Option<string>, description: Option<string>,
                             detailedDescription: Option<string>, basePath: Option<string>,
                             version: Option<string>, status: Option<string>, openApiSpec: Option<string>,
                             tags: Option<seq<string>>, domains: Option<seq<string>>)

  datatype Form = Form(name: string, owner: string, description: string, detailedDescription: string,
                       basePath: string, version: string, status: string, openApiSpec: string,
                       tags: string, domains: string)

  datatype Payload = Payload(name: string, owner: string, description: string, detailedDescription: string,
                             basePath: string, version: string, status: string, openApiSpec: string,
                             tags: seq<string>, domains: seq<string>)

  /** `v || d` on a string: a missing or empty value gives d. */
  function OrText(v: Option<string>, d: string): string
  {
    if v.Some? && v.value != "" then v.value else d
  }

  /** The form filled from a loaded API. */
  function Load(api: ApiData): Form
  {
    Form(OrText(api.name, ""), OrText(api.owner, ""), OrText(api.description, ""),
         OrText(api.detailedDescription, ""), OrText(api.basePath, ""),
         OrText(api.version, DEFAULT_VERSION), OrText(api.status, DRAFT), OrText(api.openApiSpec, ""),
         Join(api.tags.GetOr([]), ", "), Join(api.domains.GetOr([]), ", "))
  }

  /** The update request `handleSave` sends. */
  function Save(form: Form): Payload
  {
    Payload(form.name, form.owner, form.description, form.detailedDescription, form.basePath,
            form.version, form.status, form.openApiSpec, CsvValues(form.tags), CsvValues(form.domains))
  }

  /** Saved lists hold only trimmed, non-empty, comma-free entries. */
  lemma SavedListsClean(form: Form)
    ensures forall x :: x in Save(form).tags ==> IsCsvValue(x)
    ensures forall x :: x in Save(form).domains ==> IsCsvValue(x)
  {
    CsvValuesWellFormed(form.tags);
    CsvValuesWellFormed(form.domains);
  }

  /** Loading an API and saving it unchanged sends back its lists when their
    * entries are trimmed, non-empty and comma-free; missing text fields go
    * back empty and a missing version or status as the defaults. */
  lemma LoadSaveRoundTrip(api: ApiData)
    requires forall i :: 0 <= i < |api.tags.GetOr([])| ==> IsCsvValue(api.tags.GetOr([])[i])
    requires forall i :: 0 <= i < |api.domains.GetOr([])| ==> IsCsvValue(api.domains.GetOr([])[i])
    ensures Save(Load(api)).tags == api.tags.GetOr([])
    ensures Save(Load(api)).domains == api.domains.GetOr([])
    ensures Save(Load(api)).name == OrText(api.name, "")
    ensures Save(Load(api)).version == (if api.version.Some? && api.version.value != "" then api.version.value
                                        else DEFAULT_VERSION)
    ensures Save(Load(api)).status == (if api.status.Some? && api.status.value != "" then api.status.value
                                       else DRAFT)
  {
    CsvRoundTrip(api.tags.GetOr([]));
    CsvRoundTrip(api.domains.GetOr([]));
  }
}
