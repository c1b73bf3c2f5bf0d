// The provider registry UI's tag/domain input: a comma-separated value shown
// as chips, a text box with suggestions, and keys to pick, add and remove
// entries. React state and the parent's `value` are modelled as one record
// that each handler maps to its successor.
module AutocompleteInput {
  import opened Wrappers
  import opened Strings

  datatype Field = Field(
    value: string,              // the parent's comma-separated value
    input: string,              // the text box
    suggestions: seq<string>,
    showSuggestions: bool,
    selectedIndex: int)

  /** The chips: the trimmed, non-empty comma-separated parts of the value. */
  function Values(value: string): seq<string>
  {
    if value == "" then [] else CsvValues(value)
  }

  /** Whether some chip equals `x` ignoring case. */
  predicate Selected(values: seq<string>, x: string)
  {
    exists i :: 0 <= i < |values| && ToLower(values[i]) == ToLower(x)
  }

  /** The search results offered: those not already a chip, in order. */
  function Unselected(results: seq<string>, values: seq<string>): (r: seq<string>)
    ensures forall x :: x in r <==> x in results && !Selected(values, x)
  {
    if results == [] then []
    else (if !Selected(values, results[0]) then [results[0]] else []) + Unselected(results[1..], values)
  }

  /** The search effect: a non-blank input shows the unselected results; a
    * blank one, or a failed search (`None`), shows nothing. */
  function SearchResults(f: Field, results: Option<seq<string>>): (r: Field)
    ensures r.value == f.value && r.input == f.input && r.selectedIndex == f.selectedIndex
  {
    if JsTrim(f.input) == "" || results.None? then f.(suggestions := [], showSuggestions := false)
    else
      var filtered := Unselected(results.value, Values(f.value));
      f.(suggestions := filtered, showSuggestions := |filtered| > 0)
  }

  /** `addValue`: a blank value does nothing; otherwise the trimmed value is
    * appended unless a chip already has it, and the text box is reset. */
  function AddValue(f: Field, x: string): (r: Field)
  {
    if JsTrim(x) == "" then f
    else
      var t := JsTrim(x);
      var values := Values(f.value);
      f.(value := if Selected(values, t) then f.value else Join(values + [t], ", "),
         input := "", showSuggestions := false, selectedIndex := -1)
  }

  /** `removeValue`: the chips without the one at index i, re-joined. */
  function RemoveValue(f: Field, i: int): (r: Field)
  {
    var values := Values(f.value);
    f.(value := Join(if 0 <= i < |values| then values[..i] + values[i + 1..] else values, ", "))
  }

  datatype Key = Enter | ArrowDown | ArrowUp | Escape | Backspace | Comma | Tab | Other

  /** `handleKeyDown`. */
  function KeyDown(f: Field, key: Key): (r: Field)
  {
    match key
    case Enter =>
      if 0 <= f.selectedIndex < |f.suggestions| && f.suggestions[f.selectedIndex] != "" then
        AddValue(f, f.suggestions[f.selectedIndex])
      else if JsTrim(f.input) != "" then AddValue(f, JsTrim(f.input))
      else f
    case ArrowDown =>
      f.(selectedIndex := if f.selectedIndex + 1 < |f.suggestions| - 1 then f.selectedIndex + 1 else |f.suggestions| - 1)
    case ArrowUp =>
      f.(selectedIndex := if f.selectedIndex - 1 > -1 then f.selectedIndex - 1 else -1)
    case Escape => f.(showSuggestions := false, selectedIndex := -1)
    case Backspace =>
      if f.input == "" && |Values(f.value)| > 0 then RemoveValue(f, |Values(f.value)| - 1) else f
    case Comma | Tab =>
      if JsTrim(f.input) != "" then AddValue(f, JsTrim(f.input)) else f
    case Other => f
  }

  // ---------------------------------------------------------------- properties

  /** Every chip is non-empty, trimmed and comma-free. */
  lemma ValuesWellFormed(value: string)
    ensures forall i :: 0 <= i < |Values(value)| ==> IsCsvValue(Values(value)[i])
  {
    if value != "" {
      CsvValuesWellFormed(value);
    }
  }

  /** A well-formed chip list written as the value reads back as itself. */
  lemma ValuesOfJoin(xs: seq<string>)
    requires forall i :: 0 <= i < |xs| ==> IsCsvValue(xs[i])
    ensures Values(Join(xs, ", ")) == xs
  {
    CsvRoundTrip(xs);
    if xs != [] {
      assert Join(xs, ", ") != "" by {
        assert xs[0] != "";
        JoinHead(xs, ", ");
      }
    }
  }

  lemma {:induction false} JoinHead(xs: seq<string>, sep: string)
    requires xs != []
    ensures |Join(xs, sep)| >= |xs[0]|
  {
    if |xs| > 1 {
      assert Join(xs, sep) == xs[0] + sep + Join(xs[1..], sep);
    }
  }

  /** A blank value changes nothing. */
  lemma AddBlank(f: Field, x: string)
    requires JsTrim(x) == ""
    ensures AddValue(f, x) == f
  {
  }

  /** A new value (trimmed, comma-free, no chip equal to it ignoring case)
    * becomes the last chip; one a chip already has leaves the value as it
    * is. Either way the text box is emptied and the selection reset. */
  lemma AddRules(f: Field, x: string)
    requires JsTrim(x) != "" && ',' !in x
    ensures var r := AddValue(f, x);
      && r.input == "" && r.selectedIndex == -1 && !r.showSuggestions
      && (Selected(Values(f.value), JsTrim(x)) ==> r.value == f.value)
      && (!Selected(Values(f.value), JsTrim(x)) ==> Values(r.value) == Values(f.value) + [JsTrim(x)])
  {
    var t := JsTrim(x);
    var values := Values(f.value);
    ValuesWellFormed(f.value);
    TrimSubstring(x, IsJsSpace, ',');
    TrimIsTrimmed(x, IsJsSpace);
    assert IsCsvValue(t);
    ValuesOfJoin(values + [t]);
  }

  /** Removing index i removes that chip and no other. */
  lemma RemoveExactly(f: Field, i: int)
    requires 0 <= i < |Values(f.value)|
    ensures Values(RemoveValue(f, i).value) == Values(f.value)[..i] + Values(f.value)[i + 1..]
  {
    var values := Values(f.value);
    ValuesWellFormed(f.value);
    var rest := values[..i] + values[i + 1..];
    RemovedWellFormed(values, i, rest);
    assert RemoveValue(f, i).value == Join(rest, ", ");
    ValuesOfJoin(rest);
  }

  /** Dropping one entry of a well-formed chip list leaves it well-formed. */
  lemma RemovedWellFormed(values: seq<string>, i: int, rest: seq<string>)
    requires 0 <= i < |values| && rest == values[..i] + values[i + 1..]
    requires forall k :: 0 <= k < |values| ==> IsCsvValue(values[k])
    ensures forall k :: 0 <= k < |rest| ==> IsCsvValue(rest[k])
  {
    forall k | 0 <= k < |rest| ensures IsCsvValue(rest[k]) {
      if k < i {
        assert rest[k] == values[k];
      } else {
        assert rest[k] == values[k + 1];
      }
    }
  }

  /** Backspace in an empty text box drops the last chip. */
  lemma BackspaceDropsLast(f: Field)
    requires f.input == "" && |Values(f.value)| > 0
    ensures Values(KeyDown(f, Backspace).value) == Values(f.value)[..|Values(f.value)| - 1]
  {
    var n := |Values(f.value)|;
    RemoveExactly(f, n - 1);
    assert Values(f.value)[n..] == [];
  }

  /** A result list with no chip in it is offered whole and in order. */
  lemma {:induction false} UnselectedKeepsOrder(results: seq<string>, values: seq<string>)
    requires forall i :: 0 <= i < |results| ==> !Selected(values, results[i])
    ensures Unselected(results, values) == results
  {
    if results != [] {
      UnselectedKeepsOrder(results[1..], values);
      assert [results[0]] + results[1..] == results;
    }
  }

  /** The filter works result by result: each is kept or dropped on its
    * own, and the filter of a concatenation is the concatenation of the
    * filters, so the offered suggestions keep their order and repeats. */
  lemma {:induction false} UnselectedOrder(a: seq<string>, b: seq<string>, values: seq<string>)
    ensures Unselected(a + b, values) == Unselected(a, values) + Unselected(b, values)
    ensures forall x :: Unselected([x], values) == if Selected(values, x) then [] else [x]
  {
    UnselectedAppend(a, b, values);
    forall x ensures Unselected([x], values) == if Selected(values, x) then [] else [x] {
      assert [x][1..] == [];
    }
  }

  lemma {:induction false} UnselectedAppend(a: seq<string>, b: seq<string>, values: seq<string>)
    ensures Unselected(a + b, values) == Unselected(a, values) + Unselected(b, values)
  {
    if a == [] {
      assert a + b == b;
    } else {
      var head := if !Selected(values, a[0]) then [a[0]] else [];
      calc {
        Unselected(a + b, values);
      == { assert (a + b)[0] == a[0] && (a + b)[1..] == a[1..] + b; }
        head + Unselected(a[1..] + b, values);
      == { UnselectedAppend(a[1..], b, values); }
        head + (Unselected(a[1..], values) + Unselected(b, values));
      ==
        (head + Unselected(a[1..], values)) + Unselected(b, values);
      }
    }
  }

  /** The arrow keys keep the highlighted suggestion between -1 (none) and
    * the last suggestion; ArrowDown stops at the last, ArrowUp at none. */
  lemma ArrowsInRange(f: Field, key: Key)
    requires key == ArrowDown || key == ArrowUp
    requires -1 <= f.selectedIndex <= |f.suggestions| - 1
    ensures -1 <= KeyDown(f, key).selectedIndex <= |f.suggestions| - 1
    ensures key == ArrowDown ==> (KeyDown(f, key).selectedIndex ==
      if f.selectedIndex < |f.suggestions| - 1 then f.selectedIndex + 1 else f.selectedIndex)
    ensures key == ArrowUp ==> (KeyDown(f, key).selectedIndex ==
      if f.selectedIndex > -1 then f.selectedIndex - 1 else -1)
  {
  }

  /** Enter on a highlighted suggestion adds that suggestion. */
  lemma EnterPicksHighlighted(f: Field)
    requires 0 <= f.selectedIndex < |f.suggestions| && f.suggestions[f.selectedIndex] != ""
    ensures KeyDown(f, Enter) == AddValue(f, f.suggestions[f.selectedIndex])
  {
  }
}
