// The API registry UI's multi-select dropdown: the options offered are those
// not yet selected; clicking one toggles it, the chip's cross removes it.
module MultiSelectDropdown {

  /** `xs.filter(s => s !== o)`. */
  function Without(xs: seq<string>, o: string): (r: seq<string>)
    ensures |r| <= |xs|
    ensures forall x :: x in r <==> x in xs && x != o
  {
    if xs == [] then []
    else (if xs[0] != o then [xs[0]] else []) + Without(xs[1..], o)
  }

  /** `options.filter(option => !selected.includes(option))`. */
  function FilteredOptions(options: seq<string>, selected: seq<string>): (r: seq<string>)
    ensures forall x :: x in r <==> x in options && x !in selected
  {
    if options == [] then []
    else (if options[0] !in selected then [options[0]] else []) + FilteredOptions(options[1..], selected)
  }

  /** `toggleOption`: the new selection handed to `onChange`. */
  function Toggle(selected: seq<string>, o: string): (r: seq<string>)
  {
    if o in selected then Without(selected, o) else selected + [o]
  }

  /** `removeSelected`. */
  function RemoveSelected(selected: seq<string>, o: string): (r: seq<string>)
  {
    Without(selected, o)
  }

  // ---------------------------------------------------------------- properties

  lemma {:induction false} WithoutAbsent(xs: seq<string>, o: string)
    requires o !in xs
    ensures Without(xs, o) == xs
  {
    if xs != [] {
      WithoutAbsent(xs[1..], o);
      assert [xs[0]] + xs[1..] == xs;
    }
  }

  lemma {:induction false} WithoutAppend(xs: seq<string>, ys: seq<string>, o: string)
    ensures Without(xs + ys, o) == Without(xs, o) + Without(ys, o)
  {
    if xs == [] {
      assert xs + ys == ys;
    } else {
      assert (xs + ys)[1..] == xs[1..] + ys;
      WithoutAppend(xs[1..], ys, o);
    }
  }

  /** With none of the options selected, all of them are offered, in their
    * order. */
  lemma {:induction false} FilteredKeepsOrder(options: seq<string>, selected: seq<string>)
    requires forall i :: 0 <= i < |options| ==> options[i] !in selected
    ensures FilteredOptions(options, selected) == options
  {
    if options != [] {
      FilteredKeepsOrder(options[1..], selected);
      assert [options[0]] + options[1..] == options;
    }
  }

  /** The filter works option by option: an option is kept or dropped on its
    * own, and the filter of a concatenation is the concatenation of the
    * filters, so the kept options stay in their original order and keep
    * every repeat. */
  lemma {:induction false} FilteredOrder(a: seq<string>, b: seq<string>, selected: seq<string>)
    ensures FilteredOptions(a + b, selected) == FilteredOptions(a, selected) + FilteredOptions(b, selected)
    ensures forall x :: FilteredOptions([x], selected) == if x in selected then [] else [x]
  {
    FilteredAppend(a, b, selected);
    forall x ensures FilteredOptions([x], selected) == if x in selected then [] else [x] {
      assert [x][1..] == [];
    }
  }

  lemma {:induction false} FilteredAppend(a: seq<string>, b: seq<string>, selected: seq<string>)
    ensures FilteredOptions(a + b, selected) == FilteredOptions(a, selected) + FilteredOptions(b, selected)
  {
    if a == [] {
      assert a + b == b;
    } else {
      var head := if a[0] !in selected then [a[0]] else [];
      calc {
        FilteredOptions(a + b, selected);
      == { assert (a + b)[0] == a[0] && (a + b)[1..] == a[1..] + b; }
        head + FilteredOptions(a[1..] + b, selected);
      == { FilteredAppend(a[1..], b, selected); }
        head + (FilteredOptions(a[1..], selected) + FilteredOptions(b, selected));
      ==
        (head + FilteredOptions(a[1..], selected)) + FilteredOptions(b, selected);
      }
    }
  }

  /** An absent option is appended at the end; a present one is removed,
    * every copy of it, and no other option. Removing is toggling off. */
  lemma ToggleRules(selected: seq<string>, o: string)
    ensures o !in selected ==> Toggle(selected, o) == selected + [o]
    ensures o in selected ==> (o !in Toggle(selected, o)
      && (forall x :: x in Toggle(selected, o) <==> x in selected && x != o))
    ensures RemoveSelected(selected, o) == (if o in selected then Toggle(selected, o) else selected)
  {
    if o !in selected {
      WithoutAbsent(selected, o);
    }
  }

  /** Toggling an unselected option twice gives the selection back. */
  lemma ToggleTwice(selected: seq<string>, o: string)
    requires o !in selected
    ensures Toggle(Toggle(selected, o), o) == selected
  {
    WithoutAppend(selected, [o], o);
    WithoutAbsent(selected, o);
    assert Without([o], o) == [];
  }

  /** Removing is idempotent. */
  lemma RemoveTwice(selected: seq<string>, o: string)
    ensures RemoveSelected(RemoveSelected(selected, o), o) == RemoveSelected(selected, o)
  {
    WithoutAbsent(Without(selected, o), o);
  }
}
