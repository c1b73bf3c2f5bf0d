// The API registry UI's query-string hook: the listing filters read from the
// URL, and the updater that applies a patch to the current query, deleting
// the keys a patch empties and setting the others, and that leaves the URL
// alone when nothing changes. The URL's own text encoding is a parameter.
module QueryParams {
  import opened Wrappers
  import opened Strings

  /** One `name=value` pair of a `URLSearchParams`, in order. */
  datatype Param = Param(key: string, value: string)

  type Query = seq<Param>

  /** `get(k)`: the first value under `k`. */
  function Get(q: Query, k: string): Option<string>
  {
    if q == [] then None else if q[0].key == k then Some(q[0].value) else Get(q[1..], k)
  }

  /** The values under `k`, in order. */
  function Only(q: Query, k: string): seq<string>
  {
    if q == [] then [] else (if q[0].key == k then [q[0].value] else []) + Only(q[1..], k)
  }

  /** `delete(k)`: every pair under `k` goes. */
  function Delete(q: Query, k: string): Query
  {
    if q == [] then [] else (if q[0].key == k then [] else [q[0]]) + Delete(q[1..], k)
  }

  /** `set(k, v)`: the first pair under `k` takes the value and later ones
    * go; without one, the pair is appended. */
  function SetParam(q: Query, k: string, v: string): Query
  {
    if q == [] then [Param(k, v)]
    else if q[0].key == k then [Param(k, v)] + Delete(q[1..], k)
    else [q[0]] + SetParam(q[1..], k, v)
  }

  /** What a patch entry can hold. */
  datatype PatchValue = Undefined | Text(s: string) | List(xs: seq<string>) | Number(n: int)

  datatype Entry = Entry(key: string, value: PatchValue)

  /** undefined, '' and the empty array delete their key. */
  predicate Deletes(v: PatchValue)
  {
    v.Undefined? || v == Text("") || v == List([])
  }

  /** The text `set` receives: a list joined with ',', a number printed. */
  function TextOf(v: PatchValue): string
  {
    match v
    case Undefined => ""
    case Text(s) => s
    case List(xs) => Join(xs, ",")
    case Number(n) => IntToString(n)
  }

  function Apply(q: Query, e: Entry): Query
  {
    if Deletes(e.value) then Delete(q, e.key) else SetParam(q, e.key, TextOf(e.value))
  }

  /** The query after the patch's entries, applied in order. */
  function ApplyPatch(q: Query, patch: seq<Entry>): Query
  {
    if patch == [] then q else Apply(ApplyPatch(q, patch[..|patch| - 1]), patch[|patch| - 1])
  }

  /** `location.search.slice(1)`: the search without its '?'. */
  function SearchText(search: string): string
  {
    if |search| >= 1 then search[1..] else ""
  }

  /** `update(patch)`: the new query, and whether `setParams` is called,
    * which it is only when the serialised query differs from the URL's. */
  method Update(current: Query, search: string, patch: seq<Entry>, serialize: Query -> string)
    returns (next: Query, replace: bool)
    ensures next == ApplyPatch(current, patch)
    ensures replace <==> serialize(next) != SearchText(search)
  {
    next := current;
    var i := 0;
    while i < |patch|
      invariant 0 <= i <= |patch|
      invariant next == ApplyPatch(current, patch[..i])
    {
      assert patch[..i + 1][..i] == patch[..i];
      var e := patch[i];
      if e.value.Undefined? || e.value == List([]) || e.value == Text("") {
        next := Delete(next, e.key);
      } else if e.value.List? {
        next := SetParam(next, e.key, Join(e.value.xs, ","));
      } else if e.value.Number? {
        next := SetParam(next, e.key, IntToString(e.value.n));
      } else {
        next := SetParam(next, e.key, e.value.s);
      }
      i := i + 1;
    }
    assert patch[..|patch|] == patch;
    replace := serialize(next) != SearchText(search);
  }

  // ---------------------------------------------------------------- reading

  /** JavaScript `Number(text)` on integer text: surrounding white space is
    * ignored, blank text is 0, an optional sign and decimal digits give
    * their value; `None` stands for NaN. */
  function JsNumber(text: string): Option<int>
  {
    var t := JsTrim(text);
    if t == "" then Some(0)
    else
      var digits := if t[0] == '-' || t[0] == '+' then t[1..] else t;
      if digits == "" || !All(digits, IsDigit) then None
      else
        var n: int := DigitsValue(digits);
        Some(if t[0] == '-' then -n else n)
  }

  /** `get(k)?.split(',').filter(Boolean) || []`. */
  function ListParam(v: Option<string>): seq<string>
  {
    if v.None? then [] else NonEmpty(Split(v.value, ','))
  }

  datatype Filters = Filters(q: string, tags: seq<string>, domains: seq<string>, owners: seq<string>,
                             page: Option<int>)

  /** `Number(get('page') || '0')`. */
  function PageOf(v: Option<string>): Option<int>
  {
    JsNumber(if v.None? || v == Some("") then "0" else v.value)
  }

  /** The filters the hook reads from the query. */
  function Read(q: Query): Filters
  {
    Filters(Get(q, "q").GetOr(""), ListParam(Get(q, "tags")), ListParam(Get(q, "domains")),
            ListParam(Get(q, "owners")), PageOf(Get(q, "page")))
  }

  // ---------------------------------------------------------------- properties

  lemma {:induction false} DeleteRules(q: Query, k: string, j: string)
    ensures Get(Delete(q, k), k).None? && Only(Delete(q, k), k) == []
    ensures j != k ==> Get(Delete(q, k), j) == Get(q, j) && Only(Delete(q, k), j) == Only(q, j)
    decreases |q|
  {
    if q != [] {
      DeleteRules(q[1..], k, j);
      var rest := Delete(q[1..], k);
      if q[0].key == k {
        assert Delete(q, k) == rest;
      } else {
        assert Delete(q, k)[1..] == rest;
      }
    }
  }

  /** After `set(k, v)` the key holds exactly `v`, and every other key keeps
    * its values. */
  lemma {:induction false} SetRules(q: Query, k: string, v: string, j: string)
    ensures Get(SetParam(q, k, v), k) == Some(v) && Only(SetParam(q, k, v), k) == [v]
    ensures j != k ==> Get(SetParam(q, k, v), j) == Get(q, j) && Only(SetParam(q, k, v), j) == Only(q, j)
    decreases |q|
  {
    if q != [] {
      if q[0].key == k {
        DeleteRules(q[1..], k, j);
        assert SetParam(q, k, v)[1..] == Delete(q[1..], k);
      } else {
        SetRules(q[1..], k, v, j);
        assert SetParam(q, k, v)[1..] == SetParam(q[1..], k, v);
      }
    }
  }

  predicate InPatch(patch: seq<Entry>, k: string)
  {
    exists i :: 0 <= i < |patch| && patch[i].key == k
  }

  /** A key the patch does not name keeps all its values. */
  lemma {:induction false} UntouchedKeys(q: Query, patch: seq<Entry>, k: string)
    requires !InPatch(patch, k)
    ensures Only(ApplyPatch(q, patch), k) == Only(q, k)
    ensures Get(ApplyPatch(q, patch), k) == Get(q, k)
    decreases |patch|
  {
    if patch != [] {
      var init := patch[..|patch| - 1];
      var e := patch[|patch| - 1];
      assert !InPatch(init, k) by {
        forall i | 0 <= i < |init| ensures init[i].key != k { assert init[i] == patch[i]; }
      }
      UntouchedKeys(q, init, k);
      DeleteRules(ApplyPatch(q, init), e.key, k);
      SetRules(ApplyPatch(q, init), e.key, TextOf(e.value), k);
    }
  }

  predicate DistinctKeys(patch: seq<Entry>)
  {
    forall i, j :: 0 <= i < j < |patch| ==> patch[i].key != patch[j].key
  }

  /** A named key ends up deleted when its value is empty, and holding the
    * value's text alone otherwise (the keys of an object are distinct). */
  lemma {:induction false} PatchedKeys(q: Query, patch: seq<Entry>, i: int)
    requires DistinctKeys(patch) && 0 <= i < |patch|
    ensures var r := ApplyPatch(q, patch);
      if Deletes(patch[i].value) then Get(r, patch[i].key).None? && Only(r, patch[i].key) == []
      else Get(r, patch[i].key) == Some(TextOf(patch[i].value)) && Only(r, patch[i].key) == [TextOf(patch[i].value)]
    decreases |patch|
  {
    var init := patch[..|patch| - 1];
    var e := patch[|patch| - 1];
    var k := patch[i].key;
    DeleteRules(ApplyPatch(q, init), e.key, k);
    SetRules(ApplyPatch(q, init), e.key, TextOf(e.value), k);
    if i < |patch| - 1 {
      assert init[i] == patch[i];
      PatchedKeys(q, init, i);
    }
  }

  /** A list of non-empty, comma-free values written by a patch reads back
    * unchanged, the empty list included. */
  lemma ListRoundTrip(q: Query, k: string, xs: seq<string>)
    requires forall i :: 0 <= i < |xs| ==> xs[i] != "" && ',' !in xs[i]
    ensures ListParam(Get(ApplyPatch(q, [Entry(k, List(xs))]), k)) == xs
  {
    assert [Entry(k, List(xs))][..0] == [];
    if xs == [] {
      DeleteRules(q, k, k);
    } else {
      SetRules(q, k, Join(xs, ","), k);
      SplitJoin(xs, ',');
      NonEmptyOfNonEmpty(xs);
    }
  }

  /** A page number written by a patch reads back as itself. */
  lemma PageRoundTrip(q: Query, n: int)
    ensures PageOf(Get(ApplyPatch(q, [Entry("page", Number(n))]), "page")) == Some(n)
  {
    var t := IntToString(n);
    OneEntry(q, Entry("page", Number(n)));
    assert !Deletes(Number(n)) && TextOf(Number(n)) == t;
    SetRules(q, "page", t, "page");
    NumberOfPrinted(n);
    assert Get(ApplyPatch(q, [Entry("page", Number(n))]), "page") == Some(t);
  }

  lemma OneEntry(q: Query, e: Entry)
    ensures ApplyPatch(q, [e]) == Apply(q, e)
  {
    assert [e][..0] == [];
  }

  lemma NumberOfPrinted(n: int)
    ensures IntToString(n) != "" && JsNumber(IntToString(n)) == Some(n)
  {
    var t := IntToString(n);
    var d := NatToString(if n < 0 then -n else n);
    assert IsDigit(d[0]) && IsDigit(d[|d| - 1]);
    assert IsTrimmed(t, IsJsSpace);
    TrimOfTrimmed(t, IsJsSpace);
    if n < 0 {
      assert t[1..] == d;
    }
  }

  /** A missing or empty value reads as no text, no list and page 0. */
  lemma Defaults(v: Option<string>)
    requires v.None? || v == Some("")
    ensures v.GetOr("") == "" && ListParam(v) == [] && PageOf(v) == Some(0)
  {
    assert JsTrim("0") == "0" by { TrimOfTrimmed("0", IsJsSpace); }
    assert DigitsValue("0") == 0;
  }

  /** The patch that writes every filter, in the hook's key order. */
  function PatchOf(f: Filters, page: int): seq<Entry>
  {
    [Entry("q", Text(f.q)), Entry("tags", List(f.tags)), Entry("domains", List(f.domains)),
     Entry("owners", List(f.owners)), Entry("page", Number(page))]
  }

  predicate Listable(xs: seq<string>)
  {
    forall i :: 0 <= i < |xs| ==> xs[i] != "" && ',' !in xs[i]
  }

  /** A list written by a patch whose keys are distinct reads back as itself. */
  lemma ListEntryReads(q: Query, patch: seq<Entry>, i: int)
    requires DistinctKeys(patch) && 0 <= i < |patch| && patch[i].value.List?
    requires Listable(patch[i].value.xs)
    ensures ListParam(Get(ApplyPatch(q, patch), patch[i].key)) == patch[i].value.xs
  {
    PatchedKeys(q, patch, i);
    var xs := patch[i].value.xs;
    if xs != [] {
      SplitJoin(xs, ',');
      NonEmptyOfNonEmpty(xs);
    }
  }

  /** Reading inverts writing: after a patch sets the search text, the three
    * lists of non-empty comma-free names and the page, the hook reads those
    * very filters back, whatever the query held before. */
  lemma FiltersRoundTrip(q: Query, f: Filters, page: int)
    requires Listable(f.tags) && Listable(f.domains) && Listable(f.owners)
    ensures Read(ApplyPatch(q, PatchOf(f, page))) == f.(page := Some(page))
  {
    var patch := PatchOf(f, page);
    var r := ApplyPatch(q, patch);
    assert DistinctKeys(patch) by {
      assert |"q"| == 1 && |"tags"| == 4 && |"domains"| == 7 && |"owners"| == 6 && |"page"| == 4;
      assert "tags"[0] != "page"[0];
    }
    PatchedKeys(q, patch, 0);
    assert Get(r, "q").GetOr("") == f.q;
    ListEntryReads(q, patch, 1);
    ListEntryReads(q, patch, 2);
    ListEntryReads(q, patch, 3);
    PatchedKeys(q, patch, 4);
    NumberOfPrinted(page);
  }
}
