// The API registry's discovery service: the page request and filters of the
// public listing, the sort parameter, and the tag/domain/owner suggestion
// queries. The store itself is left abstract: the model computes what is
// asked of it.
module ApiDiscovery {
  import opened Wrappers
  import opened Strings

  const DEFAULT_PAGE_SIZE: int := 20
  const MAX_PAGE_SIZE: int := 200
  const DEFAULT_SORT: string := "updatedAt"
  const PUBLISHED: string := "PUBLISHED"
  const ASC_TEXT: string := "asc"
  const DESC_TEXT: string := "desc"

  datatype Direction = Asc | Desc

  datatype Sort = Sort(property: string, direction: Direction)

  /** One condition of the listing's JPA specification. */
  datatype Condition =
    | OwnerIs(owner: string)
    | CreatedByProviderIs(provider: int)
    | IsActive
    | StatusIs(status: string)

  datatype SliceQuery = SliceQuery(page: int, size: int, sort: Sort, conditions: seq<Condition>)

  /** A null or negative page number asks for the first page. */
  function ClampPage(page: Option<int>): (p: int)
    ensures p >= 0
    ensures page.Some? && page.value >= 0 ==> p == page.value
    ensures page.None? || page.value < 0 ==> p == 0
  {
    if page.None? || page.value < 0 then 0 else page.value
  }

  /** A missing size or one outside 1..200 becomes 20. */
  function ClampSize(size: Option<int>): (s: int)
    ensures 1 <= s <= MAX_PAGE_SIZE
    ensures size.Some? && 1 <= size.value <= MAX_PAGE_SIZE ==> s == size.value
    ensures size.None? || size.value < 1 || size.value > MAX_PAGE_SIZE ==> s == DEFAULT_PAGE_SIZE
  {
    if size.None? || size.value <= 0 || size.value > MAX_PAGE_SIZE then DEFAULT_PAGE_SIZE else size.value
  }

  /** `parseSort`: "property,direction", with (updatedAt, DESC) filling in
    * whatever is missing or blank. Only "asc" (any case, any surrounding
    * white space) selects ascending order. */
  function ParseSort(sort: Option<string>): (r: Sort)
  {
    if sort.None? || JavaIsBlank(sort.value) then Sort(DEFAULT_SORT, Desc)
    else
      var parts := JavaSplit(sort.value, ',');
      var property := if |parts| >= 1 && !JavaIsBlank(parts[0]) then JavaTrim(parts[0]) else DEFAULT_SORT;
      var direction :=
        if |parts| >= 2 then
          var dir := ToLower(JavaTrim(parts[1]));
          if dir == ASC_TEXT then Asc else Desc
        else Desc;
      Sort(property, direction)
  }

  /** `listApisSlice`: the page request and the conditions every listed
    * entry has to meet. */
  function SliceRequest(page: Option<int>, size: Option<int>, sort: Option<string>,
                        owner: Option<string>, createdByProvider: Option<int>): SliceQuery
  {
    var ownerCond := if owner.Some? && !JavaIsBlank(owner.value) then [OwnerIs(owner.value)] else [];
    var providerCond := if createdByProvider.Some? then [CreatedByProviderIs(createdByProvider.value)] else [];
    SliceQuery(ClampPage(page), ClampSize(size), ParseSort(sort),
               ownerCond + providerCond + [IsActive, StatusIs(PUBLISHED)])
  }

  /** The columns a condition looks at. */
  datatype Row = Row(owner: Option<string>, createdByProvider: Option<int>, isActive: bool,
                     status: Option<string>)

  predicate Holds(c: Condition, row: Row)
  {
    match c
    case OwnerIs(o) => row.owner == Some(o)
    case CreatedByProviderIs(p) => row.createdByProvider == Some(p)
    case IsActive => row.isActive
    case StatusIs(s) => row.status == Some(s)
  }

  predicate Matches(q: SliceQuery, row: Row)
  {
    forall i :: 0 <= i < |q.conditions| ==> Holds(q.conditions[i], row)
  }

  // ---------------------------------------------------------------- properties

  lemma DefaultSort(sort: Option<string>)
    requires sort.None? || JavaIsBlank(sort.value)
    ensures ParseSort(sort) == Sort(DEFAULT_SORT, Desc)
  {
  }

  /** The direction is ascending exactly when a second part reads "asc"
    * after trimming and lower-casing; the property is the trimmed first
    * part when that is not blank, and updatedAt otherwise. */
  lemma SortRules(sort: string)
    requires !JavaIsBlank(sort)
    ensures var parts := JavaSplit(sort, ',');
      && (ParseSort(Some(sort)).direction == Asc
          <==> |parts| >= 2 && ToLower(JavaTrim(parts[1])) == ASC_TEXT)
      && (|parts| >= 1 && !JavaIsBlank(parts[0]) ==> ParseSort(Some(sort)).property == JavaTrim(parts[0]))
      && (|parts| == 0 || JavaIsBlank(parts[0]) ==> ParseSort(Some(sort)).property == DEFAULT_SORT)
  {
  }

  function DirectionText(d: Direction): string
  {
    if d == Asc then ASC_TEXT else DESC_TEXT
  }

  /** A sort written as "property,asc" or "property,desc" is read back as
    * itself, for a property that is trimmed, not blank and comma-free. */
  lemma SortRoundTrip(s: Sort)
    requires !JavaIsBlank(s.property) && ',' !in s.property
    requires IsTrimmed(s.property, IsJavaTrimmable)
    ensures ParseSort(Some(s.property + "," + DirectionText(s.direction))) == s
  {
    var d := DirectionText(s.direction);
    var text := s.property + "," + d;
    JavaSplitPair(s.property, d, ',');
    TrimOfTrimmed(s.property, IsJavaTrimmable);
    DirectionRoundTrip(s.direction);
    assert !JavaIsBlank(text) by {
      assert !IsJavaWhitespace(text[|text| - 1]);
    }
    ParseTwoParts(text, s.property, d);
  }

  /** A direction's text reads back as that direction. */
  lemma DirectionRoundTrip(dir: Direction)
    ensures JavaTrim(DirectionText(dir)) == DirectionText(dir)
    ensures ToLower(DirectionText(dir)) == ASC_TEXT <==> dir == Asc
  {
    var d := DirectionText(dir);
    TrimOfTrimmed(d, IsJavaTrimmable);
    assert ToLower(d) == d;
  }

  /** A sort text of two parts, the first not blank. */
  lemma ParseTwoParts(text: string, a: string, b: string)
    requires !JavaIsBlank(text) && !JavaIsBlank(a)
    requires JavaSplit(text, ',') == [a, b]
    ensures ParseSort(Some(text)) == Sort(JavaTrim(a), if ToLower(JavaTrim(b)) == ASC_TEXT then Asc else Desc)
  {
  }

  /** Whatever the caller asks, every listed entry is active and PUBLISHED,
    * and an owner or provider filter, when given, holds for it. */
  lemma ListedArePublished(page: Option<int>, size: Option<int>, sort: Option<string>,
                           owner: Option<string>, createdByProvider: Option<int>, row: Row)
    requires Matches(SliceRequest(page, size, sort, owner, createdByProvider), row)
    ensures row.isActive && row.status == Some(PUBLISHED)
    ensures owner.Some? && !JavaIsBlank(owner.value) ==> row.owner == owner
    ensures createdByProvider.Some? ==> row.createdByProvider == createdByProvider
  {
    var q := SliceRequest(page, size, sort, owner, createdByProvider);
    var n := |q.conditions|;
    assert Holds(q.conditions[n - 1], row) && Holds(q.conditions[n - 2], row);
    if owner.Some? && !JavaIsBlank(owner.value) {
      assert Holds(q.conditions[0], row);
    }
    if createdByProvider.Some? {
      var k := if owner.Some? && !JavaIsBlank(owner.value) then 1 else 0;
      assert Holds(q.conditions[k], row);
    }
  }

  /** An unfiltered listing still requires an active, published entry and
    * nothing more. */
  lemma UnfilteredConditions(page: Option<int>, size: Option<int>, sort: Option<string>)
    ensures SliceRequest(page, size, sort, None, None).conditions == [IsActive, StatusIs(PUBLISHED)]
  {
  }

  // ---------------------------------------------------------------- suggestions

  /** The query behind `getAvailableTags` / `Domains` / `Owners`: the first
    * `limit` distinct values, matched against the trimmed search text when
    * there is one. */
  datatype ValuesQuery = AllValues(limit: int) | ValuesMatching(search: string, limit: int)

  /** Spring's `PageRequest.of` refuses a page size below one. */
  const PAGE_SIZE_TOO_SMALL: string := "Page size must not be less than one"

  /** A limit below one makes `PageRequest.of(0, limit)` throw before any
    * query is made; otherwise the search-specific query is chosen by the
    * trimmed search text. */
  function AvailableQuery(search: Option<string>, limit: int): (r: Result<ValuesQuery>)
    ensures limit < 1 <==> r == Err(IllegalArgument(PAGE_SIZE_TOO_SMALL))
    ensures r.Ok? ==> r.value.limit == limit
    ensures r.Ok? ==> (r.value.ValuesMatching? <==> search.Some? && JavaTrim(search.value) != "")
    ensures r.Ok? && r.value.ValuesMatching? ==> r.value.search == JavaTrim(search.value) && r.value.search != ""
  {
    if limit < 1 then Err(IllegalArgument(PAGE_SIZE_TOO_SMALL))
    else if search.Some? && JavaTrim(search.value) != "" then Ok(ValuesMatching(JavaTrim(search.value), limit))
    else Ok(AllValues(limit))
  }

  /** Surrounding white space does not change the query. */
  lemma AvailableQueryTrims(search: string, limit: int)
    ensures AvailableQuery(Some(JavaTrim(search)), limit) == AvailableQuery(Some(search), limit)
  {
    TrimIsTrimmed(search, IsJavaTrimmable);
    TrimOfTrimmed(JavaTrim(search), IsJavaTrimmable);
  }
}
