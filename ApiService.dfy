// The API registry UI's listing service: which discovery endpoint a listing
// request goes to, how the reply's page of API summaries and its totals are
// normalised (the public listing sends -1 for an unknown page count), and
// the empty page or fixed suggestions used when a request fails. The HTTP
// call is a parameter: the model starts from the reply body, or from `None`
// when the call threw.
module ApiService {
  import opened Wrappers
  import opened Strings
  import opened Json

  const SERVICE_PREFIX: string := "/cdb-api-registry"
  const SEARCH_PATH: string := SERVICE_PREFIX + "/api/v1/api-registry/discovery/search"
  const LIST_PATH: string := SERVICE_PREFIX + "/api/v1/api-registry/discovery/apis"
  const DEFAULT_SIZE: int := 20

  /** The arguments of `fetchApis`; every one may be left out. */
  datatype ListArgs = ListArgs(page: Option<int>, size: Option<int>, search: Option<string>,
                               tags: Option<seq<string>>, domains: Option<seq<string>>,
                               owners: Option<seq<string>>, sort: Option<string>,
                               createdByProvider: Value)

  /** The request sent: the search endpoint with the filters, or the listing
    * with sort, owners and provider. */
  datatype Request =
    | SearchRequest(query: Option<string>, tags: Option<seq<string>>, domains: Option<seq<string>>,
                    owners: Option<seq<string>>, page: int, size: int)
    | ListRequest(page: int, size: int, sort: Option<string>, owners: Option<seq<string>>,
                  createdByProvider: Value)

  predicate Filled(xs: Option<seq<string>>) { xs.Some? && |xs.value| > 0 }

  /** `search || tags?.length || domains?.length || owners?.length`. */
  predicate HasFilters(p: ListArgs)
  {
    (p.search.Some? && p.search.value != "") || Filled(p.tags) || Filled(p.domains) || Filled(p.owners)
  }

  function RequestOf(p: ListArgs): Request
  {
    if HasFilters(p) then SearchRequest(p.search, p.tags, p.domains, p.owners, p.page.GetOr(0), p.size.GetOr(DEFAULT_SIZE))
    else ListRequest(p.page.GetOr(0), p.size.GetOr(DEFAULT_SIZE), p.sort, p.owners, p.createdByProvider)
  }

  function PathOf(r: Request): string
  {
    if r.SearchRequest? then SEARCH_PATH else LIST_PATH
  }

  /** One API in the listing as the pages see it. */
  datatype Summary = Summary(id: string, name: Value, owner: Value, description: Value,
                             detailedDescription: string, basePath: string, version: Value,
                             status: Value, openApiSpec: string, tags: Value, domains: Value,
                             createdAt: Value, updatedAt: Value)

  /** The mapping of one item; the item must not be null or undefined,
    * where reading `a.id` throws. */
  function SummaryOf(a: Value): Summary
  {
    Summary(JsString(Prop(a, "id")), Prop(a, "name"), Prop(a, "owner"), Prop(a, "description"),
            "", "", Prop(a, "version"), Prop(a, "status"), "",
            Or(Prop(a, "tags"), Arr([])), Or(Prop(a, "domains"), Arr([])),
            Or(Prop(a, "createdAt"), Prop(a, "updatedAt")), Prop(a, "updatedAt"))
  }

  datatype Page = Page(content: seq<Summary>, totalElements: int, totalPages: Value,
                       currentPage: Value, hasNext: bool)

  /** `x + k` for the value `d.currentPage ?? 0`, which is never nullish:
    * a number adds, a boolean counts as 0 or 1, anything else is text and
    * the number is appended to it. */
  function PlusNumber(v: Value, k: int): Value
    requires !IsNullish(v)
  {
    match v
    case Num(n) => Num(n + k)
    case Bool(b) => Num((if b then 1 else 0) + k)
    case _ => Str(JsString(v) + IntToString(k))
  }

  /** `totalElements`: the server's when it is a number at least 0, else
    * `numberOfElements` when that is a number, else the content's length. */
  function TotalElements(d: Value, count: int): int
  {
    var t := Prop(d, "totalElements");
    var n := Prop(d, "numberOfElements");
    if t.Num? && t.n >= 0 then t.n else if n.Num? then n.n else count
  }

  /** `totalPages`: the server's when it is a number at least 0, else one
    * page past the current one, two when the server says there is more. */
  function TotalPages(d: Value): Value
  {
    var t := Prop(d, "totalPages");
    if t.Num? && t.n >= 0 then t
    else PlusNumber(Coalesce(Prop(d, "currentPage"), Num(0)), if Truthy(Prop(d, "hasNext")) then 2 else 1)
  }

  /** The page returned after a failure. */
  function EmptyPage(p: ListArgs): Page
  {
    Page([], 0, Num(0), Num(p.page.GetOr(0)), false)
  }

  /** `fetchApis`, from the reply body (`None` when the call threw). A
    * truthy `apis` that is not an array, or a null item in it, makes the
    * mapping throw, which also ends in the empty page. */
  function FetchApis(p: ListArgs, reply: Option<Value>): Page
  {
    if reply.None? then EmptyPage(p)
    else
      var d := Prop(reply.value, "data");
      var apis := Or(Prop(d, "apis"), Arr([]));
      if !apis.Arr? || exists i :: 0 <= i < |apis.items| && IsNullish(apis.items[i]) then EmptyPage(p)
      else
        var content := seq(|apis.items|, i requires 0 <= i < |apis.items| => SummaryOf(apis.items[i]));
        Page(content, TotalElements(d, |content|), TotalPages(d),
             Coalesce(Prop(d, "currentPage"), Num(p.page.GetOr(0))), Truthy(Prop(d, "hasNext")))
  }

  /** `fetchApisByDomain`'s totals use `??` only: the server's value
    * whatever its type, else the content's length, one page, the page asked. */
  function DomainTotals(d: Value, count: int, page: int): (Value, Value, Value)
  {
    (Coalesce(Prop(d, "totalElements"), Num(count)), Coalesce(Prop(d, "totalPages"), Num(1)),
     Coalesce(Prop(d, "currentPage"), Num(page)))
  }

  /** A page of one domain's APIs; its totals are passed on untyped. */
  datatype DomainPage = DomainPage(content: seq<Summary>, totalElements: Value, totalPages: Value,
                                   currentPage: Value, hasNext: bool)

  /** `fetchApisByDomain`, from the reply body (`None` when the call threw):
    * the listing sits under `data.data`, or is the body itself when that is
    * falsy. As in `fetchApis`, a truthy `apis` that is not an array, or a
    * null item in it, makes the mapping throw. */
  function FetchByDomain(page: int, reply: Option<Value>): DomainPage
  {
    var failed := DomainPage([], Num(0), Num(0), Num(page), false);
    if reply.None? then failed
    else
      var d := Or(Prop(reply.value, "data"), reply.value);
      var apis := Or(Prop(d, "apis"), Arr([]));
      if !apis.Arr? || exists i :: 0 <= i < |apis.items| && IsNullish(apis.items[i]) then failed
      else
        var content := seq(|apis.items|, i requires 0 <= i < |apis.items| => SummaryOf(apis.items[i]));
        var totals := DomainTotals(d, |content|, page);
        DomainPage(content, totals.0, totals.1, totals.2, Truthy(Prop(d, "hasNext")))
  }

  /** The suggestion lists: `data.data.<k> || data.<k> || []`, and a fixed
    * list when the call throws. */
  function Suggestions(reply: Option<Value>, key: string, fallback: seq<string>): Value
  {
    if reply.None? then Arr(seq(|fallback|, i requires 0 <= i < |fallback| => Str(fallback[i])))
    else Or(Or(Prop(Prop(reply.value, "data"), key), Prop(reply.value, key)), Arr([]))
  }

  const TAG_FALLBACK: seq<string> := ["payments", "users", "analytics", "orders", "reports", "auth", "notifications"]
  const DOMAIN_FALLBACK: seq<string> := ["finance", "core", "analytics", "security", "operations"]
  const OWNER_FALLBACK: seq<string> := ["team-alpha", "team-beta", "platform-team", "data-team"]

  /** `fetchAvailableTags`, `fetchAvailableDomains`, `fetchAvailableOwners`. */
  function AvailableTags(reply: Option<Value>): Value { Suggestions(reply, "tags", TAG_FALLBACK) }
  function AvailableDomains(reply: Option<Value>): Value { Suggestions(reply, "domains", DOMAIN_FALLBACK) }
  function AvailableOwners(reply: Option<Value>): Value { Suggestions(reply, "owners", OWNER_FALLBACK) }

  // ---------------------------------------------------------------- properties

  /** The search endpoint is used exactly when a search text or a non-empty
    * filter list is given; both start at page 0 with 20 entries by default,
    * and only the listing carries the sort and the provider. */
  lemma EndpointChoice(p: ListArgs)
    ensures PathOf(RequestOf(p)) == SEARCH_PATH <==>
      (p.search.Some? && p.search.value != "") || Filled(p.tags) || Filled(p.domains) || Filled(p.owners)
    ensures RequestOf(p).page == (if p.page.Some? then p.page.value else 0)
    ensures RequestOf(p).size == (if p.size.Some? then p.size.value else DEFAULT_SIZE)
    ensures RequestOf(p).ListRequest? ==> RequestOf(p).sort == p.sort && RequestOf(p).createdByProvider == p.createdByProvider
    ensures RequestOf(p).SearchRequest? ==> RequestOf(p).query == p.search && RequestOf(p).tags == p.tags
  {
    assert SEARCH_PATH != LIST_PATH by {
      assert SEARCH_PATH[|SERVICE_PREFIX| + 31] != LIST_PATH[|SERVICE_PREFIX| + 31];
    }
  }

  /** The totals: server values win when they are numbers at least 0; the
    * listing's -1 for the page count becomes the current page plus one,
    * plus two when another page follows. */
  lemma TotalsRules(d: Value, count: int)
    ensures Prop(d, "totalElements").Num? && Prop(d, "totalElements").n >= 0 ==>
      TotalElements(d, count) == Prop(d, "totalElements").n
    ensures !Prop(d, "totalElements").Num? && !Prop(d, "numberOfElements").Num? ==> TotalElements(d, count) == count
    ensures Prop(d, "totalPages").Num? && Prop(d, "totalPages").n >= 0 ==> TotalPages(d) == Prop(d, "totalPages")
    ensures Prop(d, "totalPages") == Num(-1) && Prop(d, "currentPage").Num? ==>
      TotalPages(d) == Num(Prop(d, "currentPage").n + if Truthy(Prop(d, "hasNext")) then 2 else 1)
    ensures Prop(d, "totalPages") == Num(-1) && IsNullish(Prop(d, "currentPage")) ==>
      TotalPages(d) == Num(if Truthy(Prop(d, "hasNext")) then 2 else 1)
  {
  }

  /** With a numeric current page and no usable page count, the count
    * reaches past the current page, and past the next one when the server
    * says there is one: both stay reachable. */
  lemma TotalPagesCoverCurrent(d: Value)
    requires Prop(d, "currentPage").Num?
    requires !(Prop(d, "totalPages").Num? && Prop(d, "totalPages").n >= 0)
    ensures TotalPages(d).Num? && TotalPages(d).n > Prop(d, "currentPage").n
    ensures Truthy(Prop(d, "hasNext")) ==> TotalPages(d).n > Prop(d, "currentPage").n + 1
  {
  }

  /** A failed call gives the empty page at the requested page; an `apis`
    * array without null items is mapped item by item, in order, each with
    * never-missing tag and domain lists. */
  lemma FetchRules(p: ListArgs, reply: Option<Value>)
    ensures reply.None? ==> FetchApis(p, reply) == Page([], 0, Num(0), Num(p.page.GetOr(0)), false)
    ensures var r := FetchApis(p, reply);
      reply.Some? && Prop(Prop(reply.value, "data"), "apis").Arr? ==>
      var items := Prop(Prop(reply.value, "data"), "apis").items;
      (forall i :: 0 <= i < |items| ==> !IsNullish(items[i])) ==>
        |r.content| == |items|
        && (forall i :: 0 <= i < |items| ==> r.content[i] == SummaryOf(items[i]))
        && (forall i :: 0 <= i < |items| ==> Truthy(r.content[i].tags) && Truthy(r.content[i].domains))
  {
  }

  /** A missing `apis` is an empty listing, not a failure. */
  lemma MissingApis(p: ListArgs, reply: Value)
    requires !Truthy(Prop(Prop(reply, "data"), "apis"))
    ensures FetchApis(p, Some(reply)).content == []
    ensures FetchApis(p, Some(reply)).totalElements == TotalElements(Prop(reply, "data"), 0)
  {
  }

  /** A numeric id becomes its decimal text. */
  lemma IdText(a: Value, n: int)
    requires Prop(a, "id") == Num(n)
    ensures SummaryOf(a).id == IntToString(n)
  {
  }

  /** The nested list wins over the top-level one; a failure gives the
    * fixed list. */
  lemma SuggestionRules(reply: Option<Value>, key: string, fallback: seq<string>)
    ensures reply.None? ==> Suggestions(reply, key, fallback).Arr? && |Suggestions(reply, key, fallback).items| == |fallback|
    ensures reply.Some? && Truthy(Prop(Prop(reply.value, "data"), key)) ==>
      Suggestions(reply, key, fallback) == Prop(Prop(reply.value, "data"), key)
    ensures reply.Some? && !Truthy(Prop(Prop(reply.value, "data"), key)) && !Truthy(Prop(reply.value, key)) ==>
      Suggestions(reply, key, fallback) == Arr([])
  {
  }

  /** A failed suggestion call offers the fixed names, in order. */
  lemma FallbackSuggestions()
    ensures AvailableTags(None) == Arr([Str("payments"), Str("users"), Str("analytics"), Str("orders"),
                                        Str("reports"), Str("auth"), Str("notifications")])
    ensures AvailableDomains(None) == Arr([Str("finance"), Str("core"), Str("analytics"), Str("security"),
                                           Str("operations")])
    ensures AvailableOwners(None) == Arr([Str("team-alpha"), Str("team-beta"), Str("platform-team"),
                                          Str("data-team")])
  {
  }

  /** A failed call gives the empty page at the page asked; a listing
    * without null items is mapped item by item, from `data.data` when that
    * is truthy and from the body otherwise, and each total is the server's
    * value unless that is null or missing. */
  lemma DomainFetchRules(page: int, reply: Option<Value>)
    ensures reply.None? ==> FetchByDomain(page, reply) == DomainPage([], Num(0), Num(0), Num(page), false)
    ensures var r := FetchByDomain(page, reply);
      reply.Some? ==>
      var d := if Truthy(Prop(reply.value, "data")) then Prop(reply.value, "data") else reply.value;
      Prop(d, "apis").Arr? ==>
      var items := Prop(d, "apis").items;
      (forall i :: 0 <= i < |items| ==> !IsNullish(items[i])) ==>
        |r.content| == |items|
        && (forall i :: 0 <= i < |items| ==> r.content[i] == SummaryOf(items[i]))
        && r.totalElements == (if IsNullish(Prop(d, "totalElements")) then Num(|items|) else Prop(d, "totalElements"))
        && r.totalPages == (if IsNullish(Prop(d, "totalPages")) then Num(1) else Prop(d, "totalPages"))
        && r.currentPage == (if IsNullish(Prop(d, "currentPage")) then Num(page) else Prop(d, "currentPage"))
        && r.hasNext == Truthy(Prop(d, "hasNext"))
  {
  }

  /** Unlike the general listing, which turns the public endpoint's -1 page
    * count into a count past the current page, the domain listing hands it
    * on as it came, and a negative total too. */
  lemma DomainKeepsNegativeTotals(page: int, reply: Value, c: int, m: int)
    requires Truthy(Prop(reply, "data")) && Prop(Prop(reply, "data"), "apis") == Arr([])
    requires Prop(Prop(reply, "data"), "totalPages") == Num(-1)
    requires Prop(Prop(reply, "data"), "currentPage") == Num(c) && c >= 0
    requires Prop(Prop(reply, "data"), "totalElements") == Num(m) && m < 0
    ensures FetchByDomain(page, Some(reply)).totalPages == Num(-1)
    ensures FetchByDomain(page, Some(reply)).totalElements == Num(m)
    ensures FetchApis(ListArgs(Some(page), None, None, None, None, None, None, Undefined), Some(reply)).totalPages
      == Num(c + if Truthy(Prop(Prop(reply, "data"), "hasNext")) then 2 else 1)
  {
  }
}
