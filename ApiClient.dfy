// The provider registry UI's HTTP helper: the base URL joined to request
// paths, the request options (a JSON content type the caller may override,
// the body sent as text), and the reply or the error a
// response turns into. The network call itself is a parameter: the model
// starts from the response it gives.
module ApiClient {
  import opened Wrappers
  import opened Strings
  import opened Json

  const CONTENT_TYPE: string := "Content-Type"
  const APPLICATION_JSON: string := "application/json"

  /** `API_BASE_URL`: the runtime global, else the build-time variable,
    * else "" (same origin); an empty string counts as missing. */
  function ApiBaseUrl(windowBase: Option<string>, envBase: Option<string>): (r: string)
    ensures windowBase.Some? && windowBase.value != "" ==> r == windowBase.value
    ensures (windowBase.None? || windowBase.value == "") ==> r == envBase.GetOr("")
  {
    if windowBase.Some? && windowBase.value != "" then windowBase.value
    else if envBase.Some? && envBase.value != "" then envBase.value
    else ""
  }

  /** `joinUrl(base, path)`. */
  function JoinUrl(base: string, path: string): string
  {
    if base == "" then path
    else
      var b := if IsSuffix("/", base) then base[..|base| - 1] else base;
      var p := if IsPrefix("/", path) then path else "/" + path;
      b + p
  }

  /** A body as sent: a string as it is, anything else through
    * `JSON.stringify` (a parameter here); none for undefined or null. */
  function BodyText(body: Value, stringify: Value -> string): Option<string>
  {
    if IsNullish(body) then None
    else if body.Str? then Some(body.s)
    else Some(stringify(body))
  }

  datatype Options = Options(httpMethod: string, headers: Fields, body: Option<string>)

  /** The options `request` hands to the fetch. */
  function RequestOptions(httpMethod: string, body: Value, headers: Fields, stringify: Value -> string): Options
  {
    Options(httpMethod, Merge([(CONTENT_TYPE, Str(APPLICATION_JSON))], headers), BodyText(body, stringify))
  }

  /** What the fetch answered. `json` is what `res.json()` would give. */
  datatype Response = Response(status: int, ok: bool, contentType: Option<string>, json: Value, text: string)

  datatype Reply = Reply(data: Value, status: int)

  /** The thrown error's `response` part. */
  datatype HttpError = HttpError(message: string, status: int, data: Value)

  datatype Outcome = Replied(reply: Reply) | Thrown(error: HttpError)

  /** The body read by content type: JSON when the type mentions
    * application/json, text otherwise. */
  function Data(res: Response): Value
  {
    if Contains(res.contentType.GetOr(""), APPLICATION_JSON) then res.json else Str(res.text)
  }

  /** The end of `request`: the data and status, or an error for a status
    * outside 200-299. */
  function Settle(res: Response): (r: Outcome)
    ensures r.Thrown? <==> !res.ok
    ensures r.Thrown? ==> (r.error.status == res.status && r.error.data == Data(res)
                           && r.error.message == "HTTP " + IntToString(res.status))
    ensures r.Replied? ==> r.reply == Reply(Data(res), res.status)
  {
    if !res.ok then Thrown(HttpError("HTTP " + IntToString(res.status), res.status, Data(res)))
    else Replied(Reply(Data(res), res.status))
  }

  /** The `get` and `delete` shortcuts: the named method, with no body. */
  function BodilessShortcut(httpMethod: string, headers: Fields, stringify: Value -> string): (r: Options)
    ensures r.httpMethod == httpMethod && r.body.None?
  {
    RequestOptions(httpMethod, Undefined, headers, stringify)
  }

  // ---------------------------------------------------------------- properties

  /** Without a base the path is used as it is. */
  lemma EmptyBase(path: string)
    ensures JoinUrl("", path) == path
  {
  }

  /** With a base, one trailing '/' of the base is dropped and the path gets
    * a leading '/' when it lacks one: a single '/' joins them when neither
    * or both bring one, and the two are concatenated when one of them does. */
  lemma JoinRules(base: string, path: string)
    requires base != ""
    ensures !IsSuffix("/", base) && !IsPrefix("/", path) ==> JoinUrl(base, path) == base + "/" + path
    ensures IsSuffix("/", base) && IsPrefix("/", path) ==> JoinUrl(base, path) == base[..|base| - 1] + path
    ensures IsSuffix("/", base) && !IsPrefix("/", path) ==> JoinUrl(base, path) == base + path
    ensures !IsSuffix("/", base) && IsPrefix("/", path) ==> JoinUrl(base, path) == base + path
  {
    if IsSuffix("/", base) && !IsPrefix("/", path) {
      assert base == base[..|base| - 1] + "/";
    }
  }

  /** Only one slash is removed: a base ending in "//" leaves "//" in the
    * result. */
  lemma DoubleSlashBase(base: string, path: string)
    requires IsSuffix("//", base)
    ensures Contains(JoinUrl(base, path), "//")
  {
    var r := JoinUrl(base, path);
    var b := base[..|base| - 1];
    assert IsSuffix("/", base);
    var p := if IsPrefix("/", path) then path else "/" + path;
    assert r == b + p;
    assert r[|b| - 1] == '/' && r[|b|] == '/';
    ContainsAt(r, "//", |b| - 1);
  }

  /** The caller's headers win over the default content type, which is
    * there otherwise; the body is omitted, passed through or serialised. */
  lemma OptionsRules(httpMethod: string, body: Value, headers: Fields, stringify: Value -> string)
    ensures var o := RequestOptions(httpMethod, body, headers, stringify);
      && Json.Get(o.headers, CONTENT_TYPE) ==
           (if HasKey(headers, CONTENT_TYPE) then Json.Get(headers, CONTENT_TYPE) else Str(APPLICATION_JSON))
      && (forall k :: k != CONTENT_TYPE ==> Json.Get(o.headers, k) == Json.Get(headers, k))
      && (IsNullish(body) <==> o.body.None?)
      && (body.Str? ==> o.body == Some(body.s))
  {
    var o := RequestOptions(httpMethod, body, headers, stringify);
    forall k | k != CONTENT_TYPE
      ensures Json.Get(o.headers, k) == Json.Get(headers, k)
    {
      if !HasKey(headers, k) {
        GetAbsent(headers, k);
        GetAbsent([(CONTENT_TYPE, Str(APPLICATION_JSON))][..0], k);
      }
    }
  }

  /** A JSON content type, with a charset or not, reads the body as JSON. */
  lemma JsonContentType(res: Response)
    requires res.contentType.Some? && IsPrefix(APPLICATION_JSON, res.contentType.value)
    ensures Data(res) == res.json
  {
    ContainsAt(res.contentType.value, APPLICATION_JSON, 0);
  }
}
