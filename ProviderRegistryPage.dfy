// The API registry UI's provider-registry page, apart from rendering and
// the network calls: the page of ten providers shown and the Previous/Next
// buttons, the public key and base URLs that go into a provider's `.env`
// download, and what the symmetric-key request does with the keys a
// provider already has. Call results, the stored e-mail and the prompt's
// answer are parameters.
module ProviderRegistryPage {
  import opened Wrappers
  import opened Strings
  import opened ProviderRegistryService

  const PAGE_SIZE: int := 10
  const ACTIVE: string := "ACTIVE"
  const SIGNING: string := "SIGNING"
  const ENCRYPTION: string := "ENCRYPTION"
  const PENDING: string := "PENDING_FOR_APPROVAL"
  const PRODUCTION: string := "PRODUCTION"
  const SANDBOX: string := "SANDBOX"

  // ---------------------------------------------------------------- paging

  /** Where `Array.prototype.slice` puts a bound `i` for a list of length
    * `n`: counted from the end when negative, clamped to [0, n]. */
  function SliceBound(i: int, n: nat): (r: nat)
    ensures r <= n
    ensures 0 <= i <= n ==> r == i
    ensures i > n ==> r == n
    ensures i < 0 ==> r == if n + i < 0 then 0 else n + i
  {
    if i < 0 then (if n + i < 0 then 0 else n + i) else if i > n then n else i
  }

  /** `xs.slice(start, end)`. */
  function JsSlice<T>(xs: seq<T>, start: int, end: int): seq<T>
  {
    var s, e := SliceBound(start, |xs|), SliceBound(end, |xs|);
    if s < e then xs[s..e] else []
  }

  /** `pagedProviders`: `providers.slice(page * 10, page * 10 + 10)`. */
  function Paged(providers: seq<Provider>, page: int): seq<Provider>
  {
    JsSlice(providers, page * PAGE_SIZE, page * PAGE_SIZE + PAGE_SIZE)
  }

  /** `Math.ceil(providers.length / 10)`. */
  function TotalPages(n: nat): (r: nat)
  {
    (n + PAGE_SIZE - 1) / PAGE_SIZE
  }

  /** The "of N" of the page label. */
  function PageCountLabel(totalPages: nat): nat
  {
    if totalPages < 1 then 1 else totalPages
  }

  predicate PrevDisabled(page: int) { page == 0 }

  predicate NextDisabled(page: int, totalPages: nat) { page + 1 >= totalPages }

  function Prev(page: int): int
  {
    if page - 1 < 0 then 0 else page - 1
  }

  function Next(page: int, totalPages: nat): int
  {
    if totalPages - 1 < page + 1 then totalPages - 1 else page + 1
  }

  /** A page at or after the first shows the providers from `page * 10`
    * on, at most ten of them, in their order. */
  lemma PagedRules(providers: seq<Provider>, page: nat)
    ensures var v := Paged(providers, page);
      && |v| == (if |providers| <= page * PAGE_SIZE then 0
                 else if |providers| - page * PAGE_SIZE < PAGE_SIZE then |providers| - page * PAGE_SIZE
                 else PAGE_SIZE)
      && forall k :: 0 <= k < |v| ==> v[k] == providers[page * PAGE_SIZE + k]
  {
  }

  /** Every provider is shown: provider `i` is item `i % 10` of page
    * `i / 10`. */
  lemma EachProviderOnItsPage(providers: seq<Provider>, i: nat)
    requires i < |providers|
    ensures var v := Paged(providers, i / PAGE_SIZE);
      i % PAGE_SIZE < |v| && v[i % PAGE_SIZE] == providers[i]
  {
    PagedRules(providers, i / PAGE_SIZE);
  }

  /** A page shows something exactly when it is one of the `TotalPages`
    * pages. */
  lemma NonEmptyPages(providers: seq<Provider>, page: nat)
    ensures Paged(providers, page) != [] <==> page < TotalPages(|providers|)
  {
    PagedRules(providers, page);
  }

  /** The label never reads "of 0", and reads the page count otherwise. */
  lemma LabelRules(n: nat)
    ensures PageCountLabel(TotalPages(n)) >= 1
    ensures n > 0 ==> PageCountLabel(TotalPages(n)) == TotalPages(n)
    ensures n == 0 ==> PageCountLabel(TotalPages(n)) == 1
  {
  }

  /** A page that can be reached: the first, or one of the pages. */
  predicate Reachable(page: int, totalPages: nat)
  {
    page == 0 || 0 <= page < totalPages
  }

  /** Previous never goes below the first page, Next (when enabled) goes
    * one page on and never past the last; both keep the page reachable. */
  lemma NavigationRules(page: int, totalPages: nat)
    requires Reachable(page, totalPages)
    ensures Prev(page) >= 0 && Reachable(Prev(page), totalPages)
    ensures !PrevDisabled(page) ==> Prev(page) == page - 1
    ensures !NextDisabled(page, totalPages) ==> Next(page, totalPages) == page + 1
    ensures !NextDisabled(page, totalPages) ==> Reachable(Next(page, totalPages), totalPages)
    ensures NextDisabled(page, totalPages) <==> page >= totalPages - 1
  {
  }

  // ---------------------------------------------------------------- lookups

  /** `Array.prototype.find`: the first element that passes. */
  function Find<T(==)>(xs: seq<T>, p: T -> bool): (r: Option<T>)
    ensures r.None? <==> forall i :: 0 <= i < |xs| ==> !p(xs[i])
    ensures r.Some? ==> exists i :: 0 <= i < |xs| && xs[i] == r.value && p(xs[i])
                                    && forall j :: 0 <= j < i ==> !p(xs[j])
  {
    if xs == [] then None
    else if p(xs[0]) then Some(xs[0])
    else
      var r := Find(xs[1..], p);
      if r.Some? then
        var i :| 0 <= i < |xs[1..]| && xs[1..][i] == r.value && p(xs[1..][i])
                 && forall j :: 0 <= j < i ==> !p(xs[1..][j]);
        assert xs[i + 1] == r.value && forall j :: 0 <= j < i + 1 ==> !p(xs[j]) by {
          forall j | 0 <= j < i + 1 ensures !p(xs[j]) {
            if j > 0 { assert xs[j] == xs[1..][j - 1]; }
          }
        }
        r
      else r
  }

  /** An element that passes, with none before it that does, is found. */
  lemma {:induction false} FindFirst<T>(xs: seq<T>, p: T -> bool, i: nat)
    requires i < |xs| && p(xs[i])
    requires forall j :: 0 <= j < i ==> !p(xs[j])
    ensures Find(xs, p) == Some(xs[i])
    decreases i
  {
    if i > 0 {
      assert !p(xs[0]);
      forall j | 0 <= j < i - 1 ensures !p(xs[1..][j]) {
        assert xs[1..][j] == xs[j + 1];
      }
      FindFirst(xs[1..], p, i - 1);
    }
  }

  predicate ActiveSigning(k: KeySummary) { k.keyStatus == ACTIVE && k.keyType == SIGNING }

  predicate Active(k: KeySummary) { k.keyStatus == ACTIVE }

  /** The key whose public part goes into the `.env` file. */
  function PreferredKey(keys: seq<KeySummary>): Option<KeySummary>
  {
    var signing := Find(keys, ActiveSigning);
    if signing.Some? then signing
    else
      var active := Find(keys, Active);
      if active.Some? then active
      else if keys != [] then Some(keys[0])
      else None
  }

  /** `preferred?.publicKeyPem || ''`. */
  function PublicKeyPem(keys: seq<KeySummary>): string
  {
    var k := PreferredKey(keys);
    if k.Some? && k.value.publicKeyPem.Some? then k.value.publicKeyPem.value else ""
  }

  /** The first ACTIVE SIGNING key is taken when there is one, else the
    * first ACTIVE key, else the first key; a provider without keys has
    * none. */
  lemma PreferredKeyRules(keys: seq<KeySummary>)
    ensures PreferredKey(keys).None? <==> keys == []
    ensures PreferredKey(keys).Some? ==> PreferredKey(keys).value in keys
    ensures (exists i :: 0 <= i < |keys| && ActiveSigning(keys[i])) ==>
      ActiveSigning(PreferredKey(keys).value)
    ensures (exists i :: 0 <= i < |keys| && Active(keys[i])) ==> Active(PreferredKey(keys).value)
    ensures keys != [] && (forall i :: 0 <= i < |keys| ==> !Active(keys[i])) ==>
      PreferredKey(keys) == Some(keys[0])
  {
  }

  /** The earliest ACTIVE SIGNING key wins over a later one. */
  lemma FirstSigningWins(keys: seq<KeySummary>, i: nat)
    requires i < |keys| && ActiveSigning(keys[i])
    requires forall j :: 0 <= j < i ==> !ActiveSigning(keys[j])
    ensures PreferredKey(keys) == Some(keys[i])
  {
    FindFirst(keys, ActiveSigning, i);
  }

  /** A key without a public part contributes an empty value. */
  lemma PublicKeyPemRules(keys: seq<KeySummary>)
    ensures keys == [] ==> PublicKeyPem(keys) == ""
    ensures PreferredKey(keys).Some? && PreferredKey(keys).value.publicKeyPem.None? ==> PublicKeyPem(keys) == ""
    ensures PreferredKey(keys).Some? && PreferredKey(keys).value.publicKeyPem.Some? ==>
      PublicKeyPem(keys) == PreferredKey(keys).value.publicKeyPem.value
  {
  }

  /** `envs.find(e => e.environmentType === type)?.baseUrl || ''`. */
  function BaseUrl(envs: seq<Environment>, envType: string): string
  {
    var e := Find(envs, (x: Environment) => x.environmentType == envType);
    if e.Some? && e.value.baseUrl.Some? then e.value.baseUrl.value else ""
  }

  /** The base URL is the first matching environment's, and empty without
    * one. */
  lemma BaseUrlRules(envs: seq<Environment>, envType: string, i: nat)
    ensures (forall j :: 0 <= j < |envs| ==> envs[j].environmentType != envType) ==> BaseUrl(envs, envType) == ""
    ensures i < |envs| && envs[i].environmentType == envType
            && (forall j :: 0 <= j < i ==> envs[j].environmentType != envType)
            ==> BaseUrl(envs, envType) == envs[i].baseUrl.GetOr("")
  {
    var p := (x: Environment) => x.environmentType == envType;
    if i < |envs| && envs[i].environmentType == envType
       && (forall j :: 0 <= j < i ==> envs[j].environmentType != envType) {
      FindFirst(envs, p, i);
    }
  }

  // ---------------------------------------------------------------- downloads

  /** `${p.code || 'provider'}-public.env`. */
  function EnvFileName(p: Provider): string
  {
    (if p.code != "" then p.code else "provider") + "-public.env"
  }

  /** `handleDownloadEnv` once the keys and environments are in: the file
    * name and the content built from the preferred key and the PRODUCTION
    * and SANDBOX base URLs. */
  function EnvDownload(p: Provider, keys: seq<KeySummary>, envs: seq<Environment>): (string, string)
  {
    (EnvFileName(p),
     EnvFileContent(p, Some(PublicKeyPem(keys)), Some(BaseUrl(envs, PRODUCTION)), Some(BaseUrl(envs, SANDBOX))))
  }

  /** The file's key line holds the preferred key and each base URL line
    * the matching environment's URL, when these hold no line break. */
  lemma EnvDownloadLines(p: Provider, keys: seq<KeySummary>, envs: seq<Environment>)
    requires '\n' !in p.name && '\n' !in p.code
    requires '\n' !in BaseUrl(envs, PRODUCTION) && '\n' !in BaseUrl(envs, SANDBOX)
    ensures var lines := Split(EnvDownload(p, keys, envs).1, '\n');
      && |lines| == 11
      && lines[6] == "TARGET_PROVIDER_PROD_BASE_URL=" + BaseUrl(envs, PRODUCTION)
      && lines[7] == "TARGET_PROVIDER_SANDBOX_BASE_URL=" + BaseUrl(envs, SANDBOX)
      && lines[8] == "TARGET_PROVIDER_PUBLIC_KEY=" + Escape(PublicKeyPem(keys))
    ensures EnvDownload(p, keys, envs).0 == (if p.code == "" then "provider" else p.code) + "-public.env"
  {
    EnvFileLines(p, Some(PublicKeyPem(keys)), Some(BaseUrl(envs, PRODUCTION)), Some(BaseUrl(envs, SANDBOX)));
  }

  // ---------------------------------------------------------------- key request

  /** `email || prompt(...) || ''`: the prompt is only asked without a
    * stored e-mail. */
  function ClientId(email: Option<string>, prompted: Option<string>): string
  {
    if email.Some? && email.value != "" then email.value
    else if prompted.Some? && prompted.value != "" then prompted.value
    else ""
  }

  datatype Download = Download(fileName: string, content: string)

  /** What `handleRequestKey` does before it asks for a new key. */
  datatype KeyRequest =
    | Cancelled
    | AlreadyExists(message: string, download: Option<Download>)
    | NewRequest(clientId: string)

  predicate BindsEncryption(k: KeySummary, clientId: string)
  {
    k.clientId == clientId && k.keyType == ENCRYPTION
  }

  function RequestKey(p: Provider, email: Option<string>, prompted: Option<string>,
                      keys: seq<KeySummary>): KeyRequest
  {
    var clientId := ClientId(email, prompted);
    if clientId == "" then Cancelled
    else
      var existing := Find(keys, (k: KeySummary) => BindsEncryption(k, clientId));
      if existing.Some? then
        var k := existing.value;
        AlreadyExists("Key already exists for " + clientId + ". Status: " + k.keyStatus
                      + ". Downloading latest copy if available...",
                      if k.publicKeyPem.Some? && k.publicKeyPem.value != "" then
                        Some(Download(p.code + "-" + clientId + "-public.pem", k.publicKeyPem.value))
                      else None)
      else NewRequest(clientId)
  }

  /** A new key is requested exactly when there is a client id and no
    * ENCRYPTION key is bound to it yet; the client id is the stored
    * e-mail when there is one. */
  lemma RequestKeyRules(p: Provider, email: Option<string>, prompted: Option<string>, keys: seq<KeySummary>)
    ensures RequestKey(p, email, prompted, keys).Cancelled? <==> ClientId(email, prompted) == ""
    ensures RequestKey(p, email, prompted, keys).NewRequest? <==>
      ClientId(email, prompted) != ""
      && forall i :: 0 <= i < |keys| ==> !BindsEncryption(keys[i], ClientId(email, prompted))
    ensures RequestKey(p, email, prompted, keys).NewRequest? ==>
      RequestKey(p, email, prompted, keys).clientId == ClientId(email, prompted)
    ensures email.Some? && email.value != "" ==> ClientId(email, prompted) == email.value
  {
    var clientId := ClientId(email, prompted);
    var b := (k: KeySummary) => BindsEncryption(k, clientId);
    if clientId != "" && Find(keys, b).Some? {
      var r := Find(keys, b);
      var i :| 0 <= i < |keys| && keys[i] == r.value && b(keys[i]) && forall j :: 0 <= j < i ==> !b(keys[j]);
      assert BindsEncryption(keys[i], clientId);
    }
  }

  /** An existing key's public part, when it has one, is offered as
    * `<code>-<clientId>-public.pem`. */
  lemma ExistingKeyDownload(p: Provider, email: Option<string>, prompted: Option<string>, keys: seq<KeySummary>)
    requires RequestKey(p, email, prompted, keys).AlreadyExists?
    ensures var c := ClientId(email, prompted);
      var d := RequestKey(p, email, prompted, keys).download;
      && c != ""
      && (d.Some? ==> d.value.fileName == p.code + "-" + c + "-public.pem" && d.value.content != "")
      && (d.Some? ==> exists i :: 0 <= i < |keys| && BindsEncryption(keys[i], c)
                                  && keys[i].publicKeyPem == Some(d.value.content))
  {
    var c := ClientId(email, prompted);
    var b := (k: KeySummary) => BindsEncryption(k, c);
    var r := Find(keys, b);
    var i :| 0 <= i < |keys| && keys[i] == r.value && b(keys[i]) && forall j :: 0 <= j < i ==> !b(keys[j]);
    assert BindsEncryption(keys[i], c);
  }

  /** What the answer to the key request shows and downloads: the pending
    * notice, overridden by the success notice when a private key came
    * back, which is then downloaded as `<code>-<clientId>.pem`. */
  function AfterGenerate(p: Provider, clientId: string, keyStatus: string, privateKeyPem: Option<string>)
    : (r: (Option<string>, Option<Download>))
    ensures privateKeyPem.Some? && privateKeyPem.value != "" ==>
      r.1 == Some(Download(p.code + "-" + clientId + ".pem", privateKeyPem.value))
      && r.0 == Some("Symmetric key generated and downloaded successfully")
    ensures (privateKeyPem.None? || privateKeyPem.value == "") ==> r.1.None?
    ensures (privateKeyPem.None? || privateKeyPem.value == "") ==> (r.0.Some? <==> keyStatus == PENDING)
  {
    var pending := if keyStatus == PENDING then
      Some("Key request submitted. Status: PENDING_FOR_APPROVAL. " + "You will be able to download once approved.")
    else None;
    if privateKeyPem.Some? && privateKeyPem.value != "" then
      (Some("Symmetric key generated and downloaded successfully"),
       Some(Download(p.code + "-" + clientId + ".pem", privateKeyPem.value)))
    else (pending, None)
  }
}
