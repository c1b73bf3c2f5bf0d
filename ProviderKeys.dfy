// Provider keys: the scope list a key stores as one comma-separated column,
// the PEM text the service writes, and the service that issues, lists and
// deactivates keys over the key table.  Key-pair generation, the AES key,
// the SHA-256 checksum, the fresh key id and the clock are inputs.
module ProviderKeys {
  import opened Wrappers
  import opened Strings
  import opened Base64
  import opened JwtTokens

  datatype KeyType = Encryption | Signing
  datatype KeyStatus = Active | NotActive | PendingForApproval
  datatype Environment = Production | Sandbox

  // ------------------------------------------------------------ scopes column

  /** `getScopes()`: split on ',', trim, drop empty parts, keep the first occurrence of each. */
  function GetScopes(csv: Option<string>): seq<string>
  {
    if csv.None? || JavaIsBlank(csv.value) then []
    else Dedupe(NonEmpty(TrimAll(JavaSplit(csv.value, ','), IsJavaTrimmable)))
  }

  /** `setScopes(scopes)`: no scopes is a null column, otherwise the scopes joined by ','. */
  function SetScopes(scopes: Option<seq<string>>): Option<string>
  {
    if scopes.None? || scopes.value == [] then None else Some(Join(scopes.value, ","))
  }

  /** A scope that survives the column: non-empty, comma-free, trimmed and not blank. */
  predicate IsScope(x: string)
  {
    x != "" && ',' !in x && IsTrimmed(x, IsJavaTrimmable) && !JavaIsBlank(x)
  }

  lemma JavaSplitParts(s: string, sep: char)
    ensures forall i :: 0 <= i < |JavaSplit(s, sep)| ==> sep !in JavaSplit(s, sep)[i]
  {
    if sep in s {
      var parts := Split(s, sep);
      var r := DropTrailingEmpty(parts);
      forall i | 0 <= i < |r| ensures sep !in r[i] {
        assert r[i] == parts[i];
      }
    }
  }

  lemma TrimmedPart(p: string)
    requires ',' !in p
    ensures ',' !in Trim(p, IsJavaTrimmable) && IsTrimmed(Trim(p, IsJavaTrimmable), IsJavaTrimmable)
  {
    TrimSubstring(p, IsJavaTrimmable, ',');
    TrimIsTrimmed(p, IsJavaTrimmable);
  }

  /** Whatever is read back is a list of distinct, non-empty, trimmed, comma-free scopes. */
  lemma GetScopesWellFormed(csv: Option<string>)
    ensures Distinct(GetScopes(csv))
    ensures forall x :: x in GetScopes(csv) ==> x != "" && ',' !in x && IsTrimmed(x, IsJavaTrimmable)
  {
    if csv.Some? && !JavaIsBlank(csv.value) {
      var parts := JavaSplit(csv.value, ',');
      var trimmed := TrimAll(parts, IsJavaTrimmable);
      var kept := NonEmpty(trimmed);
      JavaSplitParts(csv.value, ',');
      forall x | x in GetScopes(csv) ensures x != "" && ',' !in x && IsTrimmed(x, IsJavaTrimmable) {
        assert x in kept;
        assert x in trimmed && x != "";
        var i :| 0 <= i < |trimmed| && trimmed[i] == x;
        TrimmedPart(parts[i]);
      }
    }
  }

  lemma JoinNotBlank(xs: seq<string>)
    requires |xs| >= 1 && forall i :: 0 <= i < |xs| ==> IsScope(xs[i])
    ensures !JavaIsBlank(Join(xs, ","))
  {
    var j := Join(xs, ",");
    if |xs| == 1 {
      assert j == xs[0];
    } else {
      assert j == xs[0] + "," + Join(xs[1..], ",");
      assert j[|xs[0]|] == ',';
    }
  }

  lemma JoinHasComma(xs: seq<string>)
    requires |xs| > 1
    ensures ',' in Join(xs, ",")
  {
    var j := Join(xs, ",");
    assert j == xs[0] + "," + Join(xs[1..], ",");
    assert j[|xs[0]|] == ',';
  }

  lemma JavaSplitJoin(xs: seq<string>)
    requires |xs| >= 1 && forall i :: 0 <= i < |xs| ==> IsScope(xs[i])
    ensures JavaSplit(Join(xs, ","), ',') == xs
  {
    var j := Join(xs, ",");
    if |xs| == 1 {
      assert j == xs[0];
    } else {
      JoinHasComma(xs);
      assert "," == [','];
      assert forall i :: 0 <= i < |xs| ==> ',' !in xs[i];
      SplitJoin(xs, ',');
      assert Split(j, ',') == xs;
      assert xs[|xs| - 1] != "";
    }
  }

  lemma TrimAllTrimmed(xs: seq<string>)
    requires forall i :: 0 <= i < |xs| ==> IsScope(xs[i])
    ensures TrimAll(xs, IsJavaTrimmable) == xs
  {
    forall i | 0 <= i < |xs| ensures Trim(xs[i], IsJavaTrimmable) == xs[i] {
      TrimOfTrimmed(xs[i], IsJavaTrimmable);
    }
  }

  lemma ReadJoined(xs: seq<string>)
    requires xs != [] && forall i :: 0 <= i < |xs| ==> IsScope(xs[i])
    ensures GetScopes(Some(Join(xs, ","))) == Dedupe(NonEmpty(TrimAll(xs, IsJavaTrimmable)))
  {
    JoinNotBlank(xs);
    JavaSplitJoin(xs);
  }

  lemma CleanScopesKept(xs: seq<string>)
    requires Distinct(xs) && forall i :: 0 <= i < |xs| ==> IsScope(xs[i])
    ensures Dedupe(NonEmpty(TrimAll(xs, IsJavaTrimmable))) == xs
  {
    TrimAllTrimmed(xs);
    assert forall i :: 0 <= i < |xs| ==> xs[i] != "";
    NonEmptyOfNonEmpty(xs);
    DedupeOfDistinct(xs);
  }

  /** Distinct scopes stored and read back come out as they went in, in order. */
  lemma ScopesRoundTrip(xs: seq<string>)
    requires Distinct(xs) && forall i :: 0 <= i < |xs| ==> IsScope(xs[i])
    ensures GetScopes(SetScopes(Some(xs))) == xs
  {
    if xs != [] {
      ReadJoined(xs);
      CleanScopesKept(xs);
    }
  }

  /** A single scope made only of Unicode spaces that `trim` keeps is lost: the column reads as blank. */
  lemma BlankScopeLost()
    ensures GetScopes(SetScopes(Some(["\U{2003}"]))) == []
  {
    assert Join(["\U{2003}"], ",") == "\U{2003}";
  }

  lemma NoScopesIsNull(scopes: Option<seq<string>>)
    ensures SetScopes(scopes).None? <==> scopes.None? || scopes.value == []
    ensures GetScopes(None) == []
  {
  }

  // ------------------------------------------------------------ PEM text

  /** `toPem(type, der)`: MIME Base64 with 64-character lines between the two marker lines. */
  function ToPem(tag: string, der: seq<Byte>): string
  {
    BEGIN_HEAD + tag + "-----\n" + EncodeMime(der) + "\n-----END " + tag + "-----\n"
  }

  lemma FilterSameOn(s: string, p: char -> bool, q: char -> bool)
    requires forall i :: 0 <= i < |s| ==> p(s[i]) == q(s[i])
    ensures FilterChars(s, p) == FilterChars(s, q)
    decreases |s|
  {
    if s != [] {
      FilterSameOn(s[1..], p, q);
    }
  }

  /** The MIME body holds no dash, and the only whitespace in it is the line break. */
  lemma MimeBody(der: seq<Byte>)
    ensures All(EncodeMime(der), NotDash)
    ensures FilterChars(EncodeMime(der), NotRegexSpace) == Encode(der)
  {
    var m := EncodeMime(der);
    MimeIsEncode(der);
    forall i | 0 <= i < |m| ensures NotDash(m[i]) && NotRegexSpace(m[i]) == NotNewline(m[i]) {
      assert m[i] in m;
    }
    FilterSameOn(m, NotRegexSpace, NotNewline);
  }

  /** The body of a written PEM text is the basic Base64 encoding, whichever way the marker pattern is read. */
  lemma PemBody(tag: string, der: seq<Byte>, q: Quantifier)
    requires All(tag, IsTagChar)
    ensures PemContent(ToPem(tag, der), q) == Encode(der)
  {
    var m := EncodeMime(der);
    assert ToPem(tag, der) == BeginLine(tag) + "\n" + m + "\n" + EndLine(tag) + "\n";
    MimeBody(der);
    WrittenPemContent(tag, m, q);
  }

  /** The token service's key parser gets exactly the DER bytes of a PEM text the key service wrote. */
  lemma PemRoundTrip<K>(tag: string, der: seq<Byte>, parse: seq<Byte> -> Option<K>)
    requires All(tag, IsTagChar)
    ensures ParseKey(ToPem(tag, der), parse) == parse(der)
  {
    PemBody(tag, der, Greedy);
    LenientOfEncoded(der);
  }

  const PUBLIC_KEY: string := "PUBLIC KEY"
  const PRIVATE_KEY: string := "PRIVATE KEY"

  lemma KeyTags()
    ensures All(PUBLIC_KEY, IsTagChar) && All(PRIVATE_KEY, IsTagChar)
  {
  }

  // ------------------------------------------------------------ key table

  /** A stored key; the provider is referred to by its id. */
  datatype ProviderKey = ProviderKey(
    keyId: string,
    providerId: int,
    title: Option<string>,
    keyType: KeyType,
    keyStatus: KeyStatus,
    environment: Environment,
    clientId: string,
    publicKeyPem: string,
    privateKeyPem: string,
    privateKeyChecksum: string,
    issuedAt: int,
    expiresAt: Option<int>,
    scopesCsv: Option<string>)

  datatype GenerateKeyRequest = GenerateKeyRequest(
    keyType: KeyType,
    keyStatus: Option<KeyStatus>,
    environment: Environment,
    clientId: Option<string>,
    algorithm: Option<string>,
    keySize: Option<int>,
    title: Option<string>,
    expiresAt: Option<int>,
    scopes: Option<seq<string>>)

  datatype GenerateKeyResponse = GenerateKeyResponse(
    keyId: string,
    publicKeyPem: string,
    privateKeyPem: string,
    keyType: KeyType,
    keyStatus: KeyStatus,
    environment: Environment,
    clientId: string,
    issuedAt: int,
    expiresAt: Option<int>,
    scopes: seq<string>,
    title: Option<string>)

  /** What `listKeysPublic` exposes of a key. */
  datatype PublicKeySummary = PublicKeySummary(environment: Environment, publicKeyPem: string)

  /**
   * What one call draws from outside: the RSA key pair for a key size (its
   * X.509 and PKCS#8 encodings, or the exception `initialize` throws for a
   * size it refuses), the
   * AES-256 key bytes, SHA-256 in hex, the fresh UUID and the clock.
   */
  datatype Draws = Draws(
    rsaPair: int -> Result<(seq<Byte>, seq<Byte>)>,
    aesKey: seq<Byte>,
    sha256Hex: string -> string,
    keyId: string,
    now: int)

  const DEFAULT_CLIENT: string := "default"
  const DEFAULT_ALGORITHM: string := "RSA"
  const DEFAULT_KEY_SIZE: int := 4096
  const ONLY_RSA: string := "Only RSA supported for asymmetric keys"

  function TypeName(t: KeyType): string
  {
    match t
    case Encryption => "ENCRYPTION"
    case Signing => "SIGNING"
  }

  function EnvironmentName(e: Environment): string
  {
    match e
    case Production => "PRODUCTION"
    case Sandbox => "SANDBOX"
  }

  predicate IsLive(s: KeyStatus) { s == Active || s == PendingForApproval }

  /** The client a key is scoped to: missing or blank is "default", anything else is trimmed. */
  function EffectiveClientId(clientId: Option<string>): string
  {
    if clientId.None? || JavaTrim(clientId.value) == "" then DEFAULT_CLIENT else JavaTrim(clientId.value)
  }

  /** Whether `k` is a live key of the provider for this type, environment and client. */
  predicate Clashes(k: ProviderKey, pid: int, t: KeyType, e: Environment, client: string)
  {
    k.providerId == pid && k.keyType == t && IsLive(k.keyStatus) && k.environment == e && k.clientId == client
  }

  function ConflictMessage(t: KeyType, e: Environment, client: string): string
  {
    "An active key of type " + TypeName(t) + " already exists for this provider in "
    + EnvironmentName(e) + " environment for client " + client
  }

  /** The first live key of that combination, as the repository query returns them in table order. */
  function FirstClash(keys: seq<ProviderKey>, pid: int, t: KeyType, e: Environment, client: string): (r: Option<nat>)
    ensures r.Some? ==> r.value < |keys| && Clashes(keys[r.value], pid, t, e, client)
    ensures r.Some? ==> forall i :: 0 <= i < r.value ==> !Clashes(keys[i], pid, t, e, client)
    ensures r.None? ==> forall i :: 0 <= i < |keys| ==> !Clashes(keys[i], pid, t, e, client)
    decreases |keys|
  {
    if keys == [] then None
    else if Clashes(keys[0], pid, t, e, client) then Some(0)
    else
      match FirstClash(keys[1..], pid, t, e, client)
      case None => None
      case Some(j) => Some(j + 1)
  }

  function ResponseOf(saved: ProviderKey, privatePem: string): GenerateKeyResponse
  {
    GenerateKeyResponse(saved.keyId, saved.publicKeyPem, privatePem, saved.keyType, saved.keyStatus,
      saved.environment, saved.clientId, saved.issuedAt, saved.expiresAt, GetScopes(saved.scopesCsv), saved.title)
  }

  /** The public and private text of a new key, or the reason it cannot be made. */
  function KeyMaterial(req: GenerateKeyRequest, d: Draws): Result<(string, string)>
  {
    if req.keyType == Signing then
      var algorithm := req.algorithm.GetOr(DEFAULT_ALGORITHM);
      var size := req.keySize.GetOr(DEFAULT_KEY_SIZE);
      if !EqualsIgnoreCase(DEFAULT_ALGORITHM, algorithm) then Err(IllegalArgument(ONLY_RSA))
      else
        match d.rsaPair(size)
        case Err(f) => Err(f)
        case Ok(pair) => Ok((ToPem(PUBLIC_KEY, pair.0), ToPem(PRIVATE_KEY, pair.1)))
    else
      var k := Encode(d.aesKey);
      Ok((k, k))
  }

  /** The scopes column of a new key: the request's scopes without repeats, or nothing. */
  function ScopesColumn(scopes: Option<seq<string>>): Option<string>
  {
    if scopes.None? then None else SetScopes(Some(Dedupe(scopes.value)))
  }

  function NewKey(pid: int, req: GenerateKeyRequest, d: Draws, pub: string, priv: string): ProviderKey
  {
    ProviderKey(d.keyId, pid, req.title, req.keyType, req.keyStatus.GetOr(Active), req.environment,
      EffectiveClientId(req.clientId), pub, priv, d.sha256Hex(priv), d.now, req.expiresAt, ScopesColumn(req.scopes))
  }

  datatype Generated = Generated(result: Result<Option<GenerateKeyResponse>>, keys: seq<ProviderKey>)

  /** `generateKey(providerId, request)` over the key table and the set of known providers. */
  function GenerateStep(keys: seq<ProviderKey>, providers: set<int>, pid: int, req: GenerateKeyRequest, d: Draws): Generated
  {
    if pid !in providers then Generated(Ok(None), keys)
    else
      var status := req.keyStatus.GetOr(Active);
      var client := EffectiveClientId(req.clientId);
      var clash := if IsLive(status) then FirstClash(keys, pid, req.keyType, req.environment, client) else None;
      if clash.Some? then
        var existing := keys[clash.value];
        if existing.keyType == Signing then
          Generated(Err(IllegalArgument(ConflictMessage(req.keyType, req.environment, client))), keys)
        else Generated(Ok(Some(ResponseOf(existing, existing.privateKeyPem))), keys)
      else
        match KeyMaterial(req, d)
        case Err(e) => Generated(Err(e), keys)
        case Ok(pems) =>
          var pk := NewKey(pid, req, d, pems.0, pems.1);
          Generated(Ok(Some(ResponseOf(pk, pems.1))), keys + [pk])
  }

  /** `generateSymmetricKey`: the caller's login as client, ACTIVE, ENCRYPTION. */
  function SymmetricRequest(req: GenerateKeyRequest, login: Option<string>): GenerateKeyRequest
  {
    req.(clientId := login, keyStatus := Some(Active), keyType := Encryption)
  }

  /** `deactivateKey`: the provider's key with that id becomes NOT_ACTIVE. */
  function DeactivateStep(keys: seq<ProviderKey>, pid: int, keyId: string): (bool, seq<ProviderKey>)
  {
    match FindKey(keys, pid, keyId)
    case None => (false, keys)
    case Some(i) => (true, keys[i := keys[i].(keyStatus := NotActive)])
  }

  function FindKey(keys: seq<ProviderKey>, pid: int, keyId: string): (r: Option<nat>)
    ensures r.Some? ==> r.value < |keys| && keys[r.value].providerId == pid && keys[r.value].keyId == keyId
    ensures r.None? ==> forall i :: 0 <= i < |keys| ==> !(keys[i].providerId == pid && keys[i].keyId == keyId)
    decreases |keys|
  {
    if keys == [] then None
    else if keys[0].providerId == pid && keys[0].keyId == keyId then Some(0)
    else
      match FindKey(keys[1..], pid, keyId)
      case None => None
      case Some(j) => Some(j + 1)
  }

  predicate IsPublished(k: ProviderKey, pid: int)
  {
    k.providerId == pid && k.keyType == Signing && k.keyStatus == Active
  }

  /** `listKeysPublic`: environment and public PEM of the provider's active signing keys, in table order. */
  function PublicKeys(keys: seq<ProviderKey>, pid: int): seq<PublicKeySummary>
  {
    if keys == [] then []
    else
      (if IsPublished(keys[0], pid) then [PublicKeySummary(keys[0].environment, keys[0].publicKeyPem)] else [])
      + PublicKeys(keys[1..], pid)
  }

  /** At most one live key per provider, type, environment and client. */
  predicate UniqueLive(keys: seq<ProviderKey>)
  {
    forall i, j :: 0 <= i < j < |keys| && IsLive(keys[i].keyStatus) && IsLive(keys[j].keyStatus) ==>
      !Clashes(keys[j], keys[i].providerId, keys[i].keyType, keys[i].environment, keys[i].clientId)
  }

  // ------------------------------------------------------------ properties

  /** An unknown provider gets nothing and the table is left alone. */
  lemma UnknownProvider(keys: seq<ProviderKey>, providers: set<int>, pid: int, req: GenerateKeyRequest, d: Draws)
    requires pid !in providers
    ensures GenerateStep(keys, providers, pid, req, d) == Generated(Ok(None), keys)
  {
  }

  /** The client id is "default" when missing or blank and otherwise trimmed; applying the rule twice changes nothing. */
  lemma ClientIdRule(c: Option<string>)
    ensures c.None? || JavaTrim(c.value) == "" ==> EffectiveClientId(c) == DEFAULT_CLIENT
    ensures c.Some? && JavaTrim(c.value) != "" ==> EffectiveClientId(c) == JavaTrim(c.value)
    ensures EffectiveClientId(c) != "" && IsTrimmed(EffectiveClientId(c), IsJavaTrimmable)
    ensures EffectiveClientId(Some(EffectiveClientId(c))) == EffectiveClientId(c)
  {
    var r := EffectiveClientId(c);
    if c.Some? && JavaTrim(c.value) != "" {
      TrimIsTrimmed(c.value, IsJavaTrimmable);
    }
    TrimOfTrimmed(r, IsJavaTrimmable);
  }

  /**
   * A live request meeting a live key of the same provider, type, environment
   * and client: a signing key is refused, an encryption key is handed back as
   * stored; either way nothing is added.
   */
  lemma ConflictRule(keys: seq<ProviderKey>, providers: set<int>, pid: int, req: GenerateKeyRequest, d: Draws, i: nat)
    requires pid in providers && IsLive(req.keyStatus.GetOr(Active))
    requires i < |keys| && Clashes(keys[i], pid, req.keyType, req.environment, EffectiveClientId(req.clientId))
    requires forall j :: 0 <= j < i ==> !Clashes(keys[j], pid, req.keyType, req.environment, EffectiveClientId(req.clientId))
    ensures var g := GenerateStep(keys, providers, pid, req, d);
      g.keys == keys &&
      (req.keyType == Signing ==> g.result.Err? && g.result.error.IllegalArgument?) &&
      (req.keyType == Encryption ==> g.result == Ok(Some(ResponseOf(keys[i], keys[i].privateKeyPem))))
  {
    var f := FirstClash(keys, pid, req.keyType, req.environment, EffectiveClientId(req.clientId));
    assert f == Some(i);
  }

  /**
   * A signing request for anything but RSA (in any letter case) is refused
   * and nothing is added; an RSA request fails only when the key pair
   * generator refuses the size, and then with the generator's exception.
   */
  lemma OnlyRsa(keys: seq<ProviderKey>, providers: set<int>, pid: int, req: GenerateKeyRequest, d: Draws, alg: string)
    requires pid in providers && req.keyType == Signing && req.algorithm == Some(alg)
    requires !IsLive(req.keyStatus.GetOr(Active)) || FirstClash(keys, pid, req.keyType, req.environment, EffectiveClientId(req.clientId)).None?
    ensures EqualsIgnoreCase(alg, "RSA") ==>
      (GenerateStep(keys, providers, pid, req, d).result.Err? <==> d.rsaPair(req.keySize.GetOr(DEFAULT_KEY_SIZE)).Err?)
    ensures EqualsIgnoreCase(alg, "RSA") && d.rsaPair(req.keySize.GetOr(DEFAULT_KEY_SIZE)).Err? ==>
      GenerateStep(keys, providers, pid, req, d) == Generated(Err(d.rsaPair(req.keySize.GetOr(DEFAULT_KEY_SIZE)).error), keys)
    ensures !EqualsIgnoreCase(alg, "RSA") ==> GenerateStep(keys, providers, pid, req, d) == Generated(Err(IllegalArgument(ONLY_RSA)), keys)
  {
  }

  /**
   * A key that is made is appended with the request's fields and the rule's
   * status and client; the response carries the stored private text and the
   * scopes read back from the column.  Whenever nothing is made, the table
   * is unchanged.
   */
  lemma GenerateShape(keys: seq<ProviderKey>, providers: set<int>, pid: int, req: GenerateKeyRequest, d: Draws)
    ensures var g := GenerateStep(keys, providers, pid, req, d);
      g.keys == keys ||
      (|g.keys| == |keys| + 1 && g.keys[..|keys|] == keys &&
       var pk := g.keys[|keys|];
       pk.keyId == d.keyId && pk.providerId == pid && pk.keyType == req.keyType &&
       pk.keyStatus == req.keyStatus.GetOr(Active) && pk.environment == req.environment &&
       pk.clientId == EffectiveClientId(req.clientId) && pk.title == req.title &&
       pk.expiresAt == req.expiresAt && pk.issuedAt == d.now &&
       pk.privateKeyChecksum == d.sha256Hex(pk.privateKeyPem) &&
       g.result == Ok(Some(ResponseOf(pk, pk.privateKeyPem))))
    ensures GenerateStep(keys, providers, pid, req, d).result.Err? ==> GenerateStep(keys, providers, pid, req, d).keys == keys
  {
    var g := GenerateStep(keys, providers, pid, req, d);
    if g.keys != keys {
      assert g.keys[..|keys|] == keys;
    }
  }

  /** The response's scopes are the requested scopes without repeats, when they are all well-formed. */
  lemma ResponseScopes(scopes: seq<string>)
    requires forall i :: 0 <= i < |scopes| ==> IsScope(scopes[i])
    ensures GetScopes(ScopesColumn(Some(scopes))) == Dedupe(scopes)
  {
    var d := Dedupe(scopes);
    forall i | 0 <= i < |d| ensures IsScope(d[i]) {
      assert d[i] in scopes;
    }
    ScopesRoundTrip(d);
  }

  /** A signing key is made with the default size 4096 and its public text parses back to the X.509 bytes. */
  lemma SigningKeyParses<K>(keys: seq<ProviderKey>, providers: set<int>, pid: int, req: GenerateKeyRequest, d: Draws,
                            parse: seq<Byte> -> Option<K>)
    requires pid in providers && req.keyType == Signing && req.algorithm.None? && req.keySize.None?
    requires d.rsaPair(DEFAULT_KEY_SIZE).Ok?
    requires !IsLive(req.keyStatus.GetOr(Active)) || FirstClash(keys, pid, req.keyType, req.environment, EffectiveClientId(req.clientId)).None?
    ensures var g := GenerateStep(keys, providers, pid, req, d);
      |g.keys| == |keys| + 1 &&
      g.keys[|keys|].publicKeyPem == ToPem(PUBLIC_KEY, d.rsaPair(DEFAULT_KEY_SIZE).value.0) &&
      ParseKey(g.keys[|keys|].publicKeyPem, parse) == parse(d.rsaPair(DEFAULT_KEY_SIZE).value.0) &&
      ParseKey(g.keys[|keys|].privateKeyPem, parse) == parse(d.rsaPair(DEFAULT_KEY_SIZE).value.1)
  {
    KeyTags();
    PemRoundTrip(PUBLIC_KEY, d.rsaPair(DEFAULT_KEY_SIZE).value.0, parse);
    PemRoundTrip(PRIVATE_KEY, d.rsaPair(DEFAULT_KEY_SIZE).value.1, parse);
  }

  /** Generating never breaks the one-live-key rule. */
  lemma GeneratePreservesUniqueLive(keys: seq<ProviderKey>, providers: set<int>, pid: int, req: GenerateKeyRequest, d: Draws)
    requires UniqueLive(keys)
    ensures UniqueLive(GenerateStep(keys, providers, pid, req, d).keys)
  {
    var g := GenerateStep(keys, providers, pid, req, d);
    if g.keys != keys {
      var n := |keys|;
      var pk := g.keys[n];
      assert g.keys[..n] == keys;
      forall i, j | 0 <= i < j < |g.keys| && IsLive(g.keys[i].keyStatus) && IsLive(g.keys[j].keyStatus)
        ensures !Clashes(g.keys[j], g.keys[i].providerId, g.keys[i].keyType, g.keys[i].environment, g.keys[i].clientId)
      {
        if j == n {
          assert g.keys[i] == keys[i];
          assert !Clashes(keys[i], pk.providerId, pk.keyType, pk.environment, pk.clientId);
        } else {
          assert g.keys[i] == keys[i] && g.keys[j] == keys[j];
        }
      }
    }
  }

  /**
   * Deactivating an unknown key reports false and changes nothing; otherwise
   * exactly that key's status becomes NOT_ACTIVE, it is no longer live and
   * no longer published.
   */
  lemma DeactivateEffect(keys: seq<ProviderKey>, pid: int, keyId: string)
    ensures var (found, after) := DeactivateStep(keys, pid, keyId);
      (found <==> exists i :: 0 <= i < |keys| && keys[i].providerId == pid && keys[i].keyId == keyId) &&
      (!found ==> after == keys) &&
      |after| == |keys| &&
      forall i :: 0 <= i < |keys| ==>
        (after[i] == keys[i] || (after[i] == keys[i].(keyStatus := NotActive) && keys[i].providerId == pid && keys[i].keyId == keyId))
    ensures var (found, after) := DeactivateStep(keys, pid, keyId);
      found ==> (exists i :: 0 <= i < |after| && after[i].providerId == pid && after[i].keyId == keyId &&
                   !IsLive(after[i].keyStatus) && !IsPublished(after[i], pid))
  {
  }

  lemma DeactivatePreservesUniqueLive(keys: seq<ProviderKey>, pid: int, keyId: string)
    requires UniqueLive(keys)
    ensures UniqueLive(DeactivateStep(keys, pid, keyId).1)
  {
    var after := DeactivateStep(keys, pid, keyId).1;
    forall i, j | 0 <= i < j < |after| && IsLive(after[i].keyStatus) && IsLive(after[j].keyStatus)
      ensures !Clashes(after[j], after[i].providerId, after[i].keyType, after[i].environment, after[i].clientId)
    {
      assert after[i] == keys[i] && after[j] == keys[j];
    }
  }

  /** Exactly the provider's active signing keys are published, each as its environment and public text. */
  lemma {:induction false} PublicKeysListed(keys: seq<ProviderKey>, pid: int)
    ensures forall s :: s in PublicKeys(keys, pid) <==>
      exists i :: 0 <= i < |keys| && IsPublished(keys[i], pid) && s == PublicKeySummary(keys[i].environment, keys[i].publicKeyPem)
    ensures |PublicKeys(keys, pid)| <= |keys|
  {
    if keys != [] {
      PublicKeysListed(keys[1..], pid);
      forall s ensures s in PublicKeys(keys, pid) <==>
        exists i :: 0 <= i < |keys| && IsPublished(keys[i], pid) && s == PublicKeySummary(keys[i].environment, keys[i].publicKeyPem)
      {
        if s in PublicKeys(keys[1..], pid) {
          var i :| 0 <= i < |keys[1..]| && IsPublished(keys[1..][i], pid) &&
            s == PublicKeySummary(keys[1..][i].environment, keys[1..][i].publicKeyPem);
          assert keys[i + 1] == keys[1..][i];
        }
        if exists i :: 0 <= i < |keys| && IsPublished(keys[i], pid) && s == PublicKeySummary(keys[i].environment, keys[i].publicKeyPem) {
          var i :| 0 <= i < |keys| && IsPublished(keys[i], pid) && s == PublicKeySummary(keys[i].environment, keys[i].publicKeyPem);
          if i > 0 {
            assert keys[1..][i - 1] == keys[i];
          }
        }
      }
    }
  }

  /** `generateSymmetricKey` for a known provider always answers with a key. */
  lemma SymmetricAnswers(keys: seq<ProviderKey>, providers: set<int>, pid: int, req: GenerateKeyRequest, login: Option<string>, d: Draws)
    requires pid in providers
    ensures GenerateStep(keys, providers, pid, SymmetricRequest(req, login), d).result.Ok?
    ensures GenerateStep(keys, providers, pid, SymmetricRequest(req, login), d).result.value.Some?
  {
  }

  /** Asking twice for the caller's symmetric key gives the same answer, and the second call adds nothing. */
  lemma SymmetricIdempotent(keys: seq<ProviderKey>, providers: set<int>, pid: int, req: GenerateKeyRequest, login: Option<string>,
                            d1: Draws, d2: Draws)
    ensures var r := SymmetricRequest(req, login);
      var g1 := GenerateStep(keys, providers, pid, r, d1);
      var g2 := GenerateStep(g1.keys, providers, pid, r, d2);
      g2 == g1
  {
    var r := SymmetricRequest(req, login);
    var g1 := GenerateStep(keys, providers, pid, r, d1);
    var client := EffectiveClientId(r.clientId);
    if pid in providers && FirstClash(keys, pid, Encryption, r.environment, client).None? {
      var pk := g1.keys[|keys|];
      assert Clashes(pk, pid, Encryption, r.environment, client);
      var f := FirstClash(g1.keys, pid, Encryption, r.environment, client);
      assert f == Some(|keys|);
    }
  }

  // ------------------------------------------------------------ the service

  /** The key service over its key table and the ids of the known providers. */
  class ProviderKeyService {
    var keys: seq<ProviderKey>
    var providers: set<int>

    constructor(providers: set<int>)
      ensures this.keys == [] && this.providers == providers
    {
      this.keys := [];
      this.providers := providers;
    }

    method GenerateKey(pid: int, req: GenerateKeyRequest, d: Draws) returns (r: Result<Option<GenerateKeyResponse>>)
      modifies this
      ensures providers == old(providers)
      ensures Generated(r, keys) == GenerateStep(old(keys), providers, pid, req, d)
      ensures UniqueLive(old(keys)) ==> UniqueLive(keys)
    {
      if UniqueLive(keys) {
        GeneratePreservesUniqueLive(keys, providers, pid, req, d);
      }
      if pid !in providers {
        return Ok(None);
      }
      var status := req.keyStatus.GetOr(Active);
      var client := EffectiveClientId(req.clientId);
      if IsLive(status) {
        var clash := FirstClash(keys, pid, req.keyType, req.environment, client);
        if clash.Some? {
          var existing := keys[clash.value];
          if existing.keyType == Signing {
            return Err(IllegalArgument(ConflictMessage(req.keyType, req.environment, client)));
          }
          return Ok(Some(ResponseOf(existing, existing.privateKeyPem)));
        }
      }
      var material := KeyMaterial(req, d);
      if material.Err? {
        return Err(material.error);
      }
      var pk := NewKey(pid, req, d, material.value.0, material.value.1);
      keys := keys + [pk];
      r := Ok(Some(ResponseOf(pk, material.value.1)));
    }

    method GenerateSymmetricKey(pid: int, req: GenerateKeyRequest, login: Option<string>, d: Draws)
      returns (r: Result<Option<GenerateKeyResponse>>)
      modifies this
      ensures providers == old(providers)
      ensures Generated(r, keys) == GenerateStep(old(keys), providers, pid, SymmetricRequest(req, login), d)
      ensures UniqueLive(old(keys)) ==> UniqueLive(keys)
      ensures r.Ok?
    {
      r := GenerateKey(pid, SymmetricRequest(req, login), d);
    }

    method DeactivateKey(pid: int, keyId: string) returns (found: bool)
      modifies this
      ensures providers == old(providers)
      ensures (found, keys) == DeactivateStep(old(keys), pid, keyId)
      ensures UniqueLive(old(keys)) ==> UniqueLive(keys)
    {
      if UniqueLive(keys) {
        DeactivatePreservesUniqueLive(keys, pid, keyId);
      }
      var at := FindKey(keys, pid, keyId);
      if at.None? {
        return false;
      }
      keys := keys[at.value := keys[at.value].(keyStatus := NotActive)];
      found := true;
    }

    method ListKeysPublic(pid: int) returns (r: seq<PublicKeySummary>)
      ensures r == PublicKeys(keys, pid)
    {
      r := PublicKeys(keys, pid);
    }
  }
}
