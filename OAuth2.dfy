// The OAuth 2.0 authorization-code flow of the auth registry (RFC 6749)
// with PKCE (RFC 7636): client and redirect checks, password
// authentication, issue of a one-shot code and its exchange for a token.
// Hashing, password matching, signing and randomness are parameters; the
// clock counts nanoseconds.
module OAuth2 {
  import opened Wrappers
  import opened Strings
  import opened Base64
  import UM = UserManagement
  import JwtTokens

  /** Ten minutes. */
  const CODE_TTL_NANOS: int := 10 * 60 * 1_000_000_000

  /** The default access-token lifetime, in seconds. */
  const DEFAULT_ACCESS_TTL: int := 86400

  const S256: string := "S256"

  const INVALID_CLIENT: string := "Invalid client"
  const INVALID_REDIRECT: string := "Invalid redirect URI"
  const USER_NOT_FOUND: string := "User not found"
  const INVALID_CODE: string := "Invalid authorization code"
  const CODE_EXPIRED: string := "Authorization code expired"
  const CLIENT_MISMATCH: string := "Client mismatch"
  /** The null that `authCode.getClientId()` returns for a code stored without a client. */
  const STORED_CLIENT_ID: string := "clientId"
  const PKCE_FAILED: string := "PKCE verification failed"

  datatype Client = Client(clientId: string, redirectUris: set<string>, scopes: set<string>, requirePkce: bool)

  datatype AuthCode = AuthCode(
    code: string,
    clientId: Option<string>,
    userId: int,
    redirectUri: Option<string>,
    scope: Option<string>,
    codeChallenge: Option<string>,
    codeChallengeMethod: Option<string>,
    expiresAt: int,
    used: bool)

  datatype TokenResponse = TokenResponse(accessToken: string, tokenType: string, expiresIn: int)

  /** The first user of the table with that email (emails are unique in the table). */
  function FindByEmail(users: seq<UM.User>, email: string): (r: Option<nat>)
    ensures r.Some? ==> r.value < |users| && users[r.value].email == email &&
                        forall j :: 0 <= j < r.value ==> users[j].email != email
    ensures r.None? ==> forall j :: 0 <= j < |users| ==> users[j].email != email
  {
    if users == [] then None
    else if users[0].email == email then Some(0)
    else
      match FindByEmail(users[1..], email)
      case None => None
      case Some(i) => Some(i + 1)
  }

  function FindById(users: seq<UM.User>, id: int): (r: Option<nat>)
    ensures r.Some? ==> r.value < |users| && users[r.value].id == id
    ensures r.None? ==> forall j :: 0 <= j < |users| ==> users[j].id != id
  {
    if users == [] then None
    else if users[0].id == id then Some(0)
    else
      match FindById(users[1..], id)
      case None => None
      case Some(i) => Some(i + 1)
  }

  /** A registered client, asking for one of its registered redirect URIs. */
  function ValidateClient(clients: map<string, Client>, clientId: string, redirectUri: Option<string>): Result<Client>
  {
    if clientId !in clients then Err(IllegalArgument(INVALID_CLIENT))
    else if redirectUri.None? || redirectUri.value !in clients[clientId].redirectUris then Err(IllegalArgument(INVALID_REDIRECT))
    else Ok(clients[clientId])
  }

  /** The password check of an enabled user found by lower-cased email; matches is BCrypt's. */
  function Authenticate(users: seq<UM.User>, username: string, password: string, matches: (string, string) -> bool): bool
  {
    match FindByEmail(users, ToLower(username))
    case None => false
    case Some(i) => users[i].enabled && matches(password, users[i].passwordHash)
  }

  /**
   * The PKCE check: no verifier fails; "S256" compares the URL-safe,
   * unpadded Base64 of the verifier's SHA-256 digest (digest stands for
   * SHA-256 over the UTF-8 bytes); any other method compares the verifier
   * itself.
   */
  predicate VerifyPkce(verifier: Option<string>, challenge: string, pkceMethod: Option<string>, digest: string -> seq<Byte>)
  {
    verifier.Some? &&
    (if pkceMethod == Some(S256) then EncodeUrlNoPad(digest(verifier.value)) == challenge else verifier.value == challenge)
  }

  /** Issue a code for the user with that (lower-cased) email; bytes are the 32 random bytes. */
  function GenerateStep(codes: map<string, AuthCode>, users: seq<UM.User>, clientId: Option<string>, username: string,
                        redirectUri: Option<string>, scope: Option<string>, challenge: Option<string>, pkceMethod: Option<string>,
                        bytes: seq<Byte>, now: int): (Result<string>, map<string, AuthCode>)
  {
    match FindByEmail(users, ToLower(username))
    case None => (Err(IllegalArgument(USER_NOT_FOUND)), codes)
    case Some(i) =>
      var code := EncodeUrlNoPad(bytes);
      (Ok(code), codes[code := AuthCode(code, clientId, users[i].id, redirectUri, scope, challenge, pkceMethod, now + CODE_TTL_NANOS, false)])
  }

  /** The checks of an exchange, before anything is written; a code stored
    * without a client id fails on `getClientId().equals`. */
  function CheckExchange(codes: map<string, AuthCode>, code: string, clientId: Option<string>, verifier: Option<string>,
                         now: int, digest: string -> seq<Byte>): Option<Failure>
  {
    if code !in codes || codes[code].used then Some(IllegalArgument(INVALID_CODE))
    else if codes[code].expiresAt < now then Some(IllegalArgument(CODE_EXPIRED))
    else if codes[code].clientId.None? then Some(NullReference(STORED_CLIENT_ID))
    else if codes[code].clientId != clientId then Some(IllegalArgument(CLIENT_MISMATCH))
    else if codes[code].codeChallenge.Some? &&
            !VerifyPkce(verifier, codes[code].codeChallenge.value, codes[code].codeChallengeMethod, digest)
    then Some(IllegalArgument(PKCE_FAILED))
    else None
  }

  /** The extra claims of the access token; the nested user context is kept opaque. */
  function TokenExtras(a: AuthCode, clientId: string, u: UM.User): map<string, Option<JwtTokens.ClaimValue>>
  {
    map["scope" := if a.scope.Some? then Some(JwtTokens.Text(a.scope.value)) else None,
        "client_id" := Some(JwtTokens.Text(clientId)),
        "ctx" := Some(JwtTokens.Opaque(u.id))]
  }

  /**
   * The exchange.  Once the checks pass the code is marked used, and stays
   * used even when the user is gone or the token cannot be signed;
   * generate is the JWT service's generate for subject, user id, lifetime
   * and extra claims.
   */
  function ExchangeStep(codes: map<string, AuthCode>, users: seq<UM.User>, code: string, clientId: Option<string>,
                        verifier: Option<string>, now: int, digest: string -> seq<Byte>, accessTtl: int,
                        generate: (string, int, int, map<string, Option<JwtTokens.ClaimValue>>) -> Result<string>)
    : (Result<TokenResponse>, map<string, AuthCode>)
  {
    match CheckExchange(codes, code, clientId, verifier, now, digest)
    case Some(f) => (Err(f), codes)
    case None =>
      var a := codes[code];
      var codes' := codes[code := a.(used := true)];
      match FindById(users, a.userId)
      case None => (Err(IllegalArgument(USER_NOT_FOUND)), codes')
      case Some(i) =>
        match generate(users[i].email, users[i].id, accessTtl, TokenExtras(a, clientId.value, users[i]))
        case Err(f) => (Err(f), codes')
        case Ok(t) => (Ok(TokenResponse(t, "Bearer", accessTtl)), codes')
  }

  // ------------------------------------------------------------ properties

  lemma ValidateClientRules(clients: map<string, Client>, clientId: string, redirectUri: Option<string>)
    ensures ValidateClient(clients, clientId, redirectUri).Ok? <==>
      clientId in clients && redirectUri.Some? && redirectUri.value in clients[clientId].redirectUris
    ensures ValidateClient(clients, clientId, redirectUri).Ok? ==> ValidateClient(clients, clientId, redirectUri).value == clients[clientId]
    ensures clientId !in clients ==> ValidateClient(clients, clientId, redirectUri) == Err(IllegalArgument(INVALID_CLIENT))
  {
  }

  /** Authentication needs an enabled user under the lower-cased name whose hash matches the password. */
  lemma AuthenticateRule(users: seq<UM.User>, username: string, password: string, matches: (string, string) -> bool)
    ensures Authenticate(users, username, password, matches) ==>
      exists i :: 0 <= i < |users| && users[i].email == ToLower(username) && users[i].enabled &&
                  matches(password, users[i].passwordHash)
    ensures (forall i :: 0 <= i < |users| ==> users[i].email != ToLower(username) || !users[i].enabled) ==>
      !Authenticate(users, username, password, matches)
  {
  }

  /** An email no user has is refused: authentication answers false and no
    * code is issued, the code store unchanged. */
  lemma UnknownUserRefused(users: seq<UM.User>, username: string, password: string, matches: (string, string) -> bool,
                           codes: map<string, AuthCode>, clientId: Option<string>, redirectUri: Option<string>,
                           scope: Option<string>, challenge: Option<string>, pkceMethod: Option<string>,
                           bytes: seq<Byte>, now: int)
    requires forall i :: 0 <= i < |users| ==> users[i].email != ToLower(username)
    ensures !Authenticate(users, username, password, matches)
    ensures GenerateStep(codes, users, clientId, username, redirectUri, scope, challenge, pkceMethod, bytes, now)
            == (Err(IllegalArgument(USER_NOT_FOUND)), codes)
  {
  }

  /** A code stored without a challenge skips PKCE: once the earlier checks
    * pass, any verifier, none included, is accepted. */
  lemma NoChallengeSkipsPkce(codes: map<string, AuthCode>, code: string, clientId: Option<string>, verifier: Option<string>,
                             now: int, digest: string -> seq<Byte>)
    requires code in codes && !codes[code].used && codes[code].expiresAt >= now && codes[code].clientId == clientId && clientId.Some?
    requires codes[code].codeChallenge.None?
    ensures CheckExchange(codes, code, clientId, verifier, now, digest).None?
  {
  }

  /** An issued code is a 43-character text stored unused, for ten minutes, with the request's details. */
  lemma IssuedCode(codes: map<string, AuthCode>, users: seq<UM.User>, clientId: Option<string>, username: string,
                   redirectUri: Option<string>, scope: Option<string>, challenge: Option<string>, pkceMethod: Option<string>,
                   bytes: seq<Byte>, now: int)
    requires |bytes| == 32
    requires exists i :: 0 <= i < |users| && users[i].email == ToLower(username)
    ensures var (r, codes') := GenerateStep(codes, users, clientId, username, redirectUri, scope, challenge, pkceMethod, bytes, now);
      r.Ok? && |r.value| == 43 && r.value in codes' && !codes'[r.value].used &&
      codes'[r.value].expiresAt == now + CODE_TTL_NANOS && codes'[r.value].clientId == clientId &&
      codes'[r.value].redirectUri == redirectUri && codes'[r.value].scope == scope &&
      codes'[r.value].codeChallenge == challenge && codes'[r.value].codeChallengeMethod == pkceMethod &&
      users[FindByEmail(users, ToLower(username)).value].id == codes'[r.value].userId
  {
    ThirtyTwoBytes(bytes);
  }

  /** The checks come in order and none of them writes anything. */
  lemma ExchangeRefusals(codes: map<string, AuthCode>, users: seq<UM.User>, code: string, clientId: Option<string>,
                         verifier: Option<string>, now: int, digest: string -> seq<Byte>, accessTtl: int,
                         generate: (string, int, int, map<string, Option<JwtTokens.ClaimValue>>) -> Result<string>)
    ensures var (r, codes') := ExchangeStep(codes, users, code, clientId, verifier, now, digest, accessTtl, generate);
      (code !in codes || codes[code].used ==> r == Err(IllegalArgument(INVALID_CODE)) && codes' == codes) &&
      (code in codes && !codes[code].used && codes[code].expiresAt < now ==> r == Err(IllegalArgument(CODE_EXPIRED)) && codes' == codes) &&
      (code in codes && !codes[code].used && codes[code].expiresAt >= now && codes[code].clientId.None? ==>
         r == Err(NullReference(STORED_CLIENT_ID)) && codes' == codes) &&
      (code in codes && !codes[code].used && codes[code].expiresAt >= now && codes[code].clientId.Some? &&
       codes[code].clientId != clientId ==>
         r == Err(IllegalArgument(CLIENT_MISMATCH)) && codes' == codes) &&
      (code in codes && !codes[code].used && codes[code].expiresAt >= now && codes[code].clientId == clientId && clientId.Some? &&
       codes[code].codeChallenge.Some? &&
       !VerifyPkce(verifier, codes[code].codeChallenge.value, codes[code].codeChallengeMethod, digest) ==>
         r == Err(IllegalArgument(PKCE_FAILED)) && codes' == codes)
  {
  }

  /** Passing the checks uses the code up, so a second exchange is refused (section 4.1.2 of RFC 6749). */
  lemma CodeIsOneShot(codes: map<string, AuthCode>, users: seq<UM.User>, code: string, clientId: Option<string>,
                      verifier: Option<string>, now: int, digest: string -> seq<Byte>, accessTtl: int,
                      generate: (string, int, int, map<string, Option<JwtTokens.ClaimValue>>) -> Result<string>,
                      clientId': Option<string>, verifier': Option<string>, later: int)
    ensures var codes' := ExchangeStep(codes, users, code, clientId, verifier, now, digest, accessTtl, generate).1;
      CheckExchange(codes, code, clientId, verifier, now, digest).None? ==>
      ExchangeStep(codes', users, code, clientId', verifier', later, digest, accessTtl, generate).0 == Err(IllegalArgument(INVALID_CODE))
    ensures ExchangeStep(codes, users, code, clientId, verifier, now, digest, accessTtl, generate).0.Ok? ==>
      CheckExchange(codes, code, clientId, verifier, now, digest).None?
  {
  }

  /** A successful exchange answers a Bearer token for the code's user that lives accessTtl seconds. */
  lemma ExchangeSuccess(codes: map<string, AuthCode>, users: seq<UM.User>, code: string, clientId: Option<string>,
                        verifier: Option<string>, now: int, digest: string -> seq<Byte>, accessTtl: int,
                        generate: (string, int, int, map<string, Option<JwtTokens.ClaimValue>>) -> Result<string>)
    requires ExchangeStep(codes, users, code, clientId, verifier, now, digest, accessTtl, generate).0.Ok?
    ensures var (r, codes') := ExchangeStep(codes, users, code, clientId, verifier, now, digest, accessTtl, generate);
      var i := FindById(users, codes[code].userId).value;
      r.value.tokenType == "Bearer" && r.value.expiresIn == accessTtl &&
      generate(users[i].email, users[i].id, accessTtl, TokenExtras(codes[code], clientId.value, users[i])) == Ok(r.value.accessToken) &&
      codes' == codes[code := codes[code].(used := true)]
  {
  }

  /** No verifier never passes; a plain challenge needs the verifier itself. */
  lemma PkceRules(verifier: Option<string>, challenge: string, pkceMethod: Option<string>, digest: string -> seq<Byte>)
    ensures verifier.None? ==> !VerifyPkce(verifier, challenge, pkceMethod, digest)
    ensures pkceMethod != Some(S256) ==> (VerifyPkce(verifier, challenge, pkceMethod, digest) <==> verifier == Some(challenge))
    ensures pkceMethod == Some(S256) ==>
      (VerifyPkce(verifier, challenge, pkceMethod, digest) <==> verifier.Some? && EncodeUrlNoPad(digest(verifier.value)) == challenge)
  {
  }

  /**
   * The browser computes the S256 challenge with `btoa` and two rewrites;
   * the server's check accepts exactly that challenge for the same verifier.
   */
  lemma BrowserChallengeVerifies(verifier: string, digest: string -> seq<Byte>)
    ensures VerifyPkce(Some(verifier), BtoaUrl(digest(verifier)), Some(S256), digest)
  {
    BtoaUrlIsUrlNoPad(digest(verifier));
  }

  /** A code stored with the empty challenge (no PKCE sent) is exchanged only with the empty verifier. */
  lemma EmptyChallenge(codes: map<string, AuthCode>, code: string, clientId: Option<string>, verifier: Option<string>,
                       now: int, digest: string -> seq<Byte>)
    requires code in codes && !codes[code].used && codes[code].expiresAt >= now && codes[code].clientId == clientId && clientId.Some?
    requires codes[code].codeChallenge == Some("") && codes[code].codeChallengeMethod != Some(S256)
    ensures CheckExchange(codes, code, clientId, verifier, now, digest).None? <==> verifier == Some("")
  {
  }

  // ------------------------------------------------------------ the service

  class OAuth2Service {
    var clients: map<string, Client>
    var users: seq<UM.User>
    var codes: map<string, AuthCode>
    const accessTtl: int

    constructor(clients: map<string, Client>, users: seq<UM.User>)
      ensures this.clients == clients && this.users == users && codes == map[] && accessTtl == DEFAULT_ACCESS_TTL
    {
      this.clients := clients;
      this.users := users;
      codes := map[];
      accessTtl := DEFAULT_ACCESS_TTL;
    }

    method GenerateAuthorizationCode(clientId: Option<string>, username: string, redirectUri: Option<string>,
                                     scope: Option<string>, challenge: Option<string>, pkceMethod: Option<string>,
                                     bytes: seq<Byte>, now: int) returns (r: Result<string>)
      modifies this
      ensures (r, codes) == GenerateStep(old(codes), users, clientId, username, redirectUri, scope, challenge, pkceMethod, bytes, now)
      ensures users == old(users) && clients == old(clients)
    {
      var found := FindByEmail(users, ToLower(username));
      if found.None? {
        return Err(IllegalArgument(USER_NOT_FOUND));
      }
      var code := EncodeUrlNoPad(bytes);
      var a := AuthCode(code, clientId, users[found.value].id, redirectUri, scope, challenge, pkceMethod, now + CODE_TTL_NANOS, false);
      codes := codes[code := a];
      r := Ok(code);
    }

    method ExchangeCodeForToken(code: string, clientId: Option<string>, verifier: Option<string>, now: int,
                                digest: string -> seq<Byte>,
                                generate: (string, int, int, map<string, Option<JwtTokens.ClaimValue>>) -> Result<string>)
      returns (r: Result<TokenResponse>)
      modifies this
      ensures (r, codes) == ExchangeStep(old(codes), users, code, clientId, verifier, now, digest, accessTtl, generate)
      ensures users == old(users) && clients == old(clients)
    {
      if code !in codes || codes[code].used {
        return Err(IllegalArgument(INVALID_CODE));
      }
      var a := codes[code];
      if a.expiresAt < now {
        return Err(IllegalArgument(CODE_EXPIRED));
      }
      if a.clientId.None? {
        return Err(NullReference(STORED_CLIENT_ID));
      }
      if a.clientId != clientId {
        return Err(IllegalArgument(CLIENT_MISMATCH));
      }
      if a.codeChallenge.Some? && !VerifyPkce(verifier, a.codeChallenge.value, a.codeChallengeMethod, digest) {
        return Err(IllegalArgument(PKCE_FAILED));
      }
      codes := codes[code := a.(used := true)];
      var found := FindById(users, a.userId);
      if found.None? {
        return Err(IllegalArgument(USER_NOT_FOUND));
      }
      var u := users[found.value];
      var token := generate(u.email, u.id, accessTtl, TokenExtras(a, clientId.value, u));
      if token.Err? {
        return Err(token.error);
      }
      r := Ok(TokenResponse(token.value, "Bearer", accessTtl));
    }
  }
}
