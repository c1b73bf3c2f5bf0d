// The table of unauthenticated paths of the security filter and the test
// that decides whether a request path is one of them.
module PublicEndpoints {
  import opened Wrappers
  import opened Strings

  const PUBLIC_PATTERNS: seq<string> := [
    "/index.html", "/login", "/signup", "/signup/", "/login/", "/app/",
    "/static/", "/assets/", "/favicon.ico", "/manifest.webmanifest",
    "/v3/api-docs/", "/swagger-ui.html", "/swagger-ui/",
    "/api/v1/providers/register/precheck", "/api/v1/providers/register",
    "/api/v1/users/exists", "/api/v1/users/register", "/api/v1/auth/login",
    "/api/v1/otp/**",
    "/api/v1/api-registry/discovery/**",
    "/.well-known/jwks.json", "/jwks.json",
    "/oauth2/**",
    "/error"]

  // The two wildcard suffixes; named constants keep the verifier from
  // unfolding the replacement over every literal pattern.
  const DOUBLE_STAR: string := "/**"
  const SINGLE_STAR: string := "/*"

  // The stems of the three wildcard patterns.
  const OTP_STEM: string := "/api/v1/otp"
  const DISCOVERY_STEM: string := "/api/v1/api-registry/discovery"
  const OAUTH_STEM: string := "/oauth2"

  predicate IsWildcard(p: string) { IsSuffix(DOUBLE_STAR, p) || IsSuffix(SINGLE_STAR, p) }

  // The prefix a wildcard pattern stands for: both "/**" and "/*" become "/".
  function WildcardBase(p: string): string
  {
    ReplaceAll(ReplaceAll(p, DOUBLE_STAR, "/"), SINGLE_STAR, "/")
  }

  /** The three tests one pattern applies, in the order the filter applies them. */
  predicate Matches(p: string, path: string)
  {
    (IsWildcard(p) && IsPrefix(WildcardBase(p), path))
    || (IsSuffix("/", p) && IsPrefix(p, path))
    || path == p
  }

  predicate MatchesAny(patterns: seq<string>, path: string)
  {
    exists i :: 0 <= i < |patterns| && Matches(patterns[i], path)
  }

  /** A path is public when it is null or some pattern of the table matches it. */
  predicate IsPublic(path: Option<string>)
  {
    path.None? || MatchesAny(PUBLIC_PATTERNS, path.value)
  }

  /** The filter's loop: the first matching pattern returns true at once. */
  method AnyPatternMatches(patterns: seq<string>, s: string) returns (r: bool)
    ensures r == MatchesAny(patterns, s)
  {
    var i := 0;
    while i < |patterns|
      invariant 0 <= i <= |patterns|
      invariant forall j :: 0 <= j < i ==> !Matches(patterns[j], s)
    {
      var p := patterns[i];
      if IsSuffix(DOUBLE_STAR, p) || IsSuffix(SINGLE_STAR, p) {
        var base := WildcardBase(p);
        if IsPrefix(base, s) {
          return true;
        }
      }
      if IsSuffix("/", p) {
        if IsPrefix(p, s) {
          return true;
        }
      }
      if s == p {
        return true;
      }
      assert !Matches(p, s);
      i := i + 1;
    }
    return false;
  }

  method IsPublicPath(path: Option<string>) returns (r: bool)
    ensures r == IsPublic(path)
    ensures path.None? ==> r
  {
    if path.None? {
      return true;
    }
    r := AnyPatternMatches(PUBLIC_PATTERNS, path.value);
  }

  // A "/**" pattern whose stem has no star admits everything strictly below the stem ...
  lemma WildcardAdmitsBelow(q: string, path: string)
    requires '*' !in q && IsPrefix(q + "/", path)
    ensures Matches(q + DOUBLE_STAR, path)
  {
    var p := q + DOUBLE_STAR;
    assert IsSuffix(DOUBLE_STAR, p) by { assert p[|p| - 3..] == DOUBLE_STAR; }
    ReplaceStarSuffix(q);
    assert '*' !in q + "/";
    ReplaceAbsent(q + "/", SINGLE_STAR, "/");
  }

  // ... but not the stem itself.
  lemma WildcardExcludesStem(q: string)
    requires '*' !in q
    ensures !Matches(q + DOUBLE_STAR, q)
  {
    ReplaceStarSuffix(q);
    assert '*' !in q + "/";
    ReplaceAbsent(q + "/", SINGLE_STAR, "/");
    var p := q + DOUBLE_STAR;
    assert p[|p| - 1] == '*';
  }

  /** A pattern with neither a wildcard nor a trailing '/' matches only itself. */
  lemma ExactPatternIsExact(p: string, path: string)
    requires !IsWildcard(p) && !IsSuffix("/", p)
    ensures Matches(p, path) <==> path == p
  {
  }

  lemma OtpPattern()
    ensures PUBLIC_PATTERNS[18] == OTP_STEM + DOUBLE_STAR && '*' !in OTP_STEM
  {
  }

  lemma OtpVerifyIsPublic()
    ensures IsPublic(Some("/api/v1/otp/verify"))
  {
    OtpPattern();
    WildcardAdmitsBelow(OTP_STEM, "/api/v1/otp/verify");
    assert Matches(PUBLIC_PATTERNS[18], "/api/v1/otp/verify");
  }

  /** The OTP wildcard does not make the bare "/api/v1/otp" public. */
  lemma OtpRootNotMatchedByWildcard()
    ensures !Matches(PUBLIC_PATTERNS[18], OTP_STEM)
  {
    OtpPattern();
    WildcardExcludesStem(OTP_STEM);
  }

  lemma RegisterIsPublic()
    ensures IsPublic(Some("/api/v1/providers/register"))
  {
    assert Matches(PUBLIC_PATTERNS[14], "/api/v1/providers/register");
  }

  /** The registration pattern is exact, so it admits no path below it. */
  lemma RegisterChildNotMatched()
    ensures !Matches(PUBLIC_PATTERNS[14], "/api/v1/providers/register/x")
  {
    var p := PUBLIC_PATTERNS[14];
    assert p[|p| - 1] == 'r';
    ExactPatternIsExact(p, "/api/v1/providers/register/x");
    assert |p| != |"/api/v1/providers/register/x"|;
  }
}
