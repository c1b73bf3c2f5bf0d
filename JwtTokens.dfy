// The shared RS256 token service: it reads its keys from PEM text, signs
// and verifies tokens, and publishes its public key as a JSON Web Key Set.
// The signature scheme, the key parsers and the token parser belong to
// libraries and are parameters; what is modelled is the text handling
// around them and the service's own decisions.
module JwtTokens {
  import opened Wrappers
  import opened Strings
  import opened Base64

  const BEGIN_HEAD: string := "-----BEGIN "
  const END_HEAD: string := "-----END "
  const DASHES: string := "-----"

  /** The characters `.` does not match in a Java regular expression. */
  predicate IsLineTerminator(c: char)
  {
    c == '\n' || c == '\r' || c == '\U{85}' || c == '\U{2028}' || c == '\U{2029}'
  }

  /** `\s` in a Java regular expression. */
  predicate IsRegexSpace(c: char)
  {
    c == ' ' || c == '\t' || c == '\n' || c == '\U{0B}' || c == '\U{0C}' || c == '\r'
  }

  predicate NotRegexSpace(c: char) { !IsRegexSpace(c) }

  predicate NotDash(c: char) { c != '-' }

  /** The end of the line that contains position `i`: the first line terminator at or after `i`. */
  function LineEnd(s: string, i: nat): (e: nat)
    requires i <= |s|
    ensures i <= e <= |s|
    ensures forall k :: i <= k < e ==> !IsLineTerminator(s[k])
    ensures e < |s| ==> IsLineTerminator(s[e])
    decreases |s| - i
  {
    if i == |s| || IsLineTerminator(s[i]) then i else LineEnd(s, i + 1)
  }

  /** How `(.*)` chooses where the closing dashes are. */
  datatype Quantifier = Greedy | Lazy

  /** The end of the last "-----" lying inside positions [lo, j). */
  function LastDashes(s: string, lo: nat, j: nat): (r: Option<nat>)
    requires j <= |s|
    ensures r.Some? ==> lo + 5 <= r.value <= j
    decreases j
  {
    if j < lo + 5 then None
    else if s[j - 5..j] == DASHES then Some(j)
    else LastDashes(s, lo, j - 1)
  }

  /** The end of the first "-----" starting at or after `k` and ending by `e`. */
  function FirstDashes(s: string, k: nat, e: nat): (r: Option<nat>)
    requires e <= |s|
    ensures r.Some? ==> k + 5 <= r.value <= e
    decreases e - k
  {
    if k + 5 > e then None
    else if s[k..k + 5] == DASHES then Some(k + 5)
    else FirstDashes(s, k + 1, e)
  }

  /**
   * `s.replaceAll(head + "(.*)-----", "")`, scanning left to right: where
   * `head` starts and some "-----" closes it on the same line, the whole match
   * is removed and the scan resumes after it; elsewhere one character is kept.
   */
  function StripMarkers(s: string, head: string, q: Quantifier): (r: string)
    requires |head| > 0
    ensures |r| <= |s|
    decreases |s|
  {
    if s == [] then []
    else
      var m := if IsPrefix(head, s) then
        (var e := LineEnd(s, |head|);
         if q == Greedy then LastDashes(s, |head|, e) else FirstDashes(s, |head|, e))
      else None;
      if m.Some? then StripMarkers(s[m.value..], head, q)
      else [s[0]] + StripMarkers(s[1..], head, q)
  }

  /**
   * The Base64 body of a PEM text: both marker lines removed, then every
   * `\s` character.  The source's pattern is greedy; `Lazy` is the intended
   * reading (see the single-line lemmas below).
   */
  function PemContent(pem: string, q: Quantifier): string
  {
    FilterChars(StripMarkers(StripMarkers(pem, BEGIN_HEAD, q), END_HEAD, q), NotRegexSpace)
  }

  /** The lenient padding: a text whose length is not a multiple of four gets "===" cut to fit. */
  function PadToUnit(s: string): (r: string)
    ensures |r| % 4 == 0
  {
    var m := |s| % 4;
    if m > 0 then s + "==="[..4 - m] else s
  }

  /** Drop every non-alphabet character, pad, and decode with the basic decoder. */
  function DecodeLenient(s: string): Option<seq<Byte>>
  {
    Decode(PadToUnit(FilterChars(s, IsEncodedChar)))
  }

  // ------------------------------------------------------------ marker stripping

  /** Tag characters: what the system puts after BEGIN and END ("PUBLIC KEY", "PRIVATE KEY"). */
  predicate IsTagChar(c: char) { IsUpper(c) || c == ' ' }

  function BeginLine(tag: string): string { BEGIN_HEAD + tag + DASHES }

  function EndLine(tag: string): string { END_HEAD + tag + DASHES }

  lemma {:induction false} LineEndAt(s: string, i: nat, e: nat)
    requires i <= e <= |s|
    requires forall k :: i <= k < e ==> !IsLineTerminator(s[k])
    ensures LineEnd(s, i) >= e
    ensures e == |s| || IsLineTerminator(s[e]) ==> LineEnd(s, i) == e
    decreases e - i
  {
    if i < e {
      LineEndAt(s, i + 1, e);
    }
  }

  lemma {:induction false} FirstDashesAfter(s: string, k: nat, n: nat, e: nat)
    requires k + n + 5 <= e <= |s|
    requires forall i :: k <= i < k + n ==> s[i] != '-'
    requires s[k + n..k + n + 5] == DASHES
    ensures FirstDashes(s, k, e) == Some(k + n + 5)
    decreases n
  {
    if n > 0 {
      assert s[k..k + 5][0] == s[k];
      FirstDashesAfter(s, k + 1, n - 1, e);
    }
  }

  /** Text without a dash passes through unchanged: every marker begins with one. */
  lemma {:induction false} StripDashless(x: string, y: string, head: string, q: Quantifier)
    requires |head| > 0 && head[0] == '-' && All(x, NotDash)
    ensures StripMarkers(x + y, head, q) == x + StripMarkers(y, head, q)
    decreases |x|
  {
    if x != [] {
      var xy := x + y;
      assert xy[0] == x[0] && xy[1..] == x[1..] + y;
      assert !IsPrefix(head, xy) by { assert |xy| >= |head| ==> xy[..|head|][0] == xy[0]; }
      assert All(x[1..], NotDash) by { assert forall i :: 0 <= i < |x[1..]| ==> x[1..][i] == x[i + 1]; }
      StripDashless(x[1..], y, head, q);
      assert [x[0]] + (x[1..] + StripMarkers(y, head, q)) == x + StripMarkers(y, head, q);
    } else {
      assert x + y == y;
    }
  }

  /** Text in which the marker occurs nowhere is left as it is. */
  lemma {:induction false} StripNoMatch(s: string, head: string, q: Quantifier)
    requires |head| > 0
    requires forall i :: 0 <= i < |s| ==> !IsPrefix(head, s[i..])
    ensures StripMarkers(s, head, q) == s
    decreases |s|
  {
    if s != [] {
      assert s[0..] == s;
      forall i | 0 <= i < |s[1..]| ensures !IsPrefix(head, s[1..][i..]) {
        assert s[1..][i..] == s[i + 1..];
      }
      StripNoMatch(s[1..], head, q);
      assert [s[0]] + s[1..] == s;
    }
  }

  /** An END line, possibly followed by a line break, has no BEGIN marker in it. */
  lemma EndLineKept(tag: string, t: string, q: Quantifier)
    requires All(tag, IsTagChar) && (t == "" || t == "\n")
    ensures StripMarkers(EndLine(tag) + t, BEGIN_HEAD, q) == EndLine(tag) + t
  {
    var s := EndLine(tag) + t;
    var n := |tag|;
    assert |s| == 14 + n + |t|;
    forall i | 0 <= i < |s| ensures !IsPrefix(BEGIN_HEAD, s[i..]) {
      if i + 11 <= |s| {
        var w := s[i..][..11];
        if i == 0 {
          assert w[5] == 'E';
        } else if i < 5 {
          assert w[4] == s[i + 4] == END_HEAD[i + 4];
        } else if i < 9 {
          assert w[0] == s[i] == END_HEAD[i];
        } else {
          assert w[0] == s[i] == tag[i - 9];
        }
      }
    }
    StripNoMatch(s, BEGIN_HEAD, q);
  }

  predicate NotLineTerminator(c: char) { !IsLineTerminator(c) }

  /**
   * A marker line at the start of the text is removed, whichever quantifier
   * is used, when the line ends right after its closing dashes; the lazy
   * pattern removes it whatever follows.
   */
  lemma MarkerLineMatch(head: string, tag: string, rest: string, q: Quantifier)
    requires head == BEGIN_HEAD || head == END_HEAD
    requires All(tag, IsTagChar)
    requires q == Lazy || rest == [] || IsLineTerminator(rest[0])
    ensures StripMarkers(head + tag + DASHES + rest, head, q) == StripMarkers(rest, head, q)
  {
    var h, n := |head|, |tag|;
    var s := head + tag + DASHES + rest;
    var b := h + n + 5;
    assert s[..h] == head;
    assert s[..b] == head + tag + DASHES && s[b..] == rest;
    forall k | 0 <= k < b ensures !IsLineTerminator(s[k]) && (h <= k < h + n ==> s[k] != '-') {
      if k < h {
        assert s[k] == head[k];
      } else if k < h + n {
        assert s[k] == tag[k - h];
      } else {
        assert s[k] == DASHES[k - h - n];
      }
    }
    LineEndAt(s, h, b);
    var e := LineEnd(s, h);
    assert s[b - 5..b] == DASHES;
    if q == Greedy {
      assert LastDashes(s, h, e) == Some(b);
    } else {
      FirstDashesAfter(s, h, n, e);
    }
  }

  /** On a PEM text written on one line the greedy pattern runs to the last dashes of the line. */
  lemma GreedyBeginSwallowsLine(tag: string, body: string, tag2: string)
    requires All(tag, IsTagChar) && All(tag2, IsTagChar) && All(body, NotLineTerminator)
    ensures StripMarkers(BeginLine(tag) + body + EndLine(tag2), BEGIN_HEAD, Greedy) == ""
  {
    var s := BeginLine(tag) + body + EndLine(tag2);
    var n, m := |tag|, |body|;
    assert s[..11] == BEGIN_HEAD;
    forall k | 11 <= k < |s| ensures !IsLineTerminator(s[k]) {
      if k < 11 + n {
        assert s[k] == tag[k - 11];
      } else if k < 16 + n {
        assert s[k] == DASHES[k - 11 - n];
      } else if k < 16 + n + m {
        assert s[k] == body[k - 16 - n];
      } else if k < 25 + n + m {
        assert s[k] == END_HEAD[k - 16 - n - m];
      } else if k < 25 + n + m + |tag2| {
        assert s[k] == tag2[k - 25 - n - m];
      } else {
        assert s[k] == DASHES[k - 25 - n - m - |tag2|];
      }
    }
    LineEndAt(s, 11, |s|);
    assert s[|s| - 5..] == DASHES;
    assert LastDashes(s, 11, |s|) == Some(|s|);
  }

  lemma StripNewline(head: string, q: Quantifier)
    requires |head| > 1
    ensures StripMarkers("\n", head, q) == "\n"
  {
    assert "\n"[1..] == [];
  }

  lemma FilterSpaces(x: string, m: string)
    requires x == "\n" + m + "\n" + "\n"
    ensures FilterChars(x, NotRegexSpace) == FilterChars(m, NotRegexSpace)
  {
    var nl := FilterChars("\n", NotRegexSpace);
    assert nl == [];
    FilterAppend("\n" + m + "\n", "\n", NotRegexSpace);
    FilterAppend("\n" + m, "\n", NotRegexSpace);
    FilterAppend("\n", m, NotRegexSpace);
  }

  /**
   * A PEM text laid out as the system writes it (BEGIN line, body, END line,
   * each ending in a line break) yields its body without whitespace, under
   * the greedy pattern as under the lazy one.
   */
  lemma WrittenPemContent(tag: string, m: string, q: Quantifier)
    requires All(tag, IsTagChar) && All(m, NotDash)
    ensures PemContent(BeginLine(tag) + "\n" + m + "\n" + EndLine(tag) + "\n", q) == FilterChars(m, NotRegexSpace)
  {
    var x := "\n" + m + "\n";
    var e := EndLine(tag) + "\n";
    var pem := BeginLine(tag) + "\n" + m + "\n" + EndLine(tag) + "\n";
    assert pem == BEGIN_HEAD + tag + DASHES + (x + e);
    assert All(x, NotDash);
    MarkerLineMatch(BEGIN_HEAD, tag, x + e, q);
    StripDashless(x, e, BEGIN_HEAD, q);
    EndLineKept(tag, "\n", q);
    var afterBegin := StripMarkers(pem, BEGIN_HEAD, q);
    assert afterBegin == x + e;
    StripDashless(x, e, END_HEAD, q);
    assert e == END_HEAD + tag + DASHES + "\n";
    MarkerLineMatch(END_HEAD, tag, "\n", q);
    StripNewline(END_HEAD, q);
    assert StripMarkers(afterBegin, END_HEAD, q) == x + "\n";
    FilterSpaces(x + "\n", m);
  }

  /**
   * The same text on a single line: the greedy BEGIN pattern removes the
   * whole line, the lazy one leaves exactly the body.
   */
  lemma SingleLinePemContent(tag: string, body: string)
    requires All(tag, IsTagChar) && All(body, NotDash) && All(body, NotLineTerminator)
    ensures PemContent(BeginLine(tag) + body + EndLine(tag), Greedy) == ""
    ensures PemContent(BeginLine(tag) + body + EndLine(tag), Lazy) == FilterChars(body, NotRegexSpace)
  {
    var pem := BeginLine(tag) + body + EndLine(tag);
    GreedyBeginSwallowsLine(tag, body, tag);
    assert StripMarkers("", END_HEAD, Greedy) == "";
    assert pem == BEGIN_HEAD + tag + DASHES + (body + EndLine(tag));
    MarkerLineMatch(BEGIN_HEAD, tag, body + EndLine(tag), Lazy);
    StripDashless(body, EndLine(tag), BEGIN_HEAD, Lazy);
    EndLineKept(tag, "", Lazy);
    assert EndLine(tag) + "" == EndLine(tag);
    var afterBegin := StripMarkers(pem, BEGIN_HEAD, Lazy);
    assert afterBegin == body + EndLine(tag);
    StripDashless(body, EndLine(tag), END_HEAD, Lazy);
    assert EndLine(tag) == END_HEAD + tag + DASHES + "";
    MarkerLineMatch(END_HEAD, tag, "", Lazy);
    assert StripMarkers(afterBegin, END_HEAD, Lazy) == body + "";
    assert body + "" == body;
  }

  // ------------------------------------------------------------ lenient decoding

  /** Whatever the basic encoder writes decodes back to the same bytes. */
  lemma LenientOfEncoded(b: seq<Byte>)
    ensures DecodeLenient(Encode(b)) == Some(b)
  {
    var s := Encode(b);
    EncodeChars(b);
    FilterAllKept(s, IsEncodedChar);
    EncodedLength(b);
    assert PadToUnit(s) == s;
    DecodeEncode(b);
  }

  lemma UnpaddedMod(n: nat)
    ensures n % 3 == 0 ==> ((4 * n + 2) / 3) % 4 == 0
    ensures n % 3 == 1 ==> ((4 * n + 2) / 3) % 4 == 2
    ensures n % 3 == 2 ==> ((4 * n + 2) / 3) % 4 == 3
  {
    var q, r := n / 3, n % 3;
    assert 4 * n + 2 == 3 * (4 * q) + (4 * r + 2);
    assert (4 * n + 2) / 3 == 4 * q + (4 * r + 2) / 3;
  }

  lemma PadUnpadded(u: string, n: nat)
    requires |u| == (4 * n + 2) / 3
    ensures PadToUnit(u) == u + Padding(n)
  {
    UnpaddedMod(n);
  }

  lemma AllPrefix(x: string, y: string, p: char -> bool)
    requires All(x + y, p)
    ensures All(x, p)
  {
    forall i | 0 <= i < |x| ensures p(x[i]) {
      assert x[i] == (x + y)[i];
    }
  }

  /** Base64 copied without its '=' padding decodes as if the padding were there. */
  lemma LenientRestoresPadding(b: seq<Byte>)
    ensures DecodeLenient(Encoded(b, Standard, false)) == Some(b)
  {
    var u := Encoded(b, Standard, false);
    PaddedSplit(b, Standard);
    EncodeChars(b);
    AllPrefix(u, Padding(|b|), IsEncodedChar);
    FilterAllKept(u, IsEncodedChar);
    UnpaddedLength(b, Standard);
    PadUnpadded(u, |b|);
    DecodeEncode(b);
  }

  /** A text ending in "===" never decodes. */
  lemma {:induction false} DecodeTripleEquals(t: string)
    requires |t| % 4 == 0 && |t| >= 4 && t[|t| - 3..] == "==="
    ensures Decode(t) == None
    decreases |t|
  {
    assert t[|t| - 3] == '=' && t[|t| - 2] == '=';
    if |t| > 4 && IsStdChar(t[0]) && IsStdChar(t[1]) && IsStdChar(t[2]) && IsStdChar(t[3]) {
      var r := t[4..];
      assert r[|r| - 3..] == t[|t| - 3..];
      DecodeTripleEquals(r);
    } else if |t| == 4 {
      assert !IsStdChar(t[1]) && !IsStdChar(t[2]) && !IsStdChar(t[3]);
    }
  }

  /** A single character left over after the full units cannot be decoded. */
  lemma LenientRejectsDangling(s: string)
    requires |FilterChars(s, IsEncodedChar)| % 4 == 1
    ensures DecodeLenient(s) == None
  {
    var f := FilterChars(s, IsEncodedChar);
    var t := PadToUnit(f);
    assert t == f + "===";
    assert t[|t| - 3..] == "===";
    DecodeTripleEquals(t);
  }

  // ------------------------------------------------------------ the service

  /** The parse failure's message is this prefix followed by the message of
    * the exception the decoder or the key factory threw. */
  const PARSE_FAILED: string := "Failed to parse RSA keys from PEM: "
  const PUBLIC_KEY_REQUIRED: string :=
    "RSA public key (cdb.security.jwt.rsa.public-key) is required but was not provided or could not be parsed"
  const SIGNING_KEY_MISSING: string := "RS256 signing requested but private key is not configured on this service"

  /** A claim value: the model keeps strings and numbers apart and treats every other value as opaque. */
  datatype ClaimValue = Text(text: string) | Number(number: int) | Opaque(id: int)

  type Claims = map<string, ClaimValue>

  /** The header fields the service sets; the signing algorithm is chosen by the signer. */
  datatype Header = Header(kid: Option<string>)

  /** The key material the service holds: the private key only on issuers. */
  datatype JwtService<Pub, Priv> = JwtService(privateKey: Option<Priv>, publicKey: Pub, keyId: Option<string>)

  /**
   * A key in DER form taken from its PEM text, with the greedy marker
   * patterns the service uses; `parse` is the X.509 or PKCS#8 key factory.
   */
  function ParseKey<K>(pem: string, parse: seq<Byte> -> Option<K>): Option<K>
  {
    match DecodeLenient(PemContent(pem, Greedy))
    case None => None
    case Some(der) => parse(der)
  }

  /** The configured key id: missing or blank is no key id, anything else is trimmed. */
  function NormalizeKeyId(keyId: Option<string>): Option<string>
  {
    if keyId.None? || JavaIsBlank(keyId.value) then None else Some(JavaTrim(keyId.value))
  }

  predicate Present(s: Option<string>) { s.Some? && !JavaIsBlank(s.value) }

  /** The constructor: parse whichever PEM texts are present; the public key
    * is mandatory.  `cause` is the message of the exception a failed parse
    * threw, which the library writes. */
  function Construct<Pub, Priv>(privatePem: Option<string>, publicPem: Option<string>, keyId: Option<string>,
                                parsePublic: seq<Byte> -> Option<Pub>, parsePrivate: seq<Byte> -> Option<Priv>,
                                cause: string)
    : Result<JwtService<Pub, Priv>>
  {
    var pub := if Present(publicPem) then ParseKey(publicPem.value, parsePublic) else None;
    var priv := if Present(privatePem) then ParseKey(privatePem.value, parsePrivate) else None;
    if Present(publicPem) && pub.None? then Err(IllegalState(PARSE_FAILED + cause))
    else if Present(privatePem) && priv.None? then Err(IllegalState(PARSE_FAILED + cause))
    else if pub.None? then Err(IllegalState(PUBLIC_KEY_REQUIRED))
    else Ok(JwtService(priv, pub.value, NormalizeKeyId(keyId)))
  }

  /** The key id the token header carries. */
  function HeaderKid<Pub, Priv>(svc: JwtService<Pub, Priv>): Option<string>
  {
    if svc.keyId.Some? && !JavaIsBlank(svc.keyId.value) then svc.keyId else None
  }

  /**
   * The claims of a new token: subject, user id, issue and expiry time (in
   * seconds), then every extra claim in turn; a missing value removes its claim.
   */
  function TokenClaims(subject: Option<string>, userId: Option<int>, now: int, ttl: int,
                       extra: map<string, Option<ClaimValue>>): Claims
  {
    var base: Claims := (if subject.Some? then map["sub" := Text(subject.value)] else map[])
      + (if userId.Some? then map["userId" := Number(userId.value)] else map[])
      + map["iat" := Number(now), "exp" := Number(now + ttl)];
    map k | k in base.Keys + extra.Keys && !(k in extra && extra[k].None?) ::
      if k in extra then extra[k].value else base[k]
  }

  /** `generate`: a missing signing key is an error; `sign` is the library's signer. */
  function Generate<Pub, Priv>(svc: JwtService<Pub, Priv>, subject: Option<string>, userId: Option<int>, ttl: int,
                               extra: Option<map<string, Option<ClaimValue>>>, now: int,
                               sign: (Header, Claims, Priv) -> string): Result<string>
  {
    if svc.privateKey.None? then Err(IllegalState(SIGNING_KEY_MISSING))
    else Ok(sign(Header(HeaderKid(svc)), TokenClaims(subject, userId, now, ttl, extra.GetOr(map[])), svc.privateKey.value))
  }

  /** `verify` is the library's parser: the claims of a token whose signature the key accepts. */
  function ParseClaims<Pub, Priv>(svc: JwtService<Pub, Priv>, token: string, verify: (Pub, string) -> Option<Claims>): Result<Claims>
  {
    match verify(svc.publicKey, token)
    case None => Err(InvalidToken(token))
    case Some(c) => Ok(c)
  }

  function Validate<Pub, Priv>(svc: JwtService<Pub, Priv>, token: string, verify: (Pub, string) -> Option<Claims>): bool
  {
    ParseClaims(svc, token, verify).Ok?
  }

  function Subject<Pub, Priv>(svc: JwtService<Pub, Priv>, token: string, verify: (Pub, string) -> Option<Claims>): Option<string>
  {
    match ParseClaims(svc, token, verify)
    case Err(_) => None
    case Ok(c) => if "sub" in c && c["sub"].Text? then Some(c["sub"].text) else None
  }

  /** A usable service exists exactly when a present public PEM parses and a present private PEM parses too. */
  lemma ConstructOutcome<Pub, Priv>(privatePem: Option<string>, publicPem: Option<string>, keyId: Option<string>,
                                    parsePublic: seq<Byte> -> Option<Pub>, parsePrivate: seq<Byte> -> Option<Priv>,
                                    cause: string)
    ensures var r := Construct(privatePem, publicPem, keyId, parsePublic, parsePrivate, cause);
      var pub := ParseKey(publicPem.GetOr(""), parsePublic);
      var privOk := !Present(privatePem) || ParseKey(privatePem.value, parsePrivate).Some?;
      (r.Ok? <==> Present(publicPem) && pub.Some? && privOk)
      && (r.Ok? ==> r.value.publicKey == pub.value
                    && r.value.privateKey == (if Present(privatePem) then ParseKey(privatePem.value, parsePrivate) else None)
                    && r.value.keyId == NormalizeKeyId(keyId))
      && (!Present(publicPem) && privOk ==> r == Err(IllegalState(PUBLIC_KEY_REQUIRED)))
      && (Present(publicPem) && pub.None? ==> r == Err(IllegalState(PARSE_FAILED + cause)))
      && (Present(privatePem) && !privOk ==> r == Err(IllegalState(PARSE_FAILED + cause)))
      && (r.Err? ==> r.error.IllegalState?)
  {
  }

  /**
   * A public key written on one line leaves no content under the greedy
   * markers, and the key factory refuses the empty encoding, so the
   * constructor fails to parse it.
   */
  lemma SingleLineConstructFails<Pub, Priv>(tag: string, body: string, privatePem: Option<string>, keyId: Option<string>,
                                            parsePublic: seq<Byte> -> Option<Pub>, parsePrivate: seq<Byte> -> Option<Priv>,
                                            cause: string)
    requires All(tag, IsTagChar) && All(body, NotDash) && All(body, NotLineTerminator)
    requires parsePublic([]) == None
    ensures Construct(privatePem, Some(BeginLine(tag) + body + EndLine(tag)), keyId, parsePublic, parsePrivate, cause)
      == Err(IllegalState(PARSE_FAILED + cause))
  {
    var pem := BeginLine(tag) + body + EndLine(tag);
    SingleLinePemContent(tag, body);
    assert FilterChars("", IsEncodedChar) == "";
    assert PadToUnit("") == "";
    assert DecodeLenient("") == Some([]);
    assert pem[0] == '-';
    assert !JavaIsBlank(pem) by {
      assert !IsJavaWhitespace(pem[0]);
    }
  }

  /** The key id is kept, trimmed, exactly when it is present and not blank. */
  lemma KeyIdNormalized(keyId: Option<string>)
    ensures NormalizeKeyId(keyId).None? <==> !Present(keyId)
    ensures NormalizeKeyId(keyId).Some? ==> NormalizeKeyId(keyId).value == JavaTrim(keyId.value)
  {
  }

  /**
   * The header carries the configured key id unless that id is blank, which
   * happens when the configured id is made only of characters `trim` removes
   * but `isBlank` does not count as white space; the key set publishes it anyway.
   */
  lemma HeaderKidAgreement<Pub, Priv>(svc: JwtService<Pub, Priv>)
    ensures HeaderKid(svc) == svc.keyId <==> !(svc.keyId.Some? && JavaIsBlank(svc.keyId.value))
  {
  }

  lemma ControlCharKeyId()
    ensures NormalizeKeyId(Some("\U{01}")) == Some("")
  {
    assert !JavaIsBlank("\U{01}") by { assert !IsJavaWhitespace("\U{01}"[0]); }
    TrimEmptyIff("\U{01}", IsJavaTrimmable);
  }

  /** Extra claims override the built-in ones; a missing extra value removes the claim. */
  lemma ExtraClaimsWin(subject: Option<string>, userId: Option<int>, now: int, ttl: int,
                       extra: map<string, Option<ClaimValue>>, k: string)
    requires k in extra
    ensures var c := TokenClaims(subject, userId, now, ttl, extra);
      (k in c <==> extra[k].Some?) && (extra[k].Some? ==> c[k] == extra[k].value)
  {
  }

  /** Without an overriding extra claim, the built-in claims are the ones given. */
  lemma BuiltInClaims(subject: Option<string>, userId: Option<int>, now: int, ttl: int,
                      extra: map<string, Option<ClaimValue>>)
    ensures var c := TokenClaims(subject, userId, now, ttl, extra);
      (forall k :: k in c ==> k in extra || k in {"sub", "userId", "iat", "exp"})
      && ("exp" !in extra ==> "exp" in c && c["exp"] == Number(now + ttl))
      && ("iat" !in extra ==> "iat" in c && c["iat"] == Number(now))
      && ("sub" !in extra ==> ("sub" in c <==> subject.Some?) && (subject.Some? ==> c["sub"] == Text(subject.value)))
      && ("userId" !in extra ==> ("userId" in c <==> userId.Some?) && (userId.Some? ==> c["userId"] == Number(userId.value)))
  {
  }

  /** Only a service holding a private key can issue tokens. */
  lemma GenerateNeedsSigningKey<Pub, Priv>(svc: JwtService<Pub, Priv>, subject: Option<string>, userId: Option<int>, ttl: int,
                                           extra: Option<map<string, Option<ClaimValue>>>, now: int,
                                           sign: (Header, Claims, Priv) -> string)
    ensures Generate(svc, subject, userId, ttl, extra, now, sign).Ok? <==> svc.privateKey.Some?
    ensures svc.privateKey.None? ==> Generate(svc, subject, userId, ttl, extra, now, sign) == Err(IllegalState(SIGNING_KEY_MISSING))
  {
  }

  /**
   * With a matching key pair, a token the service issues validates and
   * carries the subject it was issued for, unless an extra claim replaced it.
   */
  lemma GenerateThenSubject<Pub, Priv>(svc: JwtService<Pub, Priv>, subject: Option<string>, userId: Option<int>, ttl: int,
                                       extra: Option<map<string, Option<ClaimValue>>>, now: int,
                                       sign: (Header, Claims, Priv) -> string, verify: (Pub, string) -> Option<Claims>)
    requires svc.privateKey.Some?
    requires forall h, c :: verify(svc.publicKey, sign(h, c, svc.privateKey.value)) == Some(c)
    requires extra.None? || "sub" !in extra.value
    ensures var t := Generate(svc, subject, userId, ttl, extra, now, sign);
      t.Ok? && Validate(svc, t.value, verify) && Subject(svc, t.value, verify) == subject
  {
    var x := extra.GetOr(map[]);
    var c := TokenClaims(subject, userId, now, ttl, x);
    BuiltInClaims(subject, userId, now, ttl, x);
    var h := Header(HeaderKid(svc));
    assert verify(svc.publicKey, sign(h, c, svc.privateKey.value)) == Some(c);
  }

  /** A subject is only ever read from a token that validates. */
  lemma SubjectNeedsValidToken<Pub, Priv>(svc: JwtService<Pub, Priv>, token: string, verify: (Pub, string) -> Option<Claims>)
    ensures Subject(svc, token, verify).Some? ==> Validate(svc, token, verify)
    ensures Validate(svc, token, verify) <==> verify(svc.publicKey, token).Some?
  {
  }

  // ------------------------------------------------------------ the key set

  /** The public key's entry in the key set; `keyUse` is the JWK member `use`. */
  datatype Jwk = Jwk(kty: string, alg: string, kid: Option<string>, keyUse: string, n: string, e: string)

  /** The big-endian bytes of `n` without leading zero bytes; zero has none. */
  function UnsignedBytes(n: nat): seq<Byte>
    decreases n
  {
    if n == 0 then [] else UnsignedBytes(n / 256) + [n % 256]
  }

  /** The number a big-endian byte string stands for. */
  function ValueOf(bs: seq<Byte>): nat
    decreases |bs|
  {
    if bs == [] then 0 else ValueOf(bs[..|bs| - 1]) * 256 + bs[|bs| - 1]
  }

  /** `BigInteger.toByteArray()` of a non-negative number: the shortest two's-complement form. */
  function ToByteArray(n: nat): seq<Byte>
  {
    var u := UnsignedBytes(n);
    if u == [] || u[0] >= 128 then [0] + u else u
  }

  /** The service's `base64Url`: one leading zero byte dropped, then URL-safe Base64 without padding. */
  function JwkInteger(bytes: seq<Byte>): string
  {
    EncodeUrlNoPad(if |bytes| > 0 && bytes[0] == 0 then bytes[1..] else bytes)
  }

  /** `getJwks()`: one entry for an RSA public key, none otherwise; `rsa` gives modulus and exponent. */
  function Jwks<Pub, Priv>(svc: JwtService<Pub, Priv>, rsa: Pub -> Option<(nat, nat)>): seq<Jwk>
  {
    match rsa(svc.publicKey)
    case None => []
    case Some((modulus, exponent)) =>
      [Jwk("RSA", "RS256", svc.keyId, "sig", JwkInteger(ToByteArray(modulus)), JwkInteger(ToByteArray(exponent)))]
  }

  lemma {:induction false} UnsignedBytesValue(n: nat)
    ensures ValueOf(UnsignedBytes(n)) == n
    ensures UnsignedBytes(n) == [] <==> n == 0
    ensures n > 0 ==> UnsignedBytes(n)[0] != 0
    decreases n
  {
    if n > 0 {
      var u := UnsignedBytes(n / 256);
      UnsignedBytesValue(n / 256);
      assert (u + [n % 256])[..|u|] == u;
      if n / 256 == 0 {
        assert u == [];
      } else {
        assert (u + [n % 256])[0] == u[0];
      }
    }
  }

  lemma {:induction false} LeadingZero(u: seq<Byte>)
    ensures ValueOf([0] + u) == ValueOf(u)
    decreases |u|
  {
    if u != [] {
      var v := [0] + u;
      assert v[..|v| - 1] == [0] + u[..|u| - 1];
      LeadingZero(u[..|u| - 1]);
    } else {
      assert ValueOf([0]) == ValueOf([0][..0]) * 256 + 0;
    }
  }

  /** `toByteArray` is a sign-bit-clear big-endian form of the number, with no redundant zero byte. */
  lemma ToByteArrayForm(n: nat)
    ensures var r := ToByteArray(n);
      |r| >= 1 && r[0] < 128 && ValueOf(r) == n && (|r| == 1 || r[0] != 0 || r[1] >= 128)
  {
    UnsignedBytesValue(n);
    LeadingZero(UnsignedBytes(n));
  }

  /**
   * Each published integer is the URL-safe encoding of the number's shortest
   * unsigned big-endian bytes, the form section 6.3.1 of RFC 7518 requires.
   */
  lemma JwkIntegerIsMagnitude(n: nat)
    requires n > 0
    ensures JwkInteger(ToByteArray(n)) == EncodeUrlNoPad(UnsignedBytes(n))
  {
    UnsignedBytesValue(n);
    var u := UnsignedBytes(n);
    if u[0] >= 128 {
      assert ([0] + u)[1..] == u;
    }
  }

  lemma JwksShape<Pub, Priv>(svc: JwtService<Pub, Priv>, rsa: Pub -> Option<(nat, nat)>)
    ensures rsa(svc.publicKey).None? <==> Jwks(svc, rsa) == []
    ensures rsa(svc.publicKey).Some? ==>
      var k := Jwks(svc, rsa);
      |k| == 1 && k[0].kty == "RSA" && k[0].alg == "RS256" && k[0].keyUse == "sig" && k[0].kid == svc.keyId
      && (rsa(svc.publicKey).value.0 > 0 ==> k[0].n == EncodeUrlNoPad(UnsignedBytes(rsa(svc.publicKey).value.0)))
      && (rsa(svc.publicKey).value.1 > 0 ==> k[0].e == EncodeUrlNoPad(UnsignedBytes(rsa(svc.publicKey).value.1)))
  {
    if rsa(svc.publicKey).Some? {
      var (m, x) := rsa(svc.publicKey).value;
      if m > 0 { JwkIntegerIsMagnitude(m); }
      if x > 0 { JwkIntegerIsMagnitude(x); }
    }
  }
}
