// The provider registry UI's PKCE helpers (RFC 7636): a verifier made of 32
// random bytes and the S256 challenge of a verifier, both written in the
// browser's Base64 turned URL-safe. The random source, the UTF-8 encoder and
// SHA-256 are parameters.
module Pkce {
  import opened Wrappers
  import opened Strings
  import opened Base64
  import OAuth2

  /** The binary string `String.fromCharCode` builds, one character per byte. */
  function ByteString(b: seq<Byte>): (s: string)
    ensures |s| == |b| && forall i :: 0 <= i < |b| ==> s[i] as int == b[i]
  {
    seq(|b|, i requires 0 <= i < |b| => b[i] as char)
  }

  /** `btoa` reads each character of a binary string as one byte. */
  function BytesOf(s: string): (b: seq<Byte>)
    requires forall i :: 0 <= i < |s| ==> s[i] as int < 256
    ensures |b| == |s| && forall i :: 0 <= i < |s| ==> b[i] == s[i] as int
  {
    seq(|s|, i requires 0 <= i < |s| => s[i] as int)
  }

  /** `base64URLEncode(array)`: the bytes are appended to a binary string one at a
    * time, which `btoa` encodes and the three rewrites make URL-safe. */
  method Base64UrlEncode(bytes: seq<Byte>) returns (r: string)
    ensures r == BtoaUrl(bytes)
  {
    var str := "";
    var i := 0;
    while i < |bytes|
      invariant 0 <= i <= |bytes|
      invariant str == ByteString(bytes[..i])
    {
      str := str + [bytes[i] as char];
      i := i + 1;
    }
    assert bytes[..i] == bytes;
    assert BytesOf(str) == bytes;
    r := BtoaUrl(BytesOf(str));
  }

  /** `generateCodeVerifier`, given the 32 bytes `getRandomValues` filled in. */
  function CodeVerifier(random: seq<Byte>): string
  {
    BtoaUrl(random)
  }

  /** `generateCodeChallenge`: the encoded SHA-256 digest of the verifier's
    * UTF-8 bytes. */
  function CodeChallenge(verifier: string, utf8: string -> seq<Byte>, sha256: seq<Byte> -> seq<Byte>): string
  {
    BtoaUrl(sha256(utf8(verifier)))
  }

  /** The helper's encoding is section 5 of RFC 4648 without padding, so it
    * never emits '+', '/' or '='. */
  lemma EncodingIsUrlSafe(b: seq<Byte>)
    ensures BtoaUrl(b) == EncodeUrlNoPad(b)
    ensures forall i :: 0 <= i < |BtoaUrl(b)| ==> IsUrlChar(BtoaUrl(b)[i])
    ensures '+' !in BtoaUrl(b) && '/' !in BtoaUrl(b) && '=' !in BtoaUrl(b)
  {
    BtoaUrlIsUrlNoPad(b);
    UrlNoPadChars(b);
    assert All(BtoaUrl(b), IsUrlChar);
  }

  /** A verifier is 43 unreserved characters, within the 43 to 128 that
    * section 4.1 of RFC 7636 allows. */
  lemma VerifierShape(random: seq<Byte>)
    requires |random| == 32
    ensures |CodeVerifier(random)| == 43
    ensures forall i :: 0 <= i < 43 ==> IsUrlChar(CodeVerifier(random)[i])
  {
    EncodingIsUrlSafe(random);
    ThirtyTwoBytes(random);
  }

  /** The challenge is the one section 4.2 of RFC 7636 defines, so the
    * authorization server's S256 check accepts the verifier it came from. */
  lemma ChallengeVerifies(verifier: string, utf8: string -> seq<Byte>, sha256: seq<Byte> -> seq<Byte>)
    ensures CodeChallenge(verifier, utf8, sha256) == EncodeUrlNoPad(sha256(utf8(verifier)))
    ensures OAuth2.VerifyPkce(Some(verifier), CodeChallenge(verifier, utf8, sha256), Some(OAuth2.S256),
                              s => sha256(utf8(s)))
  {
    OAuth2.BrowserChallengeVerifies(verifier, s => sha256(utf8(s)));
    BtoaUrlIsUrlNoPad(sha256(utf8(verifier)));
  }
}
