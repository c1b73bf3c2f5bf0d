// The authorization server's home controller: "/" and "/login" show the
// login view; "/signup" shows the signup view, or redirects to the OAuth2
// signup page, carrying the OAuth2 parameters, when a client id or a
// redirect URI is given.
module HomeController {
  import opened Wrappers
  import opened Strings

  const LOGIN_VIEW: string := "oauth2/login"
  const SIGNUP_VIEW: string := "oauth2/signup"
  const SIGNUP_REDIRECT: string := "redirect:/oauth2/signup"

  /** The `name=value` pairs of the given parameters, in the order
    * client_id, redirect_uri, state. */
  function Present(clientId: Option<string>, redirectUri: Option<string>, state: Option<string>): (r: seq<string>)
    ensures |r| <= 3
  {
    (if clientId.Some? then ["client_id=" + clientId.value] else [])
    + (if redirectUri.Some? then ["redirect_uri=" + redirectUri.value] else [])
    + (if state.Some? then ["state=" + state.value] else [])
  }

  /** A query string: '?' then the pairs separated by '&'; empty without pairs. */
  function QueryString(pairs: seq<string>): string
  {
    if pairs == [] then "" else "?" + Join(pairs, "&")
  }

  /** What the signup endpoint answers, as a reference definition. */
  function SignupTarget(clientId: Option<string>, redirectUri: Option<string>, state: Option<string>): string
  {
    if clientId.None? && redirectUri.None? then SIGNUP_VIEW
    else SIGNUP_REDIRECT + QueryString(Present(clientId, redirectUri, state))
  }

  /** `signup`: the redirect is built by appending to a buffer, with a flag
    * that tells whether a parameter has been written yet. */
  method Signup(clientId: Option<string>, redirectUri: Option<string>, state: Option<string>)
    returns (view: string)
    ensures view == SignupTarget(clientId, redirectUri, state)
  {
    if clientId.None? && redirectUri.None? {
      return SIGNUP_VIEW;
    }
    var url := SIGNUP_REDIRECT;
    var hasParams := false;
    ghost var written: seq<string> := [];
    assert url == SIGNUP_REDIRECT + QueryString(written);
    if clientId.Some? {
      var pair := "client_id=" + clientId.value;
      AppendPair(SIGNUP_REDIRECT, written, pair);
      url := url + (if hasParams then "&" else "?") + pair;
      written := written + [pair];
      hasParams := true;
    }
    if redirectUri.Some? {
      var pair := "redirect_uri=" + redirectUri.value;
      AppendPair(SIGNUP_REDIRECT, written, pair);
      url := url + (if hasParams then "&" else "?") + pair;
      written := written + [pair];
      hasParams := true;
    }
    if state.Some? {
      var pair := "state=" + state.value;
      AppendPair(SIGNUP_REDIRECT, written, pair);
      url := url + (if hasParams then "&" else "?") + pair;
      written := written + [pair];
    }
    assert written == Present(clientId, redirectUri, state);
    view := url;
  }

  /** Appending one pair: '?' before the first, '&' before the others. */
  lemma AppendPair(base: string, written: seq<string>, pair: string)
    ensures base + QueryString(written) + (if written != [] then "&" else "?") + pair
            == base + QueryString(written + [pair])
  {
    JoinSnoc(written, pair, "&");
    if written == [] {
      assert base + "" == base;
    }
  }

  /** The views of the three routes; `None` for any other path. */
  function Route(path: string, clientId: Option<string>, redirectUri: Option<string>, state: Option<string>): (r: Option<string>)
    ensures path in {"/", "/login", "/login/"} ==> r == Some(LOGIN_VIEW)
    ensures path in {"/signup", "/signup/"} ==> r == Some(SignupTarget(clientId, redirectUri, state))
    ensures path !in {"/", "/login", "/login/", "/signup", "/signup/"} ==> r.None?
  {
    if path == "/" || path == "/login" || path == "/login/" then Some(LOGIN_VIEW)
    else if path == "/signup" || path == "/signup/" then Some(SignupTarget(clientId, redirectUri, state))
    else None
  }

  // ---------------------------------------------------------------- properties

  /** Without a client id and a redirect URI the signup view is shown, even
    * when a state is given. */
  lemma PlainSignup(state: Option<string>)
    ensures SignupTarget(None, None, state) == SIGNUP_VIEW
  {
  }

  /** With a client id or a redirect URI the answer is the redirect with the
    * given parameters, and it carries a state only when one is given. */
  lemma RedirectShape(clientId: Option<string>, redirectUri: Option<string>, state: Option<string>)
    requires clientId.Some? || redirectUri.Some?
    ensures var t := SignupTarget(clientId, redirectUri, state);
      var ps := Present(clientId, redirectUri, state);
      && |ps| >= 1
      && t == SIGNUP_REDIRECT + "?" + Join(ps, "&")
      && ps[0] == (if clientId.Some? then "client_id=" + clientId.value else "redirect_uri=" + redirectUri.value)
      && (state.Some? ==> ps[|ps| - 1] == "state=" + state.value)
      && |ps| == (if clientId.Some? then 1 else 0) + (if redirectUri.Some? then 1 else 0)
                 + (if state.Some? then 1 else 0)
  {
  }

  /** When no value holds an '&', the query splits back into the pairs
    * written, in order. */
  lemma QueryRoundTrip(clientId: Option<string>, redirectUri: Option<string>, state: Option<string>)
    requires clientId.Some? || redirectUri.Some?
    requires clientId.Some? ==> '&' !in clientId.value
    requires redirectUri.Some? ==> '&' !in redirectUri.value
    requires state.Some? ==> '&' !in state.value
    ensures var t := SignupTarget(clientId, redirectUri, state);
      |t| > |SIGNUP_REDIRECT| + 1
      && Split(t[|SIGNUP_REDIRECT| + 1..], '&') == Present(clientId, redirectUri, state)
  {
    var ps := Present(clientId, redirectUri, state);
    var t := SignupTarget(clientId, redirectUri, state);
    PresentNoAmpersand(clientId, redirectUri, state);
    var j := Join(ps, "&");
    var pre := SIGNUP_REDIRECT + "?";
    assert ps != [];
    assert QueryString(ps) == "?" + j;
    assert t == pre + j;
    assert (pre + j)[|pre|..] == j;
    SplitJoin(ps, '&');
  }

  /** No pair holds an '&' when no value does. */
  lemma PresentNoAmpersand(clientId: Option<string>, redirectUri: Option<string>, state: Option<string>)
    requires clientId.Some? ==> '&' !in clientId.value
    requires redirectUri.Some? ==> '&' !in redirectUri.value
    requires state.Some? ==> '&' !in state.value
    ensures forall i :: 0 <= i < |Present(clientId, redirectUri, state)| ==> '&' !in Present(clientId, redirectUri, state)[i]
  {
    var a := if clientId.Some? then ["client_id=" + clientId.value] else [];
    var b := if redirectUri.Some? then ["redirect_uri=" + redirectUri.value] else [];
    var c := if state.Some? then ["state=" + state.value] else [];
    assert forall i :: 0 <= i < |a| ==> '&' !in a[i] by {
      if clientId.Some? { NoAmpersand("client_id=", clientId.value); }
    }
    assert forall i :: 0 <= i < |b| ==> '&' !in b[i] by {
      if redirectUri.Some? { NoAmpersand("redirect_uri=", redirectUri.value); }
    }
    assert forall i :: 0 <= i < |c| ==> '&' !in c[i] by {
      if state.Some? { NoAmpersand("state=", state.value); }
    }
    var ps := a + b + c;
    assert Present(clientId, redirectUri, state) == ps;
    forall i | 0 <= i < |ps| ensures '&' !in ps[i] {
      if i < |a| {
        assert ps[i] == a[i];
      } else if i < |a| + |b| {
        assert ps[i] == b[i - |a|];
      } else {
        assert ps[i] == c[i - |a| - |b|];
      }
    }
  }

  lemma NoAmpersand(name: string, v: string)
    requires '&' !in name && '&' !in v
    ensures '&' !in name + v
  {
    assert forall i :: 0 <= i < |name + v| ==> (name + v)[i] == if i < |name| then name[i] else v[i - |name|];
  }

  /** Values are not encoded: a client id holding "&state=x" gives the same
    * redirect as that client id cut short plus a state "x". */
  lemma UnencodedValues()
    ensures SignupTarget(Some("a&state=x"), None, None) == SignupTarget(Some("a"), None, Some("x"))
  {
    var p := "client_id=" + "a";
    var q := "state=" + "x";
    assert Present(Some("a"), None, Some("x")) == [p, q];
    assert Join([p, q], "&") == p + "&" + q;
    assert "client_id=" + "a&state=x" == p + "&" + q;
  }
}
