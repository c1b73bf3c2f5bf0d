// The provider registry UI's registration validators: one rule per field,
// each either passing or giving a message, and the errors map that collects
// the messages of the failing fields.
module ProviderValidation {
  import opened Wrappers
  import opened Strings

  const NAME: string := "name"
  const CODE: string := "code"
  const CONTACT_EMAIL: string := "contactEmail"
  const ADMIN_USERNAME: string := "adminUsername"
  const ADMIN_EMAIL: string := "adminEmail"
  const ADMIN_PASSWORD: string := "adminPassword"

  const NAME_MESSAGE: string := "Name must be at least 2 characters"
  const CODE_MESSAGE: string := "Code must be 3-50 chars, lowercase letters, numbers, or hyphens"
  const CONTACT_EMAIL_MESSAGE: string := "Invalid contact email"
  const ADMIN_USERNAME_MESSAGE: string := "Valid email required for username"
  const ADMIN_EMAIL_MESSAGE: string := "Valid email required"
  const ADMIN_PASSWORD_MESSAGE: string := "Password must be at least 8 characters"

  /** `/.+@.+\..+/.test(s)`: somewhere in s, on one line, a character, an
    * '@', at least one character, a '.', and one more character. The test
    * is not anchored, so the rest of s does not matter. */
  predicate EmailLike(s: string)
  {
    exists a, d :: 0 <= a < d < |s| && EmailAt(s, a, d)
  }

  /** The pattern matched with its '@' at index a and its '.' at index d. */
  predicate EmailAt(s: string, a: int, d: int)
  {
    1 <= a && a + 1 < d && d + 1 < |s| && s[a] == '@' && s[d] == '.'
    && !IsJsLineTerminator(s[a - 1]) && !IsJsLineTerminator(s[d + 1])
    && (forall k :: a < k < d ==> !IsJsLineTerminator(s[k]))
  }

  /** `/^[a-z0-9-]{3,50}$/`. */
  predicate CodeLike(s: string)
  {
    3 <= |s| <= 50 && forall i :: 0 <= i < |s| ==> IsLower(s[i]) || IsDigit(s[i]) || s[i] == '-'
  }

  /** `value || ''`: null and undefined read as the empty string. */
  function OrEmpty(v: Option<string>): string
  {
    if v.Some? then v.value else ""
  }

  /** Each field's rule: `None` when the value passes, else its message. */
  function NameRule(v: Option<string>): Option<string>
  {
    if v.Some? && v.value != "" && |JsTrim(v.value)| >= 2 then None else Some(NAME_MESSAGE)
  }

  function CodeRule(v: Option<string>): Option<string>
  {
    if CodeLike(OrEmpty(v)) then None else Some(CODE_MESSAGE)
  }

  function ContactEmailRule(v: Option<string>): Option<string>
  {
    if OrEmpty(v) == "" || EmailLike(v.value) then None else Some(CONTACT_EMAIL_MESSAGE)
  }

  function AdminUsernameRule(v: Option<string>): Option<string>
  {
    if EmailLike(OrEmpty(v)) then None else Some(ADMIN_USERNAME_MESSAGE)
  }

  function AdminEmailRule(v: Option<string>): Option<string>
  {
    if EmailLike(OrEmpty(v)) then None else Some(ADMIN_EMAIL_MESSAGE)
  }

  function AdminPasswordRule(v: Option<string>): Option<string>
  {
    if |OrEmpty(v)| >= 8 then None else Some(ADMIN_PASSWORD_MESSAGE)
  }

  /** `fieldValidators[k]` applied to v; a key without a rule passes. */
  function Rule(k: string, v: Option<string>): Option<string>
  {
    if k == NAME then NameRule(v)
    else if k == CODE then CodeRule(v)
    else if k == CONTACT_EMAIL then ContactEmailRule(v)
    else if k == ADMIN_USERNAME then AdminUsernameRule(v)
    else if k == ADMIN_EMAIL then AdminEmailRule(v)
    else if k == ADMIN_PASSWORD then AdminPasswordRule(v)
    else None
  }

  datatype Registration = Registration(name: Option<string>, code: Option<string>,
                                       contactEmail: Option<string>, adminUsername: Option<string>,
                                       adminEmail: Option<string>, adminPassword: Option<string>)

  datatype Check = Check(key: string, value: Option<string>)

  /** The (field, value) pairs the validator walks, in order. */
  function Checks(data: Registration): seq<Check>
  {
    [Check(NAME, data.name), Check(CODE, data.code), Check(CONTACT_EMAIL, data.contactEmail),
     Check(ADMIN_USERNAME, data.adminUsername), Check(ADMIN_EMAIL, data.adminEmail),
     Check(ADMIN_PASSWORD, data.adminPassword)]
  }

  /** The errors map after the checks in `cs`, each judged by `rule`; a
    * later message for the same key overwrites an earlier one. */
  function ErrorsWith(cs: seq<Check>, rule: (string, Option<string>) -> Option<string>): map<string, string>
  {
    if cs == [] then map[]
    else
      var e := ErrorsWith(cs[..|cs| - 1], rule);
      var last := cs[|cs| - 1];
      if rule(last.key, last.value).Some? then e[last.key := rule(last.key, last.value).value] else e
  }

  /** The errors map the field rules give. */
  function ErrorsOf(cs: seq<Check>): map<string, string>
  {
    ErrorsWith(cs, Rule)
  }

  /** `validateProviderRegistration`: runs every rule and records the
    * message of each failing field. */
  method ValidateProviderRegistration(data: Registration) returns (errors: map<string, string>)
    ensures errors == ErrorsOf(Checks(data))
  {
    var checks := Checks(data);
    errors := map[];
    var i := 0;
    while i < |checks|
      invariant 0 <= i <= |checks|
      invariant errors == ErrorsWith(checks[..i], Rule)
    {
      var k, v := checks[i].key, checks[i].value;
      assert checks[..i + 1][..i] == checks[..i];
      var ok := Rule(k, v);
      if ok.Some? {
        errors := errors[k := ok.value];
      }
      i := i + 1;
    }
    assert checks[..i] == checks;
  }

  // ---------------------------------------------------------------- properties

  predicate NameOk(v: Option<string>) { v.Some? && |JsTrim(v.value)| >= 2 }

  /** The rules in words: a name of two characters after trimming, a code
    * of 3 to 50 lowercase letters, digits and hyphens, an optional contact
    * email and required admin username and email that look like addresses,
    * and a password of eight characters or more. */
  lemma RuleMeaning(v: Option<string>)
    ensures NameRule(v).None? <==> NameOk(v)
    ensures CodeRule(v).None? <==> v.Some? && CodeLike(v.value)
    ensures ContactEmailRule(v).None? <==> v.None? || v.value == "" || EmailLike(v.value)
    ensures AdminUsernameRule(v).None? <==> v.Some? && EmailLike(v.value)
    ensures AdminEmailRule(v).None? <==> v.Some? && EmailLike(v.value)
    ensures AdminPasswordRule(v).None? <==> v.Some? && |v.value| >= 8
  {
    if v.Some? && v.value == "" {
      assert JsTrim("") == "" by { TrimEmptyIff("", IsJsSpace); }
    }
  }

  /** The errors map holds exactly the failing fields, each with its own
    * message; it is empty exactly when every field passes. */
  lemma ErrorsAreFailingFields(data: Registration)
    ensures var e := ErrorsOf(Checks(data));
      && (forall k :: k in e <==> exists i :: 0 <= i < 6 && Checks(data)[i].key == k && Rule(k, Checks(data)[i].value).Some?)
      && (forall i :: 0 <= i < 6 && Rule(Checks(data)[i].key, Checks(data)[i].value).Some? ==>
            e[Checks(data)[i].key] == Rule(Checks(data)[i].key, Checks(data)[i].value).value)
      && (e == map[] <==> forall i :: 0 <= i < 6 ==> Rule(Checks(data)[i].key, Checks(data)[i].value).None?)
  {
    var cs := Checks(data);
    ErrorsPrefix(cs, 6, Rule);
    assert cs[..6] == cs;
    var e := ErrorsOf(cs);
    forall i | 0 <= i < 6 && Rule(cs[i].key, cs[i].value).Some?
      ensures cs[i].key in e
    {
    }
  }

  /** Fields are distinct, so each check owns its key. */
  lemma {:induction false} ErrorsPrefix(cs: seq<Check>, n: nat, rule: (string, Option<string>) -> Option<string>)
    requires n <= |cs|
    requires forall i, j :: 0 <= i < j < |cs| ==> cs[i].key != cs[j].key
    ensures var e := ErrorsWith(cs[..n], rule);
      && (forall k :: k in e <==> exists i :: 0 <= i < n && cs[i].key == k && rule(k, cs[i].value).Some?)
      && (forall i :: 0 <= i < n && rule(cs[i].key, cs[i].value).Some? ==> e[cs[i].key] == rule(cs[i].key, cs[i].value).value)
      && ((forall i :: 0 <= i < n ==> rule(cs[i].key, cs[i].value).None?) ==> e == map[])
  {
    if n > 0 {
      ErrorsPrefix(cs, n - 1, rule);
      assert cs[..n][..n - 1] == cs[..n - 1];
    }
  }

  /** Some addresses: a dot is needed after the '@' with text on both sides,
    * and a line break cuts the pattern. */
  lemma EmailExamples()
    ensures EmailLike("a@b.c")
    ensures !EmailLike("a@b")
    ensures !EmailLike("@b.c")
    ensures !EmailLike("a@.c")
    ensures EmailLike("x\na@b.c")
  {
    assert EmailAt("a@b.c", 1, 3);
    assert EmailAt("x\na@b.c", 3, 5);
  }

  /** The test is unanchored: surrounding text never makes an address-like
    * value fail. */
  lemma EmailLikeExtends(p: string, s: string, q: string)
    requires EmailLike(s)
    ensures EmailLike(p + s + q)
  {
    var a, d :| 0 <= a < d < |s| && EmailAt(s, a, d);
    assert 1 <= a && a + 1 < d && d + 1 < |s|;
    var t := p + s + q;
    assert forall k :: 0 <= k < |s| ==> t[|p| + k] == s[k];
    var a', d' := |p| + a, |p| + d;
    assert forall k :: a' < k < d' ==> t[k] == s[k - |p|];
    assert t[a'] == '@' && t[d'] == '.' && t[a' - 1] == s[a - 1] && t[d' + 1] == s[d + 1];
    assert 0 <= a' < d' < |t| && EmailAt(t, a', d');
  }

  /** Codes are lowercase, at least three characters long. */
  lemma CodeExamples()
    ensures CodeLike("acme-01")
    ensures !CodeLike("ab") && !CodeLike("Acme")
  {
    assert "Acme"[0] == 'A';
  }
}
