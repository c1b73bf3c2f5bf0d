// The provider registry UI's new-key form: field edits that clear their own
// error, the scope checklist, the validation before submitting and the
// payload sent with its defaults. Date parsing is a parameter.
module AddKey {
  import opened Wrappers
  import opened Strings
  import MultiSelectDropdown

  const ACTIVE: string := "ACTIVE"
  const DEFAULT_CLIENT: string := "default"
  const TITLE_REQUIRED: string := "Title is required"
  const TYPE_REQUIRED: string := "Type is required"

  datatype Form = Form(title: string, keyType: string, keyStatus: string, environment: string,
                       clientId: string, expiresAt: string, scopes: seq<string>)

  /** The form as the page opens. */
  const INITIAL: Form := Form("", "SIGNING", ACTIVE, "SANDBOX", DEFAULT_CLIENT, "", [])

  /** The text inputs of the form. */
  datatype Field = Title | KeyType | KeyStatus | Environment | ClientId | ExpiresAt

  /** The error messages by field; only the title and the type ever get one. */
  datatype Errors = Errors(title: Option<string>, keyType: Option<string>)

  function SetField(f: Form, field: Field, value: string): Form
  {
    match field
    case Title => f.(title := value)
    case KeyType => f.(keyType := value)
    case KeyStatus => f.(keyStatus := value)
    case Environment => f.(environment := value)
    case ClientId => f.(clientId := value)
    case ExpiresAt => f.(expiresAt := value)
  }

  function GetField(f: Form, field: Field): string
  {
    match field
    case Title => f.title
    case KeyType => f.keyType
    case KeyStatus => f.keyStatus
    case Environment => f.environment
    case ClientId => f.clientId
    case ExpiresAt => f.expiresAt
  }

  /** `handleInputChange(field, value)`: the field takes the value and its
    * error, if it has one, is cleared. */
  function InputChange(f: Form, e: Errors, field: Field, value: string): (Form, Errors)
  {
    (SetField(f, field, value),
     if field == Title && e.title.Some? && e.title.value != "" then e.(title := None)
     else if field == KeyType && e.keyType.Some? && e.keyType.value != "" then e.(keyType := None)
     else e)
  }

  /** The client id input drops every white-space character typed. */
  function ClientIdInput(typed: string): string
  {
    FilterChars(typed, c => !IsJsSpace(c))
  }

  /** `handleScopeToggle`. */
  function ScopeToggle(scopes: seq<string>, scope: string): seq<string>
  {
    MultiSelectDropdown.Toggle(scopes, scope)
  }

  /** `validateForm`'s error map. */
  function Validate(f: Form): Errors
  {
    Errors(if JsTrim(f.title) == "" then Some(TITLE_REQUIRED) else None,
           if f.keyType == "" then Some(TYPE_REQUIRED) else None)
  }

  predicate NoErrors(e: Errors) { e.title.None? && e.keyType.None? }

  datatype Payload = Payload(title: string, keyType: string, keyStatus: string, environment: string,
                             clientId: string, scopes: seq<string>, expiresAt: Option<string>)

  /** The payload submitted, or `None` when the expiry date is invalid and
    * `toISOString` throws. `isoDate` is `new Date(text).toISOString()`. */
  function PayloadOf(f: Form, isoDate: string -> Option<string>): Option<Payload>
  {
    if f.expiresAt != "" && isoDate(f.expiresAt).None? then None
    else Some(Payload(f.title, f.keyType, if f.keyStatus != "" then f.keyStatus else ACTIVE,
                      f.environment, if f.clientId != "" then f.clientId else DEFAULT_CLIENT, f.scopes,
                      if f.expiresAt != "" then isoDate(f.expiresAt) else None))
  }

  // ---------------------------------------------------------------- properties

  /** An edit sets its field and no other, and clears that field's error
    * alone. */
  lemma InputChangeRules(f: Form, e: Errors, field: Field, value: string)
    ensures var (f', e') := InputChange(f, e, field, value);
      && GetField(f', field) == value
      && (forall g :: g != field ==> GetField(f', g) == GetField(f, g))
      && f'.scopes == f.scopes
      && (field == Title ==> e'.title.None? || e'.title == Some("")) && (field != Title ==> e'.title == e.title)
      && (field == KeyType ==> e'.keyType.None? || e'.keyType == Some("")) && (field != KeyType ==> e'.keyType == e.keyType)
  {
  }

  /** An absent scope is appended; a present one is removed altogether;
    * toggling an absent scope twice gives the list back. */
  lemma ScopeToggleRules(scopes: seq<string>, scope: string)
    ensures scope !in scopes ==> ScopeToggle(scopes, scope) == scopes + [scope]
    ensures scope in scopes ==> forall s :: s in ScopeToggle(scopes, scope) <==> s in scopes && s != scope
    ensures scope !in scopes ==> ScopeToggle(ScopeToggle(scopes, scope), scope) == scopes
  {
    MultiSelectDropdown.ToggleRules(scopes, scope);
    if scope !in scopes {
      MultiSelectDropdown.ToggleTwice(scopes, scope);
    }
  }

  /** Only a blank title and an empty type are errors, and the form is valid
    * exactly when there are none. */
  lemma ValidateRules(f: Form)
    ensures Validate(f).title.Some? <==> JsTrim(f.title) == ""
    ensures Validate(f).keyType.Some? <==> f.keyType == ""
    ensures NoErrors(Validate(f)) <==> JsTrim(f.title) != "" && f.keyType != ""
  {
  }

  /** The opening form needs only a title. */
  lemma InitialErrors()
    ensures Validate(INITIAL) == Errors(Some(TITLE_REQUIRED), None)
  {
    var t: string := [];
    assert INITIAL.title == t;
    assert TrimStart(t, IsJsSpace) == t;
    assert JsTrim(t) == t;
  }

  /** The payload keeps the form's values, with ACTIVE and "default" for an
    * empty status and client id, and no expiry for an empty date. */
  lemma PayloadDefaults(f: Form, isoDate: string -> Option<string>)
    ensures f.expiresAt == "" ==> PayloadOf(f, isoDate).Some? && PayloadOf(f, isoDate).value.expiresAt.None?
    ensures PayloadOf(f, isoDate).Some? ==>
      var p := PayloadOf(f, isoDate).value;
      && p.title == f.title && p.keyType == f.keyType && p.scopes == f.scopes
      && p.keyStatus == (if f.keyStatus == "" then ACTIVE else f.keyStatus)
      && p.clientId == (if f.clientId == "" then DEFAULT_CLIENT else f.clientId)
      && (f.expiresAt != "" ==> p.expiresAt == isoDate(f.expiresAt))
    ensures PayloadOf(f, isoDate).None? <==> f.expiresAt != "" && isoDate(f.expiresAt).None?
  {
  }

  /** The client id holds no white space, text without any is kept as it
    * is, and typing the result again changes nothing. */
  lemma {:induction false} ClientIdRules(typed: string)
    ensures forall i :: 0 <= i < |ClientIdInput(typed)| ==> !IsJsSpace(ClientIdInput(typed)[i])
    ensures (forall i :: 0 <= i < |typed| ==> !IsJsSpace(typed[i])) ==> ClientIdInput(typed) == typed
    ensures ClientIdInput(ClientIdInput(typed)) == ClientIdInput(typed)
    decreases |typed|
  {
    if typed != [] {
      ClientIdRules(typed[1..]);
      var rest := ClientIdInput(typed[1..]);
      if !IsJsSpace(typed[0]) {
        assert ClientIdInput(typed) == [typed[0]] + rest;
        assert ClientIdInput(typed)[1..] == rest;
        if forall i :: 0 <= i < |typed| ==> !IsJsSpace(typed[i]) {
          assert typed == [typed[0]] + typed[1..];
        }
      } else {
        assert ClientIdInput(typed) == rest;
      }
    }
  }
}
