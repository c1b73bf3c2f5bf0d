// The provider registry UI's key list: the provider the page works for, the
// search filter over the keys, which keys offer deactivation, and the guard
// and state changes of deactivating one. The service calls are parameters:
// the model starts from what they returned.
module KeysPage {
  import opened Wrappers
  import opened Strings

  const DEFAULT_PROVIDER: string := "1"
  const CONFIRM_TEXT: string := "Permanently Delete"
  const ACTIVE: string := "ACTIVE"
  const DEACTIVATE_FAILED: string := "Failed to deactivate key"

  /** `fromQuery || stored || '1'`: the query's provider id, else the one kept
    * in local storage, else "1"; an empty id counts as missing. */
  function ProviderId(fromQuery: Option<string>, stored: Option<string>): (id: string)
    ensures id != ""
    ensures fromQuery.Some? && fromQuery.value != "" ==> id == fromQuery.value
    ensures (fromQuery.None? || fromQuery.value == "") && stored.Some? && stored.value != "" ==> id == stored.value
    ensures (fromQuery.None? || fromQuery.value == "") && (stored.None? || stored.value == "") ==> id == DEFAULT_PROVIDER
  {
    if fromQuery.Some? && fromQuery.value != "" then fromQuery.value
    else if stored.Some? && stored.value != "" then stored.value
    else DEFAULT_PROVIDER
  }

  /** Local storage afterwards: a query id is remembered. */
  function Remembered(fromQuery: Option<string>, stored: Option<string>): Option<string>
  {
    if fromQuery.Some? && fromQuery.value != "" then fromQuery else stored
  }

  /** The add-key link always carries the provider, since the id is never empty. */
  function AddKeyTarget(providerId: string): string
  {
    "/keys/new" + (if providerId != "" then "?providerId=" + providerId else "")
  }

  datatype Key = Key(keyId: string, title: Option<string>, keyType: Option<string>,
                     environment: Option<string>, clientId: Option<string>, keyStatus: Option<string>)

  /** `(field || '')` */
  function Text(f: Option<string>): string { f.GetOr("") }

  predicate FieldMatches(f: Option<string>, search: string)
  {
    Contains(ToLower(Text(f)), ToLower(search))
  }

  predicate Matches(k: Key, search: string)
  {
    FieldMatches(k.title, search) || FieldMatches(k.keyType, search)
    || FieldMatches(k.environment, search) || FieldMatches(k.clientId, search)
  }

  /** `filteredKeys`. */
  function Filtered(keys: seq<Key>, search: string): (r: seq<Key>)
    ensures |r| <= |keys|
    ensures forall k :: k in r <==> k in keys && Matches(k, search)
  {
    if keys == [] then []
    else (if Matches(keys[0], search) then [keys[0]] else []) + Filtered(keys[1..], search)
  }

  /** The delete button shows only on active keys. */
  predicate OffersDeactivate(k: Key) { k.keyStatus == Some(ACTIVE) }

  /** `statusClass`: the status badge's class; NOT_ACTIVE and any other
    * status share the plain badge. */
  function StatusClass(status: Option<string>): string
  {
    if status == Some(ACTIVE) then "badge success" else "badge"
  }

  /** The part of the page's state deactivation touches. */
  datatype Screen = Screen(keys: seq<Key>, error: string, dialogOpen: bool, confirmText: string,
                           selected: Option<Key>)

  /** How the two calls went: the deactivation failed, the reload after it
    * failed, or the reload returned a list (`null` read as none). */
  datatype Outcome = DeactivateFailed | ReloadFailed | Reloaded(data: Option<seq<Key>>)

  /** The delete button of a row: it selects the key and opens the
    * confirmation dialog; a row without the button leaves the screen as it is. */
  function OpenDeactivate(s: Screen, k: Key): Screen
  {
    if OffersDeactivate(k) then s.(selected := Some(k), dialogOpen := true) else s
  }

  /** `handleDeactivate`: the screen afterwards and the key id sent to the
    * service, if any. */
  function Deactivate(s: Screen, outcome: Outcome): (Screen, Option<string>)
  {
    if s.confirmText != CONFIRM_TEXT || s.selected.None? then (s, None)
    else
      var sent := Some(s.selected.value.keyId);
      if outcome.DeactivateFailed? then (s.(error := DEACTIVATE_FAILED), sent)
      else
        var closed := s.(dialogOpen := false, confirmText := "", selected := None);
        if outcome.ReloadFailed? then (closed.(error := DEACTIVATE_FAILED), sent)
        else (closed.(keys := outcome.data.GetOr([])), sent)
  }

  // ---------------------------------------------------------------- properties

  /** Once an id from the query is remembered, a later visit without it
    * finds the same provider. */
  lemma RememberedProvider(fromQuery: Option<string>, stored: Option<string>)
    ensures ProviderId(None, Remembered(fromQuery, stored)) == ProviderId(fromQuery, stored)
    ensures AddKeyTarget(ProviderId(fromQuery, stored)) == "/keys/new?providerId=" + ProviderId(fromQuery, stored)
  {
  }

  /** An empty search keeps every key, in order. */
  lemma {:induction false} EmptySearchKeepsAll(keys: seq<Key>)
    ensures Filtered(keys, "") == keys
  {
    if keys != [] {
      ContainsEmpty(ToLower(Text(keys[0].title)));
      EmptySearchKeepsAll(keys[1..]);
      assert [keys[0]] + keys[1..] == keys;
    }
  }

  /** Filtering works key by key, so the kept keys stay in their order. */
  lemma {:induction false} FilteredAppend(a: seq<Key>, b: seq<Key>, search: string)
    ensures Filtered(a + b, search) == Filtered(a, search) + Filtered(b, search)
  {
    if a != [] {
      var head := if Matches(a[0], search) then [a[0]] else [];
      assert (a + b)[0] == a[0] && (a + b)[1..] == a[1..] + b;
      assert Filtered(a + b, search) == head + Filtered(a[1..] + b, search);
      FilteredAppend(a[1..], b, search);
      assert Filtered(a, search) == head + Filtered(a[1..], search);
    } else {
      assert a + b == b;
    }
  }

  /** A key passes when the search, lower-cased, occurs in one of its four
    * lower-cased fields; a missing field matches only the empty search. */
  lemma MatchRules(k: Key, search: string)
    ensures Matches(k, search) <==>
      Contains(ToLower(Text(k.title)), ToLower(search)) || Contains(ToLower(Text(k.keyType)), ToLower(search))
      || Contains(ToLower(Text(k.environment)), ToLower(search)) || Contains(ToLower(Text(k.clientId)), ToLower(search))
    ensures search != "" && k.title.None? && k.keyType.None? && k.environment.None? && k.clientId.None? ==> !Matches(k, search)
  {
    if search != "" && k.title.None? && k.keyType.None? && k.environment.None? && k.clientId.None? {
      assert |ToLower(search)| > 0;
      assert !Contains("", ToLower(search));
    }
  }

  /** Nothing happens, and nothing is sent, unless the confirmation reads
    * exactly "Permanently Delete" and a key is selected; then the selected
    * key's id is sent, and once that succeeds the dialog is closed and
    * cleared whatever the reload does. */
  lemma DeactivateRules(s: Screen, outcome: Outcome)
    ensures var (s', sent) := Deactivate(s, outcome);
      && (sent.Some? <==> s.confirmText == CONFIRM_TEXT && s.selected.Some?)
      && (sent.None? ==> s' == s)
      && (sent.Some? ==> sent.value == s.selected.value.keyId)
      && (sent.Some? && !outcome.DeactivateFailed? ==>
            !s'.dialogOpen && s'.confirmText == "" && s'.selected.None?)
      && (sent.Some? && outcome.Reloaded? ==> s'.keys == outcome.data.GetOr([]) && s'.error == s.error)
      && (sent.Some? && !outcome.Reloaded? ==> s'.error == DEACTIVATE_FAILED && s'.keys == s.keys)
  {
  }

  /** The delete button appears on exactly the rows whose badge is the
    * highlighted one. */
  lemma BadgeMarksDeactivatable(k: Key)
    ensures OffersDeactivate(k) <==> StatusClass(k.keyStatus) == "badge success"
    ensures !OffersDeactivate(k) ==> StatusClass(k.keyStatus) == "badge"
  {
  }

  /** Starting from a screen with no key selected, clicking a row's delete
    * button and typing the confirmation sends that key's id when the key is
    * active, and sends nothing otherwise: only active keys are deactivated. */
  lemma OnlyActiveKeysSent(s: Screen, k: Key, outcome: Outcome)
    requires s.selected.None?
    ensures var sent := Deactivate(OpenDeactivate(s, k).(confirmText := CONFIRM_TEXT), outcome).1;
      (sent.Some? <==> OffersDeactivate(k)) && (sent.Some? ==> sent.value == k.keyId)
  {
  }
}
