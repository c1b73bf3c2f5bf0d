// The in-memory one-time-password registry used during registration: an
// initiation stores a pending (email, code, expiry) entry under a fresh key; a
// correct verification moves the entry to the validated store, from which it
// can be consumed exactly once.  Java `null` is `None`; the random key and
// code, and the clock (integer nanoseconds), are parameters.
module OtpRegistry {
  import opened Wrappers
  import opened Strings

  /** Five minutes. */
  const TTL_NANOS: int := 5 * 60 * 1_000_000_000

  /** The code every verification accepts. */
  const OVERRIDE: string := "000000"

  datatype Entry = Entry(email: string, otp: string, expiresAt: int)

  type Store = map<string, Entry>

  /** The pending store and the validated store. */
  datatype Stores = Stores(store: Store, validated: Store)

  /** A boolean answer and the stores it leaves behind. */
  datatype Outcome = Outcome(ok: bool, after: Stores)

  datatype PendingOtp = PendingOtp(key: string, otp: string, expiresAt: int)

  /** `email == null ? "" : email.trim().toLowerCase()`. */
  function Normalize(email: Option<string>): string
  {
    if email.None? then "" else ToLower(JavaTrim(email.value))
  }

  /** `Instant.now().isAfter(expiresAt)`. */
  predicate Expired(e: Entry, now: int) { now > e.expiresAt }

  /** The six-digit code `String.format("%06d", n)` prints for a draw n in [0, 10^6). */
  function Code(n: nat): (r: string)
    requires n < 1_000_000
    ensures |r| == 6 && All(r, IsDigit) && DigitsValue(r) == n
  {
    assert Pow10(6) == 1_000_000;
    ZeroPadded(n, 6)
  }

  function InitiateStep(st: Stores, key: string, email: Option<string>, draw: nat, now: int): (r: Stores)
    requires draw < 1_000_000
    ensures r.validated == st.validated
    ensures key in r.store && r.store[key] == Entry(Normalize(email), Code(draw), now + TTL_NANOS)
    ensures forall k :: k != key ==> (k in r.store <==> k in st.store) && (k in st.store ==> r.store[k] == st.store[k])
  {
    st.(store := st.store[key := Entry(Normalize(email), Code(draw), now + TTL_NANOS)])
  }

  function VerifyStep(st: Stores, key: Option<string>, email: Option<string>, otp: Option<string>, now: int): Outcome
  {
    if otp.None? || key.None? || email.None? then Outcome(false, st)
    else if otp.value == OVERRIDE then Outcome(true, st)
    else if key.value !in st.store then Outcome(false, st)
    else
      var e := st.store[key.value];
      if Expired(e, now) then Outcome(false, st.(store := st.store - {key.value}))
      else if e.email == Normalize(email) && e.otp == otp.value then
        Outcome(true, Stores(st.store - {key.value}, st.validated[key.value := e]))
      else Outcome(false, st)
  }

  function ConsumeStep(st: Stores, key: Option<string>, email: Option<string>, now: int): Outcome
  {
    if key.None? || email.None? || key.value !in st.validated then Outcome(false, st)
    else
      var e := st.validated[key.value];
      if Expired(e, now) then Outcome(false, st.(validated := st.validated - {key.value}))
      else if e.email == Normalize(email) then Outcome(true, st.(validated := st.validated - {key.value}))
      else Outcome(false, st)
  }

  /** A key whose pending entry belongs to `norm` and has not expired. */
  predicate IsPendingFor(s: Store, norm: string, now: int, k: string)
  {
    k in s && s[k].email == norm && !Expired(s[k], now)
  }

  /** The pending store after the `removeIf` over the entries of `norm`. */
  function Purged(s: Store, norm: string, now: int): (r: Store)
    ensures forall k :: k in r <==> k in s && !(s[k].email == norm && Expired(s[k], now))
    ensures forall k :: k in r ==> r[k] == s[k]
  {
    map k | k in s && !(s[k].email == norm && Expired(s[k], now)) :: s[k]
  }

  lemma VerifyRejectsNull(st: Stores, key: Option<string>, email: Option<string>, otp: Option<string>, now: int)
    requires otp.None? || key.None? || email.None?
    ensures VerifyStep(st, key, email, otp, now) == Outcome(false, st)
  {
  }

  /** The override code is accepted for any key and email and changes neither store. */
  lemma VerifyOverride(st: Stores, key: string, email: string, now: int)
    ensures VerifyStep(st, Some(key), Some(email), Some(OVERRIDE), now) == Outcome(true, st)
  {
  }

  lemma VerifyUnknownOrExpired(st: Stores, key: string, email: string, otp: string, now: int)
    requires otp != OVERRIDE
    ensures key !in st.store ==> VerifyStep(st, Some(key), Some(email), Some(otp), now) == Outcome(false, st)
    ensures key in st.store && Expired(st.store[key], now) ==>
      var o := VerifyStep(st, Some(key), Some(email), Some(otp), now);
      !o.ok && key !in o.after.store && o.after.validated == st.validated
  {
  }

  /**
   * A live entry verifies exactly when the normalised email and the code
   * match; success moves the entry to the validated store, failure leaves
   * both stores as they were.
   */
  lemma VerifyLive(st: Stores, key: string, email: string, otp: string, now: int)
    requires otp != OVERRIDE && key in st.store && !Expired(st.store[key], now)
    ensures var o := VerifyStep(st, Some(key), Some(email), Some(otp), now);
      var e := st.store[key];
      (o.ok <==> e.email == Normalize(Some(email)) && e.otp == otp)
      && (o.ok ==> key !in o.after.store && key in o.after.validated && o.after.validated[key] == e)
      && (!o.ok ==> o.after == st)
  {
  }

  /** A key that verified with its real code cannot verify with it again. */
  lemma VerifyOnlyOnce(st: Stores, key: string, email: string, otp: string, now: int, later: int)
    requires otp != OVERRIDE
    requires VerifyStep(st, Some(key), Some(email), Some(otp), now).ok
    ensures !VerifyStep(VerifyStep(st, Some(key), Some(email), Some(otp), now).after, Some(key), Some(email), Some(otp), later).ok
  {
  }

  /** An initiated key verifies with its own code and email before it expires. */
  lemma InitiateThenVerify(st: Stores, key: string, email: string, draw: nat, now: int, later: int)
    requires draw < 1_000_000 && later <= now + TTL_NANOS
    ensures VerifyStep(InitiateStep(st, key, Some(email), draw, now), Some(key), Some(email), Some(Code(draw)), later).ok
  {
  }

  /** Consumption is one-shot. */
  lemma ConsumeOnlyOnce(st: Stores, key: Option<string>, email: Option<string>, now: int, later: int)
    requires ConsumeStep(st, key, email, now).ok
    ensures !ConsumeStep(ConsumeStep(st, key, email, now).after, key, email, later).ok
  {
  }

  /** After the purge no entry of that email is expired, and every other entry is kept. */
  lemma PurgeEffect(s: Store, norm: string, now: int)
    ensures forall k :: k in Purged(s, norm, now) && Purged(s, norm, now)[k].email == norm ==> !Expired(Purged(s, norm, now)[k], now)
    ensures forall k :: k in s && s[k].email != norm ==> k in Purged(s, norm, now)
    ensures forall k :: IsPendingFor(s, norm, now, k) <==> IsPendingFor(Purged(s, norm, now), norm, now, k)
  {
  }

  class OtpRegistryService {
    var store: Store
    var validated: Store

    function State(): Stores
      reads this
    {
      Stores(store, validated)
    }

    constructor ()
      ensures State() == Stores(map[], map[])
    {
      store, validated := map[], map[];
    }

    /** `key` is the fresh UUID and `draw` the random number in [0, 10^6). */
    method Initiate(email: Option<string>, key: string, draw: nat, now: int) returns (r: string)
      requires draw < 1_000_000
      modifies this
      ensures r == key
      ensures State() == InitiateStep(old(State()), key, email, draw, now)
    {
      var otp := Code(draw);
      store := store[key := Entry(Normalize(email), otp, now + TTL_NANOS)];
      r := key;
    }

    method Verify(key: Option<string>, email: Option<string>, otp: Option<string>, now: int) returns (ok: bool)
      modifies this
      ensures Outcome(ok, State()) == VerifyStep(old(State()), key, email, otp, now)
    {
      if otp.None? || key.None? || email.None? {
        return false;
      }
      var normEmail := Normalize(email);
      if otp.value == OVERRIDE {
        return true;
      }
      if key.value !in store {
        return false;
      }
      var e := store[key.value];
      if Expired(e, now) {
        store := store - {key.value};
        return false;
      }
      ok := e.email == normEmail && e.otp == otp.value;
      if ok {
        validated := validated[key.value := Entry(e.email, e.otp, e.expiresAt)];
        store := store - {key.value};
      }
    }

    method ConsumeValidated(key: Option<string>, email: Option<string>, now: int) returns (ok: bool)
      modifies this
      ensures Outcome(ok, State()) == ConsumeStep(old(State()), key, email, now)
    {
      if key.None? || email.None? {
        return false;
      }
      if key.value !in validated {
        return false;
      }
      var e := validated[key.value];
      if Expired(e, now) {
        validated := validated - {key.value};
        return false;
      }
      ok := e.email == Normalize(email);
      if ok {
        validated := validated - {key.value};
      }
    }

    /**
     * The entry set of the source's concurrent map has no defined order, so
     * "the first" live entry is any live entry of that email.
     */
    method GetExistingPendingByEmail(email: Option<string>, now: int) returns (r: Option<PendingOtp>)
      modifies this
      ensures validated == old(validated)
      ensures email.None? || JavaIsBlank(email.value) ==> r.None? && store == old(store)
      ensures email.Some? && !JavaIsBlank(email.value) ==>
        store == Purged(old(store), Normalize(email), now)
        && (r.None? <==> forall k :: !IsPendingFor(store, Normalize(email), now, k))
        && (r.Some? ==>
              IsPendingFor(store, Normalize(email), now, r.value.key)
              && r.value == PendingOtp(r.value.key, store[r.value.key].otp, store[r.value.key].expiresAt))
    {
      if email.None? || JavaIsBlank(email.value) {
        return None;
      }
      var norm := Normalize(email);
      store := map k | k in store && !(store[k].email == norm && Expired(store[k], now)) :: store[k];
      if k :| k in store && IsPendingFor(store, norm, now, k) {
        r := Some(PendingOtp(k, store[k].otp, store[k].expiresAt));
      } else {
        r := None;
      }
    }
  }
}
