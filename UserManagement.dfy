// User management in the auth registry: registration of a user whose email
// was confirmed by a one-time password, the optional mapping of the new
// user to a provider, renaming and enabling.  The BCrypt hash of the
// password and the clock are parameters.
module UserManagement {
  import opened Wrappers
  import opened Strings
  import OtpRegistry
  import UPM = UserProviderMappings

  datatype User = User(
    id: int,
    username: string,
    email: string,
    passwordHash: string,
    enabled: bool,
    mfaEnabled: bool,
    lastLogin: Option<int>)

  datatype RegistrationRequest = RegistrationRequest(
    username: Option<string>,
    password: Option<string>,
    email: Option<string>,
    otpKey: Option<string>,
    otp: Option<string>,
    providerId: Option<int>,
    providerCode: Option<string>)

  const CREDENTIALS_REQUIRED: string := "username and password are required"
  const KEY_REQUIRED: string := "OTPKey is required and must be validated before registration"
  const OTP_NOT_VALIDATED: string := "OTP not validated for this email or key already used/expired"
  const EMAIL_EXISTS: string := "Email already exists"
  const USER_NOT_FOUND: string := "User not found"
  const USERNAME_EXISTS: string := "Username already exists"
  const EMAIL_CONSTRAINT: string := "uk_users_email"

  /** Everything a registration touches: users, provider mappings and the OTP registry. */
  datatype State = State(users: map<int, User>, nextUserId: int, mappings: UPM.Store, otp: OtpRegistry.Stores)

  datatype Outcome = Outcome(result: Result<User>, after: State)

  /** `s.trim().toLowerCase()`. */
  function Normalize(s: string): string { ToLower(JavaTrim(s)) }

  predicate NonBlank(o: Option<string>) { o.Some? && !JavaIsBlank(o.value) }

  predicate EmailTaken(users: map<int, User>, email: string)
  {
    exists id :: id in users && users[id].email == email
  }

  predicate WellKeyed(users: map<int, User>, nextId: int)
  {
    forall id :: id in users ==> users[id].id == id && id < nextId
  }

  /** The unique constraint on the email column. */
  predicate UniqueEmails(users: map<int, User>)
  {
    forall i, j :: i in users && j in users && i != j ==> users[i].email != users[j].email
  }

  predicate ActiveMappingOf(m: map<int, UPM.Mapping>, userId: int, code: string)
  {
    exists id :: id in m && m[id].userId == userId && m[id].providerCode == code && m[id].status == UPM.Active
  }

  /** The new user's mapping to the requested provider, unless an ACTIVE one is there already. */
  function AddMapping(s: UPM.Store, u: User, req: RegistrationRequest, now: int): UPM.Store
  {
    if !NonBlank(req.providerCode) then s
    else
      var code := Normalize(req.providerCode.value);
      if ActiveMappingOf(s.mappings, u.id, code) then s
      else UPM.Store(s.mappings[s.nextId := UPM.Mapping(s.nextId, u.id, req.providerId, code, Some(now), UPM.Active, {})],
                     s.nextId + 1)
  }

  /**
   * Registration.  The duplicate-email lookup uses the email as submitted
   * when normalizedLookup is false (the code as written) and the normalised
   * email, the one that is stored, when it is true.  The insert itself is
   * refused by the unique constraint on the email column when the normalised
   * email is stored already; the transaction then rolls back the users and
   * the mappings, while the OTP registry, which lives in memory, keeps the
   * key its check consumed.
   */
  function RegisterWith(st: State, req: RegistrationRequest, passwordHash: string, now: int, normalizedLookup: bool): Outcome
  {
    if req.username.None? || req.password.None? then Outcome(Err(IllegalArgument(CREDENTIALS_REQUIRED)), st)
    else if !NonBlank(req.otpKey) then Outcome(Err(IllegalArgument(KEY_REQUIRED)), st)
    else
      var v := OtpRegistry.VerifyStep(st.otp, req.otpKey, req.email, req.otp, now);
      var st1 := st.(otp := v.after);
      if !v.ok then Outcome(Err(IllegalState(OTP_NOT_VALIDATED)), st1)
      else
        var email := req.email.GetOr("");
        var lookup := if normalizedLookup then Normalize(email) else email;
        if EmailTaken(st.users, lookup) then Outcome(Err(IllegalState(EMAIL_EXISTS)), st1)
        else
          var u := NewUser(st, req, passwordHash);
          if EmailTaken(st.users, u.email) then Outcome(Err(DataIntegrityViolation(EMAIL_CONSTRAINT)), st1)
          else
            Outcome(Ok(u), st1.(users := st.users[u.id := u], nextUserId := st.nextUserId + 1,
                                mappings := AddMapping(st.mappings, u, req, now)))
  }

  /** The user a registration inserts: enabled, without MFA or last login, under the normalised email. */
  function NewUser(st: State, req: RegistrationRequest, passwordHash: string): User
    requires req.username.Some?
  {
    User(st.nextUserId, req.username.value, Normalize(req.email.GetOr("")), passwordHash, true, false, None)
  }

  /** `registerUser` as written. */
  function RegisterAsWritten(st: State, req: RegistrationRequest, passwordHash: string, now: int): Outcome
  {
    RegisterWith(st, req, passwordHash, now, false)
  }

  /** `registerUser` with the duplicate check on the normalised email. */
  function Register(st: State, req: RegistrationRequest, passwordHash: string, now: int): Outcome
  {
    RegisterWith(st, req, passwordHash, now, true)
  }

  /** A non-blank new name is normalised; it may not be another account's email. */
  function UpdateUserStep(users: map<int, User>, id: int, username: Option<string>): (Result<User>, map<int, User>)
  {
    if id !in users then (Err(NoSuchElement(USER_NOT_FOUND)), users)
    else if !NonBlank(username) then (Ok(users[id]), users)
    else
      var uname := Normalize(username.value);
      if uname != users[id].username && EmailTaken(users, uname) then (Err(IllegalState(USERNAME_EXISTS)), users)
      else (Ok(users[id].(username := uname)), users[id := users[id].(username := uname)])
  }

  function SetEnabledStep(users: map<int, User>, id: int, enabled: bool): (Result<()>, map<int, User>)
  {
    if id !in users then (Err(NoSuchElement(USER_NOT_FOUND)), users)
    else (Ok(()), users[id := users[id].(enabled := enabled)])
  }

  // ------------------------------------------------------------ properties

  /**
   * The refusals, in order, for either lookup; none of them saves a user or a
   * mapping.  An email the lookup misses but whose normalised form is stored
   * is refused by the unique constraint instead.
   */
  lemma RegisterRefusals(st: State, req: RegistrationRequest, passwordHash: string, now: int, normalizedLookup: bool)
    ensures var o := RegisterWith(st, req, passwordHash, now, normalizedLookup);
      var v := OtpRegistry.VerifyStep(st.otp, req.otpKey, req.email, req.otp, now);
      (req.username.None? || req.password.None? ==> o == Outcome(Err(IllegalArgument(CREDENTIALS_REQUIRED)), st)) &&
      (req.username.Some? && req.password.Some? && !NonBlank(req.otpKey) ==> o == Outcome(Err(IllegalArgument(KEY_REQUIRED)), st)) &&
      (req.username.Some? && req.password.Some? && NonBlank(req.otpKey) && !v.ok ==>
         o == Outcome(Err(IllegalState(OTP_NOT_VALIDATED)), st.(otp := v.after)))
    ensures var o := RegisterWith(st, req, passwordHash, now, normalizedLookup);
      var v := OtpRegistry.VerifyStep(st.otp, req.otpKey, req.email, req.otp, now);
      var ready := req.username.Some? && req.password.Some? && NonBlank(req.otpKey) && v.ok;
      (ready ==> req.email.Some?) &&
      (ready && EmailTaken(st.users, if normalizedLookup then Normalize(req.email.value) else req.email.value) ==>
         o == Outcome(Err(IllegalState(EMAIL_EXISTS)), st.(otp := v.after))) &&
      (ready && !EmailTaken(st.users, if normalizedLookup then Normalize(req.email.value) else req.email.value) &&
       EmailTaken(st.users, Normalize(req.email.value)) ==>
         o == Outcome(Err(DataIntegrityViolation(EMAIL_CONSTRAINT)), st.(otp := v.after))) &&
      (o.result.Ok? <==> ready && !EmailTaken(st.users, if normalizedLookup then Normalize(req.email.value) else req.email.value) &&
                         !EmailTaken(st.users, Normalize(req.email.value)))
  {
    var v := OtpRegistry.VerifyStep(st.otp, req.otpKey, req.email, req.otp, now);
    if req.username.Some? && req.password.Some? && NonBlank(req.otpKey) && v.ok {
      VerifiedHasEmail(st.otp, req, now);
      EmailChecks(st, req, passwordHash, now, normalizedLookup, v.after);
    }
  }

  /** The email checks of a request that passed the OTP check, which left the OTP stores as given. */
  lemma EmailChecks(st: State, req: RegistrationRequest, passwordHash: string, now: int, normalizedLookup: bool,
                    otp: OtpRegistry.Stores)
    requires req.username.Some? && req.password.Some? && NonBlank(req.otpKey) && req.email.Some?
    requires OtpRegistry.VerifyStep(st.otp, req.otpKey, req.email, req.otp, now) == OtpRegistry.Outcome(true, otp)
    ensures var o := RegisterWith(st, req, passwordHash, now, normalizedLookup);
      var lookup := if normalizedLookup then Normalize(req.email.value) else req.email.value;
      (EmailTaken(st.users, lookup) ==> o == Outcome(Err(IllegalState(EMAIL_EXISTS)), st.(otp := otp))) &&
      (!EmailTaken(st.users, lookup) && EmailTaken(st.users, Normalize(req.email.value)) ==>
         o == Outcome(Err(DataIntegrityViolation(EMAIL_CONSTRAINT)), st.(otp := otp))) &&
      (o.result.Ok? <==> !EmailTaken(st.users, lookup) && !EmailTaken(st.users, Normalize(req.email.value)))
  {
    var email := req.email.value;
    var lookup := if normalizedLookup then Normalize(email) else email;
    var st1 := st.(otp := otp);
    var u := NewUser(st, req, passwordHash);
    var o := RegisterWith(st, req, passwordHash, now, normalizedLookup);
    if EmailTaken(st.users, lookup) {
      assert o == Outcome(Err(IllegalState(EMAIL_EXISTS)), st1);
    } else if EmailTaken(st.users, u.email) {
      assert o == Outcome(Err(DataIntegrityViolation(EMAIL_CONSTRAINT)), st1);
    } else {
      assert o.result == Ok(u);
    }
  }

  /** What a successful registration passed and what it stored. */
  lemma RegisterSucceeds(st: State, req: RegistrationRequest, passwordHash: string, now: int, normalizedLookup: bool)
    requires RegisterWith(st, req, passwordHash, now, normalizedLookup).result.Ok?
    ensures req.username.Some? && req.password.Some? && NonBlank(req.otpKey) && req.email.Some?
    ensures var v := OtpRegistry.VerifyStep(st.otp, req.otpKey, req.email, req.otp, now);
      var u := NewUser(st, req, passwordHash);
      v.ok && !EmailTaken(st.users, u.email) &&
      RegisterWith(st, req, passwordHash, now, normalizedLookup) ==
        Outcome(Ok(u), st.(otp := v.after, users := st.users[u.id := u], nextUserId := st.nextUserId + 1,
                           mappings := AddMapping(st.mappings, u, req, now)))
  {
    var v := OtpRegistry.VerifyStep(st.otp, req.otpKey, req.email, req.otp, now);
    assert req.username.Some? && req.password.Some? && NonBlank(req.otpKey) && v.ok;
    VerifiedHasEmail(st.otp, req, now);
  }

  /** A verified OTP always came with an email. */
  lemma VerifiedHasEmail(otp: OtpRegistry.Stores, req: RegistrationRequest, now: int)
    requires OtpRegistry.VerifyStep(otp, req.otpKey, req.email, req.otp, now).ok
    ensures req.email.Some?
  {
  }

  /**
   * A registered user, under either lookup, is new, enabled, without MFA or
   * last login, and stored with the normalised email no other user has.
   */
  lemma RegisteredUser(st: State, req: RegistrationRequest, passwordHash: string, now: int, normalizedLookup: bool)
    requires WellKeyed(st.users, st.nextUserId)
    requires RegisterWith(st, req, passwordHash, now, normalizedLookup).result.Ok?
    ensures var o := RegisterWith(st, req, passwordHash, now, normalizedLookup);
      var u := o.result.value;
      u.id !in st.users && o.after.users == st.users[u.id := u] && WellKeyed(o.after.users, o.after.nextUserId) &&
      req.email.Some? && u.email == Normalize(req.email.value) && u.username == req.username.value &&
      u.passwordHash == passwordHash && u.enabled && !u.mfaEnabled && u.lastLogin.None? &&
      !EmailTaken(st.users, u.email)
  {
    RegisterSucceeds(st, req, passwordHash, now, normalizedLookup);
  }

  /** The mapping step alone: the rules of RegisteredMapping for any user. */
  lemma AddMappingRules(m: UPM.Store, u: User, req: RegistrationRequest, now: int)
    requires UPM.WellKeyed(m)
    ensures var m' := AddMapping(m, u, req, now);
      (!NonBlank(req.providerCode) ==> m' == m) &&
      (NonBlank(req.providerCode) ==>
        ActiveMappingOf(m'.mappings, u.id, Normalize(req.providerCode.value)) &&
        UPM.WellKeyed(m') &&
        (ActiveMappingOf(m.mappings, u.id, Normalize(req.providerCode.value)) ==> m' == m) &&
        (!ActiveMappingOf(m.mappings, u.id, Normalize(req.providerCode.value)) ==>
           m'.mappings.Keys == m.mappings.Keys + {m.nextId}))
  {
    if NonBlank(req.providerCode) {
      var code := Normalize(req.providerCode.value);
      if !ActiveMappingOf(m.mappings, u.id, code) {
        var m' := AddMapping(m, u, req, now);
        assert m'.mappings[m.nextId].userId == u.id && m'.mappings[m.nextId].providerCode == code;
      }
    }
  }

  /**
   * A provider mapping is added only for a non-blank provider code, under the
   * normalised code, and afterwards exactly one ACTIVE mapping links the new
   * user to it when none did before.
   */
  lemma RegisteredMapping(st: State, req: RegistrationRequest, passwordHash: string, now: int, normalizedLookup: bool)
    requires UPM.WellKeyed(st.mappings)
    requires RegisterWith(st, req, passwordHash, now, normalizedLookup).result.Ok?
    ensures var o := RegisterWith(st, req, passwordHash, now, normalizedLookup);
      var u := o.result.value;
      (!NonBlank(req.providerCode) ==> o.after.mappings == st.mappings) &&
      (NonBlank(req.providerCode) ==>
        ActiveMappingOf(o.after.mappings.mappings, u.id, Normalize(req.providerCode.value)) &&
        UPM.WellKeyed(o.after.mappings) &&
        (ActiveMappingOf(st.mappings.mappings, u.id, Normalize(req.providerCode.value)) ==> o.after.mappings == st.mappings) &&
        (!ActiveMappingOf(st.mappings.mappings, u.id, Normalize(req.providerCode.value)) ==>
           o.after.mappings.mappings.Keys == st.mappings.mappings.Keys + {st.mappings.nextId}))
  {
    RegisterSucceeds(st, req, passwordHash, now, normalizedLookup);
    var u := NewUser(st, req, passwordHash);
    AddMappingRules(st.mappings, u, req, now);
  }

  /** Under either lookup, registration keeps emails unique: the constraint refuses what the lookup misses. */
  lemma RegisterPreservesUniqueEmails(st: State, req: RegistrationRequest, passwordHash: string, now: int, normalizedLookup: bool)
    requires WellKeyed(st.users, st.nextUserId) && UniqueEmails(st.users)
    ensures var o := RegisterWith(st, req, passwordHash, now, normalizedLookup);
      WellKeyed(o.after.users, o.after.nextUserId) && UniqueEmails(o.after.users)
  {
    var o := RegisterWith(st, req, passwordHash, now, normalizedLookup);
    if o.result.Ok? {
      RegisterSucceeds(st, req, passwordHash, now, normalizedLookup);
      var u := o.result.value;
      assert !EmailTaken(st.users, u.email);
      assert o.after.users == st.users[u.id := u];
    }
  }

  /**
   * As written, an email that differs from a stored one only in case passes
   * the duplicate check; the insert then fails on the unique constraint, so
   * the caller gets a constraint violation where the normalised check gives
   * "Email already exists".  Either way no user is added.
   */
  lemma DuplicateEmailAsWritten()
    ensures var existing := User(1, "alice", "a@x", "h", true, false, None);
      var st := State(map[1 := existing], 2, UPM.Store(map[], 1), OtpRegistry.Stores(map[], map[]));
      var req := RegistrationRequest(Some("alice2"), Some("pw"), Some("A@x"), Some("k"), Some(OtpRegistry.OVERRIDE), None, None);
      var o := RegisterAsWritten(st, req, "h2", 0);
      o.result == Err(DataIntegrityViolation(EMAIL_CONSTRAINT)) && o.after.users == st.users &&
      Register(st, req, "h2", 0).result == Err(IllegalState(EMAIL_EXISTS))
  {
    var existing := User(1, "alice", "a@x", "h", true, false, None);
    var req := RegistrationRequest(Some("alice2"), Some("pw"), Some("A@x"), Some("k"), Some(OtpRegistry.OVERRIDE), None, None);
    assert JavaTrim("A@x") == "A@x" by {
      TrimOfTrimmed("A@x", IsJavaTrimmable);
    }
    assert ToLower("A@x") == "a@x";
    assert JavaTrim("k") == "k" by {
      TrimOfTrimmed("k", IsJavaTrimmable);
    }
    assert !JavaIsBlank("k") by {
      assert !IsJavaWhitespace("k"[0]);
    }
    var st := State(map[1 := existing], 2, UPM.Store(map[], 1), OtpRegistry.Stores(map[], map[]));
    assert !EmailTaken(st.users, "A@x");
    assert Normalize("A@x") == "a@x";
    assert st.users[1].email == "a@x";
    assert EmailTaken(st.users, Normalize("A@x"));
  }

  /** A key verified with its real code cannot be verified again. */
  lemma KeyNotReusable(st: State, req: RegistrationRequest, passwordHash: string, now: int, later: int, normalizedLookup: bool)
    requires req.otp.Some? && req.otp.value != OtpRegistry.OVERRIDE
    requires RegisterWith(st, req, passwordHash, now, normalizedLookup).result.Ok?
    ensures !OtpRegistry.VerifyStep(RegisterWith(st, req, passwordHash, now, normalizedLookup).after.otp,
                                    req.otpKey, req.email, req.otp, later).ok
  {
  }

  /** Renaming: unknown id fails; a blank name changes nothing; a taken email as name is refused. */
  lemma UpdateUserRules(users: map<int, User>, id: int, username: Option<string>)
    ensures var (r, users') := UpdateUserStep(users, id, username);
      (id !in users ==> r == Err(NoSuchElement(USER_NOT_FOUND)) && users' == users) &&
      (id in users && !NonBlank(username) ==> r == Ok(users[id]) && users' == users) &&
      ((id in users && NonBlank(username) && Normalize(username.value) != users[id].username &&
        EmailTaken(users, Normalize(username.value))) ==> r == Err(IllegalState(USERNAME_EXISTS)) && users' == users) &&
      (r.Ok? ==> users' == users[id := r.value] && r.value == users[id].(username := r.value.username))
  {
    if id in users && NonBlank(username) {
      var uname := Normalize(username.value);
      if !(uname != users[id].username && EmailTaken(users, uname)) {
        assert UpdateUserStep(users, id, username) == (Ok(users[id].(username := uname)), users[id := users[id].(username := uname)]);
      }
    }
  }

  /** Enabling changes that flag alone. */
  lemma SetEnabledRules(users: map<int, User>, id: int, enabled: bool)
    ensures var (r, users') := SetEnabledStep(users, id, enabled);
      (id !in users ==> r.Err? && users' == users) &&
      (id in users ==> r.Ok? && users'.Keys == users.Keys && users'[id] == users[id].(enabled := enabled) &&
                       forall j :: j in users && j != id ==> users'[j] == users[j])
  {
  }

  // ------------------------------------------------------------ the service

  class UserManagementService {
    var users: map<int, User>
    var nextUserId: int
    var mappings: UPM.Store
    var otp: OtpRegistry.Stores

    function Snapshot(): State
      reads this
    {
      State(users, nextUserId, mappings, otp)
    }

    predicate Valid()
      reads this
    {
      WellKeyed(users, nextUserId) && UniqueEmails(users)
    }

    constructor(otp: OtpRegistry.Stores)
      ensures Valid() && users == map[] && mappings == UPM.Store(map[], 1) && this.otp == otp
    {
      users := map[];
      nextUserId := 1;
      mappings := UPM.Store(map[], 1);
      this.otp := otp;
    }

    method RegisterUser(req: RegistrationRequest, passwordHash: string, now: int) returns (r: Result<User>)
      modifies this
      ensures Outcome(r, Snapshot()) == RegisterAsWritten(old(Snapshot()), req, passwordHash, now)
      ensures old(Valid()) ==> Valid()
    {
      if Valid() {
        RegisterPreservesUniqueEmails(Snapshot(), req, passwordHash, now, false);
      }
      if req.username.None? || req.password.None? {
        return Err(IllegalArgument(CREDENTIALS_REQUIRED));
      }
      if !NonBlank(req.otpKey) {
        return Err(IllegalArgument(KEY_REQUIRED));
      }
      var v := OtpRegistry.VerifyStep(otp, req.otpKey, req.email, req.otp, now);
      otp := v.after;
      if !v.ok {
        return Err(IllegalState(OTP_NOT_VALIDATED));
      }
      var email := req.email.GetOr("");
      if EmailTaken(users, email) {
        return Err(IllegalState(EMAIL_EXISTS));
      }
      var u := User(nextUserId, req.username.value, Normalize(email), passwordHash, true, false, None);
      if EmailTaken(users, u.email) {
        // the insert violates the unique constraint and the transaction rolls back
        return Err(DataIntegrityViolation(EMAIL_CONSTRAINT));
      }
      users := users[u.id := u];
      nextUserId := nextUserId + 1;
      mappings := AddMapping(mappings, u, req, now);
      r := Ok(u);
    }

    method UpdateUser(id: int, username: Option<string>) returns (r: Result<User>)
      modifies this
      ensures (r, users) == UpdateUserStep(old(users), id, username)
      ensures nextUserId == old(nextUserId) && mappings == old(mappings) && otp == old(otp)
      ensures old(Valid()) ==> Valid()
    {
      if id !in users {
        return Err(NoSuchElement(USER_NOT_FOUND));
      }
      var existing := users[id];
      if !NonBlank(username) {
        return Ok(existing);
      }
      var uname := Normalize(username.value);
      if uname != existing.username && EmailTaken(users, uname) {
        return Err(IllegalState(USERNAME_EXISTS));
      }
      existing := existing.(username := uname);
      users := users[id := existing];
      r := Ok(existing);
    }

    method SetUserEnabled(id: int, enabled: bool) returns (r: Result<()>)
      modifies this
      ensures (r, users) == SetEnabledStep(old(users), id, enabled)
      ensures nextUserId == old(nextUserId) && mappings == old(mappings) && otp == old(otp)
      ensures old(Valid()) ==> Valid()
    {
      if id !in users {
        return Err(NoSuchElement(USER_NOT_FOUND));
      }
      users := users[id := users[id].(enabled := enabled)];
      r := Ok(());
    }
  }
}
