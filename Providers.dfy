// Providers: the provider table, discovery by name, status and tag, and
// registration of a provider together with its admin user.  The table is a
// sequence whose entry at position i carries the identity id i + 1.
module Providers {
  import opened Wrappers
  import opened Strings

  datatype ProviderMetadata = ProviderMetadata(contactEmail: Option<string>, contactPhone: Option<string>, tags: Option<string>)

  datatype Provider = Provider(
    id: int,
    name: string,
    code: string,
    description: Option<string>,
    status: string,
    ownerUserId: Option<int>,
    metadata: Option<ProviderMetadata>)

  const PENDING: string := "PENDING"
  const ACTIVE: string := "ACTIVE"
  const FAILED: string := "FAILED"

  // ------------------------------------------------------------ tag tokens

  /** The text with a comma on each side, so that every token sits between two commas. */
  function Fenced(t: string): string { "," + t + "," }

  /** The discovery filter's test: the tag, fenced, occurs in the fenced tag list, ignoring case. */
  predicate TagMatches(tags: string, tag: string)
  {
    Contains(Fenced(ToLower(tags)), Fenced(ToLower(tag)))
  }

  lemma FencedJoin(ps: seq<string>)
    requires |ps| > 1
    ensures Fenced(Join(ps, ",")) == "," + ps[0] + Fenced(Join(ps[1..], ","))
  {
  }

  /** A token of the list occurs fenced in the fenced list. */
  lemma {:induction false} TokenOccurs(ps: seq<string>, i: nat) returns (k: nat)
    requires i < |ps|
    ensures k + |ps[i]| + 2 <= |Fenced(Join(ps, ","))|
    ensures Fenced(Join(ps, ","))[k..k + |ps[i]| + 2] == Fenced(ps[i])
  {
    var w := Fenced(Join(ps, ","));
    if |ps| == 1 {
      k := 0;
      assert w == Fenced(ps[0]);
    } else {
      FencedJoin(ps);
      var rest := Fenced(Join(ps[1..], ","));
      var head := "," + ps[0];
      assert w == head + rest;
      if i == 0 {
        k := 0;
        assert w[..|ps[0]| + 2] == Fenced(ps[0]);
      } else {
        var k' := TokenOccurs(ps[1..], i - 1);
        k := |head| + k';
        assert ps[1..][i - 1] == ps[i];
        assert w[k..k + |ps[i]| + 2] == rest[k'..k' + |ps[i]| + 2];
      }
    }
  }

  /** The fenced list starts with its first token, fenced. */
  lemma FencedHead(ps: seq<string>)
    requires |ps| >= 1
    ensures |ps[0]| + 2 <= |Fenced(Join(ps, ","))|
    ensures Fenced(Join(ps, ","))[..|ps[0]| + 2] == Fenced(ps[0])
  {
    if |ps| > 1 {
      FencedJoin(ps);
    }
  }

  /** Within the fenced first token the commas are at its two ends. */
  lemma FencedCommas(p: string, j: nat)
    requires ',' !in p
    requires j < |p| + 2
    ensures Fenced(p)[j] == ',' <==> j == 0 || j == |p| + 1
  {
    if 0 < j <= |p| {
      assert Fenced(p)[j] == p[j - 1];
    }
  }

  /** A fenced comma-free text occurs in the fenced list only where it is one of the tokens. */
  lemma {:induction false} OnlyTokensOccur(ps: seq<string>, x: string, k: nat)
    requires |ps| >= 1 && forall j :: 0 <= j < |ps| ==> ',' !in ps[j]
    requires ',' !in x
    requires k + |x| + 2 <= |Fenced(Join(ps, ","))|
    requires Fenced(Join(ps, ","))[k..k + |x| + 2] == Fenced(x)
    ensures x in ps
  {
    var w := Fenced(Join(ps, ","));
    var p := ps[0];
    FencedHead(ps);
    assert w[k] == Fenced(x)[0];
    if k <= |p| {
      // The occurrence cannot start inside the first token, which holds no comma.
      FencedCommas(p, k);
      assert w[k] == Fenced(p)[k];
      assert k == 0;
      assert w[..|x| + 2] == Fenced(x);
      OccurrenceAtHead(p, x, w);
      assert x == p;
    } else {
      // A single token leaves no room for an occurrence after it.
      assert |ps| > 1;
      FencedJoin(ps);
      var rest := Fenced(Join(ps[1..], ","));
      assert w == "," + p + rest;
      var k' := k - |p| - 1;
      assert rest[k'..k' + |x| + 2] == w[k..k + |x| + 2];
      OnlyTokensOccur(ps[1..], x, k');
    }
  }

  /** Two fenced comma-free texts that both start a text are the same. */
  lemma OccurrenceAtHead(p: string, x: string, w: string)
    requires ',' !in p && ',' !in x
    requires |p| + 2 <= |w| && w[..|p| + 2] == Fenced(p)
    requires |x| + 2 <= |w| && w[..|x| + 2] == Fenced(x)
    ensures x == p
  {
    if |x| < |p| {
      FencedCommas(p, |x| + 1);
    } else if |p| < |x| {
      FencedCommas(x, |p| + 1);
    }
    assert |x| == |p|;
    assert Fenced(x) == Fenced(p);
    assert x == Fenced(x)[1..|x| + 1];
  }

  /**
   * A comma-free tag matches exactly when, lower-cased, it is one of the
   * comma-separated tokens of the lower-cased tag list; surrounding spaces
   * are part of a token.
   */
  lemma TagMatchIsToken(tags: string, tag: string)
    requires ',' !in tag
    ensures TagMatches(tags, tag) <==> ToLower(tag) in Split(ToLower(tags), ',')
  {
    var t := ToLower(tags);
    var x := ToLower(tag);
    var ps := Split(t, ',');
    JoinSplit(t, ',');
    assert "," == [','];
    assert Fenced(Join(ps, ",")) == Fenced(t);
    assert ',' !in x by {
      forall j | 0 <= j < |x| ensures x[j] != ',' {
        assert tag[j] != ',';
      }
    }
    if x in ps {
      var i :| 0 <= i < |ps| && ps[i] == x;
      var k := TokenOccurs(ps, i);
      ContainsAt(Fenced(t), Fenced(x), k);
    }
    if TagMatches(tags, tag) {
      var k :| 0 <= k <= |Fenced(t)| && IsPrefix(Fenced(x), Fenced(t)[k..]);
      assert Fenced(t)[k..k + |x| + 2] == Fenced(x);
      OnlyTokensOccur(ps, x, k);
    }
  }

  // ------------------------------------------------------------ the table

  /** Position i of the table holds the provider with identity i + 1. */
  predicate WellNumbered(ps: seq<Provider>)
  {
    forall i :: 0 <= i < |ps| ==> ps[i].id == i + 1
  }

  /** The code column is unique. */
  predicate UniqueCodes(ps: seq<Provider>)
  {
    forall i, j :: 0 <= i < j < |ps| ==> ps[i].code != ps[j].code
  }

  predicate CodeTaken(ps: seq<Provider>, code: string)
  {
    exists i :: 0 <= i < |ps| && ps[i].code == code
  }

  /** A present value that is not blank in the sense of Java's isBlank. */
  predicate NonBlank(o: Option<string>)
  {
    o.Some? && !JavaIsBlank(o.value)
  }

  /** The repository's case-insensitive substring match (ASCII letters only). */
  predicate ContainsIgnoreCase(s: string, sub: string)
  {
    Contains(ToLower(s), ToLower(sub))
  }

  /** The providers of the table that pass the test, in table order. */
  function Select(ps: seq<Provider>, keep: Provider -> bool): (r: seq<Provider>)
    ensures forall p :: p in r <==> p in ps && keep(p)
    ensures |r| <= |ps|
  {
    if ps == [] then []
    else (if keep(ps[0]) then [ps[0]] else []) + Select(ps[1..], keep)
  }

  // ------------------------------------------------------------ discovery

  datatype SearchCriteria = SearchCriteria(nameContains: Option<string>, status: Option<string>, tag: Option<string>)

  /** The repository query that the criteria choose: by name, else by status, else everything. */
  function Base(ps: seq<Provider>, c: SearchCriteria): seq<Provider>
  {
    if NonBlank(c.nameContains) then Select(ps, (p: Provider) => ContainsIgnoreCase(p.name, c.nameContains.value))
    else if NonBlank(c.status) then Select(ps, (p: Provider) => p.status == c.status.value)
    else ps
  }

  /** The tag filter: no tag keeps everything; a tag needs a tag list holding it as a whole token. */
  predicate TagKeeps(p: Provider, tag: Option<string>)
  {
    !NonBlank(tag) || (p.metadata.Some? && p.metadata.value.tags.Some? && TagMatches(p.metadata.value.tags.value, tag.value))
  }

  function Search(ps: seq<Provider>, c: SearchCriteria): seq<Provider>
  {
    Select(Base(ps, c), (p: Provider) => TagKeeps(p, c.tag))
  }

  /** Which providers a search returns, case by case. */
  lemma SearchMembers(ps: seq<Provider>, c: SearchCriteria, p: Provider)
    ensures NonBlank(c.nameContains) ==>
      (p in Search(ps, c) <==> p in ps && ContainsIgnoreCase(p.name, c.nameContains.value) && TagKeeps(p, c.tag))
    ensures !NonBlank(c.nameContains) && NonBlank(c.status) ==>
      (p in Search(ps, c) <==> p in ps && p.status == c.status.value && TagKeeps(p, c.tag))
    ensures !NonBlank(c.nameContains) && !NonBlank(c.status) ==>
      (p in Search(ps, c) <==> p in ps && TagKeeps(p, c.tag))
  {
  }

  /** A name filter wins: the status criterion is then ignored. */
  lemma NameBeatsStatus(ps: seq<Provider>, c: SearchCriteria, status: Option<string>)
    requires NonBlank(c.nameContains)
    ensures Search(ps, c) == Search(ps, c.(status := status))
  {
  }

  /** Without a tag the base list comes back whole and in order. */
  lemma {:induction false} NoTagKeepsBase(ps: seq<Provider>, c: SearchCriteria)
    requires !NonBlank(c.tag)
    ensures Search(ps, c) == Base(ps, c)
  {
    SelectAll(Base(ps, c), (p: Provider) => TagKeeps(p, c.tag));
  }

  lemma {:induction false} SelectAll(ps: seq<Provider>, keep: Provider -> bool)
    requires forall p :: p in ps ==> keep(p)
    ensures Select(ps, keep) == ps
  {
    if ps != [] {
      assert ps[0] in ps;
      assert forall p :: p in ps[1..] ==> p in ps;
      SelectAll(ps[1..], keep);
    }
  }

  /** With a tag, a provider without metadata or without a tag list is never returned. */
  lemma UntaggedExcluded(ps: seq<Provider>, c: SearchCriteria, p: Provider)
    requires NonBlank(c.tag)
    requires p.metadata.None? || p.metadata.value.tags.None?
    ensures p !in Search(ps, c)
  {
  }

  /** Tags are whole tokens: "b" does not match "a, b", whose second token is " b". */
  lemma SpacedTokenExample()
    ensures !TagMatches("a, b", "b")
  {
    TagMatchIsToken("a, b", "b");
    assert ToLower("a, b") == "a, b";
    assert Split("a, b", ',') == ["a", " b"] by {
      assert "a, b" == "a" + ", b";
      SplitNoSep(" b", ',');
      assert ", b"[1..] == " b";
      assert Split(", b", ',') == ["", " b"];
      SplitPrefix("a", ", b", ',');
      assert "a" + "" == "a";
    }
  }

  /** Case is ignored: "B" matches "a,b". */
  lemma CaseExample()
    ensures TagMatches("a,b", "B")
  {
    TagMatchIsToken("a,b", "B");
    assert ToLower("a,b") == "a,b";
    assert ToLower("B") == "b";
    assert Split("a,b", ',') == ["a", "b"] by {
      assert "a,b" == "a" + ",b";
      SplitNoSep("b", ',');
      assert ",b"[1..] == "b";
      assert Split(",b", ',') == ["", "b"];
      SplitPrefix("a", ",b", ',');
      assert "a" + "" == "a";
    }
  }

  // ------------------------------------------------------------ registration

  const CODE_REQUIRED: string := "code is required"
  const EMAIL_REQUIRED: string := "adminEmail is required"
  const CODE_EXISTS: string := "Provider code already exists"
  const USER_EXISTS: string := "User with this email already exists"
  const OTP_FAILED: string := "Failed to initiate OTP"
  const USERNAME_REQUIRED: string := "adminUsername must be not be null or blank"
  const REGISTRATION_FAILED: string := "Admin user registration failed; provider marked FAILED and released original code for retry"

  /**
   * The provider part of a registration request.  Name and code are
   * validated as non-blank by the controller; the admin's password, names
   * and OTP are passed through to the auth registry untouched.
   */
  datatype RegistrationRequest = RegistrationRequest(
    name: string,
    code: string,
    description: Option<string>,
    contactEmail: Option<string>,
    contactPhone: Option<string>,
    tags: Option<string>,
    adminUsername: Option<string>)

  /**
   * The checks before an OTP is sent: code and email present, the code
   * free, and no user with that email (the auth registry's answer is
   * userExists).
   */
  function ValidateRequest(ps: seq<Provider>, code: Option<string>, email: Option<string>, userExists: bool): Option<Failure>
  {
    if !NonBlank(code) then Some(IllegalArgument(CODE_REQUIRED))
    else if !NonBlank(email) then Some(IllegalArgument(EMAIL_REQUIRED))
    else if CodeTaken(ps, code.value) then Some(IllegalState(CODE_EXISTS))
    else if userExists then Some(IllegalState(USER_EXISTS))
    else None
  }

  /** The pre-check; otpKey is the key the auth registry answers with, None for null. */
  function Precheck(ps: seq<Provider>, code: Option<string>, email: Option<string>, userExists: bool, otpKey: Option<string>): Result<string>
  {
    match ValidateRequest(ps, code, email, userExists)
    case Some(e) => Err(e)
    case None => if otpKey.None? then Err(IllegalState(OTP_FAILED)) else Ok(otpKey.value)
  }

  /** The provider saved first: PENDING, no owner, contacts and tags from the request. */
  function NewProvider(id: int, req: RegistrationRequest): Provider
  {
    Provider(id, req.name, req.code, req.description, PENDING, None,
             Some(ProviderMetadata(req.contactEmail, req.contactPhone, req.tags)))
  }

  /** The admin user was created: it owns the provider, which goes live. */
  function Activated(p: Provider, userId: int): Provider
  {
    p.(ownerUserId := Some(userId), status := ACTIVE)
  }

  function SuffixOpt(o: Option<string>, suffix: string): Option<string>
  {
    if o.Some? then Some(o.value + suffix) else None
  }

  /** The admin user could not be created: FAILED, with the unique and contact fields suffixed. */
  function Released(p: Provider, suffix: string): Provider
  {
    p.(status := FAILED,
       code := p.code + suffix,
       name := p.name + suffix,
       description := SuffixOpt(p.description, suffix),
       metadata := if p.metadata.None? then None
                   else Some(p.metadata.value.(contactEmail := SuffixOpt(p.metadata.value.contactEmail, suffix),
                                               contactPhone := SuffixOpt(p.metadata.value.contactPhone, suffix))))
  }

  datatype Registration = Registration(result: Result<Provider>, providers: seq<Provider>)

  /**
   * What becomes of the table when the admin user cannot be created.  As
   * written, `register` is one transaction and ends by throwing an
   * IllegalStateException, so the insert and the FAILED update are both
   * rolled back; the documented design keeps the FAILED, suffixed row.
   */
  datatype FailureCommit = RolledBack | KeptFailed

  /**
   * One registration.  userId is the auth registry's answer: the new user's
   * id, or None when it answered null, without an id, or threw.  uuid is the
   * random suffix of the failure path.
   */
  function RegisterStep(ps: seq<Provider>, req: RegistrationRequest, userId: Option<int>, uuid: string,
                        commit: FailureCommit): Registration
  {
    if CodeTaken(ps, req.code) then Registration(Err(IllegalState(CODE_EXISTS)), ps)
    else if !NonBlank(req.adminUsername) then Registration(Err(IllegalArgument(USERNAME_REQUIRED)), ps)
    else
      var p := NewProvider(|ps| + 1, req);
      if userId.Some? then
        Registration(Ok(Activated(p, userId.value)), ps + [Activated(p, userId.value)])
      else if commit == RolledBack then
        Registration(Err(IllegalState(REGISTRATION_FAILED)), ps)
      else
        Registration(Err(IllegalState(REGISTRATION_FAILED)), ps + [Released(p, "-" + uuid)])
  }

  /** Active providers whose name or code contains the query, ignoring case. */
  function SearchProviders(ps: seq<Provider>, query: string): seq<Provider>
  {
    Select(ps, (p: Provider) => (ContainsIgnoreCase(p.name, query) || ContainsIgnoreCase(p.code, query)) && p.status == ACTIVE)
  }

  // ------------------------------------------------------------ registration properties

  /**
   * The pre-check gives the OTP key exactly when code and email are given,
   * the code is free, the user is new and a key came back; the checks are
   * made in that order.
   */
  lemma PrecheckRules(ps: seq<Provider>, code: Option<string>, email: Option<string>, userExists: bool, otpKey: Option<string>)
    ensures Precheck(ps, code, email, userExists, otpKey).Ok? <==>
      NonBlank(code) && NonBlank(email) && !CodeTaken(ps, code.value) && !userExists && otpKey.Some?
    ensures Precheck(ps, code, email, userExists, otpKey).Ok? ==> Precheck(ps, code, email, userExists, otpKey).value == otpKey.value
    ensures !NonBlank(code) ==> Precheck(ps, code, email, userExists, otpKey) == Err(IllegalArgument(CODE_REQUIRED))
    ensures NonBlank(code) && !NonBlank(email) ==> Precheck(ps, code, email, userExists, otpKey) == Err(IllegalArgument(EMAIL_REQUIRED))
    ensures NonBlank(code) && NonBlank(email) && CodeTaken(ps, code.value) ==>
      Precheck(ps, code, email, userExists, otpKey) == Err(IllegalState(CODE_EXISTS))
    ensures NonBlank(code) && NonBlank(email) && !CodeTaken(ps, code.value) && userExists ==>
      Precheck(ps, code, email, userExists, otpKey) == Err(IllegalState(USER_EXISTS))
  {
  }

  /** A taken code or a blank admin username is refused before anything is saved. */
  lemma RegisterRefusals(ps: seq<Provider>, req: RegistrationRequest, userId: Option<int>, uuid: string, commit: FailureCommit)
    ensures CodeTaken(ps, req.code) ==> RegisterStep(ps, req, userId, uuid, commit) == Registration(Err(IllegalState(CODE_EXISTS)), ps)
    ensures !CodeTaken(ps, req.code) && !NonBlank(req.adminUsername) ==>
      RegisterStep(ps, req, userId, uuid, commit) == Registration(Err(IllegalArgument(USERNAME_REQUIRED)), ps)
  {
  }

  /** A created admin user leaves one new ACTIVE provider owned by that user, with the request's details. */
  lemma RegisterSuccess(ps: seq<Provider>, req: RegistrationRequest, uid: int, uuid: string, commit: FailureCommit)
    requires !CodeTaken(ps, req.code) && NonBlank(req.adminUsername)
    ensures var o := RegisterStep(ps, req, Some(uid), uuid, commit);
      o.result.Ok? && o.providers == ps + [o.result.value] &&
      o.result.value.id == |ps| + 1 && o.result.value.status == ACTIVE && o.result.value.ownerUserId == Some(uid) &&
      o.result.value.code == req.code && o.result.value.name == req.name && o.result.value.description == req.description &&
      o.result.value.metadata == Some(ProviderMetadata(req.contactEmail, req.contactPhone, req.tags))
  {
  }

  /**
   * As written, a failed admin user is reported as "provider marked FAILED",
   * yet the rollback leaves the table exactly as it was: no FAILED row.
   */
  lemma RegisterFailureAsWritten(ps: seq<Provider>, req: RegistrationRequest, uuid: string)
    requires !CodeTaken(ps, req.code) && NonBlank(req.adminUsername)
    ensures RegisterStep(ps, req, None, uuid, RolledBack) == Registration(Err(IllegalState(REGISTRATION_FAILED)), ps)
    ensures forall q :: q in RegisterStep(ps, req, None, uuid, RolledBack).providers ==> q in ps
  {
  }

  /**
   * When the FAILED row is kept, as designed, it has no owner and a code that
   * is no longer the requested one, so the same request can pass the code
   * check again; the tags keep their value.
   */
  lemma RegisterFailure(ps: seq<Provider>, req: RegistrationRequest, uuid: string)
    requires !CodeTaken(ps, req.code) && NonBlank(req.adminUsername)
    ensures var o := RegisterStep(ps, req, None, uuid, KeptFailed);
      var f := o.providers[|ps|];
      o.result == Err(IllegalState(REGISTRATION_FAILED)) && |o.providers| == |ps| + 1 && o.providers[..|ps|] == ps &&
      f.status == FAILED && f.ownerUserId == None && f.code == req.code + "-" + uuid && f.name == req.name + "-" + uuid &&
      f.description == SuffixOpt(req.description, "-" + uuid) &&
      f.metadata == Some(ProviderMetadata(SuffixOpt(req.contactEmail, "-" + uuid), SuffixOpt(req.contactPhone, "-" + uuid), req.tags))
    ensures !CodeTaken(RegisterStep(ps, req, None, uuid, KeptFailed).providers, req.code)
  {
    var o := RegisterStep(ps, req, None, uuid, KeptFailed);
    assert o.providers == ps + [Released(NewProvider(|ps| + 1, req), "-" + uuid)];
    assert o.providers[|ps|].code == req.code + "-" + uuid;
  }

  /** Either way, the retry of a failed registration gets past the code check. */
  lemma RetryAfterFailure(ps: seq<Provider>, req: RegistrationRequest, uuid: string, userId: Option<int>, uuid': string,
                          commit: FailureCommit)
    requires !CodeTaken(ps, req.code) && NonBlank(req.adminUsername)
    ensures RegisterStep(RegisterStep(ps, req, None, uuid, commit).providers, req, userId, uuid', commit).result != Err(IllegalState(CODE_EXISTS))
  {
    if commit == KeptFailed {
      RegisterFailure(ps, req, uuid);
    }
  }

  /** Registration keeps the numbering, and the codes unique when a kept failure's suffix is fresh. */
  lemma RegisterPreservesTable(ps: seq<Provider>, req: RegistrationRequest, userId: Option<int>, uuid: string,
                               commit: FailureCommit)
    requires WellNumbered(ps) && UniqueCodes(ps)
    requires userId.None? && commit == KeptFailed ==> !CodeTaken(ps, req.code + "-" + uuid)
    ensures WellNumbered(RegisterStep(ps, req, userId, uuid, commit).providers)
    ensures UniqueCodes(RegisterStep(ps, req, userId, uuid, commit).providers)
  {
    var o := RegisterStep(ps, req, userId, uuid, commit);
    if o.providers != ps {
      var q := o.providers[|ps|];
      assert o.providers == ps + [q];
      assert q.code == req.code || q.code == req.code + "-" + uuid;
      assert !CodeTaken(ps, q.code);
    }
  }

  /** The provider search returns exactly the active providers whose name or code matches. */
  lemma SearchProvidersMembers(ps: seq<Provider>, query: string, p: Provider)
    ensures p in SearchProviders(ps, query) <==>
      p in ps && p.status == ACTIVE && (ContainsIgnoreCase(p.name, query) || ContainsIgnoreCase(p.code, query))
  {
  }

  /** A failed registration never shows up in the provider search. */
  lemma FailedNotSearchable(ps: seq<Provider>, req: RegistrationRequest, uuid: string, query: string, commit: FailureCommit)
    requires !CodeTaken(ps, req.code) && NonBlank(req.adminUsername)
    ensures SearchProviders(RegisterStep(ps, req, None, uuid, commit).providers, query) == SearchProviders(ps, query)
  {
    var f := Released(NewProvider(|ps| + 1, req), "-" + uuid);
    SelectSnoc(ps, f, (p: Provider) => (ContainsIgnoreCase(p.name, query) || ContainsIgnoreCase(p.code, query)) && p.status == ACTIVE);
  }

  lemma {:induction false} SelectSnoc(ps: seq<Provider>, q: Provider, keep: Provider -> bool)
    ensures Select(ps + [q], keep) == Select(ps, keep) + (if keep(q) then [q] else [])
  {
    var t := if keep(q) then [q] else [];
    if ps == [] {
      assert ps + [q] == [q];
      assert Select([q], keep) == t + Select([], keep);
    } else {
      var h := if keep(ps[0]) then [ps[0]] else [];
      assert (ps + [q])[0] == ps[0];
      assert (ps + [q])[1..] == ps[1..] + [q];
      assert Select(ps + [q], keep) == h + Select(ps[1..] + [q], keep);
      SelectSnoc(ps[1..], q, keep);
      assert h + (Select(ps[1..], keep) + t) == (h + Select(ps[1..], keep)) + t;
    }
  }

  // ------------------------------------------------------------ the service

  /** The registration service over the provider table. */
  class ProviderRegistrationService {
    var providers: seq<Provider>

    predicate Valid()
      reads this
    {
      WellNumbered(providers) && UniqueCodes(providers)
    }

    constructor(ps: seq<Provider>)
      ensures providers == ps
    {
      providers := ps;
    }

    /** Validates, then asks for an OTP; nothing is written. */
    method PrecheckAndInitiateOtp(code: Option<string>, email: Option<string>, userExists: bool, otpKey: Option<string>)
      returns (r: Result<string>)
      ensures r == Precheck(providers, code, email, userExists, otpKey)
    {
      if !NonBlank(code) {
        return Err(IllegalArgument(CODE_REQUIRED));
      }
      if !NonBlank(email) {
        return Err(IllegalArgument(EMAIL_REQUIRED));
      }
      if CodeTaken(providers, code.value) {
        return Err(IllegalState(CODE_EXISTS));
      }
      if userExists {
        return Err(IllegalState(USER_EXISTS));
      }
      if otpKey.None? {
        return Err(IllegalState(OTP_FAILED));
      }
      r := Ok(otpKey.value);
    }

    /**
     * Saves the provider PENDING, then activates it or marks it FAILED; the
     * exception thrown after marking it FAILED rolls the whole transaction
     * back to the table as it was.
     */
    method Register(req: RegistrationRequest, userId: Option<int>, uuid: string) returns (r: Result<Provider>)
      modifies this
      ensures Registration(r, providers) == RegisterStep(old(providers), req, userId, uuid, RolledBack)
      ensures old(Valid()) ==> Valid()
    {
      if CodeTaken(providers, req.code) {
        return Err(IllegalState(CODE_EXISTS));
      }
      if !NonBlank(req.adminUsername) {
        return Err(IllegalArgument(USERNAME_REQUIRED));
      }
      var before := providers;
      var p := NewProvider(|providers| + 1, req);
      providers := providers + [p];
      if userId.Some? {
        p := Activated(p, userId.value);
        providers := providers[|providers| - 1 := p];
        r := Ok(p);
      } else {
        p := Released(p, "-" + uuid);
        providers := providers[|providers| - 1 := p];
        providers := before;
        return Err(IllegalState(REGISTRATION_FAILED));
      }
      assert providers == before + [p];
      if WellNumbered(before) && UniqueCodes(before) {
        RegisterPreservesTable(before, req, userId, uuid, RolledBack);
      }
    }
  }
}
