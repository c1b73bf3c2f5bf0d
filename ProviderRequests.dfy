// Access requests to a provider: a user asks once (PENDING), and a provider
// admin approves or rejects.  The request table is a sequence whose entry at
// position i carries the identity id i + 1, as an auto-increment column does.
//
// Every reply is built by `mapToDto`, which turns the entity's `Instant`
// timestamps into `LocalDateTime`s with `LocalDateTime.from`.  That call
// cannot read a date and a time out of an `Instant` and throws, so as the
// service is written a create or an approval throws after its save and its
// transaction rolls back, and a listing with an entry in it throws.  The
// conversion is therefore a parameter: `AsWritten` is the service's own, and
// `AtOffset` is the conversion through a time zone it evidently meant.
module ProviderRequests {
  import opened Wrappers

  datatype RequestStatus = Pending | Approved | Rejected

  datatype ProviderInfo = ProviderInfo(code: string, name: string)

  /** A stored request; the two timestamps are `Instant`s, in epoch milliseconds. */
  datatype ProviderRequest = ProviderRequest(
    id: int,
    userId: int,
    userEmail: string,
    providerId: int,
    providerCode: string,
    requestMessage: Option<string>,
    status: RequestStatus,
    approvedBy: Option<int>,
    approvalNotes: Option<string>,
    requestedRole: Option<string>,
    createdAt: int,
    updatedAt: int)

  datatype CreateRequest = CreateRequest(
    userId: int, userEmail: string, providerId: int, requestMessage: Option<string>, requestedRole: Option<string>)

  datatype ApprovalData = ApprovalData(approvalNotes: Option<string>, assignedRole: Option<string>)

  /** A `java.time.LocalDateTime`: a wall-clock date and time, as milliseconds of local time. */
  datatype LocalDateTime = LocalDateTime(localMillis: int)

  datatype Response = Response(
    id: int,
    userId: int,
    userEmail: string,
    providerId: int,
    providerCode: string,
    providerName: string,
    requestMessage: Option<string>,
    status: RequestStatus,
    approvedBy: Option<int>,
    approvalNotes: Option<string>,
    requestedRole: Option<string>,
    createdAt: LocalDateTime,
    updatedAt: LocalDateTime)

  const DEFAULT_ROLE: string := "USER"
  const UNKNOWN_PROVIDER: string := "Unknown"
  const PROVIDER_NOT_FOUND: string := "Provider not found"
  const ALREADY_EXISTS: string := "Request already exists"
  const REQUEST_NOT_FOUND: string := "Request not found"
  const ALREADY_PROCESSED: string := "Request already processed"
  const NO_LOCAL_DATE_TIME: string := "Unable to obtain LocalDateTime from TemporalAccessor"

  // ------------------------------------------------------------ time conversion

  /** The temporal objects `LocalDateTime.from` can be handed here. */
  datatype Temporal = InstantOf(epochMillis: int) | LocalDateTimeOf(local: LocalDateTime)

  /**
   * `LocalDateTime.from`: it succeeds only on an object that carries a local
   * date and a local time.  An `Instant` is a point on the time line with no
   * time zone and carries neither, so it throws `DateTimeException`.
   */
  function LocalDateTimeFrom(t: Temporal): Result<LocalDateTime>
  {
    match t
    case InstantOf(_) => Err(DateTime(NO_LOCAL_DATE_TIME))
    case LocalDateTimeOf(l) => Ok(l)
  }

  /** How `mapToDto` turns a stored `Instant` into a `LocalDateTime`. */
  datatype Conversion =
    | AsWritten                     // `LocalDateTime.from(instant)`
    | AtOffset(offsetMillis: int)   // `LocalDateTime.ofInstant(instant, zone)` for a zone at that offset

  function Convert(c: Conversion, instant: int): Result<LocalDateTime>
  {
    match c
    case AsWritten => LocalDateTimeFrom(InstantOf(instant))
    case AtOffset(offset) => Ok(LocalDateTime(instant + offset))
  }

  /** `mapToDto`: the created time is converted first, then the updated time. */
  function MapToDto(c: Conversion, r: ProviderRequest, providerName: string): Result<Response>
  {
    var created := Convert(c, r.createdAt);
    var updated := Convert(c, r.updatedAt);
    if created.Err? then Err(created.error)
    else if updated.Err? then Err(updated.error)
    else Ok(Response(r.id, r.userId, r.userEmail, r.providerId, r.providerCode, providerName, r.requestMessage,
      r.status, r.approvedBy, r.approvalNotes, r.requestedRole, created.value, updated.value))
  }

  /** The response carries the entity's columns, under the given provider name. */
  predicate Describes(d: Response, r: ProviderRequest, providerName: string)
  {
    d.id == r.id && d.userId == r.userId && d.userEmail == r.userEmail && d.providerId == r.providerId &&
    d.providerCode == r.providerCode && d.providerName == providerName && d.requestMessage == r.requestMessage &&
    d.status == r.status && d.approvedBy == r.approvedBy && d.approvalNotes == r.approvalNotes &&
    d.requestedRole == r.requestedRole
  }

  /**
   * As written, every mapping throws `DateTimeException`; through a zone it
   * never fails, and the reply carries the entity's columns and its two
   * instants shifted by the zone's offset.
   */
  lemma MapToDtoRules(c: Conversion, r: ProviderRequest, providerName: string)
    ensures c.AsWritten? ==> MapToDto(c, r, providerName) == Err(DateTime(NO_LOCAL_DATE_TIME))
    ensures c.AtOffset? ==> MapToDto(c, r, providerName).Ok?
    ensures c.AtOffset? ==> var d := MapToDto(c, r, providerName).value;
      Describes(d, r, providerName) &&
      d.createdAt.localMillis - r.createdAt == c.offsetMillis &&
      d.updatedAt.localMillis - r.updatedAt == c.offsetMillis
  {
  }

  // ------------------------------------------------------------ the table

  /** Each entry carries the id of its position. */
  predicate WellNumbered(rs: seq<ProviderRequest>)
  {
    forall i :: 0 <= i < |rs| ==> rs[i].id == i + 1
  }

  /** `findById`. */
  function FindRequest(rs: seq<ProviderRequest>, id: int): (r: Option<ProviderRequest>)
    requires WellNumbered(rs)
    ensures r.Some? <==> exists i :: 0 <= i < |rs| && rs[i].id == id
    ensures r.Some? ==> r.value in rs && r.value.id == id
  {
    if 1 <= id <= |rs| then Some(rs[id - 1]) else None
  }

  predicate HasPending(rs: seq<ProviderRequest>, userId: int, providerId: int)
  {
    exists i :: 0 <= i < |rs| && rs[i].userId == userId && rs[i].providerId == providerId && rs[i].status == Pending
  }

  function NameOf(providers: map<int, ProviderInfo>, pid: int): string
  {
    if pid in providers then providers[pid].name else UNKNOWN_PROVIDER
  }

  datatype Outcome = Outcome(result: Result<Response>, requests: seq<ProviderRequest>)

  /** The entity `createRequest` builds, as its save leaves it: the next id, and `@PrePersist` stamps both times. */
  function NewRequest(rs: seq<ProviderRequest>, p: ProviderInfo, dto: CreateRequest, now: int): ProviderRequest
  {
    ProviderRequest(|rs| + 1, dto.userId, dto.userEmail, dto.providerId, p.code, dto.requestMessage,
      Pending, None, None, Some(dto.requestedRole.GetOr(DEFAULT_ROLE)), now, now)
  }

  /**
   * `createRequest`.  The request is saved and then mapped; a mapping that
   * throws rolls the `@Transactional` method back, so nothing is appended.
   */
  function CreateStep(rs: seq<ProviderRequest>, providers: map<int, ProviderInfo>, dto: CreateRequest, now: int,
                      c: Conversion): Outcome
  {
    if dto.providerId !in providers then Outcome(Err(Runtime(PROVIDER_NOT_FOUND)), rs)
    else if HasPending(rs, dto.userId, dto.providerId) then Outcome(Err(Runtime(ALREADY_EXISTS)), rs)
    else
      var p := providers[dto.providerId];
      var req := NewRequest(rs, p, dto, now);
      match MapToDto(c, req, p.name)
      case Err(e) => Outcome(Err(e), rs)
      case Ok(d) => Outcome(Ok(d), rs + [req])
  }

  /** The entity `approveRequest` changes in memory: APPROVED, the approver, the notes, and a given role. */
  function ApprovedEntity(r: ProviderRequest, approver: int, dto: ApprovalData): ProviderRequest
  {
    var role := if dto.assignedRole.Some? then dto.assignedRole else r.requestedRole;
    r.(status := Approved, approvedBy := Some(approver), approvalNotes := dto.approvalNotes, requestedRole := role)
  }

  /**
   * `approveRequest`: only a pending request can be approved.  The reply is
   * mapped before the transaction flushes, so it shows the old update time,
   * while the row `@PreUpdate` writes at the flush carries `now`.  A mapping
   * that throws rolls everything back.
   */
  function ApproveStep(rs: seq<ProviderRequest>, providers: map<int, ProviderInfo>, id: int, approver: int,
                       dto: ApprovalData, now: int, c: Conversion): Outcome
    requires WellNumbered(rs)
  {
    match FindRequest(rs, id)
    case None => Outcome(Err(Runtime(REQUEST_NOT_FOUND)), rs)
    case Some(r) =>
      if r.status != Pending then Outcome(Err(Runtime(ALREADY_PROCESSED)), rs)
      else
        var updated := ApprovedEntity(r, approver, dto);
        match MapToDto(c, updated, NameOf(providers, r.providerId))
        case Err(e) => Outcome(Err(e), rs)
        case Ok(d) => Outcome(Ok(d), rs[id - 1 := updated.(updatedAt := now)])
  }

  /** `rejectRequest`: any existing request, whatever its status, becomes REJECTED; no reply is mapped. */
  function RejectStep(rs: seq<ProviderRequest>, id: int, approver: int, notes: Option<string>, now: int): Result<seq<ProviderRequest>>
    requires WellNumbered(rs)
  {
    match FindRequest(rs, id)
    case None => Err(Runtime(REQUEST_NOT_FOUND))
    case Some(r) => Ok(rs[id - 1 := r.(status := Rejected, approvedBy := Some(approver), approvalNotes := notes, updatedAt := now)])
  }

  /** The pending requests the predicate selects, in table order: the repository query. */
  function PendingSelected(rs: seq<ProviderRequest>, select: ProviderRequest -> bool): seq<ProviderRequest>
  {
    if rs == [] then []
    else (if rs[0].status == Pending && select(rs[0]) then [rs[0]] else []) + PendingSelected(rs[1..], select)
  }

  /** The stream's `map(mapToDto).toList()`: in order, the first exception ending it. */
  function MapAll(c: Conversion, xs: seq<ProviderRequest>, providers: map<int, ProviderInfo>): Result<seq<Response>>
  {
    if xs == [] then Ok([])
    else
      match MapToDto(c, xs[0], NameOf(providers, xs[0].providerId))
      case Err(e) => Err(e)
      case Ok(d) =>
        match MapAll(c, xs[1..], providers)
        case Err(e) => Err(e)
        case Ok(ds) => Ok([d] + ds)
  }

  /** `getRequestsForProvider`. */
  function RequestsForProvider(rs: seq<ProviderRequest>, providers: map<int, ProviderInfo>, pid: int, c: Conversion): Result<seq<Response>>
  {
    MapAll(c, PendingSelected(rs, (r: ProviderRequest) => r.providerId == pid), providers)
  }

  /** `getUserRequests`. */
  function UserRequests(rs: seq<ProviderRequest>, providers: map<int, ProviderInfo>, userId: int, c: Conversion): Result<seq<Response>>
  {
    MapAll(c, PendingSelected(rs, (r: ProviderRequest) => r.userId == userId), providers)
  }

  /** At most one pending request per user and provider. */
  predicate OnePending(rs: seq<ProviderRequest>)
  {
    forall i, j :: 0 <= i < j < |rs| && rs[i].status == Pending && rs[j].status == Pending ==>
      !(rs[i].userId == rs[j].userId && rs[i].providerId == rs[j].providerId)
  }

  // ------------------------------------------------------------ properties

  /** Creating fails, changing nothing, for an unknown provider and for a second pending request. */
  lemma CreateRefusals(rs: seq<ProviderRequest>, providers: map<int, ProviderInfo>, dto: CreateRequest, now: int, c: Conversion)
    ensures dto.providerId !in providers ==> CreateStep(rs, providers, dto, now, c) == Outcome(Err(Runtime(PROVIDER_NOT_FOUND)), rs)
    ensures dto.providerId in providers && HasPending(rs, dto.userId, dto.providerId) ==>
      CreateStep(rs, providers, dto, now, c) == Outcome(Err(Runtime(ALREADY_EXISTS)), rs)
    ensures CreateStep(rs, providers, dto, now, c).result.Err? ==> CreateStep(rs, providers, dto, now, c).requests == rs
  {
  }

  /**
   * As written, no create ever commits: a request that passes both checks is
   * saved, its mapping throws `DateTimeException`, and the table is rolled back.
   */
  lemma CreateFailsAsWritten(rs: seq<ProviderRequest>, providers: map<int, ProviderInfo>, dto: CreateRequest, now: int)
    ensures CreateStep(rs, providers, dto, now, AsWritten).requests == rs
    ensures CreateStep(rs, providers, dto, now, AsWritten).result.Err?
    ensures dto.providerId in providers && !HasPending(rs, dto.userId, dto.providerId) ==>
      CreateStep(rs, providers, dto, now, AsWritten).result == Err(DateTime(NO_LOCAL_DATE_TIME))
  {
    if dto.providerId in providers && !HasPending(rs, dto.userId, dto.providerId) {
      MapToDtoRules(AsWritten, NewRequest(rs, providers[dto.providerId], dto, now), providers[dto.providerId].name);
    }
  }

  /**
   * With the conversion through a zone, a create that passes both checks
   * appends the request PENDING under the next id, with the provider's code,
   * "USER" as default role and both times `now`, and replies with it.
   */
  lemma CreateAppends(rs: seq<ProviderRequest>, providers: map<int, ProviderInfo>, dto: CreateRequest, now: int, offset: int)
    requires WellNumbered(rs)
    requires dto.providerId in providers && !HasPending(rs, dto.userId, dto.providerId)
    ensures var o := CreateStep(rs, providers, dto, now, AtOffset(offset));
      |o.requests| == |rs| + 1 && o.requests[..|rs|] == rs && WellNumbered(o.requests) &&
      var r := o.requests[|rs|];
      r.status == Pending && r.userId == dto.userId && r.providerId == dto.providerId &&
      r.userEmail == dto.userEmail && r.requestMessage == dto.requestMessage &&
      r.providerCode == providers[dto.providerId].code &&
      r.requestedRole == Some(dto.requestedRole.GetOr(DEFAULT_ROLE)) &&
      r.approvedBy.None? && r.approvalNotes.None? && r.createdAt == now && r.updatedAt == now &&
      o.result.Ok? && Describes(o.result.value, r, providers[dto.providerId].name) &&
      o.result.value.createdAt == LocalDateTime(now + offset) &&
      HasPending(o.requests, dto.userId, dto.providerId)
  {
    var p := providers[dto.providerId];
    MapToDtoRules(AtOffset(offset), NewRequest(rs, p, dto, now), p.name);
    var o := CreateStep(rs, providers, dto, now, AtOffset(offset));
    assert o.requests[..|rs|] == rs;
    assert o.requests[|rs|].userId == dto.userId;
  }

  lemma CreatePreservesOnePending(rs: seq<ProviderRequest>, providers: map<int, ProviderInfo>, dto: CreateRequest, now: int,
                                  c: Conversion)
    requires OnePending(rs)
    ensures OnePending(CreateStep(rs, providers, dto, now, c).requests)
  {
    var after := CreateStep(rs, providers, dto, now, c).requests;
    if after != rs {
      forall i, j | 0 <= i < j < |after| && after[i].status == Pending && after[j].status == Pending
        ensures !(after[i].userId == after[j].userId && after[i].providerId == after[j].providerId)
      {
        assert after[i] == rs[i];
        if j < |rs| {
          assert after[j] == rs[j];
        }
      }
    }
  }

  /**
   * Approval fails, changing nothing, for an unknown id and for a request
   * that is not pending; as written it fails, changing nothing, for every
   * other request too, once its mapping throws.
   */
  lemma ApproveFailsAsWritten(rs: seq<ProviderRequest>, providers: map<int, ProviderInfo>, id: int, approver: int,
                              dto: ApprovalData, now: int)
    requires WellNumbered(rs)
    ensures var o := ApproveStep(rs, providers, id, approver, dto, now, AsWritten);
      o.requests == rs &&
      (!(1 <= id <= |rs|) ==> o.result == Err(Runtime(REQUEST_NOT_FOUND))) &&
      (1 <= id <= |rs| && rs[id - 1].status != Pending ==> o.result == Err(Runtime(ALREADY_PROCESSED))) &&
      (1 <= id <= |rs| && rs[id - 1].status == Pending ==> o.result == Err(DateTime(NO_LOCAL_DATE_TIME)))
  {
    if 1 <= id <= |rs| && rs[id - 1].status == Pending {
      MapToDtoRules(AsWritten, ApprovedEntity(rs[id - 1], approver, dto), NameOf(providers, rs[id - 1].providerId));
    }
  }

  /**
   * With the conversion through a zone, approval fails, changing nothing, for
   * an unknown id and for a request that is not pending; otherwise only that
   * request changes: APPROVED, the approver and notes recorded, the role
   * replaced only by a given one, the update time `now`.
   */
  lemma ApproveEffect(rs: seq<ProviderRequest>, providers: map<int, ProviderInfo>, id: int, approver: int,
                      dto: ApprovalData, now: int, offset: int)
    requires WellNumbered(rs)
    ensures var o := ApproveStep(rs, providers, id, approver, dto, now, AtOffset(offset));
      (!(1 <= id <= |rs|) ==> o == Outcome(Err(Runtime(REQUEST_NOT_FOUND)), rs)) &&
      (1 <= id <= |rs| && rs[id - 1].status != Pending ==> o == Outcome(Err(Runtime(ALREADY_PROCESSED)), rs)) &&
      (o.result.Ok? <==> 1 <= id <= |rs| && rs[id - 1].status == Pending)
    ensures var o := ApproveStep(rs, providers, id, approver, dto, now, AtOffset(offset));
      o.result.Ok? ==>
        |o.requests| == |rs| && WellNumbered(o.requests) &&
        (forall i :: 0 <= i < |rs| && i != id - 1 ==> o.requests[i] == rs[i]) &&
        var r := o.requests[id - 1];
        r.status == Approved && r.approvedBy == Some(approver) && r.approvalNotes == dto.approvalNotes &&
        r.requestedRole == (if dto.assignedRole.Some? then dto.assignedRole else rs[id - 1].requestedRole) &&
        r.userId == rs[id - 1].userId && r.providerId == rs[id - 1].providerId && r.userEmail == rs[id - 1].userEmail &&
        r.createdAt == rs[id - 1].createdAt && r.updatedAt == now &&
        Describes(o.result.value, r, NameOf(providers, r.providerId)) &&
        o.result.value.updatedAt == LocalDateTime(rs[id - 1].updatedAt + offset)
  {
    if 1 <= id <= |rs| && rs[id - 1].status == Pending {
      MapToDtoRules(AtOffset(offset), ApprovedEntity(rs[id - 1], approver, dto), NameOf(providers, rs[id - 1].providerId));
    }
  }

  /** With the conversion through a zone, a request is approved at most once. */
  lemma ApproveOnce(rs: seq<ProviderRequest>, providers: map<int, ProviderInfo>, id: int, a1: int, a2: int,
                    d1: ApprovalData, d2: ApprovalData, t1: int, t2: int, offset: int)
    requires WellNumbered(rs)
    requires ApproveStep(rs, providers, id, a1, d1, t1, AtOffset(offset)).result.Ok?
    ensures WellNumbered(ApproveStep(rs, providers, id, a1, d1, t1, AtOffset(offset)).requests)
    ensures var after := ApproveStep(rs, providers, id, a1, d1, t1, AtOffset(offset)).requests;
      ApproveStep(after, providers, id, a2, d2, t2, AtOffset(offset)) == Outcome(Err(Runtime(ALREADY_PROCESSED)), after)
  {
    ApproveEffect(rs, providers, id, a1, d1, t1, offset);
  }

  /** Rejection has no status guard: with the conversion through a zone, an approved request can be turned into a rejected one. */
  lemma RejectOverridesApproval(rs: seq<ProviderRequest>, providers: map<int, ProviderInfo>, id: int, a1: int, a2: int,
                                d: ApprovalData, notes: Option<string>, t1: int, t2: int, offset: int)
    requires WellNumbered(rs)
    requires ApproveStep(rs, providers, id, a1, d, t1, AtOffset(offset)).result.Ok?
    ensures WellNumbered(ApproveStep(rs, providers, id, a1, d, t1, AtOffset(offset)).requests)
    ensures var after := RejectStep(ApproveStep(rs, providers, id, a1, d, t1, AtOffset(offset)).requests, id, a2, notes, t2);
      after.Ok? && after.value[id - 1].status == Rejected && after.value[id - 1].approvedBy == Some(a2)
  {
    ApproveEffect(rs, providers, id, a1, d, t1, offset);
  }

  /** Rejection fails only for an unknown id, and otherwise changes only that request. */
  lemma RejectEffect(rs: seq<ProviderRequest>, id: int, approver: int, notes: Option<string>, now: int)
    requires WellNumbered(rs)
    ensures RejectStep(rs, id, approver, notes, now).Err? <==> !(1 <= id <= |rs|)
    ensures var r := RejectStep(rs, id, approver, notes, now);
      r.Ok? ==> (|r.value| == |rs| && WellNumbered(r.value) &&
                 (forall i :: 0 <= i < |rs| && i != id - 1 ==> r.value[i] == rs[i]) &&
                 r.value[id - 1] == rs[id - 1].(status := Rejected, approvedBy := Some(approver), approvalNotes := notes,
                                                updatedAt := now))
  {
  }

  /** No request the service itself writes is APPROVED. */
  predicate NoneApproved(rs: seq<ProviderRequest>)
  {
    forall i :: 0 <= i < |rs| ==> rs[i].status != Approved
  }

  /**
   * As written, the service never leaves a request APPROVED: creation and
   * approval roll back, and rejection only writes REJECTED.
   */
  lemma AsWrittenNeverApproves(rs: seq<ProviderRequest>, providers: map<int, ProviderInfo>, dto: CreateRequest, id: int,
                               approver: int, d: ApprovalData, notes: Option<string>, now: int)
    requires WellNumbered(rs) && NoneApproved(rs)
    ensures NoneApproved(CreateStep(rs, providers, dto, now, AsWritten).requests)
    ensures NoneApproved(ApproveStep(rs, providers, id, approver, d, now, AsWritten).requests)
    ensures RejectStep(rs, id, approver, notes, now).Ok? ==> NoneApproved(RejectStep(rs, id, approver, notes, now).value)
  {
    CreateFailsAsWritten(rs, providers, dto, now);
    ApproveFailsAsWritten(rs, providers, id, approver, d, now);
    var r := RejectStep(rs, id, approver, notes, now);
    if r.Ok? {
      forall i | 0 <= i < |r.value| ensures r.value[i].status != Approved {
        if i != id - 1 {
          assert r.value[i] == rs[i];
        }
      }
    }
  }

  lemma ProcessingPreservesOnePending(rs: seq<ProviderRequest>, providers: map<int, ProviderInfo>, id: int, approver: int,
                                      dto: ApprovalData, notes: Option<string>, now: int, c: Conversion)
    requires WellNumbered(rs) && OnePending(rs)
    ensures OnePending(ApproveStep(rs, providers, id, approver, dto, now, c).requests)
    ensures RejectStep(rs, id, approver, notes, now).Ok? ==> OnePending(RejectStep(rs, id, approver, notes, now).value)
  {
    var a := ApproveStep(rs, providers, id, approver, dto, now, c).requests;
    forall i, j | 0 <= i < j < |a| && a[i].status == Pending && a[j].status == Pending
      ensures !(a[i].userId == a[j].userId && a[i].providerId == a[j].providerId)
    {
      assert a[i] == rs[i] && a[j] == rs[j];
    }
    var r := RejectStep(rs, id, approver, notes, now);
    if r.Ok? {
      var b := r.value;
      forall i, j | 0 <= i < j < |b| && b[i].status == Pending && b[j].status == Pending
        ensures !(b[i].userId == b[j].userId && b[i].providerId == b[j].providerId)
      {
        assert b[i] == rs[i] && b[j] == rs[j];
      }
    }
  }

  /** The query holds exactly the pending requests the predicate selects. */
  lemma {:induction false} PendingSelectedMembers(rs: seq<ProviderRequest>, select: ProviderRequest -> bool)
    ensures forall x :: x in PendingSelected(rs, select) <==>
      exists i :: 0 <= i < |rs| && rs[i].status == Pending && select(rs[i]) && x == rs[i]
  {
    if rs != [] {
      PendingSelectedMembers(rs[1..], select);
      forall x ensures x in PendingSelected(rs, select) <==>
        exists i :: 0 <= i < |rs| && rs[i].status == Pending && select(rs[i]) && x == rs[i]
      {
        if x in PendingSelected(rs[1..], select) {
          var i :| 0 <= i < |rs[1..]| && rs[1..][i].status == Pending && select(rs[1..][i]) && x == rs[1..][i];
          assert rs[i + 1] == rs[1..][i];
        }
        if exists i :: 0 <= i < |rs| && rs[i].status == Pending && select(rs[i]) && x == rs[i] {
          var i :| 0 <= i < |rs| && rs[i].status == Pending && select(rs[i]) && x == rs[i];
          if i > 0 {
            assert rs[1..][i - 1] == rs[i];
          }
        }
      }
    }
  }

  /**
   * As written the mapped stream succeeds only when it is empty; through a
   * zone it maps every element, in order.
   */
  lemma {:induction false} MapAllRules(c: Conversion, xs: seq<ProviderRequest>, providers: map<int, ProviderInfo>)
    ensures c.AsWritten? ==> (MapAll(c, xs, providers).Ok? <==> xs == [])
    ensures c.AsWritten? && xs != [] ==> MapAll(c, xs, providers) == Err(DateTime(NO_LOCAL_DATE_TIME))
    ensures c.AtOffset? ==> MapAll(c, xs, providers).Ok? && |MapAll(c, xs, providers).value| == |xs|
    ensures c.AtOffset? ==> forall i :: 0 <= i < |xs| ==>
      MapAll(c, xs, providers).value[i] == MapToDto(c, xs[i], NameOf(providers, xs[i].providerId)).value
  {
    if xs != [] {
      MapToDtoRules(c, xs[0], NameOf(providers, xs[0].providerId));
      MapAllRules(c, xs[1..], providers);
      if c.AtOffset? {
        var ds := MapAll(c, xs, providers).value;
        forall i | 0 <= i < |xs|
          ensures ds[i] == MapToDto(c, xs[i], NameOf(providers, xs[i].providerId)).value
        {
          if i > 0 {
            assert xs[1..][i - 1] == xs[i];
          }
        }
      }
    }
  }

  /**
   * As written, each listing answers the empty list when nothing is pending
   * for the provider (or the user) and throws `DateTimeException` otherwise.
   */
  lemma ListingsFailAsWritten(rs: seq<ProviderRequest>, providers: map<int, ProviderInfo>, pid: int, userId: int)
    ensures RequestsForProvider(rs, providers, pid, AsWritten) ==
      if exists i :: 0 <= i < |rs| && rs[i].status == Pending && rs[i].providerId == pid
      then Err(DateTime(NO_LOCAL_DATE_TIME)) else Ok([])
    ensures UserRequests(rs, providers, userId, AsWritten) ==
      if exists i :: 0 <= i < |rs| && rs[i].status == Pending && rs[i].userId == userId
      then Err(DateTime(NO_LOCAL_DATE_TIME)) else Ok([])
  {
    var byProvider := (r: ProviderRequest) => r.providerId == pid;
    var byUser := (r: ProviderRequest) => r.userId == userId;
    PendingSelectedMembers(rs, byProvider);
    PendingSelectedMembers(rs, byUser);
    MapAllRules(AsWritten, PendingSelected(rs, byProvider), providers);
    MapAllRules(AsWritten, PendingSelected(rs, byUser), providers);
    if PendingSelected(rs, byProvider) != [] {
      assert PendingSelected(rs, byProvider)[0] in PendingSelected(rs, byProvider);
    }
    if PendingSelected(rs, byUser) != [] {
      assert PendingSelected(rs, byUser)[0] in PendingSelected(rs, byUser);
    }
    if exists i :: 0 <= i < |rs| && rs[i].status == Pending && rs[i].providerId == pid {
      var i :| 0 <= i < |rs| && rs[i].status == Pending && rs[i].providerId == pid;
      assert rs[i] in PendingSelected(rs, byProvider);
    }
    if exists i :: 0 <= i < |rs| && rs[i].status == Pending && rs[i].userId == userId {
      var i :| 0 <= i < |rs| && rs[i].status == Pending && rs[i].userId == userId;
      assert rs[i] in PendingSelected(rs, byUser);
    }
  }

  /**
   * With the conversion through a zone, a listing holds exactly the replies
   * for the pending requests the predicate selects, named after their provider.
   */
  lemma PendingListed(rs: seq<ProviderRequest>, providers: map<int, ProviderInfo>, select: ProviderRequest -> bool, offset: int)
    ensures MapAll(AtOffset(offset), PendingSelected(rs, select), providers).Ok?
    ensures forall x :: x in MapAll(AtOffset(offset), PendingSelected(rs, select), providers).value <==>
      exists i :: 0 <= i < |rs| && rs[i].status == Pending && select(rs[i]) &&
        x == MapToDto(AtOffset(offset), rs[i], NameOf(providers, rs[i].providerId)).value
  {
    var xs := PendingSelected(rs, select);
    var c := AtOffset(offset);
    PendingSelectedMembers(rs, select);
    MapAllRules(c, xs, providers);
    var ds := MapAll(c, xs, providers).value;
    forall x ensures x in ds <==>
      exists i :: 0 <= i < |rs| && rs[i].status == Pending && select(rs[i]) &&
        x == MapToDto(c, rs[i], NameOf(providers, rs[i].providerId)).value
    {
      if x in ds {
        var k :| 0 <= k < |ds| && ds[k] == x;
        assert xs[k] in xs;
      }
      if exists i :: 0 <= i < |rs| && rs[i].status == Pending && select(rs[i]) &&
          x == MapToDto(c, rs[i], NameOf(providers, rs[i].providerId)).value {
        var i :| 0 <= i < |rs| && rs[i].status == Pending && select(rs[i]) &&
          x == MapToDto(c, rs[i], NameOf(providers, rs[i].providerId)).value;
        assert rs[i] in xs;
        var k :| 0 <= k < |xs| && xs[k] == rs[i];
        assert ds[k] == x;
      }
    }
  }

  /** With the conversion through a zone, every listed request is pending and belongs to the provider (or the user) asked about. */
  lemma ListingsArePending(rs: seq<ProviderRequest>, providers: map<int, ProviderInfo>, pid: int, userId: int, offset: int)
    ensures RequestsForProvider(rs, providers, pid, AtOffset(offset)).Ok?
    ensures UserRequests(rs, providers, userId, AtOffset(offset)).Ok?
    ensures forall x :: x in RequestsForProvider(rs, providers, pid, AtOffset(offset)).value ==>
      x.status == Pending && x.providerId == pid
    ensures forall x :: x in UserRequests(rs, providers, userId, AtOffset(offset)).value ==>
      x.status == Pending && x.userId == userId
  {
    var byProvider := (r: ProviderRequest) => r.providerId == pid;
    var byUser := (r: ProviderRequest) => r.userId == userId;
    PendingListed(rs, providers, byProvider, offset);
    PendingListed(rs, providers, byUser, offset);
    forall i | 0 <= i < |rs| {
      MapToDtoRules(AtOffset(offset), rs[i], NameOf(providers, rs[i].providerId));
    }
  }

  // ------------------------------------------------------------ the service

  /** The service as written: replies are mapped with `LocalDateTime.from`. */
  class ProviderRequestService {
    var requests: seq<ProviderRequest>
    var providers: map<int, ProviderInfo>

    predicate Valid()
      reads this
    {
      WellNumbered(requests)
    }

    /** The service over an existing request table. */
    constructor(requests: seq<ProviderRequest>, providers: map<int, ProviderInfo>)
      requires WellNumbered(requests)
      ensures Valid() && this.requests == requests && this.providers == providers
    {
      this.requests := requests;
      this.providers := providers;
    }

    /**
     * The request is saved; then the reply is mapped, and when that throws
     * the transaction restores the table it started from.
     */
    method Create(dto: CreateRequest, now: int) returns (r: Result<Response>)
      requires Valid()
      modifies this
      ensures Valid() && providers == old(providers)
      ensures Outcome(r, requests) == CreateStep(old(requests), providers, dto, now, AsWritten)
      ensures requests == old(requests)
    {
      CreateFailsAsWritten(requests, providers, dto, now);
      if dto.providerId !in providers {
        return Err(Runtime(PROVIDER_NOT_FOUND));
      }
      if HasPending(requests, dto.userId, dto.providerId) {
        return Err(Runtime(ALREADY_EXISTS));
      }
      var committed := requests;
      var p := providers[dto.providerId];
      var req := NewRequest(requests, p, dto, now);
      requests := requests + [req];
      r := MapToDto(AsWritten, req, p.name);
      if r.Err? {
        requests := committed;
      }
    }

    method Approve(id: int, approver: int, dto: ApprovalData, now: int) returns (r: Result<Response>)
      requires Valid()
      modifies this
      ensures Valid() && providers == old(providers)
      ensures Outcome(r, requests) == ApproveStep(old(requests), providers, id, approver, dto, now, AsWritten)
      ensures requests == old(requests)
    {
      ApproveFailsAsWritten(requests, providers, id, approver, dto, now);
      if !(1 <= id <= |requests|) {
        return Err(Runtime(REQUEST_NOT_FOUND));
      }
      var req := requests[id - 1];
      if req.status != Pending {
        return Err(Runtime(ALREADY_PROCESSED));
      }
      var committed := requests;
      req := req.(status := Approved, approvedBy := Some(approver), approvalNotes := dto.approvalNotes);
      if dto.assignedRole.Some? {
        req := req.(requestedRole := dto.assignedRole);
      }
      requests := requests[id - 1 := req.(updatedAt := now)];
      r := MapToDto(AsWritten, req, NameOf(providers, req.providerId));
      if r.Err? {
        requests := committed;
      }
    }

    method Reject(id: int, approver: int, notes: Option<string>, now: int) returns (r: Result<()>)
      requires Valid()
      modifies this
      ensures Valid() && providers == old(providers)
      ensures var expected := RejectStep(old(requests), id, approver, notes, now);
        (r.Ok? <==> expected.Ok?) && (r.Err? ==> r == Err(Runtime(REQUEST_NOT_FOUND)) && requests == old(requests)) &&
        (r.Ok? ==> requests == expected.value)
      ensures OnePending(old(requests)) ==> OnePending(requests)
    {
      if OnePending(requests) {
        ProcessingPreservesOnePending(requests, providers, id, approver, ApprovalData(None, None), notes, now, AsWritten);
      }
      RejectEffect(requests, id, approver, notes, now);
      if !(1 <= id <= |requests|) {
        return Err(Runtime(REQUEST_NOT_FOUND));
      }
      var req := requests[id - 1];
      requests := requests[id - 1 := req.(status := Rejected, approvedBy := Some(approver), approvalNotes := notes, updatedAt := now)];
      r := Ok(());
    }
  }
}
