// ProviderEnvironments: the per-provider environment table (base URL,
// uptime, rate limit).  Every operation acts for the current provider of
// the security context, which is passed in as `current` (None when the
// context has none).
module ProviderEnvironments {
  import opened Wrappers

  datatype EnvironmentType = Production | Sandbox

  datatype EnvironmentRequest = EnvironmentRequest(
    providerId: Option<int>,
    environmentType: Option<EnvironmentType>,
    baseUrl: Option<string>,
    uptimeStatus: Option<string>,
    rateLimit: Option<int>,
    remarks: Option<string>)

  datatype Environment = Environment(
    id: int,
    providerId: Option<int>,
    environmentType: Option<EnvironmentType>,
    baseUrl: Option<string>,
    uptimeStatus: Option<string>,
    rateLimit: Option<int>,
    remarks: Option<string>)

  const PROVIDER_MISMATCH: string := "Cannot update environment: providerId mismatch"

  /** The table, keyed by identity; nextId is the next identity the database hands out. */
  datatype Store = Store(envs: map<int, Environment>, nextId: int)

  predicate WellKeyed(s: Store)
  {
    forall id :: id in s.envs ==> s.envs[id].id == id && id < s.nextId
  }

  /** The entry belongs to the current provider; a current provider of None never matches. */
  predicate OwnedBy(e: Environment, current: Option<int>)
  {
    current.Some? && e.providerId == current
  }

  datatype Outcome<T> = Outcome(result: Result<T>, store: Store)

  /** A create stores the request under the current provider, whatever providerId it carried. */
  function CreateStep(s: Store, current: Option<int>, req: EnvironmentRequest): (Environment, Store)
  {
    var e := Environment(s.nextId, current, req.environmentType, req.baseUrl, req.uptimeStatus, req.rateLimit, req.remarks);
    (e, Store(s.envs[s.nextId := e], s.nextId + 1))
  }

  /** The environments of the current provider; the argument of the call is not used. */
  function FindByProviderId(s: Store, current: Option<int>, providerId: Option<int>): set<Environment>
  {
    set id | id in s.envs && s.envs[id].providerId == current :: s.envs[id]
  }

  /**
   * The ownership test of update and delete: a stored provider id of null
   * makes the comparison itself throw; otherwise a different current
   * provider (or none) is a mismatch.
   */
  function CheckOwner(e: Environment, current: Option<int>): Option<Failure>
  {
    if e.providerId.None? then Some(NullReference("providerId"))
    else if e.providerId != current then Some(IllegalState(PROVIDER_MISMATCH))
    else None
  }

  /** The entry with the five editable fields taken from the request. */
  function Edited(e: Environment, req: EnvironmentRequest): Environment
  {
    e.(environmentType := req.environmentType, baseUrl := req.baseUrl, uptimeStatus := req.uptimeStatus,
       rateLimit := req.rateLimit, remarks := req.remarks)
  }

  function UpdateStep(s: Store, current: Option<int>, id: int, req: EnvironmentRequest): Outcome<Option<Environment>>
  {
    if id !in s.envs then Outcome(Ok(None), s)
    else
      match CheckOwner(s.envs[id], current)
      case Some(f) => Outcome(Err(f), s)
      case None => Outcome(Ok(Some(Edited(s.envs[id], req))), s.(envs := s.envs[id := Edited(s.envs[id], req)]))
  }

  function DeleteStep(s: Store, current: Option<int>, id: int): Outcome<bool>
  {
    if id !in s.envs then Outcome(Ok(false), s)
    else
      match CheckOwner(s.envs[id], current)
      case Some(f) => Outcome(Err(f), s)
      case None => Outcome(Ok(true), s.(envs := s.envs - {id}))
  }

  // ------------------------------------------------------------ properties

  /** A created entry gets a fresh identity and belongs to the current provider; nothing else changes. */
  lemma CreateOwned(s: Store, current: Option<int>, req: EnvironmentRequest)
    requires WellKeyed(s)
    ensures var (e, s') := CreateStep(s, current, req);
      e.id !in s.envs && e.providerId == current && s'.envs == s.envs[e.id := e] && WellKeyed(s') &&
      e.baseUrl == req.baseUrl && e.environmentType == req.environmentType && e.uptimeStatus == req.uptimeStatus &&
      e.rateLimit == req.rateLimit && e.remarks == req.remarks
  {
  }

  /** The request's providerId never decides the owner. */
  lemma CreateIgnoresRequestProvider(s: Store, current: Option<int>, req: EnvironmentRequest, other: Option<int>)
    ensures CreateStep(s, current, req) == CreateStep(s, current, req.(providerId := other))
  {
  }

  /** The listing holds exactly the current provider's entries, whatever id is asked for. */
  lemma FindByProviderIdMembers(s: Store, current: Option<int>, providerId: Option<int>, e: Environment)
    ensures e in FindByProviderId(s, current, providerId) <==>
      (exists id :: id in s.envs && s.envs[id] == e) && e.providerId == current
  {
  }

  /** CheckOwner passes exactly for an entry of the current provider. */
  lemma CheckOwnerRule(e: Environment, current: Option<int>)
    ensures CheckOwner(e, current).None? <==> OwnedBy(e, current)
  {
  }

  /**
   * An update of an unknown id answers empty; of another provider's entry
   * it fails; of an own entry it replaces exactly the five editable fields.
   * Only the own entry can change.
   */
  lemma UpdateRules(s: Store, current: Option<int>, id: int, req: EnvironmentRequest)
    ensures var o := UpdateStep(s, current, id, req);
      (id !in s.envs ==> o == Outcome(Ok(None), s)) &&
      (id in s.envs && !OwnedBy(s.envs[id], current) ==> o.result.Err? && o.store == s) &&
      (id in s.envs && s.envs[id].providerId.Some? && !OwnedBy(s.envs[id], current) ==>
         o.result == Err(IllegalState(PROVIDER_MISMATCH))) &&
      (id in s.envs && OwnedBy(s.envs[id], current) ==>
         var e' := o.store.envs[id];
         o.result == Ok(Some(e')) && o.store.envs.Keys == s.envs.Keys && o.store.nextId == s.nextId &&
         e'.id == s.envs[id].id && e'.providerId == s.envs[id].providerId &&
         e'.environmentType == req.environmentType && e'.baseUrl == req.baseUrl &&
         e'.uptimeStatus == req.uptimeStatus && e'.rateLimit == req.rateLimit && e'.remarks == req.remarks &&
         (forall j :: j in s.envs && j != id ==> o.store.envs[j] == s.envs[j]))
  {
  }

  /** A delete answers false for an unknown id, fails for another provider's entry, and removes an own entry. */
  lemma DeleteRules(s: Store, current: Option<int>, id: int)
    ensures var o := DeleteStep(s, current, id);
      (id !in s.envs ==> o == Outcome(Ok(false), s)) &&
      (id in s.envs && !OwnedBy(s.envs[id], current) ==> o.result.Err? && o.store == s) &&
      (id in s.envs && OwnedBy(s.envs[id], current) ==>
         o.result == Ok(true) && o.store.envs.Keys == s.envs.Keys - {id} &&
         (forall j :: j in o.store.envs ==> o.store.envs[j] == s.envs[j]))
  {
  }

  /** No update or delete touches an entry of another provider. */
  lemma ForeignEntriesKept(s: Store, current: Option<int>, id: int, req: EnvironmentRequest, j: int)
    requires j in s.envs && !OwnedBy(s.envs[j], current)
    ensures j in UpdateStep(s, current, id, req).store.envs && UpdateStep(s, current, id, req).store.envs[j] == s.envs[j]
    ensures j in DeleteStep(s, current, id).store.envs && DeleteStep(s, current, id).store.envs[j] == s.envs[j]
  {
  }

  /** Update and delete keep the table well keyed. */
  lemma StepsPreserveWellKeyed(s: Store, current: Option<int>, id: int, req: EnvironmentRequest)
    requires WellKeyed(s)
    ensures WellKeyed(UpdateStep(s, current, id, req).store)
    ensures WellKeyed(DeleteStep(s, current, id).store)
  {
  }

  // ------------------------------------------------------------ the service

  class ProviderEnvironmentService {
    var envs: map<int, Environment>
    var nextId: int

    predicate Valid()
      reads this
    {
      WellKeyed(Store(envs, nextId))
    }

    constructor()
      ensures envs == map[] && nextId == 1 && Valid()
    {
      envs := map[];
      nextId := 1;
    }

    method Create(current: Option<int>, req: EnvironmentRequest) returns (e: Environment)
      modifies this
      ensures (e, Store(envs, nextId)) == CreateStep(old(Store(envs, nextId)), current, req)
      ensures old(Valid()) ==> Valid()
    {
      var owned := req.(providerId := current);
      e := Environment(nextId, owned.providerId, owned.environmentType, owned.baseUrl, owned.uptimeStatus,
                       owned.rateLimit, owned.remarks);
      envs := envs[nextId := e];
      nextId := nextId + 1;
    }

    function FindById(id: int): (r: Option<Environment>)
      reads this
      ensures r.Some? <==> id in envs
      ensures r.Some? ==> r.value == envs[id]
    {
      if id in envs then Some(envs[id]) else None
    }

    method Update(current: Option<int>, id: int, req: EnvironmentRequest) returns (r: Result<Option<Environment>>)
      modifies this
      ensures Outcome(r, Store(envs, nextId)) == UpdateStep(old(Store(envs, nextId)), current, id, req)
      ensures old(Valid()) ==> Valid()
    {
      if id !in envs {
        return Ok(None);
      }
      var existing := envs[id];
      if existing.providerId.None? {
        return Err(NullReference("providerId"));
      }
      if existing.providerId != current {
        return Err(IllegalState(PROVIDER_MISMATCH));
      }
      existing := Edited(existing, req);
      envs := envs[id := existing];
      r := Ok(Some(existing));
    }

    method Delete(current: Option<int>, id: int) returns (r: Result<bool>)
      modifies this
      ensures Outcome(r, Store(envs, nextId)) == DeleteStep(old(Store(envs, nextId)), current, id)
      ensures old(Valid()) ==> Valid()
    {
      if id !in envs {
        return Ok(false);
      }
      var existing := envs[id];
      match CheckOwner(existing, current) {
        case Some(f) => return Err(f);
        case None =>
      }
      envs := envs - {id};
      r := Ok(true);
    }
  }
}
