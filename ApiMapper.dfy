// The API registry's entity and its mapper: a registration request becomes a
// new entity with defaults, and an update request is written onto an existing
// entity field by field, skipping the fields the request leaves null.
module ApiMapper {
  import opened Wrappers
  import opened Strings

  const DEFAULT_VERSION: string := "1.0.0"
  const DRAFT: string := "DRAFT"

  /** The audit columns the entity inherits; the mapper never touches them. */
  datatype Audit = Audit(createdAt: Option<int>, updatedAt: Option<int>,
                         createdBy: Option<string>, updatedBy: Option<string>)

  /** The persisted state of one API entry; every Java reference may be null. */
  datatype ApiRecord = ApiRecord(
    id: int,
    name: Option<string>,
    owner: Option<string>,
    description: Option<string>,
    detailedDescription: Option<string>,
    basePath: Option<string>,
    version: Option<string>,
    status: Option<string>,
    openApiSpec: Option<string>,
    tags: Option<seq<string>>,
    domains: Option<seq<string>>,
    audit: Audit)

  /** The registration / update request body. */
  datatype ApiRequest = ApiRequest(
    name: Option<string>,
    owner: Option<string>,
    description: Option<string>,
    detailedDescription: Option<string>,
    basePath: Option<string>,
    version: Option<string>,
    status: Option<string>,
    openApiSpec: Option<string>,
    environment: Option<string>,
    tags: Option<seq<string>>,
    domains: Option<seq<string>>)

  predicate NonBlank(s: Option<string>)
  {
    s.Some? && !JavaIsBlank(s.value)
  }

  /** The entity built for a registration request. */
  function NewRecord(req: ApiRequest): (r: ApiRecord)
  {
    ApiRecord(0, req.name, req.owner, req.description, req.detailedDescription,
              req.basePath,
              if NonBlank(req.version) then req.version else Some(DEFAULT_VERSION),
              if req.status.Some? then req.status else Some(DRAFT),
              req.openApiSpec,
              Some(req.tags.GetOr([])), Some(req.domains.GetOr([])),
              Audit(None, None, None, None))
  }

  /** `given` when the request carries it, else the `current` value. */
  function Over<T>(current: Option<T>, given: Option<T>): (r: Option<T>)
  {
    if given.Some? then given else current
  }

  /** The entity after `applyUpdate(existing, req, newVersion)`. */
  function Applied(e: ApiRecord, req: ApiRequest, newVersion: Option<string>): (r: ApiRecord)
  {
    e.(name := Over(e.name, req.name),
       owner := Over(e.owner, req.owner),
       description := Over(e.description, req.description),
       detailedDescription := Over(e.detailedDescription, req.detailedDescription),
       basePath := Over(e.basePath, req.basePath),
       openApiSpec := Over(e.openApiSpec, req.openApiSpec),
       tags := Over(e.tags, req.tags),
       domains := Over(e.domains, req.domains),
       status := Over(e.status, req.status),
       version := if NonBlank(newVersion) then newVersion else e.version)
  }

  /** A new entity has id 0 (the store assigns the real one), a non-blank
    * version that is the request's when that is non-blank, a status that
    * defaults to DRAFT, and tag and domain lists that are never null. */
  lemma NewEntityDefaults(req: ApiRequest)
    ensures NewRecord(req).id == 0
    ensures NonBlank(NewRecord(req).version)
    ensures NonBlank(req.version) <==> NewRecord(req).version == req.version
    ensures !NonBlank(req.version) ==> NewRecord(req).version == Some(DEFAULT_VERSION)
    ensures NewRecord(req).status == (if req.status.None? then Some(DRAFT) else req.status)
    ensures NewRecord(req).tags == Some(if req.tags.None? then [] else req.tags.value)
    ensures NewRecord(req).domains == Some(if req.domains.None? then [] else req.domains.value)
    ensures NewRecord(req).name == req.name && NewRecord(req).openApiSpec == req.openApiSpec
  {
    assert !JavaIsBlank(DEFAULT_VERSION) by { assert !IsJavaWhitespace(DEFAULT_VERSION[0]); }
  }

  /** A field the request leaves null keeps its value; a non-null one,
    * an empty tag or domain list included, replaces it. The id and the
    * audit columns are never touched, and `request.version` is ignored:
    * only a non-blank `newVersion` changes the version. */
  lemma AppliedRules(e: ApiRecord, req: ApiRequest, newVersion: Option<string>)
    ensures Applied(e, req, newVersion).id == e.id
    ensures Applied(e, req, newVersion).audit == e.audit
    ensures req.name.Some? ==> Applied(e, req, newVersion).name == req.name
    ensures req.name.None? ==> Applied(e, req, newVersion).name == e.name
    ensures req.owner.None? ==> Applied(e, req, newVersion).owner == e.owner
    ensures req.description.None? ==> Applied(e, req, newVersion).description == e.description
    ensures req.detailedDescription.None?
            ==> Applied(e, req, newVersion).detailedDescription == e.detailedDescription
    ensures req.basePath.None? ==> Applied(e, req, newVersion).basePath == e.basePath
    ensures req.openApiSpec.None? ==> Applied(e, req, newVersion).openApiSpec == e.openApiSpec
    ensures req.tags.Some? ==> Applied(e, req, newVersion).tags == req.tags
    ensures req.tags.None? ==> Applied(e, req, newVersion).tags == e.tags
    ensures req.domains.Some? ==> Applied(e, req, newVersion).domains == req.domains
    ensures req.domains.None? ==> Applied(e, req, newVersion).domains == e.domains
    ensures req.status.None? ==> Applied(e, req, newVersion).status == e.status
    ensures Applied(e, req, newVersion).version
            == (if NonBlank(newVersion) then newVersion else e.version)
    ensures Applied(e, req, newVersion) == Applied(e, req.(version := None), newVersion)
  {
  }

  /** Applying the same update twice is the same as applying it once. */
  lemma AppliedIdempotent(e: ApiRecord, req: ApiRequest, newVersion: Option<string>)
    ensures Applied(Applied(e, req, newVersion), req, newVersion) == Applied(e, req, newVersion)
  {
  }

  /** An update carrying nothing changes nothing. */
  lemma EmptyUpdateKeeps(e: ApiRecord)
    ensures Applied(e, ApiRequest(None, None, None, None, None, None, None, None, None, None, None), None) == e
  {
  }

  /** Updating a freshly registered entity with its own registration request
    * and no new version gives it back unchanged. */
  lemma ReapplyRegistration(req: ApiRequest)
    ensures Applied(NewRecord(req), req, None) == NewRecord(req)
  {
  }

  /** The JPA entity: the mapper writes its fields one setter at a time. */
  class Api {
    var id: int
    var name: Option<string>
    var owner: Option<string>
    var description: Option<string>
    var detailedDescription: Option<string>
    var basePath: Option<string>
    var version: Option<string>
    var status: Option<string>
    var openApiSpec: Option<string>
    var tags: Option<seq<string>>
    var domains: Option<seq<string>>
    var audit: Audit

    function Record(): ApiRecord
      reads this
    {
      ApiRecord(id, name, owner, description, detailedDescription, basePath, version,
                status, openApiSpec, tags, domains, audit)
    }

    /** An entity object holding the given state, as the store hands one out. */
    constructor FromRecord(r: ApiRecord)
      ensures Record() == r
    {
      id, name, owner, description := r.id, r.name, r.owner, r.description;
      detailedDescription, basePath, version := r.detailedDescription, r.basePath, r.version;
      status, openApiSpec, tags, domains, audit := r.status, r.openApiSpec, r.tags, r.domains, r.audit;
    }
  }

  /** `ApiMapper.toNewEntity`: a fresh entity for a registration request. */
  method ToNewEntity(req: ApiRequest) returns (a: Api)
    ensures fresh(a) && a.Record() == NewRecord(req)
  {
    a := new Api.FromRecord(NewRecord(req));
  }

  /** `ApiMapper.applyUpdate`: writes the non-null request fields onto
    * `existing` (a null one leaves its field as it is) and returns that
    * same object. */
  method ApplyUpdate(existing: Api, req: ApiRequest, newVersion: Option<string>) returns (r: Api)
    modifies existing
    ensures r == existing
    ensures existing.Record() == Applied(old(existing.Record()), req, newVersion)
  {
    existing.name := Over(existing.name, req.name);
    existing.owner := Over(existing.owner, req.owner);
    existing.description := Over(existing.description, req.description);
    existing.detailedDescription := Over(existing.detailedDescription, req.detailedDescription);
    existing.basePath := Over(existing.basePath, req.basePath);
    existing.openApiSpec := Over(existing.openApiSpec, req.openApiSpec);
    existing.tags := Over(existing.tags, req.tags);
    existing.domains := Over(existing.domains, req.domains);
    existing.status := Over(existing.status, req.status);
    if newVersion.Some? && !JavaIsBlank(newVersion.value) { existing.version := newVersion; }
    r := existing;
  }
}
