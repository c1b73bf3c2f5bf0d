// Roles and the authorities granted to them.  The role table is a map from
// identity to role; the authority table is reached through its unique code,
// so it is a map from code to authority.
module Roles {
  import opened Wrappers

  datatype AuthorityMaster = AuthorityMaster(id: int, name: string, code: Option<string>, processArea: Option<string>)

  datatype RoleMaster = RoleMaster(id: int, code: string, roleLabel: string, roleType: Option<string>, authorities: set<AuthorityMaster>)

  /** The fields an update may carry; a null authority set means "keep the current ones". */
  datatype RoleInput = RoleInput(code: string, roleLabel: string, roleType: Option<string>, authorities: Option<set<AuthorityMaster>>)

  const ROLE_NOT_FOUND: string := "Role not found"
  /** The unique constraint on the role table's code column. */
  const CODE_CONSTRAINT: string := "uk_role_master_code"

  datatype Outcome<T> = Outcome(result: Result<T>, roles: map<int, RoleMaster>)

  /** Every role is stored under its own identity. */
  predicate WellKeyed(roles: map<int, RoleMaster>)
  {
    forall id :: id in roles ==> roles[id].id == id
  }

  /** No two roles share a code, as the table's unique constraint demands. */
  predicate UniqueCodes(roles: map<int, RoleMaster>)
  {
    forall i, j :: i in roles && j in roles && roles[i].code == roles[j].code ==> i == j
  }

  /** Some role other than `except` holds `code`. */
  predicate CodeHeld(roles: map<int, RoleMaster>, code: string, except: Option<int>)
  {
    exists j :: j in roles && Some(j) != except && roles[j].code == code
  }

  /** The authority catalogue answers a code with an authority of that code. */
  predicate WellCoded(catalog: map<string, AuthorityMaster>)
  {
    forall c :: c in catalog ==> catalog[c].code == Some(c)
  }

  /** A code list that is neither null nor empty. */
  predicate Given(codes: Option<seq<string>>)
  {
    codes.Some? && |codes.value| > 0
  }

  /** The authorities a code list resolves to; unknown codes give nothing. */
  function Resolve(catalog: map<string, AuthorityMaster>, codes: seq<string>): set<AuthorityMaster>
  {
    set c | c in codes && c in catalog :: catalog[c]
  }

  /** The authorities left after dropping those whose non-null code is listed. */
  function WithoutCodes(auths: set<AuthorityMaster>, codes: seq<string>): set<AuthorityMaster>
  {
    set a | a in auths && !(a.code.Some? && a.code.value in codes)
  }

  /** The role body carries an id that the table holds, so `save` merges it
    * into that row instead of inserting (an IDENTITY id with no version
    * column is new exactly when it is null). */
  predicate Merges(roles: map<int, RoleMaster>, bodyId: Option<int>)
  {
    bodyId.Some? && bodyId.value in roles
  }

  /** `save` of the posted role.  A null id, or an id no row has, inserts
    * under the next identity value; an id the table holds merges the body
    * over that row, every column included.  A code another role holds fails
    * on the unique constraint and the transaction leaves the table as it was. */
  function CreateStep(roles: map<int, RoleMaster>, nextId: int, role: RoleMaster, bodyId: Option<int>): Outcome<RoleMaster>
  {
    var merge := Merges(roles, bodyId);
    var target := if merge then bodyId.value else nextId;
    if CodeHeld(roles, role.code, if merge then bodyId else None) then
      Outcome(Err(DataIntegrityViolation(CODE_CONSTRAINT)), roles)
    else
      var r := role.(id := target);
      Outcome(Ok(r), roles[target := r])
  }

  /** An update to a code another role holds fails when the change is
    * flushed, and the transaction leaves the table as it was. */
  function UpdateStep(roles: map<int, RoleMaster>, id: int, input: RoleInput): Outcome<RoleMaster>
  {
    if id !in roles then Outcome(Err(NoSuchElement(ROLE_NOT_FOUND)), roles)
    else if CodeHeld(roles, input.code, Some(id)) then Outcome(Err(DataIntegrityViolation(CODE_CONSTRAINT)), roles)
    else
      var old_ := roles[id];
      var r := old_.(code := input.code, roleLabel := input.roleLabel, roleType := input.roleType,
                     authorities := if input.authorities.Some? then input.authorities.value else old_.authorities);
      Outcome(Ok(r), roles[id := r])
  }

  function DeleteStep(roles: map<int, RoleMaster>, id: int): (bool, map<int, RoleMaster>)
  {
    if id !in roles then (false, roles) else (true, roles - {id})
  }

  function AssignStep(roles: map<int, RoleMaster>, catalog: map<string, AuthorityMaster>, id: int, codes: Option<seq<string>>): Outcome<RoleMaster>
  {
    if id !in roles then Outcome(Err(NoSuchElement(ROLE_NOT_FOUND)), roles)
    else if !Given(codes) then Outcome(Ok(roles[id]), roles)
    else
      var r := roles[id].(authorities := roles[id].authorities + Resolve(catalog, codes.value));
      Outcome(Ok(r), roles[id := r])
  }

  function RemoveStep(roles: map<int, RoleMaster>, id: int, codes: Option<seq<string>>): Outcome<RoleMaster>
  {
    if id !in roles then Outcome(Err(NoSuchElement(ROLE_NOT_FOUND)), roles)
    else if !Given(codes) then Outcome(Ok(roles[id]), roles)
    else
      var r := roles[id].(authorities := WithoutCodes(roles[id].authorities, codes.value));
      Outcome(Ok(r), roles[id := r])
  }

  // ------------------------------------------------------------ properties

  /** An authority resolves exactly when one of the listed codes names it in the catalogue. */
  lemma ResolveMembers(catalog: map<string, AuthorityMaster>, codes: seq<string>, a: AuthorityMaster)
    ensures a in Resolve(catalog, codes) <==> exists c :: c in codes && c in catalog && catalog[c] == a
  {
  }

  /** Assigning adds exactly the resolved authorities to the role and changes nothing else. */
  lemma AssignRules(roles: map<int, RoleMaster>, catalog: map<string, AuthorityMaster>, id: int, codes: Option<seq<string>>)
    ensures var o := AssignStep(roles, catalog, id, codes);
      (id !in roles ==> o == Outcome(Err(NoSuchElement(ROLE_NOT_FOUND)), roles)) &&
      (id in roles && !Given(codes) ==> o == Outcome(Ok(roles[id]), roles)) &&
      (id in roles && Given(codes) ==>
        o.result.Ok? && o.roles == roles[id := o.result.value] &&
        o.result.value == roles[id].(authorities := o.result.value.authorities) &&
        (forall a :: a in o.result.value.authorities <==>
           a in roles[id].authorities || exists c :: c in codes.value && c in catalog && catalog[c] == a))
  {
  }

  /** Removing drops exactly the authorities with a listed code; those without a code stay. */
  lemma RemoveRules(roles: map<int, RoleMaster>, id: int, codes: Option<seq<string>>)
    ensures var o := RemoveStep(roles, id, codes);
      (id !in roles ==> o == Outcome(Err(NoSuchElement(ROLE_NOT_FOUND)), roles)) &&
      (id in roles && !Given(codes) ==> o == Outcome(Ok(roles[id]), roles)) &&
      (id in roles && Given(codes) ==>
        o.result.Ok? && o.roles == roles[id := o.result.value] &&
        o.result.value == roles[id].(authorities := o.result.value.authorities) &&
        (forall a :: a in o.result.value.authorities <==>
           a in roles[id].authorities && (a.code.None? || a.code.value !in codes.value)))
  {
  }

  /** With a consistent catalogue, removing codes undoes assigning the same codes. */
  lemma RemoveUndoesAssign(catalog: map<string, AuthorityMaster>, auths: set<AuthorityMaster>, codes: seq<string>)
    requires WellCoded(catalog)
    ensures WithoutCodes(auths + Resolve(catalog, codes), codes) == WithoutCodes(auths, codes)
  {
    forall a | a in Resolve(catalog, codes)
      ensures a.code.Some? && a.code.value in codes
    {
      var c :| c in codes && c in catalog && catalog[c] == a;
      assert catalog[c].code == Some(c);
    }
  }

  /** Removing twice removes no more than removing once. */
  lemma RemoveIdempotent(roles: map<int, RoleMaster>, id: int, codes: Option<seq<string>>)
    ensures RemoveStep(RemoveStep(roles, id, codes).roles, id, codes) == RemoveStep(roles, id, codes)
  {
    if id in roles && Given(codes) {
      var once := WithoutCodes(roles[id].authorities, codes.value);
      assert WithoutCodes(once, codes.value) == once;
    }
  }

  /** A body without a stored id is inserted under the next id; a body with
    * a stored id replaces that row whole, under the same id.  Either way the
    * save fails, changing nothing, exactly when a role other than the target
    * row already holds the code. */
  lemma CreateRules(roles: map<int, RoleMaster>, nextId: int, role: RoleMaster, bodyId: Option<int>)
    ensures var o := CreateStep(roles, nextId, role, bodyId);
      (!Merges(roles, bodyId) ==>
        (o.result.Err? <==> exists j :: j in roles && roles[j].code == role.code)) &&
      (Merges(roles, bodyId) ==>
        (o.result.Err? <==> exists j :: j in roles && j != bodyId.value && roles[j].code == role.code)) &&
      (o.result.Err? ==> o == Outcome(Err(DataIntegrityViolation(CODE_CONSTRAINT)), roles)) &&
      (o.result.Ok? && !Merges(roles, bodyId) ==>
        o.result.value == role.(id := nextId) && o.roles == roles[nextId := o.result.value]) &&
      (o.result.Ok? && Merges(roles, bodyId) ==>
        o.result.value == role.(id := bodyId.value) && o.roles == roles[bodyId.value := o.result.value] &&
        o.roles.Keys == roles.Keys)
  {
  }

  /** Posting a stored role back with its own id is accepted, although the
    * code is taken (by itself), and leaves the table as it was. */
  lemma CreateResavesStored(roles: map<int, RoleMaster>, nextId: int, id: int)
    requires WellKeyed(roles) && UniqueCodes(roles) && id in roles
    ensures CreateStep(roles, nextId, roles[id], Some(id)) == Outcome(Ok(roles[id]), roles)
  {
    assert !CodeHeld(roles, roles[id].code, Some(id));
    assert roles[id].(id := id) == roles[id];
    assert roles[id := roles[id]] == roles;
  }

  /** An update overwrites code, label and type, and the authorities only when given;
    * a code another role holds is refused. */
  lemma UpdateRules(roles: map<int, RoleMaster>, id: int, input: RoleInput)
    ensures var o := UpdateStep(roles, id, input);
      (id !in roles ==> o == Outcome(Err(NoSuchElement(ROLE_NOT_FOUND)), roles)) &&
      (id in roles && (exists j :: j in roles && j != id && roles[j].code == input.code) ==>
        o == Outcome(Err(DataIntegrityViolation(CODE_CONSTRAINT)), roles)) &&
      (id in roles && (forall j :: j in roles && j != id ==> roles[j].code != input.code) ==>
        o.result.Ok? && o.roles == roles[id := o.result.value] && o.result.value.id == roles[id].id &&
        o.result.value.code == input.code && o.result.value.roleLabel == input.roleLabel &&
        o.result.value.roleType == input.roleType &&
        o.result.value.authorities == input.authorities.GetOr(roles[id].authorities))
  {
  }

  /** Every step keeps each role under its own identity. */
  lemma StepsPreserveWellKeyed(roles: map<int, RoleMaster>, catalog: map<string, AuthorityMaster>, id: int,
                               codes: Option<seq<string>>, input: RoleInput)
    requires WellKeyed(roles)
    ensures WellKeyed(UpdateStep(roles, id, input).roles)
    ensures WellKeyed(AssignStep(roles, catalog, id, codes).roles)
    ensures WellKeyed(RemoveStep(roles, id, codes).roles)
    ensures WellKeyed(DeleteStep(roles, id).1)
  {
  }

  /** Every step keeps the codes unique, the creation of a role under an unused id included. */
  lemma StepsPreserveUniqueCodes(roles: map<int, RoleMaster>, catalog: map<string, AuthorityMaster>, nextId: int,
                                 role: RoleMaster, bodyId: Option<int>, id: int, codes: Option<seq<string>>, input: RoleInput)
    requires UniqueCodes(roles)
    ensures nextId !in roles ==> UniqueCodes(CreateStep(roles, nextId, role, bodyId).roles)
    ensures UniqueCodes(UpdateStep(roles, id, input).roles)
    ensures UniqueCodes(AssignStep(roles, catalog, id, codes).roles)
    ensures UniqueCodes(RemoveStep(roles, id, codes).roles)
    ensures UniqueCodes(DeleteStep(roles, id).1)
  {
    var c := CreateStep(roles, nextId, role, bodyId).roles;
    if Merges(roles, bodyId) && !CodeHeld(roles, role.code, bodyId) {
      var t := bodyId.value;
      forall i, j | i in c && j in c && c[i].code == c[j].code
        ensures i == j
      {
        if i != t && j != t {
          assert roles[i].code == roles[j].code;
        }
      }
    }
    var u := UpdateStep(roles, id, input).roles;
    if id in roles && !CodeHeld(roles, input.code, Some(id)) {
      forall i, j | i in u && j in u && u[i].code == u[j].code
        ensures i == j
      {
        if i != id && j != id {
          assert roles[i].code == roles[j].code;
        }
      }
    }
  }

  // ------------------------------------------------------------ the service

  class RoleMasterService {
    var roles: map<int, RoleMaster>
    var nextId: int
    /** The authority table, by code. */
    var catalog: map<string, AuthorityMaster>

    predicate Valid()
      reads this
    {
      WellKeyed(roles) && UniqueCodes(roles) && (forall id :: id in roles ==> id < nextId)
    }

    constructor(catalog: map<string, AuthorityMaster>)
      ensures Valid() && roles == map[] && this.catalog == catalog
    {
      roles := map[];
      nextId := 1;
      this.catalog := catalog;
    }

    /** `create`: `roleRepo.save` of the posted body, whose id may be null. */
    method Create(role: RoleMaster, bodyId: Option<int>) returns (r: Result<RoleMaster>)
      modifies this
      ensures Outcome(r, roles) == CreateStep(old(roles), old(nextId), role, bodyId)
      ensures nextId == if r.Ok? && !Merges(old(roles), bodyId) then old(nextId) + 1 else old(nextId)
      ensures catalog == old(catalog)
      ensures old(Valid()) ==> Valid()
    {
      var merge := bodyId.Some? && bodyId.value in roles;
      var target := if merge then bodyId.value else nextId;
      if exists j :: j in roles && (!merge || j != target) && roles[j].code == role.code {
        return Err(DataIntegrityViolation(CODE_CONSTRAINT));
      }
      if Valid() {
        StepsPreserveUniqueCodes(roles, catalog, nextId, role, bodyId, nextId, None, RoleInput(role.code, role.roleLabel, role.roleType, None));
      }
      var saved := role.(id := target);
      roles := roles[target := saved];
      if !merge {
        nextId := nextId + 1;
      }
      r := Ok(saved);
    }

    method Update(id: int, input: RoleInput) returns (r: Result<RoleMaster>)
      modifies this
      ensures Outcome(r, roles) == UpdateStep(old(roles), id, input)
      ensures nextId == old(nextId) && catalog == old(catalog)
      ensures old(Valid()) ==> Valid()
    {
      if id !in roles {
        return Err(NoSuchElement(ROLE_NOT_FOUND));
      }
      if exists j :: j in roles && j != id && roles[j].code == input.code {
        return Err(DataIntegrityViolation(CODE_CONSTRAINT));
      }
      if Valid() {
        StepsPreserveUniqueCodes(roles, catalog, nextId, roles[id], None, id, None, input);
      }
      var existing := roles[id];
      existing := existing.(code := input.code, roleLabel := input.roleLabel, roleType := input.roleType);
      if input.authorities.Some? {
        existing := existing.(authorities := {});
        existing := existing.(authorities := existing.authorities + input.authorities.value);
        assert existing.authorities == input.authorities.value;
      }
      roles := roles[id := existing];
      r := Ok(existing);
    }

    method Delete(id: int) returns (deleted: bool)
      modifies this
      ensures (deleted, roles) == DeleteStep(old(roles), id)
      ensures nextId == old(nextId) && catalog == old(catalog)
      ensures old(Valid()) ==> Valid()
    {
      if id !in roles {
        return false;
      }
      roles := roles - {id};
      deleted := true;
    }

    method AssignAuthoritiesByCodes(id: int, codes: Option<seq<string>>) returns (r: Result<RoleMaster>)
      modifies this
      ensures Outcome(r, roles) == AssignStep(old(roles), catalog, id, codes)
      ensures nextId == old(nextId) && catalog == old(catalog)
      ensures old(Valid()) ==> Valid()
    {
      if id !in roles {
        return Err(NoSuchElement(ROLE_NOT_FOUND));
      }
      var role := roles[id];
      if Given(codes) {
        var found := Resolve(catalog, codes.value);
        role := role.(authorities := role.authorities + found);
        roles := roles[id := role];
      }
      r := Ok(role);
    }

    method RemoveAuthoritiesByCodes(id: int, codes: Option<seq<string>>) returns (r: Result<RoleMaster>)
      modifies this
      ensures Outcome(r, roles) == RemoveStep(old(roles), id, codes)
      ensures nextId == old(nextId) && catalog == old(catalog)
      ensures old(Valid()) ==> Valid()
    {
      if id !in roles {
        return Err(NoSuchElement(ROLE_NOT_FOUND));
      }
      var role := roles[id];
      if Given(codes) {
        role := role.(authorities := WithoutCodes(role.authorities, codes.value));
        roles := roles[id := role];
      }
      r := Ok(role);
    }
  }
}
