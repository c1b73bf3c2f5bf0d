// Mappings between users and providers.  The first mapping made for a
// provider makes its user the provider's ACTIVE admin; every later one is
// only REQUESTED.  The table is a map from identity to mapping; clocks are
// parameters (integer instants).
module UserProviderMappings {
  import opened Wrappers
  import Roles

  datatype MappingStatus = Active | Inactive | Suspended | Requested

  datatype Mapping = Mapping(
    id: int,
    userId: int,
    providerId: Option<int>,
    providerCode: string,
    mappedAt: Option<int>,
    status: MappingStatus,
    roles: set<Roles.RoleMaster>)

  const MAPPING_NOT_FOUND: string := "Mapping not found"

  /** The role given to the first user of a provider. */
  const ADMIN_ROLE: Roles.RoleMaster := Roles.RoleMaster(2, "PROLE.PROVIDER_ADMIN", "Provider Admin", Some("SYSTEM"), {})

  datatype Store = Store(mappings: map<int, Mapping>, nextId: int)

  predicate WellKeyed(s: Store)
  {
    forall id :: id in s.mappings ==> s.mappings[id].id == id && id < s.nextId
  }

  /** Some mapping, in any status, already names the provider. */
  predicate ProviderMapped(m: map<int, Mapping>, providerId: Option<int>)
  {
    exists id :: id in m && m[id].providerId == providerId
  }

  /** At most one ACTIVE mapping per provider. */
  predicate OneActivePerProvider(m: map<int, Mapping>)
  {
    forall i, j :: i in m && j in m && i != j && m[i].status == Active && m[j].status == Active ==>
      m[i].providerId != m[j].providerId
  }

  /** The mapping as stored by a create at instant now. */
  function Created(m: map<int, Mapping>, id: int, mapping: Mapping, now: int): Mapping
  {
    var mappedAt := if mapping.mappedAt.None? then Some(now) else mapping.mappedAt;
    if !ProviderMapped(m, mapping.providerId) then
      mapping.(id := id, status := Active, roles := {ADMIN_ROLE}, mappedAt := mappedAt)
    else
      mapping.(id := id, status := Requested, mappedAt := mappedAt)
  }

  function CreateStep(s: Store, mapping: Mapping, now: int): (Mapping, Store)
  {
    var c := Created(s.mappings, s.nextId, mapping, now);
    (c, Store(s.mappings[s.nextId := c], s.nextId + 1))
  }

  function UpdateStatusStep(s: Store, id: int, status: MappingStatus): (Result<Mapping>, Store)
  {
    if id !in s.mappings then (Err(NoSuchElement(MAPPING_NOT_FOUND)), s)
    else
      var u := s.mappings[id].(status := status);
      (Ok(u), s.(mappings := s.mappings[id := u]))
  }

  function DeleteStep(s: Store, id: int): (bool, Store)
  {
    if id !in s.mappings then (false, s) else (true, s.(mappings := s.mappings - {id}))
  }

  /** The repository query by user and status. */
  function FindByUserIdAndStatus(s: Store, userId: int, status: MappingStatus): set<Mapping>
  {
    set id | id in s.mappings && s.mappings[id].userId == userId && s.mappings[id].status == status :: s.mappings[id]
  }

  // ------------------------------------------------------------ properties

  /**
   * The first mapping of a provider is ACTIVE with the admin role alone;
   * any later one is REQUESTED and keeps the roles it came with.  The
   * instant is filled in only when missing.
   */
  lemma CreateRules(s: Store, mapping: Mapping, now: int)
    requires WellKeyed(s)
    ensures var (c, s') := CreateStep(s, mapping, now);
      c.id !in s.mappings && s'.mappings == s.mappings[c.id := c] && WellKeyed(s') &&
      c.userId == mapping.userId && c.providerId == mapping.providerId && c.providerCode == mapping.providerCode &&
      (!ProviderMapped(s.mappings, mapping.providerId) ==> c.status == Active && c.roles == {ADMIN_ROLE}) &&
      (ProviderMapped(s.mappings, mapping.providerId) ==> c.status == Requested && c.roles == mapping.roles) &&
      (mapping.mappedAt.Some? ==> c.mappedAt == mapping.mappedAt) &&
      (mapping.mappedAt.None? ==> c.mappedAt == Some(now))
  {
  }

  /** Creating mappings, whatever status they ask for, never makes a second ACTIVE one for a provider. */
  lemma CreatePreservesOneActive(s: Store, mapping: Mapping, now: int)
    requires WellKeyed(s) && OneActivePerProvider(s.mappings)
    ensures OneActivePerProvider(CreateStep(s, mapping, now).1.mappings)
  {
    var (c, s') := CreateStep(s, mapping, now);
    forall i, j | i in s'.mappings && j in s'.mappings && i != j && s'.mappings[i].status == Active && s'.mappings[j].status == Active
      ensures s'.mappings[i].providerId != s'.mappings[j].providerId
    {
      if i == s.nextId || j == s.nextId {
        var other := if i == s.nextId then j else i;
        assert other in s.mappings;
        assert !ProviderMapped(s.mappings, mapping.providerId);
      }
    }
  }

  /** A status update changes the status alone; an unknown id fails. */
  lemma UpdateStatusRules(s: Store, id: int, status: MappingStatus)
    ensures var (r, s') := UpdateStatusStep(s, id, status);
      (id !in s.mappings ==> r == Err(NoSuchElement(MAPPING_NOT_FOUND)) && s' == s) &&
      (id in s.mappings ==> r == Ok(s.mappings[id].(status := status)) && s'.mappings == s.mappings[id := r.value] &&
                            s'.nextId == s.nextId)
  {
  }

  /** A delete answers whether the id was there, and removes it. */
  lemma DeleteRules(s: Store, id: int)
    ensures DeleteStep(s, id).0 <==> id in s.mappings
    ensures DeleteStep(s, id).1.mappings.Keys == s.mappings.Keys - {id}
  {
  }

  lemma FindByUserIdAndStatusMembers(s: Store, userId: int, status: MappingStatus, m: Mapping)
    ensures m in FindByUserIdAndStatus(s, userId, status) <==>
      (exists id :: id in s.mappings && s.mappings[id] == m) && m.userId == userId && m.status == status
  {
  }

  // ------------------------------------------------------------ the service

  class UserProviderMappingService {
    var mappings: map<int, Mapping>
    var nextId: int

    predicate Valid()
      reads this
    {
      WellKeyed(Store(mappings, nextId))
    }

    constructor()
      ensures Valid() && mappings == map[]
    {
      mappings := map[];
      nextId := 1;
    }

    method Create(mapping: Mapping, now: int) returns (r: Mapping)
      modifies this
      ensures (r, Store(mappings, nextId)) == CreateStep(old(Store(mappings, nextId)), mapping, now)
      ensures old(Valid()) ==> Valid()
    {
      var m := mapping;
      if !ProviderMapped(mappings, m.providerId) {
        m := m.(status := Active, roles := {ADMIN_ROLE});
      } else {
        m := m.(status := Requested);
      }
      if m.mappedAt.None? {
        m := m.(mappedAt := Some(now));
      }
      r := m.(id := nextId);
      mappings := mappings[nextId := r];
      nextId := nextId + 1;
    }

    method UpdateStatus(id: int, status: MappingStatus) returns (r: Result<Mapping>)
      modifies this
      ensures (r, Store(mappings, nextId)) == UpdateStatusStep(old(Store(mappings, nextId)), id, status)
      ensures old(Valid()) ==> Valid()
    {
      if id !in mappings {
        return Err(NoSuchElement(MAPPING_NOT_FOUND));
      }
      var existing := mappings[id];
      existing := existing.(status := status);
      mappings := mappings[id := existing];
      r := Ok(existing);
    }

    method Delete(id: int) returns (deleted: bool)
      modifies this
      ensures (deleted, Store(mappings, nextId)) == DeleteStep(old(Store(mappings, nextId)), id)
      ensures old(Valid()) ==> Valid()
    {
      if id !in mappings {
        return false;
      }
      mappings := mappings - {id};
      deleted := true;
    }
  }
}
