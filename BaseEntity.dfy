// The common persistent-entity base: timestamps, audit user ids and the
// soft-delete flag, with the JPA pre-persist and pre-update hooks.  A Java
// `null` is `None`; instants are integers and the clock is a parameter.
module BaseEntity {
  import opened Wrappers

  /** The lifecycle fields the hooks touch, as one value. */
  datatype Stamps = Stamps(createdAt: Option<int>, updatedAt: Option<int>, isActive: Option<bool>)

  /** What `onCreate` leaves: an existing creation time is kept, the update time is now. */
  function Created(s: Stamps, now: int): (r: Stamps)
    ensures r.createdAt == Some(s.createdAt.GetOr(now))
    ensures r.updatedAt == Some(now)
    ensures r.isActive == Some(s.isActive.GetOr(true))
  {
    Stamps(if s.createdAt.None? then Some(now) else s.createdAt, Some(now),
           if s.isActive.None? then Some(true) else s.isActive)
  }

  /** What `onUpdate` leaves. */
  function Updated(s: Stamps, now: int): (r: Stamps)
    ensures r.createdAt == s.createdAt
    ensures r.updatedAt == Some(now)
    ensures r.isActive == Some(s.isActive.GetOr(true))
  {
    Stamps(s.createdAt, Some(now), if s.isActive.None? then Some(true) else s.isActive)
  }

  /** A false flag survives both hooks; only a missing one becomes true. */
  lemma HooksKeepInactive(s: Stamps, now: int)
    requires s.isActive == Some(false)
    ensures Created(s, now).isActive == Some(false)
    ensures Updated(s, now).isActive == Some(false)
  {
  }

  /** After a create, any number of updates keep the creation time of the first hook. */
  lemma CreateThenUpdate(s: Stamps, t1: int, t2: int)
    ensures Updated(Created(s, t1), t2).createdAt == Some(s.createdAt.GetOr(t1))
    ensures Created(Created(s, t1), t2).createdAt == Created(s, t1).createdAt
  {
  }

  class BaseEntity {
    var createdAt: Option<int>
    var updatedAt: Option<int>
    var createdBy: Option<int>
    var updatedBy: Option<int>
    var createdByProvider: Option<int>
    var updatedByProvider: Option<int>
    var isActive: Option<bool>

    function StampsOf(): Stamps
      reads this
    {
      Stamps(createdAt, updatedAt, isActive)
    }

    /** A new entity: every column null except the flag, which starts true. */
    constructor ()
      ensures StampsOf() == Stamps(None, None, Some(true))
      ensures createdBy == None && updatedBy == None
      ensures createdByProvider == None && updatedByProvider == None
    {
      createdAt, updatedAt := None, None;
      createdBy, updatedBy := None, None;
      createdByProvider, updatedByProvider := None, None;
      isActive := Some(true);
    }

    method OnCreate(now: int)
      modifies this`createdAt, this`updatedAt, this`isActive
      ensures StampsOf() == Created(old(StampsOf()), now)
    {
      if createdAt.None? {
        createdAt := Some(now);
      }
      updatedAt := Some(now);
      if isActive.None? {
        isActive := Some(true);
      }
    }

    method OnUpdate(now: int)
      modifies this`updatedAt, this`isActive
      ensures StampsOf() == Updated(old(StampsOf()), now)
    {
      updatedAt := Some(now);
      if isActive.None? {
        isActive := Some(true);
      }
    }
  }
}
