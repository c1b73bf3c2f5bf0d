// The JPA listener that records who created and last updated an entity.
// The entity is `None` when it does not extend the base entity; the audit
// context (the current user and provider, either of which may be null) is
// `None` when no provider bean is available.
module AuditListener {
  import opened Wrappers
  import opened BaseEntity

  datatype AuditContext = AuditContext(currentUserId: Option<int>, currentProviderId: Option<int>)

  /** `Objects.requireNonNullElse(value, 0L)`. */
  function Safe(value: Option<int>): (r: int)
    ensures value.Some? ==> r == value.value
    ensures value.None? ==> r == 0
  {
    value.GetOr(0)
  }

  /** The four audit columns as one value. */
  datatype Audit = Audit(createdBy: Option<int>, createdByProvider: Option<int>,
                         updatedBy: Option<int>, updatedByProvider: Option<int>)

  /** The audit columns after the pre-persist hook. */
  function OnCreateAudit(a: Audit, ctx: Option<AuditContext>): (r: Audit)
    ensures ctx.None? ==> r == a
    ensures ctx.Some? ==> r.updatedBy == Some(Safe(ctx.value.currentUserId))
    ensures ctx.Some? ==> r.updatedByProvider == Some(Safe(ctx.value.currentProviderId))
    ensures a.createdBy.Some? ==> r.createdBy == a.createdBy
    ensures a.createdByProvider.Some? ==> r.createdByProvider == a.createdByProvider
    ensures ctx.Some? && a.createdBy.None? ==> r.createdBy == r.updatedBy
    ensures ctx.Some? && a.createdByProvider.None? ==> r.createdByProvider == r.updatedByProvider
  {
    match ctx
    case None => a
    case Some(c) =>
      var user := Some(Safe(c.currentUserId));
      var provider := Some(Safe(c.currentProviderId));
      Audit(if a.createdBy.None? then user else a.createdBy,
            if a.createdByProvider.None? then provider else a.createdByProvider,
            user, provider)
  }

  /** The audit columns after the pre-update hook: only the updated-by pair changes. */
  function OnUpdateAudit(a: Audit, ctx: Option<AuditContext>): (r: Audit)
    ensures ctx.None? ==> r == a
    ensures r.createdBy == a.createdBy && r.createdByProvider == a.createdByProvider
    ensures ctx.Some? ==> r.updatedBy == Some(Safe(ctx.value.currentUserId))
    ensures ctx.Some? ==> r.updatedByProvider == Some(Safe(ctx.value.currentProviderId))
  {
    match ctx
    case None => a
    case Some(c) => a.(updatedBy := Some(Safe(c.currentUserId)), updatedByProvider := Some(Safe(c.currentProviderId)))
  }

  /** Once a create hook has run with a context, no audit column is null any more. */
  lemma AuditedColumnsSet(a: Audit, c: AuditContext, later: Option<AuditContext>)
    ensures var r := OnUpdateAudit(OnCreateAudit(a, Some(c)), later);
      r.createdBy.Some? && r.createdByProvider.Some? && r.updatedBy.Some? && r.updatedByProvider.Some?
  {
  }

  function AuditOf(e: BaseEntity): Audit
    reads e
  {
    Audit(e.createdBy, e.createdByProvider, e.updatedBy, e.updatedByProvider)
  }

  method SetAuditOnCreate(entity: Option<BaseEntity>, ctx: Option<AuditContext>)
    modifies if entity.Some? then {entity.value} else {}
    ensures entity.Some? ==> AuditOf(entity.value) == OnCreateAudit(old(AuditOf(entity.value)), ctx)
    ensures entity.Some? ==> entity.value.StampsOf() == old(entity.value.StampsOf())
  {
    if entity.None? || ctx.None? {
      return;
    }
    var base := entity.value;
    var userId := Safe(ctx.value.currentUserId);
    var providerId := Safe(ctx.value.currentProviderId);
    if base.createdBy.None? {
      base.createdBy := Some(userId);
    }
    if base.createdByProvider.None? {
      base.createdByProvider := Some(providerId);
    }
    base.updatedBy := Some(userId);
    base.updatedByProvider := Some(providerId);
  }

  method SetAuditOnUpdate(entity: Option<BaseEntity>, ctx: Option<AuditContext>)
    modifies if entity.Some? then {entity.value} else {}
    ensures entity.Some? ==> AuditOf(entity.value) == OnUpdateAudit(old(AuditOf(entity.value)), ctx)
    ensures entity.Some? ==> entity.value.StampsOf() == old(entity.value.StampsOf())
  {
    if entity.None? || ctx.None? {
      return;
    }
    var base := entity.value;
    base.updatedBy := Some(Safe(ctx.value.currentUserId));
    base.updatedByProvider := Some(Safe(ctx.value.currentProviderId));
  }
}
