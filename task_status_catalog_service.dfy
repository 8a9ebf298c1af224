/**
 * The catalogue of task statuses. Every operation is reserved to
 * administrators and to users who own or moderate at least one work group.
 */
module TaskStatusCatalogServices {
  import opened Common
  import opened Memberships

  /** A task status. */
  datatype TaskStatus = TaskStatus(
    name: string,
    description: string,
    createdBy: Login,
    createdAt: Instant,
    updatedAt: Instant)

  /**
   * `validateAdminOrGroupOwnerOrModerator` (no group argument): an
   * administrator passes; otherwise the caller must be logged in and be
   * OWNER or MODERADOR of some group.
   */
  function CatalogPermission(memberships: seq<Membership>, caller: Caller): (r: Outcome<ServiceError>)
    ensures r.Pass? <==>
      caller.admin ||
      (caller.login.Some? &&
       exists i :: 0 <= i < |memberships| && memberships[i].login == caller.login.value &&
                   memberships[i].role in OwnerOrModerator)
    ensures !caller.admin && caller.login.None? ==> r == Fail(NoSuchElement)
    ensures r.Fail? && caller.login.Some? ==> r == Fail(AccessDenied("Insufficient privileges"))
  {
    if caller.admin then Pass
    else if caller.login.None? then Fail(NoSuchElement)
    else if !HasRoleInAnyGroup(memberships, caller.login.value, OwnerOrModerator) then
      Fail(AccessDenied("Insufficient privileges"))
    else Pass
  }

  /** A member of no group at all is refused unless administrator. */
  lemma NoMembershipNoCatalogAccess(memberships: seq<Membership>, caller: Caller)
    requires !caller.admin && caller.login.Some?
    requires forall i :: 0 <= i < |memberships| ==> memberships[i].login != caller.login.value
    ensures CatalogPermission(memberships, caller).Fail?
  {
  }

  class TaskStatusCatalogService {
    /** The status repository. */
    var statuses: map<Id, TaskStatus>
    /** A read-only view of the membership repository. */
    var memberships: seq<Membership>
    /** The logins of the user repository. */
    var users: set<Login>
    var nextId: Id

    ghost predicate Valid()
      reads this
    {
      forall id :: id in statuses ==> id < nextId
    }

    constructor (memberships: seq<Membership>, users: set<Login>)
      ensures Valid() && statuses == map[]
      ensures this.memberships == memberships && this.users == users
    {
      statuses := map[];
      this.memberships := memberships;
      this.users := users;
      nextId := 0;
    }

    /**
     * `save`: after the permission check, stores a new status created by the
     * calling user, with creation and update time both now.
     */
    method Save(caller: Caller, name: string, description: string, now: Instant) returns (r: Result<Id, ServiceError>)
      requires Valid()
      modifies this
      ensures Valid() && memberships == old(memberships) && users == old(users)
      ensures CatalogPermission(memberships, caller).Fail? ==>
        r == Err(CatalogPermission(memberships, caller).error)
      ensures r.Ok? <==>
        CatalogPermission(memberships, caller).Pass? && caller.login.Some? && caller.login.value in users
      ensures CatalogPermission(memberships, caller).Pass? && caller.login.None? ==>
        r == Err(IllegalState("Current user login not found"))
      ensures CatalogPermission(memberships, caller).Pass? && caller.login.Some? && caller.login.value !in users ==>
        r == Err(NotFound("User not found with login: "))
      ensures r.Ok? ==>
        r.value !in old(statuses) &&
        statuses == old(statuses)[r.value := TaskStatus(name, description, caller.login.value, now, now)]
      ensures r.Err? ==> statuses == old(statuses)
    {
      var p := CatalogPermission(memberships, caller);
      if p.Fail? {
        return Err(p.error);
      }
      if caller.login.None? {
        return Err(IllegalState("Current user login not found"));
      }
      var login := caller.login.value;
      if login !in users {
        return Err(NotFound("User not found with login: "));
      }
      var id := nextId;
      statuses := statuses[id := TaskStatus(name, description, login, now, now)];
      nextId := nextId + 1;
      r := Ok(id);
    }

    /**
     * `update`: after the permission check, replaces the name and description
     * of an existing status and stamps its update time; the creator and the
     * creation time are kept.
     */
    method Update(caller: Caller, id: Id, name: string, description: string, now: Instant)
      returns (r: Outcome<ServiceError>)
      requires Valid()
      modifies this
      ensures Valid() && memberships == old(memberships) && users == old(users)
      ensures CatalogPermission(memberships, caller).Fail? ==> r == CatalogPermission(memberships, caller)
      ensures r.Pass? <==> CatalogPermission(memberships, caller).Pass? && id in old(statuses)
      ensures CatalogPermission(memberships, caller).Pass? && id !in old(statuses) ==>
        r == Fail(NotFound("TaskStatusCatalog not found with id "))
      ensures r.Pass? ==>
        statuses == old(statuses)[id := old(statuses)[id].(name := name, description := description, updatedAt := now)] &&
        statuses[id].createdBy == old(statuses)[id].createdBy &&
        statuses[id].createdAt == old(statuses)[id].createdAt
      ensures r.Fail? ==> statuses == old(statuses)
    {
      r := CatalogPermission(memberships, caller);
      if r.Fail? {
        return;
      }
      if id !in statuses {
        return Fail(NotFound("TaskStatusCatalog not found with id "));
      }
      statuses := statuses[id := statuses[id].(name := name, description := description, updatedAt := now)];
    }

    /**
     * `delete`: after the permission check, removes the status if present; a
     * missing id is not an error.
     */
    method Delete(caller: Caller, id: Id) returns (r: Outcome<ServiceError>)
      requires Valid()
      modifies this
      ensures Valid() && memberships == old(memberships) && users == old(users)
      ensures r == CatalogPermission(memberships, caller)
      ensures r.Pass? ==> statuses == old(statuses) - {id}
      ensures r.Fail? ==> statuses == old(statuses)
    {
      r := CatalogPermission(memberships, caller);
      if r.Pass? {
        statuses := statuses - {id};
      }
    }

    /** `findOne`: after the permission check, the status with that id, if any. */
    function FindOne(caller: Caller, id: Id): (r: Result<Option<TaskStatus>, ServiceError>)
      reads this
      ensures r.Err? <==> CatalogPermission(memberships, caller).Fail?
      ensures r.Ok? ==> (r.value.Some? <==> id in statuses) && (r.value.Some? ==> r.value.value == statuses[id])
    {
      var p := CatalogPermission(memberships, caller);
      if p.Fail? then Err(p.error)
      else if id in statuses then Ok(Some(statuses[id]))
      else Ok(None)
    }
  }
}
