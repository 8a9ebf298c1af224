/**
 * Task priorities: creation (visible by default), renaming and showing or
 * hiding a priority. The whole service is reserved to administrators: a
 * caller without ROLE_ADMIN is refused before any operation runs.
 */
module PriorityServices {
  import opened Common

  /** A task priority. */
  datatype Priority = Priority(
    name: string,
    description: string,
    visible: bool,
    createdAt: Instant,
    updatedAt: Option<Instant>)

  /**
   * The `AccessDeniedException` Spring Security throws when the class-level
   * `hasRole('ROLE_ADMIN')` check fails.
   */
  const AdminRequired := AccessDenied("Access Denied")

  class PriorityService {
    /** The priority repository. */
    var priorities: map<Id, Priority>
    var nextId: Id

    ghost predicate Valid()
      reads this
    {
      forall id :: id in priorities ==> id < nextId
    }

    constructor ()
      ensures Valid() && priorities == map[]
    {
      priorities := map[];
      nextId := 0;
    }

    /**
     * `save`: stores a new visible priority with the given name and
     * description, created now and never updated.
     */
    method Save(caller: Caller, name: string, description: string, now: Instant) returns (r: Result<Id, ServiceError>)
      requires Valid()
      modifies this
      ensures Valid()
      ensures r.Ok? <==> caller.admin
      ensures !caller.admin ==> r == Err(AdminRequired) && priorities == old(priorities)
      ensures r.Ok? ==>
        r.value !in old(priorities) &&
        priorities == old(priorities)[r.value := Priority(name, description, true, now, None)]
    {
      if !caller.admin {
        return Err(AdminRequired);
      }
      var id := nextId;
      priorities := priorities[id := Priority(name, description, true, now, None)];
      nextId := nextId + 1;
      r := Ok(id);
    }

    /**
     * `update`: replaces the name and description of an existing priority and
     * stamps its update time; visibility and creation time are kept.
     */
    method Update(caller: Caller, id: Id, name: string, description: string, now: Instant) returns (r: Outcome<ServiceError>)
      requires Valid()
      modifies this
      ensures Valid()
      ensures !caller.admin ==> r == Fail(AdminRequired)
      ensures r == Fail(NotFound("Priority not found with id: ")) <==> caller.admin && id !in old(priorities)
      ensures r.Pass? <==> caller.admin && id in old(priorities)
      ensures r.Fail? ==> priorities == old(priorities)
      ensures r.Pass? ==>
        priorities == old(priorities)[id := old(priorities)[id].(name := name, description := description, updatedAt := Some(now))] &&
        priorities[id].visible == old(priorities)[id].visible &&
        priorities[id].createdAt == old(priorities)[id].createdAt
    {
      if !caller.admin {
        return Fail(AdminRequired);
      }
      if id !in priorities {
        return Fail(NotFound("Priority not found with id: "));
      }
      priorities := priorities[id := priorities[id].(name := name, description := description, updatedAt := Some(now))];
      r := Pass;
    }

    /** `updateVisibility`: shows or hides an existing priority and nothing else. */
    method UpdateVisibility(caller: Caller, id: Id, visible: bool) returns (r: Outcome<ServiceError>)
      requires Valid()
      modifies this
      ensures Valid()
      ensures !caller.admin ==> r == Fail(AdminRequired)
      ensures r == Fail(NotFound("Priority not found")) <==> caller.admin && id !in old(priorities)
      ensures r.Pass? <==> caller.admin && id in old(priorities)
      ensures r.Fail? ==> priorities == old(priorities)
      ensures r.Pass? ==> priorities == old(priorities)[id := old(priorities)[id].(visible := visible)]
    {
      if !caller.admin {
        return Fail(AdminRequired);
      }
      if id !in priorities {
        return Fail(NotFound("Priority not found"));
      }
      priorities := priorities[id := priorities[id].(visible := visible)];
      r := Pass;
    }
  }
}
