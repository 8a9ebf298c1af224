/**
 * Projects: creation inside an existing work group, listing by work group and
 * the assignment of users to a project.
 */
module ProjectServices {
  import opened Common

  /** A project; it always belongs to one work group. */
  datatype Project = Project(
    title: string,
    description: string,
    startDate: Option<Instant>,
    endDate: Option<Instant>,
    workGroup: Id)

  /** The assignment of a user to a project. */
  datatype ProjectMember = ProjectMember(id: Id, project: Id, login: Login, assignedAt: Instant)

  /** No two project members share a (project, user) pair. */
  predicate UniquePairs(members: seq<ProjectMember>) {
    forall i, j :: 0 <= i < j < |members| ==>
      !(members[i].project == members[j].project && members[i].login == members[j].login)
  }

  /** Whether `login` is already a member of `project`. */
  predicate IsProjectMember(members: seq<ProjectMember>, project: Id, login: Login) {
    exists i :: 0 <= i < |members| && members[i].project == project && members[i].login == login
  }

  /** Appending a member for a pair not yet present keeps the pairs unique. */
  lemma AppendKeepsUniquePairs(members: seq<ProjectMember>, m: ProjectMember)
    requires UniquePairs(members)
    requires !IsProjectMember(members, m.project, m.login)
    ensures UniquePairs(members + [m])
  {
    var r := members + [m];
    forall i, j | 0 <= i < j < |r|
      ensures !(r[i].project == r[j].project && r[i].login == r[j].login)
    {
      if j == |members| {
        assert r[i] == members[i];
      }
    }
  }

  class ProjectService {
    /** The identifiers of the work-group repository. */
    var workGroups: set<Id>
    /** The logins of the user repository. */
    var users: set<Login>
    /** The project repository. */
    var projects: map<Id, Project>
    /** The project-member repository. */
    var members: seq<ProjectMember>
    var nextProjectId: Id
    var nextMemberId: Id

    ghost predicate Valid()
      reads this
    {
      (forall id :: id in projects ==> id < nextProjectId && projects[id].workGroup in workGroups) &&
      (forall i :: 0 <= i < |members| ==> members[i].id < nextMemberId) &&
      UniquePairs(members)
    }

    /** A service over the given work groups and users, with no projects. */
    constructor (workGroups: set<Id>, users: set<Login>)
      ensures Valid()
      ensures this.workGroups == workGroups && this.users == users
      ensures projects == map[] && members == []
    {
      this.workGroups := workGroups;
      this.users := users;
      projects := map[];
      members := [];
      nextProjectId := 0;
      nextMemberId := 0;
    }

    /**
     * `save`: stores a new project with the given fields in the given work
     * group, which must exist.
     */
    method Save(title: string, description: string, startDate: Option<Instant>, endDate: Option<Instant>,
                workGroupId: Id) returns (r: Result<Id, ServiceError>)
      requires Valid()
      modifies this
      ensures Valid()
      ensures workGroups == old(workGroups) && users == old(users) && members == old(members)
      ensures r.Err? <==> workGroupId !in workGroups
      ensures r.Err? ==> r.error == NotFound("WorkGroup not found") && projects == old(projects)
      ensures r.Ok? ==>
        r.value !in old(projects) &&
        projects == old(projects)[r.value := Project(title, description, startDate, endDate, workGroupId)]
    {
      if workGroupId !in workGroups {
        return Err(NotFound("WorkGroup not found"));
      }
      var id := nextProjectId;
      projects := projects[id := Project(title, description, startDate, endDate, workGroupId)];
      nextProjectId := nextProjectId + 1;
      r := Ok(id);
    }

    /**
     * `findAllByWorkGroupId`: the projects of one existing work group, keyed
     * by id.
     */
    function FindAllByWorkGroupId(workGroupId: Id): (r: Result<map<Id, Project>, ServiceError>)
      reads this
      ensures r.Err? <==> workGroupId !in workGroups
      ensures r.Err? ==> r.error == NotFound("WorkGroup no encontrado con id: ")
      ensures r.Ok? ==>
        (forall id :: id in r.value <==> id in projects && projects[id].workGroup == workGroupId) &&
        (forall id :: id in r.value ==> r.value[id] == projects[id])
    {
      if workGroupId !in workGroups then Err(NotFound("WorkGroup no encontrado con id: "))
      else Ok(map id | id in projects && projects[id].workGroup == workGroupId :: projects[id])
    }

    /**
     * `assignUserToProject`: makes an existing user a member of an existing
     * project, once.
     */
    method AssignUserToProject(projectId: Id, login: Login, now: Instant) returns (r: Result<ProjectMember, ServiceError>)
      requires Valid()
      modifies this
      ensures Valid()
      ensures workGroups == old(workGroups) && users == old(users) && projects == old(projects)
      ensures projectId !in projects ==> r == Err(NotFound("Proyecto no encontrado"))
      ensures projectId in projects && login !in users ==> r == Err(NotFound("Usuario no encontrado"))
      ensures projectId in projects && login in users && IsProjectMember(old(members), projectId, login) ==>
        r == Err(Runtime("El usuario ya está asignado a este proyecto"))
      ensures r.Ok? <==>
        projectId in projects && login in users && !IsProjectMember(old(members), projectId, login)
      ensures r.Ok? ==>
        r.value.project == projectId && r.value.login == login && r.value.assignedAt == now &&
        members == old(members) + [r.value]
      ensures r.Err? ==> members == old(members)
    {
      if projectId !in projects {
        return Err(NotFound("Proyecto no encontrado"));
      }
      if login !in users {
        return Err(NotFound("Usuario no encontrado"));
      }
      if IsProjectMember(members, projectId, login) {
        return Err(Runtime("El usuario ya está asignado a este proyecto"));
      }
      var m := ProjectMember(nextMemberId, projectId, login, now);
      AppendKeepsUniquePairs(members, m);
      members := members + [m];
      nextMemberId := nextMemberId + 1;
      r := Ok(m);
    }
  }
}
