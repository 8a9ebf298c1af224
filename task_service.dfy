/**
 * The task service: creating and deleting tasks in a project, editing them,
 * assigning users, commenting, changing priority and status, and archiving.
 * An archived task is frozen: every edit is refused until it is unarchived.
 */
module TaskServices {
  import opened Common
  import opened Memberships
  import opened Tasks
  import opened ProjectServices
  import opened PriorityServices
  import opened TaskStatusCatalogServices

  /**
   * `validateAdminOrGroupOwnerOrModerator(workGroupId)`: an administrator
   * passes; otherwise the caller must be logged in and OWNER or MODERADOR of
   * that group.
   */
  function GroupPermission(rows: seq<Membership>, group: Id, caller: Caller): (r: Outcome<ServiceError>)
    ensures r.Pass? <==> CheckGroupRole(rows, group, caller, OwnerOrModerator) == Granted
    ensures CheckGroupRole(rows, group, caller, OwnerOrModerator) == NoLogin ==>
      r == Fail(AccessDenied("User not authenticated"))
    ensures CheckGroupRole(rows, group, caller, OwnerOrModerator) == Denied ==>
      r == Fail(AccessDenied("Insufficient privileges"))
  {
    match CheckGroupRole(rows, group, caller, OwnerOrModerator)
    case Granted => Pass
    case NoLogin => Fail(AccessDenied("User not authenticated"))
    case Denied => Fail(AccessDenied("Insufficient privileges"))
  }

  /** `validateTaskNotArchived`: an archived task may not be modified. */
  function ValidateTaskNotArchived(t: Task): (r: Outcome<ServiceError>)
    reads t
    ensures r.Pass? <==> !t.archived
    ensures r.Fail? ==> r.error == IllegalState("Cannot modify an archived task")
  {
    if t.archived then Fail(IllegalState("Cannot modify an archived task")) else Pass
  }

  /** Whether one of the assignments is for `login`. */
  predicate HasAssignee(assignments: seq<TaskAssignment>, login: Login) {
    exists i :: 0 <= i < |assignments| && assignments[i].user == login
  }

  /** No user is assigned twice to the same task. */
  predicate UniqueAssignees(assignments: seq<TaskAssignment>) {
    forall i, j :: 0 <= i < j < |assignments| ==> assignments[i].user != assignments[j].user
  }

  /** The position of the assignment for `login`, if any. */
  function AssigneeIndex(assignments: seq<TaskAssignment>, login: Login): (r: Option<nat>)
    ensures r.Some? ==> r.value < |assignments| && assignments[r.value].user == login
    ensures r.None? <==> !HasAssignee(assignments, login)
  {
    FirstIndex(assignments, (a: TaskAssignment) => a.user == login)
  }

  /** Appending an assignment for a user not yet assigned keeps the users unique. */
  lemma AppendKeepsUniqueAssignees(assignments: seq<TaskAssignment>, a: TaskAssignment)
    requires UniqueAssignees(assignments)
    requires !HasAssignee(assignments, a.user)
    ensures UniqueAssignees(assignments + [a])
  {
    var r := assignments + [a];
    forall i, j | 0 <= i < j < |r| ensures r[i].user != r[j].user {
      if j == |assignments| {
        assert r[i] == assignments[i];
      }
    }
  }

  /**
   * Removing the assignment of a user from a duplicate-free list removes
   * every assignment of that user and keeps the others unique.
   */
  lemma RemoveAssigneeLeavesNone(assignments: seq<TaskAssignment>, k: nat)
    requires UniqueAssignees(assignments) && k < |assignments|
    ensures !HasAssignee(assignments[..k] + assignments[k + 1..], assignments[k].user)
    ensures UniqueAssignees(assignments[..k] + assignments[k + 1..])
    ensures |assignments[..k] + assignments[k + 1..]| == |assignments| - 1
  {
    var r := assignments[..k] + assignments[k + 1..];
    forall i | 0 <= i < |r| ensures r[i].user != assignments[k].user {
      if i < k {
        assert r[i] == assignments[i];
      } else {
        assert r[i] == assignments[i + 1];
      }
    }
    forall i, j | 0 <= i < j < |r| ensures r[i].user != r[j].user {
      var i' := if i < k then i else i + 1;
      var j' := if j < k then j else j + 1;
      assert r[i] == assignments[i'] && r[j] == assignments[j'];
    }
  }

  /** The state of a task once archived at `now`. */
  function Archived(s: TaskState, now: Instant): (r: TaskState)
    ensures r.archived && r.archivedDate == Some(now)
    ensures r.(archived := s.archived, archivedDate := s.archivedDate) == s
  {
    s.(archived := true, archivedDate := Some(now))
  }

  /** The state of a task once unarchived. */
  function Unarchived(s: TaskState): (r: TaskState)
    ensures !r.archived && r.archivedDate.None?
    ensures r.(archived := s.archived, archivedDate := s.archivedDate) == s
  {
    s.(archived := false, archivedDate := None)
  }

  /** Unarchiving undoes archiving for a task that was never archived. */
  lemma ArchiveRoundTrip(s: TaskState, now: Instant)
    requires !s.archived && s.archivedDate.None?
    ensures Unarchived(Archived(s, now)) == s
    ensures Archived(Unarchived(Archived(s, now)), now) == Archived(s, now)
  {
  }

  /**
   * The entity `createTaskForProject` builds: the given fields, the project
   * and its work group, not archived, created and updated now.
   */
  method NewProjectTask(id: Id, title: string, description: string, deadline: Option<Instant>, group: Id,
                        projectId: Id, priority: Id, status: Id, now: Instant) returns (task: Task)
    ensures fresh(task)
    ensures task.id == Some(id) && task.title == title && task.description == description
    ensures task.createTime == now && task.updateTime == now && task.deadline == deadline
    ensures !task.archived && task.archivedDate.None?
    ensures task.workGroup == Some(group) && task.parentProject == Some(projectId)
    ensures task.priority == Some(priority) && task.status == Some(status)
    ensures task.comments == [] && task.taskAssignments == []
  {
    task := new Task(now);
    task.title := title;
    task.description := description;
    task.deadline := deadline;
    task.archived := false;
    task.updateTime := now;
    task.workGroup := Some(group);
    task.parentProject := Some(projectId);
    task.priority := Some(priority);
    task.status := Some(status);
    task.id := Some(id);
  }

  const TaskNotFound := NotFound("Task not found with id: ")
  const ArchivedTaskNotFound := NotFound("Archived task not found with id: ")
  const UserLoginNotFound := NotFound("User not found with login: ")
  const ProjectNotFound := BadRequest("idnotfound")
  const NotGroupMember := IllegalState("User does not belong to the task's work group")
  const AlreadyAssigned := IllegalState("User is already assigned to this task")

  /**
   * The ids of the statuses called `name`: the rows
   * `TaskStatusCatalogRepository.findByName` matches. The query is declared to
   * return at most one entity, so Spring Data throws when it matches several.
   */
  function StatusesNamed(statuses: map<Id, TaskStatus>, name: string): set<Id> {
    set s | s in statuses && statuses[s].name == name
  }

  /** A set with one element is that element's singleton. */
  lemma OnlyElement(s: set<Id>, x: Id)
    requires |s| == 1 && x in s
    ensures s == {x}
  {
    assert |s - {x}| == 0;
  }

  class TaskService {
    /** The task repository; comments and assignments live in each task's lists. */
    var tasks: map<Id, Task>
    /** The project repository. */
    var projects: map<Id, Project>
    /** The priority repository. */
    var priorities: map<Id, Priority>
    /** The status catalogue. */
    var statuses: map<Id, TaskStatus>
    /** A read-only view of the membership repository. */
    var memberships: seq<Membership>
    /** The logins of the user repository. */
    var users: set<Login>
    var nextTaskId: Id
    var nextAssignmentId: Id
    var nextCommentId: Id

    /**
     * Every stored task carries its own key as id, references an existing
     * priority and status and a work group, is archived exactly when it has
     * an archive date, and has no user assigned twice.
     */
    ghost predicate Valid()
      reads this, tasks.Values
    {
      forall id :: id in tasks ==> StoredState(id, tasks[id].State())
    }

    /** The part of `Valid` about the task stored under `id`, given its state. */
    ghost predicate StoredState(id: Id, t: TaskState)
      reads this
    {
      t.id == Some(id) && id < nextTaskId &&
      t.workGroup.Some? &&
      t.priority.Some? && t.priority.value in priorities &&
      t.status.Some? && t.status.value in statuses &&
      (t.archived <==> t.archivedDate.Some?) &&
      UniqueAssignees(t.taskAssignments)
    }

    /** The only task object an operation on `taskId` may change. */
    function TaskFrame(taskId: Id): set<object>
      reads this
    {
      if taskId in tasks then {tasks[taskId]} else {}
    }

    constructor (projects: map<Id, Project>, priorities: map<Id, Priority>, statuses: map<Id, TaskStatus>,
                 memberships: seq<Membership>, users: set<Login>)
      ensures Valid() && tasks == map[]
      ensures this.projects == projects && this.priorities == priorities && this.statuses == statuses
      ensures this.memberships == memberships && this.users == users
    {
      tasks := map[];
      this.projects := projects;
      this.priorities := priorities;
      this.statuses := statuses;
      this.memberships := memberships;
      this.users := users;
      nextTaskId := 0;
      nextAssignmentId := 0;
      nextCommentId := 0;
    }

    /** Changing one task's fields, keeping the invariant for it, keeps `Valid`. */
    twostate lemma OneTaskChanged(taskId: Id)
      requires old(Valid()) && taskId in old(tasks)
      requires tasks == old(tasks) && priorities == old(priorities) && statuses == old(statuses)
      requires nextTaskId == old(nextTaskId)
      requires forall id :: id in tasks && id != taskId ==> unchanged(tasks[id])
      requires StoredState(taskId, tasks[taskId].State())
      ensures Valid()
    {
      forall id | id in tasks
        ensures StoredState(id, tasks[id].State())
      {
        if id != taskId {
          assert old(StoredState(id, tasks[id].State()));
        }
      }
    }

    /** Distinct keys hold distinct task objects, since each task carries its own key. */
    lemma OtherTasksDistinct(taskId: Id)
      requires Valid() && taskId in tasks
      ensures forall id :: id in tasks && id != taskId ==> tasks[id] != tasks[taskId]
    {
    }

    /** Storing a new task that satisfies the invariant under a fresh key keeps `Valid`. */
    twostate lemma TaskAdded(taskId: Id, new t: Task)
      requires old(Valid()) && taskId !in old(tasks)
      requires tasks == old(tasks)[taskId := t] && priorities == old(priorities) && statuses == old(statuses)
      requires old(nextTaskId) <= nextTaskId && taskId < nextTaskId
      requires forall id :: id in old(tasks) ==> unchanged(old(tasks)[id])
      requires t.id == Some(taskId) && t.workGroup.Some?
      requires t.priority.Some? && t.priority.value in priorities
      requires t.status.Some? && t.status.value in statuses
      requires !t.archived && t.archivedDate.None? && t.taskAssignments == []
      ensures Valid()
    {
      forall id | id in tasks
        ensures StoredState(id, tasks[id].State())
      {
        if id != taskId {
          assert unchanged(old(tasks)[id]);
          assert old(StoredState(id, tasks[id].State()));
        }
      }
    }

    /**
     * `update`: replaces title, description and deadline of a task that is
     * not archived and stamps its update time. There is no permission check.
     */
    method Update(id: Id, title: string, description: string, deadline: Option<Instant>, now: Instant)
      returns (r: Outcome<ServiceError>)
      requires Valid()
      modifies TaskFrame(id)
      ensures Valid()
      ensures id !in tasks ==> r == Fail(TaskNotFound)
      ensures id in tasks && old(tasks[id].archived) ==> r == Fail(IllegalState("Cannot update an archived task"))
      ensures r.Pass? <==> id in tasks && !old(tasks[id].archived)
      ensures r.Pass? ==>
        tasks[id].State() ==
        old(tasks[id].State()).(title := title, description := description, deadline := deadline, updateTime := now)
      ensures r.Fail? && id in tasks ==> tasks[id].State() == old(tasks[id].State())
    {
      if id !in tasks {
        return Fail(TaskNotFound);
      }
      var task := tasks[id];
      if task.archived {
        return Fail(IllegalState("Cannot update an archived task"));
      }
      OtherTasksDistinct(id);
      task.title := title;
      task.description := description;
      task.deadline := deadline;
      task.updateTime := now;
      OneTaskChanged(id);
      r := Pass;
    }

    /**
     * `createTaskForProject`: a new, unarchived task in the project's work
     * group with the default priority NORMAL and status NOT_STARTED.
     */
    method CreateTaskForProject(caller: Caller, projectId: Id, title: string, description: string,
                                deadline: Option<Instant>, now: Instant) returns (r: Result<Id, ServiceError>)
      requires Valid()
      modifies this
      ensures Valid()
      ensures projects == old(projects) && priorities == old(priorities) && statuses == old(statuses)
      ensures memberships == old(memberships) && users == old(users)
      ensures projectId !in projects ==> r == Err(ProjectNotFound)
      ensures projectId in projects && GroupPermission(memberships, projects[projectId].workGroup, caller).Fail? ==>
        r == Err(GroupPermission(memberships, projects[projectId].workGroup, caller).error)
      ensures (projectId in projects && GroupPermission(memberships, projects[projectId].workGroup, caller).Pass? &&
        (forall p :: p in priorities ==> priorities[p].name != "NORMAL")) ==>
        r == Err(IllegalState("Default priority not configured"))
      ensures r.Ok? <==>
        projectId in projects && GroupPermission(memberships, projects[projectId].workGroup, caller).Pass? &&
        (exists p :: p in priorities && priorities[p].name == "NORMAL") &&
        |StatusesNamed(statuses, "NOT_STARTED")| == 1
      ensures (projectId in projects && GroupPermission(memberships, projects[projectId].workGroup, caller).Pass? &&
        (exists p :: p in priorities && priorities[p].name == "NORMAL")) ==>
        (|StatusesNamed(statuses, "NOT_STARTED")| == 0 ==> r == Err(IllegalState("Default status not configured"))) &&
        (|StatusesNamed(statuses, "NOT_STARTED")| > 1 ==> r == Err(IncorrectResultSize))
      ensures r.Ok? ==>
        r.value !in old(tasks) && tasks.Keys == old(tasks).Keys + {r.value} &&
        (forall id :: id in old(tasks) ==> tasks[id] == old(tasks)[id]) &&
        fresh(tasks[r.value])
      ensures r.Ok? ==>
        var t := tasks[r.value];
        t.id == Some(r.value) && t.title == title && t.description == description && t.deadline == deadline &&
        !t.archived && t.archivedDate.None? && t.createTime == now && t.updateTime == now &&
        t.workGroup == Some(projects[projectId].workGroup) && t.parentProject == Some(projectId) &&
        t.priority.Some? && t.priority.value in priorities && priorities[t.priority.value].name == "NORMAL" &&
        t.status.Some? && StatusesNamed(statuses, "NOT_STARTED") == {t.status.value} &&
        t.comments == [] && t.taskAssignments == []
      ensures r.Err? ==> tasks == old(tasks)
    {
      if projectId !in projects {
        return Err(ProjectNotFound);
      }
      var project := projects[projectId];
      var permission := GroupPermission(memberships, project.workGroup, caller);
      if permission.Fail? {
        return Err(permission.error);
      }
      if !exists p :: p in priorities && priorities[p].name == "NORMAL" {
        return Err(IllegalState("Default priority not configured"));
      }
      var priority :| priority in priorities && priorities[priority].name == "NORMAL";
      var named := StatusesNamed(statuses, "NOT_STARTED");
      if |named| == 0 {
        return Err(IllegalState("Default status not configured"));
      }
      if |named| > 1 {
        return Err(IncorrectResultSize);
      }
      var status :| status in named;
      OnlyElement(named, status);
      var id := nextTaskId;
      var task := NewProjectTask(id, title, description, deadline, project.workGroup, projectId, priority, status, now);
      Store(task);
      r := Ok(id);
    }

    /** Saves a new task under the next free key. */
    method Store(t: Task)
      requires Valid() && t.id == Some(nextTaskId) && t.workGroup.Some?
      requires t.priority.Some? && t.priority.value in priorities
      requires t.status.Some? && t.status.value in statuses
      requires !t.archived && t.archivedDate.None? && t.taskAssignments == []
      modifies this
      ensures Valid()
      ensures old(nextTaskId) !in old(tasks) && tasks == old(tasks)[old(nextTaskId) := t]
      ensures nextTaskId == old(nextTaskId) + 1 && nextAssignmentId == old(nextAssignmentId)
      ensures nextCommentId == old(nextCommentId)
      ensures projects == old(projects) && priorities == old(priorities) && statuses == old(statuses)
      ensures memberships == old(memberships) && users == old(users)
    {
      var id := nextTaskId;
      tasks := tasks[id := t];
      nextTaskId := nextTaskId + 1;
      TaskAdded(id, t);
    }

    /**
     * `deleteTaskFromProject`: removes a task, with its comments and
     * assignments, when it belongs to the project and is not archived.
     */
    method DeleteTaskFromProject(caller: Caller, projectId: Id, taskId: Id) returns (r: Outcome<ServiceError>)
      requires Valid()
      modifies this
      ensures Valid()
      ensures projects == old(projects) && priorities == old(priorities) && statuses == old(statuses)
      ensures memberships == old(memberships) && users == old(users)
      ensures projectId !in projects ==> r == Fail(ProjectNotFound)
      ensures projectId in projects && GroupPermission(memberships, projects[projectId].workGroup, caller).Fail? ==>
        r == GroupPermission(memberships, projects[projectId].workGroup, caller)
      ensures (projectId in projects && GroupPermission(memberships, projects[projectId].workGroup, caller).Pass? &&
        taskId !in old(tasks)) ==> r == Fail(TaskNotFound)
      ensures r == Fail(BadRequest("invalid.task")) <==>
        projectId in projects && GroupPermission(memberships, projects[projectId].workGroup, caller).Pass? &&
        taskId in old(tasks) && old(tasks[taskId].parentProject) != Some(projectId)
      ensures r == Fail(BadRequest("archived.task")) <==>
        projectId in projects && GroupPermission(memberships, projects[projectId].workGroup, caller).Pass? &&
        taskId in old(tasks) && old(tasks[taskId].parentProject) == Some(projectId) && old(tasks[taskId].archived)
      ensures r.Pass? <==>
        projectId in projects && GroupPermission(memberships, projects[projectId].workGroup, caller).Pass? &&
        taskId in old(tasks) && old(tasks[taskId].parentProject) == Some(projectId) && !old(tasks[taskId].archived)
      ensures r.Pass? ==> tasks == old(tasks) - {taskId}
      ensures r.Fail? ==> tasks == old(tasks)
    {
      if projectId !in projects {
        return Fail(ProjectNotFound);
      }
      r := GroupPermission(memberships, projects[projectId].workGroup, caller);
      if r.Fail? {
        return;
      }
      if taskId !in tasks {
        return Fail(TaskNotFound);
      }
      var task := tasks[taskId];
      if task.parentProject != Some(projectId) {
        return Fail(BadRequest("invalid.task"));
      }
      if task.archived {
        return Fail(BadRequest("archived.task"));
      }
      tasks := tasks - {taskId};
    }

    /**
     * `assignTask`: assigns a member of the task's work group to a task that
     * is not archived, unless already assigned.
     */
    method AssignTask(caller: Caller, taskId: Id, login: Login, now: Instant) returns (r: Outcome<ServiceError>)
      requires Valid()
      modifies this, TaskFrame(taskId)
      ensures Valid()
      ensures tasks == old(tasks) && projects == old(projects) && priorities == old(priorities)
      ensures statuses == old(statuses) && memberships == old(memberships) && users == old(users)
      ensures taskId !in tasks ==> r == Fail(TaskNotFound)
      ensures taskId in tasks && old(tasks[taskId].archived) ==> r == Fail(IllegalState("Cannot modify an archived task"))
      ensures (taskId in tasks && !old(tasks[taskId].archived) &&
        GroupPermission(memberships, tasks[taskId].workGroup.value, caller).Fail?) ==>
        r == GroupPermission(memberships, tasks[taskId].workGroup.value, caller)
      ensures (taskId in tasks && !old(tasks[taskId].archived) &&
        GroupPermission(memberships, tasks[taskId].workGroup.value, caller).Pass? && login !in users) ==>
        r == Fail(UserLoginNotFound)
      ensures r == Fail(NotGroupMember) <==>
        taskId in tasks && !old(tasks[taskId].archived) &&
        GroupPermission(memberships, tasks[taskId].workGroup.value, caller).Pass? &&
        login in users && !IsMember(memberships, tasks[taskId].workGroup.value, login)
      ensures r == Fail(AlreadyAssigned) <==>
        taskId in tasks && !old(tasks[taskId].archived) &&
        GroupPermission(memberships, tasks[taskId].workGroup.value, caller).Pass? &&
        login in users && IsMember(memberships, tasks[taskId].workGroup.value, login) &&
        HasAssignee(old(tasks[taskId].taskAssignments), login)
      ensures r.Pass? <==>
        taskId in tasks && !old(tasks[taskId].archived) &&
        GroupPermission(memberships, tasks[taskId].workGroup.value, caller).Pass? &&
        login in users && IsMember(memberships, tasks[taskId].workGroup.value, login) &&
        !HasAssignee(old(tasks[taskId].taskAssignments), login)
      ensures r.Pass? ==>
        var t := tasks[taskId];
        |t.taskAssignments| == |old(t.taskAssignments)| + 1 &&
        t.taskAssignments == old(t.taskAssignments) + [t.taskAssignments[|old(t.taskAssignments)|]] &&
        t.State() == old(t.State()).(taskAssignments := t.taskAssignments)
      ensures r.Pass? ==>
        var a := tasks[taskId].taskAssignments[|old(tasks[taskId].taskAssignments)|];
        fresh(a) && a.user == login && a.assignedAt == now && a.task == tasks[taskId]
      ensures r.Fail? && taskId in tasks ==> tasks[taskId].State() == old(tasks[taskId].State())
    {
      if taskId !in tasks {
        return Fail(TaskNotFound);
      }
      var task := tasks[taskId];
      r := ValidateTaskNotArchived(task);
      if r.Fail? {
        return;
      }
      var group := task.workGroup.value;
      r := GroupPermission(memberships, group, caller);
      if r.Fail? {
        return;
      }
      if login !in users {
        return Fail(UserLoginNotFound);
      }
      assert |NotGroupMember.message| == 45 && |AlreadyAssigned.message| == 37;
      if !IsMember(memberships, group, login) {
        return Fail(NotGroupMember);
      }
      if AssigneeIndex(task.taskAssignments, login).Some? {
        return Fail(AlreadyAssigned);
      }
      var assignment := new TaskAssignment(Some(nextAssignmentId), login, now);
      AppendKeepsUniqueAssignees(task.taskAssignments, assignment);
      task.AddTaskAssignment(assignment);
      nextAssignmentId := nextAssignmentId + 1;
      OneTaskChanged(taskId);
      r := Pass;
    }

    /**
     * `unassignTask`: removes the assignment of a user from a task that is not
     * archived; the assignment must exist.
     */
    method UnassignTask(caller: Caller, taskId: Id, login: Login) returns (r: Outcome<ServiceError>)
      requires Valid()
      modifies TaskFrame(taskId)
      ensures Valid()
      ensures taskId !in tasks ==> r == Fail(TaskNotFound)
      ensures taskId in tasks && old(tasks[taskId].archived) ==> r == Fail(IllegalState("Cannot modify an archived task"))
      ensures (taskId in tasks && !old(tasks[taskId].archived) &&
        GroupPermission(memberships, tasks[taskId].workGroup.value, caller).Fail?) ==>
        r == GroupPermission(memberships, tasks[taskId].workGroup.value, caller)
      ensures (taskId in tasks && !old(tasks[taskId].archived) &&
        GroupPermission(memberships, tasks[taskId].workGroup.value, caller).Pass? && login !in users) ==>
        r == Fail(UserLoginNotFound)
      ensures r == Fail(NotFound("Assignment not found")) <==>
        taskId in tasks && !old(tasks[taskId].archived) &&
        GroupPermission(memberships, tasks[taskId].workGroup.value, caller).Pass? &&
        login in users && !HasAssignee(old(tasks[taskId].taskAssignments), login)
      ensures r.Pass? <==>
        taskId in tasks && !old(tasks[taskId].archived) &&
        GroupPermission(memberships, tasks[taskId].workGroup.value, caller).Pass? &&
        login in users && HasAssignee(old(tasks[taskId].taskAssignments), login)
      ensures r.Pass? ==>
        var t := tasks[taskId];
        var k := AssigneeIndex(old(t.taskAssignments), login).value;
        t.taskAssignments == old(t.taskAssignments)[..k] + old(t.taskAssignments)[k + 1..] &&
        !HasAssignee(t.taskAssignments, login) &&
        t.State() == old(t.State()).(taskAssignments := t.taskAssignments)
      ensures r.Fail? && taskId in tasks ==> tasks[taskId].State() == old(tasks[taskId].State())
    {
      if taskId !in tasks {
        return Fail(TaskNotFound);
      }
      var task := tasks[taskId];
      r := ValidateTaskNotArchived(task);
      if r.Fail? {
        return;
      }
      r := GroupPermission(memberships, task.workGroup.value, caller);
      if r.Fail? {
        return;
      }
      if login !in users {
        return Fail(UserLoginNotFound);
      }
      var index := AssigneeIndex(task.taskAssignments, login);
      if index.None? {
        return Fail(NotFound("Assignment not found"));
      }
      var k := index.value;
      RemoveAssigneeLeavesNone(task.taskAssignments, k);
      task.taskAssignments := task.taskAssignments[..k] + task.taskAssignments[k + 1..];
      OneTaskChanged(taskId);
      r := Pass;
    }

    /**
     * `addCommentToTask`: the logged-in user comments on a task that is not
     * archived. Group membership is not checked.
     */
    method AddCommentToTask(caller: Caller, taskId: Id, content: string, now: Instant)
      returns (r: Result<Comment, ServiceError>)
      requires Valid()
      modifies this, TaskFrame(taskId)
      ensures Valid()
      ensures tasks == old(tasks) && projects == old(projects) && priorities == old(priorities)
      ensures statuses == old(statuses) && memberships == old(memberships) && users == old(users)
      ensures taskId !in tasks ==> r == Err(TaskNotFound)
      ensures taskId in tasks && old(tasks[taskId].archived) ==> r == Err(IllegalState("Cannot modify an archived task"))
      ensures taskId in tasks && !old(tasks[taskId].archived) && caller.login.None? ==>
        r == Err(AccessDenied("User not authenticated"))
      ensures (taskId in tasks && !old(tasks[taskId].archived) && caller.login.Some? && caller.login.value !in users) ==>
        r == Err(UserLoginNotFound)
      ensures r.Ok? <==>
        taskId in tasks && !old(tasks[taskId].archived) && caller.login.Some? && caller.login.value in users
      ensures r.Ok? ==>
        var t := tasks[taskId];
        fresh(r.value) && r.value.content == content && r.value.author == caller.login.value &&
        r.value.createTime == now && r.value.task == t &&
        t.State() == old(t.State()).(comments := old(t.comments) + [r.value])
      ensures r.Err? && taskId in tasks ==> tasks[taskId].State() == old(tasks[taskId].State())
    {
      if taskId !in tasks {
        return Err(TaskNotFound);
      }
      var task := tasks[taskId];
      var check := ValidateTaskNotArchived(task);
      if check.Fail? {
        return Err(check.error);
      }
      if caller.login.None? {
        return Err(AccessDenied("User not authenticated"));
      }
      var login := caller.login.value;
      if login !in users {
        return Err(UserLoginNotFound);
      }
      var comment := new Comment(Some(nextCommentId), content, login, now);
      task.AddComment(comment);
      nextCommentId := nextCommentId + 1;
      OneTaskChanged(taskId);
      r := Ok(comment);
    }

    /**
     * `changePriority`: gives a task that is not archived the priority with
     * the given name and stamps its update time.
     */
    method ChangePriority(caller: Caller, taskId: Id, priorityName: string, now: Instant) returns (r: Outcome<ServiceError>)
      requires Valid()
      modifies TaskFrame(taskId)
      ensures Valid()
      ensures taskId !in tasks ==> r == Fail(TaskNotFound)
      ensures taskId in tasks && old(tasks[taskId].archived) ==> r == Fail(IllegalState("Cannot modify an archived task"))
      ensures (taskId in tasks && !old(tasks[taskId].archived) &&
        GroupPermission(memberships, tasks[taskId].workGroup.value, caller).Fail?) ==>
        r == GroupPermission(memberships, tasks[taskId].workGroup.value, caller)
      ensures r.Pass? <==>
        taskId in tasks && !old(tasks[taskId].archived) &&
        GroupPermission(memberships, tasks[taskId].workGroup.value, caller).Pass? &&
        exists p :: p in priorities && priorities[p].name == priorityName
      ensures r.Pass? ==>
        var t := tasks[taskId];
        t.priority.Some? && t.priority.value in priorities && priorities[t.priority.value].name == priorityName &&
        t.State() == old(t.State()).(priority := t.priority, updateTime := now)
      ensures r.Fail? && taskId in tasks ==> tasks[taskId].State() == old(tasks[taskId].State())
      ensures (r.Fail? && taskId in tasks && !old(tasks[taskId].archived) &&
        GroupPermission(memberships, tasks[taskId].workGroup.value, caller).Pass?) ==>
        r == Fail(NotFound("Priority not found: "))
    {
      if taskId !in tasks {
        return Fail(TaskNotFound);
      }
      var task := tasks[taskId];
      r := ValidateTaskNotArchived(task);
      if r.Fail? {
        return;
      }
      r := GroupPermission(memberships, task.workGroup.value, caller);
      if r.Fail? {
        return;
      }
      if !exists p :: p in priorities && priorities[p].name == priorityName {
        return Fail(NotFound("Priority not found: "));
      }
      var priority :| priority in priorities && priorities[priority].name == priorityName;
      task.priority := Some(priority);
      task.updateTime := now;
      OneTaskChanged(taskId);
    }

    /**
     * `changeStatus`: gives a task that is not archived the status with the
     * given name and stamps its update time.
     */
    method ChangeStatus(caller: Caller, taskId: Id, statusName: string, now: Instant) returns (r: Outcome<ServiceError>)
      requires Valid()
      modifies TaskFrame(taskId)
      ensures Valid()
      ensures taskId !in tasks ==> r == Fail(TaskNotFound)
      ensures taskId in tasks && old(tasks[taskId].archived) ==> r == Fail(IllegalState("Cannot modify an archived task"))
      ensures (taskId in tasks && !old(tasks[taskId].archived) &&
        GroupPermission(memberships, tasks[taskId].workGroup.value, caller).Fail?) ==>
        r == GroupPermission(memberships, tasks[taskId].workGroup.value, caller)
      ensures r.Pass? <==>
        taskId in tasks && !old(tasks[taskId].archived) &&
        GroupPermission(memberships, tasks[taskId].workGroup.value, caller).Pass? &&
        |StatusesNamed(statuses, statusName)| == 1
      ensures r.Pass? ==>
        var t := tasks[taskId];
        t.status.Some? && StatusesNamed(statuses, statusName) == {t.status.value} &&
        t.State() == old(t.State()).(status := t.status, updateTime := now)
      ensures r.Fail? && taskId in tasks ==> tasks[taskId].State() == old(tasks[taskId].State())
      ensures (r.Fail? && taskId in tasks && !old(tasks[taskId].archived) &&
        GroupPermission(memberships, tasks[taskId].workGroup.value, caller).Pass?) ==>
        r == if |StatusesNamed(statuses, statusName)| == 0 then Fail(NotFound("Status not found: "))
             else Fail(IncorrectResultSize)
    {
      if taskId !in tasks {
        return Fail(TaskNotFound);
      }
      var task := tasks[taskId];
      r := ValidateTaskNotArchived(task);
      if r.Fail? {
        return;
      }
      r := GroupPermission(memberships, task.workGroup.value, caller);
      if r.Fail? {
        return;
      }
      var named := StatusesNamed(statuses, statusName);
      if |named| == 0 {
        return Fail(NotFound("Status not found: "));
      }
      if |named| > 1 {
        return Fail(IncorrectResultSize);
      }
      var status :| status in named;
      OnlyElement(named, status);
      task.status := Some(status);
      task.updateTime := now;
      OneTaskChanged(taskId);
    }

    /**
     * `archiveTask`: archives a task whose status is DONE, dating the archive
     * now. An already archived task is archived again with the new date.
     */
    method ArchiveTask(caller: Caller, taskId: Id, now: Instant) returns (r: Outcome<ServiceError>)
      requires Valid()
      modifies TaskFrame(taskId)
      ensures Valid()
      ensures taskId !in tasks ==> r == Fail(TaskNotFound)
      ensures taskId in tasks && GroupPermission(memberships, tasks[taskId].workGroup.value, caller).Fail? ==>
        r == GroupPermission(memberships, tasks[taskId].workGroup.value, caller)
      ensures r == Fail(IllegalState("Only DONE tasks can be archived")) <==>
        taskId in tasks && GroupPermission(memberships, tasks[taskId].workGroup.value, caller).Pass? &&
        statuses[old(tasks[taskId].status).value].name != "DONE"
      ensures r.Pass? <==>
        taskId in tasks && GroupPermission(memberships, tasks[taskId].workGroup.value, caller).Pass? &&
        statuses[old(tasks[taskId].status).value].name == "DONE"
      ensures r.Pass? ==> tasks[taskId].State() == Archived(old(tasks[taskId].State()), now)
      ensures r.Fail? && taskId in tasks ==> tasks[taskId].State() == old(tasks[taskId].State())
    {
      if taskId !in tasks {
        return Fail(TaskNotFound);
      }
      var task := tasks[taskId];
      r := GroupPermission(memberships, task.workGroup.value, caller);
      if r.Fail? {
        return;
      }
      if statuses[task.status.value].name != "DONE" {
        return Fail(IllegalState("Only DONE tasks can be archived"));
      }
      task.archived := true;
      task.archivedDate := Some(now);
      OneTaskChanged(taskId);
    }

    /** `unarchiveTask`: unarchives an archived task and clears its archive date. */
    method UnarchiveTask(caller: Caller, taskId: Id) returns (r: Outcome<ServiceError>)
      requires Valid()
      modifies TaskFrame(taskId)
      ensures Valid()
      ensures !(taskId in tasks && old(tasks[taskId].archived)) ==> r == Fail(ArchivedTaskNotFound)
      ensures (taskId in tasks && old(tasks[taskId].archived) &&
        GroupPermission(memberships, tasks[taskId].workGroup.value, caller).Fail?) ==>
        r == GroupPermission(memberships, tasks[taskId].workGroup.value, caller)
      ensures r.Pass? <==>
        taskId in tasks && old(tasks[taskId].archived) &&
        GroupPermission(memberships, tasks[taskId].workGroup.value, caller).Pass?
      ensures r.Pass? ==> tasks[taskId].State() == Unarchived(old(tasks[taskId].State()))
      ensures r.Fail? && taskId in tasks ==> tasks[taskId].State() == old(tasks[taskId].State())
    {
      if taskId !in tasks || !tasks[taskId].archived {
        return Fail(ArchivedTaskNotFound);
      }
      var task := tasks[taskId];
      r := GroupPermission(memberships, task.workGroup.value, caller);
      if r.Fail? {
        return;
      }
      task.archived := false;
      task.archivedDate := None;
      OneTaskChanged(taskId);
    }

    /** `deleteArchivedTask`: removes a task only if it is archived. */
    method DeleteArchivedTask(caller: Caller, taskId: Id) returns (r: Outcome<ServiceError>)
      requires Valid()
      modifies this
      ensures Valid()
      ensures projects == old(projects) && priorities == old(priorities) && statuses == old(statuses)
      ensures memberships == old(memberships) && users == old(users)
      ensures !(taskId in old(tasks) && old(tasks[taskId].archived)) ==> r == Fail(ArchivedTaskNotFound)
      ensures (taskId in old(tasks) && old(tasks[taskId].archived) &&
        GroupPermission(memberships, old(tasks[taskId].workGroup).value, caller).Fail?) ==>
        r == GroupPermission(memberships, old(tasks[taskId].workGroup).value, caller)
      ensures r.Pass? <==>
        taskId in old(tasks) && old(tasks[taskId].archived) &&
        GroupPermission(memberships, old(tasks[taskId].workGroup).value, caller).Pass?
      ensures r.Pass? ==> tasks == old(tasks) - {taskId}
      ensures r.Fail? ==> tasks == old(tasks)
    {
      if taskId !in tasks || !tasks[taskId].archived {
        return Fail(ArchivedTaskNotFound);
      }
      r := GroupPermission(memberships, tasks[taskId].workGroup.value, caller);
      if r.Fail? {
        return;
      }
      tasks := tasks - {taskId};
    }
  }
}
