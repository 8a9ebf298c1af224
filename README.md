# TaskManager core in Dafny

A verified model of the core of TaskManager, a JHipster application. It has
two parts.

The Spring back end (`taskmanager`) manages these entities:

- work groups and their memberships, with the roles OWNER, MODERADOR and MIEMBRO;
- projects and their members;
- tasks with their comments and assignments;
- priorities;
- the catalogue of task statuses.

The React gateway (`gateway`) is modelled in these pieces:

- the role check that decides whether a user may manage work groups;
- the error helpers and the axios interceptor that turn failed HTTP calls into toast messages;
- the Redux notification middleware;
- form validation and the required-field checks.

Modules, one file each:

| file | module | form |
|---|---|---|
| common.dfy | `Common` | shared types: `Option`, `Result`, `Outcome`, the caller's identity, the service errors |
| memberships.dfy | `Memberships` | the membership table as a sequence of rows, its lookups (the repository queries), the group permission check and the invariant "one row per (group, user), exactly one OWNER per group" with the lemmas that keep it |
| work_group_service.dfy | `WorkGroupServices` | class `WorkGroupService` whose methods update groups and memberships |
| task.dfy | `Tasks` | classes `Task`, `Comment`, `TaskAssignment` with the bidirectional list helpers and `equals`/`hashCode` |
| task_service.dfy | `TaskServices` | class `TaskService` over a map of task objects |
| project_service.dfy | `ProjectServices` | class `ProjectService` |
| priority_service.dfy | `PriorityServices` | class `PriorityService` |
| task_status_catalog_service.dfy | `TaskStatusCatalogServices` | class `TaskStatusCatalogService` |
| role_utils.dfy | `RoleUtils` | pure functions |
| js_text.dfy | `JsText` | the JavaScript string operations the gateway uses (`\|\|`, `??`, `trim`, the index-collapsing and capitalising regular expressions, `length`) |
| error_utils.dfy | `ErrorUtils` | pure functions returning the toasts shown |
| axios_interceptor.dfy | `AxiosInterceptor` | pure functions returning the reaction to a failed response |
| notification_middleware.dfy | `NotificationMiddleware` | the field-error records the middleware rewrites in place (a class) and the middleware as a method returning its effects in order |
| form_validation.dfy | `FormValidation` | `validateForm` as a loop method proved against a function |
| api_utils.dfy | `ApiUtils` | `validateRequiredFields` as a loop method, the error handlers as functions |

Each service class holds its own copy of the repositories it reads. For
example, `TaskService` and `TaskStatusCatalogService` each have their own
membership table, and `TaskService` has its own project, priority and status
tables. These are snapshots: in the Java services they are shared Spring Data
repositories, so one service sees another's changes. Here no operation of one
service is seen by another.

Each service method returns `Pass`/`Ok` or the exception the Java code
throws, as a `ServiceError`. Its contract states exactly when it succeeds
(both directions), which exception each failed check throws, given that the
checks before it passed, and what the new state is. An error always leaves the
state as it was, which models the transaction rollback. Toasts, the console
log and the call to the next middleware are returned as values, in the
order they happen.

Points of behaviour the model keeps as the code has them:

- `removeMember` refuses the removal of a MODERADOR when the caller is a
  moderator. Only an administrator or the owner may remove one. No caller
  may remove themself.
- `leaveWorkGroup` lets an administrator take another user out of a group.
- `archiveTask` checks the caller's permission before it checks for the
  DONE status.
- Deleting a status with an unknown id succeeds without effect.
- The gateway has two versions of `showValidationErrors`. The model follows
  the one in `api-utils.ts`, which `FormValidation.tsx` imports and which
  adds the "Error de validación" context to each message.

## Model

| member | source | states |
|---|---|---|
| Memberships.HasRoleIn | taskmanager/src/main/java/com/dcmc/apps/taskmanager/repository/WorkGroupMembershipRepository.java:35-41 | true exactly when some membership row of that group and login carries one of the given roles |
| Memberships.HasRoleInAnyGroup | taskmanager/src/main/java/com/dcmc/apps/taskmanager/service/TaskStatusCatalogService.java:61-62 | true exactly when some row of that login, in any group, carries one of the given roles |
| Memberships.IndexOf | taskmanager/src/main/java/com/dcmc/apps/taskmanager/repository/WorkGroupMembershipRepository.java:26 | the row found belongs to that group and login; nothing is found exactly when no row does |
| Memberships.OwnerIndex | taskmanager/src/main/java/com/dcmc/apps/taskmanager/repository/WorkGroupMembershipRepository.java:28 | the row found is an OWNER row of the group; nothing is found exactly when the group has no OWNER row |
| Memberships.CheckGroupRole | taskmanager/src/main/java/com/dcmc/apps/taskmanager/service/WorkGroupService.java:53-75 | access is granted exactly to an administrator or a logged-in user holding one of the roles in the group; the missing-login outcome happens exactly for a non-admin without login |
| Memberships.OwnerCountPositive | taskmanager/src/main/java/com/dcmc/apps/taskmanager/service/WorkGroupService.java:187-191 | a group has a positive OWNER count exactly when it has an OWNER row |
| Memberships.TwoOwnerRows | taskmanager/src/main/java/com/dcmc/apps/taskmanager/service/WorkGroupService.java:187-191 | two distinct OWNER rows of a group make its OWNER count at least two |
| Memberships.SingleOwner | taskmanager/src/main/java/com/dcmc/apps/taskmanager/service/WorkGroupService.java:187-191 | when a group has exactly one OWNER row, the owner lookup finds it and it is the only one |
| Memberships.OwnerCountAppend | taskmanager/src/main/java/com/dcmc/apps/taskmanager/service/WorkGroupService.java:100-113 | appending a row adds one to the group's OWNER count exactly when the row is an OWNER row of that group |
| Memberships.OwnerCountUpdate | taskmanager/src/main/java/com/dcmc/apps/taskmanager/service/WorkGroupService.java:189-219 | replacing a row changes the OWNER count by what leaves and what enters |
| Memberships.OwnerCountRemove | taskmanager/src/main/java/com/dcmc/apps/taskmanager/service/WorkGroupService.java:311-332 | removing a row lowers the OWNER count by one exactly when it was an OWNER row |
| Memberships.OwnerCountNoRows | taskmanager/src/main/java/com/dcmc/apps/taskmanager/service/WorkGroupService.java:100-113 | a group without rows has no OWNER |
| Memberships.AppendKeepsWellFormed | taskmanager/src/main/java/com/dcmc/apps/taskmanager/service/WorkGroupService.java:284-294 | adding a non-owner row for a new (group, login) pair keeps one row per pair, rows only for known groups, and exactly one OWNER per group |
| Memberships.SetRoleKeepsWellFormed | taskmanager/src/main/java/com/dcmc/apps/taskmanager/service/WorkGroupService.java:236-273 | changing the role of a non-owner row to a non-owner role keeps the membership table well formed |
| Memberships.RemoveKeepsWellFormed | taskmanager/src/main/java/com/dcmc/apps/taskmanager/service/WorkGroupService.java:311-385 | deleting a non-owner row keeps the membership table well formed |
| Memberships.NewGroupKeepsWellFormed | taskmanager/src/main/java/com/dcmc/apps/taskmanager/service/WorkGroupService.java:93-117 | a new group together with its creator's OWNER row keeps the membership table well formed |
| WorkGroupServices.TransferKeepsWellFormed | taskmanager/src/main/java/com/dcmc/apps/taskmanager/service/WorkGroupService.java:189-219 | after a transfer the table stays well formed, the new owner is the group's only OWNER and the former owner is a MIEMBRO |
| WorkGroupServices.UserGroups | taskmanager/src/main/java/com/dcmc/apps/taskmanager/service/WorkGroupService.java:162-170 | lists exactly the groups the login belongs to, each with its name and the login's role |
| WorkGroupServices.GroupMembers | taskmanager/src/main/java/com/dcmc/apps/taskmanager/service/WorkGroupService.java:339-348 | lists exactly the members of the group, each with role and join date |
| WorkGroupServices.WorkGroupService.constructor | taskmanager/src/main/java/com/dcmc/apps/taskmanager/service/WorkGroupService.java:93-117 | a service over the given users with no groups and no memberships, invariant established |
| WorkGroupServices.WorkGroupService.Save | taskmanager/src/main/java/com/dcmc/apps/taskmanager/service/WorkGroupService.java:93-117 | fails without login or for an unknown user; otherwise adds a new group and makes its creator its OWNER; the invariant is kept |
| WorkGroupServices.WorkGroupService.TransferOwnership | taskmanager/src/main/java/com/dcmc/apps/taskmanager/service/WorkGroupService.java:173-225 | refuses, in this order, a caller without rights (NoSuchElement without login, access denied otherwise), an unknown group and an unknown user; succeeds exactly for an admin or the owner, an existing group and user, and a new owner who is not already the owner; then the membership table is the transferred one; every error leaves the table unchanged |
| WorkGroupServices.WorkGroupService.AddModerator | taskmanager/src/main/java/com/dcmc/apps/taskmanager/service/WorkGroupService.java:228-251 | succeeds exactly when a permitted caller promotes a MIEMBRO; the missing login, no privileges, unknown group and unknown user refusals come first, in that order; each later refusal (not a member, already moderator, is owner) happens exactly in its case; success sets that row to MODERADOR |
| WorkGroupServices.WorkGroupService.RemoveModerator | taskmanager/src/main/java/com/dcmc/apps/taskmanager/service/WorkGroupService.java:254-273 | succeeds exactly when an admin or the owner demotes a MODERADOR; the missing login, no privileges, unknown group and unknown user refusals come first; a non-member and OWNER or MIEMBRO targets are each refused exactly in their case; success sets that row to MIEMBRO |
| WorkGroupServices.WorkGroupService.AddMember | taskmanager/src/main/java/com/dcmc/apps/taskmanager/service/WorkGroupService.java:276-296 | succeeds exactly when a permitted caller adds an existing user who is not yet a member; the missing login, no privileges, unknown group and unknown user refusals come first; success appends a MIEMBRO row; an existing member is refused exactly in its case |
| WorkGroupServices.WorkGroupService.RemoveMember | taskmanager/src/main/java/com/dcmc/apps/taskmanager/service/WorkGroupService.java:299-334 | succeeds exactly for a MIEMBRO target, or a MODERADOR target removed by an admin or the owner, never oneself; after the missing login, no privileges, unknown group and unknown user refusals, a non-member, an OWNER target and oneself are each refused exactly in their case, a moderator removing a MODERADOR is denied, and an admin without login hits the NoSuchElement of line 327; success removes that row |
| WorkGroupServices.WorkGroupService.LeaveWorkGroup | taskmanager/src/main/java/com/dcmc/apps/taskmanager/service/WorkGroupService.java:362-385 | a logged-in user (or an admin on their behalf) leaves exactly when they are a MODERADOR or MIEMBRO of the group; an unknown group, a non-member and the OWNER are each refused in their case; success removes the row |
| WorkGroupServices.WorkGroupService.GetUserWorkGroups | taskmanager/src/main/java/com/dcmc/apps/taskmanager/service/WorkGroupService.java:351-359 | lists every group the user belongs to, with its name and the user's role there, and nothing else |
| WorkGroupServices.WorkGroupService.GetAllMembersWithRoles | taskmanager/src/main/java/com/dcmc/apps/taskmanager/service/WorkGroupService.java:339-348 | lists every member of the group with role and join date, and nothing else |
| Tasks.FirstIndex | taskmanager/src/main/java/com/dcmc/apps/taskmanager/domain/Task.java:261-265 | finds the first element satisfying the predicate, or reports that none does |
| Tasks.RemoveFirstRemovesOne | taskmanager/src/main/java/com/dcmc/apps/taskmanager/domain/Task.java:261-265 | list removal drops exactly the first equal element and keeps the others in order; without one the list is unchanged |
| Tasks.RemoveAt | taskmanager/src/main/java/com/dcmc/apps/taskmanager/domain/Task.java:261-265 | dropping position k keeps the elements before and shifts the ones after, and removes one occurrence of the dropped element |
| Tasks.Comment.constructor | taskmanager/src/main/java/com/dcmc/apps/taskmanager/domain/Comment.java:23-43 | a comment with the given id, content, author and creation time, attached to no task |
| Tasks.TaskAssignment.constructor | taskmanager/src/main/java/com/dcmc/apps/taskmanager/domain/TaskAssignment.java:23-36 | an assignment with the given id, user and time, attached to no task |
| Tasks.Task.constructor | taskmanager/src/main/java/com/dcmc/apps/taskmanager/domain/Task.java:26-76 | a new task: no id, not archived, creation time now, no deadline, no relations, empty comment and assignment lists |
| Tasks.Task.AddComment | taskmanager/src/main/java/com/dcmc/apps/taskmanager/domain/Task.java:255-259 | appends the comment and points it back at this task; nothing else changes |
| Tasks.Task.RemoveComment | taskmanager/src/main/java/com/dcmc/apps/taskmanager/domain/Task.java:261-265 | removes the first equal comment and detaches the given one; nothing else changes |
| Tasks.Task.SetComments | taskmanager/src/main/java/com/dcmc/apps/taskmanager/domain/Task.java:240-248 | detaches the old comments, attaches the new ones and replaces the list |
| Tasks.Task.AddTaskAssignment | taskmanager/src/main/java/com/dcmc/apps/taskmanager/domain/Task.java:286-290 | appends the assignment and points it back at this task; nothing else changes |
| Tasks.Task.RemoveTaskAssignment | taskmanager/src/main/java/com/dcmc/apps/taskmanager/domain/Task.java:292-296 | removes the first equal assignment and detaches the given one; nothing else changes |
| Tasks.Task.SetTaskAssignments | taskmanager/src/main/java/com/dcmc/apps/taskmanager/domain/Task.java:271-279 | detaches the old assignments, attaches the new ones and replaces the list |
| Tasks.EqualTasksHashAlike | taskmanager/src/main/java/com/dcmc/apps/taskmanager/domain/Task.java:301-315 | equal tasks have equal hash codes |
| Tasks.TaskEqualityIsEquivalence | taskmanager/src/main/java/com/dcmc/apps/taskmanager/domain/Task.java:301-309 | task equality is reflexive, symmetric and transitive |
| Tasks.TaskEqualityById | taskmanager/src/main/java/com/dcmc/apps/taskmanager/domain/Task.java:301-309 | a task without id equals only itself; tasks with ids are equal exactly when the ids are |
| TaskServices.GroupPermission | taskmanager/src/main/java/com/dcmc/apps/taskmanager/service/TaskService.java:96-106 | passes exactly for an admin or an OWNER/MODERADOR of the group; a missing login and a missing role give their two access-denied messages |
| TaskServices.ValidateTaskNotArchived | taskmanager/src/main/java/com/dcmc/apps/taskmanager/service/TaskService.java:108-112 | passes exactly when the task is not archived; otherwise the archived-task error |
| TaskServices.AssigneeIndex | taskmanager/src/main/java/com/dcmc/apps/taskmanager/service/TaskService.java:275-287 | finds an assignment of that user, or reports that the task has none |
| TaskServices.AppendKeepsUniqueAssignees | taskmanager/src/main/java/com/dcmc/apps/taskmanager/service/TaskService.java:249-273 | appending an assignment for a user not yet assigned keeps at most one assignment per user |
| TaskServices.RemoveAssigneeLeavesNone | taskmanager/src/main/java/com/dcmc/apps/taskmanager/service/TaskService.java:275-287 | removing the assignment of a user, under at most one per user, leaves that user unassigned and one assignment fewer |
| TaskServices.Archived | taskmanager/src/main/java/com/dcmc/apps/taskmanager/service/TaskService.java:367-380 | archiving sets the archived flag and date and changes nothing else |
| TaskServices.Unarchived | taskmanager/src/main/java/com/dcmc/apps/taskmanager/service/TaskService.java:382-392 | unarchiving clears the archived flag and date and changes nothing else |
| TaskServices.ArchiveRoundTrip | taskmanager/src/main/java/com/dcmc/apps/taskmanager/service/TaskService.java:367-392 | unarchiving an archived unarchived task restores it; archiving again gives the same archived task |
| TaskServices.NewProjectTask | taskmanager/src/main/java/com/dcmc/apps/taskmanager/service/TaskService.java:189-202 | the new task has the given id, texts, deadline, group, project, priority and status, both times now, not archived, no comments or assignments |
| TaskServices.TaskService.constructor | taskmanager/src/main/java/com/dcmc/apps/taskmanager/service/TaskService.java:180-208 | a service with the given catalogues and no tasks, invariant established |
| TaskServices.TaskService.OneTaskChanged | taskmanager/src/main/java/com/dcmc/apps/taskmanager/service/TaskService.java:133-404 | changing one stored task consistently with the invariant keeps the whole invariant |
| TaskServices.TaskService.OtherTasksDistinct | taskmanager/src/main/java/com/dcmc/apps/taskmanager/service/TaskService.java:133-404 | distinct task ids hold distinct task objects |
| TaskServices.TaskService.TaskAdded | taskmanager/src/main/java/com/dcmc/apps/taskmanager/service/TaskService.java:180-208 | storing a valid new task under a fresh id keeps the invariant |
| TaskServices.TaskService.Update | taskmanager/src/main/java/com/dcmc/apps/taskmanager/service/TaskService.java:133-151 | a missing task and an archived task are refused; otherwise only title, description, deadline and update time change |
| TaskServices.TaskService.CreateTaskForProject | taskmanager/src/main/java/com/dcmc/apps/taskmanager/service/TaskService.java:180-208 | succeeds exactly for an existing project, a permitted caller, a configured NORMAL priority and exactly one status named NOT_STARTED; no such status is the not-configured error and several are the repository's incorrect-result-size error; on success a fresh task with those defaults is stored under a new id and no other task changes |
| TaskServices.TaskService.Store | taskmanager/src/main/java/com/dcmc/apps/taskmanager/service/TaskService.java:205 | stores the task under the next id and advances that counter; nothing else changes and the invariant holds |
| TaskServices.TaskService.DeleteTaskFromProject | taskmanager/src/main/java/com/dcmc/apps/taskmanager/service/TaskService.java:211-231 | refuses an unknown project, a caller without rights, an unknown task, a task of another project and an archived task, each in its case and in that order; success removes the task |
| TaskServices.TaskService.AssignTask | taskmanager/src/main/java/com/dcmc/apps/taskmanager/service/TaskService.java:249-273 | refuses a missing or archived task, a caller without rights, an unknown user login, a non-member and an already assigned user, each in its case and in that order; success appends one fresh assignment of that user at that time |
| TaskServices.TaskService.UnassignTask | taskmanager/src/main/java/com/dcmc/apps/taskmanager/service/TaskService.java:275-287 | refuses a missing or archived task, a caller without rights, an unknown user login and an unassigned user, each in its case and in that order; success removes that user's assignment and nothing else |
| TaskServices.TaskService.AddCommentToTask | taskmanager/src/main/java/com/dcmc/apps/taskmanager/service/TaskService.java:299-318 | refuses a missing or archived task, a caller without login and a login with no user, each in its case and in that order; success appends a fresh comment by the caller at that time |
| TaskServices.TaskService.ChangePriority | taskmanager/src/main/java/com/dcmc/apps/taskmanager/service/TaskService.java:335-348 | after the archived and permission checks, succeeds exactly when a priority of that name exists and sets it with the update time; otherwise nothing changes |
| TaskServices.TaskService.ChangeStatus | taskmanager/src/main/java/com/dcmc/apps/taskmanager/service/TaskService.java:350-363 | after the archived and permission checks, succeeds exactly when one status has that name and sets it with the update time; no such status is NotFound, several are the repository's incorrect-result-size error; otherwise nothing changes |
| TaskServices.TaskService.ArchiveTask | taskmanager/src/main/java/com/dcmc/apps/taskmanager/service/TaskService.java:367-380 | succeeds exactly for a permitted caller and a task whose status is DONE; the task becomes archived at that time |
| TaskServices.TaskService.UnarchiveTask | taskmanager/src/main/java/com/dcmc/apps/taskmanager/service/TaskService.java:382-392 | succeeds exactly for an archived task and a permitted caller; the task becomes unarchived |
| TaskServices.TaskService.DeleteArchivedTask | taskmanager/src/main/java/com/dcmc/apps/taskmanager/service/TaskService.java:394-404 | succeeds exactly for an archived task and a permitted caller; the task is removed and the others stay |
| ProjectServices.AppendKeepsUniquePairs | taskmanager/src/main/java/com/dcmc/apps/taskmanager/service/ProjectService.java:164-176 | adding a member not yet assigned keeps one row per (project, user) |
| ProjectServices.ProjectService.constructor | taskmanager/src/main/java/com/dcmc/apps/taskmanager/service/ProjectService.java:70-83 | a service over the given groups and users with no projects and no members |
| ProjectServices.ProjectService.Save | taskmanager/src/main/java/com/dcmc/apps/taskmanager/service/ProjectService.java:70-83 | fails exactly for an unknown work group; otherwise stores the new project under a fresh id |
| ProjectServices.ProjectService.FindAllByWorkGroupId | taskmanager/src/main/java/com/dcmc/apps/taskmanager/service/ProjectService.java:143-153 | fails exactly for an unknown work group; otherwise returns exactly the projects of that group |
| ProjectServices.ProjectService.AssignUserToProject | taskmanager/src/main/java/com/dcmc/apps/taskmanager/service/ProjectService.java:155-177 | refuses an unknown project, an unknown user and an existing assignment, each in its case; success appends the new member row |
| PriorityServices.PriorityService.constructor | taskmanager/src/main/java/com/dcmc/apps/taskmanager/service/PriorityService.java:46-57 | a service with no priorities |
| PriorityServices.PriorityService.Save | taskmanager/src/main/java/com/dcmc/apps/taskmanager/service/PriorityService.java:24-57 | succeeds exactly for an admin caller (the class-level ROLE_ADMIN rule of line 26), storing a new visible priority under a fresh id with creation time now; any other caller gets Access Denied and nothing changes |
| PriorityServices.PriorityService.Update | taskmanager/src/main/java/com/dcmc/apps/taskmanager/service/PriorityService.java:65-82 | refuses a non-admin caller with Access Denied (the class-level ROLE_ADMIN rule of line 26), then fails exactly for an unknown id, changing nothing; otherwise replaces name and description and stamps the update time, keeping visibility and creation time |
| PriorityServices.PriorityService.UpdateVisibility | taskmanager/src/main/java/com/dcmc/apps/taskmanager/service/PriorityService.java:126-133 | refuses a non-admin caller with Access Denied (the class-level ROLE_ADMIN rule of line 26), then fails exactly for an unknown id, changing nothing; otherwise changes only the visibility |
| TaskStatusCatalogServices.CatalogPermission | taskmanager/src/main/java/com/dcmc/apps/taskmanager/service/TaskStatusCatalogService.java:55-65 | passes exactly for an admin or a user who is OWNER or MODERADOR of some group; a missing login fails without a message |
| TaskStatusCatalogServices.NoMembershipNoCatalogAccess | taskmanager/src/main/java/com/dcmc/apps/taskmanager/service/TaskStatusCatalogService.java:55-65 | a non-admin without any membership is refused |
| TaskStatusCatalogServices.TaskStatusCatalogService.constructor | taskmanager/src/main/java/com/dcmc/apps/taskmanager/service/TaskStatusCatalogService.java:73-94 | a service with no statuses |
| TaskStatusCatalogServices.TaskStatusCatalogService.Save | taskmanager/src/main/java/com/dcmc/apps/taskmanager/service/TaskStatusCatalogService.java:73-94 | after the permission check, refuses a missing login or unknown user; success stores a new status created by the caller now |
| TaskStatusCatalogServices.TaskStatusCatalogService.Update | taskmanager/src/main/java/com/dcmc/apps/taskmanager/service/TaskStatusCatalogService.java:103-119 | after the permission check, fails exactly for an unknown id; success replaces name and description, keeps creator and creation time |
| TaskStatusCatalogServices.TaskStatusCatalogService.Delete | taskmanager/src/main/java/com/dcmc/apps/taskmanager/service/TaskStatusCatalogService.java:161-165 | after the permission check removes the id; an unknown id is removed silently |
| TaskStatusCatalogServices.TaskStatusCatalogService.FindOne | taskmanager/src/main/java/com/dcmc/apps/taskmanager/service/TaskStatusCatalogService.java:148-154 | fails exactly when the permission check fails; otherwise returns the stored status when there is one |
| RoleUtils.Includes | gateway/src/main/webapp/app/shared/util/role-utils.ts:49 | true exactly when the authority is in the list |
| RoleUtils.SomeManager | gateway/src/main/webapp/app/shared/util/role-utils.ts:54 | true exactly when the list holds the group OWNER or MODERADOR authority |
| RoleUtils.CheckWorkGroupManagementPermission | gateway/src/main/webapp/app/shared/util/role-utils.ts:43-55 | a missing or empty list is refused; an admin is accepted; otherwise accepted exactly with the OWNER or MODERADOR authority |
| RoleUtils.MiembroAloneGrantsNothing | gateway/src/main/webapp/app/shared/util/role-utils.ts:6-10 | a list holding only the MIEMBRO authority is refused |
| RoleUtils.PermissionMonotone | gateway/src/main/webapp/app/shared/util/role-utils.ts:43-55 | adding authorities never revokes the permission |
| RoleUtils.PermissionDependsOnSetOnly | gateway/src/main/webapp/app/shared/util/role-utils.ts:43-55 | order and repetition of authorities do not matter |
| JsText.OrElse | gateway/src/main/webapp/app/shared/util/error-utils.ts:73 | the first value unless it is missing or empty, else the fallback |
| JsText.Or | gateway/src/main/webapp/app/shared/util/api-utils.ts:25 | the first optional text unless it is missing or empty, else the second |
| JsText.Coalesce | gateway/src/main/webapp/app/config/notification-middleware.ts:69 | the first optional text unless it is missing (an empty text is kept), else the second |
| JsText.CoalesceTo | gateway/src/main/webapp/app/config/notification-middleware.ts:81 | the text unless it is missing, else the fallback |
| JsText.TrimStart | gateway/src/main/webapp/app/shared/components/FormValidation.tsx:25 | a suffix of the input that does not start with whitespace |
| JsText.TrimEnd | gateway/src/main/webapp/app/shared/components/FormValidation.tsx:25 | a prefix of the input that does not end with whitespace |
| JsText.TrimStartEmpty | gateway/src/main/webapp/app/shared/components/FormValidation.tsx:25 | trimming the start leaves nothing exactly when every character is whitespace |
| JsText.TrimEmptyIffBlank | gateway/src/main/webapp/app/shared/components/FormValidation.tsx:25 | a trimmed text is empty exactly when every character is whitespace |
| JsText.TrimEndNonEmpty | gateway/src/main/webapp/app/shared/components/FormValidation.tsx:25 | trimming the end of a text starting with non-whitespace leaves something |
| JsText.Utf16Length | gateway/src/main/webapp/app/shared/components/FormValidation.tsx:36-43 | the UTF-16 length lies between the number of code points and twice it |
| JsText.DigitRun | gateway/src/main/webapp/app/shared/util/error-utils.ts:58 | the length of the leading run of digits |
| JsText.CollapseIndices | gateway/src/main/webapp/app/shared/util/error-utils.ts:58 | the result is no longer than the input and keeps its first character |
| JsText.CollapseDigitsPrefix | gateway/src/main/webapp/app/shared/util/error-utils.ts:58 | leading digits outside brackets are kept as they are |
| JsText.IndexAtShift | gateway/src/main/webapp/app/shared/util/error-utils.ts:58 | a numbered index after a prefix is one in the remainder |
| JsText.UnmatchedBracketStays | gateway/src/main/webapp/app/shared/util/error-utils.ts:58 | a bracket whose digits are not closed does not start a numbered index |
| JsText.NoIndexInSuffix | gateway/src/main/webapp/app/shared/util/error-utils.ts:58 | a prefix does not create numbered indices in a suffix that has none |
| JsText.CollapseLeavesNoIndex | gateway/src/main/webapp/app/shared/util/error-utils.ts:58 | after collapsing, no numbered index such as [14] remains |
| JsText.DigitRunPrefix | gateway/src/main/webapp/app/shared/util/error-utils.ts:58 | the digit run of digits followed by a non-digit is exactly those digits |
| JsText.CollapseWithoutDigits | gateway/src/main/webapp/app/shared/util/error-utils.ts:58 | a text without digits is left unchanged |
| JsText.LastSegment | gateway/src/main/webapp/app/shared/util/error-utils.ts:59-60 | the suffix after the last dot, which holds no dot |
| JsText.SpaceBeforeCapitals | gateway/src/main/webapp/app/shared/util/error-utils.ts:61 | never shorter, unchanged without capitals, empty exactly when the input is, and adds no dot |
| JsText.ToUpperChar | gateway/src/main/webapp/app/shared/util/error-utils.ts:62 | a–z and the Latin-1 small letters U+00E0–U+00FE (except U+00F7) become their own capital, 0x20 lower; ÿ becomes Ÿ and µ becomes Greek capital mu; an ASCII capital stays; only a dot maps to a dot |
| JsText.UpperFirst | gateway/src/main/webapp/app/shared/util/error-utils.ts:62 | only the first character changes, a lower-case first letter becomes a capital |
| JsText.CapitalizeFirst | gateway/src/main/webapp/app/config/notification-middleware.ts:23 | the first character upper-cased, the rest kept |
| JsText.DisplayName | gateway/src/main/webapp/app/shared/components/FormValidation.tsx:22 | empty exactly when the field name is, never shorter than it |
| JsText.NatToString | gateway/src/main/webapp/app/shared/components/FormValidation.tsx:37 | a non-empty string of decimal digits |
| JsText.IntToString | gateway/src/main/webapp/app/shared/components/FormValidation.tsx:37 | the decimal digits of the number, with a minus sign for a negative one |
| ErrorUtils.GetHttpErrorMessage | gateway/src/main/webapp/app/shared/util/error-utils.ts:118-133 | the mapped message for a known status, the generic message otherwise |
| ErrorUtils.HttpMessageKnownIffNotFallback | gateway/src/main/webapp/app/shared/util/error-utils.ts:118-133 | the message is never empty, and is the generic one exactly for unmapped statuses |
| ErrorUtils.FormattedSegmentWithoutDots | gateway/src/main/webapp/app/shared/util/error-utils.ts:56-62 | the formatted field segment holds no dot and is empty exactly when the last segment is |
| ErrorUtils.FieldLabel | gateway/src/main/webapp/app/shared/util/error-utils.ts:56-62 | a non-empty label without dots: the formatted last segment, or "Campo" when that is empty |
| ErrorUtils.FieldLabelOfPlainName | gateway/src/main/webapp/app/shared/util/error-utils.ts:56-62 | for a plain lower-case name without dots or digits the label is the name with its first letter upper-cased |
| ErrorUtils.FieldErrorMessages | gateway/src/main/webapp/app/shared/util/error-utils.ts:54-66 | one message per field error, in order |
| ErrorUtils.ShowApiError | gateway/src/main/webapp/app/shared/util/error-utils.ts:69-77 | field errors give one message each; otherwise one message, the error's message, detail or a fallback, prefixed by the context |
| ErrorUtils.ApiErrorSingleMessage | gateway/src/main/webapp/app/shared/util/error-utils.ts:69-77 | without field errors exactly one non-empty message is shown |
| ErrorUtils.HandleNetworkError | gateway/src/main/webapp/app/shared/util/error-utils.ts:95-103 | the connection, timeout or server message, each for exactly its error codes |
| AxiosInterceptor.GetErrorMessage | gateway/src/main/webapp/app/config/axios-interceptor.ts:21-46 | never empty; 400 prefers the body message, then detail; listed statuses have their fixed message; others prefer message, detail, error |
| AxiosInterceptor.FixedStatusIgnoresBody | gateway/src/main/webapp/app/config/axios-interceptor.ts:25-42 | for a listed status the message does not depend on the body |
| AxiosInterceptor.BodyMessageWins | gateway/src/main/webapp/app/config/axios-interceptor.ts:21-46 | for a status without a fixed message a non-empty body message is shown as is |
| AxiosInterceptor.FieldName | gateway/src/main/webapp/app/config/axios-interceptor.ts:52 | a non-empty name: the collapsed field path, or "Campo" |
| AxiosInterceptor.FieldNameHasNoIndex | gateway/src/main/webapp/app/config/axios-interceptor.ts:52 | a field name shown holds no numbered index |
| AxiosInterceptor.HandleFieldErrors | gateway/src/main/webapp/app/config/axios-interceptor.ts:49-57 | one toast per field error, in order |
| AxiosInterceptor.EffectiveStatus | gateway/src/main/webapp/app/config/axios-interceptor.ts:67 | the error's own status unless missing or zero, then the response status, then 0 |
| AxiosInterceptor.OnResponseError | gateway/src/main/webapp/app/config/axios-interceptor.ts:66-102 | always rejects with the error; calls the unauthenticated handler exactly for 401; silent for 401 and the account URLs; otherwise field-error toasts, the status message, the connection or the configuration message |
| AxiosInterceptor.OneToastUnlessFieldErrors | gateway/src/main/webapp/app/config/axios-interceptor.ts:66-102 | without field errors, a non-silent error shows exactly one toast, and no toast is empty |
| AxiosInterceptor.EmptyFieldErrorsShowNothing | gateway/src/main/webapp/app/config/axios-interceptor.ts:86-87 | an empty field-error array shows no toast at all |
| NotificationMiddleware.FieldErrorRecord.constructor | gateway/src/main/webapp/app/config/notification-middleware.ts:16-17 | a field error with the given field and message |
| NotificationMiddleware.SizeRewrite | gateway/src/main/webapp/app/config/notification-middleware.ts:18-20 | Min, Max, DecimalMin and DecimalMax become Size, other messages stay; the result is never one of the four |
| NotificationMiddleware.FieldToasts | gateway/src/main/webapp/app/config/notification-middleware.ts:16-25 | one toast per field error, in order, naming the collapsed capitalised field |
| NotificationMiddleware.FieldToastPathHasNoIndex | gateway/src/main/webapp/app/config/notification-middleware.ts:21-23 | the field path in the toast holds no numbered index |
| NotificationMiddleware.GetFieldErrorsToasts | gateway/src/main/webapp/app/config/notification-middleware.ts:16-25 | returns the field toasts and rewrites every size message to Size in place |
| NotificationMiddleware.FieldToastsAppend | gateway/src/main/webapp/app/config/notification-middleware.ts:16-25 | toasts of a longer list extend the toasts of the shorter one |
| NotificationMiddleware.BodyMessage | gateway/src/main/webapp/app/config/notification-middleware.ts:69 | detail comes first; a body that is not JSON gives the status message |
| NotificationMiddleware.ShowApiErrorToasts | gateway/src/main/webapp/app/config/notification-middleware.ts:53-70 | one error toast per message, in order |
| NotificationMiddleware.NextIsNotANotification | gateway/src/main/webapp/app/config/notification-middleware.ts:28-85 | the notifications never include the call to next; the log happens only for an unanswered GET of the account URL |
| NotificationMiddleware.SilentForUnauthorizedAndAuthentication | gateway/src/main/webapp/app/config/notification-middleware.ts:45-48 | 401 responses and the authentication URLs add no error toast and rewrite no field error |
| NotificationMiddleware.ResponsePrecedence | gateway/src/main/webapp/app/config/notification-middleware.ts:55-72 | field errors, then the header error, then a text body, then the body message, in that order |
| NotificationMiddleware.BodyMessageOrder | gateway/src/main/webapp/app/config/notification-middleware.ts:69 | detail, message, error, title, then the status message |
| NotificationMiddleware.OneToastWithoutFieldErrors | gateway/src/main/webapp/app/config/notification-middleware.ts:49-72 | a non-silent response without field errors gives exactly one error toast |
| NotificationMiddleware.OtherErrorsShowTheirMessage | gateway/src/main/webapp/app/config/notification-middleware.ts:80-82 | an error that is not an axios error shows its message or the fallback |
| NotificationMiddleware.FulfilledAlertFirst | gateway/src/main/webapp/app/config/notification-middleware.ts:35-40 | a fulfilled action with an alert shows it first as a success toast |
| NotificationMiddleware.RewriteShownFieldErrors | gateway/src/main/webapp/app/config/notification-middleware.ts:16-58 | rewrites the size messages of exactly the field errors the middleware shows |
| NotificationMiddleware.Handle | gateway/src/main/webapp/app/config/notification-middleware.ts:28-85 | the notifications, then exactly one call to next whose result it returns; shown field errors get their size messages rewritten |
| FormValidation.ConcatMapSnoc | gateway/src/main/webapp/app/shared/components/FormValidation.tsx:20-57 | errors of one more rule extend the list |
| FormValidation.ConcatMapAppend | gateway/src/main/webapp/app/shared/components/FormValidation.tsx:20-57 | errors of two rule lists concatenate |
| FormValidation.ConcatMapBound | gateway/src/main/webapp/app/shared/components/FormValidation.tsx:20-57 | the total is bounded by the per-rule bound times the number of rules |
| FormValidation.CheckRule | gateway/src/main/webapp/app/shared/components/FormValidation.tsx:20-57 | appends exactly the errors of one rule to the list |
| FormValidation.ValidateForm | gateway/src/main/webapp/app/shared/components/FormValidation.tsx:17-60 | returns exactly the errors of each rule in rule order |
| FormValidation.FormErrorsSnoc | gateway/src/main/webapp/app/shared/components/FormValidation.tsx:17-60 | one more rule appends its errors at the end |
| FormValidation.FormErrorsAppend | gateway/src/main/webapp/app/shared/components/FormValidation.tsx:17-60 | the errors of two rule lists are the concatenation of their errors |
| FormValidation.FormErrorsOfFewRules | gateway/src/main/webapp/app/shared/components/FormValidation.tsx:17-60 | no rules give no errors; one rule gives its own errors |
| FormValidation.FormErrorsBound | gateway/src/main/webapp/app/shared/components/FormValidation.tsx:17-60 | at most four errors per rule |
| FormValidation.RequiredMissingValue | gateway/src/main/webapp/app/shared/components/FormValidation.tsx:25-28 | a required field whose value is missing gives exactly the obligatory message |
| FormValidation.OptionalMissingValue | gateway/src/main/webapp/app/shared/components/FormValidation.tsx:31-33 | an optional missing value gives no error, not even a custom one |
| FormValidation.NonStringOnlyCustom | gateway/src/main/webapp/app/shared/components/FormValidation.tsx:36-56 | a present value that is not a string is checked only by the custom check |
| FormValidation.StringChecks | gateway/src/main/webapp/app/shared/components/FormValidation.tsx:36-56 | a non-blank string passing every check gives no error; a too short one gives the minimum message first |
| ApiUtils.ValidateRequiredFields | gateway/src/main/webapp/app/shared/util/api-utils.ts:98-109 | returns exactly the obligatory messages of the missing fields, in order |
| ApiUtils.RequiredFieldErrorsCount | gateway/src/main/webapp/app/shared/util/api-utils.ts:98-109 | one message per missing field; none exactly when no field is missing; each message names a missing field |
| ApiUtils.RequiredFieldsAsFormRules | gateway/src/main/webapp/app/shared/util/api-utils.ts:98-109 | with distinct names, required-field validation equals form validation with a required rule per field |
| ApiUtils.EntriesData | gateway/src/main/webapp/app/shared/util/api-utils.ts:101 | every entry's name is a key of the data |
| ApiUtils.RequiredRules | gateway/src/main/webapp/app/shared/util/api-utils.ts:101-105 | one required rule per entry, for that field |
| ApiUtils.FormErrorsOnOtherKey | gateway/src/main/webapp/app/shared/util/api-utils.ts:101-105 | a value for a field no rule names does not change the errors |
| ApiUtils.ErrorsOfRequiredRules | gateway/src/main/webapp/app/shared/components/FormValidation.tsx:21 | form errors depend only on the values of the fields the rules name |
| ApiUtils.HandleApiError | gateway/src/main/webapp/app/shared/util/api-utils.ts:21-31 | exactly one non-empty message; a request without response gives the network message |
| ApiUtils.ResponseMessage | gateway/src/main/webapp/app/shared/util/api-utils.ts:22-25 | a response shows its message, else its detail, else the fallback, after the context |
| ApiUtils.UnsentRequestMessage | gateway/src/main/webapp/app/shared/util/api-utils.ts:28-30 | an error before sending shows its own message or the fallback, behind the context whenever the context is non-empty |
| ApiUtils.ShowValidationErrors | gateway/src/main/webapp/app/shared/util/api-utils.ts:112-116 | one message per error, each prefixed by the validation context |

## Left out

- Controllers, query services, mappers, DTOs and the JPA repositories themselves: only the service logic is modelled, the repositories become the fields of each service class.
- Service operations outside the core: update, partialUpdate, findAll, findOne and delete of work groups, projects and priorities; findAllTasksByProjectId, getTaskAssignments, getTaskComments, save and partialUpdate of tasks; partialUpdate of statuses.
- The clock (`Instant.now()`) is a parameter `now`; the security context (current login and the admin authority) is the `Caller` value.
- The class-level `hasRole('ROLE_ADMIN')` of `PriorityService` is modelled as the Access Denied refusal of every non-admin `Caller`; the separate exception Spring Security raises when a request carries no authentication at all is not distinguished from it.
- `app/config/constants.ts` is not part of this model; the admin authority is taken as `ROLE_ADMIN`, as the back end checks it.
- `existsByWorkGroupIdAndUserLoginAndRoleIn`, `existsByWorkGroupAndUser`, `existsByUserLoginAndRoleIn` and `PriorityRepository.findByName` are not declared in the repository interfaces shown; they are given their evident meaning, and `PriorityRepository.findByName` returns any entry with that name. The declared `TaskStatusCatalogRepository.findByName` returns the single match and fails with the incorrect-result-size error when several statuses share the name.
- `WorkGroupMembershipRepository.findByWorkGroupId` (used by `getAllMembersWithRoles`), `WorkGroupMembershipRepository.findByUserLogin` (used by `getUserWorkGroups`) and `ProjectRepository.findByWorkGroupId` (used by `findAllByWorkGroupId`) are not declared either; they are given their evident meaning: the rows of that group, or of that login, in table order.
- The comment and task-assignment repositories that `assignTask`, `unassignTask` and `addCommentToTask` save to and delete from are represented by each task's own `comments` and `taskAssignments` lists, as the JPA mapping from the task to its children holds them.
- SetComments and SetTaskAssignments store the new list as a value; the Java setters keep the caller's list object itself, so later changes the caller makes to that list object are not reflected here.
- GroupMembers does not carry the display name `firstName + " " + lastName` of the member DTO, because users are modelled by login only; each entry has login, role and join date.
- GetAllMembersWithRoles returns the entries of GroupMembers and so also leaves out each member's display name.
- `assignUserToProject` takes the project id and the user login as plain parameters instead of a DTO.
- Users are compared and stored by login; logins are unique, user ids are not modelled.
- The ids, logins and names some exception messages append are dropped from the messages.
- Null lists and null fields of entities are not modelled; a `null` argument to the list setters of `Task` is not possible here.
- Persistence identity: generated ids are a counter per service, `save` of an existing id is not modelled.
- Concurrency and transaction isolation are not modelled.
- ToUpperChar models `toUpperCase` for a–z, U+00E0–U+00FE except U+00F7, ÿ and µ only. ß, whose capital is the two characters `SS`, and every case mapping outside Latin-1 are left out: those characters come back unchanged.
- `length` counts UTF-16 code units as one or two per code point; strings are sequences of code points.
- JavaScript numbers are integers here; NaN, infinities and fractions are left out. A `minLength` or `maxLength` of 0 counts as unset, as `0` is falsy.
- Regular expressions and custom validators of a rule are functions from the value; their own logic is not modelled.
- `isProblemWithMessage`, `getMessageFromHeaders`, `isFulfilledAction`, `isRejectedAction` and `isAxiosError` are not part of this model; their results are fields of the action and response values.
- The order of `Object.entries` is the order of the entry sequence given.
- `onUnauthenticated` is a flag of the interceptor's reaction and the returned rejected Promise is the error it carries.
- `toast` and `console.log` are effects returned in order, not performed.
