/**
 * The work-group service: creating groups and managing who belongs to them
 * with which role. Each operation first checks the caller's rights, then its
 * rejection conditions, and only then inserts, changes or deletes a single
 * membership row (two for an ownership transfer), so a rejected call changes
 * nothing. Every operation keeps the membership table well formed: one row per
 * (group, user) and exactly one OWNER per group.
 */
module WorkGroupServices {
  import opened Common
  import opened Memberships

  /** The stored fields of a work group. */
  datatype WorkGroup = WorkGroup(name: string, description: string)

  /** One entry of a user's group list (`UserWorkGroupDTO`). */
  datatype UserWorkGroup = UserWorkGroup(groupId: Id, groupName: string, role: Role)

  /** One entry of a group's member list (`MemberWithRoleDTO`, without the display name). */
  datatype MemberWithRole = MemberWithRole(login: Login, role: Role, joinDate: Instant)

  /**
   * The membership table after `transferOwnership`: the current OWNER row
   * becomes MIEMBRO, then the new owner's row becomes OWNER, or is inserted
   * with role OWNER when the new owner was not a member.
   */
  function Transferred(rows: seq<Membership>, group: Id, newOwner: Login, now: Instant): seq<Membership>
    requires OwnerIndex(rows, group).Some?
  {
    var demoted := SetRole(rows, OwnerIndex(rows, group).value, Miembro);
    match IndexOf(rows, group, newOwner)
    case Some(n) => SetRole(demoted, n, Owner)
    case None => demoted + [Membership(group, newOwner, Owner, now)]
  }

  /**
   * A transfer to anyone but the current owner keeps the table well formed,
   * leaves `newOwner` as the group's only OWNER, turns the previous owner into
   * a MIEMBRO and touches no row of another (group, login) pair.
   */
  lemma TransferKeepsWellFormed(groups: set<Id>, rows: seq<Membership>, group: Id, newOwner: Login, now: Instant)
    requires WellFormed(groups, rows) && group in groups
    requires OwnerIndex(rows, group).Some? && rows[OwnerIndex(rows, group).value].login != newOwner
    ensures var r := Transferred(rows, group, newOwner, now);
      WellFormed(groups, r) &&
      (forall i :: 0 <= i < |r| && IsOwnerRow(r[i], group) ==> r[i].login == newOwner) &&
      HasRoleIn(r, group, newOwner, OwnerOnly) &&
      HasRoleIn(r, group, rows[OwnerIndex(rows, group).value].login, {Miembro})
  {
    var o := OwnerIndex(rows, group).value;
    SingleOwner(rows, group);
    var demoted := SetRole(rows, o, Miembro);
    forall g | g in groups ensures OwnerCount(demoted, g) == if g == group then 0 else 1 {
      OwnerCountUpdate(rows, o, rows[o].(role := Miembro), g);
    }
    var r := Transferred(rows, group, newOwner, now);
    match IndexOf(rows, group, newOwner)
    case Some(n) =>
      assert n != o;
      forall g | g in groups ensures OwnerCount(r, g) == 1 {
        OwnerCountUpdate(demoted, n, demoted[n].(role := Owner), g);
      }
      assert Grants(r[n], group, newOwner, OwnerOnly);
      assert Grants(r[o], group, rows[o].login, {Miembro});
    case None =>
      assert IndexOf(demoted, group, newOwner).None?;
      forall g | g in groups ensures OwnerCount(r, g) == 1 {
        OwnerCountAppend(demoted, Membership(group, newOwner, Owner, now), g);
      }
      assert Grants(r[|rows|], group, newOwner, OwnerOnly);
      assert Grants(r[o], group, rows[o].login, {Miembro});
  }

  /** The groups `login` belongs to, with its role in each, in table order. */
  function UserGroups(rows: seq<Membership>, groups: map<Id, WorkGroup>, login: Login): (r: seq<UserWorkGroup>)
    requires forall i :: 0 <= i < |rows| ==> rows[i].group in groups
    ensures |r| <= |rows|
    ensures forall e :: e in r <==>
      exists i :: 0 <= i < |rows| && rows[i].login == login &&
        e == UserWorkGroup(rows[i].group, groups[rows[i].group].name, rows[i].role)
  {
    if rows == [] then []
    else
      var rest := UserGroups(rows[1..], groups, login);
      assert forall i :: 1 <= i < |rows| ==> rows[i] == rows[1..][i - 1];
      if rows[0].login == login
      then [UserWorkGroup(rows[0].group, groups[rows[0].group].name, rows[0].role)] + rest
      else rest
  }

  /** The members of `group`, with their roles and join dates, in table order. */
  function GroupMembers(rows: seq<Membership>, group: Id): (r: seq<MemberWithRole>)
    ensures |r| <= |rows|
    ensures forall e :: e in r <==>
      exists i :: 0 <= i < |rows| && rows[i].group == group &&
        e == MemberWithRole(rows[i].login, rows[i].role, rows[i].joinDate)
  {
    if rows == [] then []
    else
      var rest := GroupMembers(rows[1..], group);
      assert forall i :: 1 <= i < |rows| ==> rows[i] == rows[1..][i - 1];
      if rows[0].group == group
      then [MemberWithRole(rows[0].login, rows[0].role, rows[0].joinDate)] + rest
      else rest
  }

  /** The error a failed permission check turns into. */
  function PermissionError(c: Check, denied: string): ServiceError
    requires c != Granted
  {
    if c == NoLogin then NoSuchElement else AccessDenied(denied)
  }

  const GroupNotFound := BadRequest("idnotfound")
  const UserNotFound := BadRequest("usernotfound")
  const NotMember := BadRequest("not.member")
  const CannotRemoveOwner := BadRequest("cannot.remove.owner")
  const CannotRemoveSelf := BadRequest("cannot.remove.self")
  const OwnerCannotLeave := BadRequest("owner.cannot.leave")

  class WorkGroupService {
    /** The work-group repository. */
    var groups: map<Id, WorkGroup>
    /** The logins of the user repository. */
    var users: set<Login>
    /** The membership repository. */
    var memberships: seq<Membership>
    /** The next identifier the group sequence hands out. */
    var nextId: Id

    ghost predicate Valid()
      reads this
    {
      WellFormed(groups.Keys, memberships) &&
      (forall g :: g in groups ==> g < nextId)
    }

    /** A service over an empty database with the given users. */
    constructor (users: set<Login>)
      ensures Valid()
      ensures this.users == users && groups == map[] && memberships == []
    {
      this.users := users;
      groups := map[];
      memberships := [];
      nextId := 0;
    }

    /**
     * `save`: creates a work group and makes the calling user its OWNER.
     */
    method Save(caller: Caller, name: string, description: string, now: Instant) returns (r: Result<Id, ServiceError>)
      requires Valid()
      modifies this
      ensures Valid() && users == old(users)
      ensures caller.login.None? ==> r == Err(IllegalState("User not authenticated"))
      ensures caller.login.Some? && caller.login.value !in users ==> r == Err(NotFound("User not found"))
      ensures r.Ok? <==> caller.login.Some? && caller.login.value in users
      ensures r.Ok? ==>
        r.value !in old(groups) &&
        groups == old(groups)[r.value := WorkGroup(name, description)] &&
        memberships == old(memberships) + [Membership(r.value, caller.login.value, Owner, now)]
      ensures r.Err? ==> groups == old(groups) && memberships == old(memberships)
    {
      if caller.login.None? {
        return Err(IllegalState("User not authenticated"));
      }
      var login := caller.login.value;
      if login !in users {
        return Err(NotFound("User not found"));
      }
      var id := nextId;
      NewGroupKeepsWellFormed(groups.Keys, memberships, id, login, now);
      groups := groups[id := WorkGroup(name, description)];
      nextId := nextId + 1;
      memberships := memberships + [Membership(id, login, Owner, now)];
      r := Ok(id);
    }

    /**
     * `transferOwnership`: the current OWNER becomes MIEMBRO and `newOwner`
     * becomes OWNER, joining the group if it was not a member.
     */
    method TransferOwnership(caller: Caller, group: Id, newOwner: Login, now: Instant) returns (r: Outcome<ServiceError>)
      requires Valid()
      modifies this
      ensures Valid() && groups == old(groups) && users == old(users)
      ensures r.Pass? <==>
        CheckGroupRole(old(memberships), group, caller, OwnerOnly) == Granted &&
        group in groups && newOwner in users && !HasRoleIn(old(memberships), group, newOwner, OwnerOnly)
      ensures CheckGroupRole(old(memberships), group, caller, OwnerOnly) == Denied ==>
        r == Fail(AccessDenied("Only admin or group owner can transfer ownership"))
      ensures CheckGroupRole(old(memberships), group, caller, OwnerOnly) == NoLogin ==> r == Fail(NoSuchElement)
      ensures CheckGroupRole(old(memberships), group, caller, OwnerOnly) == Granted && group !in groups ==> r == Fail(GroupNotFound)
      ensures CheckGroupRole(old(memberships), group, caller, OwnerOnly) == Granted && group in groups && newOwner !in users ==>
        r == Fail(UserNotFound)
      ensures r == Fail(BadRequest("already.owner")) <==>
        CheckGroupRole(old(memberships), group, caller, OwnerOnly) == Granted &&
        group in groups && newOwner in users && HasRoleIn(old(memberships), group, newOwner, OwnerOnly)
      ensures r.Pass? ==>
        OwnerIndex(old(memberships), group).Some? &&
        memberships == Transferred(old(memberships), group, newOwner, now)
      ensures r.Fail? ==> memberships == old(memberships)
    {
      var c := CheckGroupRole(memberships, group, caller, OwnerOnly);
      if c != Granted {
        return Fail(PermissionError(c, "Only admin or group owner can transfer ownership"));
      }
      if group !in groups {
        return Fail(GroupNotFound);
      }
      if newOwner !in users {
        return Fail(UserNotFound);
      }
      SingleOwner(memberships, group);
      var owner := OwnerIndex(memberships, group);
      if owner.None? {
        return Fail(BadRequest("no owner"));
      }
      var o := owner.value;
      var existing := IndexOf(memberships, group, newOwner);
      if existing.Some? && memberships[existing.value].login == memberships[o].login {
        return Fail(BadRequest("already.owner"));
      }
      TransferKeepsWellFormed(groups.Keys, memberships, group, newOwner, now);
      var demoted := SetRole(memberships, o, Miembro);
      if existing.Some? {
        memberships := SetRole(demoted, existing.value, Owner);
      } else {
        memberships := demoted + [Membership(group, newOwner, Owner, now)];
      }
      r := Pass;
    }

    /**
     * `addModerator`: an existing MIEMBRO of the group becomes MODERADOR.
     */
    method AddModerator(caller: Caller, group: Id, login: Login) returns (r: Outcome<ServiceError>)
      requires Valid()
      modifies this
      ensures Valid() && groups == old(groups) && users == old(users)
      ensures CheckGroupRole(old(memberships), group, caller, OwnerOrModerator) == Denied ==>
        r == Fail(AccessDenied("Insufficient privileges"))
      ensures CheckGroupRole(old(memberships), group, caller, OwnerOrModerator) == NoLogin ==> r == Fail(NoSuchElement)
      ensures CheckGroupRole(old(memberships), group, caller, OwnerOrModerator) == Granted && group !in groups ==> r == Fail(GroupNotFound)
      ensures CheckGroupRole(old(memberships), group, caller, OwnerOrModerator) == Granted && group in groups && login !in users ==>
        r == Fail(UserNotFound)
      ensures r.Pass? <==>
        CheckGroupRole(old(memberships), group, caller, OwnerOrModerator) == Granted &&
        group in groups && login in users && HasRoleIn(old(memberships), group, login, {Miembro})
      ensures r == Fail(BadRequest("notmember")) <==>
        CheckGroupRole(old(memberships), group, caller, OwnerOrModerator) == Granted &&
        group in groups && login in users && !IsMember(old(memberships), group, login)
      ensures r == Fail(BadRequest("already.moderator")) <==>
        CheckGroupRole(old(memberships), group, caller, OwnerOrModerator) == Granted &&
        group in groups && login in users && HasRoleIn(old(memberships), group, login, {Moderador})
      ensures r == Fail(BadRequest("is.owner")) <==>
        CheckGroupRole(old(memberships), group, caller, OwnerOrModerator) == Granted &&
        group in groups && login in users && HasRoleIn(old(memberships), group, login, OwnerOnly)
      ensures r.Pass? ==>
        memberships == SetRole(old(memberships), IndexOf(old(memberships), group, login).value, Moderador)
      ensures r.Fail? ==> memberships == old(memberships)
    {
      var c := CheckGroupRole(memberships, group, caller, OwnerOrModerator);
      if c != Granted {
        return Fail(PermissionError(c, "Insufficient privileges"));
      }
      if group !in groups {
        return Fail(GroupNotFound);
      }
      if login !in users {
        return Fail(UserNotFound);
      }
      var found := IndexOf(memberships, group, login);
      if found.None? {
        return Fail(BadRequest("notmember"));
      }
      var i := found.value;
      if memberships[i].role == Moderador {
        return Fail(BadRequest("already.moderator"));
      }
      if memberships[i].role == Owner {
        return Fail(BadRequest("is.owner"));
      }
      SetRoleKeepsWellFormed(groups.Keys, memberships, i, Moderador);
      memberships := SetRole(memberships, i, Moderador);
      r := Pass;
    }

    /**
     * `removeModerator`: a MODERADOR of the group goes back to MIEMBRO. Only an
     * admin or the group's OWNER may do this.
     */
    method RemoveModerator(caller: Caller, group: Id, login: Login) returns (r: Outcome<ServiceError>)
      requires Valid()
      modifies this
      ensures Valid() && groups == old(groups) && users == old(users)
      ensures CheckGroupRole(old(memberships), group, caller, OwnerOnly) == Denied ==>
        r == Fail(AccessDenied("Only admin or group owner can perform this action"))
      ensures CheckGroupRole(old(memberships), group, caller, OwnerOnly) == NoLogin ==> r == Fail(NoSuchElement)
      ensures CheckGroupRole(old(memberships), group, caller, OwnerOnly) == Granted && group !in groups ==> r == Fail(GroupNotFound)
      ensures CheckGroupRole(old(memberships), group, caller, OwnerOnly) == Granted && group in groups && login !in users ==>
        r == Fail(UserNotFound)
      ensures r == Fail(BadRequest("notmember")) <==>
        CheckGroupRole(old(memberships), group, caller, OwnerOnly) == Granted &&
        group in groups && login in users && !IsMember(old(memberships), group, login)
      ensures r.Pass? <==>
        CheckGroupRole(old(memberships), group, caller, OwnerOnly) == Granted &&
        group in groups && login in users && HasRoleIn(old(memberships), group, login, {Moderador})
      ensures r == Fail(BadRequest("not.moderator")) <==>
        CheckGroupRole(old(memberships), group, caller, OwnerOnly) == Granted &&
        group in groups && login in users && HasRoleIn(old(memberships), group, login, {Owner, Miembro})
      ensures r.Pass? ==>
        memberships == SetRole(old(memberships), IndexOf(old(memberships), group, login).value, Miembro)
      ensures r.Fail? ==> memberships == old(memberships)
    {
      var c := CheckGroupRole(memberships, group, caller, OwnerOnly);
      if c != Granted {
        return Fail(PermissionError(c, "Only admin or group owner can perform this action"));
      }
      if group !in groups {
        return Fail(GroupNotFound);
      }
      if login !in users {
        return Fail(UserNotFound);
      }
      var found := IndexOf(memberships, group, login);
      if found.None? {
        return Fail(BadRequest("notmember"));
      }
      var i := found.value;
      if memberships[i].role != Moderador {
        return Fail(BadRequest("not.moderator"));
      }
      SetRoleKeepsWellFormed(groups.Keys, memberships, i, Miembro);
      memberships := SetRole(memberships, i, Miembro);
      r := Pass;
    }

    /**
     * `addMember`: a user who is not yet in the group joins it as MIEMBRO.
     */
    method AddMember(caller: Caller, group: Id, login: Login, now: Instant) returns (r: Outcome<ServiceError>)
      requires Valid()
      modifies this
      ensures Valid() && groups == old(groups) && users == old(users)
      ensures CheckGroupRole(old(memberships), group, caller, OwnerOrModerator) == Denied ==>
        r == Fail(AccessDenied("Insufficient privileges"))
      ensures CheckGroupRole(old(memberships), group, caller, OwnerOrModerator) == NoLogin ==> r == Fail(NoSuchElement)
      ensures CheckGroupRole(old(memberships), group, caller, OwnerOrModerator) == Granted && group !in groups ==> r == Fail(GroupNotFound)
      ensures CheckGroupRole(old(memberships), group, caller, OwnerOrModerator) == Granted && group in groups && login !in users ==>
        r == Fail(UserNotFound)
      ensures r.Pass? <==>
        CheckGroupRole(old(memberships), group, caller, OwnerOrModerator) == Granted &&
        group in groups && login in users && !IsMember(old(memberships), group, login)
      ensures r == Fail(BadRequest("already.member")) <==>
        CheckGroupRole(old(memberships), group, caller, OwnerOrModerator) == Granted &&
        group in groups && login in users && IsMember(old(memberships), group, login)
      ensures r.Pass? ==> memberships == old(memberships) + [Membership(group, login, Miembro, now)]
      ensures r.Fail? ==> memberships == old(memberships)
    {
      var c := CheckGroupRole(memberships, group, caller, OwnerOrModerator);
      if c != Granted {
        return Fail(PermissionError(c, "Insufficient privileges"));
      }
      if group !in groups {
        return Fail(GroupNotFound);
      }
      if login !in users {
        return Fail(UserNotFound);
      }
      if IsMember(memberships, group, login) {
        return Fail(BadRequest("already.member"));
      }
      var m := Membership(group, login, Miembro, now);
      AppendKeepsWellFormed(groups.Keys, memberships, m);
      memberships := memberships + [m];
      r := Pass;
    }

    /**
     * `removeMember`: deletes a member's row. The OWNER cannot be removed, nor
     * can callers remove themselves, and only an admin or the OWNER may remove
     * a MODERADOR.
     */
    method RemoveMember(caller: Caller, group: Id, login: Login) returns (r: Outcome<ServiceError>)
      requires Valid()
      modifies this
      ensures Valid() && groups == old(groups) && users == old(users)
      ensures CheckGroupRole(old(memberships), group, caller, OwnerOrModerator) == Denied ==>
        r == Fail(AccessDenied("Insufficient privileges"))
      ensures CheckGroupRole(old(memberships), group, caller, OwnerOrModerator) == NoLogin ==> r == Fail(NoSuchElement)
      ensures CheckGroupRole(old(memberships), group, caller, OwnerOrModerator) == Granted && group !in groups ==> r == Fail(GroupNotFound)
      ensures CheckGroupRole(old(memberships), group, caller, OwnerOrModerator) == Granted && group in groups && login !in users ==>
        r == Fail(UserNotFound)
      ensures r == Fail(NotMember) <==>
        CheckGroupRole(old(memberships), group, caller, OwnerOrModerator) == Granted &&
        group in groups && login in users && !IsMember(old(memberships), group, login)
      ensures (CheckGroupRole(old(memberships), group, caller, OwnerOrModerator) == Granted &&
        group in groups && login in users && HasRoleIn(old(memberships), group, login, {Moderador}) &&
        !caller.admin && caller.login.Some? && !HasRoleIn(old(memberships), group, caller.login.value, OwnerOnly)) ==>
        r == Fail(AccessDenied("Moderators can only remove regular members"))
      ensures (CheckGroupRole(old(memberships), group, caller, OwnerOrModerator) == Granted &&
        group in groups && login in users && caller.login.None? &&
        HasRoleIn(old(memberships), group, login, {Moderador, Miembro})) ==>
        r == Fail(NoSuchElement)
      ensures r == Fail(CannotRemoveSelf) <==>
        CheckGroupRole(old(memberships), group, caller, OwnerOrModerator) == Granted &&
        group in groups && login in users && caller.login == Some(login) &&
        (HasRoleIn(old(memberships), group, login, {Miembro}) ||
         (HasRoleIn(old(memberships), group, login, {Moderador}) &&
          (caller.admin || HasRoleIn(old(memberships), group, caller.login.value, OwnerOnly))))
      ensures r.Pass? <==>
        CheckGroupRole(old(memberships), group, caller, OwnerOrModerator) == Granted &&
        group in groups && login in users &&
        caller.login.Some? && caller.login.value != login &&
        (HasRoleIn(old(memberships), group, login, {Miembro}) ||
         (HasRoleIn(old(memberships), group, login, {Moderador}) &&
          (caller.admin || HasRoleIn(old(memberships), group, caller.login.value, OwnerOnly))))
      ensures r == Fail(CannotRemoveOwner) <==>
        CheckGroupRole(old(memberships), group, caller, OwnerOrModerator) == Granted &&
        group in groups && login in users && HasRoleIn(old(memberships), group, login, OwnerOnly)
      ensures r.Pass? ==>
        memberships == RemoveAt(old(memberships), IndexOf(old(memberships), group, login).value)
      ensures r.Fail? ==> memberships == old(memberships)
    {
      var c := CheckGroupRole(memberships, group, caller, OwnerOrModerator);
      if c != Granted {
        return Fail(PermissionError(c, "Insufficient privileges"));
      }
      if group !in groups {
        return Fail(GroupNotFound);
      }
      if login !in users {
        return Fail(UserNotFound);
      }
      var found := IndexOf(memberships, group, login);
      assert |GroupNotFound.errorKey| == 10 && |UserNotFound.errorKey| == 12 && |NotMember.errorKey| == 10;
      assert |CannotRemoveOwner.errorKey| == 19 && |CannotRemoveSelf.errorKey| == 18;
      assert GroupNotFound.errorKey[0] != NotMember.errorKey[0];
      RoleOfFoundRow(memberships, group, login, {Miembro});
      RoleOfFoundRow(memberships, group, login, {Moderador});
      RoleOfFoundRow(memberships, group, login, OwnerOnly);
      RoleOfFoundRow(memberships, group, login, {Moderador, Miembro});
      if found.None? {
        return Fail(NotMember);
      }
      var i := found.value;
      if memberships[i].role == Owner {
        return Fail(CannotRemoveOwner);
      }
      if !caller.admin {
        var callerIsOwner := HasRoleIn(memberships, group, caller.login.value, OwnerOnly);
        if memberships[i].role == Moderador && !callerIsOwner {
          return Fail(AccessDenied("Moderators can only remove regular members"));
        }
      }
      if caller.login.None? {
        return Fail(NoSuchElement);
      }
      if login == caller.login.value {
        return Fail(CannotRemoveSelf);
      }
      RemoveKeepsWellFormed(groups.Keys, memberships, i);
      memberships := RemoveAt(memberships, i);
      r := Pass;
    }

    /**
     * `leaveWorkGroup`: deletes `login`'s row. Only admins may remove someone
     * other than themselves this way, and the OWNER can never leave.
     */
    method LeaveWorkGroup(caller: Caller, group: Id, login: Login) returns (r: Outcome<ServiceError>)
      requires Valid()
      modifies this
      ensures Valid() && groups == old(groups) && users == old(users)
      ensures caller.login.None? ==> r == Fail(AccessDenied("User not logged in"))
      ensures caller.login.Some? && caller.login.value != login && !caller.admin ==>
        r == Fail(AccessDenied("You can only leave a group for yourself"))
      ensures caller.login.Some? && (caller.login.value == login || caller.admin) && group !in groups ==>
        r == Fail(GroupNotFound)
      ensures r == Fail(NotMember) <==>
        caller.login.Some? && (caller.login.value == login || caller.admin) &&
        group in groups && !IsMember(old(memberships), group, login)
      ensures r.Pass? <==>
        caller.login.Some? && (caller.login.value == login || caller.admin) &&
        group in groups && HasRoleIn(old(memberships), group, login, {Moderador, Miembro})
      ensures r == Fail(OwnerCannotLeave) <==>
        caller.login.Some? && (caller.login.value == login || caller.admin) &&
        group in groups && HasRoleIn(old(memberships), group, login, OwnerOnly)
      ensures r.Pass? ==>
        memberships == RemoveAt(old(memberships), IndexOf(old(memberships), group, login).value)
      ensures r.Fail? ==> memberships == old(memberships)
    {
      if caller.login.None? {
        return Fail(AccessDenied("User not logged in"));
      }
      if login != caller.login.value && !caller.admin {
        return Fail(AccessDenied("You can only leave a group for yourself"));
      }
      if group !in groups {
        return Fail(GroupNotFound);
      }
      var found := IndexOf(memberships, group, login);
      assert |GroupNotFound.errorKey| == 10 && |NotMember.errorKey| == 10 && |OwnerCannotLeave.errorKey| == 18;
      if found.None? {
        return Fail(NotMember);
      }
      var i := found.value;
      if memberships[i].role == Owner {
        return Fail(OwnerCannotLeave);
      }
      RemoveKeepsWellFormed(groups.Keys, memberships, i);
      memberships := RemoveAt(memberships, i);
      r := Pass;
    }

    /** `getUserWorkGroups`: the groups `login` belongs to, with its role in each. */
    function GetUserWorkGroups(login: Login): (r: seq<UserWorkGroup>)
      reads this
      requires Valid()
      ensures forall e :: e in r ==>
        e.groupId in groups && e.groupName == groups[e.groupId].name &&
        HasRoleIn(memberships, e.groupId, login, {e.role})
      ensures forall i :: 0 <= i < |memberships| && memberships[i].login == login ==>
        UserWorkGroup(memberships[i].group, groups[memberships[i].group].name, memberships[i].role) in r
    {
      UserGroups(memberships, groups, login)
    }

    /** `getAllMembersWithRoles`: the members of `group` with their roles. */
    function GetAllMembersWithRoles(group: Id): (r: seq<MemberWithRole>)
      reads this
      ensures forall e :: e in r ==> HasRoleIn(memberships, group, e.login, {e.role})
      ensures forall i :: 0 <= i < |memberships| && memberships[i].group == group ==>
        MemberWithRole(memberships[i].login, memberships[i].role, memberships[i].joinDate) in r
    {
      GroupMembers(memberships, group)
    }
  }
}
