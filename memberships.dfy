/**
 * The work-group membership table: one row per (work group, user) with the
 * user's role in that group, and the queries the services run against it.
 *
 * The table is a sequence of rows in repository order. Its two integrity
 * rules, one row per (group, login) and exactly one OWNER per group, are not
 * enforced by the database; they are invariants that the work-group service
 * keeps, stated here as `WellFormed` and proved for each kind of change by the
 * lemmas at the end of the module.
 */
module Memberships {
  import opened Common

  /** The role a user holds in a work group. */
  datatype Role = Owner | Moderador | Miembro

  /** One row of the membership table. */
  datatype Membership = Membership(group: Id, login: Login, role: Role, joinDate: Instant)

  /** The permission check helpers either let the call through or say why not. */
  datatype Check = Granted | NoLogin | Denied

  /** True when row `m` is `login`'s row in `group` and carries one of `roles`. */
  predicate Grants(m: Membership, group: Id, login: Login, roles: set<Role>) {
    m.group == group && m.login == login && m.role in roles
  }

  /** True when row `m` is the OWNER row of `group`. */
  predicate IsOwnerRow(m: Membership, group: Id) {
    m.group == group && m.role == Owner
  }

  /**
   * Repository query `existsByWorkGroupIdAndUserLoginAndRoleIn` (and, with a
   * one-element set, `existsByWorkGroupIdAndUserLoginAndRole`): is there a row
   * of `login` in `group` whose role is one of `roles`?
   */
  function HasRoleIn(rows: seq<Membership>, group: Id, login: Login, roles: set<Role>): (b: bool)
    ensures b <==> exists i :: 0 <= i < |rows| && Grants(rows[i], group, login, roles)
  {
    if rows == [] then false
    else if Grants(rows[0], group, login, roles) then true
    else
      var rest := HasRoleIn(rows[1..], group, login, roles);
      assert rest ==> exists i :: 0 <= i < |rows| && Grants(rows[i], group, login, roles) by {
        if rest {
          var i :| 0 <= i < |rows[1..]| && Grants(rows[1..][i], group, login, roles);
          assert Grants(rows[i + 1], group, login, roles);
        }
      }
      assert !rest ==> forall i :: 0 <= i < |rows| ==> !Grants(rows[i], group, login, roles) by {
        if !rest {
          forall i | 0 <= i < |rows| ensures !Grants(rows[i], group, login, roles) {
            if i > 0 { assert rows[i] == rows[1..][i - 1]; }
          }
        }
      }
      rest
  }

  /**
   * Repository query `existsByUserLoginAndRoleIn`: does `login` hold one of
   * `roles` in any work group at all?
   */
  function HasRoleInAnyGroup(rows: seq<Membership>, login: Login, roles: set<Role>): (b: bool)
    ensures b <==> exists i :: 0 <= i < |rows| && rows[i].login == login && rows[i].role in roles
  {
    if rows == [] then false
    else if rows[0].login == login && rows[0].role in roles then true
    else
      var rest := HasRoleInAnyGroup(rows[1..], login, roles);
      assert rest ==> exists i :: 0 <= i < |rows| && rows[i].login == login && rows[i].role in roles by {
        if rest {
          var i :| 0 <= i < |rows[1..]| && rows[1..][i].login == login && rows[1..][i].role in roles;
          assert rows[i + 1] == rows[1..][i];
        }
      }
      assert !rest ==> forall i :: 0 <= i < |rows| ==> !(rows[i].login == login && rows[i].role in roles) by {
        if !rest {
          forall i | 0 <= i < |rows| ensures !(rows[i].login == login && rows[i].role in roles) {
            if i > 0 { assert rows[i] == rows[1..][i - 1]; }
          }
        }
      }
      rest
  }

  /**
   * Repository query `findByWorkGroupAndUser` (also `findByWorkGroupAndUserLogin`):
   * the position of the first row of `login` in `group`, if any.
   */
  function IndexOf(rows: seq<Membership>, group: Id, login: Login): (r: Option<nat>)
    ensures r.Some? ==> r.value < |rows| && rows[r.value].group == group && rows[r.value].login == login
    ensures r.None? <==> forall i :: 0 <= i < |rows| ==> !(rows[i].group == group && rows[i].login == login)
  {
    if rows == [] then None
    else if rows[0].group == group && rows[0].login == login then Some(0)
    else
      match IndexOf(rows[1..], group, login)
      case None =>
        assert forall i :: 1 <= i < |rows| ==> rows[i] == rows[1..][i - 1];
        None
      case Some(j) => Some(j + 1)
  }

  /**
   * Repository query `findByWorkGroupAndRole(group, OWNER)`: the position of
   * the first OWNER row of `group`, if any.
   */
  function OwnerIndex(rows: seq<Membership>, group: Id): (r: Option<nat>)
    ensures r.Some? ==> r.value < |rows| && IsOwnerRow(rows[r.value], group)
    ensures r.None? <==> forall i :: 0 <= i < |rows| ==> !IsOwnerRow(rows[i], group)
  {
    if rows == [] then None
    else if IsOwnerRow(rows[0], group) then Some(0)
    else
      match OwnerIndex(rows[1..], group)
      case None =>
        assert forall i :: 1 <= i < |rows| ==> rows[i] == rows[1..][i - 1];
        None
      case Some(j) => Some(j + 1)
  }

  /** Repository query `existsByWorkGroupAndUser`: does `login` have a row in `group`? */
  predicate IsMember(rows: seq<Membership>, group: Id, login: Login) {
    IndexOf(rows, group, login).Some?
  }

  /**
   * The permission helpers of the services (`validateAdminOrGroupOwner`,
   * `validateAdminOrGroupOwnerOrModerator`): an admin always passes; anyone
   * else needs a login and a row in `group` with one of `roles`.
   */
  function CheckGroupRole(rows: seq<Membership>, group: Id, caller: Caller, roles: set<Role>): (c: Check)
    ensures c == Granted <==>
      caller.admin || (caller.login.Some? && exists i :: 0 <= i < |rows| && Grants(rows[i], group, caller.login.value, roles))
    ensures c == NoLogin <==> !caller.admin && caller.login.None?
  {
    if caller.admin then Granted
    else if caller.login.None? then NoLogin
    else if HasRoleIn(rows, group, caller.login.value, roles) then Granted
    else Denied
  }

  /** The roles `validateAdminOrGroupOwner` accepts. */
  const OwnerOnly: set<Role> := {Owner}

  /** The roles `validateAdminOrGroupOwnerOrModerator` accepts. */
  const OwnerOrModerator: set<Role> := {Owner, Moderador}

  /** The number of OWNER rows of `group`. */
  function OwnerCount(rows: seq<Membership>, group: Id): nat {
    if rows == [] then 0
    else (if IsOwnerRow(rows[0], group) then 1 else 0) + OwnerCount(rows[1..], group)
  }

  /** No two rows share a (group, login) pair. */
  predicate UniqueKeys(rows: seq<Membership>) {
    forall i, j :: 0 <= i < j < |rows| ==> !(rows[i].group == rows[j].group && rows[i].login == rows[j].login)
  }

  /**
   * The integrity of the membership table that the work-group service keeps:
   * at most one row per (group, login), rows only for existing groups, and
   * exactly one OWNER row per existing group.
   */
  predicate WellFormed(groups: set<Id>, rows: seq<Membership>) {
    UniqueKeys(rows) &&
    (forall i :: 0 <= i < |rows| ==> rows[i].group in groups) &&
    (forall g :: g in groups ==> OwnerCount(rows, g) == 1)
  }

  // ---------------------------------------------------------------------
  // Lemmas: how the owner count and the key uniqueness react to the three
  // kinds of change the services make (insert, role change, delete).
  // ---------------------------------------------------------------------

  /** A group has an OWNER row exactly when its owner count is positive. */
  lemma {:induction false} OwnerCountPositive(rows: seq<Membership>, group: Id)
    ensures OwnerCount(rows, group) > 0 <==> exists i :: 0 <= i < |rows| && IsOwnerRow(rows[i], group)
  {
    if rows != [] {
      OwnerCountPositive(rows[1..], group);
      if OwnerCount(rows[1..], group) > 0 {
        var i :| 0 <= i < |rows[1..]| && IsOwnerRow(rows[1..][i], group);
        assert IsOwnerRow(rows[i + 1], group);
      }
      if exists i :: 0 <= i < |rows| && IsOwnerRow(rows[i], group) {
        var i :| 0 <= i < |rows| && IsOwnerRow(rows[i], group);
        if i > 0 { assert IsOwnerRow(rows[1..][i - 1], group); }
      }
    }
  }

  /** Two distinct OWNER rows of one group make its owner count at least two. */
  lemma {:induction false} TwoOwnerRows(rows: seq<Membership>, group: Id, i: nat, j: nat)
    requires i < j < |rows|
    requires IsOwnerRow(rows[i], group) && IsOwnerRow(rows[j], group)
    ensures OwnerCount(rows, group) >= 2
  {
    if i == 0 {
      assert IsOwnerRow(rows[1..][j - 1], group);
      OwnerCountPositive(rows[1..], group);
    } else {
      TwoOwnerRows(rows[1..], group, i - 1, j - 1);
    }
  }

  /**
   * With exactly one OWNER row, `findByWorkGroupAndRole(group, OWNER)` finds
   * it, and it is the only one.
   */
  lemma SingleOwner(rows: seq<Membership>, group: Id)
    requires OwnerCount(rows, group) == 1
    ensures OwnerIndex(rows, group).Some?
    ensures forall j :: 0 <= j < |rows| && IsOwnerRow(rows[j], group) ==> j == OwnerIndex(rows, group).value
  {
    OwnerCountPositive(rows, group);
    var k := OwnerIndex(rows, group).value;
    forall j | 0 <= j < |rows| && IsOwnerRow(rows[j], group) ensures j == k {
      if j < k { TwoOwnerRows(rows, group, j, k); }
      else if k < j { TwoOwnerRows(rows, group, k, j); }
    }
  }

  /** Appending a row adds one to its group's owner count if it is an OWNER row. */
  lemma {:induction false} OwnerCountAppend(rows: seq<Membership>, m: Membership, group: Id)
    ensures OwnerCount(rows + [m], group) == OwnerCount(rows, group) + (if IsOwnerRow(m, group) then 1 else 0)
  {
    if rows != [] {
      assert (rows + [m])[1..] == rows[1..] + [m];
      OwnerCountAppend(rows[1..], m, group);
    }
  }

  /** Replacing one row adjusts the owner count by the old and the new row only. */
  lemma {:induction false} OwnerCountUpdate(rows: seq<Membership>, i: nat, m: Membership, group: Id)
    requires i < |rows|
    ensures OwnerCount(rows[i := m], group) ==
      OwnerCount(rows, group) - (if IsOwnerRow(rows[i], group) then 1 else 0) + (if IsOwnerRow(m, group) then 1 else 0)
  {
    if i == 0 {
      assert rows[i := m][1..] == rows[1..];
    } else {
      assert rows[i := m][1..] == rows[1..][i - 1 := m];
      OwnerCountUpdate(rows[1..], i - 1, m, group);
    }
  }

  /** Deleting one row subtracts it from the owner count if it was an OWNER row. */
  lemma {:induction false} OwnerCountRemove(rows: seq<Membership>, i: nat, group: Id)
    requires i < |rows|
    ensures OwnerCount(rows[..i] + rows[i + 1..], group) ==
      OwnerCount(rows, group) - (if IsOwnerRow(rows[i], group) then 1 else 0)
  {
    if i == 0 {
      assert rows[..i] + rows[i + 1..] == rows[1..];
    } else {
      assert (rows[..i] + rows[i + 1..])[1..] == rows[1..][..i - 1] + rows[1..][i..];
      OwnerCountRemove(rows[1..], i - 1, group);
    }
  }

  /** A group without rows has no owner. */
  lemma {:induction false} OwnerCountNoRows(rows: seq<Membership>, group: Id)
    requires forall i :: 0 <= i < |rows| ==> rows[i].group != group
    ensures OwnerCount(rows, group) == 0
  {
    if rows != [] {
      OwnerCountNoRows(rows[1..], group);
    }
  }

  /**
   * With unique keys, `login` holds one of `roles` in `group` exactly when the
   * row the lookup finds has one of them.
   */
  lemma RoleOfFoundRow(rows: seq<Membership>, group: Id, login: Login, roles: set<Role>)
    requires UniqueKeys(rows)
    ensures HasRoleIn(rows, group, login, roles) <==>
      IndexOf(rows, group, login).Some? && rows[IndexOf(rows, group, login).value].role in roles
  {
    var found := IndexOf(rows, group, login);
    if HasRoleIn(rows, group, login, roles) {
      var i :| 0 <= i < |rows| && Grants(rows[i], group, login, roles);
      var j := found.value;
      assert !(i < j) && !(j < i);
    }
  }

  /** The table with row `i` given role `role` (`setRole` followed by `save`). */
  function SetRole(rows: seq<Membership>, i: nat, role: Role): seq<Membership>
    requires i < |rows|
  {
    rows[i := rows[i].(role := role)]
  }

  /** The table without row `i` (the repository's `delete`). */
  function RemoveAt(rows: seq<Membership>, i: nat): seq<Membership>
    requires i < |rows|
  {
    rows[..i] + rows[i + 1..]
  }

  /** Inserting a non-OWNER row for a new (group, login) pair keeps the table well formed. */
  lemma AppendKeepsWellFormed(groups: set<Id>, rows: seq<Membership>, m: Membership)
    requires WellFormed(groups, rows)
    requires m.group in groups && m.role != Owner
    requires !IsMember(rows, m.group, m.login)
    ensures WellFormed(groups, rows + [m])
  {
    forall g | g in groups ensures OwnerCount(rows + [m], g) == 1 {
      OwnerCountAppend(rows, m, g);
    }
  }

  /** Changing a non-OWNER row to another non-OWNER role keeps the table well formed. */
  lemma SetRoleKeepsWellFormed(groups: set<Id>, rows: seq<Membership>, i: nat, role: Role)
    requires WellFormed(groups, rows)
    requires i < |rows| && rows[i].role != Owner && role != Owner
    ensures WellFormed(groups, SetRole(rows, i, role))
  {
    forall g | g in groups ensures OwnerCount(SetRole(rows, i, role), g) == 1 {
      OwnerCountUpdate(rows, i, rows[i].(role := role), g);
    }
  }

  /** Deleting a non-OWNER row keeps the table well formed. */
  lemma RemoveKeepsWellFormed(groups: set<Id>, rows: seq<Membership>, i: nat)
    requires WellFormed(groups, rows)
    requires i < |rows| && rows[i].role != Owner
    ensures WellFormed(groups, RemoveAt(rows, i))
  {
    var r := RemoveAt(rows, i);
    forall g | g in groups ensures OwnerCount(r, g) == 1 {
      OwnerCountRemove(rows, i, g);
    }
    forall a, b | 0 <= a < b < |r| ensures !(r[a].group == r[b].group && r[a].login == r[b].login) {
      var a', b' := if a < i then a else a + 1, if b < i then b else b + 1;
      assert r[a] == rows[a'] && r[b] == rows[b'];
    }
  }

  /**
   * Creating group `id` together with its creator's OWNER row keeps the table
   * well formed, provided no row mentions `id` yet.
   */
  lemma NewGroupKeepsWellFormed(groups: set<Id>, rows: seq<Membership>, id: Id, login: Login, now: Instant)
    requires WellFormed(groups, rows)
    requires id !in groups
    ensures WellFormed(groups + {id}, rows + [Membership(id, login, Owner, now)])
  {
    var m := Membership(id, login, Owner, now);
    forall g | g in groups + {id} ensures OwnerCount(rows + [m], g) == 1 {
      OwnerCountAppend(rows, m, g);
      if g == id { OwnerCountNoRows(rows, id); }
    }
  }
}
