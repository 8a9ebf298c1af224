/**
 * The front end's check of whether an authority list may manage work groups
 * and task statuses: administrators and work-group owners or moderators may.
 */
module RoleUtils {
  import opened Common

  /** The administrator authority. */
  const Admin: string := "ROLE_ADMIN"
  /** `WORKGROUP_ROLES.OWNER`. */
  const WorkGroupOwner: string := "ROLE_WORKGROUP_OWNER"
  /** `WORKGROUP_ROLES.MODERADOR`. */
  const WorkGroupModerador: string := "ROLE_WORKGROUP_MODERADOR"
  /** `WORKGROUP_ROLES.MIEMBRO`. */
  const WorkGroupMiembro: string := "ROLE_WORKGROUP_MIEMBRO"

  /** `authorities.includes(a)`. */
  function Includes(authorities: seq<string>, a: string): (b: bool)
    ensures b <==> a in authorities
  {
    if authorities == [] then false
    else authorities[0] == a || Includes(authorities[1..], a)
  }

  /** `authorities.some(auth => auth === OWNER || auth === MODERADOR)`. */
  function SomeManager(authorities: seq<string>): (b: bool)
    ensures b <==> WorkGroupOwner in authorities || WorkGroupModerador in authorities
  {
    if authorities == [] then false
    else authorities[0] == WorkGroupOwner || authorities[0] == WorkGroupModerador || SomeManager(authorities[1..])
  }

  /**
   * `checkWorkGroupManagementPermission`: a missing or empty list grants
   * nothing; the administrator authority grants everything; otherwise an
   * owner or moderator authority is needed.
   */
  function CheckWorkGroupManagementPermission(authorities: Option<seq<string>>): (b: bool)
    ensures authorities.None? || authorities.value == [] ==> !b
    ensures authorities.Some? && Admin in authorities.value ==> b
    ensures authorities.Some? && Admin !in authorities.value ==>
      (b <==> WorkGroupOwner in authorities.value || WorkGroupModerador in authorities.value)
  {
    if authorities.None? || |authorities.value| == 0 then false
    else if Includes(authorities.value, Admin) then true
    else SomeManager(authorities.value)
  }

  /** MIEMBRO alone, however often repeated, grants nothing. */
  lemma MiembroAloneGrantsNothing(authorities: seq<string>)
    requires forall k :: 0 <= k < |authorities| ==> authorities[k] == WorkGroupMiembro
    ensures !CheckWorkGroupManagementPermission(Some(authorities))
  {
    assert Admin !in authorities && WorkGroupOwner !in authorities && WorkGroupModerador !in authorities;
  }

  /** Adding authorities never withdraws the permission. */
  lemma PermissionMonotone(smaller: seq<string>, larger: seq<string>)
    requires forall a :: a in smaller ==> a in larger
    ensures CheckWorkGroupManagementPermission(Some(smaller)) ==> CheckWorkGroupManagementPermission(Some(larger))
  {
    if CheckWorkGroupManagementPermission(Some(smaller)) {
      assert smaller[0] in larger;
    }
  }

  /** The answer depends only on which authorities are present, not on order or repetition. */
  lemma PermissionDependsOnSetOnly(a: seq<string>, b: seq<string>)
    requires (set x | x in a) == (set x | x in b)
    ensures CheckWorkGroupManagementPermission(Some(a)) == CheckWorkGroupManagementPermission(Some(b))
  {
    var sa, sb := set y | y in a, set y | y in b;
    forall x | x in a ensures x in b {
      assert x in sa;
      assert x in sb;
    }
    forall x | x in b ensures x in a {
      assert x in sb;
      assert x in sa;
    }
    PermissionMonotone(a, b);
    PermissionMonotone(b, a);
  }
}
