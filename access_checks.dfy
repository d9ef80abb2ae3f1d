/** The guard helpers of the API: each one allows, or answers 401 or 403. */
module AccessChecks {
  import opened Wrappers
  import opened Models
  import opened Requests
  import Permissions

  /**
   * The outcome of a guard. `Crash` stands for the attribute error raised when
   * the role of an anonymous user is read.
   */
  datatype Verdict = Allow | Unauthorized | Forbidden | Crash {
    /** The status of the response a guard returns or raises; none when it allows. */
    function Status(): Option<nat> {
      match this
      case Allow => None
      case Unauthorized => Some(401)
      case Forbidden => Some(403)
      case Crash => Some(500)
    }
  }

  /** check_admin_permission: 401 before any role check, then 403 for users and moderators. */
  function CheckAdminPermission(a: Actor): (v: Verdict)
    ensures v == Unauthorized <==> !a.IsAuthenticated()
    ensures v == Forbidden <==> a.IsAuthenticated() && (a.role == UserRole || a.role == ModeratorRole)
    ensures v == Allow <==> a.IsAuthenticated() && a.role == AdminRole
  {
    if !a.IsAuthenticated() then Unauthorized
    else if a.role == UserRole || a.role == ModeratorRole then Forbidden
    else assert a.role.AdminRole?; Allow
  }

  /** check_authentication */
  function CheckAuthentication(a: Actor): (v: Verdict)
    ensures v == Unauthorized <==> !a.IsAuthenticated()
    ensures v != Unauthorized ==> v == Allow
  {
    if !a.IsAuthenticated() then Unauthorized else Allow
  }

  /**
   * check_self_action: a plain user may act only on their own account. An
   * anonymous user differs from every account and has no role to read.
   */
  function CheckSelfAction(a: Actor, target: Id): (v: Verdict)
    ensures v == Crash <==> !a.IsAuthenticated()
    ensures v == Forbidden <==> a.IsAuthenticated() && a.id != target && a.role == UserRole
    ensures v != Unauthorized
    ensures a.IsAuthenticated() && a.id == target ==> v == Allow
  {
    if !a.IsAuthenticated() then Crash
    else if a.id != target && a.role == UserRole then Forbidden
    else Allow
  }

  /** Moderators and admins are never refused by check_self_action. */
  lemma StaffMayActOnAnyone(id: Id, role: Role, isSuperuser: bool, target: Id)
    requires role == ModeratorRole || role == AdminRole
    ensures CheckSelfAction(Member(id, role, isSuperuser), target) == Allow
  {
  }

  /** The superuser flag is never consulted: a superuser of role `user` is refused. */
  lemma SuperuserFlagIgnored(id: Id, role: Role)
    ensures CheckAdminPermission(Member(id, role, true)) == CheckAdminPermission(Member(id, role, false))
    ensures CheckAdminPermission(Member(id, UserRole, true)).Status() == Some(403)
  {
  }

  /**
   * The helper and the permission class disagree on superusers: the class lets
   * a superuser of role `user` through, the helper does not. Otherwise the
   * helper's Allow implies the class's object permission.
   */
  lemma AdminCheckVersusPermissionClass(m: HttpMethod, a: Actor)
    ensures CheckAdminPermission(a) == Allow ==> Permissions.AdminOnlyHasObjectPermission(m, a)
    ensures Permissions.AdminOnlyHasObjectPermission(m, a) && CheckAdminPermission(a) != Allow
      <==> a.IsAuthenticated() && a.isSuperuser && a.role != AdminRole
  {
  }

  /** check_admin_permission answers 401 exactly when check_authentication does. */
  lemma AuthenticationComesFirst(a: Actor)
    ensures CheckAdminPermission(a) == Unauthorized <==> CheckAuthentication(a) == Unauthorized
  {
  }
}
