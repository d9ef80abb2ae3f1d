/** The two permission classes of the API as decisions over the request's method and user. */
module Permissions {
  import opened Models
  import opened Requests

  /** Authenticated, and a superuser or of role admin. */
  predicate IsAdministrator(a: Actor) {
    a.IsAuthenticated() && (a.isSuperuser || a.role == AdminRole)
  }

  /** AdminOnlyExceptUpdateDestroy.has_permission: PATCH and DELETE always pass the view-level check. */
  function AdminOnlyHasPermission(m: HttpMethod, a: Actor): (allowed: bool)
    ensures m != PATCH && m != DELETE ==>
      (allowed <==> a.IsAuthenticated() && (a.isSuperuser || a.role == AdminRole))
    ensures m == PATCH || m == DELETE ==> allowed
  {
    if m != PATCH && m != DELETE then IsAdministrator(a) else true
  }

  /** AdminOnlyExceptUpdateDestroy.has_object_permission: the method plays no part. */
  function AdminOnlyHasObjectPermission(m: HttpMethod, a: Actor): (allowed: bool)
    ensures allowed <==> a.IsAuthenticated() && (a.isSuperuser || a.role == AdminRole)
  {
    IsAdministrator(a)
  }

  /** The object-level admin check gives the same answer for every method. */
  lemma AdminObjectCheckIgnoresMethod(m: HttpMethod, m': HttpMethod, a: Actor)
    ensures AdminOnlyHasObjectPermission(m, a) == AdminOnlyHasObjectPermission(m', a)
  {
  }

  /** IsOwnerOrModerOrAdmin.has_permission: only POST needs a logged-in user. */
  function OwnerOrStaffHasPermission(m: HttpMethod, a: Actor): (allowed: bool)
    ensures m == POST ==> (allowed <==> a.IsAuthenticated())
    ensures m != POST ==> allowed
  {
    if m == POST then a.IsAuthenticated() else true
  }

  /** `obj.author == request.user`; an anonymous user is nobody's author. */
  predicate IsAuthor(a: Actor, author: Id) {
    a.Member? && a.id == author
  }

  /**
   * IsOwnerOrModerOrAdmin.has_object_permission: reading is open to everyone;
   * anything else needs the author, a moderator, an admin or a superuser.
   */
  function OwnerOrStaffHasObjectPermission(m: HttpMethod, a: Actor, author: Id): (allowed: bool)
    ensures IsSafe(m) ==> allowed
    ensures !IsSafe(m) ==>
      (allowed <==> a.IsAuthenticated() && (a.id == author || a.isSuperuser || a.role == AdminRole || a.role == ModeratorRole))
  {
    if !IsSafe(m) then
      a.IsAuthenticated() && (IsAuthor(a, author) || a.isSuperuser || a.role == AdminRole || a.role == ModeratorRole)
    else
      true
  }

  /** A logged-in plain user who is not the author may do nothing but read the object. */
  lemma PlainNonAuthorOnlyReads(m: HttpMethod, id: Id, author: Id)
    requires id != author
    ensures OwnerOrStaffHasObjectPermission(m, Member(id, UserRole, false), author) <==> IsSafe(m)
  {
  }

  /** Whoever passes the admin-only object check also passes the owner-or-staff object check. */
  lemma AdministratorPassesOwnerCheck(m: HttpMethod, a: Actor, author: Id)
    requires AdminOnlyHasObjectPermission(m, a)
    ensures OwnerOrStaffHasObjectPermission(m, a, author)
  {
  }

  /** Anonymous users are refused every object action except reading by the owner-or-staff class. */
  lemma AnonymousOnlyReads(m: HttpMethod, author: Id)
    ensures OwnerOrStaffHasObjectPermission(m, Anonymous, author) <==> IsSafe(m)
    ensures !AdminOnlyHasObjectPermission(m, Anonymous)
  {
  }
}
