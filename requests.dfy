/** What a request carries into the permission and view code: its method and its user. */
module Requests {
  import opened Models

  datatype HttpMethod = GET | HEAD | OPTIONS | POST | PUT | PATCH | DELETE | TRACE | CONNECT

  /** The framework's SAFE_METHODS. */
  predicate IsSafe(m: HttpMethod) {
    m == GET || m == HEAD || m == OPTIONS
  }

  /**
   * `request.user`: an anonymous user, which has no role, or a stored user
   * identified by its primary key.
   */
  datatype Actor = Anonymous | Member(id: Id, role: Role, isSuperuser: bool) {
    predicate IsAuthenticated() {
      Member?
    }
  }
}
