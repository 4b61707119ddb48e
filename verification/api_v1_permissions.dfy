/** The permission classes of the versioned API. */
module ApiV1Permissions {
  import opened Http
  import opened UsersModels

  /** `AdminOnly.has_permission`: an authenticated staff member or admin. */
  predicate AdminOnly(req: Requester)
  {
    req.Authenticated? && (req.user.isStaff || IsAdmin(req.user))
  }

  /** `AdminOnlyOrReadOnly.has_permission`: a safe method, else `AdminOnly`. */
  predicate AdminOnlyOrReadOnly(m: Method, req: Requester)
  {
    if IsSafe(m) then true
    else req.Authenticated? && (req.user.isStaff || IsAdmin(req.user))
  }

  /**
   * `AuthorOrModeratorOrAdmin` defines only the object hook, so at request
   * level (list, create) the inherited `has_permission` lets every request through.
   */
  predicate AuthorOrModeratorOrAdminRequest(m: Method, req: Requester)
  {
    true
  }

  /**
   * `AuthorOrModeratorOrAdmin.has_object_permission`: a safe method, the
   * author, an admin or a moderator. On an unsafe method the anonymous user
   * fails the author test and then has no `is_admin` to read.
   */
  function AuthorOrModeratorOrAdmin(m: Method, req: Requester, author: UserId): Verdict
  {
    if IsSafe(m) then Grant
    else if req.Anonymous? then Raise
    else FromBool(req.user.id == author || IsAdmin(req.user) || IsModerator(req.user))
  }

  lemma AdminOnlyIffStaffOrAdmin(req: Requester)
    ensures req.Anonymous? ==> !AdminOnly(req)
    ensures req.Authenticated? ==> (AdminOnly(req) <==> req.user.isStaff || IsAdmin(req.user))
  {
  }

  lemma AdminOnlyOrReadOnlyDecides(m: Method, req: Requester)
    ensures IsSafe(m) ==> AdminOnlyOrReadOnly(m, req)
    ensures !IsSafe(m) ==> (AdminOnlyOrReadOnly(m, req) <==> AdminOnly(req))
  {
  }

  lemma AuthorOrModeratorOrAdminDecides(m: Method, req: Requester, author: UserId)
    ensures AuthorOrModeratorOrAdminRequest(m, req)
    ensures IsSafe(m) ==> AuthorOrModeratorOrAdmin(m, req, author) == Grant
    ensures !IsSafe(m) && req.Authenticated? ==>
      (AuthorOrModeratorOrAdmin(m, req, author) == Grant <==>
         req.user.id == author || IsAdmin(req.user) || IsModerator(req.user))
  {
  }

  /** A plain user who is not the author is refused every unsafe method. */
  lemma PlainNonAuthorRefused(m: Method, u: User, author: UserId)
    requires !IsSafe(m)
    requires u.role == PlainUser && !u.isSuperuser && u.id != author
    ensures AuthorOrModeratorOrAdmin(m, Authenticated(u), author) == Deny
  {
  }

  /** Raising a user's role from `user` to `moderator` or `admin` revokes nothing. */
  lemma PromotionRevokesNothing(m: Method, u: User, r: Role, author: UserId)
    requires u.role == PlainUser
    ensures AuthorOrModeratorOrAdmin(m, Authenticated(u), author) == Grant ==>
      AuthorOrModeratorOrAdmin(m, Authenticated(u.(role := r)), author) == Grant
    ensures AdminOnly(Authenticated(u)) ==> AdminOnly(Authenticated(u.(role := r)))
    ensures AdminOnlyOrReadOnly(m, Authenticated(u)) ==> AdminOnlyOrReadOnly(m, Authenticated(u.(role := r)))
  {
  }
}
