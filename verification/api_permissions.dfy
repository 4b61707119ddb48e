/**
 * The permission classes of the top-level API. Each `has_permission` or
 * `has_object_permission` is a function of the request method, the
 * requesting user and, for object hooks, the object's author.
 */
module ApiPermissions {
  import opened Http
  import opened UsersModels

  /** `AdminOnly.has_permission`: an authenticated staff member or admin. */
  predicate AdminOnly(req: Requester)
  {
    req.Authenticated? && (req.user.isStaff || IsAdmin(req.user))
  }

  /** `ReadOnly.has_permission`: the method alone decides. */
  predicate ReadOnly(m: Method)
  {
    IsSafe(m)
  }

  /**
   * `IsAuthor.has_object_permission`: `obj.author == request.user`. Model
   * instances compare by primary key; the anonymous user equals no row.
   */
  predicate IsAuthor(req: Requester, author: UserId)
  {
    req.Authenticated? && req.user.id == author
  }

  /**
   * `AuthorOrModeratorOrAdmin.has_object_permission`. The disjuncts are
   * evaluated left to right; for the anonymous user on an unsafe method the
   * author test is false and reading `is_admin`, which the anonymous user does
   * not have, raises.
   */
  function AuthorOrModeratorOrAdmin(m: Method, req: Requester, author: UserId): Verdict
  {
    if IsSafe(m) then Grant
    else if req.Anonymous? then Raise
    else FromBool(req.user.id == author || IsAdmin(req.user) || IsModerator(req.user))
  }

  lemma AdminOnlyIffStaffOrAdmin(req: Requester)
    ensures req.Anonymous? ==> !AdminOnly(req)
    ensures req.Authenticated? ==> (AdminOnly(req) <==> req.user.isStaff || IsAdmin(req.user))
  {
  }

  lemma ReadOnlyIgnoresUser(m: Method)
    ensures ReadOnly(m) <==> m in {GET, HEAD, OPTIONS}
  {
  }

  lemma AuthorOrModeratorOrAdminDecides(m: Method, req: Requester, author: UserId)
    ensures IsSafe(m) ==> AuthorOrModeratorOrAdmin(m, req, author) == Grant
    ensures !IsSafe(m) && req.Authenticated? ==>
      (AuthorOrModeratorOrAdmin(m, req, author) == Grant <==>
         req.user.id == author || IsAdmin(req.user) || IsModerator(req.user))
    ensures !IsSafe(m) && req.Authenticated? ==> AuthorOrModeratorOrAdmin(m, req, author) != Raise
  {
  }

  /** Whenever `IsAuthor` holds, `AuthorOrModeratorOrAdmin` grants too. */
  lemma AuthorIsGranted(m: Method, req: Requester, author: UserId)
    requires IsAuthor(req, author)
    ensures AuthorOrModeratorOrAdmin(m, req, author) == Grant
  {
  }
}
