/**
 * The views of the top-level API: signup and token exchange, the caller's
 * own profile, the permission setup of every view set, and the creation of
 * reviews and comments under their parent in the URL.
 */
module ApiViews {
  import opened Wrappers
  import opened Seqs
  import opened UsersModels
  import opened ReviewsModels
  import opened Store
  import opened Http
  import opened ApiPermissions
  import opened ApiSerializers

  /* ---------- UserCreateViewSet.create ---------- */

  /**
   * The request validated against the user table, then `get_or_create` on the
   * validated pair, and a code mailed to the user's email.
   */
  function UserCreate(db: Tables, username: string, email: string): SignupReply
  {
    if !SignupValid(db.users, username, email) then SignupReply(BadRequest400, None, db)
    else SignupReply(Ok200, Some(email), AfterGetOrCreate(db, username, email))
  }

  /** A valid signup creates exactly one user and mails the code to its email; any other is a 400 that changes nothing. */
  lemma UserCreateOutcomes(db: Tables, username: string, email: string)
    requires Consistent(db)
    ensures var o := UserCreate(db, username, email);
      && Consistent(o.db)
      && (o.status == Ok200 <==> SignupValid(db.users, username, email))
      && (o.status == Ok200 ==>
            && o.sentTo == Some(email)
            && o.db == db.(users := db.users + [NewUser(db.nextId, username, email)], nextId := db.nextId + 1))
      && (o.status != Ok200 ==> o.status == BadRequest400 && o.sentTo.None? && o.db == db)
  {
    GetOrCreateEffect(db, username, email);
    if SignupValid(db.users, username, email) {
      ValidSignupIsFresh(db, username, email);
    }
  }

  /** Repeating an accepted signup is refused by the unique validators and changes nothing. */
  lemma RepeatedUserCreateRefused(db: Tables, username: string, email: string)
    requires Consistent(db)
    requires UserCreate(db, username, email).status == Ok200
    ensures var o := UserCreate(db, username, email);
      var again := UserCreate(o.db, username, email);
      again.status == BadRequest400 && again.sentTo.None? && again.db == o.db
  {
    UserCreateOutcomes(db, username, email);
    var o := UserCreate(db, username, email);
    var u := NewUser(db.nextId, username, email);
    assert u in o.db.users;
    RepeatedSignupRefused(o.db.users, u, email);
  }

  method CreateUser(db: Database, username: string, email: string) returns (status: Status, sentTo: Option<string>)
    requires db.Valid()
    modifies db
    ensures db.Valid()
    ensures SignupReply(status, sentTo, db.Contents()) == UserCreate(old(db.Contents()), username, email)
  {
    if !SignupValid(db.users, username, email) {
      return BadRequest400, None;
    }
    ValidSignupIsFresh(db.Contents(), username, email);
    var g := db.GetOrCreate(username, email);
    return Ok200, Some(g.user.email);
  }

  /* ---------- TokenReceiveViewSet.create ---------- */

  function UsernameIs(username: string): User -> bool
  {
    (u: User) => u.username == username
  }

  /**
   * The request validated, the user fetched by username (404 on
   * `DoesNotExist`), then the code checked; `checkToken` stands for the token
   * generator's check.
   */
  function ReceiveToken(users: seq<User>, username: string, code: string, checkToken: (User, string) -> bool)
    : (r: TokenReply)
    ensures r == InvalidRequest <==> !TokenRequestValid(username, code)
    ensures r == UserNotFound <==> TokenRequestValid(username, code) && forall u :: u in users ==> u.username != username
    ensures r.Token? ==> exists u :: u in users && u.id == r.user && u.username == username && checkToken(u, code)
    ensures r == WrongCode ==> exists u :: u in users && u.username == username && !checkToken(u, code)
  {
    if !TokenRequestValid(username, code) then InvalidRequest
    else match Find(users, UsernameIs(username))
      case None => UserNotFound
      case Some(u) => if checkToken(u, code) then Token(u.id) else WrongCode
  }

  /** A token is issued only for the holder of the username, and only when its code checks. */
  lemma ReceiveTokenDecides(users: seq<User>, u: User, code: string, checkToken: (User, string) -> bool)
    requires UserTableValid(users) && u in users
    requires TokenRequestValid(u.username, code)
    ensures ReceiveToken(users, u.username, code, checkToken) == if checkToken(u, code) then Token(u.id) else WrongCode
  {
    var found := Find(users, UsernameIs(u.username));
    assert UsernameIs(u.username)(u);
    KeyIdentifiesRow(users, UsernameOf, found.value, u);
  }

  /* ---------- UserViewSet.me ---------- */

  /** PATCH on `me`: the profile checks, then `save(role=request.user.role)`. */
  method PatchMe(db: Database, self: User, p: UserPatch) returns (status: Status)
    requires db.Valid() && self in db.users
    modifies db
    ensures db.Valid()
    ensures status == Ok200 || status == BadRequest400
    ensures status == Ok200 <==> ProfilePatchValid(old(db.users), self.id, p)
    ensures status == Ok200 ==> db.Contents() == SaveUser(old(db.Contents()), ApplyPatch(self, p, self.role)).value
    ensures status == BadRequest400 ==> db.Contents() == old(db.Contents())
  {
    if !ProfilePatchValid(db.users, self.id, p) {
      return BadRequest400;
    }
    SavePatchedUser(db.Contents(), self, p, self.role);
    var ok := db.Save(ApplyPatch(self, p, self.role));
    return Ok200;
  }

  /** An accepted profile update never renames the caller to "me", and keeps the role. */
  lemma PatchMeKeepsRole(db: Tables, self: User, p: UserPatch)
    requires Consistent(db) && self in db.users
    requires ProfilePatchValid(db.users, self.id, p)
    ensures var s := SaveUser(db, ApplyPatch(self, p, self.role));
      && s.Ok?
      && forall v :: v in s.value.users && v.id == self.id ==>
           && v.role == self.role && v.isSuperuser == self.isSuperuser && v.isStaff == self.isStaff
           && (p.username.Some? ==> v.username != "me")
  {
    SavePatchedUser(db, self, p, self.role);
  }

  /* ---------- Permission setup ---------- */

  /** Titles and categories: `ReadOnly | AdminOnly`. */
  function CatalogueAccess(m: Method, req: Requester): (a: Access)
    ensures a == Permitted <==> IsSafe(m) || AdminOnly(req)
    ensures a != Permitted ==> a == Refusal(req)
  {
    Gate(ReadOnly(m) || AdminOnly(req), req)
  }

  /** The actions of the genre view set. */
  datatype GenreAction = ListGenres | CreateGenre | DestroyGenre

  /** `GenreViewSet.get_permissions`: `AllowAny` for the list, `IsAuthenticated` and `AdminOnly` otherwise. */
  function GenreAccess(action: GenreAction, req: Requester): (a: Access)
    ensures action == ListGenres ==> a == Permitted
    ensures action != ListGenres ==>
      && (a == Permitted <==> req.Authenticated? && (req.user.isStaff || IsAdmin(req.user)))
      && (a == NotAuthenticated <==> req.Anonymous?)
  {
    if action == ListGenres then Permitted
    else if !IsAuthenticated(req) then Refusal(req)
    else Gate(AdminOnly(req), req)
  }

  /** Users: `IsAuthenticated` and `AdminOnly`; the `me` action: `IsAuthenticated`. */
  function UsersAccess(req: Requester): (a: Access)
    ensures a == Permitted <==> req.Authenticated? && (req.user.isStaff || IsAdmin(req.user))
    ensures a == NotAuthenticated <==> req.Anonymous?
  {
    if !IsAuthenticated(req) then Refusal(req) else Gate(AdminOnly(req), req)
  }

  function MeAccess(req: Requester): (a: Access)
    ensures a == Permitted <==> req.Authenticated?
    ensures a == NotAuthenticated <==> req.Anonymous?
  {
    Gate(IsAuthenticated(req), req)
  }

  /**
   * Reviews: `IsAuthenticated` at request level, reads included, then on a
   * single object (its author given) the `AuthorOrModeratorOrAdmin` hook.
   */
  function ReviewAccess(m: Method, req: Requester, author: Option<UserId>): (a: Access)
    ensures a != Crashed
    ensures req.Anonymous? ==> a == NotAuthenticated
    ensures req.Authenticated? ==>
      (a == Permitted <==>
         IsSafe(m) || author.None? || author.value == req.user.id || IsAdmin(req.user) || IsModerator(req.user))
  {
    if !IsAuthenticated(req) then Refusal(req)
    else if author.None? then Permitted
    else FromVerdict(AuthorOrModeratorOrAdmin(m, req, author.value), req)
  }

  /**
   * Comments as written: only `AuthorOrModeratorOrAdmin`, whose request-level
   * hook is the permissive default. An anonymous edit or delete of a comment
   * reaches the object hook, which raises.
   */
  function CommentAccessAsWritten(m: Method, req: Requester, author: Option<UserId>): (a: Access)
    ensures author.None? ==> a == Permitted
  {
    if author.None? then Permitted
    else FromVerdict(AuthorOrModeratorOrAdmin(m, req, author.value), req)
  }

  /** An anonymous PATCH or DELETE of an existing comment is a 500. */
  lemma AnonymousCommentEditCrashes(m: Method, author: UserId)
    requires !IsSafe(m)
    ensures CommentAccessAsWritten(m, Anonymous, Some(author)) == Crashed
  {
  }

  /** Comments with `IsAuthenticatedOrReadOnly` in front, as on the reviews of the versioned API. */
  function CommentAccess(m: Method, req: Requester, author: Option<UserId>): (a: Access)
    ensures a != Crashed
    ensures !IsSafe(m) && req.Anonymous? ==> a == NotAuthenticated
    ensures a == Permitted <==>
      || IsSafe(m)
      || (req.Authenticated? && (author.None? || author.value == req.user.id || IsAdmin(req.user) || IsModerator(req.user)))
  {
    if !(IsSafe(m) || IsAuthenticated(req)) then Refusal(req)
    else CommentAccessAsWritten(m, req, author)
  }

  /** The gate in front changes exactly the outcomes of anonymous writes. */
  lemma CommentAccessDiffersOnlyForAnonymousWrites(m: Method, req: Requester, author: Option<UserId>)
    ensures CommentAccess(m, req, author) != CommentAccessAsWritten(m, req, author) <==>
      !IsSafe(m) && req.Anonymous?
  {
  }

  /* ---------- ReviewViewSet / CommentViewSet: perform_create ---------- */

  predicate HasReview(db: Tables, title: TitleId, author: UserId)
  {
    exists x :: x in db.reviews && x.title == title && x.author == author
  }

  predicate HasComment(db: Tables, review: ReviewId, author: UserId)
  {
    exists x :: x in db.comments && x.review == review && x.author == author
  }

  /**
   * Creating a review as written. The serializer takes every model field,
   * and its (author, title) `UniqueTogetherValidator` names the read-only
   * `author`, which has no default: validation reports that field missing on
   * every create. Past the request gate (401) the answer is a 400, whatever
   * the payload and the title, and nothing is saved.
   */
  function ReviewCreateAsWritten(db: Tables, req: Requester, title: TitleId, p: ReviewPayload): Reply
  {
    if req.Anonymous? then Reply(Unauthorized401, db)
    else Reply(BadRequest400, db)
  }

  /**
   * As written no review is ever created: even an authenticated author's
   * valid first review of an existing title, which the corrected view
   * creates, is refused with a 400.
   */
  lemma ReviewCreateAsWrittenNeverCreates(db: Tables, req: Requester, title: TitleId, p: ReviewPayload)
    requires Consistent(db)
    requires req.Authenticated? ==> req.user.id in UserIds(db.users)
    ensures ReviewCreateAsWritten(db, req, title, p).db == db
    ensures ReviewCreateAsWritten(db, req, title, p).status != Created201
    ensures req.Authenticated? && ReviewPayloadValid(p) && title in TitleIds(db.titles) && !HasReview(db, title, req.user.id) ==>
      && ReviewCreateAsWritten(db, req, title, p).status == BadRequest400
      && ReviewCreate(db, req, title, p).status == Created201
      && ReviewCreate(db, req, title, p).db != db
  {
    ReviewCreateEffect(db, req, title, p);
    if ReviewCreate(db, req, title, p).status == Created201 {
      assert |ReviewCreate(db, req, title, p).db.reviews| == |db.reviews| + 1;
    }
  }

  /**
   * Creating a review as evidently intended: the request gate (401), the
   * payload and the (URL title, requester) pair (400), the title from the URL
   * (404), then the insert with author and title from the request.
   */
  function ReviewCreate(db: Tables, req: Requester, title: TitleId, p: ReviewPayload): Reply
    requires req.Authenticated? ==> req.user.id in UserIds(db.users)
  {
    if req.Anonymous? then Reply(Unauthorized401, db)
    else if !ReviewPayloadValid(p) || HasReview(db, title, req.user.id) then Reply(BadRequest400, db)
    else if title !in TitleIds(db.titles) then Reply(NotFound404, db)
    else match InsertReview(db, req.user.id, title, p.text, StoredScore(p))
      case Ok(db') => Reply(Created201, db')
      case Err(_) => Reply(ServerError500, db)
  }

  lemma ReviewCreateEffect(db: Tables, req: Requester, title: TitleId, p: ReviewPayload)
    requires Consistent(db)
    requires req.Authenticated? ==> req.user.id in UserIds(db.users)
    ensures var r := ReviewCreate(db, req, title, p);
      && Consistent(r.db)
      && r.status in {Unauthorized401, BadRequest400, NotFound404, Created201}
      && (r.status == Created201 <==>
            req.Authenticated? && ReviewPayloadValid(p) && title in TitleIds(db.titles) && !HasReview(db, title, req.user.id))
      && (r.status == Created201 ==>
            r.db == db.(reviews := db.reviews + [Review(db.nextId, p.text, req.user.id, title, StoredScore(p))],
                        nextId := db.nextId + 1))
      && (r.status != Created201 ==> r.db == db)
  {
    if req.Authenticated? && ReviewPayloadValid(p) {
      InsertReviewEffect(db, req.user.id, title, p.text, StoredScore(p));
    }
  }

  method CreateReview(db: Database, req: Requester, title: TitleId, p: ReviewPayload) returns (status: Status)
    requires db.Valid()
    requires req.Authenticated? ==> req.user.id in UserIds(db.users)
    modifies db
    ensures db.Valid()
    ensures Reply(status, db.Contents()) == ReviewCreate(old(db.Contents()), req, title, p)
  {
    if req.Anonymous? {
      return Unauthorized401;
    }
    if !ReviewPayloadValid(p) || exists x :: x in db.reviews && x.title == title && x.author == req.user.id {
      return BadRequest400;
    }
    if title !in TitleIds(db.titles) {
      return NotFound404;
    }
    var ok := db.AddReview(req.user.id, title, p.text, StoredScore(p));
    status := if ok then Created201 else ServerError500;
  }

  /**
   * Creating a comment as written. The serializer takes every model field, so
   * the body must also carry `review`, the key of some existing review, or
   * the answer is a 400; `sent` is that key. The review under the URL title
   * is then looked up (404) and the comment saved with the requester and that
   * review. There is no request gate: saving with the anonymous user raises,
   * and the database refuses a second comment by one user on a review, both a
   * 500. A saved comment is answered with a 500 as well: rendering `author`
   * reads a user attribute `author` that does not exist.
   */
  function CommentCreateAsWritten(db: Tables, req: Requester, title: TitleId, review: ReviewId,
                                  p: CommentPayload, sent: Option<ReviewId>): Reply
    requires req.Authenticated? ==> req.user.id in UserIds(db.users)
  {
    if !CommentPayloadValid(p) || sent.None? || sent.value !in ReviewIds(db.reviews) then Reply(BadRequest400, db)
    else match ReviewOfTitle(db, title, review)
      case None => Reply(NotFound404, db)
      case Some(parent) =>
        if req.Anonymous? then Reply(ServerError500, db)
        else match InsertComment(db, req.user.id, parent.id, p.text)
          case Ok(db') => Reply(ServerError500, db')
          case Err(_) => Reply(ServerError500, db)
  }

  /** As written no comment creation is answered with a 201, and one the body leaves without `review` changes nothing. */
  lemma CommentCreateAsWrittenNeverCreated(db: Tables, req: Requester, title: TitleId, review: ReviewId,
                                           p: CommentPayload, sent: Option<ReviewId>)
    requires req.Authenticated? ==> req.user.id in UserIds(db.users)
    ensures CommentCreateAsWritten(db, req, title, review, p, sent).status in {BadRequest400, NotFound404, ServerError500}
    ensures sent.None? ==> CommentCreateAsWritten(db, req, title, review, p, sent) == Reply(BadRequest400, db)
  {
  }

  /** An anonymous, well-formed comment on an existing review is a 500. */
  lemma AnonymousCommentCreateCrashes(db: Tables, x: Review, p: CommentPayload)
    requires Consistent(db) && x in db.reviews && CommentPayloadValid(p)
    ensures CommentCreateAsWritten(db, Anonymous, x.title, x.id, p, Some(x.id)) == Reply(ServerError500, db)
  {
    assert x.title in TitleIds(db.titles);
  }

  /** A second comment by the same user on a review is a 500. */
  lemma DuplicateCommentIsServerError(db: Tables, u: User, x: Review, p: CommentPayload)
    requires Consistent(db) && u in db.users
    requires CommentPayloadValid(p) && x in db.reviews && HasComment(db, x.id, u.id)
    ensures CommentCreateAsWritten(db, Authenticated(u), x.title, x.id, p, Some(x.id)) == Reply(ServerError500, db)
  {
    assert x.title in TitleIds(db.titles);
    InsertCommentEffect(db, u.id, x.id, p.text);
  }

  /**
   * A first, well-formed comment by an authenticated user is saved, yet
   * answered with a 500; the corrected view answers the same request with a
   * 201 and the same new state.
   */
  lemma FreshCommentSavedYetServerError(db: Tables, u: User, x: Review, p: CommentPayload)
    requires Consistent(db) && u in db.users
    requires CommentPayloadValid(p) && x in db.reviews && !HasComment(db, x.id, u.id)
    ensures var saved := db.(comments := db.comments + [Comment(db.nextId, p.text, u.id, x.id)], nextId := db.nextId + 1);
      && CommentCreateAsWritten(db, Authenticated(u), x.title, x.id, p, Some(x.id)) == Reply(ServerError500, saved)
      && CommentCreate(db, Authenticated(u), x.title, x.id, p) == Reply(Created201, saved)
  {
    assert x.title in TitleIds(db.titles);
    assert u.id in UserIds(db.users);
    InsertCommentEffect(db, u.id, x.id, p.text);
    CommentCreateEffect(db, Authenticated(u), x.title, x.id, p);
  }

  /** Creating a comment behind `IsAuthenticatedOrReadOnly`, with the (review, author) pair checked first. */
  function CommentCreate(db: Tables, req: Requester, title: TitleId, review: ReviewId, p: CommentPayload): Reply
    requires req.Authenticated? ==> req.user.id in UserIds(db.users)
  {
    if req.Anonymous? then Reply(Unauthorized401, db)
    else if !CommentPayloadValid(p) then Reply(BadRequest400, db)
    else match ReviewOfTitle(db, title, review)
      case None => Reply(NotFound404, db)
      case Some(parent) =>
        if HasComment(db, parent.id, req.user.id) then Reply(BadRequest400, db)
        else match InsertComment(db, req.user.id, parent.id, p.text)
          case Ok(db') => Reply(Created201, db')
          case Err(_) => Reply(ServerError500, db)
  }

  lemma CommentCreateEffect(db: Tables, req: Requester, title: TitleId, review: ReviewId, p: CommentPayload)
    requires Consistent(db)
    requires req.Authenticated? ==> req.user.id in UserIds(db.users)
    ensures var r := CommentCreate(db, req, title, review, p);
      && Consistent(r.db)
      && r.status in {Unauthorized401, BadRequest400, NotFound404, Created201}
      && (r.status == Created201 <==>
            && req.Authenticated? && CommentPayloadValid(p) && ReviewOfTitle(db, title, review).Some?
            && !HasComment(db, review, req.user.id))
      && (r.status == Created201 ==>
            && (exists x :: x in db.reviews && x.id == review && x.title == title)
            && r.db == db.(comments := db.comments + [Comment(db.nextId, p.text, req.user.id, review)],
                           nextId := db.nextId + 1))
      && (r.status != Created201 ==> r.db == db)
  {
    if req.Authenticated? && CommentPayloadValid(p) && ReviewOfTitle(db, title, review).Some? {
      InsertCommentEffect(db, req.user.id, review, p.text);
    }
  }

  method CreateComment(db: Database, req: Requester, title: TitleId, review: ReviewId, p: CommentPayload)
    returns (status: Status)
    requires db.Valid()
    requires req.Authenticated? ==> req.user.id in UserIds(db.users)
    modifies db
    ensures db.Valid()
    ensures Reply(status, db.Contents()) == CommentCreate(old(db.Contents()), req, title, review, p)
  {
    if req.Anonymous? {
      return Unauthorized401;
    }
    if !CommentPayloadValid(p) {
      return BadRequest400;
    }
    var parent := ReviewOfTitle(db.Contents(), title, review);
    if parent.None? {
      return NotFound404;
    }
    if exists x :: x in db.comments && x.review == parent.value.id && x.author == req.user.id {
      return BadRequest400;
    }
    var ok := db.AddComment(req.user.id, parent.value.id, p.text);
    status := if ok then Created201 else ServerError500;
  }
}
