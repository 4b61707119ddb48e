/**
 * The views of the versioned API: the signup and token handshake, the
 * caller's own profile, the permission setup of every view set, the title
 * listing with its rating, and the creation of reviews and comments under
 * their parent in the URL.
 */
module ApiV1Views {
  import opened Wrappers
  import opened Seqs
  import opened UsersModels
  import opened ReviewsModels
  import opened Store
  import opened Http
  import opened ApiV1Permissions
  import opened ApiV1Serializers

  /* ---------- get_confirmation_code ---------- */

  /**
   * The request validated, then `get_or_create` on the (username, email)
   * pair. A refused insert (the username or the email taken by another pair)
   * is answered 400 with nothing mailed; otherwise a code goes to the email.
   */
  function ConfirmationCode(db: Tables, username: string, email: string): SignupReply
  {
    if !SignupValid(username, email) || GetOrCreateUser(db, username, email).Refused? then
      SignupReply(BadRequest400, None, db)
    else
      SignupReply(Ok200, Some(email), AfterGetOrCreate(db, username, email))
  }

  /** The three ways a valid signup ends: a new pair, a known pair, a conflicting pair. */
  lemma ConfirmationCodeOutcomes(db: Tables, username: string, email: string)
    requires Consistent(db)
    requires SignupValid(username, email)
    ensures var o := ConfirmationCode(db, username, email);
      && Consistent(o.db)
      && (!UsernameOrEmailTaken(db.users, username, email) ==>
            && o.status == Ok200 && o.sentTo == Some(email)
            && o.db == db.(users := db.users + [NewUser(db.nextId, username, email)], nextId := db.nextId + 1))
      && ((exists u :: u in db.users && u.username == username && u.email == email) ==>
            o.status == Ok200 && o.sentTo == Some(email) && o.db == db)
      && (o.status == BadRequest400 <==>
            && UsernameOrEmailTaken(db.users, username, email)
            && forall u :: u in db.users ==> !(u.username == username && u.email == email))
      && (o.status == BadRequest400 ==> o.sentTo.None? && o.db == db)
  {
    GetOrCreateEffect(db, username, email);
  }

  /** Signing up again with the pair just accepted mails a new code and changes nothing. */
  lemma RepeatedConfirmationCode(db: Tables, username: string, email: string)
    requires Consistent(db)
    requires ConfirmationCode(db, username, email).status == Ok200
    ensures var o := ConfirmationCode(db, username, email);
      var again := ConfirmationCode(o.db, username, email);
      again.status == Ok200 && again.sentTo == Some(email) && again.db == o.db
  {
    GetOrCreateIdempotent(db, username, email);
  }

  method GetConfirmationCode(db: Database, username: string, email: string)
    returns (status: Status, sentTo: Option<string>)
    requires db.Valid()
    modifies db
    ensures db.Valid()
    ensures SignupReply(status, sentTo, db.Contents()) == ConfirmationCode(old(db.Contents()), username, email)
  {
    if !SignupValid(username, email) {
      return BadRequest400, None;
    }
    var g := db.GetOrCreate(username, email);
    if g.Refused? {
      return BadRequest400, None;
    }
    return Ok200, Some(email);
  }

  /* ---------- get_token ---------- */

  function UsernameIs(username: string): User -> bool
  {
    (u: User) => u.username == username
  }

  /**
   * The request validated, the user looked up by username (404), then the
   * code checked against that user; `checkToken` stands for the token
   * generator's check.
   */
  function GetToken(users: seq<User>, username: string, code: string, checkToken: (User, string) -> bool)
    : (r: TokenReply)
    ensures r == InvalidRequest <==> !TokenRequestValid(username, code)
    ensures r == UserNotFound <==> TokenRequestValid(username, code) && forall u :: u in users ==> u.username != username
    ensures r.Token? ==> exists u :: u in users && u.id == r.user && u.username == username && checkToken(u, code)
    ensures r == WrongCode ==> exists u :: u in users && u.username == username && !checkToken(u, code)
  {
    if !TokenRequestValid(username, code) then InvalidRequest
    else match Find(users, UsernameIs(username))
      case None => UserNotFound
      case Some(u) => if checkToken(u, code) then Token(u.id) else WrongCode
  }

  /** With unique usernames, the holder of the username gets a token exactly when its code checks. */
  lemma GetTokenDecides(users: seq<User>, u: User, code: string, checkToken: (User, string) -> bool)
    requires UserTableValid(users) && u in users
    requires TokenRequestValid(u.username, code)
    ensures GetToken(users, u.username, code, checkToken) == if checkToken(u, code) then Token(u.id) else WrongCode
  {
    var found := Find(users, UsernameIs(u.username));
    assert UsernameIs(u.username)(u);
    KeyIdentifiesRow(users, UsernameOf, found.value, u);
  }

  /**
   * The status `get_token` answers with as written. The success body holds
   * the access token object itself rather than its string form, and the JSON
   * renderer cannot encode it, so every request that passes the code check
   * ends in a 500; the other outcomes keep their status.
   */
  function GetTokenStatusAsWritten(users: seq<User>, username: string, code: string, checkToken: (User, string) -> bool)
    : Status
  {
    var r := GetToken(users, username, code, checkToken);
    if r.Token? then ServerError500 else TokenStatus(r)
  }

  /**
   * The holder of a username whose code checks gets no token as written: the
   * answer is a 500 where the decided reply is that user's token with a 200.
   */
  lemma UnconvertedTokenIsServerError(users: seq<User>, u: User, code: string, checkToken: (User, string) -> bool)
    requires UserTableValid(users) && u in users
    requires TokenRequestValid(u.username, code) && checkToken(u, code)
    ensures GetTokenStatusAsWritten(users, u.username, code, checkToken) == ServerError500
    ensures GetToken(users, u.username, code, checkToken) == Token(u.id)
    ensures TokenStatus(GetToken(users, u.username, code, checkToken)) == Ok200
  {
    GetTokenDecides(users, u, code, checkToken);
  }

  /* ---------- UserViewSet.me ---------- */

  /**
   * PATCH on `me`: the model's field checks (there is no "me" check in this
   * variant), then `save(role=request.user.role)`.
   */
  method PatchMe(db: Database, self: User, p: UserPatch) returns (status: Status)
    requires db.Valid() && self in db.users
    modifies db
    ensures db.Valid()
    ensures status == Ok200 || status == BadRequest400
    ensures status == Ok200 <==> ModelFieldsAccept(old(db.users), self.id, p)
    ensures status == Ok200 ==> db.Contents() == SaveUser(old(db.Contents()), ApplyPatch(self, p, self.role)).value
    ensures status == BadRequest400 ==> db.Contents() == old(db.Contents())
  {
    if !ModelFieldsAccept(db.users, self.id, p) {
      return BadRequest400;
    }
    SavePatchedUser(db.Contents(), self, p, self.role);
    var ok := db.Save(ApplyPatch(self, p, self.role));
    return Ok200;
  }

  /** Whatever role the payload names, the caller's row keeps its role and its flags. */
  lemma PatchMeKeepsRole(db: Tables, self: User, p: UserPatch)
    requires Consistent(db) && self in db.users
    requires ModelFieldsAccept(db.users, self.id, p)
    ensures var s := SaveUser(db, ApplyPatch(self, p, self.role));
      && s.Ok?
      && forall v :: v in s.value.users && v.id == self.id ==>
           v.role == self.role && v.isSuperuser == self.isSuperuser && v.isStaff == self.isStaff
  {
    SavePatchedUser(db, self, p, self.role);
  }

  /* ---------- Permission setup ---------- */

  /** Titles, categories and genres: `AdminOnlyOrReadOnly`. */
  function CatalogueAccess(m: Method, req: Requester): (a: Access)
    ensures IsSafe(m) ==> a == Permitted
    ensures !IsSafe(m) && req.Anonymous? ==> a == NotAuthenticated
    ensures !IsSafe(m) && req.Authenticated? ==>
      (a == Permitted <==> req.user.isStaff || IsAdmin(req.user)) && a != NotAuthenticated
  {
    Gate(AdminOnlyOrReadOnly(m, req), req)
  }

  /** The user list: `AdminOnly`; the `me` action: `IsAuthenticated`. */
  function UsersAccess(req: Requester): (a: Access)
    ensures a == Permitted <==> req.Authenticated? && (req.user.isStaff || IsAdmin(req.user))
  {
    Gate(AdminOnly(req), req)
  }

  function MeAccess(req: Requester): (a: Access)
    ensures a == Permitted <==> req.Authenticated?
    ensures a == NotAuthenticated <==> req.Anonymous?
  {
    Gate(IsAuthenticated(req), req)
  }

  /**
   * Reviews and comments: `IsAuthenticatedOrReadOnly` at request level, then,
   * on a single object (its author given), the object hook of
   * `AuthorOrModeratorOrAdmin`.
   */
  function ReviewCommentAccess(m: Method, req: Requester, author: Option<UserId>): (a: Access)
    ensures a != Crashed
    ensures a == Permitted <==>
      || IsSafe(m)
      || (req.Authenticated? && (author.None? || author.value == req.user.id || IsAdmin(req.user) || IsModerator(req.user)))
  {
    if !(IsSafe(m) || IsAuthenticated(req)) || !AuthorOrModeratorOrAdminRequest(m, req) then Refusal(req)
    else if author.None? then Permitted
    else FromVerdict(AuthorOrModeratorOrAdmin(m, req, author.value), req)
  }

  /* ---------- TitleViewSet.get_queryset ---------- */

  /** A title of the listing with its annotated `rating`. */
  datatype RatedTitle = RatedTitle(title: Title, rating: Option<int>)

  function WithRating(reviews: seq<Review>): Title -> RatedTitle
  {
    (t: Title) => RatedTitle(t, TruncatedRating(ScoresOf(reviews, t.id)))
  }

  /** `annotate(rating=Avg("reviews__score"))` rendered through the integer field. */
  function AnnotatedTitles(db: Tables): (rows: seq<RatedTitle>)
    ensures |rows| == |db.titles|
    ensures forall i :: 0 <= i < |rows| ==> rows[i].title == db.titles[i]
    ensures forall i :: 0 <= i < |rows| ==>
      (rows[i].rating.None? <==> forall r :: r in db.reviews ==> r.title != db.titles[i].id)
    ensures forall i :: 0 <= i < |rows| ==> rows[i].rating == TruncatedRating(ScoresOf(db.reviews, db.titles[i].id))
  {
    var rows := Map(db.titles, WithRating(db.reviews));
    assert forall i :: 0 <= i < |rows| ==>
      (|ScoresOf(db.reviews, db.titles[i].id)| == 0 <==> forall r :: r in db.reviews ==> r.title != db.titles[i].id) by {
      forall i | 0 <= i < |rows|
        ensures |ScoresOf(db.reviews, db.titles[i].id)| == 0 <==> forall r :: r in db.reviews ==> r.title != db.titles[i].id
      {
        var f := Filter(db.reviews, ReviewOnTitle(db.titles[i].id));
        if |f| > 0 {
          assert f[0] in f;
        }
      }
    }
    rows
  }

  /** When every review of a title has a score in [1, 10], so has its listed rating. */
  lemma AnnotatedRatingInRange(db: Tables, i: nat)
    requires i < |db.titles|
    requires forall r :: r in db.reviews && r.title == db.titles[i].id ==> ScoreInRange(r.score)
    ensures var row := AnnotatedTitles(db)[i];
      row.rating.Some? ==> ScoreInRange(row.rating.value)
  {
    var scores := ScoresOf(db.reviews, db.titles[i].id);
    var f := Filter(db.reviews, ReviewOnTitle(db.titles[i].id));
    forall k | 0 <= k < |scores| ensures ScoreInRange(scores[k]) {
      assert scores[k] == f[k].score && f[k] in f;
    }
    if |scores| > 0 {
      TruncatedRatingOfValidReviews(scores);
    }
  }

  /* ---------- ReviewViewSet / CommentViewSet: perform_create ---------- */

  /** Some review on `title` by `author` already exists. */
  predicate HasReview(db: Tables, title: TitleId, author: UserId)
  {
    exists x :: x in db.reviews && x.title == title && x.author == author
  }

  predicate HasComment(db: Tables, review: ReviewId, author: UserId)
  {
    exists x :: x in db.comments && x.review == review && x.author == author
  }

  /**
   * Creating a review as written: the request gate (401), the payload (400),
   * the title from the URL (404), then the insert with author and title from
   * the request. Nothing checks `unique_review` before the insert, so a second
   * review of the same title by the same user ends in the database's
   * IntegrityError, a 500.
   */
  function ReviewCreateAsWritten(db: Tables, req: Requester, title: TitleId, p: ReviewPayload): Reply
    requires req.Authenticated? ==> req.user.id in UserIds(db.users)
  {
    if req.Anonymous? then Reply(Unauthorized401, db)
    else if !ReviewPayloadValid(p) then Reply(BadRequest400, db)
    else if title !in TitleIds(db.titles) then Reply(NotFound404, db)
    else match InsertReview(db, req.user.id, title, p.text, StoredScore(p))
      case Ok(db') => Reply(Created201, db')
      case Err(_) => Reply(ServerError500, db)
  }

  /** A second review of a title by the same author is answered 500. */
  lemma DuplicateReviewIsServerError(db: Tables, u: User, title: TitleId, p: ReviewPayload)
    requires Consistent(db) && u in db.users
    requires ReviewPayloadValid(p) && title in TitleIds(db.titles) && HasReview(db, title, u.id)
    ensures ReviewCreateAsWritten(db, Authenticated(u), title, p) == Reply(ServerError500, db)
  {
    InsertReviewEffect(db, u.id, title, p.text, StoredScore(p));
  }

  /** Creating a review with the pair checked before the insert: a duplicate is a 400. */
  function ReviewCreate(db: Tables, req: Requester, title: TitleId, p: ReviewPayload): Reply
    requires req.Authenticated? ==> req.user.id in UserIds(db.users)
  {
    if req.Anonymous? then Reply(Unauthorized401, db)
    else if !ReviewPayloadValid(p) then Reply(BadRequest400, db)
    else if title !in TitleIds(db.titles) then Reply(NotFound404, db)
    else if HasReview(db, title, req.user.id) then Reply(BadRequest400, db)
    else match InsertReview(db, req.user.id, title, p.text, StoredScore(p))
      case Ok(db') => Reply(Created201, db')
      case Err(_) => Reply(ServerError500, db)
  }

  lemma ReviewCreateEffect(db: Tables, req: Requester, title: TitleId, p: ReviewPayload)
    requires Consistent(db)
    requires req.Authenticated? ==> req.user.id in UserIds(db.users)
    ensures var r := ReviewCreate(db, req, title, p);
      && Consistent(r.db)
      && r.status in {Unauthorized401, BadRequest400, NotFound404, Created201}
      && (r.status == Created201 <==>
            req.Authenticated? && ReviewPayloadValid(p) && title in TitleIds(db.titles) && !HasReview(db, title, req.user.id))
      && (r.status == Created201 ==>
            r.db == db.(reviews := db.reviews + [Review(db.nextId, p.text, req.user.id, title, StoredScore(p))],
                        nextId := db.nextId + 1))
      && (r.status != Created201 ==> r.db == db)
      && (r.status == Created201 && p.score.Some? ==> ScoreInRange(r.db.reviews[|db.reviews|].score))
  {
    if req.Authenticated? && ReviewPayloadValid(p) {
      InsertReviewEffect(db, req.user.id, title, p.text, StoredScore(p));
    }
  }

  /** The two agree on every request except a duplicate review. */
  lemma ReviewCreateDiffersOnlyOnDuplicates(db: Tables, req: Requester, title: TitleId, p: ReviewPayload)
    requires Consistent(db)
    requires req.Authenticated? ==> req.user.id in UserIds(db.users)
    ensures ReviewCreateAsWritten(db, req, title, p) != ReviewCreate(db, req, title, p) <==>
      && req.Authenticated? && ReviewPayloadValid(p) && title in TitleIds(db.titles)
      && HasReview(db, title, req.user.id)
  {
    if req.Authenticated? && ReviewPayloadValid(p) {
      InsertReviewEffect(db, req.user.id, title, p.text, StoredScore(p));
    }
  }

  method CreateReview(db: Database, req: Requester, title: TitleId, p: ReviewPayload) returns (status: Status)
    requires db.Valid()
    requires req.Authenticated? ==> req.user.id in UserIds(db.users)
    modifies db
    ensures db.Valid()
    ensures Reply(status, db.Contents()) == ReviewCreate(old(db.Contents()), req, title, p)
  {
    if req.Anonymous? {
      return Unauthorized401;
    }
    if !ReviewPayloadValid(p) {
      return BadRequest400;
    }
    if title !in TitleIds(db.titles) {
      return NotFound404;
    }
    if exists x :: x in db.reviews && x.title == title && x.author == req.user.id {
      return BadRequest400;
    }
    var ok := db.AddReview(req.user.id, title, p.text, StoredScore(p));
    status := if ok then Created201 else ServerError500;
  }

  /**
   * Creating a comment as written: the request gate (401), the payload (400),
   * the review looked up under the URL title (404), then the insert. As with
   * reviews, a second comment by the same user on a review reaches the
   * database and ends in a 500.
   */
  function CommentCreateAsWritten(db: Tables, req: Requester, title: TitleId, review: ReviewId, p: CommentPayload): Reply
    requires req.Authenticated? ==> req.user.id in UserIds(db.users)
  {
    if req.Anonymous? then Reply(Unauthorized401, db)
    else if !CommentPayloadValid(p) then Reply(BadRequest400, db)
    else match ReviewOfTitle(db, title, review)
      case None => Reply(NotFound404, db)
      case Some(parent) =>
        match InsertComment(db, req.user.id, parent.id, p.text)
        case Ok(db') => Reply(Created201, db')
        case Err(_) => Reply(ServerError500, db)
  }

  lemma DuplicateCommentIsServerError(db: Tables, u: User, title: TitleId, x: Review, p: CommentPayload)
    requires Consistent(db) && u in db.users
    requires CommentPayloadValid(p) && x in db.reviews && x.title == title && HasComment(db, x.id, u.id)
    ensures CommentCreateAsWritten(db, Authenticated(u), title, x.id, p) == Reply(ServerError500, db)
  {
    InsertCommentEffect(db, u.id, x.id, p.text);
  }

  function CommentCreate(db: Tables, req: Requester, title: TitleId, review: ReviewId, p: CommentPayload): Reply
    requires req.Authenticated? ==> req.user.id in UserIds(db.users)
  {
    if req.Anonymous? then Reply(Unauthorized401, db)
    else if !CommentPayloadValid(p) then Reply(BadRequest400, db)
    else match ReviewOfTitle(db, title, review)
      case None => Reply(NotFound404, db)
      case Some(parent) =>
        if HasComment(db, parent.id, req.user.id) then Reply(BadRequest400, db)
        else match InsertComment(db, req.user.id, parent.id, p.text)
          case Ok(db') => Reply(Created201, db')
          case Err(_) => Reply(ServerError500, db)
  }

  lemma CommentCreateEffect(db: Tables, req: Requester, title: TitleId, review: ReviewId, p: CommentPayload)
    requires Consistent(db)
    requires req.Authenticated? ==> req.user.id in UserIds(db.users)
    ensures var r := CommentCreate(db, req, title, review, p);
      && Consistent(r.db)
      && r.status in {Unauthorized401, BadRequest400, NotFound404, Created201}
      && (r.status == NotFound404 <==>
            req.Authenticated? && CommentPayloadValid(p) && ReviewOfTitle(db, title, review).None?)
      && (r.status == Created201 <==>
            && req.Authenticated? && CommentPayloadValid(p) && ReviewOfTitle(db, title, review).Some?
            && !HasComment(db, review, req.user.id))
      && (r.status == Created201 ==>
            && (exists x :: x in db.reviews && x.id == review && x.title == title)
            && r.db == db.(comments := db.comments + [Comment(db.nextId, p.text, req.user.id, review)],
                           nextId := db.nextId + 1))
      && (r.status != Created201 ==> r.db == db)
  {
    if req.Authenticated? && CommentPayloadValid(p) && ReviewOfTitle(db, title, review).Some? {
      InsertCommentEffect(db, req.user.id, review, p.text);
    }
  }

  method CreateComment(db: Database, req: Requester, title: TitleId, review: ReviewId, p: CommentPayload)
    returns (status: Status)
    requires db.Valid()
    requires req.Authenticated? ==> req.user.id in UserIds(db.users)
    modifies db
    ensures db.Valid()
    ensures Reply(status, db.Contents()) == CommentCreate(old(db.Contents()), req, title, review, p)
  {
    if req.Anonymous? {
      return Unauthorized401;
    }
    if !CommentPayloadValid(p) {
      return BadRequest400;
    }
    var parent := ReviewOfTitle(db.Contents(), title, review);
    if parent.None? {
      return NotFound404;
    }
    if exists x :: x in db.comments && x.review == parent.value.id && x.author == req.user.id {
      return BadRequest400;
    }
    var ok := db.AddComment(req.user.id, parent.value.id, p.text);
    status := if ok then Created201 else ServerError500;
  }
}
