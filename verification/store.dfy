/**
 * The relational store behind the models: the six tables, the constraints
 * the schema declares (unique fields, unique pairs, foreign keys), and the
 * write operations the views perform on it. The on-delete rules of the
 * foreign keys become explicit deletion operations:
 *   - Title.category is SET_NULL,
 *   - Title.genre is a many-to-many relation whose link rows go with either end,
 *   - Review.title, Review.author, Comment.review and Comment.author CASCADE.
 *
 * Each operation is first a function on a snapshot of the tables (`Tables`),
 * with lemmas stating what it does and that it keeps the constraints; the
 * class `Database` then performs it on its fields, table by table.
 */
module Store {
  import opened Wrappers
  import opened Seqs
  import opened UsersModels
  import opened ReviewsModels

  /** The contents of every table; `nextId` is the next primary key to hand out. */
  datatype Tables = Tables(
    users: seq<User>,
    categories: seq<Category>,
    genres: seq<Genre>,
    titles: seq<Title>,
    reviews: seq<Review>,
    comments: seq<Comment>,
    nextId: nat)

  /** A write the database refuses (a unique or foreign-key constraint). */
  datatype IntegrityError = IntegrityError

  /* ---------- Keys ---------- */

  function CategoryPk(c: Category): CategoryId { c.id }
  function CategorySlug(c: Category): string { c.slug }
  function GenrePk(g: Genre): GenreId { g.id }
  function GenreSlug(g: Genre): string { g.slug }
  function TitlePk(t: Title): TitleId { t.id }
  function ReviewPk(r: Review): ReviewId { r.id }
  /** The `unique_review` constraint's fields. */
  function ReviewSlot(r: Review): (TitleId, UserId) { (r.title, r.author) }
  function CommentPk(c: Comment): CommentId { c.id }
  /** The `unique_comment` constraint's fields. */
  function CommentSlot(c: Comment): (ReviewId, UserId) { (c.review, c.author) }

  function UserIds(users: seq<User>): set<UserId> { set u | u in users :: u.id }
  function CategoryIds(categories: seq<Category>): set<CategoryId> { set c | c in categories :: c.id }
  function GenreIds(genres: seq<Genre>): set<GenreId> { set g | g in genres :: g.id }
  function TitleIds(titles: seq<Title>): set<TitleId> { set t | t in titles :: t.id }
  function ReviewIds(reviews: seq<Review>): set<ReviewId> { set r | r in reviews :: r.id }

  /* ---------- Constraints ---------- */

  /** Every unique field and unique pair of the schema. */
  predicate KeysValid(db: Tables)
  {
    && UserTableValid(db.users)
    && KeysDistinct(db.categories, CategoryPk) && KeysDistinct(db.categories, CategorySlug)
    && KeysDistinct(db.genres, GenrePk) && KeysDistinct(db.genres, GenreSlug)
    && KeysDistinct(db.titles, TitlePk)
    && KeysDistinct(db.reviews, ReviewPk) && KeysDistinct(db.reviews, ReviewSlot)
    && KeysDistinct(db.comments, CommentPk) && KeysDistinct(db.comments, CommentSlot)
  }

  /** Every foreign key and every many-to-many link names an existing row. */
  predicate LinksValid(db: Tables)
  {
    && (forall t :: t in db.titles ==>
          (t.category.Some? ==> t.category.value in CategoryIds(db.categories))
          && t.genres <= GenreIds(db.genres))
    && (forall r :: r in db.reviews ==> r.title in TitleIds(db.titles) && r.author in UserIds(db.users))
    && (forall c :: c in db.comments ==> c.review in ReviewIds(db.reviews) && c.author in UserIds(db.users))
  }

  /** Every primary key already handed out lies below `nextId`. */
  predicate IdsBelow(db: Tables)
  {
    && (forall u :: u in db.users ==> u.id < db.nextId)
    && (forall c :: c in db.categories ==> c.id < db.nextId)
    && (forall g :: g in db.genres ==> g.id < db.nextId)
    && (forall t :: t in db.titles ==> t.id < db.nextId)
    && (forall r :: r in db.reviews ==> r.id < db.nextId)
    && (forall c :: c in db.comments ==> c.id < db.nextId)
  }

  predicate Consistent(db: Tables)
  {
    KeysValid(db) && LinksValid(db) && IdsBelow(db)
  }

  /** At most one review per (title, author) and one comment per (review, author). */
  lemma OneReviewPerTitleAndAuthor(db: Tables, r1: Review, r2: Review)
    requires Consistent(db)
    requires r1 in db.reviews && r2 in db.reviews && r1.title == r2.title && r1.author == r2.author
    ensures r1 == r2
  {
    KeyIdentifiesRow(db.reviews, ReviewSlot, r1, r2);
  }

  lemma OneCommentPerReviewAndAuthor(db: Tables, c1: Comment, c2: Comment)
    requires Consistent(db)
    requires c1 in db.comments && c2 in db.comments && c1.review == c2.review && c1.author == c2.author
    ensures c1 == c2
  {
    KeyIdentifiesRow(db.comments, CommentSlot, c1, c2);
  }

  /** A slug names at most one genre and at most one category. */
  lemma OneGenrePerSlug(db: Tables, g1: Genre, g2: Genre)
    requires Consistent(db)
    requires g1 in db.genres && g2 in db.genres && g1.slug == g2.slug
    ensures g1 == g2
  {
    KeyIdentifiesRow(db.genres, GenreSlug, g1, g2);
  }

  lemma OneCategoryPerSlug(db: Tables, c1: Category, c2: Category)
    requires Consistent(db)
    requires c1 in db.categories && c2 in db.categories && c1.slug == c2.slug
    ensures c1 == c2
  {
    KeyIdentifiesRow(db.categories, CategorySlug, c1, c2);
  }

  /** An email, and so a (username, email) pair, names at most one user. */
  lemma OneUserPerEmail(db: Tables, u1: User, u2: User)
    requires Consistent(db)
    requires u1 in db.users && u2 in db.users && u1.email == u2.email
    ensures u1 == u2
  {
    KeyIdentifiesRow(db.users, EmailOf, u1, u2);
  }

  /* ---------- Row selectors shared by the specifications and the class ---------- */

  function OtherCategories(id: CategoryId): Category -> bool { (c: Category) => c.id != id }
  function OtherGenres(id: GenreId): Genre -> bool { (g: Genre) => g.id != id }
  function OtherTitles(id: TitleId): Title -> bool { (t: Title) => t.id != id }
  function OtherUsers(id: UserId): User -> bool { (u: User) => u.id != id }
  function OtherReviews(id: ReviewId): Review -> bool { (r: Review) => r.id != id }
  function ReviewsNotOnTitle(id: TitleId): Review -> bool { (r: Review) => r.title != id }
  function ReviewsNotBy(id: UserId): Review -> bool { (r: Review) => r.author != id }
  function CommentsNotOn(doomed: set<ReviewId>): Comment -> bool { (c: Comment) => c.review !in doomed }
  function CommentsNotByNorOn(id: UserId, doomed: set<ReviewId>): Comment -> bool
  {
    (c: Comment) => c.author != id && c.review !in doomed
  }
  function UnsetCategory(id: CategoryId): Title -> Title
  {
    (t: Title) => if t.category == Some(id) then t.(category := None) else t
  }
  function UnlinkGenre(id: GenreId): Title -> Title
  {
    (t: Title) => t.(genres := t.genres - {id})
  }

  /** The ids of the reviews that satisfy `p`. */
  function ReviewIdsWhere(reviews: seq<Review>, p: Review -> bool): set<ReviewId>
  {
    set r | r in reviews && p(r) :: r.id
  }

  function ReviewOnTitle(id: TitleId): Review -> bool { (r: Review) => r.title == id }
  function ReviewBy(id: UserId): Review -> bool { (r: Review) => r.author == id }

  /* ---------- Deletion ---------- */

  /** Deleting a category: `on_delete=SET_NULL` on `Title.category`. */
  function DeleteCategoryFrom(db: Tables, id: CategoryId): Tables
  {
    db.(categories := Filter(db.categories, OtherCategories(id)),
        titles := Map(db.titles, UnsetCategory(id)))
  }

  lemma DeleteCategoryEffect(db: Tables, id: CategoryId)
    requires Consistent(db)
    ensures var r := DeleteCategoryFrom(db, id);
      && Consistent(r)
      && (forall c :: c in r.categories <==> c in db.categories && c.id != id)
      && |r.titles| == |db.titles|
      && (forall i :: 0 <= i < |db.titles| ==>
            && r.titles[i].category != Some(id)
            && (db.titles[i].category != Some(id) ==> r.titles[i] == db.titles[i])
            && (db.titles[i].category == Some(id) ==> r.titles[i] == db.titles[i].(category := None)))
      && r.users == db.users && r.genres == db.genres && r.reviews == db.reviews && r.comments == db.comments
  {
    var r := DeleteCategoryFrom(db, id);
    FilterKeepsKeysDistinct(db.categories, OtherCategories(id), CategoryPk);
    FilterKeepsKeysDistinct(db.categories, OtherCategories(id), CategorySlug);
    forall i, j | 0 <= i < |r.titles| && 0 <= j < |r.titles| && i != j
      ensures TitlePk(r.titles[i]) != TitlePk(r.titles[j])
    {
      assert TitlePk(db.titles[i]) != TitlePk(db.titles[j]);
    }
    forall t | t in r.titles
      ensures (t.category.Some? ==> t.category.value in CategoryIds(r.categories))
      ensures t.genres <= GenreIds(r.genres) && t.id < r.nextId
    {
      var i :| 0 <= i < |r.titles| && r.titles[i] == t;
      var old_t := db.titles[i];
      assert old_t in db.titles;
      if t.category.Some? {
        var c :| c in db.categories && c.id == t.category.value;
        assert c in r.categories;
      }
    }
    forall x | x in r.reviews ensures x.title in TitleIds(r.titles) {
      var t :| t in db.titles && t.id == x.title;
      var i :| 0 <= i < |db.titles| && db.titles[i] == t;
      assert r.titles[i].id == t.id && r.titles[i] in r.titles;
    }
  }

  /** Deleting a genre: its link rows to titles go with it. */
  function DeleteGenreFrom(db: Tables, id: GenreId): Tables
  {
    db.(genres := Filter(db.genres, OtherGenres(id)),
        titles := Map(db.titles, UnlinkGenre(id)))
  }

  lemma DeleteGenreEffect(db: Tables, id: GenreId)
    requires Consistent(db)
    ensures var r := DeleteGenreFrom(db, id);
      && Consistent(r)
      && (forall g :: g in r.genres <==> g in db.genres && g.id != id)
      && |r.titles| == |db.titles|
      && (forall i :: 0 <= i < |db.titles| ==> r.titles[i] == db.titles[i].(genres := db.titles[i].genres - {id}))
      && r.users == db.users && r.categories == db.categories && r.reviews == db.reviews && r.comments == db.comments
  {
    var r := DeleteGenreFrom(db, id);
    FilterKeepsKeysDistinct(db.genres, OtherGenres(id), GenrePk);
    FilterKeepsKeysDistinct(db.genres, OtherGenres(id), GenreSlug);
    forall i, j | 0 <= i < |r.titles| && 0 <= j < |r.titles| && i != j
      ensures TitlePk(r.titles[i]) != TitlePk(r.titles[j])
    {
      assert TitlePk(db.titles[i]) != TitlePk(db.titles[j]);
    }
    forall t | t in r.titles
      ensures t.genres <= GenreIds(r.genres) && t.id < r.nextId
    {
      var i :| 0 <= i < |r.titles| && r.titles[i] == t;
      assert db.titles[i] in db.titles;
      forall gid | gid in t.genres ensures gid in GenreIds(r.genres) {
        var g :| g in db.genres && g.id == gid;
        assert g in r.genres;
      }
    }
    forall x | x in r.reviews ensures x.title in TitleIds(r.titles) {
      var t :| t in db.titles && t.id == x.title;
      var i :| 0 <= i < |db.titles| && db.titles[i] == t;
      assert r.titles[i].id == t.id && r.titles[i] in r.titles;
    }
  }

  /** Deleting a title: its reviews cascade, and their comments with them. */
  function DeleteTitleFrom(db: Tables, id: TitleId): Tables
  {
    var doomed := ReviewIdsWhere(db.reviews, ReviewOnTitle(id));
    db.(titles := Filter(db.titles, OtherTitles(id)),
        reviews := Filter(db.reviews, ReviewsNotOnTitle(id)),
        comments := Filter(db.comments, CommentsNotOn(doomed)))
  }

  lemma DeleteTitleEffect(db: Tables, id: TitleId)
    requires Consistent(db)
    ensures var r := DeleteTitleFrom(db, id);
      && Consistent(r)
      && (forall t :: t in r.titles <==> t in db.titles && t.id != id)
      && (forall x :: x in r.reviews <==> x in db.reviews && x.title != id)
      && (forall c :: c in r.comments <==>
            c in db.comments && forall x :: x in db.reviews && x.id == c.review ==> x.title != id)
      && r.users == db.users && r.categories == db.categories && r.genres == db.genres
  {
    var r := DeleteTitleFrom(db, id);
    var doomed := ReviewIdsWhere(db.reviews, ReviewOnTitle(id));
    FilterKeepsKeysDistinct(db.titles, OtherTitles(id), TitlePk);
    FilterKeepsKeysDistinct(db.reviews, ReviewsNotOnTitle(id), ReviewPk);
    FilterKeepsKeysDistinct(db.reviews, ReviewsNotOnTitle(id), ReviewSlot);
    FilterKeepsKeysDistinct(db.comments, CommentsNotOn(doomed), CommentPk);
    FilterKeepsKeysDistinct(db.comments, CommentsNotOn(doomed), CommentSlot);
    forall x | x in r.reviews ensures x.title in TitleIds(r.titles) {
      var t :| t in db.titles && t.id == x.title;
      assert t in r.titles;
    }
    forall c | c in r.comments ensures c.review in ReviewIds(r.reviews) {
      var x :| x in db.reviews && x.id == c.review;
      assert x.title != id;
      assert x in r.reviews;
    }
    forall c | c in db.comments
      ensures c in r.comments <==> forall x :: x in db.reviews && x.id == c.review ==> x.title != id
    {
      if c.review in doomed {
        var y :| y in db.reviews && y.title == id && y.id == c.review;
        assert c !in r.comments;
      }
    }
  }

  /** Deleting a review: its comments cascade. */
  function DeleteReviewFrom(db: Tables, id: ReviewId): Tables
  {
    db.(reviews := Filter(db.reviews, OtherReviews(id)),
        comments := Filter(db.comments, CommentsNotOn({id})))
  }

  lemma DeleteReviewEffect(db: Tables, id: ReviewId)
    requires Consistent(db)
    ensures var r := DeleteReviewFrom(db, id);
      && Consistent(r)
      && (forall x :: x in r.reviews <==> x in db.reviews && x.id != id)
      && (forall c :: c in r.comments <==> c in db.comments && c.review != id)
      && r.users == db.users && r.categories == db.categories && r.genres == db.genres && r.titles == db.titles
  {
    var r := DeleteReviewFrom(db, id);
    FilterKeepsKeysDistinct(db.reviews, OtherReviews(id), ReviewPk);
    FilterKeepsKeysDistinct(db.reviews, OtherReviews(id), ReviewSlot);
    FilterKeepsKeysDistinct(db.comments, CommentsNotOn({id}), CommentPk);
    FilterKeepsKeysDistinct(db.comments, CommentsNotOn({id}), CommentSlot);
    forall c | c in r.comments ensures c.review in ReviewIds(r.reviews) {
      var x :| x in db.reviews && x.id == c.review;
      assert x in r.reviews;
    }
  }

  /**
   * Deleting a user: the user's reviews and comments cascade, and so do the
   * comments of other users on the deleted reviews.
   */
  function DeleteUserFrom(db: Tables, id: UserId): Tables
  {
    var doomed := ReviewIdsWhere(db.reviews, ReviewBy(id));
    db.(users := Filter(db.users, OtherUsers(id)),
        reviews := Filter(db.reviews, ReviewsNotBy(id)),
        comments := Filter(db.comments, CommentsNotByNorOn(id, doomed)))
  }

  lemma DeleteUserEffect(db: Tables, id: UserId)
    requires Consistent(db)
    ensures var r := DeleteUserFrom(db, id);
      && Consistent(r)
      && (forall u :: u in r.users <==> u in db.users && u.id != id)
      && (forall x :: x in r.reviews <==> x in db.reviews && x.author != id)
      && (forall c :: c in r.comments <==>
            c in db.comments && c.author != id
            && forall x :: x in db.reviews && x.id == c.review ==> x.author != id)
      && r.categories == db.categories && r.genres == db.genres && r.titles == db.titles
  {
    var r := DeleteUserFrom(db, id);
    var doomed := ReviewIdsWhere(db.reviews, ReviewBy(id));
    FilterKeepsKeysDistinct(db.users, OtherUsers(id), UserPk);
    FilterKeepsKeysDistinct(db.users, OtherUsers(id), UsernameOf);
    FilterKeepsKeysDistinct(db.users, OtherUsers(id), EmailOf);
    FilterKeepsKeysDistinct(db.reviews, ReviewsNotBy(id), ReviewPk);
    FilterKeepsKeysDistinct(db.reviews, ReviewsNotBy(id), ReviewSlot);
    FilterKeepsKeysDistinct(db.comments, CommentsNotByNorOn(id, doomed), CommentPk);
    FilterKeepsKeysDistinct(db.comments, CommentsNotByNorOn(id, doomed), CommentSlot);
    forall x | x in r.reviews ensures x.author in UserIds(r.users) {
      var u :| u in db.users && u.id == x.author;
      assert u in r.users;
    }
    forall c | c in r.comments ensures c.review in ReviewIds(r.reviews) && c.author in UserIds(r.users) {
      var x :| x in db.reviews && x.id == c.review;
      assert x.author != id;
      assert x in r.reviews;
      var u :| u in db.users && u.id == c.author;
      assert u in r.users;
    }
    forall c | c in db.comments
      ensures c in r.comments <==>
        c.author != id && forall x :: x in db.reviews && x.id == c.review ==> x.author != id
    {
      if c.review in doomed {
        var y :| y in db.reviews && y.author == id && y.id == c.review;
        assert c !in r.comments;
      }
    }
  }

  /* ---------- Users ---------- */

  /** What `get_or_create(username=..., email=...)` ends in. */
  datatype GetOrCreate = Got(user: User) | Created(user: User) | Refused

  function SamePair(username: string, email: string): User -> bool
  {
    (u: User) => u.username == username && u.email == email
  }

  /** Some user already holds the username or the email. */
  predicate UsernameOrEmailTaken(users: seq<User>, username: string, email: string)
  {
    exists u :: u in users && (u.username == username || u.email == email)
  }

  /**
   * `User.objects.get_or_create(username=..., email=...)`: the user holding
   * exactly that pair, else a new user, unless the insert violates the unique
   * username or the unique email.
   */
  function GetOrCreateUser(db: Tables, username: string, email: string): GetOrCreate
  {
    match Find(db.users, SamePair(username, email))
    case Some(u) => Got(u)
    case None =>
      if UsernameOrEmailTaken(db.users, username, email) then Refused
      else Created(NewUser(db.nextId, username, email))
  }

  function AfterGetOrCreate(db: Tables, username: string, email: string): Tables
  {
    match GetOrCreateUser(db, username, email)
    case Created(u) => db.(users := db.users + [u], nextId := db.nextId + 1)
    case _ => db
  }

  lemma GetOrCreateEffect(db: Tables, username: string, email: string)
    requires Consistent(db)
    ensures var g := GetOrCreateUser(db, username, email);
      var r := AfterGetOrCreate(db, username, email);
      && Consistent(r)
      && (g.Got? <==> exists u :: u in db.users && u.username == username && u.email == email)
      && (g.Got? ==> g.user in db.users && g.user.username == username && g.user.email == email && r == db)
      && (g.Refused? <==> !g.Got? && UsernameOrEmailTaken(db.users, username, email))
      && (g.Refused? ==> r == db)
      && (g.Created? ==>
            && g.user == NewUser(db.nextId, username, email)
            && r == db.(users := db.users + [g.user], nextId := db.nextId + 1))
  {
    var g := GetOrCreateUser(db, username, email);
    if g.Created? {
      var u := g.user;
      forall y | y in db.users ensures UserPk(y) != UserPk(u) && UsernameOf(y) != UsernameOf(u) && EmailOf(y) != EmailOf(u) {
      }
      AppendKeepsKeysDistinct(db.users, u, UserPk);
      AppendKeepsKeysDistinct(db.users, u, UsernameOf);
      AppendKeepsKeysDistinct(db.users, u, EmailOf);
      var r := AfterGetOrCreate(db, username, email);
      assert forall x :: x in r.users <==> x in db.users || x == u;
      assert UserIds(db.users) <= UserIds(r.users);
    }
  }

  /** A repeated get-or-create of a pair it has just returned finds that user and changes nothing. */
  lemma GetOrCreateIdempotent(db: Tables, username: string, email: string)
    requires Consistent(db)
    requires !GetOrCreateUser(db, username, email).Refused?
    ensures var r := AfterGetOrCreate(db, username, email);
      && GetOrCreateUser(r, username, email) == Got(GetOrCreateUser(db, username, email).user)
      && AfterGetOrCreate(r, username, email) == r
  {
    GetOrCreateEffect(db, username, email);
    var u := GetOrCreateUser(db, username, email).user;
    var r := AfterGetOrCreate(db, username, email);
    assert u in r.users;
    var f := Find(r.users, SamePair(username, email));
    assert f.Some?;
    KeyIdentifiesRow(r.users, UsernameOf, f.value, u);
  }

  /** Another user already holds the username or the email of `u`. */
  predicate ClashesWithOthers(users: seq<User>, u: User)
  {
    exists x :: x in users && x.id != u.id && (x.username == u.username || x.email == u.email)
  }

  function ReplaceUser(u: User): User -> User
  {
    (x: User) => if x.id == u.id then u else x
  }

  /** `instance.save()` of an existing user: refused when it would break a unique field. */
  function SaveUser(db: Tables, u: User): Result<Tables, IntegrityError>
  {
    if ClashesWithOthers(db.users, u) then Err(IntegrityError)
    else Ok(db.(users := Map(db.users, ReplaceUser(u))))
  }

  lemma SaveUserEffect(db: Tables, u: User)
    requires Consistent(db)
    requires u.id in UserIds(db.users)
    ensures var s := SaveUser(db, u);
      && (s.Err? <==> ClashesWithOthers(db.users, u))
      && (s.Ok? ==>
            && Consistent(s.value)
            && u in s.value.users
            && |s.value.users| == |db.users|
            && (forall i :: 0 <= i < |db.users| && db.users[i].id != u.id ==> s.value.users[i] == db.users[i])
            && s.value.(users := db.users) == db)
  {
    if !ClashesWithOthers(db.users, u) {
      ReplaceUserKeepsTableValid(db.users, u);
      var users' := Map(db.users, ReplaceUser(u));
      var k :| 0 <= k < |db.users| && db.users[k].id == u.id;
      assert users'[k] == u;
      assert UserIds(users') == UserIds(db.users) by {
        forall id | id in UserIds(db.users) ensures id in UserIds(users') {
          var i :| 0 <= i < |db.users| && db.users[i].id == id;
          assert users'[i].id == id;
        }
      }
    }
  }

  lemma ReplaceUserKeepsTableValid(users: seq<User>, u: User)
    requires UserTableValid(users)
    requires !ClashesWithOthers(users, u)
    ensures UserTableValid(Map(users, ReplaceUser(u)))
  {
    var users' := Map(users, ReplaceUser(u));
    forall i, j | 0 <= i < |users'| && 0 <= j < |users'| && i != j
      ensures UserPk(users'[i]) != UserPk(users'[j])
    {
      assert UserPk(users[i]) != UserPk(users[j]);
    }
    forall i, j | 0 <= i < |users'| && 0 <= j < |users'| && i != j
      ensures UsernameOf(users'[i]) != UsernameOf(users'[j])
    {
      assert UserPk(users[i]) != UserPk(users[j]);
      assert UsernameOf(users[i]) != UsernameOf(users[j]);
      if users[i].id == u.id {
        assert users[j] in users;
      } else if users[j].id == u.id {
        assert users[i] in users;
      }
    }
    forall i, j | 0 <= i < |users'| && 0 <= j < |users'| && i != j
      ensures EmailOf(users'[i]) != EmailOf(users'[j])
    {
      assert UserPk(users[i]) != UserPk(users[j]);
      assert EmailOf(users[i]) != EmailOf(users[j]);
      if users[i].id == u.id {
        assert users[j] in users;
      } else if users[j].id == u.id {
        assert users[i] in users;
      }
    }
  }

  /**
   * A partial update of an existing user that passed the model's field checks
   * saves: the updated row takes the place of the old one, with the role
   * passed to `save`.
   */
  lemma SavePatchedUser(db: Tables, self: User, p: UserPatch, role: Role)
    requires Consistent(db) && self in db.users
    requires ModelFieldsAccept(db.users, self.id, p)
    ensures var s := SaveUser(db, ApplyPatch(self, p, role));
      && s.Ok?
      && Consistent(s.value)
      && ApplyPatch(self, p, role) in s.value.users
      && (forall v :: v in s.value.users && v.id == self.id ==> v == ApplyPatch(self, p, role))
      && (forall v :: v in s.value.users && v.id != self.id <==> v in db.users && v.id != self.id)
  {
    var v := ApplyPatch(self, p, role);
    forall x | x in db.users && x.id != self.id
      ensures x.username != v.username && x.email != v.email
    {
      if x.username == self.username {
        KeyIdentifiesRow(db.users, UsernameOf, x, self);
      }
      if x.email == self.email {
        KeyIdentifiesRow(db.users, EmailOf, x, self);
      }
    }
    SaveUserEffect(db, v);
    var users' := SaveUser(db, v).value.users;
    forall w | w in users' && w.id != self.id ensures w in db.users {
      var i :| 0 <= i < |users'| && users'[i] == w;
    }
    forall w | w in db.users && w.id != self.id ensures w in users' {
      var i :| 0 <= i < |db.users| && db.users[i] == w;
      assert users'[i] == w;
    }
  }

  /* ---------- Reviews and comments ---------- */

  /** Inserting a review: refused by the foreign keys or by `unique_review`. */
  function InsertReview(db: Tables, author: UserId, title: TitleId, text: string, score: int): Result<Tables, IntegrityError>
  {
    if title !in TitleIds(db.titles) || author !in UserIds(db.users)
       || exists x :: x in db.reviews && x.title == title && x.author == author
    then Err(IntegrityError)
    else Ok(db.(reviews := db.reviews + [Review(db.nextId, text, author, title, score)], nextId := db.nextId + 1))
  }

  lemma InsertReviewEffect(db: Tables, author: UserId, title: TitleId, text: string, score: int)
    requires Consistent(db)
    ensures var s := InsertReview(db, author, title, text, score);
      && (s.Err? <==> title !in TitleIds(db.titles) || author !in UserIds(db.users)
                      || exists x :: x in db.reviews && ReviewSlot(x) == (title, author))
      && (s.Ok? ==>
            && Consistent(s.value)
            && s.value == db.(reviews := db.reviews + [Review(db.nextId, text, author, title, score)],
                              nextId := db.nextId + 1))
  {
    var s := InsertReview(db, author, title, text, score);
    if s.Ok? {
      var x := Review(db.nextId, text, author, title, score);
      AppendKeepsKeysDistinct(db.reviews, x, ReviewPk);
      AppendKeepsKeysDistinct(db.reviews, x, ReviewSlot);
      assert ReviewIds(db.reviews) <= ReviewIds(s.value.reviews);
    }
  }

  /** Inserting a comment: refused by the foreign keys or by `unique_comment`. */
  function InsertComment(db: Tables, author: UserId, review: ReviewId, text: string): Result<Tables, IntegrityError>
  {
    if review !in ReviewIds(db.reviews) || author !in UserIds(db.users)
       || exists x :: x in db.comments && x.review == review && x.author == author
    then Err(IntegrityError)
    else Ok(db.(comments := db.comments + [Comment(db.nextId, text, author, review)], nextId := db.nextId + 1))
  }

  lemma InsertCommentEffect(db: Tables, author: UserId, review: ReviewId, text: string)
    requires Consistent(db)
    ensures var s := InsertComment(db, author, review, text);
      && (s.Err? <==> review !in ReviewIds(db.reviews) || author !in UserIds(db.users)
                      || exists x :: x in db.comments && CommentSlot(x) == (review, author))
      && (s.Ok? ==>
            && Consistent(s.value)
            && s.value == db.(comments := db.comments + [Comment(db.nextId, text, author, review)],
                              nextId := db.nextId + 1))
  {
    var s := InsertComment(db, author, review, text);
    if s.Ok? {
      var x := Comment(db.nextId, text, author, review);
      AppendKeepsKeysDistinct(db.comments, x, CommentPk);
      AppendKeepsKeysDistinct(db.comments, x, CommentSlot);
    }
  }

  /* ---------- Titles ---------- */

  /** Inserting a title with no genres yet: refused when the category does not exist. */
  function InsertTitle(db: Tables, name: string, year: int, description: string, category: Option<CategoryId>)
    : Result<Tables, IntegrityError>
  {
    if category.Some? && category.value !in CategoryIds(db.categories) then Err(IntegrityError)
    else Ok(db.(titles := db.titles + [Title(db.nextId, name, year, description, {}, category)],
                nextId := db.nextId + 1))
  }

  lemma InsertTitleEffect(db: Tables, name: string, year: int, description: string, category: Option<CategoryId>)
    requires Consistent(db)
    ensures var s := InsertTitle(db, name, year, description, category);
      && (s.Err? <==> category.Some? && category.value !in CategoryIds(db.categories))
      && (s.Ok? ==>
            && Consistent(s.value)
            && db.nextId !in TitleIds(db.titles)
            && s.value == db.(titles := db.titles + [Title(db.nextId, name, year, description, {}, category)],
                              nextId := db.nextId + 1))
  {
    var s := InsertTitle(db, name, year, description, category);
    if s.Ok? {
      var t := Title(db.nextId, name, year, description, {}, category);
      AppendKeepsKeysDistinct(db.titles, t, TitlePk);
      assert TitleIds(db.titles) <= TitleIds(s.value.titles);
    }
  }

  function LinkGenreTo(title: TitleId, genre: GenreId): Title -> Title
  {
    (t: Title) => if t.id == title then t.(genres := t.genres + {genre}) else t
  }

  /** Adding one genre link to a title. */
  function LinkGenre(db: Tables, title: TitleId, genre: GenreId): Result<Tables, IntegrityError>
  {
    if title !in TitleIds(db.titles) || genre !in GenreIds(db.genres) then Err(IntegrityError)
    else Ok(db.(titles := Map(db.titles, LinkGenreTo(title, genre))))
  }

  lemma LinkGenreEffect(db: Tables, title: TitleId, genre: GenreId)
    requires Consistent(db)
    ensures var s := LinkGenre(db, title, genre);
      && (s.Err? <==> title !in TitleIds(db.titles) || genre !in GenreIds(db.genres))
      && (s.Ok? ==>
            && Consistent(s.value)
            && s.value.(titles := db.titles) == db
            && |s.value.titles| == |db.titles|
            && forall i :: 0 <= i < |db.titles| ==>
                 s.value.titles[i] == if db.titles[i].id == title
                                      then db.titles[i].(genres := db.titles[i].genres + {genre})
                                      else db.titles[i])
  {
    var s := LinkGenre(db, title, genre);
    if s.Ok? {
      var r := s.value;
      forall i, j | 0 <= i < |r.titles| && 0 <= j < |r.titles| && i != j
        ensures TitlePk(r.titles[i]) != TitlePk(r.titles[j])
      {
        assert TitlePk(db.titles[i]) != TitlePk(db.titles[j]);
      }
      forall t | t in r.titles
        ensures (t.category.Some? ==> t.category.value in CategoryIds(r.categories))
        ensures t.genres <= GenreIds(r.genres) && t.id < r.nextId
      {
        var i :| 0 <= i < |r.titles| && r.titles[i] == t;
        assert db.titles[i] in db.titles;
      }
      forall x | x in r.reviews ensures x.title in TitleIds(r.titles) {
        var t :| t in db.titles && t.id == x.title;
        var i :| 0 <= i < |db.titles| && db.titles[i] == t;
        assert r.titles[i].id == t.id && r.titles[i] in r.titles;
      }
    }
  }

  /* ---------- Queries ---------- */

  /** The scores of the reviews of one title, as `Avg("reviews__score")` sees them. */
  function ScoresOf(reviews: seq<Review>, title: TitleId): (scores: seq<int>)
    ensures |scores| == |Filter(reviews, ReviewOnTitle(title))|
    ensures forall i :: 0 <= i < |scores| ==> scores[i] == Filter(reviews, ReviewOnTitle(title))[i].score
    ensures forall i :: 0 <= i < |scores| ==> exists r :: r in reviews && r.title == title && r.score == scores[i]
  {
    var rows := Filter(reviews, ReviewOnTitle(title));
    var scores := Map(rows, (r: Review) => r.score);
    assert forall i :: 0 <= i < |scores| ==> rows[i] in rows && rows[i].score == scores[i];
    scores
  }

  /** The sum of a sequence of scores, the numerator of `Avg`. */
  function SumOf(scores: seq<int>): int
  {
    if |scores| == 0 then 0 else scores[0] + SumOf(scores[1..])
  }

  /** Scores bounded by `lo` and `hi` have a sum between `lo` and `hi` times their count. */
  lemma {:induction false} SumBounds(scores: seq<int>, lo: int, hi: int)
    requires forall i :: 0 <= i < |scores| ==> lo <= scores[i] <= hi
    ensures lo * |scores| <= SumOf(scores) <= hi * |scores|
  {
    if |scores| > 0 {
      SumBounds(scores[1..], lo, hi);
      assert lo * |scores| == lo + lo * (|scores| - 1);
      assert hi * |scores| == hi + hi * (|scores| - 1);
    }
  }

  function ReviewWithId(id: ReviewId): Review -> bool { (r: Review) => r.id == id }

  /**
   * The parent lookup of the comment views: the title by its key, then the
   * review by its key among that title's reviews; `None` is the 404 of
   * either `get_object_or_404`.
   */
  function ReviewOfTitle(db: Tables, title: TitleId, review: ReviewId): (r: Option<Review>)
    ensures r.Some? ==> r.value in db.reviews && r.value.id == review && r.value.title == title
    ensures r.None? <==>
      || title !in TitleIds(db.titles)
      || forall x :: x in db.reviews && x.id == review ==> x.title != title
  {
    if title !in TitleIds(db.titles) then None
    else Find(Filter(db.reviews, ReviewOnTitle(title)), ReviewWithId(review))
  }

  /** A title joined with the slugs of its category and genres, as the title filters see it. */
  datatype TitleRow = TitleRow(title: Title, categorySlug: Option<string>, genreSlugs: set<string>)

  function CategorySlugOf(categories: seq<Category>, id: Option<CategoryId>): Option<string>
  {
    if id.None? then None
    else match Find(categories, (c: Category) => c.id == id.value)
      case Some(c) => Some(c.slug)
      case None => None
  }

  function RowOf(db: Tables): Title -> TitleRow
  {
    (t: Title) => TitleRow(t, CategorySlugOf(db.categories, t.category),
                           set g | g in db.genres && g.id in t.genres :: g.slug)
  }

  function TitleRows(db: Tables): (rows: seq<TitleRow>)
    ensures |rows| == |db.titles|
    ensures forall i :: 0 <= i < |rows| ==> rows[i].title == db.titles[i]
  {
    Map(db.titles, RowOf(db))
  }

  /* ---------- The database object ---------- */

  /** The tables as mutable state; each operation rewrites the tables it touches. */
  class Database {
    var users: seq<User>
    var categories: seq<Category>
    var genres: seq<Genre>
    var titles: seq<Title>
    var reviews: seq<Review>
    var comments: seq<Comment>
    var nextId: nat

    function Contents(): Tables
      reads this
    {
      Tables(users, categories, genres, titles, reviews, comments, nextId)
    }

    ghost predicate Valid()
      reads this
    {
      Consistent(Contents())
    }

    constructor ()
      ensures Valid()
      ensures Contents() == Tables([], [], [], [], [], [], 0)
    {
      users, categories, genres, titles, reviews, comments := [], [], [], [], [], [];
      nextId := 0;
    }

    method DeleteCategory(id: CategoryId)
      requires Valid()
      modifies this
      ensures Valid()
      ensures Contents() == DeleteCategoryFrom(old(Contents()), id)
    {
      DeleteCategoryEffect(Contents(), id);
      titles := Map(titles, UnsetCategory(id));
      categories := Filter(categories, OtherCategories(id));
    }

    method DeleteGenre(id: GenreId)
      requires Valid()
      modifies this
      ensures Valid()
      ensures Contents() == DeleteGenreFrom(old(Contents()), id)
    {
      DeleteGenreEffect(Contents(), id);
      titles := Map(titles, UnlinkGenre(id));
      genres := Filter(genres, OtherGenres(id));
    }

    method DeleteTitle(id: TitleId)
      requires Valid()
      modifies this
      ensures Valid()
      ensures Contents() == DeleteTitleFrom(old(Contents()), id)
    {
      DeleteTitleEffect(Contents(), id);
      var doomed := ReviewIdsWhere(reviews, ReviewOnTitle(id));
      comments := Filter(comments, CommentsNotOn(doomed));
      reviews := Filter(reviews, ReviewsNotOnTitle(id));
      titles := Filter(titles, OtherTitles(id));
    }

    method DeleteReview(id: ReviewId)
      requires Valid()
      modifies this
      ensures Valid()
      ensures Contents() == DeleteReviewFrom(old(Contents()), id)
    {
      DeleteReviewEffect(Contents(), id);
      comments := Filter(comments, CommentsNotOn({id}));
      reviews := Filter(reviews, OtherReviews(id));
    }

    method DeleteUser(id: UserId)
      requires Valid()
      modifies this
      ensures Valid()
      ensures Contents() == DeleteUserFrom(old(Contents()), id)
    {
      DeleteUserEffect(Contents(), id);
      var doomed := ReviewIdsWhere(reviews, ReviewBy(id));
      comments := Filter(comments, CommentsNotByNorOn(id, doomed));
      reviews := Filter(reviews, ReviewsNotBy(id));
      users := Filter(users, OtherUsers(id));
    }

    method GetOrCreate(username: string, email: string) returns (g: GetOrCreate)
      requires Valid()
      modifies this
      ensures Valid()
      ensures g == GetOrCreateUser(old(Contents()), username, email)
      ensures Contents() == AfterGetOrCreate(old(Contents()), username, email)
    {
      GetOrCreateEffect(Contents(), username, email);
      var found := Find(users, SamePair(username, email));
      if found.Some? {
        g := Got(found.value);
      } else if UsernameOrEmailTaken(users, username, email) {
        g := Refused;
      } else {
        var u := NewUser(nextId, username, email);
        users := users + [u];
        nextId := nextId + 1;
        g := Created(u);
      }
    }

    method Save(u: User) returns (ok: bool)
      requires Valid() && u.id in UserIds(users)
      modifies this
      ensures Valid()
      ensures ok == SaveUser(old(Contents()), u).Ok?
      ensures ok ==> Contents() == SaveUser(old(Contents()), u).value
      ensures !ok ==> Contents() == old(Contents())
    {
      SaveUserEffect(Contents(), u);
      if ClashesWithOthers(users, u) {
        ok := false;
      } else {
        users := Map(users, ReplaceUser(u));
        ok := true;
      }
    }

    method AddReview(author: UserId, title: TitleId, text: string, score: int) returns (ok: bool)
      requires Valid()
      modifies this
      ensures Valid()
      ensures ok == InsertReview(old(Contents()), author, title, text, score).Ok?
      ensures ok ==> Contents() == InsertReview(old(Contents()), author, title, text, score).value
      ensures !ok ==> Contents() == old(Contents())
    {
      InsertReviewEffect(Contents(), author, title, text, score);
      if title !in TitleIds(titles) || author !in UserIds(users)
         || exists x :: x in reviews && x.title == title && x.author == author {
        ok := false;
      } else {
        reviews := reviews + [Review(nextId, text, author, title, score)];
        nextId := nextId + 1;
        ok := true;
      }
    }

    method AddComment(author: UserId, review: ReviewId, text: string) returns (ok: bool)
      requires Valid()
      modifies this
      ensures Valid()
      ensures ok == InsertComment(old(Contents()), author, review, text).Ok?
      ensures ok ==> Contents() == InsertComment(old(Contents()), author, review, text).value
      ensures !ok ==> Contents() == old(Contents())
    {
      InsertCommentEffect(Contents(), author, review, text);
      if review !in ReviewIds(reviews) || author !in UserIds(users)
         || exists x :: x in comments && x.review == review && x.author == author {
        ok := false;
      } else {
        comments := comments + [Comment(nextId, text, author, review)];
        nextId := nextId + 1;
        ok := true;
      }
    }

    method AddTitle(name: string, year: int, description: string, category: Option<CategoryId>)
      returns (id: Option<TitleId>)
      requires Valid()
      modifies this
      ensures Valid()
      ensures id.Some? == InsertTitle(old(Contents()), name, year, description, category).Ok?
      ensures id.Some? ==>
        && id.value == old(nextId)
        && Contents() == InsertTitle(old(Contents()), name, year, description, category).value
      ensures id.None? ==> Contents() == old(Contents())
    {
      InsertTitleEffect(Contents(), name, year, description, category);
      if category.Some? && category.value !in CategoryIds(categories) {
        id := None;
      } else {
        id := Some(nextId);
        titles := titles + [Title(nextId, name, year, description, {}, category)];
        nextId := nextId + 1;
      }
    }

    method AddGenreLink(title: TitleId, genre: GenreId) returns (ok: bool)
      requires Valid()
      modifies this
      ensures Valid()
      ensures ok == LinkGenre(old(Contents()), title, genre).Ok?
      ensures ok ==> Contents() == LinkGenre(old(Contents()), title, genre).value
      ensures !ok ==> Contents() == old(Contents())
    {
      LinkGenreEffect(Contents(), title, genre);
      if title !in TitleIds(titles) || genre !in GenreIds(genres) {
        ok := false;
      } else {
        titles := Map(titles, LinkGenreTo(title, genre));
        ok := true;
      }
    }
  }
}
