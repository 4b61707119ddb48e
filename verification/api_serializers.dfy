/**
 * The serializers of the top-level API: signup and profile validation, the
 * token request, the rating of a title rounded half to even, the year check,
 * and `TitlePostSerializer.create`, which inserts a title and then links its
 * genres one slug at a time.
 */
module ApiSerializers {
  import opened Wrappers
  import opened UsersModels
  import opened ReviewsModels
  import ReviewsValidators
  import opened Seqs
  import opened Store

  /* ---------- UserCreateSerializer ---------- */

  /**
   * The signup username: a non-blank `CharField` (the explicit declaration
   * carries no pattern and no length bound), the `UniqueValidator`, and
   * `validate_username`, which refuses "me" in any letter case.
   */
  predicate SignupUsernameAccepted(users: seq<User>, username: string)
  {
    |username| > 0
    && (forall u :: u in users ==> u.username != username)
    && !IsMeIgnoringCase(username)
  }

  /** The signup email: an `EmailField` with a `UniqueValidator`. */
  predicate SignupEmailAccepted(users: seq<User>, email: string)
  {
    EmailShaped(email) && forall u :: u in users ==> u.email != email
  }

  predicate SignupValid(users: seq<User>, username: string, email: string)
  {
    SignupUsernameAccepted(users, username) && SignupEmailAccepted(users, email)
  }

  /** A signup that passes validation names a pair `get_or_create` will create. */
  lemma ValidSignupIsFresh(db: Tables, username: string, email: string)
    requires SignupValid(db.users, username, email)
    ensures GetOrCreateUser(db, username, email).Created?
  {
  }

  /** Once a user holds the username or the email, signing up with it again is refused. */
  lemma RepeatedSignupRefused(users: seq<User>, u: User, email: string)
    requires u in users
    ensures !SignupValid(users, u.username, email)
    ensures forall name :: !SignupValid(users, name, u.email)
  {
  }

  /* ---------- UserSerializer ---------- */

  /** `UserSerializer.validate_username`: only the exact string "me" is refused. */
  predicate ProfileUsernameAccepted(username: string)
  {
    username != "me"
  }

  /** A partial update of `self` through `UserSerializer`: the model's field checks and the "me" check. */
  predicate ProfilePatchValid(users: seq<User>, self: UserId, p: UserPatch)
  {
    ModelFieldsAccept(users, self, p) && (p.username.Some? ==> ProfileUsernameAccepted(p.username.value))
  }

  lemma ProfileCheckIsCaseSensitive()
    ensures !ProfileUsernameAccepted("me")
    ensures ProfileUsernameAccepted("Me") && ProfileUsernameAccepted("ME")
    ensures IsMeIgnoringCase("Me") && IsMeIgnoringCase("ME")
  {
  }

  /* ---------- TokenSerializer ---------- */

  const CONFIRMATION_CODE_MAX_LENGTH := 150

  /**
   * `TokenSerializer`: the username matches `^[\w.@+-]+$` within 150
   * characters, the code is non-blank within 150. Fields are trimmed before
   * validation, so `$` and `\Z` accept the same strings here.
   */
  predicate TokenRequestValid(username: string, code: string)
  {
    ValidUsername(username) && 1 <= |code| <= CONFIRMATION_CODE_MAX_LENGTH
  }

  /* ---------- TitleBaseSerializer ---------- */

  /**
   * `int(round(avg, 0))`: the integer nearest to n/d, and the even one of the
   * two on a tie (Python rounds half to even).
   */
  function RoundHalfEven(n: int, d: int): (k: int)
    requires d > 0
    ensures 2 * (n - k * d) <= d && 2 * (k * d - n) <= d
    ensures 2 * (n - k * d) == d || 2 * (k * d - n) == d ==> k % 2 == 0
  {
    var q := n / d;
    var r := n % d;
    assert n == q * d + r;
    assert (q + 1) * d == q * d + d;
    if 2 * r < d then q
    else if 2 * r > d then q + 1
    else if q % 2 == 0 then q
    else q + 1
  }

  /**
   * `get_rating`: null for a title without reviews, else the mean of its
   * scores rounded half to even.
   */
  function GetRating(scores: seq<int>): (r: Option<int>)
    ensures r.None? <==> |scores| == 0
    ensures r.Some? ==>
      && 2 * (SumOf(scores) - r.value * |scores|) <= |scores|
      && 2 * (r.value * |scores| - SumOf(scores)) <= |scores|
    ensures r.Some? ==>
      (2 * (SumOf(scores) - r.value * |scores|) == |scores| || 2 * (r.value * |scores| - SumOf(scores)) == |scores|) ==>
      r.value % 2 == 0
  {
    if |scores| == 0 then None else Some(RoundHalfEven(SumOf(scores), |scores|))
  }

  /** The rounded mean stays within the bounds of the scores, so in [1, 10] for valid reviews. */
  lemma RatingWithinScoreBounds(scores: seq<int>, lo: int, hi: int)
    requires |scores| > 0
    requires forall i :: 0 <= i < |scores| ==> lo <= scores[i] <= hi
    ensures lo <= GetRating(scores).value <= hi
  {
    var n := |scores|;
    var k := GetRating(scores).value;
    SumBounds(scores, lo, hi);
    Distribute(lo, k, n);
    AtMostHalf(lo - k, n);
    Distribute(k, hi, n);
    AtMostHalf(k - hi, n);
  }

  lemma Distribute(a: int, b: int, n: int)
    ensures (a - b) * n == a * n - b * n
  {
  }

  /** An integer `x` with `2 * (x * n) <= n` for a positive `n` is not positive. */
  lemma AtMostHalf(x: int, n: int)
    requires n > 0 && 2 * (x * n) <= n
    ensures x <= 0
  {
  }

  lemma RatingOfValidReviews(scores: seq<int>)
    requires |scores| > 0
    requires forall i :: 0 <= i < |scores| ==> ScoreInRange(scores[i])
    ensures ScoreInRange(GetRating(scores).value)
  {
    RatingWithinScoreBounds(scores, SCORE_MIN, SCORE_MAX);
  }

  /** `TitleBaseSerializer.validate_year`: the same bound as the model validator. */
  function ValidateYear(value: int, currentYear: int): (r: Result<int, string>)
    ensures r.Ok? <==> ReviewsValidators.ValidateYear(value, currentYear).Ok?
    ensures r.Ok? ==> r.value == value
  {
    if value > currentYear then Err("year not yet reached") else Ok(value)
  }

  /* ---------- TitlePostSerializer.create ---------- */

  datatype CreateError = GenreFieldMissing

  /** The ids of the listed genres. */
  function IdsOf(genres: seq<Genre>): set<GenreId>
  {
    set i | 0 <= i < |genres| :: genres[i].id
  }

  /** The lookup `get_object_or_404(Genre, slug=...)` performs. */
  function SlugIs(slug: string): Genre -> bool
  {
    (g: Genre) => g.slug == slug
  }

  /**
   * `TitlePostSerializer.create`, on data the serializer has already
   * validated: the genre and category slugs were resolved to existing rows
   * by the `SlugRelatedField`s. The request is refused when no "genre" key
   * was sent; otherwise the title is inserted and each genre, looked up again
   * by its slug, is linked in turn. Since `Genre.__str__` is the slug, that
   * lookup finds the very genre it was given, so the 404 of
   * `get_object_or_404` cannot happen.
   */
  method CreateTitle(
    db: Database, genreSent: bool, name: string, year: int, description: string,
    genres: seq<Genre>, category: CategoryId)
    returns (r: Result<TitleId, CreateError>)
    requires db.Valid()
    requires forall g :: g in genres ==> g in db.genres
    requires category in CategoryIds(db.categories)
    modifies db
    ensures db.Valid()
    ensures r.Ok? <==> genreSent
    ensures r.Err? ==> db.Contents() == old(db.Contents())
    ensures r.Ok? ==>
      && r.value == old(db.nextId)
      && db.titles == old(db.titles) + [Title(r.value, name, year, description, IdsOf(genres), Some(category))]
      && db.Contents() == old(db.Contents()).(titles := db.titles, nextId := old(db.nextId) + 1)
  {
    if !genreSent {
      return Err(GenreFieldMissing);
    }
    var created := db.AddTitle(name, year, description, Some(category));
    var id := created.value;
    assert IdsOf(genres[..0]) == {};
    ghost var before := old(db.titles);
    ghost var all := db.genres;
    var i := 0;
    while i < |genres|
      invariant 0 <= i <= |genres|
      invariant db.Valid()
      invariant db.genres == all == old(db.genres)
      invariant id == old(db.nextId)
      invariant db.titles == before + [Title(id, name, year, description, IdsOf(genres[..i]), Some(category))]
      invariant db.Contents() == old(db.Contents()).(titles := db.titles, nextId := id + 1)
    {
      var found := Find(db.genres, SlugIs(genres[i].slug));
      assert found.Some? by {
        assert SlugIs(genres[i].slug)(genres[i]);
      }
      var g := found.value;
      KeyIdentifiesRow(all, GenreSlug, g, genres[i]);
      assert IdsOf(genres[..i + 1]) == IdsOf(genres[..i]) + {g.id} by {
        assert genres[..i + 1] == genres[..i] + [genres[i]];
      }
      assert id in TitleIds(db.titles) by {
        assert db.titles[|before|].id == id;
      }
      var ok := db.AddGenreLink(id, g.id);
      assert db.titles[..|before|] == before by {
        forall j | 0 <= j < |before| ensures db.titles[j] == before[j] {
          assert before[j] in old(db.titles);
        }
      }
      i := i + 1;
    }
    assert genres[..i] == genres;
    return Ok(id);
  }
}
