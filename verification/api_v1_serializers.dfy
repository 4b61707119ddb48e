/**
 * The serializers of the versioned API: signup and token requests, the
 * truncated rating of a title, and the review and comment payloads with
 * their read-only author.
 */
module ApiV1Serializers {
  import opened Wrappers
  import opened Seqs
  import opened UsersModels
  import opened ReviewsModels
  import opened Store

  /* ---------- UserCreateSerializer ---------- */

  /**
   * `UserCreateSerializer`: an email of at most 254 characters, a username
   * matching `^[\w.@+-]+\Z` within 150 characters, and `validate_username`
   * refusing "me" in any letter case. Nothing here reads the user table.
   */
  predicate SignupValid(username: string, email: string)
  {
    ValidEmail(email) && ValidUsername(username) && !IsMeIgnoringCase(username)
  }

  lemma SignupRefusesMe(email: string)
    ensures !SignupValid("me", email) && !SignupValid("Me", email)
    ensures !SignupValid("mE", email) && !SignupValid("ME", email)
  {
    MeSpellings("Me");
    MeSpellings("mE");
    MeSpellings("ME");
  }

  /* ---------- TokenSerializer ---------- */

  const CONFIRMATION_CODE_MAX_LENGTH := 150

  /**
   * `TokenSerializer`: a username matching `^[\w.@+-]+$` within 150
   * characters and a non-blank code within 150.
   */
  predicate TokenRequestValid(username: string, code: string)
  {
    ValidUsername(username) && 1 <= |code| <= CONFIRMATION_CODE_MAX_LENGTH
  }

  /* ---------- TitleGetSerializer.rating ---------- */

  /** Python's `int()` of the quotient n/d: division truncated toward zero. */
  function TruncDiv(n: int, d: int): (k: int)
    requires d > 0
    ensures n >= 0 ==> k >= 0 && k * d <= n < k * d + d
    ensures n < 0 ==> k <= 0 && k * d - d < n <= k * d
  {
    if n >= 0 then n / d else -((-n) / d)
  }

  /**
   * The read-only `rating` field over `Avg("reviews__score")`: null for a
   * title without reviews, else the mean converted with `int()`.
   */
  function TruncatedRating(scores: seq<int>): (r: Option<int>)
    ensures r.None? <==> |scores| == 0
    ensures |scores| > 0 && SumOf(scores) >= 0 ==>
      0 <= r.value && r.value * |scores| <= SumOf(scores) < (r.value + 1) * |scores|
    ensures |scores| > 0 && SumOf(scores) < 0 ==>
      r.value <= 0 && (r.value - 1) * |scores| < SumOf(scores) <= r.value * |scores|
  {
    if |scores| == 0 then None else Some(TruncDiv(SumOf(scores), |scores|))
  }

  /** For non-negative score bounds the truncated mean stays within them. */
  lemma TruncatedRatingWithinScoreBounds(scores: seq<int>, lo: int, hi: int)
    requires |scores| > 0 && 0 <= lo
    requires forall i :: 0 <= i < |scores| ==> lo <= scores[i] <= hi
    ensures lo <= TruncatedRating(scores).value <= hi
  {
    var n := |scores|;
    var k := TruncatedRating(scores).value;
    SumBounds(scores, lo, hi);
    assert lo * n >= 0 by { ProductNonNegative(lo, n); }
    BelowByLess(lo, k, n);
    BelowByLess(k, hi, n);
  }

  lemma ProductNonNegative(a: int, n: int)
    requires a >= 0 && n >= 0
    ensures a * n >= 0
  {
  }

  /** `a * n < b * n + n` for a positive `n` forces `a <= b`. */
  lemma BelowByLess(a: int, b: int, n: int)
    requires n > 0 && a * n < b * n + n
    ensures a <= b
  {
    assert (a - b) * n == a * n - b * n;
    PositiveMultiple(a - b, n);
  }

  lemma PositiveMultiple(d: int, n: int)
    requires n > 0
    ensures d >= 1 ==> d * n >= n
  {
  }

  lemma TruncatedRatingOfValidReviews(scores: seq<int>)
    requires |scores| > 0
    requires forall i :: 0 <= i < |scores| ==> ScoreInRange(scores[i])
    ensures ScoreInRange(TruncatedRating(scores).value)
  {
    TruncatedRatingWithinScoreBounds(scores, SCORE_MIN, SCORE_MAX);
  }

  /* ---------- ReviewSerializer / CommentSerializer ---------- */

  /** A review as the serializer renders it: the author by username. */
  datatype ReviewOut = ReviewOut(id: ReviewId, text: string, author: string, score: int)

  datatype CommentOut = CommentOut(id: CommentId, text: string, author: string)

  function UserWithId(id: UserId): User -> bool
  {
    (u: User) => u.id == id
  }

  /** `SlugRelatedField(slug_field="username")`: the username of the row the key names. */
  function AuthorName(users: seq<User>, id: UserId): (name: string)
    requires id in UserIds(users)
    ensures exists u :: u in users && u.id == id && u.username == name
  {
    var u := Find(users, UserWithId(id));
    assert u.Some? by {
      var v :| v in users && v.id == id;
      assert UserWithId(id)(v);
    }
    u.value.username
  }

  /** Distinct authors are rendered under distinct names. */
  lemma AuthorNameIdentifiesUser(users: seq<User>, a: UserId, b: UserId)
    requires UserTableValid(users)
    requires a in UserIds(users) && b in UserIds(users) && a != b
    ensures AuthorName(users, a) != AuthorName(users, b)
  {
    var u :| u in users && u.id == a && u.username == AuthorName(users, a);
    var v :| v in users && v.id == b && v.username == AuthorName(users, b);
    if u.username == v.username {
      KeyIdentifiesRow(users, UsernameOf, u, v);
    }
  }

  function RenderReview(users: seq<User>, r: Review): (o: ReviewOut)
    requires r.author in UserIds(users)
    ensures o.id == r.id && o.text == r.text && o.score == r.score
    ensures exists u :: u in users && u.id == r.author && u.username == o.author
  {
    ReviewOut(r.id, r.text, AuthorName(users, r.author), r.score)
  }

  function RenderComment(users: seq<User>, c: Comment): (o: CommentOut)
    requires c.author in UserIds(users)
    ensures o.id == c.id && o.text == c.text
    ensures exists u :: u in users && u.id == c.author && u.username == o.author
  {
    CommentOut(c.id, c.text, AuthorName(users, c.author))
  }
}
