/**
 * The catalogue models: Category, Genre, Title, Review and Comment, their
 * field bounds and the string form of reviews and comments. The uniqueness
 * constraints and the on-delete rules live with the tables, in module Store.
 */
module ReviewsModels {
  import opened Wrappers
  import opened UsersModels
  import ReviewsValidators

  type CategoryId = nat
  type GenreId = nat
  type TitleId = nat
  type ReviewId = nat
  type CommentId = nat

  const NAME_MAX_LENGTH := 256
  const SLUG_MAX_LENGTH := 50
  const SCORE_MIN := 1
  const SCORE_MAX := 10
  /** The model default of `Review.score`, used when a request leaves the score out. */
  const SCORE_DEFAULT := 0

  datatype Category = Category(id: CategoryId, name: string, slug: string)

  datatype Genre = Genre(id: GenreId, name: string, slug: string)

  /** A title; `genres` is the many-to-many relation, `category` the nullable foreign key. */
  datatype Title = Title(
    id: TitleId,
    name: string,
    year: int,
    description: string,
    genres: set<GenreId>,
    category: Option<CategoryId>)

  datatype Review = Review(id: ReviewId, text: string, author: UserId, title: TitleId, score: int)

  datatype Comment = Comment(id: CommentId, text: string, author: UserId, review: ReviewId)

  /** One character of the `SlugField` pattern `^[-a-zA-Z0-9_]+\Z`. */
  predicate SlugChar(c: char)
  {
    ('a' <= c <= 'z') || ('A' <= c <= 'Z') || ('0' <= c <= '9') || c == '_' || c == '-'
  }

  predicate ValidSlug(s: string)
  {
    1 <= |s| <= SLUG_MAX_LENGTH && forall i :: 0 <= i < |s| ==> SlugChar(s[i])
  }

  /** A non-blank `CharField(max_length=256)`. */
  predicate ValidName(s: string)
  {
    1 <= |s| <= NAME_MAX_LENGTH
  }

  /** The field checks of a Genre or a Category (the shared abstract base model). */
  predicate ValidGenreOrCategoryFields(name: string, slug: string)
  {
    ValidName(name) && ValidSlug(slug)
  }

  /** The field checks of a Title: the name bound and `validate_year` on the year. */
  predicate ValidTitleFields(name: string, year: int, currentYear: int)
  {
    ValidName(name) && ReviewsValidators.ValidateYear(year, currentYear).Ok?
  }

  /** The slug and name bounds of a genre or a category. */
  lemma GenreOrCategoryFieldExamples()
    ensures ValidGenreOrCategoryFields("Science fiction", "sci-fi_2")
    ensures !ValidSlug("") && !ValidSlug("sci fi")
    ensures forall s :: |s| > SLUG_MAX_LENGTH ==> !ValidSlug(s)
    ensures forall n :: |n| > NAME_MAX_LENGTH ==> !ValidName(n)
  {
    assert "sci fi"[3] == ' ';
  }

  /** The `MinValueValidator(1)` and `MaxValueValidator(10)` on `Review.score`. */
  predicate ScoreInRange(score: int)
  {
    SCORE_MIN <= score <= SCORE_MAX
  }

  lemma DefaultScoreOutOfRange()
    ensures !ScoreInRange(SCORE_DEFAULT)
  {
  }

  /** `text[:LENGTH_TEXT]`, the string form of a review or a comment. */
  function TextPreview(text: string, lengthText: nat): (s: string)
    ensures |s| <= lengthText && |s| <= |text|
    ensures |s| == lengthText || |s| == |text|
    ensures s <= text
  {
    if |text| <= lengthText then text else text[..lengthText]
  }

  function ReviewString(r: Review, lengthText: nat): string
  {
    TextPreview(r.text, lengthText)
  }

  function CommentString(c: Comment, lengthText: nat): string
  {
    TextPreview(c.text, lengthText)
  }

  /* ---------- Request payloads ---------- */

  /**
   * The client-writable fields of a review: `text` and `score`. The author
   * and the title come from the request and the URL, never from the payload.
   */
  datatype ReviewPayload = ReviewPayload(text: string, score: Option<int>)

  /** A comment's only client-writable field. */
  datatype CommentPayload = CommentPayload(text: string)

  /**
   * The checks a model serializer derives from the Review fields: `text`
   * required and non-blank; `score` optional (the model has a default) and,
   * when sent, within the two value validators.
   */
  predicate ReviewPayloadValid(p: ReviewPayload)
  {
    |p.text| > 0 && (p.score.Some? ==> ScoreInRange(p.score.value))
  }

  predicate CommentPayloadValid(p: CommentPayload)
  {
    |p.text| > 0
  }

  /** The score saved for a valid payload: the one sent, else the model default. */
  function StoredScore(p: ReviewPayload): (s: int)
    requires ReviewPayloadValid(p)
    ensures p.score.Some? ==> ScoreInRange(s) && s == p.score.value
    ensures p.score.None? ==> s == SCORE_DEFAULT && !ScoreInRange(s)
  {
    Or(p.score, SCORE_DEFAULT)
  }
}
