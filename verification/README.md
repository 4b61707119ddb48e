# api_yamdb in Dafny

api_yamdb is a Django REST service for reviews of titles (books, films,
music). Users sign up with a username and an email and receive a
confirmation code by mail. They trade that code for an access token. They
then read the catalogue of titles, genres and categories, and write reviews
with a score from 1 to 10 and comments on reviews. Moderators and admins may
edit or delete anyone's reviews and comments. Admins manage the catalogue
and the users.

The service ships two copies of its API layer: the top-level `api/` package
and the versioned `api/v1/` package. They differ in small but real ways, and
this model keeps them as two named variants:

- `ApiPermissions`, `ApiSerializers`, `ApiViews` and `ApiFilters` model the top-level copy.
- `ApiV1Permissions`, `ApiV1Serializers`, `ApiV1Views` and `ApiV1Filters` model `api/v1/`.
- `VariantComparison` proves where the two copies agree and where they part.

The remaining modules:

- `UsersModels` models the custom `User`: its roles, the default role, `is_admin` and `is_moderator`, the field validators and the uniqueness constraints.
- `ReviewsModels` models the catalogue entities: field bounds, the score range and its out-of-range default, the text preview, and the client-writable payloads.
- `ReviewsValidators` models `validate_year`. The current year is a parameter.
- `Store` holds the database as one value, `Tables`, with pure functions for every write the views perform:
  - the cascade and `SET_NULL` deletes;
  - `get_or_create`;
  - saving a user under the unique constraints;
  - inserting reviews, comments and titles;
  - linking a genre.

  Its `Database` class holds the same tables as fields and updates them in place. Each method is proved to leave exactly the state the pure function describes.
- `Http` holds the request vocabulary: methods and `SAFE_METHODS`, the requesting user, statuses, and how a permission check ends (granted, refused with 401 or 403, or an uncaught exception giving 500).
- `Seqs` and `Wrappers` are generic helpers: filtering, finding, key uniqueness, `Option` and `Result`.

Each view is a pure function from the tables and the request to a status and
the new tables. The views that write (signup, `me`, review and comment
creation, `TitlePostSerializer.create`) are also methods on a `Database`,
proved equal to that function.

Outside inputs are parameters:

- The mailed confirmation code is the `sentTo` component of a signup reply.
- The token generator's `check_token` is a function parameter `checkToken`.
- An access token is `Token(user id)`.
- The clock's year is `currentYear`.
- `settings.LENGTH_TEXT` is `lengthText`.

An anonymous request refused by a permission class is answered 401 and an
authenticated one 403. This is DRF's behaviour when an authentication class
that sends a `WWW-Authenticate` header is configured, as the JWT one is.

## Model

| member | source | states |
|---|---|---|
| UsersModels.ParseRole | api_yamdb/users/models.py:24-29 | a role string is accepted exactly when it is the stored value of one of the three roles "user", "moderator", "admin" |
| UsersModels.NewUser | api_yamdb/users/models.py:24-29 | a user created from a username and an email gets the default role `user`, and is neither admin, moderator nor staff |
| UsersModels.SuperuserIsAdminUnderAnyRole | api_yamdb/users/models.py:48-50 | a superuser is an admin whatever its role |
| UsersModels.RolesExclusive | api_yamdb/users/models.py:44-50 | a moderator who is not a superuser is not an admin; a user with the admin role is not a moderator |
| UsersModels.UsernameFieldExamples | api_yamdb/api/v1/serializers.py:30 | the username pattern `[\w.@+-]+` accepts dots, `@`, `+`, `-` and `_`, refuses the empty string, spaces and slashes, and nothing longer than 150 characters passes |
| UsersModels.EmailFieldExamples | api_yamdb/users/models.py:15-19 | an email needs text on both sides of an `@`, and nothing longer than 254 characters passes |
| UsersModels.MeSpellings | api_yamdb/api/v1/serializers.py:32-35 | `value.lower() == "me"` holds for exactly the four spellings me, Me, mE, ME |
| UsersModels.UserTableKeepsPairsUnique | api_yamdb/users/models.py:34-38 | in a table with unique emails no two rows share a (username, email) pair, so `unique_user` always holds |
| UsersModels.ApplyPatch | api_yamdb/api/v1/views.py:89-93 | a partial update sets each field sent (username, email, first name, last name, bio) to the value sent and keeps every field not sent; it keeps the id and the superuser and staff flags, and stores the role passed to `save` |
| ReviewsModels.GenreOrCategoryFieldExamples | api_yamdb/reviews/models.py:31-40 | a genre or category slug is non-empty, has no spaces and is at most 50 characters; a name is at most 256 |
| ReviewsModels.DefaultScoreOutOfRange | api_yamdb/reviews/models.py:123-134 | the score default 0 lies outside the validators' range [1, 10] |
| ReviewsModels.StoredScore | api_yamdb/reviews/models.py:123-134 | a valid payload stores the score it sends, which is in [1, 10]; a payload without a score stores the default 0, which is not |
| ReviewsModels.TextPreview | api_yamdb/reviews/models.py:146-147 | the string form of a review or comment is a prefix of its text, of length `LENGTH_TEXT` or the whole text if shorter |
| ReviewsValidators.ValidateYear | api_yamdb/reviews/validators.py:6-11 | raises exactly when the year is after the current year, and the error carries the offending value |
| ReviewsValidators.CurrentYearAccepted | api_yamdb/reviews/validators.py:7 | the current year itself passes |
| ReviewsValidators.AcceptedYearsDownwardClosed | api_yamdb/reviews/validators.py:7 | every year before an accepted year is accepted |
| ReviewsValidators.NonPositiveYearsAccepted | api_yamdb/reviews/validators.py:7 | there is no lower bound: zero and negative years pass |
| Store.OneReviewPerTitleAndAuthor | api_yamdb/reviews/models.py:139-143 | in a consistent database two reviews of the same title by the same author are the same review |
| Store.OneCommentPerReviewAndAuthor | api_yamdb/reviews/models.py:169-173 | two comments on the same review by the same author are the same comment |
| Store.OneGenrePerSlug | api_yamdb/reviews/models.py:36-40 | two genres with the same slug are the same genre |
| Store.OneCategoryPerSlug | api_yamdb/reviews/models.py:36-40 | two categories with the same slug are the same category |
| Store.OneUserPerEmail | api_yamdb/users/models.py:15-19 | two users with the same email are the same user |
| Store.DeleteCategoryEffect | api_yamdb/reviews/models.py:90-97 | deleting a category removes only it; its titles survive with the category set to null, every other title and table is unchanged, consistency is kept |
| Store.DeleteGenreEffect | api_yamdb/reviews/models.py:86-89 | deleting a genre removes it and its links from every title; nothing else changes |
| Store.DeleteTitleEffect | api_yamdb/reviews/models.py:111-116 | deleting a title deletes exactly its reviews and the comments on them; users, categories and genres are unchanged |
| Store.DeleteReviewEffect | api_yamdb/reviews/models.py:153-158 | deleting a review deletes exactly the comments on it |
| Store.DeleteUserEffect | api_yamdb/reviews/models.py:117-122 | deleting a user deletes that user's reviews, the user's comments, and every comment on the user's reviews; the catalogue is unchanged |
| Store.GetOrCreateEffect | api_yamdb/api/v1/views.py:47-50 | `get_or_create` returns the row holding that exact pair; otherwise it refuses when the username or email is taken by another row; otherwise it appends a new default user; consistency is kept |
| Store.GetOrCreateIdempotent | api_yamdb/api/v1/views.py:47-50 | after a successful `get_or_create`, repeating it finds the same user and changes nothing |
| Store.SaveUserEffect | api_yamdb/api/v1/views.py:93 | saving a user fails exactly when another row holds its username or email; on success only that row changes and the table stays consistent |
| Store.ReplaceUserKeepsTableValid | api_yamdb/users/models.py:15-19 | replacing a row by one clashing with no other row keeps ids, usernames and emails unique |
| Store.SavePatchedUser | api_yamdb/api/v1/views.py:92-93 | a patch that passes the model's field checks always saves, and leaves every other user as it was |
| Store.InsertReviewEffect | api_yamdb/reviews/models.py:111-143 | inserting a review fails exactly when the title or author is missing or the (title, author) pair is taken; otherwise the new state is the old one with exactly one review appended and the id counter advanced, every other table unchanged |
| Store.InsertCommentEffect | api_yamdb/reviews/models.py:153-173 | inserting a comment fails exactly when the review or author is missing or the (review, author) pair is taken; otherwise the new state is the old one with exactly one comment appended and the id counter advanced, every other table unchanged |
| Store.InsertTitleEffect | api_yamdb/api/serializers.py:127 | inserting a title fails only for a missing category; otherwise the new state is the old one with one title appended, fresh id and no genres, and the id counter advanced, every other table unchanged |
| Store.LinkGenreEffect | api_yamdb/api/serializers.py:130 | linking a genre fails exactly when the title or genre is missing; otherwise it adds the genre to that title only, and every other table and the id counter are unchanged |
| Store.ScoresOf | api_yamdb/api/serializers.py:101 | a title has one score per review of that title, in table order, each the score of such a review |
| Store.ReviewOfTitle | api_yamdb/api/v1/views.py:154-158 | the parent lookup finds the review with that key only when it belongs to the URL title; it gives 404 when the title is missing or the review is not on it |
| Store.Database.DeleteCategory | api_yamdb/reviews/models.py:90-97 | deletes in place with the effect of `DeleteCategoryFrom` |
| Store.Database.DeleteGenre | api_yamdb/reviews/models.py:86-89 | deletes in place with the effect of `DeleteGenreFrom` |
| Store.Database.DeleteTitle | api_yamdb/reviews/models.py:111-116 | deletes in place with the effect of `DeleteTitleFrom` |
| Store.Database.DeleteReview | api_yamdb/reviews/models.py:153-158 | deletes in place with the effect of `DeleteReviewFrom` |
| Store.Database.DeleteUser | api_yamdb/reviews/models.py:117-122 | deletes in place with the effect of `DeleteUserFrom` |
| Store.Database.GetOrCreate | api_yamdb/api/v1/views.py:48-50 | returns the `get_or_create` outcome and updates the table as `AfterGetOrCreate` says |
| Store.Database.Save | api_yamdb/api/v1/views.py:93 | saves exactly when `SaveUser` succeeds, otherwise changes nothing |
| Store.Database.AddReview | api_yamdb/api/v1/views.py:147 | inserts exactly when `InsertReview` succeeds, otherwise changes nothing |
| Store.Database.AddComment | api_yamdb/api/v1/views.py:166 | inserts exactly when `InsertComment` succeeds, otherwise changes nothing |
| Store.Database.AddTitle | api_yamdb/api/serializers.py:127 | creates the title with the next id exactly when `InsertTitle` succeeds |
| Store.Database.AddGenreLink | api_yamdb/api/serializers.py:130 | links exactly when `LinkGenre` succeeds, otherwise changes nothing |
| ApiPermissions.AdminOnlyIffStaffOrAdmin | api_yamdb/api/permissions.py:4-8 | `AdminOnly` refuses every anonymous request and grants an authenticated one iff it is staff or admin |
| ApiPermissions.ReadOnlyIgnoresUser | api_yamdb/api/permissions.py:11-13 | `ReadOnly` holds iff the method is GET, HEAD or OPTIONS, whoever asks |
| ApiPermissions.AuthorOrModeratorOrAdminDecides | api_yamdb/api/permissions.py:21-28 | safe methods are granted; an authenticated unsafe request is granted iff author, admin or moderator, and never raises |
| ApiPermissions.AuthorIsGranted | api_yamdb/api/permissions.py:16-28 | whenever `IsAuthor` holds, `AuthorOrModeratorOrAdmin` grants |
| ApiV1Permissions.AdminOnlyIffStaffOrAdmin | api_yamdb/api/v1/permissions.py:4-8 | `AdminOnly` refuses every anonymous request and grants an authenticated one iff it is staff or admin |
| ApiV1Permissions.AdminOnlyOrReadOnlyDecides | api_yamdb/api/v1/permissions.py:11-17 | safe methods are granted to everyone; on unsafe methods the answer is `AdminOnly`'s |
| ApiV1Permissions.AuthorOrModeratorOrAdminDecides | api_yamdb/api/v1/permissions.py:20-27 | the request-level hook grants everything; at object level safe methods are granted and unsafe ones iff author, admin or moderator |
| ApiV1Permissions.PlainNonAuthorRefused | api_yamdb/api/v1/permissions.py:24-27 | a plain user who is not the author is denied every unsafe method |
| ApiV1Permissions.PromotionRevokesNothing | api_yamdb/api/v1/permissions.py:24-27 | raising a user's role from `user` revokes no grant of any of the three classes |
| ApiSerializers.ValidSignupIsFresh | api_yamdb/api/serializers.py:22-30 | a signup that passes the serializer names a pair `get_or_create` creates |
| ApiSerializers.RepeatedSignupRefused | api_yamdb/api/serializers.py:23-30 | once a user holds a username or an email, a signup with it fails validation |
| ApiSerializers.ProfileCheckIsCaseSensitive | api_yamdb/api/serializers.py:61-64 | the profile check refuses only "me", so "Me" and "ME" pass, though the signup check catches them |
| ApiSerializers.RoundHalfEven | api_yamdb/api/serializers.py:99-104 | the result is an integer nearest to n/d, and the even one on a tie |
| ApiSerializers.GetRating | api_yamdb/api/serializers.py:96-104 | the rating is null iff there are no reviews, else an integer nearest to the mean score, and the even one on a tie |
| ApiSerializers.RatingWithinScoreBounds | api_yamdb/api/serializers.py:99-104 | the rounded mean lies between any bounds of the scores |
| ApiSerializers.RatingOfValidReviews | api_yamdb/api/serializers.py:99-104 | when every score is in [1, 10] so is the rating |
| ApiSerializers.ValidateYear | api_yamdb/api/serializers.py:106-109 | accepts exactly the years the model validator accepts, and returns the value unchanged |
| ApiSerializers.CreateTitle | api_yamdb/api/serializers.py:123-131 | without a "genre" key the request fails and nothing changes; otherwise one title is appended with a fresh id, linked to exactly the given genres and the given category, and nothing else changes |
| ApiV1Serializers.SignupRefusesMe | api_yamdb/api/v1/serializers.py:32-35 | the signup username "me" is refused in all four letter cases |
| ApiV1Serializers.TruncDiv | api_yamdb/api/v1/serializers.py:86 | `int()` of a quotient rounds toward zero, for both signs |
| ApiV1Serializers.TruncatedRating | api_yamdb/api/v1/serializers.py:86 | the rating is null iff there are no reviews; otherwise it is the mean of the scores truncated toward zero, as `int()` converts it |
| ApiV1Serializers.TruncatedRatingWithinScoreBounds | api_yamdb/api/v1/serializers.py:86 | for non-negative bounds the truncated mean lies between the bounds of the scores |
| ApiV1Serializers.TruncatedRatingOfValidReviews | api_yamdb/api/v1/serializers.py:86 | when every score is in [1, 10] so is the truncated rating |
| ApiV1Serializers.AuthorName | api_yamdb/api/v1/serializers.py:106-108 | the author is rendered as the username of the user with that key |
| ApiV1Serializers.AuthorNameIdentifiesUser | api_yamdb/api/v1/serializers.py:106-108 | distinct authors are rendered under distinct names |
| ApiV1Serializers.RenderReview | api_yamdb/api/v1/serializers.py:103-112 | a rendered review carries its id, text and score, and its author's username |
| ApiV1Serializers.RenderComment | api_yamdb/api/v1/serializers.py:115-124 | a rendered comment carries its id and text, and its author's username |
| ApiV1Views.ConfirmationCodeOutcomes | api_yamdb/api/v1/views.py:43-55 | a new pair creates one user, mails one code and answers 200; an existing pair mails a code and changes nothing; a conflict answers 400, mails nothing, changes nothing |
| ApiV1Views.RepeatedConfirmationCode | api_yamdb/api/v1/views.py:47-55 | after a successful signup the same signup answers 200 again, mails a new code and creates nobody |
| ApiV1Views.GetConfirmationCode | api_yamdb/api/v1/views.py:41-55 | the in-place signup returns the status and mail of `ConfirmationCode` and leaves its tables |
| ApiV1Views.GetToken | api_yamdb/api/v1/views.py:60-71 | the decision of the view: an invalid request is 400; an unknown username is 404; a token is issued only for the named user whose code checks; a wrong code gives no token |
| ApiV1Views.GetTokenDecides | api_yamdb/api/v1/views.py:66-71 | for an existing user, a checking code gives that user's token and any other code is refused |
| ApiV1Views.UnconvertedTokenIsServerError | api_yamdb/api/v1/views.py:70-71 | as written, a user whose code checks is decided a token yet answered 500, because the token object is not turned into a string the JSON renderer can encode |
| ApiV1Views.PatchMe | api_yamdb/api/v1/views.py:87-94 | a PATCH on `me` answers 200 iff the model's field checks pass, and then saves the patch with the caller's own role; otherwise 400 and nothing changes |
| ApiV1Views.PatchMeKeepsRole | api_yamdb/api/v1/views.py:88-94 | an accepted `me` PATCH always saves, and never changes the caller's role or flags |
| ApiV1Views.CatalogueAccess | api_yamdb/api/v1/views.py:99-131 | titles, categories and genres grant safe methods to all, and unsafe ones to staff or admins only; anonymous writes get 401 |
| ApiV1Views.UsersAccess | api_yamdb/api/v1/views.py:74-77 | the users endpoint admits only staff or admins |
| ApiV1Views.MeAccess | api_yamdb/api/v1/views.py:82-86 | `me` admits exactly the authenticated users |
| ApiV1Views.ReviewCommentAccess | api_yamdb/api/v1/views.py:134-152 | reads are open to everyone; writes need an authenticated user, and edits of an object need its author, an admin or a moderator; never a 500 |
| ApiV1Views.AnnotatedTitles | api_yamdb/api/v1/views.py:109-113 | every title is listed once, in order; its rating is the truncated mean of the scores of its reviews, null iff it has none |
| ApiV1Views.AnnotatedRatingInRange | api_yamdb/api/v1/views.py:109-113 | when a title's scores are all in [1, 10] so is its annotated rating |
| ApiV1Views.DuplicateReviewIsServerError | api_yamdb/api/v1/views.py:145-147 | as written, a second review of a title by the same author reaches the database constraint and answers 500 |
| ApiV1Views.ReviewCreateEffect | api_yamdb/api/v1/views.py:138-147 | a review is created iff the requester is authenticated, the payload is valid, the URL title exists and the author has no review on it; it has the URL title and the requester as author; any other outcome changes nothing |
| ApiV1Views.ReviewCreateDiffersOnlyOnDuplicates | api_yamdb/api/v1/views.py:145-147 | the code as written and the corrected view differ exactly on valid duplicate reviews |
| ApiV1Views.CreateReview | api_yamdb/api/v1/views.py:134-147 | the in-place review creation answers and writes as `ReviewCreate` |
| ApiV1Views.DuplicateCommentIsServerError | api_yamdb/api/v1/views.py:164-166 | as written, a second comment on a review by the same author answers 500 |
| ApiV1Views.CommentCreateEffect | api_yamdb/api/v1/views.py:154-166 | 404 iff the review is not on the URL title; a comment is created iff authenticated, valid, the parent found and no comment by that author on it; any other outcome changes nothing |
| ApiV1Views.CreateComment | api_yamdb/api/v1/views.py:150-166 | the in-place comment creation answers and writes as `CommentCreate` |
| ApiViews.UserCreateOutcomes | api_yamdb/api/views.py:49-57 | a signup answers 200 iff it passes the serializer, then creates exactly one user and mails one code; otherwise 400 with nothing mailed or changed |
| ApiViews.RepeatedUserCreateRefused | api_yamdb/api/views.py:49-57 | after a successful signup, the same signup is refused with 400 |
| ApiViews.CreateUser | api_yamdb/api/views.py:44-57 | the in-place signup answers, mails and writes as `UserCreate` |
| ApiViews.ReceiveToken | api_yamdb/api/views.py:65-80 | an invalid request is 400; an unknown username is 404; a token is issued only for the named user whose code checks; a wrong code gives no token |
| ApiViews.ReceiveTokenDecides | api_yamdb/api/views.py:70-80 | for an existing user, a checking code gives that user's token and any other code is refused |
| ApiViews.PatchMe | api_yamdb/api/views.py:99-106 | a PATCH on `me` answers 200 iff the field checks and the "me" check pass, and then saves with the caller's own role; otherwise 400 and nothing changes |
| ApiViews.PatchMeKeepsRole | api_yamdb/api/views.py:99-106 | an accepted `me` PATCH always saves, keeps the caller's role and flags, and never stores the username "me" |
| ApiViews.CatalogueAccess | api_yamdb/api/views.py:111-124 | `ReadOnly \| AdminOnly` grants safe methods to all and others to staff or admins; refusals are 401 or 403 by requester |
| ApiViews.GenreAccess | api_yamdb/api/views.py:139-144 | listing genres is open to all; every other genre action needs an authenticated staff member or admin, 401 for anonymous |
| ApiViews.UsersAccess | api_yamdb/api/views.py:83-89 | the users endpoint admits only authenticated staff or admins, 401 for anonymous |
| ApiViews.MeAccess | api_yamdb/api/views.py:94-98 | `me` admits exactly the authenticated users |
| ApiViews.ReviewAccess | api_yamdb/api/views.py:147-152 | every review request needs authentication, reads included; authenticated edits need author, admin or moderator; never a 500 |
| ApiViews.CommentAccessAsWritten | api_yamdb/api/views.py:166-168 | as written, a comment request not aimed at one object is always let through, anonymous ones included |
| ApiViews.AnonymousCommentEditCrashes | api_yamdb/api/views.py:166-168 | as written, an anonymous unsafe request on a comment raises, giving 500 |
| ApiViews.CommentAccess | api_yamdb/api/views.py:166-168 | corrected: reads open to all, anonymous writes 401, edits of an object need its author, admin or moderator; never a 500 |
| ApiViews.CommentAccessDiffersOnlyForAnonymousWrites | api_yamdb/api/views.py:166-168 | the code as written and the corrected gate differ exactly on anonymous unsafe requests |
| ApiViews.ReviewCreateAsWrittenNeverCreates | api_yamdb/api/serializers.py:141-154 | as written no review is ever created or stored: past the 401 gate every create is a 400, including a valid first review of an existing title, which the corrected view creates |
| ApiViews.ReviewCreateEffect | api_yamdb/api/views.py:154-163 | corrected: a review is created iff authenticated, the payload is valid, the URL title exists and the author has no review on it; a duplicate is refused with 400; any other outcome changes nothing |
| ApiViews.CreateReview | api_yamdb/api/views.py:147-163 | corrected: the in-place review creation answers and writes as `ReviewCreate` |
| ApiViews.CommentCreateAsWrittenNeverCreated | api_yamdb/api/serializers.py:157-165 | as written no comment creation is answered 201; a body without the `review` key the serializer also demands is a 400 that changes nothing |
| ApiViews.AnonymousCommentCreateCrashes | api_yamdb/api/views.py:180-182 | as written, an anonymous valid comment on an existing review reaches `save` with no user and answers 500 |
| ApiViews.DuplicateCommentIsServerError | api_yamdb/api/views.py:180-182 | as written, a second comment on a review by the same author answers 500 |
| ApiViews.FreshCommentSavedYetServerError | api_yamdb/api/serializers.py:161 | as written, a valid first comment is saved and still answered 500, because rendering `author` reads a user attribute that does not exist; the corrected view answers 201 with the same new state |
| ApiViews.CommentCreateEffect | api_yamdb/api/views.py:170-182 | corrected: 404 iff the review is not on the URL title; a comment is created iff authenticated, valid, the parent found and no comment by that author on it; any other outcome changes nothing |
| ApiViews.CreateComment | api_yamdb/api/views.py:166-182 | corrected: the in-place comment creation answers and writes as `CommentCreate` |
| ApiFilters.CategorySlugFilter | api_yamdb/api/filters.py:14-15 | keeps exactly the titles whose category slug equals the value; titles without a category never match |
| ApiFilters.GenreSlugFilter | api_yamdb/api/filters.py:17-18 | keeps exactly the titles having a genre with that slug |
| ApiFilters.NameFilter | api_yamdb/api/filters.py:10-12 | keeps exactly the titles whose name equals the value |
| ApiFilters.YearFilter | api_yamdb/api/filters.py:10-12 | keeps exactly the titles of that year |
| ApiFilters.FilterTitles | api_yamdb/api/filters.py:6-18 | the result is the input's titles that match every filter set, and no others |
| ApiFilters.CategorySlugFilterIdempotent | api_yamdb/api/filters.py:14-15 | applying the category filter twice equals applying it once |
| ApiFilters.GenreSlugFilterIdempotent | api_yamdb/api/filters.py:17-18 | applying the genre filter twice equals applying it once |
| ApiFilters.FilterTitlesIdempotent | api_yamdb/api/filters.py:6-18 | applying the whole filter set twice equals applying it once |
| ApiV1Filters.NameFilter | api_yamdb/api/v1/filters.py:15-16 | keeps exactly the titles whose name contains the value as a substring |
| ApiV1Filters.FilterTitles | api_yamdb/api/v1/filters.py:6-16 | the result is the input's titles that match every filter set, and no others; the category, genre and year filters are the exact ones of the top-level copy |
| ApiV1Filters.FilterTitlesIdempotent | api_yamdb/api/v1/filters.py:6-16 | applying the whole filter set twice equals applying it once |
| VariantComparison.PermissionClassesAgree | api_yamdb/api/permissions.py:4-28 | both copies' `AdminOnly` and `AuthorOrModeratorOrAdmin` give the same answer everywhere |
| VariantComparison.CatalogueAccessAgrees | api_yamdb/api/views.py:112 | `ReadOnly \| AdminOnly` and `AdminOnlyOrReadOnly` gate the catalogue identically |
| VariantComparison.ReviewReadsDiffer | api_yamdb/api/views.py:149-152 | an anonymous read of reviews gets 401 from the top-level copy and is allowed by the v1 copy |
| VariantComparison.TokenExchangesAgree | api_yamdb/api/views.py:65-80 | both token exchanges take the same decision on every input: the same refusal, or a token for the same user |
| VariantComparison.TokenAnswersDifferOnlyOnSuccess | api_yamdb/api/views.py:79 | the answered statuses differ exactly when a token is issued: 200 at the top level, 500 in v1 |
| VariantComparison.RepeatedSignupDiffers | api_yamdb/api/views.py:49-57 | a first valid signup has the same effect in both copies; repeating it is 400 at the top level and 200 with a new code in v1 |
| VariantComparison.MeChecksDiffer | api_yamdb/api/serializers.py:61-64 | "Me" fails both signup checks but passes the top-level profile check; "me" passes the v1 profile checks |
| VariantComparison.RatingsDifferByAtMostOne | api_yamdb/api/serializers.py:99-104 | for non-negative score sums the rounded rating is the truncated one or one more |
| VariantComparison.RatingsOfNineAndTen | api_yamdb/api/serializers.py:99-104 | scores 9 and 10 rate 10 at the top level and 9 in v1 |
| VariantComparison.ExactNameWithinSubstring | api_yamdb/api/filters.py:10-12 | every title the exact name filter keeps is kept by the substring filter |

## Left out

- Email delivery (`send_confirmation_code`) is an outside effect. A signup reply's `sentTo` records where a code would be mailed.
- `default_token_generator.make_token`/`check_token` are library crypto. `check_token` is the parameter `checkToken`, and `AccessToken.for_user` is `Token(user id)`.
- `generate_confirmation_code` in api/utils.py is random and called nowhere. It is not modelled.
- `datetime.now()` is the parameter `currentYear`, and `settings.LENGTH_TEXT` is the parameter `lengthText`.
- ORM query execution, transactions and the race between validator checks and the database constraints are not modelled. Each request runs alone on a snapshot.
- `pub_date`, `ordering` and pagination are not modelled. Tables are sequences in insertion order.
- `GenreTitle` is imported by both serializer modules but defined nowhere in reviews/models.py. `Title.genre` is a set of genre ids on the title, and a link is an update of that set.
- The CSV import command, the admin configuration, URL routing and the view-set mixins are framework wiring and are not part of this model.
- `UsersModels.EmailShaped` stands in for Django's `EmailValidator`. It only requires text on both sides of an `@`.
- ApiV1Filters.NameFilter and ApiV1Filters.FilterTitles: `name__contains` is taken as case-sensitive, as on PostgreSQL; SQLite's `LIKE` ignores ASCII case, and the database settings are not part of this model. The v1 `TitleViewSet` declares no `filter_backends`, so the filter set is taken to apply through a default `DjangoFilterBackend` in the settings.
- UsersModels.UsernameChar: `\w` is taken over ASCII letters, digits and `_`. Python's Unicode `\w` also admits non-ASCII letters.
- `Http.Refusal`: the 401/403 choice assumes the configured JWT authentication, which sends a `WWW-Authenticate` header.
- Response bodies, the GET branch of `me` and the list/retrieve/update/destroy of catalogue objects are not modelled beyond their permission gates. Object lookups by slug or key answer 404 through `get_object_or_404`, and that is not modelled for them.
- `get_serializer_class` in both `TitleViewSet`s only picks the read or write serializer. `v1`'s `TitlePostSerializer` uses DRF's default `create`, and that is not modelled.
- ApiSerializers.CreateTitle takes the genres and the category after the `SlugRelatedField`s resolved them. An unknown slug is a 400 from validation before `create` runs, and that validation is not modelled.
- ApiViews.ReviewCreate is the corrected view: the one as written, `ApiViews.ReviewCreateAsWritten`, never creates. The correction reads the (author, title) validator as a check of the (URL title, requester) pair, so a duplicate is a 400.
- Top-level review and comment rendering: `slug_field="author"` names no User attribute, so every top-level response that renders a review or comment (lists and reads included) fails with a 500. Only the create path models that failure.
- ApiV1Views.GetToken states the decision of the view, not its answer: the answer as written is `ApiV1Views.GetTokenStatusAsWritten`.
- ApiV1Serializers.TruncatedRatingWithinScoreBounds: proved for non-negative lower bounds only. For a negative lower bound, truncation toward zero can leave the range, but valid scores never go below 1.
- VariantComparison.RatingsDifferByAtMostOne: proved for non-negative score sums only. That is every title whose scores are valid.
- ApiV1Views.GetToken and ApiViews.ReceiveToken: `TokenSerializer` trims surrounding whitespace before the pattern check. Trimming is not modelled: usernames are taken as already trimmed, which makes `$` and `\Z` equivalent.
- ApiSerializers.SignupValid and ApiViews.UserCreate: the signup fields drop surrounding whitespace before they are checked and stored. The model takes them as already trimmed, so " bob " is refused here where the service stores "bob".
- ApiV1Serializers.SignupValid and ApiV1Views.ConfirmationCode: the same trimming of the signup fields is not modelled.
- ApiSerializers.ProfilePatchValid, UsersModels.ModelFieldsAccept and UsersModels.ApplyPatch: the profile fields of a PATCH are trimmed before they are checked and saved; the model takes them as already trimmed.
- ReviewsModels.ReviewPayloadValid and ReviewsModels.CommentPayloadValid: `text` is trimmed before the required check, so whitespace-only text is refused by the service. The model takes text as already trimmed and accepts it.
- api/views.py:27-31 imports `CreateListViewSet` and `ModelViewSetWithoutRetrieve` from api/mixins.py, which defines only `CreateViewSet`. Importing the top-level views would fail. The model describes those views as their classes are written.

## Findings

| source | as written | input that shows it | evidently intended | confidence | as-written member | corrected member |
|---|---|---|---|---|---|---|
| api_yamdb/api/views.py:166-182 | `CommentViewSet` has only `AuthorOrModeratorOrAdmin`, whose request-level hook lets everyone through. Its object hook reads `is_admin` on the anonymous user | an anonymous PATCH or DELETE of an existing comment, or an anonymous POST of a valid comment, with the `review` key, to an existing review | anonymous writes are refused with 401, as reviews are | not executed | ApiViews.AnonymousCommentEditCrashes | ApiViews.CommentAccess |
| api_yamdb/api/v1/views.py:145-147 | `ReviewSerializer` has no uniqueness validator, so a second review of a title by the same author reaches the `unique_review` constraint | an authenticated user POSTs a second valid review to a title they already reviewed | the duplicate is refused with 400 and nothing changes | not executed | ApiV1Views.DuplicateReviewIsServerError | ApiV1Views.ReviewCreateEffect |
| api_yamdb/api/v1/views.py:164-166 | `CommentSerializer` has no uniqueness validator, so a second comment on a review by the same author reaches the `unique_comment` constraint | an authenticated user POSTs a second valid comment to a review they already commented on | the duplicate is refused with 400 and nothing changes | not executed | ApiV1Views.DuplicateCommentIsServerError | ApiV1Views.CommentCreateEffect |
| api_yamdb/api/views.py:180-182 | the top-level `CommentSerializer` has no uniqueness validator either, and the payload also carries the `review` key it demands | an authenticated user POSTs a second valid comment to a review they already commented on | the duplicate is refused with 400 and nothing changes | not executed | ApiViews.DuplicateCommentIsServerError | ApiViews.CommentCreateEffect |
| api_yamdb/api/serializers.py:141-154 | `ReviewSerializer` takes every model field and its `UniqueTogetherValidator` names the read-only `author`, which has no default, so validation reports `author` missing | an authenticated user POSTs a valid first review to an existing title | the review is created with 201 | not executed | ApiViews.ReviewCreateAsWrittenNeverCreates | ApiViews.ReviewCreateEffect |
| api_yamdb/api/serializers.py:161 | `CommentSerializer` renders `author` with `slug_field="author"`, which no user has; the error comes after `perform_create` has saved | an authenticated user POSTs a valid first comment, with the `review` key, to an existing review | the comment is created and answered with 201 | not executed | ApiViews.FreshCommentSavedYetServerError | ApiViews.CommentCreateEffect |
| api_yamdb/api/v1/views.py:70 | the success body holds `AccessToken.for_user(user)` itself, which the JSON renderer cannot encode | a POST with an existing username and the code issued for it | the token is sent as a string with 200, as the top-level view does | not executed | ApiV1Views.UnconvertedTokenIsServerError | ApiV1Views.GetTokenDecides |
