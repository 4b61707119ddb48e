/**
 * The two copies of the API side by side: where they decide alike and where
 * they part ways.
 */
module VariantComparison {
  import opened Wrappers
  import opened UsersModels
  import opened ReviewsModels
  import opened Store
  import opened Http
  import ApiPermissions
  import ApiV1Permissions
  import ApiSerializers
  import ApiV1Serializers
  import ApiViews
  import ApiV1Views
  import ApiFilters
  import ApiV1Filters

  /** Both `AdminOnly` classes and both `AuthorOrModeratorOrAdmin` hooks decide alike. */
  lemma PermissionClassesAgree(m: Method, req: Requester, author: UserId)
    ensures ApiPermissions.AdminOnly(req) == ApiV1Permissions.AdminOnly(req)
    ensures ApiPermissions.AuthorOrModeratorOrAdmin(m, req, author)
         == ApiV1Permissions.AuthorOrModeratorOrAdmin(m, req, author)
  {
  }

  /** `ReadOnly | AdminOnly` grants exactly what `AdminOnlyOrReadOnly` grants. */
  lemma CatalogueAccessAgrees(m: Method, req: Requester)
    ensures ApiViews.CatalogueAccess(m, req) == ApiV1Views.CatalogueAccess(m, req)
  {
  }

  /** Anonymous reads of reviews: refused at the top level, allowed in the versioned API. */
  lemma ReviewReadsDiffer(m: Method, author: Option<UserId>)
    requires IsSafe(m)
    ensures ApiViews.ReviewAccess(m, Anonymous, author) == NotAuthenticated
    ensures ApiV1Views.ReviewCommentAccess(m, Anonymous, author) == Permitted
  {
  }

  /**
   * The two token exchanges take the same decision on every request: the
   * same refusal, or a token for the same user.
   */
  lemma TokenExchangesAgree(users: seq<User>, username: string, code: string, checkToken: (User, string) -> bool)
    ensures ApiViews.ReceiveToken(users, username, code, checkToken)
         == ApiV1Views.GetToken(users, username, code, checkToken)
  {
  }

  /**
   * Their answers differ exactly on success: the top-level view sends the
   * token as a string with a 200, the versioned one fails with a 500.
   */
  lemma TokenAnswersDifferOnlyOnSuccess(users: seq<User>, username: string, code: string, checkToken: (User, string) -> bool)
    ensures var top := TokenStatus(ApiViews.ReceiveToken(users, username, code, checkToken));
      && (top != ApiV1Views.GetTokenStatusAsWritten(users, username, code, checkToken) <==>
            ApiViews.ReceiveToken(users, username, code, checkToken).Token?)
      && (ApiViews.ReceiveToken(users, username, code, checkToken).Token? ==> top == Ok200)
  {
    TokenExchangesAgree(users, username, code, checkToken);
  }

  /**
   * After an accepted signup of a new pair, signing up again with the same
   * pair is a 400 at the top level and a 200 that mails a new code in the
   * versioned API; neither changes the table.
   */
  lemma RepeatedSignupDiffers(db: Tables, username: string, email: string)
    requires Consistent(db)
    requires ApiSerializers.SignupValid(db.users, username, email)
    requires ApiV1Serializers.SignupValid(username, email)
    ensures var first := ApiViews.UserCreate(db, username, email);
      && first == ApiV1Views.ConfirmationCode(db, username, email)
      && ApiViews.UserCreate(first.db, username, email) == SignupReply(BadRequest400, None, first.db)
      && ApiV1Views.ConfirmationCode(first.db, username, email) == SignupReply(Ok200, Some(email), first.db)
  {
    ApiViews.UserCreateOutcomes(db, username, email);
    ApiV1Views.ConfirmationCodeOutcomes(db, username, email);
    ApiViews.RepeatedUserCreateRefused(db, username, email);
    ApiV1Views.RepeatedConfirmationCode(db, username, email);
  }

  /**
   * "Me" is refused at signup in both copies but accepted by the top-level
   * profile check; the versioned profile update has no "me" check at all.
   */
  lemma MeChecksDiffer(email: string)
    ensures !ApiSerializers.SignupUsernameAccepted([], "Me")
    ensures !ApiV1Serializers.SignupValid("Me", email)
    ensures ApiSerializers.ProfileUsernameAccepted("Me")
    ensures !ApiSerializers.ProfileUsernameAccepted("me")
    ensures ModelFieldsAccept([], 0, UserPatch(Some("me"), None, None, None, None, None))
  {
    MeSpellings("Me");
    assert MatchesUsernamePattern("me");
  }

  lemma StepBetween(e: int, d: int)
    requires d > 0
    ensures e <= -1 ==> e * d <= -d
    ensures e >= 2 ==> e * d >= 2 * d
  {
  }

  /** For non-negative sums the half-even mean is the truncated mean or one more. */
  lemma RatingsDifferByAtMostOne(scores: seq<int>)
    requires |scores| > 0 && SumOf(scores) >= 0
    ensures var t := ApiV1Serializers.TruncatedRating(scores).value;
      t <= ApiSerializers.GetRating(scores).value <= t + 1
  {
    var n, d := SumOf(scores), |scores|;
    var t := ApiV1Serializers.TruncatedRating(scores).value;
    var k := ApiSerializers.GetRating(scores).value;
    assert k * d == t * d + (k - t) * d;
    StepBetween(k - t, d);
  }

  /** Two reviews scored 9 and 10: the top-level rating is 10, the versioned one 9. */
  lemma RatingsOfNineAndTen()
    ensures ApiSerializers.GetRating([9, 10]) == Some(10)
    ensures ApiV1Serializers.TruncatedRating([9, 10]) == Some(9)
  {
    assert SumOf([9, 10]) == 19 by {
      assert [9, 10][1..] == [10];
      assert [10][1..] == [];
    }
  }

  /** Every title the exact name filter keeps, the substring filter keeps too. */
  lemma ExactNameWithinSubstring(rows: seq<TitleRow>, value: string)
    ensures forall x :: x in ApiFilters.NameFilter(rows, value) ==> x in ApiV1Filters.NameFilter(rows, value)
  {
    forall x | x in ApiFilters.NameFilter(rows, value)
      ensures x in ApiV1Filters.NameFilter(rows, value)
    {
      if value != "" {
        assert ApiV1Filters.OccursAt(x.title.name, value, 0);
      }
    }
  }
}
