/**
 * The guest review endpoint, reached by scanning a QR code. Its route runs
 * the token middleware first; the controller then takes the recipe from the
 * validated token (never from the `:id` in the path) and stores a review
 * with no user.
 */
module AnonymousReviews {
  import opened Wrappers
  import opened Calendar
  import opened Text
  import opened Json
  import opened Http
  import opened Store
  import opened QrService
  import opened QrValidation
  import opened Reviews

  datatype AnonymousReview = AnonymousReview(name: string, rating: int, comment: string)

  function NameCheck(j: Json): Result<string, Issues> {
    CheckString(j, 1, Some(50), Some("Name is required"), Some("Name must be less than 50 characters"))
  }

  function AnonymousRatingCheck(j: Json): Result<int, Issues> {
    CheckInt(j, Some(1), Some(5), Some("Rating must be at least 1"), Some("Rating must be at most 5"))
  }

  function AnonymousCommentCheck(j: Json): Result<string, Issues> {
    CheckString(j, 1, Some(500), Some("Comment is required"), Some("Comment must be less than 500 characters"))
  }

  /** `AnonymousReviewInput`: a 1–50 character name, an integer rating 1–5, a 1–500 character comment. */
  function AnonymousReviewInput(body: Json): (r: Result<AnonymousReview, Issues>)
    ensures r.Ok? <==>
              body.JObject? && "name" in body.fields && "rating" in body.fields && "comment" in body.fields
              && body.fields["name"].JString? && 1 <= |body.fields["name"].s| <= 50
              && body.fields["rating"].JNumber? && IsInteger(body.fields["rating"].n)
              && 1.0 <= body.fields["rating"].n <= 5.0
              && body.fields["comment"].JString? && 1 <= |body.fields["comment"].s| <= 500
    ensures r.Ok? ==>
              r.value.name == body.fields["name"].s && r.value.comment == body.fields["comment"].s
              && r.value.rating as real == body.fields["rating"].n && 1 <= r.value.rating <= 5
    ensures r.Err? ==> r.error != []
  {
    if !body.JObject? then Err([Issue([], InvalidType, None)])
    else
      var name := Required(body.fields, "name", NameCheck);
      var rating := Required(body.fields, "rating", AnonymousRatingCheck);
      var comment := Required(body.fields, "comment", AnonymousCommentCheck);
      if name.Ok? && rating.Ok? && comment.Ok? then Ok(AnonymousReview(name.value, rating.value, comment.value))
      else Err(IssuesOf(name) + IssuesOf(rating) + IssuesOf(comment))
  }

  /**
   * `postAnonymousReview` for the recipe id the middleware attached: a bad
   * body is 400 with the issues and nothing is stored; otherwise the review is
   * created with no user and returned with 201, and a failure is 500.
   */
  method PostAnonymousReview(db: Database, qrRecipeId: int, body: Json, now: Instant) returns (resp: Response<ReviewRow>)
    requires db.Valid()
    modifies db
    ensures db.Valid()
    ensures resp.status in {201, 400, 500}
    ensures AnonymousReviewInput(body).Err? ==> resp == Response(400, ErrorIssues(AnonymousReviewInput(body).error))
    ensures resp.status != 201 ==> unchanged(db)
    ensures resp.status == 500 ==> resp.body == ErrorMessage("Failed to create review")
    ensures AnonymousReviewInput(body).Ok? && FindRecipe(old(db.recipes), qrRecipeId).Some? ==> resp.status == 201
    ensures AnonymousReviewInput(body).Ok? && FindRecipe(old(db.recipes), qrRecipeId).None? ==>
              resp == Response(500, ErrorMessage("Failed to create review"))
    ensures resp.status == 201 ==>
              AnonymousReviewInput(body).Ok? && FindRecipe(old(db.recipes), qrRecipeId).Some? && qrRecipeId >= 0
              && var input := AnonymousReviewInput(body).value;
                 var row := NewReview(old(db.nextReviewId), qrRecipeId, None, input.rating, input.comment, Some(input.name), now);
                 resp.body == Payload(row)
                 && db.reviews == old(db.reviews) + [row]
                 && db.recipes == WithAvgRating(old(db.recipes), qrRecipeId, AvgRating(db.reviews, qrRecipeId))
    ensures db.tokens == old(db.tokens) && db.ingredients == old(db.ingredients) && db.types == old(db.types)
  {
    var parsed := AnonymousReviewInput(body);
    if parsed.Err? {
      return Response(400, ErrorIssues(parsed.error));
    }
    var input := parsed.value;
    var created := CreateReview(db, qrRecipeId, None, input.rating, input.comment, Some(input.name), now);
    if created.Err? {
      return Response(500, ErrorMessage("Failed to create review"));
    }
    resp := Response(201, Payload(created.value));
  }

  /**
   * `POST /:id/anonymous-reviews`: the token middleware, then the controller.
   * A review is stored only when the token validates, and it is for the
   * token's recipe whatever `pathId` says; the token is not marked used, so
   * the token table never changes.
   */
  method AnonymousReviewRoute(db: Database, pathId: string, tokenQuery: Option<string>, body: Json, now: Instant)
    returns (resp: Response<ReviewRow>)
    requires db.Valid()
    modifies db
    ensures db.Valid()
    ensures db.tokens == old(db.tokens)
    ensures |db.reviews| > |old(db.reviews)| ==>
              tokenQuery.Some? && tokenQuery.value != ""
              && ValidateQrToken(old(db.tokens), old(db.recipes), tokenQuery.value, now).valid
              && |db.reviews| == |old(db.reviews)| + 1
              && db.reviews[|old(db.reviews)|].recipeId as int
                 == ValidateQrToken(old(db.tokens), old(db.recipes), tokenQuery.value, now).recipeId.value
              && db.reviews[|old(db.reviews)|].userId.None?
    ensures resp.status == 201 <==> |db.reviews| > |old(db.reviews)|
    ensures resp.status != 201 ==> unchanged(db)
    ensures (tokenQuery.None? || tokenQuery.value == "") ==> resp == Response(400, ErrorMessage("QR token is required"))
    ensures tokenQuery.Some? && tokenQuery.value != "" && !ValidateQrToken(db.tokens, old(db.recipes), tokenQuery.value, now).valid ==>
              resp == Response(403, ErrorMessage("Invalid or expired QR token"))
    ensures tokenQuery.Some? && tokenQuery.value != "" && ValidateQrToken(old(db.tokens), old(db.recipes), tokenQuery.value, now).valid ==>
              var recipeId := ValidateQrToken(old(db.tokens), old(db.recipes), tokenQuery.value, now).recipeId.value;
              (AnonymousReviewInput(body).Err? ==> resp == Response(400, ErrorIssues(AnonymousReviewInput(body).error)))
              && (AnonymousReviewInput(body).Ok? ==>
                    var input := AnonymousReviewInput(body).value;
                    var row := NewReview(old(db.nextReviewId), recipeId, None, input.rating, input.comment, Some(input.name), now);
                    resp == Response(201, Payload(row)) && db.reviews == old(db.reviews) + [row])
  {
    var outcome := MiddlewareOn(db.tokens, db.recipes, tokenQuery, now);
    match outcome
    case Reject(status, error) =>
      resp := Response(status, ErrorMessage(error));
    case Proceed(qrRecipeId) =>
      resp := PostAnonymousReview(db, qrRecipeId.value, body, now);
  }

  /** A token that validates keeps validating after a guest review: the review path changes neither tokens nor the recipe's existence. */
  lemma ReviewKeepsTokenValid(tokens: seq<QrTokenRow>, recipes: seq<RecipeRow>, token: string, now: Instant,
                              recipeId: int, avg: real)
    requires ValidateQrToken(tokens, recipes, token, now).valid
    ensures ValidateQrToken(tokens, WithAvgRating(recipes, recipeId, avg), token, now) == ValidateQrToken(tokens, recipes, token, now)
  {
    FindRecipeAfterAvg(recipes, recipeId, avg, FindToken(tokens, token).value.recipeId);
  }
}
