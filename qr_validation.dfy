/**
 * The middleware in front of the anonymous-review endpoint: it demands a
 * `token` query parameter, validates it, and either answers the request
 * itself or hands the validated recipe id on to the controller.
 */
module QrValidation {
  import opened Wrappers
  import opened Calendar
  import opened Store
  import opened QrService

  /** What happened when the validation was awaited: it resolved, or it threw. */
  datatype ValidationAttempt = Returned(validation: Validation) | Threw

  /**
   * The middleware's effect: one response sent, or `req.qrRecipeId` set and
   * `next()` called (exactly one of the two).
   */
  datatype QrOutcome = Reject(status: int, error: string) | Proceed(qrRecipeId: Option<int>)

  /**
   * `validateQrTokenMiddleware` for a `token` query parameter (absent when not
   * given) and a validation oracle, which is consulted only for a non-empty
   * token.
   */
  function ValidateQrTokenMiddleware(tokenQuery: Option<string>, validate: string -> ValidationAttempt): (o: QrOutcome)
    ensures (tokenQuery.None? || tokenQuery.value == "") <==> o == Reject(400, "QR token is required")
    ensures tokenQuery.Some? && tokenQuery.value != "" ==>
              match validate(tokenQuery.value)
              case Threw => o == Reject(500, "Failed to validate QR token")
              case Returned(v) =>
                if v.valid then o == Proceed(v.recipeId)
                else o == Reject(403, "Invalid or expired QR token")
    ensures o.Proceed? ==> tokenQuery.Some? && validate(tokenQuery.value).Returned? && validate(tokenQuery.value).validation.valid
  {
    if tokenQuery.None? || tokenQuery.value == "" then
      Reject(400, "QR token is required")
    else
      match validate(tokenQuery.value)
      case Threw => Reject(500, "Failed to validate QR token")
      case Returned(v) =>
        if !v.valid then Reject(403, "Invalid or expired QR token")
        else Proceed(v.recipeId)
  }

  /** The middleware over the token table, validating with the service at the instant `now`. */
  function MiddlewareOn(tokens: seq<QrTokenRow>, recipes: seq<RecipeRow>, tokenQuery: Option<string>, now: Instant): (o: QrOutcome)
    ensures o.Reject? ==> o.status in {400, 403}
    ensures o.Proceed? <==>
              tokenQuery.Some? && tokenQuery.value != "" && ValidateQrToken(tokens, recipes, tokenQuery.value, now).valid
    ensures o.Proceed? ==> o.qrRecipeId == ValidateQrToken(tokens, recipes, tokenQuery.value, now).recipeId
                           && o.qrRecipeId.Some? && FindRecipe(recipes, o.qrRecipeId.value).Some?
  {
    ValidateQrTokenMiddleware(tokenQuery, t => Returned(ValidateQrToken(tokens, recipes, t, now)))
  }

  /**
   * Whatever makes a token invalid (unknown, expired, recipe gone), the
   * answer is the same 403 with the same message.
   */
  lemma InvalidTokensLookAlike(tokens: seq<QrTokenRow>, recipes: seq<RecipeRow>, token: string, now: Instant)
    requires token != ""
    requires !ValidateQrToken(tokens, recipes, token, now).valid
    ensures MiddlewareOn(tokens, recipes, Some(token), now) == Reject(403, "Invalid or expired QR token")
  {
  }
}
