/**
 * The admin endpoints for QR tokens: generate one for a recipe (answering
 * with the deep link the QR code encodes), list the active ones with their
 * links, delete one, and count the active ones per recipe. The frontend base
 * URL comes from the environment and is a parameter.
 */
module QrController {
  import opened Wrappers
  import opened Calendar
  import opened Text
  import opened Json
  import opened Http
  import opened Store
  import opened QrService
  import Hex
  import Sequences

  const DefaultFrontendUrl := "http://localhost:5173"

  /** `process.env.FRONTEND_URL || "http://localhost:5173"`: an unset or empty variable falls back to the default. */
  function BaseUrl(frontendUrl: Option<string>): (base: string)
    ensures frontendUrl.Some? && frontendUrl.value != "" ==> base == frontendUrl.value
    ensures frontendUrl.None? || frontendUrl.value == "" ==> base == DefaultFrontendUrl
    ensures base != ""
  {
    if frontendUrl.Some? && frontendUrl.value != "" then frontendUrl.value else DefaultFrontendUrl
  }

  /** The deep link to the review page of a recipe, carrying the token. */
  function QrUrl(base: string, recipeId: int, token: string): (url: string)
    ensures StartsWith(url, base + "/#/review/")
  {
    base + "/#/review/" + IntToString(recipeId) + "?token=" + token
  }

  /** A deep link determines its recipe id and its token. */
  lemma QrUrlInjective(base: string, r1: int, t1: string, r2: int, t2: string)
    requires QrUrl(base, r1, t1) == QrUrl(base, r2, t2)
    ensures r1 == r2 && t1 == t2
  {
    var p := base + "/#/review/";
    var a1, a2 := IntToString(r1), IntToString(r2);
    assert a1 + ['?'] + ("token=" + t1) == a2 + ['?'] + ("token=" + t2) by {
      var u := QrUrl(base, r1, t1);
      assert u == p + (a1 + ['?'] + ("token=" + t1));
      assert u == p + (a2 + ['?'] + ("token=" + t2));
      assert u[|p|..] == a1 + ['?'] + ("token=" + t1);
      assert u[|p|..] == a2 + ['?'] + ("token=" + t2);
    }
    assert forall j :: 0 <= j < |a1| ==> a1[j] != '?';
    assert forall j :: 0 <= j < |a2| ==> a2[j] != '?';
    CutAtFirst(a1, a2, '?', "token=" + t1, "token=" + t2);
    IntToStringInjective(r1, r2);
    assert t1 == ("token=" + t1)[6..] && t2 == ("token=" + t2)[6..];
  }

  // ---------------------------------------------------------------------------
  // generateQrToken

  function RecipeIdCheck(j: Json): Result<int, Issues> {
    CheckPositiveInt(j, Some("Recipe ID must be a positive integer"))
  }

  /** `z.object({ recipeId: z.number().int().positive(...) })` */
  function GenerateQrInput(body: Json): (r: Result<int, Issues>)
    ensures r.Ok? <==>
              body.JObject? && "recipeId" in body.fields && body.fields["recipeId"].JNumber?
              && IsInteger(body.fields["recipeId"].n) && body.fields["recipeId"].n > 0.0
    ensures r.Ok? ==> r.value > 0 && r.value as real == body.fields["recipeId"].n
    ensures r.Err? ==> r.error != []
  {
    if !body.JObject? then Err([Issue([], InvalidType, None)])
    else Required(body.fields, "recipeId", RecipeIdCheck)
  }

  /** The body of a successful generate. */
  datatype QrTokenView = QrTokenView(
    id: string, token: string, qrUrl: string, expiresAt: Instant, recipeId: int, recipe: RecipeInfo, used: bool)

  /**
   * `generateQrToken`: a bad body is 400 with the issues and the service is not
   * called; any failure of the service, a missing recipe included, is 500.
   */
  method GenerateQrToken(db: Database, body: Json, random: seq<Hex.Byte>, newId: string, now: Instant, frontendUrl: Option<string>)
    returns (resp: Response<QrTokenView>)
    requires db.Valid()
    requires |random| == TokenBytes
    modifies db
    ensures db.Valid() && db.SameExceptTokens()
    ensures resp.status in {200, 400, 500}
    ensures GenerateQrInput(body).Err? ==> resp == Response(400, ErrorIssues(GenerateQrInput(body).error))
    ensures GenerateQrInput(body).Ok? && FindRecipe(db.recipes, GenerateQrInput(body).value).None? ==>
              resp == Response(500, ErrorMessage("Failed to generate QR token"))
    ensures GenerateQrInput(body).Ok? && FindRecipe(db.recipes, GenerateQrInput(body).value).Some?
            && FindToken(old(db.tokens), Hex.Encode(random)).None? && FindTokenById(old(db.tokens), newId).None? ==>
              resp.status == 200
    ensures resp.status != 200 ==> db.tokens == old(db.tokens)
    ensures resp.status == 500 ==> resp.body == ErrorMessage("Failed to generate QR token")
    ensures resp.status == 200 ==>
              GenerateQrInput(body).Ok? && FindRecipe(db.recipes, GenerateQrInput(body).value).Some?
              && var rid := GenerateQrInput(body).value;
                 var token := Hex.Encode(random);
                 db.tokens == old(db.tokens) + [NewTokenRow(newId, random, rid, now)]
                 && resp.body == Payload(QrTokenView(newId, token, QrUrl(BaseUrl(frontendUrl), rid, token), OneYearLater(now),
                                                    rid, InfoOf(FindRecipe(db.recipes, rid).value), false))
  {
    var parsed := GenerateQrInput(body);
    if parsed.Err? {
      return Response(400, ErrorIssues(parsed.error));
    }
    var generated := GenerateSecureQrToken(db, parsed.value, random, newId, now);
    if generated.Err? {
      return Response(500, ErrorMessage("Failed to generate QR token"));
    }
    var g := generated.value;
    var url := QrUrl(BaseUrl(frontendUrl), g.recipeId, g.token);
    resp := Response(200, Payload(QrTokenView(g.id, g.token, url, g.expiresAt, g.recipeId, g.recipe, false)));
  }

  // ---------------------------------------------------------------------------
  // getQrTokens

  /** What the service's `where` makes of the recipe id it is given. */
  datatype RecipeIdFilter =
    | AnyRecipe       // `{}`: no recipe id, or a falsy one
    | OneRecipe(id: int)
    | Refused         // a truthy number that is no integer, which Prisma's validation rejects

  /**
   * `req.query.recipeId ? Number(req.query.recipeId) : undefined`, then
   * `recipeId ? { recipeId } : {}`: an absent or empty parameter is no
   * filter, and so is one that reads as NaN or 0; an integer filters on that
   * recipe; an infinite or fractional number is a filter Prisma refuses.
   */
  function RecipeFilter(query: Option<string>): (f: RecipeIdFilter)
    ensures query.None? || query.value == "" ==> f == AnyRecipe
    ensures query.Some? && query.value != "" ==>
              (f == AnyRecipe <==> NumberOf(query.value).NaN? || NumberOf(query.value) == Finite(0.0))
              && (f.Refused? <==> !NumberOf(query.value).NaN? && IntegerOf(NumberOf(query.value)).None?)
    ensures f.OneRecipe? ==> query.Some? && f.id != 0 && NumberOf(query.value) == Finite(f.id as real)
  {
    if query.None? || query.value == "" then AnyRecipe
    else
      var n := NumberOf(query.value);
      if n.NaN? || n == Finite(0.0) then AnyRecipe
      else match IntegerOf(n)
        case Some(id) => OneRecipe(id)
        case None => Refused
  }

  /** The recipe id the service filters on. */
  function FilteredId(f: RecipeIdFilter): Option<int> {
    if f.OneRecipe? then Some(f.id) else None
  }

  /** A listed token with its deep link. */
  datatype ListedToken = ListedToken(token: ActiveToken, qrUrl: string)

  /**
   * `getQrTokens`: the service's list, in the service's order, each entry
   * carrying a link built from its own recipe id and token. A filter Prisma
   * refuses makes the service throw, and the catch answers 500.
   */
  function GetQrTokens(tokens: seq<QrTokenRow>, recipes: seq<RecipeRow>, recipeIdQuery: Option<string>, now: Instant,
                       frontendUrl: Option<string>): (resp: Response<seq<ListedToken>>)
    ensures resp.status in {200, 500}
    ensures resp.status == 500 <==> RecipeFilter(recipeIdQuery).Refused?
    ensures resp.status == 500 ==> resp == Response(500, ErrorMessage("Failed to fetch QR tokens"))
    ensures resp.status == 200 ==>
              var listed := GetActiveQrTokens(tokens, recipes, FilteredId(RecipeFilter(recipeIdQuery)), now);
              resp.body.Payload? && |resp.body.value| == |listed|
              && forall i :: 0 <= i < |listed| ==>
                   resp.body.value[i].token == listed[i]
                   && resp.body.value[i].qrUrl == QrUrl(BaseUrl(frontendUrl), listed[i].row.recipeId, listed[i].row.token)
  {
    var filter := RecipeFilter(recipeIdQuery);
    if filter.Refused? then Response(500, ErrorMessage("Failed to fetch QR tokens"))
    else
      var listed := GetActiveQrTokens(tokens, recipes, FilteredId(filter), now);
      var base := BaseUrl(frontendUrl);
      Response(200, Payload(seq(|listed|, i requires 0 <= i < |listed| =>
        ListedToken(listed[i], QrUrl(base, listed[i].row.recipeId, listed[i].row.token)))))
  }

  /** Two parameters the service reads as the same filter get the same answer. */
  lemma SameFilterSameAnswer(tokens: seq<QrTokenRow>, recipes: seq<RecipeRow>, q1: Option<string>, q2: Option<string>,
                             now: Instant, frontendUrl: Option<string>)
    requires RecipeFilter(q1) == RecipeFilter(q2)
    ensures GetQrTokens(tokens, recipes, q1, now, frontendUrl) == GetQrTokens(tokens, recipes, q2, now, frontendUrl)
  {
  }

  /** "1.0" is the integer 1, so it filters exactly as "1" does. */
  lemma PointZeroFiltersAsInteger()
    ensures RecipeFilter(Some("1.0")) == RecipeFilter(Some("1")) == OneRecipe(1)
  {
    NumberOfPointZero();
  }

  /** "1.5" is a fractional recipe id, which Prisma refuses: 500. */
  lemma FractionalRecipeIdFails(tokens: seq<QrTokenRow>, recipes: seq<RecipeRow>, now: Instant, frontendUrl: Option<string>)
    ensures GetQrTokens(tokens, recipes, Some("1.5"), now, frontendUrl) == Response(500, ErrorMessage("Failed to fetch QR tokens"))
  {
    NumberOfHalf();
  }

  /** Two listed entries with the same link are for the same recipe and the same token. */
  lemma ListedLinksIdentifyTokens(tokens: seq<QrTokenRow>, recipes: seq<RecipeRow>, recipeIdQuery: Option<string>,
                                  now: Instant, frontendUrl: Option<string>, i: nat, j: nat)
    requires var r := GetQrTokens(tokens, recipes, recipeIdQuery, now, frontendUrl);
             r.status == 200 && i < |r.body.value| && j < |r.body.value| && r.body.value[i].qrUrl == r.body.value[j].qrUrl
    ensures var r := GetQrTokens(tokens, recipes, recipeIdQuery, now, frontendUrl);
            r.body.value[i].token.row.token == r.body.value[j].token.row.token
            && r.body.value[i].token.row.recipeId == r.body.value[j].token.row.recipeId
  {
    var r := GetQrTokens(tokens, recipes, recipeIdQuery, now, frontendUrl);
    var a, b := r.body.value[i].token.row, r.body.value[j].token.row;
    QrUrlInjective(BaseUrl(frontendUrl), a.recipeId, a.token, b.recipeId, b.token);
  }

  // ---------------------------------------------------------------------------
  // deleteQrTokenController

  datatype DeleteAck = DeleteAck(success: bool, message: string)

  /**
   * `deleteQrTokenController`: a missing id is 400, an unknown one 404, any
   * other failure 500, and a deleted one `{ success: true, message }`.
   */
  method DeleteQrTokenController(db: Database, tokenId: string) returns (resp: Response<DeleteAck>)
    requires db.Valid()
    modifies db
    ensures db.Valid() && db.SameExceptTokens()
    ensures tokenId == "" ==> resp == Response(400, ErrorMessage("Token ID is required"))
    ensures tokenId != "" && FindTokenById(old(db.tokens), tokenId).None? ==>
              resp == Response(404, ErrorMessage("QR token not found"))
    ensures tokenId != "" && FindTokenById(old(db.tokens), tokenId).Some? ==>
              resp == Response(200, Payload(DeleteAck(true, "QR token deleted successfully")))
              && |db.tokens| == |old(db.tokens)| - 1
    ensures resp.status != 200 ==> db.tokens == old(db.tokens)
    ensures forall row :: row in db.tokens <==> row in old(db.tokens) && (resp.status == 200 ==> row.id != tokenId)
  {
    if tokenId == "" {
      return Response(400, ErrorMessage("Token ID is required"));
    }
    var r := DeleteQrToken(db, tokenId);
    if r.Err? {
      if r.error == Message("QR token not found") {
        return Response(404, ErrorMessage("QR token not found"));
      }
      return Response(500, ErrorMessage("Failed to delete QR token"));
    }
    resp := Response(200, Payload(DeleteAck(true, "QR token deleted successfully")));
  }

  // ---------------------------------------------------------------------------
  // getQrTokenCountsController

  /** `getQrTokenCountsController`: 200 with the service's dictionary. */
  method GetQrTokenCountsController(tokens: seq<QrTokenRow>, now: Instant) returns (resp: Response<map<int, nat>>)
    ensures resp.status == 200 && resp.body.Payload?
    ensures resp.body.value.Keys == RecipeIds(Sequences.Filter(tokens, IsActiveAt(now)))
    ensures forall rid :: rid in resp.body.value ==>
              resp.body.value[rid] == CountFor(Sequences.Filter(tokens, IsActiveAt(now)), rid)
  {
    var counts := GetQrTokenCounts(tokens, now);
    resp := Response(200, Payload(counts));
  }
}
