/**
 * The recipe endpoints. Reads are public; create, update and delete sit
 * behind the admin guard. Every handler is wrapped so that whatever the
 * service throws reaches the error handler, which sends the one response.
 * Route and query parameters arrive as strings and are read with `Number`.
 */
module RecipesController {
  import opened Wrappers
  import opened Calendar
  import opened Text
  import opened Json
  import opened Http
  import opened Store
  import opened Sequences
  import opened RecipesSchema
  import opened RecipesService
  import opened ErrorHandler
  import Auth

  const DefaultPage := 1.0
  const DefaultSize := 12.0

  /** `Number(req.query.x ?? fallback)` */
  function NumberParam(given: Option<string>, fallback: real): (n: Number)
    ensures given.None? ==> n == Finite(fallback)
    ensures given.Some? ==> n == NumberOf(given.value)
  {
    if given.None? then Finite(fallback) else NumberOf(given.value)
  }

  /**
   * `Number(req.params.id)` as the `Int` id of a Prisma query: `None` when
   * it is NaN, infinite or fractional, which Prisma's validation rejects.
   */
  function IdParam(idParam: string): Option<int> {
    IntegerOf(NumberOf(idParam))
  }

  /** `String(req.query.query ?? "")` */
  function QueryText(given: Option<string>): string {
    if given.None? then "" else given.value
  }

  /** The answer of the error handler to a failure the service threw. */
  function Thrown<T>(f: Failure): Response<T> {
    Handle(ThrownOf(f))
  }

  // ---------------------------------------------------------------------------
  // getRecipes

  /**
   * `getRecipes`: the listing for the query, page and size given (defaults
   * "", 1 and 12), as it comes from the service. A page or size that reads as
   * NaN or an infinity makes the skip NaN or infinite; that, a fractional
   * skip or size, or a negative skip makes Prisma reject the query: 400.
   */
  function GetRecipes(recipes: seq<RecipeRow>, ingredients: seq<IngredientRow>, reviews: seq<ReviewRow>,
                      query: Option<string>, page: Option<string>, size: Option<string>): (resp: Response<RecipePage>)
    ensures resp.status in {200, 400}
    ensures resp.status == 200 <==>
              var p, s := NumberParam(page, DefaultPage), NumberParam(size, DefaultSize);
              p.Finite? && s.Finite? && Slices(p.value, s.value)
    ensures resp.status == 400 ==> resp == Response(400, ErrorMessage("Invalid data for Prisma query"))
    ensures resp.status == 200 ==>
              resp.body == Payload(ListRecipes(recipes, ingredients, reviews, QueryText(query),
                                               NumberParam(page, DefaultPage).value,
                                               NumberParam(size, DefaultSize).value).value)
  {
    var p := NumberParam(page, DefaultPage);
    var s := NumberParam(size, DefaultSize);
    if !p.Finite? || !s.Finite? then Thrown(PrismaValidation)
    else match ListRecipes(recipes, ingredients, reviews, QueryText(query), p.value, s.value)
      case Ok(listing) => Response(200, Payload(listing))
      case Err(f) => Thrown(f)
  }

  /** With no parameters the answer is the twelve newest recipes of the whole table. */
  lemma DefaultListing(recipes: seq<RecipeRow>, ingredients: seq<IngredientRow>, reviews: seq<ReviewRow>)
    ensures var resp := GetRecipes(recipes, ingredients, reviews, None, None, None);
            var newest := Newest(recipes, "");
            resp.status == 200
            && resp.body.value.total == |recipes| && resp.body.value.page == 1.0 && resp.body.value.size == 12.0
            && |resp.body.value.items| == Min(12, |recipes|)
            && forall i :: 0 <= i < |resp.body.value.items| ==>
                 resp.body.value.items[i] == Summary(newest[i], ingredients, reviews)
  {
    EmptyQueryKeepsAll(recipes);
    WholeSkip(1, 12);
  }

  /** Page 0 would skip a negative number of rows: the query is rejected with 400, not answered with page 1. */
  lemma PageZeroRejected(recipes: seq<RecipeRow>, ingredients: seq<IngredientRow>, reviews: seq<ReviewRow>,
                         query: Option<string>)
    ensures GetRecipes(recipes, ingredients, reviews, query, Some("0"), None)
            == Response(400, ErrorMessage("Invalid data for Prisma query"))
  {
    NumberOfDigits("0");
    assert DigitsValue("0") == 0 by { assert "0"[..0] == ""; }
    WholeSkip(0, 12);
  }

  /**
   * Page "1.5" with the default size skips six rows, a whole number, so it is
   * served: the six recipes after the six newest, echoed as page 1.5.
   */
  lemma HalfPageServed(recipes: seq<RecipeRow>, ingredients: seq<IngredientRow>, reviews: seq<ReviewRow>)
    ensures var resp := GetRecipes(recipes, ingredients, reviews, None, Some("1.5"), None);
            var w := Window(Newest(recipes, ""), 6, 12);
            resp.status == 200 && resp.body.value.page == 1.5
            && |resp.body.value.items| == |w|
            && forall i :: 0 <= i < |w| ==> resp.body.value.items[i] == Summary(w[i], ingredients, reviews)
  {
    assert NumberParam(Some("1.5"), DefaultPage) == Finite(1.5) by {
      NumberOfHalf();
    }
    HalfPageSkip();
    var listing := ListRecipes(recipes, ingredients, reviews, "", 1.5, 12.0);
    assert listing.Ok? && listing.value.page == 1.5;
    assert GetRecipes(recipes, ingredients, reviews, None, Some("1.5"), None) == Response(200, Payload(listing.value));
  }

  /** Page 1.5 of size 12 skips six whole rows. */
  lemma HalfPageSkip()
    ensures Slices(1.5, 12.0) && Skip(1.5, 12.0).Floor == 6 && (12.0).Floor == 12
  {
    assert Skip(1.5, 12.0) == 6.0;
    assert (6.0).Floor == 6 && (12.0).Floor == 12;
  }

  /** Size "1.5" is a fractional take, which Prisma rejects: 400. */
  lemma FractionalSizeRejected(recipes: seq<RecipeRow>, ingredients: seq<IngredientRow>, reviews: seq<ReviewRow>)
    ensures GetRecipes(recipes, ingredients, reviews, None, None, Some("1.5")).status == 400
  {
    NumberOfHalf();
    assert !IsInteger(1.5) by { assert (1.5).Floor == 1; }
  }

  // ---------------------------------------------------------------------------
  // getRecipe

  /** `getRecipe`: the recipe with that slug, or 404 "Recipe not found". */
  function GetRecipe(recipes: seq<RecipeRow>, ingredients: seq<IngredientRow>, types: seq<IngredientType>,
                     reviews: seq<ReviewRow>, slug: string): (resp: Response<RecipeDetail>)
    ensures resp.status in {200, 404}
    ensures resp.status == 404 <==> forall x :: x in recipes ==> x.slug != slug
    ensures resp.status == 404 ==> resp.body == ErrorMessage("Recipe not found")
    ensures resp.status == 200 ==>
              resp.body.Payload? && resp.body.value.recipe in recipes && resp.body.value.recipe.slug == slug
              && resp.body.value == GetRecipeBySlug(recipes, ingredients, types, reviews, slug).value
  {
    match GetRecipeBySlug(recipes, ingredients, types, reviews, slug)
    case None => Response(404, ErrorMessage("Recipe not found"))
    case Some(detail) => Response(200, Payload(detail))
  }

  // ---------------------------------------------------------------------------
  // postRecipe, putRecipe, deleteRecipeController

  /**
   * `postRecipe`: an invalid body is 400 with the issues and nothing is
   * stored; otherwise the created recipe is 201, and a failed write reaches
   * the error handler (a taken slug is 409, a missing type 404, an entry
   * without a type name 400).
   */
  method PostRecipe(db: Database, body: Json, isUrl: string -> bool, now: Instant) returns (resp: Response<RecipeDetail>)
    requires db.Valid()
    modifies db
    ensures db.Valid()
    ensures resp.status in {201, 400, 404, 409}
    ensures CreateRecipeInput(body, isUrl).Err? ==> resp == Response(400, ErrorIssues(CreateRecipeInput(body, isUrl).error))
    ensures resp.status != 201 ==> unchanged(db)
    ensures resp.status == 201 <==>
              CreateRecipeInput(body, isUrl).Ok?
              && FindRecipeBySlug(old(db.recipes), CreateRecipeInput(body, isUrl).value.slug).None?
              && ResolveTypes(TypeTable(old(db.types), old(db.nextTypeId)), CreateRecipeInput(body, isUrl).value.ingredients).Ok?
    ensures CreateRecipeInput(body, isUrl).Ok?
            && FindRecipeBySlug(old(db.recipes), CreateRecipeInput(body, isUrl).value.slug).Some? ==>
              resp.status == 409
    ensures resp.status == 201 ==>
              var row := NewRecipeRow(old(db.nextRecipeId), CreateRecipeInput(body, isUrl).value, now);
              db.recipes == old(db.recipes) + [row] && resp.body.Payload? && resp.body.value.recipe == row
  {
    var parsed := CreateRecipeInput(body, isUrl);
    if parsed.Err? {
      return Response(400, ErrorIssues(parsed.error));
    }
    var created := CreateRecipe(db, parsed.value, now);
    if created.Err? {
      FailureStatus<RecipeDetail>(created.error);
      return Thrown(created.error);
    }
    resp := Response(201, Payload(created.value));
  }

  /**
   * `putRecipe`: the body is checked with the create schema first (400 with
   * the issues); an id that does not read as an integer makes Prisma reject
   * the query (400); otherwise the service's answer, 200 with the updated
   * recipe or the error handler's.
   */
  method PutRecipe(db: Database, idParam: string, body: Json, isUrl: string -> bool, now: Instant)
    returns (resp: Response<RecipeDetail>)
    requires db.Valid()
    modifies db
    ensures db.Valid()
    ensures resp.status in {200, 400, 404, 409}
    ensures CreateRecipeInput(body, isUrl).Err? ==> resp == Response(400, ErrorIssues(CreateRecipeInput(body, isUrl).error))
    ensures CreateRecipeInput(body, isUrl).Ok? && IdParam(idParam).None? ==>
              resp == Response(400, ErrorMessage("Invalid data for Prisma query"))
    ensures CreateRecipeInput(body, isUrl).Ok? && IdParam(idParam).Some?
            && FindRecipe(old(db.recipes), IdParam(idParam).value).None? ==>
              resp.status == 404
    ensures resp.status != 200 ==> unchanged(db)
    ensures resp.status == 200 <==>
              CreateRecipeInput(body, isUrl).Ok? && IdParam(idParam).Some?
              && FindRecipe(old(db.recipes), IdParam(idParam).value).Some?
              && SlugFreeFor(old(db.recipes), CreateRecipeInput(body, isUrl).value.slug, IdParam(idParam).value)
              && ResolveTypes(TypeTable(old(db.types), old(db.nextTypeId)), CreateRecipeInput(body, isUrl).value.ingredients).Ok?
    ensures resp.status == 200 ==>
              var id := IdParam(idParam).value;
              var dto := CreateRecipeInput(body, isUrl).value;
              db.recipes == WithUpdated(old(db.recipes), id, dto, now)
              && resp.body.Payload?
              && resp.body.value.recipe == Updated(FindRecipe(old(db.recipes), id).value, dto, now)
  {
    var id := IdParam(idParam);
    var parsed := CreateRecipeInput(body, isUrl);
    if parsed.Err? {
      return Response(400, ErrorIssues(parsed.error));
    }
    if id.None? {
      return Thrown(PrismaValidation);
    }
    var updated := UpdateRecipe(db, id.value, parsed.value, now);
    if updated.Err? {
      FailureStatus<RecipeDetail>(updated.error);
      return Thrown(updated.error);
    }
    resp := Response(200, Payload(updated.value));
  }

  /**
   * `deleteRecipeController`: 204 with no body once the recipe is gone; an
   * unknown id is 404, and one that does not read as an integer 400.
   */
  method DeleteRecipeController(db: Database, idParam: string) returns (resp: Response<()>)
    requires db.Valid()
    modifies db
    ensures db.Valid()
    ensures resp.status in {204, 400, 404}
    ensures IdParam(idParam).None? ==> resp == Response(400, ErrorMessage("Invalid data for Prisma query"))
    ensures resp.status == 204 <==> IdParam(idParam).Some? && FindRecipe(old(db.recipes), IdParam(idParam).value).Some?
    ensures resp.status == 204 ==> resp.body == NoContent && FindRecipe(db.recipes, IdParam(idParam).value).None?
    ensures resp.status != 204 ==> unchanged(db)
  {
    var id := IdParam(idParam);
    if id.None? {
      return Thrown(PrismaValidation);
    }
    var deleted := DeleteRecipe(db, id.value);
    if deleted.Err? {
      return Thrown(deleted.error);
    }
    resp := Response(204, NoContent);
  }

  // ---------------------------------------------------------------------------
  // The admin-only routes: the guard, then the handler

  /** What the guard answers when it stops a request. */
  function Refusal<T>(o: Auth.AuthOutcome): Response<T>
    requires o.Reject?
  {
    Response(o.status, ErrorMessage(o.error))
  }

  /** `POST /`: only a request the admin guard lets through can create a recipe. */
  method PostRecipeRoute(db: Database, authorization: Option<string>, secret: Option<string>,
                         verify: (string, string) -> Auth.Verification, nowMs: int,
                         body: Json, isUrl: string -> bool, now: Instant) returns (resp: Response<RecipeDetail>)
    requires db.Valid()
    modifies db
    ensures db.Valid()
    ensures Auth.RequireAdmin(authorization, secret, verify, nowMs).Reject? ==>
              unchanged(db) && resp == Refusal(Auth.RequireAdmin(authorization, secret, verify, nowMs))
    ensures resp.status == 201 ==> Auth.RequireAdmin(authorization, secret, verify, nowMs).Next?
                                   && Auth.RequireAdmin(authorization, secret, verify, nowMs).user.role == Some("admin")
  {
    var guard := Auth.RequireAdmin(authorization, secret, verify, nowMs);
    if guard.Reject? {
      return Refusal(guard);
    }
    resp := PostRecipe(db, body, isUrl, now);
  }

  /** `PUT /:id`: only a request the admin guard lets through can change a recipe. */
  method PutRecipeRoute(db: Database, authorization: Option<string>, secret: Option<string>,
                        verify: (string, string) -> Auth.Verification, nowMs: int,
                        idParam: string, body: Json, isUrl: string -> bool, now: Instant) returns (resp: Response<RecipeDetail>)
    requires db.Valid()
    modifies db
    ensures db.Valid()
    ensures Auth.RequireAdmin(authorization, secret, verify, nowMs).Reject? ==>
              unchanged(db) && resp == Refusal(Auth.RequireAdmin(authorization, secret, verify, nowMs))
    ensures resp.status == 200 ==> Auth.RequireAdmin(authorization, secret, verify, nowMs).Next?
  {
    var guard := Auth.RequireAdmin(authorization, secret, verify, nowMs);
    if guard.Reject? {
      return Refusal(guard);
    }
    resp := PutRecipe(db, idParam, body, isUrl, now);
  }

  /** `DELETE /:id`: only a request the admin guard lets through can delete a recipe. */
  method DeleteRecipeRoute(db: Database, authorization: Option<string>, secret: Option<string>,
                           verify: (string, string) -> Auth.Verification, nowMs: int,
                           idParam: string) returns (resp: Response<()>)
    requires db.Valid()
    modifies db
    ensures db.Valid()
    ensures Auth.RequireAdmin(authorization, secret, verify, nowMs).Reject? ==>
              unchanged(db) && resp == Refusal(Auth.RequireAdmin(authorization, secret, verify, nowMs))
    ensures resp.status == 204 ==> Auth.RequireAdmin(authorization, secret, verify, nowMs).Next?
  {
    var guard := Auth.RequireAdmin(authorization, secret, verify, nowMs);
    if guard.Reject? {
      return Refusal(guard);
    }
    resp := DeleteRecipeController(db, idParam);
  }
}
