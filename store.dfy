/**
 * The relational store behind the server: one table per entity (recipes,
 * ingredients, ingredient types, reviews, QR tokens), each a sequence of rows
 * in insertion order, plus the counters behind the auto-increment ids. The
 * errors the store raises are the ones the services and the error handler
 * react to.
 */
module Store {
  import opened Wrappers
  import opened Calendar

  datatype RecipeRow = RecipeRow(
    id: nat,
    title: string,
    slug: string,
    imageUrl: Option<string>,
    description: Option<string>,
    methodText: string,   // the `method` column (preparation steps)
    avgRating: Option<real>,
    createdAt: Instant,
    updatedAt: Instant)

  datatype IngredientType = IngredientType(id: nat, name: string)

  datatype IngredientRow = IngredientRow(id: nat, amount: string, recipeId: nat, typeId: nat)

  datatype ReviewRow = ReviewRow(
    id: nat,
    rating: int,
    comment: string,
    name: Option<string>,
    recipeId: nat,
    userId: Option<int>,
    createdAt: Instant)

  datatype QrTokenRow = QrTokenRow(
    id: string,
    token: string,
    recipeId: int,
    expiresAt: Instant,
    used: bool,
    usedAt: Option<Instant>,
    createdAt: Instant)

  /** What a query can throw. */
  datatype Failure =
    | PrismaKnown(code: string)   // PrismaClientKnownRequestError with its code
    | PrismaValidation            // PrismaClientValidationError
    | Message(message: string)    // new Error(message) thrown by a service

  const UniqueViolation := "P2002"
  const ForeignKeyViolation := "P2003"
  const RecordNotFound := "P2025"

  // ---------------------------------------------------------------------------
  // Lookups (findUnique)

  function FindRecipe(rs: seq<RecipeRow>, id: int): (r: Option<RecipeRow>)
    ensures r.Some? ==> r.value in rs && r.value.id == id
    ensures r.None? ==> forall x :: x in rs ==> x.id != id
  {
    if rs == [] then None else if rs[0].id == id then Some(rs[0]) else FindRecipe(rs[1..], id)
  }

  function FindRecipeBySlug(rs: seq<RecipeRow>, slug: string): (r: Option<RecipeRow>)
    ensures r.Some? ==> r.value in rs && r.value.slug == slug
    ensures r.None? ==> forall x :: x in rs ==> x.slug != slug
  {
    if rs == [] then None else if rs[0].slug == slug then Some(rs[0]) else FindRecipeBySlug(rs[1..], slug)
  }

  function FindType(ts: seq<IngredientType>, id: int): (r: Option<IngredientType>)
    ensures r.Some? ==> r.value in ts && r.value.id == id
    ensures r.None? ==> forall x :: x in ts ==> x.id != id
  {
    if ts == [] then None else if ts[0].id == id then Some(ts[0]) else FindType(ts[1..], id)
  }

  function FindTypeByName(ts: seq<IngredientType>, name: string): (r: Option<IngredientType>)
    ensures r.Some? ==> r.value in ts && r.value.name == name
    ensures r.None? ==> forall x :: x in ts ==> x.name != name
  {
    if ts == [] then None else if ts[0].name == name then Some(ts[0]) else FindTypeByName(ts[1..], name)
  }

  function FindToken(ts: seq<QrTokenRow>, token: string): (r: Option<QrTokenRow>)
    ensures r.Some? ==> r.value in ts && r.value.token == token
    ensures r.None? ==> forall x :: x in ts ==> x.token != token
  {
    if ts == [] then None else if ts[0].token == token then Some(ts[0]) else FindToken(ts[1..], token)
  }

  function FindTokenById(ts: seq<QrTokenRow>, id: string): (r: Option<QrTokenRow>)
    ensures r.Some? ==> r.value in ts && r.value.id == id
    ensures r.None? ==> forall x :: x in ts ==> x.id != id
  {
    if ts == [] then None else if ts[0].id == id then Some(ts[0]) else FindTokenById(ts[1..], id)
  }

  // ---------------------------------------------------------------------------
  // Unique columns

  predicate UniqueRecipeIds(rs: seq<RecipeRow>) {
    forall i, j :: 0 <= i < j < |rs| ==> rs[i].id != rs[j].id
  }

  predicate UniqueSlugs(rs: seq<RecipeRow>) {
    forall i, j :: 0 <= i < j < |rs| ==> rs[i].slug != rs[j].slug
  }

  predicate UniqueTypeIds(ts: seq<IngredientType>) {
    forall i, j :: 0 <= i < j < |ts| ==> ts[i].id != ts[j].id
  }

  predicate UniqueTypeNames(ts: seq<IngredientType>) {
    forall i, j :: 0 <= i < j < |ts| ==> ts[i].name != ts[j].name
  }

  predicate UniqueIngredientIds(xs: seq<IngredientRow>) {
    forall i, j :: 0 <= i < j < |xs| ==> xs[i].id != xs[j].id
  }

  predicate UniqueReviewIds(xs: seq<ReviewRow>) {
    forall i, j :: 0 <= i < j < |xs| ==> xs[i].id != xs[j].id
  }

  predicate UniqueTokenIds(ts: seq<QrTokenRow>) {
    forall i, j :: 0 <= i < j < |ts| ==> ts[i].id != ts[j].id
  }

  predicate UniqueTokens(ts: seq<QrTokenRow>) {
    forall i, j :: 0 <= i < j < |ts| ==> ts[i].token != ts[j].token
  }

  /** In a table whose token column is unique, the row found for a token is the only one. */
  lemma FindTokenUnique(ts: seq<QrTokenRow>, token: string, row: QrTokenRow)
    requires UniqueTokens(ts)
    requires row in ts && row.token == token
    ensures FindToken(ts, token) == Some(row)
  {
    var found := FindToken(ts, token).value;
    var i :| 0 <= i < |ts| && ts[i] == row;
    var j :| 0 <= j < |ts| && ts[j] == found;
    assert !(i < j) && !(j < i);
  }

  // ---------------------------------------------------------------------------
  // The database

  /** The schema's constraints on a set of tables and counters. */
  ghost predicate TablesValid(recipes: seq<RecipeRow>, ingredients: seq<IngredientRow>, types: seq<IngredientType>,
                              reviews: seq<ReviewRow>, tokens: seq<QrTokenRow>,
                              nextRecipeId: nat, nextIngredientId: nat, nextTypeId: nat, nextReviewId: nat)
  {
    && UniqueRecipeIds(recipes) && UniqueSlugs(recipes)
    && UniqueTypeIds(types) && UniqueTypeNames(types)
    && UniqueIngredientIds(ingredients)
    && UniqueReviewIds(reviews)
    && UniqueTokenIds(tokens) && UniqueTokens(tokens)
    && (forall r :: r in recipes ==> r.id < nextRecipeId)
    && (forall t :: t in types ==> t.id < nextTypeId)
    && (forall x :: x in ingredients ==> x.id < nextIngredientId)
    && (forall x :: x in reviews ==> x.id < nextReviewId)
  }

  class Database {
    var recipes: seq<RecipeRow>
    var ingredients: seq<IngredientRow>
    var types: seq<IngredientType>
    var reviews: seq<ReviewRow>
    var tokens: seq<QrTokenRow>
    var nextRecipeId: nat
    var nextIngredientId: nat
    var nextTypeId: nat
    var nextReviewId: nat

    /**
     * The constraints the schema enforces: unique ids, slugs, type names and
     * tokens, and auto-increment counters ahead of every id handed out.
     */
    ghost predicate Valid()
      reads this
    {
      TablesValid(recipes, ingredients, types, reviews, tokens, nextRecipeId, nextIngredientId, nextTypeId, nextReviewId)
    }

    /** Every table but the token table, and every counter, is as it was. */
    twostate predicate SameExceptTokens()
      reads this
    {
      && recipes == old(recipes) && ingredients == old(ingredients) && types == old(types)
      && reviews == old(reviews)
      && nextRecipeId == old(nextRecipeId) && nextIngredientId == old(nextIngredientId)
      && nextTypeId == old(nextTypeId) && nextReviewId == old(nextReviewId)
    }

    /**
     * The end of a transaction on the recipe side of the schema: the recipe,
     * ingredient and type tables and their counters are replaced together,
     * and nothing else changes.
     */
    method CommitRecipeTables(newRecipes: seq<RecipeRow>, newIngredients: seq<IngredientRow>, newTypes: seq<IngredientType>,
                              newNextRecipeId: nat, newNextIngredientId: nat, newNextTypeId: nat)
      requires TablesValid(newRecipes, newIngredients, newTypes, reviews, tokens,
                           newNextRecipeId, newNextIngredientId, newNextTypeId, nextReviewId)
      modifies this
      ensures Valid()
      ensures recipes == newRecipes && ingredients == newIngredients && types == newTypes
      ensures nextRecipeId == newNextRecipeId && nextIngredientId == newNextIngredientId && nextTypeId == newNextTypeId
      ensures reviews == old(reviews) && tokens == old(tokens) && nextReviewId == old(nextReviewId)
    {
      recipes, ingredients, types := newRecipes, newIngredients, newTypes;
      nextRecipeId, nextIngredientId, nextTypeId := newNextRecipeId, newNextIngredientId, newNextTypeId;
    }

    /** An empty database; auto-increment ids start at 1. */
    constructor ()
      ensures Valid()
      ensures recipes == [] && ingredients == [] && types == [] && reviews == [] && tokens == []
    {
      recipes, ingredients, types, reviews, tokens := [], [], [], [], [];
      nextRecipeId, nextIngredientId, nextTypeId, nextReviewId := 1, 1, 1, 1;
    }
  }
}
