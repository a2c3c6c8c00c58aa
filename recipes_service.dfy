/**
 * The recipe service: a paged, newest-first listing filtered by title, the
 * lookups by slug and by id, and create, update and delete. Create and update
 * link each ingredient to an ingredient type, either the one whose id is given
 * or the one with the given name, created when no type has that name yet.
 * Each write is one nested Prisma write, so it either happens entirely or not
 * at all.
 */
module RecipesService {
  import opened Wrappers
  import opened Calendar
  import opened Text
  import opened Store
  import opened Sequences
  import opened RecipesSchema
  import Reviews
  import QrService

  // ---------------------------------------------------------------------------
  // listRecipes

  /** `title: { contains: query, mode: "insensitive" }` */
  predicate TitleMatches(title: string, query: string) {
    Contains(Lower(title), Lower(query))
  }

  /** The `where` clause: none for an empty query. */
  function MatchesQuery(query: string): RecipeRow -> bool {
    (r: RecipeRow) => query == "" || TitleMatches(r.title, query)
  }

  function RecipeKey(r: RecipeRow): int {
    Rank(r.createdAt)
  }

  function IsIngredientOf(recipeId: int): IngredientRow -> bool {
    (x: IngredientRow) => x.recipeId == recipeId
  }

  /** The ingredient rows of a recipe, in table order. */
  function IngredientsOf(ingredients: seq<IngredientRow>, recipeId: int): seq<IngredientRow> {
    Filter(ingredients, IsIngredientOf(recipeId))
  }

  /** A listed recipe: every column and `_count` of its reviews and ingredients. */
  datatype RecipeSummary = RecipeSummary(recipe: RecipeRow, reviewCount: nat, ingredientCount: nat)

  /** A page of the listing; `page` and `size` are echoed as they were given. */
  datatype RecipePage = RecipePage(items: seq<RecipeSummary>, total: nat, page: real, size: real)

  /** The recipes the query keeps, in table order. */
  function Matching(recipes: seq<RecipeRow>, query: string): seq<RecipeRow> {
    Filter(recipes, MatchesQuery(query))
  }

  /** The recipes the query keeps, newest first. */
  function Newest(recipes: seq<RecipeRow>, query: string): seq<RecipeRow> {
    SortDesc(Matching(recipes, query), RecipeKey)
  }

  function Summary(r: RecipeRow, ingredients: seq<IngredientRow>, reviews: seq<ReviewRow>): RecipeSummary {
    RecipeSummary(r, |Filter(reviews, Reviews.ForRecipe(r.id))|, |IngredientsOf(ingredients, r.id)|)
  }

  /** `skip: (page - 1) * size` */
  function Skip(page: real, size: real): real {
    (page - 1.0) * size
  }

  /**
   * What Prisma's query validation lets through: `skip` and `take` are `Int`
   * arguments, so both must be integers, and `skip` must not be negative.
   */
  predicate Slices(page: real, size: real) {
    IsInteger(size) && IsInteger(Skip(page, size)) && Skip(page, size) >= 0.0
  }

  /**
   * `listRecipes(query, page, size)`: skip `(page - 1) * size` of the matching
   * recipes ordered by creation time, newest first, and take `size`; `total`
   * counts every match. A skip or size that is not an integer, or a negative
   * skip, is rejected by Prisma's query validation; a negative `size` takes
   * from the end. A fractional `page` is served when the skip it gives is a
   * whole number.
   */
  function ListRecipes(recipes: seq<RecipeRow>, ingredients: seq<IngredientRow>, reviews: seq<ReviewRow>,
                       query: string, page: real, size: real): (r: Result<RecipePage, Failure>)
    ensures r.Err? <==> !Slices(page, size)
    ensures r.Err? ==> r.error == PrismaValidation
    ensures r.Ok? ==> r.value.total == |Matching(recipes, query)| && r.value.page == page && r.value.size == size
    ensures r.Ok? ==> |r.value.items| <= Abs(size.Floor) && |r.value.items| <= r.value.total
    ensures r.Ok? ==>
              var w := Window(Newest(recipes, query), Skip(page, size).Floor, size.Floor);
              |r.value.items| == |w|
              && forall i :: 0 <= i < |w| ==> r.value.items[i] == Summary(w[i], ingredients, reviews)
    ensures r.Ok? ==> forall i :: 0 <= i < |r.value.items| ==>
              r.value.items[i].recipe in recipes && MatchesQuery(query)(r.value.items[i].recipe)
    ensures r.Ok? ==> forall i, j :: 0 <= i < j < |r.value.items| ==>
              !Earlier(r.value.items[i].recipe.createdAt, r.value.items[j].recipe.createdAt)
  {
    if !Slices(page, size) then Err(PrismaValidation)
    else
      var skip := Skip(page, size).Floor;
      var w := Window(Newest(recipes, query), skip, size.Floor);
      var items := seq(|w|, i requires 0 <= i < |w| => Summary(w[i], ingredients, reviews));
      PageFacts(recipes, query, skip, size.Floor);
      Ok(RecipePage(items, |Matching(recipes, query)|, page, size))
  }

  /** A page holds matching recipes of the table, newest first. */
  lemma PageFacts(recipes: seq<RecipeRow>, query: string, skip: nat, size: int)
    ensures var w := Window(Newest(recipes, query), skip, size);
            (forall i :: 0 <= i < |w| ==> w[i] in recipes && MatchesQuery(query)(w[i]))
            && (forall i, j :: 0 <= i < j < |w| ==> !Earlier(w[i].createdAt, w[j].createdAt))
  {
    var matching := Matching(recipes, query);
    var ordered := Newest(recipes, query);
    var w := Window(ordered, skip, size);
    SortDescSorted(matching, RecipeKey);
    SortDescElements(matching, RecipeKey);
    WindowSorted(ordered, skip, size, RecipeKey);
    forall i | 0 <= i < |w| ensures w[i] in recipes && MatchesQuery(query)(w[i]) {
      assert w[i] in w;
    }
    forall i, j | 0 <= i < j < |w| ensures !Earlier(w[i].createdAt, w[j].createdAt) {
      RankOrder(w[i].createdAt, w[j].createdAt);
    }
  }

  /** An empty query lists every recipe. */
  lemma EmptyQueryKeepsAll(recipes: seq<RecipeRow>)
    ensures Matching(recipes, "") == recipes
  {
    FilterAll(recipes, MatchesQuery(""));
  }

  /** The filter ignores case: two queries that lower-case alike list the same recipes. */
  lemma QueryIgnoresCase(recipes: seq<RecipeRow>, ingredients: seq<IngredientRow>, reviews: seq<ReviewRow>,
                         q1: string, q2: string, page: real, size: real)
    requires Lower(q1) == Lower(q2)
    ensures ListRecipes(recipes, ingredients, reviews, q1, page, size) == ListRecipes(recipes, ingredients, reviews, q2, page, size)
  {
    assert |q1| == |q2|;
    FilterExt(recipes, MatchesQuery(q1), MatchesQuery(q2));
  }

  /** For whole numbers the skip is the integer product, and Prisma lets it through exactly when it is not negative. */
  lemma WholeSkip(page: int, size: int)
    ensures Skip(page as real, size as real) == ((page - 1) * size) as real
    ensures Skip(page as real, size as real).Floor == (page - 1) * size
    ensures Slices(page as real, size as real) <==> (page - 1) * size >= 0
  {
    assert (page as real - 1.0) == (page - 1) as real;
    assert (page - 1) as real * size as real == ((page - 1) * size) as real;
    assert (size as real).Floor == size;
    assert (((page - 1) * size) as real).Floor == (page - 1) * size;
  }

  /**
   * With a positive page size every matching recipe is listed exactly where
   * its rank puts it: the one at position `k` newest-first is item `k % size`
   * of page `k / size + 1`.
   */
  lemma EveryMatchIsOnItsPage(recipes: seq<RecipeRow>, ingredients: seq<IngredientRow>, reviews: seq<ReviewRow>,
                              query: string, size: int, k: nat)
    requires size > 0 && k < |Matching(recipes, query)|
    ensures var r := ListRecipes(recipes, ingredients, reviews, query, (k / size + 1) as real, size as real);
            r.Ok? && k % size < |r.value.items|
            && r.value.items[k % size].recipe == Newest(recipes, query)[k]
  {
    var page, m := k / size + 1, k % size;
    var n := Newest(recipes, query);
    assert (page - 1) * size >= 0 && m < |Window(n, (page - 1) * size, size)|
           && Window(n, (page - 1) * size, size)[m] == n[k] by {
      DivModParts(k, size);
      WindowHolds(n, size, k);
    }
    PageItem(recipes, ingredients, reviews, query, page, size, (page - 1) * size, m);
  }

  /** Item `i` of a page is the summary of the recipe at position `i` of its window. */
  lemma PageItem(recipes: seq<RecipeRow>, ingredients: seq<IngredientRow>, reviews: seq<ReviewRow>,
                 query: string, page: int, size: int, skip: nat, i: nat)
    requires skip == (page - 1) * size
    requires i < |Window(Newest(recipes, query), skip, size)|
    ensures var r := ListRecipes(recipes, ingredients, reviews, query, page as real, size as real);
            r.Ok? && i < |r.value.items| && r.value.items[i].recipe == Window(Newest(recipes, query), skip, size)[i]
  {
    WholeSkip(page, size);
    var w := Window(Newest(recipes, query), skip, size);
    var r := ListRecipes(recipes, ingredients, reviews, query, page as real, size as real);
    assert r.value.items[i] == Summary(w[i], ingredients, reviews);
  }

  /** Two consecutive pages together are the stretch of matches they cover. */
  lemma ConsecutivePages(recipes: seq<RecipeRow>, ingredients: seq<IngredientRow>, reviews: seq<ReviewRow>,
                         query: string, page: int, size: nat, skip: nat)
    requires page >= 1 && skip == (page - 1) * size
    ensures var a := ListRecipes(recipes, ingredients, reviews, query, page as real, size as real);
            var b := ListRecipes(recipes, ingredients, reviews, query, (page + 1) as real, size as real);
            var both := Window(Newest(recipes, query), skip, 2 * size);
            a.Ok? && b.Ok? && |a.value.items| + |b.value.items| == |both|
            && (forall i :: 0 <= i < |a.value.items| ==> a.value.items[i].recipe == both[i])
            && (forall i :: 0 <= i < |b.value.items| ==> b.value.items[i].recipe == both[|a.value.items| + i])
  {
    NextSkip(page, size);
    var s := Newest(recipes, query);
    WindowsTile(s, skip, size);
    ItemsAreWindow(recipes, ingredients, reviews, query, page, size, skip);
    ItemsAreWindow(recipes, ingredients, reviews, query, page + 1, size, skip + size);
  }

  /** The recipes on a page are the window of matches its skip and size select. */
  lemma ItemsAreWindow(recipes: seq<RecipeRow>, ingredients: seq<IngredientRow>, reviews: seq<ReviewRow>,
                       query: string, page: int, size: nat, skip: nat)
    requires skip == (page - 1) * size
    ensures var a := ListRecipes(recipes, ingredients, reviews, query, page as real, size as real);
            var w := Window(Newest(recipes, query), skip, size);
            a.Ok? && |a.value.items| == |w| && forall i :: 0 <= i < |w| ==> a.value.items[i].recipe == w[i]
  {
    WholeSkip(page, size);
    var a := ListRecipes(recipes, ingredients, reviews, query, page as real, size as real);
    var w := Window(Newest(recipes, query), skip, size);
    forall i | 0 <= i < |w| ensures a.value.items[i].recipe == w[i] {
      assert a.value.items[i] == Summary(w[i], ingredients, reviews);
    }
  }

  lemma NextSkip(page: int, size: int)
    ensures (page + 1 - 1) * size == (page - 1) * size + size
  {
  }

  // ---------------------------------------------------------------------------
  // getRecipeBySlug, getRecipeById

  /** An ingredient row with its type included. */
  datatype IngredientView = IngredientView(row: IngredientRow, ingredientType: Option<IngredientType>)

  /** A recipe with `include: { ingredients: { include: { type: true } }, reviews }`. */
  datatype RecipeDetail = RecipeDetail(recipe: RecipeRow, ingredients: seq<IngredientView>, reviews: seq<ReviewRow>)

  function ViewsOf(rows: seq<IngredientRow>, types: seq<IngredientType>): (v: seq<IngredientView>)
    ensures |v| == |rows|
    ensures forall i :: 0 <= i < |rows| ==> v[i].row == rows[i] && v[i].ingredientType == FindType(types, rows[i].typeId)
  {
    seq(|rows|, i requires 0 <= i < |rows| => IngredientView(rows[i], FindType(types, rows[i].typeId)))
  }

  /** `reviews: { orderBy: { createdAt: "desc" }, take: 25 }` */
  function LatestReviews(reviews: seq<ReviewRow>, recipeId: int): (r: seq<ReviewRow>)
    ensures |r| == Min(25, |Filter(reviews, Reviews.ForRecipe(recipeId))|)
    ensures forall x :: x in r ==> x in reviews && x.recipeId == recipeId
    ensures forall i, j :: 0 <= i < j < |r| ==> !Earlier(r[i].createdAt, r[j].createdAt)
    ensures |Reviews.ListReviews(reviews, recipeId)| <= 25 ==> multiset(r) == multiset(Filter(reviews, Reviews.ForRecipe(recipeId)))
    ensures forall i, x :: 0 <= i < |r| && x in reviews && x.recipeId == recipeId && Earlier(r[i].createdAt, x.createdAt) ==> x in r
  {
    var all := Reviews.ListReviews(reviews, recipeId);
    var r := all[..Min(25, |all|)];
    assert |all| == |multiset(all)| == |Filter(reviews, Reviews.ForRecipe(recipeId))|;
    PrefixOfNewest(all, reviews, recipeId, r);
    r
  }

  lemma PrefixOfNewest(all: seq<ReviewRow>, reviews: seq<ReviewRow>, recipeId: int, r: seq<ReviewRow>)
    requires all == Reviews.ListReviews(reviews, recipeId) && r == all[..Min(25, |all|)]
    ensures forall x :: x in r ==> x in all
    ensures |all| <= 25 ==> r == all
    ensures forall i, x :: 0 <= i < |r| && x in reviews && x.recipeId == recipeId && Earlier(r[i].createdAt, x.createdAt) ==> x in r
  {
    assert forall x :: x in r ==> x in all;
    forall i, x | 0 <= i < |r| && x in reviews && x.recipeId == recipeId && Earlier(r[i].createdAt, x.createdAt)
      ensures x in r
    {
      var m :| 0 <= m < |all| && all[m] == x;
      assert r[m] == x;
    }
    if |all| <= 25 {
      assert r == all;
    }
  }

  /**
   * `getRecipeBySlug`: nothing for an unknown slug; otherwise the recipe with
   * its ingredients (each with its type) and its 25 newest reviews.
   */
  function GetRecipeBySlug(recipes: seq<RecipeRow>, ingredients: seq<IngredientRow>, types: seq<IngredientType>,
                           reviews: seq<ReviewRow>, slug: string): (r: Option<RecipeDetail>)
    ensures r.None? <==> forall x :: x in recipes ==> x.slug != slug
    ensures r.Some? ==>
              r.value.recipe in recipes && r.value.recipe.slug == slug
              && r.value.recipe == FindRecipeBySlug(recipes, slug).value
              && |r.value.ingredients| == |IngredientsOf(ingredients, r.value.recipe.id)|
              && (forall i :: 0 <= i < |r.value.ingredients| ==>
                    r.value.ingredients[i].row == IngredientsOf(ingredients, r.value.recipe.id)[i]
                    && r.value.ingredients[i].row in ingredients
                    && r.value.ingredients[i].row.recipeId == r.value.recipe.id
                    && r.value.ingredients[i].ingredientType == FindType(types, r.value.ingredients[i].row.typeId))
              && r.value.reviews == LatestReviews(reviews, r.value.recipe.id)
              && |r.value.reviews| == Min(25, |Filter(reviews, Reviews.ForRecipe(r.value.recipe.id))|)
  {
    match FindRecipeBySlug(recipes, slug)
    case None => None
    case Some(recipe) =>
      var rows := IngredientsOf(ingredients, recipe.id);
      assert forall i :: 0 <= i < |rows| ==> rows[i] in rows;
      Some(RecipeDetail(recipe, ViewsOf(rows, types), LatestReviews(reviews, recipe.id)))
  }

  /** `getRecipeById`: the recipe's own columns, or nothing for an unknown id. */
  function GetRecipeById(recipes: seq<RecipeRow>, id: int): (r: Option<RecipeRow>)
    ensures r.None? <==> forall x :: x in recipes ==> x.id != id
    ensures r.Some? ==> r.value in recipes && r.value.id == id
    ensures UniqueRecipeIds(recipes) ==> forall x :: x in recipes && x.id == id ==> r == Some(x)
  {
    var r := FindRecipe(recipes, id);
    forall x | UniqueRecipeIds(recipes) && x in recipes && x.id == id ensures r == Some(x) {
      var i :| 0 <= i < |recipes| && recipes[i] == x;
      var j :| 0 <= j < |recipes| && recipes[j] == r.value;
      assert !(i < j) && !(j < i);
    }
    r
  }

  // ---------------------------------------------------------------------------
  // Linking ingredients to types

  /** The type table with the id the next created type gets. */
  datatype TypeTable = TypeTable(types: seq<IngredientType>, next: nat)

  /** Unique ids and names, and the counter ahead of every id. */
  ghost predicate TypesInv(t: TypeTable) {
    UniqueTypeIds(t.types) && UniqueTypeNames(t.types) && forall x :: x in t.types ==> x.id < t.next
  }

  /** `if (ing.typeId)`: a present, non-zero id. */
  predicate Truthy(typeId: Option<int>) {
    typeId.Some? && typeId.value != 0
  }

  /** The entry is linked to the type `typeId`: the one it names by id, or one with its name. */
  ghost predicate Links(types: seq<IngredientType>, ing: IngredientDto, typeId: nat) {
    FindType(types, typeId).Some?
    && if Truthy(ing.typeId) then typeId == ing.typeId.value
       else ing.name.Some? && FindType(types, typeId).value.name == ing.name.value
  }

  /** What an entry needs of the type table to be linked. */
  predicate Resolvable(types: seq<IngredientType>, ing: IngredientDto) {
    if Truthy(ing.typeId) then FindType(types, ing.typeId.value).Some? else ing.name.Some?
  }

  lemma {:induction false} FindTypeAppend(ts: seq<IngredientType>, more: seq<IngredientType>, id: int)
    requires FindType(ts, id).Some?
    ensures FindType(ts + more, id) == FindType(ts, id)
  {
    if ts[0].id != id {
      assert (ts + more)[1..] == ts[1..] + more;
      FindTypeAppend(ts[1..], more, id);
    }
  }

  lemma {:induction false} FindTypeAppendNew(ts: seq<IngredientType>, x: IngredientType)
    requires forall y :: y in ts ==> y.id != x.id
    ensures FindType(ts + [x], x.id) == Some(x)
  {
    if ts == [] {
      assert ts + [x] == [x];
    } else {
      assert (ts + [x])[1..] == ts[1..] + [x];
      FindTypeAppendNew(ts[1..], x);
    }
  }

  /** `connect` or `connectOrCreate` for one entry. */
  datatype Resolution = Resolution(table: TypeTable, typeId: nat)

  function ResolveOne(t: TypeTable, ing: IngredientDto): (r: Result<Resolution, Failure>)
    ensures r.Err? <==> !Resolvable(t.types, ing)
    ensures r.Err? ==> r.error == (if Truthy(ing.typeId) then PrismaKnown(RecordNotFound) else PrismaValidation)
    ensures r.Ok? && Truthy(ing.typeId) ==> r.value == Resolution(t, ing.typeId.value)
    ensures r.Ok? && !Truthy(ing.typeId) && FindTypeByName(t.types, ing.name.value).Some? ==>
              r.value == Resolution(t, FindTypeByName(t.types, ing.name.value).value.id)
    ensures r.Ok? && !Truthy(ing.typeId) && FindTypeByName(t.types, ing.name.value).None? ==>
              r.value == Resolution(TypeTable(t.types + [IngredientType(t.next, ing.name.value)], t.next + 1), t.next)
    ensures r.Ok? && TypesInv(t) ==> TypesInv(r.value.table) && Links(r.value.table.types, ing, r.value.typeId)
  {
    if Truthy(ing.typeId) then
      if FindType(t.types, ing.typeId.value).Some? then Ok(Resolution(t, ing.typeId.value))
      else Err(PrismaKnown(RecordNotFound))
    else if ing.name.None? then Err(PrismaValidation)
    else match FindTypeByName(t.types, ing.name.value)
      case Some(found) =>
        FoundTypeLinks(t, ing, found);
        Ok(Resolution(t, found.id))
      case None =>
        CreatedTypeLinks(t, ing);
        Ok(Resolution(TypeTable(t.types + [IngredientType(t.next, ing.name.value)], t.next + 1), t.next))
  }

  /** An entry linked by name to an existing type links to that type's id. */
  lemma FoundTypeLinks(t: TypeTable, ing: IngredientDto, found: IngredientType)
    requires !Truthy(ing.typeId) && ing.name.Some? && FindTypeByName(t.types, ing.name.value) == Some(found)
    ensures TypesInv(t) ==> Links(t.types, ing, found.id)
  {
    if TypesInv(t) {
      var i :| 0 <= i < |t.types| && t.types[i] == found;
      var g := FindType(t.types, found.id).value;
      var j :| 0 <= j < |t.types| && t.types[j] == g;
      assert !(i < j) && !(j < i);
    }
  }

  /** A type created for a new name keeps the table's constraints and is the one the entry links to. */
  lemma CreatedTypeLinks(t: TypeTable, ing: IngredientDto)
    requires !Truthy(ing.typeId) && ing.name.Some? && FindTypeByName(t.types, ing.name.value).None?
    ensures var t' := TypeTable(t.types + [IngredientType(t.next, ing.name.value)], t.next + 1);
            TypesInv(t) ==> TypesInv(t') && Links(t'.types, ing, t.next)
  {
    var x := IngredientType(t.next, ing.name.value);
    var t' := TypeTable(t.types + [x], t.next + 1);
    if TypesInv(t) {
      FindTypeAppendNew(t.types, x);
      assert forall y :: y in t'.types ==> y in t.types || y == x;
    }
  }

  /** The link an entry got stays valid when more types are added after it. */
  lemma LinksExtend(types: seq<IngredientType>, more: seq<IngredientType>, ing: IngredientDto, typeId: nat)
    requires Links(types, ing, typeId)
    ensures Links(types + more, ing, typeId)
  {
    FindTypeAppend(types, more, typeId);
  }

  datatype Resolved = Resolved(table: TypeTable, typeIds: seq<nat>)

  /** An entry that could be linked still can once more types exist. */
  lemma ResolvableExtend(types: seq<IngredientType>, more: seq<IngredientType>, ings: seq<IngredientDto>)
    ensures (forall k :: 0 <= k < |ings| ==> Resolvable(types, ings[k])) ==>
              forall k :: 0 <= k < |ings| ==> Resolvable(types + more, ings[k])
  {
    if forall k :: 0 <= k < |ings| ==> Resolvable(types, ings[k]) {
      forall k | 0 <= k < |ings| ensures Resolvable(types + more, ings[k]) {
        if Truthy(ings[k].typeId) {
          FindTypeAppend(types, more, ings[k].typeId.value);
        }
      }
    }
  }

  /**
   * The entries linked left to right, each seeing the types the earlier ones
   * created; the first entry that cannot be linked fails the whole write.
   */
  function ResolveTypes(t: TypeTable, ings: seq<IngredientDto>): (r: Result<Resolved, Failure>)
    ensures r.Err? ==> r.error == PrismaKnown(RecordNotFound) || r.error == PrismaValidation
    ensures r.Ok? ==> |r.value.typeIds| == |ings| && t.types <= r.value.table.types && t.next <= r.value.table.next
    ensures (forall k :: 0 <= k < |ings| ==> Resolvable(t.types, ings[k])) ==> r.Ok?
    decreases |ings|
  {
    if ings == [] then Ok(Resolved(t, []))
    else match ResolveOne(t, ings[0])
      case Err(e) => Err(e)
      case Ok(first) =>
        var more := first.table.types[|t.types|..];
        assert first.table.types == t.types + more;
        ResolvableExtend(t.types, more, ings[1..]);
        match ResolveTypes(first.table, ings[1..])
        case Err(e) => Err(e)
        case Ok(rest) => Ok(Resolved(rest.table, [first.typeId] + rest.typeIds))
  }

  /**
   * Linking keeps the type table's constraints and links every entry.
   */
  lemma {:induction false} ResolveTypesLinks(t: TypeTable, ings: seq<IngredientDto>)
    requires TypesInv(t) && ResolveTypes(t, ings).Ok?
    ensures var r := ResolveTypes(t, ings).value;
            TypesInv(r.table)
            && (forall k :: 0 <= k < |ings| ==> Links(r.table.types, ings[k], r.typeIds[k]))
    decreases |ings|
  {
    if ings != [] {
      ResolveTypesCons(t, ings);
      var first := ResolveOne(t, ings[0]).value;
      var rest := ResolveTypes(first.table, ings[1..]).value;
      ResolveTypesLinks(first.table, ings[1..]);
      LinksAfterFirst(first.table.types, rest.table.types, ings, first.typeId, rest.typeIds);
    }
  }

  /** A type is created only for a name that no type had before. */
  lemma {:induction false} ResolveTypesFresh(t: TypeTable, ings: seq<IngredientDto>)
    requires ResolveTypes(t, ings).Ok?
    ensures var r := ResolveTypes(t, ings).value;
            forall j :: |t.types| <= j < |r.table.types| ==>
              FindTypeByName(t.types, r.table.types[j].name).None? && t.next <= r.table.types[j].id
    decreases |ings|
  {
    if ings != [] {
      ResolveTypesCons(t, ings);
      var first := ResolveOne(t, ings[0]).value;
      var rest := ResolveTypes(first.table, ings[1..]).value;
      ResolveTypesFresh(first.table, ings[1..]);
      NewTypesFresh(t, first.table, rest.table);
    }
  }

  /** A successful linking of a non-empty list is its first entry's, then the rest's on the grown table. */
  lemma ResolveTypesCons(t: TypeTable, ings: seq<IngredientDto>)
    requires ings != [] && ResolveTypes(t, ings).Ok?
    ensures ResolveOne(t, ings[0]).Ok?
    ensures var first := ResolveOne(t, ings[0]).value;
            ResolveTypes(first.table, ings[1..]).Ok?
            && ResolveTypes(t, ings).value
               == Resolved(ResolveTypes(first.table, ings[1..]).value.table,
                           [first.typeId] + ResolveTypes(first.table, ings[1..]).value.typeIds)
  {
  }

  /** The first entry's link survives the types the later entries add, so every entry is linked in the final table. */
  lemma LinksAfterFirst(mid: seq<IngredientType>, last: seq<IngredientType>, ings: seq<IngredientDto>, id0: nat, ids: seq<nat>)
    requires mid <= last && ings != [] && |ids| == |ings| - 1
    requires Links(mid, ings[0], id0)
    requires forall k :: 0 <= k < |ids| ==> Links(last, ings[1..][k], ids[k])
    ensures forall k :: 0 <= k < |ings| ==> Links(last, ings[k], ([id0] + ids)[k])
  {
    var more := last[|mid|..];
    assert last == mid + more;
    LinksExtend(mid, more, ings[0], id0);
    LinksCons(last, ings, id0, ids);
  }

  lemma LinksCons(types: seq<IngredientType>, ings: seq<IngredientDto>, id0: nat, ids: seq<nat>)
    requires ings != [] && |ids| == |ings| - 1
    requires Links(types, ings[0], id0)
    requires forall k :: 0 <= k < |ids| ==> Links(types, ings[1..][k], ids[k])
    ensures forall k :: 0 <= k < |ings| ==> Links(types, ings[k], ([id0] + ids)[k])
  {
    var all := [id0] + ids;
    forall k | 1 <= k < |ings| ensures Links(types, ings[k], all[k]) {
      assert ings[k] == ings[1..][k - 1];
      assert all[k] == ids[k - 1];
    }
  }

  lemma NewTypesFresh(t: TypeTable, mid: TypeTable, last: TypeTable)
    requires t.types <= mid.types <= last.types && |mid.types| <= |t.types| + 1
    requires |mid.types| == |t.types| + 1 ==>
               FindTypeByName(t.types, mid.types[|t.types|].name).None? && t.next <= mid.types[|t.types|].id
    requires forall j :: |mid.types| <= j < |last.types| ==>
               FindTypeByName(mid.types, last.types[j].name).None? && mid.next <= last.types[j].id
    requires t.next <= mid.next
    ensures forall j :: |t.types| <= j < |last.types| ==>
              FindTypeByName(t.types, last.types[j].name).None? && t.next <= last.types[j].id
  {
    forall j | |t.types| <= j < |last.types|
      ensures FindTypeByName(t.types, last.types[j].name).None? && t.next <= last.types[j].id
    {
      if j >= |mid.types| {
      } else {
        assert last.types[j] == mid.types[j];
      }
    }
  }

  /** Two entries naming the same type by name are linked to the same type. */
  lemma SameNameSameType(types: seq<IngredientType>, next: nat, a: IngredientDto, b: IngredientDto, ida: nat, idb: nat)
    requires TypesInv(TypeTable(types, next))
    requires Links(types, a, ida) && Links(types, b, idb)
    requires !Truthy(a.typeId) && !Truthy(b.typeId) && a.name == b.name
    ensures ida == idb
  {
    var x, y := FindType(types, ida).value, FindType(types, idb).value;
    var i :| 0 <= i < |types| && types[i] == x;
    var j :| 0 <= j < |types| && types[j] == y;
    assert !(i < j) && !(j < i);
  }

  /** Entries of one write that share a name share one type: names stay unique and are linked alike. */
  lemma ResolvedNamesShareTypes(t: TypeTable, ings: seq<IngredientDto>, k1: nat, k2: nat)
    requires TypesInv(t) && ResolveTypes(t, ings).Ok?
    requires k1 < |ings| && k2 < |ings| && !Truthy(ings[k1].typeId) && !Truthy(ings[k2].typeId)
    requires ings[k1].name == ings[k2].name
    ensures ResolveTypes(t, ings).value.typeIds[k1] == ResolveTypes(t, ings).value.typeIds[k2]
  {
    var r := ResolveTypes(t, ings).value;
    ResolveTypesLinks(t, ings);
    SameNameSameType(r.table.types, r.table.next, ings[k1], ings[k2], r.typeIds[k1], r.typeIds[k2]);
  }

  /** The ingredient rows of a write: one per entry, in order, with consecutive ids. */
  function NewIngredients(start: nat, recipeId: nat, ings: seq<IngredientDto>, typeIds: seq<nat>): (r: seq<IngredientRow>)
    requires |typeIds| == |ings|
    ensures |r| == |ings|
    ensures forall k :: 0 <= k < |ings| ==>
              r[k].id == start + k && r[k].recipeId == recipeId && r[k].amount == ings[k].amount && r[k].typeId == typeIds[k]
  {
    seq(|ings|, k requires 0 <= k < |ings| => IngredientRow(start + k, ings[k].amount, recipeId, typeIds[k]))
  }

  /** Appending fresh rows above every kept id keeps ids unique and under the new counter. */
  lemma AppendFreshIngredients(kept: seq<IngredientRow>, news: seq<IngredientRow>, start: nat)
    requires UniqueIngredientIds(kept) && forall x :: x in kept ==> x.id < start
    requires forall k :: 0 <= k < |news| ==> news[k].id == start + k
    ensures UniqueIngredientIds(kept + news)
    ensures forall x :: x in kept + news ==> x.id < start + |news|
  {
    var all := kept + news;
    forall i, j | 0 <= i < j < |all| ensures all[i].id != all[j].id {
      if j < |kept| {
      } else if i < |kept| {
        assert all[i] in kept;
        assert all[j] == news[j - |kept|];
      } else {
        assert all[i] == news[i - |kept|] && all[j] == news[j - |kept|];
      }
    }
    forall x | x in all ensures x.id < start + |news| {
      if x !in kept {
        var k :| 0 <= k < |news| && news[k] == x;
      }
    }
  }

  // ---------------------------------------------------------------------------
  // createRecipe

  /** The recipe row a create inserts; no review yet, so no average. */
  function NewRecipeRow(id: nat, dto: RecipeDto, now: Instant): RecipeRow {
    RecipeRow(id, dto.title, dto.slug, dto.imageUrl, dto.description, dto.methodText, None, now, now)
  }

  /**
   * `createRecipe`: one recipe row and one ingredient row per entry, in order,
   * each linked to its type. A slug already in use is a unique-constraint
   * failure, an entry that cannot be linked fails too, and on any failure
   * nothing is stored. The created recipe is returned with its ingredients
   * and (no) reviews.
   */
  method CreateRecipe(db: Database, dto: RecipeDto, now: Instant) returns (r: Result<RecipeDetail, Failure>)
    requires db.Valid()
    modifies db
    ensures db.Valid()
    ensures r.Err? ==> unchanged(db)
    ensures r.Err? ==> r.error in {PrismaKnown(UniqueViolation), PrismaKnown(RecordNotFound), PrismaValidation}
    ensures FindRecipeBySlug(old(db.recipes), dto.slug).Some? ==> r == Err(PrismaKnown(UniqueViolation))
    ensures r.Ok? <==>
              FindRecipeBySlug(old(db.recipes), dto.slug).None?
              && ResolveTypes(TypeTable(old(db.types), old(db.nextTypeId)), dto.ingredients).Ok?
    ensures r.Ok? ==>
              var res := ResolveTypes(TypeTable(old(db.types), old(db.nextTypeId)), dto.ingredients).value;
              var row := NewRecipeRow(old(db.nextRecipeId), dto, now);
              var news := NewIngredients(old(db.nextIngredientId), row.id, dto.ingredients, res.typeIds);
              db.recipes == old(db.recipes) + [row]
              && db.ingredients == old(db.ingredients) + news
              && db.types == res.table.types && db.nextTypeId == res.table.next
              && db.nextRecipeId == old(db.nextRecipeId) + 1
              && db.nextIngredientId == old(db.nextIngredientId) + |dto.ingredients|
              && r.value == RecipeDetail(row, ViewsOf(news, db.types), [])
              && (forall k :: 0 <= k < |news| ==> Links(db.types, dto.ingredients[k], news[k].typeId))
    ensures db.reviews == old(db.reviews) && db.tokens == old(db.tokens) && db.nextReviewId == old(db.nextReviewId)
  {
    if FindRecipeBySlug(db.recipes, dto.slug).Some? {
      return Err(PrismaKnown(UniqueViolation));
    }
    var resolved := ResolveTypes(TypeTable(db.types, db.nextTypeId), dto.ingredients);
    if resolved.Err? {
      return Err(resolved.error);
    }
    var res := resolved.value;
    ResolveTypesLinks(TypeTable(db.types, db.nextTypeId), dto.ingredients);
    var row := NewRecipeRow(db.nextRecipeId, dto, now);
    var news := NewIngredients(db.nextIngredientId, row.id, dto.ingredients, res.typeIds);
    CreateKeepsValid(db.recipes, db.ingredients, db.types, db.reviews, db.tokens,
                     db.nextRecipeId, db.nextIngredientId, db.nextTypeId, db.nextReviewId, dto, now, res);
    db.CommitRecipeTables(db.recipes + [row], db.ingredients + news, res.table.types,
                          db.nextRecipeId + 1, db.nextIngredientId + |news|, res.table.next);
    r := Ok(RecipeDetail(row, ViewsOf(news, db.types), []));
  }

  lemma CreateKeepsValid(recipes: seq<RecipeRow>, ingredients: seq<IngredientRow>, types: seq<IngredientType>,
                         reviews: seq<ReviewRow>, tokens: seq<QrTokenRow>, nr: nat, ni: nat, nt: nat, nv: nat,
                         dto: RecipeDto, now: Instant, res: Resolved)
    requires TablesValid(recipes, ingredients, types, reviews, tokens, nr, ni, nt, nv)
    requires FindRecipeBySlug(recipes, dto.slug).None?
    requires ResolveTypes(TypeTable(types, nt), dto.ingredients) == Ok(res)
    ensures TablesValid(recipes + [NewRecipeRow(nr, dto, now)],
                        ingredients + NewIngredients(ni, nr, dto.ingredients, res.typeIds),
                        res.table.types, reviews, tokens, nr + 1, ni + |dto.ingredients|, res.table.next, nv)
  {
    ResolveTypesLinks(TypeTable(types, nt), dto.ingredients);
    AppendFreshIngredients(ingredients, NewIngredients(ni, nr, dto.ingredients, res.typeIds), ni);
    AppendFreshRecipe(recipes, NewRecipeRow(nr, dto, now), nr);
  }

  lemma AppendFreshRecipe(recipes: seq<RecipeRow>, row: RecipeRow, next: nat)
    requires UniqueRecipeIds(recipes) && UniqueSlugs(recipes)
    requires forall x :: x in recipes ==> x.id < next
    requires row.id == next && forall x :: x in recipes ==> x.slug != row.slug
    ensures UniqueRecipeIds(recipes + [row]) && UniqueSlugs(recipes + [row])
    ensures forall x :: x in recipes + [row] ==> x.id < next + 1
  {
    var all := recipes + [row];
    forall i, j | 0 <= i < j < |all| ensures all[i].id != all[j].id && all[i].slug != all[j].slug {
      if j == |recipes| {
        assert all[i] in recipes;
      }
    }
  }

  // ---------------------------------------------------------------------------
  // updateRecipe

  /** The updated columns: an absent image URL or description leaves the old value. */
  function Updated(row: RecipeRow, dto: RecipeDto, now: Instant): (u: RecipeRow)
    ensures u.id == row.id && u.avgRating == row.avgRating && u.createdAt == row.createdAt
    ensures u.title == dto.title && u.slug == dto.slug && u.methodText == dto.methodText && u.updatedAt == now
    ensures u.imageUrl == (if dto.imageUrl.Some? then dto.imageUrl else row.imageUrl)
    ensures u.description == (if dto.description.Some? then dto.description else row.description)
  {
    row.(title := dto.title, slug := dto.slug,
         imageUrl := if dto.imageUrl.Some? then dto.imageUrl else row.imageUrl,
         description := if dto.description.Some? then dto.description else row.description,
         methodText := dto.methodText, updatedAt := now)
  }

  function WithUpdated(recipes: seq<RecipeRow>, id: int, dto: RecipeDto, now: Instant): (r: seq<RecipeRow>)
    ensures |r| == |recipes|
    ensures forall i :: 0 <= i < |recipes| ==>
              r[i] == if recipes[i].id == id then Updated(recipes[i], dto, now) else recipes[i]
  {
    seq(|recipes|, i requires 0 <= i < |recipes| =>
      if recipes[i].id == id then Updated(recipes[i], dto, now) else recipes[i])
  }

  function NotIngredientOf(recipeId: int): IngredientRow -> bool {
    (x: IngredientRow) => x.recipeId != recipeId
  }

  /** `ingredients: { deleteMany: {}, create: news }` */
  function ReplaceIngredients(xs: seq<IngredientRow>, recipeId: int, news: seq<IngredientRow>): (r: seq<IngredientRow>)
    requires forall k :: 0 <= k < |news| ==> news[k].recipeId == recipeId
    ensures forall x :: x in r && x.recipeId != recipeId <==> x in xs && x.recipeId != recipeId
    ensures forall x :: x in r && x.recipeId == recipeId <==> x in news
  {
    Filter(xs, NotIngredientOf(recipeId)) + news
  }

  /** Replacing twice leaves exactly the second list. */
  lemma ReplaceTwice(xs: seq<IngredientRow>, recipeId: int, a: seq<IngredientRow>, b: seq<IngredientRow>)
    requires forall k :: 0 <= k < |a| ==> a[k].recipeId == recipeId
    requires forall k :: 0 <= k < |b| ==> b[k].recipeId == recipeId
    ensures ReplaceIngredients(ReplaceIngredients(xs, recipeId, a), recipeId, b) == ReplaceIngredients(xs, recipeId, b)
  {
    var p := NotIngredientOf(recipeId);
    var kept := Filter(xs, p);
    assert ReplaceIngredients(xs, recipeId, a) == kept + a;
    FilterAppend(kept, a, p);
    FilterIdempotent(xs, p);
    FilterNone(a, p);
    assert Filter(kept + a, p) == kept;
  }

  /** In a table with unique slugs the row found for a slug is the only one with it. */
  lemma FindSlugUnique(recipes: seq<RecipeRow>, slug: string, x: RecipeRow)
    requires UniqueSlugs(recipes) && x in recipes && x.slug == slug
    ensures FindRecipeBySlug(recipes, slug) == Some(x)
  {
    var f := FindRecipeBySlug(recipes, slug).value;
    var i :| 0 <= i < |recipes| && recipes[i] == x;
    var j :| 0 <= j < |recipes| && recipes[j] == f;
    assert !(i < j) && !(j < i);
  }

  /** No slug of another recipe clashes with the new one. */
  predicate SlugFreeFor(recipes: seq<RecipeRow>, slug: string, id: int) {
    FindRecipeBySlug(recipes, slug).None? || FindRecipeBySlug(recipes, slug).value.id == id
  }

  lemma UpdatedKeepsKeys(recipes: seq<RecipeRow>, id: int, dto: RecipeDto, now: Instant, bound: nat)
    requires UniqueRecipeIds(recipes) && UniqueSlugs(recipes) && SlugFreeFor(recipes, dto.slug, id)
    requires forall x :: x in recipes ==> x.id < bound
    ensures UniqueRecipeIds(WithUpdated(recipes, id, dto, now)) && UniqueSlugs(WithUpdated(recipes, id, dto, now))
    ensures forall x :: x in WithUpdated(recipes, id, dto, now) ==> x.id < bound
  {
    var r := WithUpdated(recipes, id, dto, now);
    forall i, j | 0 <= i < j < |r| ensures r[i].slug != r[j].slug {
      if recipes[i].id == id && recipes[j].id != id {
        if recipes[j].slug == dto.slug { FindSlugUnique(recipes, dto.slug, recipes[j]); }
      } else if recipes[j].id == id && recipes[i].id != id {
        if recipes[i].slug == dto.slug { FindSlugUnique(recipes, dto.slug, recipes[i]); }
      }
    }
    forall x | x in r ensures x.id < bound {
      var i :| 0 <= i < |r| && r[i] == x;
      assert recipes[i] in recipes;
    }
  }

  lemma KeptIngredients(xs: seq<IngredientRow>, recipeId: int, bound: nat)
    requires UniqueIngredientIds(xs) && forall x :: x in xs ==> x.id < bound
    ensures UniqueIngredientIds(Filter(xs, NotIngredientOf(recipeId)))
    ensures forall x :: x in Filter(xs, NotIngredientOf(recipeId)) ==> x.id < bound
  {
    var key := (x: IngredientRow) => x.id;
    assert UniqueBy(xs, key);
    FilterUnique(xs, NotIngredientOf(recipeId), key);
  }

  /**
   * `updateRecipe(id, data)`: a missing recipe is "record not found", a slug
   * used by another recipe a unique-constraint failure, an entry that cannot
   * be linked fails too, and then nothing changes. Otherwise the columns are
   * overwritten, the recipe's ingredients are exactly the new ones, and the
   * recipe comes back with them and with its reviews.
   */
  method UpdateRecipe(db: Database, id: int, dto: RecipeDto, now: Instant) returns (r: Result<RecipeDetail, Failure>)
    requires db.Valid()
    modifies db
    ensures db.Valid()
    ensures r.Err? ==> unchanged(db)
    ensures r.Err? ==> r.error in {PrismaKnown(UniqueViolation), PrismaKnown(RecordNotFound), PrismaValidation}
    ensures FindRecipe(old(db.recipes), id).None? ==> r == Err(PrismaKnown(RecordNotFound))
    ensures FindRecipe(old(db.recipes), id).Some? && !SlugFreeFor(old(db.recipes), dto.slug, id) ==>
              r == Err(PrismaKnown(UniqueViolation))
    ensures r.Ok? <==>
              FindRecipe(old(db.recipes), id).Some? && SlugFreeFor(old(db.recipes), dto.slug, id)
              && ResolveTypes(TypeTable(old(db.types), old(db.nextTypeId)), dto.ingredients).Ok?
    ensures r.Ok? ==>
              var res := ResolveTypes(TypeTable(old(db.types), old(db.nextTypeId)), dto.ingredients).value;
              var news := NewIngredients(old(db.nextIngredientId), id, dto.ingredients, res.typeIds);
              id >= 0
              && db.recipes == WithUpdated(old(db.recipes), id, dto, now)
              && db.ingredients == ReplaceIngredients(old(db.ingredients), id, news)
              && (forall x :: x in db.ingredients && x.recipeId == id <==> x in news)
              && db.types == res.table.types && db.nextTypeId == res.table.next
              && db.nextIngredientId == old(db.nextIngredientId) + |dto.ingredients|
              && r.value == RecipeDetail(Updated(FindRecipe(old(db.recipes), id).value, dto, now), ViewsOf(news, db.types),
                                         Filter(db.reviews, Reviews.ForRecipe(id)))
    ensures db.reviews == old(db.reviews) && db.tokens == old(db.tokens)
    ensures db.nextRecipeId == old(db.nextRecipeId) && db.nextReviewId == old(db.nextReviewId)
  {
    var current := FindRecipe(db.recipes, id);
    if current.None? {
      return Err(PrismaKnown(RecordNotFound));
    }
    if !SlugFreeFor(db.recipes, dto.slug, id) {
      return Err(PrismaKnown(UniqueViolation));
    }
    var resolved := ResolveTypes(TypeTable(db.types, db.nextTypeId), dto.ingredients);
    if resolved.Err? {
      return Err(resolved.error);
    }
    var res := resolved.value;
    var rid: nat := current.value.id;
    assert rid == id;
    var news := NewIngredients(db.nextIngredientId, rid, dto.ingredients, res.typeIds);
    UpdateKeepsValid(db.recipes, db.ingredients, db.types, db.reviews, db.tokens,
                     db.nextRecipeId, db.nextIngredientId, db.nextTypeId, db.nextReviewId, rid, dto, now, res, news);
    db.CommitRecipeTables(WithUpdated(db.recipes, rid, dto, now), ReplaceIngredients(db.ingredients, rid, news),
                          res.table.types, db.nextRecipeId, db.nextIngredientId + |news|, res.table.next);
    r := Ok(RecipeDetail(Updated(current.value, dto, now), ViewsOf(news, db.types), Filter(db.reviews, Reviews.ForRecipe(id))));
  }

  lemma UpdateKeepsValid(recipes: seq<RecipeRow>, ingredients: seq<IngredientRow>, types: seq<IngredientType>,
                         reviews: seq<ReviewRow>, tokens: seq<QrTokenRow>, nr: nat, ni: nat, nt: nat, nv: nat,
                         id: int, dto: RecipeDto, now: Instant, res: Resolved, news: seq<IngredientRow>)
    requires TablesValid(recipes, ingredients, types, reviews, tokens, nr, ni, nt, nv)
    requires SlugFreeFor(recipes, dto.slug, id) && id >= 0
    requires ResolveTypes(TypeTable(types, nt), dto.ingredients) == Ok(res)
    requires news == NewIngredients(ni, id, dto.ingredients, res.typeIds)
    ensures TablesValid(WithUpdated(recipes, id, dto, now), ReplaceIngredients(ingredients, id, news),
                        res.table.types, reviews, tokens, nr, ni + |dto.ingredients|, res.table.next, nv)
  {
    ResolveTypesLinks(TypeTable(types, nt), dto.ingredients);
    UpdatedKeepsKeys(recipes, id, dto, now, nr);
    KeptIngredients(ingredients, id, ni);
    AppendFreshIngredients(Filter(ingredients, NotIngredientOf(id)), news, ni);
  }

  // ---------------------------------------------------------------------------
  // deleteRecipe

  function IsNotRecipe(id: int): RecipeRow -> bool {
    (x: RecipeRow) => x.id != id
  }

  function NotReviewOf(recipeId: int): ReviewRow -> bool {
    (x: ReviewRow) => x.recipeId != recipeId
  }

  /**
   * `deleteRecipe(id)`: a missing recipe is "record not found" and nothing
   * changes; otherwise the recipe goes, and its ingredients and reviews with
   * it (the relations cascade). QR tokens are not part of the cascade.
   */
  method DeleteRecipe(db: Database, id: int) returns (r: Result<RecipeRow, Failure>)
    requires db.Valid()
    modifies db
    ensures db.Valid()
    ensures FindRecipe(old(db.recipes), id).None? <==> r.Err?
    ensures r.Err? ==> r.error == PrismaKnown(RecordNotFound) && unchanged(db)
    ensures r.Ok? ==>
              r.value == FindRecipe(old(db.recipes), id).value
              && db.recipes == Filter(old(db.recipes), IsNotRecipe(id))
              && db.ingredients == Filter(old(db.ingredients), NotIngredientOf(id))
              && db.reviews == Filter(old(db.reviews), NotReviewOf(id))
              && FindRecipe(db.recipes, id).None?
              && (forall x :: x in db.recipes <==> x in old(db.recipes) && x.id != id)
    ensures db.types == old(db.types) && db.tokens == old(db.tokens)
    ensures db.nextRecipeId == old(db.nextRecipeId) && db.nextIngredientId == old(db.nextIngredientId)
    ensures db.nextTypeId == old(db.nextTypeId) && db.nextReviewId == old(db.nextReviewId)
  {
    var current := FindRecipe(db.recipes, id);
    if current.None? {
      return Err(PrismaKnown(RecordNotFound));
    }
    DeleteKeepsKeys(db.recipes, db.ingredients, db.reviews, id, db.nextRecipeId, db.nextIngredientId, db.nextReviewId);
    db.recipes := Filter(db.recipes, IsNotRecipe(id));
    db.ingredients := Filter(db.ingredients, NotIngredientOf(id));
    db.reviews := Filter(db.reviews, NotReviewOf(id));
    r := Ok(current.value);
  }

  lemma DeleteKeepsKeys(recipes: seq<RecipeRow>, ingredients: seq<IngredientRow>, reviews: seq<ReviewRow>, id: int,
                        nr: nat, ni: nat, nv: nat)
    requires UniqueRecipeIds(recipes) && UniqueSlugs(recipes) && UniqueIngredientIds(ingredients) && UniqueReviewIds(reviews)
    requires forall x :: x in recipes ==> x.id < nr
    requires forall x :: x in ingredients ==> x.id < ni
    requires forall x :: x in reviews ==> x.id < nv
    ensures UniqueRecipeIds(Filter(recipes, IsNotRecipe(id))) && UniqueSlugs(Filter(recipes, IsNotRecipe(id)))
    ensures UniqueIngredientIds(Filter(ingredients, NotIngredientOf(id)))
    ensures UniqueReviewIds(Filter(reviews, NotReviewOf(id)))
  {
    var byId := (x: RecipeRow) => x.id;
    var bySlug := (x: RecipeRow) => x.slug;
    assert UniqueBy(recipes, byId) && UniqueBy(recipes, bySlug);
    FilterUnique(recipes, IsNotRecipe(id), byId);
    FilterUnique(recipes, IsNotRecipe(id), bySlug);
    KeptIngredients(ingredients, id, ni);
    var reviewId := (x: ReviewRow) => x.id;
    assert UniqueBy(reviews, reviewId);
    FilterUnique(reviews, NotReviewOf(id), reviewId);
  }

  /** Once its recipe is deleted, a QR token for it no longer validates, although its row is still there. */
  lemma DeletedRecipeTokensInvalid(tokens: seq<QrTokenRow>, recipes: seq<RecipeRow>, id: int, token: string, now: Instant)
    requires FindToken(tokens, token).Some? && FindToken(tokens, token).value.recipeId == id
    ensures !QrService.ValidateQrToken(tokens, Filter(recipes, IsNotRecipe(id)), token, now).valid
  {
  }
}
