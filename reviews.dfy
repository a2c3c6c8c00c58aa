/**
 * Reviews: the schema of a signed-in user's review, listing a recipe's
 * reviews, and creating a review, which also refreshes the recipe's cached
 * average rating from all of its reviews.
 */
module Reviews {
  import opened Wrappers
  import opened Calendar
  import opened Text
  import opened Json
  import opened Sequences
  import opened Store

  // ---------------------------------------------------------------------------
  // CreateReviewInput

  datatype CreateReviewDto = CreateReviewDto(rating: int, comment: string)

  /** `z.number().int().min(1).max(5)` */
  function RatingCheck(j: Json): Result<int, Issues> {
    CheckInt(j, Some(1), Some(5), None, None)
  }

  /** `z.string().min(1)`, with no upper bound. */
  function CommentCheck(j: Json): Result<string, Issues> {
    CheckString(j, 1, None, None, None)
  }

  /**
   * `CreateReviewInput`: an integer rating in 1..5 and a non-empty comment.
   * The schema has no reviewer name; unknown keys are dropped.
   */
  function CreateReviewInput(body: Json): (r: Result<CreateReviewDto, Issues>)
    ensures r.Ok? <==>
              body.JObject? && "rating" in body.fields && "comment" in body.fields
              && body.fields["rating"].JNumber? && IsInteger(body.fields["rating"].n)
              && 1.0 <= body.fields["rating"].n <= 5.0
              && body.fields["comment"].JString? && |body.fields["comment"].s| >= 1
    ensures r.Ok? ==> r.value.rating as real == body.fields["rating"].n && r.value.comment == body.fields["comment"].s
    ensures r.Ok? ==> 1 <= r.value.rating <= 5
    ensures r.Err? ==> r.error != []
  {
    if !body.JObject? then Err([Issue([], InvalidType, None)])
    else
      var rating := Required(body.fields, "rating", RatingCheck);
      var comment := Required(body.fields, "comment", CommentCheck);
      if rating.Ok? && comment.Ok? then Ok(CreateReviewDto(rating.value, comment.value))
      else Err(IssuesOf(rating) + IssuesOf(comment))
  }

  /** The rating bounds are inclusive: 1 and 5 pass, 0, 6 and 4.5 do not. */
  lemma RatingBoundsInclusive(comment: string)
    requires |comment| >= 1
    ensures CreateReviewInput(JObject(map["rating" := JNumber(1.0), "comment" := JString(comment)])).Ok?
    ensures CreateReviewInput(JObject(map["rating" := JNumber(5.0), "comment" := JString(comment)])).Ok?
    ensures CreateReviewInput(JObject(map["rating" := JNumber(0.0), "comment" := JString(comment)])).Err?
    ensures CreateReviewInput(JObject(map["rating" := JNumber(6.0), "comment" := JString(comment)])).Err?
    ensures CreateReviewInput(JObject(map["rating" := JNumber(4.5), "comment" := JString(comment)])).Err?
  {
    assert IsInteger(1.0) && IsInteger(5.0);
    assert !IsInteger(4.5) by { assert (4.5).Floor == 4; }
  }

  // ---------------------------------------------------------------------------
  // Means of ratings

  function Sum(xs: seq<int>): int {
    if xs == [] then 0 else xs[0] + Sum(xs[1..])
  }

  /** The arithmetic mean of a non-empty list of ratings. */
  function Mean(xs: seq<int>): real
    requires |xs| > 0
  {
    Sum(xs) as real / |xs| as real
  }

  lemma {:induction false} SumAppend(a: seq<int>, b: seq<int>)
    ensures Sum(a + b) == Sum(a) + Sum(b)
  {
    if a == [] {
      assert a + b == b;
    } else {
      assert (a + b)[1..] == a[1..] + b;
      SumAppend(a[1..], b);
    }
  }

  /** Reordering ratings does not change their sum. */
  lemma {:induction false} SumPermutation(a: seq<int>, b: seq<int>)
    requires multiset(a) == multiset(b)
    ensures Sum(a) == Sum(b)
    decreases |a|
  {
    if a == [] {
      assert |multiset(b)| == 0;
    } else {
      var x := a[0];
      assert x in multiset(b);
      var k :| 0 <= k < |b| && b[k] == x;
      var rest := b[..k] + b[k + 1..];
      assert b == b[..k] + [x] + b[k + 1..];
      SumAppend(b[..k] + [x], b[k + 1..]);
      SumAppend(b[..k], [x]);
      SumAppend(b[..k], b[k + 1..]);
      assert a == [x] + a[1..];
      assert multiset(a) == multiset{x} + multiset(a[1..]);
      assert multiset(b) == multiset(b[..k]) + multiset{x} + multiset(b[k + 1..]);
      assert multiset(rest) == multiset(b[..k]) + multiset(b[k + 1..]);
      assert multiset(a[1..]) == multiset(a) - multiset{x};
      assert multiset(rest) == multiset(b) - multiset{x};
      SumPermutation(a[1..], rest);
    }
  }

  /** The mean does not depend on the order of the ratings. */
  lemma MeanPermutation(a: seq<int>, b: seq<int>)
    requires |a| > 0 && multiset(a) == multiset(b)
    ensures |b| > 0 && Mean(a) == Mean(b)
  {
    assert |a| == |multiset(a)| == |multiset(b)| == |b|;
    SumPermutation(a, b);
  }

  lemma {:induction false} SumBounds(xs: seq<int>)
    requires forall i :: 0 <= i < |xs| ==> 1 <= xs[i] <= 5
    ensures |xs| <= Sum(xs) <= 5 * |xs|
  {
    if xs != [] {
      SumBounds(xs[1..]);
    }
  }

  /** The mean of ratings in 1..5 is in [1, 5]. */
  lemma MeanBounds(xs: seq<int>)
    requires |xs| > 0
    requires forall i :: 0 <= i < |xs| ==> 1 <= xs[i] <= 5
    ensures 1.0 <= Mean(xs) <= 5.0
  {
    SumBounds(xs);
    QuotientBounds(Sum(xs) as real, |xs| as real);
  }

  lemma QuotientBounds(s: real, n: real)
    requires n > 0.0 && n <= s <= 5.0 * n
    ensures 1.0 <= s / n <= 5.0
  {
    var m := s / n;
    assert m * n == s;
    assert (m - 1.0) * n == s - n;
    assert (5.0 - m) * n == 5.0 * n - s;
  }

  // ---------------------------------------------------------------------------
  // The review table

  /** The ratings of a recipe's reviews, in table order. */
  function RatingsOf(reviews: seq<ReviewRow>, recipeId: int): seq<int> {
    if reviews == [] then []
    else (if reviews[0].recipeId == recipeId then [reviews[0].rating] else []) + RatingsOf(reviews[1..], recipeId)
  }

  lemma {:induction false} RatingsOfAppend(reviews: seq<ReviewRow>, x: ReviewRow, recipeId: int)
    ensures RatingsOf(reviews + [x], recipeId) ==
              RatingsOf(reviews, recipeId) + (if x.recipeId == recipeId then [x.rating] else [])
  {
    var own := if x.recipeId == recipeId then [x.rating] else [];
    if reviews == [] {
      assert [x][1..] == [];
      assert RatingsOf([x], recipeId) == own + RatingsOf([], recipeId);
    } else {
      var head := if reviews[0].recipeId == recipeId then [reviews[0].rating] else [];
      assert (reviews + [x])[1..] == reviews[1..] + [x];
      assert RatingsOf(reviews + [x], recipeId) == head + RatingsOf(reviews[1..] + [x], recipeId);
      RatingsOfAppend(reviews[1..], x, recipeId);
      assert RatingsOf(reviews, recipeId) == head + RatingsOf(reviews[1..], recipeId);
    }
  }

  /**
   * `_avg.rating ?? 0`: the mean of the recipe's ratings (their sum over
   * their count), 0 when it has none.
   */
  function AvgRating(reviews: seq<ReviewRow>, recipeId: int): (avg: real)
    ensures RatingsOf(reviews, recipeId) == [] ==> avg == 0.0
    ensures RatingsOf(reviews, recipeId) != [] ==>
              avg * |RatingsOf(reviews, recipeId)| as real == Sum(RatingsOf(reviews, recipeId)) as real
  {
    var ratings := RatingsOf(reviews, recipeId);
    if ratings == [] then 0.0 else Mean(ratings)
  }

  /** The recipe table after `recipe.update({ where: { id }, data: { avgRating } })`. */
  function WithAvgRating(recipes: seq<RecipeRow>, id: int, avg: real): (r: seq<RecipeRow>)
    ensures |r| == |recipes|
  {
    seq(|recipes|, i requires 0 <= i < |recipes| =>
      if recipes[i].id == id then recipes[i].(avgRating := Some(avg)) else recipes[i])
  }

  /** Only the target recipe changes, and only in its average rating. */
  lemma WithAvgRatingOnlyTarget(recipes: seq<RecipeRow>, id: int, avg: real)
    ensures forall i :: 0 <= i < |recipes| && recipes[i].id != id ==> WithAvgRating(recipes, id, avg)[i] == recipes[i]
    ensures forall i :: 0 <= i < |recipes| && recipes[i].id == id ==>
              WithAvgRating(recipes, id, avg)[i] == recipes[i].(avgRating := Some(avg))
  {
  }

  /** Updating averages keeps every id and slug, so the table's constraints still hold. */
  lemma WithAvgRatingKeepsKeys(recipes: seq<RecipeRow>, id: int, avg: real, bound: nat)
    ensures UniqueRecipeIds(recipes) ==> UniqueRecipeIds(WithAvgRating(recipes, id, avg))
    ensures UniqueSlugs(recipes) ==> UniqueSlugs(WithAvgRating(recipes, id, avg))
    ensures (forall x :: x in recipes ==> x.id < bound) ==> (forall x :: x in WithAvgRating(recipes, id, avg) ==> x.id < bound)
  {
    var r := WithAvgRating(recipes, id, avg);
    assert forall i :: 0 <= i < |r| ==> r[i].id == recipes[i].id && r[i].slug == recipes[i].slug;
    if forall x :: x in recipes ==> x.id < bound {
      forall x | x in r ensures x.id < bound {
        var i :| 0 <= i < |r| && r[i] == x;
        assert recipes[i] in recipes;
      }
    }
  }

  /** Updating an average neither adds nor removes a recipe. */
  lemma {:induction false} FindRecipeAfterAvg(recipes: seq<RecipeRow>, recipeId: int, avg: real, id: int)
    ensures FindRecipe(WithAvgRating(recipes, recipeId, avg), id).Some? <==> FindRecipe(recipes, id).Some?
  {
    var r := WithAvgRating(recipes, recipeId, avg);
    if recipes != [] {
      FindRecipeAfterAvg(recipes[1..], recipeId, avg, id);
      assert r[1..] == WithAvgRating(recipes[1..], recipeId, avg);
    }
  }

  /** `createReview`'s new row. */
  function NewReview(id: nat, recipeId: nat, userId: Option<int>, rating: int, comment: string, name: Option<string>,
                     now: Instant): ReviewRow {
    ReviewRow(id, rating, comment, name, recipeId, userId, now)
  }

  /**
   * `createReview`: stores one review (an absent user id or name stays absent),
   * then sets the recipe's average to the mean over all its reviews. A recipe
   * that does not exist is a foreign-key failure and nothing changes.
   */
  method CreateReview(db: Database, recipeId: int, userId: Option<int>, rating: int, comment: string,
                      name: Option<string>, now: Instant) returns (r: Result<ReviewRow, Failure>)
    requires db.Valid()
    modifies db
    ensures db.Valid()
    ensures FindRecipe(old(db.recipes), recipeId).None? ==> r == Err(PrismaKnown(ForeignKeyViolation)) && unchanged(db)
    ensures FindRecipe(old(db.recipes), recipeId).Some? ==>
              r.Ok? && recipeId >= 0
              && r.value == NewReview(old(db.nextReviewId), recipeId, userId, rating, comment, name, now)
              && db.reviews == old(db.reviews) + [r.value]
              && db.recipes == WithAvgRating(old(db.recipes), recipeId, AvgRating(db.reviews, recipeId))
              && AvgRating(db.reviews, recipeId) == Mean(RatingsOf(old(db.reviews), recipeId) + [rating])
              && db.nextReviewId == old(db.nextReviewId) + 1
    ensures db.ingredients == old(db.ingredients) && db.types == old(db.types) && db.tokens == old(db.tokens)
    ensures db.nextRecipeId == old(db.nextRecipeId) && db.nextIngredientId == old(db.nextIngredientId)
    ensures db.nextTypeId == old(db.nextTypeId)
  {
    var recipe := FindRecipe(db.recipes, recipeId);
    if recipe.None? {
      return Err(PrismaKnown(ForeignKeyViolation));
    }
    var row := NewReview(db.nextReviewId, recipe.value.id, userId, rating, comment, name, now);
    ghost var before := db.reviews;
    db.reviews := db.reviews + [row];
    db.nextReviewId := db.nextReviewId + 1;
    RatingsOfAppend(before, row, recipeId);
    var avg := AvgRating(db.reviews, recipeId);
    ghost var oldRecipes := db.recipes;
    db.recipes := WithAvgRating(db.recipes, recipeId, avg);
    WithAvgRatingKeepsKeys(oldRecipes, recipeId, avg, db.nextRecipeId);
    r := Ok(row);
  }

  /**
   * The average a recipe ends up with does not depend on the order in which
   * its reviews were inserted.
   */
  lemma AvgRatingOrderIndependent(a: seq<ReviewRow>, b: seq<ReviewRow>, recipeId: int)
    requires multiset(RatingsOf(a, recipeId)) == multiset(RatingsOf(b, recipeId))
    ensures AvgRating(a, recipeId) == AvgRating(b, recipeId)
  {
    if RatingsOf(a, recipeId) != [] {
      MeanPermutation(RatingsOf(a, recipeId), RatingsOf(b, recipeId));
    } else {
      assert |multiset(RatingsOf(b, recipeId))| == 0;
    }
  }

  /** Two reviews inserted in either order give the same average. */
  lemma TwoInsertionOrders(reviews: seq<ReviewRow>, x: ReviewRow, y: ReviewRow, recipeId: int)
    ensures AvgRating(reviews + [x] + [y], recipeId) == AvgRating(reviews + [y] + [x], recipeId)
  {
    RatingsOfAppend(reviews, x, recipeId);
    RatingsOfAppend(reviews + [x], y, recipeId);
    RatingsOfAppend(reviews, y, recipeId);
    RatingsOfAppend(reviews + [y], x, recipeId);
    AvgRatingOrderIndependent(reviews + [x] + [y], reviews + [y] + [x], recipeId);
  }

  /** When every stored rating is in 1..5, so is the cached average of a reviewed recipe. */
  lemma {:induction false} AvgRatingBounds(reviews: seq<ReviewRow>, recipeId: int)
    requires forall i :: 0 <= i < |reviews| ==> 1 <= reviews[i].rating <= 5
    requires RatingsOf(reviews, recipeId) != []
    ensures 1.0 <= AvgRating(reviews, recipeId) <= 5.0
  {
    RatingsInRange(reviews, recipeId);
    MeanBounds(RatingsOf(reviews, recipeId));
  }

  lemma {:induction false} RatingsInRange(reviews: seq<ReviewRow>, recipeId: int)
    requires forall i :: 0 <= i < |reviews| ==> 1 <= reviews[i].rating <= 5
    ensures forall i :: 0 <= i < |RatingsOf(reviews, recipeId)| ==> 1 <= RatingsOf(reviews, recipeId)[i] <= 5
  {
    if reviews != [] {
      RatingsInRange(reviews[1..], recipeId);
    }
  }

  // ---------------------------------------------------------------------------
  // listReviews

  function ForRecipe(recipeId: int): ReviewRow -> bool {
    (x: ReviewRow) => x.recipeId == recipeId
  }

  function ReviewKey(x: ReviewRow): int {
    Rank(x.createdAt)
  }

  /** `listReviews`: exactly the recipe's reviews, newest first. */
  function ListReviews(reviews: seq<ReviewRow>, recipeId: int): (r: seq<ReviewRow>)
    ensures multiset(r) == multiset(Filter(reviews, ForRecipe(recipeId)))
    ensures forall x :: x in r <==> x in reviews && x.recipeId == recipeId
    ensures forall i, j :: 0 <= i < j < |r| ==> !Earlier(r[i].createdAt, r[j].createdAt)
  {
    var mine := Filter(reviews, ForRecipe(recipeId));
    var r := SortDesc(mine, ReviewKey);
    SortDescSorted(mine, ReviewKey);
    SortDescElements(mine, ReviewKey);
    forall i, j | 0 <= i < j < |r| ensures !Earlier(r[i].createdAt, r[j].createdAt) {
      RankOrder(r[i].createdAt, r[j].createdAt);
    }
    r
  }
}
