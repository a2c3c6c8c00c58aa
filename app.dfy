/**
 * The client's top-level state: which page is shown, whether the user is
 * the admin, and the recipe list, with the handlers that change them. Each
 * asynchronous request is modelled by its outcome, given as a parameter;
 * `uid()` is random, so fresh ids are a parameter too.
 */
module AppState {
  import opened Wrappers
  import opened ClientTypes

  /** The in-file router's `Page`. */
  datatype Page = Login | Home | Create | Detail(id: int) | Edit(id: int)

  /** A row of the edit form's submission: the row id the form kept, trimmed name and amount. */
  datatype EditedRow = EditedRow(id: Option<string>, name: string, amount: string)

  /** What the edit form submits. */
  datatype EditData = EditData(
    title: string,
    imageUrl: Option<string>,
    description: Option<string>,
    methodText: string,
    ingredients: seq<EditedRow>)

  /** `(i as any).id || uid()`: an absent or empty id is replaced by a fresh one. */
  function KeptId(row: EditedRow, freshId: string): (id: string)
    ensures row.id.Some? && row.id.value != "" ==> id == row.id.value
    ensures row.id.None? || row.id.value == "" ==> id == freshId
  {
    if row.id.Some? && row.id.value != "" then row.id.value else freshId
  }

  /**
   * The ingredients an edit stores: in order, with the row's id or a fresh
   * one, the row's name and amount, the recipe's id, and no type (the form
   * sends none, so `?? undefined` leaves both absent).
   */
  function EditedIngredients(rows: seq<EditedRow>, recipeId: int, uid: nat -> string): (ings: seq<ServerIngredient>)
    ensures |ings| == |rows|
    ensures forall i :: 0 <= i < |rows| ==>
      && ings[i].id == StrId(KeptId(rows[i], uid(i)))
      && ings[i].name == rows[i].name && ings[i].amount == rows[i].amount
      && ings[i].recipeId == recipeId
      && ings[i].typeId.None? && ings[i].typ.None?
  {
    seq(|rows|, i requires 0 <= i < |rows| =>
      ServerIngredient(StrId(KeptId(rows[i], uid(i))), rows[i].name, rows[i].amount, recipeId, None, None))
  }

  /** `{ ...r, title, imageUrl, description, method, ingredients }` */
  function ApplyEdit(r: Recipe, data: EditData, uid: nat -> string): (e: Recipe)
    ensures e.id == r.id && e.slug == r.slug && e.reviews == r.reviews && e.avgRating == r.avgRating
    ensures e.title == data.title && e.imageUrl == data.imageUrl && e.description == data.description
    ensures e.methodText == data.methodText
    ensures e.ingredients == EditedIngredients(data.ingredients, r.id, uid)
  {
    r.(title := data.title, imageUrl := data.imageUrl, description := data.description,
       methodText := data.methodText, ingredients := EditedIngredients(data.ingredients, r.id, uid))
  }

  /** `prev.map(r => r.id === id ? edited : r)` */
  function EditRecipes(recipes: seq<Recipe>, id: int, data: EditData, uid: nat -> string): (r: seq<Recipe>)
    ensures |r| == |recipes|
    ensures forall i :: 0 <= i < |recipes| ==> r[i].id == recipes[i].id
    ensures forall i :: 0 <= i < |recipes| && recipes[i].id != id ==> r[i] == recipes[i]
    ensures forall i :: 0 <= i < |recipes| && recipes[i].id == id ==> r[i] == ApplyEdit(recipes[i], data, uid)
  {
    seq(|recipes|, i requires 0 <= i < |recipes| =>
      if recipes[i].id == id then ApplyEdit(recipes[i], data, uid) else recipes[i])
  }

  /** `recipes.find(r => r.id === id)`: the first recipe with that id. */
  function FindById(recipes: seq<Recipe>, id: int): (found: Option<Recipe>)
    ensures found.None? <==> forall i :: 0 <= i < |recipes| ==> recipes[i].id != id
    ensures found.Some? ==> exists k :: 0 <= k < |recipes| && recipes[k] == found.value && recipes[k].id == id
                                        && forall j :: 0 <= j < k ==> recipes[j].id != id
  {
    if recipes == [] then None
    else if recipes[0].id == id then Some(recipes[0])
    else
      var rest := FindById(recipes[1..], id);
      assert forall i :: 1 <= i < |recipes| ==> recipes[1..][i - 1] == recipes[i];
      rest
  }

  /**
   * After an edit of recipe `id`, looking up `id` finds the edited version of
   * what was found before, and looking up any other id finds the same recipe.
   */
  lemma {:induction false} FindAfterEdit(recipes: seq<Recipe>, id: int, data: EditData, uid: nat -> string, k: int)
    ensures k == id ==> FindById(EditRecipes(recipes, id, data, uid), k)
                        == (if FindById(recipes, k).Some? then Some(ApplyEdit(FindById(recipes, k).value, data, uid)) else None)
    ensures k != id ==> FindById(EditRecipes(recipes, id, data, uid), k) == FindById(recipes, k)
    decreases |recipes|
  {
    if recipes != [] {
      var e := EditRecipes(recipes, id, data, uid);
      assert e[1..] == EditRecipes(recipes[1..], id, data, uid);
      FindAfterEdit(recipes[1..], id, data, uid, k);
    }
  }

  /** A created recipe is at the front, so its id now finds it. */
  lemma CreatedIsFound(created: Recipe, recipes: seq<Recipe>)
    ensures FindById([created] + recipes, created.id) == Some(created)
  {
  }

  class App {
    var isAdmin: bool
    var page: Page
    var recipes: seq<Recipe>
    var loading: bool
    var error: Option<string>

    /** The first render: the login page, no admin, no recipes, not loading, no error. */
    constructor()
      ensures !isAdmin && page == Login && recipes == [] && !loading && error.None?
    {
      isAdmin, page, recipes, loading, error := false, Login, [], false, None;
    }

    /** `goHome` */
    method GoHome()
      modifies this
      ensures page == Home
      ensures isAdmin == old(isAdmin) && recipes == old(recipes) && loading == old(loading) && error == old(error)
    {
      page := Home;
    }

    /** `goCreate` */
    method GoCreate()
      modifies this
      ensures page == Create
      ensures isAdmin == old(isAdmin) && recipes == old(recipes) && loading == old(loading) && error == old(error)
    {
      page := Create;
    }

    /** `goDetail(id)` */
    method GoDetail(id: int)
      modifies this
      ensures page == Detail(id)
      ensures isAdmin == old(isAdmin) && recipes == old(recipes) && loading == old(loading) && error == old(error)
    {
      page := Detail(id);
    }

    /** `goEdit(id)` */
    method GoEdit(id: int)
      modifies this
      ensures page == Edit(id)
      ensures isAdmin == old(isAdmin) && recipes == old(recipes) && loading == old(loading) && error == old(error)
    {
      page := Edit(id);
    }

    /** `handleLogin(pwd)`: only the exact password "admin" logs in; anything else only raises an alert. */
    method HandleLogin(pwd: string) returns (alerted: bool)
      modifies this
      ensures alerted <==> pwd != "admin"
      ensures pwd == "admin" ==> isAdmin && page == Home
      ensures pwd != "admin" ==> isAdmin == old(isAdmin) && page == old(page)
      ensures recipes == old(recipes) && loading == old(loading) && error == old(error)
    {
      if pwd == "admin" {
        isAdmin := true;
        GoHome();
        alerted := false;
      } else {
        alerted := true;
      }
    }

    /**
     * The fetch effect, run whenever the page or the search text changes:
     * it loads only on the home page, and ends with loading off and either
     * the fetched items or the error message.
     */
    method LoadRecipes(outcome: Result<seq<Recipe>, Thrown>)
      modifies this
      ensures old(page) != Home ==> recipes == old(recipes) && loading == old(loading) && error == old(error)
      ensures old(page) == Home ==> !loading
      ensures old(page) == Home && outcome.Ok? ==> recipes == outcome.value && error.None?
      ensures old(page) == Home && outcome.Err? ==>
        recipes == old(recipes) && error == Some(ErrorText(outcome.error, "Failed to load recipes"))
      ensures page == old(page) && isAdmin == old(isAdmin)
    {
      if page == Home {
        loading := true;
        error := None;
        match outcome {
          case Ok(items) => recipes := items;
          case Err(t) => error := Some(ErrorText(t, "Failed to load recipes"));
        }
        loading := false;
      }
    }

    /** The create form's `onSubmit`: a created recipe goes to the front of the list and the app goes home. */
    method SubmitCreate(outcome: Result<Recipe, Thrown>)
      modifies this
      ensures !loading
      ensures outcome.Ok? ==> recipes == [outcome.value] + old(recipes) && page == Home && error == old(error)
      ensures outcome.Err? ==> recipes == old(recipes) && page == old(page)
                               && error == Some(ErrorText(outcome.error, "Failed to create recipe"))
      ensures isAdmin == old(isAdmin)
    {
      loading := true;
      match outcome {
        case Ok(created) =>
          recipes := [created] + recipes;
          GoHome();
        case Err(t) =>
          error := Some(ErrorText(t, "Failed to create recipe"));
      }
      loading := false;
    }

    /** The edit form's `onSubmit` (the form exists only on an edit page): replace that recipe, then show it. */
    method SubmitEdit(data: EditData, uid: nat -> string)
      requires page.Edit?
      modifies this
      ensures recipes == EditRecipes(old(recipes), old(page).id, data, uid)
      ensures page == Detail(old(page).id)
      ensures isAdmin == old(isAdmin) && loading == old(loading) && error == old(error)
    {
      var id := page.id;
      recipes := EditRecipes(recipes, id, data, uid);
      GoDetail(id);
    }

    /**
     * The recipe the detail page shows (`find(...)!`). None is where the
     * source's `find` gives `undefined` and the detail view throws when it
     * reads `recipe.imageUrl`; it does not arise from the app's own
     * navigation, where every route to a detail page starts from a listed id.
     */
    function DetailRecipe(): (shown: Option<Recipe>)
      reads this
      requires page.Detail?
      ensures shown.Some? ==> shown.value in recipes && shown.value.id == page.id
      ensures shown.None? <==> forall i :: 0 <= i < |recipes| ==> recipes[i].id != page.id
    {
      FindById(recipes, page.id)
    }
  }
}
