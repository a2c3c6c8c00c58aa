/**
 * The recipe page: the ingredient labels with every word capitalised, the
 * average-rating and author fallbacks, the five-star strip of a review, and
 * when the admin buttons appear and the delete callback runs.
 */
module RecipeDetailView {
  import opened Wrappers
  import opened Text
  import opened ClientTypes

  // ---------------------------------------------------------------------------
  // `.replace(/\b\w/g, l => l.toUpperCase())`

  /**
   * Position i starts a word: a word character (`\w`) with no word character
   * before it, where `prevWord` tells whether the text before `s` ended in one.
   */
  predicate StartsWordAfter(prevWord: bool, s: string, i: nat)
    requires i < |s|
  {
    IsWordChar(s[i]) && (if i == 0 then !prevWord else !IsWordChar(s[i - 1]))
  }

  /** `\b\w` matches at position i of the whole string. */
  predicate WordStart(s: string, i: nat)
    requires i < |s|
  {
    StartsWordAfter(false, s, i)
  }

  /**
   * The global replace as a left-to-right scan: each match is upper-cased and
   * the scan goes on after it.
   */
  function UpperWordStarts(s: string, prevWord: bool): (r: string)
    ensures |r| == |s|
    decreases |s|
  {
    if s == [] then []
    else
      var c := if IsWordChar(s[0]) && !prevWord then UpperChar(s[0]) else s[0];
      [c] + UpperWordStarts(s[1..], IsWordChar(s[0]))
  }

  /**
   * The capitalised label upper-cases exactly the characters that start a
   * word and leaves every other character as it is.
   */
  function CapitalizeWords(s: string): (r: string)
    ensures |r| == |s|
    ensures forall i :: 0 <= i < |s| ==> r[i] == if WordStart(s, i) then UpperChar(s[i]) else s[i]
  {
    UpperWordStartsAt(s, false);
    UpperWordStarts(s, false)
  }

  lemma {:induction false} UpperWordStartsAt(s: string, prevWord: bool)
    ensures forall i :: 0 <= i < |s| ==>
      UpperWordStarts(s, prevWord)[i] == if StartsWordAfter(prevWord, s, i) then UpperChar(s[i]) else s[i]
    decreases |s|
  {
    if s != [] {
      var t := s[1..];
      UpperWordStartsAt(t, IsWordChar(s[0]));
      forall i | 1 <= i < |s|
        ensures StartsWordAfter(prevWord, s, i) == StartsWordAfter(IsWordChar(s[0]), t, i - 1)
      {
        assert s[i] == t[i - 1];
        if i > 1 {
          assert s[i - 1] == t[i - 2];
        }
      }
    }
  }

  /** Capitalising twice is capitalising once. */
  lemma CapitalizeIdempotent(s: string)
    ensures CapitalizeWords(CapitalizeWords(s)) == CapitalizeWords(s)
  {
    var r := CapitalizeWords(s);
    assert forall i :: 0 <= i < |s| ==> (IsWordChar(r[i]) <==> IsWordChar(s[i]));
    assert forall i :: 0 <= i < |s| ==> (WordStart(r, i) <==> WordStart(s, i));
  }

  /** Only the case of letters changes: the label lower-cases to the same text as the name. */
  lemma CapitalizeOnlyChangesCase(s: string)
    ensures Lower(CapitalizeWords(s)) == Lower(s)
  {
  }

  // ---------------------------------------------------------------------------
  // Fallbacks

  /** `(ing.type?.name || ing.name)`, capitalised: the type's name unless it is missing or empty. */
  function IngredientLabel(ing: ServerIngredient): (shownName: string)
    ensures ing.typ.Some? && ing.typ.value.name != "" ==> shownName == CapitalizeWords(ing.typ.value.name)
    ensures !(ing.typ.Some? && ing.typ.value.name != "") ==> shownName == CapitalizeWords(ing.name)
  {
    var shown := if ing.typ.Some? && ing.typ.value.name != "" then ing.typ.value.name else ing.name;
    CapitalizeWords(shown)
  }

  datatype RatingText = Dash | OneDecimal(value: real)

  /** `recipe.avgRating ? avgRating.toFixed(1) : "—"` */
  function RatingDisplay(avg: Option<real>): (t: RatingText)
    ensures t == Dash <==> avg.None? || avg.value == 0.0
    ensures t.OneDecimal? ==> t.value == avg.value
  {
    if avg.Some? && avg.value != 0.0 then OneDecimal(avg.value) else Dash
  }

  /** `review.name || 'Anonymous'` */
  function AuthorName(name: Option<string>): (shown: string)
    ensures name.None? || name.value == "" ==> shown == "Anonymous"
    ensures name.Some? && name.value != "" ==> shown == name.value
    ensures shown != ""
  {
    if name.Some? && name.value != "" then name.value else "Anonymous"
  }

  /**
   * The five stars of a review: star i + 1 is highlighted iff
   * i + 1 <= rating, so as many are lit as the rating clamped to 0..5.
   */
  function ReviewStars(review: Review): (lit: seq<bool>)
    ensures |lit| == 5
    ensures forall i :: 0 <= i < 5 ==> (lit[i] <==> i + 1 <= review.rating)
    ensures CountLit(lit) == if review.rating < 0 then 0 else if review.rating > 5 then 5 else review.rating
  {
    LitStarsPrefix(review.rating);
    LitStars(review.rating)
  }

  /** `recipe.reviews && recipe.reviews.length > 0` */
  function ReviewsPanelShown(reviews: Option<seq<Review>>): (shown: bool)
    ensures shown <==> reviews.Some? && |reviews.value| > 0
  {
    reviews.Some? && |reviews.value| > 0
  }

  // ---------------------------------------------------------------------------
  // Admin buttons and deletion

  datatype Buttons = Buttons(edit: bool, delete: bool)

  /** Edit appears for an admin; Delete for an admin when a delete callback was passed. */
  function AdminButtons(isAdmin: bool, hasOnDelete: bool): (b: Buttons)
    ensures b.edit <==> isAdmin
    ensures b.delete <==> isAdmin && hasOnDelete
    ensures b.delete ==> b.edit
  {
    if isAdmin then Buttons(true, hasOnDelete) else Buttons(false, false)
  }

  function ConfirmMessage(title: string): string {
    "Are you sure you want to delete \"" + title + "\"? This action cannot be undone."
  }

  /** Each title gets its own question. */
  lemma ConfirmMessageInjective(t1: string, t2: string)
    requires ConfirmMessage(t1) == ConfirmMessage(t2)
    ensures t1 == t2
  {
    var pre := "Are you sure you want to delete \"";
    var post := "\"? This action cannot be undone.";
    assert ConfirmMessage(t1) == pre + t1 + post;
    assert ConfirmMessage(t2) == pre + t2 + post;
    assert |t1| == |t2|;
    assert t1 == ConfirmMessage(t1)[|pre|..|pre| + |t1|];
    assert t2 == ConfirmMessage(t2)[|pre|..|pre| + |t2|];
  }

  /**
   * Clicking Delete: the callback runs only when the button is there and the
   * user accepts the question naming the recipe (`confirm` is the browser's
   * answer to a question).
   */
  function DeleteRuns(isAdmin: bool, hasOnDelete: bool, confirm: string -> bool, title: string): (runs: bool)
    ensures runs <==> AdminButtons(isAdmin, hasOnDelete).delete && confirm(ConfirmMessage(title))
  {
    if AdminButtons(isAdmin, hasOnDelete).delete then confirm(ConfirmMessage(title)) else false
  }

  /** A user who is not an admin never deletes, whatever they answer. */
  lemma NonAdminNeverDeletes(hasOnDelete: bool, confirm: string -> bool, title: string)
    ensures !DeleteRuns(false, hasOnDelete, confirm, title)
  {
  }
}
