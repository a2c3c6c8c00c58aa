/**
 * The guest review form a QR code opens: its state, the checks made before
 * anything is sent, the request it sends and how the reply ends up in the
 * state, the rating words, and which stars are lit. The network reply is a
 * parameter.
 */
module ReviewPageView {
  import opened Wrappers
  import opened Text
  import opened Json
  import opened ClientTypes
  import AnonymousReviews

  const ApiOrigin := "http://localhost:4000"

  /** `handleInputChange(field, value)` for each field of the form. */
  datatype Change = SetName(name: string) | SetRating(rating: int) | SetComment(comment: string)

  datatype ReviewBody = ReviewBody(name: string, rating: int, comment: string)

  /** The POST the form sends: its URL without the query, the `token` query parameter if any, and the JSON body. */
  datatype ReviewRequest = ReviewRequest(url: string, tokenParam: Option<string>, body: ReviewBody)

  /**
   * How the request ended: an ok response; a response that is not ok, with
   * the `error` field of its JSON body if it has a non-empty one; or a thrown
   * value (a network failure, or a body that is not JSON).
   */
  datatype Reply = Accepted | Rejected(errorField: Option<string>) | Failed(thrown: Thrown)

  function ReviewsUrl(recipeId: int): string {
    ApiOrigin + "/recipes/" + IntToString(recipeId) + "/anonymous-reviews"
  }

  /**
   * The request for the form, given its name and comment already trimmed:
   * the rating as chosen, the token only when it is truthy.
   */
  function Request(recipeId: int, token: Option<string>, name: string, rating: int, comment: string): (req: ReviewRequest)
    ensures req.url == ReviewsUrl(recipeId)
    ensures req.tokenParam.Some? <==> token.Some? && token.value != ""
    ensures req.tokenParam.Some? ==> req.tokenParam == token
    ensures req.body == ReviewBody(name, rating, comment)
  {
    ReviewRequest(ReviewsUrl(recipeId), if token.Some? && token.value != "" then token else None,
                  ReviewBody(name, rating, comment))
  }

  /** The message shown after a failed request. */
  function FailureMessage(reply: Reply): (m: string)
    requires !reply.Accepted?
    ensures reply.Rejected? && reply.errorField.Some? && reply.errorField.value != "" ==> m == reply.errorField.value
    ensures reply.Rejected? && (reply.errorField.None? || reply.errorField.value == "") ==> m == "Failed to submit review"
    ensures reply.Failed? ==> m == ErrorText(reply.thrown, "Failed to submit review")
  {
    match reply
    case Rejected(field) =>
      ErrorText(ErrorObject(if field.Some? && field.value != "" then field.value else "Failed to submit review"),
                "Failed to submit review")
    case Failed(t) => ErrorText(t, "Failed to submit review")
  }

  /** `getRatingText`: a word for each of 1..5 and "" for anything else. */
  function RatingText(rating: int): (t: string)
    ensures t == "" <==> !(1 <= rating <= 5)
  {
    match rating
    case 1 => "Poor"
    case 2 => "Fair"
    case 3 => "Good"
    case 4 => "Very Good"
    case 5 => "Excellent"
    case _ => ""
  }

  /** The five ratings have five different words, rising from "Poor" to "Excellent". */
  lemma RatingTextsDistinct(a: int, b: int)
    requires 1 <= a <= 5 && 1 <= b <= 5 && a != b
    ensures RatingText(a) != RatingText(b)
    ensures RatingText(1) == "Poor" && RatingText(5) == "Excellent"
  {
  }

  /** `hoveredStar || formData.rating`: the hovered star wins unless it is absent (or 0). */
  function ShownLevel(hoveredStar: Option<int>, rating: int): int {
    if hoveredStar.Some? && hoveredStar.value != 0 then hoveredStar.value else rating
  }

  const NameMissing := "Please enter your name"
  const CommentMissing := "Please write a comment"

  /** The part of the page's state `handleSubmit` changes, and the request it sent. */
  datatype Submission = Submission(sent: Option<ReviewRequest>, error: Option<string>, submitted: bool, isSubmitting: bool)

  /**
   * The outcome of `handleSubmit` for the trimmed name and comment of the
   * form, its rating, and the state before it: a blank name, then a blank
   * comment, stops with a message and sends nothing; otherwise the request
   * with those fields is sent, `isSubmitting` is off again, the page is
   * submitted if the reply was ok, and otherwise shows the failure message.
   */
  function SubmitOutcome(recipeId: int, token: Option<string>, reply: Reply, name: string, rating: int, comment: string,
                         before: Submission): (o: Submission)
    ensures name == "" ==> o == before.(sent := None, error := Some(NameMissing))
    ensures name != "" && comment == "" ==> o == before.(sent := None, error := Some(CommentMissing))
    ensures o.sent.Some? <==> name != "" && comment != ""
    ensures o.sent.Some? ==> o.sent.value == Request(recipeId, token, name, rating, comment) && !o.isSubmitting
    ensures o.sent.Some? ==> (o.submitted <==> reply.Accepted? || before.submitted)
    ensures o.sent.Some? ==> (o.error.None? <==> reply.Accepted?)
    ensures o.sent.Some? && !reply.Accepted? ==> o.error == Some(FailureMessage(reply))
  {
    if name == "" then before.(sent := None, error := Some(NameMissing))
    else if comment == "" then before.(sent := None, error := Some(CommentMissing))
    else
      var req := Some(Request(recipeId, token, name, rating, comment));
      if reply.Accepted? then Submission(req, None, true, false)
      else Submission(req, Some(FailureMessage(reply)), before.submitted, false)
  }

  /** The name is checked first: with both fields blank the page asks for the name. */
  lemma NameCheckedFirst(recipeId: int, token: Option<string>, reply: Reply, name: string, rating: int, comment: string,
                         before: Submission)
    requires Trim(name) == "" && Trim(comment) == ""
    ensures SubmitOutcome(recipeId, token, reply, Trim(name), rating, Trim(comment), before).error
            == Some("Please enter your name")
  {
  }

  /** A failed request never marks the page submitted when it was not already. */
  lemma FailureNotSubmitted(recipeId: int, token: Option<string>, reply: Reply, name: string, rating: int, comment: string,
                            before: Submission)
    requires !reply.Accepted? && !before.submitted
    ensures !SubmitOutcome(recipeId, token, reply, name, rating, comment, before).submitted
    ensures SubmitOutcome(recipeId, token, reply, name, rating, comment, before).error.Some?
  {
  }

  /** The `maxLength` of the name input and of the comment textarea. */
  const NameMaxLength: nat := 50
  const CommentMaxLength: nat := 500

  /**
   * The changes the page's controls can make: typing is capped by the
   * inputs' `maxLength`, and the rating comes from one of the five star buttons.
   */
  predicate FromControls(c: Change) {
    match c
    case SetName(v) => |v| <= NameMaxLength
    case SetRating(r) => 1 <= r <= 5
    case SetComment(v) => |v| <= CommentMaxLength
  }

  /** The JSON body the server receives. */
  function BodyJson(b: ReviewBody): Json {
    JObject(map["name" := JString(b.name), "rating" := JNumber(b.rating as real), "comment" := JString(b.comment)])
  }

  class ReviewPage {
    var name: string
    var rating: int
    var comment: string
    var isSubmitting: bool
    var submitted: bool
    var error: Option<string>
    var hoveredStar: Option<int>

    /** The fields are within what the controls can produce. */
    predicate Valid()
      reads this
    {
      |name| <= NameMaxLength && |comment| <= CommentMaxLength && 1 <= rating <= 5
    }

    /** The page's first state: empty name and comment, five stars, nothing sent. */
    constructor()
      ensures Valid()
      ensures name == "" && rating == 5 && comment == ""
      ensures !isSubmitting && !submitted && error.None? && hoveredStar.None?
    {
      name, rating, comment := "", 5, "";
      isSubmitting, submitted, error, hoveredStar := false, false, None, None;
    }

    /** `handleInputChange`: the named field takes the value and any error is cleared. */
    method HandleInputChange(c: Change)
      modifies this
      ensures c.SetName? ==> name == c.name
      ensures c.SetRating? ==> rating == c.rating
      ensures c.SetComment? ==> comment == c.comment
      ensures !c.SetName? ==> name == old(name)
      ensures !c.SetRating? ==> rating == old(rating)
      ensures !c.SetComment? ==> comment == old(comment)
      ensures error.None?
      ensures isSubmitting == old(isSubmitting) && submitted == old(submitted) && hoveredStar == old(hoveredStar)
      ensures old(Valid()) && FromControls(c) ==> Valid()
    {
      match c {
        case SetName(v) => name := v;
        case SetRating(r) => rating := r;
        case SetComment(v) => comment := v;
      }
      if error.Some? {
        error := None;
      }
    }

    /**
     * `handleSubmit`, from the moment it is called to the moment the request
     * has ended; `reply` is how the request ended.
     */
    method HandleSubmit(recipeId: int, token: Option<string>, reply: Reply) returns (sent: Option<ReviewRequest>)
      modifies this
      ensures var o := SubmitOutcome(recipeId, token, reply, Trim(old(name)), old(rating), Trim(old(comment)),
                                     Submission(None, old(error), old(submitted), old(isSubmitting)));
              sent == o.sent && error == o.error && submitted == o.submitted && isSubmitting == o.isSubmitting
      ensures Valid() && sent.Some? ==>
        AnonymousReviews.AnonymousReviewInput(BodyJson(sent.value.body))
          == Ok(AnonymousReviews.AnonymousReview(sent.value.body.name, sent.value.body.rating, sent.value.body.comment))
      ensures name == old(name) && rating == old(rating) && comment == old(comment) && hoveredStar == old(hoveredStar)
    {
      var o := SubmitOutcome(recipeId, token, reply, Trim(name), rating, Trim(comment),
                             Submission(None, error, submitted, isSubmitting));
      if o.sent.Some? && Valid() {
        SentBodyAccepted(recipeId, token, name, rating, comment);
      }
      sent, error, submitted, isSubmitting := o.sent, o.error, o.submitted, o.isSubmitting;
    }

    /** `onMouseEnter` of star `star`. */
    method MouseEnter(star: int)
      modifies this
      ensures hoveredStar == Some(star)
      ensures name == old(name) && rating == old(rating) && comment == old(comment)
      ensures isSubmitting == old(isSubmitting) && submitted == old(submitted) && error == old(error)
    {
      hoveredStar := Some(star);
    }

    /** `onMouseLeave` */
    method MouseLeave()
      modifies this
      ensures hoveredStar.None?
      ensures name == old(name) && rating == old(rating) && comment == old(comment)
      ensures isSubmitting == old(isSubmitting) && submitted == old(submitted) && error == old(error)
    {
      hoveredStar := None;
    }

    /** `isActive` of the five star buttons: star i + 1 is lit iff i + 1 <= (hoveredStar || rating). */
    function ActiveStars(): (lit: seq<bool>)
      reads this
      ensures |lit| == 5
      ensures forall i :: 0 <= i < 5 ==> (lit[i] <==> i + 1 <= ShownLevel(hoveredStar, rating))
      ensures CountLit(lit) == var l := ShownLevel(hoveredStar, rating); if l < 0 then 0 else if l > 5 then 5 else l
    {
      LitStarsPrefix(ShownLevel(hoveredStar, rating));
      LitStars(ShownLevel(hoveredStar, rating))
    }
  }

  /** Hovering over star s of the five lights exactly the first s stars, whatever the rating. */
  lemma HoverLightsUpTo(star: int, rating: int)
    requires 1 <= star <= 5
    ensures CountLit(LitStars(ShownLevel(Some(star), rating))) == star
    ensures forall i :: 0 <= i < 5 ==> (LitStars(ShownLevel(Some(star), rating))[i] <==> i < star)
  {
    LitStarsPrefix(star);
  }

  /**
   * A form the client sends with a rating the stars can give is accepted by
   * the server's body check whenever the trimmed name has at most 50
   * characters and the trimmed comment at most 500.
   */
  lemma SentBodyAccepted(recipeId: int, token: Option<string>, name: string, rating: int, comment: string)
    requires Trim(name) != "" && Trim(comment) != "" && 1 <= rating <= 5
    requires |Trim(name)| <= 50 && |Trim(comment)| <= 500
    ensures var b := Request(recipeId, token, Trim(name), rating, Trim(comment)).body;
            AnonymousReviews.AnonymousReviewInput(BodyJson(b)) == Ok(AnonymousReviews.AnonymousReview(b.name, b.rating, b.comment))
  {
    BodyAccepted(ReviewBody(Trim(name), rating, Trim(comment)));
  }

  /** The server accepts a body whose fields are within its bounds, and reads back the same fields. */
  lemma BodyAccepted(b: ReviewBody)
    requires 1 <= |b.name| <= 50 && 1 <= b.rating <= 5 && 1 <= |b.comment| <= 500
    ensures AnonymousReviews.AnonymousReviewInput(BodyJson(b)) == Ok(AnonymousReviews.AnonymousReview(b.name, b.rating, b.comment))
  {
    var j := BodyJson(b);
    assert j.fields["rating"].n == b.rating as real;
    assert IsInteger(b.rating as real);
  }

  /**
   * `handleSubmit` itself checks only that the name is not blank; the length
   * bound is left to the input's `maxLength`. A form whose trimmed name is
   * longer than 50 characters (set other than by typing) is sent, and the
   * server refuses it (`LettersTrimmed` gives such a name).
   */
  lemma LongNameSentButRefused(recipeId: int, token: Option<string>, reply: Reply, name: string, rating: int,
                               comment: string, before: Submission)
    requires |Trim(name)| > 50 && Trim(comment) != ""
    ensures var o := SubmitOutcome(recipeId, token, reply, Trim(name), rating, Trim(comment), before);
            o.sent.Some? && AnonymousReviews.AnonymousReviewInput(BodyJson(o.sent.value.body)).Err?
  {
    NameTooLong(Trim(name), rating, Trim(comment));
  }

  /** A name of letters only has nothing to trim. */
  lemma LettersTrimmed(n: nat)
    ensures Trim(seq(n, _ => 'a')) == seq(n, _ => 'a')
    ensures |Trim(seq(n, _ => 'a'))| == n
  {
    var name := seq(n, _ => 'a');
    if n > 0 {
      assert !IsJsWhitespace(name[0]) && !IsJsWhitespace(name[n - 1]);
    }
    TrimStartOfTrimmed(name);
    TrimEndOfTrimmed(name);
  }

  /** The server refuses a body whose name is longer than 50 characters. */
  lemma NameTooLong(name: string, rating: int, comment: string)
    requires |name| > 50
    ensures AnonymousReviews.AnonymousReviewInput(BodyJson(ReviewBody(name, rating, comment))).Err?
  {
    assert BodyJson(ReviewBody(name, rating, comment)).fields["name"].s == name;
  }
}
