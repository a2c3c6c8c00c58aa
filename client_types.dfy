/**
 * The records the web client receives from the API and passes between its
 * views, and the two small rules several views share: how a caught value
 * becomes an error message, and which of the five rating stars are lit.
 */
module ClientTypes {
  import opened Wrappers

  datatype IngredientType = IngredientType(id: int, name: string)

  /**
   * An ingredient id on the client: a server row id is a number, a row the
   * user added in a form has a random string id.
   */
  datatype ClientId = NumId(n: int) | StrId(s: string)

  /** An ingredient as the API returns it, with its type when the server included it. */
  datatype ServerIngredient = ServerIngredient(
    id: ClientId,
    name: string,
    amount: string,
    recipeId: int,
    typeId: Option<int>,
    typ: Option<IngredientType>)   // the `type` field

  datatype Review = Review(id: int, name: Option<string>, rating: int, comment: string)

  /** A recipe as the API returns it. */
  datatype Recipe = Recipe(
    id: int,
    title: string,
    slug: string,
    imageUrl: Option<string>,
    description: Option<string>,
    methodText: string,            // the `method` field
    ingredients: seq<ServerIngredient>,
    reviews: Option<seq<Review>>,
    avgRating: Option<real>)

  /** What a `catch` clause receives: an `Error` object with its message, or any other thrown value. */
  datatype Thrown = ErrorObject(message: string) | OtherValue

  /** `err instanceof Error ? err.message : fallback` */
  function ErrorText(t: Thrown, fallback: string): (r: string)
    ensures t.ErrorObject? ==> r == t.message
    ensures t.OtherValue? ==> r == fallback
  {
    match t
    case ErrorObject(m) => m
    case OtherValue => fallback
  }

  /** `[1, 2, 3, 4, 5].map(star => star <= level)`: which stars are drawn highlighted. */
  function LitStars(level: int): (lit: seq<bool>)
    ensures |lit| == 5
    ensures forall i :: 0 <= i < 5 ==> (lit[i] <==> i + 1 <= level)
  {
    [1 <= level, 2 <= level, 3 <= level, 4 <= level, 5 <= level]
  }

  /** The number of `true` entries. */
  function CountLit(lit: seq<bool>): nat {
    if lit == [] then 0 else (if lit[0] then 1 else 0) + CountLit(lit[1..])
  }

  /**
   * The lit stars form a prefix of the strip, and there are as many as the
   * level clamped to 0..5.
   */
  lemma LitStarsPrefix(level: int)
    ensures forall i, j :: 0 <= i <= j < 5 && LitStars(level)[j] ==> LitStars(level)[i]
    ensures CountLit(LitStars(level)) == if level < 0 then 0 else if level > 5 then 5 else level
  {
    var lit := LitStars(level);
    var b := i => if i + 1 <= level then 1 else 0;
    assert lit[1..][1..][1..][1..][1..] == [];
    assert CountLit(lit[1..][1..][1..][1..]) == b(4);
    assert CountLit(lit[1..][1..][1..]) == b(3) + b(4);
    assert CountLit(lit[1..][1..]) == b(2) + b(3) + b(4);
    assert CountLit(lit[1..]) == b(1) + b(2) + b(3) + b(4);
    assert CountLit(lit) == b(0) + b(1) + b(2) + b(3) + b(4);
  }
}
