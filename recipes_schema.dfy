/**
 * The body of a recipe create or update: title, slug, optional image URL and
 * description, preparation steps, and a non-empty list of ingredients, each
 * naming an existing ingredient type by id or any type by name. Names are
 * normalised (trimmed, lower-cased) as they are read. Whether a string is a
 * URL is decided by a parameter.
 */
module RecipesSchema {
  import opened Wrappers
  import opened Text
  import opened Json

  datatype IngredientDto = IngredientDto(typeId: Option<int>, name: Option<string>, amount: string)

  datatype RecipeDto = RecipeDto(
    title: string,
    slug: string,
    imageUrl: Option<string>,
    description: Option<string>,
    methodText: string,   // the `method` field
    ingredients: seq<IngredientDto>)

  /** `val?.trim().toLowerCase()` */
  function NormalizeName(s: string): string {
    Lower(Trim(s))
  }

  /** Lower-casing changes no whitespace, so a trimmed string stays trimmed. */
  lemma LowerKeepsTrimmed(t: string)
    requires t == [] || (!IsJsWhitespace(t[0]) && !IsJsWhitespace(t[|t| - 1]))
    ensures Trim(Lower(t)) == Lower(t)
  {
    var l := Lower(t);
    if t != [] {
      assert !IsJsWhitespace(l[0]) && !IsJsWhitespace(l[|l| - 1]);
    }
    TrimStartOfTrimmed(l);
    TrimEndOfTrimmed(l);
  }

  /** Normalising a normalised name changes nothing. */
  lemma NormalizeNameIdempotent(s: string)
    ensures NormalizeName(NormalizeName(s)) == NormalizeName(s)
  {
    LowerKeepsTrimmed(Trim(s));
    LowerIdempotent(Trim(s));
  }

  /** A normalised name is empty exactly when the raw name is blank. */
  lemma NormalizeNameEmptyIff(s: string)
    ensures NormalizeName(s) == [] <==> AllWhitespace(s)
  {
    TrimEmptyIff(s);
  }

  function TypeIdCheck(j: Json): Result<int, Issues> {
    CheckPositiveInt(j, None)
  }

  function NameCheck(j: Json): Result<string, Issues> {
    match CheckString(j, 1, None, None, None)
    case Ok(s) => Ok(NormalizeName(s))
    case Err(e) => Err(e)
  }

  function AmountCheck(j: Json): Result<string, Issues> {
    CheckString(j, 1, None, None, None)
  }

  /** `!!v.typeId || !!v.name` on the parsed entry. */
  predicate NamesAType(ing: IngredientDto) {
    (ing.typeId.Some? && ing.typeId.value != 0) || (ing.name.Some? && ing.name.value != "")
  }

  /**
   * `IngredientInput`: an optional positive integer `typeId`, an optional
   * non-empty `name` (normalised), a non-empty `amount`, and then one of the
   * first two must be there ("Provide either typeId or name").
   */
  function IngredientInput(j: Json): (r: Result<IngredientDto, Issues>)
    ensures r.Ok? <==>
              j.JObject?
              && ("typeId" in j.fields ==> j.fields["typeId"].JNumber? && IsInteger(j.fields["typeId"].n) && j.fields["typeId"].n > 0.0)
              && ("name" in j.fields ==> j.fields["name"].JString? && |j.fields["name"].s| >= 1)
              && "amount" in j.fields && j.fields["amount"].JString? && |j.fields["amount"].s| >= 1
              && ("typeId" in j.fields || ("name" in j.fields && !AllWhitespace(j.fields["name"].s)))
    ensures r.Ok? ==>
              r.value.amount == j.fields["amount"].s
              && r.value.name == (if "name" in j.fields then Some(NormalizeName(j.fields["name"].s)) else None)
              && (r.value.typeId.Some? <==> "typeId" in j.fields)
              && (r.value.typeId.Some? ==> r.value.typeId.value > 0 && r.value.typeId.value as real == j.fields["typeId"].n)
              && NamesAType(r.value)
    ensures r.Err? ==> r.error != []
  {
    if !j.JObject? then Err([Issue([], InvalidType, None)])
    else
      TypeIdField(j.fields);
      NameField(j.fields);
      AmountField(j.fields);
      NamesATypeIff(j.fields);
      Assemble(Optional(j.fields, "typeId", TypeIdCheck), Optional(j.fields, "name", NameCheck),
               Required(j.fields, "amount", AmountCheck))
  }

  /** The entry once its fields are read: their issues in field order, or the entry if it names a type. */
  function Assemble(typeId: Result<Option<int>, Issues>, name: Result<Option<string>, Issues>,
                    amount: Result<string, Issues>): (r: Result<IngredientDto, Issues>)
    ensures r.Ok? <==> typeId.Ok? && name.Ok? && amount.Ok?
                       && NamesAType(IngredientDto(typeId.value, name.value, amount.value))
    ensures r.Ok? ==> r.value == IngredientDto(typeId.value, name.value, amount.value)
    ensures (r.Err? && (typeId.Err? ==> typeId.error != []) && (name.Err? ==> name.error != [])
             && (amount.Err? ==> amount.error != [])) ==> r.error != []
  {
    if typeId.Ok? && name.Ok? && amount.Ok? then
      var ing := IngredientDto(typeId.value, name.value, amount.value);
      if NamesAType(ing) then Ok(ing) else Err([Issue([], Custom, Some("Provide either typeId or name"))])
    else Err(IssuesOf(typeId) + IssuesOf(name) + IssuesOf(amount))
  }

  /** With both optional fields read, the entry names a type exactly when `typeId` is there or the name is not blank. */
  lemma NamesATypeIff(fields: map<string, Json>)
    ensures var t, n := Optional(fields, "typeId", TypeIdCheck), Optional(fields, "name", NameCheck);
      t.Ok? && n.Ok? ==>
        forall amount :: NamesAType(IngredientDto(t.value, n.value, amount))
                         <==> "typeId" in fields || ("name" in fields && !AllWhitespace(fields["name"].s))
  {
    TypeIdField(fields);
    NameField(fields);
    if "name" in fields && fields["name"].JString? {
      NormalizeNameEmptyIff(fields["name"].s);
    }
  }

  lemma TypeIdField(fields: map<string, Json>)
    ensures var r := Optional(fields, "typeId", TypeIdCheck);
      && (r.Ok? <==> ("typeId" in fields ==> fields["typeId"].JNumber? && IsInteger(fields["typeId"].n) && fields["typeId"].n > 0.0))
      && (r.Ok? ==> (r.value.Some? <==> "typeId" in fields))
      && (r.Ok? && r.value.Some? ==> r.value.value > 0 && r.value.value as real == fields["typeId"].n)
      && (r.Err? ==> r.error != [])
  {
  }

  lemma NameField(fields: map<string, Json>)
    ensures var r := Optional(fields, "name", NameCheck);
      && (r.Ok? <==> ("name" in fields ==> fields["name"].JString? && |fields["name"].s| >= 1))
      && (r.Ok? ==> r.value == (if "name" in fields then Some(NormalizeName(fields["name"].s)) else None))
      && (r.Err? ==> r.error != [])
  {
  }

  lemma AmountField(fields: map<string, Json>)
    ensures var r := Required(fields, "amount", AmountCheck);
      && (r.Ok? <==> "amount" in fields && fields["amount"].JString? && |fields["amount"].s| >= 1)
      && (r.Ok? ==> r.value == fields["amount"].s)
      && (r.Err? ==> r.error != [])
  {
  }

  /** A whitespace-only name without a type id is rejected, since it normalises to "". */
  lemma BlankNameRejected(name: string, amount: string)
    requires |name| >= 1 && AllWhitespace(name) && |amount| >= 1
    ensures IngredientInput(JObject(map["name" := JString(name), "amount" := JString(amount)])).Err?
  {
  }

  function TitleCheck(j: Json): Result<string, Issues> { CheckString(j, 2, None, None, None) }
  function SlugCheck(j: Json): Result<string, Issues> { CheckString(j, 2, None, None, None) }
  function MethodCheck(j: Json): Result<string, Issues> { CheckString(j, 5, None, None, None) }
  function DescriptionCheck(j: Json): Result<string, Issues> { CheckString(j, 0, None, None, None) }

  /** `z.string().url()` with the URL syntax decided by `isUrl`. */
  function ImageUrlCheck(j: Json, isUrl: string -> bool): (r: Result<string, Issues>)
    ensures r.Ok? <==> j.JString? && isUrl(j.s)
    ensures r.Ok? ==> r.value == j.s
  {
    match j
    case JString(s) => if isUrl(s) then Ok(s) else Err([Issue([], InvalidUrl, None)])
    case _ => Err([Issue([], InvalidType, None)])
  }

  function IngredientsCheck(j: Json): Result<seq<IngredientDto>, Issues> {
    CheckArray(j, IngredientInput, 1)
  }

  /**
   * `CreateRecipeInput`: title and slug of at least 2 characters and steps of
   * at least 5, counted as given (no trimming); an optional URL and an optional
   * description; at least one ingredient, each valid.
   */
  function CreateRecipeInput(body: Json, isUrl: string -> bool): (r: Result<RecipeDto, Issues>)
    ensures r.Ok? <==>
              body.JObject?
              && "title" in body.fields && body.fields["title"].JString? && |body.fields["title"].s| >= 2
              && "slug" in body.fields && body.fields["slug"].JString? && |body.fields["slug"].s| >= 2
              && ("imageUrl" in body.fields ==> body.fields["imageUrl"].JString? && isUrl(body.fields["imageUrl"].s))
              && ("description" in body.fields ==> body.fields["description"].JString?)
              && "method" in body.fields && body.fields["method"].JString? && |body.fields["method"].s| >= 5
              && "ingredients" in body.fields && body.fields["ingredients"].JArray?
              && |body.fields["ingredients"].items| >= 1
              && forall i :: 0 <= i < |body.fields["ingredients"].items| ==> IngredientInput(body.fields["ingredients"].items[i]).Ok?
    ensures r.Ok? ==>
              r.value.title == body.fields["title"].s && r.value.slug == body.fields["slug"].s
              && r.value.methodText == body.fields["method"].s
              && r.value.imageUrl == (if "imageUrl" in body.fields then Some(body.fields["imageUrl"].s) else None)
              && r.value.description == (if "description" in body.fields then Some(body.fields["description"].s) else None)
              && |r.value.ingredients| == |body.fields["ingredients"].items| >= 1
              && forall i :: 0 <= i < |r.value.ingredients| ==>
                   r.value.ingredients[i] == IngredientInput(body.fields["ingredients"].items[i]).value
  {
    if !body.JObject? then Err([Issue([], InvalidType, None)])
    else
      var title := Required(body.fields, "title", TitleCheck);
      var slug := Required(body.fields, "slug", SlugCheck);
      var imageUrl := Optional(body.fields, "imageUrl", j => ImageUrlCheck(j, isUrl));
      var description := Optional(body.fields, "description", DescriptionCheck);
      var methodText := Required(body.fields, "method", MethodCheck);
      var ingredients := Required(body.fields, "ingredients", IngredientsCheck);
      if title.Ok? && slug.Ok? && imageUrl.Ok? && description.Ok? && methodText.Ok? && ingredients.Ok? then
        Ok(RecipeDto(title.value, slug.value, imageUrl.value, description.value, methodText.value, ingredients.value))
      else
        Err(IssuesOf(title) + IssuesOf(slug) + IssuesOf(imageUrl) + IssuesOf(description)
            + IssuesOf(methodText) + IssuesOf(ingredients))
  }

  /** Every accepted recipe's ingredients each name a type, by a truthy id or a non-empty normalised name. */
  lemma AcceptedIngredientsNameATypes(body: Json, isUrl: string -> bool)
    requires CreateRecipeInput(body, isUrl).Ok?
    ensures forall i :: 0 <= i < |CreateRecipeInput(body, isUrl).value.ingredients| ==>
              NamesAType(CreateRecipeInput(body, isUrl).value.ingredients[i])
              && (CreateRecipeInput(body, isUrl).value.ingredients[i].typeId.Some? ==>
                    CreateRecipeInput(body, isUrl).value.ingredients[i].typeId.value > 0)
  {
    var items := body.fields["ingredients"].items;
    forall i | 0 <= i < |items| ensures NamesAType(IngredientInput(items[i]).value) {
    }
  }
}
