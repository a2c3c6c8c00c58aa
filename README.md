# MyMixes in Dafny

MyMixes is a small recipe site. It has two halves.

**The server** (Express and Prisma) keeps five tables: cocktail recipes,
their ingredients, ingredient types, reviews and QR tokens.
- An admin creates, edits and deletes recipes. Write requests go through a
  bearer-token guard (`requireAuth` / `requireAdmin`).
- Anyone can list and search recipes: a case-insensitive title filter, newest
  first, in pages.
- An optional-login middleware (`attachUser`) attaches a user from a
  cookie or a bearer header.
- Guests review a recipe by scanning a QR code. The code carries a long-lived
  token, which a middleware validates before the review controller stores the
  review under the token's recipe. Storing a review recomputes the recipe's
  cached mean rating.
- Every thrown error ends in one error handler that chooses the status code.

**The client** (React) is a set of pages: login, the home grid and its
slideshow, recipe detail, the create/edit form, the QR panel and the guest
review page. Its logic is small rules: slugs, ingredient labels, star
counts, form checks, list updates and navigation.

This project models that behaviour in Dafny:
- **Tables.** The database is one class, `Store.Database`, whose fields are
  the tables (sequences of rows) and the id counters.
- **Services.** They are methods that modify it and state the new tables in
  terms of the old ones. The read-only queries are functions.
- **Middlewares and controllers.** They are total functions, or methods, from
  a request to one response (a status and a body) or to "call `next`".
- **Client components that hold state.** They are classes whose fields are
  the component's state hooks, with one method per handler.
- **The rest of the client.** Its pure helpers are functions with lemmas.

Several things outside the model become parameters:
- the clock (an `Instant` with local calendar fields);
- random bytes and fresh ids;
- `jwt.verify`;
- the URL syntax check;
- the outcome of every browser or network call.

Module by file:

| file | module | models |
|---|---|---|
| wrappers.dfy | Wrappers | Option / Result |
| json.dfy | Json | request and response bodies as JSON values; zod-style field checks and issues |
| http.dfy | Http | a response: status and body |
| calendar.dfy | Calendar | instants, their order, "one calendar year later" |
| hex.dfy | Hex | `Buffer.toString('hex')` and its inverse |
| text.dfy | Text | JavaScript `trim`, ASCII `toLowerCase`/`toUpperCase`, `split`, `includes`, decimal spellings and `Number(string)` |
| sequences.dfy | Sequences | filtering, sorting by a key, paging windows |
| store.dfy | Store | the Prisma tables, their invariant, lookups, the thrown Prisma errors |
| error_handler.dfy | ErrorHandler | `server/dist/middlewares/errorHandler.js` |
| auth.dfy | Auth | `server/src/middlewares/auth.ts` |
| attach_user.dfy | AttachUser | `server/src/middlewares/attachUser.ts` |
| qr_service.dfy | QrService | `server/src/services/qr.service.ts` |
| qr_validation.dfy | QrValidation | `server/src/middlewares/qrValidation.ts` |
| qr_controller.dfy | QrController | `server/dist/controllers/qr.controller.js` |
| reviews.dfy | Reviews | `server/src/services/reviews.service.ts`, `server/src/validators/reviews.schema.ts` |
| anonymous_reviews.dfy | AnonymousReviews | `server/src/controllers/anonymous-reviews.controller.ts` and its route |
| recipes_schema.dfy | RecipesSchema | `server/src/validators/recipes.schema.ts` |
| recipes_service.dfy | RecipesService | `server/dist/services/recipes.service.js` |
| recipes_controller.dfy | RecipesController | `server/dist/controllers/recipes.controller.js` |
| client_types.dfy | ClientTypes | the client's `Recipe`, `Ingredient`, `Review` and thrown values |
| helpers.dfy | Helpers | `client/src/utils/helpers.ts` |
| qr_generator.dfy | QrGenerator | `client/src/utils/qrGenerator.ts` |
| recipe_form.dfy | RecipeFormView | `client/src/components/RecipeForm.tsx` |
| app.dfy | AppState | `client/src/App.tsx` |
| recipe_detail.dfy | RecipeDetailView | `client/src/components/RecipeDetail.tsx` |
| star_rating.dfy | StarRatingView | `client/src/components/StarRating.tsx` |
| review_page.dfy | ReviewPageView | `client/src/components/ReviewPage.tsx` |
| qr_code_display.dfy | QrCodeDisplayView | `client/src/components/QRCodeDisplay.tsx` |
| slideshow.dfy | SlideshowView | `client/src/components/CocktailSlideshow.tsx` |

## Model

| member | source | states |
|---|---|---|
| ErrorHandler.ThrownOf | server/dist/middlewares/errorHandler.js:9-28 | a store failure is thrown as a known-request error with its code, a validation error, or a plain `Error` |
| ErrorHandler.Handle | server/dist/middlewares/errorHandler.js:9-32 | every error gets one error response with status 400, 404, 409 or 500: P2002 is 409 "Unique constraint failed" with the meta, P2003 400 "Invalid relation reference" with the meta, P2025 404 "Record not found" with the meta, a Prisma validation error 400 "Invalid data for Prisma query", any other 400 a `ZodError` with "Validation failed" and its details, and exactly the rest 500 "Server error" |
| ErrorHandler.OtherPrismaCodesAreServerErrors | server/dist/middlewares/errorHandler.js:9-32 | a known-request error with any code other than P2002/P2003/P2025 falls through to 500 "Server error" |
| ErrorHandler.FailureStatus | server/dist/middlewares/errorHandler.js:11-32 | the store's failures map to 409 / 400 / 404 by code, a query-shape error to 400 "Invalid data for Prisma query", a plain error to 500 "Server error" |
| Auth.BearerToken | server/src/middlewares/auth.ts:21 | `split(' ')[1]` is a field, so it holds no space (with `Auth.BearerTokenIsSecondField`) |
| Auth.BearerTokenIsSecondField | server/src/middlewares/auth.ts:21 | after the "Bearer " prefix, `split(' ')[1]` is the text up to the next space |
| Auth.EmptyBearerTokens | server/src/middlewares/auth.ts:21-25 | "Bearer " and "Bearer  x" both give an empty token |
| Auth.PresentedToken | server/src/middlewares/auth.ts:15-25 | a token is presented iff the header starts with "Bearer " and its second field is non-empty; that token holds no space |
| Auth.Expired | server/src/middlewares/auth.ts:38 | an absent or zero `exp` never expires; otherwise expired iff `(exp + 1) * 1000 <= now` in milliseconds (seconds rounded down) |
| Auth.ExpiryBoundary | server/src/middlewares/auth.ts:38 | an `exp` equal to the current second is not expired |
| Auth.RequireAuth | server/src/middlewares/auth.ts:12-56 | no presented token iff 401 "Access token required"; missing secret is 500 before verification; `next` iff the token decodes and is not expired, with the decoded payload as user; a thrown JWT error is 401 "Invalid token", anything else 500; every rejection is 401 or 500 |
| Auth.TokenExpiredOnlyFromExpCheck | server/src/middlewares/auth.ts:38-52 | "Token expired" arises only from the `exp` check on a decoded payload; a thrown `TokenExpiredError` is answered "Invalid token" (its catch branch is unreachable) |
| Auth.RequireAdmin | server/src/middlewares/auth.ts:59-79 | `requireAuth`'s rejection stands; an authenticated user passes iff the role is "admin", else 403 "Admin access required" |
| Auth.AdminImpliesAuthenticated | server/src/middlewares/auth.ts:59-74 | whatever the admin guard lets through, the plain guard lets through with the same user |
| AttachUser.TokenFrom | server/src/middlewares/attachUser.ts:17-19 | a non-empty `auth` cookie is the token whatever the header says; otherwise there is a token iff the header starts with "Bearer ", and it is the rest of the header |
| AttachUser.HeaderToken | server/src/middlewares/attachUser.ts:17-19 | without a cookie the token is everything after "Bearer "; a header without that prefix gives no token |
| AttachUser.AttachUser | server/src/middlewares/attachUser.ts:13-30 | `req.user` changes only when a non-empty token verifies, and then becomes the payload's id, role and email (cookie first, then header); `next` is always called and nothing is sent |
| AttachUser.AttachUserIdempotent | server/src/middlewares/attachUser.ts:13-30 | running the middleware twice attaches the same user as running it once |
| QrService.NewTokenRow | server/src/services/qr.service.ts:20-34 | the stored token is the hex of the random bytes (twice as many hex digits, decoding back to them), expires after it is created, and is unused |
| QrService.GenerateSecureQrToken | server/src/services/qr.service.ts:10-37 | a missing recipe is "Recipe not found" with nothing stored; a colliding token or id is the unique-constraint error; otherwise exactly one row is appended for that recipe and returned with its 64 hex characters, an expiry one calendar year later and the recipe's summary; only the token table changes |
| QrService.ValidateQrToken | server/src/services/qr.service.ts:39-65 | valid iff a recipe id is returned; a valid token has a row that is not expired and whose recipe exists, and the id returned is that row's recipe; an unknown token is invalid |
| QrService.ValidateIff | server/src/services/qr.service.ts:39-60 | with unique tokens, a stored row validates iff `now` is not after its expiry and its recipe exists, and then yields its recipe id |
| QrService.ExpiryInstant | server/src/services/qr.service.ts:51 | at the expiry instant a token still validates but is no longer active |
| QrService.GeneratedTokenValidates | server/src/services/qr.service.ts:21-36 | a freshly generated token validates for its recipe at every instant up to one year later |
| QrService.MarkedUsed | server/src/services/qr.service.ts:67-76 | the table keeps its length; only the row with that token changes, and only its `used` (now true) and `usedAt` (now) |
| QrService.MarkedUsedUnknownToken | server/src/services/qr.service.ts:69-72 | an update for a token no row carries changes nothing |
| QrService.MarkedUsedFind | server/src/services/qr.service.ts:39-76 | after marking, every token finds a row exactly when it did before, with the same expiry and recipe |
| QrService.MarkedUsedKeepsValidation | server/src/services/qr.service.ts:39-76 | validation does not look at `used`: a marked token validates exactly as before |
| QrService.MarkTokenAsUsed | server/src/services/qr.service.ts:67-76 | the token table becomes the marked table, everything else is unchanged, and no error escapes |
| QrService.RecipeInfoFor | server/src/services/qr.service.ts:86-90 | the recipe include is present iff the recipe exists |
| QrService.Attach | server/src/services/qr.service.ts:86-90 | each row keeps its place and is paired with its recipe's summary |
| QrService.NewestFirst | server/src/services/qr.service.ts:91 | descending creation order means no row is listed before a row created after it |
| QrService.GetActiveQrTokens | server/src/services/qr.service.ts:78-93 | the listing is a permutation of the tokens expiring strictly after now (of the recipe when the filter is truthy), newest first, each with its recipe's summary |
| QrService.DeleteQrToken | server/src/services/qr.service.ts:95-107 | an unknown id is "QR token not found" and changes nothing; otherwise exactly that row is removed (one fewer row, the others kept); only the token table changes |
| QrService.RemoveTokenAt | server/src/services/qr.service.ts:104-106 | removing a row of unique ids removes exactly the rows with its id and keeps ids and tokens unique |
| QrService.GroupsSpec | server/src/services/qr.service.ts:110-118 | grouping by recipe gives one group per recipe that has rows, holding its row count; the counts add up to the number of rows |
| QrService.GetQrTokenCounts | server/src/services/qr.service.ts:109-126 | the dictionary's keys are exactly the recipes with an active token, each mapped to its positive number of active tokens |
| QrService.CountsSum | server/src/services/qr.service.ts:109-126 | the counts add up to the number of active tokens |
| QrValidation.ValidateQrTokenMiddleware | server/src/middlewares/qrValidation.ts:4-25 | a missing or empty token is exactly 400 "QR token is required" (validation not attempted); a thrown validation is 500; invalid is 403; valid sets the recipe id and calls `next`, which happens only then |
| QrValidation.MiddlewareOn | server/src/middlewares/qrValidation.ts:4-20 | over the token table, `next` iff the token validates, with the validated recipe id of an existing recipe; rejections are 400 or 403 |
| QrValidation.InvalidTokensLookAlike | server/src/middlewares/qrValidation.ts:14-16 | every kind of invalid token gets the same 403 "Invalid or expired QR token" |
| QrController.QrUrl | server/dist/controllers/qr.controller.js:21-22 | the link starts with the base URL followed by "/#/review/" |
| QrController.QrUrlInjective | server/dist/controllers/qr.controller.js:22 | a link determines its recipe id and its token |
| QrController.GenerateQrInput | server/dist/controllers/qr.controller.js:10-12 | accepted iff the body is an object whose `recipeId` is a positive integer number; the id is returned; a refusal carries issues |
| QrController.GenerateQrToken | server/dist/controllers/qr.controller.js:13-37 | a bad body is 400 with the issues, before the service runs; a missing recipe, like every service failure, is 500 "Failed to generate QR token" with no token stored; a valid body for an existing recipe whose new token and id collide with no stored row is 200, and 200 appends exactly the new row and echoes id, token, link, expiry, recipe id and summary with `used: false` |
| QrController.BaseUrl | server/dist/controllers/qr.controller.js:43 | `FRONTEND_URL` when it is set and non-empty, else "http://localhost:5173"; never empty |
| QrController.RecipeFilter | server/dist/controllers/qr.controller.js:40 | an absent or empty parameter, or one `Number` reads as NaN or 0, does not filter (both are falsy for the service); one that reads as a non-zero integer filters on it; any other number (fractional or infinite) is refused, as Prisma refuses a non-integer `Int` |
| QrController.GetQrTokens | server/dist/controllers/qr.controller.js:38-53 | 200 or 500; 500 "Failed to fetch QR tokens" exactly when the filter is refused; on 200 the service's list for the filter, same length and order, each entry carrying a link from its own recipe id and token |
| QrController.PointZeroFiltersAsInteger | server/dist/controllers/qr.controller.js:40 | "1.0" filters on recipe 1, as "1" does |
| QrController.FractionalRecipeIdFails | server/dist/controllers/qr.controller.js:38-53 | `recipeId=1.5` is answered 500 "Failed to fetch QR tokens" |
| QrController.ListedLinksIdentifyTokens | server/dist/controllers/qr.controller.js:44-47 | two listed entries with the same link have the same token and recipe |
| QrController.DeleteQrTokenController | server/dist/controllers/qr.controller.js:55-71 | an empty id is 400; an unknown id 404 "QR token not found"; a known one 200 `{ success: true, message }` with exactly that row removed; the table is unchanged unless 200 |
| QrController.GetQrTokenCountsController | server/dist/controllers/qr.controller.js:72-81 | 200 with a dictionary from each recipe with active tokens to its number of active tokens |
| Reviews.CreateReviewInput | server/src/validators/reviews.schema.ts:3-6 | accepted iff the body is an object with an integer rating 1..5 and a string comment of at least one character (no upper bound, no name); the values are returned; a refusal carries issues |
| Reviews.RatingBoundsInclusive | server/src/validators/reviews.schema.ts:4 | ratings 1 and 5 are accepted, 0, 6 and 4.5 refused |
| Reviews.SumPermutation | server/src/services/reviews.service.ts:18 | reordering ratings keeps their sum |
| Reviews.MeanPermutation | server/src/services/reviews.service.ts:18 | reordering ratings keeps their mean |
| Reviews.MeanBounds | server/src/services/reviews.service.ts:18 | the mean of ratings in 1..5 is in [1, 5] |
| Reviews.WithAvgRating | server/src/services/reviews.service.ts:19 | updating an average keeps the table's length |
| Reviews.WithAvgRatingOnlyTarget | server/src/services/reviews.service.ts:19 | only the target recipe changes, and only its average |
| Reviews.WithAvgRatingKeepsKeys | server/src/services/reviews.service.ts:19 | ids and slugs stay unique and below the counter |
| Reviews.FindRecipeAfterAvg | server/src/services/reviews.service.ts:19 | updating an average neither adds nor removes a recipe |
| Reviews.CreateReview | server/src/services/reviews.service.ts:8-21 | a missing recipe is the foreign-key failure with nothing changed; otherwise exactly one review (absent user and name stay absent) is appended and returned, and the recipe's average becomes the mean of its old ratings plus the new one; no other table changes |
| Reviews.AvgRatingOrderIndependent | server/src/services/reviews.service.ts:18-19 | the cached average depends only on the multiset of the recipe's ratings |
| Reviews.TwoInsertionOrders | server/src/services/reviews.service.ts:18-19 | two reviews inserted in either order give the same average |
| Reviews.AvgRating | server/src/services/reviews.service.ts:18-19 | 0 when the recipe has no rating; otherwise the mean: the average times the number of ratings is their sum |
| Reviews.AvgRatingBounds | server/src/services/reviews.service.ts:18-19 | with every rating in 1..5, a reviewed recipe's average is in [1, 5] |
| Reviews.ListReviews | server/src/services/reviews.service.ts:4-6 | a permutation of exactly the recipe's reviews, newest first |
| AnonymousReviews.AnonymousReviewInput | server/src/controllers/anonymous-reviews.controller.ts:6-10 | accepted iff the body is an object with a 1-50 character name, an integer rating 1..5 and a 1-500 character comment; the values are returned; a refusal carries issues |
| AnonymousReviews.PostAnonymousReview | server/src/controllers/anonymous-reviews.controller.ts:12-36 | a bad body is 400 with the issues and nothing stored; a valid body for an existing recipe is 201 with the new review (no user, the given name) stored under the attached recipe id and the average recomputed; 500 "Failed to create review" otherwise; tokens never change |
| AnonymousReviews.AnonymousReviewRoute | server/src/routes/anonymous-reviews.routes.ts:9 | a review is stored (and 201 sent) only when the token validates, exactly one, for the token's recipe whatever the path id, with no user; the token table never changes; no token is 400, an invalid one 403; a token that validates leads to the controller: a bad body is 400 with its issues, a good one is 201 with exactly the new review (the token's recipe, the given name, rating and comment) appended |
| AnonymousReviews.ReviewKeepsTokenValid | server/src/controllers/anonymous-reviews.controller.ts:15 | a valid token stays valid after a guest review, as the token is never marked used |
| Calendar.RankOrder | server/src/services/qr.service.ts:91 | the ordering key orders instants as time does, and is injective |
| Calendar.DaysInMonth | server/src/services/qr.service.ts:24-25 | every month has 28 to 31 days |
| Calendar.Normalize | server/src/services/qr.service.ts:25 | a day past the end of its month carries into the next month; a day in range is kept |
| Calendar.OneYearLater | server/src/services/qr.service.ts:24-25 | the result is a valid instant strictly after the start, in the next year at the same time of day; the same month and day when that day exists, else carried over (29 February to 1 March) |
| Hex.NibbleRoundTrip | server/src/services/qr.service.ts:21 | a hex digit decodes to its value |
| Hex.Encode | server/src/services/qr.service.ts:21 | two lower-case hex characters per byte |
| Hex.DecodeEncode | server/src/services/qr.service.ts:21 | decoding an encoding gives the bytes back |
| Hex.EncodeInjective | server/src/services/qr.service.ts:21 | different bytes have different encodings |
| Store.FindRecipe | server/src/services/qr.service.ts:12-15 | the row found has that id and is in the table; none means no row has it |
| Store.FindToken | server/src/services/qr.service.ts:41-44 | the row found carries that token; none means no row does |
| Store.FindTokenById | server/src/services/qr.service.ts:96-98 | the row found has that id; none means no row has it |
| Store.FindTokenUnique | server/src/services/qr.service.ts:41-44 | in a table with unique tokens, the row found for a token is the one carrying it |
| RecipesSchema.LowerKeepsTrimmed | server/src/validators/recipes.schema.ts:9 | lower-casing a trimmed string leaves it trimmed |
| RecipesSchema.NormalizeNameIdempotent | server/src/validators/recipes.schema.ts:9 | normalising a normalised name changes nothing |
| RecipesSchema.NormalizeNameEmptyIff | server/src/validators/recipes.schema.ts:9 | a name normalises to "" exactly when it is all whitespace |
| RecipesSchema.IngredientInput | server/src/validators/recipes.schema.ts:3-14 | accepted iff the entry is an object whose optional `typeId` is a positive integer, whose optional `name` has at least one character, whose `amount` has at least one character, and which has a `typeId` or a non-blank name; the name comes back trimmed and lower-cased; a refusal carries issues |
| RecipesSchema.Assemble | server/src/validators/recipes.schema.ts:3-10 | the entry is built iff all three fields passed, from their values; otherwise their issues are kept |
| RecipesSchema.NamesATypeIff | server/src/validators/recipes.schema.ts:11-14 | after the fields are read, the refinement holds iff `typeId` is given or the name is not blank |
| RecipesSchema.TypeIdField | server/src/validators/recipes.schema.ts:4 | an optional positive-integer `typeId`: absent is fine, present must pass, and the value is returned |
| RecipesSchema.NameField | server/src/validators/recipes.schema.ts:5-9 | an optional name of at least one character, returned normalised |
| RecipesSchema.AmountField | server/src/validators/recipes.schema.ts:10 | a required `amount` string of at least one character, returned as given |
| RecipesSchema.BlankNameRejected | server/src/validators/recipes.schema.ts:4-14 | a whitespace-only name without a `typeId` is refused |
| RecipesSchema.ImageUrlCheck | server/src/validators/recipes.schema.ts:19 | an image URL passes iff it is a string that the URL check accepts |
| RecipesSchema.CreateRecipeInput | server/src/validators/recipes.schema.ts:16-23 | accepted iff the body has a title and slug of at least 2 and a method of at least 5 characters (untrimmed), an optional URL, an optional description and a non-empty list of valid entries; all values come back as given, the entries as each one parses |
| RecipesSchema.AcceptedIngredientsNameATypes | server/src/validators/recipes.schema.ts:11-22 | every accepted recipe's entries each name a type, by a positive id or a non-empty normalised name |
| RecipesService.ListRecipes | server/dist/services/recipes.service.js:10-50 | a negative skip is Prisma's validation error; otherwise `total` counts every match, page and size are echoed, and the items are the summaries of the `(page-1)*size` window of matches newest first (at most `size`, each a matching recipe of the table) |
| RecipesService.PageFacts | server/dist/services/recipes.service.js:24-28 | a window holds matching recipes of the table, newest first |
| RecipesService.EmptyQueryKeepsAll | server/dist/services/recipes.service.js:11-22 | an empty query keeps every recipe |
| RecipesService.QueryIgnoresCase | server/dist/services/recipes.service.js:15-18 | two queries that lower-case alike give the same listing |
| RecipesService.EveryMatchIsOnItsPage | server/dist/services/recipes.service.js:24-28 | with a positive size the `k`-th newest match is item `k % size` of page `k / size + 1` |
| RecipesService.PageItem | server/dist/services/recipes.service.js:24-46 | item `i` of a page is the recipe at position `i` of its window |
| RecipesService.ConsecutivePages | server/dist/services/recipes.service.js:24-28 | two consecutive pages together are the window of twice the size, in order |
| RecipesService.ItemsAreWindow | server/dist/services/recipes.service.js:24-28 | a page's recipes are exactly its window |
| RecipesService.WholeSkip | server/dist/services/recipes.service.js:24-27 | whole page and size numbers always give a whole skip and size, so only a negative skip is refused |
| RecipesService.ViewsOf | server/dist/services/recipes.service.js:54 | each ingredient row keeps its place and comes with its type |
| RecipesService.LatestReviews | server/dist/services/recipes.service.js:54 | exactly `min(25, n)` of the recipe's `n` reviews, newest first, all of them when there are at most 25, and no newer review left out |
| RecipesService.GetRecipeBySlug | server/dist/services/recipes.service.js:51-56 | nothing iff no recipe has the slug; otherwise that recipe with its ingredient rows in order, each with its type, and its latest reviews: exactly `min(25, n)` of its `n` reviews |
| RecipesService.GetRecipeById | server/dist/services/recipes.service.js:57-72 | nothing iff no recipe has the id; otherwise the recipe with that id, the unique one when ids are unique |
| RecipesService.ResolveOne | server/dist/services/recipes.service.js:79-96 | a truthy `typeId` connects to that type (a missing one is "record not found"); otherwise the type with the name is connected, or created with the next id; the type table's constraints are kept and the entry is linked |
| RecipesService.FoundTypeLinks | server/dist/services/recipes.service.js:91-94 | an entry linked by name to an existing type gets that type's id |
| RecipesService.CreatedTypeLinks | server/dist/services/recipes.service.js:91-94 | a type created for a new name keeps ids and names unique and is the one the entry links to |
| RecipesService.ResolveTypes | server/dist/services/recipes.service.js:79-97 | one type id per entry; types are only added; when every entry can be linked the linking succeeds |
| RecipesService.ResolveTypesLinks | server/dist/services/recipes.service.js:79-97 | linking a list keeps the type table's constraints and links every entry |
| RecipesService.ResolveTypesFresh | server/dist/services/recipes.service.js:89-96 | a type is created only for a name no type had, with an id above the old counter |
| RecipesService.SameNameSameType | server/dist/services/recipes.service.js:89-96 | two entries linked by the same name link to the same type |
| RecipesService.ResolvedNamesShareTypes | server/dist/services/recipes.service.js:89-96 | entries of one write that share a name share one type id |
| RecipesService.NewIngredients | server/dist/services/recipes.service.js:79-97 | one ingredient row per entry, in order, with its amount, its type and consecutive ids |
| RecipesService.CreateRecipe | server/dist/services/recipes.service.js:73-102 | a used slug is the unique-constraint error; a failure changes nothing; success appends the recipe row and one ingredient row per entry in order, each linked to its type, advances the counters and returns the recipe with its ingredients and no reviews |
| RecipesService.Updated | server/dist/services/recipes.service.js:103-109 | the columns are overwritten (an absent URL or description keeps the old value), id, rating and creation time are kept, `updatedAt` is now |
| RecipesService.WithUpdated | server/dist/services/recipes.service.js:105-109 | only the row with that id is updated |
| RecipesService.ReplaceIngredients | server/dist/services/recipes.service.js:109-130 | other recipes' ingredients are kept; the recipe's ingredients are exactly the new ones |
| RecipesService.ReplaceTwice | server/dist/services/recipes.service.js:103-134 | replacing with A and then with B is replacing with B |
| RecipesService.UpdateRecipe | server/dist/services/recipes.service.js:103-134 | a missing recipe is "record not found", a slug of another recipe the unique-constraint error, and a failure changes nothing; success overwrites the columns, makes the recipe's ingredients exactly the new rows and returns the recipe with them and its reviews |
| RecipesService.DeleteRecipe | server/dist/services/recipes.service.js:135-139 | a missing recipe is "record not found" with nothing changed; otherwise exactly that recipe is removed and returned, with its ingredients and reviews (cascade), and QR tokens are kept |
| RecipesService.DeletedRecipeTokensInvalid | server/dist/services/recipes.service.js:135-139 | a token of a deleted recipe no longer validates, though its row is still there |
| RecipesController.NumberParam | server/dist/controllers/recipes.controller.js:12-13 | an absent parameter takes the default; a given one is what `Number` reads from it |
| RecipesController.GetRecipes | server/dist/controllers/recipes.controller.js:10-16 | 200 with the service's listing iff page and size read as finite numbers (defaults 1 and 12, query "") whose skip `(page-1)*size` and size are whole and the skip not negative; otherwise 400 "Invalid data for Prisma query" |
| RecipesController.DefaultListing | server/dist/controllers/recipes.controller.js:11-13 | with no parameters, the 12 newest recipes of the table, total the table's size, page 1, size 12 |
| RecipesController.PageZeroRejected | server/dist/controllers/recipes.controller.js:12 | page 0 is refused with 400 rather than read as page 1 |
| RecipesController.HalfPageServed | server/dist/controllers/recipes.controller.js:10-16 | page "1.5" with the default size skips 6 rows and is served, echoing page 1.5 |
| RecipesController.FractionalSizeRejected | server/dist/controllers/recipes.controller.js:13-14 | size "1.5" is a fractional `take` and is answered 400 |
| RecipesController.GetRecipe | server/dist/controllers/recipes.controller.js:17-22 | 404 "Recipe not found" iff no recipe has the slug, else 200 with the service's recipe |
| RecipesController.PostRecipe | server/dist/controllers/recipes.controller.js:23-29 | an invalid body is 400 with issues and nothing created; 201 iff the body is valid, the slug free and the entries linkable, and then the new recipe is appended and returned; a used slug is 409; nothing changes unless 201 |
| RecipesController.PutRecipe | server/dist/controllers/recipes.controller.js:30-37 | the same schema as create: an invalid body is 400 and changes nothing; an id that `Number` does not read as an integer (NaN, infinite or fractional; "1.0" and "1e0" are 1) is 400, an unknown one 404; 200 iff the update succeeds, with the updated recipe |
| RecipesController.DeleteRecipeController | server/dist/controllers/recipes.controller.js:38-42 | 204 with no body iff the id reads as an integer (so "1.0" and "1e0" are 1) of an existing recipe, which is then gone; an id that is NaN, infinite or fractional is 400; nothing changes unless 204 |
| RecipesController.PostRecipeRoute | server/dist/routes/recipes.routes.js:12 | a request the admin guard stops gets its refusal and changes nothing; a created recipe implies an admin user |
| RecipesController.PutRecipeRoute | server/dist/routes/recipes.routes.js:13 | a request the admin guard stops gets its refusal and changes nothing; 200 implies the guard passed |
| RecipesController.DeleteRecipeRoute | server/dist/routes/recipes.routes.js:14 | a request the admin guard stops gets its refusal and changes nothing; 204 implies the guard passed |
| Text.LowerChar | client/src/utils/helpers.ts:13 | an upper-case ASCII letter becomes lower-case, every other character is kept, and being a letter or digit is preserved |
| Text.UpperChar | client/src/components/RecipeDetail.tsx:55 | a lower-case ASCII letter becomes upper-case, every other character is kept |
| Text.Lower | client/src/utils/helpers.ts:13 | `toLowerCase` keeps the length and maps each character on its own |
| Text.LowerIdempotent | server/src/validators/recipes.schema.ts:9 | lower-casing twice is lower-casing once |
| Text.Trim | client/src/components/RecipeForm.tsx:34-37 | `trim` gives a string no longer than its input that neither starts nor ends with whitespace |
| Text.TrimEmptyIff | client/src/components/RecipeForm.tsx:34-37 | a string trims to "" exactly when it is all whitespace |
| Text.TrimIdempotent | client/src/components/RecipeForm.tsx:138-145 | trimming twice is trimming once |
| Text.Split | server/src/middlewares/auth.ts:21 | `split` gives at least one field, none holding the separator |
| Text.JoinSplit | server/src/middlewares/auth.ts:21 | joining the fields of a split gives the string back |
| Text.SplitFirstField | server/src/middlewares/auth.ts:21 | the first field is the text before the first separator |
| Text.IntToString | server/dist/controllers/qr.controller.js:22 | the decimal spelling of an integer: digits, with a leading '-' exactly for negatives |
| Text.IntToStringInjective | server/dist/controllers/qr.controller.js:22 | different integers are spelt differently |
| Text.NatToStringRoundTrip | server/dist/controllers/recipes.controller.js:12-13 | reading back the decimal spelling of a number gives the number |
| Text.IntegerOf | server/dist/controllers/recipes.controller.js:31 | an integer iff the number is finite and whole, and then equal to it |
| Text.Numeral | server/dist/controllers/recipes.controller.js:12-13 | `Number` on trimmed text: "" is 0, digits are their value, the infinity spellings (and only they) are infinite with their sign, and a negative value needs a leading '-' |
| Text.NumberOf | server/dist/controllers/recipes.controller.js:12-13 | surrounding whitespace is ignored, so blank text is 0 |
| Text.NumberOfDigits | server/dist/controllers/recipes.controller.js:12-13 | `Number` of a non-empty digit string is its value |
| Text.NumberOfNegative | server/dist/controllers/recipes.controller.js:31 | a minus sign and digits read as the negated value |
| Text.NumeralOfDecimalFraction | server/dist/controllers/recipes.controller.js:12-13 | digits, a point and digits read as the decimal fraction they spell |
| Text.NumberOfIntToString | server/dist/controllers/qr.controller.js:22 | `Number` reads the decimal spelling of any integer, negative ones included, back as that integer |
| Text.NumberOfHalf | server/dist/controllers/recipes.controller.js:12-13 | "1.5" is one and a half, not an integer |
| Text.NumberOfPointZero | server/dist/controllers/recipes.controller.js:31 | "1.0" is the integer 1, exactly as "1" is |
| Sequences.SortDesc | server/dist/services/recipes.service.js:28 | `orderBy desc` reorders the rows (a permutation) |
| Sequences.SortDescSorted | server/dist/services/recipes.service.js:28 | the result has the keys in non-increasing order |
| Sequences.Filter | server/dist/services/recipes.service.js:11-22 | a `where` keeps the rows that satisfy it and no others, never adding any |
| Sequences.FilterAppend | server/dist/services/recipes.service.js:110-111 | filtering distributes over concatenation |
| Sequences.Window | server/dist/services/recipes.service.js:26-27 | `skip`/`take` gives at most `take` rows, and exactly `take` when the table holds enough past `skip` |
| Sequences.WindowsTile | server/dist/services/recipes.service.js:26-27 | consecutive windows of one size tile the sequence |
| Sequences.WindowHolds | server/dist/services/recipes.service.js:26-27 | element `k` sits in window `k / size` at position `k % size` |
| Json.CheckString | server/src/validators/recipes.schema.ts:17-21 | a zod string passes iff it is a string within its length bounds, and is returned as given; a refusal carries issues |
| Json.CheckInt | server/src/validators/reviews.schema.ts:4 | a zod integer passes iff it is an integral number within its bounds, and is returned as that number; a refusal carries issues |
| Json.CheckPositiveInt | server/dist/controllers/qr.controller.js:11 | a zod positive integer passes iff it is an integral number above 0 |
| Json.CheckArray | server/src/validators/recipes.schema.ts:22 | a zod array passes iff it is an array of at least the minimum length whose items all pass, and returns their values in order |
| Json.Required | server/src/validators/recipes.schema.ts:17 | a missing required key is refused; a present one passes iff its check does |
| Json.Optional | server/src/validators/recipes.schema.ts:19-20 | a missing optional key passes as absent; a present one passes iff its check does |
| Helpers.AlnumRun | client/src/utils/helpers.ts:14 | the length of the leading run of `[a-z0-9]` |
| Helpers.OtherRun | client/src/utils/helpers.ts:14 | the length of the leading run outside `[a-z0-9]` |
| Helpers.Words | client/src/utils/helpers.ts:14 | the maximal runs of `[a-z0-9]`, in order |
| Helpers.JoinDashIsSlug | client/src/utils/helpers.ts:14-15 | words joined by single dashes have the form of a slug |
| Helpers.WordsOfJoinDash | client/src/utils/helpers.ts:14-15 | splitting dash-joined words gives the words back |
| Helpers.DashifyAlnumPrefix | client/src/utils/helpers.ts:14 | the first `replace` copies a leading run of letters and digits |
| Helpers.DashifyOtherPrefix | client/src/utils/helpers.ts:14 | a leading run outside `[a-z0-9]` becomes one dash |
| Helpers.DashifyWords | client/src/utils/helpers.ts:14 | from a letter or digit, the first `replace` gives the words joined by dashes, plus one dash when the string ends with a non-alphanumeric character |
| Helpers.StripAround | client/src/utils/helpers.ts:15 | the second `replace` drops one dash at each end |
| Helpers.StripDashifyWords | client/src/utils/helpers.ts:14-15 | both replacements together give the words joined by single dashes |
| Helpers.GenerateSlug | client/src/utils/helpers.ts:11-16 | the slug is the words (maximal runs of `[a-z0-9]`) of the lower-cased title joined by single dashes, so it holds only `[a-z0-9]` and '-', has no '-' at either end and no two in a row |
| Helpers.GenerateSlugIdempotent | client/src/utils/helpers.ts:11-16 | the slug of a slug is itself |
| Helpers.SlugOfNoAlnum | client/src/utils/helpers.ts:14-15 | a title with no ASCII letter or digit gives "" |
| Helpers.SlugKeepsAlnums | client/src/utils/helpers.ts:13-14 | the slug keeps exactly the letters and digits of the lower-cased title, in order |
| Helpers.FormatIngredients | client/src/utils/helpers.ts:21-26 | same length and order; each amount copied; the name is the type's name, or "" without a type |
| Helpers.FormatIngredientsAppend | client/src/utils/helpers.ts:22 | formatting distributes over concatenation |
| Helpers.FormatIgnoresOwnName | client/src/utils/helpers.ts:23 | an ingredient's own `name` field is never shown, only its type's |
| QrGenerator.Base64Char | client/src/utils/qrGenerator.ts:6 | the alphabet is letters, digits, '+' and '/' |
| QrGenerator.Base64CharValue | client/src/utils/qrGenerator.ts:6 | a Base64 character decodes to its 6-bit value |
| QrGenerator.OctetsOfSextets | client/src/utils/qrGenerator.ts:6 | splitting three bytes into four sextets and back gives the bytes |
| QrGenerator.Base64Encode | client/src/utils/qrGenerator.ts:6 | four characters per started group of three bytes, from the alphabet or '=' |
| QrGenerator.Base64RoundTrip | client/src/utils/qrGenerator.ts:6 | decoding the encoding gives the bytes back |
| QrGenerator.Base64Injective | client/src/utils/qrGenerator.ts:6 | different bytes have different encodings |
| QrGenerator.Btoa | client/src/utils/qrGenerator.ts:6 | `btoa` succeeds iff every character code is below 256, with the Base64 of those codes |
| QrGenerator.TokenSeed | client/src/utils/qrGenerator.ts:6 | the seed text is ASCII, so `btoa` never throws on it |
| QrGenerator.ReviewHash | client/src/utils/qrGenerator.ts:6 | the hash holds only ASCII letters and digits: no '+', '/' or '=' |
| QrGenerator.GenerateReviewQrUrl | client/src/utils/qrGenerator.ts:4-8 | the link has the server's deep-link form for the given base, and with no base the server's default base |
| QrGenerator.LinkNamesRecipe | client/src/utils/qrGenerator.ts:7 | two equal links with one base carry the same recipe id and hash |
| QrGenerator.EmptyBaseKept | client/src/utils/qrGenerator.ts:4 | an explicitly empty base is kept (the link is relative), while the server falls back to its default |
| QrGenerator.GetTestReviewUrl | client/src/utils/qrGenerator.ts:11-13 | the link with the default base, which it starts with |
| RecipeFormView.InitialRows | client/src/components/RecipeForm.tsx:15-23 | editing starts with one row per ingredient, named after its type and carrying its amount, each with a fresh id; a new recipe starts with one empty row |
| RecipeFormView.RemoveRows | client/src/components/RecipeForm.tsx:28-29 | a row survives iff it was there and has a different id |
| RecipeFormView.PatchRows | client/src/components/RecipeForm.tsx:31-32 | same number of rows; rows with the id get the patch's fields over their own, the others are unchanged |
| RecipeFormView.AnyBlankRow | client/src/components/RecipeForm.tsx:37 | true iff some row's trimmed name or trimmed amount is empty |
| RecipeFormView.Disabled | client/src/components/RecipeForm.tsx:34-37 | enabled iff the trimmed title and method are non-empty and every row has a non-empty trimmed name and amount |
| RecipeFormView.Payload | client/src/components/RecipeForm.tsx:137-147 | the submitted record: trimmed title, the slug of the trimmed title, image URL and description absent iff they trim to "", trimmed method, and each row's trimmed name and amount in order |
| RecipeFormView.RecipeForm.constructor | client/src/components/RecipeForm.tsx:11-23 | the fields start from the edited recipe (missing optionals as "") or empty, and the rows are the initial rows |
| RecipeFormView.RecipeForm.SetField | client/src/components/RecipeForm.tsx:11-14 | a text input changes its own field and nothing else |
| RecipeFormView.RecipeForm.AddRow | client/src/components/RecipeForm.tsx:25-26 | one empty row with a fresh id is appended; nothing else changes |
| RecipeFormView.RecipeForm.RemoveRow | client/src/components/RecipeForm.tsx:28-29 | the rows with that id are removed; nothing else changes |
| RecipeFormView.RecipeForm.UpdateRow | client/src/components/RecipeForm.tsx:31-32 | the rows with that id are patched; nothing else changes |
| RecipeFormView.RecipeForm.Submit | client/src/components/RecipeForm.tsx:34-148 | something is sent iff the button is enabled (trimmed title and method non-empty, no blank row), and then it is the payload |
| RecipeFormView.RemoveRowsKeepsOrder | client/src/components/RecipeForm.tsx:28-29 | no row with the id is left, and rows without it are kept in order |
| RecipeFormView.AddThenRemove | client/src/components/RecipeForm.tsx:25-29 | removing a just-added row with a fresh id restores the rows |
| RecipeFormView.PatchIdempotent | client/src/components/RecipeForm.tsx:31-32 | a patch that keeps the id can be applied twice with no further change |
| RecipeFormView.PatchRenamesRow | client/src/components/RecipeForm.tsx:31-32 | a patch that changes a row's id puts the row out of reach of the old id |
| RecipeFormView.NoRowsNotDisabling | client/src/components/RecipeForm.tsx:34-37 | with no rows, only the title and the method can disable the button |
| RecipeFormView.AddedRowDisables | client/src/components/RecipeForm.tsx:25-37 | a freshly added row disables the button until it is filled in |
| RecipeFormView.EnabledPayload | client/src/components/RecipeForm.tsx:34-147 | an enabled form sends a non-empty trimmed title and method, a well-formed slug made of the title's words, and rows with non-empty names and amounts |
| RecipeFormView.EditWithoutIngredients | client/src/components/RecipeForm.tsx:15-22 | a recipe with an empty ingredient list starts with no rows, because an empty array is truthy |
| RecipeDetailView.CapitalizeWords | client/src/components/RecipeDetail.tsx:55 | same length; the label upper-cases exactly the characters that start a word and keeps every other one |
| RecipeDetailView.CapitalizeIdempotent | client/src/components/RecipeDetail.tsx:55 | capitalising twice is capitalising once |
| RecipeDetailView.CapitalizeOnlyChangesCase | client/src/components/RecipeDetail.tsx:55 | only letter case changes: the label and the name lower-case to the same text |
| RecipeDetailView.IngredientLabel | client/src/components/RecipeDetail.tsx:55 | the type's name when it is present and non-empty, else the ingredient's own name, capitalised |
| RecipeDetailView.RatingDisplay | client/src/components/RecipeDetail.tsx:82 | a dash iff the average is missing or 0, otherwise the average to one decimal |
| RecipeDetailView.AuthorName | client/src/components/RecipeDetail.tsx:96 | "Anonymous" for a missing or empty name, the name otherwise; never empty |
| RecipeDetailView.ReviewStars | client/src/components/RecipeDetail.tsx:99-108 | five stars, star k lit iff k is at most the rating, so the rating clamped to 0..5 are lit |
| RecipeDetailView.ReviewsPanelShown | client/src/components/RecipeDetail.tsx:87 | the reviews panel appears iff there is a non-empty review list |
| RecipeDetailView.AdminButtons | client/src/components/RecipeDetail.tsx:23-44 | Edit iff admin; Delete iff admin and a delete callback exists; so Delete implies Edit |
| RecipeDetailView.ConfirmMessageInjective | client/src/components/RecipeDetail.tsx:34 | the question names the recipe: different titles give different questions |
| RecipeDetailView.DeleteRuns | client/src/components/RecipeDetail.tsx:31-37 | deletion runs iff the Delete button is shown and the user accepts the question naming the recipe |
| RecipeDetailView.NonAdminNeverDeletes | client/src/components/RecipeDetail.tsx:23 | a user who is not the admin never deletes |
| AppState.KeptId | client/src/App.tsx:129 | a present, non-empty row id is kept; otherwise the fresh id is used |
| AppState.EditedIngredients | client/src/App.tsx:128-135 | one stored ingredient per submitted row, in order, with the kept or fresh id, the row's name and amount, the recipe's id, and no type |
| AppState.ApplyEdit | client/src/App.tsx:122-136 | the edited recipe keeps its id, slug, reviews and rating, and takes the form's title, image URL, description, method and ingredients |
| AppState.EditRecipes | client/src/App.tsx:119-139 | the list keeps its length and its ids; only recipes with the edited id change, and they become the edited version |
| AppState.FindById | client/src/App.tsx:90 | `find` gives the first recipe with the id, and nothing iff no recipe has it |
| AppState.FindAfterEdit | client/src/App.tsx:116-140 | after an edit, looking up the edited id finds the edited version of what was found before, and any other id finds the same recipe as before |
| AppState.CreatedIsFound | client/src/App.tsx:103 | a created recipe, put at the front, is what its id finds |
| AppState.App.constructor | client/src/App.tsx:22-27 | the app starts on the login page, not admin, with no recipes, not loading and no error |
| AppState.App.GoHome | client/src/App.tsx:55 | the page becomes home; nothing else changes |
| AppState.App.GoCreate | client/src/App.tsx:56 | the page becomes the create form; nothing else changes |
| AppState.App.GoDetail | client/src/App.tsx:57 | the page becomes that recipe's detail; nothing else changes |
| AppState.App.GoEdit | client/src/App.tsx:58 | the page becomes that recipe's edit form; nothing else changes |
| AppState.App.HandleLogin | client/src/App.tsx:61-68 | an alert is raised iff the password is not exactly "admin"; "admin" makes the user admin and goes home; any other password changes nothing |
| AppState.App.LoadRecipes | client/src/App.tsx:30-47 | off the home page nothing changes; on it, loading ends off, with the fetched items and no error, or the old list and the error's message |
| AppState.App.SubmitCreate | client/src/App.tsx:99-110 | a created recipe goes to the front and the app goes home; a failure keeps list and page and sets the message; loading ends off |
| AppState.App.SubmitEdit | client/src/App.tsx:118-141 | the recipe list becomes the edited list and the app shows that recipe's detail page; nothing else changes |
| AppState.App.DetailRecipe | client/src/App.tsx:87-90 | the detail page shows a listed recipe with the page's id, and has nothing to show iff no recipe has it |
| ClientTypes.ErrorText | client/src/App.tsx:38 | `err instanceof Error ? err.message : fallback`: the message of an `Error`, the fallback for anything else thrown |
| ClientTypes.LitStars | client/src/components/ReviewPage.tsx:159-160 | five stars, star k lit iff k is at most the level |
| ClientTypes.LitStarsPrefix | client/src/components/ReviewPage.tsx:159-160 | the lit stars are a prefix, as many as the level clamped to 0..5 |
| StarRatingView.StarVariant | client/src/components/StarRating.tsx:58-117 | a full star iff filled and not half, the half overlay iff filled and half, an empty star iff not filled |
| StarRatingView.JsRem1 | client/src/components/StarRating.tsx:24 | JavaScript's `rating % 1`: in [0, 1) for a non-negative rating and in (-1, 0] for a negative one |
| StarRatingView.StarCounts | client/src/components/StarRating.tsx:23-25 | the full stars are the rating's floor, there is a half star iff `rating % 1` is at least 0.5, and full, half and empty add up to five |
| StarRatingView.Strip | client/src/components/StarRating.tsx:30-41 | full stars first, then the half star if any, then the empty ones, five positions in all |
| StarRatingView.Render | client/src/components/StarRating.tsx:7-50 | no rating (absent or 0) draws five empty stars and, if asked, the no-rating label; a rating draws its strip with the number beside it when asked |
| StarRatingView.RatingUpToFive | client/src/components/StarRating.tsx:23-41 | a rating in (0, 5] draws a strip of exactly five stars with non-negative counts |
| StarRatingView.ThreeAndAHalf | client/src/components/StarRating.tsx:23-41 | 3.5 draws three full stars, a half star and one empty star |
| StarRatingView.AboveFive | client/src/components/StarRating.tsx:25-39 | above five, the component throws exactly when the rating is at least 5.5 |
| StarRatingView.NegativeThrows | client/src/components/StarRating.tsx:23-31 | a negative rating makes the component throw |
| ReviewPageView.Request | client/src/components/ReviewPage.tsx:42-57 | the POST goes to the recipe's review URL, carries the token parameter iff the token is truthy, and sends the given fields |
| ReviewPageView.FailureMessage | client/src/components/ReviewPage.tsx:59-66 | a refused request shows the body's non-empty `error` field or the fixed text; a thrown failure shows its message or the fixed text |
| ReviewPageView.RatingText | client/src/components/ReviewPage.tsx:77-86 | a word for each rating from 1 to 5, and "" iff the rating is anything else |
| ReviewPageView.RatingTextsDistinct | client/src/components/ReviewPage.tsx:77-86 | the five words differ, from "Poor" to "Excellent" |
| ReviewPageView.SubmitOutcome | client/src/components/ReviewPage.tsx:27-70 | a blank name, then a blank comment, stops with its message and sends nothing; otherwise the fields are sent, submitting ends, and the page is submitted iff the reply is ok (or it already was), else shows the failure message |
| ReviewPageView.NameCheckedFirst | client/src/components/ReviewPage.tsx:29-36 | with both fields blank the page asks for the name |
| ReviewPageView.FailureNotSubmitted | client/src/components/ReviewPage.tsx:59-66 | a failed request never marks the page submitted and always leaves a message |
| ReviewPageView.ReviewPage.constructor | client/src/components/ReviewPage.tsx:17-25 | empty name and comment, five stars, nothing submitted, no error, no hover; within the controls' bounds |
| ReviewPageView.ReviewPage.HandleInputChange | client/src/components/ReviewPage.tsx:72-75 | the named field takes the value, the others keep theirs, and the error is cleared; a change the controls can make keeps the fields within their bounds |
| ReviewPageView.ReviewPage.HandleSubmit | client/src/components/ReviewPage.tsx:27-70 | the new state and the request are the submission outcome for the trimmed fields; from fields within the controls' bounds, whatever is sent passes the server's schema |
| ReviewPageView.ReviewPage.MouseEnter | client/src/components/ReviewPage.tsx:168 | the hovered star is set; nothing else changes |
| ReviewPageView.ReviewPage.MouseLeave | client/src/components/ReviewPage.tsx:169 | the hover is cleared; nothing else changes |
| ReviewPageView.ReviewPage.ActiveStars | client/src/components/ReviewPage.tsx:159-160 | star k is lit iff k is at most the hovered star, or the rating when nothing is hovered |
| ReviewPageView.HoverLightsUpTo | client/src/components/ReviewPage.tsx:160-168 | hovering star s lights exactly the first s stars, whatever the rating |
| ReviewPageView.SentBodyAccepted | client/src/components/ReviewPage.tsx:52-56 | a sent form with a star rating, a name of at most 50 and a comment of at most 500 characters passes the server's schema with the same fields |
| ReviewPageView.BodyAccepted | server/src/controllers/anonymous-reviews.controller.ts:6-10 | the server's schema accepts a body within its bounds and reads back the same fields |
| ReviewPageView.LongNameSentButRefused | client/src/components/ReviewPage.tsx:29-32 | the submit handler checks only that the name is not blank, so a trimmed name over 50 characters (set other than by typing) is sent and refused |
| ReviewPageView.LettersTrimmed | client/src/components/ReviewPage.tsx:53 | a name of letters only is unchanged by trimming |
| ReviewPageView.NameTooLong | server/src/controllers/anonymous-reviews.controller.ts:7 | the server refuses a name longer than 50 characters |
| QrCodeDisplayView.DashNonAlnum | client/src/components/QRCodeDisplay.tsx:46 | same length; each character outside `[A-Za-z0-9]` becomes a dash, the others are kept |
| QrCodeDisplayView.DownloadFilename | client/src/components/QRCodeDisplay.tsx:45-47 | a non-empty title gives a name seven characters longer ending in "-qr.png"; a missing or empty one gives "qrcode.png" |
| QrCodeDisplayView.FilenameFromTitle | client/src/components/QRCodeDisplay.tsx:45-46 | with a title, the name is the title position by position, its ASCII letters and digits lower-cased and every other character a dash, then "-qr.png" |
| QrCodeDisplayView.StemCharacters | client/src/components/QRCodeDisplay.tsx:46 | before the suffix, the name holds only lower-case ASCII letters, digits and dashes |
| QrCodeDisplayView.StemIdempotent | client/src/components/QRCodeDisplay.tsx:46 | deriving the name from a derived name changes nothing |
| QrCodeDisplayView.TitlesCanCollide | client/src/components/QRCodeDisplay.tsx:46 | dashes are not collapsed and case is lost, so "A b" and "a-b" download under the same name |
| QrCodeDisplayView.AltText | client/src/components/QRCodeDisplay.tsx:91 | "QR Code for" and the title when there is a non-empty title, else "QR Code" |
| QrCodeDisplayView.View | client/src/components/QRCodeDisplay.tsx:52-104 | the spinner iff loading; otherwise the error iff it is non-empty; otherwise the button iff there is no image; otherwise the image with its alt text, size and download button |
| QrCodeDisplayView.QrCodeDisplay.constructor | client/src/components/QRCodeDisplay.tsx:19-21 | no image, not loading, no error |
| QrCodeDisplayView.QrCodeDisplay.StartGeneration | client/src/components/QRCodeDisplay.tsx:30-31 | loading on and the error cleared; the image is kept |
| QrCodeDisplayView.QrCodeDisplay.FinishGeneration | client/src/components/QRCodeDisplay.tsx:33-40 | loading off, with the new image or, beside the old image, the error's message |
| QrCodeDisplayView.QrCodeDisplay.GenerateQrCode | client/src/components/QRCodeDisplay.tsx:29-41 | after a generation, loading is off and the panel holds the new image with no error, or the old image with the failure's message |
| QrCodeDisplayView.QrCodeDisplay.UrlChanged | client/src/components/QRCodeDisplay.tsx:23-27 | an empty URL changes nothing; any other URL runs a generation |
| QrCodeDisplayView.QrCodeDisplay.HandleDownload | client/src/components/QRCodeDisplay.tsx:43-50 | nothing is downloaded iff there is no image; otherwise the image under the title's filename |
| QrCodeDisplayView.SpinnerWhileLoading | client/src/components/QRCodeDisplay.tsx:52-58 | while loading only the spinner shows, whatever else the state holds |
| QrCodeDisplayView.SuccessShowsImage | client/src/components/QRCodeDisplay.tsx:87-104 | after a successful generation the image shows, with the download button exactly when asked for |
| QrCodeDisplayView.EmptyMessageHidesError | client/src/components/QRCodeDisplay.tsx:37-60 | an `Error` with an empty message shows no error panel: the panel looks as if nothing failed |
| SlideshowView.Step | client/src/components/CocktailSlideshow.tsx:16 | the next index is in range: one more, or 0 after the last cocktail |
| SlideshowView.StepsForward | client/src/components/CocktailSlideshow.tsx:15-17 | ticks that do not reach the end move one slide each |
| SlideshowView.StepsCompose | client/src/components/CocktailSlideshow.tsx:15-17 | a ticks then b ticks are a + b ticks |
| SlideshowView.FullCycle | client/src/components/CocktailSlideshow.tsx:15-17 | from any index in range the show reaches the last cocktail, wraps to the first, and is back after as many ticks as there are cocktails |
| SlideshowView.PictureOf | client/src/components/CocktailSlideshow.tsx:38-51 | a photo iff the image URL is truthy, with the title as its alt text |
| SlideshowView.Dots | client/src/components/CocktailSlideshow.tsx:55-66 | no dots for at most one cocktail; otherwise one per cocktail, highlighted exactly at the index |
| SlideshowView.View | client/src/components/CocktailSlideshow.tsx:22-68 | the placeholder iff there are no cocktails; a crash iff the index is past the end of a non-empty list; otherwise that cocktail's picture and the dots |
| SlideshowView.OneActiveDot | client/src/components/CocktailSlideshow.tsx:57-64 | with several cocktails and the index in range exactly one dot is active |
| SlideshowView.Slideshow.constructor | client/src/components/CocktailSlideshow.tsx:9 | the show starts at the first cocktail |
| SlideshowView.Slideshow.SetCocktails | client/src/components/CocktailSlideshow.tsx:8-9 | a new list leaves the index as it was: neither reset nor clamped |
| SlideshowView.Slideshow.Tick | client/src/components/CocktailSlideshow.tsx:13-17 | while the timer runs (more than one cocktail) one tick steps the index; the list is kept |
| SlideshowView.FirstSlide | client/src/components/CocktailSlideshow.tsx:9-33 | a non-empty list first shows its first cocktail |
| SlideshowView.TickRecovers | client/src/components/CocktailSlideshow.tsx:16 | one tick brings any index back in range |
| SlideshowView.ShrinkCrashes | client/src/components/CocktailSlideshow.tsx:9-33 | at the third of three cocktails, a new list of two makes the render crash, until the next tick |
| Store.FindRecipeBySlug | server/dist/services/recipes.service.js:52-53 | `findUnique` by slug finds a recipe with that slug, and nothing only when no recipe has it |
| Store.FindType | server/dist/services/recipes.service.js:84 | `connect` by id finds a type with that id, and nothing only when there is none |
| Store.FindTypeByName | server/dist/services/recipes.service.js:91-92 | the `connectOrCreate` lookup finds a type with that name, and nothing only when there is none |
| RecipesService.FindSlugUnique | server/dist/services/recipes.service.js:52-53 | with unique slugs, the recipe found for a slug is the only one that has it |
| RecipesService.CreateKeepsValid | server/dist/services/recipes.service.js:73-102 | a create with a free slug and resolvable ingredients keeps every table's keys unique and every counter ahead of its ids |
| RecipesService.UpdateKeepsValid | server/dist/services/recipes.service.js:103-134 | an update whose slug clashes with no other recipe keeps every table's keys unique and every counter ahead of its ids |
| RecipesService.DeleteKeepsKeys | server/dist/services/recipes.service.js:135-139 | removing a recipe with its ingredients and reviews keeps every remaining key unique |
| Sequences.FilterIdempotent | server/dist/services/recipes.service.js:11-22 | filtering twice by the same condition is filtering once |
| Sequences.WindowSorted | server/dist/services/recipes.service.js:26-28 | a page of a newest-first list is itself newest first, and holds only rows of the list |
| Text.NumberOfNatToString | server/dist/controllers/recipes.controller.js:12-13 | `Number` reads the decimal spelling of any natural number back as that number |

## Left out

- The network, the database engine and the browser are not modelled in themselves. Each request's outcome, each fetch reply and each drawn QR image is a parameter. The database is the tables of one `Database` object.
- `crypto.randomBytes`, `Date.now`/`new Date()` and the client's `uid()` are inputs: random bytes, the current instant and fresh ids are parameters.
- `jwt.verify` is an input: the decoded payload, or the kind of error it throws, is a parameter. So is zod's `.url()` syntax check.
- Logging (`console.log`/`console.error`) and HTTP headers other than `Authorization` and the token cookie are left out. They change no state the model has.
- Concurrency is left out. Each async handler runs from start to end as one step, so interleavings of two requests, React's batching and a second click during a pending submission are not represented.
- ReviewPageView.ReviewPage.HandleSubmit: the intermediate `isSubmitting = true` state, visible only while the request is pending, is folded into the operation.
- Text.Lower: `toLowerCase`/`toUpperCase` are modelled for ASCII letters only. Other characters are kept as they are. Unicode case mapping is not modelled.
- Strings are sequences of code points. JavaScript's UTF-16 lengths (for zod's `min`/`max` and the inputs' `maxLength`) differ only outside the Basic Multilingual Plane.
- Text.NumberOf: a finite JavaScript number is modelled as the exact real its literal spells. Rounding to the nearest double is not modelled; neither is the overflow of a huge exponent to an infinity, nor the sign of a negative zero. So a skip or size is judged whole or fractional on its exact value, not on the double JavaScript computes.
- Ratings and averages are reals, and stored ids are integers. The 32-bit range of Prisma's `Int` is not modelled: an integer id out of that range is looked up rather than refused.
- `toFixed(1)` and `toLocaleDateString()` are formatting only. The model keeps the value that is formatted.
- Styling, CSS classes, the SVG drawings and animations are left out.
- The client's `generateStyledQRCode`/`downloadQRCode` (canvas drawing) and the image cropper and editor components (canvas geometry) are not part of this model.
- The second copy of the recipe form inlined in `client/src/App.tsx` is not modelled. The model uses the `RecipeForm` component.
- The Prisma schema file is not part of this model. The cascading deletes of ingredients and reviews, the unique columns and `@updatedAt` on `updatedAt` are assumed, as the services' use of them implies.
- QR tokens and recipes: the relation's `onDelete` rule is not part of this model either. The model assumes a QR token outlives a deleted recipe with its `recipeId` unchanged, which is the case the "recipe still exists" check in server/src/services/qr.service.ts:55-58 handles; RecipesService.DeleteRecipe keeps the token table as it was. A `Restrict` rule (the delete fails with P2003), a `Cascade` rule (the tokens go too) or `SetNull` (the id becomes null) is not modelled.
- Auto-increment ids that a failed transaction consumes are not modelled: an id is handed out only when its row is written.
- RecipesSchema.IngredientInput: when a field fails its length check and neither `typeId` nor `name` is given, zod also reports "Provide either typeId or name"; the model does not.
- The compiled `server/dist` copy of the recipe schema also accepts `""` as an image URL. The model follows `server/src/validators/recipes.schema.ts`.
- QrService.MarkTokenAsUsed: the `catch` that logs a failed update cannot arise, because an update of the token table cannot fail in the model.
- QrService.ValidateQrToken: the `catch` around the lookup cannot arise either, because a lookup cannot fail in the model.
- The controllers' `catch` blocks that answer 500 for errors the model cannot raise are not modelled beyond the error handler's fallback.
- The login controller (bcrypt and `jwt.sign`), the image upload service and controller, the seed and password scripts, and the server bootstrap (CORS, helmet, listen) are not part of this model. Neither is the lazily created Prisma client.
- The authenticated review controllers are not part of this model. The `src` one calls `createReview` with two arguments against the three-parameter service, so its behaviour is ill-typed. Reviews reach the model through the anonymous route and `Reviews.CreateReview`.
- The client's API wrapper, hooks and `QrManager` are not part of this model: they are fetch and storage plumbing around the requests. The purely presentational components (grids, landing page, login card, top bar, empty state) are left out too.
- Routers are wiring only. The model keeps the middleware order of the recipe and anonymous-review routes (`RecipesController.PostRecipeRoute` and the others).
- Where `server/src` and `server/dist` hold two copies of a file, the fuller one is modelled: the QR service and middleware from `src`, and the QR and recipe controllers and the recipe service from `dist`. The other copies are subsets or are identical.
- Reviews.AvgRating: Prisma's `_avg` returns a floating-point mean. The model uses the exact rational mean.
- Time zones and daylight-saving shifts are not modelled. Instants carry local calendar fields, so `setFullYear(+1)` (`server/src/services/qr.service.ts:25`) and the `>` comparison of expiry with now (`server/src/services/qr.service.ts:51`) are exact on those fields; across a shift, the real instant a token expires can differ from the model's.
