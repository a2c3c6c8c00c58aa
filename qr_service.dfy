/**
 * The QR-token table: generating a long-lived random token for a recipe,
 * validating a token presented by a guest, marking it used, listing and
 * counting the active tokens, and deleting one. The clock (`now`), the random
 * bytes and the id the store assigns to a new row are parameters.
 */
module QrService {
  import opened Wrappers
  import opened Calendar
  import opened Sequences
  import opened Store
  import Hex

  /** `crypto.randomBytes(32)` */
  const TokenBytes := 32

  /** The `select: { id, title, slug }` projection of a recipe. */
  datatype RecipeInfo = RecipeInfo(id: nat, title: string, slug: string)

  function InfoOf(r: RecipeRow): RecipeInfo {
    RecipeInfo(r.id, r.title, r.slug)
  }

  /** What `generateSecureQrToken` returns. */
  datatype GeneratedToken = GeneratedToken(id: string, token: string, expiresAt: Instant, recipeId: int, recipe: RecipeInfo)

  /** The row stored for a new token: hex of the random bytes, one year of life, not yet used. */
  function NewTokenRow(id: string, random: seq<Hex.Byte>, recipeId: int, now: Instant): (row: QrTokenRow)
    ensures |row.token| == 2 * |random| && Hex.IsHexString(row.token)
    ensures Hex.Decode(row.token) == Some(random)
    ensures Earlier(now, row.expiresAt) && !row.used && row.usedAt.None?
  {
    Hex.DecodeEncode(random);
    QrTokenRow(id, Hex.Encode(random), recipeId, OneYearLater(now), false, None, now)
  }

  // ---------------------------------------------------------------------------
  // generateSecureQrToken

  /**
   * Creates a token for an existing recipe. A missing recipe is the error
   * "Recipe not found" and nothing is stored; a token or id that collides with
   * a stored one is the store's unique-constraint error.
   */
  method GenerateSecureQrToken(db: Database, recipeId: int, random: seq<Hex.Byte>, newId: string, now: Instant)
    returns (r: Result<GeneratedToken, Failure>)
    requires db.Valid()
    requires |random| == TokenBytes
    modifies db
    ensures db.Valid()
    ensures db.SameExceptTokens()
    ensures FindRecipe(db.recipes, recipeId).None? ==> r == Err(Message("Recipe not found"))
    ensures FindRecipe(db.recipes, recipeId).Some? && r.Err? ==> r.error == PrismaKnown(UniqueViolation)
    ensures r.Ok? <==>
              FindRecipe(db.recipes, recipeId).Some?
              && FindToken(old(db.tokens), Hex.Encode(random)).None?
              && FindTokenById(old(db.tokens), newId).None?
    ensures r.Err? ==> db.tokens == old(db.tokens)
    ensures r.Ok? ==>
              db.tokens == old(db.tokens) + [NewTokenRow(newId, random, recipeId, now)]
              && r.value == GeneratedToken(newId, Hex.Encode(random), OneYearLater(now), recipeId,
                                           InfoOf(FindRecipe(db.recipes, recipeId).value))
              && |r.value.token| == 64 && Hex.IsHexString(r.value.token)
  {
    var recipe := FindRecipe(db.recipes, recipeId);
    if recipe.None? {
      return Err(Message("Recipe not found"));
    }
    var row := NewTokenRow(newId, random, recipeId, now);
    if FindToken(db.tokens, row.token).Some? || FindTokenById(db.tokens, newId).Some? {
      return Err(PrismaKnown(UniqueViolation));
    }
    db.tokens := db.tokens + [row];
    r := Ok(GeneratedToken(newId, row.token, row.expiresAt, recipeId, InfoOf(recipe.value)));
  }

  // ---------------------------------------------------------------------------
  // validateQrToken

  datatype Validation = Validation(valid: bool, recipeId: Option<int>)

  /**
   * A token is valid when its row exists, `now` is not after its expiry, and
   * the recipe it points to still exists. A read that fails is reported as
   * invalid too; the in-memory lookup here cannot fail.
   */
  function ValidateQrToken(tokens: seq<QrTokenRow>, recipes: seq<RecipeRow>, token: string, now: Instant): (v: Validation)
    ensures v.valid <==> v.recipeId.Some?
    ensures v.valid ==>
              exists row :: row in tokens && row.token == token && !Earlier(row.expiresAt, now)
                            && FindRecipe(recipes, row.recipeId).Some? && v.recipeId == Some(row.recipeId)
    ensures (forall row :: row in tokens ==> row.token != token) ==> !v.valid
  {
    match FindToken(tokens, token)
    case None => Validation(false, None)
    case Some(row) =>
      if Earlier(row.expiresAt, now) then Validation(false, None)
      else if FindRecipe(recipes, row.recipeId).None? then Validation(false, None)
      else Validation(true, Some(row.recipeId))
  }

  /** With unique tokens, validity is exactly: the row exists, is not expired, and its recipe exists. */
  lemma ValidateIff(tokens: seq<QrTokenRow>, recipes: seq<RecipeRow>, row: QrTokenRow, now: Instant)
    requires UniqueTokens(tokens)
    requires row in tokens
    ensures ValidateQrToken(tokens, recipes, row.token, now) ==
              if !Earlier(row.expiresAt, now) && FindRecipe(recipes, row.recipeId).Some?
              then Validation(true, Some(row.recipeId))
              else Validation(false, None)
  {
    FindTokenUnique(tokens, row.token, row);
  }

  /** At the instant of expiry a token still validates, but it is no longer active (listed or counted). */
  lemma ExpiryInstant(tokens: seq<QrTokenRow>, recipes: seq<RecipeRow>, row: QrTokenRow)
    requires UniqueTokens(tokens)
    requires row in tokens && FindRecipe(recipes, row.recipeId).Some?
    ensures ValidateQrToken(tokens, recipes, row.token, row.expiresAt).valid
    ensures !IsActive(row, row.expiresAt)
  {
    ValidateIff(tokens, recipes, row, row.expiresAt);
  }

  /** A freshly generated token validates, for its recipe, until it expires one year later. */
  lemma GeneratedTokenValidates(tokens: seq<QrTokenRow>, recipes: seq<RecipeRow>, newId: string,
                                random: seq<Hex.Byte>, recipeId: int, now: Instant, later: Instant)
    requires UniqueTokens(tokens + [NewTokenRow(newId, random, recipeId, now)])
    requires FindRecipe(recipes, recipeId).Some?
    requires !Earlier(OneYearLater(now), later)
    ensures ValidateQrToken(tokens + [NewTokenRow(newId, random, recipeId, now)], recipes, Hex.Encode(random), later)
              == Validation(true, Some(recipeId))
  {
    var row := NewTokenRow(newId, random, recipeId, now);
    ValidateIff(tokens + [row], recipes, row, later);
  }

  // ---------------------------------------------------------------------------
  // markTokenAsUsed

  /**
   * The table after the row carrying `token` is marked used at `now`: only
   * the matching row changes, and only its `used` and `usedAt` columns.
   */
  function MarkedUsed(tokens: seq<QrTokenRow>, token: string, now: Instant): (r: seq<QrTokenRow>)
    ensures |r| == |tokens|
    ensures forall i :: 0 <= i < |tokens| && tokens[i].token != token ==> r[i] == tokens[i]
    ensures forall i :: 0 <= i < |tokens| && tokens[i].token == token ==>
              && r[i].used && r[i].usedAt == Some(now)
              && r[i].id == tokens[i].id && r[i].token == token && r[i].recipeId == tokens[i].recipeId
              && r[i].expiresAt == tokens[i].expiresAt && r[i].createdAt == tokens[i].createdAt
  {
    seq(|tokens|, i requires 0 <= i < |tokens| =>
      if tokens[i].token == token then tokens[i].(used := true, usedAt := Some(now)) else tokens[i])
  }

  /** An unknown token changes nothing. */
  lemma MarkedUsedUnknownToken(tokens: seq<QrTokenRow>, token: string, now: Instant)
    requires forall row :: row in tokens ==> row.token != token
    ensures MarkedUsed(tokens, token, now) == tokens
  {
  }

  /** Validation ignores the `used` flag: a used token stays exactly as valid as before. */
  lemma {:induction false} MarkedUsedKeepsValidation(tokens: seq<QrTokenRow>, recipes: seq<RecipeRow>, token: string,
                                                     now: Instant, t: string, at: Instant)
    ensures ValidateQrToken(MarkedUsed(tokens, token, now), recipes, t, at) == ValidateQrToken(tokens, recipes, t, at)
  {
    MarkedUsedFind(tokens, token, now, t);
  }

  /** Marking finds the same row for every token, up to its `used` and `usedAt` columns. */
  lemma {:induction false} MarkedUsedFind(tokens: seq<QrTokenRow>, token: string, now: Instant, t: string)
    ensures FindToken(MarkedUsed(tokens, token, now), t).Some? == FindToken(tokens, t).Some?
    ensures FindToken(tokens, t).Some? ==>
              FindToken(MarkedUsed(tokens, token, now), t).value.expiresAt == FindToken(tokens, t).value.expiresAt
              && FindToken(MarkedUsed(tokens, token, now), t).value.recipeId == FindToken(tokens, t).value.recipeId
  {
    if tokens != [] {
      MarkedUsedFind(tokens[1..], token, now, t);
      assert MarkedUsed(tokens, token, now)[1..] == MarkedUsed(tokens[1..], token, now);
    }
  }

  /** `markTokenAsUsed`: updates the matching row; a missing row is a swallowed error. */
  method MarkTokenAsUsed(db: Database, token: string, now: Instant)
    requires db.Valid()
    modifies db
    ensures db.Valid()
    ensures db.tokens == MarkedUsed(old(db.tokens), token, now)
    ensures db.SameExceptTokens()
  {
    db.tokens := MarkedUsed(db.tokens, token, now);
    assert forall i :: 0 <= i < |db.tokens| ==> db.tokens[i].id == old(db.tokens)[i].id && db.tokens[i].token == old(db.tokens)[i].token;
  }

  // ---------------------------------------------------------------------------
  // getActiveQrTokens

  /** `expiresAt: { gt: now }` */
  predicate IsActive(row: QrTokenRow, now: Instant) {
    Earlier(now, row.expiresAt)
  }

  /** The `where` of the listing: active, and of the given recipe when the filter is truthy (not absent, not 0). */
  predicate Listed(row: QrTokenRow, recipeId: Option<int>, now: Instant) {
    IsActive(row, now) && (recipeId.None? || recipeId.value == 0 || row.recipeId == recipeId.value)
  }

  function ListedBy(recipeId: Option<int>, now: Instant): QrTokenRow -> bool {
    row => Listed(row, recipeId, now)
  }

  function CreatedKey(row: QrTokenRow): int {
    Rank(row.createdAt)
  }

  /** A listed token with its `recipe` include (absent once the recipe is gone). */
  datatype ActiveToken = ActiveToken(row: QrTokenRow, recipe: Option<RecipeInfo>)

  function RecipeInfoFor(recipes: seq<RecipeRow>, id: int): (r: Option<RecipeInfo>)
    ensures r.Some? <==> FindRecipe(recipes, id).Some?
  {
    match FindRecipe(recipes, id)
    case None => None
    case Some(rec) => Some(InfoOf(rec))
  }

  function RowsOf(ts: seq<ActiveToken>): (rows: seq<QrTokenRow>)
    ensures |rows| == |ts| && forall i :: 0 <= i < |ts| ==> rows[i] == ts[i].row
  {
    seq(|ts|, i requires 0 <= i < |ts| => ts[i].row)
  }

  /** Each row paired with the summary of its recipe, in the same order. */
  function Attach(rows: seq<QrTokenRow>, recipes: seq<RecipeRow>): (r: seq<ActiveToken>)
    ensures RowsOf(r) == rows
    ensures forall i :: 0 <= i < |r| ==> r[i].recipe == RecipeInfoFor(recipes, r[i].row.recipeId)
  {
    seq(|rows|, i requires 0 <= i < |rows| => ActiveToken(rows[i], RecipeInfoFor(recipes, rows[i].recipeId)))
  }

  /** Descending creation ranks mean no row was created before a later-listed one. */
  lemma NewestFirst(rows: seq<QrTokenRow>)
    requires SortedDesc(rows, CreatedKey)
    ensures forall i, j :: 0 <= i < j < |rows| ==> !Earlier(rows[i].createdAt, rows[j].createdAt)
  {
    forall i, j | 0 <= i < j < |rows| ensures !Earlier(rows[i].createdAt, rows[j].createdAt) {
      RankOrder(rows[i].createdAt, rows[j].createdAt);
    }
  }

  /**
   * The active tokens (of one recipe when the filter is truthy), newest first,
   * each with its recipe's summary.
   */
  function GetActiveQrTokens(tokens: seq<QrTokenRow>, recipes: seq<RecipeRow>, recipeId: Option<int>, now: Instant)
    : (r: seq<ActiveToken>)
    ensures multiset(RowsOf(r)) == multiset(Filter(tokens, ListedBy(recipeId, now)))
    ensures forall i :: 0 <= i < |r| ==> r[i].row in tokens && Listed(r[i].row, recipeId, now)
    ensures forall row :: row in tokens && Listed(row, recipeId, now) ==> row in RowsOf(r)
    ensures forall i, j :: 0 <= i < j < |r| ==> !Earlier(r[i].row.createdAt, r[j].row.createdAt)
    ensures forall i :: 0 <= i < |r| ==> r[i].recipe == RecipeInfoFor(recipes, r[i].row.recipeId)
  {
    var selected := Filter(tokens, ListedBy(recipeId, now));
    var rows := SortDesc(selected, CreatedKey);
    SortDescSorted(selected, CreatedKey);
    SortDescElements(selected, CreatedKey);
    NewestFirst(rows);
    Attach(rows, recipes)
  }

  // ---------------------------------------------------------------------------
  // deleteQrToken

  /**
   * `deleteQrToken`: an unknown id is the error "QR token not found" and
   * changes nothing; otherwise exactly the row with that id is removed and the
   * others keep their order.
   */
  method DeleteQrToken(db: Database, tokenId: string) returns (r: Result<(), Failure>)
    requires db.Valid()
    modifies db
    ensures db.Valid()
    ensures db.SameExceptTokens()
    ensures r.Err? <==> FindTokenById(old(db.tokens), tokenId).None?
    ensures r.Err? ==> r.error == Message("QR token not found") && db.tokens == old(db.tokens)
    ensures r.Ok? ==>
              exists i :: 0 <= i < |old(db.tokens)| && old(db.tokens)[i].id == tokenId
                          && db.tokens == old(db.tokens)[..i] + old(db.tokens)[i + 1..]
    ensures r.Ok? ==> |db.tokens| == |old(db.tokens)| - 1
    ensures forall row :: row in db.tokens <==> row in old(db.tokens) && (r.Ok? ==> row.id != tokenId)
  {
    var found := FindTokenById(db.tokens, tokenId);
    if found.None? {
      return Err(Message("QR token not found"));
    }
    var i :| 0 <= i < |db.tokens| && db.tokens[i] == found.value;
    RemoveTokenAt(db.tokens, i);
    db.tokens := db.tokens[..i] + db.tokens[i + 1..];
    r := Ok(());
  }

  /** Removing the row at `i` from a table of unique ids removes exactly the rows with its id, and keeps ids and tokens unique. */
  lemma RemoveTokenAt(tokens: seq<QrTokenRow>, i: nat)
    requires i < |tokens| && UniqueTokenIds(tokens) && UniqueTokens(tokens)
    ensures var rest := tokens[..i] + tokens[i + 1..];
            && UniqueTokenIds(rest) && UniqueTokens(rest)
            && forall row :: row in rest <==> row in tokens && row.id != tokens[i].id
  {
    var rest := tokens[..i] + tokens[i + 1..];
    assert forall k :: 0 <= k < |rest| ==> rest[k] == tokens[if k < i then k else k + 1];
    forall row | row in tokens && row.id != tokens[i].id ensures row in rest {
      var k :| 0 <= k < |tokens| && tokens[k] == row;
      if k < i { assert rest[k] == row; } else { assert rest[k - 1] == row; }
    }
  }

  // ---------------------------------------------------------------------------
  // getQrTokenCounts

  function IsActiveAt(now: Instant): QrTokenRow -> bool {
    row => IsActive(row, now)
  }

  /** How many rows belong to a recipe. */
  function CountFor(rows: seq<QrTokenRow>, recipeId: int): nat {
    if rows == [] then 0 else (if rows[0].recipeId == recipeId then 1 else 0) + CountFor(rows[1..], recipeId)
  }

  function RecipeIds(rows: seq<QrTokenRow>): set<int> {
    set row | row in rows :: row.recipeId
  }

  /** One `groupBy` entry: a recipe id and the size of its group. */
  datatype Group = Group(recipeId: int, count: nat)

  function KeysOf(g: seq<Group>): set<int> {
    set k | 0 <= k < |g| :: g[k].recipeId
  }

  lemma KeysOfCons(g: seq<Group>)
    requires g != []
    ensures KeysOf(g) == {g[0].recipeId} + KeysOf(g[1..])
  {
    forall x | x in KeysOf(g) ensures x in {g[0].recipeId} + KeysOf(g[1..]) {
      var k :| 0 <= k < |g| && g[k].recipeId == x;
      if k > 0 { assert g[1..][k - 1] == g[k]; }
    }
    forall x | x in KeysOf(g[1..]) ensures x in KeysOf(g) {
      var k :| 0 <= k < |g[1..]| && g[1..][k].recipeId == x;
      assert g[k + 1] == g[1..][k];
    }
  }

  predicate DistinctKeys(g: seq<Group>) {
    forall i, j :: 0 <= i < j < |g| ==> g[i].recipeId != g[j].recipeId
  }

  /** The count recorded for a recipe, 0 when it has no group. */
  function LookupCount(g: seq<Group>, recipeId: int): nat {
    if g == [] then 0 else if g[0].recipeId == recipeId then g[0].count else LookupCount(g[1..], recipeId)
  }

  function SumCounts(g: seq<Group>): nat {
    if g == [] then 0 else g[0].count + SumCounts(g[1..])
  }

  /** Adds one row of a recipe to a grouping. */
  function Bump(g: seq<Group>, recipeId: int): seq<Group> {
    if g == [] then [Group(recipeId, 1)]
    else if g[0].recipeId == recipeId then [Group(recipeId, g[0].count + 1)] + g[1..]
    else [g[0]] + Bump(g[1..], recipeId)
  }

  /** `groupBy: ['recipeId'], _count: { id }` over the given rows. */
  function Groups(rows: seq<QrTokenRow>): seq<Group> {
    if rows == [] then [] else Bump(Groups(rows[1..]), rows[0].recipeId)
  }

  predicate PositiveCounts(g: seq<Group>) {
    forall k :: 0 <= k < |g| ==> g[k].count > 0
  }

  lemma {:induction false} BumpLookup(g: seq<Group>, recipeId: int, key: int)
    ensures LookupCount(Bump(g, recipeId), key) == LookupCount(g, key) + (if key == recipeId then 1 else 0)
  {
    if g != [] && g[0].recipeId != recipeId {
      BumpLookup(g[1..], recipeId, key);
      assert Bump(g, recipeId)[1..] == Bump(g[1..], recipeId);
    }
  }

  lemma {:induction false} BumpKeys(g: seq<Group>, recipeId: int)
    ensures KeysOf(Bump(g, recipeId)) == KeysOf(g) + {recipeId}
  {
    var b := Bump(g, recipeId);
    if g == [] {
      KeysOfCons(b);
    } else if g[0].recipeId == recipeId {
      assert forall k :: 0 <= k < |g| ==> b[k].recipeId == g[k].recipeId;
    } else {
      BumpKeys(g[1..], recipeId);
      assert b[1..] == Bump(g[1..], recipeId);
      KeysOfCons(b);
      KeysOfCons(g);
    }
  }

  lemma {:induction false} BumpSum(g: seq<Group>, recipeId: int)
    ensures SumCounts(Bump(g, recipeId)) == SumCounts(g) + 1
  {
    if g == [] {
    } else if g[0].recipeId == recipeId {
      assert Bump(g, recipeId)[1..] == g[1..];
    } else {
      BumpSum(g[1..], recipeId);
      assert Bump(g, recipeId)[1..] == Bump(g[1..], recipeId);
    }
  }

  lemma {:induction false} BumpDistinct(g: seq<Group>, recipeId: int)
    requires DistinctKeys(g)
    ensures DistinctKeys(Bump(g, recipeId))
    ensures PositiveCounts(g) ==> PositiveCounts(Bump(g, recipeId))
  {
    var b := Bump(g, recipeId);
    if g == [] {
    } else if g[0].recipeId == recipeId {
      assert forall k :: 0 < k < |g| ==> b[k] == g[k];
    } else {
      BumpDistinct(g[1..], recipeId);
      BumpKeys(g[1..], recipeId);
      assert b[1..] == Bump(g[1..], recipeId);
      KeysOfCons(g);
      assert g[0].recipeId !in KeysOf(g[1..]) by {
        forall k | 0 <= k < |g[1..]| ensures g[1..][k].recipeId != g[0].recipeId {
          assert g[1..][k] == g[k + 1];
        }
      }
      forall i, j | 0 <= i < j < |b| ensures b[i].recipeId != b[j].recipeId {
        if i == 0 {
          assert b[j] == b[1..][j - 1];
          assert b[j].recipeId in KeysOf(b[1..]);
        } else {
          assert b[i] == b[1..][i - 1] && b[j] == b[1..][j - 1];
        }
      }
      if PositiveCounts(g) {
        assert PositiveCounts(g[1..]) by {
          forall k | 0 <= k < |g[1..]| ensures g[1..][k].count > 0 {
            assert g[1..][k] == g[k + 1];
          }
        }
        forall k | 0 < k < |b| ensures b[k].count > 0 {
          assert b[k] == b[1..][k - 1];
        }
      }
    }
  }

  /** With distinct keys, the count looked up for a group's key is that group's count. */
  lemma {:induction false} LookupAt(g: seq<Group>, k: nat)
    requires DistinctKeys(g) && k < |g|
    ensures LookupCount(g, g[k].recipeId) == g[k].count
  {
    if k > 0 {
      LookupAt(g[1..], k - 1);
    }
  }

  /**
   * The grouping of a sequence of rows: one group per recipe that has rows,
   * each holding that recipe's number of rows, so the counts add up to the
   * number of rows.
   */
  lemma {:induction false} GroupsSpec(rows: seq<QrTokenRow>)
    ensures DistinctKeys(Groups(rows))
    ensures KeysOf(Groups(rows)) == RecipeIds(rows)
    ensures forall key :: LookupCount(Groups(rows), key) == CountFor(rows, key)
    ensures SumCounts(Groups(rows)) == |rows|
    ensures PositiveCounts(Groups(rows))
  {
    if rows != [] {
      var g := Groups(rows[1..]);
      GroupsSpec(rows[1..]);
      BumpKeys(g, rows[0].recipeId);
      BumpSum(g, rows[0].recipeId);
      BumpDistinct(g, rows[0].recipeId);
      forall key ensures LookupCount(Groups(rows), key) == CountFor(rows, key) {
        BumpLookup(g, rows[0].recipeId, key);
      }
      assert RecipeIds(rows) == RecipeIds(rows[1..]) + {rows[0].recipeId} by {
        assert forall row :: row in rows <==> row == rows[0] || row in rows[1..];
      }
    }
  }

  /**
   * `getQrTokenCounts`: a dictionary from every recipe with at least one active
   * token to its number of active tokens, filled one `groupBy` entry at a time.
   */
  method GetQrTokenCounts(tokens: seq<QrTokenRow>, now: Instant) returns (counts: map<int, nat>)
    ensures counts.Keys == RecipeIds(Filter(tokens, IsActiveAt(now)))
    ensures forall rid :: rid in counts ==> counts[rid] == CountFor(Filter(tokens, IsActiveAt(now)), rid) && counts[rid] > 0
  {
    var active := Filter(tokens, IsActiveAt(now));
    var groups := Groups(active);
    GroupsSpec(active);
    counts := map[];
    var i := 0;
    while i < |groups|
      invariant 0 <= i <= |groups|
      invariant counts.Keys == KeysOf(groups[..i])
      invariant forall k :: 0 <= k < i ==> counts[groups[k].recipeId] == groups[k].count
    {
      counts := counts[groups[i].recipeId := groups[i].count];
      KeysOfSnoc(groups, i);
      i := i + 1;
    }
    assert groups[..i] == groups;
    CountsOfGroups(active, counts);
  }

  lemma KeysOfSnoc(g: seq<Group>, i: nat)
    requires i < |g|
    ensures KeysOf(g[..i + 1]) == KeysOf(g[..i]) + {g[i].recipeId}
  {
    assert forall k :: 0 <= k < i ==> g[..i + 1][k] == g[..i][k];
  }

  /** A dictionary holding each group's count under its key holds the number of rows of each recipe. */
  lemma CountsOfGroups(rows: seq<QrTokenRow>, counts: map<int, nat>)
    requires counts.Keys == KeysOf(Groups(rows))
    requires forall k :: 0 <= k < |Groups(rows)| ==> counts[Groups(rows)[k].recipeId] == Groups(rows)[k].count
    ensures forall rid :: rid in counts ==> counts[rid] == CountFor(rows, rid) && counts[rid] > 0
  {
    var groups := Groups(rows);
    GroupsSpec(rows);
    forall rid | rid in counts ensures counts[rid] == CountFor(rows, rid) && counts[rid] > 0 {
      var k :| 0 <= k < |groups| && groups[k].recipeId == rid;
      LookupAt(groups, k);
    }
  }

  /** The counts add up to the number of active tokens. */
  lemma CountsSum(tokens: seq<QrTokenRow>, now: Instant)
    ensures SumCounts(Groups(Filter(tokens, IsActiveAt(now)))) == |Filter(tokens, IsActiveAt(now))|
  {
    GroupsSpec(Filter(tokens, IsActiveAt(now)));
  }
}
