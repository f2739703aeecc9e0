/** The parts of `RecipeService` beyond plain lookups: the popular-recipe page
    size, and the `favorite_recipes` table with add, remove and the user's
    favorite recipes. */
module Favorites {
  import opened Wrappers
  import opened Seqs
  import opened Recipes

  /** `DEFAULT_POPULAR_LIMIT`. */
  const DefaultPopularLimit: int := 5

  /** The page size `getPopularRecipes` asks for: the given limit when it is
      positive, the default otherwise. */
  function PopularLimit(limit: int): (r: int)
    ensures r > 0
    ensures limit > 0 ==> r == limit
    ensures limit <= 0 ==> r == DefaultPopularLimit
  {
    if limit > 0 then limit else DefaultPopularLimit
  }

  /** The first page of `findPopularRecipes`, given the recipes in the order the
      query ranks them (popularity score, highest first). */
  function PopularPage(ranked: seq<Recipe>, limit: int): (r: seq<Recipe>)
    requires limit > 0
    ensures |r| == if |ranked| < limit then |ranked| else limit
    ensures r == ranked[..|r|]
  {
    if |ranked| < limit then ranked else ranked[..limit]
  }

  /** `getPopularRecipes(limit)`. */
  function GetPopularRecipes(ranked: seq<Recipe>, limit: int): (r: seq<Recipe>)
    ensures IsSubsequence(r, ranked)
    ensures |r| == if |ranked| < PopularLimit(limit) then |ranked| else PopularLimit(limit)
    ensures r == ranked[..|r|]
  {
    var page := PopularPage(ranked, PopularLimit(limit));
    PrefixIsSubsequence(page, ranked);
    page
  }

  /** `getPopularRecipesDefault`. */
  function GetPopularRecipesDefault(ranked: seq<Recipe>): (r: seq<Recipe>)
    ensures |r| == if |ranked| < DefaultPopularLimit then |ranked| else DefaultPopularLimit
    ensures r == ranked[..|r|]
  {
    PopularPage(ranked, DefaultPopularLimit)
  }

  /** A non-positive limit yields the default page. */
  lemma InvalidLimitIsDefault(ranked: seq<Recipe>, limit: int)
    requires limit <= 0
    ensures GetPopularRecipes(ranked, limit) == GetPopularRecipesDefault(ranked)
  {
  }

  /** A larger limit extends the page without reordering it. */
  lemma {:induction false} LargerLimitExtendsPage(ranked: seq<Recipe>, a: int, b: int)
    requires 0 < a <= b
    ensures GetPopularRecipes(ranked, a) == GetPopularRecipes(ranked, b)[..|GetPopularRecipes(ranked, a)|]
  {
    var pa := PopularPage(ranked, a);
    var pb := PopularPage(ranked, b);
    assert |pa| <= |pb|;
    assert pa == ranked[..|pa|] && pb == ranked[..|pb|];
    assert pb[..|pa|] == ranked[..|pa|];
  }

  /** A prefix is a subsequence. */
  lemma {:induction false} PrefixIsSubsequence<T>(p: seq<T>, s: seq<T>)
    requires |p| <= |s| && p == s[..|p|]
    ensures IsSubsequence(p, s)
    decreases |s|
  {
    if p != [] {
      assert p[1..] == s[1..][..|p| - 1];
      PrefixIsSubsequence(p[1..], s[1..]);
    }
  }

  /** A `favorite_recipes` row. */
  datatype FavoriteRecipe = FavoriteRecipe(
    favoriteId: Option<int>,
    userId: int,
    recipeId: int,
    timesUsed: Option<int>)

  /** The only error `addFavorite` raises (`IllegalStateException`). */
  const AlreadyFavorite: string := "Recipe already in favorites"

  /** `existsByUserIdAndRecipeId`. */
  predicate IsFavorite(rows: map<int, FavoriteRecipe>, userId: int, recipeId: int) {
    exists k :: k in rows && rows[k].userId == userId && rows[k].recipeId == recipeId
  }

  /** The recipe ids of `findByUserId(userId)`. */
  function FavoriteRecipeIds(rows: map<int, FavoriteRecipe>, userId: int): (r: set<int>)
    ensures forall id :: id in r <==> IsFavorite(rows, userId, id)
  {
    set k | k in rows.Keys && rows[k].userId == userId :: rows[k].recipeId
  }

  /** `getUserFavoriteRecipes`: `findAllById` over the user's favorite recipe
      ids, read from the recipe table in table order. */
  function GetUserFavoriteRecipes(rows: map<int, FavoriteRecipe>, catalog: seq<Recipe>, userId: int)
    : (r: seq<Recipe>)
    ensures IsSubsequence(r, catalog)
    ensures forall x :: x in r <==> x in catalog && IsFavorite(rows, userId, x.recipeId)
  {
    var ids := FavoriteRecipeIds(rows, userId);
    var r := Filter(catalog, (x: Recipe) => x.recipeId in ids);
    FilterIsSubsequence(catalog, (x: Recipe) => x.recipeId in ids);
    r
  }

  /** The rows `removeFavorite` keeps: every row but the user's rows for that recipe. */
  function WithoutFavorite(rows: map<int, FavoriteRecipe>, userId: int, recipeId: int)
    : (r: map<int, FavoriteRecipe>)
    ensures forall k :: k in r <==> k in rows && !(rows[k].userId == userId && rows[k].recipeId == recipeId)
    ensures forall k :: k in r ==> r[k] == rows[k]
  {
    map k | k in rows.Keys && !(rows[k].userId == userId && rows[k].recipeId == recipeId) :: rows[k]
  }

  /** After removal the pair is no longer a favorite, every other pair keeps
      its status, and removing it again changes nothing. */
  lemma {:induction false} RemovalClearsOnlyThePair(rows: map<int, FavoriteRecipe>, userId: int, recipeId: int,
                                                    u: int, rid: int)
    ensures !IsFavorite(WithoutFavorite(rows, userId, recipeId), userId, recipeId)
    ensures (u, rid) != (userId, recipeId) ==>
      (IsFavorite(WithoutFavorite(rows, userId, recipeId), u, rid) <==> IsFavorite(rows, u, rid))
    ensures WithoutFavorite(WithoutFavorite(rows, userId, recipeId), userId, recipeId)
         == WithoutFavorite(rows, userId, recipeId)
    ensures !IsFavorite(rows, userId, recipeId) ==> WithoutFavorite(rows, userId, recipeId) == rows
  {
    var r := WithoutFavorite(rows, userId, recipeId);
    if (u, rid) != (userId, recipeId) && IsFavorite(rows, u, rid) {
      var k :| k in rows && rows[k].userId == u && rows[k].recipeId == rid;
      assert k in r;
    }
    if !IsFavorite(rows, userId, recipeId) {
      assert forall k :: k in rows ==> k in r;
      assert r.Keys == rows.Keys;
    }
  }

  /** At most one row per (user, recipe) pair: `addFavorite` refuses a second. */
  predicate NoDuplicatePairs(rows: map<int, FavoriteRecipe>) {
    forall k, l ::
      (k in rows && l in rows && rows[k].userId == rows[l].userId && rows[k].recipeId == rows[l].recipeId)
      ==> k == l
  }

  /** The favorites table, with the identity counter that numbers new rows. */
  class FavoriteStore {
    var rows: map<int, FavoriteRecipe>
    var nextId: int

    /** Each row carries its own key below the counter, and no pair is stored twice. */
    ghost predicate Valid()
      reads this
    {
      (forall k :: k in rows ==> rows[k].favoriteId == Some(k) && k < nextId)
      && NoDuplicatePairs(rows)
    }

    constructor ()
      ensures Valid() && rows == map[] && nextId == 1
    {
      rows := map[];
      nextId := 1;
    }

    /** `addFavorite`: an existing pair raises and adds nothing; otherwise a new
        row with the pair and `timesUsed` 0 is saved under a fresh id. */
    method AddFavorite(userId: int, recipeId: int) returns (r: Result<FavoriteRecipe, string>)
      requires Valid()
      modifies this
      ensures Valid()
      ensures r.Failure? <==> old(IsFavorite(rows, userId, recipeId))
      ensures r.Failure? ==> r.error == AlreadyFavorite && rows == old(rows) && nextId == old(nextId)
      ensures r.Success? ==>
        r.value == FavoriteRecipe(Some(old(nextId)), userId, recipeId, Some(0))
        && rows == old(rows)[old(nextId) := r.value] && nextId == old(nextId) + 1
      ensures IsFavorite(rows, userId, recipeId)
    {
      if IsFavorite(rows, userId, recipeId) {
        return Failure(AlreadyFavorite);
      }
      var favorite := FavoriteRecipe(Some(nextId), userId, recipeId, Some(0));
      rows := rows[nextId := favorite];
      nextId := nextId + 1;
      r := Success(favorite);
      assert rows[nextId - 1] == favorite;
    }

    /** `removeFavorite`: deletes the user's rows for that recipe, and only those. */
    method RemoveFavorite(userId: int, recipeId: int)
      requires Valid()
      modifies this
      ensures Valid() && nextId == old(nextId)
      ensures rows == WithoutFavorite(old(rows), userId, recipeId)
    {
      rows := WithoutFavorite(rows, userId, recipeId);
    }
  }
}
