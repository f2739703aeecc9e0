/** `getEligibleRecipes`: the catalog narrowed by maximum preparation time,
    then by tags, then by cuisines. A filter that would leave nothing is
    skipped, so the pool is empty only when the catalog is. */
module EligiblePool {
  import opened Wrappers
  import opened Text
  import opened Seqs
  import opened Recipes
  import opened MealPlanTypes

  /** Known cook time within the ceiling (a null cook time fails this filter). */
  predicate WithinPrepTime(r: Recipe, maxPrep: int) {
    r.cookTime.Some? && r.cookTime.value <= maxPrep
  }

  /** Some element of the recipe's array occurs in the requested list
      (`List.contains` compares by equality, so null matches null). */
  predicate Overlaps(values: TextArray, wanted: seq<Option<string>>) {
    values.Some? && exists k :: 0 <= k < |values.value| && values.value[k] in wanted
  }

  /** A list filter is applied only when the list is non-null and non-empty. */
  predicate Requested(list: TextArray) {
    list.Some? && list.value != []
  }

  /** Keep the recipes satisfying p, unless none does. */
  function Narrow(recipes: seq<Recipe>, p: Recipe -> bool): (r: seq<Recipe>)
    ensures IsSubsequence(r, recipes)
    ensures forall x :: x in r ==> x in recipes
    ensures r == [] <==> recipes == []
    ensures (exists x :: x in recipes && p(x)) ==> forall x :: x in r ==> p(x)
    ensures (exists x :: x in recipes && p(x)) ==> forall x :: x in recipes && p(x) ==> x in r
    ensures (forall x :: x in recipes ==> !p(x)) ==> r == recipes
  {
    var kept := Filter(recipes, p);
    FilterIsSubsequence(recipes, p);
    SubsequenceRefl(recipes);
    assert kept != [] ==> kept[0] in kept;
    if kept != [] then kept else recipes
  }

  function PrepStage(recipes: seq<Recipe>, req: MealPlanRequest): (r: seq<Recipe>)
    ensures IsSubsequence(r, recipes)
    ensures forall x :: x in r ==> x in recipes
    ensures r == [] <==> recipes == []
  {
    SubsequenceRefl(recipes);
    if req.maxPrepTime.Some? then Narrow(recipes, (r: Recipe) => WithinPrepTime(r, req.maxPrepTime.value))
    else recipes
  }

  function TagStage(recipes: seq<Recipe>, req: MealPlanRequest): (r: seq<Recipe>)
    ensures IsSubsequence(r, recipes)
    ensures forall x :: x in r ==> x in recipes
    ensures r == [] <==> recipes == []
  {
    SubsequenceRefl(recipes);
    if Requested(req.tags) then Narrow(recipes, (r: Recipe) => Overlaps(r.tags, req.tags.value))
    else recipes
  }

  function CuisineStage(recipes: seq<Recipe>, req: MealPlanRequest): (r: seq<Recipe>)
    ensures IsSubsequence(r, recipes)
    ensures forall x :: x in r ==> x in recipes
    ensures r == [] <==> recipes == []
  {
    SubsequenceRefl(recipes);
    if Requested(req.preferredCuisines) then Narrow(recipes, (r: Recipe) => Overlaps(r.cuisines, req.preferredCuisines.value))
    else recipes
  }

  function GetEligibleRecipes(catalog: seq<Recipe>, req: MealPlanRequest): (r: seq<Recipe>)
    ensures IsSubsequence(r, catalog)
    ensures r == [] <==> catalog == []
    ensures forall x :: x in r ==> x in catalog
  {
    var afterPrep := PrepStage(catalog, req);
    var afterTags := TagStage(afterPrep, req);
    var afterCuisines := CuisineStage(afterTags, req);
    SubsequenceTrans(afterTags, afterPrep, catalog);
    SubsequenceTrans(afterCuisines, afterTags, catalog);
    SubsequenceRefl(catalog);
    if afterCuisines == [] then catalog else afterCuisines
  }

  /** The recipe passes every filter the request turns on. */
  predicate MatchesAll(r: Recipe, req: MealPlanRequest) {
    && (req.maxPrepTime.Some? ==> WithinPrepTime(r, req.maxPrepTime.value))
    && (Requested(req.tags) ==> Overlaps(r.tags, req.tags.value))
    && (Requested(req.preferredCuisines) ==> Overlaps(r.cuisines, req.preferredCuisines.value))
  }

  /** When some catalog recipe passes every requested filter, no filter is
      skipped: the pool is exactly the catalog recipes passing all of them. */
  lemma EligibleWhenAllFiltersMatch(catalog: seq<Recipe>, req: MealPlanRequest, m: Recipe)
    requires m in catalog && MatchesAll(m, req)
    ensures forall x :: x in GetEligibleRecipes(catalog, req) ==> MatchesAll(x, req)
    ensures forall x :: x in catalog && MatchesAll(x, req) ==> x in GetEligibleRecipes(catalog, req)
  {
    var afterPrep := PrepStage(catalog, req);
    var afterTags := TagStage(afterPrep, req);
    var afterCuisines := CuisineStage(afterTags, req);
    assert m in afterPrep;
    assert m in afterTags;
    assert m in afterCuisines;
    assert GetEligibleRecipes(catalog, req) == afterCuisines;
  }

  /** The prep-time filter is skipped only when no recipe has a known cook time
      within the ceiling; otherwise every pooled recipe has one. */
  lemma EligibleWithinPrepTime(catalog: seq<Recipe>, req: MealPlanRequest, m: Recipe)
    requires req.maxPrepTime.Some? && m in catalog && WithinPrepTime(m, req.maxPrepTime.value)
    ensures forall x :: x in GetEligibleRecipes(catalog, req) ==> WithinPrepTime(x, req.maxPrepTime.value)
  {
    var afterPrep := PrepStage(catalog, req);
    var afterTags := TagStage(afterPrep, req);
    var afterCuisines := CuisineStage(afterTags, req);
    assert afterPrep != [];
    assert afterCuisines != [];
  }

  /** A request with no filters pools the whole catalog, in order. */
  lemma NoFiltersKeepsCatalog(catalog: seq<Recipe>, req: MealPlanRequest)
    requires req.maxPrepTime.None? && !Requested(req.tags) && !Requested(req.preferredCuisines)
    ensures GetEligibleRecipes(catalog, req) == catalog
  {
  }
}
