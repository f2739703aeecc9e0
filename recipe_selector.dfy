/** `selectRecipeForMeal`: the greedy pick of one recipe for a meal slot. It
    skips recipes already used (or excluded), recipes without calories or
    protein, and recipes whose known cook time exceeds the ceiling, then takes
    the recipe closest to the calorie and protein targets. */
module RecipeSelector {
  import opened Wrappers
  import opened Recipes

  const CalorieWeight: real := 0.6
  const ProteinWeight: real := 0.4

  /** The recipe survives the three skip rules; a null cook time passes the ceiling. */
  predicate Eligible(r: Recipe, used: set<int>, maxPrep: Option<int>) {
    && r.recipeId !in used
    && r.calories.Some? && r.protein.Some?
    && !(maxPrep.Some? && r.cookTime.Some? && r.cookTime.value > maxPrep.value)
  }

  function Abs(x: real): real {
    if x < 0.0 then -x else x
  }

  /** Both targets non-zero: only then is a recipe scored. */
  predicate Scored(targetCalories: real, targetProtein: real) {
    targetCalories != 0.0 && targetProtein != 0.0
  }

  /** The weighted relative distance from the targets: 60% calories, 40% protein. */
  function Score(r: Recipe, targetCalories: real, targetProtein: real): real
    requires r.calories.Some? && r.protein.Some? && Scored(targetCalories, targetProtein)
  {
    (Abs(r.calories.value - targetCalories) / targetCalories) * CalorieWeight
      + (Abs(r.protein.value - targetProtein) / targetProtein) * ProteinWeight
  }

  /** recipes[i] is the pick among the first n recipes: it is eligible and,
      with a zero target, the first eligible recipe; otherwise no eligible
      recipe scores lower and every earlier eligible recipe scores higher
      (the first of equally good recipes wins). */
  predicate IsPick(recipes: seq<Recipe>, n: int, targetCalories: real, targetProtein: real,
                   used: set<int>, maxPrep: Option<int>, i: int)
  {
    && 0 <= i < n <= |recipes|
    && Eligible(recipes[i], used, maxPrep)
    && if !Scored(targetCalories, targetProtein) then
         forall j :: 0 <= j < i ==> !Eligible(recipes[j], used, maxPrep)
       else
         && (forall j :: 0 <= j < n && Eligible(recipes[j], used, maxPrep) ==>
               Score(recipes[i], targetCalories, targetProtein) <= Score(recipes[j], targetCalories, targetProtein))
         && (forall j :: 0 <= j < i && Eligible(recipes[j], used, maxPrep) ==>
               Score(recipes[i], targetCalories, targetProtein) < Score(recipes[j], targetCalories, targetProtein))
  }

  predicate NoneEligible(recipes: seq<Recipe>, used: set<int>, maxPrep: Option<int>) {
    forall j :: 0 <= j < |recipes| ==> !Eligible(recipes[j], used, maxPrep)
  }

  /** r is what the selector returns for these arguments. */
  predicate Picked(recipes: seq<Recipe>, targetCalories: real, targetProtein: real,
                   used: set<int>, maxPrep: Option<int>, r: Recipe)
  {
    exists i :: 0 <= i < |recipes| && IsPick(recipes, |recipes|, targetCalories, targetProtein, used, maxPrep, i) && recipes[i] == r
  }

  method SelectRecipeForMeal(recipes: seq<Recipe>, targetCalories: real, targetProtein: real,
                             used: set<int>, maxPrep: Option<int>) returns (best: Option<Recipe>)
    ensures best.None? <==> NoneEligible(recipes, used, maxPrep)
    ensures best.Some? ==> Picked(recipes, targetCalories, targetProtein, used, maxPrep, best.value)
  {
    best := None;
    var bestScore := 0.0;
    ghost var bestIndex := -1;
    var k := 0;
    while k < |recipes|
      invariant 0 <= k <= |recipes|
      invariant best.None? <==> forall j :: 0 <= j < k ==> !Eligible(recipes[j], used, maxPrep)
      invariant best.Some? ==> IsPick(recipes, k, targetCalories, targetProtein, used, maxPrep, bestIndex)
                               && best.value == recipes[bestIndex]
      invariant best.Some? && Scored(targetCalories, targetProtein) ==>
                  bestScore == Score(recipes[bestIndex], targetCalories, targetProtein)
    {
      var recipe := recipes[k];
      if recipe.recipeId in used {
        // already used in this day, or excluded
      } else if recipe.calories.None? || recipe.protein.None? {
        // invalid nutrition data
      } else if maxPrep.Some? && recipe.cookTime.Some? && recipe.cookTime.value > maxPrep.value {
        // exceeds the preparation-time ceiling
      } else if targetCalories == 0.0 || targetProtein == 0.0 {
        if best.None? {
          best := Some(recipe);
          bestIndex := k;
        }
      } else {
        var calorieDiff := Abs(recipe.calories.value - targetCalories) / targetCalories;
        var proteinDiff := Abs(recipe.protein.value - targetProtein) / targetProtein;
        var score := calorieDiff * CalorieWeight + proteinDiff * ProteinWeight;
        if best.None? || score < bestScore {
          bestScore := score;
          best := Some(recipe);
          bestIndex := k;
        }
      }
      k := k + 1;
    }
  }

  /** The pick is unique: the selector's result is determined by its arguments. */
  lemma PickIsUnique(recipes: seq<Recipe>, n: int, targetCalories: real, targetProtein: real,
                     used: set<int>, maxPrep: Option<int>, i: int, i': int)
    requires IsPick(recipes, n, targetCalories, targetProtein, used, maxPrep, i)
    requires IsPick(recipes, n, targetCalories, targetProtein, used, maxPrep, i')
    ensures i == i'
  {
  }

  /** The pick scores no worse than any recipe that survives the skip rules. */
  lemma PickIsOptimal(recipes: seq<Recipe>, targetCalories: real, targetProtein: real,
                      used: set<int>, maxPrep: Option<int>, r: Recipe, other: Recipe)
    requires Picked(recipes, targetCalories, targetProtein, used, maxPrep, r)
    requires other in recipes && Eligible(other, used, maxPrep) && Scored(targetCalories, targetProtein)
    ensures Score(r, targetCalories, targetProtein) <= Score(other, targetCalories, targetProtein)
  {
    var i :| IsPick(recipes, |recipes|, targetCalories, targetProtein, used, maxPrep, i) && recipes[i] == r;
    var j :| 0 <= j < |recipes| && recipes[j] == other;
    assert Eligible(recipes[j], used, maxPrep);
  }
}
