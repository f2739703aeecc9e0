/** The recipe catalog: `Recipe` rows, lookup by id, and the nutrient totals
    the meal-plan engine sums. */
module Recipes {
  import opened Wrappers
  import opened Text

  /** A catalog recipe. Nutrients are per serving; `cookTime` is minutes. */
  datatype Recipe = Recipe(
    recipeId: int,
    title: string,
    cookTime: Option<int>,
    cuisines: TextArray,
    tags: TextArray,
    calories: Option<real>,
    carbohydrates: Option<real>,
    fat: Option<real>,
    fiber: Option<real>,
    protein: Option<real>,
    popularityScore: Option<int>)

  /** Recipe ids are the table's primary key. */
  predicate UniqueIds(catalog: seq<Recipe>) {
    forall i, j :: 0 <= i < j < |catalog| ==> catalog[i].recipeId != catalog[j].recipeId
  }

  /** `recipeRepository.findById`. */
  function FindRecipe(catalog: seq<Recipe>, id: int): (r: Option<Recipe>)
    ensures r.Some? ==> r.value in catalog && r.value.recipeId == id
    ensures r.None? <==> forall i :: 0 <= i < |catalog| ==> catalog[i].recipeId != id
  {
    if catalog == [] then None
    else if catalog[0].recipeId == id then Some(catalog[0])
    else FindRecipe(catalog[1..], id)
  }

  /** With unique ids, looking up a catalog recipe's id finds that recipe. */
  lemma {:induction false} FindRecipeOfMember(catalog: seq<Recipe>, i: int)
    requires UniqueIds(catalog) && 0 <= i < |catalog|
    ensures FindRecipe(catalog, catalog[i].recipeId) == Some(catalog[i])
  {
    if i > 0 {
      assert catalog[0].recipeId != catalog[i].recipeId;
      assert UniqueIds(catalog[1..]) by {
        forall a, b | 0 <= a < b < |catalog[1..]|
          ensures catalog[1..][a].recipeId != catalog[1..][b].recipeId
        {
          assert catalog[1..][a] == catalog[a + 1] && catalog[1..][b] == catalog[b + 1];
        }
      }
      FindRecipeOfMember(catalog[1..], i - 1);
    }
  }

  /** All five nutrients the plan totals read are present. */
  predicate HasAllNutrients(r: Recipe) {
    r.calories.Some? && r.protein.Some? && r.carbohydrates.Some? && r.fat.Some? && r.fiber.Some?
  }

  /** Every recipe the selector can pick (calories and protein present) also
      has carbohydrates, fat and fiber, which the totals dereference. */
  predicate ScorableComplete(catalog: seq<Recipe>) {
    forall r :: r in catalog && r.calories.Some? && r.protein.Some? ==> HasAllNutrients(r)
  }

  datatype Totals = Totals(calories: real, protein: real, carbs: real, fat: real, fiber: real)
  {
    function Plus(o: Totals): Totals {
      Totals(calories + o.calories, protein + o.protein, carbs + o.carbs, fat + o.fat, fiber + o.fiber)
    }

    function Minus(o: Totals): Totals {
      Totals(calories - o.calories, protein - o.protein, carbs - o.carbs, fat - o.fat, fiber - o.fiber)
    }
  }

  const NoTotals := Totals(0.0, 0.0, 0.0, 0.0, 0.0)

  /** The nutrients of one recipe. */
  function NutrientsOf(r: Recipe): Totals
    requires HasAllNutrients(r)
  {
    Totals(r.calories.value, r.protein.value, r.carbohydrates.value, r.fat.value, r.fiber.value)
  }

  predicate AllComplete(rs: seq<Recipe>) {
    forall i :: 0 <= i < |rs| ==> HasAllNutrients(rs[i])
  }

  /** The five stream sums over a list of recipes. */
  function TotalsOf(rs: seq<Recipe>): Totals
    requires AllComplete(rs)
  {
    if rs == [] then NoTotals else NutrientsOf(rs[0]).Plus(TotalsOf(rs[1..]))
  }

  lemma {:induction false} TotalsOfAppend(a: seq<Recipe>, b: seq<Recipe>)
    requires AllComplete(a) && AllComplete(b)
    ensures AllComplete(a + b)
    ensures TotalsOf(a + b) == TotalsOf(a).Plus(TotalsOf(b))
  {
    assert AllComplete(a + b) by {
      forall i | 0 <= i < |a + b| ensures HasAllNutrients((a + b)[i]) {
        if i < |a| { assert (a + b)[i] == a[i]; } else { assert (a + b)[i] == b[i - |a|]; }
      }
    }
    if a == [] {
      assert a + b == b;
    } else {
      assert (a + b)[1..] == a[1..] + b;
      TotalsOfAppend(a[1..], b);
    }
  }

  /** Swapping one recipe of a list for another changes the totals by the
      difference of the two recipes' nutrients. */
  lemma TotalsOfReplace(a: seq<Recipe>, old_: Recipe, new_: Recipe, b: seq<Recipe>)
    requires AllComplete(a) && AllComplete(b) && HasAllNutrients(old_) && HasAllNutrients(new_)
    ensures AllComplete(a + [old_] + b) && AllComplete(a + [new_] + b)
    ensures TotalsOf(a + [new_] + b)
         == TotalsOf(a + [old_] + b).Plus(NutrientsOf(new_).Minus(NutrientsOf(old_)))
  {
    assert TotalsOf([old_]) == NutrientsOf(old_);
    assert TotalsOf([new_]) == NutrientsOf(new_);
    TotalsOfAppend(a, [old_]);
    TotalsOfAppend(a + [old_], b);
    TotalsOfAppend(a, [new_]);
    TotalsOfAppend(a + [new_], b);
  }
}
