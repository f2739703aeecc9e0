/** The entities and messages of the meal-plan engine: meals, daily and weekly
    plans, generation and alternative requests, and the response. Dates are
    day numbers and timestamps opaque instants. */
module MealPlanTypes {
  import opened Wrappers
  import opened Text
  import opened Recipes

  /** A `meals` row. */
  datatype Meal = Meal(
    recipeId: int,
    mealType: string,
    scheduledTime: Option<int>,
    servings: Option<int>,
    notes: Option<string>,
    createdAt: Option<int>)

  /** A `daily_meal_plans` row; at most one per (user, date). */
  datatype DailyMealPlan = DailyMealPlan(
    userId: int,
    planDate: int,
    mealIds: Option<seq<int>>,
    totalCalories: Option<real>,
    totalProtein: Option<real>,
    totalCarbs: Option<real>,
    totalFat: Option<real>,
    totalFiber: Option<real>,
    maxPrepTime: Option<int>,
    status: Option<string>,
    createdAt: Option<int>)
  {
    /** The five stored totals, when all are present. */
    predicate HasTotals() {
      totalCalories.Some? && totalProtein.Some? && totalCarbs.Some? && totalFat.Some? && totalFiber.Some?
    }

    function WithTotals(t: Totals): DailyMealPlan {
      this.(totalCalories := Some(t.calories), totalProtein := Some(t.protein),
            totalCarbs := Some(t.carbs), totalFat := Some(t.fat), totalFiber := Some(t.fiber))
    }
  }

  /** A `weekly_meal_plans` row. */
  datatype WeeklyMealPlan = WeeklyMealPlan(
    userId: int,
    startDate: int,
    endDate: int,
    dailyPlanIds: seq<int>,
    avgDailyCalories: real,
    avgDailyProtein: real,
    avgDailyCarbs: real,
    avgDailyFat: real,
    status: string,
    createdAt: Option<int>)

  /** The body of a generation request. `availableIngredients`,
      `useAiGeneration` and `clientId` are not read by the engine. */
  datatype MealPlanRequest = MealPlanRequest(
    userId: Option<int>,
    mealsPerDay: Option<int>,
    numberOfDays: Option<int>,
    startDate: Option<int>,
    maxPrepTime: Option<int>,
    targetCalories: Option<real>,
    targetProtein: Option<real>,
    targetCarbs: Option<real>,
    targetFat: Option<real>,
    preferredCuisines: TextArray,
    tags: TextArray)

  /** The body of an alternative-meal request. `userId`, `dislikeReason`,
      `maintainMealType` and `maxCalorieDifference` are not read. */
  datatype AlternativeRequest = AlternativeRequest(
    planId: int,
    mealIdToReplace: int,
    dislikedRecipeId: Option<int>,
    excludeRecipeIds: Option<seq<int>>)

  /** The per-day calorie, protein, carbohydrate and fat targets. */
  datatype MacroTargets = MacroTargets(calories: real, protein: real, carbs: real, fat: real)

  datatype MealDetail = MealDetail(mealId: int, mealType: string, recipe: Recipe, servings: int)

  datatype DailyPlanDetail = DailyPlanDetail(
    planId: int,
    planDate: int,
    meals: seq<MealDetail>,
    totals: Totals)

  datatype MealPlanResponse = MealPlanResponse(
    success: bool,
    message: Option<string>,
    dailyPlans: Option<seq<DailyPlanDetail>>,
    totalRecipesUsed: Option<int>,
    calorieVariance: Option<real>,
    proteinVariance: Option<real>,
    weeklyPlan: Option<(int, WeeklyMealPlan)>)

  /** `createErrorResponse`: unsuccessful, with the message and nothing else. */
  function ErrorResponse(message: string): MealPlanResponse {
    MealPlanResponse(false, Some(message), None, None, None, None, None)
  }

  /** The slot labels, by position; slots past the fourth are snacks. */
  const MealTypes: seq<string> := ["breakfast", "lunch", "dinner", "snack"]

  function MealTypeAt(slot: nat): (t: string)
    ensures t in MealTypes
    ensures slot < 3 ==> t == MealTypes[slot]
    ensures slot >= 3 ==> t == "snack"
  {
    MealTypes[if slot < |MealTypes| - 1 then slot else |MealTypes| - 1]
  }
}
