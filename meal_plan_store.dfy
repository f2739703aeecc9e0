/** `MealPlanService` over an in-memory database: the recipe catalog (read
    only), the `meals`, `daily_meal_plans` and `weekly_meal_plans` tables, and
    the engine's operations on them. */
module MealPlanEngine {
  import opened Wrappers
  import opened Seqs
  import opened Recipes
  import opened MealPlanTypes
  import opened EligiblePool
  import opened RecipeSelector
  import opened PlanStatistics
  import opened UserTargets
  import opened MacroTargetResolver

  /** Ids of the recipes of a day's meals. */
  function UsedIds(meals: seq<MealDetail>): set<int> {
    set k | 0 <= k < |meals| :: meals[k].recipe.recipeId
  }

  function RecipesOf(meals: seq<MealDetail>): (rs: seq<Recipe>)
    ensures |rs| == |meals|
    ensures forall k :: 0 <= k < |meals| ==> rs[k] == meals[k].recipe
  {
    seq(|meals|, k requires 0 <= k < |meals| => meals[k].recipe)
  }

  function MealIdsOf(meals: seq<MealDetail>): (ids: seq<int>)
    ensures |ids| == |meals|
    ensures forall k :: 0 <= k < |meals| ==> ids[k] == meals[k].mealId
  {
    seq(|meals|, k requires 0 <= k < |meals| => meals[k].mealId)
  }

  /** The per-meal share of a daily target (`target / mealsPerDay`); it is
      only used when there is at least one slot. */
  function PerMeal(target: real, mealsPerDay: int): real {
    if mealsPerDay == 0 then 0.0 else target / mealsPerDay as real
  }

  /** The meals of one day as the slot loop chooses them: at most one per
      slot; meal k is labelled by its position and served once; each recipe is
      the selector's pick given the recipes chosen before it; and slots go
      unfilled only once no recipe is left to pick. */
  predicate DayChoices(meals: seq<MealDetail>, pool: seq<Recipe>, perMealCalories: real,
                       perMealProtein: real, maxPrep: Option<int>, mealsPerDay: int)
  {
    && |meals| <= (if mealsPerDay < 0 then 0 else mealsPerDay)
    && SlotsSoFar(meals, pool, perMealCalories, perMealProtein, maxPrep)
    && (|meals| < mealsPerDay ==> NoneEligible(pool, UsedIds(meals), maxPrep))
  }

  /** No recipe appears twice in a day. */
  lemma DayRecipesDistinct(meals: seq<MealDetail>, pool: seq<Recipe>, perMealCalories: real,
                           perMealProtein: real, maxPrep: Option<int>, mealsPerDay: int, j: int, k: int)
    requires DayChoices(meals, pool, perMealCalories, perMealProtein, maxPrep, mealsPerDay)
    requires 0 <= j < k < |meals|
    ensures meals[j].recipe.recipeId != meals[k].recipe.recipeId
  {
    PickedIsEligible(pool, perMealCalories, perMealProtein, UsedIds(meals[..k]), maxPrep, meals[k].recipe);
    assert meals[..k][j] == meals[j];
    assert meals[j].recipe.recipeId in UsedIds(meals[..k]);
  }

  /** A chosen recipe comes from the pool and survives the skip rules. */
  lemma PickedIsEligible(pool: seq<Recipe>, tc: real, tp: real, used: set<int>, maxPrep: Option<int>, r: Recipe)
    requires Picked(pool, tc, tp, used, maxPrep, r)
    ensures r in pool && Eligible(r, used, maxPrep)
  {
  }

  /** The per-slot half of `DayChoices`. */
  predicate SlotsSoFar(meals: seq<MealDetail>, pool: seq<Recipe>, perMealCalories: real,
                       perMealProtein: real, maxPrep: Option<int>)
  {
    forall k :: 0 <= k < |meals| ==>
      && meals[k].mealType == MealTypeAt(k)
      && meals[k].servings == 1
      && Picked(pool, perMealCalories, perMealProtein, UsedIds(meals[..k]), maxPrep, meals[k].recipe)
  }

  lemma ExtendSlots(meals: seq<MealDetail>, pool: seq<Recipe>, perMealCalories: real,
                    perMealProtein: real, maxPrep: Option<int>, next: MealDetail)
    requires SlotsSoFar(meals, pool, perMealCalories, perMealProtein, maxPrep)
    requires next.mealType == MealTypeAt(|meals|) && next.servings == 1
    requires Picked(pool, perMealCalories, perMealProtein, UsedIds(meals), maxPrep, next.recipe)
    ensures SlotsSoFar(meals + [next], pool, perMealCalories, perMealProtein, maxPrep)
    ensures UsedIds(meals + [next]) == UsedIds(meals) + {next.recipe.recipeId}
  {
    var ext := meals + [next];
    assert ext[..|meals|] == meals;
    forall k | 0 <= k < |meals|
      ensures ext[..k] == meals[..k]
    {
    }
    forall x | x in UsedIds(ext)
      ensures x in UsedIds(meals) + {next.recipe.recipeId}
    {
      var k :| 0 <= k < |ext| && ext[k].recipe.recipeId == x;
      if k < |meals| {
        assert meals[k] == ext[k];
      }
    }
    forall x | x in UsedIds(meals)
      ensures x in UsedIds(ext)
    {
      var k :| 0 <= k < |meals| && meals[k].recipe.recipeId == x;
      assert ext[k] == meals[k];
    }
    assert ext[|meals|] == next;
  }

  /** A recipe of the catalog is what looking its id up finds. */
  lemma CatalogMemberFound(catalog: seq<Recipe>, r: Recipe)
    requires UniqueIds(catalog) && r in catalog
    ensures FindRecipe(catalog, r.recipeId) == Some(r)
  {
    var i :| 0 <= i < |catalog| && catalog[i] == r;
    FindRecipeOfMember(catalog, i);
  }

  /** A stored meal either names no catalog recipe or one the selector
      could have picked (calories and protein present). */
  predicate MealScorable(catalog: seq<Recipe>, m: Meal) {
    forall r :: r in catalog && r.recipeId == m.recipeId ==> r.calories.Some? && r.protein.Some?
  }

  /** A meal made from a pickable catalog recipe is scorable. */
  lemma ScorableMealOf(catalog: seq<Recipe>, r: Recipe, m: Meal)
    requires UniqueIds(catalog) && r in catalog && r.calories.Some? && r.protein.Some?
    requires m.recipeId == r.recipeId
    ensures MealScorable(catalog, m)
  {
    forall r2 | r2 in catalog && r2.recipeId == m.recipeId
      ensures r2 == r
    {
      var i :| 0 <= i < |catalog| && catalog[i] == r;
      var j :| 0 <= j < |catalog| && catalog[j] == r2;
      assert i == j;
    }
  }

  function IdSet(ids: Option<seq<int>>): (s: set<int>)
    ensures ids.Some? ==> forall k :: 0 <= k < |ids.value| ==> ids.value[k] in s
    ensures forall id :: id in s ==> ids.Some? && id in ids.value
  {
    if ids.None? then {} else set k | 0 <= k < |ids.value| :: ids.value[k]
  }

  /** The recipe a plan's meal id leads to, if the meal and its recipe exist. */
  function MealRecipe(catalog: seq<Recipe>, meals: map<int, Meal>, mealId: int): (rs: seq<Recipe>)
    ensures |rs| <= 1
    ensures forall r :: r in rs ==> r in catalog
  {
    if mealId !in meals then []
    else match FindRecipe(catalog, meals[mealId].recipeId)
      case None => []
      case Some(r) => [r]
  }

  /** The recipes `updateDailyPlanTotals` collects for a plan's meal ids, in
      order, skipping missing meals and missing recipes. */
  function PlanRecipes(catalog: seq<Recipe>, meals: map<int, Meal>, ids: seq<int>): (rs: seq<Recipe>)
    ensures |rs| <= |ids|
    ensures forall r :: r in rs ==> r in catalog
  {
    if ids == [] then []
    else PlanRecipes(catalog, meals, ids[..|ids| - 1]) + MealRecipe(catalog, meals, ids[|ids| - 1])
  }

  /** When every meal a plan lists exists, points at a catalog recipe and
      recipe ids are unique, the recipes collected are exactly the meals'
      recipes, in order: totals recomputed from storage agree with the
      totals computed while the day was generated. */
  lemma {:induction false} PlanRecipesOfChosen(catalog: seq<Recipe>, meals: map<int, Meal>, chosen: seq<MealDetail>)
    requires UniqueIds(catalog)
    requires forall k :: 0 <= k < |chosen| ==>
               && chosen[k].recipe in catalog
               && chosen[k].mealId in meals
               && meals[chosen[k].mealId].recipeId == chosen[k].recipe.recipeId
    ensures PlanRecipes(catalog, meals, MealIdsOf(chosen)) == RecipesOf(chosen)
  {
    if chosen != [] {
      var n := |chosen| - 1;
      var ids := MealIdsOf(chosen);
      var front := chosen[..n];
      assert ids[..n] == MealIdsOf(front);
      PlanRecipesOfChosen(catalog, meals, front);
      CatalogMemberFound(catalog, chosen[n].recipe);
      assert MealRecipe(catalog, meals, ids[n]) == [chosen[n].recipe];
      assert PlanRecipes(catalog, meals, ids) == PlanRecipes(catalog, meals, ids[..n]) + [chosen[n].recipe];
      assert RecipesOf(chosen) == RecipesOf(front) + [chosen[n].recipe];
    }
  }

  /** Every recipe collected for a plan has the five nutrients the totals read. */
  lemma {:induction false} PlanRecipesComplete(catalog: seq<Recipe>, meals: map<int, Meal>, ids: seq<int>)
    requires ScorableComplete(catalog)
    requires forall id :: id in meals ==> MealScorable(catalog, meals[id])
    ensures AllComplete(PlanRecipes(catalog, meals, ids))
  {
    if ids != [] {
      PlanRecipesComplete(catalog, meals, ids[..|ids| - 1]);
      var rs := PlanRecipes(catalog, meals, ids);
      var prefix := PlanRecipes(catalog, meals, ids[..|ids| - 1]);
      var last := MealRecipe(catalog, meals, ids[|ids| - 1]);
      forall i | 0 <= i < |rs| ensures HasAllNutrients(rs[i]) {
        if i < |prefix| {
          assert rs[i] == prefix[i];
        } else {
          assert rs[i] == last[0];
        }
      }
    }
  }

  /** The row `generateDailyMealPlan` saves: the existing plan for the user
      and date, or a new one created now, with the day's meals, the prep-time
      ceiling, status "active" and the day's totals. */
  function SavedPlan(existing: Option<DailyMealPlan>, userId: int, date: int, mealIds: seq<int>,
                     totals: Totals, maxPrep: Option<int>, now: int): (p: DailyMealPlan)
    ensures existing.Some? ==> p.userId == existing.value.userId && p.planDate == existing.value.planDate
    ensures existing.None? ==> p.userId == userId && p.planDate == date && p.createdAt == Some(now)
    ensures existing.Some? ==> p.createdAt == existing.value.createdAt
    ensures p.mealIds == Some(mealIds) && p.maxPrepTime == maxPrep && p.status == Some("active")
    ensures p.totalCalories == Some(totals.calories) && p.totalProtein == Some(totals.protein)
    ensures p.totalCarbs == Some(totals.carbs) && p.totalFat == Some(totals.fat)
    ensures p.totalFiber == Some(totals.fiber)
  {
    var base := if existing.Some? then existing.value
                else DailyMealPlan(userId, date, None, None, None, None, None, None, None, None, Some(now));
    base.(mealIds := Some(mealIds), maxPrepTime := maxPrep, status := Some("active")).WithTotals(totals)
  }

  /** What one generated day satisfies on its own: its date, its meals as
      the slot loop chooses them from the eligible pool at the per-meal
      targets, and its totals as the sums of the meals' recipes. */
  predicate DayGenerated(detail: DailyPlanDetail, catalog: seq<Recipe>, date: int, targets: MacroTargets,
                         mealsPerDay: int, req: MealPlanRequest)
  {
    && detail.planDate == date
    && DayChoices(detail.meals, GetEligibleRecipes(catalog, req), PerMeal(targets.calories, mealsPerDay),
                  PerMeal(targets.protein, mealsPerDay), req.maxPrepTime, mealsPerDay)
    && AllComplete(RecipesOf(detail.meals))
    && detail.totals == TotalsOf(RecipesOf(detail.meals))
  }

  /** `dailyPlans.stream().mapToInt(dp -> dp.getMeals().size()).sum()`. */
  function CountMeals(days: seq<DailyPlanDetail>): (n: nat)
    ensures days == [] ==> n == 0
  {
    if days == [] then 0 else |days[0].meals| + CountMeals(days[1..])
  }

  lemma {:induction false} CountMealsAppend(days: seq<DailyPlanDetail>, day: DailyPlanDetail)
    ensures CountMeals(days + [day]) == CountMeals(days) + |day.meals|
  {
    if days != [] {
      assert (days + [day])[1..] == days[1..] + [day];
      CountMealsAppend(days[1..], day);
    } else {
      assert (days + [day])[1..] == [];
    }
  }

  /** One total of each day, in order. */
  function Column(days: seq<DailyPlanDetail>, field: Totals -> real): (xs: seq<real>)
    ensures |xs| == |days|
    ensures forall i :: 0 <= i < |days| ==> xs[i] == field(days[i].totals)
  {
    seq(|days|, i requires 0 <= i < |days| => field(days[i].totals))
  }

  function PlanIdsOf(days: seq<DailyPlanDetail>): (ids: seq<int>)
    ensures |ids| == |days|
    ensures forall i :: 0 <= i < |days| ==> ids[i] == days[i].planId
  {
    seq(|days|, i requires 0 <= i < |days| => days[i].planId)
  }

  const DefaultMealsPerDay: int := 3
  const DaysInWeek: int := 7
  const LastDayOfWeek: int := 6

  /** The weekly summary `createWeeklyMealPlan` saves for the generated days. */
  function WeeklySummary(userId: int, startDate: int, days: seq<DailyPlanDetail>, now: int): (w: WeeklyMealPlan)
    ensures w.userId == userId && w.startDate == startDate && w.endDate == startDate + LastDayOfWeek
    ensures w.dailyPlanIds == PlanIdsOf(days) && w.status == "active" && w.createdAt == Some(now)
    ensures w.avgDailyCalories == Mean(Column(days, (t: Totals) => t.calories))
    ensures w.avgDailyProtein == Mean(Column(days, (t: Totals) => t.protein))
    ensures w.avgDailyCarbs == Mean(Column(days, (t: Totals) => t.carbs))
    ensures w.avgDailyFat == Mean(Column(days, (t: Totals) => t.fat))
  {
    WeeklyMealPlan(userId, startDate, startDate + LastDayOfWeek, PlanIdsOf(days),
                   Mean(Column(days, (t: Totals) => t.calories)), Mean(Column(days, (t: Totals) => t.protein)),
                   Mean(Column(days, (t: Totals) => t.carbs)), Mean(Column(days, (t: Totals) => t.fat)),
                   "active", Some(now))
  }

  /** Each weekly average lies between the lowest and highest daily total. */
  lemma WeeklyCaloriesBounded(userId: int, startDate: int, days: seq<DailyPlanDetail>, now: int, lo: real, hi: real)
    requires |days| > 0
    requires forall i :: 0 <= i < |days| ==> lo <= days[i].totals.calories <= hi
    ensures lo <= WeeklySummary(userId, startDate, days, now).avgDailyCalories <= hi
  {
    MeanBounds(Column(days, (t: Totals) => t.calories), lo, hi);
  }

  /** The latest stored target of a user, as `findLatestByUserId` returns it. */
  function StoredTarget(latest: map<int, UserTarget>, userId: int): Option<UserTarget> {
    if userId in latest then Some(latest[userId]) else None
  }

  /** `requestAlternativeMeal`'s exclusion set: the disliked recipe, if any,
      and every listed id. */
  function Excluded(req: AlternativeRequest): (s: set<int>)
    ensures req.dislikedRecipeId.Some? ==> req.dislikedRecipeId.value in s
    ensures forall id :: id in IdSet(req.excludeRecipeIds) ==> id in s
    ensures forall id :: id in s ==> Some(id) == req.dislikedRecipeId || id in IdSet(req.excludeRecipeIds)
  {
    (if req.dislikedRecipeId.Some? then {req.dislikedRecipeId.value} else {}) + IdSet(req.excludeRecipeIds)
  }

  const AlternativeSelected: string := "Alternative meal selected successfully"

  /** Since the day began, with the meal table at `before` and the next
      meal id at `firstId`, exactly one meal row has been added per chosen
      meal, under consecutive ids. */
  ghost predicate MealsAdded(meals: map<int, Meal>, nextMealId: int, before: map<int, Meal>, firstId: int,
                       chosen: seq<MealDetail>, now: int)
  {
    && nextMealId == firstId + |chosen|
    && (forall k :: 0 <= k < |chosen| ==> chosen[k].mealId == firstId + k)
    && (forall id :: id in meals <==> id in before || firstId <= id < nextMealId)
    && (forall id :: id in before ==> meals[id] == before[id])
    && (forall k :: 0 <= k < |chosen| ==>
          meals[firstId + k] == Meal(chosen[k].recipe.recipeId, MealTypeAt(k), None, Some(1), None, Some(now)))
  }

  /** Saving the next chosen meal under the next id extends the day's rows by one. */
  lemma MealsAddedExtend(meals: map<int, Meal>, next: int, before: map<int, Meal>, firstId: int,
                         chosen: seq<MealDetail>, now: int, detail: MealDetail)
    requires MealsAdded(meals, next, before, firstId, chosen, now)
    requires next !in meals && detail.mealId == next
    ensures MealsAdded(meals[next := Meal(detail.recipe.recipeId, MealTypeAt(|chosen|), None, Some(1), None, Some(now))],
                       next + 1, before, firstId, chosen + [detail], now)
  {
    var ext := chosen + [detail];
    forall k | 0 <= k < |ext|
      ensures ext[k].mealId == firstId + k
    {
      if k < |chosen| {
        assert ext[k] == chosen[k];
      }
    }
  }

  /** The chosen recipes are catalog recipes with all five nutrients. */
  lemma DayChoicesComplete(catalog: seq<Recipe>, pool: seq<Recipe>, meals: seq<MealDetail>, perMealCalories: real,
                           perMealProtein: real, maxPrep: Option<int>, mealsPerDay: int)
    requires DayChoices(meals, pool, perMealCalories, perMealProtein, maxPrep, mealsPerDay)
    requires forall r :: r in pool ==> r in catalog
    requires ScorableComplete(catalog)
    ensures forall k :: 0 <= k < |meals| ==> meals[k].recipe in catalog
    ensures AllComplete(RecipesOf(meals))
  {
    forall k | 0 <= k < |meals|
      ensures meals[k].recipe in catalog && HasAllNutrients(meals[k].recipe)
    {
      PickedIsEligible(pool, perMealCalories, perMealProtein, UsedIds(meals[..k]), maxPrep, meals[k].recipe);
    }
  }

  /** Deleting the overwritten plan's older meals keeps the day's new meals,
      so the plan's meal ids lead back to the day's recipes. */
  lemma NewMealsSurviveDeletion(catalog: seq<Recipe>, grown: map<int, Meal>, next: int, before: map<int, Meal>,
                                replaced: set<int>, firstId: int, chosen: seq<MealDetail>, now: int)
    requires MealsAdded(grown, next, before, firstId, chosen, now)
    requires forall id :: id in replaced ==> id < firstId
    requires UniqueIds(catalog)
    requires forall k :: 0 <= k < |chosen| ==> chosen[k].recipe in catalog
    ensures MealsAdded(grown - replaced, next, before - replaced, firstId, chosen, now)
    ensures PlanRecipes(catalog, grown - replaced, MealIdsOf(chosen)) == RecipesOf(chosen)
  {
    var meals := grown - replaced;
    forall k | 0 <= k < |chosen|
      ensures chosen[k].mealId in meals && meals[chosen[k].mealId].recipeId == chosen[k].recipe.recipeId
    {
      assert chosen[k].mealId == firstId + k;
    }
    PlanRecipesOfChosen(catalog, meals, chosen);
  }

  /** The five totals stored on a plan row are those of `t`. */
  predicate StoresTotals(p: DailyMealPlan, t: Totals) {
    && p.totalCalories == Some(t.calories) && p.totalProtein == Some(t.protein)
    && p.totalCarbs == Some(t.carbs) && p.totalFat == Some(t.fat) && p.totalFiber == Some(t.fiber)
  }

  /** A generated day is saved as the user's plan for its date, listing its
      meals and storing its totals. */
  predicate DayStored(plans: map<int, DailyMealPlan>, detail: DailyPlanDetail, userId: int) {
    && detail.planId in plans
    && plans[detail.planId].userId == userId
    && plans[detail.planId].planDate == detail.planDate
    && plans[detail.planId].mealIds == Some(MealIdsOf(detail.meals))
    && StoresTotals(plans[detail.planId], detail.totals)
  }

  /** Saving the plan for a new date leaves the days already stored for
      other dates in place. */
  lemma StoredDaysSurvive(before: map<int, DailyMealPlan>, days: seq<DailyPlanDetail>, userId: int,
                          id: int, row: DailyMealPlan, date: int)
    requires forall d :: 0 <= d < |days| ==> DayStored(before, days[d], userId) && days[d].planDate != date
    requires id in before ==> before[id].planDate == date
    ensures forall d :: 0 <= d < |days| ==> DayStored(before[id := row], days[d], userId)
  {
    forall d | 0 <= d < |days|
      ensures DayStored(before[id := row], days[d], userId)
    {
      assert days[d].planId != id;
    }
  }

  /** Plan ids lie below their counter and every plan lists meal ids below
      the meal counter; the (user, date) index and the plans agree, one plan
      per key. */
  ghost predicate PlansIndexed(plans: map<int, DailyMealPlan>, planIndex: map<(int, int), int>,
                               nextPlanId: int, nextMealId: int)
  {
    && (forall id :: id in plans ==> id < nextPlanId && plans[id].mealIds.Some?)
    && (forall id, k :: id in plans && plans[id].mealIds.Some? && 0 <= k < |plans[id].mealIds.value| ==>
          plans[id].mealIds.value[k] < nextMealId)
    && (forall key :: key in planIndex ==>
          && planIndex[key] in plans
          && plans[planIndex[key]].userId == key.0
          && plans[planIndex[key]].planDate == key.1)
    && (forall id :: id in plans ==>
          && (plans[id].userId, plans[id].planDate) in planIndex
          && planIndex[(plans[id].userId, plans[id].planDate)] == id)
  }

  /** Whether a row lists meal ids, all below the meal counter. */
  predicate ListsMealsBelow(row: DailyMealPlan, nextMealId: int) {
    row.mealIds.Some? && forall k :: 0 <= k < |row.mealIds.value| ==> row.mealIds.value[k] < nextMealId
  }

  /** Overwriting a plan with a row for the same user and date keeps the index. */
  lemma PlansIndexedOverwrite(plans: map<int, DailyMealPlan>, planIndex: map<(int, int), int>,
                              nextPlanId: int, nextMealId: int, id: int, row: DailyMealPlan)
    requires PlansIndexed(plans, planIndex, nextPlanId, nextMealId)
    requires id in plans && row.userId == plans[id].userId && row.planDate == plans[id].planDate
    requires ListsMealsBelow(row, nextMealId)
    ensures PlansIndexed(plans[id := row], planIndex, nextPlanId, nextMealId)
  {
  }

  /** A row for a user and date no plan has yet, saved under the next plan
      id and indexed by its key, keeps the index. */
  lemma PlansIndexedInsert(plans: map<int, DailyMealPlan>, planIndex: map<(int, int), int>,
                           nextPlanId: int, nextMealId: int, row: DailyMealPlan)
    requires PlansIndexed(plans, planIndex, nextPlanId, nextMealId)
    requires forall id :: id in plans ==> plans[id].userId != row.userId || plans[id].planDate != row.planDate
    requires ListsMealsBelow(row, nextMealId)
    ensures PlansIndexed(plans[nextPlanId := row], planIndex[(row.userId, row.planDate) := nextPlanId],
                         nextPlanId + 1, nextMealId)
  {
    forall key | key in planIndex
      ensures key != (row.userId, row.planDate)
    {
      var id := planIndex[key];
      assert id in plans && plans[id].userId == key.0 && plans[id].planDate == key.1;
    }
    assert nextPlanId !in plans;
  }

  /** The request's values after defaults: three meals a day, one day, today. */
  function MealsPerDayOf(req: MealPlanRequest): int { req.mealsPerDay.GetOr(DefaultMealsPerDay) }
  function NumberOfDaysOf(req: MealPlanRequest): int { req.numberOfDays.GetOr(1) }
  function StartDateOf(req: MealPlanRequest, today: int): int { req.startDate.GetOr(today) }

  const UserIdRequired: string := "User ID is required"
  const UserNotFound: string := "User not found"
  const DailyPlanGenerated: string := "Daily meal plan generated successfully"

  class MealPlanStore {
    /** `recipeRepository.findAll()`: the engine never writes recipes. */
    const catalog: seq<Recipe>
    var meals: map<int, Meal>
    var nextMealId: int
    var plans: map<int, DailyMealPlan>
    /** The (user, date) key of each daily plan, as `findByUserIdAndPlanDate` finds it. */
    var planIndex: map<(int, int), int>
    var nextPlanId: int
    var weeklyPlans: map<int, WeeklyMealPlan>
    var nextWeeklyId: int

    /** Ids below their counters; every plan lists its meals and is indexed
        by its (user, date) key, one plan per key; every meal's recipe, when
        found, is one the selector could pick, and such recipes carry all
        the nutrients the totals read. */
    ghost predicate Valid()
      reads this
    {
      && UniqueIds(catalog)
      && ScorableComplete(catalog)
      && MealsValid()
      && PlansValid()
      && (forall id :: id in weeklyPlans ==> id < nextWeeklyId)
    }

    ghost predicate MealsValid()
      reads this
    {
      forall id :: id in meals ==> id < nextMealId && MealScorable(catalog, meals[id])
    }

    ghost predicate PlansValid()
      reads this
    {
      PlansIndexed(plans, planIndex, nextPlanId, nextMealId)
    }

    constructor (recipes: seq<Recipe>)
      requires UniqueIds(recipes) && ScorableComplete(recipes)
      ensures Valid() && catalog == recipes
      ensures meals == map[] && plans == map[] && planIndex == map[] && weeklyPlans == map[]
    {
      catalog := recipes;
      meals := map[];
      nextMealId := 1;
      plans := map[];
      planIndex := map[];
      nextPlanId := 1;
      weeklyPlans := map[];
      nextWeeklyId := 1;
    }

    /** `dailyMealPlanRepository.findByUserIdAndPlanDate`. */
    function FindPlan(userId: int, date: int): (r: Option<int>)
      requires Valid()
      reads this
      ensures r.Some? ==> r.value in plans && plans[r.value].userId == userId && plans[r.value].planDate == date
      ensures r.None? ==> forall id :: id in plans ==> plans[id].userId != userId || plans[id].planDate != date
    {
      if (userId, date) in planIndex then Some(planIndex[(userId, date)]) else None
    }

    function ExistingPlan(userId: int, date: int): Option<DailyMealPlan>
      requires Valid()
      reads this
    {
      match FindPlan(userId, date)
      case None => None
      case Some(id) => Some(plans[id])
    }

    /** The meals a regenerated day discards: those of the plan it overwrites. */
    function ReplacedMeals(userId: int, date: int): set<int>
      requires Valid()
      reads this
    {
      match ExistingPlan(userId, date)
      case None => {}
      case Some(p) => IdSet(p.mealIds)
    }

    /** `mealRepository.save` of a new meal: the next identity value. */
    method InsertMeal(meal: Meal) returns (id: int)
      requires MealsValid() && MealScorable(catalog, meal)
      modifies this
      ensures MealsValid()
      ensures id == old(nextMealId) && nextMealId == old(nextMealId) + 1
      ensures meals == old(meals)[id := meal]
      ensures plans == old(plans) && planIndex == old(planIndex) && nextPlanId == old(nextPlanId)
      ensures weeklyPlans == old(weeklyPlans) && nextWeeklyId == old(nextWeeklyId)
    {
      id := nextMealId;
      meals := meals[id := meal];
      nextMealId := nextMealId + 1;
    }

    /** One pass of the slot loop: select a recipe for the slot and, when
        there is one, save it as a meal. */
    method FillSlot(pool: seq<Recipe>, perMealCalories: real, perMealProtein: real, maxPrep: Option<int>,
                    slot: nat, chosen: seq<MealDetail>, used: set<int>, now: int,
                    ghost before: map<int, Meal>, ghost firstId: int)
      returns (chosen': seq<MealDetail>, used': set<int>)
      requires UniqueIds(catalog) && MealsValid()
      requires forall r :: r in pool ==> r in catalog
      requires |chosen| <= slot && used == UsedIds(chosen)
      requires SlotsSoFar(chosen, pool, perMealCalories, perMealProtein, maxPrep)
      requires |chosen| < slot ==> NoneEligible(pool, used, maxPrep)
      requires MealsAdded(meals, nextMealId, before, firstId, chosen, now)
      modifies this
      ensures MealsValid()
      ensures |chosen'| <= slot + 1 && used' == UsedIds(chosen')
      ensures SlotsSoFar(chosen', pool, perMealCalories, perMealProtein, maxPrep)
      ensures |chosen'| < slot + 1 ==> NoneEligible(pool, used', maxPrep)
      ensures MealsAdded(meals, nextMealId, before, firstId, chosen', now)
      ensures plans == old(plans) && planIndex == old(planIndex) && nextPlanId == old(nextPlanId)
      ensures weeklyPlans == old(weeklyPlans) && nextWeeklyId == old(nextWeeklyId)
    {
      chosen', used' := chosen, used;
      var mealType := MealTypeAt(slot);
      var selected := SelectRecipeForMeal(pool, perMealCalories, perMealProtein, used, maxPrep);
      if selected.Some? {
        assert |chosen| == slot;
        PickedIsEligible(pool, perMealCalories, perMealProtein, used, maxPrep, selected.value);
        ScorableMealOf(catalog, selected.value, Meal(selected.value.recipeId, mealType, None, Some(1), None, Some(now)));
        ghost var grown := meals;
        var mealId := InsertMeal(Meal(selected.value.recipeId, mealType, None, Some(1), None, Some(now)));
        MealsAddedExtend(grown, mealId, before, firstId, chosen, now, MealDetail(mealId, mealType, selected.value, 1));
        ExtendSlots(chosen, pool, perMealCalories, perMealProtein, maxPrep, MealDetail(mealId, mealType, selected.value, 1));
        chosen' := chosen + [MealDetail(mealId, mealType, selected.value, 1)];
        used' := used + {selected.value.recipeId};
      }
    }

    /** The slot loop of `generateDailyMealPlan`: one selector call per slot,
        each chosen recipe saved as a meal and marked used. */
    method ChooseMeals(pool: seq<Recipe>, perMealCalories: real, perMealProtein: real,
                       maxPrep: Option<int>, mealsPerDay: int, now: int) returns (chosen: seq<MealDetail>)
      requires UniqueIds(catalog) && MealsValid()
      requires forall r :: r in pool ==> r in catalog
      modifies this
      ensures MealsValid()
      ensures DayChoices(chosen, pool, perMealCalories, perMealProtein, maxPrep, mealsPerDay)
      ensures MealsAdded(meals, nextMealId, old(meals), old(nextMealId), chosen, now)
      ensures plans == old(plans) && planIndex == old(planIndex) && nextPlanId == old(nextPlanId)
      ensures weeklyPlans == old(weeklyPlans) && nextWeeklyId == old(nextWeeklyId)
    {
      chosen := [];
      var used: set<int> := {};
      var slot := 0;
      while slot < mealsPerDay
        invariant 0 <= slot && |chosen| <= slot
        invariant mealsPerDay >= 0 ==> slot <= mealsPerDay
        invariant mealsPerDay < 0 ==> slot == 0
        invariant used == UsedIds(chosen)
        invariant SlotsSoFar(chosen, pool, perMealCalories, perMealProtein, maxPrep)
        invariant |chosen| < slot ==> NoneEligible(pool, used, maxPrep)
        invariant MealsValid() && MealsAdded(meals, nextMealId, old(meals), old(nextMealId), chosen, now)
        invariant plans == old(plans) && planIndex == old(planIndex) && nextPlanId == old(nextPlanId)
        invariant weeklyPlans == old(weeklyPlans) && nextWeeklyId == old(nextWeeklyId)
      {
        chosen, used := FillSlot(pool, perMealCalories, perMealProtein, maxPrep, slot, chosen, used, now,
                                 old(meals), old(nextMealId));
        slot := slot + 1;
      }
    }

    /** The overwrite branch of `generateDailyMealPlan`: the existing plan
        loses its old meals and takes the day's meals and totals. */
    method OverwritePlan(planId: int, chosen: seq<MealDetail>, totals: Totals, maxPrep: Option<int>, now: int)
      requires Valid() && planId in plans
      requires forall k :: 0 <= k < |chosen| ==> chosen[k].mealId < nextMealId
      modifies this
      ensures Valid()
      ensures plans == old(plans)[planId := SavedPlan(Some(old(plans)[planId]), old(plans)[planId].userId,
                                                      old(plans)[planId].planDate, MealIdsOf(chosen), totals, maxPrep, now)]
      ensures meals == old(meals) - IdSet(old(plans)[planId].mealIds)
      ensures planIndex == old(planIndex) && nextPlanId == old(nextPlanId) && nextMealId == old(nextMealId)
      ensures weeklyPlans == old(weeklyPlans) && nextWeeklyId == old(nextWeeklyId)
    {
      var plan := plans[planId];
      var stale := plan.mealIds;
      if stale.Some? && |stale.value| > 0 {
        meals := meals - IdSet(stale);
      } else {
        assert IdSet(stale) == {};
      }
      var row := SavedPlan(Some(plan), plan.userId, plan.planDate, MealIdsOf(chosen), totals, maxPrep, now);
      PlansIndexedOverwrite(plans, planIndex, nextPlanId, nextMealId, planId, row);
      plans := plans[planId := row];
    }

    /** The create branch of `generateDailyMealPlan`: a new plan for a user
        and date that have none, under the next plan id. */
    method InsertPlan(userId: int, date: int, chosen: seq<MealDetail>, totals: Totals,
                      maxPrep: Option<int>, now: int) returns (planId: int)
      requires Valid()
      requires forall id :: id in plans ==> plans[id].userId != userId || plans[id].planDate != date
      requires forall k :: 0 <= k < |chosen| ==> chosen[k].mealId < nextMealId
      modifies this
      ensures Valid()
      ensures planId == old(nextPlanId) && planId !in old(plans)
      ensures plans == old(plans)[planId := SavedPlan(None, userId, date, MealIdsOf(chosen), totals, maxPrep, now)]
      ensures meals == old(meals) && nextMealId == old(nextMealId)
      ensures weeklyPlans == old(weeklyPlans) && nextWeeklyId == old(nextWeeklyId)
    {
      planId := nextPlanId;
      var row := SavedPlan(None, userId, date, MealIdsOf(chosen), totals, maxPrep, now);
      PlansIndexedInsert(plans, planIndex, nextPlanId, nextMealId, row);
      nextPlanId := nextPlanId + 1;
      planIndex := planIndex[(userId, date) := planId];
      plans := plans[planId := row];
    }

    /** The create-or-overwrite half of `generateDailyMealPlan`: an existing
        plan for the user and date loses its old meals and takes the new
        ones; otherwise a new plan is created. */
    method SaveDailyPlan(userId: int, date: int, chosen: seq<MealDetail>, totals: Totals,
                         maxPrep: Option<int>, now: int) returns (planId: int)
      requires Valid()
      requires forall k :: 0 <= k < |chosen| ==> chosen[k].mealId < nextMealId
      modifies this
      ensures Valid()
      ensures old(FindPlan(userId, date)).Some? ==> planId == old(FindPlan(userId, date)).value
      ensures old(FindPlan(userId, date)).None? ==> planId == old(nextPlanId) && planId !in old(plans)
      ensures plans == old(plans)[planId := SavedPlan(old(ExistingPlan(userId, date)), userId, date,
                                                      MealIdsOf(chosen), totals, maxPrep, now)]
      ensures meals == old(meals) - old(ReplacedMeals(userId, date))
      ensures nextMealId == old(nextMealId)
      ensures weeklyPlans == old(weeklyPlans) && nextWeeklyId == old(nextWeeklyId)
    {
      var existing := FindPlan(userId, date);
      if existing.Some? {
        planId := existing.value;
        OverwritePlan(planId, chosen, totals, maxPrep, now);
      } else {
        assert old(ReplacedMeals(userId, date)) == {};
        planId := InsertPlan(userId, date, chosen, totals, maxPrep, now);
      }
    }

    /** `generateDailyMealPlan`: choose the day's meals from the eligible pool
        at the per-meal targets, then save the plan with their totals. */
    method GenerateDailyMealPlan(userId: int, targets: MacroTargets, mealsPerDay: int, date: int,
                                 req: MealPlanRequest, now: int) returns (detail: DailyPlanDetail)
      requires Valid()
      modifies this
      ensures Valid()
      ensures DayGenerated(detail, catalog, date, targets, mealsPerDay, req)
      ensures old(FindPlan(userId, date)).Some? ==> detail.planId == old(FindPlan(userId, date)).value
      ensures old(FindPlan(userId, date)).None? ==> detail.planId !in old(plans)
      ensures plans == old(plans)[detail.planId := SavedPlan(old(ExistingPlan(userId, date)), userId, date,
                                                             MealIdsOf(detail.meals), detail.totals, req.maxPrepTime, now)]
      ensures MealsAdded(meals, nextMealId, old(meals) - old(ReplacedMeals(userId, date)), old(nextMealId), detail.meals, now)
      ensures PlanRecipes(catalog, meals, MealIdsOf(detail.meals)) == RecipesOf(detail.meals)
      ensures DayStored(plans, detail, userId)
      ensures detail.planId in old(plans) ==> old(plans)[detail.planId].planDate == date
      ensures weeklyPlans == old(weeklyPlans) && nextWeeklyId == old(nextWeeklyId)
    {
      var perMealCalories := PerMeal(targets.calories, mealsPerDay);
      var perMealProtein := PerMeal(targets.protein, mealsPerDay);
      var pool := GetEligibleRecipes(catalog, req);
      ghost var replaced := ReplacedMeals(userId, date);
      ghost var found := FindPlan(userId, date);
      ghost var existing := ExistingPlan(userId, date);
      assert forall id :: id in replaced ==> id < nextMealId;
      ghost var firstId := nextMealId;
      var chosen := ChooseMeals(pool, perMealCalories, perMealProtein, req.maxPrepTime, mealsPerDay, now);
      assert PlansValid() by {
        assert old(PlansValid());
      }
      assert FindPlan(userId, date) == found && ExistingPlan(userId, date) == existing;
      assert ReplacedMeals(userId, date) == replaced;
      DayChoicesComplete(catalog, pool, chosen, perMealCalories, perMealProtein, req.maxPrepTime, mealsPerDay);
      var totals := TotalsOf(RecipesOf(chosen));
      ghost var grown := meals;
      var planId := SaveDailyPlan(userId, date, chosen, totals, req.maxPrepTime, now);
      detail := DailyPlanDetail(planId, date, chosen, totals);
      NewMealsSurviveDeletion(catalog, grown, nextMealId, old(meals), replaced, firstId, chosen, now);
    }

    /** `updateDailyPlanTotals`: collect the recipes the plan's meals lead to
        and sum their nutrients. */
    method UpdateDailyPlanTotals(mealIds: seq<int>) returns (totals: Totals)
      requires ScorableComplete(catalog) && MealsValid()
      ensures AllComplete(PlanRecipes(catalog, meals, mealIds))
      ensures totals == TotalsOf(PlanRecipes(catalog, meals, mealIds))
    {
      var recipes: seq<Recipe> := [];
      var i := 0;
      while i < |mealIds|
        invariant 0 <= i <= |mealIds|
        invariant recipes == PlanRecipes(catalog, meals, mealIds[..i])
      {
        assert mealIds[..i + 1][..i] == mealIds[..i];
        if mealIds[i] in meals {
          var recipe := FindRecipe(catalog, meals[mealIds[i]].recipeId);
          if recipe.Some? {
            recipes := recipes + [recipe.value];
          }
        }
        i := i + 1;
      }
      assert mealIds[..|mealIds|] == mealIds;
      PlanRecipesComplete(catalog, meals, mealIds);
      totals := TotalsOf(recipes);
    }

    /** The recipe of a stored meal, if both exist. */
    function OriginalRecipe(mealId: int): Option<Recipe>
      reads this
    {
      if mealId in meals then FindRecipe(catalog, meals[mealId].recipeId) else None
    }

    /** The success path of `requestAlternativeMeal`: the meal takes the new
        recipe and the plan's totals are recomputed from storage. */
    method ReplaceMealRecipe(planId: int, mealId: int, alternative: Recipe)
      requires Valid() && planId in plans && mealId in meals
      requires alternative in catalog && alternative.calories.Some? && alternative.protein.Some?
      modifies this
      ensures Valid()
      ensures planIndex == old(planIndex) && nextPlanId == old(nextPlanId) && nextMealId == old(nextMealId)
      ensures weeklyPlans == old(weeklyPlans) && nextWeeklyId == old(nextWeeklyId)
      ensures meals == old(meals)[mealId := old(meals)[mealId].(recipeId := alternative.recipeId)]
      ensures OriginalRecipe(mealId) == Some(alternative)
      ensures AllComplete(PlanRecipes(catalog, meals, old(plans)[planId].mealIds.value))
      ensures plans == old(plans)[planId := old(plans)[planId].WithTotals(
                                   TotalsOf(PlanRecipes(catalog, meals, old(plans)[planId].mealIds.value)))]
    {
      var updated := meals[mealId].(recipeId := alternative.recipeId);
      ScorableMealOf(catalog, alternative, updated);
      CatalogMemberFound(catalog, alternative);
      meals := meals[mealId := updated];
      var plan := plans[planId];
      var totals := UpdateDailyPlanTotals(plan.mealIds.value);
      PlansIndexedOverwrite(plans, planIndex, nextPlanId, nextMealId, planId, plan.WithTotals(totals));
      plans := plans[planId := plan.WithTotals(totals)];
    }

    /** `requestAlternativeMeal`: look up the plan, the meal and its recipe,
        pick the recipe nearest the original's calories and protein from the
        whole catalog outside the exclusions, point the meal at it and
        recompute the plan's totals. Each failed lookup is an error response
        that changes nothing. */
    method RequestAlternativeMeal(req: AlternativeRequest) returns (resp: MealPlanResponse)
      requires Valid()
      modifies this
      ensures Valid()
      ensures planIndex == old(planIndex) && nextPlanId == old(nextPlanId) && nextMealId == old(nextMealId)
      ensures weeklyPlans == old(weeklyPlans) && nextWeeklyId == old(nextWeeklyId)
      ensures req.planId !in old(plans) ==>
                resp == ErrorResponse("Meal plan not found") && meals == old(meals) && plans == old(plans)
      ensures req.planId in old(plans) && req.mealIdToReplace !in old(meals) ==>
                resp == ErrorResponse("Meal not found") && meals == old(meals) && plans == old(plans)
      ensures req.planId in old(plans) && req.mealIdToReplace in old(meals) && old(OriginalRecipe(req.mealIdToReplace)).None? ==>
                resp == ErrorResponse("Original recipe not found") && meals == old(meals) && plans == old(plans)
      ensures req.planId in old(plans) && old(OriginalRecipe(req.mealIdToReplace)).Some?
              && NoneEligible(catalog, Excluded(req), None) ==>
                resp == ErrorResponse("No suitable alternative found") && meals == old(meals) && plans == old(plans)
      ensures resp.success <==>
                req.planId in old(plans) && old(OriginalRecipe(req.mealIdToReplace)).Some?
                && !NoneEligible(catalog, Excluded(req), None)
      ensures resp.success ==>
                && resp == MealPlanResponse(true, Some(AlternativeSelected), None, None, None, None, None)
                && req.mealIdToReplace in meals
                && meals == old(meals)[req.mealIdToReplace := old(meals)[req.mealIdToReplace].(recipeId := meals[req.mealIdToReplace].recipeId)]
                && OriginalRecipe(req.mealIdToReplace).Some?
                && Picked(catalog, old(OriginalRecipe(req.mealIdToReplace)).value.calories.value,
                          old(OriginalRecipe(req.mealIdToReplace)).value.protein.value, Excluded(req), None,
                          OriginalRecipe(req.mealIdToReplace).value)
                && meals[req.mealIdToReplace].recipeId !in Excluded(req)
                && AllComplete(PlanRecipes(catalog, meals, old(plans)[req.planId].mealIds.value))
                && plans == old(plans)[req.planId := old(plans)[req.planId].WithTotals(
                                         TotalsOf(PlanRecipes(catalog, meals, old(plans)[req.planId].mealIds.value)))]
    {
      if req.planId !in plans {
        return ErrorResponse("Meal plan not found");
      }
      var plan := plans[req.planId];
      if req.mealIdToReplace !in meals {
        return ErrorResponse("Meal not found");
      }
      var originalMeal := meals[req.mealIdToReplace];
      var originalRecipe := FindRecipe(catalog, originalMeal.recipeId);
      if originalRecipe.None? {
        return ErrorResponse("Original recipe not found");
      }
      assert MealScorable(catalog, originalMeal);
      var excludeIds := Excluded(req);
      var alternative := SelectRecipeForMeal(catalog, originalRecipe.value.calories.value,
                                             originalRecipe.value.protein.value, excludeIds, None);
      if alternative.None? {
        return ErrorResponse("No suitable alternative found");
      }
      PickedIsEligible(catalog, originalRecipe.value.calories.value, originalRecipe.value.protein.value,
                       excludeIds, None, alternative.value);
      ReplaceMealRecipe(req.planId, req.mealIdToReplace, alternative.value);
      resp := MealPlanResponse(true, Some(AlternativeSelected), None, None, None, None, None);
    }

    /** `createWeeklyMealPlan`: save the weekly summary of the generated days. */
    method CreateWeeklyMealPlan(userId: int, startDate: int, days: seq<DailyPlanDetail>, now: int)
      returns (id: int, weekly: WeeklyMealPlan)
      requires Valid()
      modifies this
      ensures Valid()
      ensures id == old(nextWeeklyId) && id !in old(weeklyPlans)
      ensures weekly == WeeklySummary(userId, startDate, days, now)
      ensures weeklyPlans == old(weeklyPlans)[id := weekly] && nextWeeklyId == old(nextWeeklyId) + 1
      ensures meals == old(meals) && nextMealId == old(nextMealId)
      ensures plans == old(plans) && planIndex == old(planIndex) && nextPlanId == old(nextPlanId)
    {
      weekly := WeeklySummary(userId, startDate, days, now);
      id := nextWeeklyId;
      weeklyPlans := weeklyPlans[id := weekly];
      nextWeeklyId := nextWeeklyId + 1;
    }

    /** One pass of the day loop of `generateMealPlan`: generate the next
        day and append it, keeping the days generated so far stored. */
    method AppendDay(userId: int, targets: MacroTargets, mealsPerDay: int, startDate: int,
                     req: MealPlanRequest, now: int, days: seq<DailyPlanDetail>)
      returns (days': seq<DailyPlanDetail>)
      requires Valid()
      requires forall d :: 0 <= d < |days| ==> DayGenerated(days[d], catalog, startDate + d, targets, mealsPerDay, req)
      requires forall d :: 0 <= d < |days| ==> DayStored(plans, days[d], userId)
      modifies this
      ensures Valid()
      ensures |days'| == |days| + 1
      ensures forall d :: 0 <= d < |days'| ==> DayGenerated(days'[d], catalog, startDate + d, targets, mealsPerDay, req)
      ensures forall d :: 0 <= d < |days'| ==> DayStored(plans, days'[d], userId)
      ensures weeklyPlans == old(weeklyPlans) && nextWeeklyId == old(nextWeeklyId)
    {
      ghost var before := plans;
      var detail := GenerateDailyMealPlan(userId, targets, mealsPerDay, startDate + |days|, req, now);
      StoredDaysSurvive(before, days, userId, detail.planId, plans[detail.planId], startDate + |days|);
      days' := days + [detail];
      forall d | 0 <= d < |days'|
        ensures DayGenerated(days'[d], catalog, startDate + d, targets, mealsPerDay, req)
        ensures DayStored(plans, days'[d], userId)
      {
        if d < |days| {
          assert days'[d] == days[d];
        }
      }
    }

    /** The day loop of `generateMealPlan`: one daily plan per day from the
        start date, all at the same targets. */
    method GenerateDays(userId: int, targets: MacroTargets, mealsPerDay: int, numberOfDays: int,
                        startDate: int, req: MealPlanRequest, now: int) returns (days: seq<DailyPlanDetail>)
      requires Valid()
      modifies this
      ensures Valid()
      ensures |days| == (if numberOfDays < 0 then 0 else numberOfDays)
      ensures forall d :: 0 <= d < |days| ==> DayGenerated(days[d], catalog, startDate + d, targets, mealsPerDay, req)
      ensures forall d :: 0 <= d < |days| ==> DayStored(plans, days[d], userId)
      ensures weeklyPlans == old(weeklyPlans) && nextWeeklyId == old(nextWeeklyId)
    {
      days := [];
      while |days| < numberOfDays
        invariant Valid()
        invariant numberOfDays >= 0 ==> |days| <= numberOfDays
        invariant numberOfDays < 0 ==> days == []
        invariant forall d :: 0 <= d < |days| ==> DayGenerated(days[d], catalog, startDate + d, targets, mealsPerDay, req)
        invariant forall d :: 0 <= d < |days| ==> DayStored(plans, days[d], userId)
        invariant weeklyPlans == old(weeklyPlans) && nextWeeklyId == old(nextWeeklyId)
        decreases numberOfDays - |days|
      {
        days := AppendDay(userId, targets, mealsPerDay, startDate, req, now, days);
      }
    }

    /** What a successful `generateMealPlan` reports and leaves behind: one
        generated and saved day per requested day from `start`, the count of
        meals, the variance of the average day from the targets when there
        is a day, and for seven or more days the weekly summary saved under
        the next weekly id (otherwise, for exactly one day, a message). */
    ghost predicate Generated(resp: MealPlanResponse, req: MealPlanRequest, userId: int, targets: MacroTargets,
                              start: int, now: int, weeklyBefore: map<int, WeeklyMealPlan>, weeklyId: int)
      reads this
    {
      var days := NumberOfDaysOf(req);
      && resp.success && resp.dailyPlans.Some?
      && |resp.dailyPlans.value| == (if days < 0 then 0 else days)
      && (forall d :: 0 <= d < |resp.dailyPlans.value| ==>
            && DayGenerated(resp.dailyPlans.value[d], catalog, start + d, targets, MealsPerDayOf(req), req)
            && DayStored(plans, resp.dailyPlans.value[d], userId))
      && resp.totalRecipesUsed == Some(CountMeals(resp.dailyPlans.value))
      && (days > 0 ==>
            && resp.calorieVariance == Some(CalculateVariance(
                 Mean(Column(resp.dailyPlans.value, (t: Totals) => t.calories)), targets.calories))
            && resp.proteinVariance == Some(CalculateVariance(
                 Mean(Column(resp.dailyPlans.value, (t: Totals) => t.protein)), targets.protein)))
      && (days <= 0 ==> resp.calorieVariance.None? && resp.proteinVariance.None?)
      && (days >= DaysInWeek ==>
            && resp.weeklyPlan == Some((weeklyId, WeeklySummary(userId, start, resp.dailyPlans.value, now)))
            && weeklyPlans == weeklyBefore[weeklyId := resp.weeklyPlan.value.1]
            && resp.message.None?)
      && (days < DaysInWeek ==>
            && resp.weeklyPlan.None? && weeklyPlans == weeklyBefore
            && resp.message == (if days == 1 then Some(DailyPlanGenerated) else None))
    }

    /** `generateMealPlan` once the user is known. */
    method GenerateForUser(req: MealPlanRequest, userId: int, targets: MacroTargets, today: int, now: int)
      returns (resp: MealPlanResponse)
      requires Valid()
      modifies this
      ensures Valid()
      ensures Generated(resp, req, userId, targets, StartDateOf(req, today), now, old(weeklyPlans), old(nextWeeklyId))
    {
      var mealsPerDay := MealsPerDayOf(req);
      var numberOfDays := NumberOfDaysOf(req);
      var startDate := StartDateOf(req, today);
      var days := GenerateDays(userId, targets, mealsPerDay, numberOfDays, startDate, req, now);
      var calorieVariance: Option<real> := None;
      var proteinVariance: Option<real> := None;
      if |days| > 0 {
        var avgCalories := Mean(Column(days, (t: Totals) => t.calories));
        var avgProtein := Mean(Column(days, (t: Totals) => t.protein));
        calorieVariance := Some(CalculateVariance(avgCalories, targets.calories));
        proteinVariance := Some(CalculateVariance(avgProtein, targets.protein));
      }
      var weeklyPlan: Option<(int, WeeklyMealPlan)> := None;
      var message: Option<string> := None;
      if numberOfDays >= DaysInWeek {
        var weeklyId, weekly := CreateWeeklyMealPlan(userId, startDate, days, now);
        weeklyPlan := Some((weeklyId, weekly));
      } else if numberOfDays == 1 && |days| > 0 {
        message := Some(DailyPlanGenerated);
      }
      resp := MealPlanResponse(true, message, Some(days), Some(CountMeals(days)), calorieVariance, proteinVariance, weeklyPlan);
    }

    /** `generateMealPlan`: check the user, resolve the targets from the
        request, the user's latest stored target and the defaults, then
        generate. */
    method GenerateMealPlan(req: MealPlanRequest, userIds: set<int>, latestTargets: map<int, UserTarget>,
                            today: int, now: int) returns (resp: MealPlanResponse)
      requires Valid()
      requires req.userId.Some? && req.userId.value in userIds ==>
                 StoredValuesPresent(req, StoredTarget(latestTargets, req.userId.value))
      modifies this
      ensures Valid()
      ensures req.userId.None? ==> resp == ErrorResponse(UserIdRequired) && unchanged(this)
      ensures req.userId.Some? && req.userId.value !in userIds ==> resp == ErrorResponse(UserNotFound) && unchanged(this)
      ensures req.userId.Some? && req.userId.value in userIds ==>
                Generated(resp, req, req.userId.value, DetermineMacroTargets(req, StoredTarget(latestTargets, req.userId.value)),
                          StartDateOf(req, today), now, old(weeklyPlans), old(nextWeeklyId))
    {
      if req.userId.None? {
        return ErrorResponse(UserIdRequired);
      }
      var userId := req.userId.value;
      if userId !in userIds {
        return ErrorResponse(UserNotFound);
      }
      var targets := DetermineMacroTargets(req, StoredTarget(latestTargets, userId));
      resp := GenerateForUser(req, userId, targets, today, now);
    }
  }
}
