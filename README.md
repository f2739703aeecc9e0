# NutriFlow service core in Dafny

NutriFlow is a Spring service for nutrition planning. Users record their body
measurements, allergies and daily nutrient targets. The service then:

- builds daily and weekly meal plans from a recipe catalog;
- swaps a disliked meal for an alternative;
- reports BMI statistics;
- checks recipes and ingredients against allergies and suggests substitutions;
- scales an ingredient's per-100 g nutrition to a portion;
- keeps each user's pantry and favorite recipes.

This project models the service layer behind those features. Each database
table is a map from id to row, with an identity counter that numbers new rows.
The repository calls the services make are modelled over those maps, and
every service operation is stated against them.

Code that only computes becomes functions and lemmas. Services that change
stored rows step by step become classes with `modifies` clauses: the meal plan
store, users, user targets, ingredients, favorites and pantry. The two loops
with observable intermediate state are methods with loop invariants: the
slot-filling loop and the best-recipe scan of meal planning, and the pantry's
bind-then-save loop. The same applies to the substitution service's
case-insensitive scans.

Modules, one per file:

| module | file | models |
|---|---|---|
| `Wrappers` | wrappers.dfy | `Option`, `Result`, and the `updateIfNotNull` overlay |
| `Text` | text.dfy | ASCII `equalsIgnoreCase`, `isBlank` |
| `Decimal` | decimal.dfy | `BigDecimal.setScale(n, RoundingMode.HALF_UP)` |
| `Seqs` | seqs.dfy | stream filters, subsequences, sums and means |
| `BmiCategory` | bmi_category.dfy | the `BMICategory` enum |
| `Users` | users.dfy | `UserService` |
| `HealthStatistics` | health_statistics.dfy | `HealthStatisticsService` |
| `UserTargets` | user_targets.dfy | `UserTargetService` |
| `Recipes` | recipes.dfy | recipe rows and nutrient totals |
| `MealPlanTypes` | meal_plan_types.dfy | meal plan rows, requests, responses and meal labels |
| `MacroTargetResolver` | macro_targets.dfy | `determineMacroTargets` |
| `EligiblePool` | eligible_pool.dfy | `getEligibleRecipes` |
| `RecipeSelector` | recipe_selector.dfy | `selectRecipeForMeal` |
| `PlanStatistics` | plan_statistics.dfy | `calculateVariance` and the daily averages |
| `MealPlanEngine` | meal_plan_store.dfy | the rest of `MealPlanService` |
| `Substitution` | substitution.dfy | `SubstitutionService` |
| `IngredientNutrition` | ingredient_nutrition.dfy | `IngredientNutritionService` |
| `Favorites` | favorites.dfy | the popular-recipe limit and favorites of `RecipeService` |
| `Pantry` | pantry.dfy | `PantryService` and the `PantryItem` timestamps |

## Model

| member | source | states |
|---|---|---|
| BmiCategory.FromBmi | nutriflow-service/src/main/java/com/example/nutriflow/shared/enums/BMICategory.java:98-112 | a null BMI, and only a null BMI, classifies as Unknown |
| BmiCategory.FromBmiIntervals | nutriflow-service/src/main/java/com/example/nutriflow/shared/enums/BMICategory.java:103-111 | each category holds exactly on its interval: below 18.5, [18.5, 25), [25, 30), 30 and above |
| BmiCategory.FromBmiBoundaries | nutriflow-service/src/main/java/com/example/nutriflow/shared/enums/BMICategory.java:103-111 | each cut-off value belongs to the higher category; 18.49 is Underweight |
| BmiCategory.FromBmiMonotone | nutriflow-service/src/main/java/com/example/nutriflow/shared/enums/BMICategory.java:98-112 | a larger BMI never falls in a lower category, and a non-null BMI is never Unknown |
| BmiCategory.DisplayNamesDistinct | nutriflow-service/src/main/java/com/example/nutriflow/shared/enums/BMICategory.java:12-51 | different categories have different display names |
| Decimal.RoundHalfUpBounds | nutriflow-service/src/main/java/com/example/nutriflow/user/service/HealthStatisticsService.java:129-138 | HALF_UP rounding to n places yields a value with n decimal places, within half a unit of the input |
| Decimal.RoundHalfUpIdempotent | nutriflow-service/src/main/java/com/example/nutriflow/user/service/HealthStatisticsService.java:129-138 | a value that already has n decimal places is unchanged by rounding |
| Decimal.RoundHalfUpOdd | nutriflow-service/src/main/java/com/example/nutriflow/user/service/HealthStatisticsService.java:129-138 | HALF_UP is symmetric: a negative value rounds to the negation of its absolute value's rounding |
| Decimal.RoundHalfUpTies | nutriflow-service/src/main/java/com/example/nutriflow/user/service/HealthStatisticsService.java:129-138 | ties round away from zero: 0.125 gives 0.13, -0.125 gives -0.13, and 0.124 gives 0.12 |
| HealthStatistics.CalculateBmi | nutriflow-service/src/main/java/com/example/nutriflow/user/service/HealthStatisticsService.java:122-141 | fails with division by zero exactly when the height in metres rounds to 0 at four places; otherwise the BMI has two decimal places |
| HealthStatistics.CalculateBmiBounds | nutriflow-service/src/main/java/com/example/nutriflow/user/service/HealthStatisticsService.java:122-141 | the BMI is within 0.005 of weight divided by the square of the rounded height in metres |
| HealthStatistics.StoredHeightNeverFails | nutriflow-service/src/main/java/com/example/nutriflow/user/service/HealthStatisticsService.java:122-141 | a positive height with the column's two decimal places never triggers the division by zero |
| HealthStatistics.CalculateBmiExamples | nutriflow-service/src/main/java/com/example/nutriflow/user/service/HealthStatisticsService.java:122-141 | 70 kg at 175 cm gives 22.86; 50 kg gives 16.33; 100 kg gives 32.65; 56.66 kg gives 18.50 |
| HealthStatistics.CalculateCurrentMetrics | nutriflow-service/src/main/java/com/example/nutriflow/user/service/HealthStatisticsService.java:82-112 | copies weight and height; computes a BMI exactly when weight is known and height is known and positive; the category and its texts follow the BMI; it fails only when calculateBMI divides by zero |
| HealthStatistics.MissingMeasurementIsUnknown | nutriflow-service/src/main/java/com/example/nutriflow/user/service/HealthStatisticsService.java:102-109 | a missing weight or height gives a null BMI, category Unknown and the insufficient-data message |
| HealthStatistics.MapToHistoryEntry | nutriflow-service/src/main/java/com/example/nutriflow/user/service/HealthStatisticsService.java:149-158 | an entry copies id, weight, height, BMI and recording time from its history row |
| HealthStatistics.MapHistory | nutriflow-service/src/main/java/com/example/nutriflow/user/service/HealthStatisticsService.java:60-66 | the history list maps each row to its entry, in order and with the same length |
| HealthStatistics.GetHealthStatistics | nutriflow-service/src/main/java/com/example/nutriflow/user/service/HealthStatisticsService.java:45-74 | an unknown user gives empty; a known user gives their current metrics and their whole history, mapped in order; it fails exactly when the metrics fail |
| HealthStatistics.UnknownUserIgnoresHistory | nutriflow-service/src/main/java/com/example/nutriflow/user/service/HealthStatisticsService.java:47-51 | for an unknown user the result does not depend on the history table |
| Users.ApplyUpdate | nutriflow-service/src/main/java/com/example/nutriflow/user/service/UserService.java:57-84 | each of the nine updatable fields takes the request's value when non-null and keeps the old one otherwise; id, name and timestamps are not touched by the merge itself (the save stamps updatedAt) |
| Users.EmptyUpdateIsIdentity | nutriflow-service/src/main/java/com/example/nutriflow/user/service/UserService.java:57-84 | an all-null update changes nothing |
| Users.ApplyUpdateIdempotent | nutriflow-service/src/main/java/com/example/nutriflow/user/service/UserService.java:57-84 | applying the same update twice equals applying it once |
| Users.UserStore.FindUserById | nutriflow-service/src/main/java/com/example/nutriflow/user/service/UserService.java:45-47 | present exactly when the id is stored, and then the stored user |
| Users.UserStore.CreateUser | nutriflow-service/src/main/java/com/example/nutriflow/user/service/UserService.java:33-37 | saves the user with both timestamps set to now, under its own id or the next fresh id; only that row changes |
| Users.UserStore.UpdateUser | nutriflow-service/src/main/java/com/example/nutriflow/user/service/UserService.java:57-84 | an unknown id gives empty and changes nothing; a known one stores and returns ApplyUpdate of the old row, with updatedAt set to the flush time when the merge changed the row (the `@PreUpdate` callback) and kept otherwise |
| Users.UserStore.DeleteUser | nutriflow-service/src/main/java/com/example/nutriflow/user/service/UserService.java:92-100 | returns whether the id existed, and removes exactly that row |
| UserTargets.UpdateTargetFields | nutriflow-service/src/main/java/com/example/nutriflow/user/service/UserTargetService.java:93-107 | each of the twelve nutrients takes the request's value when non-null and keeps the old one otherwise; id, user and timestamps are not touched by the merge itself (the save stamps updatedAt) |
| UserTargets.UpdateTargetFieldsCompose | nutriflow-service/src/main/java/com/example/nutriflow/user/service/UserTargetService.java:93-107 | two updates in a row equal one update with the later request overlaid on the earlier |
| UserTargets.UserTargetStore.FindLatestByUserId | nutriflow-service/src/main/java/com/example/nutriflow/user/service/UserTargetService.java:39-46 | present exactly when the user has a target row, and then the user's latest row |
| UserTargets.UserTargetStore.GetUserTargets | nutriflow-service/src/main/java/com/example/nutriflow/user/service/UserTargetService.java:39-46 | an unknown user gives empty; a known user gives their latest target |
| UserTargets.UserTargetStore.UpdateUserTargets | nutriflow-service/src/main/java/com/example/nutriflow/user/service/UserTargetService.java:59-84 | an unknown user changes nothing; the latest row is updated in place, its updatedAt set to the flush time when the merge changed it (the `@PreUpdate` callback); or, with none, a new row for the user is created with the request's values and stamped; afterwards it is the user's latest target |
| MacroTargetResolver.DetermineMacroTargets | nutriflow-service/src/main/java/com/example/nutriflow/mealplan/service/MealPlanService.java:661-704 | each macro comes from the request when given, else from the stored target, else from the defaults 2000, 150, 250 and 65 |
| MacroTargetResolver.FullRequestIgnoresStored | nutriflow-service/src/main/java/com/example/nutriflow/mealplan/service/MealPlanService.java:661-704 | a request naming all four macros makes the stored target irrelevant |
| MealPlanTypes.MealTypeAt | nutriflow-service/src/main/java/com/example/nutriflow/mealplan/service/MealPlanService.java:237-239 | slots 0, 1 and 2 are breakfast, lunch and dinner, and every slot from the fourth on is a snack |
| Recipes.FindRecipe | nutriflow-service/src/main/java/com/example/nutriflow/mealplan/service/MealPlanService.java:583-590 | a found recipe is in the catalog with that id; nothing is found exactly when no recipe has that id |
| Recipes.FindRecipeOfMember | nutriflow-service/src/main/java/com/example/nutriflow/mealplan/service/MealPlanService.java:583-590 | with unique ids, looking up a catalog recipe's id finds that recipe |
| Recipes.TotalsOfAppend | nutriflow-service/src/main/java/com/example/nutriflow/mealplan/service/MealPlanService.java:307-329 | the totals of two meal lists joined are the sum of their totals |
| Recipes.TotalsOfReplace | nutriflow-service/src/main/java/com/example/nutriflow/mealplan/service/MealPlanService.java:580-612 | swapping one recipe shifts the day's totals by the new recipe's nutrients minus the old one's |
| EligiblePool.Narrow | nutriflow-service/src/main/java/com/example/nutriflow/mealplan/service/MealPlanService.java:361-373 | a filter step keeps exactly the matching recipes, in order, unless none match; then it keeps the whole list, so it never empties a list |
| EligiblePool.PrepStage | nutriflow-service/src/main/java/com/example/nutriflow/mealplan/service/MealPlanService.java:361-373 | the prep-time step yields an ordered sub-list that is empty only for an empty input |
| EligiblePool.TagStage | nutriflow-service/src/main/java/com/example/nutriflow/mealplan/service/MealPlanService.java:376-391 | the tag step yields an ordered sub-list that is empty only for an empty input |
| EligiblePool.CuisineStage | nutriflow-service/src/main/java/com/example/nutriflow/mealplan/service/MealPlanService.java:394-410 | the cuisine step yields an ordered sub-list that is empty only for an empty input |
| EligiblePool.GetEligibleRecipes | nutriflow-service/src/main/java/com/example/nutriflow/mealplan/service/MealPlanService.java:355-419 | the pool is an ordered sub-list of the catalog, empty only when the catalog is |
| EligiblePool.EligibleWhenAllFiltersMatch | nutriflow-service/src/main/java/com/example/nutriflow/mealplan/service/MealPlanService.java:355-419 | when some recipe passes all three filters, the pool is exactly the recipes that pass them all |
| EligiblePool.EligibleWithinPrepTime | nutriflow-service/src/main/java/com/example/nutriflow/mealplan/service/MealPlanService.java:361-373 | when some recipe fits the prep-time limit, every pooled recipe fits it |
| EligiblePool.NoFiltersKeepsCatalog | nutriflow-service/src/main/java/com/example/nutriflow/mealplan/service/MealPlanService.java:412-416 | with no filter requested, the pool is the whole catalog |
| RecipeSelector.SelectRecipeForMeal | nutriflow-service/src/main/java/com/example/nutriflow/mealplan/service/MealPlanService.java:431-490 | returns nothing exactly when no recipe is unused and within prep time; otherwise it returns the first eligible recipe with the lowest score, or the first eligible one when a target is zero |
| RecipeSelector.PickIsUnique | nutriflow-service/src/main/java/com/example/nutriflow/mealplan/service/MealPlanService.java:472-486 | at most one position satisfies the pick rule |
| RecipeSelector.PickIsOptimal | nutriflow-service/src/main/java/com/example/nutriflow/mealplan/service/MealPlanService.java:472-486 | with both targets non-zero, no eligible recipe scores lower than the pick |
| PlanStatistics.CalculateVariance | nutriflow-service/src/main/java/com/example/nutriflow/mealplan/service/MealPlanService.java:713-718 | a zero target gives a variance of 0 |
| PlanStatistics.VarianceRoundTrip | nutriflow-service/src/main/java/com/example/nutriflow/mealplan/service/MealPlanService.java:713-718 | the target plus the variance's share of it gives back the actual value |
| PlanStatistics.VarianceSign | nutriflow-service/src/main/java/com/example/nutriflow/mealplan/service/MealPlanService.java:713-718 | for a positive target the variance is positive, zero or negative exactly when the actual value is above, at or below it |
| PlanStatistics.VarianceMonotone | nutriflow-service/src/main/java/com/example/nutriflow/mealplan/service/MealPlanService.java:713-718 | for a positive target a larger actual value never gives a smaller variance |
| PlanStatistics.MeanVarianceBetween | nutriflow-service/src/main/java/com/example/nutriflow/mealplan/service/MealPlanService.java:172-186 | the variance reported for the daily average lies between those of the lowest and the highest day |
| PlanStatistics.OnTargetDaysZeroVariance | nutriflow-service/src/main/java/com/example/nutriflow/mealplan/service/MealPlanService.java:172-186 | when every day meets the target exactly, the reported variance is 0 |
| MealPlanEngine.DayRecipesDistinct | nutriflow-service/src/main/java/com/example/nutriflow/mealplan/service/MealPlanService.java:236-265 | no recipe appears twice in a generated day |
| MealPlanEngine.PickedIsEligible | nutriflow-service/src/main/java/com/example/nutriflow/mealplan/service/MealPlanService.java:439-455 | a picked recipe is in the pool, not used yet, and within the prep-time limit |
| MealPlanEngine.PlanRecipes | nutriflow-service/src/main/java/com/example/nutriflow/mealplan/service/MealPlanService.java:580-612 | the recipes found for a plan's meal ids are catalog recipes, at most one per id |
| MealPlanEngine.PlanRecipesOfChosen | nutriflow-service/src/main/java/com/example/nutriflow/mealplan/service/MealPlanService.java:580-612 | reading back the meals just saved finds exactly the recipes chosen for them, in order |
| MealPlanEngine.PlanRecipesComplete | nutriflow-service/src/main/java/com/example/nutriflow/mealplan/service/MealPlanService.java:580-612 | every recipe a plan's meals lead to carries all the nutrients the totals add up |
| MealPlanEngine.SavedPlan | nutriflow-service/src/main/java/com/example/nutriflow/mealplan/service/MealPlanService.java:268-334 | an existing plan keeps its user, date and creation time; a new one takes the user, date and now; both get the meal ids, the totals, the prep limit and status "active" |
| MealPlanEngine.CountMealsAppend | nutriflow-service/src/main/java/com/example/nutriflow/mealplan/service/MealPlanService.java:167-169 | the recipes-used count grows by each added day's meal count |
| MealPlanEngine.WeeklySummary | nutriflow-service/src/main/java/com/example/nutriflow/mealplan/service/MealPlanService.java:622-651 | the week runs from the start date for seven days, lists the daily plan ids in order, averages calories, protein, carbs and fat over the days, and is "active" |
| MealPlanEngine.WeeklyCaloriesBounded | nutriflow-service/src/main/java/com/example/nutriflow/mealplan/service/MealPlanService.java:622-651 | the weekly calorie average lies within the daily minimum and maximum |
| MealPlanEngine.Excluded | nutriflow-service/src/main/java/com/example/nutriflow/mealplan/service/MealPlanService.java:539-543 | the excluded ids are exactly the disliked recipe, if any, plus every listed id |
| MealPlanEngine.NewMealsSurviveDeletion | nutriflow-service/src/main/java/com/example/nutriflow/mealplan/service/MealPlanService.java:281-288 | deleting the replaced plan's old meals leaves the meals just created, and their recipes, intact |
| MealPlanEngine.MealPlanStore.FindPlan | nutriflow-service/src/main/java/com/example/nutriflow/mealplan/service/MealPlanService.java:268-270 | a found plan has that user and date; nothing is found exactly when no plan has them |
| MealPlanEngine.MealPlanStore.InsertMeal | nutriflow-service/src/main/java/com/example/nutriflow/mealplan/service/MealPlanService.java:247-253 | the meal is stored under the next meal id, and no other table changes |
| MealPlanEngine.MealPlanStore.FillSlot | nutriflow-service/src/main/java/com/example/nutriflow/mealplan/service/MealPlanService.java:236-265 | one slot: the selector's pick, if any, becomes a saved meal with the slot's label and one serving; the recipe joins the used set |
| MealPlanEngine.MealPlanStore.ChooseMeals | nutriflow-service/src/main/java/com/example/nutriflow/mealplan/service/MealPlanService.java:236-265 | the meals chosen for a day satisfy the slot rule (labels by position, each recipe the pick given those before it, slots left empty only when nothing is eligible) and are the meals saved |
| MealPlanEngine.MealPlanStore.SaveDailyPlan | nutriflow-service/src/main/java/com/example/nutriflow/mealplan/service/MealPlanService.java:268-334 | the plan for that user and date is updated in place, or else created under a fresh id; the old plan's meals are deleted and nothing else changes |
| MealPlanEngine.MealPlanStore.GenerateDailyMealPlan | nutriflow-service/src/main/java/com/example/nutriflow/mealplan/service/MealPlanService.java:212-345 | the day has the requested date, its meals follow the slot rule at per-meal targets over the eligible pool, and its totals sum the chosen recipes; the saved plan and meals match the returned day |
| MealPlanEngine.MealPlanStore.UpdateDailyPlanTotals | nutriflow-service/src/main/java/com/example/nutriflow/mealplan/service/MealPlanService.java:580-612 | the totals are the nutrient sums of the recipes the meal ids lead to, skipping missing meals and recipes |
| MealPlanEngine.MealPlanStore.ReplaceMealRecipe | nutriflow-service/src/main/java/com/example/nutriflow/mealplan/service/MealPlanService.java:559-564 | the meal now points at the alternative; the plan's totals are recomputed from its meals |
| MealPlanEngine.MealPlanStore.RequestAlternativeMeal | nutriflow-service/src/main/java/com/example/nutriflow/mealplan/service/MealPlanService.java:500-573 | the four error responses in order, each leaving the store unchanged; success exactly when plan, meal and recipe exist and some recipe is not excluded; then the meal's new recipe is the selector's pick at the original recipe's calories and protein, is not excluded, and the plan's totals are recomputed |
| MealPlanEngine.MealPlanStore.CreateWeeklyMealPlan | nutriflow-service/src/main/java/com/example/nutriflow/mealplan/service/MealPlanService.java:622-651 | stores the weekly summary of the days under a fresh id and touches nothing else |
| MealPlanEngine.MealPlanStore.GenerateDays | nutriflow-service/src/main/java/com/example/nutriflow/mealplan/service/MealPlanService.java:153-161 | one generated and saved day per requested day, on consecutive dates from the start |
| MealPlanEngine.MealPlanStore.GenerateForUser | nutriflow-service/src/main/java/com/example/nutriflow/mealplan/service/MealPlanService.java:141-195 | the response lists the generated days, the meal count, the variances of the average day from the targets, and for seven or more days the saved weekly plan |
| MealPlanEngine.MealPlanStore.GenerateMealPlan | nutriflow-service/src/main/java/com/example/nutriflow/mealplan/service/MealPlanService.java:118-200 | a missing user id and an unknown user are errors that change nothing; otherwise the plan is generated at the resolved macro targets |
| Substitution.HasIgnoreCaseRespectsCase | nutriflow-service/src/main/java/com/example/nutriflow/substitution/service/SubstitutionService.java:217-225 | membership ignoring case gives the same answer for values that differ only in case |
| Substitution.ContainsIgnoreCase | nutriflow-service/src/main/java/com/example/nutriflow/substitution/service/SubstitutionService.java:217-225 | true exactly when some non-null entry equals the value ignoring case |
| Substitution.FirstHit | nutriflow-service/src/main/java/com/example/nutriflow/substitution/service/SubstitutionService.java:85-87 | the hit is the first tag the user is allergic to; there is none exactly when no tag is an allergy |
| Substitution.FindFirstHit | nutriflow-service/src/main/java/com/example/nutriflow/substitution/service/SubstitutionService.java:85-87 | the scan finds exactly the first hit |
| Substitution.OffendersIffTagHits | nutriflow-service/src/main/java/com/example/nutriflow/substitution/service/SubstitutionService.java:79-95 | there are offenders exactly when some ingredient has a tag the user is allergic to |
| Substitution.OffendersSound | nutriflow-service/src/main/java/com/example/nutriflow/substitution/service/SubstitutionService.java:79-95 | every offender names an allergy of the user and an ingredient of the recipe that carries that tag |
| Substitution.ToSuggestions | nutriflow-service/src/main/java/com/example/nutriflow/substitution/service/SubstitutionService.java:114-120 | one suggestion per rule, in order, with the ingredient, the rule's substitute and its note; every rule gives a suggestion and every suggestion comes from a rule |
| Substitution.RulesFor | nutriflow-service/src/main/java/com/example/nutriflow/substitution/service/SubstitutionService.java:105-113 | in table order, every rule for the offending ingredient that avoids the allergen; when there is none, every rule for the ingredient; and no other rule |
| Substitution.SuggestionsSound | nutriflow-service/src/main/java/com/example/nutriflow/substitution/service/SubstitutionService.java:103-122 | every suggestion is a rule RulesFor picks for one of the offenders, labelled with that offender's ingredient |
| Substitution.SuggestionsComplete | nutriflow-service/src/main/java/com/example/nutriflow/substitution/service/SubstitutionService.java:103-122 | every rule RulesFor picks for an offender appears as a suggestion for that offender's ingredient |
| Substitution.SuggestionsOfOne | nutriflow-service/src/main/java/com/example/nutriflow/substitution/service/SubstitutionService.java:103-122 | one offender's suggestions are its RulesFor rules, in table order |
| Substitution.SuggestionsAppend | nutriflow-service/src/main/java/com/example/nutriflow/substitution/service/SubstitutionService.java:103-122 | the suggestions follow the offenders' order: those of two lists joined are the first's followed by the second's |
| Substitution.CheckResult | nutriflow-service/src/main/java/com/example/nutriflow/substitution/service/SubstitutionService.java:97-129 | hasAllergens holds exactly when there are offenders, and without them there are no suggestions |
| Substitution.CheckResultSuggestions | nutriflow-service/src/main/java/com/example/nutriflow/substitution/service/SubstitutionService.java:97-129 | the suggestions of a check are exactly those of the rules RulesFor picks for the reported offenders, in both directions |
| Substitution.HasAllergensIffTagHits | nutriflow-service/src/main/java/com/example/nutriflow/substitution/service/SubstitutionService.java:79-102 | hasAllergens holds exactly when some ingredient has a tag the user is allergic to |
| Substitution.CheckRecipeForUser | nutriflow-service/src/main/java/com/example/nutriflow/substitution/service/SubstitutionService.java:57-130 | an unknown user, then an unknown recipe, are errors; otherwise the result for the recipe's ingredients and the user's allergies (none when null) |
| Substitution.FindSubstitutions | nutriflow-service/src/main/java/com/example/nutriflow/substitution/service/SubstitutionService.java:140-158 | the suggestions are exactly, in both directions, the rules for the ingredient (narrowed to those avoiding `avoid` when it is given and not blank), each labelled with the ingredient; with no or a blank avoid, one per rule |
| Substitution.CheckIngredientForAllergens | nutriflow-service/src/main/java/com/example/nutriflow/substitution/service/SubstitutionService.java:169-199 | echoes the ingredient and the lists (empty when null); suggests exactly the rules for the ingredient whose avoid value is null, blank, or neither an allergen nor a dislike ignoring case |
| Substitution.BlankAvoidIsKept | nutriflow-service/src/main/java/com/example/nutriflow/substitution/service/SubstitutionService.java:201-208 | a rule for the ingredient whose avoid is null or blank is always suggested, whatever the allergens and dislikes |
| Substitution.NothingToAvoidKeepsAllRules | nutriflow-service/src/main/java/com/example/nutriflow/substitution/service/SubstitutionService.java:201-208 | with no allergens and no dislikes, every rule for the ingredient is suggested |
| IngredientNutrition.LookupByName | nutriflow-service/src/main/java/com/example/nutriflow/ingredient/service/IngredientNutritionService.java:59-64 | no match, the single row whose name equals the given one ignoring case, or an ambiguity when two or more do |
| IngredientNutrition.OneMatchIsTheOnlyMatch | nutriflow-service/src/main/java/com/example/nutriflow/ingredient/service/IngredientNutritionService.java:59-64 | a single match is the only row with that name |
| IngredientNutrition.Merge | nutriflow-service/src/main/java/com/example/nutriflow/ingredient/service/IngredientNutritionService.java:106-174 | each incoming non-null value replaces the stored one; id, name, verification and creation stamps are kept; the update stamps are set |
| IngredientNutrition.MergeIdempotent | nutriflow-service/src/main/java/com/example/nutriflow/ingredient/service/IngredientNutritionService.java:106-174 | merging the same ingredient twice equals merging it once |
| IngredientNutrition.ApplyNutritionValues | nutriflow-service/src/main/java/com/example/nutriflow/ingredient/service/IngredientNutritionService.java:215-239 | each non-null macro replaces the stored one, the update stamps are set, and every other field is unchanged |
| IngredientNutrition.NutritionUpdateIsMacroMerge | nutriflow-service/src/main/java/com/example/nutriflow/ingredient/service/IngredientNutritionService.java:207-245 | updating the nutrition values equals the save merge with an ingredient carrying only those four macros |
| IngredientNutrition.ScaledIsAdditive | nutriflow-service/src/main/java/com/example/nutriflow/ingredient/service/IngredientNutritionService.java:284-311 | the nutrients of two portions add up to those of their combined weight |
| IngredientNutrition.ScaledMonotone | nutriflow-service/src/main/java/com/example/nutriflow/ingredient/service/IngredientNutritionService.java:284-311 | for a non-negative base value, a heavier portion never has less of a nutrient |
| IngredientNutrition.Calculated | nutriflow-service/src/main/java/com/example/nutriflow/ingredient/service/IngredientNutritionService.java:284-311 | name and category are copied; the five macros are each base value times grams over 100, with a null base counting as 0; the id, the other seven nutrients, unit, description, source, verification flag and the four audit fields stay null |
| IngredientNutrition.HundredGramsIsTheBase | nutriflow-service/src/main/java/com/example/nutriflow/ingredient/service/IngredientNutritionService.java:284-311 | 100 g gives back the stored per-100 g values |
| IngredientNutrition.CalculateNutrition | nutriflow-service/src/main/java/com/example/nutriflow/ingredient/service/IngredientNutritionService.java:272-317 | fails unless exactly one row has the name, and with not-found when none does; otherwise the portion scaled from that row |
| IngredientNutrition.IngredientStore.SaveIngredient | nutriflow-service/src/main/java/com/example/nutriflow/ingredient/service/IngredientNutritionService.java:101-192 | with an id, stored as given at that id; otherwise merged into the one row of that name, or inserted under a fresh id with creation stamps, or refused when the name is ambiguous; on the merge and insert paths exactly one row has that name afterwards |
| IngredientNutrition.IngredientStore.UpdateNutritionValues | nutriflow-service/src/main/java/com/example/nutriflow/ingredient/service/IngredientNutritionService.java:207-245 | an unknown id fails and changes nothing; a known one stores and returns the updated row |
| IngredientNutrition.IngredientStore.DeleteIngredient | nutriflow-service/src/main/java/com/example/nutriflow/ingredient/service/IngredientNutritionService.java:254-262 | returns whether the id existed, and removes exactly that row |
| Favorites.PopularLimit | nutriflow-service/src/main/java/com/example/nutriflow/recipe/service/RecipeService.java:60-64 | a positive limit is used as is; any other gives the default 5 |
| Favorites.GetPopularRecipes | nutriflow-service/src/main/java/com/example/nutriflow/recipe/service/RecipeService.java:60-64 | exactly the top min(ranked count, validated limit) recipes of the ranking, in ranking order |
| Favorites.GetPopularRecipesDefault | nutriflow-service/src/main/java/com/example/nutriflow/recipe/service/RecipeService.java:48-51 | exactly the top min(ranked count, 5) recipes of the ranking, in ranking order |
| Favorites.InvalidLimitIsDefault | nutriflow-service/src/main/java/com/example/nutriflow/recipe/service/RecipeService.java:60-64 | a non-positive limit gives the default page |
| Favorites.LargerLimitExtendsPage | nutriflow-service/src/main/java/com/example/nutriflow/recipe/service/RecipeService.java:60-64 | a smaller limit's page is a prefix of a larger limit's page |
| Favorites.FavoriteRecipeIds | nutriflow-service/src/main/java/com/example/nutriflow/recipe/service/RecipeService.java:82-90 | the recipe ids are exactly those the user has marked as favorites |
| Favorites.GetUserFavoriteRecipes | nutriflow-service/src/main/java/com/example/nutriflow/recipe/service/RecipeService.java:82-90 | exactly the catalog recipes the user has marked, in catalog order |
| Favorites.WithoutFavorite | nutriflow-service/src/main/java/com/example/nutriflow/recipe/service/RecipeService.java:125-136 | keeps exactly the rows that are not this user's rows for this recipe, unchanged |
| Favorites.RemovalClearsOnlyThePair | nutriflow-service/src/main/java/com/example/nutriflow/recipe/service/RecipeService.java:125-136 | afterwards the pair is no favorite, every other pair keeps its status, a second removal changes nothing, and removing an absent pair is a no-op |
| Favorites.FavoriteStore.AddFavorite | nutriflow-service/src/main/java/com/example/nutriflow/recipe/service/RecipeService.java:100-116 | fails with "Recipe already in favorites" exactly when the pair exists, changing nothing; otherwise saves a new row with timesUsed 0; either way the pair is then a favorite, and no pair is stored twice |
| Favorites.FavoriteStore.RemoveFavorite | nutriflow-service/src/main/java/com/example/nutriflow/recipe/service/RecipeService.java:125-136 | the table loses exactly the user's rows for that recipe |
| Pantry.SaveOne | nutriflow-service/src/main/java/com/example/nutriflow/pantry/model/PantryItem.java:67-81 | a new item gets the next id and both timestamps; an item with a stored id keeps its stored creation time; every saved item has updatedAt now and is stored under its id |
| Pantry.SaveAll | nutriflow-service/src/main/java/com/example/nutriflow/pantry/service/PantryService.java:62 | returns one saved item per input, in order: the input itself (name, quantity, unit, user) with an id, a creation time and updatedAt now |
| Pantry.SaveAllWellKeyed | nutriflow-service/src/main/java/com/example/nutriflow/pantry/service/PantryService.java:62 | after saving, every row still sits under its own id below the counter |
| Pantry.SavedIdsIncomingOrFresh | nutriflow-service/src/main/java/com/example/nutriflow/pantry/service/PantryService.java:62 | every saved id was either carried by an input or is fresh |
| Pantry.SaveAllRows | nutriflow-service/src/main/java/com/example/nutriflow/pantry/service/PantryService.java:62 | the table afterwards holds the old rows plus the saved ids; rows not saved over are unchanged; each saved id holds a saved item |
| Pantry.SavedIdsAppend | nutriflow-service/src/main/java/com/example/nutriflow/pantry/service/PantryService.java:62 | saving one more item adds exactly its id to the saved ids |
| Pantry.SaveAllKeys | nutriflow-service/src/main/java/com/example/nutriflow/pantry/service/PantryService.java:62 | after saving, the table's ids are exactly the old ids plus the saved ids |
| Pantry.SaveAllKeepsUnsaved | nutriflow-service/src/main/java/com/example/nutriflow/pantry/service/PantryService.java:62 | an old row whose id no save wrote to is still there, unchanged |
| Pantry.SaveAllSavedRows | nutriflow-service/src/main/java/com/example/nutriflow/pantry/service/PantryService.java:62 | every saved id holds one of the saved items |
| Pantry.SaveItems | nutriflow-service/src/main/java/com/example/nutriflow/pantry/service/PantryService.java:62 | saving the array element by element, in order, gives the same table and saved list as saving the whole list |
| Pantry.BindToUser | nutriflow-service/src/main/java/com/example/nutriflow/pantry/service/PantryService.java:59 | every element of the array is set to the user's id, and nothing else in it changes |
| Pantry.ReplaceAll | nutriflow-service/src/main/java/com/example/nutriflow/pantry/service/PantryService.java:55-63 | after binding, deleting and saving: every row still sits under its own id, the user's rows are exactly the saved items, the i-th saved item is the i-th posted item with id and stamps filled in, and other users' rows that no incoming id names are unchanged |
| Pantry.WithoutUser | nutriflow-service/src/main/java/com/example/nutriflow/pantry/service/PantryService.java:60-61 | keeps exactly the rows of other users, unchanged |
| Pantry.ReplaceAllFacts | nutriflow-service/src/main/java/com/example/nutriflow/pantry/service/PantryService.java:55-63 | after replacing, the user's rows are exactly the saved items |
| Pantry.ReplaceAllKeepsOthers | nutriflow-service/src/main/java/com/example/nutriflow/pantry/service/PantryService.java:55-63 | other users' rows not named by an incoming id are unchanged |
| Pantry.PantryStore.GetPantryItems | nutriflow-service/src/main/java/com/example/nutriflow/pantry/service/PantryService.java:29-31 | exactly the rows of that user |
| Pantry.PantryStore.AddPantryItem | nutriflow-service/src/main/java/com/example/nutriflow/pantry/service/PantryService.java:40-43 | saves the item with updatedAt now; a new item gets the next id and creation time now |
| Pantry.PantryStore.UpdatePantryItems | nutriflow-service/src/main/java/com/example/nutriflow/pantry/service/PantryService.java:55-63 | binds every item to the user, deletes the user's rows, then saves the items in order; afterwards the user's rows are exactly the saved items, each the posted item bound to the user with id and stamps filled in, and other users' rows not named by an incoming id are unchanged |
| Pantry.PantryStore.DeletePantryItem | nutriflow-service/src/main/java/com/example/nutriflow/pantry/service/PantryService.java:72-78 | returns whether the id existed, and removes exactly that row |

## Left out

- The REST controllers, `AIRecipeService` (an external language-model call) and the build script are not part of this model.
- Persistence is modelled as maps with identity counters. Transactions, concurrency, lazy loading and database constraints are not modelled. The constraints left out are the non-null calories, the unique ingredient name and the non-null names.
- Clocks are parameters (`now`, `today`), and dates are day numbers.
- `double` and `BigDecimal` values are exact reals, so IEEE rounding is not modelled. The exception is the HALF_UP rounding of the BMI, which is modelled in `Decimal`. The `Double.MAX_VALUE` start of the best-score scan becomes "no best yet".
- Case-insensitive comparison folds ASCII letters only. Java's full Unicode folding is not modelled.
- Repository queries return rows in table order. The popular-recipe ranking is an input to the model, because its SQL scoring is not modelled.
- Plain repository reads are not modelled separately. These are `getRecipeById`, `getAllRecipes`, `getAllIngredients`, `getIngredientById`, `searchIngredients` and `getIngredientsByCategory`.
- Request fields the services never read are kept out of the request types.
- Paths that throw a `NullPointerException` in the source become preconditions:
  - stored targets read without a null check (`StoredValuesPresent`);
  - catalog recipes missing a nutrient (`ScorableComplete` in the store invariant);
  - a plan whose meal-id list is null.
- MealPlanEngine.PerMeal: with zero meals per day the source divides by zero and gets infinity. The model uses 0, and no slot reads the value.
- MealPlanEngine.MealPlanStore.RequestAlternativeMeal: as in the source, the meal to replace need not belong to the given plan.
- MealPlanEngine.MealPlanStore.RequestAlternativeMeal: the request's planId and mealIdToReplace are plain integers here. A null id in the JSON body makes `findById(null)` throw `IllegalArgumentException` before any of the four error responses, and the controller reports it. That path is not modelled.
- MealPlanEngine.MealPlanStore.SaveDailyPlan: ids of old meals already deleted are ignored, as `deleteAllById` ignores them.
- Users.UserStore.CreateUser: a user posted with an id is saved under that id and stamped as new. Hibernate's merge of an unknown or existing id is not modelled, and the id must lie below the counter.
- IngredientNutrition.IngredientStore.SaveIngredient: the same holds for an ingredient posted with an id. Its save is an upsert at that id, and the id must lie below the counter.
- Pantry.SaveOne: the same holds for pantry items that carry ids (`Saveable`, `AllSaveable`). For an item whose id is already stored, the model returns the stored creation time. The column is not updatable, so the stored value is what the table keeps. A JPA merge would instead return the incoming createdAt (`now` in `addPantryItem`), and the model does not capture that.
- Pantry.ReplaceAllKeepsOthers: an incoming item that carries another user's id overwrites that user's row, as the source does. "Others unchanged" is therefore stated only for ids that no incoming item names.
- IngredientNutrition.CalculateNutrition: the `double`-to-`BigDecimal` step is exact in the model.
- Favorites.FavoriteStore.AddFavorite: one row per (user, recipe) pair is a store invariant. It holds because rows are only added through `addFavorite`; the database has no such constraint.
