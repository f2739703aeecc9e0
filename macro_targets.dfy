/** `determineMacroTargets`: each daily macro target is the request's value,
    else the user's latest stored target, else a default. */
module MacroTargetResolver {
  import opened Wrappers
  import opened UserTargets
  import opened MealPlanTypes

  const DefaultCalories: real := 2000.0
  const DefaultProtein: real := 150.0
  const DefaultCarbs: real := 250.0
  const DefaultFat: real := 65.0

  /** The stored value is read only when the request leaves a macro out and a
      target exists; it must then be present (it is unboxed). */
  predicate StoredValuesPresent(req: MealPlanRequest, stored: Option<UserTarget>) {
    stored.Some? ==>
      && (req.targetCalories.None? ==> stored.value.calories.Some?)
      && (req.targetProtein.None? ==> stored.value.protein.Some?)
      && (req.targetCarbs.None? ==> stored.value.carbs.Some?)
      && (req.targetFat.None? ==> stored.value.fat.Some?)
  }

  /** One macro: request, else stored target, else default. */
  function Resolve(requested: Option<real>, stored: Option<UserTarget>,
                   field: UserTarget -> Option<real>, default: real): real
    requires requested.None? && stored.Some? ==> field(stored.value).Some?
  {
    if requested.Some? then requested.value
    else if stored.Some? then field(stored.value).value
    else default
  }

  function DetermineMacroTargets(req: MealPlanRequest, stored: Option<UserTarget>): (m: MacroTargets)
    requires StoredValuesPresent(req, stored)
    ensures req.targetCalories.Some? ==> m.calories == req.targetCalories.value
    ensures req.targetProtein.Some? ==> m.protein == req.targetProtein.value
    ensures req.targetCarbs.Some? ==> m.carbs == req.targetCarbs.value
    ensures req.targetFat.Some? ==> m.fat == req.targetFat.value
    ensures req.targetCalories.None? && stored.Some? ==> m.calories == stored.value.calories.value
    ensures req.targetProtein.None? && stored.Some? ==> m.protein == stored.value.protein.value
    ensures req.targetCarbs.None? && stored.Some? ==> m.carbs == stored.value.carbs.value
    ensures req.targetFat.None? && stored.Some? ==> m.fat == stored.value.fat.value
    ensures req.targetCalories.None? && stored.None? ==> m.calories == 2000.0
    ensures req.targetProtein.None? && stored.None? ==> m.protein == 150.0
    ensures req.targetCarbs.None? && stored.None? ==> m.carbs == 250.0
    ensures req.targetFat.None? && stored.None? ==> m.fat == 65.0
  {
    MacroTargets(
      Resolve(req.targetCalories, stored, (t: UserTarget) => t.calories, DefaultCalories),
      Resolve(req.targetProtein, stored, (t: UserTarget) => t.protein, DefaultProtein),
      Resolve(req.targetCarbs, stored, (t: UserTarget) => t.carbs, DefaultCarbs),
      Resolve(req.targetFat, stored, (t: UserTarget) => t.fat, DefaultFat))
  }

  /** The stored target is never consulted for a macro the request gives:
      a request naming all four ignores whatever is stored. */
  lemma FullRequestIgnoresStored(req: MealPlanRequest, s1: Option<UserTarget>, s2: Option<UserTarget>)
    requires req.targetCalories.Some? && req.targetProtein.Some?
    requires req.targetCarbs.Some? && req.targetFat.Some?
    ensures DetermineMacroTargets(req, s1) == DetermineMacroTargets(req, s2)
  {
  }
}
