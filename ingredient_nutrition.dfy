/** The `ingredient_nutrition` table and `IngredientNutritionService`: the
    de-duplicating save, the four-macro update, deletion and the per-amount
    nutrition calculation. */
module IngredientNutrition {
  import opened Wrappers
  import opened Text

  /** One row of per-100 g nutrition data. BigDecimal columns are `real`,
      timestamps are opaque instants. */
  datatype Ingredient = Ingredient(
    ingredientId: Option<int>,
    ingredientName: string,
    ingredientCategory: Option<string>,
    calories: Option<real>,
    protein: Option<real>,
    carbohydrates: Option<real>,
    fat: Option<real>,
    fiber: Option<real>,
    iron: Option<real>,
    calcium: Option<real>,
    vitaminA: Option<real>,
    vitaminC: Option<real>,
    vitaminD: Option<real>,
    sodium: Option<real>,
    potassium: Option<real>,
    unit: Option<string>,
    description: Option<string>,
    source: Option<string>,
    isVerified: Option<bool>,
    createdAt: Option<int>,
    updatedAt: Option<int>,
    createdBy: Option<string>,
    updatedBy: Option<string>)

  /** What the service throws: `IllegalArgumentException` for a missing id or
      name, and Spring's incorrect-result-size error when the case-insensitive
      name query finds more than one row. */
  datatype IngredientError =
    | NotFoundById(id: int)
    | NotFoundByName(name: string)
    | AmbiguousName(name: string)

  /** The ids whose row name equals `name` ignoring case
      (`LOWER(i.ingredientName) = LOWER(:name)`). */
  function NameMatches(rows: map<int, Ingredient>, name: string): (r: set<int>)
    ensures r <= rows.Keys
    ensures forall id :: id in r <==> id in rows && EqualsIgnoreCase(rows[id].ingredientName, name)
  {
    set id | id in rows.Keys && EqualsIgnoreCase(rows[id].ingredientName, name)
  }

  /** The outcome of `findByIngredientNameIgnoreCase`, an `Optional` query. */
  datatype NameLookup = NoMatch | OneMatch(id: int) | ManyMatches

  lemma SingletonIsOneElement(m: set<int>)
    requires |m| == 1
    ensures forall x, y :: x in m && y in m ==> x == y
    ensures forall x :: x in m ==> m == {x}
    ensures exists x :: x in m
  {
    if forall x :: x !in m {
      assert false;
    }
    forall x, y | x in m && y in m
      ensures x == y
    {
      assert |m - {x}| == 0;
      assert y !in m - {x};
    }
  }

  /** `getIngredientByName`: empty when no row matches, the row when exactly
      one does, and an error when several do. */
  function LookupByName(rows: map<int, Ingredient>, name: string): (r: NameLookup)
    ensures r.NoMatch? <==> NameMatches(rows, name) == {}
    ensures r.OneMatch? ==> NameMatches(rows, name) == {r.id}
    ensures r.ManyMatches? <==> |NameMatches(rows, name)| >= 2
  {
    var m := NameMatches(rows, name);
    if m == {} then NoMatch
    else if |m| == 1 then
      SingletonIsOneElement(m);
      var id :| id in m;
      OneMatch(id)
    else ManyMatches
  }

  /** A lookup that finds a row is the only case-insensitive match. */
  lemma OneMatchIsTheOnlyMatch(rows: map<int, Ingredient>, name: string, other: int)
    requires LookupByName(rows, name).OneMatch?
    requires other in rows && EqualsIgnoreCase(rows[other].ingredientName, name)
    ensures other == LookupByName(rows, name).id
  {
  }

  /** The name-match branch of `saveIngredient`: every non-null incoming field
      among the category, the twelve nutrients, description, source and unit
      overwrites the stored one; the update stamp is set; the id, the name, the
      verification flag and the creation stamp stay as stored. */
  function Merge(existing: Ingredient, incoming: Ingredient, updatedBy: Option<string>, now: int): (r: Ingredient)
    ensures r.ingredientId == existing.ingredientId && r.ingredientName == existing.ingredientName
    ensures r.isVerified == existing.isVerified
    ensures r.createdAt == existing.createdAt && r.createdBy == existing.createdBy
    ensures r.updatedAt == Some(now) && r.updatedBy == updatedBy
    ensures r.ingredientCategory == Overlay(incoming.ingredientCategory, existing.ingredientCategory)
    ensures r.calories == Overlay(incoming.calories, existing.calories)
    ensures r.protein == Overlay(incoming.protein, existing.protein)
    ensures r.carbohydrates == Overlay(incoming.carbohydrates, existing.carbohydrates)
    ensures r.fat == Overlay(incoming.fat, existing.fat)
    ensures r.fiber == Overlay(incoming.fiber, existing.fiber)
    ensures r.iron == Overlay(incoming.iron, existing.iron)
    ensures r.calcium == Overlay(incoming.calcium, existing.calcium)
    ensures r.vitaminA == Overlay(incoming.vitaminA, existing.vitaminA)
    ensures r.vitaminC == Overlay(incoming.vitaminC, existing.vitaminC)
    ensures r.vitaminD == Overlay(incoming.vitaminD, existing.vitaminD)
    ensures r.sodium == Overlay(incoming.sodium, existing.sodium)
    ensures r.potassium == Overlay(incoming.potassium, existing.potassium)
    ensures r.description == Overlay(incoming.description, existing.description)
    ensures r.source == Overlay(incoming.source, existing.source)
    ensures r.unit == Overlay(incoming.unit, existing.unit)
  {
    existing.(
      ingredientCategory := Overlay(incoming.ingredientCategory, existing.ingredientCategory),
      calories := Overlay(incoming.calories, existing.calories),
      protein := Overlay(incoming.protein, existing.protein),
      carbohydrates := Overlay(incoming.carbohydrates, existing.carbohydrates),
      fat := Overlay(incoming.fat, existing.fat),
      fiber := Overlay(incoming.fiber, existing.fiber),
      iron := Overlay(incoming.iron, existing.iron),
      calcium := Overlay(incoming.calcium, existing.calcium),
      vitaminA := Overlay(incoming.vitaminA, existing.vitaminA),
      vitaminC := Overlay(incoming.vitaminC, existing.vitaminC),
      vitaminD := Overlay(incoming.vitaminD, existing.vitaminD),
      sodium := Overlay(incoming.sodium, existing.sodium),
      potassium := Overlay(incoming.potassium, existing.potassium),
      description := Overlay(incoming.description, existing.description),
      source := Overlay(incoming.source, existing.source),
      unit := Overlay(incoming.unit, existing.unit),
      updatedAt := Some(now),
      updatedBy := updatedBy)
  }

  /** Saving the same data again (same stamp) changes nothing more. */
  lemma MergeIdempotent(existing: Ingredient, incoming: Ingredient, updatedBy: Option<string>, now: int)
    ensures Merge(Merge(existing, incoming, updatedBy, now), incoming, updatedBy, now)
         == Merge(existing, incoming, updatedBy, now)
  {
  }

  /** An incoming row carrying only a name and the four macros, as
      `updateNutritionValues` receives them. */
  function MacroPatch(name: string, calories: Option<real>, protein: Option<real>,
                      carbs: Option<real>, fat: Option<real>): Ingredient
  {
    Ingredient(None, name, None, calories, protein, carbs, fat,
               None, None, None, None, None, None, None, None,
               None, None, None, None, None, None, None, None)
  }

  /** The field updates of `updateNutritionValues`: only the non-null ones
      among calories, protein, carbohydrates and fat replace the stored values;
      fiber, the micronutrients and the descriptive fields are unchanged. */
  function ApplyNutritionValues(ing: Ingredient, calories: Option<real>, protein: Option<real>,
                                carbs: Option<real>, fat: Option<real>,
                                updatedBy: Option<string>, now: int): (r: Ingredient)
    ensures r.calories == Overlay(calories, ing.calories)
    ensures r.protein == Overlay(protein, ing.protein)
    ensures r.carbohydrates == Overlay(carbs, ing.carbohydrates)
    ensures r.fat == Overlay(fat, ing.fat)
    ensures r.updatedAt == Some(now) && r.updatedBy == updatedBy
    ensures r.(calories := ing.calories, protein := ing.protein, carbohydrates := ing.carbohydrates,
               fat := ing.fat, updatedAt := ing.updatedAt, updatedBy := ing.updatedBy) == ing
  {
    ing.(calories := Overlay(calories, ing.calories),
         protein := Overlay(protein, ing.protein),
         carbohydrates := Overlay(carbs, ing.carbohydrates),
         fat := Overlay(fat, ing.fat),
         updatedAt := Some(now),
         updatedBy := updatedBy)
  }

  /** `updateNutritionValues` is the name-match merge restricted to the four
      macros: the two update paths agree on every field. */
  lemma NutritionUpdateIsMacroMerge(ing: Ingredient, calories: Option<real>, protein: Option<real>,
                                    carbs: Option<real>, fat: Option<real>,
                                    updatedBy: Option<string>, now: int)
    ensures ApplyNutritionValues(ing, calories, protein, carbs, fat, updatedBy, now)
         == Merge(ing, MacroPatch(ing.ingredientName, calories, protein, carbs, fat), updatedBy, now)
  {
  }

  /** One nutrient of `calculateNutrition`: the per-100 g value scaled by
      amount / 100, or zero when the stored value is null. */
  function Scaled(base: Option<real>, amountInGrams: real): real
  {
    if base.Some? then base.value * (amountInGrams / 100.0) else 0.0
  }

  /** A nutrient scaled for an amount is the sum of the same nutrient scaled
      for its parts. */
  lemma {:induction false} ScaledIsAdditive(base: Option<real>, a: real, b: real)
    ensures Scaled(base, a + b) == Scaled(base, a) + Scaled(base, b)
  {
    if base.Some? {
      calc {
        Scaled(base, a + b);
        base.value * ((a + b) / 100.0);
        base.value * (a / 100.0 + b / 100.0);
        base.value * (a / 100.0) + base.value * (b / 100.0);
      }
    }
  }

  /** The fresh object `calculateNutrition` fills: the name and category of the
      stored row, the five scaled macros, and nothing else. */
  function Calculated(base: Ingredient, amountInGrams: real): (r: Ingredient)
    ensures r.ingredientName == base.ingredientName
    ensures r.ingredientCategory == base.ingredientCategory
    ensures r.calories == Some(Scaled(base.calories, amountInGrams))
    ensures r.protein == Some(Scaled(base.protein, amountInGrams))
    ensures r.carbohydrates == Some(Scaled(base.carbohydrates, amountInGrams))
    ensures r.fat == Some(Scaled(base.fat, amountInGrams))
    ensures r.fiber == Some(Scaled(base.fiber, amountInGrams))
    ensures r.ingredientId.None?
    ensures r.iron.None? && r.calcium.None? && r.vitaminA.None? && r.vitaminC.None?
            && r.vitaminD.None? && r.sodium.None? && r.potassium.None?
    ensures r.unit.None? && r.description.None? && r.source.None? && r.isVerified.None?
    ensures r.createdAt.None? && r.updatedAt.None? && r.createdBy.None? && r.updatedBy.None?
  {
    Ingredient(None, base.ingredientName, base.ingredientCategory,
               Some(Scaled(base.calories, amountInGrams)),
               Some(Scaled(base.protein, amountInGrams)),
               Some(Scaled(base.carbohydrates, amountInGrams)),
               Some(Scaled(base.fat, amountInGrams)),
               Some(Scaled(base.fiber, amountInGrams)),
               None, None, None, None, None, None, None,
               None, None, None, None, None, None, None, None)
  }

  /** A calculation for 100 g reproduces the stored macros, with null read as zero. */
  lemma HundredGramsIsTheBase(base: Ingredient)
    ensures Calculated(base, 100.0).calories == Some(base.calories.GetOr(0.0))
    ensures Calculated(base, 100.0).protein == Some(base.protein.GetOr(0.0))
    ensures Calculated(base, 100.0).carbohydrates == Some(base.carbohydrates.GetOr(0.0))
    ensures Calculated(base, 100.0).fat == Some(base.fat.GetOr(0.0))
    ensures Calculated(base, 100.0).fiber == Some(base.fiber.GetOr(0.0))
  {
  }

  /** The calculated calories grow with the amount when the base is positive. */
  lemma {:induction false} ScaledMonotone(base: Option<real>, a: real, b: real)
    requires base.Some? ==> base.value >= 0.0
    requires a <= b
    ensures Scaled(base, a) <= Scaled(base, b)
  {
    if base.Some? {
      ScaledIsAdditive(base, a, b - a);
      assert Scaled(base, b - a) >= 0.0;
    }
  }

  /** `calculateNutrition` over a table: the named row, scaled; an error when
      no row (or more than one) matches the name. The table is only read. */
  function CalculateNutrition(rows: map<int, Ingredient>, name: string, amountInGrams: real)
    : (r: Result<Ingredient, IngredientError>)
    ensures r.Failure? <==> !LookupByName(rows, name).OneMatch?
    ensures NameMatches(rows, name) == {} ==> r == Failure(NotFoundByName(name))
    ensures |NameMatches(rows, name)| >= 2 ==> r == Failure(AmbiguousName(name))
    ensures r.Success? ==>
      (exists id :: NameMatches(rows, name) == {id} && r.value == Calculated(rows[id], amountInGrams))
  {
    match LookupByName(rows, name)
    case NoMatch => Failure(NotFoundByName(name))
    case ManyMatches => Failure(AmbiguousName(name))
    case OneMatch(id) => Success(Calculated(rows[id], amountInGrams))
  }

  /** The ingredient table, with the identity counter that numbers new rows. */
  class IngredientStore {
    var rows: map<int, Ingredient>
    var nextId: int

    /** Each row carries its own key, and keys are below the counter. */
    ghost predicate Valid()
      reads this
    {
      forall id :: id in rows ==> rows[id].ingredientId == Some(id) && id < nextId
    }

    constructor ()
      ensures Valid() && rows == map[] && nextId == 1
    {
      rows := map[];
      nextId := 1;
    }

    /** `saveIngredient`. Without an id, a case-insensitive name match is merged
        into and saved instead of inserting a duplicate; otherwise the row is
        inserted under a fresh id with its creation stamp. With an id the row is
        written at that id. Every path sets the update stamp. */
    method SaveIngredient(ingredient: Ingredient, updatedBy: Option<string>, now: int)
      returns (r: Result<Ingredient, IngredientError>)
      requires Valid()
      requires ingredient.ingredientId.Some? ==> ingredient.ingredientId.value < nextId
      modifies this
      ensures Valid()
      ensures r.Success? ==> r.value.updatedAt == Some(now) && r.value.updatedBy == updatedBy
      ensures r.Success? ==> r.value.ingredientId.Some? && rows == old(rows)[r.value.ingredientId.value := r.value]
      ensures ingredient.ingredientId.Some? ==>
        r == Success(ingredient.(updatedAt := Some(now), updatedBy := updatedBy)) && nextId == old(nextId)
      ensures ingredient.ingredientId.None? && old(LookupByName(rows, ingredient.ingredientName)).ManyMatches? ==>
        r == Failure(AmbiguousName(ingredient.ingredientName)) && rows == old(rows) && nextId == old(nextId)
      ensures ingredient.ingredientId.None? && old(LookupByName(rows, ingredient.ingredientName)).OneMatch? ==>
        var id := old(LookupByName(rows, ingredient.ingredientName)).id;
        r == Success(Merge(old(rows)[id], ingredient, updatedBy, now)) && nextId == old(nextId)
        && rows.Keys == old(rows).Keys && NameMatches(rows, ingredient.ingredientName) == {id}
      ensures ingredient.ingredientId.None? && old(LookupByName(rows, ingredient.ingredientName)).NoMatch? ==>
        r == Success(ingredient.(ingredientId := Some(old(nextId)), createdAt := Some(now), createdBy := updatedBy,
                                 updatedAt := Some(now), updatedBy := updatedBy))
        && nextId == old(nextId) + 1
        && NameMatches(rows, ingredient.ingredientName) == {old(nextId)}
    {
      if ingredient.ingredientId.None? {
        var lookup := LookupByName(rows, ingredient.ingredientName);
        match lookup
        case ManyMatches =>
          return Failure(AmbiguousName(ingredient.ingredientName));
        case OneMatch(id) =>
          var merged := Merge(rows[id], ingredient, updatedBy, now);
          ghost var before := rows;
          rows := rows[id := merged];
          NameMatchesAfterWrite(before, id, merged, ingredient.ingredientName);
          return Success(merged);
        case NoMatch =>
          var created := ingredient.(ingredientId := Some(nextId), createdAt := Some(now), createdBy := updatedBy,
                                     updatedAt := Some(now), updatedBy := updatedBy);
          ghost var before := rows;
          rows := rows[nextId := created];
          EqualsIgnoreCaseIsEquivalence(created.ingredientName, created.ingredientName, created.ingredientName);
          NameMatchesAfterWrite(before, nextId, created, ingredient.ingredientName);
          nextId := nextId + 1;
          return Success(created);
      }
      var saved := ingredient.(updatedAt := Some(now), updatedBy := updatedBy);
      rows := rows[saved.ingredientId.value := saved];
      r := Success(saved);
    }

    /** `updateNutritionValues`: an error for a missing id; otherwise the four
        macro updates are written back and the row is returned. */
    method UpdateNutritionValues(id: int, calories: Option<real>, protein: Option<real>,
                                 carbs: Option<real>, fat: Option<real>,
                                 updatedBy: Option<string>, now: int)
      returns (r: Result<Ingredient, IngredientError>)
      requires Valid()
      modifies this
      ensures Valid() && nextId == old(nextId)
      ensures id !in old(rows) ==> r == Failure(NotFoundById(id)) && rows == old(rows)
      ensures id in old(rows) ==>
        r == Success(ApplyNutritionValues(old(rows)[id], calories, protein, carbs, fat, updatedBy, now))
        && rows == old(rows)[id := r.value]
    {
      if id !in rows {
        return Failure(NotFoundById(id));
      }
      var updated := ApplyNutritionValues(rows[id], calories, protein, carbs, fat, updatedBy, now);
      rows := rows[id := updated];
      r := Success(updated);
    }

    /** `deleteIngredient`: true iff the id existed, and only then is it removed. */
    method DeleteIngredient(id: int) returns (deleted: bool)
      requires Valid()
      modifies this
      ensures Valid() && nextId == old(nextId)
      ensures deleted <==> id in old(rows)
      ensures rows == old(rows) - {id}
    {
      deleted := id in rows;
      if deleted {
        rows := rows - {id};
      }
    }
  }

  /** Writing a row whose name matches `name` adds its id to the matches and
      leaves the other matches as they were; a write that keeps the old name
      leaves them all. */
  lemma NameMatchesAfterWrite(before: map<int, Ingredient>, id: int, row: Ingredient, name: string)
    requires EqualsIgnoreCase(row.ingredientName, name)
    ensures NameMatches(before[id := row], name) == NameMatches(before, name) + {id}
  {
  }
}
