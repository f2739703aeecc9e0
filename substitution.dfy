/** `SubstitutionService`: which of a recipe's ingredients carry an allergen
    tag the user is allergic to, and which substitution rules to suggest for
    them; rule lookup for one ingredient, optionally avoiding an allergen;
    and the single-ingredient check against given allergens and dislikes. */
module Substitution {
  import opened Wrappers
  import opened Text
  import opened Seqs
  import opened Users

  /** A `recipe_ingredients` row. */
  datatype RecipeIngredient = RecipeIngredient(recipeId: int, ingredient: Option<string>, allergenTags: TextArray)

  /** A `substitution_rules` row: `substitute` may replace `ingredient`,
      optionally when `avoid` is to be avoided. */
  datatype SubstitutionRule = SubstitutionRule(
    ingredient: Option<string>,
    avoid: Option<string>,
    substitute: Option<string>,
    note: Option<string>)

  datatype Offender = Offender(ingredient: Option<string>, allergen: string)

  datatype Suggestion = Suggestion(ingredient: Option<string>, alt: Option<string>, note: Option<string>)

  datatype CheckResponse = CheckResponse(hasAllergens: bool, offenders: seq<Offender>, suggestions: seq<Suggestion>)

  /** The `NoSuchElementException`s of `checkRecipeForUser`. */
  datatype CheckError = UserNotFound(userId: int) | RecipeNotFound(recipeId: int)

  datatype IngredientResponse = IngredientResponse(
    originalIngredient: string,
    allergens: seq<Option<string>>,
    dislikes: seq<Option<string>>,
    suggestions: seq<Suggestion>)

  /** `containsIgnoreCase(list, value)`: a non-null element equals the value
      ignoring case; a null value matches nothing. */
  predicate HasIgnoreCase(list: seq<Option<string>>, value: Option<string>) {
    value.Some? && exists i :: 0 <= i < |list| && list[i].Some? && EqualsIgnoreCase(list[i].value, value.value)
  }

  /** Membership ignoring case does not depend on the case of the value. */
  lemma HasIgnoreCaseRespectsCase(list: seq<Option<string>>, v: string, w: string)
    requires EqualsIgnoreCase(v, w)
    ensures HasIgnoreCase(list, Some(v)) <==> HasIgnoreCase(list, Some(w))
  {
    if HasIgnoreCase(list, Some(v)) {
      var i :| 0 <= i < |list| && list[i].Some? && EqualsIgnoreCase(list[i].value, v);
      EqualsIgnoreCaseIsEquivalence(list[i].value, v, w);
    }
    if HasIgnoreCase(list, Some(w)) {
      var i :| 0 <= i < |list| && list[i].Some? && EqualsIgnoreCase(list[i].value, w);
      EqualsIgnoreCaseIsEquivalence(w, v, v);
      EqualsIgnoreCaseIsEquivalence(list[i].value, w, v);
    }
  }

  /** `containsIgnoreCase`: a linear scan that stops at the first match. */
  method ContainsIgnoreCase(list: seq<Option<string>>, value: Option<string>) returns (found: bool)
    ensures found <==> HasIgnoreCase(list, value)
  {
    for i := 0 to |list|
      invariant forall j :: 0 <= j < i ==> !(list[j].Some? && value.Some? && EqualsIgnoreCase(list[j].value, value.value))
    {
      if list[i].Some? && value.Some? && EqualsIgnoreCase(list[i].value, value.value) {
        return true;
      }
    }
    return false;
  }

  /** The first allergen tag the user is allergic to. */
  function FirstHit(tags: seq<Option<string>>, allergies: seq<Option<string>>): (r: Option<string>)
    ensures r.Some? ==> HasIgnoreCase(allergies, Some(r.value))
    ensures r.Some? ==> exists i :: 0 <= i < |tags| && tags[i] == Some(r.value)
                                    && forall j :: 0 <= j < i ==> !HasIgnoreCase(allergies, tags[j])
    ensures r.None? <==> forall i :: 0 <= i < |tags| ==> !HasIgnoreCase(allergies, tags[i])
  {
    if tags == [] then None
    else if HasIgnoreCase(allergies, tags[0]) then Some(tags[0].value)
    else
      var rest := FirstHit(tags[1..], allergies);
      assert forall i :: 1 <= i < |tags| ==> tags[i] == tags[1..][i - 1];
      rest
  }

  /** `tags.stream().filter(t -> containsIgnoreCase(allergies, t)).findFirst()`. */
  method FindFirstHit(tags: seq<Option<string>>, allergies: seq<Option<string>>) returns (hit: Option<string>)
    ensures hit == FirstHit(tags, allergies)
  {
    var i := 0;
    while i < |tags|
      invariant 0 <= i <= |tags|
      invariant FirstHit(tags[i..], allergies) == FirstHit(tags, allergies)
    {
      assert tags[i..][0] == tags[i] && tags[i..][1..] == tags[i + 1..];
      var found := ContainsIgnoreCase(allergies, tags[i]);
      if found {
        return Some(tags[i].value);
      }
      i := i + 1;
    }
    assert tags[i..] == [];
    return None;
  }

  /** The offender one ingredient contributes, if any of its tags hits. */
  function OffenderOf(ri: RecipeIngredient, allergies: seq<Option<string>>): seq<Offender> {
    match FirstHit(OrEmpty(ri.allergenTags), allergies)
    case None => []
    case Some(a) => [Offender(ri.ingredient, a)]
  }

  /** The offenders of a recipe's ingredients, in ingredient order. */
  function Offenders(ings: seq<RecipeIngredient>, allergies: seq<Option<string>>): seq<Offender> {
    if ings == [] then []
    else Offenders(ings[..|ings| - 1], allergies) + OffenderOf(ings[|ings| - 1], allergies)
  }

  /** Some tag of the ingredient is one the user is allergic to. */
  predicate TagHits(ri: RecipeIngredient, allergies: seq<Option<string>>) {
    exists j :: 0 <= j < |OrEmpty(ri.allergenTags)| && HasIgnoreCase(allergies, OrEmpty(ri.allergenTags)[j])
  }

  /** Some ingredient has a tag the user is allergic to. */
  predicate AnyTagHits(ings: seq<RecipeIngredient>, allergies: seq<Option<string>>) {
    exists i :: 0 <= i < |ings| && TagHits(ings[i], allergies)
  }

  /** A recipe has offenders exactly when one of its ingredients carries an
      allergen tag the user is allergic to. */
  lemma {:induction false} OffendersIffTagHits(ings: seq<RecipeIngredient>, allergies: seq<Option<string>>)
    ensures Offenders(ings, allergies) != [] <==> AnyTagHits(ings, allergies)
  {
    if ings != [] {
      var n := |ings| - 1;
      var prefix := ings[..n];
      OffendersIffTagHits(prefix, allergies);
      assert OffenderOf(ings[n], allergies) != [] <==> TagHits(ings[n], allergies);
      assert forall i :: 0 <= i < n ==> prefix[i] == ings[i];
      assert AnyTagHits(ings, allergies) <==> AnyTagHits(prefix, allergies) || TagHits(ings[n], allergies);
    }
  }

  /** Every offender names an ingredient of the recipe and one of that
      ingredient's tags, and the user is allergic to that tag. */
  lemma {:induction false} OffendersSound(ings: seq<RecipeIngredient>, allergies: seq<Option<string>>, k: int)
    requires 0 <= k < |Offenders(ings, allergies)|
    ensures HasIgnoreCase(allergies, Some(Offenders(ings, allergies)[k].allergen))
    ensures exists i :: 0 <= i < |ings| && ings[i].ingredient == Offenders(ings, allergies)[k].ingredient
                        && Some(Offenders(ings, allergies)[k].allergen) in OrEmpty(ings[i].allergenTags)
  {
    var n := |ings| - 1;
    var prefix := Offenders(ings[..n], allergies);
    if k < |prefix| {
      OffendersSound(ings[..n], allergies, k);
      var i :| 0 <= i < n && ings[..n][i].ingredient == prefix[k].ingredient
               && Some(prefix[k].allergen) in OrEmpty(ings[..n][i].allergenTags);
      assert ings[i] == ings[..n][i];
    } else {
      var tags := OrEmpty(ings[n].allergenTags);
      var i :| 0 <= i < |tags| && tags[i] == Some(FirstHit(tags, allergies).value)
               && forall j :: 0 <= j < i ==> !HasIgnoreCase(allergies, tags[j]);
      assert tags[i] in tags;
    }
  }

  /** A query parameter of a derived `...IgnoreCase` finder: a null parameter
      selects null columns, any other value the case-insensitively equal ones. */
  predicate MatchesParam(field: Option<string>, param: Option<string>) {
    if param.None? then field.None? else field.Some? && EqualsIgnoreCase(field.value, param.value)
  }

  /** `findByIngredientIgnoreCase`, in table order. */
  function ByIngredient(rules: seq<SubstitutionRule>, ingredient: Option<string>): seq<SubstitutionRule> {
    Filter(rules, (r: SubstitutionRule) => MatchesParam(r.ingredient, ingredient))
  }

  /** `findByIngredientIgnoreCaseAndAvoidIgnoreCase`, in table order. */
  function ByIngredientAndAvoid(rules: seq<SubstitutionRule>, ingredient: Option<string>, avoid: Option<string>)
    : seq<SubstitutionRule>
  {
    Filter(rules, (r: SubstitutionRule) => MatchesParam(r.ingredient, ingredient) && MatchesParam(r.avoid, avoid))
  }

  /** One suggestion per rule, for the given ingredient. */
  function ToSuggestions(ingredient: Option<string>, rs: seq<SubstitutionRule>): (r: seq<Suggestion>)
    ensures |r| == |rs|
    ensures forall k :: 0 <= k < |rs| ==> r[k] == Suggestion(ingredient, rs[k].substitute, rs[k].note)
    ensures forall s :: s in r ==> exists rule :: rule in rs && s == Suggestion(ingredient, rule.substitute, rule.note)
    ensures forall rule :: rule in rs ==> Suggestion(ingredient, rule.substitute, rule.note) in r
  {
    var r := seq(|rs|, k requires 0 <= k < |rs| => Suggestion(ingredient, rs[k].substitute, rs[k].note));
    forall s | s in r
      ensures exists rule :: rule in rs && s == Suggestion(ingredient, rule.substitute, rule.note)
    {
      var k :| 0 <= k < |r| && r[k] == s;
      assert rs[k] in rs;
    }
    forall rule | rule in rs
      ensures Suggestion(ingredient, rule.substitute, rule.note) in r
    {
      var k :| 0 <= k < |rs| && rs[k] == rule;
      assert r[k] == Suggestion(ingredient, rule.substitute, rule.note);
    }
    r
  }

  /** The rules suggested for one offender: those for its ingredient that
      avoid its allergen, or, when there are none, all rules for its ingredient;
      either way in table order. */
  function RulesFor(rules: seq<SubstitutionRule>, off: Offender): (rs: seq<SubstitutionRule>)
    ensures IsSubsequence(rs, rules)
    ensures forall r :: r in rs ==> r in rules && MatchesParam(r.ingredient, off.ingredient)
    ensures ByIngredientAndAvoid(rules, off.ingredient, Some(off.allergen)) != [] ==>
              forall r :: r in rs ==> MatchesParam(r.avoid, Some(off.allergen))
    ensures forall r ::
              (r in rules && MatchesParam(r.ingredient, off.ingredient)
               && (ByIngredientAndAvoid(rules, off.ingredient, Some(off.allergen)) == []
                   || MatchesParam(r.avoid, Some(off.allergen)))) ==> r in rs
  {
    var targeted := ByIngredientAndAvoid(rules, off.ingredient, Some(off.allergen));
    FilterIsSubsequence(rules, (r: SubstitutionRule) => MatchesParam(r.ingredient, off.ingredient));
    FilterIsSubsequence(rules, (r: SubstitutionRule) =>
      MatchesParam(r.ingredient, off.ingredient) && MatchesParam(r.avoid, Some(off.allergen)));
    if targeted == [] then ByIngredient(rules, off.ingredient) else targeted
  }

  /** The `flatMap` over the offenders: each offender's rules, as suggestions
      for its ingredient, in offender order. */
  function Suggestions(rules: seq<SubstitutionRule>, offs: seq<Offender>): seq<Suggestion> {
    if offs == [] then []
    else ToSuggestions(offs[0].ingredient, RulesFor(rules, offs[0])) + Suggestions(rules, offs[1..])
  }

  /** Every suggestion comes from one of the rules `RulesFor` picks for some offender. */
  lemma {:induction false} SuggestionsSound(rules: seq<SubstitutionRule>, offs: seq<Offender>)
    ensures forall s :: s in Suggestions(rules, offs) ==>
              exists k, rule :: 0 <= k < |offs| && rule in RulesFor(rules, offs[k])
                 && s == Suggestion(offs[k].ingredient, rule.substitute, rule.note)
  {
    if offs != [] {
      SuggestionsSound(rules, offs[1..]);
      var head := ToSuggestions(offs[0].ingredient, RulesFor(rules, offs[0]));
      var tail := Suggestions(rules, offs[1..]);
      forall s | s in Suggestions(rules, offs)
        ensures exists k, rule :: 0 <= k < |offs| && rule in RulesFor(rules, offs[k])
                   && s == Suggestion(offs[k].ingredient, rule.substitute, rule.note)
      {
        if s in head {
          var rule :| rule in RulesFor(rules, offs[0]) && s == Suggestion(offs[0].ingredient, rule.substitute, rule.note);
        } else {
          assert s in tail;
          var k, rule :| 0 <= k < |offs[1..]| && rule in RulesFor(rules, offs[1..][k])
                         && s == Suggestion(offs[1..][k].ingredient, rule.substitute, rule.note);
          assert offs[1..][k] == offs[k + 1];
        }
      }
    }
  }

  /** Every rule `RulesFor` picks for an offender gives a suggestion. */
  lemma {:induction false} SuggestionsComplete(rules: seq<SubstitutionRule>, offs: seq<Offender>)
    ensures forall k, rule :: 0 <= k < |offs| && rule in RulesFor(rules, offs[k]) ==>
              Suggestion(offs[k].ingredient, rule.substitute, rule.note) in Suggestions(rules, offs)
  {
    if offs != [] {
      SuggestionsComplete(rules, offs[1..]);
      var head := ToSuggestions(offs[0].ingredient, RulesFor(rules, offs[0]));
      var tail := Suggestions(rules, offs[1..]);
      forall k, rule | 0 <= k < |offs| && rule in RulesFor(rules, offs[k])
        ensures Suggestion(offs[k].ingredient, rule.substitute, rule.note) in Suggestions(rules, offs)
      {
        if k == 0 {
          assert Suggestion(offs[0].ingredient, rule.substitute, rule.note) in head;
        } else {
          assert offs[1..][k - 1] == offs[k];
          assert Suggestion(offs[k].ingredient, rule.substitute, rule.note) in tail;
        }
      }
    }
  }

  /** A single offender's suggestions are its rules, in table order. */
  lemma SuggestionsOfOne(rules: seq<SubstitutionRule>, off: Offender)
    ensures Suggestions(rules, [off]) == ToSuggestions(off.ingredient, RulesFor(rules, off))
  {
    assert [off][1..] == [];
  }

  /** The suggestions follow the offenders' order: those of a concatenation
      are the first list's followed by the second's. */
  lemma {:induction false} SuggestionsAppend(rules: seq<SubstitutionRule>, a: seq<Offender>, b: seq<Offender>)
    ensures Suggestions(rules, a + b) == Suggestions(rules, a) + Suggestions(rules, b)
    decreases |a|
  {
    if a != [] {
      var h := ToSuggestions(a[0].ingredient, RulesFor(rules, a[0]));
      assert (a + b)[0] == a[0];
      assert (a + b)[1..] == a[1..] + b;
      assert Suggestions(rules, a + b) == h + Suggestions(rules, a[1..] + b);
      SuggestionsAppend(rules, a[1..], b);
      assert Suggestions(rules, a) == h + Suggestions(rules, a[1..]);
      assert h + (Suggestions(rules, a[1..]) + Suggestions(rules, b))
          == (h + Suggestions(rules, a[1..])) + Suggestions(rules, b);
    } else {
      assert a + b == b;
    }
  }

  /** `checkRecipeForUser` as a value: the offenders, whether there are any,
      and the suggestions for them (none when there are no offenders). */
  function CheckResult(ings: seq<RecipeIngredient>, allergies: seq<Option<string>>, rules: seq<SubstitutionRule>)
    : (r: CheckResponse)
    ensures r.hasAllergens <==> r.offenders != []
    ensures !r.hasAllergens ==> r.suggestions == []
  {
    var offs := Offenders(ings, allergies);
    CheckResponse(offs != [], offs, if offs != [] then Suggestions(rules, offs) else [])
  }

  /** The suggestions of a check are exactly, in both directions, the
      suggestions of the rules `RulesFor` picks for each reported offender. */
  lemma CheckResultSuggestions(ings: seq<RecipeIngredient>, allergies: seq<Option<string>>, rules: seq<SubstitutionRule>)
    ensures var r := CheckResult(ings, allergies, rules);
      && (forall s :: s in r.suggestions ==>
            exists k, rule :: 0 <= k < |r.offenders| && rule in RulesFor(rules, r.offenders[k])
               && s == Suggestion(r.offenders[k].ingredient, rule.substitute, rule.note))
      && (forall k, rule :: 0 <= k < |r.offenders| && rule in RulesFor(rules, r.offenders[k]) ==>
            Suggestion(r.offenders[k].ingredient, rule.substitute, rule.note) in r.suggestions)
  {
    SuggestionsSound(rules, Offenders(ings, allergies));
    SuggestionsComplete(rules, Offenders(ings, allergies));
  }

  /** A recipe is flagged exactly when an ingredient carries an allergen tag
      the user is allergic to. */
  lemma HasAllergensIffTagHits(ings: seq<RecipeIngredient>, allergies: seq<Option<string>>, rules: seq<SubstitutionRule>)
    ensures CheckResult(ings, allergies, rules).hasAllergens <==> AnyTagHits(ings, allergies)
  {
    OffendersIffTagHits(ings, allergies);
  }

  /** `recipeIngredientRepository.findByRecipeId`. */
  function IngredientsOf(table: seq<RecipeIngredient>, recipeId: int): seq<RecipeIngredient> {
    Filter(table, (ri: RecipeIngredient) => ri.recipeId == recipeId)
  }

  /** `checkRecipeForUser`: the user must exist, then the recipe; then one
      pass over the recipe's ingredients collects the offenders. */
  method CheckRecipeForUser(users: map<int, User>, recipeIds: set<int>, table: seq<RecipeIngredient>,
                            rules: seq<SubstitutionRule>, recipeId: int, userId: int)
    returns (r: Result<CheckResponse, CheckError>)
    ensures userId !in users ==> r == Failure(UserNotFound(userId))
    ensures userId in users && recipeId !in recipeIds ==> r == Failure(RecipeNotFound(recipeId))
    ensures userId in users && recipeId in recipeIds ==>
              r == Success(CheckResult(IngredientsOf(table, recipeId), OrEmpty(users[userId].allergies), rules))
  {
    if userId !in users {
      return Failure(UserNotFound(userId));
    }
    var user := users[userId];
    if recipeId !in recipeIds {
      return Failure(RecipeNotFound(recipeId));
    }
    var allergies := OrEmpty(user.allergies);
    var ingredients := IngredientsOf(table, recipeId);
    var offenders: seq<Offender> := [];
    var i := 0;
    while i < |ingredients|
      invariant 0 <= i <= |ingredients|
      invariant offenders == Offenders(ingredients[..i], allergies)
    {
      assert ingredients[..i + 1][..i] == ingredients[..i];
      var tags := OrEmpty(ingredients[i].allergenTags);
      var hit := FindFirstHit(tags, allergies);
      if hit.Some? {
        offenders := offenders + [Offender(ingredients[i].ingredient, hit.value)];
      }
      i := i + 1;
    }
    assert ingredients[..i] == ingredients;
    var hasAllergens := offenders != [];
    var suggestions: seq<Suggestion> := [];
    if hasAllergens {
      suggestions := Suggestions(rules, offenders);
    }
    return Success(CheckResponse(hasAllergens, offenders, suggestions));
  }

  /** `findSubstitutions`: the rules for the ingredient, narrowed to those
      avoiding `avoid` when it is given and not blank, in table order. */
  function FindSubstitutions(rules: seq<SubstitutionRule>, ingredient: string, avoid: Option<string>)
    : (r: seq<Suggestion>)
    ensures avoid.None? || IsBlank(avoid.value) ==> |r| == |ByIngredient(rules, Some(ingredient))|
    ensures forall k :: 0 <= k < |r| ==> r[k].ingredient == Some(ingredient)
    ensures forall s :: s in r ==>
              exists rule :: rule in rules && MatchesParam(rule.ingredient, Some(ingredient))
                 && (avoid.None? || IsBlank(avoid.value) || MatchesParam(rule.avoid, avoid))
                 && s == Suggestion(Some(ingredient), rule.substitute, rule.note)
    ensures forall rule ::
              (rule in rules && MatchesParam(rule.ingredient, Some(ingredient))
               && (avoid.None? || IsBlank(avoid.value) || MatchesParam(rule.avoid, avoid))) ==>
                Suggestion(Some(ingredient), rule.substitute, rule.note) in r
  {
    var matched := if avoid.Some? && !IsBlank(avoid.value) then ByIngredientAndAvoid(rules, Some(ingredient), avoid)
                   else ByIngredient(rules, Some(ingredient));
    var r := ToSuggestions(Some(ingredient), matched);
    assert forall rule :: rule in matched ==> rule in rules;
    r
  }

  /** `shouldAvoid`: a rule is dropped when its non-blank `avoid` is among the
      allergens or the dislikes, ignoring case. */
  predicate ShouldAvoid(avoid: Option<string>, allergens: seq<Option<string>>, dislikes: seq<Option<string>>) {
    avoid.Some? && !IsBlank(avoid.value) && (HasIgnoreCase(allergens, avoid) || HasIgnoreCase(dislikes, avoid))
  }

  /** The rules for the ingredient that the allergens and dislikes allow. */
  function AllowedRules(rules: seq<SubstitutionRule>, ingredient: string,
                        allergens: seq<Option<string>>, dislikes: seq<Option<string>>): seq<SubstitutionRule>
  {
    Filter(ByIngredient(rules, Some(ingredient)), (r: SubstitutionRule) => !ShouldAvoid(r.avoid, allergens, dislikes))
  }

  /** `checkIngredientForAllergens`: null arrays read as empty lists. */
  function CheckIngredientForAllergens(rules: seq<SubstitutionRule>, ingredient: string,
                                       allergens: TextArray, dislikes: TextArray): (r: IngredientResponse)
    ensures r.originalIngredient == ingredient
    ensures r.allergens == OrEmpty(allergens) && r.dislikes == OrEmpty(dislikes)
    ensures forall s :: s in r.suggestions ==>
              exists rule :: rule in rules && MatchesParam(rule.ingredient, Some(ingredient))
                 && !ShouldAvoid(rule.avoid, OrEmpty(allergens), OrEmpty(dislikes))
                 && s == Suggestion(Some(ingredient), rule.substitute, rule.note)
    ensures forall rule ::
              (rule in rules && MatchesParam(rule.ingredient, Some(ingredient))
               && !ShouldAvoid(rule.avoid, OrEmpty(allergens), OrEmpty(dislikes))) ==>
                Suggestion(Some(ingredient), rule.substitute, rule.note) in r.suggestions
  {
    var allowed := AllowedRules(rules, ingredient, OrEmpty(allergens), OrEmpty(dislikes));
    var suggestions := ToSuggestions(Some(ingredient), allowed);
    forall s | s in suggestions
      ensures exists rule :: rule in rules && MatchesParam(rule.ingredient, Some(ingredient))
                 && !ShouldAvoid(rule.avoid, OrEmpty(allergens), OrEmpty(dislikes))
                 && s == Suggestion(Some(ingredient), rule.substitute, rule.note)
    {
      var k :| 0 <= k < |allowed| && s == suggestions[k];
      assert allowed[k] in allowed;
      assert allowed[k] in ByIngredient(rules, Some(ingredient));
    }
    assert forall rule :: rule in allowed ==> exists k :: 0 <= k < |allowed| && allowed[k] == rule;
    IngredientResponse(ingredient, OrEmpty(allergens), OrEmpty(dislikes), suggestions)
  }

  /** A rule whose `avoid` is null or blank is never dropped, whatever the
      allergens and dislikes. */
  lemma BlankAvoidIsKept(rules: seq<SubstitutionRule>, ingredient: string, allergens: TextArray, dislikes: TextArray,
                         rule: SubstitutionRule)
    requires rule in rules && MatchesParam(rule.ingredient, Some(ingredient))
    requires rule.avoid.None? || IsBlank(rule.avoid.value)
    ensures Suggestion(Some(ingredient), rule.substitute, rule.note)
            in CheckIngredientForAllergens(rules, ingredient, allergens, dislikes).suggestions
  {
  }

  /** With no allergens and no dislikes every rule for the ingredient is suggested. */
  lemma NothingToAvoidKeepsAllRules(rules: seq<SubstitutionRule>, ingredient: string)
    ensures |CheckIngredientForAllergens(rules, ingredient, None, None).suggestions|
         == |ByIngredient(rules, Some(ingredient))|
  {
    FilterAllKept(ByIngredient(rules, Some(ingredient)),
                  (r: SubstitutionRule) => !ShouldAvoid(r.avoid, [], []));
  }

  lemma {:induction false} FilterAllKept<T>(s: seq<T>, p: T -> bool)
    requires forall i :: 0 <= i < |s| ==> p(s[i])
    ensures Filter(s, p) == s
  {
    if s != [] {
      FilterAllKept(s[1..], p);
    }
  }
}
