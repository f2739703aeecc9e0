/** The WHO adult BMI classification (`BMICategory`): five constants, each with
    a fixed display name and interpretation, and the classifier `fromBMI`. */
module BmiCategory {
  import opened Wrappers

  datatype Category = Underweight | NormalWeight | Overweight | Obese | Unknown

  /** The lower cut-offs, in kg/m^2, of the three upper categories. */
  const NormalFrom: real := 18.5
  const OverweightFrom: real := 25.0
  const ObeseFrom: real := 30.0

  function DisplayName(c: Category): string {
    match c
    case Underweight => "Underweight"
    case NormalWeight => "Normal weight"
    case Overweight => "Overweight"
    case Obese => "Obese"
    case Unknown => "Unknown"
  }

  function Interpretation(c: Category): string {
    match c
    case Underweight =>
      "Your BMI indicates you are underweight. Consider consulting "
      + "with a healthcare provider about a healthy weight gain plan."
    case NormalWeight =>
      "Your BMI is in the healthy range. Maintain your current weight "
      + "through a balanced diet and regular physical activity."
    case Overweight =>
      "Your BMI indicates you are overweight. Consider adopting "
      + "healthier eating habits and increasing physical activity."
    case Obese =>
      "Your BMI indicates obesity. It's recommended to consult with "
      + "a healthcare provider for a personalized health plan."
    case Unknown =>
      "Insufficient data to calculate BMI"
  }

  /** Position of a classified category on the BMI scale (Unknown is off the scale). */
  function Rank(c: Category): int {
    match c
    case Underweight => 0
    case NormalWeight => 1
    case Overweight => 2
    case Obese => 3
    case Unknown => -1
  }

  /** `fromBMI`: null is Unknown; otherwise the first cut-off the value is below. */
  function FromBmi(bmi: Option<real>): (c: Category)
    ensures bmi.None? <==> c == Unknown
  {
    if bmi.None? then Unknown
    else if bmi.value < NormalFrom then Underweight
    else if bmi.value < OverweightFrom then NormalWeight
    else if bmi.value < ObeseFrom then Overweight
    else Obese
  }

  /** Each classified category is exactly a half-open interval of BMI values. */
  lemma FromBmiIntervals(x: real)
    ensures FromBmi(Some(x)) == Underweight <==> x < 18.5
    ensures FromBmi(Some(x)) == NormalWeight <==> 18.5 <= x < 25.0
    ensures FromBmi(Some(x)) == Overweight <==> 25.0 <= x < 30.0
    ensures FromBmi(Some(x)) == Obese <==> 30.0 <= x
  {
  }

  /** A value on a cut-off belongs to the higher category. */
  lemma FromBmiBoundaries()
    ensures FromBmi(Some(18.5)) == NormalWeight
    ensures FromBmi(Some(25.0)) == Overweight
    ensures FromBmi(Some(30.0)) == Obese
    ensures FromBmi(Some(18.49)) == Underweight
  {
  }

  /** A larger BMI never yields an earlier category. */
  lemma FromBmiMonotone(x: real, y: real)
    requires x <= y
    ensures 0 <= Rank(FromBmi(Some(x))) <= Rank(FromBmi(Some(y)))
  {
  }

  /** Display names tell the categories apart. */
  lemma DisplayNamesDistinct(c: Category, d: Category)
    requires c != d
    ensures DisplayName(c) != DisplayName(d)
  {
  }
}
