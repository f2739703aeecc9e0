/** `HealthStatisticsService`: the current BMI of a user, its category, and the
    user's recorded health history. */
module HealthStatistics {
  import opened Wrappers
  import opened Decimal
  import opened BmiCategory
  import Users

  /** A `user_health_history` row; `bmi` is computed by the database. */
  datatype UserHealthHistory = UserHealthHistory(
    historyId: int,
    userId: int,
    weight: real,
    height: real,
    bmi: Option<real>,
    recordedAt: Option<int>)

  datatype CurrentHealthMetrics = CurrentHealthMetrics(
    weight: Option<real>,
    height: Option<real>,
    bmi: Option<real>,
    bmiCategory: Category,
    bmiCategoryDisplay: string,
    bmiInterpretation: string)

  datatype HealthHistoryEntry = HealthHistoryEntry(
    historyId: int,
    weight: real,
    height: real,
    bmi: Option<real>,
    recordedAt: Option<int>)

  datatype HealthStatisticsResponse = HealthStatisticsResponse(
    currentMetrics: CurrentHealthMetrics,
    history: seq<HealthHistoryEntry>)

  /** The message of the `ArithmeticException` that `BigDecimal.divide` throws. */
  const DivisionByZero := "Division by zero"

  /** `calculateBMI`: height in metres rounded half-up to 4 places, then weight
      over its square rounded half-up to 2 places. The division fails when the
      rounded height is zero. */
  function CalculateBmi(weight: real, height: real): (r: Result<real, string>)
    ensures r.Failure? <==> RoundHalfUp(height / 100.0, 4) == 0.0
    ensures r.Failure? ==> r.error == DivisionByZero
    ensures r.Success? ==> HasScale(r.value, 2)
  {
    var metres := RoundHalfUp(height / 100.0, 4);
    if metres * metres == 0.0 then Failure(DivisionByZero)
    else
      RoundHalfUpBounds(weight / (metres * metres), 2);
      Success(RoundHalfUp(weight / (metres * metres), 2))
  }

  /** Within half a hundredth of the exact quotient over the rounded height. */
  lemma CalculateBmiBounds(weight: real, height: real)
    requires CalculateBmi(weight, height).Success?
    ensures var m := RoundHalfUp(height / 100.0, 4);
            var bmi := CalculateBmi(weight, height).value;
            m != 0.0 && weight / (m * m) - 0.005 <= bmi <= weight / (m * m) + 0.005
  {
    var m := RoundHalfUp(height / 100.0, 4);
    RoundHalfUpBounds(weight / (m * m), 2);
    assert Scale(2) == 100.0 by { assert Pow10(2) == 100; }
  }

  /** A positive height stored with two decimals (the DECIMAL(5,2) column) is at
      least 0.01 cm, which rounds to at least 0.0001 m, so the division never fails. */
  lemma StoredHeightNeverFails(weight: real, height: real)
    requires height > 0.0 && HasScale(height, 2)
    ensures CalculateBmi(weight, height).Success?
  {
    assert Scale(2) == 100.0 by { assert Pow10(2) == 100; }
    assert Scale(4) == 10000.0 by { assert Pow10(4) == 10000; }
    var units := height * 100.0;
    assert units.Floor as real == units;
    assert units >= 1.0;
    RoundHalfUpBounds(height / 100.0, 4);
    RoundHalfUpGrid(height / 100.0);
  }

  /** A positive value on the 0.0001 grid is at least 0.0001 and rounds to itself. */
  lemma RoundHalfUpGrid(x: real)
    requires Scale(4) == 10000.0
    requires x * 10000.0 >= 1.0 && (x * 10000.0).Floor as real == x * 10000.0
    ensures RoundHalfUp(x, 4) == x
    ensures RoundHalfUp(x, 4) != 0.0
  {
    RoundHalfUpIdempotent(x, 4);
  }

  /** The four BMIs the service's tests expect for a 175 cm user. */
  lemma CalculateBmiExamples()
    ensures CalculateBmi(70.0, 175.0) == Success(22.86)
    ensures CalculateBmi(50.0, 175.0) == Success(16.33)
    ensures CalculateBmi(100.0, 175.0) == Success(32.65)
    ensures CalculateBmi(56.66, 175.0) == Success(18.50)
  {
    assert Scale(2) == 100.0 by { assert Pow10(2) == 100; }
    assert Scale(4) == 10000.0 by { assert Pow10(4) == 10000; }
    assert RoundHalfUp(1.75, 4) == 1.75;
  }

  /** The metrics of a classified (or unclassifiable) BMI. */
  function MetricsFor(weight: Option<real>, height: Option<real>, bmi: Option<real>): CurrentHealthMetrics {
    var c := FromBmi(bmi);
    CurrentHealthMetrics(weight, height, bmi, c, DisplayName(c), Interpretation(c))
  }

  /** `calculateCurrentMetrics`: weight and height are copied; the BMI is computed
      only for a known weight and a known positive height, otherwise it is null
      and the category is Unknown. */
  function CalculateCurrentMetrics(user: Users.User): (r: Result<CurrentHealthMetrics, string>)
    ensures r.Success? ==> r.value.weight == user.weight && r.value.height == user.height
    ensures r.Success? ==>
              && r.value.bmiCategory == FromBmi(r.value.bmi)
              && r.value.bmiCategoryDisplay == DisplayName(r.value.bmiCategory)
              && r.value.bmiInterpretation == Interpretation(r.value.bmiCategory)
    ensures r.Success? ==> (r.value.bmi.Some? <==> user.weight.Some? && user.height.Some? && user.height.value > 0.0)
    ensures r.Success? && r.value.bmi.Some? ==> Success(r.value.bmi.value) == CalculateBmi(user.weight.value, user.height.value)
    ensures r.Failure? ==>
              && user.weight.Some? && user.height.Some? && user.height.value > 0.0
              && CalculateBmi(user.weight.value, user.height.value).Failure?
  {
    if user.weight.Some? && user.height.Some? && user.height.value > 0.0 then
      match CalculateBmi(user.weight.value, user.height.value)
      case Failure(e) => Failure(e)
      case Success(bmi) => Success(MetricsFor(user.weight, user.height, Some(bmi)))
    else
      Success(MetricsFor(user.weight, user.height, None))
  }

  /** A user whose weight or height is unknown is reported as Unknown. */
  lemma MissingMeasurementIsUnknown(user: Users.User)
    requires user.weight.None? || user.height.None?
    ensures CalculateCurrentMetrics(user) == Success(CurrentHealthMetrics(
              user.weight, user.height, None, Unknown, "Unknown", "Insufficient data to calculate BMI"))
  {
  }

  /** `mapToHistoryEntry`: id, weight, height, BMI and time are copied. */
  function MapToHistoryEntry(h: UserHealthHistory): (e: HealthHistoryEntry)
    ensures e.historyId == h.historyId && e.weight == h.weight && e.height == h.height
    ensures e.bmi == h.bmi && e.recordedAt == h.recordedAt
  {
    HealthHistoryEntry(h.historyId, h.weight, h.height, h.bmi, h.recordedAt)
  }

  function MapHistory(records: seq<UserHealthHistory>): (r: seq<HealthHistoryEntry>)
    ensures |r| == |records|
    ensures forall i :: 0 <= i < |r| ==> r[i] == MapToHistoryEntry(records[i])
  {
    if records == [] then [] else [MapToHistoryEntry(records[0])] + MapHistory(records[1..])
  }

  /** `getHealthStatistics`. `users` is the user table and `history` the rows
      `findByUserIdOrderByRecordedAtDesc(userId)` returns, newest first. */
  function GetHealthStatistics(users: map<int, Users.User>, userId: int,
                               history: seq<UserHealthHistory>): (r: Result<Option<HealthStatisticsResponse>, string>)
    ensures userId !in users ==> r == Success(None)
    ensures userId in users && r.Success? ==>
              && r.value.Some?
              && Success(r.value.value.currentMetrics) == CalculateCurrentMetrics(users[userId])
              && |r.value.value.history| == |history|
              && forall i :: 0 <= i < |history| ==> r.value.value.history[i] == MapToHistoryEntry(history[i])
    ensures userId in users ==> (r.Failure? <==> CalculateCurrentMetrics(users[userId]).Failure?)
  {
    if userId !in users then Success(None)
    else
      match CalculateCurrentMetrics(users[userId])
      case Failure(e) => Failure(e)
      case Success(metrics) => Success(Some(HealthStatisticsResponse(metrics, MapHistory(history))))
  }

  /** For an unknown user the history rows play no part in the answer. */
  lemma UnknownUserIgnoresHistory(users: map<int, Users.User>, userId: int,
                                  h1: seq<UserHealthHistory>, h2: seq<UserHealthHistory>)
    requires userId !in users
    ensures GetHealthStatistics(users, userId, h1) == GetHealthStatistics(users, userId, h2)
  {
  }
}
