/**
 * The goal calculators of `utils.py`: the daily water target, the daily
 * calorie target (Mifflin-St Jeor) and the workout converter. Arithmetic is
 * over exact reals; `int(...)` is `Numeric.Trunc`.
 */
module Goals {
  import opened Wrappers
  import opened Config
  import opened Numeric
  import Text

  // ---------------------------------------------------------------- water

  /** The hot-weather extra: granted only strictly above the threshold. */
  function HotExtra(temp: real): int {
    if temp > HotTempThreshold as real then HotWeatherExtra else 0
  }

  /** The untruncated water need: 30 ml per kg, 500 ml per 30 minutes of activity, plus the hot-weather extra. */
  function WaterExact(weight: real, activityMin: int, temp: real): real {
    weight * 30.0 + (activityMin as real / 30.0) * ActivityWaterPer30Min as real + HotExtra(temp) as real
  }

  /** `calc_water_intake`: the water need in whole millilitres, rounded toward zero. */
  function WaterIntake(weight: real, activityMin: int, temp: real): (ml: int)
    ensures 0.0 <= WaterExact(weight, activityMin, temp) ==>
      0 <= ml && ml as real <= WaterExact(weight, activityMin, temp) < ml as real + 1.0
  {
    Trunc(WaterExact(weight, activityMin, temp))
  }

  /** Integer division agrees with truncating an exact quotient of naturals. */
  lemma TruncQuotient(n: nat, d: nat)
    requires d > 0
    ensures Trunc(n as real / d as real) == n / d
  {
    var q := n / d;
    var r := n % d;
    assert n == q * d + r;
    assert n as real / d as real == q as real + r as real / d as real;
    assert 0.0 <= r as real / d as real < 1.0;
  }

  /**
   * For a whole-kilogram weight and non-negative minutes the goal is a pure
   * integer formula: 30 ml per kg, plus 50 ml per minute rounded down, plus
   * the hot-weather extra.
   */
  lemma WaterIntakeWhole(weight: nat, activityMin: nat, temp: real)
    ensures WaterIntake(weight as real, activityMin, temp)
         == 30 * weight + (50 * activityMin) / 3 + HotExtra(temp)
  {
    var k := 30 * weight + HotExtra(temp);
    assert WaterExact(weight as real, activityMin, temp)
        == (50 * activityMin) as real / 3.0 + k as real;
    TruncQuotient(50 * activityMin, 3);
    TruncShift((50 * activityMin) as real / 3.0, k);
  }

  /** The water goal never decreases when weight, activity minutes or temperature grow. */
  lemma WaterIntakeMonotone(w1: real, w2: real, m1: int, m2: int, t1: real, t2: real)
    requires w1 <= w2 && m1 <= m2 && t1 <= t2
    ensures WaterIntake(w1, m1, t1) <= WaterIntake(w2, m2, t2)
  {
    assert (m1 as real / 30.0) * 500.0 <= (m2 as real / 30.0) * 500.0;
    TruncMonotone(WaterExact(w1, m1, t1), WaterExact(w2, m2, t2));
  }

  /** The hot-weather test is strict: at exactly the threshold, or below it, nothing is added. */
  lemma WaterIntakeAtThreshold(weight: real, activityMin: int, temp: real)
    requires temp <= HotTempThreshold as real
    ensures WaterIntake(weight, activityMin, temp) == WaterIntake(weight, activityMin, HotTempThreshold as real)
    ensures HotExtra(temp) == 0
  {
  }

  /**
   * Crossing the threshold adds exactly the hot-weather extra, provided the
   * cool-weather need is not negative (truncation toward zero would otherwise
   * absorb part of it).
   */
  lemma WaterIntakeHotCrossing(weight: real, activityMin: int, cool: real, hot: real)
    requires cool <= HotTempThreshold as real < hot
    requires 0.0 <= WaterExact(weight, activityMin, cool)
    ensures WaterIntake(weight, activityMin, hot) == WaterIntake(weight, activityMin, cool) + HotWeatherExtra
  {
    assert WaterExact(weight, activityMin, hot) == WaterExact(weight, activityMin, cool) + HotWeatherExtra as real;
    TruncShift(WaterExact(weight, activityMin, cool), HotWeatherExtra);
  }

  /** 70 kg at rest: 2100 ml at 24 °C and 2900 ml at 26 °C. */
  lemma WaterIntakeExample()
    ensures WaterIntake(70.0, 0, 24.0) == 2100
    ensures WaterIntake(70.0, 0, 26.0) == 2900
    ensures WaterIntake(70.0, 45, 25.0) == 2850
  {
    WaterIntakeWhole(70, 0, 24.0);
    WaterIntakeWhole(70, 0, 26.0);
    WaterIntakeWhole(70, 45, 25.0);
  }

  // ------------------------------------------------------------- calories

  /** `sex.lower() == 'male'`. */
  predicate IsMale(sex: string) {
    Text.ToLower(sex) == "male"
  }

  /** The sex test is case-insensitive and nothing but "male" in some capitalisation passes it. */
  lemma IsMaleIff(sex: string)
    ensures IsMale(sex) <==>
      && |sex| == 4
      && (sex[0] == 'm' || sex[0] == 'M')
      && (sex[1] == 'a' || sex[1] == 'A')
      && (sex[2] == 'l' || sex[2] == 'L')
      && (sex[3] == 'e' || sex[3] == 'E')
  {
    if |sex| == 4 {
      var l := Text.ToLower(sex);
      assert l[0] == Text.LowerChar(sex[0]) && l[1] == Text.LowerChar(sex[1]);
      assert l[2] == Text.LowerChar(sex[2]) && l[3] == Text.LowerChar(sex[3]);
      assert l == "male" <==> l[0] == 'm' && l[1] == 'a' && l[2] == 'l' && l[3] == 'e';
    }
  }

  /** Basal metabolic rate (Mifflin-St Jeor): +5 for men, −161 otherwise. */
  function Bmr(weight: real, height: real, age: int, sex: string): real {
    10.0 * weight + 6.25 * height - 5.0 * age as real + (if IsMale(sex) then 5.0 else -161.0)
  }

  /** `ACTIVITY_CALORIES.get(level, 0)`: the level is looked up as given, not lower-cased. */
  function ActivityBonus(level: string): (bonus: int)
    ensures bonus >= 0
    ensures bonus > 0 <==> level in ActivityCalories
  {
    Get(ActivityCalories, level, 0)
  }

  /** `calc_calorie_needs`: BMR plus the activity bonus, rounded toward zero. */
  function CalorieNeeds(weight: real, height: real, age: int, sex: string, level: string): (kcal: int)
    ensures 0.0 <= Bmr(weight, height, age, sex) ==> kcal >= ActivityBonus(level)
  {
    Trunc(Bmr(weight, height, age, sex) + ActivityBonus(level) as real)
  }

  /**
   * Only the lower case of the sex string matters: spellings with the same
   * lower case give the same goal, and lower-casing the sex first changes nothing.
   */
  lemma CalorieNeedsCaseInsensitive(weight: real, height: real, age: int, s1: string, s2: string, level: string)
    requires Text.ToLower(s1) == Text.ToLower(s2)
    ensures CalorieNeeds(weight, height, age, s1, level) == CalorieNeeds(weight, height, age, s2, level)
    ensures CalorieNeeds(weight, height, age, Text.ToLower(s1), level) == CalorieNeeds(weight, height, age, s1, level)
  {
    Text.ToLowerIdempotent(s1);
  }

  /** "MALE", "Male" and "male" give the same goal, and it is the male one. */
  lemma CalorieNeedsMaleSpellings(weight: real, height: real, age: int, level: string)
    ensures IsMale("MALE") && IsMale("Male") && IsMale("male") && !IsMale("female")
    ensures CalorieNeeds(weight, height, age, "MALE", level) == CalorieNeeds(weight, height, age, "male", level)
    ensures CalorieNeeds(weight, height, age, "Male", level) == CalorieNeeds(weight, height, age, "male", level)
  {
    IsMaleIff("MALE");
    IsMaleIff("Male");
    IsMaleIff("male");
    IsMaleIff("female");
  }

  /**
   * The male goal exceeds the non-male goal by exactly 5 + 161 = 166 kcal,
   * as long as the non-male total is not negative.
   */
  lemma CalorieNeedsSexGap(weight: real, height: real, age: int, male: string, other: string, level: string)
    requires IsMale(male) && !IsMale(other)
    requires 0.0 <= Bmr(weight, height, age, other) + ActivityBonus(level) as real
    ensures CalorieNeeds(weight, height, age, male, level) == CalorieNeeds(weight, height, age, other, level) + 166
  {
    var low := Bmr(weight, height, age, other) + ActivityBonus(level) as real;
    assert Bmr(weight, height, age, male) + ActivityBonus(level) as real == low + 166.0;
    TruncShift(low, 166);
  }

  /** An unknown level, including a differently capitalised known one, adds nothing. */
  lemma CalorieNeedsUnknownLevel(weight: real, height: real, age: int, sex: string, level: string)
    requires level !in ActivityCalories
    ensures CalorieNeeds(weight, height, age, sex, level) == Trunc(Bmr(weight, height, age, sex))
    ensures CalorieNeeds(weight, height, age, sex, "MEDIUM") == Trunc(Bmr(weight, height, age, sex))
  {
    assert "MEDIUM" !in ActivityCalories;
  }

  /** A higher activity level never lowers the goal: low < medium < high. */
  lemma CalorieNeedsLevelOrder(weight: real, height: real, age: int, sex: string)
    ensures CalorieNeeds(weight, height, age, sex, "low") <= CalorieNeeds(weight, height, age, sex, "medium")
    ensures CalorieNeeds(weight, height, age, sex, "medium") <= CalorieNeeds(weight, height, age, sex, "high")
  {
    var b := Bmr(weight, height, age, sex);
    TruncMonotone(b + 150.0, b + 300.0);
    TruncMonotone(b + 300.0, b + 400.0);
  }

  /** 75 kg, 180 cm, 30 years, medium activity: 1730 + 300 = 2030 kcal for a man, 166 less for a woman. */
  lemma CalorieNeedsExample()
    ensures CalorieNeeds(75.0, 180.0, 30, "male", "medium") == 2030
    ensures CalorieNeeds(75.0, 180.0, 30, "female", "medium") == 1864
  {
    IsMaleIff("male");
    IsMaleIff("female");
    TruncOfInt(2030);
    TruncOfInt(1864);
  }

  // -------------------------------------------------------------- workout

  /** `WORKOUT_CALORIES_PER_MIN.get(activity_type.lower(), 5)`. */
  function WorkoutRate(kind: string): (rate: int)
    ensures rate > 0
  {
    WorkoutRatesPositiveAndLowercase();
    Get(WorkoutCaloriesPerMin, Text.ToLower(kind), DefaultWorkoutCaloriesPerMin)
  }

  /** What `calc_workout` returns: calories burned and extra water in millilitres. */
  datatype WorkoutEffect = WorkoutEffect(kcal: int, water: int)

  /** `calc_workout`. */
  function Workout(kind: string, minutes: int): (e: WorkoutEffect)
    ensures minutes >= 0 ==> e.kcal >= 0 && e.water >= 0
  {
    WorkoutEffect(
      WorkoutRate(kind) * minutes,
      Trunc((minutes as real / 30.0) * WorkoutWaterPer30Min as real))
  }

  /**
   * The extra water is 20/3 ml per minute rounded toward zero: an integer
   * formula with floor division for non-negative minutes and its mirror
   * image for negative ones.
   */
  lemma WorkoutWaterInteger(kind: string, minutes: int)
    ensures Workout(kind, minutes).water
         == if minutes >= 0 then (20 * minutes) / 3 else -((-20 * minutes) / 3)
  {
    if minutes >= 0 {
      assert (minutes as real / 30.0) * 200.0 == (20 * minutes) as real / 3.0;
      TruncQuotient(20 * minutes, 3);
    } else {
      assert -((minutes as real / 30.0) * 200.0) == (-20 * minutes) as real / 3.0;
      TruncQuotient(-20 * minutes, 3);
    }
  }

  /**
   * The type is matched case-insensitively: types with the same lower case
   * have the same effect, and lower-casing the type first changes nothing.
   */
  lemma WorkoutCaseInsensitive(k1: string, k2: string, minutes: int)
    requires Text.ToLower(k1) == Text.ToLower(k2)
    ensures Workout(k1, minutes) == Workout(k2, minutes)
    ensures Workout(Text.ToLower(k1), minutes) == Workout(k1, minutes)
  {
    Text.ToLowerIdempotent(k1);
  }

  /** Calories are the looked-up rate times the minutes, 5 per minute for an unknown type; zero minutes give nothing. */
  lemma WorkoutCalories(kind: string, minutes: int)
    ensures Text.ToLower(kind) in WorkoutCaloriesPerMin ==>
      Workout(kind, minutes).kcal == WorkoutCaloriesPerMin[Text.ToLower(kind)] * minutes
    ensures Text.ToLower(kind) !in WorkoutCaloriesPerMin ==> Workout(kind, minutes).kcal == 5 * minutes
    ensures Workout(kind, 0) == WorkoutEffect(0, 0)
  {
    TruncOfInt(0);
  }

  /** Running for 30 minutes: 300 kcal and 200 ml; an unknown type for 10 minutes: 50 kcal and 66 ml. */
  lemma WorkoutExamples()
    ensures Workout("бег", 30) == WorkoutEffect(300, 200)
    ensures Workout("БЕГ", 30) == WorkoutEffect(300, 200)
    ensures Workout("unknown", 10) == WorkoutEffect(50, 66)
  {
    WorkoutWaterInteger("бег", 30);
    WorkoutWaterInteger("unknown", 10);
    assert Text.ToLower("бег") == "бег";
    assert Text.ToLower("БЕГ") == "бег";
    var u := Text.ToLower("unknown");
    assert u[0] == 'u';
    assert u !in WorkoutCaloriesPerMin;
  }
}
