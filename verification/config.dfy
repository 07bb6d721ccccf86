/** The constant tables that parameterise the goal calculators. */
module Config {
  import Text

  /** Millilitres of water per 30 minutes of general activity. */
  const ActivityWaterPer30Min: int := 500

  /** Calorie bonus per activity level; the keys are matched exactly, without lower-casing. */
  const ActivityCalories: map<string, int> := map["low" := 150, "medium" := 300, "high" := 400]

  /** Calories burned per minute for each workout type (running, strength, yoga). */
  const WorkoutCaloriesPerMin: map<string, int> := map["бег" := 10, "сила" := 8, "йога" := 4]

  /** Calories per minute for a workout type missing from the table. */
  const DefaultWorkoutCaloriesPerMin: int := 5

  /** Millilitres of extra water per 30 minutes of workout. */
  const WorkoutWaterPer30Min: int := 200

  /** Temperature (°C) that must be exceeded for the hot-weather bonus. */
  const HotTempThreshold: int := 25

  /** Extra millilitres of water on a hot day. */
  const HotWeatherExtra: int := 800

  /** The activity bonus grows strictly from low to medium to high. */
  lemma ActivityCaloriesOrdered()
    ensures "low" in ActivityCalories && "medium" in ActivityCalories && "high" in ActivityCalories
    ensures 0 < ActivityCalories["low"] < ActivityCalories["medium"] < ActivityCalories["high"]
  {
  }

  /**
   * Every workout rate, the default included, is positive, and every key is
   * already in lower case, so a lower-cased type can reach every entry.
   */
  lemma WorkoutRatesPositiveAndLowercase()
    ensures DefaultWorkoutCaloriesPerMin > 0
    ensures forall k :: k in WorkoutCaloriesPerMin ==> WorkoutCaloriesPerMin[k] > 0
    ensures forall k :: k in WorkoutCaloriesPerMin ==> Text.ToLower(k) == k
  {
    forall k | k in WorkoutCaloriesPerMin
      ensures Text.ToLower(k) == k
    {
      assert k == "бег" || k == "сила" || k == "йога";
      assert forall i :: 0 <= i < |k| ==> Text.LowerChar(k[i]) == k[i];
    }
  }
}
