# Health bot goals and progress, in Dafny

A model of the core of a Telegram health-tracking bot, with proofs about it. The bot:

- computes a daily water target and a daily calorie target (Mifflin-St Jeor) from a user's profile;
- converts workouts into calories burned and extra water;
- keeps a per-user file of water, food and workout entries;
- reports today's totals against the goals.

The model covers four parts of the bot:

- **Goal calculators** of `utils.py`.
- **User store** of `data_storage.py`.
- **Command logic** of `bot.py`: the profile line, `/log_water`, `/log_workout` and `/check_progress`.
- **Constant tables** of `config.py`.

Modules, one file each:

| module | file | models |
|---|---|---|
| `Wrappers` | wrappers.dfy | `Option`, for dictionary entries that may be absent, and `d.get(k, default)` |
| `Text` | text.dfy | The Python string operations the bot relies on: `str.isspace`, `strip`/`lstrip`/`rstrip`, `split(";")`, `split(maxsplit=n)`, `isdigit`, `int`/`str` on digit strings, and `lower()` |
| `Numeric` | numeric.dfy | `int(x)` on a number, which truncates toward zero |
| `Config` | config.dfy | The constants of `config.py` |
| `Goals` | goals.dfy | `calc_water_intake`, `calc_calorie_needs`, `calc_workout` |
| `Storage` | storage.dfy | `_get_logs`, `set_user_profile`, `get_user_profile`, `log_water`, `log_food`, `log_workout`, `get_progress` |
| `Commands` | commands.dfy | `set_profile`, `log_water_handler`, `log_workout_handler`, `check_progress_handler` |

Arithmetic is over exact `real`s. Python's `int()` is `Numeric.Trunc`, which truncates toward zero (Dafny's `Floor` rounds down instead).

The JSON file is an immutable `map<string, UserRecord>`. A record's `profile` and `logs` keys may each be absent, and so may each of the three lists inside `logs`. Every writer returns the new map, and "today" is a parameter.

A handler takes the store and the message text. It returns the new store together with a `Reply`, which stands for the message the bot sends.

Three behaviours of the source a reader may not expect; the model keeps them:

- **Decimals.** Weight and height are refused unless they are whole numbers. The profile pattern requires `\d+`, so `"75.5"` does not match (`Commands.ProfileLineRejectsDecimal`).
- **Blank sex.** The first field may be blanks only. It matches `[^;]+`, and `strip` then stores an empty sex (`Commands.ProfileLineBlankSex`).
- **Missing profile.** `/log_water` and `/check_progress` without a saved profile do not fail gracefully. `prof['weight']` raises `KeyError`, and `/log_water` has already logged the water by then. The model records this as the reply `MissingProfile`, with the entry kept.

## Model

| member | source | states |
|---|---|---|
| Text.TrimLeftSpec | bot.py:54 | `lstrip` removes exactly the leading whitespace (Python's `isspace` set): what remains is a suffix not starting with whitespace |
| Text.TrimRightSpec | bot.py:54 | `rstrip` removes exactly the trailing whitespace: what remains is a prefix not ending with whitespace |
| Text.StripSpec | bot.py:54 | A stripped field neither starts nor ends with whitespace |
| Text.SplitOnSpec | bot.py:54 | `split(";")` yields pieces without `;` that join back, with `;`, to the original text |
| Text.SplitOnJoin | bot.py:54 | Splitting on `;` recovers exactly the `;`-free pieces a text was joined from |
| Text.SplitWhitespaceLength | bot.py:108 | `split(maxsplit=n)` returns at most `n + 1` pieces |
| Text.SplitWhitespaceCons | bot.py:150 | With splits left, a leading word followed by a space is split off and the rest is split with one split fewer |
| Text.SplitWhitespaceJoin | bot.py:108 | Space-joined whitespace-free words, no more than `maxsplit + 1` of them, split back into exactly those words |
| Text.NatToDigits | bot.py:112 | The decimal digits of `n` form a non-empty digit string that `int()` reads back as `n` |
| Text.ToLowerIdempotent | utils.py:28 | Lower-casing twice is lower-casing once, so a sex or workout type that is already lower case passes the `lower()` unchanged |
| Numeric.Trunc | utils.py:24 | `int(x)` is the integer nearest `x` on the side of zero: within 1 below a non-negative `x`, within 1 above a negative one |
| Numeric.TruncMonotone | utils.py:24 | `int()` preserves order |
| Numeric.TruncShift | utils.py:24 | Adding a natural number to a non-negative value shifts its `int()` by exactly that number |
| Config.ActivityCaloriesOrdered | config.py:13-17 | The activity bonus grows strictly: 0 < low < medium < high |
| Config.WorkoutRatesPositiveAndLowercase | config.py:20-24 | Every per-minute rate, the default included, is positive, and every key is its own lower case |
| Goals.WaterIntake | utils.py:20-24 | For a non-negative exact need, the goal is the whole number of millilitres just below or at it |
| Goals.WaterIntakeWhole | utils.py:20-24 | For whole kilograms and minutes, the goal is `30·weight + ⌊50·minutes/3⌋` plus 800 above 25 °C. This is 500 ml per 30 minutes as an integer formula |
| Goals.WaterIntakeMonotone | utils.py:21-24 | The goal never decreases when weight, activity minutes or temperature grow |
| Goals.WaterIntakeAtThreshold | utils.py:23 | The hot-weather test is strict: at or below 25 °C nothing is added, so the goal equals the goal at exactly 25 °C |
| Goals.WaterIntakeHotCrossing | utils.py:23-24 | Crossing 25 °C adds exactly 800 ml when the cool-weather need is not negative |
| Goals.WaterIntakeExample | utils.py:20-24 | 70 kg at rest: 2100 ml at 24 °C and 2900 ml at 26 °C. 70 kg with 45 minutes at 25 °C: 2850 ml |
| Goals.IsMaleIff | utils.py:28 | The male test passes exactly for "male" in any mix of upper and lower case |
| Goals.ActivityBonus | utils.py:32 | The bonus is never negative. It is positive exactly for the three table keys, matched without lower-casing |
| Goals.CalorieNeeds | utils.py:26-33 | With a non-negative BMR, the goal is at least the activity bonus |
| Goals.CalorieNeedsCaseInsensitive | utils.py:28 | Two sex strings with the same lower case give the same goal, and lower-casing the sex beforehand changes nothing |
| Goals.CalorieNeedsMaleSpellings | utils.py:28-31 | "MALE", "Male" and "male" all take the male branch and give the same goal; "female" does not take it |
| Goals.CalorieNeedsSexGap | utils.py:28-33 | The male goal exceeds the non-male goal by exactly 166 when the non-male total is not negative |
| Goals.CalorieNeedsUnknownLevel | utils.py:32 | A level outside the table, "MEDIUM" included, adds nothing to the truncated BMR |
| Goals.CalorieNeedsLevelOrder | utils.py:32-33 | low ≤ medium ≤ high, for every profile |
| Goals.CalorieNeedsExample | utils.py:26-33 | 75 kg, 180 cm, 30 years, medium: 2030 kcal for "male" and 1864 for "female" |
| Goals.WorkoutRate | utils.py:53 | The per-minute rate is always positive |
| Goals.Workout | utils.py:52-56 | Non-negative minutes give non-negative calories and water |
| Goals.WorkoutWaterInteger | utils.py:55 | Extra water is `20·minutes/3` rounded toward zero, for negative minutes too |
| Goals.WorkoutCaseInsensitive | utils.py:53 | Types with the same lower case give the same effect, and lower-casing the type beforehand changes nothing |
| Goals.WorkoutCalories | utils.py:53-56 | Calories are the table rate for the lower-cased type times the minutes, 5 per minute for an unknown type. Zero minutes give (0, 0) |
| Goals.WorkoutExamples | utils.py:52-56 | ("бег", 30) and ("БЕГ", 30) give (300, 200); ("unknown", 10) gives (50, 66) |
| Storage.GetLogs | data_storage.py:19-20 | Afterwards the user and their `logs` exist. The returned logs are what was stored, or empty; the profile and other users are untouched |
| Storage.SetUserProfile | data_storage.py:22-25 | The profile is replaced. Every user's logs, and every other user's record, are unchanged; well-typed lists stay well typed |
| Storage.GetUserProfile | data_storage.py:27-28 | An unknown user, or one without a profile, has none. For a known user the result is exactly the stored profile |
| Storage.ProfileRoundTrip | data_storage.py:22-28 | Reading after saving returns the saved profile, and a second save overrides the first |
| Storage.Append | data_storage.py:32-33 | Exactly one entry is appended to the chosen list (created if absent). The other lists, the profile and other users are unchanged |
| Storage.AppendWellTyped | data_storage.py:33-45 | Appending an entry to its own list keeps every list holding only entries of its shape |
| Storage.LogWater | data_storage.py:30-34 | One water entry dated today is appended. The food and workout lists, the profile and other users are unchanged; well-typedness is kept |
| Storage.LogFood | data_storage.py:36-40 | The same frame for one food entry |
| Storage.LogWorkout | data_storage.py:42-46 | The same frame for one workout entry with its calories and water |
| Storage.TotalConcat | data_storage.py:51-53 | The day's total of two lists back to back is the sum of their totals |
| Storage.TotalAppend | data_storage.py:51-53 | Appending adds the entry's value exactly when it is dated today |
| Storage.TotalIgnoresOtherDates | data_storage.py:50-53 | An entry dated another day contributes nothing, wherever it sits |
| Storage.TotalNoneToday | data_storage.py:50-53 | A list with nothing dated today totals 0 |
| Storage.TotalPermutation | data_storage.py:51-53 | Any permutation of a list has the same total |
| Storage.GetProgress | data_storage.py:48-54 | Both goals pass through unchanged. A missing user, missing `logs` or a missing list gives 0 for the totals concerned |
| Storage.ProgressOrderIndependent | data_storage.py:48-54 | Reordering a user's lists leaves the progress unchanged |
| Storage.LogWaterProgress | data_storage.py:30-54 | Logging water dated today raises `drank` by exactly the amount (on another day, by nothing) and leaves the calorie totals unchanged |
| Storage.LogFoodProgress | data_storage.py:36-54 | Logging food dated today raises `eaten` by exactly its calories; `burned` and water are unchanged |
| Storage.LogWorkoutProgress | data_storage.py:42-54 | Logging a workout dated today raises `burned` by exactly its calories; `eaten` and water are unchanged |
| Storage.ProgressOtherUser | data_storage.py:49-53 | Another user's logging of water, food or a workout never changes this user's progress |
| Commands.ParseProfileLine | bot.py:52-60 | A parse succeeds exactly when the line matches the pattern. It then yields a sex without `;`, a non-negative age, and non-negative whole-number weight and height |
| Commands.ParseJoinedFields | bot.py:52-54 | A line of `;`-free pieces matches exactly when there are four pieces, the first non-empty and the others whitespace-then-digits (the last may end in one newline). It parses to the stripped pieces |
| Commands.NumberFieldValue | bot.py:52-58 | Whitespace, the digits of `n` and an optional final newline form an acceptable field without `;` that parses to `n` |
| Commands.ProfileLineRoundTrip | bot.py:52-60 | Every line written from a non-empty `;`-free sex, any whitespace gap and whole numbers, with an optional final newline, is accepted. It parses back to the stripped sex and the same numbers |
| Commands.ProfileLineAccepted | bot.py:52-60 | "male;30;75;180" is saved as (male, 30, 75, 180) |
| Commands.ProfileLineSpacesAccepted | bot.py:52-60 | "male; 30; 75; 180\n" is saved as (male, 30, 75, 180) |
| Commands.ProfileLineBlankSex | bot.py:52-54 | " ;30;75;180" is accepted and saved with an empty sex |
| Commands.ProfileLineRejectsWord | bot.py:52 | "male;thirty;75;180" is refused |
| Commands.ProfileLineRejectsDecimal | bot.py:52 | "male;30;75.5;180" is refused |
| Commands.ProfileLineRejectsMissingField | bot.py:52 | "male;30;75" is refused |
| Commands.ProfileLineRejectsEmptySex | bot.py:52 | ";30;75;180" is refused |
| Commands.SetProfileHandler | bot.py:52-60 | A matching line replaces the profile with its parse and keeps the logs; any other text leaves the store unchanged. Other users' records are never touched, and well-typed lists stay well typed |
| Commands.RestingWaterGoal | bot.py:116 | The goal the handlers use is `int(30·weight)`: no activity and no hot-weather extra |
| Commands.RestingWaterGoalNoExtra | bot.py:116 | For whole kilograms the resting goal is 30 ml per kg, and the threshold temperature earns no extra |
| Commands.LogWaterHandler | bot.py:106-119 | An invalid argument leaves the store unchanged with the usage reply. A valid one appends exactly one water entry of the parsed amount; the other lists and users are unchanged. There is no reply exactly when the profile is missing. With a profile, the reply always carries the amount and the remainder: the resting goal minus today's total, the new entry included |
| Commands.WaterArgument | bot.py:108-109 | With one split, `cmd + " " + arg` gives `[cmd, arg]`, and it passes the check exactly when `arg` is all digits |
| Commands.WaterArgumentMissing | bot.py:108-111 | The command alone fails the check |
| Commands.LogWaterAcceptsNumber | bot.py:108-114 | `/log_water N` logs exactly N, for every natural N written in digits |
| Commands.LogWaterRejectsMissing | bot.py:108-111 | "/log_water" alone gets the usage reply and logs nothing |
| Commands.LogWaterRejectsWord | bot.py:108-111 | "/log_water abc" gets the usage reply and logs nothing |
| Commands.LogWaterRejectsNegative | bot.py:108-111 | "/log_water -5" gets the usage reply and logs nothing |
| Commands.LogWaterRejectsTwoNumbers | bot.py:108-111 | "/log_water 5 00" gets the usage reply and logs nothing |
| Commands.LogWaterRejectsTrailingSpace | bot.py:108-111 | "/log_water 500 " gets the usage reply and logs nothing, because the argument keeps its trailing space |
| Commands.WaterLeftMayBeNegative | bot.py:115-118 | Logging more than is left of the goal gives a negative remainder |
| Commands.LogWorkoutHandler | bot.py:148-157 | An invalid argument leaves the store unchanged with the usage reply. A valid one logs exactly one workout entry with the converted calories and water, which are never negative, and replies with them; the other lists and users are unchanged |
| Commands.WorkoutArguments | bot.py:150-151 | With two splits, `cmd + " " + kind + " " + arg` gives `[cmd, kind, arg]`, and it passes exactly when `arg` is all digits |
| Commands.LogWorkoutAcceptsNumber | bot.py:150-157 | `/log_workout TYPE N` logs N minutes of TYPE with `calc_workout`'s effect, for every type word and natural N |
| Commands.LogWorkoutRejectsMissingType | bot.py:150-153 | "/log_workout 30" gets the usage reply and logs nothing |
| Commands.LogWorkoutRejectsWordMinutes | bot.py:150-153 | "/log_workout бег полчаса" gets the usage reply and logs nothing |
| Commands.CheckProgressHandler | bot.py:159-171 | Without a profile there is no reply. With one, the report is always sent, showing today's three totals and the goal `int(30·weight)`, with balance = eaten − burned |
| Commands.LogWaterThenCheck | bot.py:112-170 | A valid `/log_water` raises the reported water by exactly the logged amount and leaves the balance unchanged |
| Commands.LogWorkoutThenCheck | bot.py:154-170 | A valid `/log_workout` lowers the balance by exactly the workout's calories and leaves the water figure unchanged |

## Left out

- **Network lookups.** `fetch_current_temp` and `fetch_food_info` (utils.py:10-18, 35-50) are left out. Temperature and calories per 100 g are plain inputs.
- **File I/O and the clock.** `load_data`, `save_data` and `date.today()` are replaced by the map and the `today` parameter.
- **aiogram plumbing:**
  - bot and dispatcher set-up, handler registration and dispatch order, and polling;
  - the `/start`, `/profile`, `/water` and `/calories` prompts;
  - the `water_calc_handler` and `calories_calc_handler` dialogues, which depend on the weather lookup and on dispatch order;
  - the `/log_food` dialogue with its waiting-for-grams state, including `kcal = grams * kcal100 / 100`. `log_food` itself is modelled.
- **Reply wording.** Replies carry their values, not their wording or `:.1f` formatting.
- **Floating point.** IEEE-754 rounding is not modelled; exact rationals stand in for `float`.
- **JSON numbers.** Whether JSON stores a number as an integer or a float is not modelled; every total is a `real`.
- **Unicode coverage:**
  - `isdigit`, `\d` and `int()` accept ASCII digits only;
  - `lower()` covers ASCII and the basic Cyrillic capitals U+0400 to U+042F only;
  - `isspace`, `strip` and `\s` use Python's 29 whitespace code points.
- **Command matching.** How aiogram recognises a command, `/log_water@botname` included, is part of the dispatch left out above. Once a text reaches a handler, the lemmas that take any command word cover it.
- **Secrets.** The bot token and weather key (config.py:1-7) come from the environment.
- **Mismatched list entries.** `get_progress` raises `KeyError` only for a wrong-shaped entry that is dated today and lacks its list's key: a water entry among food or workouts, or a food or workout entry among water. Other mismatches raise nothing. An entry dated another day is skipped before its number is read. A food entry among workouts, or the reverse, is summed by its `kcal`, exactly as `Storage.Entry.Value` reads it. The raising case is not modelled; the model reads each entry's own number. Only a hand-edited file could contain such an entry: every writer keeps `Storage.WellTyped`.
- **Missing-profile exception.** The `KeyError` raised by `prof['weight']` is not modelled as an exception. It is the reply `MissingProfile`; in the bot the exception goes to aiogram's error handling and no message is sent.
- Goals.WaterIntakeHotCrossing: requires a non-negative cool-weather need. Truncation toward zero makes the jump smaller than 800 below zero, so the exact-800 claim does not hold there.
- Goals.CalorieNeedsSexGap: requires a non-negative non-male total, for the same truncation reason.
