/**
 * The per-user store of `data_storage.py`. The JSON file becomes an immutable
 * map from user id to record; every operation that writes the file returns
 * the new map, and "today" (an ISO date string) is a parameter.
 */
module Storage {
  import opened Wrappers

  /** The profile the bot saves: sex, age in years, weight in kg, height in cm. */
  datatype Profile = Profile(sex: string, age: int, weight: real, height: real)

  /** The three log lists: the `water`, `food` and `workout` keys of a user's `logs`. */
  datatype Category = WaterLog | FoodLog | WorkoutLog

  /** One logged event, with the fields the source writes for each list (`burned` is the workout's `kcal` key). */
  datatype Entry =
    | WaterEntry(date: string, amount: int)
    | FoodEntry(date: string, name: string, kcal: real)
    | WorkoutEntry(date: string, kind: string, minutes: int, burned: int, water: int)
  {
    /** The list an entry of this shape belongs to. */
    function Kind(): Category {
      match this
      case WaterEntry(_, _) => WaterLog
      case FoodEntry(_, _, _) => FoodLog
      case WorkoutEntry(_, _, _, _, _) => WorkoutLog
    }

    /** The number the daily totals add up: millilitres drunk, or kilocalories eaten or burned. */
    function Value(): real {
      match this
      case WaterEntry(_, amount) => amount as real
      case FoodEntry(_, _, kcal) => kcal
      case WorkoutEntry(_, _, _, burned, _) => burned as real
    }
  }

  /** A user's `logs` object: each key present maps to its list. */
  type Logs = map<Category, seq<Entry>>

  /** A user's object in the file; either key may be absent. */
  datatype UserRecord = UserRecord(profile: Option<Profile>, logs: Option<Logs>)

  /** The whole file, keyed by user id. */
  type Db = map<string, UserRecord>

  /** `data.get(user_id, {})`. */
  function UserOf(db: Db, uid: string): UserRecord {
    Get(db, uid, UserRecord(None, None))
  }

  /** `data.get(user_id, {}).get('logs', {})`. */
  function StoredLogs(db: Db, uid: string): Logs {
    match UserOf(db, uid).logs
    case Some(logs) => logs
    case None => map[]
  }

  /** `logs.get(name, [])`. */
  function ListOf(logs: Logs, cat: Category): seq<Entry> {
    Get(logs, cat, [])
  }

  /** The list of one category the file holds for a user, empty when any key on the way is absent. */
  function Stored(db: Db, uid: string, cat: Category): seq<Entry> {
    ListOf(StoredLogs(db, uid), cat)
  }

  /** Every stored list holds only entries of its own shape, as the writers below guarantee. */
  predicate WellTyped(db: Db) {
    forall uid, cat :: uid in db && cat in StoredLogs(db, uid) ==>
      forall e :: e in StoredLogs(db, uid)[cat] ==> e.Kind() == cat
  }

  /**
   * `_get_logs`: creates the user and the `logs` object when absent and
   * returns the updated file with the user's logs.
   */
  function GetLogs(db: Db, uid: string): (r: (Db, Logs))
    ensures uid in r.0 && r.0[uid].logs == Some(r.1)
    ensures r.1 == StoredLogs(db, uid)
    ensures r.0[uid].profile == UserOf(db, uid).profile
    ensures forall u :: u != uid ==> (u in r.0 <==> u in db) && (u in db ==> r.0[u] == db[u])
  {
    var logs := StoredLogs(db, uid);
    (db[uid := UserOf(db, uid).(logs := Some(logs))], logs)
  }

  /** `set_user_profile`: replaces the user's profile and keeps everything else. */
  function SetUserProfile(db: Db, uid: string, p: Profile): (r: Db)
    ensures uid in r && r[uid].profile == Some(p)
    ensures r[uid].logs == UserOf(db, uid).logs
    ensures forall u :: u != uid ==> UserOf(r, u) == UserOf(db, u)
    ensures forall u :: StoredLogs(r, u) == StoredLogs(db, u)
    ensures WellTyped(db) ==> WellTyped(r)
  {
    db[uid := UserOf(db, uid).(profile := Some(p))]
  }

  /** `get_user_profile`: the saved profile, `None` (the source's `{}`) for an unknown user or one without a profile. */
  function GetUserProfile(db: Db, uid: string): (p: Option<Profile>)
    ensures uid !in db ==> p == None
    ensures p.Some? <==> uid in db && db[uid].profile.Some?
    ensures uid in db ==> p == db[uid].profile
  {
    UserOf(db, uid).profile
  }

  /** Saving a profile and reading it back yields that profile; later saves replace earlier ones. */
  lemma ProfileRoundTrip(db: Db, uid: string, p: Profile, q: Profile)
    ensures GetUserProfile(SetUserProfile(db, uid, p), uid) == Some(p)
    ensures SetUserProfile(SetUserProfile(db, uid, p), uid, q) == SetUserProfile(db, uid, q)
  {
  }

  /**
   * The shared shape of the three loggers: make sure the user's logs exist,
   * then append one entry to the list `cat`, creating it if absent.
   */
  function Append(db: Db, uid: string, cat: Category, e: Entry): (r: Db)
    ensures uid in r && r[uid].logs.Some?
    ensures Stored(r, uid, cat) == Stored(db, uid, cat) + [e]
    ensures forall c :: c != cat ==> Stored(r, uid, c) == Stored(db, uid, c)
    ensures r[uid].profile == UserOf(db, uid).profile
    ensures forall u :: u != uid ==> UserOf(r, u) == UserOf(db, u)
  {
    var (db1, logs) := GetLogs(db, uid);
    db1[uid := db1[uid].(logs := Some(logs[cat := ListOf(logs, cat) + [e]]))]
  }

  /** Appending an entry to its own list keeps every list well typed. */
  lemma AppendWellTyped(db: Db, uid: string, e: Entry)
    ensures WellTyped(db) ==> WellTyped(Append(db, uid, e.Kind(), e))
  {
    if !WellTyped(db) { return; }
    var r := Append(db, uid, e.Kind(), e);
    forall u, cat | u in r && cat in StoredLogs(r, u)
      ensures forall x :: x in StoredLogs(r, u)[cat] ==> x.Kind() == cat
    {
      if u != uid {
        assert StoredLogs(r, u) == StoredLogs(db, u);
      } else {
        assert StoredLogs(r, u)[cat] == Stored(r, u, cat);
        if cat != e.Kind() {
          assert Stored(r, u, cat) == Stored(db, u, cat);
        }
      }
    }
  }

  /** `log_water`: one water entry dated today. */
  function LogWater(db: Db, uid: string, amount: int, today: string): (r: Db)
    ensures Stored(r, uid, WaterLog) == Stored(db, uid, WaterLog) + [WaterEntry(today, amount)]
    ensures Stored(r, uid, FoodLog) == Stored(db, uid, FoodLog)
    ensures Stored(r, uid, WorkoutLog) == Stored(db, uid, WorkoutLog)
    ensures GetUserProfile(r, uid) == GetUserProfile(db, uid)
    ensures forall u :: u != uid ==> UserOf(r, u) == UserOf(db, u)
    ensures WellTyped(db) ==> WellTyped(r)
  {
    var e := WaterEntry(today, amount);
    AppendWellTyped(db, uid, e);
    Append(db, uid, WaterLog, e)
  }

  /** `log_food`: one food entry dated today. */
  function LogFood(db: Db, uid: string, name: string, kcal: real, today: string): (r: Db)
    ensures Stored(r, uid, FoodLog) == Stored(db, uid, FoodLog) + [FoodEntry(today, name, kcal)]
    ensures Stored(r, uid, WaterLog) == Stored(db, uid, WaterLog)
    ensures Stored(r, uid, WorkoutLog) == Stored(db, uid, WorkoutLog)
    ensures GetUserProfile(r, uid) == GetUserProfile(db, uid)
    ensures forall u :: u != uid ==> UserOf(r, u) == UserOf(db, u)
    ensures WellTyped(db) ==> WellTyped(r)
  {
    var e := FoodEntry(today, name, kcal);
    AppendWellTyped(db, uid, e);
    Append(db, uid, FoodLog, e)
  }

  /** `log_workout`: one workout entry dated today, with the precomputed calories and water. */
  function LogWorkout(db: Db, uid: string, kind: string, minutes: int, kcal: int, water: int, today: string): (r: Db)
    ensures Stored(r, uid, WorkoutLog) == Stored(db, uid, WorkoutLog) + [WorkoutEntry(today, kind, minutes, kcal, water)]
    ensures Stored(r, uid, WaterLog) == Stored(db, uid, WaterLog)
    ensures Stored(r, uid, FoodLog) == Stored(db, uid, FoodLog)
    ensures GetUserProfile(r, uid) == GetUserProfile(db, uid)
    ensures forall u :: u != uid ==> UserOf(r, u) == UserOf(db, u)
    ensures WellTyped(db) ==> WellTyped(r)
  {
    var e := WorkoutEntry(today, kind, minutes, kcal, water);
    AppendWellTyped(db, uid, e);
    Append(db, uid, WorkoutLog, e)
  }

  // ------------------------------------------------------------- totals

  /** What one entry adds to today's total: its value if dated today, else nothing. */
  function Counted(e: Entry, today: string): real {
    if e.date == today then e.Value() else 0.0
  }

  /** `sum(e[...] for e in list if e['date'] == today)`. */
  function Total(s: seq<Entry>, today: string): real {
    if s == [] then 0.0 else Counted(s[0], today) + Total(s[1..], today)
  }

  /** The total of a concatenation is the sum of the totals. */
  lemma {:induction false} TotalConcat(a: seq<Entry>, b: seq<Entry>, today: string)
    ensures Total(a + b, today) == Total(a, today) + Total(b, today)
  {
    if a == [] {
      assert a + b == b;
    } else {
      assert (a + b)[1..] == a[1..] + b;
      TotalConcat(a[1..], b, today);
    }
  }

  /** Appending an entry adds its value exactly when it is dated today. */
  lemma TotalAppend(s: seq<Entry>, e: Entry, today: string)
    ensures Total(s + [e], today) == Total(s, today) + (if e.date == today then e.Value() else 0.0)
  {
    TotalConcat(s, [e], today);
  }

  /** Entries dated on another day contribute nothing, wherever they sit in the list. */
  lemma TotalIgnoresOtherDates(a: seq<Entry>, e: Entry, b: seq<Entry>, today: string)
    requires e.date != today
    ensures Total(a + [e] + b, today) == Total(a + b, today)
  {
    TotalConcat(a + [e], b, today);
    TotalConcat(a, [e], today);
    TotalConcat(a, b, today);
  }

  /** A list with nothing dated today totals zero. */
  lemma {:induction false} TotalNoneToday(s: seq<Entry>, today: string)
    requires forall i :: 0 <= i < |s| ==> s[i].date != today
    ensures Total(s, today) == 0.0
  {
    if s != [] {
      TotalNoneToday(s[1..], today);
    }
  }

  /** Taking one entry out of a list removes exactly its contribution. */
  lemma TotalRemove(t: seq<Entry>, i: nat, today: string)
    requires i < |t|
    ensures Total(t, today) == Counted(t[i], today) + Total(t[..i] + t[i + 1..], today)
  {
    assert t == t[..i] + ([t[i]] + t[i + 1..]);
    TotalConcat(t[..i], [t[i]] + t[i + 1..], today);
    TotalConcat(t[..i], t[i + 1..], today);
  }

  /** Removing one occurrence of `x` from a sequence removes one `x` from its multiset. */
  lemma MultisetRemove(t: seq<Entry>, i: nat)
    requires i < |t|
    ensures multiset(t[..i] + t[i + 1..]) == multiset(t) - multiset{t[i]}
  {
    assert t == t[..i] + [t[i]] + t[i + 1..];
  }

  /** The totals do not depend on the order of the entries: any permutation sums the same. */
  lemma {:induction false} TotalPermutation(s: seq<Entry>, t: seq<Entry>, today: string)
    requires multiset(s) == multiset(t)
    ensures Total(s, today) == Total(t, today)
    decreases |s|
  {
    if s == [] {
      assert |t| == |multiset(t)| == 0;
    } else {
      assert s[0] in t by {
        assert s[0] in multiset(s);
      }
      var i :| 0 <= i < |t| && t[i] == s[0];
      var rest := t[..i] + t[i + 1..];
      MultisetRemove(t, i);
      assert s == [s[0]] + s[1..];
      assert multiset(s[1..]) == multiset(rest);
      TotalPermutation(s[1..], rest, today);
      TotalRemove(t, i, today);
    }
  }

  /** The water part of `get_progress`'s result. */
  datatype WaterProgress = WaterProgress(drank: real, goal: int)

  /** The calorie part of `get_progress`'s result. */
  datatype CalorieProgress = CalorieProgress(eaten: real, burned: real, goal: int)

  /** `get_progress`'s result. */
  datatype Progress = Progress(water: WaterProgress, calories: CalorieProgress)

  /** `get_progress`: today's totals of the three lists, with the two goals passed through. */
  function GetProgress(db: Db, uid: string, waterGoal: int, calGoal: int, today: string): (p: Progress)
    ensures p.water.goal == waterGoal && p.calories.goal == calGoal
    ensures uid !in db || db[uid].logs.None? ==>
      p.water.drank == 0.0 && p.calories.eaten == 0.0 && p.calories.burned == 0.0
    ensures Stored(db, uid, WaterLog) == [] ==> p.water.drank == 0.0
    ensures Stored(db, uid, FoodLog) == [] ==> p.calories.eaten == 0.0
    ensures Stored(db, uid, WorkoutLog) == [] ==> p.calories.burned == 0.0
  {
    Progress(
      WaterProgress(Total(Stored(db, uid, WaterLog), today), waterGoal),
      CalorieProgress(Total(Stored(db, uid, FoodLog), today), Total(Stored(db, uid, WorkoutLog), today), calGoal))
  }

  /** Reordering a user's stored lists leaves the progress unchanged. */
  lemma ProgressOrderIndependent(db: Db, db': Db, uid: string, waterGoal: int, calGoal: int, today: string)
    requires forall cat :: multiset(Stored(db, uid, cat)) == multiset(Stored(db', uid, cat))
    ensures GetProgress(db, uid, waterGoal, calGoal, today) == GetProgress(db', uid, waterGoal, calGoal, today)
  {
    TotalPermutation(Stored(db, uid, WaterLog), Stored(db', uid, WaterLog), today);
    TotalPermutation(Stored(db, uid, FoodLog), Stored(db', uid, FoodLog), today);
    TotalPermutation(Stored(db, uid, WorkoutLog), Stored(db', uid, WorkoutLog), today);
  }

  /**
   * Logging water dated `day` raises that day's `drank` by exactly the amount
   * and leaves the calorie totals alone; on any other day nothing changes.
   */
  lemma LogWaterProgress(db: Db, uid: string, amount: int, day: string, today: string, wg: int, cg: int)
    ensures var before := GetProgress(db, uid, wg, cg, today);
            var after := GetProgress(LogWater(db, uid, amount, day), uid, wg, cg, today);
            && after.water.drank == before.water.drank + (if day == today then amount as real else 0.0)
            && after.calories == before.calories
  {
    TotalAppend(Stored(db, uid, WaterLog), WaterEntry(day, amount), today);
  }

  /** Logging food dated today raises `eaten` by exactly its calories; the other totals stay. */
  lemma LogFoodProgress(db: Db, uid: string, name: string, kcal: real, day: string, today: string, wg: int, cg: int)
    ensures var before := GetProgress(db, uid, wg, cg, today);
            var after := GetProgress(LogFood(db, uid, name, kcal, day), uid, wg, cg, today);
            && after.calories.eaten == before.calories.eaten + (if day == today then kcal else 0.0)
            && after.calories.burned == before.calories.burned
            && after.water == before.water
  {
    TotalAppend(Stored(db, uid, FoodLog), FoodEntry(day, name, kcal), today);
  }

  /** Logging a workout dated today raises `burned` by exactly its calories; the other totals stay. */
  lemma LogWorkoutProgress(db: Db, uid: string, kind: string, minutes: int, kcal: int, water: int,
                           day: string, today: string, wg: int, cg: int)
    ensures var before := GetProgress(db, uid, wg, cg, today);
            var after := GetProgress(LogWorkout(db, uid, kind, minutes, kcal, water, day), uid, wg, cg, today);
            && after.calories.burned == before.calories.burned + (if day == today then kcal as real else 0.0)
            && after.calories.eaten == before.calories.eaten
            && after.water == before.water
  {
    TotalAppend(Stored(db, uid, WorkoutLog), WorkoutEntry(day, kind, minutes, kcal, water), today);
  }

  /** Another user's logging, of water, food or a workout, never changes this user's progress. */
  lemma ProgressOtherUser(db: Db, uid: string, other: string, day: string, today: string, wg: int, cg: int,
                          amount: int, name: string, eaten: real,
                          kind: string, minutes: int, burned: int, water: int)
    requires other != uid
    ensures GetProgress(LogWater(db, other, amount, day), uid, wg, cg, today) == GetProgress(db, uid, wg, cg, today)
    ensures GetProgress(LogFood(db, other, name, eaten, day), uid, wg, cg, today) == GetProgress(db, uid, wg, cg, today)
    ensures GetProgress(LogWorkout(db, other, kind, minutes, burned, water, day), uid, wg, cg, today)
         == GetProgress(db, uid, wg, cg, today)
  {
    assert UserOf(LogWater(db, other, amount, day), uid) == UserOf(db, uid);
    assert UserOf(LogFood(db, other, name, eaten, day), uid) == UserOf(db, uid);
    assert UserOf(LogWorkout(db, other, kind, minutes, burned, water, day), uid) == UserOf(db, uid);
  }
}
