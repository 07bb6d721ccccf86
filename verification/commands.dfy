/**
 * The command logic of `bot.py`: the profile line, the `/log_water`,
 * `/log_workout` and `/check_progress` handlers. Each handler takes the store
 * and the message text and returns the new store with a `Reply` standing for
 * the message the bot sends.
 */
module Commands {
  import opened Wrappers
  import opened Numeric
  import opened Config
  import Text
  import Goals
  import opened Storage

  // ---------------------------------------------------------- profile line

  /** `\s*\d+`: optional whitespace, then at least one digit. */
  predicate NumberField(f: string) {
    Text.IsDigits(Text.TrimLeft(f))
  }

  /** The last field, where `$` also allows one trailing newline. */
  predicate LastField(f: string) {
    NumberField(f) || (|f| > 0 && f[|f| - 1] == '\n' && NumberField(f[..|f| - 1]))
  }

  /**
   * The pattern `^[^;]+;\s*\d+;\s*\d+;\s*\d+$`. None of `[^;]`, `\s` and `\d`
   * matches `;`, so a matching line has exactly three semicolons and the
   * pattern is a condition on the four pieces between them.
   */
  predicate ProfileLineShape(text: string) {
    var parts := Text.SplitOn(text, ';');
    && |parts| == 4
    && parts[0] != ""
    && NumberField(parts[1])
    && NumberField(parts[2])
    && LastField(parts[3])
  }

  /** A number field loses exactly its surrounding whitespace to `strip`, leaving its digits. */
  lemma LastFieldStrip(f: string)
    requires LastField(f)
    ensures Text.IsDigits(Text.Strip(f))
  {
    if NumberField(f) {
      Text.DigitsAreWord(Text.TrimLeft(f));
    } else {
      var g := f[..|f| - 1];
      var d := Text.TrimLeft(g);
      Text.DigitsAreWord(d);
      assert f == g + "\n";
      Text.TrimLeftAppend(g, "\n");
      assert (d + "\n")[..|d|] == d;
    }
  }

  /** `int(x.strip())` of a number field. */
  function FieldValue(f: string): nat
    requires LastField(f)
  {
    LastFieldStrip(f);
    Text.DigitsValue(Text.Strip(f))
  }

  /**
   * `set_profile`'s parse: `[x.strip() for x in text.split(";")]`, the age
   * as an integer and weight and height as numbers. `None` when the line does
   * not match the pattern, so the handler is never reached.
   */
  function ParseProfileLine(text: string): (r: Option<Profile>)
    ensures r.Some? <==> ProfileLineShape(text)
    ensures r.Some? ==>
      && ';' !in r.value.sex
      && r.value.age >= 0
      && 0.0 <= r.value.weight && r.value.weight.Floor as real == r.value.weight
      && 0.0 <= r.value.height && r.value.height.Floor as real == r.value.height
  {
    if !ProfileLineShape(text) then None
    else
      var parts := Text.SplitOn(text, ';');
      Text.SplitOnSpec(text, ';');
      Text.StripKeeps(parts[0], ';');
      Some(Profile(Text.Strip(parts[0]), FieldValue(parts[1]), FieldValue(parts[2]) as real, FieldValue(parts[3]) as real))
  }

  /**
   * A line assembled from `;`-free pieces is accepted exactly when there are
   * four pieces, the first non-empty and the rest number fields, and then
   * parses to the stripped pieces.
   */
  lemma ParseJoinedFields(parts: seq<string>)
    requires |parts| >= 1
    requires forall i :: 0 <= i < |parts| ==> ';' !in parts[i]
    ensures ProfileLineShape(Text.JoinWith(parts, ';')) <==>
      |parts| == 4 && parts[0] != "" && NumberField(parts[1]) && NumberField(parts[2]) && LastField(parts[3])
    ensures ProfileLineShape(Text.JoinWith(parts, ';')) ==>
      ParseProfileLine(Text.JoinWith(parts, ';'))
      == Some(Profile(Text.Strip(parts[0]), FieldValue(parts[1]), FieldValue(parts[2]) as real, FieldValue(parts[3]) as real))
  {
    Text.SplitOnJoin(parts, ';');
  }

  /** A typed number field: whitespace, the digits of `n`, then `tail` (empty, or the final newline). */
  function NumberText(gap: string, n: nat, tail: string): string {
    gap + Text.NatToDigits(n) + tail
  }

  /**
   * The line a user types for a profile: the four values joined with `;`,
   * each number preceded by the whitespace `gap`, optionally ending in a
   * newline.
   */
  function FormatProfileLine(sex: string, gap: string, age: nat, weight: nat, height: nat, newline: bool): string {
    Text.JoinWith([sex, NumberText(gap, age, ""), NumberText(gap, weight, ""),
                   NumberText(gap, height, if newline then "\n" else "")], ';')
  }

  /** Whitespace followed by the digits of `n` is a number field worth `n`, with or without a newline after it. */
  lemma NumberFieldValue(gap: string, n: nat, tail: string)
    requires forall i :: 0 <= i < |gap| ==> Text.IsSpace(gap[i])
    requires tail == "" || tail == "\n"
    ensures ';' !in NumberText(gap, n, tail)
    ensures LastField(NumberText(gap, n, tail))
    ensures tail == "" ==> NumberField(NumberText(gap, n, tail))
    ensures FieldValue(NumberText(gap, n, tail)) == n
  {
    var d := Text.NatToDigits(n);
    var f := NumberText(gap, n, tail);
    Text.DigitsAreWord(d);
    Text.TrimLeftSpaces(gap, d);
    if tail == "" {
      assert f == gap + d;
    } else {
      assert f[..|f| - 1] == gap + d;
      assert f == gap + (d + "\n");
      Text.TrimLeftSpaces(gap, d + "\n");
      assert (d + "\n")[..|d|] == d;
    }
    assert forall i :: 0 <= i < |f| ==> f[i] != ';' by {
      assert forall i :: 0 <= i < |gap| ==> f[i] == gap[i];
      assert forall i :: |gap| <= i < |gap| + |d| ==> f[i] == d[i - |gap|];
    }
  }

  /**
   * Every well-formed profile line is accepted and parsed back to the values
   * it was written from: any non-empty first field without `;`, stored
   * stripped; whole numbers for age, weight and height; any whitespace after
   * the semicolons and an optional final newline.
   */
  lemma ProfileLineRoundTrip(sex: string, gap: string, age: nat, weight: nat, height: nat, newline: bool)
    requires sex != [] && ';' !in sex
    requires forall i :: 0 <= i < |gap| ==> Text.IsSpace(gap[i])
    ensures ProfileLineShape(FormatProfileLine(sex, gap, age, weight, height, newline))
    ensures ParseProfileLine(FormatProfileLine(sex, gap, age, weight, height, newline))
         == Some(Profile(Text.Strip(sex), age, weight as real, height as real))
  {
    var tail := if newline then "\n" else "";
    var parts := [sex, NumberText(gap, age, ""), NumberText(gap, weight, ""), NumberText(gap, height, tail)];
    NumberFieldValue(gap, age, "");
    NumberFieldValue(gap, weight, "");
    NumberFieldValue(gap, height, tail);
    forall i | 0 <= i < |parts|
      ensures ';' !in parts[i]
    {
      if i > 0 { assert parts[i] in parts[1..]; }
    }
    ParseJoinedFields(parts);
  }

  /** The digits of the numbers the examples use. */
  lemma ExampleDigits()
    ensures Text.NatToDigits(30) == "30" && Text.NatToDigits(75) == "75" && Text.NatToDigits(180) == "180"
  {
  }

  /** The number fields of the unspaced example lines, written out. */
  lemma PlainExampleNumbers()
    ensures Text.JoinWith([NumberText("", 30, ""), NumberText("", 75, ""), NumberText("", 180, "")], ';') == "30;75;180"
  {
    ExampleDigits();
    assert NumberText("", 30, "") == "30" by { assert "" + "30" + "" == "30"; }
    assert NumberText("", 75, "") == "75" by { assert "" + "75" + "" == "75"; }
    assert NumberText("", 180, "") == "180" by { assert "" + "180" + "" == "180"; }
  }

  /** An unspaced example line with any first field, written out. */
  lemma PlainExampleLine(sex: string)
    ensures FormatProfileLine(sex, "", 30, 75, 180, false) == sex + ";30;75;180"
  {
    var rest := [NumberText("", 30, ""), NumberText("", 75, ""), NumberText("", 180, "")];
    PlainExampleNumbers();
    assert [sex, NumberText("", 30, ""), NumberText("", 75, ""), NumberText("", 180, "")][1..] == rest;
  }

  /** The spaced example line, written out. */
  lemma SpacedExampleLine()
    ensures FormatProfileLine("male", " ", 30, 75, 180, true) == "male; 30; 75; 180\n"
  {
    ExampleDigits();
    assert NumberText(" ", 30, "") == " 30" && NumberText(" ", 75, "") == " 75" && NumberText(" ", 180, "\n") == " 180\n";
    assert FormatProfileLine("male", " ", 30, 75, 180, true) == Text.JoinWith(["male", " 30", " 75", " 180\n"], ';');
  }

  /** `"male;30;75;180"` is saved as a 30-year-old man of 75 kg and 180 cm. */
  lemma ProfileLineAccepted()
    ensures ParseProfileLine("male;30;75;180") == Some(Profile("male", 30, 75.0, 180.0))
  {
    PlainExampleLine("male");
    assert "male" + ";30;75;180" == "male;30;75;180";
    ProfileLineRoundTrip("male", "", 30, 75, 180, false);
    Text.StripClean("male");
  }

  /** Spaces after the semicolons and one final newline are allowed; the fields are stripped. */
  lemma ProfileLineSpacesAccepted()
    ensures ParseProfileLine("male; 30; 75; 180\n") == Some(Profile("male", 30, 75.0, 180.0))
  {
    SpacedExampleLine();
    ProfileLineRoundTrip("male", " ", 30, 75, 180, true);
    Text.StripClean("male");
  }

  /** A first field of blanks passes the pattern and is stored, once stripped, as an empty sex. */
  lemma ProfileLineBlankSex()
    ensures ParseProfileLine(" ;30;75;180") == Some(Profile("", 30, 75.0, 180.0))
  {
    PlainExampleLine(" ");
    assert " " + ";30;75;180" == " ;30;75;180";
    ProfileLineRoundTrip(" ", "", 30, 75, 180, false);
    assert Text.Strip(" ") == "";
  }

  /** A word where a number belongs is refused: `"male;thirty;75;180"` does not match. */
  lemma ProfileLineRejectsWord()
    ensures ParseProfileLine("male;thirty;75;180") == None
  {
    var parts := ["male", "thirty", "75", "180"];
    assert Text.JoinWith(parts, ';') == "male;thirty;75;180";
    ParseJoinedFields(parts);
    assert !NumberField("thirty");
  }

  /** A decimal weight is refused: `"male;30;75.5;180"` does not match. */
  lemma ProfileLineRejectsDecimal()
    ensures ParseProfileLine("male;30;75.5;180") == None
  {
    var parts := ["male", "30", "75.5", "180"];
    assert Text.JoinWith(parts, ';') == "male;30;75.5;180";
    ParseJoinedFields(parts);
    assert "75.5"[2] == '.';
    assert !NumberField("75.5");
  }

  /** Three fields are refused. */
  lemma ProfileLineRejectsMissingField()
    ensures ParseProfileLine("male;30;75") == None
  {
    var parts := ["male", "30", "75"];
    assert Text.JoinWith(parts, ';') == "male;30;75";
    ParseJoinedFields(parts);
  }

  /** An empty first field is refused. */
  lemma ProfileLineRejectsEmptySex()
    ensures ParseProfileLine(";30;75;180") == None
  {
    var parts := ["", "30", "75", "180"];
    assert Text.JoinWith(parts, ';') == ";30;75;180";
    ParseJoinedFields(parts);
  }

  /** `set_profile`: a matching line replaces the profile, keeping the logs; any other text leaves the store alone. */
  function SetProfileHandler(db: Db, uid: string, text: string): (r: Db)
    ensures ProfileLineShape(text) ==> GetUserProfile(r, uid) == ParseProfileLine(text)
    ensures forall cat :: Stored(r, uid, cat) == Stored(db, uid, cat)
    ensures !ProfileLineShape(text) ==> r == db
    ensures forall u :: u != uid ==> UserOf(r, u) == UserOf(db, u)
    ensures WellTyped(db) ==> WellTyped(r)
  {
    match ParseProfileLine(text)
    case None => db
    case Some(p) => SetUserProfile(db, uid, p)
  }

  // -------------------------------------------------------------- replies

  /** The message a handler sends back. */
  datatype Reply =
      /** The usage hint; nothing was logged. */
    | Usage
      /** "Logged `amount` ml, `left` ml to go." */
    | WaterLogged(amount: nat, left: real)
      /** The workout summary with its calories and extra water. */
    | WorkoutLogged(kind: string, minutes: nat, kcal: int, water: int)
      /** Today's water against the goal, calories eaten and burned, and their balance. */
    | ProgressReport(drank: real, waterGoal: int, eaten: real, burned: real, balance: real)
      /** No reply: reading `prof['weight']` from the empty profile raises `KeyError`. */
    | MissingProfile

  /** The water goal both handlers use: no activity, at the temperature threshold. */
  function RestingWaterGoal(weight: real): (ml: int)
    ensures ml == Trunc(weight * 30.0)
  {
    Goals.WaterIntake(weight, 0, HotTempThreshold as real)
  }

  /** The resting goal is 30 ml per kg: the threshold temperature never earns the hot-weather extra. */
  lemma RestingWaterGoalNoExtra(weight: nat)
    ensures RestingWaterGoal(weight as real) == 30 * weight
    ensures Goals.HotExtra(HotTempThreshold as real) == 0
  {
    Goals.WaterIntakeWhole(weight, 0, HotTempThreshold as real);
  }

  // ------------------------------------------------------------ /log_water

  /** `/log_water`'s argument check: exactly one argument after the command, made of digits only. */
  predicate WaterArgsValid(text: string) {
    var args := Text.SplitWhitespace(text, 1);
    |args| == 2 && Text.IsDigits(args[1])
  }

  /**
   * `log_water_handler`. A valid amount is logged first; the reply then
   * needs the profile's weight, so without a profile the entry stays logged
   * and no reply is sent.
   */
  function LogWaterHandler(db: Db, uid: string, text: string, today: string): (r: (Db, Reply))
    ensures !WaterArgsValid(text) ==> r == (db, Usage)
    ensures WaterArgsValid(text) ==>
      var amount := Text.DigitsValue(Text.SplitWhitespace(text, 1)[1]);
      && Stored(r.0, uid, WaterLog) == Stored(db, uid, WaterLog) + [WaterEntry(today, amount)]
      && Stored(r.0, uid, FoodLog) == Stored(db, uid, FoodLog)
      && Stored(r.0, uid, WorkoutLog) == Stored(db, uid, WorkoutLog)
      && GetUserProfile(r.0, uid) == GetUserProfile(db, uid)
      && (r.1 == MissingProfile <==> GetUserProfile(db, uid).None?)
      && (GetUserProfile(db, uid).Some? ==>
            && r.1.WaterLogged?
            && r.1.amount == amount
            && r.1.left == RestingWaterGoal(GetUserProfile(db, uid).value.weight) as real
                           - Total(Stored(r.0, uid, WaterLog), today))
    ensures forall u :: u != uid ==> UserOf(r.0, u) == UserOf(db, u)
  {
    if !WaterArgsValid(text) then (db, Usage)
    else
      var amount := Text.DigitsValue(Text.SplitWhitespace(text, 1)[1]);
      var db1 := LogWater(db, uid, amount, today);
      match GetUserProfile(db1, uid)
      case None => (db1, MissingProfile)
      case Some(p) =>
        var prog := GetProgress(db1, uid, RestingWaterGoal(p.weight), 0, today);
        (db1, WaterLogged(amount, prog.water.goal as real - prog.water.drank))
  }

  /** The two command words are words without whitespace. */
  lemma CommandWords()
    ensures Text.IsWord("/log_water") && Text.NoSpace("/log_water")
    ensures Text.IsWord("/log_workout") && Text.NoSpace("/log_workout")
    ensures Text.IsWord("бег") && Text.NoSpace("бег")
  {
  }

  /**
   * With one split allowed, the argument is everything after the command
   * and the space, trailing whitespace included; the check passes exactly
   * when that rest is all digits.
   */
  lemma WaterArgument(cmd: string, arg: string)
    requires Text.IsWord(cmd) && Text.NoSpace(cmd) && Text.IsWord(arg)
    ensures Text.SplitWhitespace(cmd + " " + arg, 1) == [cmd, arg]
    ensures WaterArgsValid(cmd + " " + arg) <==> Text.IsDigits(arg)
  {
    Text.SplitWhitespaceCons(cmd, arg, 1);
    assert cmd + [' '] + arg == cmd + " " + arg;
  }

  /** The command alone gets the usage hint. */
  lemma WaterArgumentMissing(cmd: string)
    requires Text.IsWord(cmd) && Text.NoSpace(cmd)
    ensures !WaterArgsValid(cmd)
  {
    Text.SplitWhitespaceWord(cmd, 1);
  }

  /** `/log_water N`, for any natural N written in digits, logs exactly N. */
  lemma LogWaterAcceptsNumber(db: Db, uid: string, cmd: string, n: nat, today: string)
    requires Text.IsWord(cmd) && Text.NoSpace(cmd)
    ensures var text := cmd + " " + Text.NatToDigits(n);
            && WaterArgsValid(text)
            && Stored(LogWaterHandler(db, uid, text, today).0, uid, WaterLog)
               == Stored(db, uid, WaterLog) + [WaterEntry(today, n)]
  {
    Text.DigitsAreWord(Text.NatToDigits(n));
    WaterArgument(cmd, Text.NatToDigits(n));
  }

  /** No argument gets the usage hint and logs nothing. */
  lemma LogWaterRejectsMissing(db: Db, uid: string, today: string)
    ensures LogWaterHandler(db, uid, "/log_water", today) == (db, Usage)
  {
    CommandWords();
    WaterArgumentMissing("/log_water");
  }

  /** A word for an argument gets the usage hint and logs nothing. */
  lemma LogWaterRejectsWord(db: Db, uid: string, today: string)
    ensures LogWaterHandler(db, uid, "/log_water abc", today) == (db, Usage)
  {
    CommandWords();
    WaterArgument("/log_water", "abc");
    assert "/log_water" + " " + "abc" == "/log_water abc";
  }

  /** A negative amount is refused: `-` is not a digit. */
  lemma LogWaterRejectsNegative(db: Db, uid: string, today: string)
    ensures LogWaterHandler(db, uid, "/log_water -5", today) == (db, Usage)
  {
    CommandWords();
    WaterArgument("/log_water", "-5");
    assert "/log_water" + " " + "-5" == "/log_water -5";
  }

  /** Two numbers are refused: the argument is the whole rest of the line. */
  lemma LogWaterRejectsTwoNumbers(db: Db, uid: string, today: string)
    ensures LogWaterHandler(db, uid, "/log_water 5 00", today) == (db, Usage)
  {
    CommandWords();
    WaterArgument("/log_water", "5 00");
    assert "/log_water" + " " + "5 00" == "/log_water 5 00";
    assert "5 00"[1] == ' ';
  }

  /** A number followed by a space is refused: the argument keeps its trailing whitespace. */
  lemma LogWaterRejectsTrailingSpace(db: Db, uid: string, today: string)
    ensures LogWaterHandler(db, uid, "/log_water 500 ", today) == (db, Usage)
  {
    CommandWords();
    WaterArgument("/log_water", "500 ");
    assert "/log_water" + " " + "500 " == "/log_water 500 ";
    assert "500 "[3] == ' ';
  }

  /**
   * The remainder is the resting goal minus everything drunk today, this
   * amount included, so drinking more than is left makes it negative.
   */
  lemma WaterLeftMayBeNegative(db: Db, uid: string, n: nat, today: string)
    requires GetUserProfile(db, uid).Some?
    requires var goal := RestingWaterGoal(GetUserProfile(db, uid).value.weight);
             n as real > goal as real - Total(Stored(db, uid, WaterLog), today)
    ensures var r := LogWaterHandler(db, uid, "/log_water " + Text.NatToDigits(n), today).1;
            r.WaterLogged? && r.amount == n && r.left < 0.0
  {
    var d := Text.NatToDigits(n);
    var text := "/log_water " + d;
    CommandWords();
    Text.DigitsAreWord(d);
    WaterArgument("/log_water", d);
    assert "/log_water" + " " + d == text;
    assert Text.SplitWhitespace(text, 1)[1] == d;
    var db1 := LogWaterHandler(db, uid, text, today).0;
    assert Stored(db1, uid, WaterLog) == Stored(db, uid, WaterLog) + [WaterEntry(today, n)];
    TotalAppend(Stored(db, uid, WaterLog), WaterEntry(today, n), today);
  }

  // ---------------------------------------------------------- /log_workout

  /** `/log_workout`'s argument check: a type, then minutes made of digits only. */
  predicate WorkoutArgsValid(text: string) {
    var args := Text.SplitWhitespace(text, 2);
    |args| == 3 && Text.IsDigits(args[2])
  }

  /** `log_workout_handler`: converts the workout and logs it with its calories and water. */
  function LogWorkoutHandler(db: Db, uid: string, text: string, today: string): (r: (Db, Reply))
    ensures !WorkoutArgsValid(text) ==> r == (db, Usage)
    ensures WorkoutArgsValid(text) ==>
      var args := Text.SplitWhitespace(text, 2);
      var minutes := Text.DigitsValue(args[2]);
      var effect := Goals.Workout(args[1], minutes);
      && r.1 == WorkoutLogged(args[1], minutes, effect.kcal, effect.water)
      && effect.kcal >= 0 && effect.water >= 0
      && Stored(r.0, uid, WorkoutLog)
         == Stored(db, uid, WorkoutLog) + [WorkoutEntry(today, args[1], minutes, effect.kcal, effect.water)]
      && Stored(r.0, uid, WaterLog) == Stored(db, uid, WaterLog)
      && Stored(r.0, uid, FoodLog) == Stored(db, uid, FoodLog)
      && GetUserProfile(r.0, uid) == GetUserProfile(db, uid)
    ensures forall u :: u != uid ==> UserOf(r.0, u) == UserOf(db, u)
  {
    if !WorkoutArgsValid(text) then (db, Usage)
    else
      var args := Text.SplitWhitespace(text, 2);
      var minutes := Text.DigitsValue(args[2]);
      var effect := Goals.Workout(args[1], minutes);
      (LogWorkout(db, uid, args[1], minutes, effect.kcal, effect.water, today),
       WorkoutLogged(args[1], minutes, effect.kcal, effect.water))
  }

  /**
   * With two splits allowed, the type is the second word and the minutes
   * are everything after it; the check passes exactly when that rest is all
   * digits.
   */
  lemma WorkoutArguments(cmd: string, kind: string, arg: string)
    requires Text.IsWord(cmd) && Text.NoSpace(cmd)
    requires Text.IsWord(kind) && Text.NoSpace(kind)
    requires Text.IsWord(arg)
    ensures Text.SplitWhitespace(cmd + " " + kind + " " + arg, 2) == [cmd, kind, arg]
    ensures WorkoutArgsValid(cmd + " " + kind + " " + arg) <==> Text.IsDigits(arg)
  {
    var rest := kind + [' '] + arg;
    Text.SplitWhitespaceCons(kind, arg, 1);
    assert Text.SplitWhitespace(arg, 0) == [arg];
    assert rest[0] == kind[0];
    Text.SplitWhitespaceCons(cmd, rest, 2);
    assert cmd + [' '] + rest == cmd + " " + kind + " " + arg;
  }

  /** `/log_workout TYPE N` logs N minutes of TYPE for any type word and any natural N. */
  lemma LogWorkoutAcceptsNumber(db: Db, uid: string, cmd: string, kind: string, n: nat, today: string)
    requires Text.IsWord(cmd) && Text.NoSpace(cmd)
    requires Text.IsWord(kind) && Text.NoSpace(kind)
    ensures var text := cmd + " " + kind + " " + Text.NatToDigits(n);
            && WorkoutArgsValid(text)
            && LogWorkoutHandler(db, uid, text, today).1
               == WorkoutLogged(kind, n, Goals.Workout(kind, n).kcal, Goals.Workout(kind, n).water)
  {
    Text.DigitsAreWord(Text.NatToDigits(n));
    WorkoutArguments(cmd, kind, Text.NatToDigits(n));
  }

  /** Minutes without a type are only two words: the usage hint, nothing logged. */
  lemma LogWorkoutRejectsMissingType(db: Db, uid: string, today: string)
    ensures LogWorkoutHandler(db, uid, "/log_workout 30", today) == (db, Usage)
  {
    CommandWords();
    Text.DigitsAreWord("30");
    Text.SplitWhitespaceCons("/log_workout", "30", 2);
    Text.SplitWhitespaceWord("30", 1);
    assert "/log_workout" + [' '] + "30" == "/log_workout 30";
  }

  /** Minutes written as a word get the usage hint and log nothing. */
  lemma LogWorkoutRejectsWordMinutes(db: Db, uid: string, today: string)
    ensures LogWorkoutHandler(db, uid, "/log_workout бег полчаса", today) == (db, Usage)
  {
    CommandWords();
    WorkoutArguments("/log_workout", "бег", "полчаса");
    assert !Text.IsDigit("полчаса"[0]);
    assert "/log_workout" + " " + "бег" + " " + "полчаса" == "/log_workout бег полчаса";
  }

  // ------------------------------------------------------- /check_progress

  /**
   * `check_progress_handler`: today's totals against the resting water goal,
   * and the calorie balance. The calorie goal (level "medium") is computed
   * and handed to `get_progress` but does not appear in the message.
   */
  function CheckProgressHandler(db: Db, uid: string, today: string): (r: Reply)
    ensures r == MissingProfile <==> GetUserProfile(db, uid).None?
    ensures GetUserProfile(db, uid).Some? ==> r.ProgressReport?
    ensures r.ProgressReport? ==>
      && r.drank == Total(Stored(db, uid, WaterLog), today)
      && r.eaten == Total(Stored(db, uid, FoodLog), today)
      && r.burned == Total(Stored(db, uid, WorkoutLog), today)
      && r.balance == r.eaten - r.burned
      && r.waterGoal == Trunc(GetUserProfile(db, uid).value.weight * 30.0)
  {
    match GetUserProfile(db, uid)
    case None => MissingProfile
    case Some(p) =>
      var waterGoal := RestingWaterGoal(p.weight);
      var calGoal := Goals.CalorieNeeds(p.weight, p.height, p.age, p.sex, "medium");
      var prog := GetProgress(db, uid, waterGoal, calGoal, today);
      ProgressReport(prog.water.drank, prog.water.goal, prog.calories.eaten, prog.calories.burned,
                     prog.calories.eaten - prog.calories.burned)
  }

  /** A valid `/log_water` raises the `/check_progress` water figure by exactly the logged amount. */
  lemma LogWaterThenCheck(db: Db, uid: string, text: string, today: string)
    requires WaterArgsValid(text) && GetUserProfile(db, uid).Some?
    ensures var before := CheckProgressHandler(db, uid, today);
            var after := CheckProgressHandler(LogWaterHandler(db, uid, text, today).0, uid, today);
            && after.drank == before.drank + Text.DigitsValue(Text.SplitWhitespace(text, 1)[1]) as real
            && after.balance == before.balance
  {
    var amount := Text.DigitsValue(Text.SplitWhitespace(text, 1)[1]);
    TotalAppend(Stored(db, uid, WaterLog), WaterEntry(today, amount), today);
  }

  /** A valid `/log_workout` lowers the balance by exactly the workout's calories. */
  lemma LogWorkoutThenCheck(db: Db, uid: string, text: string, today: string)
    requires WorkoutArgsValid(text) && GetUserProfile(db, uid).Some?
    ensures var before := CheckProgressHandler(db, uid, today);
            var after := CheckProgressHandler(LogWorkoutHandler(db, uid, text, today).0, uid, today);
            var args := Text.SplitWhitespace(text, 2);
            && after.balance == before.balance - Goals.Workout(args[1], Text.DigitsValue(args[2])).kcal as real
            && after.drank == before.drank
  {
    var args := Text.SplitWhitespace(text, 2);
    var minutes := Text.DigitsValue(args[2]);
    var effect := Goals.Workout(args[1], minutes);
    TotalAppend(Stored(db, uid, WorkoutLog), WorkoutEntry(today, args[1], minutes, effect.kcal, effect.water), today);
  }
}
