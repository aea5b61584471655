/**
 * The habit store: two relations held in memory instead of in SQLite.
 *
 *   habits        rows (name, description, periodicity, created_at); `name` is the primary key
 *   habit_checks  rows (habit_name, check_date); no key, duplicates allowed, and a row may
 *                 name a habit that does not exist (the foreign key is not enforced)
 *
 * Timestamps are stored as ISO text and parsed back when read.
 */
module Store {
  import opened Wrappers
  import opened Timestamps
  import opened Streaks
  import opened HabitModel

  datatype HabitRow = HabitRow(name: string, description: string, periodicity: string, createdAt: IsoText)

  datatype CheckRow = CheckRow(habitName: string, checkDate: IsoText)

  /** Inserting a habit whose name is already a key of the `habits` relation. */
  datatype StoreError = DuplicateKey(name: string)

  predicate UniqueNames(rows: seq<HabitRow>) {
    forall i, j :: 0 <= i < j < |rows| ==> rows[i].name != rows[j].name
  }

  predicate HasName(rows: seq<HabitRow>, name: string) {
    exists i :: 0 <= i < |rows| && rows[i].name == name
  }

  /**
   * `SELECT check_date FROM habit_checks WHERE habit_name = ?`, parsed: the
   * dates of exactly the rows for `name`, in the order they were inserted.
   */
  function CheckDatesOf(checks: seq<CheckRow>, name: string): (dates: seq<Timestamp>)
    ensures |dates| <= |checks|
  {
    if checks == [] then []
    else
      var rest := CheckDatesOf(checks[1..], name);
      if checks[0].habitName == name then [FromIsoFormat(checks[0].checkDate)] + rest else rest
  }

  /** The selected dates are the dates of the rows for `name`, and only those. */
  lemma {:induction false} CheckDatesOfMembers(checks: seq<CheckRow>, name: string)
    ensures forall t :: t in CheckDatesOf(checks, name) <==>
      exists i :: 0 <= i < |checks| && checks[i].habitName == name && FromIsoFormat(checks[i].checkDate) == t
  {
    if checks != [] {
      CheckDatesOfMembers(checks[1..], name);
      assert forall i :: 0 < i < |checks| ==> checks[i] == checks[1..][i - 1];
      forall t | exists i :: 0 <= i < |checks| && checks[i].habitName == name && FromIsoFormat(checks[i].checkDate) == t
        ensures t in CheckDatesOf(checks, name)
      {
        var i :| 0 <= i < |checks| && checks[i].habitName == name && FromIsoFormat(checks[i].checkDate) == t;
        if i > 0 {
          assert checks[1..][i - 1] == checks[i];
        }
      }
    }
  }

  /**
   * Sequence concatenation is associative.  Stated on its own so that the
   * extensionality argument runs outside the larger proofs that use it.
   */
  lemma AppendAssociative<T>(x: seq<T>, y: seq<T>, z: seq<T>)
    ensures x + (y + z) == (x + y) + z
  {
  }

  /** The dates selected from the single row `row`. */
  function RowDates(row: CheckRow, name: string): seq<Timestamp> {
    if row.habitName == name then [FromIsoFormat(row.checkDate)] else []
  }

  lemma CheckDatesOfCons(row: CheckRow, rest: seq<CheckRow>, name: string)
    ensures CheckDatesOf([row] + rest, name) == RowDates(row, name) + CheckDatesOf(rest, name)
  {
    assert ([row] + rest)[1..] == rest;
  }

  /** Selecting from two batches of rows is selecting from each, the first batch's dates first. */
  lemma {:induction false} CheckDatesOfConcat(a: seq<CheckRow>, b: seq<CheckRow>, name: string)
    ensures CheckDatesOf(a + b, name) == CheckDatesOf(a, name) + CheckDatesOf(b, name)
  {
    if a == [] {
      assert a + b == b;
    } else {
      CheckDatesOfConcat(a[1..], b, name);
      assert a == [a[0]] + a[1..];
      AppendAssociative([a[0]], a[1..], b);
      CheckDatesOfCons(a[0], a[1..], name);
      CheckDatesOfCons(a[0], a[1..] + b, name);
      AppendAssociative(RowDates(a[0], name), CheckDatesOf(a[1..], name), CheckDatesOf(b, name));
    }
  }

  /** A new check row adds its date at the end of its own habit's dates and changes no other habit's. */
  lemma CheckDatesOfAppend(checks: seq<CheckRow>, habitName: string, date: Timestamp, name: string)
    ensures CheckDatesOf(checks + [CheckRow(habitName, IsoFormat(date))], name) ==
      CheckDatesOf(checks, name) + (if habitName == name then [date] else [])
  {
    CheckDatesOfConcat(checks, [CheckRow(habitName, IsoFormat(date))], name);
  }

  /** The habit object `habit` is what `Habit.from_dict` rebuilds from `row` and the check rows. */
  ghost predicate Rebuilt(habit: Habit, row: HabitRow, checks: seq<CheckRow>)
    reads habit
  {
    && habit.name == row.name
    && habit.description == row.description
    && habit.periodicity == row.periodicity
    && habit.createdAt == FromIsoFormat(row.createdAt)
    && habit.checkDates == CheckDatesOf(checks, row.name)
  }

  class Database {
    var habits: seq<HabitRow>
    var checks: seq<CheckRow>

    /** The primary key holds: no two habit rows share a name. */
    ghost predicate Valid()
      reads this
    {
      UniqueNames(habits)
    }

    /** Opens a store holding the given rows (what the database file already contains). */
    constructor (storedHabits: seq<HabitRow>, storedChecks: seq<CheckRow>)
      requires UniqueNames(storedHabits)
      ensures Valid()
      ensures habits == storedHabits && checks == storedChecks
    {
      habits := storedHabits;
      checks := storedChecks;
    }

    /**
     * Inserts a row for `habit`.  Fails with `DuplicateKey`, changing
     * nothing, when a habit of that name is already stored.
     */
    method AddHabit(habit: Habit) returns (outcome: Outcome<StoreError>)
      requires Valid()
      modifies this
      ensures Valid()
      ensures outcome == if HasName(old(habits), habit.name) then Fail(DuplicateKey(habit.name)) else Pass
      ensures habits == if outcome.Pass?
        then old(habits) + [HabitRow(habit.name, habit.description, habit.periodicity, IsoFormat(habit.createdAt))]
        else old(habits)
      ensures checks == old(checks)
    {
      if HasName(habits, habit.name) {
        return Fail(DuplicateKey(habit.name));
      }
      habits := habits + [HabitRow(habit.name, habit.description, habit.periodicity, IsoFormat(habit.createdAt))];
      outcome := Pass;
    }

    /**
     * Appends one check row for `habitName` at `date`, or at `now` when no
     * date is given, whether or not a habit of that name exists.
     */
    method CompleteTask(habitName: string, date: Option<Timestamp>, now: Timestamp)
      requires Valid()
      modifies this
      ensures Valid()
      ensures habits == old(habits)
      ensures checks == old(checks) + [CheckRow(habitName, IsoFormat(date.GetOr(now)))]
    {
      checks := checks + [CheckRow(habitName, IsoFormat(date.GetOr(now)))];
    }

    /** The dates checked for `habitName`, in insertion order. */
    function GetCheckDates(habitName: string): (dates: seq<Timestamp>)
      reads this
      ensures |dates| <= |checks|
      ensures forall t :: t in dates <==>
        exists i :: 0 <= i < |checks| && checks[i].habitName == habitName && FromIsoFormat(checks[i].checkDate) == t
    {
      CheckDatesOfMembers(checks, habitName);
      CheckDatesOf(checks, habitName)
    }

    /** One fresh habit per habit row, in row order, each carrying its own check dates. */
    method GetHabits() returns (result: seq<Habit>)
      ensures |result| == |habits|
      ensures forall i :: 0 <= i < |result| ==> fresh(result[i]) && Rebuilt(result[i], habits[i], checks)
    {
      result := [];
      for i := 0 to |habits|
        invariant |result| == i
        invariant forall k :: 0 <= k < i ==> fresh(result[k]) && Rebuilt(result[k], habits[k], checks)
      {
        var row := habits[i];
        var dates := GetCheckDates(row.name);
        ParseValues(dates);
        var habit := Habit.FromDict(HabitDict(row.name, row.description, row.periodicity, row.createdAt, Some(AsValues(dates))));
        result := result + [habit];
      }
    }

    /** `complete_task(name, date)` for each of `dates`, in order. */
    method CompleteTasks(name: string, dates: seq<Timestamp>, now: Timestamp)
      requires Valid()
      modifies this
      ensures Valid()
      ensures habits == old(habits)
      ensures checks == old(checks) + DateRows(name, dates)
    {
      for j := 0 to |dates|
        invariant Valid() && habits == old(habits)
        invariant checks == old(checks) + DateRows(name, dates[..j])
      {
        CompleteTask(name, Some(dates[j]), now);
        assert dates[..j + 1] == dates[..j] + [dates[j]];
      }
      assert dates[..|dates|] == dates;
    }

    /** Deletes every check row and every habit row. */
    method ClearDatabase()
      modifies this
      ensures Valid()
      ensures habits == [] && checks == []
    {
      checks := [];
      habits := [];
    }

    /** `add_habit` for each of `predefined`, made from `seeds` at `now`, into an empty store. */
    method AddHabits(predefined: seq<Habit>, ghost seeds: seq<HabitSeed>, now: Timestamp)
      requires Valid() && habits == []
      requires |predefined| == |seeds| && SeedNamesDistinct(seeds)
      requires forall k :: 0 <= k < |predefined| ==> Made(predefined[k], seeds[k], now)
      modifies this
      ensures Valid()
      ensures habits == SeedRows(seeds, now) && checks == old(checks)
    {
      for i := 0 to |predefined|
        invariant Valid() && checks == old(checks)
        invariant habits == SeedRows(seeds[..i], now)
      {
        forall k | 0 <= k < i
          ensures habits[k].name != predefined[i].name
        {
          assert habits[k].name == seeds[k].name;
        }
        var outcome := AddHabit(predefined[i]);
        assert seeds[..i + 1] == seeds[..i] + [seeds[i]];
      }
      assert seeds[..|predefined|] == seeds;
    }

    /** Seeds the check history of each of `predefined`, made from `seeds` at `now`. */
    method AddExampleChecks(predefined: seq<Habit>, ghost seeds: seq<HabitSeed>, now: Timestamp)
      requires Valid()
      requires |predefined| == |seeds|
      requires forall k :: 0 <= k < |predefined| ==> Made(predefined[k], seeds[k], now)
      modifies this
      ensures Valid()
      ensures habits == old(habits) && checks == old(checks) + SeedChecks(seeds, now)
    {
      for i := 0 to |predefined|
        invariant Valid() && habits == old(habits)
        invariant checks == old(checks) + SeedChecks(seeds[..i], now)
      {
        var habit := predefined[i];
        var dates := SeedDates(habit.periodicity, now);
        CompleteTasks(habit.name, dates, now);
        assert seeds[..i + 1][..i] == seeds[..i];
      }
      assert seeds[..|predefined|] == seeds;
    }

    /**
     * Clears the store, then adds the five predefined habits created at
     * `now` and, for each, one check per day over the last 28 days (daily
     * habits) or one per week over the last 4 weeks (the weekly one).
     */
    method InitializeWithExampleData(now: Timestamp)
      modifies this
      ensures Valid()
      ensures habits == SeedRows(PredefinedHabits, now)
      ensures checks == SeedChecks(PredefinedHabits, now)
    {
      ClearDatabase();
      var lessSugar := new Habit("Less Sugar", "Consume less sugar daily", "daily", now);
      var moreWater := new Habit("More Water", "Drink at least 8 glasses of water", "daily", now);
      var vegetables := new Habit("Eat Vegetables", "Include vegetables in meals", "daily", now);
      var noJunkFood := new Habit("No Junk Food", "Avoid junk food", "daily", now);
      var groceries := new Habit("Grocery Shopping", "Do grocery shopping once a week", "weekly", now);
      var predefined := [lessSugar, moreWater, vegetables, noJunkFood, groceries];
      PredefinedNamesDistinct();
      AddHabits(predefined, PredefinedHabits, now);
      AddExampleChecks(predefined, PredefinedHabits, now);
    }
  }

  // ---------------------------------------------------------------------------
  // The example data.
  // ---------------------------------------------------------------------------

  datatype HabitSeed = HabitSeed(name: string, description: string, periodicity: string)

  const PredefinedHabits: seq<HabitSeed> := [
    HabitSeed("Less Sugar", "Consume less sugar daily", "daily"),
    HabitSeed("More Water", "Drink at least 8 glasses of water", "daily"),
    HabitSeed("Eat Vegetables", "Include vegetables in meals", "daily"),
    HabitSeed("No Junk Food", "Avoid junk food", "daily"),
    HabitSeed("Grocery Shopping", "Do grocery shopping once a week", "weekly")
  ]

  ghost predicate Made(habit: Habit, seed: HabitSeed, now: Timestamp)
    reads habit
  {
    habit.name == seed.name && habit.description == seed.description
    && habit.periodicity == seed.periodicity && habit.createdAt == now
  }

  predicate SeedNamesDistinct(seeds: seq<HabitSeed>) {
    forall i, j :: 0 <= i < j < |seeds| ==> seeds[i].name != seeds[j].name
  }

  lemma PredefinedNamesDistinct()
    ensures SeedNamesDistinct(PredefinedHabits)
  {
    forall i, j | 0 <= i < j < |PredefinedHabits|
      ensures PredefinedHabits[i].name != PredefinedHabits[j].name
    {
      assert PredefinedHabits[i].name[0] != PredefinedHabits[j].name[0];
    }
  }

  /** `now` moved back by `days` days, at the same time of day. */
  function DaysBefore(now: Timestamp, days: int): Timestamp {
    Timestamp(now.day - days, now.timeOfDay)
  }

  /** The seeded check dates: the last 28 days for "daily", the last 4 weeks otherwise, newest first. */
  function SeedDates(periodicity: string, now: Timestamp): (dates: seq<Timestamp>)
    ensures |dates| == if periodicity == "daily" then 28 else 4
    ensures forall i :: 0 <= i < |dates| ==> dates[i] == DaysBefore(now, i * Interval(periodicity))
  {
    if periodicity == "daily" then EachDayBefore(now, 28) else EachWeekBefore(now, 4)
  }

  /** `[now - timedelta(days=i) for i in range(n)]`. */
  function EachDayBefore(now: Timestamp, n: nat): (dates: seq<Timestamp>)
    ensures |dates| == n
  {
    seq(n, i => DaysBefore(now, i))
  }

  /** `[now - timedelta(weeks=i) for i in range(n)]`. */
  function EachWeekBefore(now: Timestamp, n: nat): (dates: seq<Timestamp>)
    ensures |dates| == n
  {
    seq(n, i => DaysBefore(now, 7 * i))
  }

  /** The check rows written for `name` at each of `dates`, in order. */
  function DateRows(name: string, dates: seq<Timestamp>): seq<CheckRow> {
    seq(|dates|, i requires 0 <= i < |dates| => CheckRow(name, IsoFormat(dates[i])))
  }

  function SeedRows(seeds: seq<HabitSeed>, now: Timestamp): seq<HabitRow> {
    seq(|seeds|, i requires 0 <= i < |seeds| =>
      HabitRow(seeds[i].name, seeds[i].description, seeds[i].periodicity, IsoFormat(now)))
  }

  function SeedChecks(seeds: seq<HabitSeed>, now: Timestamp): seq<CheckRow> {
    if seeds == [] then []
    else
      var last := seeds[|seeds| - 1];
      SeedChecks(seeds[..|seeds| - 1], now) + DateRows(last.name, SeedDates(last.periodicity, now))
  }

  /** The rows written for one habit select, for that habit, exactly the dates written, and nothing for any other. */
  lemma {:induction false} DateRowsSelect(name: string, dates: seq<Timestamp>, other: string)
    ensures CheckDatesOf(DateRows(name, dates), other) == if name == other then dates else []
  {
    if dates != [] {
      var rows := DateRows(name, dates);
      assert rows[1..] == DateRows(name, dates[1..]);
      DateRowsSelect(name, dates[1..], other);
      assert dates == [dates[0]] + dates[1..];
    }
  }

  /** Each seeded habit's dates, selected from all seeded rows, are exactly its own seeded dates. */
  lemma {:induction false} SeedChecksSelect(seeds: seq<HabitSeed>, now: Timestamp, i: nat)
    requires SeedNamesDistinct(seeds) && i < |seeds|
    ensures CheckDatesOf(SeedChecks(seeds, now), seeds[i].name) == SeedDates(seeds[i].periodicity, now)
  {
    var n := |seeds| - 1;
    var init, last := seeds[..n], seeds[n];
    CheckDatesOfConcat(SeedChecks(init, now), DateRows(last.name, SeedDates(last.periodicity, now)), seeds[i].name);
    DateRowsSelect(last.name, SeedDates(last.periodicity, now), seeds[i].name);
    if i == n {
      SeedChecksOther(init, now, last.name);
    } else {
      SeedChecksSelect(init, now, i);
    }
  }

  /** A name that no seed carries selects nothing from the seeded rows. */
  lemma {:induction false} SeedChecksOther(seeds: seq<HabitSeed>, now: Timestamp, name: string)
    requires forall k :: 0 <= k < |seeds| ==> seeds[k].name != name
    ensures CheckDatesOf(SeedChecks(seeds, now), name) == []
  {
    if seeds != [] {
      var n := |seeds| - 1;
      var last := seeds[n];
      CheckDatesOfConcat(SeedChecks(seeds[..n], now), DateRows(last.name, SeedDates(last.periodicity, now)), name);
      DateRowsSelect(last.name, SeedDates(last.periodicity, now), name);
      SeedChecksOther(seeds[..n], now, name);
    }
  }

  /**
   * What `initialize_with_example_data` leaves in the store: five habits,
   * four "daily" ones checked once on each of the last 28 days and one
   * "weekly" one checked once on each of the last 4 weeks.
   */
  lemma ExampleDataShape(now: Timestamp)
    ensures |SeedRows(PredefinedHabits, now)| == 5
    ensures forall i :: 0 <= i < 4 ==>
      && SeedRows(PredefinedHabits, now)[i].periodicity == "daily"
      && CheckDatesOf(SeedChecks(PredefinedHabits, now), SeedRows(PredefinedHabits, now)[i].name)
         == EachDayBefore(now, 28)
    ensures SeedRows(PredefinedHabits, now)[4].periodicity == "weekly"
    ensures CheckDatesOf(SeedChecks(PredefinedHabits, now), SeedRows(PredefinedHabits, now)[4].name)
         == EachWeekBefore(now, 4)
  {
    PredefinedNamesDistinct();
    forall i | 0 <= i < 5
      ensures CheckDatesOf(SeedChecks(PredefinedHabits, now), PredefinedHabits[i].name)
           == SeedDates(PredefinedHabits[i].periodicity, now)
    {
      SeedChecksSelect(PredefinedHabits, now, i);
    }
  }

  /** The days of the `n` checks made on each of the `n` days up to `now` are the `n` consecutive days ending at `now`. */
  lemma RecentDays(now: Timestamp, n: nat)
    requires n >= 1
    ensures forall d :: d in DaySet(EachDayBefore(now, n)) <==> d in Progression(now.day - (n - 1), 1, n)
  {
    var dates := EachDayBefore(now, n);
    ProgressionMembers(now.day - (n - 1), 1, n);
    forall d
      ensures d in DaySet(dates) <==> d in Progression(now.day - (n - 1), 1, n)
    {
      if d in DaySet(dates) {
        var t :| t in dates && Date(t) == d;
        var k :| 0 <= k < n && dates[k] == t;
        assert d == now.day - (n - 1) + (n - 1 - k) * 1;
      }
      if d in Progression(now.day - (n - 1), 1, n) {
        var i :| 0 <= i < n && d == now.day - (n - 1) + i * 1;
        assert dates[n - 1 - i] in dates;
      }
    }
  }

  /** The days of the `n` checks made once a week up to `now` are `n` days a week apart ending at `now`. */
  lemma RecentWeeks(now: Timestamp, n: nat)
    requires n >= 1
    ensures forall d :: d in DaySet(EachWeekBefore(now, n)) <==> d in Progression(now.day - 7 * (n - 1), 7, n)
  {
    var dates := EachWeekBefore(now, n);
    ProgressionMembers(now.day - 7 * (n - 1), 7, n);
    forall d
      ensures d in DaySet(dates) <==> d in Progression(now.day - 7 * (n - 1), 7, n)
    {
      if d in DaySet(dates) {
        var t :| t in dates && Date(t) == d;
        var k :| 0 <= k < n && dates[k] == t;
        assert d == now.day - 7 * (n - 1) + (n - 1 - k) * 7;
      }
      if d in Progression(now.day - 7 * (n - 1), 7, n) {
        var i :| 0 <= i < n && d == now.day - 7 * (n - 1) + i * 7;
        assert dates[n - 1 - i] in dates;
      }
    }
  }

  /** Right after seeding, `show-streaks` reports 28 for each daily habit and 4 for the weekly one. */
  lemma ExampleDataStreaks(now: Timestamp)
    ensures StreakOf(EachDayBefore(now, 28), "daily") == 28
    ensures StreakOf(EachWeekBefore(now, 4), "weekly") == 4
  {
    RecentDays(now, 28);
    StreakOfProgression(EachDayBefore(now, 28), "daily", now.day - 27, 1, 28);
    RecentWeeks(now, 4);
    StreakOfProgression(EachWeekBefore(now, 4), "weekly", now.day - 21, 7, 4);
  }
}
