# Habit tracker core, modelled in Dafny

This project models the core of a small habit tracker, `src/habit.py`:

- the `Habit` class, which holds a name, a description, a periodicity, a creation time and a list of check timestamps;
- its streak computation, `compute_streak`;
- its dictionary form, `to_dict` and `from_dict`;
- the `Database` store, which holds a `habits` table and a `habit_checks` table;
- the analytics functions built on `get_habits`.

The model has six modules, one per component:

| file | module | what it models |
|---|---|---|
| `wrappers.dfy` | `Wrappers` | `Option` (a Python default argument of `None`) and `Outcome` (success, or an error instead of an exception) |
| `timestamps.dfy` | `Timestamps` | a `datetime` as a calendar day ordinal plus a time of day (`Date` is `d.date()`); the ISO text as a record mirroring those two fields |
| `streaks.dfy` | `Streaks` | the streak as a specification over the check timestamps, with its lemmas |
| `habit.dfy` | `HabitModel` | `class Habit`: `Check` appends in place, and the `ComputeStreak` loop is proved against `Streaks.StreakOf` |
| `store.dfy` | `Store` | `class Database`, whose two tables are `seq` fields that the methods reassign; also the example data (`DaysBefore` is `now - timedelta(...)`) |
| `analytics.dfy` | `Analytics` | `list_all_habits` and the three queries over the list that `get_habits` returns |

Decisions worth knowing:

- The streak keeps the source's behaviour for a single check day. With exactly one distinct day the loop never runs, so the result is 0, not 1. `Streaks.StreakZeroIffOneDay` states when the streak is 0.
- The periodicity stays a free string. `"daily"` means an interval of 1 day, and any other string means 7 days, as the source does. The example data uses only "daily" and "weekly"; the code treats any other string as weekly, and the model follows the code.
- The foreign key from `habit_checks` to `habits` is not enforced, because SQLite does not enforce it by default. So `CompleteTask` accepts a name that no habit has.
- A failed insert is rolled back, since each call runs in its own transaction. So `AddHabit` on a duplicate name returns `Fail(DuplicateKey(name))` and leaves both tables unchanged. The source raises SQLite's `IntegrityError` there.
- `datetime.now()` becomes a `now` parameter. `initialize_with_example_data` uses one fixed `now` for every seeded habit and date.

## Model

| member | source | states |
|---|---|---|
| `Timestamps.IsoTextReadsBack` | src/habit.py:51-52 | `FromIsoFormat` is the inverse of `isoformat`: every stored text reads back to the timestamp whose text it is (`IsoFormat`'s ensures gives the other direction) |
| `Timestamps.IsoFormat` | src/habit.py:44-45 | reading the stored ISO text back with `fromisoformat` gives the same timestamp, so distinct timestamps are stored as distinct texts |
| `Streaks.Interval` | src/habit.py:27 | the allowed gap is one day exactly when the periodicity is `"daily"`, and 7 days for every other string |
| `Streaks.StreakOf` | src/habit.py:20-37 | the value `compute_streak` returns; at most the number of distinct check days, which is at most the number of checks (its meaning is given by `StreakIsLongestRun` and `StreakZeroIffOneDay`) |
| `Streaks.DistinctDays` | src/habit.py:21 | the sorted distinct days of the checks: strictly ascending, containing exactly the calendar days on which some check falls, and no longer than the check list |
| `Streaks.RunAt` | src/habit.py:29-33 | the loop's `current_streak` after index `j` lies between 1 and `j + 1` |
| `Streaks.LongestUpTo` | src/habit.py:29-35 | the loop's `longest_streak` after `n - 1` steps is at most `n`, and at least 1 once one step has run |
| `Streaks.RunAtIsLongestRunEndingAt` | src/habit.py:29-33 | `current_streak` at `j` is the length of the longest run of sorted days ending at `j` in which every gap is within the interval |
| `Streaks.LongestUpToIsLongestRun` | src/habit.py:29-35 | `longest_streak` after `n - 1` steps is the length of the longest such run among the first `n` days |
| `Streaks.StreakIsLongestRun` | src/habit.py:20-37 | with at least two distinct days, the streak is the length of the longest run of consecutive sorted days whose gaps are all within the interval |
| `Streaks.SortedUnique` | src/habit.py:21 | two strictly ascending day lists with the same elements are equal, so the sorted set of days is determined by the set alone |
| `Streaks.StreakDependsOnlyOnDays` | src/habit.py:21 | two check lists with the same set of calendar days have the same streak |
| `Streaks.StreakIgnoresOrder` | src/habit.py:21 | permuting the check list leaves the streak unchanged |
| `Streaks.StreakIgnoresTimeOfDay` | src/habit.py:21 | changing only the times of day of the checks leaves the streak unchanged |
| `Streaks.StreakIgnoresRepeatedDay` | src/habit.py:21 | appending a check on a day that already has one leaves the streak unchanged |
| `Streaks.StreakZeroIffOneDay` | src/habit.py:21-37 | the streak is 0 exactly when no two checks fall on different days, which covers no checks and all checks on one day; it is at most the number of distinct days, which is at most the number of checks |
| `Streaks.StreakOfProgression` | src/habit.py:27-35 | checks on `k >= 2` evenly spaced days give streak `k` when the spacing is within the interval (consecutive days for "daily"; days up to 7 apart for any other periodicity) and streak 1 when it is larger |
| `Streaks.StreakOfTwoDays` | src/habit.py:27-35 | checks on exactly two distinct days give 2 when the days are at most one interval apart, and 1 otherwise |
| `HabitModel.Habit.constructor` | src/habit.py:8-13 | a new habit has the given name, description and periodicity, was created at `now`, and has no checks |
| `HabitModel.Habit.Check` | src/habit.py:15-18 | appends exactly the given date, or `now` when none is given, to the end of the check list; the list grows by one; no other field is in the frame |
| `HabitModel.Habit.ComputeStreak` | src/habit.py:20-37 | the sort-and-walk loop returns `StreakOf(checkDates, periodicity)`; its invariants tie `current_streak` and `longest_streak` to `RunAt` and `LongestUpTo` and bound both by the loop index |
| `HabitModel.Habit.ToDict` | src/habit.py:39-46 | the dictionary keeps name, description and periodicity, `created_at` is text that reads back to the creation time, and `check_dates` is present with one ISO text per check, element `i` being the text of check `i` |
| `HabitModel.ParseFormatDates` | src/habit.py:45 | parsing the ISO texts of a list of timestamps gives back the same list, element by element |
| `HabitModel.ParseValues` | src/habit.py:52 | entries of `check_dates` that are already timestamps are kept as they are |
| `HabitModel.Habit.FromDict` | src/habit.py:48-53 | a new habit with the dictionary's name, description and periodicity, the parsed `created_at`, and the parsed `check_dates` (none when the key is absent) |
| `HabitModel.ToDictRoundTrip` | src/habit.py:39-53 | the dictionary form keeps name, description and periodicity, and its ISO texts parse back to `created_at` and to `check_dates` element by element |
| `HabitModel.CopyThroughDict` | src/habit.py:39-53 | `from_dict(to_dict(h))` is a new habit equal to `h` in every field |
| `Store.Database.constructor` | src/habit.py:56-58 | opening the store gives the stored rows, which satisfy the primary key on `name` |
| `Store.Database.AddHabit` | src/habit.py:74-77 | fails with `DuplicateKey` exactly when a habit row of that name exists, changing nothing; otherwise appends one row with the habit's fields and ISO `created_at`; never touches the checks; keeps names unique |
| `Store.Database.CompleteTask` | src/habit.py:79-84 | appends exactly one check row `(name, isoformat(date or now))` and leaves the habit rows unchanged, whether or not a habit has that name |
| `Store.CheckDatesOf` | src/habit.py:97-100 | the parsed dates of the check rows for the name, in row order, never more than there are rows (see `CheckDatesOfMembers`, `CheckDatesOfConcat`, `CheckDatesOfAppend`) |
| `Store.Database.GetCheckDates` | src/habit.py:97-100 | `get_check_dates(name)` on the store's check table: a date is returned exactly when some check row for that name parses to it, and there are never more dates than rows |
| `Store.CheckDatesOfMembers` | src/habit.py:97-100 | `get_check_dates(name)` returns the parsed dates of exactly the check rows for `name` |
| `Store.CheckDatesOfConcat` | src/habit.py:97-100 | selecting from two batches of rows gives the first batch's dates and then the second's, so insertion order is kept |
| `Store.CheckDatesOfAppend` | src/habit.py:79-84 | after `complete_task(n, d)`, `get_check_dates(n)` has `d` added at the end, and every other name's dates are unchanged |
| `Store.Database.GetHabits` | src/habit.py:86-95 | one new habit per habit row, in row order, each with the row's fields, the parsed `created_at` and `get_check_dates(name)` |
| `Store.Database.ClearDatabase` | src/habit.py:102-105 | both tables are empty afterwards, so `get_habits` returns no habits |
| `Store.Database.AddHabits` | src/habit.py:119-121 | adding the five predefined habits to an empty store succeeds for each and leaves exactly their rows, in order |
| `Store.Database.CompleteTasks` | src/habit.py:130-131 | one `complete_task` per date appends one check row per date, in order |
| `Store.Database.AddExampleChecks` | src/habit.py:123-131 | appends, habit by habit, the rows for each habit's seeded dates |
| `Store.Database.InitializeWithExampleData` | src/habit.py:107-131 | afterwards the tables hold exactly the five predefined habit rows created at `now` and their seeded check rows |
| `Store.SeedDates` | src/habit.py:125-128 | the seeded dates of a habit: 28 for "daily" and 4 otherwise; date `i` is `now` moved back by `i` intervals (days for "daily", weeks otherwise) |
| `Store.EachDayBefore` | src/habit.py:126 | `n` dates; `RecentDays` proves their days are the `n` consecutive days ending at `now` |
| `Store.EachWeekBefore` | src/habit.py:128 | `n` dates; `RecentWeeks` proves their days are `n` days 7 apart ending at `now` |
| `Store.PredefinedNamesDistinct` | src/habit.py:111-117 | the five predefined habit names are pairwise distinct, so none of their inserts fails |
| `Store.DateRowsSelect` | src/habit.py:130-131 | the check rows written for one habit give that habit exactly the dates written, in order, and give any other name nothing |
| `Store.SeedChecksSelect` | src/habit.py:123-131 | each predefined habit's check dates are exactly its own seeded dates |
| `Store.ExampleDataShape` | src/habit.py:107-131 | with a fixed `now`, the seeded store has 5 habits; the 4 "daily" ones have 28 checks on days `now`, `now-1`, …, `now-27`; the "weekly" one has 4 checks on days `now`, `now-7`, `now-14`, `now-21` |
| `Store.RecentDays` | src/habit.py:126 | the days of `now - timedelta(days=i)` for `i < n` are the `n` consecutive days ending at `now` |
| `Store.RecentWeeks` | src/habit.py:128 | the days of `now - timedelta(weeks=i)` for `i < n` are `n` days spaced a week apart, ending at `now` |
| `Store.ExampleDataStreaks` | src/habit.py:124-131 | right after seeding, each daily habit's streak is 28 and the weekly habit's streak is 4 |
| `Analytics.ListAllHabits` | src/habit.py:134-135 | the same habits `get_habits` returns: one per row, in row order, with their checks |
| `Analytics.ListHabitsByPeriodicity` | src/habit.py:137-138 | every habit returned has exactly the requested periodicity, and the result is no longer than the input |
| `Analytics.ByPeriodicityCounts` | src/habit.py:137-138 | each habit of the requested periodicity occurs in the result as often as in the input; every other habit occurs 0 times |
| `Analytics.ByPeriodicityKeepsOrder` | src/habit.py:137-138 | the result is a subsequence of the input, so the habits keep their original order |
| `Analytics.LongestRunStreakAllHabits` | src/habit.py:140-141 | at least every habit's streak, equal to one of them, and 0 when there are no habits |
| `Analytics.LongestRunStreakForHabit` | src/habit.py:143-148 | the streak of the first habit with that name, or 0 when no habit has it |

## Left out

- SQLite itself is not modelled: the connection, the `DATABASE` path, the SQL text, `create_tables` and the transactions. The two tables are in-memory sequences. Each method's contract gives the state after its one transaction.
- The click commands and the `cli` group are not modelled. They only parse arguments and print.
- `datetime.now()` is a `now` parameter. The source reads the clock again for each seeded habit and date; the model uses one value throughout.
- The grammar of ISO 8601 text is not modelled. `IsoText` mirrors the timestamp's two fields, so `FromIsoFormat` is total and `IsoFormat` and `FromIsoFormat` are inverse to each other. Every text therefore reads back, and the malformed-timestamp failure of `fromisoformat` cannot arise in the model.
- Python's `datetime` range is not modelled. Day ordinals are unbounded integers, so seeding never overflows below year 1. The time of day is an unbounded natural number.
- `from_dict` first creates the habit with `created_at = now()` and then overwrites that value. The model builds the habit with the parsed `created_at` directly, which gives the same habit.
- The three queries after `list_all_habits` take the list that `get_habits` returns instead of the database. Reading that list is all the source does with the database.
- The model takes the row order of `SELECT` without `ORDER BY` to be insertion order. This is what SQLite returns for these tables in practice; SQL itself does not guarantee it.
- Data written by one `Database` instance and read by another is not modelled. The constructor takes the rows already stored instead.
