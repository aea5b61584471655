/**
 * The analytics queries.  Each one reads the store only through
 * `get_habits`, so apart from `ListAllHabits` they are functions of the
 * list of habits that call returns.
 */
module Analytics {
  import opened Streaks
  import opened HabitModel
  import opened Store

  /** `list_all_habits`: every stored habit, rebuilt with its checks, in row order. */
  method ListAllHabits(db: Database) returns (habits: seq<Habit>)
    ensures |habits| == |db.habits|
    ensures forall i :: 0 <= i < |habits| ==> fresh(habits[i]) && Rebuilt(habits[i], db.habits[i], db.checks)
  {
    habits := db.GetHabits();
  }

  /** `r` is `s` with some elements left out and the others kept in their order. */
  ghost predicate Subsequence(r: seq<Habit>, s: seq<Habit>) {
    if r == [] then true
    else if s == [] then false
    else if r[0] == s[0] then Subsequence(r[1..], s[1..])
    else Subsequence(r, s[1..])
  }

  /** `list_habits_by_periodicity`: the habits whose periodicity is exactly `periodicity`. */
  function ListHabitsByPeriodicity(habits: seq<Habit>, periodicity: string): (r: seq<Habit>)
    reads habits
    ensures forall i :: 0 <= i < |r| ==> r[i].periodicity == periodicity
    ensures |r| <= |habits|
  {
    if habits == [] then []
    else
      var rest := ListHabitsByPeriodicity(habits[1..], periodicity);
      if habits[0].periodicity == periodicity then [habits[0]] + rest else rest
  }

  /**
   * Every habit of that periodicity is kept as often as it occurs, and no
   * other habit appears.
   */
  lemma {:induction false} ByPeriodicityCounts(habits: seq<Habit>, periodicity: string)
    ensures forall h :: (multiset(ListHabitsByPeriodicity(habits, periodicity))[h] ==
      if h in habits && h.periodicity == periodicity then multiset(habits)[h] else 0)
  {
    if habits != [] {
      var rest := ListHabitsByPeriodicity(habits[1..], periodicity);
      ByPeriodicityCounts(habits[1..], periodicity);
      assert habits == [habits[0]] + habits[1..];
      assert multiset(habits) == multiset{habits[0]} + multiset(habits[1..]);
      if habits[0].periodicity == periodicity {
        assert multiset([habits[0]] + rest) == multiset{habits[0]} + multiset(rest);
      }
      forall h
        ensures multiset(ListHabitsByPeriodicity(habits, periodicity))[h] ==
          (if h in habits && h.periodicity == periodicity then multiset(habits)[h] else 0)
      {
        if h !in habits[1..] {
          assert multiset(habits[1..])[h] == 0;
        }
      }
    }
  }

  /** The selected habits keep their original order. */
  lemma {:induction false} ByPeriodicityKeepsOrder(habits: seq<Habit>, periodicity: string)
    ensures Subsequence(ListHabitsByPeriodicity(habits, periodicity), habits)
  {
    if habits != [] {
      var rest := ListHabitsByPeriodicity(habits[1..], periodicity);
      ByPeriodicityKeepsOrder(habits[1..], periodicity);
      if habits[0].periodicity == periodicity {
        assert ([habits[0]] + rest)[1..] == rest;
      } else {
        SubsequenceSkip(rest, habits);
      }
    }
  }

  /** A subsequence of the tail is a subsequence of the whole. */
  lemma {:induction false} SubsequenceSkip(r: seq<Habit>, s: seq<Habit>)
    requires s != [] && Subsequence(r, s[1..])
    ensures Subsequence(r, s)
    decreases |s|, 0
  {
    if r != [] && r[0] == s[0] {
      SubsequenceTail(r, s[1..]);
    }
  }

  /** Dropping the first element of a subsequence leaves a subsequence. */
  lemma {:induction false} SubsequenceTail(r: seq<Habit>, t: seq<Habit>)
    requires r != [] && Subsequence(r, t)
    ensures Subsequence(r[1..], t)
    decreases |t|, 1
  {
    if r[0] == t[0] {
      SubsequenceSkip(r[1..], t);
    } else {
      SubsequenceTail(r, t[1..]);
      SubsequenceSkip(r[1..], t);
    }
  }

  /** The streak `compute_streak` reports for `habit`. */
  function HabitStreak(habit: Habit): nat
    reads habit
  {
    StreakOf(habit.checkDates, habit.periodicity)
  }

  /** `longest_run_streak_all_habits`: the largest habit streak, or 0 when there are no habits. */
  function LongestRunStreakAllHabits(habits: seq<Habit>): (r: nat)
    reads habits
    ensures forall i :: 0 <= i < |habits| ==> HabitStreak(habits[i]) <= r
    ensures habits == [] ==> r == 0
    ensures habits != [] ==> exists i :: 0 <= i < |habits| && r == HabitStreak(habits[i])
  {
    if habits == [] then 0
    else
      var rest := LongestRunStreakAllHabits(habits[1..]);
      assert forall i :: 0 < i < |habits| ==> habits[i] == habits[1..][i - 1];
      if HabitStreak(habits[0]) < rest then rest else HabitStreak(habits[0])
  }

  /** `longest_run_streak_for_habit`: the streak of the first habit called `name`, or 0 when none is. */
  function LongestRunStreakForHabit(habits: seq<Habit>, name: string): (r: nat)
    reads habits
    ensures (forall i :: 0 <= i < |habits| ==> habits[i].name != name) ==> r == 0
    ensures forall i ::
      (0 <= i < |habits| && habits[i].name == name && forall j :: 0 <= j < i ==> habits[j].name != name)
      ==> r == HabitStreak(habits[i])
  {
    if habits == [] then 0
    else if habits[0].name == name then HabitStreak(habits[0])
    else
      assert forall i :: 0 < i < |habits| ==> habits[i] == habits[1..][i - 1];
      LongestRunStreakForHabit(habits[1..], name)
  }
}
