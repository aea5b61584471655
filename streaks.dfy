/**
 * The streak of a habit, as a specification over its check timestamps.
 *
 * `Habit.compute_streak` reduces the checks to their distinct calendar days,
 * sorts them, and walks adjacent pairs: a gap of at most the periodicity's
 * interval extends the current run, a larger gap starts a new run of 1, and
 * the longest run seen after each step is the answer.  With fewer than two
 * distinct days the walk never runs and the answer is 0.
 */
module Streaks {
  import opened Timestamps

  /** Days allowed between two consecutive checked days: one for "daily", a week for any other string. */
  function Interval(periodicity: string): (days: int)
    ensures days >= 1
    ensures days == 1 <==> periodicity == "daily"
    ensures periodicity != "daily" ==> days == 7
  {
    if periodicity == "daily" then 1 else 7
  }

  predicate StrictlyIncreasing(s: seq<int>) {
    forall i, j :: 0 <= i < j < |s| ==> s[i] < s[j]
  }

  /** The set of calendar days on which a check was made. */
  function DaySet(checks: seq<Timestamp>): set<int> {
    set t | t in checks :: Date(t)
  }

  /** Inserts `d` into a sorted sequence of distinct days, unless it is already there. */
  function InsertDay(days: seq<int>, d: int): (r: seq<int>)
    requires StrictlyIncreasing(days)
    ensures StrictlyIncreasing(r)
    ensures forall x :: x in r <==> x in days || x == d
    ensures |r| <= |days| + 1
    ensures r != [] && r[0] == if days != [] && days[0] < d then days[0] else d
  {
    if days == [] then [d]
    else if d < days[0] then [d] + days
    else if d == days[0] then days
    else
      var rest := InsertDay(days[1..], d);
      assert days[0] < rest[0];
      [days[0]] + rest
  }

  /** The distinct calendar days of the checks, in ascending order (`sorted(set(d.date() for d in ...))`). */
  function DistinctDays(checks: seq<Timestamp>): (days: seq<int>)
    ensures StrictlyIncreasing(days)
    ensures forall d :: d in days <==> d in DaySet(checks)
    ensures |days| <= |checks|
  {
    if checks == [] then []
    else
      var n := |checks| - 1;
      assert checks == checks[..n] + [checks[n]];
      InsertDay(DistinctDays(checks[..n]), Date(checks[n]))
  }

  function Max(a: int, b: int): int {
    if a < b then b else a
  }

  /** The value of the walk's `current_streak` once index `j` of the sorted days has been processed. */
  function RunAt(days: seq<int>, interval: int, j: nat): (n: nat)
    requires j < |days|
    ensures 1 <= n <= j + 1
  {
    if j == 0 then 1
    else if days[j] - days[j - 1] <= interval then RunAt(days, interval, j - 1) + 1
    else 1
  }

  /** The value of the walk's `longest_streak` once indices `1 .. n-1` have been processed. */
  function LongestUpTo(days: seq<int>, interval: int, n: nat): (m: nat)
    requires n <= |days|
    ensures m <= n
    ensures n >= 2 ==> 1 <= m
  {
    if n <= 1 then 0
    else Max(LongestUpTo(days, interval, n - 1), RunAt(days, interval, n - 1))
  }

  /** The streak of a sorted sequence of distinct days. */
  function Streak(days: seq<int>, interval: int): nat {
    LongestUpTo(days, interval, |days|)
  }

  /** The streak `compute_streak` reports for a habit with these checks and this periodicity. */
  function StreakOf(checks: seq<Timestamp>, periodicity: string): (n: nat)
    ensures n <= |DistinctDays(checks)| <= |checks|
  {
    Streak(DistinctDays(checks), Interval(periodicity))
  }

  // ---------------------------------------------------------------------------
  // What the streak means: the longest run of days with tolerated gaps.
  // ---------------------------------------------------------------------------

  /** Indices `s .. e` of `days` form a run: every gap inside it is at most `interval`. */
  ghost predicate IsRun(days: seq<int>, interval: int, s: int, e: int) {
    0 <= s <= e < |days| && forall k :: s < k <= e ==> days[k] - days[k - 1] <= interval
  }

  /** The walk's current streak at `j` is the length of the longest run that ends at `j`. */
  lemma {:induction false} RunAtIsLongestRunEndingAt(days: seq<int>, interval: int, j: nat)
    requires j < |days|
    ensures IsRun(days, interval, j - RunAt(days, interval, j) + 1, j)
    ensures forall s :: IsRun(days, interval, s, j) ==> j - s + 1 <= RunAt(days, interval, j)
  {
    if j > 0 && days[j] - days[j - 1] <= interval {
      RunAtIsLongestRunEndingAt(days, interval, j - 1);
      forall s | IsRun(days, interval, s, j)
        ensures j - s + 1 <= RunAt(days, interval, j)
      {
        if s < j {
          assert IsRun(days, interval, s, j - 1);
        }
      }
    } else if j > 0 {
      forall s | IsRun(days, interval, s, j)
        ensures s == j
      {
      }
    }
  }

  lemma {:induction false} LongestUpToIsLongestRun(days: seq<int>, interval: int, n: nat)
    requires 2 <= n <= |days|
    ensures exists s, e :: IsRun(days, interval, s, e) && e < n && e - s + 1 == LongestUpTo(days, interval, n)
    ensures forall s, e :: IsRun(days, interval, s, e) && e < n ==> e - s + 1 <= LongestUpTo(days, interval, n)
  {
    var m := LongestUpTo(days, interval, n);
    var r := RunAt(days, interval, n - 1);
    RunAtIsLongestRunEndingAt(days, interval, n - 1);
    if n > 2 {
      LongestUpToIsLongestRun(days, interval, n - 1);
    } else {
      assert IsRun(days, interval, 0, 0);
    }
    if m == r {
      assert IsRun(days, interval, n - 1 - r + 1, n - 1);
    }
    forall s, e | IsRun(days, interval, s, e) && e < n
      ensures e - s + 1 <= m
    {
      if e == n - 1 {
      } else if n == 2 {
        assert e == 0 && s == 0;
      }
    }
  }

  /**
   * With at least two distinct days, the streak is the length of the longest
   * run of consecutive sorted days whose gaps are all within the interval.
   */
  lemma StreakIsLongestRun(days: seq<int>, interval: int)
    requires |days| >= 2
    ensures exists s, e :: IsRun(days, interval, s, e) && e - s + 1 == Streak(days, interval)
    ensures forall s, e :: IsRun(days, interval, s, e) ==> e - s + 1 <= Streak(days, interval)
  {
    LongestUpToIsLongestRun(days, interval, |days|);
  }

  // ---------------------------------------------------------------------------
  // The streak depends only on the set of checked days.
  // ---------------------------------------------------------------------------

  /** Two ascending sequences of distinct values with the same elements are equal. */
  lemma {:induction false} SortedUnique(a: seq<int>, b: seq<int>)
    requires StrictlyIncreasing(a) && StrictlyIncreasing(b)
    requires forall x :: x in a <==> x in b
    ensures a == b
  {
    assert b != [] ==> b[0] in b;
    if a != [] {
      assert a[0] in a;
      assert b != [];
      assert b[0] in a;
      assert a[0] == b[0];
      forall x
        ensures x in a[1..] <==> x in b[1..]
      {
        if x in a[1..] {
          assert x in a && x != a[0];
        }
        if x in b[1..] {
          assert x in b && x != b[0];
        }
      }
      SortedUnique(a[1..], b[1..]);
      assert a == [a[0]] + a[1..];
      assert b == [b[0]] + b[1..];
    }
  }

  /** Checks on the same set of days have the same streak, whatever their order, times or repetitions. */
  lemma StreakDependsOnlyOnDays(a: seq<Timestamp>, b: seq<Timestamp>, periodicity: string)
    requires DaySet(a) == DaySet(b)
    ensures StreakOf(a, periodicity) == StreakOf(b, periodicity)
  {
    SortedUnique(DistinctDays(a), DistinctDays(b));
  }

  /** Reordering the checks leaves the streak unchanged. */
  lemma StreakIgnoresOrder(a: seq<Timestamp>, b: seq<Timestamp>, periodicity: string)
    requires multiset(a) == multiset(b)
    ensures StreakOf(a, periodicity) == StreakOf(b, periodicity)
  {
    forall d
      ensures d in DaySet(a) <==> d in DaySet(b)
    {
      if d in DaySet(a) {
        var t :| t in a && Date(t) == d;
        assert t in multiset(b);
      }
      if d in DaySet(b) {
        var t :| t in b && Date(t) == d;
        assert t in multiset(a);
      }
    }
    StreakDependsOnlyOnDays(a, b, periodicity);
  }

  /** Changing only the time of day of each check leaves the streak unchanged. */
  lemma StreakIgnoresTimeOfDay(a: seq<Timestamp>, b: seq<Timestamp>, periodicity: string)
    requires |a| == |b|
    requires forall i :: 0 <= i < |a| ==> Date(a[i]) == Date(b[i])
    ensures StreakOf(a, periodicity) == StreakOf(b, periodicity)
  {
    forall d
      ensures d in DaySet(a) <==> d in DaySet(b)
    {
      if d in DaySet(a) {
        var t :| t in a && Date(t) == d;
        var i :| 0 <= i < |a| && a[i] == t;
        assert b[i] in b;
      }
      if d in DaySet(b) {
        var t :| t in b && Date(t) == d;
        var i :| 0 <= i < |b| && b[i] == t;
        assert a[i] in a;
      }
    }
    StreakDependsOnlyOnDays(a, b, periodicity);
  }

  /** A further check on a day that already has one leaves the streak unchanged. */
  lemma StreakIgnoresRepeatedDay(checks: seq<Timestamp>, t: Timestamp, periodicity: string)
    requires Date(t) in DaySet(checks)
    ensures StreakOf(checks + [t], periodicity) == StreakOf(checks, periodicity)
  {
    forall d
      ensures d in DaySet(checks + [t]) <==> d in DaySet(checks)
    {
      if d in DaySet(checks + [t]) {
        var u :| u in checks + [t] && Date(u) == d;
        if u != t {
          assert u in checks;
        }
      }
      if d in DaySet(checks) {
        var u :| u in checks && Date(u) == d;
        assert u in checks + [t];
      }
    }
    StreakDependsOnlyOnDays(checks + [t], checks, periodicity);
  }

  // ---------------------------------------------------------------------------
  // Values of the streak.
  // ---------------------------------------------------------------------------

  /**
   * The streak is 0 exactly when no two checks fall on different days (no
   * checks at all, or all of them on one day); otherwise it is at least 1.
   * It never exceeds the number of distinct days, nor the number of checks.
   */
  lemma StreakZeroIffOneDay(checks: seq<Timestamp>, periodicity: string)
    ensures StreakOf(checks, periodicity) == 0 <==>
      forall i, j :: 0 <= i < |checks| && 0 <= j < |checks| ==> Date(checks[i]) == Date(checks[j])
    ensures StreakOf(checks, periodicity) <= |DistinctDays(checks)| <= |checks|
  {
    var days := DistinctDays(checks);
    if |days| >= 2 {
      assert days[0] in DaySet(checks) && days[1] in DaySet(checks);
      var t0 :| t0 in checks && Date(t0) == days[0];
      var t1 :| t1 in checks && Date(t1) == days[1];
      var i :| 0 <= i < |checks| && checks[i] == t0;
      var j :| 0 <= j < |checks| && checks[j] == t1;
      assert Date(checks[i]) != Date(checks[j]);
    } else {
      forall i, j | 0 <= i < |checks| && 0 <= j < |checks|
        ensures Date(checks[i]) == Date(checks[j])
      {
        assert checks[i] in checks && checks[j] in checks;
        assert Date(checks[i]) in days && Date(checks[j]) in days;
      }
    }
  }

  lemma {:induction false} RunAtUnbroken(days: seq<int>, interval: int, j: nat)
    requires j < |days|
    requires forall k :: 0 < k < |days| ==> days[k] - days[k - 1] <= interval
    ensures RunAt(days, interval, j) == j + 1
  {
    if j > 0 {
      RunAtUnbroken(days, interval, j - 1);
    }
  }

  lemma {:induction false} LongestUpToUnbroken(days: seq<int>, interval: int, n: nat)
    requires 2 <= n <= |days|
    requires forall k :: 0 < k < |days| ==> days[k] - days[k - 1] <= interval
    ensures LongestUpTo(days, interval, n) == n
  {
    RunAtUnbroken(days, interval, n - 1);
  }

  lemma {:induction false} LongestUpToAllBroken(days: seq<int>, interval: int, n: nat)
    requires 2 <= n <= |days|
    requires forall k :: 0 < k < |days| ==> days[k] - days[k - 1] > interval
    ensures LongestUpTo(days, interval, n) == 1
  {
    if n > 2 {
      LongestUpToAllBroken(days, interval, n - 1);
    }
  }

  /** Days `start, start + step, ..., start + (k - 1) * step`. */
  function Progression(start: int, step: int, k: nat): (s: seq<int>)
    ensures |s| == k
    decreases k
  {
    if k == 0 then [] else [start] + Progression(start + step, step, k - 1)
  }

  lemma {:induction false} ProgressionShape(start: int, step: int, k: nat)
    requires step >= 1
    ensures StrictlyIncreasing(Progression(start, step, k))
    ensures forall i :: 0 < i < k ==> Progression(start, step, k)[i] - Progression(start, step, k)[i - 1] == step
    ensures k > 0 ==> Progression(start, step, k)[0] == start
    decreases k
  {
    if k > 0 {
      var s := Progression(start, step, k);
      var rest := Progression(start + step, step, k - 1);
      ProgressionShape(start + step, step, k - 1);
      assert s == [start] + rest;
      assert forall i :: 0 < i < k ==> s[i] == rest[i - 1];
      forall i, j | 0 <= i < j < k
        ensures s[i] < s[j]
      {
        if i == 0 {
          assert rest[0] == start + step;
          assert j - 1 == 0 || rest[0] < rest[j - 1];
        }
      }
    }
  }

  /** Every element of a progression is `start + i * step` for some `i < k`, and every such value is in it. */
  lemma {:induction false} ProgressionMembers(start: int, step: int, k: nat)
    ensures forall d :: d in Progression(start, step, k) <==> exists i :: 0 <= i < k && d == start + i * step
    decreases k
  {
    if k > 0 {
      ProgressionMembers(start + step, step, k - 1);
      forall d
        ensures d in Progression(start, step, k) <==> exists i :: 0 <= i < k && d == start + i * step
      {
        if exists i :: 0 <= i < k && d == start + i * step {
          var i :| 0 <= i < k && d == start + i * step;
          if i > 0 {
            assert d == start + step + (i - 1) * step;
          }
        }
        if d in Progression(start + step, step, k - 1) {
          var i :| 0 <= i < k - 1 && d == start + step + i * step;
          assert d == start + (i + 1) * step;
        }
      }
    }
  }

  /**
   * Checks on the `k >= 2` evenly spaced days `start, start + step, ...`:
   * the streak is `k` when the spacing is within the interval (daily habits
   * checked on consecutive days, weekly habits checked once a week), and 1
   * when every gap is larger than the interval.
   */
  lemma StreakOfProgression(checks: seq<Timestamp>, periodicity: string, start: int, step: int, k: nat)
    requires k >= 2 && step >= 1
    requires forall d :: d in DaySet(checks) <==> d in Progression(start, step, k)
    ensures StreakOf(checks, periodicity) == if step <= Interval(periodicity) then k else 1
  {
    var p := Progression(start, step, k);
    ProgressionShape(start, step, k);
    SortedUnique(DistinctDays(checks), p);
    if step <= Interval(periodicity) {
      LongestUpToUnbroken(p, Interval(periodicity), k);
    } else {
      LongestUpToAllBroken(p, Interval(periodicity), k);
    }
  }

  /**
   * Checks on exactly two distinct days: streak 2 when they are at most an
   * interval apart, 1 otherwise (the walk runs once, so never 0).
   */
  lemma StreakOfTwoDays(checks: seq<Timestamp>, periodicity: string, first: int, second: int)
    requires first < second
    requires DaySet(checks) == {first, second}
    ensures StreakOf(checks, periodicity) == if second - first <= Interval(periodicity) then 2 else 1
  {
    var days := DistinctDays(checks);
    SortedUnique(days, [first, second]);
  }
}
