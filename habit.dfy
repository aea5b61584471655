/**
 * A habit: its identity, its periodicity and the ordered list of the
 * timestamps at which it was checked, with the streak computation and the
 * dictionary form used to rebuild a habit from stored rows.
 */
module HabitModel {
  import opened Wrappers
  import opened Timestamps
  import opened Streaks

  /** An entry of the `check_dates` list of a dictionary: either ISO text or an already parsed timestamp. */
  datatype DateValue = Text(iso: IsoText) | Value(timestamp: Timestamp)

  /** The dictionary form of a habit; `checkDates` is `None` when the key is absent. */
  datatype HabitDict = HabitDict(
    name: string,
    description: string,
    periodicity: string,
    createdAt: IsoText,
    checkDates: Option<seq<DateValue>>)

  /** Reads one `check_dates` entry: text is parsed, a timestamp is taken as it is. */
  function ParseDate(v: DateValue): Timestamp {
    match v
    case Text(s) => FromIsoFormat(s)
    case Value(t) => t
  }

  function ParseDates(vs: seq<DateValue>): (ts: seq<Timestamp>)
    ensures |ts| == |vs|
  {
    if vs == [] then [] else [ParseDate(vs[0])] + ParseDates(vs[1..])
  }

  function FormatDates(ts: seq<Timestamp>): (vs: seq<DateValue>)
    ensures |vs| == |ts|
    ensures forall i :: 0 <= i < |ts| ==> vs[i] == Text(IsoFormat(ts[i]))
  {
    if ts == [] then [] else [Text(IsoFormat(ts[0]))] + FormatDates(ts[1..])
  }

  /** Wraps already parsed timestamps as dictionary entries. */
  function AsValues(ts: seq<Timestamp>): (vs: seq<DateValue>)
    ensures |vs| == |ts|
  {
    if ts == [] then [] else [Value(ts[0])] + AsValues(ts[1..])
  }

  /** Reading back the ISO texts of a list of timestamps gives the same list, element by element. */
  lemma {:induction false} ParseFormatDates(ts: seq<Timestamp>)
    ensures ParseDates(FormatDates(ts)) == ts
  {
    if ts != [] {
      ParseFormatDates(ts[1..]);
      assert ts == [ts[0]] + ts[1..];
    }
  }

  /** Parsing entries that are already timestamps keeps them as they are. */
  lemma {:induction false} ParseValues(ts: seq<Timestamp>)
    ensures ParseDates(AsValues(ts)) == ts
  {
    if ts != [] {
      ParseValues(ts[1..]);
      assert ts == [ts[0]] + ts[1..];
    }
  }

  class Habit {
    var name: string
    var description: string
    var periodicity: string
    var createdAt: Timestamp
    var checkDates: seq<Timestamp>

    /** A new habit created at `now`, with no checks. */
    constructor (name: string, description: string, periodicity: string, now: Timestamp)
      ensures this.name == name && this.description == description && this.periodicity == periodicity
      ensures createdAt == now && checkDates == []
    {
      this.name := name;
      this.description := description;
      this.periodicity := periodicity;
      createdAt := now;
      checkDates := [];
    }

    /** Records a check at `date`, or at `now` when no date is given; nothing else about the habit changes. */
    method Check(date: Option<Timestamp>, now: Timestamp)
      modifies this`checkDates
      ensures checkDates == old(checkDates) + [date.GetOr(now)]
      ensures |checkDates| == old(|checkDates|) + 1
    {
      checkDates := checkDates + [date.GetOr(now)];
    }

    /**
     * The longest run of distinct check days whose gaps stay within the
     * periodicity's interval; 0 with fewer than two distinct days.
     */
    method ComputeStreak() returns (streak: nat)
      ensures streak == StreakOf(checkDates, periodicity)
    {
      var sortedDates := DistinctDays(checkDates);
      if |sortedDates| == 0 {
        return 0;
      }
      var longestStreak := 0;
      var currentStreak := 1;
      var interval := Interval(periodicity);
      for i := 1 to |sortedDates|
        invariant currentStreak == RunAt(sortedDates, interval, i - 1)
        invariant longestStreak == LongestUpTo(sortedDates, interval, i)
        invariant 1 <= currentStreak <= i && longestStreak <= i
        invariant i >= 2 ==> currentStreak <= longestStreak
      {
        if sortedDates[i] - sortedDates[i - 1] <= interval {
          currentStreak := currentStreak + 1;
        } else {
          currentStreak := 1;
        }
        longestStreak := Max(longestStreak, currentStreak);
      }
      return longestStreak;
    }

    /** The dictionary form: the fields as they are, every timestamp as ISO text, the checks in order. */
    function ToDict(): (d: HabitDict)
      reads this
      ensures d.name == name && d.description == description && d.periodicity == periodicity
      ensures FromIsoFormat(d.createdAt) == createdAt
      ensures d.checkDates.Some? && |d.checkDates.value| == |checkDates|
      ensures forall i :: 0 <= i < |checkDates| ==> d.checkDates.value[i] == Text(IsoFormat(checkDates[i]))
    {
      HabitDict(name, description, periodicity, IsoFormat(createdAt), Some(FormatDates(checkDates)))
    }

    /** Rebuilds a habit from its dictionary form; a missing `check_dates` key means no checks. */
    static method FromDict(data: HabitDict) returns (habit: Habit)
      ensures fresh(habit)
      ensures habit.name == data.name && habit.description == data.description
      ensures habit.periodicity == data.periodicity
      ensures habit.createdAt == FromIsoFormat(data.createdAt)
      ensures habit.checkDates == ParseDates(data.checkDates.GetOr([]))
    {
      habit := new Habit(data.name, data.description, data.periodicity, FromIsoFormat(data.createdAt));
      habit.checkDates := ParseDates(data.checkDates.GetOr([]));
    }
  }

  /** Rebuilding a habit from its dictionary form recovers every field and every check, in order. */
  lemma ToDictRoundTrip(habit: Habit)
    ensures habit.ToDict().name == habit.name
    ensures habit.ToDict().description == habit.description
    ensures habit.ToDict().periodicity == habit.periodicity
    ensures FromIsoFormat(habit.ToDict().createdAt) == habit.createdAt
    ensures ParseDates(habit.ToDict().checkDates.GetOr([])) == habit.checkDates
  {
    ParseFormatDates(habit.checkDates);
  }

  /** `Habit.from_dict(habit.to_dict())`: a new habit equal to the old one field by field. */
  method CopyThroughDict(habit: Habit) returns (copy: Habit)
    ensures fresh(copy)
    ensures copy.name == habit.name && copy.description == habit.description
    ensures copy.periodicity == habit.periodicity && copy.createdAt == habit.createdAt
    ensures copy.checkDates == habit.checkDates
  {
    ToDictRoundTrip(habit);
    copy := Habit.FromDict(habit.ToDict());
  }
}
