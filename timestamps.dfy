/**
 * Points in time as the habit tracker uses them.
 *
 * A `datetime` is modelled as a calendar day ordinal (what `date.toordinal()`
 * gives) together with the time within that day, so that taking `d.date()`
 * is just reading the first component.  Subtracting `timedelta(days=i)` moves
 * the day ordinal by `i` and keeps the time of day.
 *
 * The ISO 8601 text written by `isoformat` and read back by `fromisoformat`
 * is modelled as a record mirroring the timestamp's two fields: the grammar
 * of the text is not modelled, every text reads back, and the two
 * conversions are inverse to each other.
 */
module Timestamps {

  datatype Timestamp = Timestamp(day: int, timeOfDay: nat)

  /** The calendar day of a timestamp (`datetime.date()`). */
  function Date(t: Timestamp): int {
    t.day
  }

  /** The stored text form of a timestamp. */
  datatype IsoText = IsoText(dayField: int, timeField: nat)

  /** `datetime.fromisoformat`. */
  function FromIsoFormat(s: IsoText): Timestamp {
    Timestamp(s.dayField, s.timeField)
  }

  /** `datetime.isoformat`: its text reads back as the same timestamp, so distinct timestamps get distinct texts. */
  function IsoFormat(t: Timestamp): (s: IsoText)
    ensures FromIsoFormat(s) == t
  {
    IsoText(t.day, t.timeOfDay)
  }

  /** `fromisoformat` is the inverse of `isoformat`: every stored text is the text of the timestamp it reads back as. */
  lemma IsoTextReadsBack(s: IsoText)
    ensures IsoFormat(FromIsoFormat(s)) == s
  {
  }
}
