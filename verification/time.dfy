/** Instants are integer milliseconds since the epoch, as in a JavaScript Date.
    Hours are whole UTC hours; a local zone whose offset is not a whole hour
    is outside the model. */
module Time {

  const HourMs: int := 3_600_000

  /** How long before its date an appointment may still be cancelled. */
  const CancelLeadHours: int := 2

  /** startOfHour: drop minutes, seconds and milliseconds.  Dafny's `%` is
      Euclidean, so instants before the epoch round down as well. */
  function FloorHour(t: int): (h: int)
    ensures h % HourMs == 0
    ensures h <= t < h + HourMs
  {
    t - t % HourMs
  }

  /** subHours */
  function SubHours(t: int, hours: int): int
  {
    t - hours * HourMs
  }

  /** isBefore: strictly earlier.  Equal instants are not "before". */
  predicate IsBefore(a: int, b: int)
  {
    a < b
  }

  /** The whole hour containing `t` is the only hour boundary `h` with `h <= t < h + 1h`. */
  lemma FloorHourUnique(t: int, h: int)
    requires h % HourMs == 0 && h <= t < h + HourMs
    ensures h == FloorHour(t)
  {
  }


  /** Two instants in the same hour floor to the same value. */
  lemma FloorHourSameHour(a: int, b: int)
    requires FloorHour(a) <= b < FloorHour(a) + HourMs
    ensures FloorHour(b) == FloorHour(a)
  {
  }
}
