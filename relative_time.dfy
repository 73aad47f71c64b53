/**
 * The relative age of a news item, as the two React components that show
 * one compute it: the elapsed milliseconds `now - new Date(published)` are
 * floored to minutes, hours and days, and the first bucket that applies is
 * shown. The clock and the date parser are not modelled: the elapsed time
 * is given, and `None` stands for an unparseable date, whose elapsed time
 * is NaN (every comparison with NaN is false, so it falls through to the
 * last bucket).
 */
module RelativeTime {
  import opened Wrappers

  const MsPerMinute: int := 60000
  const MsPerHour: int := 3600000
  const MsPerDay: int := 86400000

  /** The bucket an elapsed time falls in. */
  datatype Age =
    | JustNow
    | MinutesAgo(mins: nat)
    | HoursAgo(hours: nat)
    | OneDay
    | DaysAgo(days: nat)
    /** An invalid date: `${NaN}` days. */
    | NaNDays

  /**
   * Under a minute (a date in the future included) is "just now", then
   * whole minutes below an hour, whole hours below a day, exactly one whole
   * day, and whole days. Math.floor of a division by a positive constant is
   * Dafny's integer division.
   */
  function AgeOf(elapsed: Option<int>): (age: Age)
    ensures elapsed.None? <==> age == NaNDays
    ensures elapsed.Some? ==> (age == JustNow <==> elapsed.value < MsPerMinute)
    ensures elapsed.Some? && age.MinutesAgo? ==>
      1 <= age.mins < 60 && age.mins == elapsed.value / MsPerMinute
    ensures elapsed.Some? && age.HoursAgo? ==>
      1 <= age.hours < 24 && age.hours == elapsed.value / MsPerHour
    ensures elapsed.Some? ==> (age == OneDay <==> MsPerDay <= elapsed.value < 2 * MsPerDay)
    ensures elapsed.Some? && age.DaysAgo? ==> age.days >= 2 && age.days == elapsed.value / MsPerDay
  {
    match elapsed
    case None => NaNDays
    case Some(ms) =>
      var diffMins := ms / MsPerMinute;
      var diffHours := ms / MsPerHour;
      var diffDays := ms / MsPerDay;
      if diffMins < 1 then JustNow
      else if diffMins < 60 then MinutesAgo(diffMins)
      else if diffHours < 24 then HoursAgo(diffHours)
      else if diffDays == 1 then OneDay
      else DaysAgo(diffDays)
  }

  /** The whole hours are the whole minutes divided by 60, and the whole days the whole hours divided by 24. */
  lemma NestedFloors(ms: int)
    ensures ms / MsPerHour == (ms / MsPerMinute) / 60
    ensures ms / MsPerDay == (ms / MsPerHour) / 24
  {
    var m := ms / MsPerMinute;
    var h := m / 60;
    assert ms == MsPerMinute * m + ms % MsPerMinute;
    assert m == 60 * h + m % 60;
    assert ms == MsPerHour * h + (MsPerMinute * (m % 60) + ms % MsPerMinute);
    var d := h / 24;
    assert h == 24 * d + h % 24;
    assert ms == MsPerDay * d + (MsPerHour * (h % 24) + MsPerMinute * (m % 60) + ms % MsPerMinute);
  }
}
