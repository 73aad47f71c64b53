/**
 * The dates of the forecast rows: pd.bdate_range(last_date + 1 day,
 * periods=horizon), the first `horizon` weekdays after the last observed
 * date. Dates are day numbers counted from 1970-01-01, a Thursday; holidays
 * are not business-day exceptions in bdate_range's default calendar.
 */
module Calendar {

  /** Day of the week, 0 = Monday ... 6 = Sunday. */
  function Weekday(day: int): (w: int)
    ensures 0 <= w < 7
  {
    (day + 3) % 7
  }

  predicate IsBusinessDay(day: int) {
    Weekday(day) < 5
  }

  /** The first business day on or after `day`. */
  function NextBusinessDay(day: int): (r: int)
    ensures day <= r <= day + 2
    ensures IsBusinessDay(r)
    ensures forall e :: day <= e < r ==> !IsBusinessDay(e)
  {
    if Weekday(day) == 5 then day + 2
    else if Weekday(day) == 6 then day + 1
    else day
  }

  /**
   * The first n business days on or after `start`, in order: every one is a
   * weekday, they increase, and every weekday from `start` up to the last of
   * them is among them.
   */
  function BusinessDays(start: int, n: nat): (days: seq<int>)
    ensures |days| == n
    ensures forall i :: 0 <= i < n ==> IsBusinessDay(days[i]) && start <= days[i]
    ensures forall i, j :: 0 <= i < j < n ==> days[i] < days[j]
    decreases n
  {
    if n == 0 then []
    else
      var first := NextBusinessDay(start);
      [first] + BusinessDays(first + 1, n - 1)
  }

  /** No weekday is skipped: every weekday from `start` up to the last date is one of the dates. */
  lemma {:induction false} BusinessDaysComplete(start: int, n: nat, e: int)
    requires n > 0
    requires start <= e <= BusinessDays(start, n)[n - 1] && IsBusinessDay(e)
    ensures e in BusinessDays(start, n)
    decreases n
  {
    var days := BusinessDays(start, n);
    var first := NextBusinessDay(start);
    assert days[0] == first;
    if e != first {
      assert e > first;
      var rest := BusinessDays(first + 1, n - 1);
      assert days == [first] + rest;
      BusinessDaysComplete(first + 1, n - 1, e);
    }
  }

  /** The forecast dates after the last observed day. */
  function FutureDates(lastDay: int, horizon: nat): (dates: seq<int>)
    ensures |dates| == horizon
    ensures forall i :: 0 <= i < horizon ==> lastDay < dates[i]
  {
    BusinessDays(lastDay + 1, horizon)
  }

  /** Consecutive forecast dates are at most three days apart (Friday to Monday). */
  lemma {:induction false} BusinessDaysGap(start: int, n: nat)
    ensures forall i, j :: 0 <= i && j == i + 1 && j < n ==> BusinessDays(start, n)[j] - BusinessDays(start, n)[i] <= 3
    decreases n
  {
    if n > 1 {
      var first := NextBusinessDay(start);
      BusinessDaysGap(first + 1, n - 1);
      var days := BusinessDays(start, n);
      var rest := BusinessDays(first + 1, n - 1);
      assert days == [first] + rest;
      assert rest[0] <= first + 3 by {
        assert rest[0] == NextBusinessDay(first + 1);
      }
      forall i, j | 0 <= i && j == i + 1 && j < n
        ensures days[j] - days[i] <= 3
      {
        if i > 0 {
          assert days[i] == rest[i - 1] && days[j] == rest[j - 1];
        }
      }
    }
  }

  /** 1970-01-02 was a Friday: the two business days after it are Monday 5th and Tuesday 6th. */
  lemma WeekendSkippedExample()
    ensures FutureDates(1, 2) == [4, 5]
  {
    assert Weekday(2) == 5 && Weekday(4) == 0 && Weekday(5) == 1;
    assert NextBusinessDay(2) == 4 && NextBusinessDay(5) == 5;
    var tail := BusinessDays(5, 1);
    assert tail == [5] + BusinessDays(6, 0);
    assert BusinessDays(2, 2) == [4] + tail;
  }
}
