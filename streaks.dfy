/**
 * The daily study streak kept per user by the review page, stated on values.
 * Days are UTC calendar dates, numbered from the epoch.
 */
module Streaks {
  import opened Common
  import opened Scheduling

  /** The two fields of a streak record: the count and the time of the last counted study. */
  datatype StreakState = StreakState(count: int, lastStudied: Option<int>)

  /** The UTC calendar date of a timestamp, as a day number (rounded down, also before the epoch). */
  function DayOf(t: int): (day: int)
    ensures day * SecondsPerDay <= t < (day + 1) * SecondsPerDay
  {
    t / SecondsPerDay
  }

  /**
   * The update made when a review is recorded at time `now`. An unset study
   * time counts as today, so it changes nothing.
   */
  function StudyDay(s: StreakState, now: int): (r: StreakState)
    // never studied: treated as studied today
    ensures s.lastStudied.None? ==> r == s
    // a second review on the same day, or a clock behind the record, changes nothing
    ensures s.lastStudied.Some? && DayOf(now) <= DayOf(s.lastStudied.value) ==> r == s
    // the next calendar day extends the streak
    ensures s.lastStudied.Some? && DayOf(now) == DayOf(s.lastStudied.value) + 1 ==>
      r == StreakState(s.count + 1, Some(now))
    // skipping a calendar day or more starts a new streak of one
    ensures s.lastStudied.Some? && DayOf(now) >= DayOf(s.lastStudied.value) + 2 ==>
      r == StreakState(1, Some(now))
  {
    var today := DayOf(now);
    var last := if s.lastStudied.Some? then DayOf(s.lastStudied.value) else today;
    if today > last then
      StreakState(if today - last == 1 then s.count + 1 else 1, Some(now))
    else
      s
  }

  /**
   * A user's streak record after a review at time `now`: a missing record is
   * created with count 0, takes the "studied today" fallback, and gets the
   * current time as its study time when it is inserted.
   */
  function AfterReview(record: Option<StreakState>, now: int): (r: StreakState)
    ensures record.None? ==> r == StreakState(0, Some(now))
    ensures record.Some? ==> r == StudyDay(record.value, now)
  {
    match record
    case None => StreakState(0, Some(now))
    case Some(s) => StudyDay(s, now)
  }

  /** Any number of reviews on one calendar day count as one. */
  lemma SameDayIdempotent(s: StreakState, t1: int, t2: int)
    requires DayOf(t1) == DayOf(t2)
    ensures StudyDay(StudyDay(s, t1), t2) == StudyDay(s, t1)
  {
  }

  /** The record after reviews at the given times, in order. */
  function StudyDays(record: Option<StreakState>, times: seq<int>): Option<StreakState>
    decreases |times|
  {
    if times == [] then record
    else StudyDays(Some(AfterReview(record, times[0])), times[1..])
  }

  /** The times fall on consecutive calendar days, the first on day `first`. */
  predicate OnConsecutiveDays(times: seq<int>, first: int)
  {
    forall i :: 0 <= i < |times| ==> DayOf(times[i]) == first + i
  }

  /**
   * Studying on each of the days after the last counted one extends the
   * streak by one per day.
   */
  lemma {:induction false} ConsecutiveDaysExtend(s: StreakState, t0: int, times: seq<int>)
    requires s.lastStudied == Some(t0)
    requires OnConsecutiveDays(times, DayOf(t0) + 1)
    ensures StudyDays(Some(s), times).Some?
    ensures StudyDays(Some(s), times).value.count == s.count + |times|
    decreases |times|
  {
    if times != [] {
      var next := AfterReview(Some(s), times[0]);
      assert next == StreakState(s.count + 1, Some(times[0]));
      assert OnConsecutiveDays(times[1..], DayOf(times[0]) + 1) by {
        forall i | 0 <= i < |times[1..]|
          ensures DayOf(times[1..][i]) == DayOf(times[0]) + 1 + i
        {
          assert times[1..][i] == times[i + 1];
        }
      }
      ConsecutiveDaysExtend(next, times[0], times[1..]);
    }
  }

  /**
   * A user with no record who studies on n consecutive days ends with a
   * streak of n - 1: the first day is not counted.
   */
  lemma FirstDayNotCounted(times: seq<int>, first: int)
    requires |times| >= 1 && OnConsecutiveDays(times, first)
    ensures StudyDays(None, times).Some?
    ensures StudyDays(None, times).value.count == |times| - 1
  {
    var s := AfterReview(None, times[0]);
    assert OnConsecutiveDays(times[1..], DayOf(times[0]) + 1) by {
      forall i | 0 <= i < |times[1..]|
        ensures DayOf(times[1..][i]) == DayOf(times[0]) + 1 + i
      {
        assert times[1..][i] == times[i + 1];
      }
    }
    ConsecutiveDaysExtend(s, times[0], times[1..]);
  }
}
