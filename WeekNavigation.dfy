/** The week navigation buttons of src/components/Timesheets/WeekNavigation.tsx:
    each hands the parent a copy of the current date shifted by seven days.
    Dates are values here, so the current date is never changed. */
module WeekNavigation {
  import opened TimesheetData

  /** Seven days later lands on the same weekday. */
  lemma {:induction false} WeekdayPeriodic(d: int)
    ensures DayOfWeek(d + 7) == DayOfWeek(d)
  {
    var q := (d + 4) / 7;
    assert d + 4 == 7 * q + DayOfWeek(d);
    assert d + 7 + 4 == 7 * (q + 1) + DayOfWeek(d);
  }

  /** handlePreviousWeek: the date handed to `onWeekChange`. */
  function PreviousWeek(currentWeek: int): (prevWeek: int)
    ensures currentWeek - prevWeek == 7
    ensures DayOfWeek(prevWeek) == DayOfWeek(currentWeek)
  {
    WeekdayPeriodic(currentWeek - 7);
    currentWeek - 7
  }

  /** handleNextWeek: the date handed to `onWeekChange`. */
  function NextWeek(currentWeek: int): (nextWeek: int)
    ensures nextWeek - currentWeek == 7
    ensures DayOfWeek(nextWeek) == DayOfWeek(currentWeek)
  {
    WeekdayPeriodic(currentWeek);
    currentWeek + 7
  }

  /** Going back after going forward, or forward after going back, returns
      to the original date. */
  lemma NavigationRoundTrip(d: int)
    ensures PreviousWeek(NextWeek(d)) == d
    ensures NextWeek(PreviousWeek(d)) == d
  {
  }

  /** A Wednesday shifted either way is still a Wednesday, so the parent's
      getWeekStart leaves the shifted date as it is. */
  lemma NavigationKeepsWeekStart(d: int)
    requires DayOfWeek(d) == Wednesday
    ensures GetWeekStart(PreviousWeek(d)) == PreviousWeek(d)
    ensures GetWeekStart(NextWeek(d)) == NextWeek(d)
  {
    GetWeekStartOnWednesday(PreviousWeek(d));
    GetWeekStartOnWednesday(NextWeek(d));
  }

  /** Shifting any date by a week shifts its window by a week. */
  lemma NavigationShiftsWindow(d: int)
    ensures GetWeekStart(NextWeek(d)) == NextWeek(GetWeekStart(d))
    ensures GetWeekStart(PreviousWeek(d)) == PreviousWeek(GetWeekStart(d))
  {
    GetWeekStartIsWednesday(d);
    var ws := GetWeekStart(d);
    GetWeekStartUnique(NextWeek(d), NextWeek(ws));
    GetWeekStartUnique(PreviousWeek(d), PreviousWeek(ws));
  }
}
