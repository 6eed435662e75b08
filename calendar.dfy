/**
 * The month grid of the activity calendar (`CalendarSection`).
 *
 * The clock is an input: `firstDay` is the weekday of the first of the month
 * (0 = Sunday, as `getDay` returns it), `daysInMonth` its length and
 * `monthStart` the day key of its first day, so day `d` of the month has the
 * key `monthStart + d - 1` (the "YYYY-MM-DD" string the component builds).
 */
module CalendarSection {
  import opened Records

  /** A cell of the grid: a day of the month, or a blank (`day: null`). */
  datatype CalendarDay = CalendarDay(day: Option<nat>, active: bool)

  const Blank: CalendarDay := CalendarDay(None, false)

  /** The cell at position `p` of the grid read row by row. */
  ghost function CellAt(firstDay: nat, daysInMonth: nat, monthStart: int, activity: seq<ActivityEntry>, p: int): CalendarDay
  {
    if firstDay <= p < firstDay + daysInMonth then
      CalendarDay(Some(p - firstDay + 1), monthStart + p - firstDay in DaySet(activity))
    else Blank
  }

  /**
   * The weeks of the month, seven cells each: `firstDay` blanks, the days
   * `1..daysInMonth` in order, each marked active when some activity entry
   * falls on it, then blanks up to the end of the last week, and no row that
   * is all blanks.
   */
  method BuildCalendar(firstDay: nat, daysInMonth: nat, monthStart: int, activity: seq<ActivityEntry>)
    returns (weeks: seq<seq<CalendarDay>>)
    requires firstDay < 7
    ensures forall r :: 0 <= r < |weeks| ==> |weeks[r]| == 7
    ensures firstDay + daysInMonth <= 7 * |weeks| < firstDay + daysInMonth + 7
    ensures forall r, c :: 0 <= r < |weeks| && 0 <= c < 7 && 7 * r + c < firstDay ==> weeks[r][c] == Blank
    ensures forall r, c :: 0 <= r < |weeks| && 0 <= c < 7 && firstDay <= 7 * r + c < firstDay + daysInMonth ==>
      weeks[r][c] == CalendarDay(Some(7 * r + c - firstDay + 1), monthStart + 7 * r + c - firstDay in DaySet(activity))
    ensures forall r, c :: 0 <= r < |weeks| && 0 <= c < 7 && firstDay + daysInMonth <= 7 * r + c ==> weeks[r][c] == Blank
  {
    var activityDays := DaySet(activity);
    weeks := [];
    var week: seq<CalendarDay> := [];
    for i := 0 to firstDay
      invariant |week| == i
      invariant forall c :: 0 <= c < |week| ==> week[c] == Blank
    {
      week := week + [Blank];
    }
    for day := 1 to daysInMonth + 1
      invariant |week| < 7
      invariant 7 * |weeks| + |week| == firstDay + day - 1
      invariant forall r :: 0 <= r < |weeks| ==> |weeks[r]| == 7
      invariant forall r, c :: 0 <= r < |weeks| && 0 <= c < 7 ==>
        weeks[r][c] == CellAt(firstDay, daysInMonth, monthStart, activity, 7 * r + c)
      invariant forall c :: 0 <= c < |week| ==>
        week[c] == CellAt(firstDay, daysInMonth, monthStart, activity, 7 * |weeks| + c)
    {
      week := week + [CalendarDay(Some(day), monthStart + day - 1 in activityDays)];
      if |week| == 7 {
        weeks := weeks + [week];
        week := [];
      }
    }
    if |week| > 0 {
      while |week| < 7
        invariant |week| <= 7
        invariant forall c :: 0 <= c < |week| ==>
          week[c] == CellAt(firstDay, daysInMonth, monthStart, activity, 7 * |weeks| + c)
      {
        week := week + [Blank];
      }
      weeks := weeks + [week];
    }
  }
}
