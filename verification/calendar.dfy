/** Calendar arithmetic shared by the post editor's date picker and the
    schedule view: the 42-cell month grid and the Monday-start week. Dates are
    abstracted away from the browser's `Date`: the grid is parameterised by
    the weekday of the 1st (`firstDay`, 0 = Sunday), the length of the month
    and the length of the previous month; a week is computed on day numbers
    (days since 1970-01-01, a Thursday). */
module Calendar {

  /** One cell of the month grid. */
  datatype CalendarCell = CalendarCell(day: int, isCurrentMonth: bool)

  /** The grid always shows six weeks of seven days. */
  const GridCells: nat := 42

  /* ---------------------------------------------------------------------
     Month lengths (`new Date(y, m + 1, 0).getDate()`, months 0-based)
     --------------------------------------------------------------------- */

  predicate IsLeapYear(y: int) {
    y % 4 == 0 && (y % 100 != 0 || y % 400 == 0)
  }

  /** Days in month `m` (0 = January) of year `y`. */
  function DaysInMonth(y: int, m: int): (n: nat)
    requires 0 <= m < 12
    ensures 28 <= n <= 31
    ensures n == 29 <==> m == 1 && IsLeapYear(y)
    ensures n == 28 <==> m == 1 && !IsLeapYear(y)
  {
    if m == 1 then (if IsLeapYear(y) then 29 else 28)
    else if m == 3 || m == 5 || m == 8 || m == 10 then 30
    else 31
  }

  /** Days in the month before month `m`; January's predecessor is the
      previous year's December (the `Date` constructor rolls month -1 over). */
  function PrevMonthDays(y: int, m: int): (n: nat)
    requires 0 <= m < 12
    ensures 28 <= n <= 31
    ensures m == 0 ==> n == 31
  {
    if m == 0 then DaysInMonth(y - 1, 11) else DaysInMonth(y, m - 1)
  }

  /* ---------------------------------------------------------------------
     The 42-cell month grid
     --------------------------------------------------------------------- */

  /** The tail of the previous month that fills the first row. */
  function LeadingCells(firstDay: nat, prevMonthDays: int): (cells: seq<CalendarCell>)
    ensures |cells| == firstDay
    ensures forall i :: 0 <= i < firstDay ==>
              cells[i] == CalendarCell(prevMonthDays - firstDay + 1 + i, false)
  {
    seq(firstDay, i => CalendarCell(prevMonthDays - firstDay + 1 + i, false))
  }

  /** Days 1..daysInMonth of the shown month. */
  function MonthCells(daysInMonth: nat): (cells: seq<CalendarCell>)
    ensures |cells| == daysInMonth
    ensures forall i :: 0 <= i < daysInMonth ==> cells[i] == CalendarCell(i + 1, true)
  {
    seq(daysInMonth, i => CalendarCell(i + 1, true))
  }

  /** Days 1..count of the next month. */
  function TrailingCells(count: nat): (cells: seq<CalendarCell>)
    ensures |cells| == count
    ensures forall i :: 0 <= i < count ==> cells[i] == CalendarCell(i + 1, false)
  {
    seq(count, i => CalendarCell(i + 1, false))
  }

  /** How many next-month days pad the grid to 42 cells (none if the first
      two parts already fill it). */
  function TrailingCount(firstDay: nat, daysInMonth: nat): nat {
    if firstDay + daysInMonth < GridCells then GridCells - firstDay - daysInMonth else 0
  }

  /** The grid: previous-month tail, the month itself, next-month head.
      Only the month's own cells are flagged, and they are 1..daysInMonth in order. */
  function CalendarDays(firstDay: nat, daysInMonth: nat, prevMonthDays: int): (grid: seq<CalendarCell>)
    ensures |grid| == if firstDay + daysInMonth < GridCells then GridCells else firstDay + daysInMonth
    ensures forall i :: 0 <= i < firstDay ==>
              grid[i] == CalendarCell(prevMonthDays - firstDay + 1 + i, false)
    ensures forall i :: firstDay <= i < firstDay + daysInMonth ==>
              grid[i] == CalendarCell(i - firstDay + 1, true)
    ensures forall i :: firstDay + daysInMonth <= i < |grid| ==>
              grid[i] == CalendarCell(i - firstDay - daysInMonth + 1, false)
    ensures forall i :: 0 <= i < |grid| ==>
              (grid[i].isCurrentMonth <==> firstDay <= i < firstDay + daysInMonth)
  {
    LeadingCells(firstDay, prevMonthDays) + MonthCells(daysInMonth)
      + TrailingCells(TrailingCount(firstDay, daysInMonth))
  }

  /** `generateCalendarDays` as written: three loops pushing cells. */
  method GenerateCalendarDays(firstDay: nat, daysInMonth: nat, prevMonthDays: int)
    returns (days: seq<CalendarCell>)
    ensures days == CalendarDays(firstDay, daysInMonth, prevMonthDays)
  {
    days := [];
    var i: int := firstDay - 1;
    while i >= 0
      invariant -1 <= i <= firstDay - 1
      invariant days == LeadingCells(firstDay, prevMonthDays)[..firstDay - 1 - i]
    {
      days := days + [CalendarCell(prevMonthDays - i, false)];
      i := i - 1;
    }
    assert days == LeadingCells(firstDay, prevMonthDays);

    var d := 1;
    while d <= daysInMonth
      invariant 1 <= d <= daysInMonth + 1
      invariant days == LeadingCells(firstDay, prevMonthDays) + MonthCells(daysInMonth)[..d - 1]
    {
      days := days + [CalendarCell(d, true)];
      d := d + 1;
    }
    assert MonthCells(daysInMonth)[..daysInMonth] == MonthCells(daysInMonth);

    var remainingDays := GridCells - |days|;
    assert remainingDays <= 0 ==> TrailingCount(firstDay, daysInMonth) == 0;
    assert remainingDays > 0 ==> TrailingCount(firstDay, daysInMonth) == remainingDays;
    var k := 1;
    while k <= remainingDays
      invariant 1 <= k <= TrailingCount(firstDay, daysInMonth) + 1
      invariant days == LeadingCells(firstDay, prevMonthDays) + MonthCells(daysInMonth)
                        + TrailingCells(TrailingCount(firstDay, daysInMonth))[..k - 1]
    {
      days := days + [CalendarCell(k, false)];
      k := k + 1;
    }
    assert TrailingCells(TrailingCount(firstDay, daysInMonth))[..k - 1]
        == TrailingCells(TrailingCount(firstDay, daysInMonth));
  }

  /** Every real month fits: the grid has exactly 42 cells. */
  lemma MonthGridHas42Cells(y: int, m: int, firstDay: nat)
    requires 0 <= m < 12 && firstDay < 7
    ensures |CalendarDays(firstDay, DaysInMonth(y, m), PrevMonthDays(y, m))| == GridCells
    ensures TrailingCount(firstDay, DaysInMonth(y, m)) == GridCells - firstDay - DaysInMonth(y, m)
  {
  }

  /** The leading cells are the last `firstDay` days of the previous month, so
      the last of them is that month's final day. */
  lemma LeadingCellsEndAtPreviousMonthEnd(firstDay: nat, daysInMonth: nat, prevMonthDays: int)
    requires firstDay > 0
    ensures CalendarDays(firstDay, daysInMonth, prevMonthDays)[firstDay - 1] == CalendarCell(prevMonthDays, false)
    ensures CalendarDays(firstDay, daysInMonth, prevMonthDays)[0] == CalendarCell(prevMonthDays - firstDay + 1, false)
  {
  }

  /* ---------------------------------------------------------------------
     The Monday-start week (`getWeekDates`)
     --------------------------------------------------------------------- */

  /** `Date.prototype.getDay` of a day number: 0 = Sunday … 6 = Saturday. */
  function Weekday(day: int): (w: nat)
    ensures w < 7
  {
    (day + 4) % 7
  }

  /** The Monday of the week containing `day`; a Sunday belongs to the week
      that began six days earlier. */
  function WeekStart(day: int): int {
    var w := Weekday(day);
    day - w + (if w == 0 then -6 else 1)
  }

  /** The seven consecutive days Monday..Sunday of the week of `day`. */
  function WeekDates(day: int): (week: seq<int>)
    ensures |week| == 7
    ensures forall i :: 0 <= i < 7 ==> week[i] == week[0] + i
    ensures Weekday(week[0]) == 1
    ensures day in week
    ensures Weekday(day) == 0 ==> week[0] == day - 6
  {
    var start := WeekStart(day);
    var week := seq(7, i => start + i);
    assert week[(day - start) as nat] == day;
    week
  }

  /** Every day of a week maps back to the same week. */
  lemma WeekDatesStable(day: int, i: int)
    requires 0 <= i < 7
    ensures WeekDates(WeekDates(day)[i]) == WeekDates(day)
  {
    var start := WeekStart(day);
    WeekdayAfterMonday(start, i);
    assert WeekStart(start + i) == start;
  }

  /** The `i`-th day after a Monday has weekday `i + 1`, wrapping to Sunday. */
  lemma WeekdayAfterMonday(monday: int, i: int)
    requires Weekday(monday) == 1 && 0 <= i < 7
    ensures Weekday(monday + i) == (i + 1) % 7
  {
    var q := (monday + 4) / 7;
    assert monday + 4 == 7 * q + 1;
    assert monday + i + 4 == 7 * q + (i + 1);
    if i < 6 {
      assert (monday + i + 4) % 7 == i + 1;
    } else {
      assert monday + i + 4 == 7 * (q + 1);
    }
  }
}
