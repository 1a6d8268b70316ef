/** The schedule view: which posts fall on a given day, the badge style of a
    post status, and the month picker that chooses the displayed week. */
module ScheduleCalendar {
  import opened Text
  import opened Calendar

  /** A local calendar date; `month` is 0-based as in the browser's `Date`. */
  datatype CivilDate = CivilDate(year: int, month: int, day: int)

  /** A post's `scheduledAt` as the view sees it: missing or empty, not a
      parseable date, or the local calendar date of the timestamp. */
  datatype Schedule = Unscheduled | InvalidDate | At(date: CivilDate)

  datatype SchedulePost = SchedulePost(id: int, title: string, status: string, scheduledAt: Schedule)

  /** The post is scheduled on `date` (same year, month and day of month). */
  predicate ScheduledOn(p: SchedulePost, date: CivilDate) {
    p.scheduledAt.At? && p.scheduledAt.date == date
  }

  /** `getPostsForDate`: the posts scheduled on `date`, in list order. */
  function PostsForDate(posts: seq<SchedulePost>, date: CivilDate): (r: seq<SchedulePost>)
    ensures forall i :: 0 <= i < |r| ==> r[i] in posts && r[i].scheduledAt == At(date)
    ensures forall i :: 0 <= i < |posts| && posts[i].scheduledAt == At(date) ==> posts[i] in r
    ensures forall i :: 0 <= i < |r| ==> !r[i].scheduledAt.Unscheduled? && !r[i].scheduledAt.InvalidDate?
  {
    Filter(posts, (p: SchedulePost) => ScheduledOn(p, date))
  }

  /** The day's posts are a subsequence of the list: original order, no
      post repeated more often than it occurs. */
  lemma PostsForDateKeepsOrder(posts: seq<SchedulePost>, date: CivilDate)
    ensures IsSubsequence(PostsForDate(posts, date), posts)
  {
    FilterIsSubsequence(posts, (p: SchedulePost) => ScheduledOn(p, date));
  }

  /** Posts on different days never share a cell. */
  lemma PostsForDistinctDatesDisjoint(posts: seq<SchedulePost>, d1: CivilDate, d2: CivilDate)
    requires d1 != d2
    ensures forall i :: 0 <= i < |PostsForDate(posts, d1)| ==> PostsForDate(posts, d1)[i] !in PostsForDate(posts, d2)
  {
  }

  /** The badge of a post status. */
  datatype StatusStyle = StatusStyle(bg: string, text: string, labelText: string)

  const PublishedStyle: StatusStyle := StatusStyle("bg-[#9cff7b]", "text-[#2cb100]", "Đã đăng")
  const ScheduledStyle: StatusStyle := StatusStyle("bg-[#ff8e84]", "text-[#db1a08]", "Chưa đăng")
  const DraftStyle: StatusStyle := StatusStyle("bg-[#e5e5e5]", "text-[#1a0330]", "Bản nháp")

  /** `getStatusColor`: fixed styles for the three known statuses; any other
      status is shown grey with its own text as label. */
  function StatusColor(status: string): (st: StatusStyle)
    ensures status == "PUBLISHED" ==> st == PublishedStyle
    ensures status == "SCHEDULED" ==> st == ScheduledStyle
    ensures status == "DRAFT" ==> st == DraftStyle
    ensures status !in {"PUBLISHED", "SCHEDULED", "DRAFT"} ==>
              st == StatusStyle("bg-[#e5e5e5]", "text-[#737373]", status)
  {
    match status
    case "PUBLISHED" => PublishedStyle
    case "SCHEDULED" => ScheduledStyle
    case "DRAFT" => DraftStyle
    case _ => StatusStyle("bg-[#e5e5e5]", "text-[#737373]", status)
  }

  predicate IsKnownStatus(status: string) {
    status in {"PUBLISHED", "SCHEDULED", "DRAFT"}
  }

  /** Two known statuses, or two unknown ones, never share a label. */
  lemma StatusLabelsDistinguish(s1: string, s2: string)
    requires s1 != s2
    requires IsKnownStatus(s1) == IsKnownStatus(s2)
    ensures StatusColor(s1).labelText != StatusColor(s2).labelText
  {
  }

  /* ---------------------------------------------------------------------
     The month picker
     --------------------------------------------------------------------- */

  /** The week shown (the reference date of `getWeekDates`) and whether the
      picker is open. */
  datatype PickerState = PickerState(currentWeek: CivilDate, showMonthPicker: bool)

  /** Clicking a cell of the picker grid for month `month` of `year`: a cell
      of the shown month selects that date and closes the picker; a cell
      padding in from a neighbouring month does nothing. */
  function ClickDay(st: PickerState, year: int, month: int, cell: CalendarCell): (r: PickerState)
    ensures !cell.isCurrentMonth ==> r == st
    ensures cell.isCurrentMonth ==> r.currentWeek == CivilDate(year, month, cell.day) && !r.showMonthPicker
  {
    if cell.isCurrentMonth then PickerState(CivilDate(year, month, cell.day), false) else st
  }

  /** Every cell the picker can select is a real day of the shown month. */
  lemma ClickSelectsDayOfMonth(st: PickerState, y: int, m: int, firstDay: nat, i: int)
    requires 0 <= m < 12 && firstDay < 7
    requires 0 <= i < |CalendarDays(firstDay, DaysInMonth(y, m), PrevMonthDays(y, m))|
    ensures var cell := CalendarDays(firstDay, DaysInMonth(y, m), PrevMonthDays(y, m))[i];
            var r := ClickDay(st, y, m, cell);
            r != st ==> 1 <= r.currentWeek.day <= DaysInMonth(y, m) && r.currentWeek.month == m
  {
  }
}
