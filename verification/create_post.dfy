/** The post editor: the board columns, loading a post into the form, the
    platform checkboxes, and reading the date and time back out of the
    form's `scheduledAt` text. Its month grid is the one in `Calendar`. */
module CreatePost {
  import opened Common
  import opened Text

  /** A post as the editor receives it. */
  datatype EditorPost = EditorPost(
    id: int,
    title: string,
    status: string,
    tags: Option<string>,
    content: Option<string>,
    media: Option<string>,
    platforms: Option<string>,
    scheduledAt: Option<string>)

  /* ---------------------------------------------------------------------
     Board columns
     --------------------------------------------------------------------- */

  datatype Column = Column(title: string, status: string)

  const Columns: seq<Column> := [
    Column("Nháp", "DRAFT"),
    Column("Lên lịch", "SCHEDULED"),
    Column("Đã đăng", "PUBLISHED")
  ]

  /** The posts shown in column `c`: those whose status is the column's. */
  function ColumnPosts(posts: seq<EditorPost>, c: nat): (r: seq<EditorPost>)
    requires c < |Columns|
    ensures forall i :: 0 <= i < |r| ==> r[i] in posts && r[i].status == Columns[c].status
    ensures forall i :: 0 <= i < |posts| && posts[i].status == Columns[c].status ==> posts[i] in r
    ensures IsSubsequence(r, posts)
    ensures forall p :: multiset(r)[p] == if p.status == Columns[c].status then multiset(posts)[p] else 0
  {
    FilterIsSubsequence(posts, (p: EditorPost) => p.status == Columns[c].status);
    FilterCounts(posts, (p: EditorPost) => p.status == Columns[c].status);
    Filter(posts, (p: EditorPost) => p.status == Columns[c].status)
  }

  /** The columns partition the posts by status: a post is in exactly the
      column carrying its status, and in none when its status is unknown. */
  lemma ColumnsPartitionPosts(posts: seq<EditorPost>, i: nat)
    requires i < |posts|
    ensures forall c :: 0 <= c < |Columns| ==>
              (posts[i] in ColumnPosts(posts, c) <==> posts[i].status == Columns[c].status)
    ensures forall c, d :: 0 <= c < d < |Columns| ==>
              !(posts[i] in ColumnPosts(posts, c) && posts[i] in ColumnPosts(posts, d))
    ensures posts[i].status !in {"DRAFT", "SCHEDULED", "PUBLISHED"} ==>
              forall c :: 0 <= c < |Columns| ==> posts[i] !in ColumnPosts(posts, c)
  {
    forall c | 0 <= c < |Columns|
      ensures posts[i] in ColumnPosts(posts, c) <==> posts[i].status == Columns[c].status
    {
      var r := ColumnPosts(posts, c);
      if posts[i] in r {
        var k :| 0 <= k < |r| && r[k] == posts[i];
      }
    }
  }

  /* ---------------------------------------------------------------------
     Platforms
     --------------------------------------------------------------------- */

  /** The platforms offered as checkboxes. */
  const PlatformChoices: seq<string> := ["Facebook", "TikTok", "Instagram", "Threads", "X", "LinkedIn", "YouTube"]

  /** `post.platforms?.split(',').filter(Boolean) || []`. */
  function ParsePlatforms(platforms: Option<string>): (r: seq<string>)
    ensures platforms.None? ==> r == []
    ensures forall i :: 0 <= i < |r| ==> r[i] != "" && ',' !in r[i]
    ensures platforms.Some? ==> IsSubsequence(r, Split(platforms.value, ','))
    ensures platforms.Some? ==> multiset(r) == multiset(Split(platforms.value, ','))["" := 0]
  {
    match platforms
    case None => []
    case Some(s) =>
      FilterIsSubsequence(Split(s, ','), NonEmpty);
      FilterDropsValue(Split(s, ','), NonEmpty, "");
      SplitPiecesHaveNoSeparator(s, ',');
      Filter(Split(s, ','), NonEmpty)
  }

  /** Storing a list of non-empty, comma-free names as a comma string and
      parsing it back gives the list. */
  lemma {:induction false} PlatformsRoundTrip(names: seq<string>)
    requires forall i :: 0 <= i < |names| ==> names[i] != "" && ',' !in names[i]
    ensures ParsePlatforms(Some(Join(names, ','))) == names
  {
    if |names| == 0 {
      assert Split("", ',') == [""];
    } else {
      SplitJoin(names, ',');
      FilterKeepsAll(names, NonEmpty);
    }
  }

  /** The checkbox change handler: checking appends the platform, unchecking
      removes every occurrence; the form field becomes the comma join. */
  function TogglePlatform(selected: seq<string>, platform: string, checked: bool): (r: (seq<string>, string))
    ensures checked ==> r.0 == selected + [platform]
    ensures !checked ==> platform !in r.0 && IsSubsequence(r.0, selected)
    ensures !checked ==> forall i :: 0 <= i < |selected| && selected[i] != platform ==> selected[i] in r.0
    ensures !checked ==> multiset(r.0) == multiset(selected)[platform := 0]
    ensures r.1 == Join(r.0, ',')
  {
    var next := if checked then selected + [platform]
                else Filter(selected, (p: string) => p != platform);
    FilterIsSubsequence(selected, (p: string) => p != platform);
    FilterDropsValue(selected, (p: string) => p != platform, platform);
    (next, Join(next, ','))
  }

  /** Unchecking a platform that was just checked restores the selection. */
  lemma CheckThenUncheck(selected: seq<string>, platform: string)
    requires platform !in selected
    ensures TogglePlatform(TogglePlatform(selected, platform, true).0, platform, false).0 == selected
  {
    var test := (p: string) => p != platform;
    FilterAppend(selected, [platform], test);
    FilterKeepsAll(selected, test);
  }

  /** Every offered platform name is non-empty and comma-free. */
  lemma ChoicesAreNames()
    ensures forall k :: 0 <= k < |PlatformChoices| ==> PlatformChoices[k] != "" && ',' !in PlatformChoices[k]
  {
    forall k | 0 <= k < |PlatformChoices|
      ensures PlatformChoices[k] != "" && ',' !in PlatformChoices[k]
    {
      var name := PlatformChoices[k];
      assert name == "Facebook" || name == "TikTok" || name == "Instagram" || name == "Threads"
          || name == "X" || name == "LinkedIn" || name == "YouTube";
    }
  }

  /** A selection built from the offered checkboxes survives the trip through
      the stored comma string. */
  lemma ChoicesRoundTrip(selected: seq<string>)
    requires forall i :: 0 <= i < |selected| ==> selected[i] in PlatformChoices
    ensures ParsePlatforms(Some(Join(selected, ','))) == selected
  {
    ChoicesAreNames();
    forall i | 0 <= i < |selected|
      ensures selected[i] != "" && ',' !in selected[i]
    {
      assert selected[i] in PlatformChoices;
    }
    PlatformsRoundTrip(selected);
  }

  /* ---------------------------------------------------------------------
     Loading a post into the form
     --------------------------------------------------------------------- */

  datatype EditorForm = EditorForm(
    title: string, content: string, tags: string, status: string, scheduledAt: string, platforms: string)

  /** What `selectPost` sets: the form, the checked platforms and the media. */
  datatype Selection = Selection(form: EditorForm, selectedPlatforms: seq<string>, media: Option<string>)

  function SelectPost(post: EditorPost): (sel: Selection)
    ensures sel.form.title == post.title && sel.form.status == post.status
    ensures sel.form.content == post.content.GetOr("")
    ensures sel.form.platforms == post.platforms.GetOr("")
    ensures |sel.form.scheduledAt| <= 16
    ensures post.scheduledAt.Some? ==> StartsWith(post.scheduledAt.value, sel.form.scheduledAt)
    ensures sel.form.scheduledAt == match post.scheduledAt
              case Some(s) => s[..if |s| < 16 then |s| else 16]
              case None => ""
    ensures sel.form.tags == post.tags.GetOr("")
    ensures sel.media.Some? ==> sel.media == post.media
    ensures sel.selectedPlatforms == ParsePlatforms(post.platforms)
    ensures sel.media.None? <==> post.media.None? || post.media.value == ""
  {
    var scheduled := match post.scheduledAt
      case Some(s) => if s != "" then s[..if |s| < 16 then |s| else 16] else ""
      case None => "";
    Selection(
      EditorForm(post.title, post.content.GetOr(""), post.tags.GetOr(""), post.status, scheduled,
                 post.platforms.GetOr("")),
      ParsePlatforms(post.platforms),
      if post.media.Some? && post.media.value != "" then post.media else None)
  }

  /* ---------------------------------------------------------------------
     parseScheduledDate
     --------------------------------------------------------------------- */

  const DefaultTime: string := "00:00"

  /** The form's `scheduledAt` text split into date and time: nothing for an
      empty field; otherwise the date is the text before the first `T` and
      the time the first five characters of the next `T`-piece, or `00:00`
      when there is none or it is empty. */
  function ParseScheduledDate(scheduledAt: string): (r: (string, string))
    ensures scheduledAt == "" ==> r == ("", "")
    ensures scheduledAt != "" ==>
              && StartsWith(scheduledAt, r.0)
              && 'T' !in r.0
              && (|r.0| < |scheduledAt| ==> scheduledAt[|r.0|] == 'T')
    ensures scheduledAt != "" && 'T' !in scheduledAt ==> r == (scheduledAt, DefaultTime)
    ensures |r.1| <= 5 && 'T' !in r.1
    ensures scheduledAt != "" ==> r.1 != ""
    ensures 'T' in scheduledAt ==>
              && |Split(scheduledAt, 'T')| > 1
              && var p := Split(scheduledAt, 'T')[1];
                 r.1 == if p == "" then DefaultTime else p[..if |p| < 5 then |p| else 5]
  {
    if scheduledAt == "" then ("", "")
    else
      var parts := Split(scheduledAt, 'T');
      SplitFirstPiece(scheduledAt, 'T');
      SplitSinglePiece(scheduledAt, 'T');
      SplitPiecesHaveNoSeparator(scheduledAt, 'T');
      SplitAtPresentSeparator(scheduledAt, 'T');
      var time := if |parts| > 1 then parts[1][..if |parts[1]| < 5 then |parts[1]| else 5] else "";
      (parts[0], if time == "" then DefaultTime else time)
  }

  /** The picker writes `<date>T<hh:mm>:00`; parsing it gives the date and
      time back. */
  lemma ScheduledDateRoundTrip(date: string, time: string)
    requires date != "" && 'T' !in date
    requires |time| == 5 && 'T' !in time
    ensures ParseScheduledDate(date + "T" + time + ":00") == (date, time)
  {
    var rest := time + ":00";
    assert 'T' !in rest;
    assert rest[..5] == time;
    assert date + "T" + time + ":00" == date + "T" + rest;
    SplitPair(date, rest);
  }

  /** A stored value cut to 16 characters, `<date>T<hh:mm>`, parses the same way. */
  lemma SlicedScheduledDateRoundTrip(date: string, time: string)
    requires date != "" && 'T' !in date
    requires |time| == 5 && 'T' !in time
    ensures ParseScheduledDate(date + "T" + time) == (date, time)
  {
    assert time[..5] == time;
    SplitPair(date, time);
  }

  lemma SplitPair(a: string, b: string)
    requires 'T' !in a && 'T' !in b
    ensures Split(a + "T" + b, 'T') == [a, b]
  {
    SplitAppend(a, b, 'T');
    SplitNoSeparator(a, 'T');
    SplitNoSeparator(b, 'T');
    assert a + "T" + b == a + ['T'] + b;
  }

  /** Clicking a day of the picker: the chosen date with the current time
      (`00:00` when none is set) and zero seconds. */
  function PickDay(scheduledAt: string, date: string): (r: string)
    ensures StartsWith(r, date)
    ensures scheduledAt != "" ==> r == date + "T" + ParseScheduledDate(scheduledAt).1 + ":00"
    ensures scheduledAt == "" ==> r == date + "T" + DefaultTime + ":00"
  {
    var time := ParseScheduledDate(scheduledAt).1;
    var r := date + "T" + (if time == "" then DefaultTime else time) + ":00";
    assert r[..|date|] == date;
    r
  }

  /** Clicking an hour slot: the current date (or `today` when none is set)
      with the chosen time and zero seconds. */
  function PickTime(scheduledAt: string, time: string, today: string): (r: string)
    ensures ParseScheduledDate(scheduledAt).0 == "" ==> r == today + "T" + time + ":00"
    ensures scheduledAt == "" ==> StartsWith(r, today)
    ensures ParseScheduledDate(scheduledAt).0 != "" ==>
              r == ParseScheduledDate(scheduledAt).0 + "T" + time + ":00"
  {
    var date := ParseScheduledDate(scheduledAt).0;
    (if date == "" then today else date) + "T" + time + ":00"
  }

  /** Picking a day changes the date and keeps the time that was set. */
  lemma PickDayKeepsTime(scheduledAt: string, date: string)
    requires date != "" && 'T' !in date
    requires scheduledAt == "" || |ParseScheduledDate(scheduledAt).1| == 5
    ensures ParseScheduledDate(PickDay(scheduledAt, date)) ==
              (date, if scheduledAt == "" then DefaultTime else ParseScheduledDate(scheduledAt).1)
  {
    var time := ParseScheduledDate(scheduledAt).1;
    ScheduledDateRoundTrip(date, if time == "" then DefaultTime else time);
  }

  /** Picking a time changes the time and keeps the date that was set, or
      takes `today` when the date part is empty. */
  lemma PickTimeKeepsDate(scheduledAt: string, time: string, today: string)
    requires |time| == 5 && 'T' !in time
    requires today != "" && 'T' !in today
    ensures ParseScheduledDate(PickTime(scheduledAt, time, today)) ==
              (if ParseScheduledDate(scheduledAt).0 == "" then today else ParseScheduledDate(scheduledAt).0, time)
  {
    var date := ParseScheduledDate(scheduledAt).0;
    ScheduledDateRoundTrip(if date == "" then today else date, time);
  }
}
