# Lookbook dashboard — a Dafny model of its record and view logic

The system is a social-media management dashboard. It has an Express/Prisma
backend and a React frontend. This project models the parts of it that carry
logic rather than layout:

- **Backend handlers** (`Backend`):
  - the tag listing;
  - post create and update;
  - lookbook create and update, including the gallery merge;
  - the weekly-task completion toggle.

  Each handler is a pure function from a record store to a reply and the next
  store. The store holds the first brand id, the post, lookbook and task rows,
  and the auto-increment counters.
- **Gallery strings** (`Gallery`): a lookbook gallery is one comma-separated
  string of URLs. Server and browser read it the same way: split on `,` and
  drop blank pieces, without trimming the kept ones.
- **The request helper** (`ApiFetch`): the `/api` path prefix and the request
  headers.
- **Calendar arithmetic** (`Calendar`): the 42-cell month grid shared by the
  editor and the schedule view, month lengths, and the Monday-start week.
- **The page components**:
  - `CreatePost`: the status columns, loading a post into the form, the
    platform checkboxes, and the date and time picker over the form's
    `scheduledAt` text.
  - `ScheduleCalendar`: the posts of a day, the status badge, and the month
    picker.
  - `LookbookPage`: the gallery viewer, the edit preview, the removal list,
    and the statistics toggle.
  - `OrdersPage`: pagination, the list query, the summary counts, and the
    token shape check.
  - `WeeklyPlan`: the optimistic toggle and the progress bar.
  - `AnalyticsChart`: the series-to-rows transposition and the line colours.
- **The shell**:
  - `Sidebar`: the menu, the highlight and the pending badge.
  - `App`: login gating, label-to-page navigation, and the rendered view.

JavaScript library behaviour is written out in `Text`:

- `split` on one character: `"".split(',')` is `[""]`.
- `join`.
- `trim`, using the ECMAScript white-space and line-terminator set.
- `filter(Boolean)`.
- `Array.from(new Set(...))`: first-occurrence order.
- `startsWith`.
- `String.prototype.includes`.
- `String(n)` for whole numbers.

Several partners cross modules:

- `LookbookPage.SavedGalleryMatchesPreview`: the edit dialog's gallery preview
  is exactly what `Backend.UpdatedLookbook` stores.
- `WeeklyPlan.OptimisticToggleMatchesServer`: the card's optimistic toggle of
  the brand's task list equals the list the weekly-plan endpoint returns after
  the server's toggle.
- `App.UnroutedMenuItems`: the menu items without a page leave the app where
  it was.

The handlers do not all check in the same order:

- `POST /api/posts` and `POST /api/lookbooks` look up the brand before
  validating the body (backend/src/index.ts:125-128). Without a brand, even
  an invalid body gets 404 "No brand".
- `PUT /api/posts/:id` validates the body first and looks the post up second
  (backend/src/index.ts:146-148).

## Model

| member | source | states |
|---|---|---|
| Common.FindBy | backend/src/index.ts:148-149 | the lookup by primary key yields a row of the table carrying that id, and is absent only when no row carries it (the 404 branch) |
| Common.FindByAt | backend/src/index.ts:77-78 | when ids are distinct, looking up a row's id returns exactly that row |
| Backend.ColumnValue | backend/src/index.ts:129-140 | on create, a missing or null optional field leaves the column null; a string is stored as sent |
| Backend.UpdatedColumn | backend/src/index.ts:150-160 | on update, a field that is not sent keeps the column's value, `null` clears it, a string replaces it |
| Backend.UniqueTags | backend/src/index.ts:119-120 | the listed tags are pairwise distinct and none is empty |
| Backend.UniqueTagsAreTrimmed | backend/src/index.ts:119 | every listed tag is already trimmed |
| Backend.UniqueTagsPerPost | backend/src/index.ts:118-120 | joining all tag strings with commas and splitting again gives the same tags as splitting each post's string on its own; the listing is their de-duplication in first-occurrence order |
| Backend.UniqueTagsMembership | backend/src/index.ts:119-120 | a tag is listed exactly when it is non-empty and some post has a comma piece that trims to it |
| Backend.ListTags | backend/src/index.ts:115-122 | with no brand the reply is 404 "No brand"; otherwise 200 with the unique tags of that brand's posts only |
| Backend.CreatePost | backend/src/index.ts:124-142 | the brand check comes first (404), then a missing or empty title or content gives 400 and no write. A null status is rejected by the store and the request goes unanswered. Otherwise the reply is 201: the row takes the next id and the brand's id, tags, media and platforms take their `ColumnValue` (null unless a string is sent), status defaults to DRAFT only when it is not sent, a falsy schedule is stored as null, and only the post table grows |
| Backend.UpdatedPost | backend/src/index.ts:150-161 | id and brand are kept; the status is kept unless a non-empty one is sent; the schedule is cleared unless a non-empty one is sent; title and content are replaced by the body's; tags, media and platforms each follow `UpdatedColumn` (unsent keeps, null clears, a string replaces) |
| Backend.UpdatePost | backend/src/index.ts:144-163 | validation (400) comes before the lookup (404 "Post not found"); a success replaces the row with the updated post and answers 200 |
| Backend.UpdatePostOnlyTouchesItsRow | backend/src/index.ts:150-151 | an update changes only the row with the requested id |
| Backend.CreatePostPreservesValid | backend/src/index.ts:129-140 | creating a post keeps primary keys unique and below the auto-increment counter |
| Backend.UpdatePostPreservesValid | backend/src/index.ts:150-161 | updating a post keeps primary keys unique |
| Backend.UploadUrl | backend/src/index.ts:195-197 | an uploaded file's URL is the fixed upload prefix followed by the stored name; it is a gallery entry, and it is comma-free when the name is |
| Backend.NewGalleryEntries | backend/src/index.ts:201-203 | the comma-joined URLs of comma-free uploads read back as exactly those URLs |
| Backend.CreateLookbook | backend/src/index.ts:183-217 | 404 without a brand, then 400 "Name is required" for a missing or empty name. Otherwise 201 with the next id and the brand's id; empty description and link become null. Image, banner and gallery are set exactly when files were uploaded, each to its upload URL; with comma-free file names the gallery reads back as exactly the uploaded URLs. Only the lookbook table and its id counter change |
| Backend.CreateLookbookPreservesValid | backend/src/index.ts:205-215 | creating a lookbook keeps primary keys unique and below the counter |
| Backend.RemoveListed | backend/src/index.ts:241-252 | an absent or unparseable removal list leaves the gallery string as it was. A parsed array or string removes exactly the listed entries and keeps the order of the rest. A parsed null, number or object throws at `includes` once there is a current image, and the catch keeps the gallery as it was. With no current image, any parsed value leaves the empty string |
| Backend.AppendUploads | backend/src/index.ts:254-260 | the entries are the existing ones followed by the uploaded ones; no uploads leave the string unchanged, and any upload makes it non-empty |
| Backend.UpdatedLookbook | backend/src/index.ts:228-271 | an empty name falls back to the stored one; a whitespace-only name is stored as sent. Description and link change only when sent. Image and banner keep their URLs unless a file is uploaded. The stored gallery's entries are those left by the removal step followed by the uploaded URLs; an empty gallery is stored as null, and any upload leaves one stored |
| Backend.UpdateLookbook | backend/src/index.ts:219-274 | an unknown id gives 404 "Lookbook not found" and no change; otherwise the row is replaced by the updated lookbook |
| Backend.UpdateLookbookPreservesValid | backend/src/index.ts:262-272 | updating a lookbook keeps primary keys unique |
| Backend.GalleryMergeWithRemovalList | backend/src/index.ts:238-260 | with a removal array, the stored entries are the survivors followed by the new upload URLs. Survivors keep their relative order and none of them is listed |
| Backend.GalleryKeptWithoutRemovalList | backend/src/index.ts:241-252 | a removal list that is not sent or is not valid JSON, with no uploads, keeps the stored gallery (an empty one becomes null) |
| Backend.WeeklyPlanList | backend/src/index.ts:68-73 | without a brand the reply is 404 "No brand"; otherwise it is 200 with exactly the first brand's tasks, in store order |
| Backend.ToggleTask | backend/src/index.ts:75-85 | an unknown id gives 404 "Task not found" and no change; otherwise `completed` is flipped and the flipped row is returned |
| Backend.ToggleTaskEffect | backend/src/index.ts:80-83 | the toggle flips the matching task and leaves every other row as it was |
| Backend.ToggleTaskTwice | backend/src/index.ts:80-83 | with distinct task ids, toggling the same task twice restores the store |
| Backend.ToggleTaskPreservesValid | backend/src/index.ts:80-83 | the toggle keeps primary keys unique |
| Gallery.Entries | backend/src/index.ts:245 | gallery entries are the comma pieces that are not blank; each is non-blank and comma-free |
| Gallery.EntriesOfJoin | backend/src/index.ts:246-248 | joining non-blank comma-free URLs with commas and reading them back gives the same list |
| Gallery.EntriesAppend | backend/src/index.ts:257-259 | appending `,` and a second gallery string appends its entries |
| Text.SplitPiecesHaveNoSeparator | backend/src/index.ts:119 | no piece of a split contains the separator |
| Text.SplitJoin | backend/src/index.ts:119 | splitting a join of separator-free pieces gives back those pieces |
| Text.SplitCount | frontend/src/components/Orders.tsx:28-29 | the number of pieces is one more than the number of separators |
| Text.Trim | backend/src/index.ts:119 | the result is the slice that starts right after the leading white space. Everything cut after it is white space, and neither end of the result is white space |
| Text.TrimIdempotent | backend/src/index.ts:119 | trimming twice is trimming once |
| Text.Dedupe | backend/src/index.ts:120 | the result holds exactly the input's elements, each once |
| Text.DedupeKeepsFirstOccurrenceOrder | backend/src/index.ts:120 | elements appear in the order of their first occurrence in the input |
| Text.NatToStringValue | frontend/src/components/Orders.tsx:87-90 | the decimal text of a number reads back as that number |
| ApiFetch.NormalizePath | frontend/src/utils/api.ts:17 | the requested path always starts with `/api`. A path that already does is unchanged; any other gets exactly one slash between `/api` and itself |
| ApiFetch.NormalizePathIdempotent | frontend/src/utils/api.ts:17 | normalising a normalised path changes nothing |
| ApiFetch.NormalizePathLeadingSlash | frontend/src/utils/api.ts:17 | `x` and `/x` reach the same endpoint `/api/x` |
| ApiFetch.RequestUrl | frontend/src/utils/api.ts:19 | the URL is exactly the configured base followed by the normalised path, so it starts with the base and continues with `/api` |
| ApiFetch.AuthorizationValue | frontend/src/utils/api.ts:5-8 | a stored non-empty token gives `Bearer <token>`; no token or an empty one gives the empty string |
| ApiFetch.BuildHeaders | frontend/src/utils/api.ts:6-14 | the caller's headers are kept. Authorization is always set, overriding the caller's. Content-Type is set to JSON exactly when the body is not form data |
| Calendar.DaysInMonth | frontend/src/components/ScheduleCalendar.tsx:114-116 | a month has 28 to 31 days; February has 29 exactly in leap years |
| Calendar.PrevMonthDays | frontend/src/components/ScheduleCalendar.tsx:130 | the month before January is the previous December, with 31 days |
| Calendar.CalendarDays | frontend/src/components/ScheduleCalendar.tsx:122-147 | the grid is the previous month's last `firstDay` days, then days 1 to n of the month, then next-month days up to 42 cells. Only the middle segment is flagged as the current month |
| Calendar.GenerateCalendarDays | frontend/src/components/CreatePost.tsx:90-112 | the three pushing loops build exactly that grid |
| Calendar.MonthGridHas42Cells | frontend/src/components/ScheduleCalendar.tsx:141-144 | for every real month the grid has exactly 42 cells |
| Calendar.LeadingCellsEndAtPreviousMonthEnd | frontend/src/components/ScheduleCalendar.tsx:130-133 | the leading cells end on the previous month's last day |
| Calendar.WeekDates | frontend/src/components/ScheduleCalendar.tsx:58-69 | the week is seven consecutive days starting on a Monday and contains the reference day; a Sunday belongs to the week that began six days earlier |
| Calendar.WeekDatesStable | frontend/src/components/ScheduleCalendar.tsx:58-69 | every day of a week yields that same week |
| ScheduleCalendar.PostsForDate | frontend/src/components/ScheduleCalendar.tsx:73-83 | a day's posts are exactly the posts scheduled on that date; unscheduled and unparseable ones never appear |
| ScheduleCalendar.PostsForDateKeepsOrder | frontend/src/components/ScheduleCalendar.tsx:74 | a day's posts keep the list order |
| ScheduleCalendar.PostsForDistinctDatesDisjoint | frontend/src/components/ScheduleCalendar.tsx:77-81 | no post is shown on two different days |
| ScheduleCalendar.StatusColor | frontend/src/components/ScheduleCalendar.tsx:85-96 | the three known statuses get fixed badges; any other status gets the grey badge labelled with its own text |
| ScheduleCalendar.StatusLabelsDistinguish | frontend/src/components/ScheduleCalendar.tsx:85-96 | two different known statuses, or two different unknown ones, never share a label |
| ScheduleCalendar.ClickDay | frontend/src/components/ScheduleCalendar.tsx:234-243 | clicking a current-month cell selects that date and closes the picker; other cells do nothing |
| ScheduleCalendar.ClickSelectsDayOfMonth | frontend/src/components/ScheduleCalendar.tsx:235-242 | any selectable cell is a real day of the shown month |
| CreatePost.ColumnPosts | frontend/src/components/CreatePost.tsx:389 | a column shows exactly the posts with its status, in list order, each as often as it occurs in the list |
| CreatePost.ColumnsPartitionPosts | frontend/src/components/CreatePost.tsx:11-15 | a post is in the column of its status and in no other; an unknown status is in none |
| CreatePost.ParsePlatforms | frontend/src/components/CreatePost.tsx:142 | a null platform string gives no selection. Otherwise the result is a subsequence of the comma pieces whose multiset is theirs with every empty piece removed: exactly the non-empty pieces, in order, duplicates kept |
| CreatePost.PlatformsRoundTrip | frontend/src/components/CreatePost.tsx:142 | non-empty comma-free names stored as a comma string parse back to the same list |
| CreatePost.ChoicesRoundTrip | frontend/src/components/CreatePost.tsx:52 | any selection made from the offered platforms survives being stored and reloaded |
| CreatePost.TogglePlatform | frontend/src/components/CreatePost.tsx:510-517 | checking appends the platform. Unchecking removes every occurrence and keeps the rest in order, each as often as it occurred (multiset with the platform's count set to 0). The form field is the comma join |
| CreatePost.CheckThenUncheck | frontend/src/components/CreatePost.tsx:510-512 | unchecking a platform just checked restores the selection |
| CreatePost.SelectPost | frontend/src/components/CreatePost.tsx:132-144 | null content, tags and platforms show as empty. `scheduledAt` is the stored value's first 16 characters, or empty when there is none. Checked platforms are parsed from the post. Media is kept as stored, and empty media becomes none |
| CreatePost.ParseScheduledDate | frontend/src/components/CreatePost.tsx:126-130 | an empty field gives empty date and time. The date is the text before the first `T`. After a `T`, the time is the first five characters of the next `T`-piece, or `00:00` when that piece is empty. Without a `T` it is `00:00` |
| CreatePost.ScheduledDateRoundTrip | frontend/src/components/CreatePost.tsx:126-130 | a value written as `<date>T<hh:mm>:00` parses back to that date and time |
| CreatePost.SlicedScheduledDateRoundTrip | frontend/src/components/CreatePost.tsx:139 | a stored value cut to `<date>T<hh:mm>` parses back to that date and time |
| CreatePost.PickDay | frontend/src/components/CreatePost.tsx:598-606 | for a current-month cell (the caller checks `isCurrentMonth`), the field becomes `<date>T<time>:00`, where time is the one parsed from the field (`00:00` when the field is empty) |
| CreatePost.PickTime | frontend/src/components/CreatePost.tsx:644-649 | the field becomes `<date>T<time>:00`, where date is the one parsed from the field, or today's when that is empty |
| CreatePost.PickDayKeepsTime | frontend/src/components/CreatePost.tsx:598-606 | choosing a day changes the date and keeps the time already set (`00:00` when none) |
| CreatePost.PickTimeKeepsDate | frontend/src/components/CreatePost.tsx:644-649 | choosing an hour changes the time and keeps the date already set, or uses today's when none |
| LookbookPage.GalleryImages | frontend/src/components/Lookbook.tsx:143-148 | no images when no lookbook is selected (including id 0), the id is unknown, or the gallery is null; otherwise the gallery entries |
| LookbookPage.EditGalleryImages | frontend/src/components/Lookbook.tsx:150-156 | the preview never shows a URL marked for removal. It keeps every unmarked stored entry, in stored order, as many times as it is stored |
| LookbookPage.RemoveGalleryImage | frontend/src/components/Lookbook.tsx:158-163 | marking appends the URL to the removal list and changes no other field |
| LookbookPage.RemoveHidesImage | frontend/src/components/Lookbook.tsx:150-163 | once marked, an image leaves the preview; every other previewed image stays |
| LookbookPage.RemovalSent | frontend/src/components/Lookbook.tsx:180 | `JSON.stringify` of the removal list reaches the server as an array of exactly those URLs, in order |
| LookbookPage.SavedGalleryMatchesPreview | frontend/src/components/Lookbook.tsx:180 | the removal list, sent as a JSON array, makes the server store exactly the previewed entries |
| LookbookPage.OpenEditModal | frontend/src/components/Lookbook.tsx:129-141 | the dialog copies the name, shows null description and link as empty, and starts with no files and no removals |
| LookbookPage.OpenEditShowsWholeGallery | frontend/src/components/Lookbook.tsx:129-156 | right after opening, the preview is the whole stored gallery |
| LookbookPage.ToggleStats | frontend/src/components/Lookbook.tsx:120-122 | only the given card's flag flips, with a missing flag read as false; other keys are unchanged |
| LookbookPage.ToggleStatsTwice | frontend/src/components/Lookbook.tsx:120-122 | toggling a card twice shows every card as before |
| OrdersPage.TotalPages | frontend/src/components/Orders.tsx:145 | there is at least one page. For a positive total it is the least number of pages of ten that hold the total |
| OrdersPage.PrevPage | frontend/src/components/Orders.tsx:263 | the previous button never goes below page 1 |
| OrdersPage.NextPage | frontend/src/components/Orders.tsx:270 | the next button never goes beyond the last page |
| OrdersPage.EnabledButtonsStayInRange | frontend/src/components/Orders.tsx:262-271 | a button is disabled exactly when clicking it would not move; an enabled one moves one page within range |
| OrdersPage.ListParams | frontend/src/components/Orders.tsx:87-92 | page and size are always sent. The status is sent only when the filter is not "all"; the search only when its trimmed text is non-empty, and then trimmed |
| OrdersPage.ListParamsRoundTrip | frontend/src/components/Orders.tsx:87-90 | the server reads back the page and size that were sent |
| OrdersPage.SetFilters | frontend/src/components/Orders.tsx:76-78 | changing the search or the status filter returns to page 1 |
| OrdersPage.SummaryCounts | frontend/src/components/Orders.tsx:129-134 | each of the four cards takes the count of its own key (`all`, completed, processing, pending), 0 when the results lack it |
| OrdersPage.CountFor | frontend/src/components/Orders.tsx:129-134 | a count missing from the results is 0; otherwise it is the first result's total |
| OrdersPage.SummaryCountsInRequestOrder | frontend/src/components/Orders.tsx:114-134 | with the four answers in request order, each card shows its own request's total |
| OrdersPage.TokenPayload | frontend/src/components/Orders.tsx:25-29 | no stored token, an empty one, or a token without exactly two dots has no payload |
| OrdersPage.EmailFromToken | frontend/src/components/Orders.tsx:25-36 | the email is read only from the payload of a three-part token |
| OrdersPage.TokenPayloadOfThreeParts | frontend/src/components/Orders.tsx:28-31 | a token built from three dot-free parts yields its middle part |
| WeeklyPlan.HandleToggle | frontend/src/components/WeeklyPlan.tsx:35-36 | the matching tasks have `completed` flipped; length, order and all other fields are kept |
| WeeklyPlan.HandleToggleTwice | frontend/src/components/WeeklyPlan.tsx:36 | toggling the same id twice restores the list |
| WeeklyPlan.OptimisticToggleMatchesServer | frontend/src/components/WeeklyPlan.tsx:22-41 | the card's optimistic update of the brand's task list equals the list the weekly-plan endpoint returns after the PATCH |
| WeeklyPlan.CompletedCount | frontend/src/components/WeeklyPlan.tsx:44 | the count is at most the number of tasks; it equals it exactly when all are complete, and is 0 exactly when none are |
| WeeklyPlan.Progress | frontend/src/components/WeeklyPlan.tsx:45 | progress is between 0 and 100, is 0 for an empty list, and is the integer nearest the completed percentage, halves rounded up |
| WeeklyPlan.ProgressEnds | frontend/src/components/WeeklyPlan.tsx:44-45 | a fully completed plan shows 100 and a plan with nothing completed shows 0 |
| WeeklyPlan.ProgressMonotone | frontend/src/components/WeeklyPlan.tsx:44-45 | completing a task never lowers the progress |
| AnalyticsChart.SeriesKeys | frontend/src/components/charts/AnalyticsChart.tsx:22 | the series are all response keys except `metric` and `timeRange`, in key order |
| AnalyticsChart.BaseOf | frontend/src/components/charts/AnalyticsChart.tsx:23-24 | the base key is the first series key with `all` and the named key otherwise. `all` without series, or a missing property, gives no rows. Rows come only from an array under the base key, and the map throws exactly for a truthy non-array there |
| AnalyticsChart.BaseOfFirstEntry | frontend/src/components/charts/AnalyticsChart.tsx:22-24 | by position: the first entry carrying the base key decides the base. An array is the base, a falsy value gives no rows, and a truthy non-array throws |
| AnalyticsChart.GetFirstEntry | frontend/src/components/charts/AnalyticsChart.tsx:24 | a property read yields the value of the first entry with that key |
| AnalyticsChart.Cell | frontend/src/components/charts/AnalyticsChart.tsx:29 | a cell is the series' value at that index, or null past its end |
| AnalyticsChart.ToChartData | frontend/src/components/charts/AnalyticsChart.tsx:21-34 | there is one row per base point, labelled by it, with one cell per series key: that series' value at the same index or null. In the model, the call fails exactly when the base is a truthy non-array; the other failures are listed under Left out |
| AnalyticsChart.ColumnsRecoverSeries | frontend/src/components/charts/AnalyticsChart.tsx:25-31 | reading a column back gives the series' values, padded with nulls where the series is shorter than the base |
| AnalyticsChart.AllUsesFirstSeries | frontend/src/components/charts/AnalyticsChart.tsx:23 | with `all`, the row labels are the first series' labels |
| AnalyticsChart.LineColor | frontend/src/components/charts/AnalyticsChart.tsx:13-19 | facebook `#1877F2`, instagram `#E1306C`, threads `#000000`, tiktok `#EE1D52`, youtube `#FF0000`; any other key gets the fallback `#0ea5e9` |
| AnalyticsChart.PlatformColorsDistinct | frontend/src/components/charts/AnalyticsChart.tsx:13-19 | a platform's line colour differs from every other key's, the fallback included |
| AnalyticsChart.Lines | frontend/src/components/charts/AnalyticsChart.tsx:39-53 | one line is drawn per series key, in order, with its colour |
| AnalyticsChart.RowsMatchLines | frontend/src/components/charts/AnalyticsChart.tsx:26-31 | every row carries exactly one cell per drawn line |
| Sidebar.MenuLabelsDistinct | frontend/src/components/Sidebar.tsx:12-21 | the eight menu labels are pairwise distinct |
| Sidebar.WithDefaults | frontend/src/components/Sidebar.tsx:29 | the active label defaults to the overview item and the pending count to 0 |
| Sidebar.Highlighted | frontend/src/components/Sidebar.tsx:42 | an item is highlighted exactly when its label is the active one |
| Sidebar.AtMostOneHighlighted | frontend/src/components/Sidebar.tsx:12-42 | at most one item is highlighted, and one is exactly when the active label is a menu label |
| Sidebar.Badge | frontend/src/components/Sidebar.tsx:51-53 | only the orders item gets a badge, and only for a positive count. Above 99 it shows `99+`; otherwise the count in decimal |
| Sidebar.NoBadgeByDefault | frontend/src/components/Sidebar.tsx:29 | with default props no item has a badge |
| Sidebar.Click | frontend/src/components/Sidebar.tsx:40 | clicking an item reports its own label, which no other item carries |
| App.InitialState | frontend/src/App.tsx:13-14 | the app starts on the overview page, logged in exactly when a non-empty token is stored |
| App.HandleLogin | frontend/src/App.tsx:16 | logging in sets the flag and keeps the page |
| App.PageFor | frontend/src/App.tsx:18-32 | each of the five labels maps to its own page, and no other label maps to any |
| App.Navigate | frontend/src/App.tsx:17-33 | a known label opens its page; any other label changes nothing |
| App.NavigateToEveryPage | frontend/src/App.tsx:17-33 | every page is reached from any state by its own menu label |
| App.UnroutedMenuItems | frontend/src/App.tsx:17-33 | the statistics, orders and settings items leave the app unchanged |
| App.Render | frontend/src/App.tsx:35-41 | the login view is shown exactly when logged out |
| App.RenderDistinguishesPages | frontend/src/App.tsx:37-41 | once logged in, two states show the same view exactly when they are on the same page |
| App.LoginRevealsPage | frontend/src/App.tsx:16-41 | after logging in, the view is the page that was open, never the login view |

## Left out

- Persistence, authentication middleware, multer's disk storage and the
  Express plumbing. Handlers take the store and the parsed body as
  parameters. The upload URL assumes the default port 4000, because
  `process.env.PORT` is configuration.
- Backend.CreatePost: the body's fields are strings, missing or null. Other
  JSON types and Prisma's type validation are not modelled. The schedule is
  stored as the text sent, not as a parsed `Date`. The unanswered request
  for a null status rests on two assumptions that are not part of this model:
  the Prisma schema declares `status` non-nullable, and Express 4 leaves a
  rejected async handler without a reply (Express 5 would answer 500).
- Backend.UpdatePost: a write the store rejects (a `scheduledAt` that does
  not parse as a date, a field of another JSON type) is not modelled. Concurrent requests between lookup and
  update are not modelled.
- Backend.RemoveListed: JSON parsing is an input. The parsed value is given
  as a `Json` datatype, and failure as `Unparseable`.
- Backend.UpdatedLookbook: a multipart field sent empty is the empty string,
  not a missing field.
- The remaining endpoints are not part of this model: login, the dashboard
  summary, channels, the post list, the lookbook list, single-lookbook fetch,
  lookbook deletion, and the upload endpoint. Their handlers have no logic
  beyond a query or a file store.
- Backend.WeeklyPlanList: the query has no `orderBy`. The model returns the
  rows in the order the store holds them, and the database's own row order is
  not modelled.
- The orders page requests an `/orders` endpoint that backend/src/index.ts
  does not define. Its reply is a parameter of the orders model.
- ScheduleCalendar.PostsForDate: parsing a timestamp into a local calendar
  date is an input (`Schedule`). Time zones and the `Date` parser are not
  modelled.
- Calendar.WeekDates: dates are day numbers. `Date.setDate` overflow into
  other months is covered by day-number arithmetic, not by the civil
  calendar.
- WeeklyPlan.Progress: the source rounds a floating-point product. The model
  rounds the exact rational, so binary rounding artefacts at exact halves are
  not modelled.
- OrdersPage.TotalPages: totals are whole numbers. A fractional or missing
  `total` from the server is not modelled.
- OrdersPage.ListParams: the parameters are key/value pairs before
  URL-encoding. Percent-encoding is not modelled.
- OrdersPage.EmailFromToken: base64 and JSON decoding of the payload are a
  parameter.
- The debounce timer, the abort controller, loading and error flags, and
  fetch failures in all components: they are asynchronous I/O.
- AnalyticsChart.ToChartData: non-array property values are reduced to their
  truthiness. Object key ordering (integer-like keys first) is taken as
  given. A colour lookup through an inherited property name such as
  `constructor` is not modelled. Series keys are assumed not to be `label`:
  the source would overwrite the row's label with that series' value. Base
  points are assumed to be objects: a null point makes the source throw when
  it reads the label. A base name that is an inherited property such as
  `constructor` makes the source throw; the model finds no base and returns
  no rows.
- AnalyticsChart.LineColor: a key such as `toString` reads an inherited
  function from the colour table. The model gives every non-platform key the
  fallback colour.
- The status labels and colours of the orders table, the per-platform
  percentages on lookbook cards, and all markup and styling are presentation
  without logic.
