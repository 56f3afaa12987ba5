# Community Track Aid: a verified model of the report logic

Community Track Aid is a civic issue-reporting web frontend. Citizens file
reports about local problems: a title, a description, a category, a location
and photos. They follow each report's status (submitted, acknowledged,
in progress, resolved) on a dashboard and comment on it. Administrators edit
a report's status, priority and department, add notes, and look at analytics
charts.

This project models the logic under the React rendering, in Dafny:

- `Reports` (reports.dfy): the report record and its closed status and priority vocabularies.
- `CitizenDashboard` (dashboard.dfy): the tab filter and the tab counters, and the selected tab as page state.
- `AdminAnalytics` (analytics.dfy): the roll-up. It counts reports by status, category, department and priority, and gives a whole-percent resolution rate.
- `AnalyticsChart` (charts.dfy): the chart data, the pie colours, the label and legend round trip, the sorted breakdown lists with their badges, and the Quick Stats card.
- `Comments` (comments.dfy): the comments hook. Comments are the report's `public_notes` list. Adding one is a read, append and write on a small backend class that logs every request it gets.
- `AdminIssueDetail` (issue_detail.dfy): the issue editor. It seeds its state from the report, has setters for the selects, and `handleAddNote` clears only the submitted draft.
- `ReportIssue` (report_issue.dfy): the report form. It has the required-field check, the simulated report id, photo append and location detection.
- `ReportsHook` (reports_hook.dfy): the reports hook. It covers the insert payload, the login requirement, and the upload path and public URL of each photo.
- `LocationUtils` and `AdminActions` (location.dfy, admin_actions.dfy): how a location is shown, and the address lookup around a reverse geocoder.
- `ShortId` (short_id.dfy): the display id of a report, and the random six-character code.
- `MediaViewer` (media_viewer.dfy): the media carousel. It guesses each item's kind and wraps next/previous navigation.

`Text`, `Seqs` and `Wrappers` model the JavaScript string and array built-ins
that the code relies on:

- `trim` with the full JavaScript whitespace set;
- `padStart`, `replace` of a first occurrence, `split(...).pop()` and `split(...)[0]`;
- `toFixed` as round-half-up on exact reals;
- `Array.prototype.filter` and a descending sort.

Backend answers, the clock and random numbers are parameters. The reports,
categories and departments lists are parameters too.

JavaScript semantics that the model writes out:

- A number is falsy when it is 0, so a coordinate of 0 counts as missing.
- `%` keeps the sign of the dividend.
- `Math.round` of a rate is exact rational rounding, with halves rounded up.
- `${undefined}` prints as "undefined".

## Model

| member | source | states |
|---|---|---|
| CitizenDashboard.FilteredReports | src/pages/CitizenDashboard.tsx:16-27 | the shown list is an order-preserving subsequence of the reports, holding exactly the reports the selected tab keeps |
| CitizenDashboard.GetStatusCounts | src/pages/CitizenDashboard.tsx:29-35 | total is the number of reports; the three status counters together never exceed it; all submitted gives submitted = total; none resolved gives resolved = 0 |
| CitizenDashboard.NamedTabsFilterByStatus | src/pages/CitizenDashboard.tsx:18-23 | "submitted" shows exactly the submitted reports; "progress" shows acknowledged or in-progress; "resolved" shows resolved |
| CitizenDashboard.OtherTabsShowAll | src/pages/CitizenDashboard.tsx:24-25 | any tab the switch does not name, "all" included, shows the whole list unchanged |
| CitizenDashboard.CountsMatchTabs | src/pages/CitizenDashboard.tsx:29-35 | each tab counter equals the length of the list that tab shows |
| CitizenDashboard.StatusTabsPartition | src/pages/CitizenDashboard.tsx:31-34 | the three status tabs are pairwise disjoint; with every status known, their counts add up to the total |
| CitizenDashboard.Dashboard.constructor | src/pages/CitizenDashboard.tsx:13 | the page opens on "all", showing every report |
| CitizenDashboard.Dashboard.SetSelectedTab | src/pages/CitizenDashboard.tsx:118 | selecting a tab shows that tab's filtered list |
| AdminAnalytics.RoundedPercent | src/pages/admin/AdminAnalytics.tsx:15 | 0 for no reports; otherwise the whole percent nearest part/total, halves up; at most 100 when part <= total |
| AdminAnalytics.TwoOfThreeIsSixtySevenPercent | src/pages/admin/AdminAnalytics.tsx:15 | 2 resolved of 3 is 67 percent |
| AdminAnalytics.GetOverview | src/pages/admin/AdminAnalytics.tsx:10-15 | total is the number of reports; resolved, in progress and submitted are the numbers of reports with that status, each at most the total; the rate is the rounded percentage of resolved over total, within 0..100, and 0 with no reports |
| AdminAnalytics.OverviewPartition | src/pages/admin/AdminAnalytics.tsx:11-13 | with every status known, resolved + in progress + submitted equals the total |
| AdminAnalytics.ResolvedWithinCount | src/pages/admin/AdminAnalytics.tsx:20-21 | the resolved reports of a key are never more than the reports of that key |
| AdminAnalytics.CategoryStatFor | src/pages/admin/AdminAnalytics.tsx:18-22 | one category's entry carries its name, counts the reports of that category and the resolved ones among them, and resolved <= count |
| AdminAnalytics.CategoryStats | src/pages/admin/AdminAnalytics.tsx:18-22 | one entry per configured category, in order, counting the reports of that category and the resolved ones among them, with resolved <= count |
| AdminAnalytics.DepartmentStatFor | src/pages/admin/AdminAnalytics.tsx:25-29 | one department's entry carries its name, counts the reports assigned to it and the resolved ones among them, and resolved <= assigned |
| AdminAnalytics.DepartmentStats | src/pages/admin/AdminAnalytics.tsx:25-29 | one entry per configured department, in order, counting the reports assigned to it and the resolved ones among them, with resolved <= assigned |
| AdminAnalytics.PriorityStats | src/pages/admin/AdminAnalytics.tsx:32-36 | exactly three entries, in the order High, Medium, Low, counting the reports of priority "high", "medium" and "low" |
| AdminAnalytics.PrioritiesPartition | src/pages/admin/AdminAnalytics.tsx:32-36 | with every priority known, the three priority counts add up to the number of reports |
| AdminAnalytics.CountIn | src/pages/admin/AdminAnalytics.tsx:27 | the reports whose key is in a list are never more than all the reports |
| AdminAnalytics.OccurrencesOfDistinct | src/pages/admin/AdminAnalytics.tsx:18 | in a list without repeats, a name occurs once if it is there and otherwise not at all |
| AdminAnalytics.SumCountsFirstReport | src/pages/admin/AdminAnalytics.tsx:20 | the first report adds to the per-key sum once for each time its key is listed |
| AdminAnalytics.SumCountsOfDistinctKeys | src/pages/admin/AdminAnalytics.tsx:18-29 | with distinct keys, the per-key counts add up to the number of reports whose key is listed, so no report counts twice |
| AdminAnalytics.SumCountsOfEmpty | src/pages/admin/AdminAnalytics.tsx:20 | no reports give a zero sum for any list of keys |
| AdminAnalytics.SomeKeys | src/pages/admin/AdminAnalytics.tsx:27 | a department name is compared as a present `assignedDepartment` |
| AdminAnalytics.CategoryCountsAreKeyCounts | src/pages/admin/AdminAnalytics.tsx:18-22 | the category counts add up to the per-key sum over the configured categories |
| AdminAnalytics.AssignedCountsAreKeyCounts | src/pages/admin/AdminAnalytics.tsx:25-29 | the department counts add up to the per-key sum over the configured departments |
| AdminAnalytics.CategoryCountsWithinTotal | src/pages/admin/AdminAnalytics.tsx:18-22 | with distinct categories, the category counts add up to the reports of a configured category, never more than the total |
| AdminAnalytics.AssignedWithinTotal | src/pages/admin/AdminAnalytics.tsx:25-29 | with distinct departments, the assignments add up to the reports of a listed department; unassigned reports and unknown departments count nowhere, so the sum is at most the total |
| AdminAnalytics.RollUpWithinTotal | src/pages/admin/AdminAnalytics.tsx:18-29 | both bounds, each under its own distinctness assumption |
| AdminAnalytics.GetAnalytics | src/pages/admin/AdminAnalytics.tsx:9-44 | the overview total is the number of reports; one entry per category and per department; three priority entries; with distinct names, neither sum exceeds the total |
| AnalyticsChart.LegendRestoresName | src/components/charts/ModernAnalyticsChart.tsx:62 | for a name without line breaks, the pie legend's formatter (line 299) gives back the name the two-line label came from |
| AnalyticsChart.ChartLabel | src/components/charts/ModernAnalyticsChart.tsx:62 | same length; a name without a space is unchanged; otherwise the text before the first space, a line break, and the rest |
| AnalyticsChart.LegendText | src/components/charts/ModernAnalyticsChart.tsx:299 | same length; a text without a line break is unchanged; otherwise the text before the first line break, a space, and the rest |
| AnalyticsChart.ShownCategories | src/components/charts/ModernAnalyticsChart.tsx:59-60 | exactly the categories with count > 0, in their given order |
| AnalyticsChart.ShownDepartments | src/components/charts/ModernAnalyticsChart.tsx:69-70 | exactly the departments with assigned > 0, in their given order |
| AnalyticsChart.CategoryChartData | src/components/charts/ModernAnalyticsChart.tsx:59-67 | one entry per shown category with its label, total (> 0) and resolved, and pending = total - resolved |
| AnalyticsChart.DepartmentChartData | src/components/charts/ModernAnalyticsChart.tsx:69-77 | one entry per shown department with its label, assigned (> 0) and resolved, and pending = assigned - resolved |
| AnalyticsChart.PieData | src/components/charts/ModernAnalyticsChart.tsx:79-83 | as many slices as bars; slice i has bar i's name and total, and colour i mod 6 of the palette |
| AnalyticsChart.ShownCategoriesKeepTotal | src/components/charts/ModernAnalyticsChart.tsx:59-60 | dropping the empty categories leaves the sum of counts unchanged |
| AnalyticsChart.SlicesAddUpToTotals | src/components/charts/ModernAnalyticsChart.tsx:79-83 | the slice values add up to the bar totals |
| AnalyticsChart.TotalsAddUpToCounts | src/components/charts/ModernAnalyticsChart.tsx:59-67 | the bar totals add up to the counts of the shown categories |
| AnalyticsChart.PieCoversAllCounts | src/components/charts/ModernAnalyticsChart.tsx:59-83 | the pie's values add up to the sum of all category counts |
| AnalyticsChart.BadgeFor | src/components/charts/ModernAnalyticsChart.tsx:189 | "resolved" iff rate >= 80; "progress" iff 50 <= rate < 80; "submitted" iff rate < 50 |
| AnalyticsChart.Entries | src/components/charts/ModernAnalyticsChart.tsx:182 | the entries behind the rows, one per row, in row order |
| AnalyticsChart.CategoryRows | src/components/charts/ModernAnalyticsChart.tsx:182-189 | one row per category, in order, each with its rate and badge |
| AnalyticsChart.DepartmentRows | src/components/charts/ModernAnalyticsChart.tsx:247-254 | one row per department, in order, each with its rate and badge |
| AnalyticsChart.CategoryBreakdown | src/components/charts/ModernAnalyticsChart.tsx:179-189 | a permutation of the shown categories, by count non-increasing; each row's rate is the rounded percent resolved, and its badge is the badge of that rate |
| AnalyticsChart.DepartmentBreakdown | src/components/charts/ModernAnalyticsChart.tsx:244-254 | a permutation of the shown departments, by assigned non-increasing, with rounded rate and badge per row |
| AnalyticsChart.PendingIsCountMinusResolved | src/components/charts/ModernAnalyticsChart.tsx:316-330 | the pending sum equals the sum of counts minus the sum of resolved |
| AnalyticsChart.SumResolvedWithinTotal | src/components/charts/ModernAnalyticsChart.tsx:323 | when each entry has resolved <= count, the resolved sum is at most the count sum |
| AnalyticsChart.GetQuickStats | src/components/charts/ModernAnalyticsChart.tsx:316-330 | total is the sum of the category counts; pending = total - resolved; the rate is the rounded percentage of the resolved sum over max(total, 1); with consistent entries, the rate is within 0..100 and pending >= 0, and it is 0 with no reports |
| AnalyticsChart.CategoryStatsResolvedWithin | src/components/charts/ModernAnalyticsChart.tsx:323 | every entry of the category roll-up has resolved <= count |
| AnalyticsChart.QuickStatsOfRollUp | src/components/charts/ModernAnalyticsChart.tsx:316-330 | fed from the roll-up with distinct categories, total <= number of reports, rate <= 100, and 0 <= pending <= total |
| Comments.CurrentNotes | src/hooks/useComments.tsx:34 | a `public_notes` value that is not an array reads as no notes |
| Comments.AuthorName | src/hooks/useComments.tsx:86 | never empty; the full name when it is non-empty; otherwise the email's text before the first '@' when that is non-empty, and "Anonymous" when there is no such text; without a full name it contains no '@' |
| Comments.AuthorFromEmail | src/hooks/useComments.tsx:86 | without a full name, the author is the non-empty local part of the email |
| Comments.FormatNote | src/hooks/useComments.tsx:87 | the note is the author name, ": ", and the trimmed content, with nothing else |
| Comments.CommentIdDenotes | src/hooks/useComments.tsx:36 | the id is the report id, a dash, and the index in decimal digits that read back as the index |
| Comments.CommentIdsDistinct | src/hooks/useComments.tsx:36 | within one report, two positions never share a comment id |
| Comments.AppendNote | src/hooks/useComments.tsx:85-88 | one note longer; earlier notes unchanged; the last note is author + ": " + trimmed content |
| Comments.NotesToComments | src/hooks/useComments.tsx:35-40 | note i becomes a comment with id reportId-i, the note as content, and the author "Citizen" |
| Comments.AddedCommentMatchesFetch | src/hooks/useComments.tsx:99-107 | the local comment and the one a later fetch derives from the stored note share the id reportId-n; the fetched content is the local content with the author prefix; earlier comments are unchanged |
| Comments.AppendedNoteKeepsComments | src/hooks/useComments.tsx:88 | appending a note leaves the comments derived from the earlier notes as they were |
| Comments.NotesBackend.Select | src/hooks/useComments.tsx:77-83 | logs the select; the row's notes field if the row exists, an error otherwise; no row changes |
| Comments.NotesBackend.Update | src/hooks/useComments.tsx:91-96 | logs the update; the answer is the given failure; the row is replaced only when the write succeeds on an existing row |
| Comments.CommentsHook.FetchComments | src/hooks/useComments.tsx:20-52 | one select and no write; on success the list is the row's notes as comments; on error the list is kept |
| Comments.CommentsHook.AddComment | src/hooks/useComments.tsx:54-123 | no user or blank content: no request and no state change; a missing row: a failure after one select; otherwise select then update with the appended notes, and on success the new comment goes to the front |
| Comments.CommentsHook.PostNote | src/hooks/useComments.tsx:73-122 | the read, append and write once both checks pass, with the same outcomes as above |
| Comments.CommentsHook.WriteNote | src/hooks/useComments.tsx:85-107 | logs the update with the appended notes; a failed write changes no row and no comment; a successful write on an existing row stores the notes and puts the new comment, id reportId-n, at the front |
| AdminIssueDetail.FindReport | src/pages/admin/AdminIssueDetail.tsx:27 | nothing iff no report has the id; otherwise the first report with that id |
| AdminIssueDetail.OptionsAreTheClosedSets | src/pages/admin/AdminIssueDetail.tsx:243-260 | the status select offers exactly the four known statuses, and the priority select exactly the three known priorities |
| AdminIssueDetail.IssueEditor.constructor | src/pages/admin/AdminIssueDetail.tsx:30-34 | state seeded from the report; "submitted", "medium" and "" when a field is missing or empty; both drafts empty |
| AdminIssueDetail.IssueEditor.CurrentView | src/pages/admin/AdminIssueDetail.tsx:36-50 | the not-found view iff no report has the id |
| AdminIssueDetail.IssueEditor.HandleAddNote | src/pages/admin/AdminIssueDetail.tsx:59-73 | confirms iff the draft is not blank, which is exactly when its button is enabled (lines 179 and 218); clears only that draft; the other draft, status, priority and department are unchanged |
| AdminIssueDetail.IssueEditor.SetStatus | src/pages/admin/AdminIssueDetail.tsx:238-246 | any offered status, from any current status; nothing else changes |
| AdminIssueDetail.IssueEditor.SetPriority | src/pages/admin/AdminIssueDetail.tsx:253-260 | any offered priority; nothing else changes |
| AdminIssueDetail.IssueEditor.SetDepartment | src/pages/admin/AdminIssueDetail.tsx:267-273 | any listed department; nothing else changes |
| AdminIssueDetail.IssueEditor.SetDraft | src/pages/admin/AdminIssueDetail.tsx:172 | sets one draft; the other draft and the selections are unchanged |
| AdminIssueDetail.SeededEditorOffersItsValues | src/pages/admin/AdminIssueDetail.tsx:30-32 | a report with known status, priority and department seeds values the selects offer |
| ReportIssue.BlankFieldsPass | src/pages/ReportIssue.tsx:27 | whitespace-only fields pass the check, which tests for empty strings |
| ReportIssue.RandomBelow1000 | src/pages/ReportIssue.tsx:37 | floor(random * 1000), below 1000 |
| ReportIssue.ReportId | src/pages/ReportIssue.tsx:37 | 12 characters: "RPT-2024-" then three digits that read back as floor(random * 1000) |
| ReportIssue.ReportIdsCollide | src/pages/ReportIssue.tsx:37 | two ids are equal iff their random numbers floor to the same value |
| ReportIssue.ReportForm.constructor | src/pages/ReportIssue.tsx:14-20 | all fields empty, no photos |
| ReportIssue.ReportForm.HandleSubmit | src/pages/ReportIssue.tsx:24-48 | "missing information" iff title, description or category is empty; otherwise the id for the random number |
| ReportIssue.ReportForm.HandleFileUpload | src/pages/ReportIssue.tsx:50-53 | the new files follow the existing photos in order; other fields unchanged |
| ReportIssue.ReportForm.SetField | src/pages/ReportIssue.tsx:104 | one text field or the category changes; the others and the photos are kept (also lines 113, 135 and 148) |
| ReportIssue.ReportForm.HandleLocationDetect | src/pages/ReportIssue.tsx:55-77 | with a position, the location is both coordinates at six decimals; without one, nothing changes |
| ReportsHook.Payload | src/hooks/useReports.tsx:69-74 | the input columns plus user_id, status "submitted" and priority "medium"; other input columns are kept |
| ReportsHook.PayloadOverridesInput | src/hooks/useReports.tsx:69-74 | whatever status or priority the input carries, the payload is the same |
| ReportsHook.FileExtension | src/hooks/useReports.tsx:99 | the text after the last '.', containing no '.'; the whole name when there is no '.' |
| ReportsHook.UploadPath | src/hooks/useReports.tsx:99-101 | the path starts with the user part and a '/', and ends with '.' and the file's extension |
| ReportsHook.UploadPathParts | src/hooks/useReports.tsx:100-101 | the path ends in '.' and the file's extension, and its part before the first '/' is the user id ("undefined" without a user) |
| ReportsHook.AllSettled | src/hooks/useReports.tsx:116 | succeeds iff every upload succeeded, with the results in order; otherwise it fails with one of the errors |
| ReportsHook.Uploads | src/hooks/useReports.tsx:98-114 | one upload per file, in file order, each the storage error or the public URL of that file's path |
| ReportsHook.UploadPhotos | src/hooks/useReports.tsx:97-117 | succeeds iff no upload fails; then one URL per file, in file order, for the file's path; otherwise one of the storage errors |
| ReportsHook.ReportsState.constructor | src/hooks/useReports.tsx:26-27 | no reports, loading |
| ReportsHook.ReportsState.FetchReports | src/hooks/useReports.tsx:32-51 | one select; the answer replaces the list (no data gives an empty list); an error keeps it; loading ends |
| ReportsHook.ReportsState.CreateReport | src/hooks/useReports.tsx:53-95 | without a user, the login error and nothing sent; otherwise the payload is inserted and, on success, the list is reloaded |
| LocationUtils.Abs | src/utils/locationUtils.ts:12-13 | a non-negative value equal to x or -x |
| LocationUtils.CoordinateText | src/utils/locationUtils.ts:9-15 | the four-decimal magnitude of the absolute value, '°', and the direction: the positive letter iff x >= 0 |
| LocationUtils.CoordinateTextUnsigned | src/utils/locationUtils.ts:12-13 | a coordinate's text never contains a minus sign |
| LocationUtils.FormatLocationText | src/utils/locationUtils.ts:3-16 | a non-blank address unchanged; otherwise "lat°N/S, lng°E/W"; never blank |
| LocationUtils.NewYorkExample | src/utils/locationUtils.ts:3-16 | (40.7128, -74.006) without an address is shown as "40.7128°N, 74.0060°W" |
| LocationUtils.GetLocationDisplay | src/utils/locationUtils.ts:18-36 | precedence: flat address, nested address, flat coordinates, nested coordinates, then "Location not specified"; never blank |
| LocationUtils.ZeroCoordinateCountsAsMissing | src/utils/locationUtils.ts:27 | a coordinate of 0 counts as missing, so a report on the equator or the prime meridian shows no location |
| LocationUtils.FlatFieldsTakePrecedence | src/utils/locationUtils.ts:18-29 | when the flat fields decide, the nested location does not matter |
| LocationUtils.GenerateShortId | src/utils/locationUtils.ts:38-45 | six characters, each from A-Z0-9 |
| AdminActions.GetAddressFromLocation | src/utils/adminActions.ts:3-32 | a non-blank address verbatim; with both coordinates non-zero, the geocoder's first result or the coordinates at four decimals; otherwise "Location not specified" |
| AdminActions.CoordinateFallback | src/utils/adminActions.ts:28 | the text before the first comma is the latitude at four decimals, and the rest is ", " and the longitude at four decimals |
| AdminActions.GeocoderFailuresFallBack | src/utils/adminActions.ts:17-28 | a thrown error, a failed response and an empty result all give the same text: the error never reaches the caller |
| AdminActions.GeocoderConsultedOnlyForCoordinates | src/utils/adminActions.ts:5-10 | with an address, or without both coordinates, the geocoder's answer does not matter |
| AdminActions.FallbackKeepsSign | src/utils/adminActions.ts:28 | unlike the display text, the fallback keeps the sign of a negative coordinate |
| AdminActions.AddressReturnedUntrimmed | src/utils/adminActions.ts:5-6 | a padded address comes back with its padding |
| ShortId.AlphabetChars | src/utils/shortId.ts:2 | the alphabet is the 26 capitals and then the ten digits |
| ShortId.Pick | src/utils/shortId.ts:5 | floor(random * 36), an index into the alphabet |
| ShortId.GenerateShortId | src/utils/shortId.ts:1-8 | six characters; character i is the alphabet at draw i's index, so every character is from A-Z0-9 |
| ShortId.GetShortId | src/utils/shortId.ts:10-13 | length min(6, length of id); character i is the upper-cased id character i; no lower-case letters |
| ShortId.GetShortIdIdempotent | src/utils/shortId.ts:12 | shortening a short id gives it back |
| ShortId.SharedPrefixSameShortId | src/utils/shortId.ts:12 | ids sharing their first six characters look the same |
| MediaViewer.KindOf | src/components/MediaViewer.tsx:19-20 | video iff a video extension occurs; audio iff an audio extension occurs and no video one; image otherwise |
| MediaViewer.VideoWinsOverAudio | src/components/MediaViewer.tsx:38-39 | a URL with both an audio and a video extension is shown as video |
| MediaViewer.JsRemainder | src/components/MediaViewer.tsx:23 | `%` with the dividend's sign: within 0..n-1 for non-negative dividends, within -(n-1)..0 for negative ones |
| MediaViewer.NextIndex | src/components/MediaViewer.tsx:23 | from an index in range, the next index, wrapping from the last to 0 |
| MediaViewer.PrevIndex | src/components/MediaViewer.tsx:28 | from an index in range, the previous index, wrapping from 0 to the last |
| MediaViewer.NextPrevRoundTrip | src/components/MediaViewer.tsx:22-30 | next then previous, and previous then next, return to the same index |
| MediaViewer.NegativeStartNavigation | src/components/MediaViewer.tsx:23-28 | from a start index whose dividend is negative, a step never lands above 0, and lands on item 0 exactly when the dividend is a multiple of the list length |
| MediaViewer.NegativeStartStaysOutOfRange | src/components/MediaViewer.tsx:23-28 | with two items, both buttons take start index -4 to -1, which is off the list |
| MediaViewer.Carousel.constructor | src/components/MediaViewer.tsx:12-14 | the given index, zoom 1, dialog closed |
| MediaViewer.Carousel.CurrentKind | src/components/MediaViewer.tsx:18-20 | an index outside the list reads `undefined` and shows as an image |
| MediaViewer.Carousel.ZoomControlsShown | src/components/MediaViewer.tsx:92 | the zoom buttons (`!isVideo && !isAudio` over lines 18-20) show iff the index is off the list or the current URL has neither a video nor an audio extension |
| MediaViewer.Carousel.OneDialogOpen | src/components/MediaViewer.tsx:42 | at most one thumbnail's dialog is open |
| MediaViewer.Carousel.HandleNext | src/components/MediaViewer.tsx:22-25 | the next index, zoom back to 1, and the index stays in range |
| MediaViewer.Carousel.HandlePrev | src/components/MediaViewer.tsx:27-30 | the previous index, zoom back to 1, and the index stays in range |
| MediaViewer.Carousel.SelectThumbnail | src/components/MediaViewer.tsx:166 | that index, zoom back to 1 |
| MediaViewer.Carousel.OnOpenChange | src/components/MediaViewer.tsx:42-45 | opening selects that item and opens its dialog; closing keeps the index and leaves no dialog open |

## Left out

- Backend traffic: Supabase selects, inserts, updates, storage uploads, and the HTTP call to the geocoding service. Their answers are parameters. The comments backend is a small class that logs each request.
- Toasts, navigation, the two-second redirect after submitting, and all JSX rendering.
- The read-modify-write race in adding a comment: two concurrent appends can lose a note. Concurrency is not modelled.
- `deleteComment` only shows a message, and `handleSaveChanges` only shows a toast. Neither changes any state, so neither is modelled.
- The carousel's zoom in and zoom out (multiply or divide by 1.5, clamped to 0.5..5) are not modelled. Zoom is a real that the model only ever resets to 1.
- `src/utils/geocoding.ts`, `src/hooks/useVoting.tsx`, and `sendEmailToCitizen` and `generateReportPDF` in `src/utils/adminActions.ts` are not part of this model. They are browser geolocation, random mock counts, logging and file download.
- The mock data module is not part of this model. The reports, categories and departments lists are parameters.
- Floating point: `toFixed` and `Math.round` work on exact reals and rationals. Binary rounding of doubles and NaN are not modelled.
- Seqs.SortDesc: the result is proved sorted, largest key first, and a permutation of the input. That equal keys keep their input order, as `Array.prototype.sort` guarantees, is not proved.
- Text.ToUpperAscii: upper-cases ASCII letters only; JavaScript's full Unicode case mapping is not modelled.
- ShortId.GetShortId: `substring(0, 6)` counts UTF-16 code units; the model counts characters.
- ReportsHook.AllSettled: `Promise.all` fails with the first rejection to arrive, which depends on timing. The model only says the error is one of the failures.
- ReportsHook.ReportsState.CreateReport: the inserted row's data is returned as the insert's answer, with no model of what the database adds to it.
- ReportsHook.Payload: the inserted row is not type-checked against the table's columns.
- Comments.NotesToComments: `new Date().toISOString()` is a parameter, shared by all comments of one fetch.
- AdminIssueDetail.IssueEditor.HandleAddNote: the source stores no note anywhere, only a confirmation toast. The model follows the code, and the returned flag stands for the toast.
- The carousel's header counter and the dialog's key handling are rendering only.
