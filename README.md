# Clean Water Alert — a Dafny model of the client logic

Clean Water Alert is a small browser front end for filing and browsing
water-supply issue reports. Storage, querying and change notification live in
a hosted backend; the client's own logic is what this project models and
proves things about:

- **Reports** (`reports.dfy`): the `WaterReport` record with its three
  statuses, four severities and nullable contact field; the outcome of one
  fetch (data, null data, or an error); the order-preserving `filter` that
  both views derive their displays from.
- **MapView** (`map_view.dfy`): grouping the fetched reports by their exact
  `location` string, each group with its members, `totalCount` and
  `activeCount`; the badge row of a group card; the view's state (reports,
  loading flag, selected report) with the fetch, select and clear steps.
- **AlertList** (`alert_list.dfy`): the four-way status filter, the counts on
  the filter buttons and in the header line, the placeholder for an empty
  list, and the view's state (reports, loading flag, filter) with the fetch,
  change-event and filter steps.
- **AlertCard** (`alert_card.dfy`): the relative-time label ("5m ago",
  "3h ago", "2d ago") from a millisecond difference, the capitalised status
  label and the two colour-class maps.
- **ReportForm** (`report_form.dfy`): the six form fields, per-field edits,
  the insert payload (status forced to `active`, an empty contact sent as
  null) and the two halves of the submit handler around the awaited insert.
- **App** (`app.dfy`): the three-valued view variable, navigation, the
  return to the list after a report is filed, and which screen is rendered.

Backend calls are not modelled as code: a fetch is a `FetchOutcome` value
(`Fetched(data)` with `data` possibly null, or `FetchFailed`) and an insert an
`InsertOutcome` (`Inserted` or `InsertFailed`), passed to the step that
handles the answer. The current time and the report's creation time enter
only as their millisecond difference.

State that the source updates in place (each component's `useState`
variables) is a class whose methods have `modifies this` and say the whole new
state; the derived values (filtered list, counts, groups, labels) are
functions with the properties proved as lemmas. `groupByLocation` builds a
dictionary step by step, so it is a method with loops, proved equal to the
reference definition `Groups`.

## Model

| member | source | states |
|---|---|---|
| `Reports.Filter` | src/components/AlertList.tsx:48 | a filter result is no longer than its input and holds only input members that pass the test |
| `Reports.FilterMembership` | src/components/AlertList.tsx:48 | a report is in the filtered list exactly when it is in the input and passes the test |
| `Reports.FilterIsSubsequence` | src/components/AlertList.tsx:48 | filtering keeps the input's order: the result is a subsequence of the input |
| `Reports.StatusCountsSum` | src/lib/supabase.ts:15 | because a status is one of three values, the three per-status filters' lengths add up to the list length |
| `MapView.Locations` | src/components/MapView.tsx:31-38 | the group keys, in the order the reduce creates them, are pairwise distinct |
| `MapView.LocationOccurs` | src/components/MapView.tsx:33-35 | a string is a group key exactly when some report has it as its location |
| `MapView.LocationsSnoc` | src/components/MapView.tsx:33-35 | proof step used by `ReduceStepNew` and `ReduceStepExisting`: `Locations` unfolded for a list with one report appended (a new last key unless its location is already a key) |
| `MapView.Groups` | src/components/MapView.tsx:30-46 | one group per distinct location, and no group is empty |
| `MapView.MakeGroup` | src/components/MapView.tsx:40-45 | a group record carries its key, its members and their number as `totalCount`; `activeCount` is at most `totalCount` and is zero exactly when no member is active |
| `MapView.NoActiveMembers` | src/components/MapView.tsx:43 | the active filter of a list is empty exactly when no element has status active |
| `MapView.ReduceByLocation` | src/components/MapView.tsx:31-38 | after the reduce, the dictionary's keys, in insertion order, are the distinct locations in first-occurrence order, and each key holds exactly the reports with that location, in fetch order |
| `MapView.EntriesToGroups` | src/components/MapView.tsx:40-45 | one group record per dictionary entry, in key order, with the entry's reports, their length as `totalCount` and the number of active ones as `activeCount` |
| `MapView.GroupByLocation` | src/components/MapView.tsx:30-46 | the reduce followed by the entries step yields exactly the reference grouping `Groups(reports)` |
| `MapView.ReduceStepExisting` | src/components/MapView.tsx:33-36 | a reduce step on a location already seen appends the report to that key's list and keeps the dictionary equal to the grouping of the reports scanned so far |
| `MapView.ReduceStepNew` | src/components/MapView.tsx:33-36 | a reduce step on a new location creates its key last in insertion order, holding just that report, and keeps the dictionary equal to the grouping so far |
| `MapView.AtLocationMembership` | src/components/MapView.tsx:32-36 | a report is among a key's members exactly when its location equals the key (exact comparison) |
| `MapView.AbsentLocationIsEmpty` | src/components/MapView.tsx:33-35 | a location that is not a key has no members |
| `MapView.GroupsNonEmpty` | src/components/MapView.tsx:33-36 | every key has at least one member, since the key was created for a report that was pushed into it |
| `MapView.GroupsPartition` | src/components/MapView.tsx:31-40 | group keys are distinct, and every report's location is the key of some group |
| `MapView.GroupMembers` | src/components/MapView.tsx:31-40 | a report lies in a group iff the group's key is its location, and a group holds only fetched reports with its key |
| `MapView.GroupsPreserveOrder` | src/components/MapView.tsx:31-36 | each group's members are a subsequence of the fetched list, in fetch order |
| `MapView.GroupCounts` | src/components/MapView.tsx:43-44 | `totalCount` is the group's length; `activeCount` equals the length of the group's active filter, which holds exactly its active members, so 0 ≤ `activeCount` ≤ `totalCount` |
| `MapView.LocationsAreDistinctLocations` | src/components/MapView.tsx:33-35 | the keys are exactly the set of location strings of the reports |
| `MapView.GroupCountIsDistinctLocations` | src/components/MapView.tsx:40 | the number of groups equals the number of distinct location strings |
| `MapView.TotalOfSnoc` | src/components/MapView.tsx:40-45 | adding a key adds its group's size to the sum of `totalCount`s |
| `MapView.TotalCountsSum` | src/components/MapView.tsx:40-45 | the `totalCount`s of all groups add up to the number of fetched reports |
| `MapView.FirstMemberIsEarliest` | src/components/MapView.tsx:86 | a group's first member is the earliest report in fetch order with that location |
| `MapView.Badges` | src/components/MapView.tsx:107-118 | exactly min(3, n) status chips for n members, the first members' statuses in order; "+k more" appears iff there are more than three members, and then k = n − 3 |
| `MapView.BadgesOfGroup` | src/components/MapView.tsx:106-120 | on a group card the chips plus the overflow count equal `totalCount`, the overflow is `totalCount` − 3, and the first member's status is shown |
| `MapView.MapViewState.constructor` | src/components/MapView.tsx:6-8 | the view mounts with no reports, the spinner on and nothing selected |
| `MapView.MapViewState.LocationGroups` | src/components/MapView.tsx:48 | the groups rendered for the current reports number the distinct locations, and none is empty |
| `MapView.MapViewState.FetchReports` | src/components/MapView.tsx:14-28 | success installs the data or an empty list for null; failure keeps the old list; `loading` is false afterwards; the selection is untouched |
| `MapView.MapViewState.SelectGroup` | src/components/MapView.tsx:86 | clicking group j selects its first member, a fetched report with that group's location; nothing else changes |
| `MapView.MapViewState.ClearSelection` | src/components/MapView.tsx:164 | "Clear selection" sets the selection to null; nothing else changes |
| `MapView.ReduceAsWritten` | src/components/MapView.tsx:31-38 | lines 31-38 as they stand: when the reduce throws, it is on a location that is an inherited property name and that some report has |
| `MapView.ReduceAsWrittenRepresents` | src/components/MapView.tsx:31-38 | while the as-written reduce has not thrown, its dictionary is the grouping of the reports scanned so far |
| `MapView.ReduceAsWrittenAgrees` | src/components/MapView.tsx:31-38 | the as-written reduce completes iff no location is an inherited property name |
| `MapView.InheritedLocationThrows` | src/components/MapView.tsx:33-36 | one report at location "toString" makes the as-written reduce throw, while the intended grouping has one group of one |
| `AlertList.FilteredReports` | src/components/AlertList.tsx:46-48 | with filter All the list is exactly `reports`; any filter yields no more reports than there are |
| `AlertList.FilteredByStatus` | src/components/AlertList.tsx:48 | with a status filter the list is the order-preserving subsequence of reports whose status equals it, all of them and nothing else |
| `AlertList.ButtonCount` | src/components/AlertList.tsx:82-112 | each filter button's count is the length of the list that filter displays |
| `AlertList.ActiveCount` | src/components/AlertList.tsx:50 | the header's active count equals the Active button's count and is at most the number of reports |
| `AlertList.ButtonCountsSum` | src/components/AlertList.tsx:82-112 | the Active, Investigating and Resolved counts add up to the All count |
| `AlertList.EmptyMessage` | src/components/AlertList.tsx:121-123 | under a status filter the message is 18 characters longer than the status name, which sits at positions 3 to length − 15; the exact texts are stated by `EmptyMessages` |
| `AlertList.Body` | src/components/AlertList.tsx:52-132 | spinner iff loading; otherwise the placeholder iff the filtered list is empty, and then its message is the filter's empty message; else the cards of the filtered list |
| `AlertList.NoReportsPlaceholder` | src/components/AlertList.tsx:117-125 | with no reports, every filter shows its own placeholder |
| `AlertList.EmptyMessages` | src/components/AlertList.tsx:117-124 | the placeholder reads "No water issues reported yet." under All and "No {status} reports found." under each status |
| `AlertList.AlertListState.constructor` | src/components/AlertList.tsx:7-9 | the view mounts with no reports, the spinner on and filter All |
| `AlertList.AlertListState.Displayed` | src/components/AlertList.tsx:46-48 | the cards shown are a subsequence of the reports, holding a report iff it passes the current filter (any status under All) |
| `AlertList.AlertListState.FetchReports` | src/components/AlertList.tsx:30-44 | success installs the data or an empty list for null; failure keeps the old list; `loading` is false afterwards; the filter is kept |
| `AlertList.AlertListState.OnCollectionChange` | src/components/AlertList.tsx:19-21 | a change event re-runs the fetch step, with the same effect on reports, loading and filter |
| `AlertList.AlertListState.SetFilter` | src/components/AlertList.tsx:75-105 | a filter button sets only the filter; reports and loading are untouched and nothing is fetched |
| `AlertCard.RelativeTime` | src/components/AlertCard.tsx:25-32 | the amount is the floor of the difference by the unit's milliseconds; minutes iff under 3600000 ms, hours iff in [3600000, 86400000), days otherwise; hours lie in 1..23, days are ≥ 1 |
| `AlertCard.FutureIsMinutes` | src/components/AlertCard.tsx:25-30 | a negative difference (a creation time in the future) always gives a negative number of minutes |
| `AlertCard.NatToString` | src/components/AlertCard.tsx:30-32 | a number renders as a non-empty string of decimal digits with no leading zero (only 0 itself starts with "0") |
| `AlertCard.NatToStringRoundTrip` | src/components/AlertCard.tsx:30-32 | the decimal rendering of a non-negative number reads back as that number |
| `AlertCard.IntToStringRoundTrip` | src/components/AlertCard.tsx:30-32 | the rendering of any integer, with its minus sign, parses back to itself |
| `AlertCard.FormatDate` | src/components/AlertCard.tsx:22-33 | the label ends in the chosen unit's " ago" suffix and starts with a minus sign exactly when the creation time lies in the future |
| `AlertCard.FormatDateRoundTrip` | src/components/AlertCard.tsx:22-33 | the label "{n}m ago" / "{n}h ago" / "{n}d ago" reads back as exactly the amount and unit chosen for the difference, and its number has no leading zero: a label starting with "0" is "0" plus the suffix, and after a minus sign comes a digit 1-9 |
| `AlertCard.Capitalize` | src/components/AlertCard.tsx:40 | the result has the same length, its first character upper-cased and the rest unchanged |
| `AlertCard.StatusLabel` | src/components/AlertCard.tsx:40 | the chips read "Active", "Investigating" and "Resolved": the status with only its first letter upper-cased |
| `AlertCard.ColourClassesDistinct` | src/components/AlertCard.tsx:9-20 | the severity and status class maps (`SeverityClass`, `StatusClass`) give a class for every value of their enums, and different values get different classes |
| `ReportForm.WithText` | src/components/ReportForm.tsx:77-153 | editing a text field sets that field to the new value and leaves every other field, and the severity, unchanged |
| `ReportForm.ContactPayload` | src/components/ReportForm.tsx:34 | the contact sent is null exactly when the field is empty, and otherwise is the field's text unchanged |
| `ReportForm.Payload` | src/components/ReportForm.tsx:28-36 | the payload's status is always active; title, description, location, severity and reporter are copied verbatim; the contact is null iff the field is empty |
| `ReportForm.PayloadRoundTrip` | src/components/ReportForm.tsx:28-36 | the form the payload was built from is recovered from the payload |
| `ReportForm.PipeBurstPayload` | src/components/ReportForm.tsx:27-37 | a critical report filed with an empty contact is sent with status active and a null contact, its other fields as entered |
| `ReportForm.ReportFormState.constructor` | src/components/ReportForm.tsx:10-19 | all text fields empty, severity medium, not submitting, status idle |
| `ReportForm.ReportFormState.EditText` | src/components/ReportForm.tsx:77-153 | a text input's change overwrites that field only; submit flag and status unchanged |
| `ReportForm.ReportFormState.EditSeverity` | src/components/ReportForm.tsx:120 | the select's change overwrites the severity only |
| `ReportForm.ReportFormState.BeginSubmit` | src/components/ReportForm.tsx:21-37 | starting a submit sets the submitting flag, so `SubmitDisabled` (the button's `disabled`, line 175) holds, and status idle, keeps the fields, and sends the payload of the current fields |
| `ReportForm.ReportFormState.FinishSubmit` | src/components/ReportForm.tsx:39-59 | success: status success, fields back to the initial values, parent notified; failure: status error, fields unchanged; either way the button is enabled again |
| `App.ExactlyOneScreen` | src/App.tsx:21-23 | every view renders exactly one of the list, the form and the location view, and no screen belongs to two views |
| `App.AppState.constructor` | src/App.tsx:8 | the app opens on `home` |
| `App.AppState.Navigate` | src/App.tsx:18 | navigation sets the view to exactly the requested one, with no guard |
| `App.AppState.HandleReportSuccess` | src/App.tsx:10-14 | the report-success handler sets the view to `home` |

## Findings

| source | as written | input that shows it | evidently intended | confidence | as-written member | corrected member |
|---|---|---|---|---|---|---|
| src/components/MapView.tsx:31-38 | the accumulator is a plain object `{}`, so for a location equal to a name it inherits from `Object.prototype` (`toString`, `constructor`, `__proto__`, ...) the guard `!acc[location]` is false, no array is created, and `acc[location].push` throws a TypeError while rendering | one fetched report whose location is "toString" | group such a report like any other: one group "toString" holding it | high; not executed | `MapView.InheritedLocationThrows` | `MapView.GroupByLocation` |

The rest of the model uses the corrected grouping (`Groups`, built by
`GroupByLocation` over a map with no inherited entries); `ReduceAsWritten`
and `ReduceAsWrittenAgrees` record the behaviour as written.

## Left out

- The backend client construction, environment variables, and the queries and inserts themselves: each answer is an input value (`FetchOutcome`, `InsertOutcome`). Server-side ordering by `created_at` is not modelled; group order and "first member" are relative to whatever order the fetch returns.
- The realtime channel's subscribe and remove: only its effect, a change event running the fetch step (`OnCollectionChange`), is modelled.
- The `console.error` logging on a failed fetch (src/components/AlertList.tsx:40, src/components/MapView.tsx:24) and on a failed insert (src/components/ReportForm.tsx:55): it has no effect on component state.
- `setTimeout` delays: the form's success returns `notifyParent`, and `App.AppState.HandleReportSuccess` is the moment the delayed call runs. Pending timers, and a timer firing after the user navigated elsewhere, are not modelled as state.
- Overlapping in-flight fetches (last response wins): each fetch step is applied when its answer arrives, in whatever order that is.
- `new Date`, `Date.now`, date parsing and `toLocaleDateString`: `RelativeTime` and `FormatDate` take the millisecond difference as an integer; an unparsable `created_at` (NaN) is not modelled.
- `FormatDate`: numbers are rendered as decimal integers; JavaScript's exponent notation for magnitudes of 10^21 and above is not modelled.
- `Capitalize`: upper-cases ASCII letters only, not the full Unicode mapping of `toUpperCase`; it is applied only to the ASCII status names.
- Group display order from `Object.entries`: groups are in first-occurrence order; JavaScript lists integer-like keys such as "12" first, in numeric order, and that reordering is not modelled.
- Browser-native `required` validation before the submit handler runs, and unmounting of a view (its state is lost) when the user navigates away.
- The location view's detail panel, its severity border classes, the pluralisation strings, all markup and styling, and the header component, which only supplies the navigation events of `App.AppState.Navigate`.
- `latitude` and `longitude`, which are declared in the record type but never read or written.
