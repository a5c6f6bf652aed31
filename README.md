# AstroShield near-earth-object data flow, in Dafny

AstroShield is a Next.js front end. Its signed-in home page fetches NASA's feed of near-earth objects (NEOs) for a window of calendar days and shows them. This project models the in-memory data flow behind that page and proves what it promises.

- **Search form** (`NeoSearchForm`, file `search_form.dfy`):
  - two date-picker values (each may also be cleared, or a date that is not a number), seven days apart by default;
  - the guard that decides whether a search is issued, and the error it reports otherwise;
  - the condition that enables the search button.
- **Home page store** (`HomePage`, file `home_page.dfy`):
  - a collection of NEOs bucketed by date, which a search replaces wholesale;
  - "load more", which fetches the next seven days and merges that page into the collection key by key;
  - the current end date, the error banner and the loading flag;
  - the greeting's name fallback.
- **Results view** (`NeoDisplay`, file `display.dfy`):
  - the buckets flattened into (object, date) entries;
  - the optional hazardous-only filter;
  - an in-place sort under one of six comparators;
  - the two-field state machine of the detail dialog;
  - the empty-collection guard.
- **Detail dialog** (`NeoDetailModal`, file `detail_modal.dfy`):
  - the distance unit chosen by thresholds;
  - the velocity unit;
  - the mean diameter;
  - the guards for "no object selected" and "no close approach".
- **Shared vocabulary** (`NeoTypes`, file `neo_types.dfy`): the record shapes of the feed, and calendar arithmetic.
  - Dates are day numbers. Instants are milliseconds.
  - The browser's time zone is a fixed offset `tz`.
  - `LocalDay` plays the part of `format(…, "yyyy-MM-dd")`.
  - `AddDays` plays the part of `addDays`.
  - `LocalMidnight` plays the part of `parseISO`.

A JavaScript `Record<string, NEODetails[]>` is a `Buckets` value. It holds its keys in enumeration order plus a map from each key to its list. `Wf` says each key is listed once and the list matches the map's keys.

The model takes each file's own form:
- The stores are classes whose methods update their fields.
- The flatten and merge loops are methods with loop invariants, each proved equal to a recursive specification function.
- The sort is an insertion sort working in place on an `array`.
- The formatting is pure functions.

The feed client is a parameter `feed: Window -> FeedResult`: one call per handler, each handler one atomic step after its request completes. `localeCompare` is a parameter `nameCmp`, and `ConsistentNameOrder` asks only that it be a total preorder.

## Model

| member | source | states |
|---|---|---|
| NeoTypes.LocalDay | src/app/home/page.tsx:45-46 | the formatted local day of an instant is the day whose local span contains it |
| NeoTypes.LocalMidnight | src/components/NEODisplay.tsx:58 | parsing a date key gives an instant that formats back to that same day |
| NeoTypes.AddDays | src/app/home/page.tsx:87-88 | adding n days moves the formatted local day by exactly n, in every time zone |
| NeoTypes.LocalDayMonotone | src/components/NEOSearchForm.tsx:33-42 | an earlier instant never formats to a later day, so a window that passes the guard has start <= end |
| NeoDetailModal.MeanDiameter | src/components/NEODetailModal.tsx:31-34 | the average diameter is the midpoint of the kilometre range and lies inside it |
| NeoDetailModal.FormatDistance | src/components/NEODetailModal.tsx:36-44 | "million km" iff >= 1,000,000; "thousand km" iff in [1,000, 1,000,000); "km" iff < 1,000; scaled value times the unit equals the distance; scaled values of distances >= 1,000 are >= 1 |
| NeoDetailModal.FormatVelocity | src/components/NEODetailModal.tsx:46-49 | velocity is shown unscaled, in "km/s" |
| NeoDetailModal.DetailView | src/components/NEODetailModal.tsx:27-120 | nothing is shown iff no object is selected; name, hazard flag, mean diameter, absolute magnitude (line 110) and JPL link (line 176) come from the selected object; the approach panel is shown iff the object has a first close approach (lines 30, 120); its date and body come from that first record, its velocity is that record's velocity as `FormatVelocity` shows it, and its miss distance is that record's distance in the unit `FormatDistance`'s thresholds pick |
| NeoSearchForm.SearchForm.constructor | src/components/NEOSearchForm.tsx:23-25 | the default window starts now and ends seven local days later; no error |
| NeoSearchForm.SearchForm.SetStartDate | src/components/NEOSearchForm.tsx:74 | picking a start date replaces only the start date |
| NeoSearchForm.SearchForm.SetEndDate | src/components/NEOSearchForm.tsx:105 | picking an end date replaces only the end date |
| NeoSearchForm.SearchForm.DismissError | src/components/NEOSearchForm.tsx:55 | closing the banner clears the error |
| NeoSearchForm.SearchForm.HandleSearch | src/components/NEOSearchForm.tsx:27-43 | a cleared date yields the missing-dates error and no search (checked first); two valid dates with start after end yield the order error and no search; two valid dates with start <= end clear the error and issue exactly one search, for the two local days, with start <= end (equal dates pass); a date that is not a number passes both guards, clears the error, and issues nothing (formatting it throws) |
| NeoSearchForm.SearchForm.SearchDisabled | src/components/NEOSearchForm.tsx:137 | the button is enabled iff not loading and neither date is cleared (a date that is not a number enables it) |
| NeoDisplay.Pairs | src/components/NEODisplay.tsx:44-46 | one entry per object of a bucket, in order, each tagged with the bucket's date |
| NeoDisplay.FlattenOccurrences | src/components/NEODisplay.tsx:43-47 | each (object, date) entry occurs in the flattened list exactly as often as the object occurs in that date's bucket; every entry's date is a key holding its object |
| NeoDisplay.FlattenEntries | src/components/NEODisplay.tsx:40-47 | the nested push loops build exactly the flattening of the collection |
| NeoDisplay.HazardousOnly | src/components/NEODisplay.tsx:51 | the filter never lengthens the list, keeps only hazardous entries, and returns a list of hazardous entries unchanged |
| NeoDisplay.HazardousOnlyOccurrences | src/components/NEODisplay.tsx:50-52 | the filter keeps only hazardous entries, and keeps every hazardous entry as often as it occurs |
| NeoDisplay.HazardousOnlyAppend | src/components/NEODisplay.tsx:51 | filtering distributes over concatenation |
| NeoDisplay.Kept | src/components/NEODisplay.tsx:50-52 | a bucket keeps at most all of its objects under the filter, and all of them without it |
| NeoDisplay.FilteredLength | src/components/NEODisplay.tsx:43-52 | the filtered list's length is the bucket-by-bucket count of kept objects; with the filter off, the sum of the bucket lengths |
| NeoDisplay.FilteredOccurrences | src/components/NEODisplay.tsx:43-52 | after filtering, an entry occurs as often as in the collection, or not at all when the filter is on and it is not hazardous |
| NeoDisplay.Compare | src/components/NEODisplay.tsx:56-79 | the date rules subtract the two keys' `parseISO` instants; each rule's "a not after b" holds iff a's date, name (by the name comparator) or mean diameter is not after b's, ascending or descending as named |
| NeoDisplay.CompareDatesAnyOffset | src/components/NEODisplay.tsx:57-60 | the date rules equal the difference of the two keys' local-midnight instants for every local offset, so the offset never changes the order |
| NeoDisplay.InOrderTotal | src/components/NEODisplay.tsx:55-80 | every comparator orders any two entries one way or the other |
| NeoDisplay.InOrderTransitive | src/components/NEODisplay.tsx:55-80 | every comparator's "not after" relation is transitive |
| NeoDisplay.SortEntries | src/components/NEODisplay.tsx:55 | sorting in place leaves the array sorted by the comparator and a permutation of its old contents |
| NeoDisplay.SortedByMeaning | src/components/NEODisplay.tsx:56-79 | sorted by date_asc/desc means dates are non-decreasing/non-increasing; name_asc/desc means names are ordered by the name comparator or its reverse; size_asc/desc means mean diameters are non-decreasing/non-increasing |
| NeoDisplay.FilteredAndSorted | src/components/NEODisplay.tsx:39-83 | the view is a permutation of the filtered flattening (entry counts as the collection's, hazardous-only when filtered); its length is the kept count; it is sorted by the chosen rule, read per rule as in SortedByMeaning |
| NeoDisplay.FlipSortsReversed | src/components/NEODisplay.tsx:57-76 | a list is sorted by a rule's descending twin iff its reverse is sorted by the rule itself |
| NeoDisplay.SizeSortedHeads | src/components/NEODisplay.tsx:65-70 | two size_asc-sorted permutations of one list with distinct mean diameters start with the same entry |
| NeoDisplay.SizeSortUnique | src/components/NEODisplay.tsx:65-70 | with distinct mean diameters, size_asc has only one sorted permutation |
| NeoDisplay.SizeDescIsReversedSizeAsc | src/components/NEODisplay.tsx:65-76 | with distinct mean diameters, the size_desc order is exactly the reverse of the size_asc order |
| NeoDisplay.DisplayState.constructor | src/components/NEODisplay.tsx:33-36 | filter off, date_asc, nothing selected, dialog closed |
| NeoDisplay.DisplayState.SetSortBy | src/components/NEODisplay.tsx:137 | choosing a rule changes only the sort rule |
| NeoDisplay.DisplayState.SetHazardousFilter | src/components/NEODisplay.tsx:172 | toggling the checkbox changes only the filter flag |
| NeoDisplay.DisplayState.ViewDetails | src/components/NEODisplay.tsx:85-88 | opening details selects the object and opens the dialog |
| NeoDisplay.DisplayState.CloseModal | src/components/NEODisplay.tsx:90-93 | closing the dialog clears the selection; "open iff something is selected" is kept throughout |
| NeoDisplay.DisplayState.Dialog | src/components/NEODisplay.tsx:229-233 | the dialog shows content iff it is open, and when open it shows exactly `DetailView` of the selected object |
| NeoDisplay.DisplayState.Render | src/components/NEODisplay.tsx:95-97 | nothing is rendered iff the collection has no keys; otherwise the current filter and sort are applied |
| HomePage.MergeBucket | src/app/home/page.tsx:97-101 | one merge step makes the date a key; its list becomes the old list (empty if new) followed by the page's; every other key keeps its list |
| HomePage.Merged | src/app/home/page.tsx:95-103 | the merged keys are the union of both key sets, and each key's list is the old list followed by the page's (either empty when absent) |
| HomePage.MergePage | src/app/home/page.tsx:94-104 | the copy-then-update loop computes the key-by-key merge of the page into the collection |
| HomePage.MergedBuckets | src/app/home/page.tsx:95-103 | shared dates get their old list followed by the page's; dates only in the page get the page's list; other dates keep theirs; the keys are the union, old keys first, in order; the result stays well formed |
| HomePage.MergeDisjoint | src/app/home/page.tsx:95-103 | a page over new dates is appended as is: its keys after the old ones, its lists unchanged |
| HomePage.MergedOccurrences | src/app/home/page.tsx:97-100 | in the merged collection, each (object, date) occurs as often as in both inputs together |
| HomePage.MergedPairs | src/app/home/page.tsx:94-104 | the merged collection's flattening is the multiset union of both flattenings: nothing lost, nothing de-duplicated |
| HomePage.MergedCount | src/app/home/page.tsx:94-104 | the merged entry count is the sum of both counts |
| HomePage.MergeSelfDuplicates | src/app/home/page.tsx:95-103 | merging a page into itself doubles every list and the entry count |
| HomePage.LoadMoreWindow | src/app/home/page.tsx:87-89 | the load-more window runs from the day after the current end date to seven days after it, so start <= end |
| HomePage.LoadMoreWindowsContiguous | src/app/home/page.tsx:87-89 | after the end date advances by seven days, the next window starts the day after the previous one ended |
| HomePage.SearchEndAsWritten | src/app/home/page.tsx:75 | the searched end date as stored is UTC midnight: it formats back to the searched day east of UTC (or on it), and to the day before west of UTC |
| HomePage.SearchEndAsWrittenOverlaps | src/app/home/page.tsx:75 | west of UTC, the next load-more window starts on the searched end date itself (see Findings) |
| HomePage.SearchEndAsWrittenEast | src/app/home/page.tsx:75 | east of UTC (or on it), the next load-more window starts the day after the searched end date |
| HomePage.SearchEnd | src/app/home/page.tsx:75 | the searched end date read in local time formats back to that date, and the next load-more window starts the day after it |
| HomePage.DisplayName | src/app/home/page.tsx:36 | full name if present, else name, else email, else "User"; never empty |
| HomePage.Home.constructor | src/app/home/page.tsx:15-20 | empty collection, not loading, no error, end date seven days from now |
| HomePage.Home.InitialLoad | src/app/home/page.tsx:34-55 | greets the user by display name and loads from today to the current end date; on success the collection is the page; on failure it is unchanged and the load error is set; loading is off afterwards |
| HomePage.Home.Search | src/app/home/page.tsx:68-82 | clears the error; on success replaces the collection wholesale and stores the searched end date as UTC midnight (formatting back to that day east of UTC, to the day before west of it); on failure keeps both and sets the search error; loading is off afterwards |
| HomePage.Home.LoadMore | src/app/home/page.tsx:84-113 | requests the window after the current end date; on success merges the page and advances the end date by exactly seven days; on failure keeps both and sets the load-more error; loading is off afterwards; the collection stays well formed |
| HomePage.Home.DismissError | src/app/home/page.tsx:154 | closing the banner clears the error |
| HomePage.SearchThenLoadMore | src/app/home/page.tsx:68-113 | after a successful search, the next load-more's window starts on the searched end date west of UTC, and the day after it east of UTC (or on it) |
| HomePage.SearchAndReload | src/app/home/page.tsx:24-82 | after a successful search, the effect reloads from today to the stored end date; if that succeeds the collection is the reload's page, not the searched one; if it fails the searched page stays and the load error is shown |
| HomePage.LoadMoreAndReload | src/app/home/page.tsx:24-113 | after a successful load-more, the effect reloads from today to the new end date; if that succeeds the collection is the reload's page, not the merged one; if it fails the merged collection stays and the load error is shown |

## Left out

- Network and the feed client. The client's fetch and URL building are not modelled. A non-success status or a network error is one `FetchFailed` result. The record shape is kept in `NeoTypes`. The details-by-id call is not part of this model.
- Sessions and navigation:
  - The auth session check, redirects to the login page and JWT storage are not modelled.
  - `InitialLoad` starts once a session exists.
  - Sign-out is not modelled.
  - The login and signup pages and the Supabase client factory are not part of this model.
- Home.InitialLoad: the effect that re-runs it after every end-date change is modelled only after one search (`SearchAndReload`) or one load-more (`LoadMoreAndReload`). It is not modelled as a standing rule over arbitrary sequences of handlers.
- Overlapping requests. A search and a load-more that race are not modelled; each handler is one atomic step.
- Number and date formatting:
  - `toFixed(2)`, `parseFloat` and locale text are not modelled. A figure is its number plus its unit label, and the feed's decimal strings count as already parsed.
  - Floating-point rounding is not modelled; the arithmetic uses reals.
- Time zones. The zone is a fixed UTC offset, so there are no daylight-saving shifts in `AddDays` or `LocalDay`.
  - Two `new Date()` calls made in one handler are one instant `now`.
- localeCompare. It is abstracted to a total preorder on names; its locale rules are not modelled.
- SortEntries: proves sortedness and permutation only. The relative order of ties, which depends on the engine's sort, is left unstated.
- Presentation. Card and background components, the landing page and layout are not modelled.
  - The "hint" box and the results panel conditions on the home page (src/app/home/page.tsx:163-179) are not modelled; the view's own empty guard is (`DisplayState.Render`).
- Load more button. NEODisplay's `hasMoreData` prop is always true and only gates the button's presence, so it is not modelled.

## Findings

| source | as written | input that shows it | evidently intended | confidence | as-written member | corrected member |
|---|---|---|---|---|---|---|
| src/app/home/page.tsx:75 | `new Date(endDate)` reads the date-only string as UTC midnight, while load-more's `addDays`/`format` (lines 87-89) work in local time | time zone UTC-5 (`tz = -18000000`), search ending 2024-01-10: the stored end date formats as 2024-01-09, so the next load-more requests 2024-01-10 to 2024-01-16 and 2024-01-10's objects are merged in a second time (when the reload of the next row has failed, so the searched collection is still there) | the stored end date is the searched day's local midnight, so the next window starts the day after it | not executed | HomePage.SearchEndAsWrittenOverlaps | HomePage.SearchEnd |
| src/app/home/page.tsx:62 | the initial-load callback lists `currentEndDate` among its dependencies, so the effect at lines 64-66 runs it again after every successful search or load-more; it refetches from today to the new end date and replaces the collection | today 2024-03-01, search 2024-03-05 to 2024-03-07: the reload requests 2024-03-01 to 2024-03-07 and the collection ends up holding days the user did not ask for; for a search ending before today, the reload's start is after its end, and if the feed rejects it the load error is shown after a successful search | the initial load runs once per session, and a search or load-more leaves the collection it built | not executed | HomePage.SearchAndReload | HomePage.Home.Search |
