# JSON data viewer: page state, view pipeline and chart panel in Dafny

The viewer fetches a JSON time series, shows it as a sortable, filterable
table and as a line chart, and can ask a text-generation service to describe
the chart. This project models the logic behind that screen:

- the page's state (`data`, `isLoading`, `error`, `sortConfig`, the draft
  `filters` and the applied `activeFilters`) as the class
  `Page.DataViewerPage`, with `fetchData`, `handleSort`, `handleApplyFilters`
  and the three draft editors as methods;
- `fetchData`'s normalisation of a fetch outcome into records or an error
  message (`Loader`);
- the derived view `filteredAndSortedData`: the per-record filter predicate
  (`Filtering`), the comparator and the order it induces (`ViewOrder`), and a
  stable sort by that order, both as a function and as an in-place array
  algorithm (`Sorting`); `Page.Process` puts the steps together;
- the chart panel (`Chart`): the fixed list of metrics, the series
  `data.map(...).reverse()`, the first-50-points request and its label, and
  the request state `isGenerating` / `aiDescription` as the class
  `Chart.DataChart`.

Records are maps from field name to a number, a string or null; an absent
field is JavaScript's `undefined`. Dates are parsed by a `DateParser`
parameter that yields a timestamp or `None` for an invalid date. Every
comparison against `None` is false, as comparisons with `NaN` are.
`new Date(null)` is the epoch, a numeric date is a timestamp when its
magnitude is at most 8.64e15, and an absent date is invalid. The fetch and
the description service are inputs: a `FetchOutcome` and a `ServiceResult`.

Where the code does something a reader might not expect, the model follows the code:

- The filter is a strict conjunction. Both date checks return `false` before
  the query is looked at, so a matching query never overrides a failed bound.
- A record whose date is invalid is never excluded by a date bound, because
  both comparisons are false. It is not treated as failing the bounds.
- The query is matched against field values (`Object.values`), not field
  names (`Filtering.QuerySearchesValues`).
- The chart series is the view reversed, not re-sorted by date; the
  comment at src/components/data-chart.tsx:39 expects the data to be
  descending by date. Its dates
  never decrease, in the order the comparator uses, only when the view is
  sorted by date descending, which is the initial sort
  (`Chart.InitialViewChartChronological`). For date strings that order is
  lexicographic, so it is chronological only for ISO 8601 dates written in
  one uniform format.
- The selectable metrics are the fixed list `chartableKeys`. They are not
  discovered from the data.
- `if (dataKey)` rejects an array found under the empty key "", and
  `if (sortConfig.key)` treats an empty sort key as no sort.
- A JSON `null` body fails with the TypeError `Object.keys(null)` throws,
  not with "No array found in JSON data". The model uses V8's text for it.

## Model

The lemmas and methods below are about these definitions:
`Filtering.ItemDate`, `Filtering.MatchesQuery` and `Filtering.Keep` model
src/app/page.tsx:95-106; `ViewOrder.Comparator` models
src/app/page.tsx:111-125; `Page.NextSort` models src/app/page.tsx:78-84;
`Page.Process` models src/app/page.tsx:90-129; `Loader.Normalize` and
`Loader.Load` model src/app/page.tsx:44-62;
`Chart.ChartData` models src/components/data-chart.tsx:35-40;
`Chart.Payload` and `Chart.ChartTypeLabel` model
src/components/data-chart.tsx:47-48; and
`Chart.DataChart.GenerateDisabled` models
src/components/data-chart.tsx:75.

| member | source | states |
|---|---|---|
| Records.IntToDecimal | src/app/page.tsx:102 | `String(n)` of an integer is non-empty, starts with a minus sign exactly when n is negative, is digits elsewhere with no leading zero, and reads back as n |
| Records.IntToDecimalInjective | src/app/page.tsx:102 | different integers have different decimal strings |
| Ordering.StrLessIrreflexive | src/app/page.tsx:118-121 | no string is `<` itself |
| Ordering.StrLessTransitive | src/app/page.tsx:118-121 | string `<` is transitive |
| Ordering.StrLessTotal | src/app/page.tsx:118-121 | of two different strings one is `<` the other |
| ViewOrder.ComparatorAgrees | src/app/page.tsx:111-125 | wherever the comparator is consistent (not both keys missing, not a number against a string), a negative result means a comes strictly first, positive means b does, and zero means equal key values |
| ViewOrder.BeforeIsStrictWeakOrder | src/app/page.tsx:111-125 | the order the comparator describes is irreflexive, asymmetric and negatively transitive, in both directions |
| ViewOrder.BeforeSeparatesKeys | src/app/page.tsx:115-124 | two records with the same key value are never ordered strictly |
| ViewOrder.SortByKeySpec | src/app/page.tsx:110-126 | sorting by a key gives a permutation, puts every null or undefined key after every defined key in both directions, orders defined keys ascending or descending, and keeps equal keys in input order |
| Sorting.SortPermutes | src/app/page.tsx:111 | the sort is a permutation of its input |
| Sorting.SortSorted | src/app/page.tsx:111-125 | for a strict weak order, no later element of the result comes strictly before an earlier one |
| Sorting.SortStable | src/app/page.tsx:111-125 | elements with equal keys keep their relative order |
| Sorting.SortOfSorted | src/app/page.tsx:111-125 | an already sorted sequence is returned unchanged |
| Sorting.SortIdempotent | src/app/page.tsx:111-125 | sorting the sorted view again changes nothing |
| Sorting.SortInPlace | src/app/page.tsx:111 | the in-place insertion sort leaves the array holding the stable sort of its old contents |
| Filtering.FilterSeq | src/app/page.tsx:95-106 | the filter returns no more records than it gets, and a record occurs in the result exactly when it occurs in the input and passes the predicate |
| Filtering.FilterCount | src/app/page.tsx:95-106 | every record that passes is kept as often as it occurs in the input, and one that fails is not kept at all |
| Filtering.KeepIsConjunction | src/app/page.tsx:96-105 | a record is kept iff it is not before `dateFrom`, not after `dateTo`, and matches a non-empty query |
| Filtering.InvalidDateNeverExcluded | src/app/page.tsx:96-98 | a record with an invalid date is kept or dropped by the query alone |
| Filtering.InactiveKeepsAll | src/app/page.tsx:94-106 | with no bound and an empty query every record passes |
| Filtering.FilterIsSubsequence | src/app/page.tsx:95-106 | the kept records are a subsequence of the input in input order |
| Filtering.FilterSubMultiset | src/app/page.tsx:95-106 | the filter duplicates no record |
| Filtering.FilterKeepingAll | src/app/page.tsx:95-106 | when every record passes, the filter returns its input unchanged |
| Filtering.QuerySearchesValues | src/app/page.tsx:99-104 | the query "bill" misses a record that has it only as the field name "T-Bill", and matches the value "T-Bill" regardless of case |
| Loader.NormalizeObject | src/app/page.tsx:49-58 | an object body yields the array of its first array-valued property, or fails with "No array found in JSON data" when there is none or when that property's key is empty |
| Loader.HttpFailureMessage | src/app/page.tsx:44-46 | a non-ok status fails before the body is read, with "HTTP error! status: " followed by the status's decimal string, which reads back as the status |
| Loader.HttpMessagesDistinct | src/app/page.tsx:44-46 | different statuses give different messages |
| Loader.EmptyKeyArrayIgnored | src/app/page.tsx:53-57 | an array under the key "" is not used |
| Loader.FirstArrayFieldScenario | src/app/page.tsx:49-58 | `{"items": [..], "meta": {}}` yields the items and `{"meta": {}}` fails |
| Page.SortToggle | src/app/page.tsx:78-84 | activating a key makes it the sort key; a new key sorts ascending, the current key flips its direction |
| Page.SortToggleCycle | src/app/page.tsx:78-84 | repeated activation of one key alternates the direction with period two; from another key three clicks give ascending, descending, ascending; from the initial date-descending state a click on "date" gives ascending |
| Page.FilterStepIsFilterSeq | src/app/page.tsx:94-107 | skipping the filter when no setting is active gives the same records as filtering |
| Page.ProcessIdentity | src/app/page.tsx:90-129 | with no filter setting and no sort key the view equals `data` |
| Page.ProcessContents | src/app/page.tsx:90-129 | the view holds exactly the records of `data` that pass the filter, each exactly as often as in `data`, and is a permutation of `data` when no filter is active |
| Page.ProcessUnsorted | src/app/page.tsx:94-110 | without a sort key the view is an order-preserving subsequence of `data` |
| Page.ProcessSorted | src/app/page.tsx:109-126 | with a sort key the view puts null or undefined keys last, orders defined keys in the chosen direction, and is stable with respect to the filtered records |
| Page.DataViewerPage.constructor | src/app/page.tsx:30-35 | the page starts with no data, loading, no error, sorted by date descending, and empty draft and applied filters |
| Page.DataViewerPage.StartFetch | src/app/page.tsx:40-41 | a fetch starts by setting the loading flag and clearing the error |
| Page.DataViewerPage.FinishFetch | src/app/page.tsx:42-71 | on success the records are stored; on failure the data is emptied and the error holds the message; the loading flag is cleared on every path |
| Page.DataViewerPage.FetchData | src/app/page.tsx:39-72 | after a fetch the data is the loaded records with no error, or empty with the failure message, the loading flag is off, and the sort and filter settings are untouched |
| Page.DataViewerPage.HandleSort | src/app/page.tsx:78-84 | only the sort configuration changes, to the toggled one |
| Page.DataViewerPage.HandleApplyFilters | src/app/page.tsx:86-88 | the applied filters become the draft; nothing else changes |
| Page.DataViewerPage.SetDraftDateFrom | src/app/page.tsx:176 | picking a start date changes only the draft's `dateFrom` |
| Page.DataViewerPage.SetDraftDateTo | src/app/page.tsx:190 | picking an end date changes only the draft's `dateTo` |
| Page.DataViewerPage.SetDraftQuery | src/app/page.tsx:196 | typing a query changes only the draft's query, so the applied filters and the view stay as they were |
| Page.DataViewerPage.FilteredAndSortedData | src/app/page.tsx:90-129 | filtering and then sorting a fresh array in place yields the view `Process` describes, and leaves `data` as it was |
| Chart.ChartData | src/components/data-chart.tsx:35-40 | the series has one point per record, and point i carries the date and metric value of record n-1-i |
| Chart.ChartableKeysSpec | src/components/data-chart.tsx:17-31 | the selectable metrics are the ten record fields after "date", in declared order; "date" is not one of them and the initial selection "OMO" is the first |
| Chart.RequestPayload | src/components/data-chart.tsx:46-48 | the request carries the first min(50, n) points of the series, in series order, that is records n-1 down to n-min(50, n) |
| Chart.ChartTypeLabelSpec | src/components/data-chart.tsx:48 | the label is "Line chart showing ", the metric, then " over time", and different metrics give different labels |
| Chart.ChartChronological | src/components/data-chart.tsx:39 | reversing a view sorted by date descending gives undated points first and then dates that never decrease in the comparator's order (lexicographic for strings) |
| Chart.InitialViewChartChronological | src/components/data-chart.tsx:36-39 | under the page's initial sort, whatever the filters, the chart's dates never decrease in the comparator's order; for ISO 8601 date strings in one format that is chronological |
| Chart.DataChart.constructor | src/components/data-chart.tsx:31-33 | the panel starts on "OMO" with no description and not generating |
| Chart.DataChart.SelectMetric | src/components/data-chart.tsx:64 | choosing a metric from the list changes only the selected metric |
| Chart.DataChart.StartGenerating | src/components/data-chart.tsx:43-49 | at the start the panel is generating with an empty description, the generate button is disabled, and the request is built from the current series and metric |
| Chart.DataChart.FinishGenerating | src/components/data-chart.tsx:50-56 | on success the description is the returned text, on failure the fixed apology, and generating is off either way |
| Chart.DataChart.HandleGenerateDescription | src/components/data-chart.tsx:42-57 | the whole handler sends the first-50-points request, labelled with one of the chartable metrics, and ends with generating off and the success text or the apology shown |

## Left out

- The network request, `response.json()` and JSON parsing are not modelled; their result is the `FetchOutcome` input.
- The refetch on URL change, the URL field, the disabled state of the fetch button, overlapping fetches or description requests, and toasts are not modelled: they are scheduling and UI.
- Field values are integers or strings or null. Floating-point numbers, booleans, nested values and `NaN` are not represented.
- `String(val)` is modelled for integers only, and `toLowerCase` for ASCII letters only.
- Date parsing is the `DateParser` parameter. ISO 8601 parsing and calendar arithmetic are not modelled.
- Array elements of a fetched body are taken to be records. An object's properties are given in the runtime's enumeration order, each key once; the reordering of integer-like keys is the runtime's.
- SortByKeySpec: keeps records whose key is null or undefined in their input order. The source comparator returns 1 for two such records, which is inconsistent, so their order depends on the engine's sort.
- SortByKeySpec: orders a number before a string when one record's key is a number and the other's a string. JavaScript's `<` converts the string to a number there (`5 < "10"` is true, and a non-numeric string gives NaN, so both comparisons are false), which can make the comparator inconsistent, and the order the engine's sort then produces is not specified.
- JsLess: a number compared with a string yields false both ways; JavaScript's numeric conversion of the string is not modelled.
- StrLess: compares characters by Unicode code point. JavaScript compares UTF-16 code units, so a character above U+FFFF sorts before one in U+E000..U+FFFF there and after it here; the two orders agree on text within the Basic Multilingual Plane.
- IntToDecimal: numbers are unbounded integers. JavaScript numbers are doubles: integers above 2^53 are not exact, and `String` writes magnitudes of 1e21 and above in exponent form (`1e+21`) where `IntToDecimal` writes all digits.
- `Array.prototype.sort` is modelled by a stable insertion sort. The language requires the sort to be stable; the engine's own algorithm is not modelled.
- NullKeysMessage: is V8's text for the TypeError `Object.keys(null)` throws. The language requires only a TypeError; its message depends on the engine, so another browser shows a different `error`.
- The `console.error` call on the description handler's failure path (src/components/data-chart.tsx:52) is not modelled: it is logging only.
- The description request holds the points, not their `JSON.stringify` text.
- The description service (`src/ai/flows/generate-chart-description.ts`) is not part of this model. It is an opaque call whose outcome is the `ServiceResult` input.
- The chart's tick and tooltip formatting (`format`, `toLocaleString`) and all markup are not modelled.
- `src/components/data-table.tsx` is presentational and is not part of this model. `src/types/index.ts` supplies only the record field list `Records.RecordFields`.
