# Grain-Mapper dashboard list logic, in Dafny

Grain-Mapper is a Next.js dashboard for beach sand samples. Field devices
report a sample's location, state, device id, beach type, grain size,
temperature, humidity and instant. This project models the logic of the
dashboard's pages over those samples and proves what those pages promise:

- **Data table** (`app/data/page.js`):
  - the search-and-type filter;
  - the column sort with its never-zero comparator;
  - pagination by eight, with `Previous`/`Next`;
  - the beach-type options;
  - the sort-header toggle.
- **Device administration** (`app/admin/page.js`):
  - the device list derived from the samples, one device per device id, in first-seen order;
  - search;
  - add, edit and delete;
  - the modal form's state.
- **Reports** (`app/reports/page.js`):
  - the CSV export's line and cell structure;
  - the summary statistics: count, samples per beach type and date range.
- **Overview** (`app/page.js`):
  - the beach-type pie data, built by a `reduce` that counts in first-seen order;
  - the first-ten grain-size bars;
  - the cycling slice colours.
- **Map** (`app/map/page.js`): the grain-size marker colour classes.
- **Theme** (`app/client-layout.js`): the dark-mode flag and its persistence in browser storage.
- **Settings** (`app/settings/page.js`): the settings page's switches and the save notice.

Modules:

- `Lists`:
  - `Select` is JavaScript's `filter`;
  - `Dedup` is `[...new Set(xs)]`;
  - `FirstIndex` is `find`/`indexOf`.
- `Text`:
  - ASCII `toLowerCase`;
  - `includes`;
  - `split` and `join`, with the lemmas relating them.
- `Samples`: the sample record and per-type counts.
- `DataTable`, `Devices`, `Reports`, `Overview`, `MapMarkers`, `Theme` and `Settings` follow the pages above.

Where a page keeps React state that its handlers update, the model is a class. Its fields are that state, and each handler is a method that states the whole new state:

- `DataTable.TableView`;
- `Devices.AdminPanel`;
- `Theme.ThemeProvider`;
- `Settings.SettingsPanel`.

Derived values are functions of that state. The `useMemo` lists and the filtered device list are examples. The table sort works in place (`Array.prototype.sort`). It is modelled as an insertion sort on an `array`, proved to produce a permutation ordered by the page's comparator.

Where descriptions of the dashboard and its code disagree, the model follows the code:

- `totalPages` is `Math.ceil(n / 8)`, which is 0 when nothing matches, not at least 1.
- With no matches, `Next` is not disabled (`1 === 0` is false). Clicking it sets the page to `Math.min(0, 2) = 0`. `TableView.NextPage` states this.
- The map legend calls the coarse class "&gt;0.5mm", but `getMarkerColor` already gives a grain of exactly 0.5 mm the coarse colour (`MapMarkers.HalfMillimetreIsCoarse`).

## Model

| member | source | states |
|---|---|---|
| DataTable.FilterSamples | app/data/page.js:41-46 | a sample is kept exactly when its lower-cased location or device id contains the lower-cased search term and the type filter is "all" or equals its beach type; each kept sample appears as often as in the input |
| DataTable.Matches | app/data/page.js:42-45 | a sample matches exactly when the lower-cased term is a substring of its lower-cased location or device id, and the filter is "all" or its beach type |
| Lists.Select | app/data/page.js:41 | `filter` returns exactly the input's elements that pass, and is no longer than the input |
| DataTable.EmptySearchKeepsAll | app/data/page.js:41-46 | with an empty search term and the "all" filter every sample is kept, in the original order |
| DataTable.FilterIdempotent | app/data/page.js:41-46 | filtering an already filtered list with the same term and type changes nothing |
| Lists.SelectAppend | app/data/page.js:41 | `filter` keeps relative order: filtering a concatenation is the concatenation of the filtered parts |
| Lists.SelectCount | app/data/page.js:41 | `filter` keeps each passing element exactly as often as it occurs and drops every failing one |
| Lists.SelectKeepsAll | app/data/page.js:41 | a `filter` whose predicate holds for every element returns the list unchanged |
| Text.Includes | app/data/page.js:42-43 | the scanning `includes` is true exactly when the term occurs at some position of the text |
| Text.IncludesEmpty | app/data/page.js:42-43 | every text includes the empty term |
| Text.LowerIdempotent | app/data/page.js:42 | lower-casing twice is lower-casing once |
| Text.Lower | app/data/page.js:42-43 | `toLowerCase` keeps the length, lower-cases each letter and leaves no upper-case letter |
| DataTable.LexTrichotomy | app/data/page.js:57-61 | string comparison orders any two different strings one way or the other |
| DataTable.LexTransitive | app/data/page.js:57-61 | string comparison is transitive |
| DataTable.LexIrreflexive | app/data/page.js:57-61 | no string is below itself |
| DataTable.KeyGreater | app/data/page.js:49-58 | `aVal > bVal` on the chosen column; equal values are never greater |
| DataTable.KeyGreaterAsymmetric | app/data/page.js:49-58 | of two samples, at most one holds the greater value in a column |
| DataTable.Comparator | app/data/page.js:48-62 | the comparator answers 1 or -1 and never 0; it answers -1 for equal values; when it puts a after b it would put b before a |
| DataTable.MayPrecede | app/data/page.js:48-62 | a may stand before b when the comparator answers -1; samples with equal keys may stand either way round |
| DataTable.MayPrecedeTotal | app/data/page.js:48-62 | for any field and direction, of two samples at least one may come first |
| DataTable.MayPrecedeTransitive | app/data/page.js:48-62 | "may come first" is transitive for every field and direction |
| DataTable.ComparatorIsOrder | app/data/page.js:48-62 | the comparator's "may come first" relation is a total preorder, so a sorted result exists |
| DataTable.SortedByKeyOrder | app/data/page.js:48-62 | a sorted result is exactly one in key order: ascending, no row's key is greater than a later row's; descending, no later row's key is greater than an earlier row's |
| DataTable.SortInPlace | app/data/page.js:48 | sorting in place leaves a permutation of the array in which every element may come before every later one |
| DataTable.FilterAndSort | app/data/page.js:40-65 | the memoised list is a permutation of the filtered samples, ordered by the chosen key ascending or descending |
| DataTable.TotalPages | app/data/page.js:72 | the page count is the least t with 8t covering the rows: 8t is at least n, 8(t-1) is below n, and t is 0 exactly when n is 0 |
| DataTable.SliceBound | app/data/page.js:69 | a `slice` bound is clamped to the length, and a negative bound counts from the end but not below 0 |
| DataTable.JsSlice | app/data/page.js:69 | `slice` holds exactly the elements from the clamped start up to the clamped end, in order, and none when the end is not past the start |
| DataTable.Page | app/data/page.js:67-70 | a page has at most 8 rows; for page p of at least 1 it holds exactly the rows from index 8(p-1), as many as remain up to 8; page 0 and pages past the last are empty |
| DataTable.PagesCoverRows | app/data/page.js:67-72 | pages 1 to totalPages, concatenated, give back the whole list |
| DataTable.BeachTypeOptions | app/data/page.js:93 | the options are distinct and are exactly the beach types that occur, in order of first occurrence |
| Lists.DedupFirstSeenOrder | app/data/page.js:93 | `[...new Set(xs)]` lists its values in order of their first occurrence in `xs` |
| Lists.Dedup | app/data/page.js:93 | `[...new Set(xs)]` holds the same values as `xs`, each once, and is no longer than `xs` |
| DataTable.TableView.constructor | app/data/page.js:13-19 | empty search, "all" filter, timestamp descending, page 1 |
| DataTable.TableView.SetSearchTerm | app/data/page.js:129 | the search term becomes the typed text; nothing else changes |
| DataTable.TableView.SetFilterType | app/data/page.js:138 | the type filter becomes the chosen value; nothing else changes |
| DataTable.TableView.HandleSort | app/data/page.js:74-81 | clicking the sorted column flips the direction; clicking another column sorts by it ascending |
| DataTable.TableView.PreviousPage | app/data/page.js:267 | the page goes back by one but not below 1 |
| DataTable.TableView.NextPage | app/data/page.js:277 | the page goes forward by one but not past totalPages, which makes it 0 when nothing matches |
| DataTable.TableView.VisibleRows | app/data/page.js:40-72 | the shown rows are the current page of the sorted, filtered samples; at most 8; none when the page is past the last |
| Samples.CountOfType | app/reports/page.js:87 | a type's count is at most the number of samples and is 0 exactly when no sample has that type |
| Samples.CountsAddUp | app/reports/page.js:86-89 | the per-type counts over the distinct types add up to the number of samples |
| Devices.UniqueDevices | app/admin/page.js:37-46 | one device per distinct device id in first-seen order, whose id and device id are that id and whose status is "active" |
| Devices.UniqueDevicesOnePerId | app/admin/page.js:37-46 | every sample's device id has a device, device ids are distinct, and devices follow the order of their first samples |
| Devices.UniqueDeviceTakesFirstSample | app/admin/page.js:38-43 | a derived device takes its location and state from the first sample with its id |
| Devices.FirstSampleOf | app/admin/page.js:38 | `find` returns the first sample whose device id matches |
| Lists.FirstIndex | app/admin/page.js:38 | the position found holds the value and no earlier position does |
| Devices.SearchDevices | app/admin/page.js:84-88 | a device is listed exactly when its lower-cased device id, location or state contains the lower-cased term |
| Devices.DeviceMatches | app/admin/page.js:85-87 | a device matches exactly when the lower-cased term is a substring of its lower-cased device id, location or state |
| Devices.EmptySearchListsAll | app/admin/page.js:84-88 | an empty search lists every device in order |
| Devices.ReplaceById | app/admin/page.js:58 | editing keeps the list's length and ids; the devices with the edited id take the form's fields; all others are unchanged |
| Devices.WithId | app/admin/page.js:58-60 | `{ ...formData, id }` has the given id and exactly the form's fields |
| Devices.ReplaceTwice | app/admin/page.js:58 | saving an edit twice is saving the second form |
| Devices.RemoveById | app/admin/page.js:68 | deletion keeps exactly the devices with other ids, each as often as before |
| Devices.RemoveIdempotent | app/admin/page.js:68 | deleting the same id twice is deleting it once |
| Devices.AddThenRemove | app/admin/page.js:60-68 | adding a device with a new id and deleting it gives back the list |
| Devices.AdminPanel.constructor | app/admin/page.js:10-20 | the given devices, empty search, closed modal, no device being edited, an empty form with status "active" |
| Devices.AdminPanel.SetSearchTerm | app/admin/page.js:113 | the search term becomes the typed text |
| Devices.AdminPanel.OpenModal | app/admin/page.js:118 | the add button opens the modal and changes nothing else |
| Devices.AdminPanel.SetFormDeviceId | app/admin/page.js:181 | only the form's device id changes |
| Devices.AdminPanel.SetFormLocation | app/admin/page.js:191 | only the form's location changes |
| Devices.AdminPanel.SetFormState | app/admin/page.js:201 | only the form's state changes |
| Devices.AdminPanel.SetFormStatus | app/admin/page.js:209 | only the form's status changes |
| Devices.AdminPanel.ResetForm | app/admin/page.js:78-82 | the form is emptied with status "active", nothing is being edited and the modal closes |
| Devices.AdminPanel.HandleEdit | app/admin/page.js:72-76 | the device becomes the one being edited, fills the form and opens the modal |
| Devices.AdminPanel.HandleSubmit | app/admin/page.js:55-64 | when editing, the edited id's devices take the form; otherwise the form plus the fresh id is appended; then the form resets |
| Devices.AdminPanel.SubmitForm | app/admin/page.js:177-203 | the submit handler runs exactly when the three required inputs are non-empty; otherwise nothing changes |
| Devices.AdminPanel.HandleDelete | app/admin/page.js:66-70 | after confirmation the devices with that id are removed; without it nothing changes |
| Reports.RowCells | app/reports/page.js:54-62 | a sample's row has one cell per header |
| Reports.CsvLines | app/reports/page.js:52-63 | the export has the header line and one line per sample |
| Reports.CsvLineStructure | app/reports/page.js:51-63 | when no cell holds a line break, splitting the file at line breaks gives the header line and then sample i's row on line i+1 |
| Reports.Quoted | app/reports/page.js:55 | a quoted cell is the text, unchanged, between two double quotes |
| Reports.Row | app/reports/page.js:54-62 | when no cell holds a comma, splitting a row at commas gives back its seven cells |
| Reports.Csv | app/reports/page.js:52-63 | the file is non-empty and does not end with a line break |
| Text.Join | app/reports/page.js:53-63 | joining no parts gives "" and one part gives that part; the lemmas Text.JoinSplit and Text.SplitJoin relate it to `split` |
| Text.SplitJoin | app/reports/page.js:52-63 | splitting a join at its separator gives back the parts when no part holds the separator |
| Reports.CsvNoTrailingNewline | app/reports/page.js:52-63 | the header and rows joined by line breaks are non-empty and never end with a line break: the last character is the closing quote of the last row's beach type, or the "e" of the header's "Beach Type" when there are no samples |
| Reports.Earliest | app/reports/page.js:98 | `Math.min` of the instants is one of them and no later than any |
| Reports.Latest | app/reports/page.js:99 | `Math.max` of the instants is one of them and no earlier than any |
| Reports.CountBeachTypes | app/reports/page.js:86-89 | the counting map's keys are exactly the beach types present, each mapped to its number of samples, which is at least 1 |
| Reports.SummaryStats | app/reports/page.js:79-102 | no summary for no samples; otherwise the sample count, the per-type counts, and a date range attained by samples that contains every sample's instant |
| Overview.FindEntry | app/page.js:34 | `find` gives the first entry with the name, or none when no entry has it |
| Overview.Tally | app/page.js:34-39 | the reducer's step adds one to the entry of the sample's type, or appends that type with value 1 |
| Overview.BeachTypeData | app/page.js:33-41 | the pie entries name each beach type once in first-seen order, carry its sample count (at least 1), and add up to the number of samples |
| Overview.ShortLocation | app/page.js:44 | the short location is the text before the first comma: a prefix without a comma, followed by a comma unless it is the whole text |
| Text.Split | app/page.js:44 | `split` gives at least one piece and no piece holds the separator |
| Text.JoinSplit | app/page.js:44 | joining the pieces of a split with the separator gives back the text |
| Overview.GrainSizeData | app/page.js:43-47 | the bars are the first ten samples (or all when fewer), in order, with grain size, state and short location |
| Overview.ColorIndex | app/page.js:144 | a slice's colour index is below the number of colours and equals the slice index for the first five |
| Overview.ColorCycle | app/page.js:144 | colours repeat every five slices and two neighbouring slices never share a colour |
| MapMarkers.MarkerColor | app/map/page.js:102-107 | green exactly below 0.3, blue exactly in [0.3, 0.4), yellow exactly in [0.4, 0.5), red exactly from 0.5 |
| MapMarkers.MarkerColorMonotone | app/map/page.js:102-107 | a coarser grain never gets a finer colour class |
| MapMarkers.HalfMillimetreIsCoarse | app/map/page.js:106 | a grain of exactly 0.5 mm is coloured coarse |
| Theme.ShowFlag | app/client-layout.js:24 | the text the toggle stores is never empty, so the restore effect's `if (saved)` accepts it |
| Theme.ParseFlag | app/client-layout.js:17 | parsing reads back exactly the two texts the toggle stores, each as the mode it was stored for |
| Theme.Restored | app/client-layout.js:14-19 | a missing or empty stored value keeps the mode; a stored flag replaces it |
| Theme.ThemeProvider.constructor | app/client-layout.js:12 | the layout starts in light mode |
| Theme.ThemeProvider.Restore | app/client-layout.js:14-19 | the mount effect sets the mode restored from storage |
| Theme.ThemeProvider.Toggle | app/client-layout.js:21-25 | the mode flips and storage holds the new mode under "darkMode", nothing else in storage changing |
| Theme.RestoreAfterToggle | app/client-layout.js:14-25 | a reload, starting from any mode, finds the mode the last toggle stored |
| Theme.ToggleTwice | app/client-layout.js:21-25 | two toggles give back the starting mode, with that mode stored |
| Settings.Flip | app/settings/page.js:114-152 | a notification switch flips its own channel and leaves the other two alone |
| Settings.FlipTwice | app/settings/page.js:114-152 | flipping a channel twice restores the settings |
| Settings.FlipsCommute | app/settings/page.js:114-152 | flips of two channels commute |
| Settings.SettingsPanel.constructor | app/settings/page.js:11-19 | email on, push and SMS off, retention "1year", auto-sync on, language "en", not saved |
| Settings.SettingsPanel.ToggleChannel | app/settings/page.js:114-152 | the notifications become the flip of the chosen channel |
| Settings.SettingsPanel.ToggleAutoSync | app/settings/page.js:201 | auto-sync flips |
| Settings.SettingsPanel.SetLanguage | app/settings/page.js:83 | the language becomes the chosen value |
| Settings.SettingsPanel.SetDataRetention | app/settings/page.js:184 | the retention becomes the chosen value |
| Settings.SettingsPanel.HandleSave | app/settings/page.js:21-22 | saving shows the saved notice |

## Left out

- Loading the samples and devices is left out: the fetches of `/samples.json` and `/devices.json`, the artificial one-second delays, the loading flags and the error logging. Samples enter the model as a value. Because they are a value, "the table never modifies the samples" holds by construction.
- The `devices.json` branch of the admin page's loader is left out. It only stores what it fetches. The model keeps the fallback, which derives devices from the samples.
- The PDF export and the download plumbing are left out: the Blob, the object URL, the anchor click and the file name with today's date.
- Locale date formatting (`toLocaleDateString`) and number-to-text conversion are left out. They are parameters of the CSV functions.
- Reports.Summary: the averages and their `toFixed` rounding are left out, because they are floating-point arithmetic. The overview's average temperature and humidity are left out for the same reason.
- `Date.now().toString()` for a new device's id is a parameter. So is the answer of `confirm`.
- Theme.Restored: only the exact texts "true" and "false" are parsed back. The toggle stores nothing else. Other non-empty stored text leaves the mode unchanged in the model. The page would instead throw, set a non-boolean value, or set a boolean for a flag surrounded by JSON whitespace (`JSON.parse(" true")` is `true`).
- Theme.ThemeProvider: browser storage is a map field. Its persistence across page loads is not modelled.
- Settings.SettingsPanel.HandleSave: the two-second timer that hides the notice again is not modelled.
- The settings page's dark-mode switch calls the layout's toggle. That toggle is modelled once, as Theme.ThemeProvider.Toggle.
- Rendering is left out: JSX, the charts, the sample-detail modal (`selectedSample`, `modalOpen`), the sidebar, header and layout components, and the "Showing x to y of n" text.
- DataTable.SortInPlace: the comparator answers -1 when an element is compared with itself, where the Array.prototype.sort section of ECMA-262 requires 0 ("a =CF a"), so it is not a consistent comparator and the language itself then promises only a permutation. The model promises key order as well, because the comparator answers correctly for every pair with different keys, and says nothing about the order of ties.
- DataTable.SortInPlace: the engine's sort algorithm is not modelled; an insertion sort stands in for it.
- Reports.Quoted: quotes inside a location or beach type are not doubled as section 2, rule 7 of RFC 4180 asks. So the export is not proved to parse back for all inputs. Reports.CsvLineStructure and Reports.Row state the structure that does hold when no cell contains the separator.
- Text.Lower lower-cases ASCII letters only. Full Unicode case mapping is not modelled.
- DataTable.LexLess compares strings by character value, not by UTF-16 code units. The two orders differ only outside the Basic Multilingual Plane.
- Reports.CountBeachTypes: the key order of the JavaScript object (`Object.entries`) is not modelled.
- Reports.CountBeachTypes: the page counts into a plain `{}` that inherits from `Object.prototype`. It miscounts or drops beach types named after its properties: "constructor" yields a string instead of 1, and an assignment to "__proto__" is ignored, so that type never appears. "toString", "valueOf", "hasOwnProperty" and similar names behave the same way. The model counts every type correctly.
- Reports.SummaryStats: its per-type counts come from the same `{}` accumulator. Beach types named after `Object.prototype` properties are miscounted or dropped by the page and counted correctly by the model.
- Overview.Tally: `existing.value += 1` mutates an accumulator object in place. The model updates the entry in a sequence.
- DataTable.TableView.NextPage is modelled as written. The page it can reach with no matches (0) is stated in its contract and not corrected.
