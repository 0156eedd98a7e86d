# Disaster dashboard: filters, incident reports and chart counts

The dashboard keeps a list of disaster records: eight samples at load, and one more for each incident report a user submits. It shows the records as map markers, filters them from a search box, three drop-downs and two date inputs, and draws analytics charts from them. This project models the three parts of `script.js` that are record logic rather than page wiring:

- **Filtering** (`Filters`). `applyFilters` keeps the records that pass five conditions:
  - a case-insensitive search of title, description and location;
  - an exact type match, with `'all'` as a wildcard;
  - an exact severity match, with `'all'` as a wildcard;
  - a state match, where the value's first `-` becomes a space and the result is searched for in the lower-cased location;
  - an inclusive date range.

  The filter is a pure function over the record list.
- **Incident reports** (`Reporting`). The submit handler checks that the required fields are filled. It then pushes a new record onto the shared `disasters` array:
  - the id is `D` followed by the new length, zero-padded to three digits;
  - the status is `reported`;
  - the affected count is 0.

  The array is the `disasters` field of the class `Dashboard`, and `Submit` reassigns it.
- **Chart data** (`Analytics`). `initCharts` counts records per type and per reporting day (the part of `reported` before `T`) in `forEach` loops over a JavaScript object. It then sorts the day keys. These are methods with loop invariants. A map plus the order in which keys were first set stands for the object.

`Text` holds the string operations these parts borrow from JavaScript:
- `toLowerCase` and `toUpperCase`;
- `includes`;
- `replace` with a string pattern, with the first-occurrence search it performs;
- `padStart`;
- `split(...)[0]`;
- the decimal `toString`;
- the string order used by the default `sort`.

`Incidents` holds the record type and the sample data. `type` is a keyword in Dafny, so the record's `type` property is the field `kind`.

Inputs from the browser become parameters:
- `dateOf: string -> Option<int>` stands for `new Date(reported)`. Its result is an abstract timestamp. `None` is an Invalid Date, and every comparison with it is false.
- The date inputs are `Option<int>`; `None` is an empty input.
- The report's coordinates are the result of `parseFloat` as an `Option<real>`; `None` is NaN.
- The clock reading `new Date().toISOString()` is the `now` argument of `Submit`.

## Model

| member | source | states |
|---|---|---|
| `Filters.ApplyFilters` | script.js:302-339 | A record is in the result exactly when it is in the list and passes every condition. The search term is the input lower-cased. Type and severity must equal the chosen value unless it is `all`. The state value, with its first `-` made a space, must occur in the lower-cased location unless it is `all`. The date must lie within the given bounds. |
| `Filters.Select` | script.js:310-339 | The filter callback applied to every record. The result is never longer than the input. A kept record appears as often as in the input; a rejected one never appears. |
| `Filters.FilterIsSubsequence` | script.js:310-339 | The result is a subsequence of the records: nothing added, duplicated or reordered. |
| `Filters.SelectAppend` | script.js:310-339 | Filtering decides record by record: filtering `a + b` gives filter(`a`) + filter(`b`). |
| `Filters.ResetKeepsAll` | script.js:312-336 | With an empty search, `all` in the three drop-downs and both dates empty (the reset state of script.js:347-358), every record is kept, in order. |
| `Filters.KeptMatchesKindAndSeverity` | script.js:317-321 | Every kept record has exactly the chosen type and the chosen severity, unless the choice is `all`. |
| `Filters.SearchIgnoresCase` | script.js:303-315 | Searching for text or its lower-cased form keeps the same records. With a non-empty search, a kept record has the lower-cased text in its lower-cased title, description or location. |
| `Filters.DateRangeInclusive` | script.js:326-336 | When the other filters are open and a record's date is valid, the record is kept iff `from <= date` (when `from` is set) and `date <= to` (when `to` is set). Both bounds are inclusive. |
| `Filters.InvalidDateNeedsOpenRange` | script.js:327-336 | A record whose date is an Invalid Date is kept only when both date inputs are empty. |
| `Filters.StateFilterMatch` | script.js:323-324 | For a record passing a state value other than `all`, the value's first `-` is replaced by a space, and only that one. The resulting text occurs in the lower-cased location. The value is not lower-cased, so a value holding an upper-case letter keeps no record. |
| `Text.Lower` | script.js:303-324 | `toLowerCase`: the result has the input's length, and each character is the input's character lower-cased (ASCII `A`-`Z` to `a`-`z`, all else kept). |
| `Text.Contains` | script.js:312-324 | `includes`, defined by recursion: the needle is the haystack's prefix or is found in its tail. `Text.ContainsIff` states its meaning. |
| `Text.ContainsIff` | script.js:313-315 | The recursive `includes` holds iff the needle occurs at some offset of the haystack. |
| `Text.FoundInLowerHasNoUpper` | script.js:324 | Any text found inside a string without upper-case letters has no upper-case letter either. |
| `Text.LowerIdempotent` | script.js:303 | Lower-casing an already lower-cased string changes nothing. |
| `Text.IndexOf` | script.js:324 | The first-occurrence search that `replace` performs here (and `split` at script.js:482); it also gives a key's first position for `Analytics.FirstOccurrencesInOrder`. The result is -1 iff the element is absent. Otherwise the element is at the result, and not before it. |
| `Text.ReplaceFirst` | script.js:324 | The length is unchanged. Without the pattern character, the string is unchanged. Otherwise only its first occurrence is replaced. |
| `Text.Capitalize` | script.js:407 | `charAt(0).toUpperCase() + slice(1)` (also script.js:440): same length, the first character upper-cased and the rest unchanged; the empty string stays empty. |
| `Text.PadStart` | script.js:402 | The result has length max(`n`, the input's length). It ends with the input and is filled with the pad character before it. |
| `Text.Decimal` | script.js:402 | The decimal form is non-empty and all digits. It starts with `0` only when the number is 0, and then it is exactly `0`. |
| `Text.DecimalRoundTrip` | script.js:402 | Reading back the decimal form of `n` gives `n`. |
| `Text.ParseIgnoresLeadingZeros` | script.js:402 | Zeros added in front do not change the value read. |
| `Text.Before` | script.js:482 | `split('T')[0]` is a prefix of the string and holds no `T`. When shorter than the string, the next character is `T`. It is the whole string iff there is no `T`. |
| `Text.LexLeqReflexive` | script.js:487 | The sort order is reflexive. |
| `Text.LexLeqTotal` | script.js:487 | Any two strings are comparable in the sort order. |
| `Text.LexLeqAntisymmetric` | script.js:487 | Two strings each ordered before the other are equal. |
| `Text.LexLeqTransitive` | script.js:487 | The sort order is transitive. |
| `Reporting.IsComplete` | script.js:395 | The validation: type, severity, location and description are non-empty and neither parsed coordinate is NaN. |
| `Reporting.FormatId` | script.js:402 | An id is at least four characters: `D` followed by digits only. |
| `Reporting.FormatIdShape` | script.js:402 | An id is `D`, then `0`s up to three digits, then the decimal form of the number in full. Its length is 1 + max(3, number of digits). |
| `Reporting.FormatIdRoundTrip` | script.js:402 | The digits after the `D` read back as the number the id was made from. |
| `Reporting.FormatIdInjective` | script.js:402 | Different record counts give different ids. |
| `Reporting.FormatIdPads` | script.js:402 | Record 9 gets `D009`: padded to three digits. |
| `Reporting.FormatIdDoesNotTruncate` | script.js:402 | Record 1000 gets `D1000`: never cut to three digits. |
| `Reporting.NewDisaster` | script.js:400-413 | The new record has these fields. Its id is `FormatId` of the old length + 1: `D` plus at least three digits that read as that number. Its title is the capitalised type, ` in `, then the location. Its status is `reported`, its affected count 0 and its timestamp `now`. Type, severity, location, description and coordinates come from the form. |
| `Reporting.NumberedIdsDistinct` | script.js:39-144 | Records numbered D001, D002, ... in array order have pairwise distinct ids. |
| `Reporting.NextIdIsFresh` | script.js:401-416 | Suppose the records are numbered in order. Then the id given to the next record differs from every existing id, and appending that record keeps the numbering. |
| `Reporting.SeedNumberedInOrder` | script.js:39-144 | The eight sample records are numbered D001 to D008 in order. |
| `Reporting.Dashboard.constructor` | script.js:38-144 | The page starts with the eight sample records, numbered in order. |
| `Reporting.Dashboard.Submit` | script.js:383-416 | A report is accepted iff type, severity, location and description are non-empty and neither coordinate is NaN. A rejected report leaves `disasters` unchanged. An accepted one appends exactly one new record built from the form and the old length, and leaves every earlier record unchanged. Numbering in order is preserved. |
| `Analytics.FirstOccurrences` | script.js:434-441 | The keys of the counting object in `Object.keys` order: distinct, and exactly the keys counted. |
| `Analytics.FirstOccurrencesInOrder` | script.js:434-441 | The keys are listed in order of first appearance: a key listed earlier first occurs earlier in the input. |
| `Analytics.Tally` | script.js:434-437 | The `forEach` counting loop (also script.js:480-484). Its keys are `FirstOccurrences` of the input: exactly the distinct input keys, in order of first appearance. Each key's count is its number of occurrences. |
| `Analytics.SumOfTallies` | script.js:434-437 | Consider per-key counts over a list of distinct labels that covers every key. They add up to the number of keys. |
| `Analytics.SumBump` | script.js:436 | Raising one count by one raises the total by one. |
| `Analytics.DistinctPermutation` | script.js:487 | Sorting a list without repetitions gives a list without repetitions. |
| `Analytics.Insert` | script.js:487 | One insertion-sort step keeps the list ascending and adds exactly the new element. |
| `Analytics.AscendingPermutationUnique` | script.js:487 | Two ascending lists with the same elements are equal, so the sorted day keys do not depend on the sort algorithm. |
| `Analytics.Sort` | script.js:487 | `Object.keys(timeData).sort()`: the result is ascending in string order and a permutation of the input. |
| `Analytics.CountByType` | script.js:432-441 | There is one label per distinct type, in order of first appearance, capitalised. Its count is the number of records of that type. The counts add up to the number of records. |
| `Analytics.CountByDate` | script.js:479-488 | The labels are the distinct reporting days of the records, strictly ascending. Each count is the number of records reported that day. The counts add up to the number of records. |

## Left out

- The Leaflet map, tile layer, GeoJSON fetch and its fallback, icons, markers and popups (script.js:3-36, 146-246). `ApplyFilters` returns the list that `renderMarkers` would draw.
- Tab switching, the panel toggle, the injected CSS, and the redraw, form reset and tab switch after a report (script.js:249-289, 419-428, 601-606, 618-738). The geolocation button, `alert` calls, `setTimeout`, and the export and resource-assignment stubs (script.js:364-381, 580-598, 609-616) are left out too. These are browser APIs and DOM work.
- Chart.js construction and options, the colour list, and the fixed resource-usage numbers (script.js:442-576). They are library rendering and constant data; only the data handed to the charts is modelled.
- Date parsing and formatting (`new Date(...)`, `toISOString`): `dateOf` and `now` are inputs. A non-empty date input that is not a valid date would give an Invalid Date bound that rejects every record; the model's bounds are valid timestamps or absent, as a date input supplies.
- Text.LowerChar: only ASCII `A`-`Z` are lower-cased, not full Unicode case mapping.
- Text.UpperChar: only ASCII `a`-`z` are upper-cased, not full Unicode case mapping. Upper-casing that lengthens a string (`ß` to `SS`) is not modelled.
- Reporting.Dashboard.Submit: `parseFloat` itself is not modelled. A coordinate is a number or NaN, and infinities count as numbers.
- Analytics.Tally: a JavaScript object lists integer-like keys (such as `"12"`) first, in numeric order. The model keeps insertion order for every key.
- Analytics.Tally: keys inherited from `Object.prototype` (such as `"constructor"`) do not start from an empty count in JavaScript. The model treats the object as a plain dictionary.
- Analytics.Sort: JavaScript compares UTF-16 code units, and Dafny compares Unicode scalar values. The two orders differ only for characters outside the Basic Multilingual Plane. The sort algorithm itself is unspecified, so the model uses insertion sort; only its result is stated, and `Analytics.AscendingPermutationUnique` shows that result is the only ascending permutation.
- Analytics.CountByType and Analytics.CountByDate: the model does not say when `initCharts` runs. In the page it runs once, on the first visit to the analytics tab (script.js:609-616). The model states the counts for whatever records exist at that moment.
