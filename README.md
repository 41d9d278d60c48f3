# Stock index viewer: a verified model of its data core

The stock-data viewer is a single-page script that loads daily index
observations (one row per index and day, with opening, high, low and closing
values and the volume), lists the indices, lets the user mark favourites,
search the list, pick a time range, chart one index with its statistics, and
compare several indices on one chart rescaled to start at 100.

This project models the part of `stock-data-viewer/script.js` that shapes
that data and keeps the page state:

- `seqs.dfy` (`Seqs`): `indexOf` on arrays, duplicate-freedom and
  order-preserving selection (subsequences).
- `text.dfy` (`Text`): the default string order of `Array.prototype.sort`,
  `toLowerCase` and `String.prototype.includes`.
- `series.dfy` (`Series`): rows and chart points, the stable sort by date,
  `getFilteredCompanyData` and `filterDataByTimeRange`.
- `company_index.dfy` (`CompanyIndex`): `extractCompanies`.
- `company_list.dfy` (`CompanyList`): the search and favourites filters of
  `renderCompanyList`.
- `favorites.dfy` (`Favorites`): what `toggleFavorite` does to the list.
- `comparison.dfy` (`Comparison`): the comparison set, the shared date axis,
  the normalised datasets and the two loops of `updateComparisonChart`.
- `statistics.dfy` (`Statistics`): the figures of `updateStatistics`.
- `session.dfy` (`Session`): the script's global variables (lines 24-33) as
  the fields of a `Session` object, with the handlers that update them.

Dates are whole numbers (instants in milliseconds); two dates are the same
exactly when the numbers are equal, which is what deduplicating by
`toISOString` compares. Prices are real numbers. The cutoffs of the one- and
three-year ranges are computed by the script from the clock; here they are
parameters (`Cutoffs`). A division by a zero start or previous value, which
gives a non-finite number in the script, is `None`.

## Model

| member | source | states |
|---|---|---|
| Seqs.IndexOf | stock-data-viewer/script.js:164 | `favorites.indexOf(company)`: -1 exactly when the company is absent, otherwise the index of its first occurrence |
| Favorites.RemoveFirst | stock-data-viewer/script.js:164-168 | removing an absent company changes nothing; removing a present one shortens the list by one |
| Favorites.Toggled | stock-data-viewer/script.js:163-169 | toggling a present company takes one copy of it out of the favourites; toggling an absent one adds one copy |
| Favorites.ToggledSpec | stock-data-viewer/script.js:163-169 | toggling an absent company appends it at the end; toggling a present one removes its first occurrence and keeps every other entry in order |
| Favorites.RemoveFirstIsSplice | stock-data-viewer/script.js:164-168 | removing the first occurrence is `splice(indexOf(company), 1)` |
| Favorites.ToggleTwiceRestores | stock-data-viewer/script.js:163-169 | toggling an absent company twice restores the exact original list |
| Favorites.ToggleFlipsMembership | stock-data-viewer/script.js:163-169 | on a duplicate-free list, a toggle flips the company's membership alone and keeps the list duplicate-free |
| Favorites.ToggleTwiceSameFavorites | stock-data-viewer/script.js:163-169 | on a duplicate-free list, toggling twice gives back the same favourites (a present company moves to the end) |
| Favorites.RemoveFirstMultiset | stock-data-viewer/script.js:167 | the splice removes exactly one copy of the company |
| Session.Session.ToggleFavorite | stock-data-viewer/script.js:163-169 | the method's `indexOf`/`push`/`splice` leaves `favorites` equal to the toggled list and changes nothing else |
| Comparison.WithCompany | stock-data-viewer/script.js:435-440 | adding a company keeps the compared list duplicate-free, extends it, adds exactly that company, and is a no-op when the company is already compared |
| Comparison.FirstAddedOrder | stock-data-viewer/script.js:435-440 | selecting companies in turn yields each selected company once, ordered by when it was first selected |
| Session.Session.AddToComparison | stock-data-viewer/script.js:435-440 | reports whether the company was new, appends it only then, redraws the comparison only then, and keeps `Valid()` (no company compared twice) |
| Session.Session.ClearComparison | stock-data-viewer/script.js:443-444 | the compared list becomes empty and nothing else changes |
| CompanyIndex.ExtractCompanies | stock-data-viewer/script.js:144-147 | the index is strictly ascending in string order and holds exactly the company names of the rows |
| CompanyIndex.CompanyNamesConcat | stock-data-viewer/script.js:145 | the name set of two row lists placed one after the other is the union of their name sets, so the set does not depend on how the rows are split |
| CompanyIndex.InsertName | stock-data-viewer/script.js:146 | inserting a name into an ascending, duplicate-free list keeps it so and adds exactly that name |
| CompanyIndex.CompanyIndexIsSortedNameSet | stock-data-viewer/script.js:144-147 | any strictly ascending list with the same names is the index: the result does not depend on the order of the rows |
| CompanyIndex.CompanyIndexNoDuplicates | stock-data-viewer/script.js:145-146 | no name occurs twice in the index |
| Session.Session.ExtractCompanies | stock-data-viewer/script.js:144-147 | `companies` becomes the index of `stockData`; nothing else changes |
| Text.LessTotal | stock-data-viewer/script.js:146 | the default sort order is total on distinct strings |
| Text.LessTransitive | stock-data-viewer/script.js:146 | the default sort order is transitive |
| Text.ToLower | stock-data-viewer/script.js:183 | lower-casing keeps the length, maps each character on its own and leaves no upper-case letter |
| Text.Includes | stock-data-viewer/script.js:190 | the empty term is contained in every name, and a term longer than the name is never contained in it |
| CompanyList.MatchingSearch | stock-data-viewer/script.js:188-192 | the search filter keeps names in their order (a subsequence), each containing the term, and keeps every name that contains it |
| CompanyList.MatchingSearchCounts | stock-data-viewer/script.js:188-192 | every name whose lower-cased form contains the term is kept as often as it occurs, every other name is dropped |
| CompanyList.InFavorites | stock-data-viewer/script.js:195-199 | the favourites filter keeps names in their order (a subsequence), each a favourite, and keeps every favourite name |
| CompanyList.InFavoritesCounts | stock-data-viewer/script.js:195-199 | every favourite name is kept as often as it occurs, every other name is dropped |
| CompanyList.VisibleCompanies | stock-data-viewer/script.js:180-199 | the listed names are a subsequence of `companies`, and with the box ticked every listed name is a favourite |
| CompanyList.VisibleCompaniesSpec | stock-data-viewer/script.js:180-199 | the listed names are a subsequence of `companies` and a name is listed exactly when it is in `companies`, its lower-cased form contains the lower-cased search text, and, with the box ticked, it is a favourite |
| CompanyList.NoFilterListsAll | stock-data-viewer/script.js:185-199 | with an empty search text and the box unticked, the whole list is shown |
| Series.ToPoints | stock-data-viewer/script.js:595-602 | each point carries its row's date, close, open, high, low and volume, and rows sorted by date give points sorted by date |
| Series.ToPointsConcat | stock-data-viewer/script.js:595-602 | the points of two row lists placed one after the other are their points placed the same way |
| Series.SortByDate | stock-data-viewer/script.js:594 | the sort by date yields an ascending permutation of the rows |
| Series.SortByDateStable | stock-data-viewer/script.js:594 | rows with the same date keep their relative order |
| Series.RowsOf | stock-data-viewer/script.js:593 | the company's rows in their original order: a subsequence of the data, every selected row belongs to the company, and each of the company's rows occurs as often as in the data |
| Series.RowsSince | stock-data-viewer/script.js:604-615 | the rows kept by the range cutoff are a subsequence of the rows, each dated at or after the cutoff |
| Series.RowsSinceCounts | stock-data-viewer/script.js:604-615 | every row dated at or after the cutoff is kept as often as it occurs, every other row is dropped |
| Series.SinceCutoff | stock-data-viewer/script.js:587 | the cutoff filter keeps points in their order (a subsequence), each dated at or after the cutoff |
| Series.SinceCutoffCounts | stock-data-viewer/script.js:587 | every point dated at or after the cutoff is kept as often as it occurs, every other point is dropped |
| Series.SinceCutoffSorted | stock-data-viewer/script.js:587 | cutting an ascending series keeps it ascending |
| Series.SinceCutoffIdempotent | stock-data-viewer/script.js:587 | cutting to a range twice changes nothing |
| Series.FilterDataByTimeRange | stock-data-viewer/script.js:573-588 | the identity under `All`; otherwise a subsequence of the points, each at or after the range's cutoff, keeping every such point as often as it occurs |
| Series.FilterDataByTimeRangeIdempotent | stock-data-viewer/script.js:573-588 | applying the range filter to its own result changes nothing |
| Series.CompanySeries | stock-data-viewer/script.js:591-616 | a company's series is ascending by date and, unless the range is `All`, dated at or after the range's cutoff |
| Series.CompanySeriesSpec | stock-data-viewer/script.js:591-616 | a company's series is ascending by date and is, as a multiset, one point per selected row |
| Series.SelectedMembers | stock-data-viewer/script.js:591-616 | the selected rows are a subsequence of the data, and a row is selected as often as it occurs exactly when it is a row of the company and, unless the range is `All`, dated at or after the cutoff; otherwise it is not selected |
| Series.CompanySeriesIsSortedSelection | stock-data-viewer/script.js:591-616 | cutting the sorted series to the range is sorting the rows in range |
| Series.CompanySeriesIsRangeFiltered | stock-data-viewer/script.js:573-616 | the series of a range is the full series passed through `filterDataByTimeRange` |
| Series.CompanySeriesRangeStable | stock-data-viewer/script.js:604-615 | re-applying the range cutoff to a company's series changes nothing |
| Comparison.SortedUnique | stock-data-viewer/script.js:721 | the axis step yields a strictly increasing list of exactly the given instants |
| Comparison.InsertDate | stock-data-viewer/script.js:721 | inserting an instant keeps the axis strictly increasing and adds exactly that instant |
| Comparison.AllDates | stock-data-viewer/script.js:709-718 | an instant is collected exactly when some compared company's series has a point there |
| Comparison.Axis | stock-data-viewer/script.js:709-722 | the axis is strictly increasing and holds exactly the dates of the compared series |
| Comparison.Normalize | stock-data-viewer/script.js:731-737 | a normalised series has the length and dates of its source, and has values exactly when its first close is non-zero |
| Comparison.NormalizeShape | stock-data-viewer/script.js:731-737 | a normalised series has the length and dates of its source, starts at 100 when the start is non-zero and has no finite value when it is zero |
| Comparison.NormalizeRecoversCloses | stock-data-viewer/script.js:731-737 | each close is recovered from its normalised value and the start value |
| Comparison.NormalizeScaleFree | stock-data-viewer/script.js:731-737 | scaling a series by a non-zero factor leaves its normalised form unchanged |
| Comparison.DoublingEndsAt200 | stock-data-viewer/script.js:731-737 | a series whose last close is twice its first ends at 200 |
| Comparison.DatasetsInOrder | stock-data-viewer/script.js:725-747 | the datasets follow the comparison order |
| Comparison.DatasetsCompanies | stock-data-viewer/script.js:725-728 | a compared company has a dataset exactly when its series is non-empty |
| Comparison.Datasets | stock-data-viewer/script.js:725-747 | no more datasets than compared companies, each for a non-empty series and holding that series normalised to its first close |
| Comparison.DatasetsOnePerCompany | stock-data-viewer/script.js:725-747 | when no company is compared twice, no company has two datasets |
| Comparison.DatasetsColors | stock-data-viewer/script.js:739-745 | each dataset's colour is its company's position among the compared companies, modulo the five palette entries |
| Comparison.CollectDates | stock-data-viewer/script.js:709-718 | the first loop concatenates the dates of each non-empty series in comparison order |
| Comparison.CollectDatasets | stock-data-viewer/script.js:725-746 | the second loop builds one normalised, coloured dataset per non-empty series in comparison order |
| Comparison.ComparisonOf | stock-data-viewer/script.js:709-747 | the chart's labels are strictly increasing and each dataset is its company's non-empty series, normalised |
| Comparison.ComparisonSpec | stock-data-viewer/script.js:709-747 | the chart contents have all the axis and dataset properties above |
| Session.ComparisonChartSpec | stock-data-viewer/script.js:709-747 | the same properties, stated over the companies' filtered series in the current range |
| Session.Session.UpdateComparisonChart | stock-data-viewer/script.js:688-748 | nothing is drawn when no company is compared; otherwise the chart gets the axis and datasets of the compared companies in the current range |
| Statistics.Highest | stock-data-viewer/script.js:776 | the highest close bounds every close and is attained |
| Statistics.Lowest | stock-data-viewer/script.js:777 | the lowest close is below every close and is attained |
| Statistics.Total | stock-data-viewer/script.js:780 | the sum of `n` closes lies between `n` times the lowest and `n` times the highest close |
| Statistics.AverageBetween | stock-data-viewer/script.js:776-780 | the mean close lies between the lowest and the highest close |
| Statistics.PercentChange | stock-data-viewer/script.js:767-773 | a percentage is defined exactly when its base is non-zero, and then times the base it is 100 times the change |
| Statistics.Summarize | stock-data-viewer/script.js:755-780 | "No data available" exactly for an empty series; otherwise current is the last close, start the first, previous the second-to-last or 0, and the changes are their differences |
| Statistics.SummaryBounds | stock-data-viewer/script.js:776-780 | lowest <= average <= highest, and current, start and every close lie between lowest and highest |
| Statistics.SinglePointSummary | stock-data-viewer/script.js:764-773 | for one point: previous 0, daily change the whole value with no finite percentage, overall change 0 |
| Statistics.ThreeDayExample | stock-data-viewer/script.js:764-780 | closes 100, 110, 99 give 99, 110, -11 (-10%), -1 (-1%), high 110, low 99, mean 103 |
| Session.Session.constructor | stock-data-viewer/script.js:24-33 | the globals start empty, with range `all` and chart type `line` |
| Session.Session.Load | stock-data-viewer/script.js:54-96 | `ok` exactly when the request succeeded; on failure the demo rows are stored, the favourites stay as they were and the error is passed on (start-up then stops); an empty response gives the demo rows; saved favourites are restored after a successful request |
| Session.Session.SetTimeRange | stock-data-viewer/script.js:314-315 | only the current range changes |
| Session.Session.SetChartType | stock-data-viewer/script.js:350-351 | only the current chart type changes |

## Left out

- Network and storage: the `fetch` of `data.json`, the localStorage reads and
  writes of `saveFavorites`/`loadFavorites` and of dark mode. `Load` takes the
  response and the saved favourites as parameters; saving is not modelled.
- The record conversion at script.js:74-85 (string splitting, `parseFloat`,
  `parseInt`, truthiness fallbacks, random volumes): `Load` takes rows that
  are already converted.
- `generateDemoData`: random; `Load` takes the demo rows as a parameter.
- Computing the cutoffs from `new Date()`: they are the `Cutoffs` parameter.
- `toFixed(2)` rounding and every string produced for display (the
  statistics HTML, the normalised values, which the script stores as strings).
- Floating point: prices are exact reals, so sums, quotients and `Math.max`
  over very long argument lists behave ideally.
- Non-finite numbers: a division by a zero start or previous value is `None`
  where the script shows `Infinity` or `NaN`.
- All DOM and Chart.js work: `showLoading`, building the list items,
  `initChart`, `initComparisonChart`, `updateChart` (including its styling of
  line, bar and candlestick charts), `updateChartTheme`, dark mode, the
  exports at script.js:360-396, event wiring and `toggleCompareMode`.
- Redraws after a state change: `setTimeRange` redraws the comparison chart
  in `compareMode` and otherwise the chart of `selectedCompany`;
  `setChartType` redraws the chart of `selectedCompany`; `toggleFavorite` always saves the favourites and re-renders
  the company list; `clearComparison` empties the comparison chart whenever
  it exists. None of these is modelled, nor are `compareMode` and
  `selectedCompany`; `AddToComparison` returns the redrawn chart contents.
- `earliestDate` in `updateComparisonChart`: it is computed and never used.
- Session.Session.UpdateComparisonChart: the script also returns early when
  the comparison chart does not exist; that is DOM state and not modelled.
- TimeRange: only the three values the range buttons pass. For any other
  string the script's two filters disagree (`filterDataByTimeRange` keeps
  nothing, `getFilteredCompanyData` keeps every row); that case is not
  modelled. `filterDataByTimeRange` is not called anywhere in the script.
- ChartType: only the three values the chart-type menu offers.
- Text.ToLower: only ASCII letters are lower-cased; the full Unicode case
  mapping of `toLowerCase` is not modelled.
- Text.Less: strings compare character by character, which matches the
  script's order by UTF-16 code units for characters in the Basic
  Multilingual Plane.
- The React files under `Company_Dashboard` are presentational and are not
  part of this model.
