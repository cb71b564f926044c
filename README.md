# catscanpick — a Dafny model of the cat-can catalog and calorie calculator

catscanpick is a single-page web app listing cat-food cans. It downloads a CSV catalog, turns each row into a
`CatCan` record, and shows the records in a table. The table can be searched, filtered by weight, origin
("made") and brand through three multi-select dropdowns, sorted by a nutrient column, and narrowed to chosen
columns. A calorie calculator computes a cat's daily energy and water needs from its weight and life stage, and
suggests cans for "today's menu".

This project models that client-side logic in Dafny and proves what the code promises about it.

- `csv_line.dfy` (`CsvLine`): the quote-aware CSV line scanner, as an imperative loop. It is proved equal to a
  recursive definition.
- `catcan_records.dfy` (`CatCanRecords`): the record builder. Empty cells become "-". The moisture content is
  derived from the weight and the moisture percentage. Short rows are skipped. The builder loop is imperative.
- `catalog_filter.dfy` (`CatalogFilter`): the option lists of the three dropdowns (`getUniqueValues`) and the
  search/selection filter.
- `catalog_sort.dfy` (`CatalogSort`): the comparator, the stable sort and the `handleSort` state machine.
- `stable_sort.dfy` (`StableSort`): a generic stable insertion sort. It is proved to be a sorted, stable
  permutation.
- `catalog_app.dfy` (`CatalogApp`): the `App` component's state as a class, with one method per state change.
- `multi_select.dfy` (`MultiSelect`): the handlers shared by the weight, brand and origin dropdowns. The
  handlers of src/components/BrandFilter.tsx:18-52 and src/components/MadeFilter.tsx:18-51 are the same code
  as src/components/WeightFilter.tsx:18-52, so the table below cites the weight dropdown for all three.
- `filter_labels.dfy` (`WeightFilter`, `BrandFilter`, `MadeFilter`): each dropdown's trigger label.
- `table_columns.dfy` (`TableColumns`): the column registry, the sort icon and the header's accessible label.
- `column_visibility.dfy` (`ColumnVisibility`): the column chooser's handlers, its counter and the rendered
  column list.
- `calories.dfy` (`CalorieConstants`, `CalorieUtils`): the DER table, `canLabel`, RER and the daily ranges.
- `calorie_page.dfy` (`CalorieCalculatorPage`): the calculator page, with its own copy of the table and the
  formula, and its state as a class.
- `today_menu.dfy` (`TodayMenu`): the can suggestions and the select/clear protocol of the chosen can.
- `text.dfy`, `seqs.dfy`, `wrappers.dfy`, `js_runtime.dfy`: string, sequence and option helpers.

JavaScript built-ins with floating-point or locale behaviour are fields of the `JsRuntime.Js` value that every
operation receives:

- `parseFloat` returns `None` for NaN.
- `toFixed`.
- `Math.pow(x, 0.75)`.
- `localeCompare`, as a "less or equal" relation.

Lemmas that need a property of these built-ins state it as a precondition: `PowPositive` (the power is positive
for positive arguments) or `LocaleIsTotalPreorder`. `trim` removes the full ECMAScript white-space and
line-terminator set. `toLowerCase` is modelled for ASCII letters.

The filter follows the code: an empty selection in a dropdown means "no restriction" (src/App.tsx:202-217),
not "match nothing". So clearing a dropdown shows every record. Selecting every option hides the records whose
value in that dimension is "-", because "-" is never offered as an option (`AllSelectedHidesDashWeight`).

## Model

| member | source | states |
|---|---|---|
| CsvLine.ParseCsvLine | src/App.tsx:36-56 | The loop's result equals the recursive field scanner. It has 1 + (commas met outside quotes) fields. No field contains `"` or starts or ends with white space. |
| CsvLine.FieldCount | src/App.tsx:41-53 | The raw scan has exactly one more field than there are commas outside quotes. |
| CsvLine.FieldsHaveNoQuote | src/App.tsx:44-45 | Quote characters only toggle the mode and never reach a field. |
| CsvLine.ParsedFieldsShape | src/App.tsx:36-56 | At least one field, counted as above, each trimmed and quote-free. |
| CsvLine.QuoteFreeIsSplit | src/App.tsx:41-52 | On a line without quotes, scanning equals splitting on every comma. |
| CsvLine.QuoteFreeLine | src/App.tsx:36-56 | On a line without quotes, the result is split-on-comma, then each piece trimmed. There is one field more than the line has commas. |
| CsvLine.InsideQuotes | src/App.tsx:44-50 | Inside quotes a comma is ordinary text and extends the current field. |
| CsvLine.QuotedField | src/App.tsx:44-50 | A quoted segment `"q"` adds `q`, commas included, to the current field. |
| CsvLine.EmptyLine | src/App.tsx:53 | An empty line gives one empty field. |
| Text.Trim | src/App.tsx:47 | The result has no white space at either end. It is the slice of the input between a leading and a trailing run of white space. It is empty iff the input is all white space. A trimmed input is unchanged. |
| Text.ToLower | src/App.tsx:192-197 | Same length, each character lower-cased. |
| Text.ToLowerIdempotent | src/App.tsx:192 | Lower-casing twice equals lower-casing once. |
| Text.Includes | src/App.tsx:194-197 | True iff the query occurs at some position of the text. |
| Text.Split | src/App.tsx:103 | Splitting gives at least one piece, and no piece contains the delimiter. |
| Text.SplitJoin | src/App.tsx:103 | Joining the pieces with the delimiter gives back the text. |
| Text.JoinLength | src/components/WeightFilter.tsx:92 | The joined string ends where its last item ends. |
| Text.JoinItemAt | src/components/WeightFilter.tsx:92 | Item k of a join starts after every earlier item and its separator. |
| Text.JoinSepAfter | src/components/WeightFilter.tsx:92 | In a join, one separator follows every item but the last. |
| CatCanRecords.OrDash | src/App.tsx:129-144 | `value \|\| "-"` is never empty. It is "-" iff the value is empty or already "-". |
| CatCanRecords.RecordColumns | src/App.tsx:128-145 | Each of the fourteen CSV columns lands in its own record field, an empty cell as "-". |
| CatCanRecords.RecordHasNoEmptyCell | src/App.tsx:128-145 | No field of a built record is empty. |
| CatCanRecords.RecordDerivedFields | src/App.tsx:119-145 | `taurineContent` equals `taurine`. `moistureContent` is "-" unless the parsed weight and moisture (unparseable as 0) are both positive; then it is moisture × weight / 100 to one decimal. |
| CatCanRecords.FullRowRoundTrip | src/App.tsx:128-145 | A row without empty cells is read back from the record column for column. |
| CatCanRecords.RowsOf | src/App.tsx:112-117 | At most one record per row. |
| CatCanRecords.RowsOfIsFilterThenBuild | src/App.tsx:112-147 | The records are, one for one and in order, the rows with at least fourteen fields. |
| CatCanRecords.Lines | src/App.tsx:103 | The trimmed text always has at least one line. |
| CatCanRecords.BlankTextLoadsNothing | src/App.tsx:103-108 | White-space-only text has no data row, so nothing is loaded. |
| CatCanRecords.BuildCatCans | src/App.tsx:110-147 | The loop over the lines after the header yields exactly the records of the rows with enough columns, in order. |
| CatalogApp.ReadCatalog | src/App.tsx:102-147 | The text handler's parse: nothing with at most one line, otherwise the records of all lines after the header. |
| CatalogFilter.UniqueValues | src/App.tsx:61-69 | No duplicates. A value is present iff some key has it and it is not "-". |
| CatalogFilter.UniqueValuesSorted | src/App.tsx:66-68 | For a total preorder, the option list is sorted by it. |
| CatalogFilter.WeightLeTotal | src/App.tsx:156 | The weight comparator `parseFloat(a) - parseFloat(b)` orders every pair one way or the other. |
| CatalogFilter.WeightLeNumeric | src/App.tsx:177-181 | For two parseable weights, the comparator order is numeric order. |
| CatalogFilter.WeightOptionsAdjacentInOrder | src/App.tsx:177-181 | Neighbouring weight options are in comparator order. |
| CatalogFilter.WeightOptionsAscending | src/App.tsx:177-181 | When every weight parses, the weight options are in ascending numeric order. |
| CatalogFilter.AvailableSpec | src/App.tsx:176-183 | Each dropdown's options are the distinct non-"-" values of its dimension in the catalog. |
| CatalogFilter.NameOptionsSorted | src/App.tsx:182-183 | Origin and brand options are in `localeCompare` order. |
| CatalogFilter.FilterCatCans | src/App.tsx:189-220 | The kept records are an order-preserving subsequence of the catalog, with each record's multiplicity kept. A record is kept iff it matches the query and each selection is empty or contains its value. |
| CatalogFilter.NoCriteriaKeepsAll | src/App.tsx:189-220 | A blank query and empty selections keep the whole catalog, in order. |
| CatalogFilter.QueryIgnoresCase | src/App.tsx:191-197 | A query matches iff its lower-cased form matches. |
| CatalogFilter.FullSelectionsKeep | src/App.tsx:153-163 | With every selection full (the state after loading), a record is kept iff it matches the query and has no "-" in a dimension that has options. |
| CatalogFilter.FullSelectionHolds | src/App.tsx:202-217 | Against a full selection, a record's value passes iff it is not "-" or there are no options. |
| CatalogFilter.AllSelectedHidesDashWeight | src/App.tsx:202-207 | With all weights selected, a record with weight "-" is hidden. After clear-all the weight test no longer hides it. |
| CatalogSort.SortCatCans | src/App.tsx:237-256 | The sorted list is a permutation of the filtered list. |
| CatalogSort.UnsortedIsIdentity | src/App.tsx:238 | Without a field or an order, the list is unchanged. |
| CatalogSort.SortLeTotalPreorder | src/App.tsx:237-256 | The comparator is total and transitive. |
| CatalogSort.TieIffSameValue | src/App.tsx:240-255 | Two records tie iff their sort values are equal. All missing values are equal. |
| CatalogSort.SortedByValue | src/App.tsx:240-255 | Missing values (-1, "-", unparseable) come after all others in both directions. The rest are ascending for `asc` and descending for `desc`. |
| CatalogSort.EqualValuesKeepOrder | src/App.tsx:237 | Records that tie keep their relative order (the sort is stable). |
| CatalogSort.DashIsMissing | src/App.tsx:243 | "-" ranks with the missing values. |
| CatalogSort.ClickSort | src/App.tsx:226-235 | After a click, the clicked field is the sort field. A new field starts `desc`. Clicking the same field changes the order. |
| CatalogSort.ClickTwiceRestores | src/App.tsx:227-229 | Two clicks on the sorted field restore the order. |
| CatalogSort.NewColumnThenAgain | src/App.tsx:226-235 | A new column sorts `desc`. A second click on it sorts `asc`. |
| CatalogSort.ClicksKeepSortActive | src/App.tsx:226-235 | After any run of clicks, a sort field and an order are set. |
| StableSort.SortSorted | src/App.tsx:237 | For a total preorder, the sort's output is sorted and a permutation of its input. |
| StableSort.SortStable | src/App.tsx:237 | Elements that tie appear in the output in their input order. |
| StableSort.SortPermutes | src/App.tsx:237 | The output has the same multiset of elements as the input. |
| StableSort.SortAllEqualIsIdentity | src/App.tsx:238 | When every pair ties, the sort returns its input. |
| CatalogApp.App.Shown | src/App.tsx:237-256 | The shown rows are a permutation of the filtered catalog. A record is shown iff it is in the catalog and passes the filter. |
| CatalogApp.App.constructor | src/App.tsx:80-87 | Initial state: no records, loading, empty query and selections, sorted by weight descending. |
| CatalogApp.App.SetCatalog | src/App.tsx:150-164 | The records replace the catalog. Every dropdown selects all of its options. Loading ends. The state invariant holds. |
| CatalogApp.App.Load | src/App.tsx:102-164 | Text without data rows only ends loading. Otherwise the parsed records replace the catalog, with every option selected. The query and sort are kept. |
| CatalogApp.App.LoadFailed | src/App.tsx:166-169 | A failed download only ends loading. |
| CatalogApp.App.SetSearchQuery | src/App.tsx:82 | Only the query changes. |
| CatalogApp.App.SelectWeights | src/App.tsx:83 | The weight selection becomes the dropdown's answer to the event. Nothing else changes. The selection stays a duplicate-free subset of the options. |
| CatalogApp.App.SelectMades | src/App.tsx:84 | As for weights, for the origin selection. |
| CatalogApp.App.SelectBrands | src/App.tsx:85 | As for weights, for the brand selection. |
| CatalogApp.App.HandleSort | src/App.tsx:226-235 | The new sort state is `ClickSort` of the old one. Nothing else changes. |
| MultiSelect.ToggleAll | src/components/WeightFilter.tsx:22-33 | From all selected, it yields just the first option. Otherwise it yields the whole option list. |
| MultiSelect.Toggle | src/components/WeightFilter.tsx:35-48 | A selected value is removed, and the rest keep their order. An unselected one is appended, and a selection that becomes full is replaced by the option list. |
| MultiSelect.ClearAll | src/components/WeightFilter.tsx:50-52 | Nothing selected. |
| MultiSelect.AllSelectedIffSameValues | src/components/WeightFilter.tsx:18-20 | Under the invariant, the length test `isAllSelected` holds iff the selection holds the same values as the options. |
| MultiSelect.ToggleAllFromPartialSelectsAll | src/components/WeightFilter.tsx:18-33 | Toggle-all from a partial selection makes `isAllSelected` true. |
| MultiSelect.ToggleAllTwice | src/components/WeightFilter.tsx:22-33 | Toggle-all pressed twice from all selected returns to all selected. |
| MultiSelect.ToggleAddsValue | src/components/WeightFilter.tsx:39-47 | Toggling an unselected option adds exactly that value, with auto-promotion included. |
| MultiSelect.ToggleTwiceSameValues | src/components/WeightFilter.tsx:35-48 | Toggling an option twice leaves the same values selected. |
| MultiSelect.ToggleValid | src/components/WeightFilter.tsx:35-48 | Toggling keeps the selection a duplicate-free subset of the options. |
| MultiSelect.ApplyValid | src/components/WeightFilter.tsx:22-52 | Every handler keeps the selection a duplicate-free subset of the options. |
| MultiSelect.ApplyAllValid | src/components/WeightFilter.tsx:18-52 | The invariant holds after any run of events. |
| MultiSelect.TriggerLabel | src/components/WeightFilter.tsx:89-93 | The label is the name when all are selected and the placeholder when none are. Otherwise it is the ", "-join of the selected values, each with its suffix, in selection order. |
| MultiSelect.Suffixed | src/components/WeightFilter.tsx:92 | Each selected value with its suffix, in order. |
| MultiSelect.LabelNamesEverySelected | src/components/WeightFilter.tsx:92 | On a partial selection, the label contains every selected value with its suffix. |
| MultiSelect.LabelLayout | src/components/WeightFilter.tsx:92 | On a partial selection, value k with its suffix starts at the k-th join offset. ", " follows every value but the last, and the label ends with the last value. |
| WeightFilter.WeightLabel | src/components/WeightFilter.tsx:89-93 | "重量" when all are selected, "選擇重量" when none are. Otherwise it is the ", "-join of the selected weights, each followed by "g", in selection order, so it names every one of them. |
| BrandFilter.BrandLabel | src/components/BrandFilter.tsx:89-93 | "品牌" when all are selected, "選擇品牌" when none are. Otherwise it is the ", "-join of the selected brands in selection order, so it names every one of them. |
| MadeFilter.MadeLabel | src/components/MadeFilter.tsx:88-92 | "產地" when all are selected, "選擇產地" when none are. Otherwise it is the ", "-join of the selected origins in selection order, so it names every one of them. |
| TableColumns.RegistryIds | src/components/CatCanTable.tsx:20-70 | The registry's ids, in order. |
| TableColumns.RegistryIdsDistinct | src/components/CatCanTable.tsx:20-70 | Fourteen columns with distinct ids. |
| TableColumns.FlavourColumnFirst | src/components/CatCanTable.tsx:21 | The flavour column is first and the only sticky one. |
| TableColumns.SortableColumns | src/components/CatCanTable.tsx:25-66 | Exactly columns 4 to 10 are sortable, and those are exactly the columns with a sort label. |
| TableColumns.EverySortFieldHasOneColumn | src/components/CatCanTable.tsx:20-70 | Each of the seven sort fields belongs to exactly one column. |
| TableColumns.SortColumnsMatchFields | src/components/CatCanTable.tsx:25-66 | A sortable column's id is its sort field's name. |
| TableColumns.HeaderAriaLabel | src/components/CatCanTable.tsx:141 | The header's accessible label is the column's sort label, then "，", then the sort-state text. |
| TableColumns.IconAgreesWithText | src/components/CatCanTable.tsx:93-127 | The icon is the up-down arrows iff the text says not sorted. It is the up chevron iff the text says ascending, and the down chevron iff the text says descending. |
| TableColumns.ClickedColumnShowsDirection | src/components/CatCanTable.tsx:93-103 | After a click, the clicked column shows a chevron and every other column shows the up-down arrows. |
| TableColumns.ClickFlipsArrow | src/components/CatCanTable.tsx:97-102 | A second click on the sorted column flips its chevron. |
| ColumnVisibility.ToggleableIsAllButFlavour | src/components/TableFilter.tsx:102 | The chooser offers every column but the flavour column, in registry order. |
| ColumnVisibility.CountedAreVisibleToggleable | src/components/TableFilter.tsx:17-21 | The columns counted are the visible ones among those offered. |
| ColumnVisibility.VisibleCount | src/components/TableFilter.tsx:17-21 | The count is between 1 and the number of columns. |
| ColumnVisibility.AllVisibleIffFullCount | src/components/TableFilter.tsx:17-25 | All columns are visible iff the count equals the number of columns. |
| ColumnVisibility.ToggleColumn | src/components/TableFilter.tsx:27-32 | The toggled id gets an entry, and its visibility flips. Every other entry is unchanged. |
| ColumnVisibility.ToggleTwiceRestores | src/components/TableFilter.tsx:27-32 | Toggling an id twice restores every column's visibility. |
| ColumnVisibility.ToggleChangesOneColumn | src/components/TableFilter.tsx:27-32 | A toggle changes the visibility of that column and of no other. |
| ColumnVisibility.SelectAll | src/components/TableFilter.tsx:34-38 | Every registry id, flavour included, is mapped to true, and no other key is present. |
| ColumnVisibility.SelectAllShowsAll | src/components/TableFilter.tsx:34-38 | After select-all, every column is visible and the count is fourteen. |
| ColumnVisibility.VisibleColumns | src/components/CatCanTable.tsx:159-161 | The rendered columns keep registry order. A column is rendered iff it is the flavour column or is not hidden. |
| ColumnVisibility.FlavourAlwaysRendered | src/components/CatCanTable.tsx:160 | The flavour column is always rendered, first. |
| ColumnVisibility.RenderedCount | src/components/CatCanTable.tsx:159-161 | For a column list led by the flavour column, the rendered columns are one more than the visible others. |
| ColumnVisibility.CountMatchesRenderedColumns | src/components/TableFilter.tsx:17-21 | The chooser's count equals the number of columns the table renders. |
| CalorieConstants.DerRangesWellFormed | src/components/calorieCalculator/constants.ts:9-18 | Eight stages, each with 0 < min < max. |
| CalorieConstants.DerLabelsDistinct | src/components/calorieCalculator/constants.ts:9-18 | The stage labels are distinct. |
| CalorieConstants.CanLabel | src/components/calorieCalculator/constants.ts:20-22 | The label is the brand, " - ", the name, " (", the flavour and ")", each at its exact position. |
| CalorieUtils.Rer | src/components/calorieCalculator/utils.ts:4-6 | RER is positive for a positive weight. |
| CalorieUtils.Amounts | src/components/calorieCalculator/utils.ts:24-33 | No amounts iff the weight is empty, NaN or not positive. Otherwise the calories are RER × min and RER × max, and the water is 40·w and 60·w. |
| CalorieUtils.DailyCalories | src/components/calorieCalculator/utils.ts:20-42 | Null iff the weight gives no amounts. Otherwise it is the amounts formatted to one decimal (energy) and to none (water). |
| CalorieUtils.WaterRangeOrdered | src/components/calorieCalculator/utils.ts:32-33 | minWater < maxWater. |
| CalorieUtils.CalorieRangeOrdered | src/components/calorieCalculator/utils.ts:29-31 | With 0 < min ≤ max, the calories satisfy 0 < minCalories ≤ maxCalories. |
| CalorieUtils.TableStagesOrdered | src/components/calorieCalculator/utils.ts:29-31 | Every stage of the table gives 0 < minCalories < maxCalories. |
| CalorieUtils.WaterIsLinear | src/components/calorieCalculator/utils.ts:32-33 | Doubling the weight doubles both water bounds. |
| CalorieCalculatorPage.PageTableIsSharedTable | src/components/CalorieCalculator.tsx:9-18 | The page's inline table equals the shared table entry for entry. |
| CalorieCalculatorPage.PageCalculatorIsShared | src/components/CalorieCalculator.tsx:31-52 | The page's inline calculation equals the shared `calculateDailyCalories` on every input. |
| CalorieCalculatorPage.FindStage | src/components/CalorieCalculator.tsx:89 | `findIndex` by label gives the first entry with that label, or -1 when there is none. |
| CalorieCalculatorPage.FindStageOfEntry | src/components/CalorieCalculator.tsx:89 | With distinct labels, looking up an entry's label gives its index. |
| CalorieCalculatorPage.StageIndexRoundTrip | src/components/CalorieCalculator.tsx:89-91 | The sequence index → stage → shown index is the identity. |
| CalorieCalculatorPage.CalorieCalculator.constructor | src/components/CalorieCalculator.tsx:21-22 | The weight starts empty and the stage is entry 2 (1.2 to 1.4). The initial result is null and the select shows index 2. |
| CalorieCalculatorPage.CalorieCalculator.SetWeight | src/components/CalorieCalculator.tsx:71 | The new result is `calculateDailyCalories` of the new weight and the current stage. |
| CalorieCalculatorPage.CalorieCalculator.ChooseStage | src/components/CalorieCalculator.tsx:90-91 | Choosing index i selects entry i, and the select then shows i. |
| CalorieCalculatorPage.CalorieCalculator.RerText | src/components/CalorieCalculator.tsx:114 | It shows "-" iff there is no result. |
| CalorieCalculatorPage.CalorieCalculator.CaloriesText | src/components/CalorieCalculator.tsx:122-124 | It shows "-" iff there is no result. |
| CalorieCalculatorPage.CalorieCalculator.WaterText | src/components/CalorieCalculator.tsx:137 | It shows "-" iff there is no result. |
| CalorieCalculatorPage.DashesIffNoWeight | src/components/CalorieCalculator.tsx:114-137 | Every output slot shows "-" iff the weight is empty, NaN or not positive. |
| TodayMenu.Matches | src/components/calorieCalculator/CalorieCalculatorTodayMenu.tsx:34-38 | The matching cans form an order-preserving subsequence of the catalog. A can is in it iff its brand, name or flavour contains the query, as many times as the catalog lists it. |
| TodayMenu.Suggestions | src/components/calorieCalculator/CalorieCalculatorTodayMenu.tsx:31-40 | Empty for a blank input. Otherwise at most twenty cans: the first min(20, matches) matches of the trimmed input, in catalog order. |
| TodayMenu.FewMatchesAllSuggested | src/components/calorieCalculator/CalorieCalculatorTodayMenu.tsx:34-39 | With twenty matches or fewer, every match is suggested. |
| TodayMenu.MatchesIgnoreOrigin | src/components/calorieCalculator/CalorieCalculatorTodayMenu.tsx:36-37 | Changing every origin changes the matches only in their origins. |
| TodayMenu.OriginNotSearched | src/components/calorieCalculator/CalorieCalculatorTodayMenu.tsx:31-40 | The origin is not searched: the suggestions do not depend on it. |
| TodayMenu.SingleSuggestion | src/components/calorieCalculator/CalorieCalculatorTodayMenu.tsx:31-40 | A can alone in the catalog is suggested iff it matches. |
| TodayMenu.MatchIsCaseSensitive | src/components/calorieCalculator/CalorieCalculatorTodayMenu.tsx:37 | A can branded "Z" is suggested for "Z" and not for "z". |
| TodayMenu.TodayMenu.ShownSuggestions | src/components/calorieCalculator/CalorieCalculatorTodayMenu.tsx:88 | A closed list shows nothing. An open list shows the suggestions. |
| TodayMenu.TodayMenu.constructor | src/components/calorieCalculator/CalorieCalculatorTodayMenu.tsx:28 | The list starts closed. The choice and the text are the parent's. |
| TodayMenu.TodayMenu.SelectCan | src/components/calorieCalculator/CalorieCalculatorTodayMenu.tsx:42-46 | The can is chosen and its label fills the box. The list closes. The kcal and ml fields show the can's values, and the add button is enabled. |
| TodayMenu.TodayMenu.EditInput | src/components/calorieCalculator/CalorieCalculatorTodayMenu.tsx:76-79 | Any edit clears the choice and opens the list. The fields are empty, the add button is disabled, and the list shows the suggestions for the new text. |
| TodayMenu.TodayMenu.Focus | src/components/calorieCalculator/CalorieCalculatorTodayMenu.tsx:81 | Focus opens the list. The choice and text stay, and so does their agreement. |

## Left out

- The download: `fetch`, the HTTP status check and console logging are I/O. The model starts from the
  downloaded text (`CatalogApp.App.Load`) or from the failure (`CatalogApp.App.LoadFailed`).
- React plumbing: `useEffect`, `useRef`, each dropdown's `isOpen` flag and the click-outside listeners.
- IEEE floating point and locales: `parseFloat`, `toFixed`, `Math.pow(w, 0.75)` and `localeCompare` are
  abstract functions. Arithmetic is on exact reals, and no formatted string such as "197.9" is derived.
- `Text.ToLower`: lower-cases ASCII letters only, not the full Unicode case mapping of `toLowerCase`.
- `StableSort.Sort`: `Array.prototype.sort` is an insertion sort here. When the comparator is a total
  preorder, every stable sort gives the same list, so only the algorithm differs. When it is not (see the
  next line), the engine's result may differ from the model's.
- `CatalogFilter.UniqueValues`, `CatalogFilter.WeightLe`: the weight comparator `parseFloat(a) - parseFloat(b)`
  is not transitive once a weight other than "-" fails to parse. `NaN` compares as a tie with everything,
  so for "10", "abc", "5" the pairs 10~abc and abc~5 tie, yet 5 < 10. The weight option order in the
  model is then one of the orders an engine may produce, not necessarily the browser's. The same holds for
  the initial weight selection and for the order in the weight label. When every weight parses, the order is
  ascending numeric order (`CatalogFilter.WeightOptionsAscending`).
- `CatalogApp.App`: the option lists `available*` are recomputed on every render in the source. Here they are
  fields that loading refreshes (only loading changes `catCans`). The predicate `Derived` ties them to the
  catalog.
- The calorie calculator's extra-water box and its setter, the add-consumed and remaining-result callbacks, and
  the remaining-amount modal. They belong to a parent component that is not part of this model. `AddDisabled`
  is modelled; the button's action is not.
- `TodayMenu.TodayMenu.constructor`: the parent's initial `selectedCan` and `canSearchInput` are not visible,
  so they are constructor parameters.
- The rendering of the suggestion list items, the table body and the decorative components (animations,
  header, footer, loading spinner, search bar markup).
- `CalorieCalculatorPage.CalorieCalculator.ChooseStage`: takes the option index as a number. The `parseInt`
  of the select's string value is not modelled.
- `CatalogApp.App.SelectWeights`, `SelectMades`, `SelectBrands`: require the clicked option to be one the
  dropdown offers, because the dropdown only renders its options.
