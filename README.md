# Layout engine pagination, modelled in Dafny

This project models `LayoutEngine` from `src/utils/layout.ts` of a print
template designer. The engine takes a print template (paper, positioned
elements, header and footer display modes) and a business data object. It
returns the ordered list of computed pages. Each page carries:

- its page number and the total page count;
- the template elements shown on that page;
- the paper configuration;
- the page data: the business data plus that page's table rows under the key
  `__table_<id>_data`.

The first element whose `type` is `table` drives pagination. Its data array
is read from the business data under its `dataKey`, using `|| []`. When
`groupBy` is set, the array is regrouped by that field: one group marker per
group, followed by that group's entries. The cells are then cut into pages in
one of two ways:

- **Strategy A**, with a positive `rowsPerPage`: the cells are first arranged
  into rows of `columnsCount` cells. The arrangement is across first
  (`ltr-ttb`) or down first in blocks of `rowsPerPage * columnsCount` cells.
  The rows are then sliced `rowsPerPage` at a time. With `autoFillBlank`, the
  last slice is padded with blank rows.
- **Strategy B**, otherwise: 15 cells per page, one cell per row.

Every element other than the table is placed relative to the table's `y`.
An element above the table is a header and one below it is a footer. Each is
shown or hidden per page by `headerDisplay` and `footerDisplay`. On every page
after the first, the table moves to the top margin.

Modules:

- `Values` (values.dfy): JavaScript values reduced to what the engine
  distinguishes (truthiness; object or primitive; null or undefined). Also
  table cells (data, blank marker, group marker), the faults the engine can
  raise, and `Math.ceil` on naturals.
- `Grouping` (grouping.dfy): `groupData`. This covers the dictionary built in
  creation order, the `Object.keys` order of its keys (array-index keys first
  and ascending, then the rest in creation order), and the emitted cells.
- `Chunking` (chunking.dfy): `chunkData`, in row-major and column-major
  layouts.
- `Pagination` (pagination.dfy): `calculateTablePagination`, strategies A and B.
- `Layout` (layout.dfy): `computePages` and the class `LayoutEngine`.

Each loop of the source is a `method` with a `while` loop. Its postcondition
ties the result to a recursive specification function. The properties of the
operations are proved about those functions as lemmas.

Three behaviours of the code worth noting:

- An empty or missing data array gives zero pages
  (`Layout.EmptyDataNoPages`).
- Strategy B is a plain 15-cell split. It measures no row heights.
- The table's `y` is reset to `margins.top` on every page after the first.

## Model

| member | source | states |
|---|---|---|
| Layout.LayoutEngine.constructor | src/utils/layout.ts:48-51 | the engine keeps the template and the data it is given |
| Layout.LayoutEngine.ComputePages | src/utils/layout.ts:56-134 | returns exactly the page list `Pages(template, data)`, including the two faults the source raises |
| Layout.LayoutEngine.AssemblePages | src/utils/layout.ts:87-131 | the page loop yields, for each table page `i`, the page numbered `i + 1` of `|tablePages|` with its filtered and placed elements and its page data |
| Layout.FindTable | src/utils/layout.ts:61 | the index found holds a `table` and no earlier element does; `None` only when no element is a table |
| Layout.Bind | src/utils/layout.ts:69 | the spread copy of the data has the same keys and the same values |
| Layout.NoTableSinglePage | src/utils/layout.ts:61-72 | without a table there is exactly one page, 1 of 1, holding every element and the data unchanged |
| Layout.TablePagesNumbered | src/utils/layout.ts:84-131 | with a table there is one page per table page, numbered 1..k of k; each binds its own rows under `__table_<id>_data` and keeps every other data key unchanged |
| Layout.EmptyDataNoPages | src/utils/layout.ts:75-90 | there are no pages exactly when the resolved data array is empty, grouped or not |
| Layout.SingleTablePage | src/utils/layout.ts:89-124 | when there is only one page, it is both first and last and shows every element unchanged |
| Layout.NullEntryFails | src/utils/layout.ts:79-80 | with `groupBy` set, a null or undefined entry makes `computePages` throw |
| Layout.ScalarDataFails | src/utils/layout.ts:75 | a truthy non-array under the table's data key is refused |
| Layout.ResolveItems | src/utils/layout.ts:75 | the data key's value, defaulting to `[]`: an array is taken as is; a missing or falsy value is the empty array; only a truthy non-array is refused, as `NotAnArray` |
| Layout.TableCells | src/utils/layout.ts:75-81 | the table's cells fail exactly when the data is refused or, with `groupBy` set, an entry is null or undefined; otherwise they hold the same entries, and without `groupBy` they are the entries in order with no group markers |
| Layout.Keep | src/utils/layout.ts:93-112 | an element is dropped exactly when it is neither table nor page info and is a 'firstPageOnly' header after page 1 or a 'lastPageOnly' footer before the last page |
| Layout.Place | src/utils/layout.ts:117-123 | placement changes only `y`, only of a table, and only after page 1, where it becomes the top margin |
| Layout.KeptElements | src/utils/layout.ts:93-124 | every table, page-info element and element level with the table is on every page; a header is on page 1 and on every page unless 'firstPageOnly'; a footer is on the last page and on every page unless 'lastPageOnly' |
| Layout.FirstPageUnmoved | src/utils/layout.ts:93-124 | on page 1 every shown element is a template element as declared, so each table keeps its declared `y` |
| Layout.PageElementsOrder | src/utils/layout.ts:93-124 | each page shows exactly the elements the filter keeps, each once, in template order, each passed through the table placement |
| Layout.OnlyPageKeepsAll | src/utils/layout.ts:93-124 | on a page that is both first and last, the element list is the template's, unchanged |
| Layout.PerPageKeepsAll | src/utils/layout.ts:97-111 | under 'perPage' display for both header and footer, every element is shown on every page |
| Layout.DisplayModesDrop | src/utils/layout.ts:97-109 | 'firstPageOnly' hides every header after page 1; 'lastPageOnly' hides every footer before the last page; tables and page-info elements are exempt |
| Layout.TablesMoveToTop | src/utils/layout.ts:117-122 | after the first page every table sits at `paper.margins.top` |
| Grouping.GroupData | src/utils/layout.ts:139-153 | returns exactly `Grouped(items, groupBy)`: the grouped cells, or the TypeError of reading a field of null or undefined |
| Grouping.CollectGroups | src/utils/layout.ts:140-145 | the first pass fails exactly on a nullish entry; otherwise the dictionary's keys, in creation order, are the first-seen keys, and each key holds exactly its entries in order |
| Grouping.EmitGroups | src/utils/layout.ts:147-152 | the second pass emits, for each key in order, its marker followed by that key's entries |
| Grouping.FieldValue | src/utils/layout.ts:142 | `item[groupBy]` is an object's own field, and `undefined` when the object lacks it or the entry is a primitive |
| Grouping.ToPropertyKey | src/utils/layout.ts:142-143 | a string key is itself; a number from 0 to 2^32 - 2 becomes the array-index key denoting it; a negative number, `undefined`, `null` or a boolean becomes a non-empty key that is not an array index |
| Grouping.GroupKey | src/utils/layout.ts:142-143 | the key is never empty: a truthy field value gives its property key, a falsy one '未分类' |
| Grouping.KeyOfObject | src/utils/layout.ts:142 | an object is filed under its field's value when that is truthy, and under '未分类' otherwise |
| Grouping.NatToDecimalIsCanonical | src/utils/layout.ts:142-143 | a number used as a key becomes the decimal string that `Object.keys` treats as an array index |
| Grouping.OwnKeysOrder | src/utils/layout.ts:148 | `Object.keys` order is a permutation of the created keys: array indices first and ascending, the other keys in creation order |
| Grouping.OwnKeysWithoutIndices | src/utils/layout.ts:148 | when no key looks like an array index, groups come out in first-seen order |
| Grouping.FirstSeenKeys | src/utils/layout.ts:141-143 | the created keys are distinct, and they are exactly the keys of the entries |
| Grouping.EmitMembers | src/utils/layout.ts:148-151 | restricted to one key, the emitted entries are exactly that key's entries when it is listed, and none otherwise |
| Grouping.GroupedShape | src/utils/layout.ts:139-153 | without nullish entries: the markers are the `Object.keys` order of the created keys; each group keeps its entries in their original relative order; no entry is lost or duplicated; length is entries plus groups |
| Grouping.GroupedEmpty | src/utils/layout.ts:139-153 | an empty array groups to an empty array |
| Grouping.GroupedExample | src/utils/layout.ts:139-153 | a worked example: entries keyed B, A, B come out as marker B, both B entries, marker A, the A entry |
| Grouping.OwnKeysExample | src/utils/layout.ts:148 | a worked example: created keys "10", "x", "2" are listed as "2", "10", "x" |
| Grouping.GroupedNumericKeysExample | src/utils/layout.ts:148 | a worked example: numeric group keys are listed before text keys and in ascending order, whatever the order of first appearance |
| Chunking.ChunkData | src/utils/layout.ts:198-233 | returns exactly `Chunked(items, columns, flow, rowsPerPage)` |
| Chunking.PadRow | src/utils/layout.ts:205-209 | a short row is padded with blank cells up to `columns` |
| Chunking.RowMajorRows | src/utils/layout.ts:202-211 | the across-first loop yields `RowMajor(items, columns)` |
| Chunking.ColumnBlockRows | src/utils/layout.ts:220-229 | the nested loops over one block yield `ColumnBlock(block, columns)` |
| Chunking.ColumnMajorRows | src/utils/layout.ts:217-230 | the down-first loop over blocks of `pageSize` cells yields `ColumnMajor(items, columns, pageSize)` |
| Chunking.Singletons | src/utils/layout.ts:199 | one single-cell row per cell, in order |
| Chunking.SingletonsFlatten | src/utils/layout.ts:199 | the single-cell rows read back to the cells |
| Chunking.RowMajorCount | src/utils/layout.ts:204 | across-first gives `ceil(n / columns)` rows |
| Chunking.RowMajorWidth | src/utils/layout.ts:207-209 | every across-first row has exactly `columns` cells |
| Chunking.RowMajorFlatten | src/utils/layout.ts:204-210 | the across-first rows read back to the cells followed by the trailing blanks of the last row |
| Chunking.TrailingBlanksFill | src/utils/layout.ts:207-209 | the cells plus the trailing blanks fill the rows exactly |
| Chunking.ColumnBlockShape | src/utils/layout.ts:220-224 | a block has `ceil(n / columns)` rows of `columns` cells, and at most `limit` rows when it holds at most `limit * columns` cells |
| Chunking.Shown | src/utils/layout.ts:226 | the shown entry, defaulting to a blank, is always truthy: a truthy cell is kept and a falsy one becomes a blank |
| Chunking.BlockCell | src/utils/layout.ts:225-226 | a block cell is always truthy; a non-blank cell is the block entry `c * rows + r`, and a truthy entry at that index is shown as is |
| Chunking.ColumnBlockCell | src/utils/layout.ts:225-226 | cell `(r, c)` of a block is entry `c * rows + r`, or a blank past the end; this unfolds the block's definition, and the index map itself is stated by `Chunking.ColumnBlockPosition` and `Chunking.ColumnBlockSourcesDistinct` |
| Chunking.ColumnBlockPosition | src/utils/layout.ts:220-226 | entry `j` of a block lands in row `j % rows` of column `j / rows`, inside the grid, shown as a blank when it is falsy |
| Chunking.ColumnBlockSourcesDistinct | src/utils/layout.ts:225 | distinct cells of a block read distinct entries |
| Chunking.ColumnMajorCount | src/utils/layout.ts:217-230 | down-first with blocks of `rows * columns` cells gives `ceil(n / columns)` rows in all |
| Chunking.ColumnMajorWidth | src/utils/layout.ts:222-228 | every down-first row has exactly `columns` cells |
| Chunking.ChunkedCount | src/utils/layout.ts:198-233 | `chunkData` gives `n` rows for at most one column, and `ceil(n / columns)` rows otherwise |
| Chunking.ChunkedWidth | src/utils/layout.ts:198-233 | every chunked row has one cell for at most one column, and `columns` cells otherwise |
| Chunking.ColumnBlockOfSix | src/utils/layout.ts:212-230 | a worked example: six truthy cells in two columns down-first read `[[a, d], [b, e], [c, f]]` |
| Chunking.FalsyEntryExample | src/utils/layout.ts:202-226 | a falsy entry (the number 0) is kept across-first but becomes a blank cell down-first |
| Pagination.CalculateTablePagination | src/utils/layout.ts:158-193 | returns exactly `TablePages(items, table)` |
| Pagination.SliceRows | src/utils/layout.ts:168-181 | the strategy-A loop yields `FixedPages(rows, rowsPerPage, autoFillBlank, columnsCount)` |
| Pagination.FillPage | src/utils/layout.ts:172-179 | the last page is padded with rows of `columnsCount` blank cells up to `rowsPerPage` rows |
| Pagination.SliceCells | src/utils/layout.ts:184-190 | the strategy-B loop yields `DefaultPages(items)` |
| Pagination.BlankRows | src/utils/layout.ts:174-177 | `n` rows, each `columnsCount` blank cells |
| Pagination.FixedPagesCount | src/utils/layout.ts:168 | strategy A gives `ceil(rows / rowsPerPage)` pages |
| Pagination.FixedPagesSizes | src/utils/layout.ts:168-180 | every page but the last holds `rowsPerPage` rows; the last holds between 1 and `rowsPerPage`, and exactly `rowsPerPage` when filled |
| Pagination.FixedPagesFlatten | src/utils/layout.ts:168-181 | the strategy-A pages read back to the rows, followed by the fill rows when `autoFillBlank` is set |
| Pagination.DefaultPagesShape | src/utils/layout.ts:184-190 | strategy B gives `ceil(n / 15)` pages of at most 15 single-cell rows; every page but the last is full; the rows read back to the cells |
| Pagination.DefaultPagesReadBack | src/utils/layout.ts:184-190 | the strategy-B pages read back to the cells |
| Pagination.TablePagesCount | src/utils/layout.ts:158-193 | the page count of each strategy; there are no pages exactly when there are no cells |
| Pagination.ColumnFlowPages | src/utils/layout.ts:166-217 | with more than one column down-first, each page is exactly one column-major block of `rowsPerPage * columnsCount` cells |
| Values.Truthy | src/utils/layout.ts:142 | the JavaScript falsy primitives are exactly `undefined`, `null`, `false`, `0` and `""` |
| Values.CellTruthy | src/utils/layout.ts:226 | a cell is falsy exactly when it is a falsy primitive entry; objects, blanks and group markers are truthy |
| Values.CeilDivUnique | src/utils/layout.ts:220 | the model's `Math.ceil(n / d)` is the unique least `r` with `n <= r * d` |

## Left out

- `UnitConverter` (layout.ts lines 34-42) is floating-point unit conversion and is not used by the engine.
- `src/types/print.ts` (the template and element types) and `vite.config.ts` (the build configuration) are not part of this model.
- Numbers are integers. A fractional group-by value is not modelled. A negative number is filed under its minus-signed decimal string, which is never an array index.
- Grouping.ToPropertyKey: `NatToDecimal` writes every number as plain digits. JavaScript's `String(n)` switches to exponent form from 10^21 on (`1e+21`), so such keys differ.
- Grouping.FieldValue: reading `item[groupBy]` gives an object's own field, and `undefined` for every primitive entry. In JavaScript a string entry also has `length` and index properties (`"abc"["length"]` is 3, `"abc"["0"]` is "a"), and every non-nullish entry inherits members such as `constructor`. The model files such entries under '未分类' instead. A group-by value of 10^21 or more also takes the exponent form noted for `Grouping.ToPropertyKey`.
- Object- and array-valued fields used as group keys (JavaScript would file them under "[object Object]" or a joined string) are not modelled. A field holds a primitive value.
- Inherited `Object.prototype` properties (`groups['constructor']`, `groups['__proto__']`) are not modelled. The dictionary is a plain map.
- Layout.ResolveItems: a truthy non-array under the data key (a non-empty string, a non-zero number, `true`) is reported as `NotAnArray`. In the source the outcome depends on the value and the path taken. With `groupBy` set, `items.forEach` throws (line 141). Under strategy A with `columnsCount` at most 1, `items.map` throws (line 199). Under strategy B a string throws at `pageItems.map` (line 188). Across-first with more than one column, a string is cut into substrings of `columnsCount` characters, and `row.push` throws (line 208) when the last one is short. Down-first, a string is split into single characters (lines 219-226). A number or `true` has no `length`, so it gives zero pages under strategy B and under strategy A with more than one column.
- Layout.Element: an element's `x`, size, style bag and the `pageInfo` formatting are left out. The engine only reads `type`, `y` and `id`. An element without `y` (where every comparison is false) is not modelled.
- Layout.Template: `headerDisplay` and `footerDisplay` are strings. The `'perPage'` defaults for missing fields are taken at construction.
- Aliasing is not modelled: in the source, the pad rows share one blank object and the page data shares the business values by reference. The model has value semantics.
- Values.TableOptions: `columnsCount` is a natural number and `rowsPerPage` an integer. Negative column counts, fractional `rowsPerPage` and non-numeric values are not modelled. With `columnsCount` 0, chunked rows have one cell but pad rows have none, as in the source.

