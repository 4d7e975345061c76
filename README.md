# Client-side logic of the maintenance-management front end

This project models the logic that the browser front end of the
maintenance-management system (customers, devices, repair requests,
spare-parts inventory) runs on its own, without the remote backend:

- **The CSV import/export pipeline** (`frontend/src/utils/csv.js`, module `Csv`).
  It covers the header normaliser given to the CSV parser and the per-entity
  tables for the five entity kinds (column maps, validators, transformers,
  templates). It also covers `validateCSVData`, with its ordered error list;
  `mapCSVData`, which projects rows through a column map and then applies the
  entity transform; the reverse mapping of `exportEntityData`; and
  `previewCSVData`, which composes validation and mapping.
- **The shared data table** (`frontend/src/components/common/Table.jsx`,
  module `DataTable`). It covers the case-insensitive search, the per-column
  filters, the sort on one key with its ascending/descending toggle,
  pagination by slicing, the footer range, and the component state that
  the `handle*` callbacks change (class `DataTable.Table`).
- **Page helpers**: the stock-level badge, the disabled actions and the
  counts on the Inventory page (module `Inventory`); the net change and the
  totals of the item-movement report (module `Reports`); and the bounded,
  most-recent-first search history and the result count of the Global
  Search page (module `GlobalSearch`, class `GlobalSearch.SearchPage`).
- **ECMAScript built-ins** that the above depends on (module `JsBuiltins`):
  `trim` with the full ECMAScript white-space set, `toLowerCase` for Basic
  Latin letters, `includes`, `parseInt` (sign, `0x` prefix, longest digit
  run, NaN as `None`), `String(n)`, `slice` with clamping, `join`, and `<`
  on strings.

CSV rows are `map<string, string>`. Mapped records hold a small `Value`
datatype: text, flag, integer, null, and symbolic stand-ins for
floating-point, date and JSON results. A column map is a sequence of
(CSV column, field) pairs in the order `Object.entries` lists them.
Validation findings are a `Problem` datatype, and `Message` renders each as
the error text the source pushes. The validator for floating-point and
date fields consults an `Oracles` parameter instead of computing
`parseFloat`/`Date.parse`.

Main results:
- a header normalises to its lower-cased words joined by one `_` each
  (`Csv.TransformHeaderJoinsWords`);
- validation is exact in both directions (`Csv.ValidIff`,
  `Csv.RequiredReportedIff`, `Csv.InvalidReportedIff`);
- the error order is fixed (`Csv.ProblemsOrdered`);
- exporting and then importing gives back the mapped fields, and so does
  importing and then exporting (`Csv.ExportThenImport`, `Csv.ImportThenExport`);
- the filtered view is an order-preserving selection (`DataTable.FilteredViewKeeps`);
- the sorted view is a sorted permutation (`DataTable.SortedViewSpec`);
- reading every page gives back the list (`DataTable.AllPages`);
- the footer names exactly the rows the page shows (`DataTable.FooterMatchesPage`);
- the net column adds up to the report totals (`Reports.NetTotalMatchesStats`);
- the search history stays within ten distinct entries
  (`GlobalSearch.RecordQueryKeepsInvariant`).

`previewCSVData` computes `validRows` as rows minus errors. This is not a
row count: a row with none of the customer columns yields -4
(`Csv.ValidRowsCanBeNegative`), and a line of four empty cells under the
customers header yields -3 (`Csv.BlankCustomerLineGoesNegative`).
The model keeps that arithmetic as written.

## Model

| member | source | states |
|---|---|---|
| `Csv.TransformHeader` | frontend/src/utils/csv.js:50 | a normalised header contains no white space and no Basic Latin upper-case letter (what it is, word by word, is stated by `Csv.TransformHeaderJoinsWords`) |
| `Csv.CollapseSpaces` | frontend/src/utils/csv.js:50 | replacing white-space runs by `_` leaves no white space, adds no Basic Latin upper-case letter, and leaves a string with no white space unchanged (its result as joined words is stated by `Csv.CollapseSpacesJoins`) |
| `Csv.TransformHeaderIdempotent` | frontend/src/utils/csv.js:50 | normalising an already normalised header changes nothing |
| `Csv.WordLength` | frontend/src/utils/csv.js:50 | the leading run of characters other than white space: none of them is white space, and the character after it is |
| `Csv.Words` | frontend/src/utils/csv.js:50 | the maximal runs of characters other than white space, in order (definition; stated by `Csv.WordsAreRuns`) |
| `Csv.WordsAreRuns` | frontend/src/utils/csv.js:50 | every word of a string is a non-empty run without white space |
| `Csv.TransformHeaderJoinsWords` | frontend/src/utils/csv.js:50 | a normalised header is the words of the lower-cased header joined by one `_` each, whatever white space stood around or between them |
| `Csv.CollapseSpacesJoins` | frontend/src/utils/csv.js:50 | replacing each white-space run of a string that does not end in white space by `_` gives its words joined by `_`, behind one more `_` when it starts with white space |
| `Csv.WordsIgnoreOuterSpace` | frontend/src/utils/csv.js:50 | trimming before lower-casing changes no word |
| `Csv.TwoWordHeader` | frontend/src/utils/csv.js:50 | two words with any white space around them and a non-empty gap between become the two lower-cased words joined by one `_` |
| `Csv.PartCodeHeader` | frontend/src/utils/csv.js:50 | the header " Part  Code " normalises to `part_code` (the literal is written as concatenated pieces) |
| `Csv.ColumnMapping` | frontend/src/utils/csv.js:208-246 | the five column maps, in `Object.entries` order (definition, no contract of its own; stated by `Csv.ColumnMappingIsIdentity` and `Csv.ColumnMappingIsOneToOne`) |
| `Csv.EntityName` | frontend/src/utils/csv.js:208-246 | each of the five entity kinds is found again under its table key |
| `Csv.ColumnMappingIsIdentity` | frontend/src/utils/csv.js:208-246 | every shipped column map sends each CSV column to the field of the same name |
| `Csv.ColumnMappingIsOneToOne` | frontend/src/utils/csv.js:208-246 | every shipped column map has distinct columns and distinct fields |
| `Csv.GenerateCsvTemplate` | frontend/src/utils/csv.js:151-203 | an unknown name gets no row; a known entity gets exactly one row, whose columns are exactly those its column map reads, so it passes the missing-columns check; the customers and inventory rows pass validation with no error |
| `Csv.Template` | frontend/src/utils/csv.js:151-203 | the example row of each entity (definition, no contract of its own; its columns are stated by `Csv.TemplateHasMappedColumns`) |
| `Csv.TemplateHasRequiredColumns` | frontend/src/utils/csv.js:84-89 | every template row holds all the fields its entity's validation requires, so no missing-columns entry is produced |
| `Csv.CustomerTemplatePasses` | frontend/src/utils/csv.js:75-117 | the customers template yields no finding under the customer validators |
| `Csv.TemplateHasMappedColumns` | frontend/src/utils/csv.js:151-246 | each template row has exactly the columns its entity's column map reads |
| `Csv.RemoveSpaces` | frontend/src/utils/csv.js:254 | removing white space leaves none, never lengthens the text, keeps text without white space unchanged, and drops a single character exactly when it is white space |
| `Csv.RemoveSpacesAppend` | frontend/src/utils/csv.js:254 | removing white space works piece by piece, so with the one-character case every other character is kept in order |
| `Csv.SpacedPhone` | frontend/src/utils/csv.js:254 | "+966 50 123 4567", written with spaces between its groups, passes the phone validator (the literal is written as concatenated pieces) |
| `Csv.MappingFor` | frontend/src/utils/csv.js:331 | `columnMappings[entityType]`, falling back to the empty map for an unknown name (definition) |
| `Csv.ValidatorsFor` | frontend/src/utils/csv.js:332 | `validators[entityType]`, falling back to no validator for an unknown name (definition) |
| `Csv.Transform` | frontend/src/utils/csv.js:292-322 | the five transformers over the projected row (definition, no contract of its own; its behaviour is stated by the five lemmas below) |
| `Csv.TransformSpreadsRow` | frontend/src/utils/csv.js:292-322 | a transformer keeps every field it does not coerce, as text, and the result has the mapped keys plus the coerced fields |
| `Csv.CustomerTypeDefault` | frontend/src/utils/csv.js:293-296 | a customer's `type` is the given text, or "consumer" when it is empty or absent |
| `Csv.WarrantyIsFlag` | frontend/src/utils/csv.js:297-311 | the spare-part and device `warranty` becomes true exactly for the text "true" |
| `Csv.InventoryQuantitiesAreIntegers` | frontend/src/utils/csv.js:302-308 | each inventory quantity becomes an integer: what `parseInt` reads, else 0 |
| `Csv.MaintenanceRequestDefaults` | frontend/src/utils/csv.js:315-321 | the two request flags are true only for "true", and the fee type is "free" unless another non-empty value is given |
| `Csv.Validators` | frontend/src/utils/csv.js:251-287 | the validator list of each entity, in declaration order (definition, no contract of its own; the customers list is stated by `Csv.CustomerVerdicts`) |
| `Csv.PhoneShape` | frontend/src/utils/csv.js:254 | `/^\+?[1-9]\d{1,14}$/`: an optional `+`, a non-zero digit, then 1 to 14 digits (definition) |
| `Csv.IsPhone` | frontend/src/utils/csv.js:254 | the phone pattern applied after removing white space (definition; instances in `Csv.TemplatePhone` and `Csv.WordsAreNotAPhone`) |
| `Csv.Message` | frontend/src/utils/csv.js:78-106 | the error text of each finding, as the source pushes it (definition) |
| `Csv.Problems` | frontend/src/utils/csv.js:78-112 | the findings of `validateCSVData`: no data, or the missing-columns entry then the per-row findings (definition; stated by `Csv.ValidIff` and `Csv.ProblemsOrdered`) |
| `Csv.RowsProblems` | frontend/src/utils/csv.js:92-112 | the per-row findings, row after row (definition; stated by `Csv.RequiredReportedIff` and `Csv.InvalidReportedIff`) |
| `Csv.RequiredProblems` | frontend/src/utils/csv.js:96-100 | one row's required-field findings (definition; stated by `Csv.RequiredProblemsIff`) |
| `Csv.InvalidProblems` | frontend/src/utils/csv.js:103-107 | one row's validator findings (definition; stated by `Csv.InvalidProblemsIff`) |
| `Csv.Missing` | frontend/src/utils/csv.js:84-85 | a column is reported missing exactly when it is required and absent from the first row's keys |
| `Csv.MissingNone` | frontend/src/utils/csv.js:84-89 | when the first row has every required column, no missing-columns entry is produced |
| `Csv.MessagesLength` | frontend/src/utils/csv.js:92-111 | one error string per finding |
| `Csv.ValidateCsvData` | frontend/src/utils/csv.js:75-118 | the errors are the messages of the findings in report order; `isValid` holds exactly when there are none; empty data gives exactly "No data found in CSV file" |
| `Csv.CheckRows` | frontend/src/utils/csv.js:92-112 | the row loop gathers each row's findings in row order, row `i` numbered `i + 1` |
| `Csv.ValidateRow` | frontend/src/utils/csv.js:93-111 | a row's findings are its required-field findings followed by its validator findings |
| `Csv.CheckRequired` | frontend/src/utils/csv.js:96-100 | the required loop reports each blank required column in column order |
| `Csv.CheckValidators` | frontend/src/utils/csv.js:103-107 | the validator loop reports, in validator order, each non-empty cell its validator rejects |
| `Csv.RequiredProblemsIff` | frontend/src/utils/csv.js:96-100 | a row's required finding names that row, and is reported for a column exactly when the column is required and blank |
| `Csv.InvalidProblemsIff` | frontend/src/utils/csv.js:103-107 | a row's validator finding names that row, and is reported exactly when the cell is non-empty and some validator of that column rejects it |
| `Csv.RowsProblemsShape` | frontend/src/utils/csv.js:92-112 | every per-row finding names a row between 1 and the number of rows |
| `Csv.RowsProblemsOrdered` | frontend/src/utils/csv.js:92-112 | per-row findings come in row order, required before invalid within a row |
| `Csv.ProblemsOrdered` | frontend/src/utils/csv.js:83-112 | the missing-columns entry precedes every per-row finding, which follow in row order |
| `Csv.ProblemsAfterFirstAreRowFindings` | frontend/src/utils/csv.js:83-112 | every entry after the first is a per-row finding |
| `Csv.RequiredReportedIff` | frontend/src/utils/csv.js:92-100 | "Row n: c is required" is reported exactly when row n exists, c is required and the cell is absent or trims to nothing |
| `Csv.InvalidReportedIff` | frontend/src/utils/csv.js:102-107 | "Row n: Invalid c value" is reported exactly when row n exists and a validator of c rejects its non-empty cell |
| `Csv.RowsProblemsEmptyIff` | frontend/src/utils/csv.js:92-112 | no per-row finding exactly when no row has a blank required cell or a rejected cell |
| `Csv.ValidIff` | frontend/src/utils/csv.js:75-117 | validation succeeds exactly when there is data, the first row has every required column, and every row is clean |
| `Csv.Project` | frontend/src/utils/csv.js:131-135 | the projection of a row through a column map (definition; stated by `Csv.ProjectContents` and `Csv.ProjectKeys`) |
| `Csv.ProjectContents` | frontend/src/utils/csv.js:131-135 | a projected row holds exactly the fields whose source column is present, empty text included, each with its source's value |
| `Csv.ProjectKeys` | frontend/src/utils/csv.js:131-135 | a projected row has no field that is not a map target |
| `Csv.KeyIndex` | frontend/src/utils/csv.js:355-357 | finds the first entry with the key, or shows there is none |
| `Csv.FromEntriesOfDistinctKeys` | frontend/src/utils/csv.js:355-357 | entries with distinct keys come out of `Object.fromEntries` unchanged |
| `Csv.Swapped` | frontend/src/utils/csv.js:356 | turning every pair round exchanges the column list and the field list, and distinct fields become distinct columns and back |
| `Csv.Reverse` | frontend/src/utils/csv.js:355-357 | `reverseMapping` (definition; stated by `Csv.ReverseSwapsPairs`) |
| `Csv.ReverseSwapsPairs` | frontend/src/utils/csv.js:355-357 | with distinct fields, the reverse mapping is the column map with each pair swapped |
| `Csv.ExportRow` | frontend/src/utils/csv.js:359-367 | one export row: the record renamed through the reverse mapping (definition; stated by `Csv.ExportThenImport` and `Csv.ImportThenExport`) |
| `Csv.ExportThenImport` | frontend/src/utils/csv.js:359-367 | exporting a record and mapping the export row back through the same one-to-one map gives the record restricted to the mapped fields |
| `Csv.ImportThenExport` | frontend/src/utils/csv.js:128-135 | mapping a CSV row and exporting the record gives the row restricted to the mapped columns |
| `Csv.ProjectRow` | frontend/src/utils/csv.js:129-135 | the inner loop builds the projection of the row through the map |
| `Csv.MapCsvData` | frontend/src/utils/csv.js:127-144 | without a transform, one projected record per row, same count and order |
| `Csv.MapCsvDataWith` | frontend/src/utils/csv.js:127-144 | with a transform function, each row's result is that function applied to the row's projection and to the raw row, same count and order |
| `Csv.ExportEntityData` | frontend/src/utils/csv.js:353-368 | one export row per record, in order, each the record renamed through the reverse mapping |
| `Csv.PreviewCsvData` | frontend/src/utils/csv.js:330-345 | the preview validates against the map's fields and the entity's validators, maps every row, counts the rows, and sets `validRows` to rows minus errors when invalid |
| `Csv.ValidRowsCanBeNegative` | frontend/src/utils/csv.js:343 | a row with none of the customer columns gives one missing-columns error and four required-field errors, so `validRows` is -4 |
| `Csv.InvalidProblemsOfEmptyCells` | frontend/src/utils/csv.js:103-107 | no validator finding for a row whose validated cells are all absent or empty |
| `Csv.BlankCustomerLineGoesNegative` | frontend/src/utils/csv.js:343 | a customers line of four empty cells has every column, gets four required-field errors and no other, so `validRows` is -3 |
| `Csv.FilledWhenStartsSolid` | frontend/src/utils/csv.js:253 | a cell that starts with a non-space character passes the non-empty check |
| `Csv.TemplatePhone` | frontend/src/utils/csv.js:254 | the template phone number passes the phone validator |
| `Csv.WordsAreNotAPhone` | frontend/src/utils/csv.js:254 | "not-a-phone" fails the phone validator |
| `Csv.CustomerVerdicts` | frontend/src/utils/csv.js:252-256 | the customer validators check name, phone and type in that order: a non-empty name is rejected exactly when it is all white space, a phone exactly when it fails the phone pattern, a type exactly when it is neither "distributor" nor "consumer" |
| `Csv.OneRowClean` | frontend/src/utils/csv.js:92-111 | a row with no blank required cell and no rejected cell makes a one-row import clean |
| `Csv.CustomerRowClean` | frontend/src/utils/csv.js:252-256 | a customer row with every column filled, a valid phone and a known type passes every per-row check |
| `Csv.CustomerTemplateClean` | frontend/src/utils/csv.js:153-160 | the customers template fills every required column and every validator accepts it |
| `Csv.CustomerTemplateIsValid` | frontend/src/utils/csv.js:75-117 | the customers template validates with no error |
| `Csv.NumeralIsQuantity` | frontend/src/utils/csv.js:266-269 | the decimal numeral of any natural number passes the quantity validators |
| `Csv.InventoryRowClean` | frontend/src/utils/csv.js:262-270 | an inventory row with all six columns filled and four non-negative integer quantities passes every per-row check |
| `Csv.InventoryTemplateClean` | frontend/src/utils/csv.js:169-178 | the inventory template fills every required column and every validator accepts it |
| `Csv.InventoryTemplatePasses` | frontend/src/utils/csv.js:75-117 | the inventory template validates with no error |
| `Csv.ProjectIdentity` | frontend/src/utils/csv.js:131-135 | projecting a row that has every column of a one-to-one identity map gives the row back |
| `Csv.CustomerTemplateMapsUnchanged` | frontend/src/utils/csv.js:293-296 | mapping the customers template gives back its cells unchanged |
| `Csv.SparePartTemplateCoerced` | frontend/src/utils/csv.js:297-301 | mapping the spare-parts template turns its price into a number and "true" into the flag true |
| `Csv.OneRowProblems` | frontend/src/utils/csv.js:83-112 | a single row that has every required column is reported with exactly its own findings |
| `Csv.OnlyAddressAndPhoneFail` | frontend/src/utils/csv.js:83-111 | a one-row import whose only blank required cell is the address and whose only rejected cell is the phone reports the address finding and then the phone finding for row 1 |
| `Csv.BadPhoneAndBlankAddressRejected` | frontend/src/utils/csv.js:92-111 | a customer row with a blank address and a bad phone gets exactly the address finding and then the phone finding for row 1 |
| `JsBuiltins.Trim` | frontend/src/utils/csv.js:97 | `trim` over the ECMAScript white-space and line-terminator set (definition; stated by `JsBuiltins.TrimEmptyIff` and `JsBuiltins.TrimNoSpace`) |
| `JsBuiltins.Lower` | frontend/src/components/common/Table.jsx:34 | `toLowerCase` keeps the length, changes exactly the letters A-Z, each into the small letter at the same place in the alphabet, and keeps white space where it was |
| `JsBuiltins.LowerAppend` | frontend/src/components/common/Table.jsx:34 | lower-casing works piece by piece |
| `JsBuiltins.ParseInt` | frontend/src/utils/csv.js:266-269 | `parseInt` with no radix (definition; stated by `JsBuiltins.ParseIntOfIntToString`) |
| `JsBuiltins.IntToString` | frontend/src/pages/Reports.jsx:116 | `String(n)` is non-empty and starts with '-' exactly for a negative number |
| `JsBuiltins.Slice` | frontend/src/components/common/Table.jsx:76 | `slice` with clamped positions (definition; stated for pages by `DataTable.PageSpec`) |
| `JsBuiltins.TrimEmptyIff` | frontend/src/utils/csv.js:97 | a cell trims to nothing exactly when it is all white space |
| `JsBuiltins.StringLess` | frontend/src/components/common/Table.jsx:60-65 | JavaScript's `<` on two strings, by code point (definition; stated by `JsBuiltins.StringLessTotal`; the UTF-16 difference is under Left out) |
| `JsBuiltins.StringLessTotal` | frontend/src/components/common/Table.jsx:60-65 | of two different texts, one sorts before the other |
| `DataTable.FilteredView` | frontend/src/components/common/Table.jsx:26-50 | `filteredData` (definition; stated by `DataTable.FilteredViewKeeps`) |
| `DataTable.SearchedKeeps` | frontend/src/components/common/Table.jsx:30-37 | the search keeps, in order, exactly the rows some column of which contains the term ignoring case |
| `DataTable.FilteredKeeps` | frontend/src/components/common/Table.jsx:39-47 | the filters keep, in order, exactly the rows that pass every non-empty filter |
| `DataTable.SearchedCounts` | frontend/src/components/common/Table.jsx:30-37 | the search keeps every occurrence of a matching row and none of any other |
| `DataTable.FilteredCounts` | frontend/src/components/common/Table.jsx:39-47 | the filters keep every occurrence of a passing row and none of any other |
| `DataTable.FilteredOnStep` | frontend/src/components/common/Table.jsx:40-47 | narrowing by one more non-empty filter equals filtering on all of them at once |
| `DataTable.FilteredSkip` | frontend/src/components/common/Table.jsx:41 | an empty filter keeps every row |
| `DataTable.FilteredViewKeeps` | frontend/src/components/common/Table.jsx:26-50 | `filteredData` is an order-preserving subsequence of `data`: a row is in it exactly when it passes the search (when on) and every filter, and it appears there as often as in `data` |
| `DataTable.Table.ComputeFilteredData` | frontend/src/components/common/Table.jsx:26-50 | the loop over the filter entries yields the filtered view |
| `DataTable.Compare` | frontend/src/components/common/Table.jsx:56-67 | the comparator of `sortedData` (definition; stated by `DataTable.CompareAntisymmetric` and `DataTable.CompareTransitive`) |
| `DataTable.CompareAntisymmetric` | frontend/src/components/common/Table.jsx:56-67 | the comparator is antisymmetric |
| `DataTable.CompareTransitive` | frontend/src/components/common/Table.jsx:56-67 | the comparator is transitive |
| `DataTable.Insert` | frontend/src/components/common/Table.jsx:56 | inserting a row adds exactly that row |
| `DataTable.Sort` | frontend/src/components/common/Table.jsx:56-67 | the sorted copy is a permutation of its input |
| `DataTable.InsertSorted` | frontend/src/components/common/Table.jsx:56-67 | inserting into a sorted list keeps it sorted |
| `DataTable.SortSorted` | frontend/src/components/common/Table.jsx:56-67 | the sort puts every pair in comparator order for the key and direction |
| `DataTable.SortedView` | frontend/src/components/common/Table.jsx:53-68 | `sortedData` (definition; stated by `DataTable.SortedViewSpec`) |
| `DataTable.SortedViewSpec` | frontend/src/components/common/Table.jsx:53-68 | with no key the rows are unchanged; otherwise a permutation ordered by the key in the chosen direction |
| `DataTable.NextSort` | frontend/src/components/common/Table.jsx:81-88 | the next `sortConfig` after a header click (definition; stated by `DataTable.NextSortToggles`) |
| `DataTable.NextSortToggles` | frontend/src/components/common/Table.jsx:81-88 | a click selects the key, and the direction becomes descending exactly on a repeat click while ascending |
| `DataTable.Table.HandleSort` | frontend/src/components/common/Table.jsx:81-88 | a sortable table moves to the next sort configuration, and an unsortable one changes nothing |
| `DataTable.Table.HandleFilterChange` | frontend/src/components/common/Table.jsx:90-96 | sets one filter and resets to page 1, the rest unchanged |
| `DataTable.Table.HandleSearchChange` | frontend/src/components/common/Table.jsx:98-101 | sets the term and resets to page 1, the rest unchanged |
| `DataTable.Table.HandlePageChange` | frontend/src/components/common/Table.jsx:103-105 | sets the page and changes nothing else |
| `DataTable.Table.constructor` | frontend/src/components/common/Table.jsx:20-23 | a fresh table has no search, no sort key, ascending direction, page 1 and no filters |
| `DataTable.Page` | frontend/src/components/common/Table.jsx:74-76 | the slice shown for one page (definition; stated by `DataTable.PageSpec`) |
| `DataTable.PageSpec` | frontend/src/components/common/Table.jsx:71-77 | page p is the slice from (p-1)·pageSize to p·pageSize, cut at the end, so at most pageSize rows |
| `DataTable.PaginatedView` | frontend/src/components/common/Table.jsx:71-77 | `paginatedData` (definition; stated by `DataTable.PaginatedViewSpec`) |
| `DataTable.PaginatedViewSpec` | frontend/src/components/common/Table.jsx:71-77 | with pagination off every sorted row is shown; with it on and a page from 1 and a positive page size, exactly the `PageSpec` slice, at most `pageSize` rows |
| `DataTable.Table.PaginatedData` | frontend/src/components/common/Table.jsx:71-77 | the component's `paginatedData` over its current state (definition; stated by `DataTable.PaginatedViewSpec`) |
| `DataTable.TotalPages` | frontend/src/components/common/Table.jsx:79 | the page count is the least number of pages that covers all rows |
| `DataTable.PagesUpToPrefix` | frontend/src/components/common/Table.jsx:74-76 | the first k pages together are the first k·pageSize rows |
| `DataTable.AllPages` | frontend/src/components/common/Table.jsx:79 | pages 1 to totalPages together reproduce the sorted list |
| `DataTable.Footer` | frontend/src/components/common/Table.jsx:349 | the first and last row numbers of the footer (definition; stated by `DataTable.FooterMatchesPage`) |
| `DataTable.FooterMatchesPage` | frontend/src/components/common/Table.jsx:349 | on a valid page the footer range lies within 1..n and names exactly the rows shown |
| `Inventory.StockLevelText` | frontend/src/pages/Inventory.jsx:153-158 | `getStockLevelText` (definition; stated by `Inventory.StockLevelBands`) |
| `Inventory.StockLevelColor` | frontend/src/pages/Inventory.jsx:146-151 | `getStockLevelColor` (definition; stated by `Inventory.ColorMatchesText`) |
| `Inventory.StockLevelBands` | frontend/src/pages/Inventory.jsx:153-158 | the badge is "Out of Stock" iff qty = 0, "Low Stock" iff qty ≠ 0 and qty < 10, "Medium Stock" iff 10 ≤ qty < 25, and "In Stock" iff qty ≥ 25 |
| `Inventory.NegativeIsLowStock` | frontend/src/pages/Inventory.jsx:154-155 | a negative quantity is low stock, not out of stock |
| `Inventory.ColorMatchesText` | frontend/src/pages/Inventory.jsx:146-158 | the colour follows the text one-to-one |
| `Inventory.DisabledIffOutOfStock` | frontend/src/pages/Inventory.jsx:247-281 | Issue and Scrap are disabled exactly on "Out of Stock" rows; Add Stock never is |
| `Inventory.CountsOrdered` | frontend/src/pages/Inventory.jsx:365-368 | out-of-stock count ≤ low-stock count ≤ row count |
| `Inventory.GetStats` | frontend/src/pages/Inventory.jsx:365-373 | the integer counts of `getStats` (definition; stated by `Inventory.StatsOrdered` and `Inventory.CountsMatchBadges`) |
| `Inventory.StatsOrdered` | frontend/src/pages/Inventory.jsx:365-373 | the counts of `getStats` are ordered in the same way |
| `Inventory.CountsMatchBadges` | frontend/src/pages/Inventory.jsx:365-368 | the low-stock count is the number of rows not badged medium or in stock, and the out-of-stock count the number badged out of stock |
| `Reports.Net` | frontend/src/pages/Reports.jsx:110 | the `net` column (definition; stated by `Reports.NetTotalMatchesStats`) |
| `Reports.NetLabel` | frontend/src/pages/Reports.jsx:116 | the signed label of the net change (definition; stated by `Reports.NetLabelSign`, `Reports.NetLabelReadsBack` and `Reports.NetLabelInjective`) |
| `Reports.NetLabelSign` | frontend/src/pages/Reports.jsx:112-116 | the label starts with '+' iff net ≥ 0 and with '-' iff net < 0; the success colour goes with '+' |
| `Reports.NetLabelReadsBack` | frontend/src/pages/Reports.jsx:116 | `parseInt` reads the net change back from its label |
| `Reports.NetLabelInjective` | frontend/src/pages/Reports.jsx:116 | different net changes get different labels |
| `Reports.NetTotalMatchesStats` | frontend/src/pages/Reports.jsx:234-241 | the net column sums to totalAdded + totalReturned - totalIssued - totalScrapped |
| `Reports.Total` | frontend/src/pages/Reports.jsx:236-239 | the `reduce` sum of one field (definition; stated by `Reports.TotalAppend` and `Reports.TotalConcat`) |
| `Reports.TotalAppend` | frontend/src/pages/Reports.jsx:236-239 | a total grows by exactly the field of an appended row |
| `Reports.TotalConcat` | frontend/src/pages/Reports.jsx:236-239 | the total of two parts is the sum of their totals |
| `Reports.ReportStats` | frontend/src/pages/Reports.jsx:234-244 | `getReportStats` (definition; stated by `Reports.NetTotalMatchesStats` and `Reports.OtherReportsHaveZeroStats`) |
| `Reports.OtherReportsHaveZeroStats` | frontend/src/pages/Reports.jsx:243 | any other report type gets all-zero totals |
| `Reports.ReportColumns` | frontend/src/pages/Reports.jsx:57-124 | the item-movement report has six columns ending in `net`; any other type has none |
| `GlobalSearch.TotalResults` | frontend/src/pages/GlobalSearch.jsx:77-79 | the total is zero exactly when all three lists are empty, and is at least each list's length |
| `GlobalSearch.RecordQuery` | frontend/src/pages/GlobalSearch.jsx:50-51 | the history update of `performSearch` (definition; stated by `GlobalSearch.RecordNewQuery`, `GlobalSearch.RecordKnownQuery` and `GlobalSearch.RecordQueryKeepsInvariant`) |
| `GlobalSearch.RecordNewQuery` | frontend/src/pages/GlobalSearch.jsx:50-51 | a new query heads the history, followed by at most nine previous entries in order, at most ten in all |
| `GlobalSearch.RecordKnownQuery` | frontend/src/pages/GlobalSearch.jsx:50 | a query already in the history leaves it unchanged |
| `GlobalSearch.RecordQueryKeepsInvariant` | frontend/src/pages/GlobalSearch.jsx:50-51 | after a search the query is in the history, which stays within ten distinct entries |
| `GlobalSearch.SearchPage.constructor` | frontend/src/pages/GlobalSearch.jsx:9-17 | a fresh page has an empty query, no results and an empty history |
| `GlobalSearch.SearchPage.PerformSearch` | frontend/src/pages/GlobalSearch.jsx:41-59 | a blank query or a failed call changes nothing; otherwise the results are replaced and the history updated |
| `GlobalSearch.SearchPage.DebouncedFire` | frontend/src/pages/GlobalSearch.jsx:25-31 | a blank query clears all three result lists instead of searching |
| `GlobalSearch.SearchPage.HandleSearch` | frontend/src/pages/GlobalSearch.jsx:61-66 | the form searches the current query unless it is blank |
| `GlobalSearch.SearchPage.HandleHistoryClick` | frontend/src/pages/GlobalSearch.jsx:68-71 | a history click puts the query back in the box and searches it |
| `GlobalSearch.SearchPage.ClearHistory` | frontend/src/pages/GlobalSearch.jsx:73-75 | the history becomes empty, the rest unchanged |

## Left out

- CSV tokenising, quoting and unparsing are done by the Papa Parse library, which is not part of this model (`frontend/src/utils/csv.js:21`, `:64`). The same goes for the parse-error aggregation and the Promise wrapper of `parseCSVFile` (`:45-66`). Only its `transformHeader` option is modelled.
- The browser download of `exportToCSV` (Blob, DOM link, object URL) is left out. `Csv.ExportEntityData` returns the rows that would be handed to the CSV writer.
- `parseFloat` is not computed. The price and service-fee validators ask an `Oracles` parameter. The transforms yield a symbolic `Decimal(source)` in place of the number.
- `Date.parse`, `new Date(...).toISOString()` and `JSON.parse` are not computed. The `warranty_expiry` validator asks an `Oracles` parameter. The transforms yield symbolic `CalendarDate(source)` and `Json(source)`.
- Csv.Transform: does not model the exceptions that `toISOString` throws on an invalid date or that `JSON.parse` throws on malformed text (`frontend/src/utils/csv.js:312-313`). The model returns the symbolic value instead.
- Cells are strings throughout, as the CSV parser delivers them. The JS `true`/`false` values that the boolean validators and transforms also accept never occur in parsed rows.
- Csv.IntegerField: the quantity is the exact integer `parseInt` reads. JavaScript rounds it to a double, so "9007199254740993" gives 9007199254740992 and a run of 400 digits gives Infinity. `JsBuiltins.ParseInt` and the quantity validators share this simplification.
- JsBuiltins.StringLess: orders strings by Unicode code point. JavaScript's `<` compares UTF-16 code units, so it puts a character above U+FFFF (a surrogate pair starting at 0xD800-0xDBFF) before U+E000-U+FFFF, and the model orders those the other way.
- Csv.ExportRow: export and template rows are maps, so the order of their keys is not modelled. `Papa.unparse` takes the CSV header order from the first object's key order (`frontend/src/utils/csv.js:151-203`, `:359-369`). The same holds for `Csv.Template`.
- `JsBuiltins.Lower` lowers only the Basic Latin letters A-Z. Unicode case mapping is not modelled.
- DataTable.SortedViewSpec: cells are text, and a row without the sort field sorts as the empty text. JavaScript's `<` on numbers, on mixed types and on `undefined` is not modelled. With `undefined`, both comparisons are false, so the comparator is not a consistent order.
- The `data`, `columns` and option props of the table are fixed for the life of a `DataTable.Table` object. Rendering, row clicks, the export button and the `filterable` UI are left out.
- The floating-point `totalValue` of the Inventory stats is left out (`frontend/src/pages/Inventory.jsx:369-371`). So are the sales revenue and average figures and the scrap values on other pages.
- Report quantities are modelled as unbounded integers. JavaScript numbers are doubles, and the sums are exact only below 2^53. Report kinds other than item movement, report generation and date ranges are left out.
- The debounce timer of the Global Search page is left out (`frontend/src/pages/GlobalSearch.jsx:20-35`). So is its stale closure over the first render's history. The history rule is modelled against the current history.
- `api.globalSearch` is a parameter of the search methods (`None` when the call fails). Toasts, the loading spinner and the active tab are left out.
- `frontend/src/lib/supabase.js` is not part of this model: it wraps remote calls and opaque backend procedures. Neither are `frontend/src/pages/ImportExport.jsx`, which is async glue over the same pipeline plus remote bulk inserts, or theme, layout and routing.
