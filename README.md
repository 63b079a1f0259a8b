# Financing-cost extraction for housing-finance applications, in Dafny

This project models the core of a tool that downloads housing tax-credit application
workbooks, reads financing-cost line items and project metrics out of them, and checks
them for internal consistency. Three pieces are modelled:

- **The field extractor** (`parser.py`, module `Parser`). A worksheet is a finite grid
  of cells (`Worksheet.Sheet`) with a `maxRow` and a `maxColumn`; a cell is `Empty`,
  `Num`, `Str` or `Other`. The class `ExcelParser` keeps the workbook and its two selected
  sheets as fields. Its methods walk the grid the way the source does: nested row and column
  loops with early returns, and a `currentRow` counter inside a bounded window. Each method
  is proved equal to a closed-form function (`FindCell`, `ConstructionSection`,
  `NewConstructionTotal`, `UnitsAndSf`, ...). Lemmas then state what those functions
  promise: first match in row-major order, the fixed row offsets, "None or positive".
- **The records and their validation** (`data_models.py`, module `DataModels`). The two
  cost sections are value datatypes with their line-item sums and their 0.01 tolerance
  check. `ApplicationData` is a class: its ratio getters read its fields, and `Validate`
  rebuilds its error and warning lists.
- **The downloader's link loop** (`download.py`, module `Download`). The listing page,
  the files already on disk and the HTTP responses are inputs. The loop classifies each
  link, resolves its URL, derives a file name and skips names already seen. It stops at
  the limit, and it keeps a response only by its content type or its zip signature.
  The directory scan is modelled too.

Helper modules: `Wrappers` (`Option`, `Result`, `Outcome`), `Text` (the parts of Python's
`str` on ASCII text the core uses), `Worksheet` (cells and sheets) and `Numeric` (the
`[^\d.-]` filter and `float()` on the strings that filter can produce).

Amounts are exact `real`s. `float(cleaned)` is modelled as a parser of
`-?(D+ | D+. | D+.D+ | .D+)`; these are the only shapes `float()` accepts from a string
made of digits, `.` and `-`.

## Model

| member | source | states |
|---|---|---|
| `Parser.ExcelParser.LoadWorkbook` | parser.py:23-40 | The Sources & Uses sheet becomes the last sheet whose lower-cased name contains "sources" and "uses". The Application sheet becomes the first sheet named "application" (ignoring case), unless one was already held. An unreadable workbook fails with `UnreadableWorkbook` and leaves the fields as they were. After the scan, if no Sources & Uses sheet is held, the load fails with `SourcesUsesSheetMissing`. A sheet held from an earlier load is kept, so such a reload succeeds. |
| `Parser.LastSourcesUsesIsLast` | parser.py:28-30 | `LastSourcesUses` gives the last matching sheet index, and `None` exactly when no sheet name mentions both words. |
| `Parser.FirstApplicationIsFirst` | parser.py:31-35 | `FirstApplication` gives the first index named "application" (through the `elif`), and `None` exactly when there is none. |
| `Parser.ExcelParser.FindCellByText` | parser.py:42-57 | The nested row/column loop returns exactly `FindCell`, the first match of the row-major scan. |
| `Parser.FindCellIsFirst` | parser.py:42-57 | The position found lies in the used range and its truthy cell matches. No earlier cell in row-major order matches. The result is `None` exactly when no cell matches. |
| `Parser.ExactMatchIsContainsMatch` | parser.py:51-56 | Every exact match is also a substring match. |
| `Parser.ExactTotalSkipsSubtotal` | parser.py:51-53 | An exact search for "Total" never returns a cell reading "Subtotal". |
| `Parser.SubstringTotalFindsSubtotal` | parser.py:54-56 | A substring search for "Total" returns the "Subtotal" cell or an earlier match. |
| `Parser.CellNumberOfPlaceholders` | parser.py:59-78 | An empty cell, "N/A" and "-" all read as 0.0. |
| `Parser.CellNumberWithoutDigits` | parser.py:69-76 | Any text without a digit reads as 0.0, because the parse fails. |
| `Parser.CellNumberIgnoresDollarSign` | parser.py:72 | A leading "$" does not change the number read. |
| `Parser.CellNumberIgnoresComma` | parser.py:72 | A thousands separator anywhere does not change the number read. |
| `Parser.CellNumberOfCents` | parser.py:72-74 | A cell reading `d.cc` gives `d + cc/100`, so "1234.56" (and "$1,234.56" by the two lemmas above) gives 1234.56. |
| `Parser.CellNumberOfWholeNumber` | parser.py:72-74 | A whole number written in decimal reads back as itself. |
| `Parser.CellNumberOfNegativeWholeNumber` | parser.py:72-74 | The filter keeps '-', so "-n" reads as -n. |
| `Parser.CellNumberFiltersText` | parser.py:72 | Filtering the text beforehand changes nothing, because the filter is idempotent. |
| `Parser.ExcelParser.FindValueNearLabel` | parser.py:80-101 | Returns `NearLabelValue`: on the label's row, the first positive number in columns B, C, R, S, then in the nine columns right of the label. It is `None` or strictly positive. |
| `Parser.FirstPositiveIsFirst` | parser.py:91-100 | `FirstPositive` is `None` exactly when no listed column reads positive. Otherwise it is the value of the first column that does. |
| `Parser.ExcelParser.ExtractConstructionInterestFees` | parser.py:103-186 | Every `current_row <= end_row` guard of the 20-row window passes. The result is `ConstructionSection`: the all-zero record without a header, else the record read below the first header row. |
| `Parser.ConstructionBelowLayout` | parser.py:113-186 | Below a header on row h, the nine line items, in record order, are the column-B numbers of rows h+1..h+9. This row documents the layout: the lemma unfolds the section's definition. |
| `Parser.ExcelParser.ExtractPermanentFinancing` | parser.py:188-250 | The same through the 15-row window: the all-zero record without a header, else the six items of rows h+1..h+6, the "Other" text of row h+6 and the total of row h+7. |
| `Parser.PermanentBelowLayout` | parser.py:198-250 | Below a header on row h, the six line items, in record order, are the column-B numbers of rows h+1..h+6. This row documents the layout: the lemma unfolds the section's definition. |
| `Parser.ConstructionOnlyScenario` | parser.py:113-186 | Loan interest 100000, origination fee 5000, no other item and a total of 105000 give no validation error. With the permanent section missing, the combined cost is 105000. |
| `Parser.ParsedConstructionOnlyScenario` | parser.py:344-363 | The same end to end. The construction header is found on row h and there is no permanent header. Column B below the header holds those amounts. Then the record `parse` returns has no validation error, and its combined financing cost is 105000. |
| `Parser.ParsedSectionsBelowHeaders` | parser.py:352-354 | With the construction header on row h and no permanent header, `parse` keeps the construction section read below row h and the all-zero permanent section. |
| `Parser.ExcelParser.ExtractNewConstructionTotal` | parser.py:252-276 | Returns `NewConstructionTotal`, which is `None` or strictly positive. |
| `Parser.NewConstructionTotalSource` | parser.py:256-276 | A row qualifies when its column-A label matches and its column-B amount is positive. If rows 1..min(max_row, 99) have a qualifying "total new construction costs" row, the result is the first such row's amount. Otherwise it is the amount of the first qualifying row among the 19 below the first "new construction" cell, where the label must hold "total" and "construction". With no qualifying row, or no such cell, the result is `None`. |
| `Parser.ScanTotalRowsIsFirst` | parser.py:257-274 | A row scan returns the amount of its first qualifying row, and `None` exactly when there is none. |
| `Parser.ExcelParser.SearchMetric` | parser.py:299-340 | The triple loop (rows, label columns D and G, value columns AG then L, with breaks) returns `MetricFrom`. |
| `Parser.MetricFromIsFirst` | parser.py:301-319 | A found value comes from the first row that has both a D or G label naming the metric and a positive value in column AG or L. A labelled row without a positive value is skipped. The value is the first positive one, AG before L. |
| `Parser.MetricFromNoneIffNoHit` | parser.py:301-340 | The search finds nothing exactly when no row has both a matching label and a positive value. |
| `Parser.UnitsAndSf` | parser.py:278-342 | Without an Application sheet the result is (None, None). `units` is `None` exactly when no unit row is found; otherwise it is the truncation of the value found. `sf` is the square-footage value found, so it is `None` or > 0. |
| `Parser.ExcelParser.ExtractUnitsAndSf` | parser.py:278-342 | Returns `UnitsAndSf` of the Application sheet: a non-negative unit count and a strictly positive square footage, or `None`. |
| `Parser.ExcelParser.Parse` | parser.py:344-363 | Fails exactly as `load_workbook` does, with the same new parser state. On an unreadable workbook, the workbook and sheet fields keep their old values; otherwise `wb` is the loaded workbook. On success it returns a fresh record with the path and its stem, both sections, the new-construction total and the metrics. Its validation lists are the ones `validate` computes. |
| `Parser.ExcelParser.BuildApplicationData` | parser.py:348-361 | The extractors run on the held sheets, and they fill a fresh, validated record (`ParsedFrom`). |
| `Parser.StemOfWorkbookPath` | parser.py:350 | The application name of `dir/base.xlsx`, with a plain base name, is `base`. |
| `DataModels.ConstructionLineItemsSum` | data_models.py:24-29 | `get_line_items_sum` adds exactly the nine line items, `other_amount` included and `total` excluded. |
| `DataModels.PermanentLineItemsSum` | data_models.py:51-55 | `get_line_items_sum` adds exactly the six line items. |
| `DataModels.ConstructionIsValidAgainstSum` | data_models.py:31-36 | `is_valid` passes with no message exactly when the total is within 0.01 of the line-item sum. Otherwise the message carries both amounts. |
| `DataModels.PermanentIsValidAgainstSum` | data_models.py:57-62 | The same for the permanent section. |
| `DataModels.ConstructionTotalAtSumIsValid` | data_models.py:31-36 | Setting the total to the line-item sum always passes. |
| `DataModels.PermanentTotalAtSumIsValid` | data_models.py:57-62 | The same for the permanent section. |
| `DataModels.DefaultsAreEmptyAndValid` | data_models.py:12-22 | A default-constructed section has every amount 0, an empty description, and passes `is_valid`. |
| `DataModels.ApplicationData.GetCombinedFinancingCosts` | data_models.py:78-80 | When both sections pass `is_valid`, the combined cost is within 0.02 of the sum of all fifteen line items. |
| `DataModels.ApplicationData.GetFinancingCostsPerUnit` | data_models.py:82-86 | `None` exactly when the unit count is unset or not positive. Otherwise the result times the unit count is the combined cost. |
| `DataModels.ApplicationData.GetFinancingCostsPerSf` | data_models.py:88-92 | `None` exactly when the square footage is unset or not positive. Otherwise the result times the square footage is the combined cost. |
| `DataModels.ApplicationData.GetFinancingCostsPctHardCosts` | data_models.py:94-98 | `None` exactly when the new-construction total is unset or not positive. Otherwise the result times that total is 100 times the combined cost. |
| `DataModels.ApplicationData.Validate` | data_models.py:100-121 | Both lists are rebuilt from scratch: afterwards they are exactly `ValidationErrors` of the two sections and `ValidationWarnings` of the three metrics, whatever they held before. |
| `DataModels.ValidationErrorsReportFailingSections` | data_models.py:100-113 | At most two errors, construction before permanent. A section has an error, carrying its mismatch message, exactly when it fails `is_valid`. |
| `DataModels.ValidationWarningsFlagMissingMetrics` | data_models.py:115-121 | One warning per unset metric, in the order units, square footage, new-construction total. A metric set to any value, 0 included, gives none. |
| `DataModels.FilledApplicationData` | parser.py:348-361 | The record `parse` fills in: the given fields, then the two validation lists. |
| `Download.IsExcelLinkSimplified` | download.py:44-48 | A link is a spreadsheet link exactly when its lower-cased href contains ".xls" or its lower-cased text contains "excel" or "download". |
| `Download.ResolveUrl` | download.py:52-58 | "/..." goes to the site origin and "http..." is kept. Anything else is appended to the page URL after its last "/". The result always ends with the href. |
| `Download.ResolveRelativeUrl` | download.py:57-58 | A page-relative href keeps the page URL up to and including its last "/". |
| `Download.FilenameShape` | download.py:61-67 | A derived name ends in ".xlsx" or ".xls" and holds neither "/" nor "?". |
| `Download.FilenameIdempotent` | download.py:61-67 | Deriving the name of a derived name changes nothing. |
| `Download.AcceptsZipBody` | download.py:89 | A body starting with `PK\x03\x04` is kept whatever its content type. |
| `Download.ShortBodyNeedsContentType` | download.py:89 | A body shorter than four bytes is kept only for its content type. |
| `Download.VisitSeenName` | download.py:69-71 | A link whose derived name has been handled changes nothing, even if the first fetch failed. |
| `Download.VisitExistingFile` | download.py:77-80 | A file already on disk is listed without a request and counts toward the limit. |
| `Download.VisitRejected` | download.py:83-97 | A fetch that fails, a response that is not kept, or a write that raises lists nothing and saves nothing. The request is recorded and the name is marked seen. |
| `Download.VisitAccepted` | download.py:83-94 | A kept fetch whose write succeeds lists the path and saves the body under it. The request is recorded and the name is marked seen. |
| `Download.DownloadedIncludes` | download.py:36-99 | The run returns whatever succeeded. A spreadsheet link is reached before the cap, and no earlier spreadsheet link derives the same name. If its file was on disk, or its fetch was kept and written, its path is in the returned list. |
| `Download.ScanFromAppend` | download.py:36-97 | Running the loop over `a + b` is running it over `a`, then over `b`. |
| `Download.ScanFromSeen` | download.py:69-72 | The loop marks as seen only the names of spreadsheet links it visits. |
| `Download.ScanFromPreserves` | download.py:36-97 | The loop keeps its invariant: no duplicate path, every path a spreadsheet name in the output directory, either on disk before or written with an accepted body. It adds at most one path per link and respects a positive limit. |
| `Download.ScanFromExtends` | download.py:36-97 | The loop only appends to the list. |
| `Download.NegativeLimitDownloadsNothing` | download.py:37-38 | A negative limit stops the loop before its first link. |
| `Download.DownloadedShape` | download.py:11-102 | The run returns no duplicate path and at most `limit` paths for a positive limit. Every path ends in ".xlsx" or ".xls" and was on disk or written with an accepted body to a writable path. A page that cannot be fetched gives []. |
| `Download.DownloadExcelFiles` | download.py:11-102 | The link loop, with `break` and `continue`, computes exactly `Downloaded`, failing writes included, and so has all of `DownloadedShape`'s properties. |
| `Download.ExcelFilesInComplete` | download.py:105-112 | Every listed name ending in ".xlsx" or ".xls" gives its joined path. |
| `Download.ExcelFilesInSound` | download.py:105-112 | Every path comes from a listed spreadsheet name. |
| `Download.ExcelFilesInLength` | download.py:105-112 | There are no more paths than names, and none for a listing without spreadsheet names. |
| `Download.FindExcelFilesInDirectory` | download.py:105-112 | Returns [] for a missing directory. Otherwise it returns the directory joined with each listed spreadsheet name, in listing order. |

Some functions that model a source function directly have no `ensures` of their own. The lemma rows above state their properties:
- `Parser.CellNumber` (`extract_number_from_cell`): the `CellNumber…` rows.
- `DataModels.ConstructionInterestFees.GetLineItemsSum` and `IsValid`, and the permanent counterparts: `ConstructionLineItemsSum`, `PermanentLineItemsSum`, `ConstructionIsValidAgainstSum` and `PermanentIsValidAgainstSum`.
- `Download.IsExcelLink`: `IsExcelLinkSimplified`.
- `Download.Filename`: `FilenameShape` and `FilenameIdempotent`.
- `Download.Accepts`: `AcceptsZipBody` and `ShortBodyNeedsContentType`.
- `Parser.Stem` (`Path(path).stem`): `StemOfWorkbookPath`.

## Left out

- Loading a workbook with openpyxl and resolving formulas to cached values. A sheet is a
  given grid of cells, and `LoadWorkbook` takes the loaded workbook (or its failure) as an input.
- `str(value)` of a non-string cell (a number, a date) is an input carried by the cell
  (`Num.shown`, `Other.shown`), not computed.
- Lower-casing and `strip()` work on ASCII only; Unicode case mapping and Unicode
  whitespace are not modelled.
- Python floats: amounts are exact reals, so rounding in sums and in `float()` is not
  modelled. The text of the mismatch message (`:,.2f` formatting) becomes the structured
  `TotalMismatch(total, lineItemsSum)`. The section prefix `validate` writes before the
  message ("Construction Interest & Fees: ", "Permanent Financing: ") becomes the `Section` tag
  of a `ValidationError`. `float()` of a digit string too large for a double
  (which gives `inf`) is not modelled.
- openpyxl's `sheet.cell()` creates empty cells past `max_row` or `max_column` as a side
  effect (the reads of columns B, AG and L can raise `max_column`). Those cells read as
  empty, so no scan can observe them, and the side effect is not modelled.
- `Parser.Stem` models `Path(path).stem` as the last "/"-separated component without its
  last suffix. pathlib's other corner cases (trailing separators, "." and "..") are not
  modelled.
- The network, HTML parsing and the file system are inputs to `DownloadExcelFiles`. The page
  is a sequence of (href, text) links, or `None` when fetching it fails. Each URL maps to
  its response. A missing URL stands for a request that raised, or a status of 400 or more (the statuses `raise_for_status` raises for).
  The disk is the set of paths that exist before the run. The paths whose `open`/`write` raises
  form an input set (`unwritable`). Why a write fails (permissions, a full disk, a rejected
  name) is not modelled, nor is a partly written file left behind. Written files are recorded in
  `saved` rather than on disk. Timeouts, `os.makedirs` and the console
  messages are not modelled.
- Paths are compared as exact strings, as on a case-sensitive POSIX file system: `os.path`
  is taken to be `posixpath`, so `Filename` and `Join` split and join on '/' only. On a
  case-insensitive file system (the default on macOS and Windows), two links whose names
  differ only in case both pass the `seen_files` test, and the second one's
  `os.path.exists` sees the file the first one wrote earlier in the same run, so the source
  lists it without a request while `Handle`, which tests only the files on disk before the
  run, requests it again. Neither that case nor Windows path rules (`ntpath`, the backslash as a
  separator, drive letters) are modelled.
- `os.path.join` is modelled for a relative name joined to a directory, and
  `os.listdir` is an input sequence (`None` for a missing directory).
  `os.listdir` raises when the path exists but is not a directory; that error is not
  modelled.
- `Numeric.IsDigit` keeps only ASCII `0`-`9`. Python 3's `\d` in the `[^\d.-]` filter, and
  `float()` after it, also accept the other Unicode decimal digits (Arabic-Indic, fullwidth,
  ...). Cells containing them are not modelled.
- `report_generator.py` and `main.py` are not part of this model: one writes the summary
  spreadsheet through pandas, the other is command-line orchestration with console output.
- The link test in the source also accepts hrefs that only contain ".xls" somewhere, not
  just ones ending in a spreadsheet extension; the model follows the code.
