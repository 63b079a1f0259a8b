/**
 * The field extractor of parser.py. A worksheet is a `Worksheet.Sheet`; the extractor
 * finds labels by a row-major text search and reads numbers at fixed offsets from them.
 * The closed-form functions here say what each `ExcelParser` method computes; the
 * methods walk the sheet the way the source does and are proved equal to them.
 */
module Parser {

  import opened Wrappers
  import opened Text
  import opened Worksheet
  import opened Numeric
  import opened DataModels

  // ------------------------------------------------------------------------------------
  // extract_number_from_cell

  /** `extract_number_from_cell` on the cell value itself. It never fails. */
  function CellNumber(c: Cell): real
  {
    match c
    case Empty => 0.0
    case Num(v, _) => v
    case Str(t) => (match ParseFloat(KeepNumeric(t)) case Some(v) => v case None => 0.0)
    case Other(_) => 0.0
  }

  /** `extract_number_from_cell(sheet, row, col)`. */
  function ExtractNumberFromCell(sheet: Sheet, row: int, col: int): real
  {
    CellNumber(CellAt(sheet, row, col))
  }

  /** Text without a single digit ("N/A", "-", "TBD") reads as 0.0. */
  lemma CellNumberWithoutDigits(t: string)
    requires forall i :: 0 <= i < |t| ==> !IsDigit(t[i])
    ensures CellNumber(Str(t)) == 0.0
  {
    var k := KeepNumeric(t);
    forall i | 0 <= i < |k|
      ensures !IsDigit(k[i])
    {
      assert k[i] in k;
    }
    ParseFloatNeedsDigit(k);
  }

  /** The text of a cell is filtered first, so filtering it beforehand changes nothing. */
  lemma CellNumberFiltersText(t: string)
    ensures CellNumber(Str(t)) == CellNumber(Str(KeepNumeric(t)))
  {
    KeepNumericIdempotent(t);
  }

  /** A whole number written in decimal reads back as itself. */
  lemma CellNumberOfWholeNumber(n: nat)
    ensures CellNumber(Str(NatToDigits(n))) == n as real
  {
    ParseFloatOfNat(n);
    KeepNumericOfNumeric(NatToDigits(n));
  }

  /** A negative whole number keeps its sign: the filter keeps '-', and `float()` reads it. */
  lemma CellNumberOfNegativeWholeNumber(n: nat)
    ensures CellNumber(Str("-" + NatToDigits(n))) == -(n as real)
  {
    ParseFloatOfNegatedNat(n);
    KeepNumericOfNumeric("-" + NatToDigits(n));
  }

  /** A leading currency sign is dropped by the filter. */
  lemma CellNumberIgnoresDollarSign(t: string)
    ensures CellNumber(Str("$" + t)) == CellNumber(Str(t))
  {
    assert "$"[1..] == [];
    assert KeepNumeric("$") == [];
    KeepNumericAppend("$", t);
    assert KeepNumeric("$" + t) == KeepNumeric(t);
  }

  /** A thousands separator anywhere is dropped by the filter. */
  lemma CellNumberIgnoresComma(a: string, b: string)
    ensures CellNumber(Str(a + "," + b)) == CellNumber(Str(a + b))
  {
    assert ","[1..] == [];
    assert KeepNumeric(",") == [];
    KeepNumericAppend(a + ",", b);
    KeepNumericAppend(a, ",");
    KeepNumericAppend(a, b);
    assert KeepNumeric(a + "," + b) == KeepNumeric(a + b);
  }

  /** An amount in dollars and cents, `d.cc`, reads as `d + cc/100`. */
  lemma CellNumberOfCents(d: nat, c1: nat, c2: nat)
    requires c1 < 10 && c2 < 10
    ensures CellNumber(Str(NatToDigits(d) + "." + [DigitChar(c1), DigitChar(c2)]))
         == d as real + (10 * c1 + c2) as real / 100.0
  {
    ParseFloatOfCents(d, c1, c2);
    KeepNumericOfNumeric(NatToDigits(d) + "." + [DigitChar(c1), DigitChar(c2)]);
  }

  /** "N/A" and a lone "-" both read as 0.0. */
  lemma CellNumberOfPlaceholders()
    ensures CellNumber(Str("N/A")) == 0.0
    ensures CellNumber(Str("-")) == 0.0
    ensures CellNumber(Empty) == 0.0
  {
    CellNumberWithoutDigits("N/A");
    CellNumberWithoutDigits("-");
  }

  // ------------------------------------------------------------------------------------
  // find_cell_by_text

  /** The test `find_cell_by_text` applies to one cell, with the search text already lower-cased. */
  predicate CellMatches(c: Cell, needle: string, exactMatch: bool)
  {
    Truthy(c) && (if exactMatch then Lower(Shown(c)) == needle else Contains(Lower(Shown(c)), needle))
  }

  predicate MatchAt(sheet: Sheet, needle: string, exactMatch: bool, row: int, col: int)
  {
    CellMatches(CellAt(sheet, row, col), needle, exactMatch)
  }

  /** Row-major order: (r1, c1) is visited before (r2, c2). */
  predicate Before(r1: int, c1: int, r2: int, c2: int)
  {
    r1 < r2 || (r1 == r2 && c1 < c2)
  }

  /** The scan of the used range from (row, col) on, row by row and column by column. */
  function FirstMatchFrom(sheet: Sheet, needle: string, exactMatch: bool, row: int, col: int): Option<Pos>
    requires 1 <= row && 1 <= col
    decreases sheet.maxRow + 1 - row, sheet.maxColumn + 1 - col
  {
    if row > sheet.maxRow then None
    else if col > sheet.maxColumn then FirstMatchFrom(sheet, needle, exactMatch, row + 1, 1)
    else if MatchAt(sheet, needle, exactMatch, row, col) then Some((row, col))
    else FirstMatchFrom(sheet, needle, exactMatch, row, col + 1)
  }

  /** The scan from (row, col) returns the first matching position at or after (row, col). */
  lemma {:induction false} FirstMatchFromIsFirst(sheet: Sheet, needle: string, exactMatch: bool, row: int, col: int)
    requires 1 <= row && 1 <= col
    ensures var r := FirstMatchFrom(sheet, needle, exactMatch, row, col);
            r.Some? ==> InRange(sheet, r.value.0, r.value.1)
                        && MatchAt(sheet, needle, exactMatch, r.value.0, r.value.1)
                        && !Before(r.value.0, r.value.1, row, col)
    ensures var r := FirstMatchFrom(sheet, needle, exactMatch, row, col);
            r.Some? ==> forall rr, cc :: InRange(sheet, rr, cc) && !Before(rr, cc, row, col)
                                         && Before(rr, cc, r.value.0, r.value.1)
                                         ==> !MatchAt(sheet, needle, exactMatch, rr, cc)
    ensures FirstMatchFrom(sheet, needle, exactMatch, row, col).None? ==>
              forall rr, cc :: InRange(sheet, rr, cc) && !Before(rr, cc, row, col)
                               ==> !MatchAt(sheet, needle, exactMatch, rr, cc)
    decreases sheet.maxRow + 1 - row, sheet.maxColumn + 1 - col
  {
    if row > sheet.maxRow {
    } else if col > sheet.maxColumn {
      FirstMatchFromIsFirst(sheet, needle, exactMatch, row + 1, 1);
    } else if MatchAt(sheet, needle, exactMatch, row, col) {
    } else {
      FirstMatchFromIsFirst(sheet, needle, exactMatch, row, col + 1);
    }
  }

  /** `find_cell_by_text(sheet, searchText, exactMatch)`. */
  function FindCell(sheet: Sheet, searchText: string, exactMatch: bool): Option<Pos>
  {
    FirstMatchFrom(sheet, Lower(searchText), exactMatch, 1, 1)
  }

  /**
   * `find_cell_by_text` returns the first position in row-major order whose truthy cell
   * text, lower-cased, contains (or, for an exact match, equals) the lower-cased search
   * text, and `None` exactly when no cell of the used range does.
   */
  lemma FindCellIsFirst(sheet: Sheet, searchText: string, exactMatch: bool)
    ensures var r := FindCell(sheet, searchText, exactMatch);
            r.Some? ==> InRange(sheet, r.value.0, r.value.1)
                        && MatchAt(sheet, Lower(searchText), exactMatch, r.value.0, r.value.1)
    ensures var r := FindCell(sheet, searchText, exactMatch);
            r.Some? ==> forall rr, cc :: InRange(sheet, rr, cc) && Before(rr, cc, r.value.0, r.value.1)
                                         ==> !MatchAt(sheet, Lower(searchText), exactMatch, rr, cc)
    ensures FindCell(sheet, searchText, exactMatch).None? <==>
              forall rr, cc :: InRange(sheet, rr, cc) ==> !MatchAt(sheet, Lower(searchText), exactMatch, rr, cc)
  {
    FirstMatchFromIsFirst(sheet, Lower(searchText), exactMatch, 1, 1);
  }

  /** Every exact match is also a substring match, so an exact search never finds an earlier cell. */
  lemma ExactMatchIsContainsMatch(c: Cell, needle: string)
    requires CellMatches(c, needle, true)
    ensures CellMatches(c, needle, false)
  {
    ContainsAt(Lower(Shown(c)), needle, 0);
  }

  /** An exact search for "Total" never stops at a cell reading "Subtotal". */
  lemma ExactTotalSkipsSubtotal(sheet: Sheet, row: int, col: int)
    requires CellAt(sheet, row, col) == Str("Subtotal")
    ensures FindCell(sheet, "Total", true) != Some((row, col))
  {
    FindCellIsFirst(sheet, "Total", true);
    assert |Lower("Subtotal")| != |Lower("Total")|;
  }

  /** A matching cell means the search finds that cell or an earlier one. */
  lemma FindCellFoundAtOrBefore(sheet: Sheet, searchText: string, exactMatch: bool, row: int, col: int)
    requires InRange(sheet, row, col) && MatchAt(sheet, Lower(searchText), exactMatch, row, col)
    ensures FindCell(sheet, searchText, exactMatch).Some?
    ensures !Before(row, col, FindCell(sheet, searchText, exactMatch).value.0, FindCell(sheet, searchText, exactMatch).value.1)
  {
    FindCellIsFirst(sheet, searchText, exactMatch);
  }

  lemma SubtotalContainsTotal()
    ensures Contains(Lower("Subtotal"), Lower("Total"))
  {
    var text := Lower("Subtotal");
    assert text == "subtotal";
    assert Lower("Total") == "total";
    assert text[3..8] == "total";
    ContainsAt(text, "total", 3);
  }

  /** A substring search for "Total" does find a "Subtotal" cell, or an earlier match. */
  lemma SubstringTotalFindsSubtotal(sheet: Sheet, row: int, col: int)
    requires CellAt(sheet, row, col) == Str("Subtotal")
    ensures FindCell(sheet, "Total", false).Some?
    ensures !Before(row, col, FindCell(sheet, "Total", false).value.0, FindCell(sheet, "Total", false).value.1)
  {
    SubtotalContainsTotal();
    FindCellFoundAtOrBefore(sheet, "Total", false, row, col);
  }

  // ------------------------------------------------------------------------------------
  // find_value_near_label

  /** Columns B, C, R and S, tried first on the label's row. */
  const PRIORITY_COLUMNS: seq<int> := [2, 3, 18, 19]

  /** The nine columns to the right of the label, tried next. */
  function RightOfLabel(col: int): (cols: seq<int>)
    ensures |cols| == 9 && forall k :: 0 <= k < 9 ==> cols[k] == col + 1 + k
  {
    seq(9, k => col + 1 + k)
  }

  /** The number in the first column of `cols` whose cell on `row` reads as a positive number. */
  function FirstPositive(sheet: Sheet, row: int, cols: seq<int>): (r: Option<real>)
    ensures r.Some? ==> r.value > 0.0
  {
    if cols == [] then None
    else if ExtractNumberFromCell(sheet, row, cols[0]) > 0.0 then Some(ExtractNumberFromCell(sheet, row, cols[0]))
    else FirstPositive(sheet, row, cols[1..])
  }

  /** `FirstPositive` returns the value of the first column that reads positive, `None` if none does. */
  lemma {:induction false} FirstPositiveIsFirst(sheet: Sheet, row: int, cols: seq<int>)
    ensures FirstPositive(sheet, row, cols).None? <==>
              forall i :: 0 <= i < |cols| ==> ExtractNumberFromCell(sheet, row, cols[i]) <= 0.0
    ensures FirstPositive(sheet, row, cols).Some? ==>
              exists i :: 0 <= i < |cols| && Some(ExtractNumberFromCell(sheet, row, cols[i])) == FirstPositive(sheet, row, cols)
                          && forall j :: 0 <= j < i ==> ExtractNumberFromCell(sheet, row, cols[j]) <= 0.0
    decreases |cols|
  {
    if cols != [] && ExtractNumberFromCell(sheet, row, cols[0]) <= 0.0 {
      var tail := cols[1..];
      FirstPositiveIsFirst(sheet, row, tail);
      forall i | 0 <= i < |tail| ensures tail[i] == cols[i + 1] { }
      if FirstPositive(sheet, row, tail).Some? {
        var i :| 0 <= i < |tail| && Some(ExtractNumberFromCell(sheet, row, tail[i])) == FirstPositive(sheet, row, tail)
                 && forall j :: 0 <= j < i ==> ExtractNumberFromCell(sheet, row, tail[j]) <= 0.0;
        assert forall j :: 0 <= j < i + 1 ==> ExtractNumberFromCell(sheet, row, cols[j]) <= 0.0 by {
          forall j | 0 <= j < i + 1 ensures ExtractNumberFromCell(sheet, row, cols[j]) <= 0.0 {
            if j > 0 { assert cols[j] == tail[j - 1]; }
          }
        }
      } else {
        assert forall i :: 0 <= i < |cols| ==> ExtractNumberFromCell(sheet, row, cols[i]) <= 0.0 by {
          forall i | 0 <= i < |cols| ensures ExtractNumberFromCell(sheet, row, cols[i]) <= 0.0 {
            if i > 0 { assert cols[i] == tail[i - 1]; }
          }
        }
      }
    }
  }

  /** Skipping a column that does not read positive leaves the search result unchanged. */
  lemma FirstPositiveSkip(sheet: Sheet, row: int, cols: seq<int>, i: nat)
    requires i < |cols| && ExtractNumberFromCell(sheet, row, cols[i]) <= 0.0
    ensures FirstPositive(sheet, row, cols[i..]) == FirstPositive(sheet, row, cols[i + 1..])
  {
    assert cols[i..][1..] == cols[i + 1..];
  }

  /**
   * `find_value_near_label`: on the row of the first cell containing the label, the first
   * positive number among columns B, C, R, S, else among the nine columns right of the
   * label; `None` if the label is missing or nothing there is positive.
   */
  function NearLabelValue(sheet: Sheet, labelText: string): (r: Option<real>)
    ensures r.None? || r.value > 0.0
  {
    match FindCell(sheet, labelText, false)
    case None => None
    case Some((row, col)) =>
      match FirstPositive(sheet, row, PRIORITY_COLUMNS)
      case Some(v) => Some(v)
      case None => FirstPositive(sheet, row, RightOfLabel(col))
  }

  // ------------------------------------------------------------------------------------
  // extract_construction_interest_fees and extract_permanent_financing

  const CONSTRUCTION_HEADER: string := "CONSTRUCTION INTEREST & FEES"
  const PERMANENT_HEADER: string := "PERMANENT FINANCING"

  /** How many rows below its header a section is read. */
  const CONSTRUCTION_WINDOW: int := 20
  const PERMANENT_WINDOW: int := 15

  /** Column A holds the "Other" label, column B every amount. */
  const LABEL_COLUMN: int := 1
  const AMOUNT_COLUMN: int := 2

  function AmountAt(sheet: Sheet, row: int): real
  {
    ExtractNumberFromCell(sheet, row, AMOUNT_COLUMN)
  }

  /** `str(cell.value or "").strip()` of column A. */
  function DescriptionAt(sheet: Sheet, row: int): string
  {
    Strip(TextOr(CellAt(sheet, row, LABEL_COLUMN)))
  }

  /**
   * The construction section read below a header on row `h`: the nine line items from
   * column B of rows h+1..h+9, the "Other" description from column A of row h+9 and the
   * total from column B of row h+10.
   */
  function ConstructionBelow(sheet: Sheet, h: int): ConstructionInterestFees
  {
    ConstructionInterestFees(
      AmountAt(sheet, h + 1), AmountAt(sheet, h + 2), AmountAt(sheet, h + 3),
      AmountAt(sheet, h + 4), AmountAt(sheet, h + 5), AmountAt(sheet, h + 6),
      AmountAt(sheet, h + 7), AmountAt(sheet, h + 8),
      AmountAt(sheet, h + 9), DescriptionAt(sheet, h + 9),
      AmountAt(sheet, h + 10))
  }

  /** The construction section below the header found at `header`; all zero when there is none. */
  function ConstructionSectionAt(sheet: Sheet, header: Option<Pos>): ConstructionInterestFees
  {
    match header
    case None => DefaultConstructionInterestFees()
    case Some((h, _)) => ConstructionBelow(sheet, h)
  }

  function ConstructionSection(sheet: Sheet): ConstructionInterestFees
  {
    ConstructionSectionAt(sheet, FindCell(sheet, CONSTRUCTION_HEADER, false))
  }

  /**
   * The permanent section read below a header on row `h`: the six line items from column B
   * of rows h+1..h+6, the "Other" description from column A of row h+6 and the total from
   * column B of row h+7.
   */
  function PermanentBelow(sheet: Sheet, h: int): PermanentFinancing
  {
    PermanentFinancing(
      AmountAt(sheet, h + 1), AmountAt(sheet, h + 2), AmountAt(sheet, h + 3),
      AmountAt(sheet, h + 4), AmountAt(sheet, h + 5),
      AmountAt(sheet, h + 6), DescriptionAt(sheet, h + 6),
      AmountAt(sheet, h + 7))
  }

  /** The permanent section below the header found at `header`; all zero when there is none. */
  function PermanentSectionAt(sheet: Sheet, header: Option<Pos>): PermanentFinancing
  {
    match header
    case None => DefaultPermanentFinancing()
    case Some((h, _)) => PermanentBelow(sheet, h)
  }

  function PermanentSection(sheet: Sheet): PermanentFinancing
  {
    PermanentSectionAt(sheet, FindCell(sheet, PERMANENT_HEADER, false))
  }

  /**
   * Read below a header on row h, the construction section's nine line items, in record
   * order, are the column-B numbers of rows h+1..h+9.
   */
  lemma ConstructionBelowLayout(sheet: Sheet, h: int)
    ensures ConstructionBelow(sheet, h).LineItems()
         == [AmountAt(sheet, h + 1), AmountAt(sheet, h + 2), AmountAt(sheet, h + 3),
             AmountAt(sheet, h + 4), AmountAt(sheet, h + 5), AmountAt(sheet, h + 6),
             AmountAt(sheet, h + 7), AmountAt(sheet, h + 8), AmountAt(sheet, h + 9)]
  {
  }

  /**
   * Read below a header on row h, the permanent section's six line items, in record order,
   * are the column-B numbers of rows h+1..h+6.
   */
  lemma PermanentBelowLayout(sheet: Sheet, h: int)
    ensures PermanentBelow(sheet, h).LineItems()
         == [AmountAt(sheet, h + 1), AmountAt(sheet, h + 2), AmountAt(sheet, h + 3),
             AmountAt(sheet, h + 4), AmountAt(sheet, h + 5), AmountAt(sheet, h + 6)]
  {
  }

  /**
   * A construction section, with its header on row h, that reads 100000 of loan interest,
   * 5000 of origination fee, nothing else, and a total of 105000, beside a missing
   * permanent-financing section, gives no validation error and a combined cost of 105000.
   */
  lemma ConstructionOnlyScenario(sheet: Sheet, h: int)
    requires && AmountAt(sheet, h + 1) == 100000.0 && AmountAt(sheet, h + 2) == 5000.0
             && AmountAt(sheet, h + 3) == 0.0 && AmountAt(sheet, h + 4) == 0.0
             && AmountAt(sheet, h + 5) == 0.0 && AmountAt(sheet, h + 6) == 0.0
             && AmountAt(sheet, h + 7) == 0.0 && AmountAt(sheet, h + 8) == 0.0
             && AmountAt(sheet, h + 9) == 0.0 && AmountAt(sheet, h + 10) == 105000.0
    ensures ValidationErrors(ConstructionBelow(sheet, h), DefaultPermanentFinancing()) == []
    ensures ConstructionBelow(sheet, h).total + DefaultPermanentFinancing().total == 105000.0
  {
    var c := ConstructionBelow(sheet, h);
    var p := DefaultPermanentFinancing();
    ConstructionIsValidAgainstSum(c);
    PermanentIsValidAgainstSum(p);
    ValidationErrorsReportFailingSections(c, p);
  }

  // ------------------------------------------------------------------------------------
  // extract_new_construction_total

  const TOTAL_NEW_CONSTRUCTION_LABEL: string := "total new construction costs"
  const NEW_CONSTRUCTION_HEADER: string := "NEW CONSTRUCTION"

  /** The primary scan stops before row 100. */
  const PRIMARY_SCAN_LIMIT: int := 100

  /** The fallback scan looks at the 19 rows below the "new construction" heading. */
  const FALLBACK_WINDOW: int := 20

  function Min(a: int, b: int): int
  {
    if a < b then a else b
  }

  /** Whether column A of `row` labels a total: the primary label, or "total" and "construction". */
  predicate IsTotalRow(sheet: Sheet, row: int, fallback: bool)
  {
    var text := Lower(TextOr(CellAt(sheet, row, LABEL_COLUMN)));
    if fallback then Contains(text, "total") && Contains(text, "construction")
    else Contains(text, TOTAL_NEW_CONSTRUCTION_LABEL)
  }

  /** A row whose label qualifies and whose column-B number is positive. */
  predicate IsPositiveTotalRow(sheet: Sheet, row: int, fallback: bool)
  {
    IsTotalRow(sheet, row, fallback) && AmountAt(sheet, row) > 0.0
  }

  /** The column-B number of the first qualifying row in [row, end). */
  function ScanTotalRows(sheet: Sheet, row: int, end: int, fallback: bool): (r: Option<real>)
    ensures r.None? || r.value > 0.0
    decreases end - row
  {
    if row >= end then None
    else if IsPositiveTotalRow(sheet, row, fallback) then Some(AmountAt(sheet, row))
    else ScanTotalRows(sheet, row + 1, end, fallback)
  }

  /** The scan over [row, end) returns the amount of the first qualifying row, `None` if there is none. */
  lemma {:induction false} ScanTotalRowsIsFirst(sheet: Sheet, row: int, end: int, fallback: bool)
    ensures ScanTotalRows(sheet, row, end, fallback).Some? ==>
              exists k :: row <= k < end && IsPositiveTotalRow(sheet, k, fallback)
                          && Some(AmountAt(sheet, k)) == ScanTotalRows(sheet, row, end, fallback)
                          && forall j :: row <= j < k ==> !IsPositiveTotalRow(sheet, j, fallback)
    ensures ScanTotalRows(sheet, row, end, fallback).None? <==>
              forall k :: row <= k < end ==> !IsPositiveTotalRow(sheet, k, fallback)
    decreases end - row
  {
    if row < end {
      if IsPositiveTotalRow(sheet, row, fallback) {
        assert ScanTotalRows(sheet, row, end, fallback) == Some(AmountAt(sheet, row));
      } else {
        assert ScanTotalRows(sheet, row, end, fallback) == ScanTotalRows(sheet, row + 1, end, fallback);
        ScanTotalRowsIsFirst(sheet, row + 1, end, fallback);
      }
    }
  }

  /**
   * The primary scan of column A over rows 1..min(max_row, 99); failing that, the fallback
   * over the 19 rows below the "new construction" heading found at `heading`.
   */
  function NewConstructionTotalWith(sheet: Sheet, heading: Option<Pos>): (r: Option<real>)
    ensures r.None? || r.value > 0.0
  {
    match ScanTotalRows(sheet, 1, Min(sheet.maxRow + 1, PRIMARY_SCAN_LIMIT), false)
    case Some(v) => Some(v)
    case None =>
      match heading
      case None => None
      case Some((h, _)) => ScanTotalRows(sheet, h + 1, h + FALLBACK_WINDOW, true)
  }

  /**
   * `extract_new_construction_total`: the primary scan, then the fallback below the first
   * cell containing "new construction"; `None` when neither finds a positive total.
   */
  function NewConstructionTotal(sheet: Sheet): (r: Option<real>)
    ensures r.None? || r.value > 0.0
  {
    NewConstructionTotalWith(sheet, FindCell(sheet, NEW_CONSTRUCTION_HEADER, false))
  }

  /**
   * Where a new-construction total comes from: the first qualifying row of the primary scan
   * (column A of rows 1..min(max_row, 99)) when there is one; otherwise the first qualifying
   * row among the 19 below the first "new construction" cell, whose label mentions both
   * "total" and "construction"; `None` when neither scan finds a positive amount.
   */
  lemma NewConstructionTotalSource(sheet: Sheet)
    ensures var end := Min(sheet.maxRow + 1, PRIMARY_SCAN_LIMIT);
            (exists k :: 1 <= k < end && IsPositiveTotalRow(sheet, k, false)) ==>
              exists k :: 1 <= k < end && IsPositiveTotalRow(sheet, k, false)
                          && NewConstructionTotal(sheet) == Some(AmountAt(sheet, k))
                          && forall j :: 1 <= j < k ==> !IsPositiveTotalRow(sheet, j, false)
    ensures var end := Min(sheet.maxRow + 1, PRIMARY_SCAN_LIMIT);
            var heading := FindCell(sheet, NEW_CONSTRUCTION_HEADER, false);
            (forall k :: 1 <= k < end ==> !IsPositiveTotalRow(sheet, k, false)) ==>
              && (heading.None? ==> NewConstructionTotal(sheet).None?)
              && (heading.Some? ==>
                    (NewConstructionTotal(sheet).None? <==>
                       forall k :: heading.value.0 < k < heading.value.0 + FALLBACK_WINDOW ==> !IsPositiveTotalRow(sheet, k, true)))
              && (heading.Some? && NewConstructionTotal(sheet).Some? ==>
                    exists k :: heading.value.0 < k < heading.value.0 + FALLBACK_WINDOW && IsPositiveTotalRow(sheet, k, true)
                                && NewConstructionTotal(sheet) == Some(AmountAt(sheet, k))
                                && forall j :: heading.value.0 < j < k ==> !IsPositiveTotalRow(sheet, j, true))
  {
    var end := Min(sheet.maxRow + 1, PRIMARY_SCAN_LIMIT);
    ScanTotalRowsIsFirst(sheet, 1, end, false);
    var heading := FindCell(sheet, NEW_CONSTRUCTION_HEADER, false);
    if heading.Some? {
      var h := heading.value.0;
      ScanTotalRowsIsFirst(sheet, h + 1, h + FALLBACK_WINDOW, true);
    }
  }

  // ------------------------------------------------------------------------------------
  // extract_units_and_sf

  /** Labels are looked for in columns D and G. */
  const LABEL_COLUMNS: seq<int> := [4, 7]

  /** Values are read from column AG, then from column L. */
  const VALUE_COLUMNS: seq<int> := [33, 12]

  const UNITS_LABEL: string := "total number of units"
  const UNITS_EXCLUDED: string := "excluding managers"
  const SQUARE_FOOTAGE_LABEL: string := "total square footage of all project structures"

  /** The two project metrics the Application sheet is searched for. */
  datatype Metric = Units | SquareFootage

  function MetricLabel(m: Metric): string
  {
    match m
    case Units => UNITS_LABEL
    case SquareFootage => SQUARE_FOOTAGE_LABEL
  }

  /** Whether a label cell names the metric (the units label must not be the "excluding managers" one). */
  predicate IsMetricLabel(c: Cell, m: Metric)
  {
    Truthy(c) && Contains(Lower(Shown(c)), MetricLabel(m))
    && (m == Units ==> !Contains(Lower(Shown(c)), UNITS_EXCLUDED))
  }

  predicate IsMetricRow(sheet: Sheet, row: int, m: Metric)
  {
    IsMetricLabel(CellAt(sheet, row, LABEL_COLUMNS[0]), m) || IsMetricLabel(CellAt(sheet, row, LABEL_COLUMNS[1]), m)
  }

  /** A labelled row with a positive value in column AG or L. */
  predicate IsMetricHit(sheet: Sheet, row: int, m: Metric)
  {
    IsMetricRow(sheet, row, m) && FirstPositive(sheet, row, VALUE_COLUMNS).Some?
  }

  /** The value on the first row from `row` to max_row that labels the metric and has a positive value. */
  function MetricFrom(sheet: Sheet, row: int, m: Metric): (r: Option<real>)
    requires 1 <= row
    ensures r.None? || r.value > 0.0
    decreases sheet.maxRow + 1 - row
  {
    if row > sheet.maxRow then None
    else if IsMetricHit(sheet, row, m) then FirstPositive(sheet, row, VALUE_COLUMNS)
    else MetricFrom(sheet, row + 1, m)
  }

  /**
   * The search from `row` returns the value of the first row that is a hit; `k` is that
   * row.
   */
  lemma {:induction false} MetricFromIsFirst(sheet: Sheet, row: int, m: Metric) returns (k: int)
    requires 1 <= row
    ensures MetricFrom(sheet, row, m).Some? ==>
              && row <= k <= sheet.maxRow && IsMetricHit(sheet, k, m)
              && FirstPositive(sheet, k, VALUE_COLUMNS) == MetricFrom(sheet, row, m)
              && forall j :: row <= j < k ==> !IsMetricHit(sheet, j, m)
    decreases sheet.maxRow + 1 - row
  {
    k := row;
    if row <= sheet.maxRow {
      if IsMetricHit(sheet, row, m) {
        assert MetricFrom(sheet, row, m) == FirstPositive(sheet, row, VALUE_COLUMNS);
      } else {
        assert MetricFrom(sheet, row, m) == MetricFrom(sheet, row + 1, m);
        k := MetricFromIsFirst(sheet, row + 1, m);
        if MetricFrom(sheet, row, m).Some? {
          assert forall j :: row + 1 <= j < k ==> !IsMetricHit(sheet, j, m);
        }
      }
    }
  }

  /** The search from `row` finds nothing exactly when no row from `row` on is a hit. */
  lemma {:induction false} MetricFromNoneIffNoHit(sheet: Sheet, row: int, m: Metric)
    requires 1 <= row
    ensures MetricFrom(sheet, row, m).None? <==>
              forall k :: row <= k <= sheet.maxRow ==> !IsMetricHit(sheet, k, m)
    decreases sheet.maxRow + 1 - row
  {
    if row <= sheet.maxRow && !IsMetricHit(sheet, row, m) {
      MetricFromNoneIffNoHit(sheet, row + 1, m);
    }
  }

  /**
   * `extract_units_and_sf`: (None, None) without an Application sheet; otherwise the
   * truncated first positive unit count and the first positive square footage.
   */
  function UnitsAndSf(application: Option<Sheet>): (r: (Option<int>, Option<real>))
    ensures application.None? ==> r == (None, None)
    ensures r.0.Some? ==> r.0.value >= 0
    ensures r.1.Some? ==> r.1.value > 0.0
    ensures application.Some? ==> r.0.None? == MetricFrom(application.value, 1, Units).None?
    ensures application.Some? && r.0.Some? ==>
              r.0.value as real <= MetricFrom(application.value, 1, Units).value < r.0.value as real + 1.0
    ensures application.Some? ==> r.1 == MetricFrom(application.value, 1, SquareFootage)
  {
    match application
    case None => (None, None)
    case Some(sheet) =>
      var units := match MetricFrom(sheet, 1, Units)
                   case Some(v) => Some(v.Floor)
                   case None => None;
      (units, MetricFrom(sheet, 1, SquareFootage))
  }

  // ------------------------------------------------------------------------------------
  // load_workbook: sheet selection

  predicate IsSourcesUsesName(name: string)
  {
    Contains(Lower(name), "sources") && Contains(Lower(name), "uses")
  }

  /** The `elif` branch: a sheet that is not a Sources & Uses sheet and is named "application". */
  predicate IsApplicationName(name: string)
  {
    !IsSourcesUsesName(name) && Lower(name) == "application"
  }

  /** The index of the last sheet whose name mentions both "sources" and "uses". */
  function LastSourcesUses(book: Workbook): (r: Option<nat>)
    ensures r.Some? ==> r.value < |book|
  {
    if book == [] then None
    else if IsSourcesUsesName(book[|book| - 1].name) then Some(|book| - 1)
    else LastSourcesUses(book[..|book| - 1])
  }

  /** `LastSourcesUses` is the last matching index, and `None` exactly when no sheet matches. */
  lemma {:induction false} LastSourcesUsesIsLast(book: Workbook)
    ensures LastSourcesUses(book).Some? ==>
              var i := LastSourcesUses(book).value;
              IsSourcesUsesName(book[i].name) && forall j :: i < j < |book| ==> !IsSourcesUsesName(book[j].name)
    ensures LastSourcesUses(book).None? <==> forall j :: 0 <= j < |book| ==> !IsSourcesUsesName(book[j].name)
  {
    if book != [] && !IsSourcesUsesName(book[|book| - 1].name) {
      var front := book[..|book| - 1];
      LastSourcesUsesIsLast(front);
      assert forall j :: 0 <= j < |front| ==> front[j] == book[j];
    }
  }

  /** The index of the first sheet named "application", ignoring case. */
  function FirstApplication(book: Workbook): (r: Option<nat>)
    ensures r.Some? ==> r.value < |book|
  {
    if book == [] then None
    else
      match FirstApplication(book[..|book| - 1])
      case Some(j) => Some(j)
      case None => if IsApplicationName(book[|book| - 1].name) then Some(|book| - 1) else None
  }

  /** `FirstApplication` is the first matching index, and `None` exactly when no sheet matches. */
  lemma {:induction false} FirstApplicationIsFirst(book: Workbook)
    ensures FirstApplication(book).Some? ==>
              var i := FirstApplication(book).value;
              IsApplicationName(book[i].name) && forall j :: 0 <= j < i ==> !IsApplicationName(book[j].name)
    ensures FirstApplication(book).None? <==> forall j :: 0 <= j < |book| ==> !IsApplicationName(book[j].name)
  {
    if book != [] {
      var front := book[..|book| - 1];
      FirstApplicationIsFirst(front);
      assert forall j :: 0 <= j < |front| ==> front[j] == book[j];
    }
  }

  /** The Sources & Uses sheet after the loop, starting from the one already held. */
  function SelectedSourcesUses(book: Workbook, current: Option<Sheet>): Option<Sheet>
  {
    match LastSourcesUses(book)
    case Some(i) => Some(book[i].sheet)
    case None => current
  }

  /** The Application sheet after the loop: the one already held, else the first named "application". */
  function SelectedApplication(book: Workbook, current: Option<Sheet>): Option<Sheet>
  {
    if current.Some? then current
    else
      match FirstApplication(book)
      case Some(i) => Some(book[i].sheet)
      case None => None
  }

  /** Why `load_workbook` raises. */
  datatype LoadError = UnreadableWorkbook | SourcesUsesSheetMissing

  // ------------------------------------------------------------------------------------
  // parse: the application name

  /** `Path(path).stem`: the last path component without its last suffix. */
  function Stem(path: string): (r: string)
    ensures '/' !in r
  {
    var name := AfterLast(path, '/');
    match LastIndexOf(name, '.')
    case Some(i) => if 0 < i < |name| - 1 then name[..i] else name
    case None => name
  }

  /** The name after the last separator is the whole trailing component. */
  lemma AfterLastSeparator(dir: string, name: string)
    requires '/' !in name
    ensures AfterLast(dir + "/" + name, '/') == name
  {
    var s := dir + "/" + name;
    assert s[|dir|] == '/';
    assert forall i :: |dir| < i < |s| ==> s[i] == name[i - |dir| - 1];
    assert forall j :: 0 <= j < |name| ==> name[j] != '/';
    AfterLastIsSuffix(s, |dir|);
    assert s[|dir| + 1..] == name;
  }

  /** With the last separator at k, the part after the last separator is everything after k. */
  lemma AfterLastIsSuffix(s: string, k: nat)
    requires k < |s| && s[k] == '/' && forall i :: k < i < |s| ==> s[i] != '/'
    ensures AfterLast(s, '/') == s[k + 1..]
  {
    var r := AfterLast(s, '/');
    assert s[k] !in r;
    assert |r| >= |s| - k - 1 ==> |r| == |s| - k - 1;
  }

  /** The stem of a workbook path `dir/base.xlsx`, with a plain base name, is that base name. */
  lemma StemOfWorkbookPath(dir: string, base: string)
    requires base != [] && '/' !in base && '.' !in base
    ensures Stem(dir + "/" + (base + ".xlsx")) == base
  {
    var name := base + ".xlsx";
    assert '/' !in name by {
      forall i | 0 <= i < |name| ensures name[i] != '/' {
        if i < |base| { assert name[i] == base[i]; assert base[i] in base; }
      }
    }
    AfterLastSeparator(dir, name);
    assert name[|base|] == '.';
    var found := LastIndexOf(name, '.');
    assert found.Some?;
    assert forall j :: |base| < j < |name| ==> name[j] != '.';
    assert found.value == |base|;
    assert name[..|base|] == base;
  }

  /**
   * What `parse` leaves in a record: the file path and its stem, both sections and the
   * new-construction total read from the Sources & Uses sheet, the unit count and square
   * footage from the Application sheet, and the validation lists `validate` computes.
   */
  predicate ParsedFrom(app: ApplicationData, filePath: string, sheet: Sheet, application: Option<Sheet>)
    reads app
  {
    && app.filePath == filePath
    && app.applicationName == Stem(filePath)
    && app.constructionInterestFees == ConstructionSection(sheet)
    && app.permanentFinancing == PermanentSection(sheet)
    && app.newConstructionTotal == NewConstructionTotal(sheet)
    && (app.totalUnits, app.totalSquareFeet) == UnitsAndSf(application)
    && app.validationErrors == ValidationErrors(app.constructionInterestFees, app.permanentFinancing)
    && app.validationWarnings == ValidationWarnings(app.totalUnits, app.totalSquareFeet, app.newConstructionTotal)
  }

  /**
   * The construction-only workbook end to end: the construction header is found on row h,
   * there is no permanent-financing header, and column B below the header reads 100000 of
   * loan interest, 5000 of origination fee, nothing else and a total of 105000. The record
   * `parse` builds from it has no validation error and a combined financing cost of 105000.
   */
  lemma ParsedConstructionOnlyScenario(app: ApplicationData, filePath: string, sheet: Sheet,
                                       application: Option<Sheet>, h: int, c: int)
    requires FindCell(sheet, CONSTRUCTION_HEADER, false) == Some((h, c))
    requires FindCell(sheet, PERMANENT_HEADER, false) == None
    requires && AmountAt(sheet, h + 1) == 100000.0 && AmountAt(sheet, h + 2) == 5000.0
             && AmountAt(sheet, h + 3) == 0.0 && AmountAt(sheet, h + 4) == 0.0
             && AmountAt(sheet, h + 5) == 0.0 && AmountAt(sheet, h + 6) == 0.0
             && AmountAt(sheet, h + 7) == 0.0 && AmountAt(sheet, h + 8) == 0.0
             && AmountAt(sheet, h + 9) == 0.0 && AmountAt(sheet, h + 10) == 105000.0
    requires ParsedFrom(app, filePath, sheet, application)
    ensures app.validationErrors == []
    ensures app.GetCombinedFinancingCosts() == 105000.0
  {
    ParsedSectionsBelowHeaders(app, filePath, sheet, application, h, c);
    ConstructionOnlyScenario(sheet, h);
  }

  /** With the construction header on row h and no permanent header, `parse` keeps the
      construction section read below row h beside the all-zero permanent section. */
  lemma ParsedSectionsBelowHeaders(app: ApplicationData, filePath: string, sheet: Sheet,
                                   application: Option<Sheet>, h: int, c: int)
    requires FindCell(sheet, CONSTRUCTION_HEADER, false) == Some((h, c))
    requires FindCell(sheet, PERMANENT_HEADER, false) == None
    requires ParsedFrom(app, filePath, sheet, application)
    ensures app.constructionInterestFees == ConstructionBelow(sheet, h)
    ensures app.permanentFinancing == DefaultPermanentFinancing()
    ensures app.validationErrors == ValidationErrors(ConstructionBelow(sheet, h), DefaultPermanentFinancing())
  {
    ConstructionSectionBelowHeader(sheet, h, c);
    PermanentSectionWithoutHeader(sheet);
  }

  /** With its header found on row h, the construction section is the one read below row h. */
  lemma ConstructionSectionBelowHeader(sheet: Sheet, h: int, c: int)
    requires FindCell(sheet, CONSTRUCTION_HEADER, false) == Some((h, c))
    ensures ConstructionSection(sheet) == ConstructionBelow(sheet, h)
  {
  }

  /** Without its header the permanent-financing section is the all-zero record. */
  lemma PermanentSectionWithoutHeader(sheet: Sheet)
    requires FindCell(sheet, PERMANENT_HEADER, false) == None
    ensures PermanentSection(sheet) == DefaultPermanentFinancing()
  {
  }

  // ------------------------------------------------------------------------------------
  // ExcelParser

  /** The parser of one workbook file; `load_workbook` fills in the sheet fields. */
  class ExcelParser {
    const filePath: string
    var wb: Option<Workbook>
    var sourcesUsesSheet: Option<Sheet>
    var applicationSheet: Option<Sheet>

    constructor (filePath: string)
      ensures this.filePath == filePath
      ensures wb == None && sourcesUsesSheet == None && applicationSheet == None
    {
      this.filePath := filePath;
      wb := None;
      sourcesUsesSheet := None;
      applicationSheet := None;
    }

    /**
     * `load_workbook`. `loaded` is what openpyxl makes of the file (`None` if it cannot read
     * it). Walking the sheet names in order, the Sources & Uses sheet becomes the last one
     * whose name mentions "sources" and "uses", and the Application sheet the first named
     * "application" unless one is already held. Raises unless a Sources & Uses sheet is held.
     */
    method LoadWorkbook(loaded: Option<Workbook>) returns (outcome: Outcome<LoadError>)
      modifies this
      ensures loaded.None? ==> outcome == Fail(UnreadableWorkbook)
      ensures loaded.None? ==> wb == old(wb) && sourcesUsesSheet == old(sourcesUsesSheet)
                               && applicationSheet == old(applicationSheet)
      ensures loaded.Some? ==> wb == loaded
                               && sourcesUsesSheet == SelectedSourcesUses(loaded.value, old(sourcesUsesSheet))
                               && applicationSheet == SelectedApplication(loaded.value, old(applicationSheet))
      ensures loaded.Some? ==> outcome == if sourcesUsesSheet.Some? then Pass else Fail(SourcesUsesSheetMissing)
    {
      if loaded.None? {
        return Fail(UnreadableWorkbook);
      }
      wb := loaded;
      var book := loaded.value;
      ghost var initialSourcesUses := sourcesUsesSheet;
      ghost var initialApplication := applicationSheet;
      for i := 0 to |book|
        invariant wb == loaded
        invariant sourcesUsesSheet == SelectedSourcesUses(book[..i], initialSourcesUses)
        invariant applicationSheet == SelectedApplication(book[..i], initialApplication)
      {
        assert book[..i + 1][..i] == book[..i];
        var sheetName := book[i].name;
        if Contains(Lower(sheetName), "sources") && Contains(Lower(sheetName), "uses") {
          sourcesUsesSheet := Some(book[i].sheet);
        } else if Lower(sheetName) == "application" && applicationSheet.None? {
          applicationSheet := Some(book[i].sheet);
        }
      }
      assert book[..|book|] == book;
      if sourcesUsesSheet.None? {
        return Fail(SourcesUsesSheetMissing);
      }
      return Pass;
    }

    /**
     * `find_cell_by_text`: walks the used range row by row, column by column, and returns
     * the first position whose cell passes the test.
     */
    method FindCellByText(sheet: Sheet, searchText: string, exactMatch: bool := false) returns (pos: Option<Pos>)
      ensures pos == FindCell(sheet, searchText, exactMatch)
    {
      var searchTextLower := Lower(searchText);
      var row := 1;
      while row <= sheet.maxRow
        invariant 1 <= row <= sheet.maxRow + 1
        invariant FirstMatchFrom(sheet, searchTextLower, exactMatch, row, 1) == FindCell(sheet, searchText, exactMatch)
      {
        var col := 1;
        while col <= sheet.maxColumn
          invariant 1 <= col <= sheet.maxColumn + 1
          invariant FirstMatchFrom(sheet, searchTextLower, exactMatch, row, col) == FindCell(sheet, searchText, exactMatch)
        {
          var cell := CellAt(sheet, row, col);
          if Truthy(cell) {
            var cellText := Lower(Shown(cell));
            if exactMatch {
              if cellText == searchTextLower {
                return Some((row, col));
              }
            } else {
              if Contains(cellText, searchTextLower) {
                return Some((row, col));
              }
            }
          }
          col := col + 1;
        }
        row := row + 1;
      }
      return None;
    }

    /**
     * `find_value_near_label` (its `search_range` argument is unused): the first positive
     * number on the label's row among columns B, C, R, S, then the nine columns right of it.
     */
    method FindValueNearLabel(sheet: Sheet, labelText: string, searchRange: int := 50) returns (value: Option<real>)
      ensures value == NearLabelValue(sheet, labelText)
      ensures value.None? || value.value > 0.0
    {
      var labelPos := FindCellByText(sheet, labelText);
      if labelPos.None? {
        return None;
      }
      var (row, col) := labelPos.value;
      var priorityCols := PRIORITY_COLUMNS;
      for i := 0 to |priorityCols|
        invariant FirstPositive(sheet, row, priorityCols[i..]) == FirstPositive(sheet, row, priorityCols)
      {
        var v := ExtractNumberFromCell(sheet, row, priorityCols[i]);
        if v > 0.0 {
          return Some(v);
        }
        FirstPositiveSkip(sheet, row, priorityCols, i);
      }
      ghost var rightCols := RightOfLabel(col);
      for offset := 1 to 10
        invariant FirstPositive(sheet, row, rightCols[offset - 1..]) == FirstPositive(sheet, row, rightCols)
      {
        var v := ExtractNumberFromCell(sheet, row, col + offset);
        if v > 0.0 {
          return Some(v);
        }
        FirstPositiveSkip(sheet, row, rightCols, offset - 1);
      }
      return None;
    }

    /**
     * `extract_construction_interest_fees`: reads the section below its header through the
     * row guards of the 20-row window (laid out as `ConstructionSectionAt` describes).
     */
    method ExtractConstructionInterestFees() returns (data: ConstructionInterestFees)
      requires sourcesUsesSheet.Some?
      ensures data == ConstructionSection(sourcesUsesSheet.value)
    {
      data := DefaultConstructionInterestFees();
      var sheet := sourcesUsesSheet.value;

      var sectionPos := FindCellByText(sheet, CONSTRUCTION_HEADER);
      if sectionPos.None? {
        return data;
      }

      var startRow := sectionPos.value.0;
      var endRow := startRow + CONSTRUCTION_WINDOW;
      var currentRow := startRow + 1;

      assert currentRow == startRow + 1;
      if currentRow <= endRow {
        data := data.(constructionLoanInterest := AmountAt(sheet, currentRow));
        currentRow := currentRow + 1;
      }
      assert currentRow == startRow + 2;
      if currentRow <= endRow {
        data := data.(originationFee := AmountAt(sheet, currentRow));
        currentRow := currentRow + 1;
      }
      assert currentRow == startRow + 3;
      if currentRow <= endRow {
        data := data.(creditEnhancementFee := AmountAt(sheet, currentRow));
        currentRow := currentRow + 1;
      }
      assert currentRow == startRow + 4;
      if currentRow <= endRow {
        data := data.(bondPremium := AmountAt(sheet, currentRow));
        currentRow := currentRow + 1;
      }
      assert currentRow == startRow + 5;
      if currentRow <= endRow {
        data := data.(costOfIssuance := AmountAt(sheet, currentRow));
        currentRow := currentRow + 1;
      }
      assert currentRow == startRow + 6;
      if currentRow <= endRow {
        data := data.(titleRecording := AmountAt(sheet, currentRow));
        currentRow := currentRow + 1;
      }
      assert currentRow == startRow + 7;
      if currentRow <= endRow {
        data := data.(taxes := AmountAt(sheet, currentRow));
        currentRow := currentRow + 1;
      }
      assert currentRow == startRow + 8;
      if currentRow <= endRow {
        data := data.(insurance := AmountAt(sheet, currentRow));
        currentRow := currentRow + 1;
      }
      assert currentRow == startRow + 9;
      if currentRow <= endRow {
        data := data.(otherDescription := DescriptionAt(sheet, currentRow),
                      otherAmount := AmountAt(sheet, currentRow));
        currentRow := currentRow + 1;
      }
      assert currentRow == startRow + 10;
      if currentRow <= endRow {
        data := data.(total := AmountAt(sheet, currentRow));
      }
    }

    /**
     * `extract_permanent_financing`: reads the section below its header through the row
     * guards of the 15-row window (laid out as `PermanentSectionAt` describes).
     */
    method ExtractPermanentFinancing() returns (data: PermanentFinancing)
      requires sourcesUsesSheet.Some?
      ensures data == PermanentSection(sourcesUsesSheet.value)
    {
      data := DefaultPermanentFinancing();
      var sheet := sourcesUsesSheet.value;

      var sectionPos := FindCellByText(sheet, PERMANENT_HEADER);
      if sectionPos.None? {
        return data;
      }

      var startRow := sectionPos.value.0;
      var endRow := startRow + PERMANENT_WINDOW;
      var currentRow := startRow + 1;

      assert currentRow == startRow + 1;
      if currentRow <= endRow {
        data := data.(loanOriginationFee := AmountAt(sheet, currentRow));
        currentRow := currentRow + 1;
      }
      assert currentRow == startRow + 2;
      if currentRow <= endRow {
        data := data.(creditEnhancementFee := AmountAt(sheet, currentRow));
        currentRow := currentRow + 1;
      }
      assert currentRow == startRow + 3;
      if currentRow <= endRow {
        data := data.(titleRecording := AmountAt(sheet, currentRow));
        currentRow := currentRow + 1;
      }
      assert currentRow == startRow + 4;
      if currentRow <= endRow {
        data := data.(taxes := AmountAt(sheet, currentRow));
        currentRow := currentRow + 1;
      }
      assert currentRow == startRow + 5;
      if currentRow <= endRow {
        data := data.(insurance := AmountAt(sheet, currentRow));
        currentRow := currentRow + 1;
      }
      assert currentRow == startRow + 6;
      if currentRow <= endRow {
        data := data.(otherDescription := DescriptionAt(sheet, currentRow),
                      otherAmount := AmountAt(sheet, currentRow));
        currentRow := currentRow + 1;
      }
      assert currentRow == startRow + 7;
      if currentRow <= endRow {
        data := data.(total := AmountAt(sheet, currentRow));
      }
    }

    /**
     * `extract_new_construction_total`: the primary row scan, then the fallback below the
     * "new construction" heading; `None` or a strictly positive amount.
     */
    method ExtractNewConstructionTotal() returns (total: Option<real>)
      requires sourcesUsesSheet.Some?
      ensures total == NewConstructionTotal(sourcesUsesSheet.value)
      ensures total.None? || total.value > 0.0
    {
      var sheet := sourcesUsesSheet.value;
      var end := Min(sheet.maxRow + 1, PRIMARY_SCAN_LIMIT);
      for row := 1 to end
        invariant ScanTotalRows(sheet, row, end, false) == ScanTotalRows(sheet, 1, end, false)
      {
        var cellValue := Lower(TextOr(CellAt(sheet, row, LABEL_COLUMN)));
        if Contains(cellValue, TOTAL_NEW_CONSTRUCTION_LABEL) {
          var value := AmountAt(sheet, row);
          if value > 0.0 {
            return Some(value);
          }
        }
      }

      var newConstPos := FindCellByText(sheet, NEW_CONSTRUCTION_HEADER);
      if newConstPos.Some? {
        var h := newConstPos.value.0;
        for rowOffset := 1 to FALLBACK_WINDOW
          invariant ScanTotalRows(sheet, h + rowOffset, h + FALLBACK_WINDOW, true)
                 == ScanTotalRows(sheet, h + 1, h + FALLBACK_WINDOW, true)
        {
          var row := h + rowOffset;
          var cellValue := Lower(TextOr(CellAt(sheet, row, LABEL_COLUMN)));
          if Contains(cellValue, "total") && Contains(cellValue, "construction") {
            var value := AmountAt(sheet, row);
            if value > 0.0 {
              return Some(value);
            }
          }
        }
      }
      return None;
    }

    /**
     * One of the two searches of `extract_units_and_sf`: rows 1..max_row, label columns
     * D then G, value columns AG then L; the first positive value under a matching label.
     */
    method SearchMetric(sheet: Sheet, metric: Metric) returns (found: Option<real>)
      ensures found == MetricFrom(sheet, 1, metric)
    {
      found := None;
      var labelColumns := LABEL_COLUMNS;
      var valueColumns := VALUE_COLUMNS;
      var row := 1;
      while row <= sheet.maxRow
        invariant 1 <= row <= sheet.maxRow + 1
        invariant found.None?
        invariant MetricFrom(sheet, row, metric) == MetricFrom(sheet, 1, metric)
      {
        var i := 0;
        while i < |labelColumns|
          invariant 0 <= i <= |labelColumns|
          invariant found.None?
          invariant forall j :: 0 <= j < i ==> !IsMetricLabel(CellAt(sheet, row, labelColumns[j]), metric)
                                               || FirstPositive(sheet, row, valueColumns).None?
        {
          var cellValue := CellAt(sheet, row, labelColumns[i]);
          if Truthy(cellValue) && Contains(Lower(Shown(cellValue)), MetricLabel(metric)) {
            var cellLower := Lower(Shown(cellValue));
            if metric == SquareFootage || !Contains(cellLower, UNITS_EXCLUDED) {
              var k := 0;
              while k < |valueColumns|
                invariant 0 <= k <= |valueColumns|
                invariant found.None?
                invariant FirstPositive(sheet, row, valueColumns[k..]) == FirstPositive(sheet, row, valueColumns)
              {
                var value := ExtractNumberFromCell(sheet, row, valueColumns[k]);
                if value > 0.0 {
                  found := Some(value);
                  break;
                }
                FirstPositiveSkip(sheet, row, valueColumns, k);
                k := k + 1;
              }
              if found.Some? {
                break;
              }
            }
          }
          i := i + 1;
        }
        if found.Some? {
          break;
        }
        row := row + 1;
      }
    }

    /**
     * `extract_units_and_sf`: (None, None) without an Application sheet; otherwise the unit
     * count is the truncation of the first positive value found, and the square footage
     * that value itself, so it is strictly positive.
     */
    method ExtractUnitsAndSf() returns (units: Option<int>, sf: Option<real>)
      ensures (units, sf) == UnitsAndSf(applicationSheet)
      ensures applicationSheet.None? ==> units.None? && sf.None?
      ensures units.None? || units.value >= 0
      ensures sf.None? || sf.value > 0.0
    {
      if applicationSheet.None? {
        return None, None;
      }
      var sheet := applicationSheet.value;
      var unitsValue := SearchMetric(sheet, Units);
      units := if unitsValue.Some? then Some(unitsValue.value.Floor) else None;
      sf := SearchMetric(sheet, SquareFootage);
    }

    /**
     * The part of `parse` after `load_workbook`: run the extractors, then fill in and
     * validate a fresh record.
     */
    method BuildApplicationData() returns (appData: ApplicationData)
      requires sourcesUsesSheet.Some?
      ensures fresh(appData)
      ensures ParsedFrom(appData, filePath, sourcesUsesSheet.value, applicationSheet)
    {
      var construction := ExtractConstructionInterestFees();
      var permanent := ExtractPermanentFinancing();
      var newConstructionTotal := ExtractNewConstructionTotal();
      var units, sf := ExtractUnitsAndSf();
      var stem := Stem(filePath);
      appData := FilledApplicationData(stem, filePath, construction, permanent, newConstructionTotal, units, sf);
    }

    /**
     * `parse`: load the workbook, failing as `load_workbook` does, then build and validate
     * the record.
     */
    method Parse(loaded: Option<Workbook>) returns (result: Result<ApplicationData, LoadError>)
      modifies this
      ensures loaded.None? ==> result == Failure(UnreadableWorkbook)
      ensures loaded.None? ==> wb == old(wb) && sourcesUsesSheet == old(sourcesUsesSheet)
                               && applicationSheet == old(applicationSheet)
      ensures loaded.Some? ==> wb == loaded
      ensures loaded.Some? ==> sourcesUsesSheet == SelectedSourcesUses(loaded.value, old(sourcesUsesSheet))
                               && applicationSheet == SelectedApplication(loaded.value, old(applicationSheet))
      ensures loaded.Some? && sourcesUsesSheet.None? ==> result == Failure(SourcesUsesSheetMissing)
      ensures loaded.Some? && sourcesUsesSheet.Some? ==> result.Success?
      ensures result.Success? ==> fresh(result.value)
                                  && ParsedFrom(result.value, filePath, sourcesUsesSheet.value, applicationSheet)
    {
      var outcome := LoadWorkbook(loaded);
      if outcome.Fail? {
        return Failure(outcome.error);
      }
      var appData := BuildApplicationData();
      return Success(appData);
    }
  }
}
