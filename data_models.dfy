/**
 * The records the parser fills in (data_models.py): the two cost sections with their
 * line-item sums and total checks, and the application record with its derived metrics
 * and its validation lists. Amounts are exact reals.
 */
module DataModels {

  import opened Wrappers

  /** How far a reported total may be from the sum of its line items. */
  const TOLERANCE: real := 0.01

  function Abs(x: real): real
  {
    if x < 0.0 then -x else x
  }

  function Sum(items: seq<real>): real
  {
    if items == [] then 0.0 else items[0] + Sum(items[1..])
  }

  /** `total` lies in the closed interval of width 2 * TOLERANCE around `lineSum`. */
  predicate WithinTolerance(total: real, lineSum: real)
  {
    lineSum - TOLERANCE <= total <= lineSum + TOLERANCE
  }

  /**
   * The text `is_valid` returns beside its verdict: empty, or the mismatch message that
   * embeds the reported total and the line-item sum.
   */
  datatype Message = NoMessage | TotalMismatch(total: real, lineItemsSum: real)

  /** The "Construction Interest & Fees" section of the Sources & Uses sheet. */
  datatype ConstructionInterestFees = ConstructionInterestFees(
    constructionLoanInterest: real,
    originationFee: real,
    creditEnhancementFee: real,
    bondPremium: real,
    costOfIssuance: real,
    titleRecording: real,
    taxes: real,
    insurance: real,
    otherAmount: real,
    otherDescription: string,
    total: real)
  {
    /** The nine line items in sheet order, `otherAmount` last; `total` is not one of them. */
    function LineItems(): (items: seq<real>)
      ensures |items| == 9 && items[8] == otherAmount
    {
      [constructionLoanInterest, originationFee, creditEnhancementFee, bondPremium,
       costOfIssuance, titleRecording, taxes, insurance, otherAmount]
    }

    /** `get_line_items_sum`. */
    function GetLineItemsSum(): real
    {
      constructionLoanInterest + originationFee + creditEnhancementFee + bondPremium
      + costOfIssuance + titleRecording + taxes + insurance + otherAmount
    }

    /** `is_valid`: the total agrees with the line items up to the tolerance. */
    function IsValid(): (bool, Message)
    {
      var lineSum := GetLineItemsSum();
      if Abs(total - lineSum) > TOLERANCE then (false, TotalMismatch(total, lineSum))
      else (true, NoMessage)
    }
  }

  /** Peeling the first item off a suffix of a sum. */
  lemma SumStep(s: seq<real>, k: nat)
    requires k < |s|
    ensures Sum(s[k..]) == s[k] + Sum(s[k + 1..])
  {
    assert s[k..][1..] == s[k + 1..];
  }

  /** Nine numbers add up left to right. */
  lemma SumOfNine(s: seq<real>)
    requires |s| == 9
    ensures Sum(s) == s[0] + s[1] + s[2] + s[3] + s[4] + s[5] + s[6] + s[7] + s[8]
  {
    assert Sum(s[8..]) == s[8] by { SumStep(s, 8); assert s[9..] == []; }
    assert Sum(s[7..]) == s[7] + s[8] by { SumStep(s, 7); }
    assert Sum(s[6..]) == s[6] + s[7] + s[8] by { SumStep(s, 6); }
    assert Sum(s[5..]) == s[5] + s[6] + s[7] + s[8] by { SumStep(s, 5); }
    assert Sum(s[4..]) == s[4] + s[5] + s[6] + s[7] + s[8] by { SumStep(s, 4); }
    assert Sum(s[3..]) == s[3] + s[4] + s[5] + s[6] + s[7] + s[8] by { SumStep(s, 3); }
    assert Sum(s[2..]) == s[2] + s[3] + s[4] + s[5] + s[6] + s[7] + s[8] by { SumStep(s, 2); }
    assert Sum(s[1..]) == s[1] + s[2] + s[3] + s[4] + s[5] + s[6] + s[7] + s[8] by { SumStep(s, 1); }
  }

  /** Six numbers add up left to right. */
  lemma SumOfSix(s: seq<real>)
    requires |s| == 6
    ensures Sum(s) == s[0] + s[1] + s[2] + s[3] + s[4] + s[5]
  {
    assert Sum(s[5..]) == s[5] by { SumStep(s, 5); assert s[6..] == []; }
    assert Sum(s[4..]) == s[4] + s[5] by { SumStep(s, 4); }
    assert Sum(s[3..]) == s[3] + s[4] + s[5] by { SumStep(s, 3); }
    assert Sum(s[2..]) == s[2] + s[3] + s[4] + s[5] by { SumStep(s, 2); }
    assert Sum(s[1..]) == s[1] + s[2] + s[3] + s[4] + s[5] by { SumStep(s, 1); }
  }

  /** `get_line_items_sum` of the construction section adds up exactly its nine line items. */
  lemma ConstructionLineItemsSum(c: ConstructionInterestFees)
    ensures c.GetLineItemsSum() == Sum(c.LineItems())
  {
    SumOfNine(c.LineItems());
  }

  /** `get_line_items_sum` of the permanent section adds up exactly its six line items. */
  lemma PermanentLineItemsSum(p: PermanentFinancing)
    ensures p.GetLineItemsSum() == Sum(p.LineItems())
  {
    SumOfSix(p.LineItems());
  }

  /** The "Permanent Financing" section of the Sources & Uses sheet. */
  datatype PermanentFinancing = PermanentFinancing(
    loanOriginationFee: real,
    creditEnhancementFee: real,
    titleRecording: real,
    taxes: real,
    insurance: real,
    otherAmount: real,
    otherDescription: string,
    total: real)
  {
    /** The six line items in sheet order, `otherAmount` last; `total` is not one of them. */
    function LineItems(): (items: seq<real>)
      ensures |items| == 6 && items[5] == otherAmount
    {
      [loanOriginationFee, creditEnhancementFee, titleRecording, taxes, insurance, otherAmount]
    }

    /** `get_line_items_sum`. */
    function GetLineItemsSum(): real
    {
      loanOriginationFee + creditEnhancementFee + titleRecording + taxes + insurance + otherAmount
    }

    /** `is_valid`: the total agrees with the line items up to the tolerance. */
    function IsValid(): (bool, Message)
    {
      var lineSum := GetLineItemsSum();
      if Abs(total - lineSum) > TOLERANCE then (false, TotalMismatch(total, lineSum))
      else (true, NoMessage)
    }
  }

  /**
   * `is_valid` of the construction section passes exactly when its total is within the
   * tolerance of the sum of its nine line items, and reports both numbers when it fails.
   */
  lemma ConstructionIsValidAgainstSum(c: ConstructionInterestFees)
    ensures c.IsValid().0 <==> WithinTolerance(c.total, Sum(c.LineItems()))
    ensures c.IsValid().1 == if c.IsValid().0 then NoMessage else TotalMismatch(c.total, Sum(c.LineItems()))
  {
    ConstructionLineItemsSum(c);
  }

  /** The same for the permanent section and its six line items. */
  lemma PermanentIsValidAgainstSum(p: PermanentFinancing)
    ensures p.IsValid().0 <==> WithinTolerance(p.total, Sum(p.LineItems()))
    ensures p.IsValid().1 == if p.IsValid().0 then NoMessage else TotalMismatch(p.total, Sum(p.LineItems()))
  {
    PermanentLineItemsSum(p);
  }

  /** `ConstructionInterestFees()`: every amount 0.0, an empty description. */
  function DefaultConstructionInterestFees(): ConstructionInterestFees
  {
    ConstructionInterestFees(0.0, 0.0, 0.0, 0.0, 0.0, 0.0, 0.0, 0.0, 0.0, "", 0.0)
  }

  /** `PermanentFinancing()`: every amount 0.0, an empty description. */
  function DefaultPermanentFinancing(): PermanentFinancing
  {
    PermanentFinancing(0.0, 0.0, 0.0, 0.0, 0.0, 0.0, "", 0.0)
  }

  /** A record left at its defaults has no amounts, no description, and passes `is_valid`. */
  lemma DefaultsAreEmptyAndValid()
    ensures DefaultConstructionInterestFees().LineItems() == [0.0, 0.0, 0.0, 0.0, 0.0, 0.0, 0.0, 0.0, 0.0]
    ensures DefaultPermanentFinancing().LineItems() == [0.0, 0.0, 0.0, 0.0, 0.0, 0.0]
    ensures DefaultConstructionInterestFees().total == 0.0 && DefaultConstructionInterestFees().otherDescription == ""
    ensures DefaultPermanentFinancing().total == 0.0 && DefaultPermanentFinancing().otherDescription == ""
    ensures DefaultConstructionInterestFees().IsValid() == (true, NoMessage)
    ensures DefaultPermanentFinancing().IsValid() == (true, NoMessage)
  {
  }

  /** Setting a section's total to its line-item sum makes it pass `is_valid`. */
  lemma ConstructionTotalAtSumIsValid(c: ConstructionInterestFees)
    ensures c.(total := Sum(c.LineItems())).IsValid() == (true, NoMessage)
  {
    ConstructionLineItemsSum(c);
    assert c.(total := Sum(c.LineItems())).GetLineItemsSum() == c.GetLineItemsSum();
  }

  lemma PermanentTotalAtSumIsValid(p: PermanentFinancing)
    ensures p.(total := Sum(p.LineItems())).IsValid() == (true, NoMessage)
  {
    PermanentLineItemsSum(p);
    assert p.(total := Sum(p.LineItems())).GetLineItemsSum() == p.GetLineItemsSum();
  }

  /** The section a validation error is prefixed with. */
  datatype Section = ConstructionInterestAndFees | PermanentFinancingSection

  /** One entry of `validation_errors`: the section prefix and the `is_valid` message. */
  datatype ValidationError = ValidationError(section: Section, message: Message)

  const UNITS_WARNING: string := "Total units not found"
  const SQUARE_FOOTAGE_WARNING: string := "Total square footage not found"
  const NEW_CONSTRUCTION_WARNING: string := "New Construction total not found (using fallback)"

  /** The error list `validate` builds: an error per failing section, construction first. */
  function ValidationErrors(c: ConstructionInterestFees, p: PermanentFinancing): seq<ValidationError>
  {
    var (constructionOk, constructionMsg) := c.IsValid();
    var (permanentOk, permanentMsg) := p.IsValid();
    (if constructionOk then [] else [ValidationError(ConstructionInterestAndFees, constructionMsg)])
    + (if permanentOk then [] else [ValidationError(PermanentFinancingSection, permanentMsg)])
  }

  /** The position of a warning in the order `validate` checks for missing metrics. */
  function WarningRank(w: string): nat
  {
    if w == UNITS_WARNING then 0 else if w == SQUARE_FOOTAGE_WARNING then 1 else 2
  }

  function Count(b: bool): nat
  {
    if b then 1 else 0
  }

  /**
   * The warning list `validate` builds: one warning per metric that is unset, in the order
   * units, square footage, new-construction total. A metric set to any value, 0 included,
   * gives no warning.
   */
  function ValidationWarnings(units: Option<int>, squareFeet: Option<real>, newConstructionTotal: Option<real>)
    : seq<string>
  {
    (if units.None? then [UNITS_WARNING] else [])
    + (if squareFeet.None? then [SQUARE_FOOTAGE_WARNING] else [])
    + (if newConstructionTotal.None? then [NEW_CONSTRUCTION_WARNING] else [])
  }

  /**
   * There is an error for a section exactly when it fails `is_valid`, carrying that
   * section's mismatch message; no error at all exactly when both pass.
   */
  lemma ValidationErrorsReportFailingSections(c: ConstructionInterestFees, p: PermanentFinancing)
    ensures var r := ValidationErrors(c, p);
            && |r| <= 2
            && (r == [] <==> c.IsValid().0 && p.IsValid().0)
            && (ValidationError(ConstructionInterestAndFees, c.IsValid().1) in r <==> !c.IsValid().0)
            && (ValidationError(PermanentFinancingSection, p.IsValid().1) in r <==> !p.IsValid().0)
            && (forall e :: e in r ==> e.message.TotalMismatch?)
            && (|r| == 2 ==> r[0].section == ConstructionInterestAndFees && r[1].section == PermanentFinancingSection)
  {
  }

  /**
   * There is a warning for a metric exactly when it is unset, each at most once, in the
   * order units, square footage, new-construction total.
   */
  lemma ValidationWarningsFlagMissingMetrics(units: Option<int>, squareFeet: Option<real>,
                                             newConstructionTotal: Option<real>)
    ensures var r := ValidationWarnings(units, squareFeet, newConstructionTotal);
            && (UNITS_WARNING in r <==> units.None?)
            && (SQUARE_FOOTAGE_WARNING in r <==> squareFeet.None?)
            && (NEW_CONSTRUCTION_WARNING in r <==> newConstructionTotal.None?)
            && |r| == Count(units.None?) + Count(squareFeet.None?) + Count(newConstructionTotal.None?)
            && (forall i, j :: 0 <= i < j < |r| ==> WarningRank(r[i]) < WarningRank(r[j]))
  {
  }

  /** One application: its two cost sections, its project metrics and its validation lists. */
  class ApplicationData {
    var applicationName: string
    var filePath: string
    var constructionInterestFees: ConstructionInterestFees
    var permanentFinancing: PermanentFinancing
    var totalUnits: Option<int>
    var totalSquareFeet: Option<real>
    var newConstructionTotal: Option<real>
    var validationErrors: seq<ValidationError>
    var validationWarnings: seq<string>

    /** `ApplicationData()`: empty names, default sections, no metrics, empty lists. */
    constructor ()
      ensures applicationName == "" && filePath == ""
      ensures constructionInterestFees == DefaultConstructionInterestFees()
      ensures permanentFinancing == DefaultPermanentFinancing()
      ensures totalUnits == None && totalSquareFeet == None && newConstructionTotal == None
      ensures validationErrors == [] && validationWarnings == []
    {
      applicationName := "";
      filePath := "";
      constructionInterestFees := DefaultConstructionInterestFees();
      permanentFinancing := DefaultPermanentFinancing();
      totalUnits := None;
      totalSquareFeet := None;
      newConstructionTotal := None;
      validationErrors := [];
      validationWarnings := [];
    }

    /**
     * `get_combined_financing_costs`: the construction total plus the permanent total.
     * When both sections pass `is_valid`, it is within twice the tolerance of the sum of
     * all fifteen line items.
     */
    function GetCombinedFinancingCosts(): (r: real)
      reads this
      ensures constructionInterestFees.IsValid().0 && permanentFinancing.IsValid().0 ==>
                Abs(r - (Sum(constructionInterestFees.LineItems()) + Sum(permanentFinancing.LineItems())))
                <= 2.0 * TOLERANCE
    {
      ConstructionIsValidAgainstSum(constructionInterestFees);
      PermanentIsValidAgainstSum(permanentFinancing);
      constructionInterestFees.total + permanentFinancing.total
    }

    /** `get_financing_costs_per_unit`: undefined unless the unit count is set and positive. */
    function GetFinancingCostsPerUnit(): (r: Option<real>)
      reads this
      ensures r.None? <==> totalUnits.None? || totalUnits.value <= 0
      ensures r.Some? ==> r.value * (totalUnits.value as real) == GetCombinedFinancingCosts()
    {
      if totalUnits.Some? && totalUnits.value != 0 && totalUnits.value > 0 then
        Some(GetCombinedFinancingCosts() / totalUnits.value as real)
      else None
    }

    /** `get_financing_costs_per_sf`: undefined unless the square footage is set and positive. */
    function GetFinancingCostsPerSf(): (r: Option<real>)
      reads this
      ensures r.None? <==> totalSquareFeet.None? || totalSquareFeet.value <= 0.0
      ensures r.Some? ==> r.value * totalSquareFeet.value == GetCombinedFinancingCosts()
    {
      if totalSquareFeet.Some? && totalSquareFeet.value != 0.0 && totalSquareFeet.value > 0.0 then
        Some(GetCombinedFinancingCosts() / totalSquareFeet.value)
      else None
    }

    /**
     * `get_financing_costs_pct_hard_costs`: the combined cost as a percentage of the
     * new-construction total; undefined unless that total is set and positive.
     */
    function GetFinancingCostsPctHardCosts(): (r: Option<real>)
      reads this
      ensures r.None? <==> newConstructionTotal.None? || newConstructionTotal.value <= 0.0
      ensures r.Some? ==> r.value * newConstructionTotal.value == 100.0 * GetCombinedFinancingCosts()
    {
      if newConstructionTotal.Some? && newConstructionTotal.value != 0.0 && newConstructionTotal.value > 0.0 then
        Some((GetCombinedFinancingCosts() / newConstructionTotal.value) * 100.0)
      else None
    }

    /**
     * `validate`: both lists are rebuilt from scratch, so they depend only on the sections
     * and the metrics, and a second call leaves them as the first one did.
     */
    method Validate()
      modifies this`validationErrors, this`validationWarnings
      ensures validationErrors == ValidationErrors(constructionInterestFees, permanentFinancing)
      ensures validationWarnings == ValidationWarnings(totalUnits, totalSquareFeet, newConstructionTotal)
    {
      validationErrors := [];
      validationWarnings := [];

      var (isValid, errorMsg) := constructionInterestFees.IsValid();
      if !isValid {
        validationErrors := validationErrors + [ValidationError(ConstructionInterestAndFees, errorMsg)];
      }

      var (isValid', errorMsg') := permanentFinancing.IsValid();
      if !isValid' {
        validationErrors := validationErrors + [ValidationError(PermanentFinancingSection, errorMsg')];
      }
      assert validationErrors == ValidationErrors(constructionInterestFees, permanentFinancing);

      if totalUnits.None? {
        validationWarnings := validationWarnings + [UNITS_WARNING];
      }
      if totalSquareFeet.None? {
        validationWarnings := validationWarnings + [SQUARE_FOOTAGE_WARNING];
      }
      if newConstructionTotal.None? {
        validationWarnings := validationWarnings + [NEW_CONSTRUCTION_WARNING];
      }
    }
  }

  /**
   * The record `parse` builds: `ApplicationData()` with the name, the path, both sections
   * and the three metrics assigned, before `validate()` is called on it.
   */
  method NewApplicationData(applicationName: string, filePath: string,
                            construction: ConstructionInterestFees, permanent: PermanentFinancing,
                            newConstructionTotal: Option<real>, units: Option<int>, sf: Option<real>)
    returns (appData: ApplicationData)
    ensures fresh(appData)
    ensures appData.applicationName == applicationName && appData.filePath == filePath
    ensures appData.constructionInterestFees == construction && appData.permanentFinancing == permanent
    ensures appData.newConstructionTotal == newConstructionTotal
    ensures appData.totalUnits == units && appData.totalSquareFeet == sf
  {
    appData := new ApplicationData();
    appData.filePath := filePath;
    appData.applicationName := applicationName;
    appData.constructionInterestFees := construction;
    appData.permanentFinancing := permanent;
    appData.newConstructionTotal := newConstructionTotal;
    appData.totalUnits, appData.totalSquareFeet := units, sf;
  }

  /** The same record once `validate()` has filled in its two lists. */
  method FilledApplicationData(applicationName: string, filePath: string,
                               construction: ConstructionInterestFees, permanent: PermanentFinancing,
                               newConstructionTotal: Option<real>, units: Option<int>, sf: Option<real>)
    returns (appData: ApplicationData)
    ensures fresh(appData)
    ensures appData.applicationName == applicationName && appData.filePath == filePath
    ensures appData.constructionInterestFees == construction && appData.permanentFinancing == permanent
    ensures appData.newConstructionTotal == newConstructionTotal
    ensures appData.totalUnits == units && appData.totalSquareFeet == sf
    ensures appData.validationErrors == ValidationErrors(construction, permanent)
    ensures appData.validationWarnings == ValidationWarnings(units, sf, newConstructionTotal)
  {
    appData := NewApplicationData(applicationName, filePath, construction, permanent, newConstructionTotal, units, sf);
    appData.Validate();
  }
}
