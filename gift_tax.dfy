/**
 * The gift-tax computation of `SimulationServiceImpl`: the progressive rate table, the
 * relationship-based deductions, the generation-skipping surcharge for grandchildren and the
 * per-recipient loop that builds the calculation result.
 *
 * Amounts are Java `long`s modelled as unbounded integers; the `(long)(x * 0.10)`-style casts are
 * exact percentages truncated toward zero. Today's date and the recipient lookup are parameters.
 */
module GiftTax {
  import opened Wrappers
  import opened JavaText
  import opened Dates

  const Spouse: string := "배우자"
  const Child: string := "자녀"
  const Grandchild: string := "손자녀"
  const Sibling: string := "형제자매"
  const OtherRelative: string := "기타"
  /** The `giftTaxPayer` value meaning that the giver pays the tax. */
  const GiverPays: string := "본인"
  const AdultAge: int := 19
  const GrandchildSurchargePercent: int := 30

  /** `(long)(amount * (percent / 100.0))`, computed exactly and truncated toward zero. */
  function PercentOf(amount: int, percent: int): int {
    TruncDiv(amount * percent, 100)
  }

  function Max0(x: int): (r: int)
    ensures r >= 0 && r >= x
  {
    if x > 0 then x else 0
  }

  /** `calculateTax`: the rate table with its progressive deductions. */
  function CalculateTax(taxableBase: int): (r: int)
    ensures taxableBase >= 0 ==> 0 <= r <= taxableBase / 2
  {
    if taxableBase <= 100_000_000 then PercentOf(taxableBase, 10)
    else if taxableBase <= 500_000_000 then PercentOf(taxableBase, 20) - 10_000_000
    else if taxableBase <= 1_000_000_000 then PercentOf(taxableBase, 30) - 60_000_000
    else if taxableBase <= 3_000_000_000 then PercentOf(taxableBase, 40) - 160_000_000
    else PercentOf(taxableBase, 50) - 460_000_000
  }

  /** `getMarginalTaxRate`, as a percentage. */
  function MarginalTaxRate(taxableBase: int): (r: int)
    ensures 10 <= r <= 50 && r % 10 == 0
  {
    if taxableBase <= 100_000_000 then 10
    else if taxableBase <= 500_000_000 then 20
    else if taxableBase <= 1_000_000_000 then 30
    else if taxableBase <= 3_000_000_000 then 40
    else 50
  }

  /** The amount subtracted from the flat-rate tax in each bracket of the rate table. */
  function ProgressiveDeduction(ratePercent: int): int {
    if ratePercent == 10 then 0
    else if ratePercent == 20 then 10_000_000
    else if ratePercent == 30 then 60_000_000
    else if ratePercent == 40 then 160_000_000
    else 460_000_000
  }

  /** The tax is the marginal rate applied to the whole base, less that bracket's deduction. */
  lemma TaxAtMarginalRate(taxableBase: int)
    ensures CalculateTax(taxableBase)
      == PercentOf(taxableBase, MarginalTaxRate(taxableBase)) - ProgressiveDeduction(MarginalTaxRate(taxableBase))
  {
  }

  /** At each bracket limit the formulas of the two neighbouring brackets give the same tax. */
  lemma BracketsMeet()
    ensures CalculateTax(100_000_000) == PercentOf(100_000_000, 20) - 10_000_000 == 10_000_000
    ensures CalculateTax(500_000_000) == PercentOf(500_000_000, 30) - 60_000_000 == 90_000_000
    ensures CalculateTax(1_000_000_000) == PercentOf(1_000_000_000, 40) - 160_000_000 == 240_000_000
    ensures CalculateTax(3_000_000_000) == PercentOf(3_000_000_000, 50) - 460_000_000 == 1_040_000_000
  {
  }

  /** For non-negative bases the tax never decreases as the base grows. */
  lemma TaxMonotone(a: int, b: int)
    requires 0 <= a <= b
    ensures CalculateTax(a) <= CalculateTax(b)
  {
    BracketsMeet();
  }

  datatype Recipient = Recipient(
    recipientId: int,
    email: Option<string>,
    relationship: Option<string>,
    recipientName: Option<string>,
    birthDate: Option<Date>,
    isMarried: Option<bool>,
    hasPriorGift: Option<bool>,
    priorGiftAmount: Option<int>,
    giftTaxPayer: Option<string>)

  /** `isMinor`: a known birth date less than nineteen full years before today. */
  predicate IsMinor(birthDate: Option<Date>, today: Date) {
    birthDate.Some? && PeriodYears(birthDate.value, today) < AdultAge
  }

  /** A recipient born on or before today is a minor exactly until the nineteenth birthday. */
  lemma MinorUntilNineteenthBirthday(birth: Date, today: Date)
    requires Valid(birth) && Valid(today) && !Before(today, birth)
    ensures IsMinor(Some(birth), today)
      <==> today.year - birth.year < AdultAge || (today.year - birth.year == AdultAge && AnniversaryPending(birth, today))
  {
    PeriodYearsCompleted(birth, today);
  }

  /** `getDeductionAmount`: the deduction table by relationship; no recipient or relationship deducts nothing. */
  function DeductionAmount(recipient: Option<Recipient>, today: Date): (r: int)
    ensures r in {0, 10_000_000, 20_000_000, 50_000_000, 600_000_000}
    ensures r == 600_000_000 <==> recipient.Some? && recipient.value.relationship == Some(Spouse)
    ensures r == 10_000_000
      <==> recipient.Some? && recipient.value.relationship in {Some(OtherRelative), Some(Sibling)}
    ensures r == 20_000_000 <==> (recipient.Some? && recipient.value.relationship in {Some(Child), Some(Grandchild)}
                                  && IsMinor(recipient.value.birthDate, today))
    ensures r == 50_000_000 <==> (recipient.Some? && recipient.value.relationship in {Some(Child), Some(Grandchild)}
                                  && !IsMinor(recipient.value.birthDate, today))
  {
    if recipient.None? || recipient.value.relationship.None? then 0
    else
      var relationship := recipient.value.relationship.value;
      if relationship == Spouse then 600_000_000
      else if relationship == Child || relationship == Grandchild then
        (if IsMinor(recipient.value.birthDate, today) then 20_000_000 else 50_000_000)
      else if relationship == OtherRelative || relationship == Sibling then 10_000_000
      else 0
  }

  /** A missing prior-gift amount counts as zero. */
  function PriorGiftAmount(recipient: Recipient): int {
    recipient.priorGiftAmount.GetOr(0)
  }

  /**
   * The tax due on the current gift: the tax on the cumulative taxable base less the tax
   * already due on the prior gifts; never negative when the current gift is not.
   */
  function CurrentGiftTax(prior: int, current: int, deduction: int): (r: int)
    ensures current >= 0 ==> r >= 0
  {
    var cumulativeBase := Max0(current + prior - deduction);
    var priorBase := Max0(prior - deduction);
    TaxMonotone(priorBase, if current >= 0 then cumulativeBase else priorBase);
    CalculateTax(cumulativeBase) - CalculateTax(priorBase)
  }

  datatype AssetGift = AssetGift(assetId: int, giftAmount: int)
  datatype CategoryGift = CategoryGift(assetCategoryCode: Option<string>, assets: seq<AssetGift>)
  datatype RecipientGift = RecipientGift(recipientId: int, categoriesToGift: seq<CategoryGift>)

  predicate NonNegativeGift(request: RecipientGift) {
    forall c, a | c in request.categoriesToGift && a in c.assets :: a.giftAmount >= 0
  }

  function AssetsTotal(assets: seq<AssetGift>): (r: int)
    ensures (forall a | a in assets :: a.giftAmount >= 0) ==> r >= 0
  {
    if assets == [] then 0 else assets[0].giftAmount + AssetsTotal(assets[1..])
  }

  function CategoriesTotal(categories: seq<CategoryGift>): (r: int)
    ensures (forall c, a | c in categories && a in c.assets :: a.giftAmount >= 0) ==> r >= 0
  {
    if categories == [] then 0 else AssetsTotal(categories[0].assets) + CategoriesTotal(categories[1..])
  }

  /** The current gift to one recipient: every asset amount of every category, summed. */
  function GiftAmount(request: RecipientGift): (r: int)
    ensures NonNegativeGift(request) ==> r >= 0
  {
    CategoriesTotal(request.categoriesToGift)
  }

  datatype RecipientTaxDetail = RecipientTaxDetail(recipientName: Option<string>, totalGiftAmount: int, estimatedTax: int)
  datatype CalculationDetail = CalculationDetail(recipient: Recipient, marginalTaxRate: int, surcharge: int, finalTax: int)

  /** One recipient's figures: the current-gift tax, plus the truncated 30% surcharge for a grandchild. */
  function DetailFor(recipient: Recipient, currentGiftAmount: int, today: Date): (d: CalculationDetail)
    ensures d.recipient == recipient
    ensures currentGiftAmount >= 0 ==> d.surcharge >= 0 && d.finalTax >= 0
    ensures recipient.relationship != Some(Grandchild) ==> d.surcharge == 0
    ensures d.finalTax - d.surcharge
      == CurrentGiftTax(PriorGiftAmount(recipient), currentGiftAmount, DeductionAmount(Some(recipient), today))
    ensures d.marginalTaxRate
      == MarginalTaxRate(Max0(currentGiftAmount + PriorGiftAmount(recipient) - DeductionAmount(Some(recipient), today)))
  {
    var prior := PriorGiftAmount(recipient);
    var deduction := DeductionAmount(Some(recipient), today);
    var tax := CurrentGiftTax(prior, currentGiftAmount, deduction);
    var rate := MarginalTaxRate(Max0(currentGiftAmount + prior - deduction));
    var surcharge := if recipient.relationship == Some(Grandchild) then PercentOf(tax, GrandchildSurchargePercent) else 0;
    CalculationDetail(recipient, rate, surcharge, tax + surcharge)
  }

  datatype TaxCalculation = TaxCalculation(
    totalEstimatedTax: int,
    recipientTaxDetails: seq<RecipientTaxDetail>,
    recipientsInSim: seq<Recipient>,
    totalCurrentGiftAmount: int,
    detailsByRecipient: map<int, CalculationDetail>)

  /** The calculation over the simulation list, request by request; unknown recipients are skipped. */
  function Simulate(simulationList: seq<RecipientGift>, findRecipient: int -> Option<Recipient>, today: Date): TaxCalculation
    decreases |simulationList|
  {
    if simulationList == [] then TaxCalculation(0, [], [], 0, map[])
    else
      var acc := Simulate(simulationList[..|simulationList| - 1], findRecipient, today);
      var request := simulationList[|simulationList| - 1];
      match findRecipient(request.recipientId)
      case None => acc
      case Some(recipient) =>
        var current := GiftAmount(request);
        var d := DetailFor(recipient, current, today);
        TaxCalculation(
          acc.totalEstimatedTax + d.finalTax,
          acc.recipientTaxDetails + [RecipientTaxDetail(recipient.recipientName, current, d.finalTax)],
          acc.recipientsInSim + [recipient],
          acc.totalCurrentGiftAmount + current,
          acc.detailsByRecipient[recipient.recipientId := d])
  }

  /** The recipients the lookup finds, in request order. */
  function FoundRecipients(simulationList: seq<RecipientGift>, findRecipient: int -> Option<Recipient>): seq<Recipient>
    decreases |simulationList|
  {
    if simulationList == [] then []
    else
      var init := FoundRecipients(simulationList[..|simulationList| - 1], findRecipient);
      match findRecipient(simulationList[|simulationList| - 1].recipientId)
      case None => init
      case Some(recipient) => init + [recipient]
  }

  function SumEstimatedTax(details: seq<RecipientTaxDetail>): int
    decreases |details|
  {
    if details == [] then 0 else SumEstimatedTax(details[..|details| - 1]) + details[|details| - 1].estimatedTax
  }

  function SumGiftAmounts(details: seq<RecipientTaxDetail>): int
    decreases |details|
  {
    if details == [] then 0 else SumGiftAmounts(details[..|details| - 1]) + details[|details| - 1].totalGiftAmount
  }

  /**
   * The result lists exactly the found recipients, in order, one detail line each; the totals
   * are the sums of those lines; the detail map is keyed by the found recipients' ids.
   */
  lemma {:induction false} SimulateAccounts(simulationList: seq<RecipientGift>, findRecipient: int -> Option<Recipient>, today: Date)
    ensures Simulate(simulationList, findRecipient, today).recipientsInSim == FoundRecipients(simulationList, findRecipient)
    ensures |Simulate(simulationList, findRecipient, today).recipientTaxDetails| == |FoundRecipients(simulationList, findRecipient)|
    ensures forall i | 0 <= i < |FoundRecipients(simulationList, findRecipient)|
      :: Simulate(simulationList, findRecipient, today).recipientTaxDetails[i].recipientName
         == FoundRecipients(simulationList, findRecipient)[i].recipientName
    ensures Simulate(simulationList, findRecipient, today).totalEstimatedTax
      == SumEstimatedTax(Simulate(simulationList, findRecipient, today).recipientTaxDetails)
    ensures Simulate(simulationList, findRecipient, today).totalCurrentGiftAmount
      == SumGiftAmounts(Simulate(simulationList, findRecipient, today).recipientTaxDetails)
    ensures Simulate(simulationList, findRecipient, today).detailsByRecipient.Keys
      == set r | r in FoundRecipients(simulationList, findRecipient) :: r.recipientId
    decreases |simulationList|
  {
    if simulationList != [] {
      var init := simulationList[..|simulationList| - 1];
      SimulateAccounts(init, findRecipient, today);
      var acc := Simulate(init, findRecipient, today);
      var request := simulationList[|simulationList| - 1];
      match findRecipient(request.recipientId)
      case None =>
      case Some(recipient) =>
        var r := Simulate(simulationList, findRecipient, today);
        assert r.recipientTaxDetails[..|r.recipientTaxDetails| - 1] == acc.recipientTaxDetails;
    }
  }

  /** When every gifted amount is non-negative, every recipient's estimated tax and the total are too. */
  lemma {:induction false} SimulateNonNegative(simulationList: seq<RecipientGift>, findRecipient: int -> Option<Recipient>, today: Date)
    requires forall k | 0 <= k < |simulationList| :: NonNegativeGift(simulationList[k])
    ensures forall d | d in Simulate(simulationList, findRecipient, today).recipientTaxDetails :: d.estimatedTax >= 0
    ensures Simulate(simulationList, findRecipient, today).totalEstimatedTax >= 0
    decreases |simulationList|
  {
    if simulationList != [] {
      var init := simulationList[..|simulationList| - 1];
      SimulateNonNegative(init, findRecipient, today);
    }
  }

  /** `calculateGiftTaxInternal`: the loop over the simulation list with its running totals. */
  method CalculateGiftTaxInternal(simulationList: seq<RecipientGift>, findRecipient: int -> Option<Recipient>, today: Date)
    returns (result: TaxCalculation)
    ensures result == Simulate(simulationList, findRecipient, today)
  {
    var totalCurrentGiftAmount := 0;
    var totalEstimatedTax := 0;
    var recipientTaxDetails: seq<RecipientTaxDetail> := [];
    var recipientsInSim: seq<Recipient> := [];
    var detailsByRecipient: map<int, CalculationDetail> := map[];
    for i := 0 to |simulationList|
      invariant TaxCalculation(totalEstimatedTax, recipientTaxDetails, recipientsInSim, totalCurrentGiftAmount, detailsByRecipient)
        == Simulate(simulationList[..i], findRecipient, today)
    {
      assert simulationList[..i + 1][..i] == simulationList[..i];
      var giftRequest := simulationList[i];
      var recipient := findRecipient(giftRequest.recipientId);
      if recipient.None? {
        continue;
      }
      recipientsInSim := recipientsInSim + [recipient.value];
      var currentGiftAmount := GiftAmount(giftRequest);
      totalCurrentGiftAmount := totalCurrentGiftAmount + currentGiftAmount;
      var detail := DetailFor(recipient.value, currentGiftAmount, today);
      recipientTaxDetails := recipientTaxDetails + [RecipientTaxDetail(recipient.value.recipientName, currentGiftAmount, detail.finalTax)];
      totalEstimatedTax := totalEstimatedTax + detail.finalTax;
      detailsByRecipient := detailsByRecipient[recipient.value.recipientId := detail];
    }
    assert simulationList[..|simulationList|] == simulationList;
    result := TaxCalculation(totalEstimatedTax, recipientTaxDetails, recipientsInSim, totalCurrentGiftAmount, detailsByRecipient);
  }
}
