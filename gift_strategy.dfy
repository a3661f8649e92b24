/**
 * The tax-saving strategy recommendation of `SimulationServiceImpl`: the stored rules are grouped
 * by category, each category's check appends the rules whose condition holds for the simulation,
 * each matched rule gets a dynamic weight, and the seven best by priority level, then weight,
 * are returned.
 *
 * The rule table, the business type of an asset and the iteration order of the detail map are
 * parameters.
 */
module GiftStrategy {
  import opened Wrappers
  import opened JavaText
  import opened Dates
  import opened Sorting
  import opened GiftTax

  const TotalAssetCategory: string := "총 자산 규모"
  const RecipientCategory: string := "수증자 유형"
  const GiftHistoryCategory: string := "기존 증여이력"
  const TaxPayerCategory: string := "증여세 납부자"
  const AssetTypeCategory: string := "자산 유형"

  const TotalAssetGt5B: string := "TOTAL_ASSET_GT_5B"
  const TotalAssetGt1B: string := "TOTAL_ASSET_GT_1B"
  const NotExistSpouse: string := "NOT_EXIST_SPOUSE"
  const ExistGrandchild: string := "EXIST_GRANDCHILD"
  const ExistMinorChild: string := "EXIST_MINOR_CHILD"
  const ExistUnmarriedChild: string := "EXIST_UNMARRIED_CHILD"
  const RealEstateAndGrandchild: string := "HAS_GIFT_REAL_ESTATE_AND_EXIST_GRANDCHILD"
  const RealEstateAndUnmarriedChild: string := "HAS_GIFT_REAL_ESTATE_AND_EXIST_UNMARRIED_CHILD"
  const PriorGiftExists: string := "PRIOR_GIFT_EXISTS"
  const CumulativeExceedsDeduction: string := "CUMULATIVE_GIFT_EXCEEDS_DEDUCTION"
  const ExistGifterPaysTax: string := "EXIST_GIFTER_PAYS_TAX"
  const BizToSoleProprietorship: string := "HAS_BIZ_TO_SOLE_PROPRIETORSHIP"
  const BizToCorporation: string := "HAS_BIZ_TO_CORPORATION"
  const RealEstateAppreciation: string := "HAS_REAL_ESTATE_APPRECIATION"
  const RealEstateDebtSuccession: string := "HAS_REAL_ESTATE_DEBT_SUCCESSION"
  const HasCash: string := "HAS_CASH"

  const RealEstateCode: string := "1"
  const CashCode: string := "2"
  const SavingsCode: string := "3"
  const BusinessCode: string := "5"
  const SoleProprietorship: string := "개인 사업자"
  const Corporation: string := "법인 사업자"

  const MaxWeightScore: real := 120.0
  const WeightNormalizationFactor: real := 3_000_000.0
  const TopStrategiesLimit: nat := 7
  /** The share of a spouse's deduction the "no spouse" strategy weighs. */
  const SpouseDeduction: int := 600_000_000

  datatype Strategy = Strategy(strategyId: int, strategyCode: string, ruleCategory: string, message: string,
                               baseWeight: int, priorityLevel: int)
  datatype StrategyResponse = StrategyResponse(ruleCategory: string, content: string)
  datatype WeightedStrategy = WeightedStrategy(rule: Strategy, dynamicWeight: real)
  datatype SimulationResponse = SimulationResponse(totalEstimatedTax: int, recipientDetails: seq<RecipientTaxDetail>,
                                                   taxSavingStrategies: seq<StrategyResponse>)

  /** `groupingBy(ruleCategory).get(category)`: the category's rules in table order, or null when it has none. */
  function RulesByCategory(allRules: seq<Strategy>, category: string): (r: Option<seq<Strategy>>)
    ensures r.Some? ==> r.value != [] && forall s | s in r.value :: s in allRules && s.ruleCategory == category
    ensures r.None? ==> forall s | s in allRules :: s.ruleCategory != category
  {
    var rules := Filter(allRules, (s: Strategy) => s.ruleCategory == category);
    FilterMembers(allRules, (s: Strategy) => s.ruleCategory == category);
    if rules == [] then None else Some(rules)
  }

  /** `filter(code).findFirst()`: the first rule with the code, if any. */
  function FirstWithCode(rules: seq<Strategy>, code: string): (r: seq<Strategy>)
    ensures |r| <= 1
    ensures r != [] ==> r[0] in rules && r[0].strategyCode == code
    ensures r == [] <==> forall s | s in rules :: s.strategyCode != code
  {
    if rules == [] then []
    else if rules[0].strategyCode == code then [rules[0]]
    else FirstWithCode(rules[1..], code)
  }

  /** `checkTotalAssetRules`: at most one rule, chosen by the total amount gifted. */
  function TotalAssetMatches(rules: Option<seq<Strategy>>, totalGiftAmount: int): (r: seq<Strategy>)
    ensures |r| <= 1
    ensures totalGiftAmount < 1_000_000_000 ==> r == []
    ensures r != [] ==> r[0].strategyCode == if totalGiftAmount >= 5_000_000_000 then TotalAssetGt5B else TotalAssetGt1B
    ensures rules.Some? && totalGiftAmount >= 1_000_000_000 && r == []
      ==> forall s | s in rules.value
            :: s.strategyCode != if totalGiftAmount >= 5_000_000_000 then TotalAssetGt5B else TotalAssetGt1B
  {
    if rules.None? then []
    else if totalGiftAmount >= 5_000_000_000 then FirstWithCode(rules.value, TotalAssetGt5B)
    else if totalGiftAmount >= 1_000_000_000 then FirstWithCode(rules.value, TotalAssetGt1B)
    else []
  }

  predicate HasRelationship(recipients: seq<Recipient>, relationship: string) {
    exists r | r in recipients :: r.relationship == Some(relationship)
  }

  predicate HasMinor(recipients: seq<Recipient>, today: Date) {
    exists r | r in recipients :: IsMinor(r.birthDate, today)
  }

  /** A child whose marital status is unknown counts as unmarried. */
  predicate HasUnmarriedChild(recipients: seq<Recipient>) {
    exists r | r in recipients :: r.relationship == Some(Child) && r.isMarried != Some(true)
  }

  predicate GiftsCategory(simulationList: seq<RecipientGift>, code: string) {
    exists g, c | g in simulationList && c in g.categoriesToGift :: c.assetCategoryCode == Some(code)
  }

  datatype RecipientFacts = RecipientFacts(hasSpouse: bool, hasGrandChild: bool, hasMinor: bool,
                                           hasUnmarriedChild: bool, hasRealEstate: bool)

  function RecipientFactsOf(recipients: seq<Recipient>, simulationList: seq<RecipientGift>, today: Date): RecipientFacts {
    RecipientFacts(HasRelationship(recipients, Spouse), HasRelationship(recipients, Grandchild),
                   HasMinor(recipients, today), HasUnmarriedChild(recipients), GiftsCategory(simulationList, RealEstateCode))
  }

  /** The condition of each recipient rule; an unknown code never applies. */
  predicate RecipientRuleApplies(code: string, facts: RecipientFacts) {
    if code == NotExistSpouse then !facts.hasSpouse
    else if code == ExistGrandchild then facts.hasGrandChild
    else if code == ExistMinorChild then facts.hasMinor
    else if code == ExistUnmarriedChild then facts.hasUnmarriedChild
    else if code == RealEstateAndGrandchild then facts.hasRealEstate && facts.hasGrandChild
    else if code == RealEstateAndUnmarriedChild then facts.hasRealEstate && facts.hasUnmarriedChild
    else false
  }

  function RecipientMatches(rules: Option<seq<Strategy>>, facts: RecipientFacts): seq<Strategy> {
    if rules.None? then [] else Filter(rules.value, (s: Strategy) => RecipientRuleApplies(s.strategyCode, facts))
  }

  /** The recipient rules that match are exactly the category's rules whose conditions hold. */
  lemma RecipientRulesMatch(rules: Option<seq<Strategy>>, recipients: seq<Recipient>, simulationList: seq<RecipientGift>,
                            today: Date, rule: Strategy)
    requires rules.Some? && rule in rules.value
    ensures var matched := RecipientMatches(rules, RecipientFactsOf(recipients, simulationList, today));
      && (rule.strategyCode == NotExistSpouse ==> (rule in matched <==> !HasRelationship(recipients, Spouse)))
      && (rule.strategyCode == ExistGrandchild ==> (rule in matched <==> HasRelationship(recipients, Grandchild)))
      && (rule.strategyCode == ExistMinorChild ==> (rule in matched <==> HasMinor(recipients, today)))
      && (rule.strategyCode == ExistUnmarriedChild ==> (rule in matched <==> HasUnmarriedChild(recipients)))
      && (rule.strategyCode == RealEstateAndGrandchild
          ==> (rule in matched <==> GiftsCategory(simulationList, RealEstateCode) && HasRelationship(recipients, Grandchild)))
      && (rule.strategyCode == RealEstateAndUnmarriedChild
          ==> (rule in matched <==> GiftsCategory(simulationList, RealEstateCode) && HasUnmarriedChild(recipients)))
  {
    var facts := RecipientFactsOf(recipients, simulationList, today);
    FilterMembers(rules.value, (s: Strategy) => RecipientRuleApplies(s.strategyCode, facts));
  }

  /** No category in the rule table, no rule from it. */
  lemma MissingCategoryAddsNothing(facts: RecipientFacts, recipients: seq<Recipient>, today: Date, totalGiftAmount: int)
    ensures RecipientMatches(None, facts) == []
    ensures TotalAssetMatches(None, totalGiftAmount) == []
    ensures HistoryMatches(None, recipients, today) == []
    ensures TaxPayerMatches(None, recipients) == []
  {
  }

  /** `checkRecipientRules`: one pass over the category's rules, appending those whose condition holds. */
  method CheckRecipientRules(matchedRules: seq<Strategy>, rules: Option<seq<Strategy>>, taxResult: TaxCalculation,
                             simulationList: seq<RecipientGift>, today: Date)
    returns (matched: seq<Strategy>)
    ensures matched == matchedRules + RecipientMatches(rules, RecipientFactsOf(taxResult.recipientsInSim, simulationList, today))
  {
    matched := matchedRules;
    if rules.None? {
      return;
    }
    var facts := RecipientFactsOf(taxResult.recipientsInSim, simulationList, today);
    var list := rules.value;
    for i := 0 to |list|
      invariant matched == matchedRules + Filter(list[..i], (s: Strategy) => RecipientRuleApplies(s.strategyCode, facts))
    {
      assert list[..i + 1][..i] == list[..i];
      if RecipientRuleApplies(list[i].strategyCode, facts) {
        matched := matched + [list[i]];
      }
    }
    assert list[..|list|] == list;
  }

  predicate ExceedsDeduction(r: Recipient, today: Date) {
    PriorGiftAmount(r) > DeductionAmount(Some(r), today)
  }

  /** The condition of each gift-history rule. */
  predicate HistoryRuleApplies(code: string, recipients: seq<Recipient>, today: Date) {
    if code == PriorGiftExists then exists r | r in recipients :: r.hasPriorGift == Some(true)
    else if code == CumulativeExceedsDeduction then exists r | r in recipients :: ExceedsDeduction(r, today)
    else false
  }

  function HistoryMatches(rules: Option<seq<Strategy>>, recipients: seq<Recipient>, today: Date): seq<Strategy> {
    if rules.None? then [] else Filter(rules.value, (s: Strategy) => HistoryRuleApplies(s.strategyCode, recipients, today))
  }

  /** The history rules that match are exactly those whose condition holds for some recipient. */
  lemma HistoryRulesMatch(rules: Option<seq<Strategy>>, recipients: seq<Recipient>, today: Date, rule: Strategy)
    requires rules.Some? && rule in rules.value
    ensures rule.strategyCode == PriorGiftExists
      ==> (rule in HistoryMatches(rules, recipients, today) <==> exists r | r in recipients :: r.hasPriorGift == Some(true))
    ensures rule.strategyCode == CumulativeExceedsDeduction
      ==> (rule in HistoryMatches(rules, recipients, today) <==> exists r | r in recipients :: ExceedsDeduction(r, today))
    ensures rule.strategyCode !in {PriorGiftExists, CumulativeExceedsDeduction} ==> rule !in HistoryMatches(rules, recipients, today)
  {
    FilterMembers(rules.value, (s: Strategy) => HistoryRuleApplies(s.strategyCode, recipients, today));
  }

  /** `checkGiftHistoryRules`. */
  method CheckGiftHistoryRules(matchedRules: seq<Strategy>, rules: Option<seq<Strategy>>, taxResult: TaxCalculation, today: Date)
    returns (matched: seq<Strategy>)
    ensures matched == matchedRules + HistoryMatches(rules, taxResult.recipientsInSim, today)
  {
    matched := matchedRules;
    if rules.None? {
      return;
    }
    var list := rules.value;
    for i := 0 to |list|
      invariant matched == matchedRules
        + Filter(list[..i], (s: Strategy) => HistoryRuleApplies(s.strategyCode, taxResult.recipientsInSim, today))
    {
      assert list[..i + 1][..i] == list[..i];
      if HistoryRuleApplies(list[i].strategyCode, taxResult.recipientsInSim, today) {
        matched := matched + [list[i]];
      }
    }
    assert list[..|list|] == list;
  }

  /** `checkTaxPayerRules`: the first "giver pays" rule, when some recipient's tax is paid by the giver. */
  function TaxPayerMatches(rules: Option<seq<Strategy>>, recipients: seq<Recipient>): (r: seq<Strategy>)
    ensures |r| <= 1
    ensures r != [] ==> r[0].strategyCode == ExistGifterPaysTax && exists p | p in recipients :: p.giftTaxPayer == Some(GiverPays)
    ensures (rules.Some? && (exists s | s in rules.value :: s.strategyCode == ExistGifterPaysTax)
             && exists p | p in recipients :: p.giftTaxPayer == Some(GiverPays)) ==> r != []
  {
    if rules.None? then []
    else if exists p | p in recipients :: p.giftTaxPayer == Some(GiverPays) then FirstWithCode(rules.value, ExistGifterPaysTax)
    else []
  }

  /** The asset ids of the business-category gifts, in request order (the `flatMap` of the source). */
  function BusinessAssetIds(simulationList: seq<RecipientGift>): seq<int> {
    if simulationList == [] then [] else BusinessIdsIn(simulationList[0].categoriesToGift) + BusinessAssetIds(simulationList[1..])
  }

  function BusinessIdsIn(categories: seq<CategoryGift>): seq<int> {
    if categories == [] then []
    else (if categories[0].assetCategoryCode == Some(BusinessCode) then AssetIds(categories[0].assets) else [])
         + BusinessIdsIn(categories[1..])
  }

  function AssetIds(assets: seq<AssetGift>): seq<int> {
    if assets == [] then [] else [assets[0].assetId] + AssetIds(assets[1..])
  }

  /** Whether some listed business asset has the business type; an unknown asset or type has none. */
  predicate AnyBusinessOfType(ids: seq<int>, businessTypeOf: int -> Option<string>, businessType: string) {
    exists k | 0 <= k < |ids| :: businessTypeOf(ids[k]) == Some(businessType)
  }

  datatype AssetFacts = AssetFacts(hasRealEstate: bool, hasCashOrSavings: bool, toSoleProprietorship: bool, toCorporation: bool)

  /** The condition of each asset-type rule. */
  predicate AssetRuleApplies(code: string, facts: AssetFacts) {
    if code == BizToSoleProprietorship then facts.toSoleProprietorship
    else if code == BizToCorporation then facts.toCorporation
    else if code == RealEstateAppreciation || code == RealEstateDebtSuccession then facts.hasRealEstate
    else if code == HasCash then facts.hasCashOrSavings
    else false
  }

  function AssetFactsOf(simulationList: seq<RecipientGift>, businessTypeOf: int -> Option<string>): AssetFacts {
    var ids := BusinessAssetIds(simulationList);
    AssetFacts(GiftsCategory(simulationList, RealEstateCode),
               GiftsCategory(simulationList, CashCode) || GiftsCategory(simulationList, SavingsCode),
               AnyBusinessOfType(ids, businessTypeOf, SoleProprietorship),
               AnyBusinessOfType(ids, businessTypeOf, Corporation))
  }

  function AssetMatches(rules: Option<seq<Strategy>>, facts: AssetFacts): seq<Strategy> {
    if rules.None? then [] else Filter(rules.value, (s: Strategy) => AssetRuleApplies(s.strategyCode, facts))
  }

  /** The loop over the business assets that raises the two business-type flags. */
  method BusinessFlags(ids: seq<int>, businessTypeOf: int -> Option<string>) returns (sole: bool, corporation: bool)
    ensures sole == AnyBusinessOfType(ids, businessTypeOf, SoleProprietorship)
    ensures corporation == AnyBusinessOfType(ids, businessTypeOf, Corporation)
  {
    sole, corporation := false, false;
    for i := 0 to |ids|
      invariant sole == exists k | 0 <= k < i :: businessTypeOf(ids[k]) == Some(SoleProprietorship)
      invariant corporation == exists k | 0 <= k < i :: businessTypeOf(ids[k]) == Some(Corporation)
    {
      var assetInfo := businessTypeOf(ids[i]);
      if assetInfo.Some? {
        if assetInfo.value == SoleProprietorship {
          sole := true;
        }
        if assetInfo.value == Corporation {
          corporation := true;
        }
      }
    }
  }

  /** `checkAssetTypeRules`. */
  method CheckAssetTypeRules(matchedRules: seq<Strategy>, rules: Option<seq<Strategy>>, simulationList: seq<RecipientGift>,
                             businessTypeOf: int -> Option<string>)
    returns (matched: seq<Strategy>)
    ensures matched == matchedRules + AssetMatches(rules, AssetFactsOf(simulationList, businessTypeOf))
  {
    matched := matchedRules;
    if rules.None? {
      return;
    }
    var sole, corporation := BusinessFlags(BusinessAssetIds(simulationList), businessTypeOf);
    var facts := AssetFacts(GiftsCategory(simulationList, RealEstateCode),
                            GiftsCategory(simulationList, CashCode) || GiftsCategory(simulationList, SavingsCode),
                            sole, corporation);
    var list := rules.value;
    for i := 0 to |list|
      invariant matched == matchedRules + Filter(list[..i], (s: Strategy) => AssetRuleApplies(s.strategyCode, facts))
    {
      assert list[..i + 1][..i] == list[..i];
      if AssetRuleApplies(list[i].strategyCode, facts) {
        matched := matched + [list[i]];
      }
    }
    assert list[..|list|] == list;
  }

  /** The matched rules, category by category in the source's order. */
  function MatchedRules(allRules: seq<Strategy>, taxResult: TaxCalculation, simulationList: seq<RecipientGift>,
                        businessTypeOf: int -> Option<string>, today: Date): seq<Strategy>
  {
    var recipients := taxResult.recipientsInSim;
    TotalAssetMatches(RulesByCategory(allRules, TotalAssetCategory), taxResult.totalCurrentGiftAmount)
    + RecipientMatches(RulesByCategory(allRules, RecipientCategory), RecipientFactsOf(recipients, simulationList, today))
    + HistoryMatches(RulesByCategory(allRules, GiftHistoryCategory), recipients, today)
    + TaxPayerMatches(RulesByCategory(allRules, TaxPayerCategory), recipients)
    + AssetMatches(RulesByCategory(allRules, AssetTypeCategory), AssetFactsOf(simulationList, businessTypeOf))
  }

  /** The detail map's values in its iteration order. */
  function ValuesInOrder(details: map<int, CalculationDetail>, order: seq<int>): (r: seq<CalculationDetail>)
    requires forall i | 0 <= i < |order| :: order[i] in details
    ensures |r| == |order|
    decreases |order|
  {
    if order == [] then []
    else
      [details[order[0]]] + ValuesInOrder(details, order[1..])
  }

  /** `mapToDouble(getMarginalTaxRate).max().orElse(0.0)`. */
  function MaxRate(details: seq<CalculationDetail>): (r: int)
    ensures details == [] ==> r == 0
    ensures details != [] ==> exists d | d in details :: d.marginalTaxRate == r
    ensures forall d | d in details :: d.marginalTaxRate <= r
  {
    if details == [] then 0
    else if |details| == 1 then details[0].marginalTaxRate
    else
      var rest := MaxRate(details[1..]);
      if details[0].marginalTaxRate >= rest then details[0].marginalTaxRate else rest
  }

  function SumSurcharge(details: seq<CalculationDetail>): int {
    if details == [] then 0 else details[0].surcharge + SumSurcharge(details[1..])
  }

  function SumFinalTax(details: seq<CalculationDetail>): int {
    if details == [] then 0 else details[0].finalTax + SumFinalTax(details[1..])
  }

  function SumExceeded(details: seq<CalculationDetail>, today: Date): int {
    if details == [] then 0
    else Max0(PriorGiftAmount(details[0].recipient) - DeductionAmount(Some(details[0].recipient), today))
         + SumExceeded(details[1..], today)
  }

  predicate GiverPaysTax(d: CalculationDetail) {
    d.recipient.giftTaxPayer == Some(GiverPays)
  }

  /** `Math.min(MAX_WEIGHT_SCORE, (double) amount / WEIGHT_NORMALIZATION_FACTOR)`. */
  function Capped(amount: int): (r: real)
    ensures r <= MaxWeightScore
    ensures amount >= 0 ==> r >= 0.0
  {
    var score := amount as real / WeightNormalizationFactor;
    if score < MaxWeightScore then score else MaxWeightScore
  }

  /** The four computed weights. */
  predicate HasComputedWeight(code: string) {
    code in {NotExistSpouse, ExistGrandchild, ExistGifterPaysTax, CumulativeExceedsDeduction}
  }

  /** `calculateDynamicWeight`: the four computed weights are capped at 120; other rules weigh their base weight. */
  function DynamicWeight(rule: Strategy, taxResult: TaxCalculation, order: seq<int>, today: Date): (r: real)
    requires Enumerates(order, taxResult.detailsByRecipient)
    ensures HasComputedWeight(rule.strategyCode) ==> r <= MaxWeightScore
    ensures !HasComputedWeight(rule.strategyCode) ==> r == rule.baseWeight as real
  {
    var values := ValuesInOrder(taxResult.detailsByRecipient, order);
    if rule.strategyCode == NotExistSpouse then
      Capped(PercentOf(SpouseDeduction, MaxRate(values)))
    else if rule.strategyCode == ExistGrandchild then
      Capped(SumSurcharge(values))
    else if rule.strategyCode == ExistGifterPaysTax then
      var paying := Filter(values, GiverPaysTax);
      Capped(PercentOf(SumFinalTax(paying), if paying == [] then 0 else paying[0].marginalTaxRate))
    else if rule.strategyCode == CumulativeExceedsDeduction then
      var exceeding := Filter(values, (d: CalculationDetail) => ExceedsDeduction(d.recipient, today));
      Capped(PercentOf(SumExceeded(values, today), MaxRate(exceeding)))
    else rule.baseWeight as real
  }

  /** Priority level ascending, then dynamic weight descending. */
  function ByPriorityThenWeight(): WeightedStrategy -> Rank {
    (ws: WeightedStrategy) => Rank(ws.rule.priorityLevel, -ws.dynamicWeight)
  }

  function Weigh(rules: seq<Strategy>, taxResult: TaxCalculation, order: seq<int>, today: Date): (r: seq<WeightedStrategy>)
    requires Enumerates(order, taxResult.detailsByRecipient)
    ensures |r| == |rules|
    ensures forall k | 0 <= k < |r| :: r[k].rule == rules[k]
  {
    if rules == [] then []
    else [WeightedStrategy(rules[0], DynamicWeight(rules[0], taxResult, order, today))] + Weigh(rules[1..], taxResult, order, today)
  }

  function TopStrategies(weighted: seq<WeightedStrategy>): seq<WeightedStrategy> {
    TakeFirst(SortBy(weighted, ByPriorityThenWeight()), TopStrategiesLimit)
  }

  /**
   * At most seven strategies are kept, ordered by priority level and then by weight, best first;
   * every one left out has a later priority level, or the same level and no greater weight.
   */
  lemma TopStrategiesAreBest(weighted: seq<WeightedStrategy>)
    ensures |TopStrategies(weighted)| <= TopStrategiesLimit
    ensures forall i, j | 0 <= i < j < |TopStrategies(weighted)|
      :: var a, b := TopStrategies(weighted)[i], TopStrategies(weighted)[j];
         a.rule.priorityLevel < b.rule.priorityLevel
         || (a.rule.priorityLevel == b.rule.priorityLevel && a.dynamicWeight >= b.dynamicWeight)
    ensures forall a, b | a in TopStrategies(weighted) && b in weighted && b !in TopStrategies(weighted)
      :: a.rule.priorityLevel < b.rule.priorityLevel
         || (a.rule.priorityLevel == b.rule.priorityLevel && a.dynamicWeight >= b.dynamicWeight)
  {
    TopIsBest(weighted, ByPriorityThenWeight(), TopStrategiesLimit);
  }

  function ToResponses(weighted: seq<WeightedStrategy>): (r: seq<StrategyResponse>)
    ensures |r| == |weighted|
    ensures forall k | 0 <= k < |r| :: r[k] == StrategyResponse(weighted[k].rule.ruleCategory, weighted[k].rule.message)
  {
    if weighted == [] then []
    else [StrategyResponse(weighted[0].rule.ruleCategory, weighted[0].rule.message)] + ToResponses(weighted[1..])
  }

  /** The recommended strategies for a simulation. */
  function Strategies(allRules: seq<Strategy>, taxResult: TaxCalculation, simulationList: seq<RecipientGift>,
                      businessTypeOf: int -> Option<string>, today: Date, order: seq<int>): seq<StrategyResponse>
    requires Enumerates(order, taxResult.detailsByRecipient)
  {
    ToResponses(TopStrategies(Weigh(MatchedRules(allRules, taxResult, simulationList, businessTypeOf, today), taxResult, order, today)))
  }

  /** `generateTaxSavingStrategies`: the category checks in order, then weighting, ranking and the cut to seven. */
  method GenerateTaxSavingStrategies(simulationList: seq<RecipientGift>, taxResult: TaxCalculation, allRules: seq<Strategy>,
                                     businessTypeOf: int -> Option<string>, today: Date, order: seq<int>)
    returns (strategies: seq<StrategyResponse>)
    requires Enumerates(order, taxResult.detailsByRecipient)
    ensures strategies == Strategies(allRules, taxResult, simulationList, businessTypeOf, today, order)
    ensures |strategies| <= TopStrategiesLimit
  {
    var recipients := taxResult.recipientsInSim;
    var matchedRules := TotalAssetMatches(RulesByCategory(allRules, TotalAssetCategory), taxResult.totalCurrentGiftAmount);
    matchedRules := CheckRecipientRules(matchedRules, RulesByCategory(allRules, RecipientCategory), taxResult, simulationList, today);
    matchedRules := CheckGiftHistoryRules(matchedRules, RulesByCategory(allRules, GiftHistoryCategory), taxResult, today);
    matchedRules := matchedRules + TaxPayerMatches(RulesByCategory(allRules, TaxPayerCategory), recipients);
    matchedRules := CheckAssetTypeRules(matchedRules, RulesByCategory(allRules, AssetTypeCategory), simulationList, businessTypeOf);
    assert matchedRules == MatchedRules(allRules, taxResult, simulationList, businessTypeOf, today);
    var weightedStrategies := Weigh(matchedRules, taxResult, order, today);
    strategies := ToResponses(TopStrategies(weightedStrategies));
  }

  /** `runGiftTaxSimulation`: the tax figures and the strategies built on them. */
  method RunGiftTaxSimulation(simulationList: seq<RecipientGift>, findRecipient: int -> Option<Recipient>, allRules: seq<Strategy>,
                              businessTypeOf: int -> Option<string>, today: Date, order: seq<int>)
    returns (response: SimulationResponse)
    requires Enumerates(order, Simulate(simulationList, findRecipient, today).detailsByRecipient)
    ensures var taxResult := Simulate(simulationList, findRecipient, today);
      response == SimulationResponse(taxResult.totalEstimatedTax, taxResult.recipientTaxDetails,
                                     Strategies(allRules, taxResult, simulationList, businessTypeOf, today, order))
  {
    var taxResult := CalculateGiftTaxInternal(simulationList, findRecipient, today);
    var strategies := GenerateTaxSavingStrategies(simulationList, taxResult, allRules, businessTypeOf, today, order);
    response := SimulationResponse(taxResult.totalEstimatedTax, taxResult.recipientTaxDetails, strategies);
  }
}
