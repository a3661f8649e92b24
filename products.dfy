/**
 * The financial-product value objects and the static conversions of `ProductVoToMapper`.
 *
 * `ProductVo<T>` and its six subclasses become one datatype with a constructor per runtime
 * type; `PlainProductVo` stands for an object of any other runtime type. Every field that Java
 * can leave `null` is an `Option`. A list DTO keeps the product's code, name and feature and a
 * trimmed option list; a detail DTO also keeps the company fields and the type-specific ones.
 */
module Products {
  import opened Wrappers
  import opened Sorting

  /** The fields every product shares (`ProductVo`). */
  datatype ProductInfo = ProductInfo(
    finCoNo: Option<string>, korCoNm: Option<string>, finPrdtCategory: Option<string>,
    finPrdtCd: Option<string>, finPrdtNm: Option<string>, prdtFeature: Option<string>,
    description: Option<string>, joinWay: Option<string>, recReason: Option<string>,
    tendency: Option<real>, assetProportion: Option<real>)

  datatype DepositOptionVo = DepositOptionVo(
    optionCd: Option<int>, saveTrm: Option<string>, intrRateTypeNm: Option<string>,
    intrRate: Option<string>, intrRate2: Option<string>)

  datatype SavingOptionVo = SavingOptionVo(
    optionCd: Option<int>, saveTrm: Option<string>, rsrvTypeNm: Option<string>,
    intrRateTypeNm: Option<string>, intrRate: Option<string>, intrRate2: Option<string>)

  datatype MortgageOptionVo = MortgageOptionVo(
    optionCd: Option<int>, mrtgTypeNm: Option<string>, rpayTypeNm: Option<string>,
    lendRateTypeNm: Option<string>, lendRateMin: Option<real>, lendRateMax: Option<real>,
    lendRateAvg: Option<real>)

  datatype FundOptionVo = FundOptionVo(
    optionCd: Option<int>, rate3mon: Option<string>, startDate: Option<string>,
    assetTotal: Option<string>, totalFee: Option<string>, riskGrade: Option<string>,
    feeFirst: Option<string>, feeRedemp: Option<string>, priceStd: Option<string>,
    tendency: Option<real>)

  /** The seven fields `DepositVo` and `SavingVo` (and their detail DTOs) both declare. */
  datatype JoinTerms = JoinTerms(
    mtrtInt: Option<string>, spclCnd: Option<string>, joinDeny: Option<string>,
    joinMember: Option<string>, joinPrice: Option<string>, joinTerm: Option<string>,
    etcNote: Option<string>)

  datatype MortgageTerms = MortgageTerms(
    loanInciExpn: Option<string>, erlyRpayFee: Option<string>, dlyRate: Option<string>,
    loanLmt: Option<string>)

  datatype TrustTerms = TrustTerms(
    basePrice: Option<real>, yieldRate: Option<real>, fundType: Option<string>,
    fundStructure: Option<string>, taxBenefit: Option<string>, saleStartDate: Option<string>,
    trustFee: Option<string>, earlyTerminationFee: Option<string>,
    depositProtection: Option<string>)

  datatype GoldTerms = GoldTerms(lot: Option<string>, currency: Option<string>, etcNote: Option<string>)

  datatype ProductVo =
    | DepositVo(info: ProductInfo, depositOptions: seq<DepositOptionVo>, terms: JoinTerms)
    | SavingVo(info: ProductInfo, savingOptions: seq<SavingOptionVo>, terms: JoinTerms)
    | MortgageVo(info: ProductInfo, mortgageOptions: seq<MortgageOptionVo>, mortgage: MortgageTerms)
    | FundVo(info: ProductInfo, fundOptions: seq<FundOptionVo>)
    | GoldVo(info: ProductInfo, gold: GoldTerms)
    | TrustVo(info: ProductInfo, trust: TrustTerms)
    | PlainProductVo(info: ProductInfo)

  datatype DepositSavingOptionDto = DepositSavingOptionDto(
    saveTrm: Option<string>, intrRate: Option<string>, intrRate2: Option<string>)

  datatype DepositOptionDto = DepositOptionDto(
    saveTrm: Option<string>, intrRate: Option<string>, intrRate2: Option<string>,
    intrRateTypeNm: Option<string>)

  datatype SavingOptionDto = SavingOptionDto(
    saveTrm: Option<string>, intrRate: Option<string>, intrRate2: Option<string>,
    rsrvTypeNm: Option<string>, intrRateTypeNm: Option<string>)

  datatype MortgageOptionDto = MortgageOptionDto(
    mrtgTypeNm: Option<string>, rpayTypeNm: Option<string>, lendRateTypeNm: Option<string>,
    lendRateMin: Option<real>, lendRateMax: Option<real>, lendRateAvg: Option<real>)

  datatype FundSimpleOptionDto = FundSimpleOptionDto(
    rate3mon: Option<string>, riskGrade: Option<string>, priceStd: Option<string>)

  datatype FundOptionDto = FundOptionDto(
    rate3mon: Option<string>, startDate: Option<string>, assetTotal: Option<string>,
    totalFee: Option<string>, riskGrade: Option<string>, feeFirst: Option<string>,
    feeRedemp: Option<string>, priceStd: Option<string>)

  /** The element type of the always-empty option list of gold and trust list DTOs. */
  datatype NoOption = NoOption

  /** `ProductDto<T>`, the list form of a product. */
  datatype ProductDto<T> = ProductDto(
    finPrdtCd: Option<string>, finPrdtNm: Option<string>, prdtFeature: Option<string>,
    optionList: seq<T>)

  /** The fields a detail DTO takes from `ProductDto` and `ProductDetailDto`, without the option list. */
  datatype DetailHeader = DetailHeader(
    finPrdtCd: Option<string>, finPrdtNm: Option<string>, prdtFeature: Option<string>,
    korCoNm: Option<string>, finPrdtCategory: Option<string>, description: Option<string>,
    joinWay: Option<string>, recReason: Option<string>)

  datatype DepositDto = DepositDto(header: DetailHeader, optionList: seq<DepositOptionDto>, terms: JoinTerms)
  datatype SavingDto = SavingDto(header: DetailHeader, optionList: seq<SavingOptionDto>, terms: JoinTerms)
  datatype MortgageDto = MortgageDto(header: DetailHeader, optionList: seq<MortgageOptionDto>, mortgage: MortgageTerms)
  datatype FundDto = FundDto(header: DetailHeader, optionList: seq<FundOptionDto>)
  datatype GoldDto = GoldDto(header: DetailHeader, gold: GoldTerms)
  datatype TrustDto = TrustDto(header: DetailHeader, trust: TrustTerms)

  /** The list fields of a product: code, name and feature. */
  predicate SameListFields<T>(info: ProductInfo, d: ProductDto<T>) {
    d.finPrdtCd == info.finPrdtCd && d.finPrdtNm == info.finPrdtNm && d.prdtFeature == info.prdtFeature
  }

  /** A detail header carries the product's code, name, feature and the five company fields. */
  predicate SameHeader(info: ProductInfo, h: DetailHeader) {
    h.finPrdtCd == info.finPrdtCd && h.finPrdtNm == info.finPrdtNm && h.prdtFeature == info.prdtFeature
    && h.korCoNm == info.korCoNm && h.finPrdtCategory == info.finPrdtCategory
    && h.description == info.description && h.joinWay == info.joinWay && h.recReason == info.recReason
  }

  function Header(info: ProductInfo): (h: DetailHeader)
    ensures SameHeader(info, h)
  {
    DetailHeader(info.finPrdtCd, info.finPrdtNm, info.prdtFeature, info.korCoNm,
                 info.finPrdtCategory, info.description, info.joinWay, info.recReason)
  }

  /** The list form drops everything of a detail header but code, name and feature. */
  function ListForm<T>(h: DetailHeader, options: seq<T>): (d: ProductDto<T>)
    ensures d.optionList == options
  {
    ProductDto(h.finPrdtCd, h.finPrdtNm, h.prdtFeature, options)
  }

  /** A copy of the join terms with `joinPrice` and `joinTerm` left `null`. */
  function WithoutJoinPriceAndTerm(t: JoinTerms): (r: JoinTerms)
    ensures r.joinPrice == None && r.joinTerm == None
    ensures r.mtrtInt == t.mtrtInt && r.spclCnd == t.spclCnd && r.joinDeny == t.joinDeny
    ensures r.joinMember == t.joinMember && r.etcNote == t.etcNote
  {
    JoinTerms(t.mtrtInt, t.spclCnd, t.joinDeny, t.joinMember, None, None, t.etcNote)
  }

  // ----- option conversions -----

  function DepositSavingOptionOfDeposit(o: DepositOptionVo): DepositSavingOptionDto {
    DepositSavingOptionDto(o.saveTrm, o.intrRate, o.intrRate2)
  }

  function DepositSavingOptionOfSaving(o: SavingOptionVo): DepositSavingOptionDto {
    DepositSavingOptionDto(o.saveTrm, o.intrRate, o.intrRate2)
  }

  /** The deposit detail option: `intrRateTypeNm` is not copied. */
  function DepositDetailOption(o: DepositOptionVo): DepositOptionDto {
    DepositOptionDto(o.saveTrm, o.intrRate, o.intrRate2, None)
  }

  function SavingDetailOption(o: SavingOptionVo): SavingOptionDto {
    SavingOptionDto(o.saveTrm, o.intrRate, o.intrRate2, o.rsrvTypeNm, o.intrRateTypeNm)
  }

  /** The mortgage list option: `lendRateAvg` is not copied. */
  function MortgageSimpleOption(o: MortgageOptionVo): MortgageOptionDto {
    MortgageOptionDto(o.mrtgTypeNm, o.rpayTypeNm, o.lendRateTypeNm, o.lendRateMin, o.lendRateMax, None)
  }

  function MortgageDetailOption(o: MortgageOptionVo): MortgageOptionDto {
    MortgageOptionDto(o.mrtgTypeNm, o.rpayTypeNm, o.lendRateTypeNm, o.lendRateMin, o.lendRateMax, o.lendRateAvg)
  }

  function FundSimpleOption(o: FundOptionVo): FundSimpleOptionDto {
    FundSimpleOptionDto(o.rate3mon, o.riskGrade, o.priceStd)
  }

  function FundDetailOption(o: FundOptionVo): FundOptionDto {
    FundOptionDto(o.rate3mon, o.startDate, o.assetTotal, o.totalFee, o.riskGrade, o.feeFirst,
                  o.feeRedemp, o.priceStd)
  }

  /** The three fields a fund list option keeps of a fund detail option. */
  function FundOptionSummary(o: FundOptionDto): FundSimpleOptionDto {
    FundSimpleOptionDto(o.rate3mon, o.riskGrade, o.priceStd)
  }

  function DepositSavingOfDepositDetail(o: DepositOptionDto): DepositSavingOptionDto {
    DepositSavingOptionDto(o.saveTrm, o.intrRate, o.intrRate2)
  }

  function DepositSavingOfSavingDetail(o: SavingOptionDto): DepositSavingOptionDto {
    DepositSavingOptionDto(o.saveTrm, o.intrRate, o.intrRate2)
  }

  function WithoutAverageRate(o: MortgageOptionDto): MortgageOptionDto {
    o.(lendRateAvg := None)
  }

  // ----- list DTOs -----

  function ToDepositSimpleDto(vo: ProductVo): (r: ProductDto<DepositSavingOptionDto>)
    requires vo.DepositVo?
    ensures SameListFields(vo.info, r)
    ensures |r.optionList| == |vo.depositOptions|
    ensures forall i | 0 <= i < |r.optionList| ::
      r.optionList[i].saveTrm == vo.depositOptions[i].saveTrm
      && r.optionList[i].intrRate == vo.depositOptions[i].intrRate
      && r.optionList[i].intrRate2 == vo.depositOptions[i].intrRate2
  {
    ProductDto(vo.info.finPrdtCd, vo.info.finPrdtNm, vo.info.prdtFeature,
               MapAll(vo.depositOptions, DepositSavingOptionOfDeposit))
  }

  function ToSavingSimpleDto(vo: ProductVo): (r: ProductDto<DepositSavingOptionDto>)
    requires vo.SavingVo?
    ensures SameListFields(vo.info, r)
    ensures |r.optionList| == |vo.savingOptions|
    ensures forall i | 0 <= i < |r.optionList| ::
      r.optionList[i].saveTrm == vo.savingOptions[i].saveTrm
      && r.optionList[i].intrRate == vo.savingOptions[i].intrRate
      && r.optionList[i].intrRate2 == vo.savingOptions[i].intrRate2
  {
    ProductDto(vo.info.finPrdtCd, vo.info.finPrdtNm, vo.info.prdtFeature,
               MapAll(vo.savingOptions, DepositSavingOptionOfSaving))
  }

  function ToMortgageSimpleDto(vo: ProductVo): (r: ProductDto<MortgageOptionDto>)
    requires vo.MortgageVo?
    ensures SameListFields(vo.info, r)
    ensures |r.optionList| == |vo.mortgageOptions|
    ensures forall i | 0 <= i < |r.optionList| :: var o := vo.mortgageOptions[i];
      r.optionList[i] == MortgageOptionDto(o.mrtgTypeNm, o.rpayTypeNm, o.lendRateTypeNm, o.lendRateMin,
                                           o.lendRateMax, None)
  {
    ProductDto(vo.info.finPrdtCd, vo.info.finPrdtNm, vo.info.prdtFeature,
               MapAll(vo.mortgageOptions, MortgageSimpleOption))
  }

  function ToFundSimpleDto(vo: ProductVo): (r: ProductDto<FundSimpleOptionDto>)
    requires vo.FundVo?
    ensures SameListFields(vo.info, r)
    ensures |r.optionList| == |vo.fundOptions|
    ensures forall i | 0 <= i < |r.optionList| ::
      r.optionList[i] == FundSimpleOptionDto(vo.fundOptions[i].rate3mon, vo.fundOptions[i].riskGrade,
                                             vo.fundOptions[i].priceStd)
  {
    ProductDto(vo.info.finPrdtCd, vo.info.finPrdtNm, vo.info.prdtFeature,
               MapAll(vo.fundOptions, FundSimpleOption))
  }

  function ToGoldSimpleDto(vo: ProductVo): (r: ProductDto<NoOption>)
    requires vo.GoldVo?
    ensures SameListFields(vo.info, r) && r.optionList == []
  {
    ProductDto(vo.info.finPrdtCd, vo.info.finPrdtNm, vo.info.prdtFeature, [])
  }

  function ToTrustSimpleDto(vo: ProductVo): (r: ProductDto<NoOption>)
    requires vo.TrustVo?
    ensures SameListFields(vo.info, r) && r.optionList == []
  {
    ProductDto(vo.info.finPrdtCd, vo.info.finPrdtNm, vo.info.prdtFeature, [])
  }

  // ----- detail DTOs -----

  function ToDepositDto(vo: ProductVo): (r: DepositDto)
    requires vo.DepositVo?
    ensures SameHeader(vo.info, r.header)
    ensures r.terms == WithoutJoinPriceAndTerm(vo.terms)
    ensures |r.optionList| == |vo.depositOptions|
    ensures forall i | 0 <= i < |r.optionList| :: var o := vo.depositOptions[i];
      r.optionList[i] == DepositOptionDto(o.saveTrm, o.intrRate, o.intrRate2, None)
  {
    DepositDto(Header(vo.info), MapAll(vo.depositOptions, DepositDetailOption),
               WithoutJoinPriceAndTerm(vo.terms))
  }

  function ToSavingDto(vo: ProductVo): (r: SavingDto)
    requires vo.SavingVo?
    ensures SameHeader(vo.info, r.header)
    ensures r.terms == WithoutJoinPriceAndTerm(vo.terms)
    ensures |r.optionList| == |vo.savingOptions|
    ensures forall i | 0 <= i < |r.optionList| :: var o := vo.savingOptions[i];
      r.optionList[i] == SavingOptionDto(o.saveTrm, o.intrRate, o.intrRate2, o.rsrvTypeNm, o.intrRateTypeNm)
  {
    SavingDto(Header(vo.info), MapAll(vo.savingOptions, SavingDetailOption),
              WithoutJoinPriceAndTerm(vo.terms))
  }

  function ToMortgageDto(vo: ProductVo): (r: MortgageDto)
    requires vo.MortgageVo?
    ensures SameHeader(vo.info, r.header) && r.mortgage == vo.mortgage
    ensures |r.optionList| == |vo.mortgageOptions|
    ensures forall i | 0 <= i < |r.optionList| :: var o := vo.mortgageOptions[i];
      r.optionList[i] == MortgageOptionDto(o.mrtgTypeNm, o.rpayTypeNm, o.lendRateTypeNm, o.lendRateMin,
                                           o.lendRateMax, o.lendRateAvg)
  {
    MortgageDto(Header(vo.info), MapAll(vo.mortgageOptions, MortgageDetailOption), vo.mortgage)
  }

  function ToFundDto(vo: ProductVo): (r: FundDto)
    requires vo.FundVo?
    ensures SameHeader(vo.info, r.header)
    ensures |r.optionList| == |vo.fundOptions|
    ensures forall i | 0 <= i < |r.optionList| :: var o := vo.fundOptions[i];
      r.optionList[i] == FundOptionDto(o.rate3mon, o.startDate, o.assetTotal, o.totalFee, o.riskGrade,
                                       o.feeFirst, o.feeRedemp, o.priceStd)
  {
    FundDto(Header(vo.info), MapAll(vo.fundOptions, FundDetailOption))
  }

  function ToGoldDto(vo: ProductVo): (r: GoldDto)
    requires vo.GoldVo?
    ensures SameHeader(vo.info, r.header) && r.gold == vo.gold
  {
    GoldDto(Header(vo.info), vo.gold)
  }

  function ToTrustDto(vo: ProductVo): (r: TrustDto)
    requires vo.TrustVo?
    ensures SameHeader(vo.info, r.header) && r.trust == vo.trust
  {
    TrustDto(Header(vo.info), vo.trust)
  }

  // ----- how the list form relates to the detail form -----

  /** A deposit's list DTO is its detail DTO with the company fields and `intrRateTypeNm` dropped. */
  lemma {:induction false} DepositListIsDetailSummary(vo: ProductVo)
    requires vo.DepositVo?
    ensures ToDepositSimpleDto(vo)
         == ListForm(ToDepositDto(vo).header, MapAll(ToDepositDto(vo).optionList, DepositSavingOfDepositDetail))
  {
    var detail := ToDepositDto(vo);
    assert MapAll(detail.optionList, DepositSavingOfDepositDetail)
        == MapAll(vo.depositOptions, DepositSavingOptionOfDeposit);
  }

  /** A saving's list DTO is its detail DTO with the company fields, `rsrvTypeNm` and `intrRateTypeNm` dropped. */
  lemma {:induction false} SavingListIsDetailSummary(vo: ProductVo)
    requires vo.SavingVo?
    ensures ToSavingSimpleDto(vo)
         == ListForm(ToSavingDto(vo).header, MapAll(ToSavingDto(vo).optionList, DepositSavingOfSavingDetail))
  {
    var detail := ToSavingDto(vo);
    assert MapAll(detail.optionList, DepositSavingOfSavingDetail)
        == MapAll(vo.savingOptions, DepositSavingOptionOfSaving);
  }

  /** A mortgage's list options are its detail options with `lendRateAvg` cleared. */
  lemma {:induction false} MortgageListIsDetailSummary(vo: ProductVo)
    requires vo.MortgageVo?
    ensures ToMortgageSimpleDto(vo)
         == ListForm(ToMortgageDto(vo).header, MapAll(ToMortgageDto(vo).optionList, WithoutAverageRate))
  {
    var detail := ToMortgageDto(vo);
    assert MapAll(detail.optionList, WithoutAverageRate) == MapAll(vo.mortgageOptions, MortgageSimpleOption);
  }

  /** A fund's list options keep three of the eight fields of its detail options. */
  lemma {:induction false} FundListIsDetailSummary(vo: ProductVo)
    requires vo.FundVo?
    ensures ToFundSimpleDto(vo)
         == ListForm(ToFundDto(vo).header, MapAll(ToFundDto(vo).optionList, FundOptionSummary))
  {
    var detail := ToFundDto(vo);
    assert MapAll(detail.optionList, FundOptionSummary) == MapAll(vo.fundOptions, FundSimpleOption);
  }
}
