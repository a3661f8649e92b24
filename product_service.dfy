/**
 * `ProductsServiceImpl`: the product list page, partitioned by product type, and the detail
 * lookup by product code. The catalogue is the product table of `Database` in the order
 * `findAllProduct` returns it.
 */
module ProductService {
  import opened Wrappers
  import opened Sorting
  import opened Products
  import opened Tables

  /**
   * The `Map.of` that `findAllProducts` returns: its six keys `deposit`, `saving`, `mortgage`,
   * `fund`, `gold` and `trust` are the six fields, so every key is there even for an empty list.
   */
  datatype ProductLists = ProductLists(
    deposit: seq<ProductDto<DepositSavingOptionDto>>,
    saving: seq<ProductDto<DepositSavingOptionDto>>,
    mortgage: seq<ProductDto<MortgageOptionDto>>,
    fund: seq<ProductDto<FundSimpleOptionDto>>,
    gold: seq<ProductDto<NoOption>>,
    trust: seq<ProductDto<NoOption>>)

  function IsDeposit(p: ProductVo): bool { p.DepositVo? }
  function IsSaving(p: ProductVo): bool { p.SavingVo? }
  function IsMortgage(p: ProductVo): bool { p.MortgageVo? }
  function IsFund(p: ProductVo): bool { p.FundVo? }
  function IsGold(p: ProductVo): bool { p.GoldVo? }
  function IsTrust(p: ProductVo): bool { p.TrustVo? }
  function IsPlain(p: ProductVo): bool { p.PlainProductVo? }

  /** The list DTO of each product type, and of any other product a value that is never used. */
  function DepositEntry(p: ProductVo): ProductDto<DepositSavingOptionDto> {
    if p.DepositVo? then ToDepositSimpleDto(p) else ProductDto(None, None, None, [])
  }

  function SavingEntry(p: ProductVo): ProductDto<DepositSavingOptionDto> {
    if p.SavingVo? then ToSavingSimpleDto(p) else ProductDto(None, None, None, [])
  }

  function MortgageEntry(p: ProductVo): ProductDto<MortgageOptionDto> {
    if p.MortgageVo? then ToMortgageSimpleDto(p) else ProductDto(None, None, None, [])
  }

  function FundEntry(p: ProductVo): ProductDto<FundSimpleOptionDto> {
    if p.FundVo? then ToFundSimpleDto(p) else ProductDto(None, None, None, [])
  }

  function GoldEntry(p: ProductVo): ProductDto<NoOption> {
    if p.GoldVo? then ToGoldSimpleDto(p) else ProductDto(None, None, None, [])
  }

  function TrustEntry(p: ProductVo): ProductDto<NoOption> {
    if p.TrustVo? then ToTrustSimpleDto(p) else ProductDto(None, None, None, [])
  }

  /** The six lists as the source promises them: each type's products, in catalogue order, as list DTOs. */
  function Partitioned(products: seq<ProductVo>): ProductLists {
    ProductLists(
      MapAll(Filter(products, IsDeposit), DepositEntry),
      MapAll(Filter(products, IsSaving), SavingEntry),
      MapAll(Filter(products, IsMortgage), MortgageEntry),
      MapAll(Filter(products, IsFund), FundEntry),
      MapAll(Filter(products, IsGold), GoldEntry),
      MapAll(Filter(products, IsTrust), TrustEntry))
  }

  /** Filtering then mapping a sequence with one more element adds that element's image when it passes. */
  lemma FilterMapStep<A, B>(s: seq<A>, x: A, p: A -> bool, f: A -> B)
    ensures MapAll(Filter(s + [x], p), f) == MapAll(Filter(s, p), f) + (if p(x) then [f(x)] else [])
  {
    assert (s + [x])[..|s + [x]| - 1] == s;
    var kept := Filter(s, p);
    if p(x) {
      assert Filter(s + [x], p) == kept + [x];
      assert (kept + [x])[..|kept + [x]| - 1] == kept;
    } else {
      assert Filter(s + [x], p) == kept;
    }
  }

  /** The lists after one more product: it is added to the list of its type and to no other. */
  lemma PartitionedStep(s: seq<ProductVo>, p: ProductVo)
    ensures var before, after := Partitioned(s), Partitioned(s + [p]);
      && after.deposit == before.deposit + (if p.DepositVo? then [ToDepositSimpleDto(p)] else [])
      && after.saving == before.saving + (if p.SavingVo? then [ToSavingSimpleDto(p)] else [])
      && after.mortgage == before.mortgage + (if p.MortgageVo? then [ToMortgageSimpleDto(p)] else [])
      && after.fund == before.fund + (if p.FundVo? then [ToFundSimpleDto(p)] else [])
      && after.gold == before.gold + (if p.GoldVo? then [ToGoldSimpleDto(p)] else [])
      && after.trust == before.trust + (if p.TrustVo? then [ToTrustSimpleDto(p)] else [])
  {
    FilterMapStep(s, p, IsDeposit, DepositEntry);
    FilterMapStep(s, p, IsSaving, SavingEntry);
    FilterMapStep(s, p, IsMortgage, MortgageEntry);
    FilterMapStep(s, p, IsFund, FundEntry);
    FilterMapStep(s, p, IsGold, GoldEntry);
    FilterMapStep(s, p, IsTrust, TrustEntry);
  }

  /**
   * One pass of the `instanceof` chain: the product goes to the list of its runtime type, and a
   * product of any other type goes nowhere.
   */
  method Place(lists: ProductLists, p: ProductVo) returns (r: ProductLists)
    ensures r.deposit == lists.deposit + (if IsDeposit(p) then [DepositEntry(p)] else [])
    ensures r.saving == lists.saving + (if IsSaving(p) then [SavingEntry(p)] else [])
    ensures r.mortgage == lists.mortgage + (if IsMortgage(p) then [MortgageEntry(p)] else [])
    ensures r.fund == lists.fund + (if IsFund(p) then [FundEntry(p)] else [])
    ensures r.gold == lists.gold + (if IsGold(p) then [GoldEntry(p)] else [])
    ensures r.trust == lists.trust + (if IsTrust(p) then [TrustEntry(p)] else [])
  {
    r := lists;
    if p.DepositVo? {
      r := r.(deposit := r.deposit + [ToDepositSimpleDto(p)]);
    } else if p.SavingVo? {
      r := r.(saving := r.saving + [ToSavingSimpleDto(p)]);
    } else if p.MortgageVo? {
      r := r.(mortgage := r.mortgage + [ToMortgageSimpleDto(p)]);
    } else if p.FundVo? {
      r := r.(fund := r.fund + [ToFundSimpleDto(p)]);
    } else if p.GoldVo? {
      r := r.(gold := r.gold + [ToGoldSimpleDto(p)]);
    } else if p.TrustVo? {
      r := r.(trust := r.trust + [ToTrustSimpleDto(p)]);
    }
  }

  /** `findAllProducts`: every product of the catalogue, in order, placed by its type. */
  method FindAllProducts(db: Database) returns (r: ProductLists)
    ensures r == Partitioned(db.products)
  {
    var list := db.products;
    r := ProductLists([], [], [], [], [], []);
    var i := 0;
    while i < |list|
      invariant 0 <= i <= |list|
      invariant r == Partitioned(list[..i])
    {
      var p := list[i];
      assert list[..i + 1] == list[..i] + [p];
      PartitionedStep(list[..i], p);
      r := Place(r, p);
      i := i + 1;
    }
    assert list[..|list|] == list;
  }

  /** The number of listed products: every product of the six types is listed once, the rest not at all. */
  function ListedCount(l: ProductLists): nat {
    |l.deposit| + |l.saving| + |l.mortgage| + |l.fund| + |l.gold| + |l.trust|
  }

  lemma PartitionCounts(products: seq<ProductVo>)
    ensures ListedCount(Partitioned(products)) + |Filter(products, IsPlain)| == |products|
  {
    ListedCountIsFilters(products);
    KindCounts(products);
  }

  /** The listed count is the number of products of each of the six types. */
  lemma ListedCountIsFilters(s: seq<ProductVo>)
    ensures ListedCount(Partitioned(s)) == KindCount(s)
  {
    var l := Partitioned(s);
    assert |l.deposit| == |Filter(s, IsDeposit)|;
    assert |l.saving| == |Filter(s, IsSaving)|;
    assert |l.mortgage| == |Filter(s, IsMortgage)|;
    assert |l.fund| == |Filter(s, IsFund)|;
    assert |l.gold| == |Filter(s, IsGold)|;
    assert |l.trust| == |Filter(s, IsTrust)|;
  }

  function KindCount(s: seq<ProductVo>): nat {
    |Filter(s, IsDeposit)| + |Filter(s, IsSaving)| + |Filter(s, IsMortgage)|
      + |Filter(s, IsFund)| + |Filter(s, IsGold)| + |Filter(s, IsTrust)|
  }

  /** Every product is of exactly one of the six types or plain. */
  lemma {:induction false} KindCounts(s: seq<ProductVo>)
    ensures KindCount(s) + |Filter(s, IsPlain)| == |s|
    decreases |s|
  {
    if s != [] {
      var init, p := s[..|s| - 1], s[|s| - 1];
      assert s == init + [p];
      KindCounts(init);
      KindCountStep(init, p);
    }
  }

  lemma KindCountStep(s: seq<ProductVo>, p: ProductVo)
    ensures KindCount(s + [p]) + |Filter(s + [p], IsPlain)| == KindCount(s) + |Filter(s, IsPlain)| + 1
  {
    FilterCountStep(s, p, IsDeposit);
    FilterCountStep(s, p, IsSaving);
    FilterCountStep(s, p, IsMortgage);
    FilterCountStep(s, p, IsFund);
    FilterCountStep(s, p, IsGold);
    FilterCountStep(s, p, IsTrust);
    FilterCountStep(s, p, IsPlain);
  }

  lemma FilterCountStep(s: seq<ProductVo>, p: ProductVo, keep: ProductVo -> bool)
    ensures |Filter(s + [p], keep)| == |Filter(s, keep)| + (if keep(p) then 1 else 0)
  {
    FilterAppend(s, [p], keep);
    FilterOne(p, keep);
  }

  /**
   * Every product of the six types appears in its own list as its list DTO, and the lists hold
   * nothing else.
   */
  lemma PartitionPlacesEach(products: seq<ProductVo>, p: ProductVo)
    requires p in products
    ensures p.DepositVo? ==> ToDepositSimpleDto(p) in Partitioned(products).deposit
    ensures p.SavingVo? ==> ToSavingSimpleDto(p) in Partitioned(products).saving
    ensures p.MortgageVo? ==> ToMortgageSimpleDto(p) in Partitioned(products).mortgage
    ensures p.FundVo? ==> ToFundSimpleDto(p) in Partitioned(products).fund
    ensures p.GoldVo? ==> ToGoldSimpleDto(p) in Partitioned(products).gold
    ensures p.TrustVo? ==> ToTrustSimpleDto(p) in Partitioned(products).trust
    ensures forall d | d in Partitioned(products).deposit :: exists q | q in products && q.DepositVo? :: d == ToDepositSimpleDto(q)
    ensures forall d | d in Partitioned(products).fund :: exists q | q in products && q.FundVo? :: d == ToFundSimpleDto(q)
  {
    FilterMembers(products, IsDeposit);
    FilterMembers(products, IsSaving);
    FilterMembers(products, IsMortgage);
    FilterMembers(products, IsFund);
    FilterMembers(products, IsGold);
    FilterMembers(products, IsTrust);
    ImageOf(Filter(products, IsDeposit), DepositEntry, p);
    ImageOf(Filter(products, IsSaving), SavingEntry, p);
    ImageOf(Filter(products, IsMortgage), MortgageEntry, p);
    ImageOf(Filter(products, IsFund), FundEntry, p);
    ImageOf(Filter(products, IsGold), GoldEntry, p);
    ImageOf(Filter(products, IsTrust), TrustEntry, p);
    forall d | d in Partitioned(products).deposit
      ensures exists q | q in products && q.DepositVo? :: d == ToDepositSimpleDto(q)
    {
      var s := Filter(products, IsDeposit);
      var i :| 0 <= i < |s| && MapAll(s, DepositEntry)[i] == d;
      assert s[i] in s;
    }
    forall d | d in Partitioned(products).fund
      ensures exists q | q in products && q.FundVo? :: d == ToFundSimpleDto(q)
    {
      var s := Filter(products, IsFund);
      var i :| 0 <= i < |s| && MapAll(s, FundEntry)[i] == d;
      assert s[i] in s;
    }
  }

  /** An element of a sequence has its image in the mapped sequence. */
  lemma ImageOf<A, B>(s: seq<A>, f: A -> B, x: A)
    ensures x in s ==> f(x) in MapAll(s, f)
  {
    if x in s {
      var i :| 0 <= i < |s| && s[i] == x;
      assert MapAll(s, f)[i] == f(x);
    }
  }

  // ------------------------------------------------------------------ getProductDetail

  function HasCode(finPrdtCd: string): ProductVo -> bool {
    (p: ProductVo) => p.info.finPrdtCd == Some(finPrdtCd)
  }

  /** `getProductDetail`: the first product with the code, or `NoSuchElementException` when there is none. */
  function GetProductDetail(products: seq<ProductVo>, finPrdtCd: string): (r: Result<ProductVo, Failure>)
    ensures r.Err? <==> forall p | p in products :: p.info.finPrdtCd != Some(finPrdtCd)
    ensures r.Err? ==> r.error == NoSuchElement
    ensures r.Ok? ==> r.value in products && r.value.info.finPrdtCd == Some(finPrdtCd)
  {
    var i := IndexWhere(products, HasCode(finPrdtCd));
    if i.None? then Err(NoSuchElement) else Ok(products[i.value])
  }

  /** With distinct codes, every product is its own code's detail. */
  lemma DetailOfListedProduct(products: seq<ProductVo>, p: ProductVo)
    requires p in products && p.info.finPrdtCd.Some?
    requires forall q | q in products && q.info.finPrdtCd == p.info.finPrdtCd :: q == p
    ensures GetProductDetail(products, p.info.finPrdtCd.value) == Ok(p)
  {
  }
}
