/**
 * `RecipientServiceImpl`: the people a user plans gifts to. A recipient is read, changed and
 * removed only through its id together with its owner's email, and the gift page lists the
 * user's recipients beside the user's assets grouped by category. The class is
 * `@Transactional`; `insertRecipient` gives the row the next auto-increment id.
 */
module RecipientService {
  import opened Wrappers
  import opened Dates
  import opened Sorting
  import opened Tables
  import GiftTax
  import AssetStatusService
  import UserService

  type Recipient = GiftTax.Recipient

  /** `RecipientRequestDto`: the fields a client sends to create or change a recipient. */
  datatype RecipientRequest = RecipientRequest(
    relationship: Option<string>,
    recipientName: Option<string>,
    birthDate: Option<Date>,
    isMarried: Option<bool>,
    hasPriorGift: Option<bool>,
    priorGiftAmount: Option<int>,
    giftTaxPayer: Option<string>)

  /** `requestDto.toVo(email)`, with the id the row is written under. */
  function ToVo(request: RecipientRequest, email: string, recipientId: int): (r: Recipient)
    ensures r.recipientId == recipientId && r.email == Some(email)
  {
    GiftTax.Recipient(recipientId, Some(email), request.relationship, request.recipientName, request.birthDate,
                      request.isMarried, request.hasPriorGift, request.priorGiftAmount, request.giftTaxPayer)
  }

  /** `RecipientResponseDto`: the birth date is text. */
  datatype RecipientResponse = RecipientResponse(
    recipientId: int,
    relationship: Option<string>,
    recipientName: Option<string>,
    birthDate: string,
    isMarried: Option<bool>,
    hasPriorGift: Option<bool>,
    priorGiftAmount: Option<int>,
    giftTaxPayer: Option<string>)

  /** `RecipientResponseDto.from`: the email is dropped and the birth date written `yyyy-MM-dd`, or `""` when absent. */
  function From(vo: Recipient): (r: RecipientResponse)
    ensures r.recipientId == vo.recipientId
    ensures r.birthDate == "" <==> vo.birthDate.None?
    ensures vo.birthDate.Some? ==> r.birthDate == FormatIso(vo.birthDate.value)
  {
    var formattedDate := if vo.birthDate.Some? then FormatIso(vo.birthDate.value) else "";
    assert vo.birthDate.Some? ==> formattedDate[|FormatYear(vo.birthDate.value.year)|] == '-';
    RecipientResponse(vo.recipientId, vo.relationship, vo.recipientName, formattedDate, vo.isMarried,
                      vo.hasPriorGift, vo.priorGiftAmount, vo.giftTaxPayer)
  }

  /** A birth date that is a calendar date of a four-digit year. */
  predicate ShowableBirthDate(d: Option<Date>) {
    d.Some? ==> Valid(d.value) && d.value.year < 10000
  }

  /**
   * What a request writes is what the response shows back: only the email is lost, so two
   * requests with showable birth dates that answer alike under one id are the same request.
   */
  lemma ResponseDeterminesRequest(a: RecipientRequest, b: RecipientRequest, email1: string, email2: string, recipientId: int)
    requires ShowableBirthDate(a.birthDate) && ShowableBirthDate(b.birthDate)
    ensures From(ToVo(a, email1, recipientId)) == From(ToVo(b, email2, recipientId)) <==> a == b
  {
    if From(ToVo(a, email1, recipientId)) == From(ToVo(b, email2, recipientId)) && a.birthDate.Some? && b.birthDate.Some? {
      IsoInjective(a.birthDate.value, b.birthDate.value);
    }
  }

  // ------------------------------------------------------------------ lookups

  function HasId(recipientId: int): Recipient -> bool {
    (c: Recipient) => c.recipientId == recipientId
  }

  function NotId(recipientId: int): Recipient -> bool {
    (c: Recipient) => c.recipientId != recipientId
  }

  /** The condition of `findByIdAndEmail`: the id and the owner both match. */
  function OwnedAs(recipientId: int, email: string): Recipient -> bool {
    (c: Recipient) => c.recipientId == recipientId && c.email == Some(email)
  }

  /** `findById`: the first row with the id, or `null`. */
  function FindById(recipients: seq<Recipient>, recipientId: int): (r: Option<Recipient>)
    ensures r.Some? ==> r.value in recipients && r.value.recipientId == recipientId
    ensures r.None? <==> forall c | c in recipients :: c.recipientId != recipientId
  {
    var i := IndexWhere(recipients, HasId(recipientId));
    if i.None? then None else Some(recipients[i.value])
  }

  /** `findByIdAndEmail`: the first row with the id and the owner, or `null`. */
  function FindByIdAndEmail(recipients: seq<Recipient>, recipientId: int, email: string): (r: Option<Recipient>)
    ensures r.Some? ==> r.value in recipients && r.value.recipientId == recipientId && r.value.email == Some(email)
    ensures r.None? <==> forall c | c in recipients :: !(c.recipientId == recipientId && c.email == Some(email))
  {
    var i := IndexWhere(recipients, OwnedAs(recipientId, email));
    if i.None? then None else Some(recipients[i.value])
  }

  /**
   * `findRecipientByIdAndEmail`: `NoSuchElementException` unless a row has both the id and the
   * owner; otherwise that row as a response.
   */
  function FindRecipientByIdAndEmail(recipients: seq<Recipient>, recipientId: int, email: string)
    : (r: Result<RecipientResponse, Failure>)
    ensures r.Err? <==> forall c | c in recipients :: !(c.recipientId == recipientId && c.email == Some(email))
    ensures r.Err? ==> r.error == NoSuchElement
    ensures r.Ok? ==> exists c | c in recipients && c.recipientId == recipientId && c.email == Some(email) ::
                        r.value == From(c)
  {
    var vo := FindByIdAndEmail(recipients, recipientId, email);
    if vo.None? then Err(NoSuchElement) else Ok(From(vo.value))
  }

  /** The owner of the only row with an id finds it; anyone else is told it does not exist. */
  lemma OnlyOwnerFinds(recipients: seq<Recipient>, c: Recipient, email: string)
    requires c in recipients && forall d | d in recipients && d.recipientId == c.recipientId :: d == c
    ensures c.email == Some(email) ==> FindRecipientByIdAndEmail(recipients, c.recipientId, email) == Ok(From(c))
    ensures c.email != Some(email) ==> FindRecipientByIdAndEmail(recipients, c.recipientId, email) == Err(NoSuchElement)
  {
  }

  /**
   * The re-read after an insert or an update: `IllegalStateException` when no row has the id,
   * otherwise the first such row as a response.
   */
  function ReadBack(recipients: seq<Recipient>, recipientId: int): (r: Result<RecipientResponse, Failure>)
    ensures r.Err? <==> forall c | c in recipients :: c.recipientId != recipientId
    ensures r.Err? ==> r.error == IllegalState
    ensures r.Ok? ==> exists c | c in recipients && c.recipientId == recipientId :: r.value == From(c)
  {
    var vo := FindById(recipients, recipientId);
    if vo.None? then Err(IllegalState) else Ok(From(vo.value))
  }

  /** When every row with an id is one row, the re-read finds exactly that row. */
  lemma ReadBackFinds(recipients: seq<Recipient>, row: Recipient)
    requires row in recipients
    requires forall c | c in recipients && c.recipientId == row.recipientId :: c == row
    ensures ReadBack(recipients, row.recipientId) == Ok(From(row))
  {
  }

  // ------------------------------------------------------------------ create

  /**
   * `createRecipient`: the request is inserted under the caller's email with the next id, read
   * back by that id and returned. The new id is above every id in the table, so the read-back
   * finds the new row and the `IllegalStateException` branch is never taken.
   */
  method CreateRecipient(db: Database, requestDto: RecipientRequest, email: string)
    returns (r: Result<RecipientResponse, Failure>)
    requires db.Valid()
    modifies db`recipients, db`nextRecipientId
    ensures db.Valid()
    ensures db.nextRecipientId == old(db.nextRecipientId) + 1
    ensures db.recipients == old(db.recipients) + [ToVo(requestDto, email, old(db.nextRecipientId))]
    ensures r == ReadBack(db.recipients, old(db.nextRecipientId))
    ensures r == Ok(From(ToVo(requestDto, email, old(db.nextRecipientId))))
  {
    var vo := ToVo(requestDto, email, db.nextRecipientId);
    var before := db.recipients;
    db.recipients, db.nextRecipientId := db.recipients + [vo], db.nextRecipientId + 1;
    assert forall i | 0 <= i < |db.recipients| :: db.recipients[i].recipientId < db.nextRecipientId by {
      assert forall i | 0 <= i < |before| :: db.recipients[i] == before[i];
    }
    forall c | c in before
      ensures c.recipientId != vo.recipientId
    {
      var i :| 0 <= i < |before| && before[i] == c;
    }
    ReadBackFinds(db.recipients, vo);
    r := ReadBack(db.recipients, vo.recipientId);
  }

  // ------------------------------------------------------------------ update

  /** The `UPDATE ... WHERE recipient_id = ?` of `updateRecipient`, row by row. */
  function Overwrite(row: Recipient): Recipient -> Recipient {
    (c: Recipient) => if c.recipientId == row.recipientId then row else c
  }

  /** After the update every row with the id is the written row, and every other row is as it was. */
  lemma OverwriteOnlyThatId(recipients: seq<Recipient>, row: Recipient)
    ensures forall c | c in MapAll(recipients, Overwrite(row)) && c.recipientId == row.recipientId :: c == row
    ensures forall i | 0 <= i < |recipients| && recipients[i].recipientId != row.recipientId ::
              MapAll(recipients, Overwrite(row))[i] == recipients[i]
    ensures forall i | 0 <= i < |recipients| :: MapAll(recipients, Overwrite(row))[i].recipientId == recipients[i].recipientId
  {
    var s := MapAll(recipients, Overwrite(row));
    forall c | c in s && c.recipientId == row.recipientId
      ensures c == row
    {
      var i :| 0 <= i < |s| && s[i] == c;
    }
  }

  /**
   * `updateRecipient`: `NoSuchElementException` and no change unless the caller owns a row
   * with the id; otherwise the row takes the request's fields, keeps its id, gets the caller's
   * email, and is read back.
   */
  method UpdateRecipient(db: Database, recipientId: int, requestDto: RecipientRequest, email: string)
    returns (r: Result<RecipientResponse, Failure>)
    requires db.Valid()
    modifies db`recipients
    ensures db.Valid()
    ensures FindByIdAndEmail(old(db.recipients), recipientId, email).None? ==>
      r == Err(NoSuchElement) && db.recipients == old(db.recipients)
    ensures FindByIdAndEmail(old(db.recipients), recipientId, email).Some? ==> (
      && db.recipients == MapAll(old(db.recipients), Overwrite(ToVo(requestDto, email, recipientId)))
      && r == ReadBack(db.recipients, recipientId)
      && r == Ok(From(ToVo(requestDto, email, recipientId))))
  {
    var found := FindRecipientByIdAndEmail(db.recipients, recipientId, email);
    if found.Err? {
      return Err(found.error);
    }
    var voToUpdate := ToVo(requestDto, email, recipientId);
    var owned := FindByIdAndEmail(db.recipients, recipientId, email).value;
    OverwriteOnlyThatId(db.recipients, voToUpdate);
    var updated := MapAll(db.recipients, Overwrite(voToUpdate));
    var i :| 0 <= i < |db.recipients| && db.recipients[i] == owned;
    assert updated[i] == voToUpdate;
    db.recipients := updated;
    ReadBackFinds(db.recipients, voToUpdate);
    r := ReadBack(db.recipients, recipientId);
  }

  /** After an update the owner finds the written fields under the id. */
  lemma UpdateThenFind(recipients: seq<Recipient>, recipientId: int, requestDto: RecipientRequest, email: string)
    requires FindByIdAndEmail(recipients, recipientId, email).Some?
    ensures FindRecipientByIdAndEmail(MapAll(recipients, Overwrite(ToVo(requestDto, email, recipientId))), recipientId, email)
            == Ok(From(ToVo(requestDto, email, recipientId)))
  {
    var row := ToVo(requestDto, email, recipientId);
    OverwriteOnlyThatId(recipients, row);
    var s := MapAll(recipients, Overwrite(row));
    var i :| 0 <= i < |recipients| && recipients[i] == FindByIdAndEmail(recipients, recipientId, email).value;
    assert s[i] == row;
    OnlyOwnerFinds(s, row, email);
  }

  // ------------------------------------------------------------------ delete

  /**
   * `deleteRecipient`: `NoSuchElementException` and no change unless the caller owns a row with
   * the id; otherwise every row with the id is deleted and the answer is whether any row was.
   * Past the ownership check a row is always deleted, so the answer is always `true`.
   */
  method DeleteRecipient(db: Database, recipientId: int, email: string) returns (r: Result<bool, Failure>)
    requires db.Valid()
    modifies db`recipients
    ensures db.Valid()
    ensures FindByIdAndEmail(old(db.recipients), recipientId, email).None? ==>
      r == Err(NoSuchElement) && db.recipients == old(db.recipients)
    ensures FindByIdAndEmail(old(db.recipients), recipientId, email).Some? ==> (
      && db.recipients == Filter(old(db.recipients), NotId(recipientId))
      && r == Ok(|db.recipients| < |old(db.recipients)|)
      && r == Ok(true))
  {
    var found := FindRecipientByIdAndEmail(db.recipients, recipientId, email);
    if found.Err? {
      return Err(found.error);
    }
    var owned := FindByIdAndEmail(db.recipients, recipientId, email).value;
    FilterDrops(db.recipients, NotId(recipientId), owned);
    var kept := Filter(db.recipients, NotId(recipientId));
    UserService.KeptRecipientIdsBelow(db.recipients, NotId(recipientId), db.nextRecipientId);
    var affectedRows := |db.recipients| - |kept|;
    db.recipients := kept;
    r := Ok(affectedRows > 0);
  }

  /** After a delete no one finds the id any more, and every row with another id is still there. */
  lemma DeleteThenNotFound(recipients: seq<Recipient>, recipientId: int, email: string)
    ensures FindRecipientByIdAndEmail(Filter(recipients, NotId(recipientId)), recipientId, email) == Err(NoSuchElement)
    ensures forall c | c in recipients && c.recipientId != recipientId :: c in Filter(recipients, NotId(recipientId))
  {
    FilterMembers(recipients, NotId(recipientId));
  }

  // ------------------------------------------------------------------ gift page

  /** `GiftAssetDto`. */
  datatype GiftAsset = GiftAsset(assetId: int, assetName: Option<string>, amount: Option<int>)

  /** `GiftAssetDto.of`. */
  function GiftAssetOf(a: AssetStatusVo): GiftAsset {
    GiftAsset(a.assetId, a.assetName, a.amount)
  }

  /** `GiftAssetCategoryDto`. */
  datatype GiftAssetCategory = GiftAssetCategory(assetCategoryCode: string, totalAmount: int, assets: seq<GiftAsset>)

  /**
   * `GiftPageResponseDto`. The categories are a map from the category code: the source collects
   * them from a `HashMap`, whose order is not part of the model.
   */
  datatype GiftPage = GiftPage(recipients: seq<RecipientResponse>, assetCategories: map<string, GiftAssetCategory>)

  /** The condition of `findByEmail`. */
  function RecipientOf(email: string): Recipient -> bool {
    (c: Recipient) => c.email == Some(email)
  }

  /** The grouping key; the page is built only when every row has a code. */
  function CategoryKey(a: AssetStatusVo): string {
    a.assetCategoryCode.GetOr("")
  }

  function InCategory(code: string): AssetStatusVo -> bool {
    (a: AssetStatusVo) => a.assetCategoryCode == Some(code)
  }

  /**
   * `groupingBy` throws `NullPointerException` for a row without a category code, and the
   * `mapToLong` sum for a row without an amount.
   */
  predicate Groupable(rows: seq<AssetStatusVo>) {
    forall i | 0 <= i < |rows| :: rows[i].assetCategoryCode.Some? && rows[i].amount.Some?
  }

  /** `mapToLong(getAmount).sum()`. */
  function SumAmounts(assets: seq<GiftAsset>): int
    decreases |assets|
  {
    if assets == [] then 0 else SumAmounts(assets[..|assets| - 1]) + assets[|assets| - 1].amount.GetOr(0)
  }

  /** The groups of `groupingBy(getAssetCategoryCode)`, each already mapped with `GiftAssetDto.of`. */
  function Grouped(rows: seq<AssetStatusVo>): map<string, seq<GiftAsset>> {
    GroupBy(rows, CategoryKey, GiftAssetOf)
  }

  /** One `GiftAssetCategoryDto` per group, with the group's total. */
  function Categories(groups: map<string, seq<GiftAsset>>): (r: map<string, GiftAssetCategory>)
    ensures forall k :: k in r <==> k in groups
    ensures forall k | k in r :: r[k] == GiftAssetCategory(k, SumAmounts(groups[k]), groups[k])
  {
    map k | k in groups :: GiftAssetCategory(k, SumAmounts(groups[k]), groups[k])
  }

  /**
   * `getGiftPageData`: the email's recipients as responses, and the email's assets grouped by
   * category code with each group's total; a row without a code or an amount throws
   * `NullPointerException`.
   */
  function GiftPageData(recipients: seq<Recipient>, assets: seq<AssetStatusVo>, email: string)
    : (r: Result<GiftPage, Failure>)
    ensures r.Err? <==> !Groupable(AssetStatusService.AssetsOf(assets, email))
    ensures r.Err? ==> r.error == NullPointer
    ensures r.Ok? ==> forall k | k in r.value.assetCategories :: r.value.assetCategories[k].assetCategoryCode == k
  {
    var recipientDtoList := MapAll(Filter(recipients, RecipientOf(email)), From);
    var allAssets := AssetStatusService.AssetsOf(assets, email);
    if !Groupable(allAssets) then Err(NullPointer)
    else Ok(GiftPage(recipientDtoList, Categories(Grouped(allAssets))))
  }

  /** The dto sum of a group is the sum of its rows' amounts. */
  lemma {:induction false} SumAmountsOfRows(rows: seq<AssetStatusVo>)
    ensures SumAmounts(MapAll(rows, GiftAssetOf)) == AssetStatusService.TotalAmount(rows)
    decreases |rows|
  {
    if rows != [] {
      var init := rows[..|rows| - 1];
      SumAmountsOfRows(init);
      assert MapAll(rows, GiftAssetOf)[..|rows| - 1] == MapAll(init, GiftAssetOf);
    }
  }

  /**
   * When every row has a code, the groups are keyed by exactly the codes of the rows, and
   * each group holds the rows of its code, in order.
   */
  lemma GroupedByCode(rows: seq<AssetStatusVo>)
    requires Groupable(rows)
    ensures forall k :: k in Grouped(rows) <==> exists i | 0 <= i < |rows| :: rows[i].assetCategoryCode == Some(k)
    ensures forall k | k in Grouped(rows) :: Grouped(rows)[k] == MapAll(Filter(rows, InCategory(k)), GiftAssetOf)
  {
    GroupByKeys(rows, CategoryKey, GiftAssetOf);
    GroupByGroups(rows, CategoryKey, GiftAssetOf);
    forall k
      ensures k in Grouped(rows) <==> exists i | 0 <= i < |rows| :: rows[i].assetCategoryCode == Some(k)
    {
      if k in Grouped(rows) {
        var i :| 0 <= i < |rows| && CategoryKey(rows[i]) == k;
        assert rows[i].assetCategoryCode == Some(k);
      }
      if exists i | 0 <= i < |rows| :: rows[i].assetCategoryCode == Some(k) {
        var i :| 0 <= i < |rows| && rows[i].assetCategoryCode == Some(k);
        assert CategoryKey(rows[i]) == k;
      }
    }
    forall k | k in Grouped(rows)
      ensures Grouped(rows)[k] == MapAll(Filter(rows, InCategory(k)), GiftAssetOf)
    {
      forall a | a in rows
        ensures KeyIs(CategoryKey, k)(a) == InCategory(k)(a)
      {
        var i :| 0 <= i < |rows| && rows[i] == a;
      }
      FilterSame(rows, KeyIs(CategoryKey, k), InCategory(k));
    }
  }

  /**
   * The page's categories are exactly the codes of the user's assets; each category lists the
   * user's assets of that code, in table order, and its total is the sum of their amounts.
   */
  lemma GiftPageGroups(recipients: seq<Recipient>, assets: seq<AssetStatusVo>, email: string)
    requires GiftPageData(recipients, assets, email).Ok?
    ensures var rows, cats := AssetStatusService.AssetsOf(assets, email), GiftPageData(recipients, assets, email).value.assetCategories;
      && (forall k :: k in cats <==> exists i | 0 <= i < |rows| :: rows[i].assetCategoryCode == Some(k))
      && (forall k | k in cats :: cats[k].assets == MapAll(Filter(rows, InCategory(k)), GiftAssetOf))
      && (forall k | k in cats :: cats[k].totalAmount == AssetStatusService.TotalAmount(Filter(rows, InCategory(k))))
  {
    var rows := AssetStatusService.AssetsOf(assets, email);
    var cats := GiftPageData(recipients, assets, email).value.assetCategories;
    assert cats == Categories(Grouped(rows));
    GroupedByCode(rows);
    forall k | k in cats
      ensures cats[k].totalAmount == AssetStatusService.TotalAmount(Filter(rows, InCategory(k)))
    {
      SumAmountsOfRows(Filter(rows, InCategory(k)));
    }
  }

  /**
   * Of the rows of one code, each appears in the group of its code and in no other group, when
   * their ids are distinct.
   */
  lemma RowInOneGroup(rows: seq<AssetStatusVo>, a: AssetStatusVo)
    requires Groupable(rows) && UniqueAssetIds(rows) && a in rows
    ensures a.assetCategoryCode.Some? && a.assetCategoryCode.value in Grouped(rows)
    ensures GiftAssetOf(a) in Grouped(rows)[a.assetCategoryCode.value]
    ensures forall k | k in Grouped(rows) && k != a.assetCategoryCode.value :: GiftAssetOf(a) !in Grouped(rows)[k]
  {
    RowInOwnGroup(rows, a);
    var code := a.assetCategoryCode.value;
    forall k | k in Grouped(rows) && k != code
      ensures GiftAssetOf(a) !in Grouped(rows)[k]
    {
      RowNotInOtherGroup(rows, a, k);
    }
  }

  /** A row is in the group of its own code. */
  lemma RowInOwnGroup(rows: seq<AssetStatusVo>, a: AssetStatusVo)
    requires Groupable(rows) && a in rows
    ensures a.assetCategoryCode.Some? && a.assetCategoryCode.value in Grouped(rows)
    ensures GiftAssetOf(a) in Grouped(rows)[a.assetCategoryCode.value]
  {
    var i :| 0 <= i < |rows| && rows[i] == a;
    assert rows[i].assetCategoryCode.Some?;
    assert CategoryKey(a) == a.assetCategoryCode.value;
    GroupHas(rows, CategoryKey, GiftAssetOf, i);
  }

  /** A row is not in the group of a code other than its own, when the ids are distinct. */
  lemma RowNotInOtherGroup(rows: seq<AssetStatusVo>, a: AssetStatusVo, k: string)
    requires Groupable(rows) && UniqueAssetIds(rows) && a in rows
    requires k in Grouped(rows) && a.assetCategoryCode != Some(k)
    ensures GiftAssetOf(a) !in Grouped(rows)[k]
  {
    GroupedByCode(rows);
    var other := Filter(rows, InCategory(k));
    var group := MapAll(other, GiftAssetOf);
    assert Grouped(rows)[k] == group;
    FilterMembers(rows, InCategory(k));
    forall m | 0 <= m < |group|
      ensures group[m] != GiftAssetOf(a)
    {
      var b := other[m];
      assert b in other;
      if b.assetId == a.assetId {
        AssetStatusService.SameIdSameRow(rows, a, b);
        assert false;
      }
    }
  }

  /**
   * Each asset of the user is shown in the category of its code and in no other, when asset
   * ids are distinct as the table's key keeps them.
   */
  lemma GiftPageEachAssetOnce(recipients: seq<Recipient>, assets: seq<AssetStatusVo>, email: string, a: AssetStatusVo)
    requires GiftPageData(recipients, assets, email).Ok?
    requires UniqueAssetIds(assets)
    requires a in assets && a.email == email
    ensures var cats := GiftPageData(recipients, assets, email).value.assetCategories;
      && a.assetCategoryCode.Some? && a.assetCategoryCode.value in cats
      && GiftAssetOf(a) in cats[a.assetCategoryCode.value].assets
      && forall k | k in cats && k != a.assetCategoryCode.value :: GiftAssetOf(a) !in cats[k].assets
  {
    var rows := AssetStatusService.AssetsOf(assets, email);
    FilterMembers(assets, AssetStatusService.OwnedBy(email));
    UserService.KeptIdsDistinct(assets, AssetStatusService.OwnedBy(email));
    assert GiftPageData(recipients, assets, email).value.assetCategories == Categories(Grouped(rows));
    RowInOneGroup(rows, a);
  }

  /** The page lists every recipient of the email, in table order, and no one else's. */
  lemma GiftPageRecipients(recipients: seq<Recipient>, assets: seq<AssetStatusVo>, email: string)
    requires GiftPageData(recipients, assets, email).Ok?
    ensures var listed := GiftPageData(recipients, assets, email).value.recipients;
      && |listed| == |Filter(recipients, RecipientOf(email))|
      && (forall i | 0 <= i < |listed| :: listed[i] == From(Filter(recipients, RecipientOf(email))[i]))
      && (forall c | c in recipients && c.email == Some(email) :: From(c) in listed)
      && (forall x | x in listed :: exists c | c in recipients && c.email == Some(email) :: x == From(c))
  {
    var mine := Filter(recipients, RecipientOf(email));
    assert GiftPageData(recipients, assets, email).value.recipients == MapAll(mine, From);
    FilterMapMembers(recipients, RecipientOf(email), From);
  }
}
