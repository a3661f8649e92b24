/**
 * `AssetStatusServiceImpl`: a user's asset rows, and the summary written back to the user
 * after every change — the total of the amounts and the weighted proportion — followed by a
 * refresh of the user's recommendations.
 *
 * The class is `@Transactional`, so each public method is atomic: when it throws, the asset,
 * user and recommendation tables are as they were. The asset table's auto-increment counter is
 * not part of the rollback and stays advanced after a failed insert.
 */
module AssetStatusService {
  import opened Wrappers
  import opened Sorting
  import opened Tables
  import opened UserDtos
  import opened Products
  import UserService
  import CustomRecommendService

  // ----- the weight table -----

  /**
   * `assetWeights.getOrDefault(code, 0.0)` as written: `assetWeights` is a `Map.of` map, and
   * such a map throws `NullPointerException` when asked for a `null` key instead of returning
   * the default.
   */
  function WeightLookupAsWritten(code: Option<string>): (r: Result<real, Failure>)
    ensures r.Err? <==> code.None?
    ensures r.Err? ==> r.error == NullPointer
    ensures code.Some? ==> r == Ok(AssetWeight(code))
  {
    if code.None? then Err(NullPointer) else Ok(AssetWeight(code))
  }

  /** A row with no category code makes the summary throw, whatever its amount. */
  lemma NullCategoryCodeThrows(row: AssetStatusVo)
    requires row.assetCategoryCode.None?
    ensures WeightLookupAsWritten(row.assetCategoryCode) == Err(NullPointer)
    ensures AssetWeight(row.assetCategoryCode) == 0.0
  {
  }

  /**
   * The weight of a category: 1 real estate 0.4, 2 deposits 1.0, 3 cash 0.7, 4 stocks and funds
   * -1.0, 5 businesses -0.8, 6 other 0.0; any other code, and a missing one, weighs 0.
   */
  function AssetWeight(code: Option<string>): (w: real)
    ensures -1.0 <= w <= 1.0
    ensures w != 0.0 ==> code.Some? && code.value in {"1", "2", "3", "4", "5"}
  {
    match code
    case Some("1") => 0.4
    case Some("2") => 1.0
    case Some("3") => 0.7
    case Some("4") => -1.0
    case Some("5") => -0.8
    case _ => 0.0
  }

  // ----- the summary as a function of the user's rows -----

  function OwnedBy(email: string): AssetStatusVo -> bool {
    (a: AssetStatusVo) => a.email == email
  }

  /** `findAssetStatusByEmail`. */
  function AssetsOf(assets: seq<AssetStatusVo>, email: string): seq<AssetStatusVo> {
    Filter(assets, OwnedBy(email))
  }

  predicate AmountsPresent(rows: seq<AssetStatusVo>) {
    forall i | 0 <= i < |rows| :: rows[i].amount.Some?
  }

  predicate CodesPresent(rows: seq<AssetStatusVo>) {
    forall i | 0 <= i < |rows| :: rows[i].assetCategoryCode.Some?
  }

  /** A row the summary loop gets through: it has an amount and a category code. */
  predicate RowComplete(row: AssetStatusVo) {
    row.amount.Some? && row.assetCategoryCode.Some?
  }

  predicate RowsComplete(rows: seq<AssetStatusVo>) {
    forall i | 0 <= i < |rows| :: RowComplete(rows[i])
  }

  /**
   * What one turn of the summary loop throws on `row`: a `null` amount is checked first, then
   * the weight look-up of the category code.
   */
  function RowFailure(row: AssetStatusVo): (r: Option<Failure>)
    ensures r.None? <==> RowComplete(row)
    ensures row.amount.None? ==> r == Some(IllegalArgument)
    ensures row.amount.Some? && row.assetCategoryCode.None? ==> r == Some(NullPointer)
  {
    if row.amount.None? then Some(IllegalArgument)
    else
      var weight := WeightLookupAsWritten(row.assetCategoryCode);
      if weight.Err? then Some(weight.error) else None
  }

  /** The exception of the first row the loop cannot get through, if any. */
  function FirstFailure(rows: seq<AssetStatusVo>): (r: Option<Failure>)
    ensures r.None? <==> RowsComplete(rows)
    ensures r.Some? && CodesPresent(rows) ==> r == Some(IllegalArgument)
    ensures r.Some? && AmountsPresent(rows) ==> r == Some(NullPointer)
    decreases |rows|
  {
    if rows == [] then None
    else
      var init := rows[..|rows| - 1];
      assert forall i | 0 <= i < |init| :: init[i] == rows[i];
      if FirstFailure(init).Some? then FirstFailure(init) else RowFailure(rows[|rows| - 1])
  }

  /** The loop stops at the first row it cannot get through, and that row's exception is the one thrown. */
  lemma {:induction false} FirstFailureAt(rows: seq<AssetStatusVo>, i: nat)
    requires i < |rows| && RowsComplete(rows[..i]) && !RowComplete(rows[i])
    ensures FirstFailure(rows) == RowFailure(rows[i])
    decreases |rows|
  {
    var init := rows[..|rows| - 1];
    if i == |rows| - 1 {
      assert init == rows[..i];
    } else {
      assert init[..i] == rows[..i];
      assert init[i] == rows[i];
      FirstFailureAt(init, i);
    }
  }

  /** The sum of the amounts. */
  function TotalAmount(rows: seq<AssetStatusVo>): int
    decreases |rows|
  {
    if rows == [] then 0
    else TotalAmount(rows[..|rows| - 1]) + rows[|rows| - 1].amount.GetOr(0)
  }

  /** The sum of the amounts, each times the weight of its category. */
  function WeightedSum(rows: seq<AssetStatusVo>): real
    decreases |rows|
  {
    if rows == [] then 0.0
    else
      var last := rows[|rows| - 1];
      WeightedSum(rows[..|rows| - 1]) + last.amount.GetOr(0) as real * AssetWeight(last.assetCategoryCode)
  }

  datatype AssetSummary = AssetSummary(total: int, proportion: real)

  /**
   * Steps 1 and 2 of `updateUserAssetSummary`: a row with a `null` amount throws
   * `IllegalArgumentException`, one with a `null` category code `NullPointerException` from the
   * weight look-up, whichever comes first; an empty total has proportion 0.
   */
  function Summarize(rows: seq<AssetStatusVo>): (r: Result<AssetSummary, Failure>)
    ensures r.Err? <==> !RowsComplete(rows)
    ensures r.Err? && CodesPresent(rows) ==> r.error == IllegalArgument
    ensures r.Err? && AmountsPresent(rows) ==> r.error == NullPointer
    ensures r.Ok? ==> r.value.total == TotalAmount(rows)
    ensures r.Ok? && r.value.total == 0 ==> r.value.proportion == 0.0
  {
    var failure := FirstFailure(rows);
    if failure.Some? then Err(failure.value)
    else
      var total := TotalAmount(rows);
      Ok(AssetSummary(total, if total == 0 then 0.0 else WeightedSum(rows) / total as real))
  }

  /** The first row the loop cannot get through decides the exception. */
  lemma SummarizeFailsAtFirst(rows: seq<AssetStatusVo>, i: nat)
    requires i < |rows| && RowsComplete(rows[..i]) && !RowComplete(rows[i])
    ensures Summarize(rows) == Err(RowFailure(rows[i]).value)
  {
    FirstFailureAt(rows, i);
  }

  /** Step 2: a non-zero total is split in the proportion of the weighted sum. */
  lemma SummarizeProportion(rows: seq<AssetStatusVo>)
    requires Summarize(rows).Ok? && Summarize(rows).value.total != 0
    ensures Summarize(rows).value.proportion * Summarize(rows).value.total as real == WeightedSum(rows)
  {
    var t := TotalAmount(rows) as real;
    assert WeightedSum(rows) / t * t == WeightedSum(rows);
  }

  predicate NonNegativeAmounts(rows: seq<AssetStatusVo>) {
    forall i | 0 <= i < |rows| :: rows[i].amount.GetOr(0) >= 0
  }

  /** With no negative amounts the weighted sum lies between minus the total and the total. */
  lemma {:induction false} WeightedSumWithinTotal(rows: seq<AssetStatusVo>)
    requires NonNegativeAmounts(rows)
    ensures -(TotalAmount(rows) as real) <= WeightedSum(rows) <= TotalAmount(rows) as real
    ensures TotalAmount(rows) >= 0
    decreases |rows|
  {
    if rows != [] {
      var init := rows[..|rows| - 1];
      assert NonNegativeAmounts(init) by {
        forall i | 0 <= i < |init| ensures init[i].amount.GetOr(0) >= 0 {
          assert init[i] == rows[i];
        }
      }
      WeightedSumWithinTotal(init);
      var last := rows[|rows| - 1];
      var a := last.amount.GetOr(0) as real;
      var w := AssetWeight(last.assetCategoryCode);
      assert a >= 0.0;
      assert -a <= a * w <= a by {
        RealScale(a, w);
      }
    }
  }

  lemma RealScale(a: real, w: real)
    requires a >= 0.0 && -1.0 <= w <= 1.0
    ensures -a <= a * w <= a
  {
    assert a * w - a == a * (w - 1.0);
    assert a * w + a == a * (w + 1.0);
  }

  lemma RatioBounded(p: real, t: real, w: real)
    requires t > 0.0 && p * t == w && -t <= w <= t
    ensures -1.0 <= p <= 1.0
  {
    if p > 1.0 {
      ProductPositive(p - 1.0, t);
    } else if p < -1.0 {
      ProductPositive(-1.0 - p, t);
    }
  }

  lemma ProductPositive(x: real, y: real)
    requires x > 0.0 && y > 0.0
    ensures x * y > 0.0
  {
  }

  /** With no negative amounts the proportion is a ratio in [-1, 1]. */
  lemma ProportionBounded(rows: seq<AssetStatusVo>)
    requires NonNegativeAmounts(rows) && Summarize(rows).Ok?
    ensures -1.0 <= Summarize(rows).value.proportion <= 1.0
  {
    WeightedSumWithinTotal(rows);
    var s := Summarize(rows).value;
    if s.total != 0 {
      var t := s.total as real;
      var p := s.proportion;
      assert t == TotalAmount(rows) as real;
      SummarizeProportion(rows);
      assert t > 0.0;
      RatioBounded(p, t, WeightedSum(rows));
    }
  }

  /** Inserting a row for the user adds its amount to the user's total and leaves the other users' rows. */
  lemma InsertAddsToTotal(assets: seq<AssetStatusVo>, row: AssetStatusVo, other: string)
    requires other != row.email
    ensures AssetsOf(assets + [row], row.email) == AssetsOf(assets, row.email) + [row]
    ensures TotalAmount(AssetsOf(assets + [row], row.email))
         == TotalAmount(AssetsOf(assets, row.email)) + row.amount.GetOr(0)
    ensures AssetsOf(assets + [row], other) == AssetsOf(assets, other)
  {
    assert (assets + [row])[..|assets|] == assets;
    assert (AssetsOf(assets, row.email) + [row])[..|AssetsOf(assets, row.email)|] == AssetsOf(assets, row.email);
  }

  /** The id is a key: two stored rows with one id are one row. */
  lemma SameIdSameRow(assets: seq<AssetStatusVo>, a: AssetStatusVo, b: AssetStatusVo)
    requires UniqueAssetIds(assets) && a in assets && b in assets && a.assetId == b.assetId
    ensures a == b
  {
    var i :| 0 <= i < |assets| && assets[i] == a;
    var j :| 0 <= j < |assets| && assets[j] == b;
  }

  /** A table made of stored rows and complete rows keeps the user's rows complete. */
  lemma CompleteCarriesOver(s: seq<AssetStatusVo>, t: seq<AssetStatusVo>, email: string)
    requires RowsComplete(AssetsOf(s, email))
    requires forall x | x in t :: x in s || RowComplete(x)
    ensures RowsComplete(AssetsOf(t, email))
  {
    FilterMembers(s, OwnedBy(email));
    FilterMembers(t, OwnedBy(email));
    var mine := AssetsOf(t, email);
    forall i | 0 <= i < |mine| ensures RowComplete(mine[i]) {
      assert mine[i] in mine;
      if mine[i] in s {
        assert mine[i] in AssetsOf(s, email);
        var j :| 0 <= j < |AssetsOf(s, email)| && AssetsOf(s, email)[j] == mine[i];
      }
    }
  }

  /** An incomplete row of the user, kept in the table, keeps the summary failing. */
  lemma IncompletePersists(s: seq<AssetStatusVo>, t: seq<AssetStatusVo>, email: string)
    requires !RowsComplete(AssetsOf(s, email))
    requires forall x | x in s :: x in t
    ensures !RowsComplete(AssetsOf(t, email))
  {
    FilterMembers(s, OwnedBy(email));
    FilterMembers(t, OwnedBy(email));
    var i :| 0 <= i < |AssetsOf(s, email)| && !RowComplete(AssetsOf(s, email)[i]);
    var x := AssetsOf(s, email)[i];
    assert x in AssetsOf(s, email);
    assert x in AssetsOf(t, email);
    var j :| 0 <= j < |AssetsOf(t, email)| && AssetsOf(t, email)[j] == x;
  }

  /**
   * Step 1's loop: the total and weighted sum accumulated row by row, stopping at a `null`
   * amount or at the weight look-up of a `null` category code.
   */
  method ComputeSummary(assets: seq<AssetStatusVo>) returns (r: Result<AssetSummary, Failure>)
    ensures r == Summarize(assets)
  {
    var totalAmount := 0;
    var weightedSum := 0.0;
    for i := 0 to |assets|
      invariant RowsComplete(assets[..i])
      invariant totalAmount == TotalAmount(assets[..i])
      invariant weightedSum == WeightedSum(assets[..i])
    {
      assert assets[..i + 1][..i] == assets[..i];
      var vo := assets[i];
      if vo.amount.None? {
        SummarizeFailsAtFirst(assets, i);
        return Err(IllegalArgument);
      }
      var amount := vo.amount.value;
      var weight := WeightLookupAsWritten(vo.assetCategoryCode);
      if weight.Err? {
        SummarizeFailsAtFirst(assets, i);
        return Err(weight.error);
      }
      totalAmount := totalAmount + amount;
      weightedSum := weightedSum + amount as real * weight.value;
    }
    assert assets[..|assets|] == assets;
    var assetProportionRate := if totalAmount == 0 then 0.0 else weightedSum / totalAmount as real;
    r := Ok(AssetSummary(totalAmount, assetProportionRate));
  }

  // ----- updateUserAssetSummary -----

  /** The user as step 3 writes it back. */
  function Summarized(u: UserVo, s: AssetSummary): (r: UserVo)
    ensures r.asset == Some(s.total) && r.assetProportion == Some(s.proportion)
    ensures r.(asset := u.asset, assetProportion := u.assetProportion) == u
  {
    u.(asset := Some(s.total), assetProportion := Some(s.proportion))
  }

  /**
   * Whether the summary of `email` over `assets` can be written: an incomplete row, then a
   * missing user, fail.
   */
  function SummaryOutcome(assets: seq<AssetStatusVo>, users: map<string, UserVo>, email: string)
    : (r: Result<AssetSummary, Failure>)
    ensures r.Err? <==> !RowsComplete(AssetsOf(assets, email)) || email !in users
    ensures !RowsComplete(AssetsOf(assets, email)) ==> r == Summarize(AssetsOf(assets, email))
    ensures RowsComplete(AssetsOf(assets, email)) && email !in users ==> r == Err(NoSuchElement)
    ensures r.Ok? ==> r == Summarize(AssetsOf(assets, email))
  {
    var s := Summarize(AssetsOf(assets, email));
    if s.Err? then Err(s.error) else if email !in users then Err(NoSuchElement) else s
  }

  /**
   * The user and recommendation tables are what a successful `updateUserAssetSummary` over
   * `assets` makes of `users0` and `recommends0`.
   */
  predicate InSync(users: map<string, UserVo>, recommends: seq<CustomRecommendVo>, users0: map<string, UserVo>,
                   recommends0: seq<CustomRecommendVo>, assets: seq<AssetStatusVo>, products: seq<ProductVo>,
                   email: string, similarity: (real, real, real, real) -> real, scoreText: real -> string) {
    var outcome := SummaryOutcome(assets, users0, email);
    outcome.Ok?
    && users == users0[email := Summarized(users0[email], outcome.value)]
    && recommends == CustomRecommendService.RefreshedRecommendations(recommends0, products, users[email],
                                                                     similarity, scoreText)
  }

  /** A summary over the latest table overrides the ones before: only the last one shows. */
  lemma InSyncChains(users0: map<string, UserVo>, recommends0: seq<CustomRecommendVo>,
                     users1: map<string, UserVo>, recommends1: seq<CustomRecommendVo>, assets1: seq<AssetStatusVo>,
                     users2: map<string, UserVo>, recommends2: seq<CustomRecommendVo>, assets2: seq<AssetStatusVo>,
                     products: seq<ProductVo>, email: string,
                     similarity: (real, real, real, real) -> real, scoreText: real -> string)
    requires InSync(users1, recommends1, users0, recommends0, assets1, products, email, similarity, scoreText)
    requires InSync(users2, recommends2, users1, recommends1, assets2, products, email, similarity, scoreText)
    ensures InSync(users2, recommends2, users0, recommends0, assets2, products, email, similarity, scoreText)
  {
    assert SummaryOutcome(assets2, users1, email) == SummaryOutcome(assets2, users0, email);
    CustomRecommendService.RefreshTwice(recommends0, products, users1[email], users2[email], similarity, scoreText);
  }

  /**
   * `updateUserAssetSummary`: the total and proportion of the user's rows are stored on the
   * user, then the user's recommendations are rebuilt from the updated user. Nothing is written
   * before both checks pass.
   */
  method UpdateUserAssetSummary(db: Database, userEmail: string, similarity: (real, real, real, real) -> real,
                                scoreText: real -> string) returns (r: Result<(), Failure>)
    requires db.Valid()
    modifies db`users, db`recommends
    ensures db.Valid()
    ensures r.Ok? <==> SummaryOutcome(db.assets, old(db.users), userEmail).Ok?
    ensures r.Err? ==> (r.error == SummaryOutcome(db.assets, old(db.users), userEmail).error
      && db.users == old(db.users) && db.recommends == old(db.recommends))
    ensures r.Ok? ==> InSync(db.users, db.recommends, old(db.users), old(db.recommends), db.assets, db.products,
                             userEmail, similarity, scoreText)
  {
    var assets := AssetsOf(db.assets, userEmail);
    var summary := ComputeSummary(assets);
    if summary.Err? {
      return Err(summary.error);
    }
    var found := UserService.GetUser(db.users, userEmail);
    if found.Err? {
      return Err(found.error);
    }
    var userDto := found.value;
    userDto := userDto.(asset := Some(summary.value.total), assetProportion := Some(summary.value.proportion));
    UserService.WriteBackOwnDto(db.users[userEmail], userDto.asset, None, userDto.assetProportion);
    var updated := UserService.UpdateUser(db, userEmail, userDto);
    r := CustomRecommendService.AddCustomRecommend(db, userEmail, similarity, scoreText);
  }

  // ----- the public, transactional operations -----

  /** `AssetStatusRequestDto`. */
  datatype AssetRequest = AssetRequest(
    assetCategoryCode: Option<string>,
    amount: Option<int>,
    assetName: Option<string>,
    businessType: Option<string>)

  /** `requestDto.toVo()` with the id and the email set. */
  function RowOf(assetId: int, email: string, request: AssetRequest): (r: AssetStatusVo)
    ensures r.assetId == assetId && r.email == email
    ensures r.amount == request.amount && r.assetCategoryCode == request.assetCategoryCode
  {
    AssetStatusVo(assetId, email, request.assetCategoryCode, request.amount, request.assetName, request.businessType)
  }

  /**
   * `addAssetStatus`: the row is inserted under the caller's email with the next generated id,
   * the summary is recomputed over the table with the new row, and the id is returned.
   */
  method AddAssetStatus(db: Database, email: string, requestDto: AssetRequest,
                        similarity: (real, real, real, real) -> real, scoreText: real -> string)
    returns (r: Result<int, Failure>)
    requires db.Valid()
    modifies db`assets, db`nextAssetId, db`users, db`recommends
    ensures db.Valid()
    ensures db.nextAssetId == old(db.nextAssetId) + 1
    ensures r.Ok? <==>
      SummaryOutcome(old(db.assets) + [RowOf(old(db.nextAssetId), email, requestDto)], old(db.users), email).Ok?
    ensures r.Err? ==> (
      r.error == SummaryOutcome(old(db.assets) + [RowOf(old(db.nextAssetId), email, requestDto)], old(db.users), email).error
      && db.assets == old(db.assets) && db.users == old(db.users) && db.recommends == old(db.recommends))
    ensures r.Ok? ==> (r.value == old(db.nextAssetId)
      && db.assets == old(db.assets) + [RowOf(old(db.nextAssetId), email, requestDto)]
      && InSync(db.users, db.recommends, old(db.users), old(db.recommends), db.assets, db.products,
                email, similarity, scoreText))
  {
    var before := db.assets;
    var assetStatusVo := RowOf(db.nextAssetId, email, requestDto);
    InsertKeepsIdsValid(db.assets, assetStatusVo, db.nextAssetId);
    db.assets, db.nextAssetId := db.assets + [assetStatusVo], db.nextAssetId + 1;
    var summary := UpdateUserAssetSummary(db, email, similarity, scoreText);
    if summary.Err? {
      db.assets := before;
      return Err(summary.error);
    }
    r := Ok(assetStatusVo.assetId);
  }

  /** A row with an id at the counter keeps the ids distinct and, with the counter advanced, below it. */
  lemma InsertKeepsIdsValid(assets: seq<AssetStatusVo>, row: AssetStatusVo, next: int)
    requires forall i | 0 <= i < |assets| :: assets[i].assetId < next
    requires UniqueAssetIds(assets) && row.assetId == next
    ensures forall i | 0 <= i < |assets + [row]| :: (assets + [row])[i].assetId < next + 1
    ensures UniqueAssetIds(assets + [row])
  {
  }

  /** Whether a row is the one `updateAssetStatus` and `deleteAssetStatus` address: its id and its owner. */
  function IsAsset(assetId: int, email: string): AssetStatusVo -> bool {
    (a: AssetStatusVo) => a.assetId == assetId && a.email == email
  }

  function NotAsset(assetId: int, email: string): AssetStatusVo -> bool {
    (a: AssetStatusVo) => !(a.assetId == assetId && a.email == email)
  }

  /** The `UPDATE ... WHERE asset_id = ? AND email = ?` of `updateAssetStatus`, row by row. */
  function ReplaceAsset(assetId: int, email: string, request: AssetRequest): AssetStatusVo -> AssetStatusVo {
    (a: AssetStatusVo) => if a.assetId == assetId && a.email == email then RowOf(assetId, email, request) else a
  }

  /** The update touches only the addressed row, and what it writes there is the request. */
  lemma ReplaceAssetOnlyThatRow(assets: seq<AssetStatusVo>, assetId: int, email: string, request: AssetRequest)
    ensures forall i | 0 <= i < |assets| && !IsAsset(assetId, email)(assets[i]) ::
      MapAll(assets, ReplaceAsset(assetId, email, request))[i] == assets[i]
    ensures forall i | 0 <= i < |assets| && IsAsset(assetId, email)(assets[i]) ::
      MapAll(assets, ReplaceAsset(assetId, email, request))[i] == RowOf(assetId, email, request)
    ensures forall i | 0 <= i < |assets| ::
      MapAll(assets, ReplaceAsset(assetId, email, request))[i].assetId == assets[i].assetId
  {
  }

  /**
   * `updateAssetStatus`: the addressed row takes the request's four fields; when no row has
   * that id and owner it throws `AssetNotFoundException` without recomputing.
   */
  method UpdateAssetStatus(db: Database, assetId: int, email: string, requestDto: AssetRequest,
                           similarity: (real, real, real, real) -> real, scoreText: real -> string)
    returns (r: Result<(), Failure>)
    requires db.Valid()
    modifies db`assets, db`users, db`recommends
    ensures db.Valid()
    ensures Filter(old(db.assets), IsAsset(assetId, email)) == [] ==> (r == Err(AssetNotFound)
      && db.assets == old(db.assets) && db.users == old(db.users) && db.recommends == old(db.recommends))
    ensures Filter(old(db.assets), IsAsset(assetId, email)) != [] ==>
      (r.Ok? <==> SummaryOutcome(MapAll(old(db.assets), ReplaceAsset(assetId, email, requestDto)), old(db.users), email).Ok?)
    ensures Filter(old(db.assets), IsAsset(assetId, email)) != [] && r.Err? ==> (
      r.error == SummaryOutcome(MapAll(old(db.assets), ReplaceAsset(assetId, email, requestDto)), old(db.users), email).error
      && db.assets == old(db.assets) && db.users == old(db.users) && db.recommends == old(db.recommends))
    ensures r.Ok? ==> (db.assets == MapAll(old(db.assets), ReplaceAsset(assetId, email, requestDto))
      && InSync(db.users, db.recommends, old(db.users), old(db.recommends), db.assets, db.products,
                email, similarity, scoreText))
  {
    var before := db.assets;
    if Filter(db.assets, IsAsset(assetId, email)) == [] {
      return Err(AssetNotFound);
    }
    var updated := MapAll(db.assets, ReplaceAsset(assetId, email, requestDto));
    ReplaceKeepsIdsValid(db.assets, assetId, email, requestDto, db.nextAssetId);
    db.assets := updated;
    r := UpdateUserAssetSummary(db, email, similarity, scoreText);
    if r.Err? {
      db.assets := before;
    }
  }

  /** Rewriting the addressed row keeps every id, so the ids stay distinct and below the counter. */
  lemma ReplaceKeepsIdsValid(assets: seq<AssetStatusVo>, assetId: int, email: string, request: AssetRequest, next: int)
    requires forall i | 0 <= i < |assets| :: assets[i].assetId < next
    requires UniqueAssetIds(assets)
    ensures forall i | 0 <= i < |MapAll(assets, ReplaceAsset(assetId, email, request))| ::
      MapAll(assets, ReplaceAsset(assetId, email, request))[i].assetId < next
    ensures UniqueAssetIds(MapAll(assets, ReplaceAsset(assetId, email, request)))
  {
    ReplaceAssetOnlyThatRow(assets, assetId, email, request);
  }

  /**
   * `deleteAssetStatus`: the addressed row is removed; when no row has that id and owner it
   * throws `NoSuchElementException` without recomputing.
   */
  method DeleteAssetStatus(db: Database, assetId: int, email: string,
                           similarity: (real, real, real, real) -> real, scoreText: real -> string)
    returns (r: Result<(), Failure>)
    requires db.Valid()
    modifies db`assets, db`users, db`recommends
    ensures db.Valid()
    ensures Filter(old(db.assets), IsAsset(assetId, email)) == [] ==> (r == Err(NoSuchElement)
      && db.assets == old(db.assets) && db.users == old(db.users) && db.recommends == old(db.recommends))
    ensures Filter(old(db.assets), IsAsset(assetId, email)) != [] ==>
      (r.Ok? <==> SummaryOutcome(Filter(old(db.assets), NotAsset(assetId, email)), old(db.users), email).Ok?)
    ensures Filter(old(db.assets), IsAsset(assetId, email)) != [] && r.Err? ==> (
      r.error == SummaryOutcome(Filter(old(db.assets), NotAsset(assetId, email)), old(db.users), email).error
      && db.assets == old(db.assets) && db.users == old(db.users) && db.recommends == old(db.recommends))
    ensures r.Ok? ==> (db.assets == Filter(old(db.assets), NotAsset(assetId, email))
      && InSync(db.users, db.recommends, old(db.users), old(db.recommends), db.assets, db.products,
                email, similarity, scoreText))
  {
    var before := db.assets;
    if Filter(db.assets, IsAsset(assetId, email)) == [] {
      return Err(NoSuchElement);
    }
    var kept := Filter(db.assets, NotAsset(assetId, email));
    UserService.KeptIdsBelow(db.assets, NotAsset(assetId, email), db.nextAssetId);
    db.assets := kept;
    r := UpdateUserAssetSummary(db, email, similarity, scoreText);
    if r.Err? {
      db.assets := before;
    }
  }

  /** A delete removes exactly the addressed row: no row of that id and owner is left, every other row is. */
  lemma DeleteRemovesOnlyThatRow(assets: seq<AssetStatusVo>, assetId: int, email: string)
    ensures forall a | a in Filter(assets, NotAsset(assetId, email)) :: !(a.assetId == assetId && a.email == email)
    ensures forall a | a in assets && !(a.assetId == assetId && a.email == email) ::
      a in Filter(assets, NotAsset(assetId, email))
  {
    FilterMembers(assets, NotAsset(assetId, email));
  }
}
