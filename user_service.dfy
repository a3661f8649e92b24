/**
 * `UserServiceImpl`: field-preserving updates of the stored user, the branch lookups, the
 * withdrawal that removes every row of a user, the asset percentile and the asset delta.
 *
 * The `@Transactional` methods are atomic: when one throws, every table is as it was before.
 */
module UserService {
  import opened Wrappers
  import opened Dates
  import opened Sorting
  import opened Tables
  import opened UserDtos
  import GiftTax

  /** `getUser`: the stored user as a DTO, or `NoSuchElementException`. */
  function GetUser(users: map<string, UserVo>, email: string): (r: Result<UserDto, Failure>)
    ensures r.Ok? <==> email in users
    ensures r.Err? ==> r.error == NoSuchElement
    ensures r.Ok? ==> ToVo(r.value) == users[email].(point := 0) && r.value.point == users[email].point
  {
    if email in users then Ok(Of(users[email])) else Err(NoSuchElement)
  }

  /**
   * What `updateUser` writes back: the ten editable fields come from the DTO, while the email
   * and the points stay those of the stored user.
   */
  function WithDtoFields(u: UserVo, d: UserDto): (r: UserVo)
    ensures r == ToVo(d).(email := u.email, point := u.point)
  {
    u.(userName := d.userName, userPhone := d.userPhone, birth := d.birth,
       connectedId := d.connectedId, branchId := d.branchId, asset := d.asset,
       filename1 := d.filename1, filename2 := d.filename2, tendency := d.tendency,
       assetProportion := d.assetProportion)
  }

  /** Writing a user's own DTO back with one field changed changes only that field. */
  lemma WriteBackOwnDto(u: UserVo, asset: Option<int>, tendency: Option<real>, assetProportion: Option<real>)
    ensures WithDtoFields(u, Of(u).(asset := asset)) == u.(asset := asset)
    ensures WithDtoFields(u, Of(u).(tendency := tendency)) == u.(tendency := tendency)
    ensures WithDtoFields(u, Of(u).(asset := asset, assetProportion := assetProportion))
         == u.(asset := asset, assetProportion := assetProportion)
  {
  }

  /** `updateUser`. */
  method UpdateUser(db: Database, email: string, dto: UserDto) returns (r: Result<(), Failure>)
    requires db.Valid()
    modifies db`users
    ensures db.Valid()
    ensures email !in old(db.users) ==> r == Err(NoSuchElement) && db.users == old(db.users)
    ensures email in old(db.users) ==>
      r == Ok(()) && db.users == old(db.users)[email := WithDtoFields(old(db.users)[email], dto)]
  {
    if email !in db.users {
      return Err(NoSuchElement);
    }
    var user := db.users[email];
    user := WithDtoFields(user, dto);
    db.users := db.users[email := user];
    r := Ok(());
  }

  /** `UserInfoUpdateRequestDto`. */
  datatype UserInfoUpdate = UserInfoUpdate(userName: Option<string>, userPhone: Option<string>, birth: Option<Date>)

  /** `updateUserInfo`: only the name, the phone number and the birth date change. */
  method UpdateUserInfo(db: Database, email: string, request: UserInfoUpdate) returns (r: Result<(), Failure>)
    requires db.Valid()
    modifies db`users
    ensures db.Valid()
    ensures email !in old(db.users) ==> r == Err(UserNotFound) && db.users == old(db.users)
    ensures email in old(db.users) ==> r == Ok(()) && db.users == old(db.users)[email :=
      old(db.users)[email].(userName := request.userName, userPhone := request.userPhone, birth := request.birth)]
  {
    if email !in db.users {
      return Err(UserNotFound);
    }
    var user := db.users[email];
    user := user.(userName := request.userName, userPhone := request.userPhone, birth := request.birth);
    db.users := db.users[email := user];
    r := Ok(());
  }

  /** `getBranchInfo`: the name of the user's preferred branch, `null` when none is set. */
  function BranchInfo(users: map<string, UserVo>, branches: map<int, string>, email: string)
    : (r: Result<Option<string>, Failure>)
    ensures r == Err(UserNotFound) <==> email !in users
    ensures r == Ok(None) <==> email in users && users[email].branchId.None?
    ensures r == Err(BranchNotFound) <==>
      (email in users && users[email].branchId.Some? && users[email].branchId.value !in branches)
    ensures r.Ok? && r.value.Some? ==>
      email in users && users[email].branchId.Some? && users[email].branchId.value in branches
      && r.value.value == branches[users[email].branchId.value]
  {
    if email !in users then Err(UserNotFound)
    else if users[email].branchId.None? then Ok(None)
    else if users[email].branchId.value !in branches then Err(BranchNotFound)
    else Ok(Some(branches[users[email].branchId.value]))
  }

  /**
   * `updateBranchId`: an unknown branch throws before anything is written; otherwise the user's
   * branch is set (an unknown email updates no row).
   */
  method UpdateBranchId(db: Database, email: string, branchId: int) returns (r: Result<(), Failure>)
    requires db.Valid()
    modifies db`users
    ensures db.Valid()
    ensures branchId !in db.branches ==> r == Err(BranchNotFound) && db.users == old(db.users)
    ensures branchId in db.branches ==> r == Ok(())
    ensures branchId in db.branches && email in old(db.users) ==>
      db.users == old(db.users)[email := old(db.users)[email].(branchId := Some(branchId))]
    ensures branchId in db.branches && email !in old(db.users) ==> db.users == old(db.users)
  {
    if branchId !in db.branches {
      return Err(BranchNotFound);
    }
    if email in db.users {
      db.users := db.users[email := db.users[email].(branchId := Some(branchId))];
    }
    r := Ok(());
  }

  function NotBookedBy(email: string): BookingVo -> bool {
    (b: BookingVo) => b.email != email
  }

  function NotAssetOf(email: string): AssetStatusVo -> bool {
    (a: AssetStatusVo) => a.email != email
  }

  function NotRecommendedTo(email: string): CustomRecommendVo -> bool {
    (c: CustomRecommendVo) => c.userEmail != email
  }

  function NotRecipientOf(email: string): GiftTax.Recipient -> bool {
    (c: GiftTax.Recipient) => c.email != Some(email)
  }

  /**
   * `withdrawUser`: the user's refresh token, bookings, assets, recommendations and recipients
   * are deleted, then the user. If no user row was deleted the exception rolls every delete back.
   */
  method WithdrawUser(db: Database, email: string) returns (r: Result<(), Failure>)
    requires db.Valid()
    modifies db`refreshTokens, db`bookings, db`assets, db`recommends, db`recipients, db`users
    ensures db.Valid()
    ensures email !in old(db.users) ==> (r == Err(UserNotFound)
      && db.users == old(db.users) && db.refreshTokens == old(db.refreshTokens)
      && db.bookings == old(db.bookings) && db.assets == old(db.assets)
      && db.recommends == old(db.recommends) && db.recipients == old(db.recipients))
    ensures email in old(db.users) ==> (r == Ok(())
      && db.users == old(db.users) - {email} && db.refreshTokens == old(db.refreshTokens) - {email}
      && db.bookings == Filter(old(db.bookings), NotBookedBy(email))
      && db.assets == Filter(old(db.assets), NotAssetOf(email))
      && db.recommends == Filter(old(db.recommends), NotRecommendedTo(email))
      && db.recipients == Filter(old(db.recipients), NotRecipientOf(email)))
  {
    if email !in db.users {
      return Err(UserNotFound);
    }
    var keptAssets := Filter(db.assets, NotAssetOf(email));
    var keptRecipients := Filter(db.recipients, NotRecipientOf(email));
    KeptIdsBelow(db.assets, NotAssetOf(email), db.nextAssetId);
    KeptRecipientIdsBelow(db.recipients, NotRecipientOf(email), db.nextRecipientId);
    var keptUsers := db.users - {email};
    assert forall e | e in keptUsers :: keptUsers[e].email == e;
    assert ValidTables(keptUsers, keptAssets, db.nextAssetId, keptRecipients, db.nextRecipientId);
    db.refreshTokens := db.refreshTokens - {email};
    db.bookings := Filter(db.bookings, NotBookedBy(email));
    db.recommends := Filter(db.recommends, NotRecommendedTo(email));
    db.assets, db.recipients, db.users := keptAssets, keptRecipients, keptUsers;
    r := Ok(());
  }

  /** After a withdrawal no row of any of the five tables belongs to the user. */
  lemma {:induction false} WithdrawnUserLeavesNoRows(bookings: seq<BookingVo>, assets: seq<AssetStatusVo>,
                                   recommends: seq<CustomRecommendVo>, recipients: seq<GiftTax.Recipient>, email: string)
    ensures forall b | b in Filter(bookings, NotBookedBy(email)) :: b.email != email
    ensures forall a | a in Filter(assets, NotAssetOf(email)) :: a.email != email
    ensures forall c | c in Filter(recommends, NotRecommendedTo(email)) :: c.userEmail != email
    ensures forall c | c in Filter(recipients, NotRecipientOf(email)) :: c.email != Some(email)
  {
    FilterMembers(bookings, NotBookedBy(email));
    FilterMembers(assets, NotAssetOf(email));
    FilterMembers(recommends, NotRecommendedTo(email));
    FilterMembers(recipients, NotRecipientOf(email));
  }

  /** Deleting asset rows keeps the ids below the counter and distinct. */
  lemma KeptIdsBelow(s: seq<AssetStatusVo>, p: AssetStatusVo -> bool, bound: int)
    requires forall i | 0 <= i < |s| :: s[i].assetId < bound
    requires UniqueAssetIds(s)
    ensures forall i | 0 <= i < |Filter(s, p)| :: Filter(s, p)[i].assetId < bound
    ensures UniqueAssetIds(Filter(s, p))
  {
    FilterMembers(s, p);
    forall i | 0 <= i < |Filter(s, p)| ensures Filter(s, p)[i].assetId < bound {
      assert Filter(s, p)[i] in s;
    }
    KeptIdsDistinct(s, p);
  }

  lemma {:induction false} KeptIdsDistinct(s: seq<AssetStatusVo>, p: AssetStatusVo -> bool)
    requires UniqueAssetIds(s)
    ensures UniqueAssetIds(Filter(s, p))
    decreases |s|
  {
    if s != [] {
      var init := s[..|s| - 1];
      var last := s[|s| - 1];
      assert UniqueAssetIds(init) by {
        forall i, j | 0 <= i < |init| && 0 <= j < |init| && i != j ensures init[i].assetId != init[j].assetId {
          assert init[i] == s[i] && init[j] == s[j];
        }
      }
      KeptIdsDistinct(init, p);
      if p(last) {
        var f := Filter(init, p);
        FilterMembers(init, p);
        forall k | 0 <= k < |f| ensures f[k].assetId != last.assetId {
          assert f[k] in f;
          var m :| 0 <= m < |init| && init[m] == f[k];
          assert s[m] == f[k];
        }
        assert Filter(s, p) == f + [last];
      }
    }
  }

  lemma KeptRecipientIdsBelow(s: seq<GiftTax.Recipient>, p: GiftTax.Recipient -> bool, bound: int)
    requires forall i | 0 <= i < |s| :: s[i].recipientId < bound
    ensures forall i | 0 <= i < |Filter(s, p)| :: Filter(s, p)[i].recipientId < bound
  {
    FilterMembers(s, p);
    forall i | 0 <= i < |Filter(s, p)| ensures Filter(s, p)[i].recipientId < bound {
      assert Filter(s, p)[i] in s;
    }
  }

  // ----- asset percentile -----

  /** `countAllUsersWithAsset`. */
  function UsersWithAsset(users: map<string, UserVo>): set<string> {
    set e | e in users && users[e].asset.Some?
  }

  /** `countUsersWithMoreAsset(myAsset)`. */
  function UsersRicherThan(users: map<string, UserVo>, myAsset: int): set<string> {
    set e | e in users && users[e].asset.Some? && users[e].asset.value > myAsset
  }

  /** `n / d` rounded to the nearest integer, halves rounded up (`RoundingMode.HALF_UP`). */
  function RoundHalfUpDiv(n: nat, d: int): (r: nat)
    requires d > 0
    ensures 2 * (r * d) <= 2 * n + d < 2 * (r * d) + 2 * d
  {
    var q := (2 * n + d) / (2 * d);
    assert q * (2 * d) + (2 * n + d) % (2 * d) == 2 * n + d;
    assert q * (2 * d) == 2 * (q * d);
    q
  }

  lemma RoundHalfUpMonotone(n: nat, m: nat, d: int)
    requires d > 0 && n <= m
    ensures RoundHalfUpDiv(n, d) <= RoundHalfUpDiv(m, d)
  {
    DivMonotone(2 * n + d, 2 * m + d, 2 * d);
  }

  lemma DivMonotone(x: nat, y: nat, k: int)
    requires k > 0 && x <= y
    ensures x / k <= y / k
  {
    var qx, qy := x / k, y / k;
    assert x == qx * k + x % k && y == qy * k + y % k;
    if qx > qy {
      MulMonotone(qy + 1, qx, k);
      assert false;
    }
  }

  lemma MulMonotone(a: int, b: int, k: nat)
    requires a <= b
    ensures a * k <= b * k
  {
    assert b * k == a * k + (b - a) * k;
  }

  /** A subset is no larger than its superset, and strictly smaller when it misses an element. */
  lemma SubsetCard<T>(a: set<T>, b: set<T>, missing: T)
    requires a <= b
    ensures |a| <= |b|
    ensures missing in b && missing !in a ==> |a| < |b|
  {
    var rest := b - a;
    assert b == a + rest;
    assert a * rest == {};
    if missing in b && missing !in a {
      assert missing in rest;
    }
  }

  /**
   * `calculateAssetPercentile`, in tenths of a percent: the rank of `myAsset` among the users
   * with an asset, as a percentage rounded HALF_UP to one decimal.
   */
  function AssetPercentile(users: map<string, UserVo>, myAsset: Option<int>): (r: Option<nat>)
    ensures r.None? <==> myAsset.None?
    ensures myAsset.Some? && |UsersWithAsset(users)| <= 1 ==> r == Some(1000)
  {
    if myAsset.None? then None
    else
      var totalUsers := |UsersWithAsset(users)|;
      if totalUsers <= 1 then Some(1000)
      else Some(RoundHalfUpDiv((|UsersRicherThan(users, myAsset.value)| + 1) * 1000, totalUsers))
  }

  /** The percentile of a stored user's own asset is at most 100.0. */
  lemma {:induction false} PercentileOfStoredUserAtMost100(users: map<string, UserVo>, email: string)
    requires email in users && users[email].asset.Some?
    ensures AssetPercentile(users, users[email].asset).Some?
    ensures AssetPercentile(users, users[email].asset).value <= 1000
  {
    var a := users[email].asset.value;
    var richer, all := UsersRicherThan(users, a), UsersWithAsset(users);
    SubsetCard(richer, all, email);
    var total := |all|;
    if total > 1 {
      var n := (|richer| + 1) * 1000;
      MulMonotone(|richer| + 1, total, 1000);
      var r := RoundHalfUpDiv(n, total);
      if r > 1000 {
        MulMonotone(1001, r, total);
        assert false;
      }
    }
  }

  /** A larger asset never has a larger (worse) percentile. */
  lemma {:induction false} PercentileMonotone(users: map<string, UserVo>, a: int, b: int)
    requires a <= b
    ensures AssetPercentile(users, Some(b)).value <= AssetPercentile(users, Some(a)).value
  {
    SubsetCard(UsersRicherThan(users, b), UsersRicherThan(users, a), "");
    var total := |UsersWithAsset(users)|;
    if total > 1 {
      RoundHalfUpMonotone((|UsersRicherThan(users, b)| + 1) * 1000, (|UsersRicherThan(users, a)| + 1) * 1000, total);
    }
  }

  /** `updateUserAsset`: `asset := asset + amount`, everything else kept; a `null` asset throws. */
  method UpdateUserAsset(db: Database, email: string, amount: int) returns (r: Result<(), Failure>)
    requires db.Valid()
    modifies db`users
    ensures db.Valid()
    ensures email !in old(db.users) ==> r == Err(NoSuchElement) && db.users == old(db.users)
    ensures email in old(db.users) && old(db.users)[email].asset.None? ==>
      r == Err(NullPointer) && db.users == old(db.users)
    ensures email in old(db.users) && old(db.users)[email].asset.Some? ==> (r == Ok(())
      && db.users == old(db.users)[email := old(db.users)[email].(asset := Some(old(db.users)[email].asset.value + amount))])
  {
    var found := GetUser(db.users, email);
    if found.Err? {
      return Err(found.error);
    }
    var userDto := found.value;
    if userDto.asset.None? {
      return Err(NullPointer);
    }
    userDto := userDto.(asset := Some(userDto.asset.value + amount));
    WriteBackOwnDto(db.users[email], userDto.asset, None, None);
    r := UpdateUser(db, email, userDto);
  }
}
