/**
 * `CodefTokenService`: the cached access token of the CODEF open-banking API, the
 * password rewrite before a connected id is requested, and the replacement of a user's
 * deposit assets (category "2") by the accounts CODEF reports.
 *
 * The HTTP calls of `CodefApiClient` are parameters: the token response, the RSA encryption
 * (`None` when it throws), the connected-id call and the account listing. The clock is the
 * parameter `now`, in milliseconds.
 */
module CodefTokenService {
  import opened Wrappers
  import opened Sorting
  import opened JavaText
  import opened Products
  import opened Tables
  import UserService
  import Assets = AssetStatusService

  // ----- the access token -----

  /** The two keys of the token response that are read: `access_token` (absent: `None`) and `expires_in`, in seconds. */
  datatype TokenResponse = TokenResponse(accessToken: Option<string>, expiresIn: int)

  /** The two fields of the service. */
  datatype TokenCache = TokenCache(accessToken: Option<string>, tokenExpiryTime: int)

  /** `isTokenExpired`: the expiry instant itself already counts as expired. */
  predicate Expired(c: TokenCache, now: int) {
    now >= c.tokenExpiryTime
  }

  /**
   * `getAccessToken` on the cache: a present, unexpired token is returned as it is, and the
   * response is not consulted; otherwise a response with a token replaces the cache, and a
   * missing response or one without a token yields `null` and keeps the cache.
   */
  function AccessTokenStep(c: TokenCache, now: int, published: Option<TokenResponse>): (r: (TokenCache, Option<string>))
    ensures c.accessToken.Some? && !Expired(c, now) ==> r == (c, c.accessToken)
    ensures (c.accessToken.None? || Expired(c, now)) && published.Some? && published.value.accessToken.Some? ==>
      r.0 == TokenCache(published.value.accessToken, now + published.value.expiresIn * 1000)
      && r.1 == published.value.accessToken
    ensures (c.accessToken.None? || Expired(c, now)) && (published.None? || published.value.accessToken.None?) ==>
      r == (c, None)
  {
    if c.accessToken.None? || Expired(c, now) then
      if published.Some? && published.value.accessToken.Some? then
        var renewed := TokenCache(published.value.accessToken, now + published.value.expiresIn * 1000);
        (renewed, renewed.accessToken)
      else (c, None)
    else (c, c.accessToken)
  }

  /** A token handed out with a positive lifetime is never expired at the moment it is handed out. */
  lemma HandedOutTokenIsLive(c: TokenCache, now: int, published: Option<TokenResponse>)
    requires published.Some? ==> published.value.expiresIn > 0
    ensures AccessTokenStep(c, now, published).1.Some? ==> !Expired(AccessTokenStep(c, now, published).0, now)
    ensures AccessTokenStep(c, now, published).1 == AccessTokenStep(c, now, published).0.accessToken
         || AccessTokenStep(c, now, published).1.None?
  {
  }

  /**
   * After a fetched token with lifetime `expiresIn` seconds, every call within that lifetime
   * returns the same token and changes nothing, whatever the API would answer.
   */
  lemma FetchedTokenIsReused(c: TokenCache, now: int, token: string, expiresIn: int, later: int,
                             published: Option<TokenResponse>)
    requires c.accessToken.None? || Expired(c, now)
    requires now <= later < now + expiresIn * 1000
    ensures var (cached, first) := AccessTokenStep(c, now, Some(TokenResponse(Some(token), expiresIn)));
      first == Some(token) && AccessTokenStep(cached, later, published) == (cached, Some(token))
  {
  }

  // ----- connected id -----

  /** One account of the request with its password, if it has one, encrypted and stripped of newlines. */
  function WithEncryptedPassword(account: map<string, string>, encryptRSA: string -> Option<string>)
    : (r: Option<map<string, string>>)
    ensures "password" !in account ==> r == Some(account)
    ensures r.Some? ==> r.value.Keys == account.Keys
    ensures r.Some? ==> forall k | k in account && k != "password" :: r.value[k] == account[k]
    ensures r.Some? && "password" in account ==> (encryptRSA(account["password"]).Some?
      && r.value["password"] == RemoveChar(encryptRSA(account["password"]).value, '\n'))
  {
    if "password" !in account then Some(account)
    else match encryptRSA(account["password"])
      case None => None
      case Some(encrypted) => Some(account["password" := RemoveChar(encrypted, '\n')])
  }

  /**
   * The account list after the rewrite loop, and whether it ran to the end: the loop rewrites
   * accounts in order and stops at the first encryption that throws, leaving that account and
   * the ones after it as they were.
   */
  function Rewritten(accounts: seq<map<string, string>>, encryptRSA: string -> Option<string>)
    : (r: (seq<map<string, string>>, bool))
    ensures |r.0| == |accounts|
    decreases |accounts|
  {
    if accounts == [] then ([], true)
    else
      var (before, ok) := Rewritten(accounts[..|accounts| - 1], encryptRSA);
      var last := accounts[|accounts| - 1];
      if !ok then (before + [last], false)
      else match WithEncryptedPassword(last, encryptRSA)
        case None => (before + [last], false)
        case Some(encrypted) => (before + [encrypted], true)
  }

  /** When every encryption succeeds, each account is rewritten on its own and nothing else changes. */
  lemma {:induction false} RewrittenAccountwise(accounts: seq<map<string, string>>, encryptRSA: string -> Option<string>)
    requires Rewritten(accounts, encryptRSA).1
    ensures forall i | 0 <= i < |accounts| ::
      WithEncryptedPassword(accounts[i], encryptRSA) == Some(Rewritten(accounts, encryptRSA).0[i])
    decreases |accounts|
  {
    if accounts != [] {
      var init := accounts[..|accounts| - 1];
      RewrittenAccountwise(init, encryptRSA);
      forall i | 0 <= i < |accounts|
        ensures WithEncryptedPassword(accounts[i], encryptRSA) == Some(Rewritten(accounts, encryptRSA).0[i])
      {
        if i < |init| {
          assert accounts[i] == init[i];
        }
      }
    }
  }

  /** No rewritten password holds a newline, whether or not the loop ran to the end. */
  lemma {:induction false} RewrittenPasswordsHaveNoNewline(accounts: seq<map<string, string>>,
                                                           encryptRSA: string -> Option<string>)
    ensures forall i | 0 <= i < |accounts| && Rewritten(accounts, encryptRSA).0[i] != accounts[i] ::
      "password" in Rewritten(accounts, encryptRSA).0[i]
      && '\n' !in Rewritten(accounts, encryptRSA).0[i]["password"]
    decreases |accounts|
  {
    if accounts != [] {
      var init := accounts[..|accounts| - 1];
      RewrittenPasswordsHaveNoNewline(init, encryptRSA);
      var r := Rewritten(accounts, encryptRSA).0;
      forall i | 0 <= i < |accounts| && r[i] != accounts[i]
        ensures "password" in r[i] && '\n' !in r[i]["password"]
      {
        if i < |init| {
          assert accounts[i] == init[i];
        } else {
          var p := r[i]["password"];
          assert forall k | 0 <= k < |p| :: p[k] != '\n';
        }
      }
    }
  }

  /** The loop stops at the first account whose encryption throws; that one and the rest stay as they were. */
  lemma {:induction false} RewriteStopsAt(accounts: seq<map<string, string>>, i: nat, encryptRSA: string -> Option<string>)
    requires i < |accounts| && Rewritten(accounts[..i], encryptRSA).1
    requires WithEncryptedPassword(accounts[i], encryptRSA).None?
    ensures !Rewritten(accounts, encryptRSA).1
    ensures Rewritten(accounts, encryptRSA).0 == Rewritten(accounts[..i], encryptRSA).0 + accounts[i..]
    decreases |accounts|
  {
    var init := accounts[..|accounts| - 1];
    if |accounts| == i + 1 {
      assert init == accounts[..i];
    } else {
      assert init[..i] == accounts[..i];
      RewriteStopsAt(init, i, encryptRSA);
      assert init[i..] + [accounts[|accounts| - 1]] == accounts[i..];
    }
  }

  class TokenService {
    var accessToken: Option<string>
    var tokenExpiryTime: int

    constructor ()
      ensures accessToken == None && tokenExpiryTime == 0
    {
      accessToken := None;
      tokenExpiryTime := 0;
    }

    function Cache(): TokenCache
      reads this
    {
      TokenCache(accessToken, tokenExpiryTime)
    }

    /** `isTokenExpired`. */
    predicate IsTokenExpired(now: int)
      reads this
    {
      now >= tokenExpiryTime
    }

    /** `getAccessToken`. */
    method GetAccessToken(now: int, published: Option<TokenResponse>) returns (r: Option<string>)
      modifies this
      ensures (Cache(), r) == AccessTokenStep(old(Cache()), now, published)
    {
      if accessToken.None? || IsTokenExpired(now) {
        if published.Some? && published.value.accessToken.Some? {
          accessToken := published.value.accessToken;
          var expiresIn := published.value.expiresIn;
          tokenExpiryTime := now + expiresIn * 1000;
        } else {
          return None;
        }
      }
      r := accessToken;
    }

    /**
     * `createConnectedId`: the accounts are rewritten in place, in order; when an encryption or
     * the API call throws the result is `null`, and accounts rewritten before the failure stay
     * rewritten.
     */
    method CreateConnectedId<R>(accountList: array<map<string, string>>, encryptRSA: string -> Option<string>,
                                requestConnectedId: seq<map<string, string>> -> Option<R>) returns (r: Option<R>)
      modifies accountList
      ensures accountList[..] == Rewritten(old(accountList[..]), encryptRSA).0
      ensures r.Some? <==> Rewritten(old(accountList[..]), encryptRSA).1 && requestConnectedId(accountList[..]).Some?
      ensures r.Some? ==> r == requestConnectedId(accountList[..])
    {
      ghost var original := accountList[..];
      for i := 0 to accountList.Length
        invariant accountList[..i] == Rewritten(original[..i], encryptRSA).0
        invariant accountList[i..] == original[i..]
        invariant Rewritten(original[..i], encryptRSA).1
      {
        assert original[..i + 1][..i] == original[..i];
        var account := accountList[i];
        assert account == original[i];
        if "password" in account {
          var encrypted := encryptRSA(account["password"]);
          if encrypted.None? {
            RewriteStopsAt(original, i, encryptRSA);
            assert accountList[..] == accountList[..i] + accountList[i..];
            return None;
          }
          accountList[i] := account["password" := RemoveChar(encrypted.value, '\n')];
        }
        assert accountList[..i + 1] == accountList[..i] + [accountList[i]];
      }
      assert original[..accountList.Length] == original;
      assert accountList[..accountList.Length] == accountList[..];
      r := requestConnectedId(accountList[..]);
    }

    // ----- saveAccountInfo -----

    /**
     * Step 1 of `saveAccountInfo`: every deposit row the user had when the step began is
     * deleted through `deleteAssetStatus`, one transaction each. The first failing delete
     * ends the step with its exception; the deletes before it stay done.
     */
    method DeleteDeposits(db: Database, userEmail: string, similarity: (real, real, real, real) -> real,
                          scoreText: real -> string) returns (r: Result<(), Failure>)
      requires db.Valid()
      modifies db`assets, db`users, db`recommends
      ensures db.Valid()
      ensures forall a | a in db.assets :: a in old(db.assets)
      ensures forall a | a in old(db.assets) && !IsDepositOf(userEmail)(a) :: a in db.assets
      ensures r.Ok? ==> db.assets == Filter(old(db.assets), NotDepositOf(userEmail))
      ensures userEmail in old(db.users) && Assets.RowsComplete(Assets.AssetsOf(old(db.assets), userEmail)) ==> r.Ok?
      ensures Untouched(db, old(db.users), old(db.recommends))
           || Assets.InSync(db.users, db.recommends, old(db.users), old(db.recommends), db.assets, db.products,
                            userEmail, similarity, scoreText)
      ensures |db.assets| == |old(db.assets)| ==> Untouched(db, old(db.users), old(db.recommends))
    {
      var existingAssets := Assets.AssetsOf(db.assets, userEmail);
      FilterMembers(db.assets, Assets.OwnedBy(userEmail));
      UserService.KeptIdsDistinct(db.assets, Assets.OwnedBy(userEmail));
      ghost var ids: set<int> := {};
      DeletingStarts(db.users, db.recommends, db.assets, db.products, userEmail, similarity, scoreText);
      for i := 0 to |existingAssets|
        invariant db.Valid()
        invariant ids == DepositIds(existingAssets[..i])
        invariant Deleting(db.users, db.recommends, db.assets, old(db.users), old(db.recommends), old(db.assets),
                           db.products, userEmail, ids, similarity, scoreText)
      {
        var vo := existingAssets[i];
        assert existingAssets[..i + 1] == existingAssets[..i] + [vo];
        DepositIdsAppend(existingAssets[..i], vo);
        if vo.assetCategoryCode == Some("2") {
          DepositStillStored(old(db.assets), existingAssets, i, userEmail, ids);
          var deleted := DeleteOne(db, vo, userEmail, old(db.users), old(db.recommends), old(db.assets), ids,
                                   similarity, scoreText);
          if deleted.Err? {
            DeletingFacts(db.users, db.recommends, db.assets, old(db.users), old(db.recommends), old(db.assets),
                          db.products, userEmail, ids, similarity, scoreText);
            return deleted;
          }
          ids := ids + {vo.assetId};
        }
      }
      assert existingAssets[..|existingAssets|] == existingAssets;
      DeletedAll(db.users, db.recommends, db.assets, old(db.users), old(db.recommends), old(db.assets),
                 db.products, userEmail, similarity, scoreText);
      r := Ok(());
    }

    /** One delete of the loop of `DeleteDeposits`: the deposit row `vo`, not yet deleted, is deleted. */
    method DeleteOne(db: Database, vo: AssetStatusVo, userEmail: string, ghost users0: map<string, UserVo>,
                     ghost recommends0: seq<CustomRecommendVo>, ghost assets0: seq<AssetStatusVo>, ghost ids: set<int>,
                     similarity: (real, real, real, real) -> real, scoreText: real -> string)
      returns (r: Result<(), Failure>)
      requires db.Valid() && UniqueAssetIds(assets0)
      requires Deleting(db.users, db.recommends, db.assets, users0, recommends0, assets0, db.products, userEmail, ids,
                        similarity, scoreText)
      requires vo in assets0 && IsDepositOf(userEmail)(vo) && Outside(userEmail, ids)(vo)
      modifies db`assets, db`users, db`recommends
      ensures db.Valid()
      ensures r.Ok? ==> Deleting(db.users, db.recommends, db.assets, users0, recommends0, assets0, db.products,
                                 userEmail, ids + {vo.assetId}, similarity, scoreText)
      ensures r.Err? ==> Deleting(db.users, db.recommends, db.assets, users0, recommends0, assets0, db.products,
                                  userEmail, ids, similarity, scoreText)
                         && !(userEmail in users0 && Assets.RowsComplete(Assets.AssetsOf(assets0, userEmail)))
    {
      FilterMembers(assets0, Outside(userEmail, ids));
      FilterMembers(db.assets, Assets.IsAsset(vo.assetId, userEmail));
      assert vo in Filter(db.assets, Assets.IsAsset(vo.assetId, userEmail));
      ghost var usersBefore, recommendsBefore, assetsBefore := db.users, db.recommends, db.assets;
      r := Assets.DeleteAssetStatus(db, vo.assetId, userEmail, similarity, scoreText);
      if r.Err? {
        DeleteFails(users0, assets0, usersBefore, recommendsBefore, assetsBefore, db.products, userEmail, ids, vo,
                    recommends0, similarity, scoreText);
        return;
      }
      DeleteStep(users0, recommends0, assets0, usersBefore, recommendsBefore, assetsBefore,
                 db.users, db.recommends, db.assets, db.products, userEmail, ids, vo, similarity, scoreText);
    }

    /**
     * Step 2 of `saveAccountInfo`: one `addAssetStatus` per reported account, as a deposit with
     * the account's name and parsed balance. An account whose balance does not parse, or
     * whose insert throws, is skipped; each attempted insert advances the id counter.
     */
    method AddAccounts(db: Database, userEmail: string, resDepositTrust: seq<map<string, string>>,
                       parseLong: string -> Option<int>, similarity: (real, real, real, real) -> real,
                       scoreText: real -> string)
      requires db.Valid()
      modifies db`assets, db`nextAssetId, db`users, db`recommends
      ensures db.Valid()
      ensures db.nextAssetId == old(db.nextAssetId) + |AccountRows(resDepositTrust, parseLong, userEmail, old(db.nextAssetId))|
      ensures userEmail in old(db.users) && Assets.RowsComplete(Assets.AssetsOf(old(db.assets), userEmail)) ==>
        db.assets == old(db.assets) + AccountRows(resDepositTrust, parseLong, userEmail, old(db.nextAssetId))
      ensures !(userEmail in old(db.users) && Assets.RowsComplete(Assets.AssetsOf(old(db.assets), userEmail))) ==>
        db.assets == old(db.assets) && Untouched(db, old(db.users), old(db.recommends))
      ensures (Untouched(db, old(db.users), old(db.recommends)) && db.assets == old(db.assets))
           || Assets.InSync(db.users, db.recommends, old(db.users), old(db.recommends), db.assets, db.products,
                            userEmail, similarity, scoreText)
    {
      for i := 0 to |resDepositTrust|
        invariant db.Valid()
        invariant Adding(db.users, db.recommends, db.assets, db.nextAssetId, old(db.users), old(db.recommends),
                         old(db.assets), old(db.nextAssetId), db.products, userEmail, resDepositTrust[..i], parseLong,
                         similarity, scoreText)
      {
        var account := resDepositTrust[i];
        assert resDepositTrust[..i + 1] == resDepositTrust[..i] + [account];
        var asset := DepositRequest(account, parseLong);
        if asset.None? {
          AddSkipped(db.users, db.recommends, db.assets, db.nextAssetId, old(db.users), old(db.recommends),
                     old(db.assets), old(db.nextAssetId), db.products, userEmail, resDepositTrust[..i], account,
                     parseLong, similarity, scoreText);
          continue;
        }
        ghost var usersBefore, recommendsBefore, assetsBefore, nextBefore := db.users, db.recommends, db.assets, db.nextAssetId;
        var added := Assets.AddAssetStatus(db, userEmail, asset.value, similarity, scoreText);
        AddStep(usersBefore, recommendsBefore, assetsBefore, nextBefore,
                db.users, db.recommends, db.assets, db.nextAssetId, old(db.users), old(db.recommends),
                old(db.assets), old(db.nextAssetId), db.products, userEmail, resDepositTrust[..i], account,
                parseLong, added.Ok?, similarity, scoreText);
      }
      assert resDepositTrust[..|resDepositTrust|] == resDepositTrust;
    }

    /**
     * `saveAccountInfo`: a missing response, or one without `data`, throws before anything is
     * deleted; then the user's deposit rows are deleted, and unless the reported list is
     * missing or empty each reported account is added as a deposit.
     */
    method SaveAccountInfo(db: Database, userEmail: string, result: Option<AccountInfoResult>,
                           parseLong: string -> Option<int>, similarity: (real, real, real, real) -> real,
                           scoreText: real -> string) returns (r: Result<(), Failure>)
      requires db.Valid()
      modifies db`assets, db`nextAssetId, db`users, db`recommends
      ensures db.Valid()
      ensures result.None? || result.value.NoData? ==> (r == Err(Runtime) && db.assets == old(db.assets)
        && db.nextAssetId == old(db.nextAssetId) && Untouched(db, old(db.users), old(db.recommends)))
      ensures forall a | a in old(db.assets) && !IsDepositOf(userEmail)(a) :: a in db.assets
      ensures r.Ok? ==> forall a | a in old(db.assets) && IsDepositOf(userEmail)(a) :: a !in db.assets
      ensures r.Ok? ==> (db.assets == Filter(old(db.assets), NotDepositOf(userEmail))
        || db.assets == Filter(old(db.assets), NotDepositOf(userEmail))
                        + AccountRows(Accounts(result), parseLong, userEmail, old(db.nextAssetId)))
      ensures (result.Some? && result.value.Data? && userEmail in old(db.users)
           && Assets.RowsComplete(Assets.AssetsOf(old(db.assets), userEmail))) ==> (r.Ok?
        && db.assets == Filter(old(db.assets), NotDepositOf(userEmail))
                        + AccountRows(Accounts(result), parseLong, userEmail, old(db.nextAssetId)))
      ensures Untouched(db, old(db.users), old(db.recommends))
           || Assets.InSync(db.users, db.recommends, old(db.users), old(db.recommends), db.assets, db.products,
                            userEmail, similarity, scoreText)
    {
      if result.None? || result.value.NoData? {
        return Err(Runtime);
      }
      var resDepositTrust := result.value.resDepositTrust;
      r := DeleteDeposits(db, userEmail, similarity, scoreText);
      if r.Err? {
        return;
      }
      ghost var usersMid, recommendsMid, assetsMid := db.users, db.recommends, db.assets;
      ghost var accounts := Accounts(result);
      ghost var oldNext := old(db.nextAssetId);
      RowsBelow(old(db.assets), oldNext);
      if resDepositTrust.None? || resDepositTrust.value == [] {
        assert AccountRows(accounts, parseLong, userEmail, oldNext) == [];
        assert db.assets == Filter(old(db.assets), NotDepositOf(userEmail))
                          + AccountRows(accounts, parseLong, userEmail, oldNext);
        DepositsReplaced(old(db.assets), oldNext, userEmail, accounts, parseLong, db.assets);
        return;
      }
      if userEmail in old(db.users) && Assets.RowsComplete(Assets.AssetsOf(old(db.assets), userEmail)) {
        FilterMembers(old(db.assets), NotDepositOf(userEmail));
        Assets.CompleteCarriesOver(old(db.assets), db.assets, userEmail);
      }
      AddAccounts(db, userEmail, resDepositTrust.value, parseLong, similarity, scoreText);
      DepositsReplaced(old(db.assets), oldNext, userEmail, accounts, parseLong, db.assets);
      SyncComposes(old(db.users), old(db.recommends), usersMid, recommendsMid, assetsMid,
                   db.users, db.recommends, db.assets, db.products, userEmail, similarity, scoreText);
    }
  }

  /**
   * The state of the deletion loop once the rows of the user with an id in `ids` are gone:
   * every other old row is still stored, and the tables are untouched until the first delete
   * and in sync with the remaining rows after it.
   */
  predicate Deleting(users: map<string, UserVo>, recommends: seq<CustomRecommendVo>, assets: seq<AssetStatusVo>,
                     users0: map<string, UserVo>, recommends0: seq<CustomRecommendVo>, assets0: seq<AssetStatusVo>,
                     products: seq<ProductVo>, email: string, ids: set<int>,
                     similarity: (real, real, real, real) -> real, scoreText: real -> string) {
    assets == Filter(assets0, Outside(email, ids))
    && (forall a | a in assets0 && !IsDepositOf(email)(a) :: a in assets)
    && (|assets| == |assets0| ==> users == users0 && recommends == recommends0)
    && (|assets| < |assets0| ==> Assets.InSync(users, recommends, users0, recommends0, assets, products, email,
                                               similarity, scoreText))
    && |assets| <= |assets0|
  }

  /** Before the first delete nothing is deleted. */
  lemma DeletingStarts(users0: map<string, UserVo>, recommends0: seq<CustomRecommendVo>, assets0: seq<AssetStatusVo>,
                       products: seq<ProductVo>, email: string,
                       similarity: (real, real, real, real) -> real, scoreText: real -> string)
    ensures Deleting(users0, recommends0, assets0, users0, recommends0, assets0, products, email, {},
                     similarity, scoreText)
  {
    FilterAll(assets0, Outside(email, {}));
  }

  /** What the state of the deletion loop says about the tables when the loop stops. */
  lemma DeletingFacts(users: map<string, UserVo>, recommends: seq<CustomRecommendVo>, assets: seq<AssetStatusVo>,
                      users0: map<string, UserVo>, recommends0: seq<CustomRecommendVo>, assets0: seq<AssetStatusVo>,
                      products: seq<ProductVo>, email: string, ids: set<int>,
                      similarity: (real, real, real, real) -> real, scoreText: real -> string)
    requires Deleting(users, recommends, assets, users0, recommends0, assets0, products, email, ids,
                      similarity, scoreText)
    ensures forall a | a in assets :: a in assets0
    ensures (users == users0 && recommends == recommends0)
         || Assets.InSync(users, recommends, users0, recommends0, assets, products, email, similarity, scoreText)
  {
    FilterMembers(assets0, Outside(email, ids));
  }

  /** Once the ids of all the user's deposit rows are deleted, exactly the user's deposit rows are gone. */
  lemma DeletedAll(users: map<string, UserVo>, recommends: seq<CustomRecommendVo>, assets: seq<AssetStatusVo>,
                   users0: map<string, UserVo>, recommends0: seq<CustomRecommendVo>, assets0: seq<AssetStatusVo>,
                   products: seq<ProductVo>, email: string,
                   similarity: (real, real, real, real) -> real, scoreText: real -> string)
    requires UniqueAssetIds(assets0)
    requires Deleting(users, recommends, assets, users0, recommends0, assets0, products, email,
                      DepositIds(Assets.AssetsOf(assets0, email)), similarity, scoreText)
    ensures assets == Filter(assets0, NotDepositOf(email))
    ensures forall a | a in assets :: a in assets0
    ensures (users == users0 && recommends == recommends0)
         || Assets.InSync(users, recommends, users0, recommends0, assets, products, email, similarity, scoreText)
  {
    OutsideDepositIds(assets0, email);
    FilterSame(assets0, Outside(email, DepositIds(Assets.AssetsOf(assets0, email))), NotDepositOf(email));
    FilterMembers(assets0, NotDepositOf(email));
  }

  /** A successful delete of a deposit row not yet deleted advances the state of the deletion loop. */
  lemma DeleteStep(users0: map<string, UserVo>, recommends0: seq<CustomRecommendVo>, assets0: seq<AssetStatusVo>,
                   users1: map<string, UserVo>, recommends1: seq<CustomRecommendVo>, assets1: seq<AssetStatusVo>,
                   users2: map<string, UserVo>, recommends2: seq<CustomRecommendVo>, assets2: seq<AssetStatusVo>,
                   products: seq<ProductVo>, email: string, ids: set<int>, vo: AssetStatusVo,
                   similarity: (real, real, real, real) -> real, scoreText: real -> string)
    requires UniqueAssetIds(assets0)
    requires Deleting(users1, recommends1, assets1, users0, recommends0, assets0, products, email, ids,
                      similarity, scoreText)
    requires vo in assets0 && IsDepositOf(email)(vo) && Outside(email, ids)(vo)
    requires assets2 == Filter(assets1, Assets.NotAsset(vo.assetId, email))
    requires Assets.InSync(users2, recommends2, users1, recommends1, assets2, products, email, similarity, scoreText)
    ensures Deleting(users2, recommends2, assets2, users0, recommends0, assets0, products, email, ids + {vo.assetId},
                     similarity, scoreText)
  {
    FilterMembers(assets0, Outside(email, ids));
    OthersKept(assets0, assets1, vo, email);
    FilterDrops(assets1, Assets.NotAsset(vo.assetId, email), vo);
    FilterBoth(assets0, Outside(email, ids), Assets.NotAsset(vo.assetId, email), Outside(email, ids + {vo.assetId}));
    if |assets1| < |assets0| {
      Assets.InSyncChains(users0, recommends0, users1, recommends1, assets1,
                          users2, recommends2, assets2, products, email, similarity, scoreText);
    }
  }

  /** A delete in the loop fails only when the user is unknown or has a row without an amount. */
  lemma DeleteFails(users0: map<string, UserVo>, assets0: seq<AssetStatusVo>,
                    users1: map<string, UserVo>, recommends1: seq<CustomRecommendVo>, assets1: seq<AssetStatusVo>,
                    products: seq<ProductVo>, email: string, ids: set<int>, vo: AssetStatusVo,
                    recommends0: seq<CustomRecommendVo>,
                    similarity: (real, real, real, real) -> real, scoreText: real -> string)
    requires Deleting(users1, recommends1, assets1, users0, recommends0, assets0, products, email, ids,
                      similarity, scoreText)
    requires Assets.SummaryOutcome(Filter(assets1, Assets.NotAsset(vo.assetId, email)), users1, email).Err?
    ensures !(email in users0 && Assets.RowsComplete(Assets.AssetsOf(assets0, email)))
  {
    if email in users0 && Assets.RowsComplete(Assets.AssetsOf(assets0, email)) {
      FilterMembers(assets0, Outside(email, ids));
      FilterMembers(assets1, Assets.NotAsset(vo.assetId, email));
      Assets.CompleteCarriesOver(assets0, Filter(assets1, Assets.NotAsset(vo.assetId, email)), email);
    }
  }

  /** Deleting the deposit row `vo` by id and owner keeps every row that is not a deposit of the owner. */
  lemma OthersKept(assets0: seq<AssetStatusVo>, assets: seq<AssetStatusVo>, vo: AssetStatusVo, email: string)
    requires UniqueAssetIds(assets0) && vo in assets0 && IsDepositOf(email)(vo)
    requires forall a | a in assets0 && !IsDepositOf(email)(a) :: a in assets
    ensures forall a | a in assets0 && !IsDepositOf(email)(a) :: a in Filter(assets, Assets.NotAsset(vo.assetId, email))
  {
    FilterMembers(assets, Assets.NotAsset(vo.assetId, email));
    forall a | a in assets0 && !IsDepositOf(email)(a)
      ensures Assets.NotAsset(vo.assetId, email)(a)
    {
      if a.assetId == vo.assetId && a.email == email {
        Assets.SameIdSameRow(assets0, a, vo);
      }
    }
  }

  /**
   * The state of the insertion loop after the accounts `accounts`: each parsed account has
   * taken the next id; the rows are stored only when the user's summary can be written, in
   * which case the tables are in sync with them.
   */
  predicate Adding(users: map<string, UserVo>, recommends: seq<CustomRecommendVo>, assets: seq<AssetStatusVo>,
                   next: int, users0: map<string, UserVo>, recommends0: seq<CustomRecommendVo>,
                   assets0: seq<AssetStatusVo>, next0: int, products: seq<ProductVo>, email: string,
                   accounts: seq<map<string, string>>, parseLong: string -> Option<int>,
                   similarity: (real, real, real, real) -> real, scoreText: real -> string) {
    var good := email in users0 && Assets.RowsComplete(Assets.AssetsOf(assets0, email));
    var rows := AccountRows(accounts, parseLong, email, next0);
    next == next0 + |rows|
    && (good ==> assets == assets0 + rows)
    && (!good ==> assets == assets0 && users == users0 && recommends == recommends0)
    && ((users == users0 && recommends == recommends0 && assets == assets0)
        || Assets.InSync(users, recommends, users0, recommends0, assets, products, email, similarity, scoreText))
  }

  /** An account whose balance does not parse is skipped. */
  lemma AddSkipped(users: map<string, UserVo>, recommends: seq<CustomRecommendVo>, assets: seq<AssetStatusVo>,
                   next: int, users0: map<string, UserVo>, recommends0: seq<CustomRecommendVo>,
                   assets0: seq<AssetStatusVo>, next0: int, products: seq<ProductVo>, email: string,
                   accounts: seq<map<string, string>>, account: map<string, string>, parseLong: string -> Option<int>,
                   similarity: (real, real, real, real) -> real, scoreText: real -> string)
    requires DepositRequest(account, parseLong).None?
    requires Adding(users, recommends, assets, next, users0, recommends0, assets0, next0, products, email,
                    accounts, parseLong, similarity, scoreText)
    ensures Adding(users, recommends, assets, next, users0, recommends0, assets0, next0, products, email,
                   accounts + [account], parseLong, similarity, scoreText)
  {
    assert (accounts + [account])[..|accounts|] == accounts;
  }

  /** One `addAssetStatus` of a parsed account advances the state of the insertion loop. */
  lemma AddStep(users1: map<string, UserVo>, recommends1: seq<CustomRecommendVo>, assets1: seq<AssetStatusVo>,
                next1: int, users2: map<string, UserVo>, recommends2: seq<CustomRecommendVo>,
                assets2: seq<AssetStatusVo>, next2: int, users0: map<string, UserVo>,
                recommends0: seq<CustomRecommendVo>, assets0: seq<AssetStatusVo>, next0: int,
                products: seq<ProductVo>, email: string, accounts: seq<map<string, string>>,
                account: map<string, string>, parseLong: string -> Option<int>, ok: bool,
                similarity: (real, real, real, real) -> real, scoreText: real -> string)
    requires DepositRequest(account, parseLong).Some?
    requires Adding(users1, recommends1, assets1, next1, users0, recommends0, assets0, next0, products, email,
                    accounts, parseLong, similarity, scoreText)
    requires next2 == next1 + 1
    requires ok <==> Assets.SummaryOutcome(assets1 + [Assets.RowOf(next1, email, DepositRequest(account, parseLong).value)],
                                           users1, email).Ok?
    requires !ok ==> assets2 == assets1 && users2 == users1 && recommends2 == recommends1
    requires ok ==> (assets2 == assets1 + [Assets.RowOf(next1, email, DepositRequest(account, parseLong).value)]
      && Assets.InSync(users2, recommends2, users1, recommends1, assets2, products, email, similarity, scoreText))
    ensures Adding(users2, recommends2, assets2, next2, users0, recommends0, assets0, next0, products, email,
                   accounts + [account], parseLong, similarity, scoreText)
  {
    var row := Assets.RowOf(next1, email, DepositRequest(account, parseLong).value);
    var rows := AccountRows(accounts, parseLong, email, next0);
    AccountRowsSnoc(accounts, account, parseLong, email, next0);
    assert AccountRows(accounts + [account], parseLong, email, next0) == rows + [row];
    var good := email in users0 && Assets.RowsComplete(Assets.AssetsOf(assets0, email));
    AccountRowsAreFresh(accounts, parseLong, email, next0);
    assert Assets.RowComplete(row);
    assert good ==> email in users1;
    AddOutcome(users1, assets1, users0, assets0, rows, row, email, good, ok);
    assert next2 == next0 + |rows + [row]|;
    if ok && !(users1 == users0 && recommends1 == recommends0 && assets1 == assets0) {
      Assets.InSyncChains(users0, recommends0, users1, recommends1, assets1,
                          users2, recommends2, assets2, products, email, similarity, scoreText);
    }
  }

  /**
   * Inserting one more row of parsed amount succeeds exactly when the user exists and none of
   * their earlier rows lacks an amount.
   */
  lemma AddOutcome(users1: map<string, UserVo>, assets1: seq<AssetStatusVo>, users0: map<string, UserVo>,
                   assets0: seq<AssetStatusVo>, rows: seq<AssetStatusVo>, row: AssetStatusVo, email: string,
                   good: bool, ok: bool)
    requires good == (email in users0 && Assets.RowsComplete(Assets.AssetsOf(assets0, email)))
    requires forall a | a in rows + [row] :: Assets.RowComplete(a)
    requires good ==> assets1 == assets0 + rows && email in users1
    requires !good ==> assets1 == assets0 && users1 == users0
    requires ok <==> Assets.SummaryOutcome(assets1 + [row], users1, email).Ok?
    ensures ok <==> good
  {
    if good {
      assert assets1 + [row] == assets0 + (rows + [row]);
      Assets.CompleteCarriesOver(assets0, assets1 + [row], email);
    } else if email in users0 {
      Assets.IncompletePersists(assets0, assets1 + [row], email);
    }
  }

  /** An account whose balance parses adds one row, with the next id, after the rows before it. */
  lemma AccountRowsSnoc(accounts: seq<map<string, string>>, account: map<string, string>,
                        parseLong: string -> Option<int>, email: string, firstId: int)
    requires DepositRequest(account, parseLong).Some?
    ensures var before := AccountRows(accounts, parseLong, email, firstId);
      AccountRows(accounts + [account], parseLong, email, firstId)
        == before + [Assets.RowOf(firstId + |before|, email, DepositRequest(account, parseLong).value)]
  {
    assert (accounts + [account])[..|accounts|] == accounts;
  }

  /** Every stored id is below the counter, as a membership fact. */
  lemma RowsBelow(assets: seq<AssetStatusVo>, next: int)
    requires forall i | 0 <= i < |assets| :: assets[i].assetId < next
    ensures forall a | a in assets :: a.assetId < next
  {
  }

  /**
   * Replacing the deposit rows by rows numbered from the counter keeps every other old row
   * and no old deposit row.
   */
  lemma DepositsReplaced(assets: seq<AssetStatusVo>, next: int, email: string, accounts: seq<map<string, string>>,
                         parseLong: string -> Option<int>, final: seq<AssetStatusVo>)
    requires forall a | a in assets :: a.assetId < next
    requires final == Filter(assets, NotDepositOf(email))
          || final == Filter(assets, NotDepositOf(email)) + AccountRows(accounts, parseLong, email, next)
    ensures forall a | a in assets && !IsDepositOf(email)(a) :: a in final
    ensures forall a | a in assets && IsDepositOf(email)(a) :: a !in final
  {
    FilterMembers(assets, NotDepositOf(email));
    AccountRowsAreFresh(accounts, parseLong, email, next);
  }

  /** Two phases each leaving the tables untouched or in sync leave them untouched or in sync. */
  lemma SyncComposes(users0: map<string, UserVo>, recommends0: seq<CustomRecommendVo>,
                     users1: map<string, UserVo>, recommends1: seq<CustomRecommendVo>, assets1: seq<AssetStatusVo>,
                     users2: map<string, UserVo>, recommends2: seq<CustomRecommendVo>, assets2: seq<AssetStatusVo>,
                     products: seq<ProductVo>, email: string,
                     similarity: (real, real, real, real) -> real, scoreText: real -> string)
    requires (users1 == users0 && recommends1 == recommends0)
          || Assets.InSync(users1, recommends1, users0, recommends0, assets1, products, email, similarity, scoreText)
    requires (users2 == users1 && recommends2 == recommends1 && assets2 == assets1)
          || Assets.InSync(users2, recommends2, users1, recommends1, assets2, products, email, similarity, scoreText)
    ensures (users2 == users0 && recommends2 == recommends0)
         || Assets.InSync(users2, recommends2, users0, recommends0, assets2, products, email, similarity, scoreText)
  {
    if !(users1 == users0 && recommends1 == recommends0)
       && !(users2 == users1 && recommends2 == recommends1 && assets2 == assets1) {
      Assets.InSyncChains(users0, recommends0, users1, recommends1, assets1,
                          users2, recommends2, assets2, products, email, similarity, scoreText);
    }
  }

  /** The user and recommendation tables are as given. */
  predicate Untouched(db: Database, users: map<string, UserVo>, recommends: seq<CustomRecommendVo>)
    reads db
  {
    db.users == users && db.recommends == recommends
  }

  /** `result.get("data")`: `NoData` when the key is absent; the account list itself may be `null`. */
  datatype AccountInfoResult = NoData | Data(resDepositTrust: Option<seq<map<string, string>>>)

  /** The reported accounts, none when the list is missing. */
  function Accounts(result: Option<AccountInfoResult>): seq<map<string, string>> {
    if result.Some? && result.value.Data? && result.value.resDepositTrust.Some? then result.value.resDepositTrust.value
    else []
  }

  /** A deposit row of the user: category "2". */
  function IsDepositOf(email: string): AssetStatusVo -> bool {
    (a: AssetStatusVo) => a.email == email && a.assetCategoryCode == Some("2")
  }

  function NotDepositOf(email: string): AssetStatusVo -> bool {
    (a: AssetStatusVo) => !(a.email == email && a.assetCategoryCode == Some("2"))
  }

  /** The ids of the deposit rows among `rows`. */
  function DepositIds(rows: seq<AssetStatusVo>): set<int> {
    set a | a in rows && a.assetCategoryCode == Some("2") :: a.assetId
  }

  /** One more row adds its id to the deposit ids exactly when it is a deposit. */
  lemma DepositIdsAppend(rows: seq<AssetStatusVo>, vo: AssetStatusVo)
    ensures DepositIds(rows + [vo]) == DepositIds(rows) + (if vo.assetCategoryCode == Some("2") then {vo.assetId} else {})
  {
    assert forall a | a in rows + [vo] :: a in rows || a == vo;
  }

  /** The rows of the user not yet deleted, when the ids in `ids` have been. */
  function Outside(email: string, ids: set<int>): AssetStatusVo -> bool {
    (a: AssetStatusVo) => !(a.email == email && a.assetId in ids)
  }

  /** The deposit row at position `i` of the user's rows is still stored when only earlier ones were deleted. */
  lemma DepositStillStored(assets: seq<AssetStatusVo>, existing: seq<AssetStatusVo>, i: nat, email: string, ids: set<int>)
    requires existing == Assets.AssetsOf(assets, email) && UniqueAssetIds(existing)
    requires i < |existing| && ids == DepositIds(existing[..i])
    ensures existing[i] in assets && existing[i].email == email
    ensures Outside(email, ids)(existing[i])
  {
    FilterMembers(assets, Assets.OwnedBy(email));
    assert existing[i] in existing;
  }

  /** Deleting the ids of all the user's deposit rows deletes exactly the user's deposit rows. */
  lemma OutsideDepositIds(assets: seq<AssetStatusVo>, email: string)
    requires UniqueAssetIds(assets)
    ensures forall a | a in assets ::
      Outside(email, DepositIds(Assets.AssetsOf(assets, email)))(a) == NotDepositOf(email)(a)
  {
    var existing := Assets.AssetsOf(assets, email);
    FilterMembers(assets, Assets.OwnedBy(email));
    forall a | a in assets
      ensures Outside(email, DepositIds(existing))(a) == NotDepositOf(email)(a)
    {
      if a.email == email && a.assetId in DepositIds(existing) {
        var b :| b in existing && b.assetCategoryCode == Some("2") && b.assetId == a.assetId;
        Assets.SameIdSameRow(assets, a, b);
      }
    }
  }

  /** The request for one reported account, or `None` when its balance is missing or does not parse. */
  function DepositRequest(account: map<string, string>, parseLong: string -> Option<int>)
    : (r: Option<Assets.AssetRequest>)
    ensures r.Some? <==> "resAccountBalance" in account && parseLong(account["resAccountBalance"]).Some?
    ensures r.Some? ==> (r.value.assetCategoryCode == Some("2") && r.value.businessType == None
      && r.value.amount == parseLong(account["resAccountBalance"])
      && r.value.assetName == (if "resAccountName" in account then Some(account["resAccountName"]) else None))
  {
    if "resAccountBalance" !in account then None
    else match parseLong(account["resAccountBalance"])
      case None => None
      case Some(balance) =>
        var name := if "resAccountName" in account then Some(account["resAccountName"]) else None;
        Some(Assets.AssetRequest(Some("2"), Some(balance), name, None))
  }

  /** The rows the reported accounts become when every insert succeeds, numbered from `firstId`. */
  function AccountRows(accounts: seq<map<string, string>>, parseLong: string -> Option<int>, email: string,
                       firstId: int): (r: seq<AssetStatusVo>)
    ensures |r| <= |accounts|
    decreases |accounts|
  {
    if accounts == [] then []
    else
      var before := AccountRows(accounts[..|accounts| - 1], parseLong, email, firstId);
      match DepositRequest(accounts[|accounts| - 1], parseLong)
      case None => before
      case Some(request) => before + [Assets.RowOf(firstId + |before|, email, request)]
  }

  /**
   * Every added row is a deposit of the user with a parsed amount and a fresh, consecutive id,
   * and there is one per account whose balance parses.
   */
  lemma {:induction false} AccountRowsAreFresh(accounts: seq<map<string, string>>, parseLong: string -> Option<int>,
                                               email: string, firstId: int)
    ensures forall i | 0 <= i < |AccountRows(accounts, parseLong, email, firstId)| ::
      AccountRows(accounts, parseLong, email, firstId)[i].assetId == firstId + i
    ensures forall a | a in AccountRows(accounts, parseLong, email, firstId) ::
      a.assetId >= firstId && IsDepositOf(email)(a) && a.amount.Some? && a.businessType == None
    ensures (forall k | 0 <= k < |accounts| :: DepositRequest(accounts[k], parseLong).Some?) ==>
      |AccountRows(accounts, parseLong, email, firstId)| == |accounts|
    decreases |accounts|
  {
    if accounts != [] {
      var init := accounts[..|accounts| - 1];
      AccountRowsAreFresh(init, parseLong, email, firstId);
      if forall k | 0 <= k < |accounts| :: DepositRequest(accounts[k], parseLong).Some? {
        assert forall k | 0 <= k < |init| :: init[k] == accounts[k];
        assert DepositRequest(accounts[|accounts| - 1], parseLong).Some?;
      }
    }
  }
}
