/**
 * `CustomRecommendServiceImpl`: rebuilding a user's product recommendations and reading them
 * back with a fixed fallback.
 *
 * The similarity score is a parameter (the cosine formula over the user's and the product's
 * tendency and asset proportion); `scoreText` is `String.valueOf(double)`, whose result the sort
 * reads back with `Double.parseDouble`, so the sort key is the score itself.
 */
module CustomRecommendService {
  import opened Wrappers
  import opened Sorting
  import opened Products
  import opened Tables
  import UserService

  /** How many recommendations are stored per user. */
  const TopLimit: nat := 8

  datatype CustomRecommendDto = CustomRecommendDto(finPrdtCd: string, score: string)

  /** `createTemporaryRecommendData`. */
  const TemporaryRecommendations: seq<CustomRecommendDto> :=
    [CustomRecommendDto("TEMP001", "85"), CustomRecommendDto("TEMP002", "90")]

  function RecommendedTo(email: string): CustomRecommendVo -> bool {
    (c: CustomRecommendVo) => c.userEmail == email
  }

  function ToDto(vo: CustomRecommendVo): CustomRecommendDto {
    CustomRecommendDto(vo.finPrdtCd, vo.score)
  }

  /** `getCustomRecommendsByEmail`: the stored rows as DTOs, or the two placeholders when there are none. */
  function GetCustomRecommendsByEmail(rows: seq<CustomRecommendVo>, email: string): (r: seq<CustomRecommendDto>)
    ensures Filter(rows, RecommendedTo(email)) == [] ==> r == TemporaryRecommendations
    ensures Filter(rows, RecommendedTo(email)) != [] ==> (|r| == |Filter(rows, RecommendedTo(email))|
      && forall i | 0 <= i < |r| :: r[i].finPrdtCd == Filter(rows, RecommendedTo(email))[i].finPrdtCd
                                 && r[i].score == Filter(rows, RecommendedTo(email))[i].score)
  {
    var recommendList := Filter(rows, RecommendedTo(email));
    if recommendList == [] then TemporaryRecommendations else MapAll(recommendList, ToDto)
  }

  /** A computed recommendation together with the number its score string encodes. */
  datatype Scored = Scored(vo: CustomRecommendVo, value: real)

  function ScoreOf(user: UserVo, p: ProductVo, similarity: (real, real, real, real) -> real): real {
    similarity(user.tendency.GetOr(0.0), user.assetProportion.GetOr(0.0),
               p.info.tendency.GetOr(0.0), p.info.assetProportion.GetOr(0.0))
  }

  /** Step 5 of `addCustomRecommend`: one scored row per product that has a code, in catalogue order. */
  function Candidates(products: seq<ProductVo>, user: UserVo, similarity: (real, real, real, real) -> real,
                      scoreText: real -> string): (r: seq<Scored>)
    ensures |r| <= |products|
    decreases |products|
  {
    if products == [] then []
    else
      var before := Candidates(products[..|products| - 1], user, similarity, scoreText);
      var p := products[|products| - 1];
      if p.info.finPrdtCd.None? then before
      else
        var score := ScoreOf(user, p, similarity);
        before + [Scored(CustomRecommendVo(user.email, p.info.finPrdtCd.value, scoreText(score)), score)]
  }

  /** Every candidate belongs to the user and names the code of a product of the catalogue. */
  lemma {:induction false} CandidatesFromCatalogue(products: seq<ProductVo>, user: UserVo,
                                                   similarity: (real, real, real, real) -> real, scoreText: real -> string)
    ensures forall c | c in Candidates(products, user, similarity, scoreText) ::
      c.vo.userEmail == user.email && exists p | p in products :: p.info.finPrdtCd == Some(c.vo.finPrdtCd)
    decreases |products|
  {
    if products != [] {
      CandidatesFromCatalogue(products[..|products| - 1], user, similarity, scoreText);
      forall c | c in Candidates(products, user, similarity, scoreText)
        ensures c.vo.userEmail == user.email && exists p | p in products :: p.info.finPrdtCd == Some(c.vo.finPrdtCd)
      {
        if c in Candidates(products[..|products| - 1], user, similarity, scoreText) {
          var p :| p in products[..|products| - 1] && p.info.finPrdtCd == Some(c.vo.finPrdtCd);
          assert p in products;
        } else {
          assert products[|products| - 1] in products;
        }
      }
    }
  }

  /** Descending score; `List.sort` is stable, so equal scores keep catalogue order. */
  function ByScoreDescending(): Scored -> Rank {
    (s: Scored) => Rank(0, -s.value)
  }

  /** Steps 6 and 7: the best `TopLimit` candidates, highest score first. */
  function TopCandidates(candidates: seq<Scored>): seq<Scored> {
    TakeFirst(SortBy(candidates, ByScoreDescending()), TopLimit)
  }

  /** At most eight rows are kept, best first, and none left out scores above one kept. */
  lemma TopCandidatesAreBest(candidates: seq<Scored>)
    ensures |TopCandidates(candidates)| == if |candidates| < TopLimit then |candidates| else TopLimit
    ensures forall i, j | 0 <= i < j < |TopCandidates(candidates)| ::
      TopCandidates(candidates)[i].value >= TopCandidates(candidates)[j].value
    ensures forall c | c in TopCandidates(candidates) :: c in candidates
    ensures forall x, y | x in TopCandidates(candidates) && y in candidates && y !in TopCandidates(candidates)
      :: x.value >= y.value
  {
    TopIsBest(candidates, ByScoreDescending(), TopLimit);
    var top := TopCandidates(candidates);
    forall i, j | 0 <= i < j < |top| ensures top[i].value >= top[j].value {
      assert RankLe(ByScoreDescending()(top[i]), ByScoreDescending()(top[j]));
    }
    forall x, y | x in top && y in candidates && y !in top ensures x.value >= y.value {
      assert RankLe(ByScoreDescending()(x), ByScoreDescending()(y));
    }
  }

  function RowOf(s: Scored): CustomRecommendVo {
    s.vo
  }

  /** The rows `addCustomRecommend` inserts for a user. */
  function Recommendations(products: seq<ProductVo>, user: UserVo, similarity: (real, real, real, real) -> real,
                           scoreText: real -> string): seq<CustomRecommendVo> {
    MapAll(TopCandidates(Candidates(products, user, similarity, scoreText)), RowOf)
  }

  /**
   * The recommendation table after `addCustomRecommend` for a stored user: unchanged for an
   * empty catalogue, otherwise the user's old rows replaced by the new best eight.
   */
  function RefreshedRecommendations(rows: seq<CustomRecommendVo>, products: seq<ProductVo>, user: UserVo,
                                    similarity: (real, real, real, real) -> real,
                                    scoreText: real -> string): seq<CustomRecommendVo> {
    if products == [] then rows
    else Filter(rows, UserService.NotRecommendedTo(user.email)) + Recommendations(products, user, similarity, scoreText)
  }

  /** Every new row belongs to the user it was computed for. */
  lemma RecommendationsBelongToUser(products: seq<ProductVo>, user: UserVo,
                                    similarity: (real, real, real, real) -> real, scoreText: real -> string)
    ensures forall c | c in Recommendations(products, user, similarity, scoreText) :: c.userEmail == user.email
    ensures |Recommendations(products, user, similarity, scoreText)| <= TopLimit
  {
    var newRows := Recommendations(products, user, similarity, scoreText);
    var candidates := Candidates(products, user, similarity, scoreText);
    TopCandidatesAreBest(candidates);
    CandidatesFromCatalogue(products, user, similarity, scoreText);
    forall c | c in newRows ensures c.userEmail == user.email {
      var i :| 0 <= i < |newRows| && newRows[i] == c;
      assert TopCandidates(candidates)[i] in candidates;
    }
  }

  /** Refreshing leaves every other user's rows as they were. */
  lemma RefreshKeepsOtherUsers(rows: seq<CustomRecommendVo>, products: seq<ProductVo>, user: UserVo,
                               similarity: (real, real, real, real) -> real, scoreText: real -> string,
                               other: string)
    requires other != user.email
    ensures Filter(RefreshedRecommendations(rows, products, user, similarity, scoreText), RecommendedTo(other))
         == Filter(rows, RecommendedTo(other))
  {
    if products != [] {
      var kept := Filter(rows, UserService.NotRecommendedTo(user.email));
      var newRows := Recommendations(products, user, similarity, scoreText);
      RecommendationsBelongToUser(products, user, similarity, scoreText);
      FilterAppend(kept, newRows, RecommendedTo(other));
      FilterNone(newRows, RecommendedTo(other));
      FilterOfFilter(rows, UserService.NotRecommendedTo(user.email), RecommendedTo(other));
    }
  }

  /** After a refresh over a non-empty catalogue the user has at most eight rows, all of them new. */
  lemma RefreshReplacesUserRows(rows: seq<CustomRecommendVo>, products: seq<ProductVo>, user: UserVo,
                                similarity: (real, real, real, real) -> real, scoreText: real -> string)
    requires products != []
    ensures Filter(RefreshedRecommendations(rows, products, user, similarity, scoreText), RecommendedTo(user.email))
         == Recommendations(products, user, similarity, scoreText)
    ensures |Filter(RefreshedRecommendations(rows, products, user, similarity, scoreText), RecommendedTo(user.email))|
         <= TopLimit
  {
    var kept := Filter(rows, UserService.NotRecommendedTo(user.email));
    var newRows := Recommendations(products, user, similarity, scoreText);
    RecommendationsBelongToUser(products, user, similarity, scoreText);
    FilterAppend(kept, newRows, RecommendedTo(user.email));
    FilterMembers(rows, UserService.NotRecommendedTo(user.email));
    FilterNone(kept, RecommendedTo(user.email));
    FilterAll(newRows, RecommendedTo(user.email));
  }

  /** Two refreshes for the same user leave what the second alone would. */
  lemma RefreshTwice(rows: seq<CustomRecommendVo>, products: seq<ProductVo>, first: UserVo, second: UserVo,
                     similarity: (real, real, real, real) -> real, scoreText: real -> string)
    requires first.email == second.email
    ensures RefreshedRecommendations(RefreshedRecommendations(rows, products, first, similarity, scoreText),
                                     products, second, similarity, scoreText)
         == RefreshedRecommendations(rows, products, second, similarity, scoreText)
  {
    if products != [] {
      var notMine := UserService.NotRecommendedTo(first.email);
      var kept := Filter(rows, notMine);
      var newRows := Recommendations(products, first, similarity, scoreText);
      RecommendationsBelongToUser(products, first, similarity, scoreText);
      assert notMine == UserService.NotRecommendedTo(second.email);
      var once := RefreshedRecommendations(rows, products, first, similarity, scoreText);
      assert once == kept + newRows;
      FilterAppend(kept, newRows, notMine);
      FilterNone(newRows, notMine);
      FilterOfFilter(rows, notMine, notMine);
      assert Filter(once, notMine) == kept;
    }
  }

  /** Step 5 as the loop it is: the products without a code are skipped. */
  method ScoreProducts(products: seq<ProductVo>, user: UserVo, similarity: (real, real, real, real) -> real,
                       scoreText: real -> string) returns (recommendVoList: seq<Scored>)
    ensures recommendVoList == Candidates(products, user, similarity, scoreText)
  {
    recommendVoList := [];
    for i := 0 to |products|
      invariant recommendVoList == Candidates(products[..i], user, similarity, scoreText)
    {
      assert products[..i + 1][..i] == products[..i];
      var vo := products[i];
      if vo.info.finPrdtCd.None? {
        continue;
      }
      var score := ScoreOf(user, vo, similarity);
      recommendVoList := recommendVoList + [Scored(CustomRecommendVo(user.email, vo.info.finPrdtCd.value, scoreText(score)), score)];
    }
    assert products[..|products|] == products;
  }

  /**
   * `addCustomRecommend`: an unknown user throws and an empty catalogue returns early, both
   * without touching the table; otherwise every previous recommendation of the user is
   * deleted and the best eight new ones are inserted, best first.
   */
  method AddCustomRecommend(db: Database, email: string, similarity: (real, real, real, real) -> real,
                            scoreText: real -> string) returns (r: Result<(), Failure>)
    requires db.Valid()
    modifies db`recommends
    ensures email !in db.users ==> r == Err(NoSuchElement) && db.recommends == old(db.recommends)
    ensures email in db.users && db.products == [] ==> r == Ok(()) && db.recommends == old(db.recommends)
    ensures email in db.users && db.products != [] ==> (r == Ok(())
      && db.recommends == Filter(old(db.recommends), UserService.NotRecommendedTo(email))
                          + Recommendations(db.products, db.users[email], similarity, scoreText))
    ensures email in db.users && db.users[email].email == email ==>
      r == Ok(()) && db.recommends == RefreshedRecommendations(old(db.recommends), db.products, db.users[email],
                                                              similarity, scoreText)
  {
    if email !in db.users {
      return Err(NoSuchElement);
    }
    var user := db.users[email];
    var products := db.products;
    if products == [] {
      return Ok(());
    }
    db.recommends := Filter(db.recommends, UserService.NotRecommendedTo(email));
    var recommendVoList := ScoreProducts(products, user, similarity, scoreText);
    var sorted := SortBy(recommendVoList, ByScoreDescending());
    var count := if TopLimit < |sorted| then TopLimit else |sorted|;
    InsertFirst(db, sorted, count);
    r := Ok(());
  }

  /** Step 7: `insertCustomRecommend` for each of the first `count` sorted rows, in order. */
  method InsertFirst(db: Database, sorted: seq<Scored>, count: nat)
    requires count <= |sorted|
    modifies db`recommends
    ensures db.recommends == old(db.recommends) + MapAll(sorted[..count], RowOf)
  {
    for i := 0 to count
      invariant db.recommends == old(db.recommends) + MapAll(sorted[..i], RowOf)
    {
      assert sorted[..i + 1][..i] == sorted[..i];
      db.recommends := db.recommends + [sorted[i].vo];
    }
  }
}
