/**
 * The rows the MyBatis mappers read and write, and the in-memory database that stands for the
 * tables behind them. Each mapper call of the services becomes a read or an assignment of one
 * field of `Database`; the SQL itself is not visible, so each table follows the mapper's doc
 * comment: users and refresh tokens are keyed by email, the other tables are sequences of rows
 * in the order a `SELECT` returns them.
 */
module Tables {
  import opened Wrappers
  import opened Dates
  import opened Products
  import GiftTax

  /** The exceptions the services throw, one constructor per exception class. */
  datatype Failure =
    | NoSuchElement
    | UserNotFound
    | BranchNotFound
    | AccessDenied
    | DuplicateBooking
    | InvalidBookingDate
    | IllegalArgument
    | IllegalState
    | AssetNotFound
    | NullPointer
    | Runtime
    | TooManyResults

  /** `UserVo`; the email is the primary key. `asset` is a Java `Long`, the two ratios `Double`s. */
  datatype UserVo = UserVo(
    email: string,
    userName: Option<string>,
    userPhone: Option<string>,
    birth: Option<Date>,
    connectedId: Option<string>,
    branchId: Option<int>,
    asset: Option<int>,
    filename1: Option<string>,
    filename2: Option<string>,
    tendency: Option<real>,
    assetProportion: Option<real>,
    point: int)

  /** `DocInfoDto`: the list of documents to bring to a booking. */
  datatype DocInfo = DocInfo(requiredDocuments: seq<string>)

  /** `BookingVo`: `bookingId` is the ULID, `bookingCode` the public code, `time` an `HH:mm...` string. */
  datatype BookingVo = BookingVo(
    bookingId: string,
    bookingCode: string,
    branchId: int,
    email: string,
    finPrdtCode: Option<string>,
    date: Option<Date>,
    time: Option<string>,
    docInfo: DocInfo)

  /** `AssetStatusVo`: one asset of a user; `assetId` is generated on insert. */
  datatype AssetStatusVo = AssetStatusVo(
    assetId: int,
    email: string,
    assetCategoryCode: Option<string>,
    amount: Option<int>,
    assetName: Option<string>,
    businessType: Option<string>)

  /** `CustomRecommendVo`; the score is stored as the text of a `double`. */
  datatype CustomRecommendVo = CustomRecommendVo(userEmail: string, finPrdtCd: string, score: string)

  /** `NewsVo` without its database-generated id and timestamp. */
  datatype NewsVo = NewsVo(category: int, title: string, link: string, date: string, summary: string)

  /** No two rows of the asset table share an id: the id is a primary key. */
  predicate UniqueAssetIds(assets: seq<AssetStatusVo>) {
    forall i, j | 0 <= i < |assets| && 0 <= j < |assets| && i != j :: assets[i].assetId != assets[j].assetId
  }

  /**
   * The keys the services rely on: users stored under their email, generated ids below the
   * counters, and no two asset rows with one id.
   */
  predicate ValidTables(users: map<string, UserVo>, assets: seq<AssetStatusVo>, nextAssetId: int,
                        recipients: seq<GiftTax.Recipient>, nextRecipientId: int) {
    (forall e | e in users :: users[e].email == e)
    && (forall i | 0 <= i < |assets| :: assets[i].assetId < nextAssetId)
    && UniqueAssetIds(assets)
    && (forall i | 0 <= i < |recipients| :: recipients[i].recipientId < nextRecipientId)
  }

  class Database {
    var users: map<string, UserVo>
    var refreshTokens: map<string, string>
    var bookings: seq<BookingVo>
    var assets: seq<AssetStatusVo>
    /** The next value of the asset table's auto-increment key. */
    var nextAssetId: int
    var recommends: seq<CustomRecommendVo>
    var recipients: seq<GiftTax.Recipient>
    /** The next value of the recipient table's auto-increment key. */
    var nextRecipientId: int
    var news: seq<NewsVo>
    /** Branch names by id; no service of the model changes them. */
    var branches: map<int, string>
    /** The product catalogue; no service of the model changes it. */
    var products: seq<ProductVo>

    /** The keys the services rely on; see `ValidTables`. */
    ghost predicate Valid()
      reads this
    {
      ValidTables(users, assets, nextAssetId, recipients, nextRecipientId)
    }

    constructor (branches: map<int, string>, products: seq<ProductVo>)
      ensures Valid()
      ensures users == map[] && refreshTokens == map[] && bookings == [] && assets == []
      ensures recommends == [] && recipients == [] && news == []
      ensures this.branches == branches && this.products == products
    {
      users := map[];
      refreshTokens := map[];
      bookings := [];
      assets := [];
      nextAssetId := 1;
      recommends := [];
      recipients := [];
      nextRecipientId := 1;
      news := [];
      this.branches := branches;
      this.products := products;
    }
  }
}
