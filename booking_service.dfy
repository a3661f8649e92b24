/**
 * `BookingServiceImpl`: creating, changing, deleting and looking up branch visit bookings.
 * The booking table is `Database.bookings`. `LocalDate.now()` is the parameter `today`, the ULID
 * generator the parameter `bookingId`, `SimpleDateFormat.parse` the parameter `parseDate`, the
 * product and branch name services the parameters `productName` and `branchName`, and the
 * mapper's "future booking" condition the parameter `isFuture`.
 */
module BookingService {
  import opened Wrappers
  import opened JavaText
  import opened Dates
  import opened Sorting
  import opened Tables
  import opened BookingCodes
  import BookingDtos

  // ------------------------------------------------------------------ validateBookingDate

  /** `validateBookingDate`: a date is accepted from today up to and including the same day next month. */
  function ValidateBookingDate(bookingDate: Option<Date>, today: Date): (r: Result<(), Failure>)
    requires Valid(today)
    ensures r.Err? ==> r.error == InvalidBookingDate
    ensures r.Ok? <==> bookingDate.Some? && !Before(bookingDate.value, today)
                       && !Before(PlusOneMonth(today), bookingDate.value)
  {
    if bookingDate.None? then Err(InvalidBookingDate)
    else if Before(bookingDate.value, today) || Before(PlusOneMonth(today), bookingDate.value) then Err(InvalidBookingDate)
    else Ok(())
  }

  /**
   * Both ends of the window are accepted, and the accepted dates form an interval: a date between
   * two accepted ones is accepted too.
   */
  lemma WindowIsInterval(today: Date, d: Date, e: Date, f: Date)
    requires Valid(today)
    ensures ValidateBookingDate(Some(today), today).Ok?
    ensures ValidateBookingDate(Some(PlusOneMonth(today)), today).Ok?
    ensures (ValidateBookingDate(Some(d), today).Ok? && ValidateBookingDate(Some(f), today).Ok?
             && !Before(e, d) && !Before(f, e)) ==> ValidateBookingDate(Some(e), today).Ok?
  {
  }

  // ------------------------------------------------------------------ generateInitialDocInfo

  /** The documents to bring for a product code, as the table in `generateInitialDocInfo` lists them. */
  function RequiredDocuments(prdtCode: Option<string>): (r: seq<string>)
    ensures |r| >= 1
    ensures r[0] in {"신분증 (필수)", "신분증", "실명확인증"}
    ensures prdtCode.None? || prdtCode.value == [] <==> r == ["신분증 (필수)"]
  {
    if prdtCode.None? || prdtCode.value == [] then ["신분증 (필수)"]
    else if StartsWith(prdtCode.value, "LN") then
      ["신분증", "주민등록등본", "가족관계증명서", "인감증명서 및 인감도장",
       "소득증빙서류 (재직/사업자 유형에 따라 상이)", "부동산 등기권리증 또는 매매계약서", "건축물대장"]
    else if StartsWith(prdtCode.value, "DP") then ["신분증"]
    else if prdtCode.value == "gift" then ["실명확인증", "가족관계증명서", "인감증명서 및 인감도장"]
    else if prdtCode.value == "inheritance" then ["실명확인증", "피상속인의 가족관계증명서", "피상속인의 기본증명서", "인감증명서"]
    else ["신분증", "상품가입 관련 추가서류 (필요시)"]
  }

  /** How many documents each kind of product code asks for. */
  lemma DocumentCounts(code: string)
    requires code != []
    ensures StartsWith(code, "LN") ==> |RequiredDocuments(Some(code))| == 7
    ensures !StartsWith(code, "LN") && StartsWith(code, "DP") ==> RequiredDocuments(Some(code)) == ["신분증"]
    ensures |RequiredDocuments(Some("gift"))| == 3 && |RequiredDocuments(Some("inheritance"))| == 4
    ensures !StartsWith(code, "LN") && !StartsWith(code, "DP") && code != "gift" && code != "inheritance"
            ==> |RequiredDocuments(Some(code))| == 2
  {
    assert "gift"[..2][0] == 'g' && "inheritance"[..2][0] == 'i';
  }

  /** `generateInitialDocInfo`: builds the list by appending the table's documents one by one. */
  method GenerateInitialDocInfo(prdtCode: Option<string>) returns (docInfo: DocInfo)
    ensures docInfo.requiredDocuments == RequiredDocuments(prdtCode)
  {
    var requiredDocs: seq<string> := [];
    if prdtCode.None? || prdtCode.value == [] {
      requiredDocs := requiredDocs + ["신분증 (필수)"];
      return DocInfo(requiredDocs);
    }
    var code := prdtCode.value;
    if StartsWith(code, "LN") {
      requiredDocs := requiredDocs + ["신분증"];
      requiredDocs := requiredDocs + ["주민등록등본"];
      requiredDocs := requiredDocs + ["가족관계증명서"];
      requiredDocs := requiredDocs + ["인감증명서 및 인감도장"];
      requiredDocs := requiredDocs + ["소득증빙서류 (재직/사업자 유형에 따라 상이)"];
      requiredDocs := requiredDocs + ["부동산 등기권리증 또는 매매계약서"];
      requiredDocs := requiredDocs + ["건축물대장"];
    } else if StartsWith(code, "DP") {
      requiredDocs := requiredDocs + ["신분증"];
    } else if code == "gift" {
      requiredDocs := requiredDocs + ["실명확인증"];
      requiredDocs := requiredDocs + ["가족관계증명서"];
      requiredDocs := requiredDocs + ["인감증명서 및 인감도장"];
    } else if code == "inheritance" {
      requiredDocs := requiredDocs + ["실명확인증"];
      requiredDocs := requiredDocs + ["피상속인의 가족관계증명서"];
      requiredDocs := requiredDocs + ["피상속인의 기본증명서"];
      requiredDocs := requiredDocs + ["인감증명서"];
    } else {
      requiredDocs := requiredDocs + ["신분증"];
      requiredDocs := requiredDocs + ["상품가입 관련 추가서류 (필요시)"];
    }
    docInfo := DocInfo(requiredDocs);
  }

  // ------------------------------------------------------------------ keys of the booking table

  /** The slot a booking holds; a booking without a date or a time holds none (SQL `NULL` matches nothing). */
  function SlotKey(b: BookingVo): Option<(int, Date, string)> {
    if b.date.Some? && b.time.Some? then Some((b.branchId, b.date.value, b.time.value)) else None
  }

  function IdKey(b: BookingVo): Option<string> {
    Some(b.bookingId)
  }

  /**
   * What the service keeps true of the table: ids and occupied slots are each unique. Codes are
   * not: the daily sequence can hand out a code still in use.
   */
  predicate BookingsValid(bookings: seq<BookingVo>) {
    DistinctKeys(bookings, IdKey) && DistinctKeys(bookings, SlotKey)
  }

  /** `countByBranchDateTime`'s condition: the booking holds the slot of this branch, date and time. */
  function AtSlot(branchId: int, date: Option<Date>, time: Option<string>): BookingVo -> bool {
    (b: BookingVo) => date.Some? && time.Some? && SlotKey(b) == Some((branchId, date.value, time.value))
  }

  /** `countByBranchDateTime(branchId, date, time)`. */
  function SlotCount(bookings: seq<BookingVo>, branchId: int, date: Option<Date>, time: Option<string>): (r: nat)
    ensures r <= |bookings|
    ensures r == 0 <==> forall b | b in bookings :: !AtSlot(branchId, date, time)(b)
  {
    var kept := Filter(bookings, AtSlot(branchId, date, time));
    FilterMembers(bookings, AtSlot(branchId, date, time));
    assert kept != [] ==> kept[0] in kept;
    |kept|
  }

  function HasId(bookingId: string): BookingVo -> bool {
    (b: BookingVo) => b.bookingId == bookingId
  }

  function NotId(bookingId: string): BookingVo -> bool {
    (b: BookingVo) => b.bookingId != bookingId
  }

  function HasCode(bookingCode: string): BookingVo -> bool {
    (b: BookingVo) => b.bookingCode == bookingCode
  }

  /** `findById`: the row with this id, if any. */
  function FindById(bookings: seq<BookingVo>, bookingId: string): (r: Option<nat>)
    ensures r.Some? ==> r.value < |bookings| && bookings[r.value].bookingId == bookingId
    ensures r.None? <==> forall b | b in bookings :: b.bookingId != bookingId
  {
    var k := IndexWhere(bookings, HasId(bookingId));
    assert k.None? ==> forall b | b in bookings :: b.bookingId != bookingId by {
      if k.None? {
        forall b | b in bookings
          ensures b.bookingId != bookingId
        {
          var j :| 0 <= j < |bookings| && bookings[j] == b;
          assert !HasId(bookingId)(bookings[j]);
        }
      }
    }
    k
  }

  /** With unique ids the row `findById` returns is the only one with that id. */
  lemma FindByIdUnique(bookings: seq<BookingVo>, k: nat)
    requires BookingsValid(bookings) && k < |bookings|
    ensures FindById(bookings, bookings[k].bookingId) == Some(k)
  {
    var r := FindById(bookings, bookings[k].bookingId);
    assert r.Some? by {
      assert bookings[k] in bookings;
    }
    assert IdKey(bookings[r.value]) == IdKey(bookings[k]);
  }

  // ------------------------------------------------------------------ detail lookup

  /** `BookingDetailResponseDto`. */
  datatype BookingDetail = BookingDetail(
    bookingCode: string,
    branchName: Option<string>,
    prodName: Option<string>,
    date: Option<string>,
    time: Option<string>,
    docInfo: DocInfo)

  /** `BookingDetailResponseDto.of`: the code, the formatted date, the time and the documents of the row, with the two names. */
  function DetailOf(b: BookingVo, prodName: Option<string>, branchName: Option<string>): (r: BookingDetail)
    ensures r.bookingCode == b.bookingCode && r.time == b.time && r.docInfo == b.docInfo
    ensures r.date == BookingDtos.IsoOrNull(b.date)
    ensures r.prodName == prodName && r.branchName == branchName
  {
    BookingDetail(b.bookingCode, branchName, prodName, BookingDtos.IsoOrNull(b.date), b.time, b.docInfo)
  }

  /**
   * `findByBookingCode`, a MyBatis single-row select: no row gives `null`, one row gives that row,
   * and two or more rows make it throw `TooManyResultsException`.
   */
  function FindByCode(bookings: seq<BookingVo>, bookingCode: string): (r: Result<Option<nat>, Failure>)
    ensures r == Ok(None) <==> forall b | b in bookings :: b.bookingCode != bookingCode
    ensures r.Ok? && r.value.Some? ==> var k := r.value.value;
      && k < |bookings| && bookings[k].bookingCode == bookingCode
      && forall j | 0 <= j < |bookings| && j != k :: bookings[j].bookingCode != bookingCode
    ensures r.Err? <==> exists i, j | 0 <= i < j < |bookings| ::
                          bookings[i].bookingCode == bookingCode && bookings[j].bookingCode == bookingCode
    ensures r.Err? ==> r.error == TooManyResults
  {
    var k := IndexWhere(bookings, HasCode(bookingCode));
    if k.None? then
      assert forall b | b in bookings :: b.bookingCode != bookingCode by {
        forall b | b in bookings ensures b.bookingCode != bookingCode {
          var j :| 0 <= j < |bookings| && bookings[j] == b;
          assert !HasCode(bookingCode)(bookings[j]);
        }
      }
      Ok(None)
    else
      var i := k.value;
      var later := bookings[i + 1..];
      var second := IndexWhere(later, HasCode(bookingCode));
      assert bookings[i] in bookings && HasCode(bookingCode)(bookings[i]);
      if second.Some? then
        assert later[second.value] == bookings[i + 1 + second.value];
        Err(TooManyResults)
      else
        assert forall j | i < j < |bookings| :: bookings[j] == later[j - i - 1];
        assert forall j | 0 <= j < |bookings| && j != i :: !HasCode(bookingCode)(bookings[j]);
        Ok(k)
  }

  /**
   * The row an identifier names: by code when it contains a `'-'`, by id otherwise; a null
   * identifier names none. A code held by several rows fails the code lookup.
   */
  function FindByIdentifier(bookings: seq<BookingVo>, identifier: Option<string>): (r: Result<Option<nat>, Failure>)
    ensures r.Err? ==> identifier.Some? && Contains(identifier.value, "-")
                       && r == FindByCode(bookings, identifier.value)
    ensures r.Ok? && r.value.Some? ==> identifier.Some? && r.value.value < |bookings|
    ensures r.Ok? && r.value.Some? && Contains(identifier.value, "-") ==>
              bookings[r.value.value].bookingCode == identifier.value
    ensures r.Ok? && r.value.Some? && !Contains(identifier.value, "-") ==>
              bookings[r.value.value].bookingId == identifier.value
    ensures identifier.None? ==> r == Ok(None)
  {
    if identifier.None? then Ok(None)
    else if Contains(identifier.value, "-") then FindByCode(bookings, identifier.value)
    else Ok(FindById(bookings, identifier.value))
  }

  /** `getBookingDetailByIdentifier`: the requester sees the detail of their own booking only, with the time cut to `HH:mm`. */
  function GetBookingDetailByIdentifier(bookings: seq<BookingVo>, identifier: Option<string>, requesterEmail: string,
                                        productName: Option<string> -> Option<string>,
                                        branchName: int -> Option<string>): (r: Result<BookingDetail, Failure>)
    ensures r == Err(TooManyResults) <==> FindByIdentifier(bookings, identifier).Err?
    ensures r == Err(NoSuchElement) <==> FindByIdentifier(bookings, identifier) == Ok(None)
    ensures r == Err(AccessDenied) <==> (FindByIdentifier(bookings, identifier).Ok?
      && FindByIdentifier(bookings, identifier).value.Some?
      && bookings[FindByIdentifier(bookings, identifier).value.value].email != requesterEmail)
    ensures r.Ok? ==> FindByIdentifier(bookings, identifier).Ok? && FindByIdentifier(bookings, identifier).value.Some?
    ensures r.Ok? ==> var b := bookings[FindByIdentifier(bookings, identifier).value.value];
      && b.email == requesterEmail
      && r.value == DetailOf(b.(time := BookingDtos.ListTime(b.time)), productName(b.finPrdtCode), branchName(b.branchId))
  {
    var found := FindByIdentifier(bookings, identifier);
    if found.Err? then Err(found.error)
    else if found.value.None? then Err(NoSuchElement)
    else
      var b := bookings[found.value.value];
      if requesterEmail != b.email then Err(AccessDenied)
      else
        var shown := b.(time := BookingDtos.ListTime(b.time));
        Ok(DetailOf(shown, productName(b.finPrdtCode), branchName(b.branchId)))
  }

  /**
   * In a valid table a booking is found by its id (a ULID carries no `'-'`), and by its code (a
   * generated code carries one) when no other row holds that code: its owner gets its detail,
   * anyone else is refused. A code another row also holds cannot be looked up at all.
   */
  lemma DetailOfStoredBooking(bookings: seq<BookingVo>, k: nat, requesterEmail: string,
                              productName: Option<string> -> Option<string>, branchName: int -> Option<string>)
    requires BookingsValid(bookings) && k < |bookings|
    ensures var b := bookings[k];
      Contains(b.bookingCode, "-") && (forall j | 0 <= j < |bookings| && j != k :: bookings[j].bookingCode != b.bookingCode) ==>
        var r := GetBookingDetailByIdentifier(bookings, Some(b.bookingCode), requesterEmail, productName, branchName);
        && (requesterEmail == b.email ==> r.Ok? && r.value.bookingCode == b.bookingCode && r.value.docInfo == b.docInfo)
        && (requesterEmail != b.email ==> r == Err(AccessDenied))
    ensures var b := bookings[k];
      Contains(b.bookingCode, "-") && (exists j | 0 <= j < |bookings| && j != k :: bookings[j].bookingCode == b.bookingCode) ==>
        GetBookingDetailByIdentifier(bookings, Some(b.bookingCode), requesterEmail, productName, branchName)
          == Err(TooManyResults)
    ensures var b := bookings[k];
      !Contains(b.bookingId, "-") ==>
        var r := GetBookingDetailByIdentifier(bookings, Some(b.bookingId), requesterEmail, productName, branchName);
        && (requesterEmail == b.email ==> r.Ok? && r.value.bookingCode == b.bookingCode)
        && (requesterEmail != b.email ==> r == Err(AccessDenied))
  {
    var b := bookings[k];
    if Contains(b.bookingCode, "-") {
      assert b in bookings;
      if exists j | 0 <= j < |bookings| && j != k :: bookings[j].bookingCode == b.bookingCode {
        var j :| 0 <= j < |bookings| && j != k && bookings[j].bookingCode == b.bookingCode;
        if j < k {
          assert 0 <= j < k < |bookings|;
        } else {
          assert 0 <= k < j < |bookings|;
        }
      }
    }
    if !Contains(b.bookingId, "-") {
      FindByIdUnique(bookings, k);
    }
  }

  /** What `getBookingById` shows of a row: its detail, with the time cut as the list cuts it. */
  function Shown(b: BookingVo, productName: Option<string> -> Option<string>, branchName: int -> Option<string>): BookingDetail {
    DetailOf(b.(time := BookingDtos.ListTime(b.time)), productName(b.finPrdtCode), branchName(b.branchId))
  }

  /** `getBookingById`: the detail of the row with this id, or `NoSuchElementException` when there is none. */
  function GetBookingById(bookings: seq<BookingVo>, bookingId: string,
                          productName: Option<string> -> Option<string>,
                          branchName: int -> Option<string>): (r: Result<BookingDetail, Failure>)
    ensures r.Err? <==> forall b | b in bookings :: b.bookingId != bookingId
    ensures r.Err? ==> r.error == NoSuchElement
    ensures r.Ok? ==> exists b | b in bookings && b.bookingId == bookingId :: r.value == Shown(b, productName, branchName)
  {
    var k := FindById(bookings, bookingId);
    if k.None? then Err(NoSuchElement)
    else
      assert bookings[k.value] in bookings;
      Ok(Shown(bookings[k.value], productName, branchName))
  }

  /** In a valid table, looking a booking up by its own id gives that booking's detail. */
  lemma ByIdOfStoredBooking(bookings: seq<BookingVo>, k: nat,
                            productName: Option<string> -> Option<string>, branchName: int -> Option<string>)
    requires BookingsValid(bookings) && k < |bookings|
    ensures GetBookingById(bookings, bookings[k].bookingId, productName, branchName) == Ok(Shown(bookings[k], productName, branchName))
  {
    FindByIdUnique(bookings, k);
  }

  // ------------------------------------------------------------------ getBookingsByEmail

  function BookedBy(email: string): BookingVo -> bool {
    (b: BookingVo) => b.email == email
  }

  /**
   * `getBookingsByEmail`'s list: the list DTO of every booking of this user, in table order, and
   * nothing else.
   */
  function BookingsByEmail(bookings: seq<BookingVo>, email: string): (r: seq<BookingDtos.BookingDto>)
    ensures forall d | d in r :: exists b | b in bookings && b.email == email :: d == BookingDtos.Of(b)
    ensures forall b | b in bookings && b.email == email :: BookingDtos.Of(b) in r
    ensures r == MapAll(Filter(bookings, BookedBy(email)), BookingDtos.Of)
  {
    var mine := Filter(bookings, BookedBy(email));
    FilterMembers(bookings, BookedBy(email));
    var r := MapAll(mine, BookingDtos.Of);
    assert forall d | d in r :: exists b | b in bookings && b.email == email :: d == BookingDtos.Of(b) by {
      forall d | d in r
        ensures exists b | b in bookings && b.email == email :: d == BookingDtos.Of(b)
      {
        var i :| 0 <= i < |r| && r[i] == d;
        assert mine[i] in mine;
      }
    }
    assert forall b | b in bookings && b.email == email :: BookingDtos.Of(b) in r by {
      forall b | b in bookings && b.email == email
        ensures BookingDtos.Of(b) in r
      {
        assert b in mine;
        var i :| 0 <= i < |mine| && mine[i] == b;
        assert r[i] == BookingDtos.Of(b);
      }
    }
    r
  }

  // ------------------------------------------------------------------ getReservedSlotsByBranch

  /** The slot grouping's time: one of at least five characters is cut to `HH:mm`, any other kept. */
  function SlotTime(t: Option<string>): (r: Option<string>)
    ensures r.Some? <==> t.Some?
    ensures t.Some? && |t.value| >= 5 ==> r.value == t.value[..5]
  {
    if t.Some? && |t.value| >= 5 then Some(t.value[..5]) else t
  }

  /** Cutting at "at least five" and at "more than five" agree on every time, since a five-character time is its own first five. */
  lemma SlotTimeIsListTime(t: Option<string>)
    ensures SlotTime(t) == BookingDtos.ListTime(t)
  {
    if t.Some? && |t.value| == 5 {
      assert t.value[..5] == t.value;
    }
  }

  /** The `yyyy-MM-dd` group key of a dated booking. */
  function DateKey(b: BookingVo): string {
    if b.date.Some? then FormatIso(b.date.value) else ""
  }

  function SlotOf(b: BookingVo): Option<string> {
    SlotTime(b.time)
  }

  /** `findFutureByBranch`'s rows: the branch's bookings the mapper counts as future. */
  function FutureOf(branchId: int, isFuture: BookingVo -> bool): BookingVo -> bool {
    (b: BookingVo) => b.branchId == branchId && isFuture(b)
  }

  /** `getReservedSlotsByBranch`: a future booking without a date makes the grouping throw. */
  function ReservedSlots(bookings: seq<BookingVo>, branchId: int, isFuture: BookingVo -> bool)
    : (r: Result<map<string, seq<Option<string>>>, Failure>)
    ensures r.Err? <==> exists b | b in Filter(bookings, FutureOf(branchId, isFuture)) :: b.date.None?
    ensures r.Err? ==> r.error == NullPointer
  {
    var rows := Filter(bookings, FutureOf(branchId, isFuture));
    if exists b | b in rows :: b.date.None? then Err(NullPointer) else Ok(GroupBy(rows, DateKey, SlotOf))
  }

  /**
   * Every future booking of the branch is listed under the key of its own date and no other, and
   * every key is the date of one of them.
   */
  lemma ReservedSlotsListEach(bookings: seq<BookingVo>, branchId: int, isFuture: BookingVo -> bool, b: BookingVo)
    requires ReservedSlots(bookings, branchId, isFuture).Ok?
    requires b in bookings && b.branchId == branchId && isFuture(b)
    ensures var slots := ReservedSlots(bookings, branchId, isFuture).value;
      && DateKey(b) in slots && SlotTime(b.time) in slots[DateKey(b)]
      && forall k | k in slots && k != DateKey(b) ::
           b !in Filter(Filter(bookings, FutureOf(branchId, isFuture)), KeyIs(DateKey, k))
  {
    var rows := Filter(bookings, FutureOf(branchId, isFuture));
    FilterMembers(bookings, FutureOf(branchId, isFuture));
    assert b in rows;
    var i :| 0 <= i < |rows| && rows[i] == b;
    var slots := GroupBy(rows, DateKey, SlotOf);
    GroupByKeys(rows, DateKey, SlotOf);
    assert DateKey(rows[i]) == DateKey(b);
    GroupByGroups(rows, DateKey, SlotOf);
    var same := Filter(rows, KeyIs(DateKey, DateKey(b)));
    FilterMembers(rows, KeyIs(DateKey, DateKey(b)));
    assert b in same;
    var j :| 0 <= j < |same| && same[j] == b;
    assert MapAll(same, SlotOf)[j] == SlotTime(b.time);
    forall k | k in slots && k != DateKey(b)
      ensures b !in Filter(rows, KeyIs(DateKey, k))
    {
      FilterMembers(rows, KeyIs(DateKey, k));
    }
  }

  // ------------------------------------------------------------------ addBooking

  /** `BookingCreateRequestDto`: the date is the `yyyy-MM-dd` text the client sent. */
  datatype BookingCreateRequest = BookingCreateRequest(
    branchId: int,
    finPrdtCode: Option<string>,
    date: Option<string>,
    time: Option<string>)

  /** `BookingCreateResponseDto`. */
  datatype BookingCreateResponse = BookingCreateResponse(bookingCode: string, docInfo: DocInfo)

  /**
   * The checks `addBooking` makes before it writes, in its order: `toVo` parses the date (a null
   * text throws `NullPointerException`, an unparsable one `RuntimeException`), the date must lie in
   * the window, and the slot must be free. The result is the parsed date.
   */
  function Admit(bookings: seq<BookingVo>, request: BookingCreateRequest, today: Date,
                 parseDate: string -> Option<Date>): (r: Result<Date, Failure>)
    requires Valid(today)
    ensures r == Err(NullPointer) <==> request.date.None?
    ensures r == Err(Runtime) <==> request.date.Some? && parseDate(request.date.value).None?
    ensures r.Ok? <==> request.date.Some? && parseDate(request.date.value).Some?
                       && ValidateBookingDate(parseDate(request.date.value), today).Ok?
                       && SlotCount(bookings, request.branchId, parseDate(request.date.value), request.time) == 0
    ensures r.Ok? ==> Some(r.value) == parseDate(request.date.value)
    ensures r.Err? ==> r.error in {NullPointer, Runtime, InvalidBookingDate, DuplicateBooking}
  {
    if request.date.None? then Err(NullPointer)
    else
      var parsed := parseDate(request.date.value);
      if parsed.None? then Err(Runtime)
      else if ValidateBookingDate(parsed, today).Err? then Err(InvalidBookingDate)
      else if SlotCount(bookings, request.branchId, parsed, request.time) > 0 then Err(DuplicateBooking)
      else Ok(parsed.value)
  }

  /** The row `addBooking` inserts: the caller's email, the documents for the product, the new id and the code. */
  function NewBooking(bookings: seq<BookingVo>, email: string, request: BookingCreateRequest, date: Date,
                      bookingId: string): (r: BookingVo)
    ensures r.bookingId == bookingId && r.email == email && r.branchId == request.branchId
    ensures r.finPrdtCode == request.finPrdtCode && r.date == Some(date) && r.time == request.time
    ensures r.docInfo == DocInfo(RequiredDocuments(request.finPrdtCode))
    ensures r.bookingCode == BookingCode(date, request.branchId, SequenceAsWritten(bookings, request.branchId, date))
  {
    var code := BookingCode(date, request.branchId, SequenceAsWritten(bookings, request.branchId, date));
    BookingVo(bookingId, code, request.branchId, email, request.finPrdtCode, Some(date), request.time,
              DocInfo(RequiredDocuments(request.finPrdtCode)))
  }

  /** The inserted row keeps the table valid: its id is fresh and its slot free. */
  lemma NewBookingKeepsValid(bookings: seq<BookingVo>, email: string, request: BookingCreateRequest, today: Date,
                             parseDate: string -> Option<Date>, bookingId: string)
    requires Valid(today) && BookingsValid(bookings)
    requires forall b | b in bookings :: b.bookingId != bookingId
    requires Admit(bookings, request, today, parseDate).Ok?
    ensures BookingsValid(bookings + [NewBooking(bookings, email, request,
                                                 Admit(bookings, request, today, parseDate).value, bookingId)])
  {
    var date := Admit(bookings, request, today, parseDate).value;
    var row := NewBooking(bookings, email, request, date, bookingId);
    AppendKeepsDistinctKeys(bookings, row, IdKey);
    assert forall b | b in bookings :: !AtSlot(request.branchId, Some(date), request.time)(b);
    AppendKeepsDistinctKeys(bookings, row, SlotKey);
  }

  /**
   * As written, a day that lost its booking 001 and kept 002 gives the next booking 002 again,
   * after which looking that code up throws `TooManyResultsException`.
   */
  lemma ReusedCodeBreaksLookup(b: BookingVo, email: string, request: BookingCreateRequest, date: Date,
                               bookingId: string)
    requires b.branchId == request.branchId && b.date == Some(date)
    requires b.bookingCode == BookingCode(date, request.branchId, 2)
    ensures var row := NewBooking([b], email, request, date, bookingId);
      row.bookingCode == b.bookingCode && FindByCode([b] + [row], b.bookingCode) == Err(TooManyResults)
  {
    CodeReusedAfterDelete(b, request.branchId, date);
    var row := NewBooking([b], email, request, date, bookingId);
    var t := [b] + [row];
    assert t[0].bookingCode == b.bookingCode && t[1].bookingCode == b.bookingCode;
  }

  /** Once a booking with a time is in, the same request again is refused as a duplicate: the slot is taken. */
  lemma SameRequestTwice(bookings: seq<BookingVo>, email: string, request: BookingCreateRequest, today: Date,
                         parseDate: string -> Option<Date>, bookingId: string)
    requires Valid(today) && request.time.Some?
    requires Admit(bookings, request, today, parseDate).Ok?
    ensures var row := NewBooking(bookings, email, request, Admit(bookings, request, today, parseDate).value, bookingId);
      Admit(bookings + [row], request, today, parseDate) == Err(DuplicateBooking)
  {
    var date := Admit(bookings, request, today, parseDate).value;
    var row := NewBooking(bookings, email, request, date, bookingId);
    assert row in bookings + [row] && AtSlot(request.branchId, Some(date), request.time)(row);
  }

  /** `addBooking`: checks the request, then inserts the new row and answers with its code and documents. */
  method AddBooking(db: Database, email: string, request: BookingCreateRequest, today: Date,
                    parseDate: string -> Option<Date>, bookingId: string)
    returns (r: Result<BookingCreateResponse, Failure>)
    requires Valid(today) && BookingsValid(db.bookings)
    requires forall b | b in db.bookings :: b.bookingId != bookingId
    modifies db`bookings
    ensures BookingsValid(db.bookings)
    ensures var admitted := Admit(old(db.bookings), request, today, parseDate);
      admitted.Err? ==> r == Err(admitted.error) && db.bookings == old(db.bookings)
    ensures var admitted := Admit(old(db.bookings), request, today, parseDate);
      admitted.Ok? ==>
        var row := NewBooking(old(db.bookings), email, request, admitted.value, bookingId);
        && db.bookings == old(db.bookings) + [row]
        && r == Ok(BookingCreateResponse(row.bookingCode, row.docInfo))
  {
    if request.date.None? {
      return Err(NullPointer);
    }
    var parsed := parseDate(request.date.value);
    if parsed.None? {
      return Err(Runtime);
    }
    var valid := ValidateBookingDate(parsed, today);
    if valid.Err? {
      return Err(valid.error);
    }
    var existingBookings := SlotCount(db.bookings, request.branchId, parsed, request.time);
    if existingBookings > 0 {
      return Err(DuplicateBooking);
    }
    var date := parsed.value;
    var dailySequence := SequenceAsWritten(db.bookings, request.branchId, date);
    var bookingCode := BookingCode(date, request.branchId, dailySequence);
    var initialDocInfo := GenerateInitialDocInfo(request.finPrdtCode);
    var row := BookingVo(bookingId, bookingCode, request.branchId, email, request.finPrdtCode, parsed,
                         request.time, initialDocInfo);
    NewBookingKeepsValid(db.bookings, email, request, today, parseDate, bookingId);
    db.bookings := db.bookings + [row];
    r := Ok(BookingCreateResponse(row.bookingCode, row.docInfo));
  }

  // ------------------------------------------------------------------ patchBooking

  /** `BookingPatchRequestDto`: each field is optional. */
  datatype BookingPatch = BookingPatch(date: Option<string>, time: Option<string>)

  predicate Given(field: Option<string>) {
    field.Some? && field.value != []
  }

  /**
   * `patchBooking` on the row it found, once ownership is checked: a given date is parsed
   * (`IllegalArgumentException` when it cannot be) and validated, a given time is taken as it is,
   * and a changed slot must be free — counted over the whole table, the row itself included.
   * The result is the updated row.
   */
  function PatchedRow(bookings: seq<BookingVo>, existing: BookingVo, patch: BookingPatch, today: Date,
                      parseDate: string -> Option<Date>): (r: Result<BookingVo, Failure>)
    requires Valid(today)
    ensures r.Err? ==> r.error in {IllegalArgument, InvalidBookingDate, DuplicateBooking}
    ensures r.Ok? ==> r.value == existing.(date := r.value.date, time := r.value.time)
    ensures r.Ok? ==> r.value.date == (if Given(patch.date) then parseDate(patch.date.value) else existing.date)
    ensures r.Ok? ==> r.value.time == (if Given(patch.time) then patch.time else existing.time)
    ensures r.Ok? && (Given(patch.date) || Given(patch.time))
            ==> SlotCount(bookings, existing.branchId, r.value.date, r.value.time) == 0
  {
    var withDate :=
      if !Given(patch.date) then Ok(existing)
      else if parseDate(patch.date.value).None? then Err(IllegalArgument)
      else if ValidateBookingDate(parseDate(patch.date.value), today).Err? then Err(InvalidBookingDate)
      else Ok(existing.(date := parseDate(patch.date.value)));
    if withDate.Err? then Err(withDate.error)
    else
      var updated := if Given(patch.time) then withDate.value.(time := patch.time) else withDate.value;
      if (Given(patch.date) || Given(patch.time)) && SlotCount(bookings, updated.branchId, updated.date, updated.time) > 0
      then Err(DuplicateBooking)
      else Ok(updated)
  }

  /** The whole of `patchBooking`: lookup, ownership, then the row update; the result names the row's position and new value. */
  function PatchOutcome(bookings: seq<BookingVo>, bookingId: string, email: string, patch: BookingPatch, today: Date,
                        parseDate: string -> Option<Date>): (r: Result<(nat, BookingVo), Failure>)
    requires Valid(today)
    ensures r == Err(NoSuchElement) <==> FindById(bookings, bookingId).None?
    ensures r == Err(AccessDenied) <==> (FindById(bookings, bookingId).Some?
                                         && bookings[FindById(bookings, bookingId).value].email != email)
    ensures r.Ok? ==> var (k, row) := r.value;
      && FindById(bookings, bookingId) == Some(k) && bookings[k].email == email
      && row.bookingId == bookings[k].bookingId && row.bookingCode == bookings[k].bookingCode
      && row.branchId == bookings[k].branchId && row.email == bookings[k].email
      && row.finPrdtCode == bookings[k].finPrdtCode && row.docInfo == bookings[k].docInfo
  {
    var k := FindById(bookings, bookingId);
    if k.None? then Err(NoSuchElement)
    else if bookings[k.value].email != email then Err(AccessDenied)
    else
      var row := PatchedRow(bookings, bookings[k.value], patch, today, parseDate);
      if row.Err? then Err(row.error) else Ok((k.value, row.value))
  }

  /** A patch with neither field given changes nothing and runs no duplicate check. */
  lemma EmptyPatchChangesNothing(bookings: seq<BookingVo>, k: nat, patch: BookingPatch, today: Date,
                                 parseDate: string -> Option<Date>)
    requires Valid(today) && BookingsValid(bookings) && k < |bookings|
    requires !Given(patch.date) && !Given(patch.time)
    ensures PatchOutcome(bookings, bookings[k].bookingId, bookings[k].email, patch, today, parseDate) == Ok((k, bookings[k]))
  {
    FindByIdUnique(bookings, k);
  }

  /**
   * Because the booking itself is counted, re-sending a booking's own time (with its date kept)
   * is refused as a duplicate.
   */
  lemma OwnSlotCountsAsTaken(bookings: seq<BookingVo>, k: nat, today: Date, parseDate: string -> Option<Date>)
    requires Valid(today) && BookingsValid(bookings) && k < |bookings|
    requires bookings[k].date.Some? && Given(bookings[k].time)
    ensures PatchOutcome(bookings, bookings[k].bookingId, bookings[k].email, BookingPatch(None, bookings[k].time),
                         today, parseDate) == Err(DuplicateBooking)
  {
    FindByIdUnique(bookings, k);
    var b := bookings[k];
    assert b in bookings && AtSlot(b.branchId, b.date, b.time)(b);
  }

  /** A successful patch keeps the table valid. */
  lemma PatchKeepsValid(bookings: seq<BookingVo>, bookingId: string, email: string, patch: BookingPatch, today: Date,
                        parseDate: string -> Option<Date>)
    requires Valid(today) && BookingsValid(bookings)
    requires PatchOutcome(bookings, bookingId, email, patch, today, parseDate).Ok?
    ensures var (k, row) := PatchOutcome(bookings, bookingId, email, patch, today, parseDate).value;
      BookingsValid(bookings[k := row])
  {
    var (k, row) := PatchOutcome(bookings, bookingId, email, patch, today, parseDate).value;
    var previous := bookings[k];
    ReplaceKeepsDistinctKeys(bookings, k, row, IdKey);
    if Given(patch.date) || Given(patch.time) {
      forall i | 0 <= i < |bookings| && i != k && SlotKey(row).Some?
        ensures SlotKey(bookings[i]) != SlotKey(row)
      {
        assert bookings[i] in bookings;
        assert !AtSlot(row.branchId, row.date, row.time)(bookings[i]);
      }
    } else {
      assert row == previous;
    }
    ReplaceKeepsDistinctKeys(bookings, k, row, SlotKey);
  }

  /** `patchBooking`: updates the found row and answers with its detail; the time is shown as stored. */
  method PatchBooking(db: Database, bookingId: string, email: string, patch: BookingPatch, today: Date,
                      parseDate: string -> Option<Date>, productName: Option<string> -> Option<string>,
                      branchName: int -> Option<string>)
    returns (r: Result<BookingDetail, Failure>)
    requires Valid(today) && BookingsValid(db.bookings)
    modifies db`bookings
    ensures BookingsValid(db.bookings)
    ensures var outcome := PatchOutcome(old(db.bookings), bookingId, email, patch, today, parseDate);
      outcome.Err? ==> r == Err(outcome.error) && db.bookings == old(db.bookings)
    ensures var outcome := PatchOutcome(old(db.bookings), bookingId, email, patch, today, parseDate);
      outcome.Ok? ==>
        var (k, row) := outcome.value;
        && db.bookings == old(db.bookings)[k := row]
        && r == Ok(DetailOf(row, productName(row.finPrdtCode), branchName(row.branchId)))
  {
    var found := FindById(db.bookings, bookingId);
    if found.None? {
      return Err(NoSuchElement);
    }
    var k := found.value;
    var existing := db.bookings[k];
    if existing.email != email {
      return Err(AccessDenied);
    }
    var isTimeSlotChanged := false;
    if Given(patch.date) {
      var newDate := parseDate(patch.date.value);
      if newDate.None? {
        return Err(IllegalArgument);
      }
      var valid := ValidateBookingDate(newDate, today);
      if valid.Err? {
        return Err(valid.error);
      }
      existing := existing.(date := newDate);
      isTimeSlotChanged := true;
    }
    if Given(patch.time) {
      existing := existing.(time := patch.time);
      isTimeSlotChanged := true;
    }
    if isTimeSlotChanged {
      var existingCount := SlotCount(db.bookings, existing.branchId, existing.date, existing.time);
      if existingCount > 0 {
        return Err(DuplicateBooking);
      }
    }
    PatchKeepsValid(db.bookings, bookingId, email, patch, today, parseDate);
    db.bookings := db.bookings[k := existing];
    r := Ok(DetailOf(existing, productName(existing.finPrdtCode), branchName(existing.branchId)));
  }

  // ------------------------------------------------------------------ deleteBooking

  /**
   * `deleteBooking`: only the owner may delete; the rows with that id go and every other row stays,
   * in order.
   */
  method DeleteBooking(db: Database, bookingId: string, currentUserEmail: string) returns (r: Result<(), Failure>)
    requires BookingsValid(db.bookings)
    modifies db`bookings
    ensures BookingsValid(db.bookings)
    ensures FindById(old(db.bookings), bookingId).None? ==> r == Err(NoSuchElement) && db.bookings == old(db.bookings)
    ensures FindById(old(db.bookings), bookingId).Some?
            && old(db.bookings)[FindById(old(db.bookings), bookingId).value].email != currentUserEmail
            ==> r == Err(AccessDenied) && db.bookings == old(db.bookings)
    ensures r.Ok? <==> FindById(old(db.bookings), bookingId).Some?
                       && old(db.bookings)[FindById(old(db.bookings), bookingId).value].email == currentUserEmail
    ensures r.Ok? ==> db.bookings == Filter(old(db.bookings), NotId(bookingId))
  {
    var found := FindById(db.bookings, bookingId);
    if found.None? {
      return Err(NoSuchElement);
    }
    if db.bookings[found.value].email != currentUserEmail {
      return Err(AccessDenied);
    }
    FilterKeepsDistinctKeys(db.bookings, NotId(bookingId), IdKey);
    FilterKeepsDistinctKeys(db.bookings, NotId(bookingId), SlotKey);
    db.bookings := Filter(db.bookings, NotId(bookingId));
    r := Ok(());
  }

  /** With unique ids, no row but the `k`-th carries its id. */
  lemma OnlyRowWithId(bookings: seq<BookingVo>, k: nat)
    requires BookingsValid(bookings) && k < |bookings|
    ensures forall b | b in bookings[..k] + bookings[k + 1..] :: b.bookingId != bookings[k].bookingId
  {
    forall b | b in bookings[..k] + bookings[k + 1..]
      ensures b.bookingId != bookings[k].bookingId
    {
      var i :| 0 <= i < |bookings| && i != k && bookings[i] == b;
      assert IdKey(bookings[i]) != IdKey(bookings[k]);
    }
  }

  /** Deleting by the id of the `k`-th row of a valid table removes that row and no other. */
  lemma DeleteSplits(bookings: seq<BookingVo>, k: nat)
    requires BookingsValid(bookings) && k < |bookings|
    ensures Filter(bookings, NotId(bookings[k].bookingId)) == bookings[..k] + bookings[k + 1..]
  {
    var p := NotId(bookings[k].bookingId);
    forall i | 0 <= i < |bookings| && i != k
      ensures p(bookings[i])
    {
      assert IdKey(bookings[i]) != IdKey(bookings[k]);
    }
    FilterDropsOne(bookings, k, p);
  }

  /** After a delete the id is gone, every other booking is still there, and the table is one row shorter. */
  lemma DeleteRemovesExactlyOne(bookings: seq<BookingVo>, bookingId: string)
    requires BookingsValid(bookings) && FindById(bookings, bookingId).Some?
    ensures FindById(Filter(bookings, NotId(bookingId)), bookingId).None?
    ensures forall b | b in bookings && b.bookingId != bookingId :: b in Filter(bookings, NotId(bookingId))
    ensures |Filter(bookings, NotId(bookingId))| == |bookings| - 1
  {
    FilterMembers(bookings, NotId(bookingId));
    DeleteSplits(bookings, FindById(bookings, bookingId).value);
  }
}
