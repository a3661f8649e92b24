/**
 * `HomeService`: the home page. Everyone sees the same three recommended products; a signed-in
 * user also sees their name and total asset, and the detail of their nearest booking. The user
 * and booking tables are those of `Database`, and the product and branch name services are the
 * parameters `productName` and `branchName`.
 */
module HomeService {
  import opened Wrappers
  import opened JavaText
  import opened Dates
  import opened Sorting
  import opened Tables
  import opened UserDtos
  import UserService
  import BookingDtos
  import BookingService

  /** `RecommendationDto`. */
  datatype Recommendation = Recommendation(
    finPrdtCd: string,
    finPrdtNm: string,
    prdtFeature: string,
    intrRate: real,
    intrRate2: real)

  /** `UserSummary`. */
  datatype UserSummary = UserSummary(name: Option<string>, asset: Option<int>)

  /** `HomeResponseDto`: an absent summary or booking is `null`. */
  datatype HomeResponse = HomeResponse(
    userSummary: Option<UserSummary>,
    recommandTop3: seq<Recommendation>,
    nearestBooking: Option<BookingService.BookingDetail>)

  /** The three hard-coded recommendations, in this order. */
  const RECOMMENDS: seq<Recommendation> := [
    Recommendation("KB001", "KB Star 정기예금", "6개월 예치, 안정적인 이자 수익", 3.2, 4.0),
    Recommendation("KB002", "KB 골드 연금", "장기 투자 적합 연금 상품", 4.0, 5.5),
    Recommendation("KB003", "KB 투자형 펀드", "리스크 있지만 수익률 기대", 5.5, 10.2)]

  // ------------------------------------------------------------------ findNearestBooking

  /**
   * `bookings.stream().min(Comparator.comparing(BookingDto::getDate))`, as the position of the
   * booking it returns. The stream keeps the booking found so far while it compares at most
   * (`compare(kept, next) <= 0`), so of equal dates the first wins. Comparing a `null` date
   * throws, and every booking is compared once there are two.
   */
  function EarliestIndex(s: seq<BookingDtos.BookingDto>): (r: Result<Option<nat>, Failure>)
    ensures r.Err? <==> |s| >= 2 && exists k | 0 <= k < |s| :: s[k].date.None?
    ensures r.Err? ==> r.error == NullPointer
    ensures r == Ok(None) <==> s == []
    ensures r.Ok? && r.value.Some? ==> r.value.value < |s|
    ensures r.Ok? && r.value.Some? && |s| >= 2 ==>
      var m := r.value.value;
      && s[m].date.Some?
      && (forall k | 0 <= k < |s| :: s[k].date.Some? && !LexLess(s[k].date.value, s[m].date.value))
      && (forall k | 0 <= k < m :: LexLess(s[m].date.value, s[k].date.value))
    decreases |s|
  {
    if s == [] then Ok(None)
    else if |s| == 1 then Ok(Some(0))
    else
      var n := |s| - 1;
      var front := s[..n];
      assert forall k | 0 <= k < n :: front[k] == s[k];
      var acc := EarliestIndex(front);
      if acc.Err? then Err(acc.error)
      else
        var m := acc.value.value;
        var kept, next := s[m], s[n];
        if kept.date.None? || next.date.None? then
          assert n >= 2 ==> kept.date.Some?;
          Err(NullPointer)
        else if !LexLess(next.date.value, kept.date.value) then
          assert forall k | 0 <= k < n :: !LexLess(s[k].date.value, kept.date.value) by {
            if n == 1 {
              assert m == 0;
            }
          }
          Ok(Some(m))
        else
          assert forall k | 0 <= k < n :: LexLess(next.date.value, s[k].date.value) by {
            forall k | 0 <= k < n
              ensures LexLess(next.date.value, s[k].date.value)
            {
              LexLessTotal(s[k].date.value, kept.date.value);
              if s[k].date.value != kept.date.value {
                LexLessTransitive(next.date.value, kept.date.value, s[k].date.value);
              }
            }
          }
          assert forall k | 0 <= k <= n :: !LexLess(s[k].date.value, next.date.value) by {
            forall k | 0 <= k <= n
              ensures !LexLess(s[k].date.value, next.date.value)
            {
              if k < n {
                LexLessAsymmetric(next.date.value, s[k].date.value);
              }
            }
          }
          Ok(Some(n))
  }

  /**
   * `findNearestBooking`: the detail of the booking `min` returns, looked up again by its id, or
   * `null` when the user has none.
   */
  function FindNearestBooking(bookings: seq<BookingVo>, userEmail: string,
                              productName: Option<string> -> Option<string>,
                              branchName: int -> Option<string>): (r: Result<Option<BookingService.BookingDetail>, Failure>)
    ensures r == Ok(None) <==> forall b | b in bookings :: b.email != userEmail
  {
    var list := BookingService.BookingsByEmail(bookings, userEmail);
    var m := EarliestIndex(list);
    if m.Err? then
      assert list[0] in list;
      Err(m.error)
    else if m.value.None? then
      Ok(None)
    else
      var shown := list[m.value.value];
      assert shown in list;
      var d := BookingService.GetBookingById(bookings, shown.bookingId, productName, branchName);
      assert d.Ok? by {
        var b :| b in bookings && b.email == userEmail && shown == BookingDtos.Of(b);
      }
      Ok(Some(d.value))
  }

  /** A booking the list shows is one of the user's rows, so looking it up by id never fails. */
  lemma ListedBookingIsStored(bookings: seq<BookingVo>, userEmail: string, i: nat,
                              productName: Option<string> -> Option<string>, branchName: int -> Option<string>)
    requires i < |BookingService.BookingsByEmail(bookings, userEmail)|
    ensures BookingService.GetBookingById(bookings, BookingService.BookingsByEmail(bookings, userEmail)[i].bookingId,
                                          productName, branchName).Ok?
  {
    var list := BookingService.BookingsByEmail(bookings, userEmail);
    assert list[i] in list;
    var b :| b in bookings && b.email == userEmail && list[i] == BookingDtos.Of(b);
  }

  /** No booking of the user is on an earlier day than `b`. */
  predicate NoneEarlier(bookings: seq<BookingVo>, userEmail: string, b: BookingVo)
    requires forall c | c in bookings :: c.date.Some?
    requires b.date.Some?
  {
    forall c | c in bookings && c.email == userEmail :: !Before(c.date.value, b.date.value)
  }

  /** With real dates of four-digit years, the row behind the booking `min` picks is on the user's earliest day. */
  lemma EarliestRowIsEarliest(bookings: seq<BookingVo>, userEmail: string, i: nat, b: BookingVo)
    requires forall c | c in bookings :: c.date.Some? && Valid(c.date.value) && c.date.value.year < 10000
    requires b in bookings && b.email == userEmail
    requires EarliestIndex(BookingService.BookingsByEmail(bookings, userEmail)) == Ok(Some(i))
    requires i < |BookingService.BookingsByEmail(bookings, userEmail)|
    requires BookingService.BookingsByEmail(bookings, userEmail)[i] == BookingDtos.Of(b)
    ensures NoneEarlier(bookings, userEmail, b)
  {
    var list := BookingService.BookingsByEmail(bookings, userEmail);
    forall c | c in bookings && c.email == userEmail
      ensures !Before(c.date.value, b.date.value)
    {
      assert BookingDtos.Of(c) in list;
      var j :| 0 <= j < |list| && list[j] == BookingDtos.Of(c);
      IsoOrder(c.date.value, b.date.value);
      if |list| < 2 {
        assert j == i;
      } else {
        assert !LexLess(list[j].date.value, list[i].date.value);
      }
    }
  }

  /**
   * The nearest booking is one of the user's own, and the earliest of them: with real dates of
   * four-digit years, comparing `yyyy-MM-dd` strings is comparing dates, so no booking of the
   * user is on an earlier day.
   */
  lemma NearestIsEarliest(bookings: seq<BookingVo>, userEmail: string,
                          productName: Option<string> -> Option<string>, branchName: int -> Option<string>)
    requires BookingService.BookingsValid(bookings)
    requires forall b | b in bookings :: b.date.Some? && Valid(b.date.value) && b.date.value.year < 10000
    ensures var r := FindNearestBooking(bookings, userEmail, productName, branchName);
      r.Ok? && r.value.Some? ==>
        exists b | b in bookings && b.email == userEmail ::
          r.value.value == BookingService.Shown(b, productName, branchName) && NoneEarlier(bookings, userEmail, b)
  {
    var list := BookingService.BookingsByEmail(bookings, userEmail);
    var m := EarliestIndex(list);
    if m.Ok? && m.value.Some? {
      var i := m.value.value;
      assert list[i] in list;
      var b :| b in bookings && b.email == userEmail && list[i] == BookingDtos.Of(b);
      var k :| 0 <= k < |bookings| && bookings[k] == b;
      BookingService.ByIdOfStoredBooking(bookings, k, productName, branchName);
      EarliestRowIsEarliest(bookings, userEmail, i, b);
    }
  }

  // ------------------------------------------------------------------ getHomeData

  /**
   * `getHomeData`: without a signed-in user only the recommendations; with one, also their
   * summary and nearest booking. An unknown user (`getUser`) and a failed booking lookup throw.
   */
  function GetHomeData(users: map<string, UserVo>, bookings: seq<BookingVo>, userEmail: Option<string>,
                       productName: Option<string> -> Option<string>,
                       branchName: int -> Option<string>): (r: Result<HomeResponse, Failure>)
    ensures userEmail.None? ==> r == Ok(HomeResponse(None, RECOMMENDS, None))
    ensures userEmail.Some? && userEmail.value !in users ==> r == Err(NoSuchElement)
    ensures r.Ok? ==> r.value.recommandTop3 == RECOMMENDS
    ensures r.Ok? && userEmail.Some? ==>
      && userEmail.value in users
      && r.value.userSummary == Some(UserSummary(users[userEmail.value].userName, users[userEmail.value].asset))
      && Ok(r.value.nearestBooking) == FindNearestBooking(bookings, userEmail.value, productName, branchName)
  {
    if userEmail.None? then Ok(HomeResponse(None, RECOMMENDS, None))
    else
      var user := UserService.GetUser(users, userEmail.value);
      if user.Err? then Err(user.error)
      else
        var summary := UserSummary(user.value.userName, user.value.asset);
        var nearest := FindNearestBooking(bookings, userEmail.value, productName, branchName);
        if nearest.Err? then Err(nearest.error)
        else Ok(HomeResponse(Some(summary), RECOMMENDS, nearest.value))
  }
}
