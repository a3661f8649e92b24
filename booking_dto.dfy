/**
 * The two views of a stored booking: `BookingDto.of`, shown in the user's booking list, and
 * `BookingCheckDetailDto.from`, returned when a booking for a product is checked. They cut the
 * stored `HH:mm:ss` time to `HH:mm` by different rules.
 */
module BookingDtos {
  import opened Wrappers
  import opened Dates
  import opened Tables

  /** `booking.getDate() != null ? new SimpleDateFormat("yyyy-MM-dd").format(...) : null`. */
  function IsoOrNull(d: Option<Date>): (r: Option<string>)
    ensures r.Some? <==> d.Some?
    ensures d.Some? && d.value.year < 10000 ==> |r.value| == 10 && r.value[4] == '-' && r.value[7] == '-'
  {
    if d.None? then None else Some(FormatIso(d.value))
  }

  /** `BookingDto.of`'s time: a time longer than five characters is cut to five, any other kept. */
  function ListTime(t: Option<string>): (r: Option<string>)
    ensures r.Some? <==> t.Some?
    ensures t.Some? && |t.value| > 5 ==> r.value == t.value[..5]
    ensures t.Some? && |t.value| <= 5 ==> r == t
  {
    if t.Some? && |t.value| > 5 then Some(t.value[..5]) else t
  }

  /** `BookingCheckDetailDto.from`'s time: a time of at least five characters is cut to five, any other dropped. */
  function CheckTime(t: Option<string>): (r: Option<string>)
    ensures r.Some? <==> t.Some? && |t.value| >= 5
    ensures r.Some? ==> r.value == t.value[..5]
  {
    if t.Some? && |t.value| >= 5 then Some(t.value[..5]) else None
  }

  /** The two rules agree on every time of at least five characters and differ on every shorter one. */
  lemma TimeRulesCompared(t: string)
    ensures |t| >= 5 ==> ListTime(Some(t)) == CheckTime(Some(t)) == Some(t[..5])
    ensures |t| < 5 ==> ListTime(Some(t)) == Some(t) && CheckTime(Some(t)) == None
    ensures ListTime(None) == CheckTime(None) == None
  {
    if |t| == 5 {
      assert t[..5] == t;
    }
  }

  /** Either cut, applied twice, is the cut applied once, and never leaves more than five characters of a long time. */
  lemma TimeRulesIdempotent(t: Option<string>)
    ensures ListTime(ListTime(t)) == ListTime(t)
    ensures CheckTime(CheckTime(t)) == CheckTime(t)
    ensures t.Some? && |t.value| >= 5 ==> |ListTime(t).value| == 5
  {
    if t.Some? && |t.value| >= 5 {
      assert t.value[..5][..5] == t.value[..5];
    }
  }

  /** `BookingDto`. */
  datatype BookingDto = BookingDto(
    bookingId: string,
    bookingCode: string,
    branchId: int,
    finPrdtCode: Option<string>,
    date: Option<string>,
    time: Option<string>,
    docInfo: DocInfo)

  /** `BookingDto.of`: the stored fields copied, the date formatted and the time cut; the email is not shown. */
  function Of(b: BookingVo): (r: BookingDto)
    ensures r.bookingId == b.bookingId && r.bookingCode == b.bookingCode && r.branchId == b.branchId
    ensures r.finPrdtCode == b.finPrdtCode && r.docInfo == b.docInfo
    ensures r.date.Some? <==> b.date.Some?
    ensures b.date.Some? ==> r.date == Some(FormatIso(b.date.value))
    ensures r.time.Some? <==> b.time.Some?
    ensures b.time.Some? && |b.time.value| > 5 ==> r.time == Some(b.time.value[..5])
    ensures b.time.Some? && |b.time.value| <= 5 ==> r.time == b.time
  {
    BookingDto(b.bookingId, b.bookingCode, b.branchId, b.finPrdtCode, IsoOrNull(b.date), ListTime(b.time), b.docInfo)
  }

  /** `BookingCheckDetailDto`. */
  datatype BookingCheckDetail = BookingCheckDetail(bookingId: string, date: Option<string>, time: Option<string>,
                                                   branchId: int)

  /** `BookingCheckDetailDto.from`: only id, date, time and branch are filled. */
  function From(b: BookingVo): (r: BookingCheckDetail)
    ensures r.bookingId == b.bookingId && r.branchId == b.branchId
    ensures r.date.Some? <==> b.date.Some?
    ensures b.date.Some? ==> r.date == Some(FormatIso(b.date.value))
    ensures r.time.Some? <==> b.time.Some? && |b.time.value| >= 5
    ensures r.time.Some? ==> r.time.value == b.time.value[..5]
  {
    BookingCheckDetail(b.bookingId, IsoOrNull(b.date), CheckTime(b.time), b.branchId)
  }

  /** The two views of one booking show the same id, branch and date; their times agree exactly when the stored time has at least five characters. */
  lemma ViewsAgree(b: BookingVo)
    ensures From(b).bookingId == Of(b).bookingId && From(b).branchId == Of(b).branchId
    ensures From(b).date == Of(b).date
    ensures b.time.Some? ==> (From(b).time == Of(b).time <==> |b.time.value| >= 5)
  {
    if b.time.Some? && |b.time.value| == 5 {
      assert b.time.value[..5] == b.time.value;
    }
  }
}
