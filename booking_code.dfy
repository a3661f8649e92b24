/**
 * The public booking code `BookingServiceImpl.addBooking` builds: `yyMMdd-Bbbb-sss`, the date, the
 * zero-padded branch id and the zero-padded daily sequence number. As written the sequence is
 * the number of the branch's bookings on that day plus one, which repeats a code still in use
 * once a booking of that day has been deleted or moved; `FreshSequence` is the corrected choice.
 */
module BookingCodes {
  import opened Wrappers
  import opened JavaText
  import opened Dates
  import opened Sorting
  import opened Tables

  /** Where the pieces of `y-Bb-` sit, for a six-character `y`. */
  lemma PrefixPieces(y: string, b: string)
    requires |y| == 6
    ensures var r := y + (['-', 'B'] + (b + ['-']));
      && |r| == |b| + 9 && r[..6] == y && r[6] == '-' && r[7] == 'B'
      && r[8..8 + |b|] == b && r[|r| - 1] == '-'
  {
    var tail := ['-', 'B'] + (b + ['-']);
    assert tail[2..2 + |b|] == b;
    var r := y + tail;
    assert r[..6] == y;
    assert r[8..8 + |b|] == tail[2..2 + |b|];
  }

  /** A joined text starts with its first part, every slice of which it keeps, and goes on with the second. */
  lemma JoinPieces(p: string, f: string, i: nat, j: nat)
    requires i <= j <= |p|
    ensures (p + f)[..|p|] == p && (p + f)[|p|..] == f && (p + f)[i..j] == p[i..j]
  {
  }

  /** Text appended after a `y-B` start keeps that start, and with it a `'-'`. */
  lemma ShapeKept(p: string, f: string, y: string)
    requires |p| >= 8 && p[..6] == y && p[6] == '-' && p[7] == 'B'
    ensures var r := p + f; r[..6] == y && r[6] == '-' && r[7] == 'B' && Contains(r, "-")
  {
    var r := p + f;
    assert r[..6] == p[..6];
    assert r[6..7] == ['-'];
    assert OccursAt(r, "-", 6);
  }

  /** The part of a code in front of the sequence number: `yyMMdd-Bbbb-`. */
  function CodePrefix(date: Date, branchId: int): (r: string)
    ensures |r| >= 12
    ensures r[..6] == FormatYyMMdd(date) && r[6] == '-' && r[7] == 'B' && r[|r| - 1] == '-'
    ensures 0 <= branchId < 1000 ==> |r| == 12 && r[8..11] == Format03d(branchId)
  {
    var y, b := FormatYyMMdd(date), Format03d(branchId);
    PrefixPieces(y, b);
    y + (['-', 'B'] + (b + ['-']))
  }

  /** `String.format("%s-%s-%s", yyMMdd, "B" + "%03d"(branchId), "%03d"(sequence))`. */
  function BookingCode(date: Date, branchId: int, sequence: int): (r: string)
    ensures |r| >= 15
  {
    CodePrefix(date, branchId) + Format03d(sequence)
  }

  /**
   * A code starts with the `yyMMdd` date and carries a `'-'`, so `getBookingDetailByIdentifier`
   * looks it up as a code and not as an id.
   */
  lemma CodeShape(date: Date, branchId: int, sequence: int)
    ensures var r := BookingCode(date, branchId, sequence);
      r[..6] == FormatYyMMdd(date) && r[6] == '-' && r[7] == 'B' && Contains(r, "-")
  {
    ShapeKept(CodePrefix(date, branchId), Format03d(sequence), FormatYyMMdd(date));
  }

  /**
   * For a branch id and sequence below 1000 the code has fifteen characters, the branch digits and
   * the sequence digits in fixed places, and the sequence reads back from its last three characters.
   */
  lemma CodeLayout(date: Date, branchId: int, sequence: int)
    requires 0 <= branchId < 1000 && 0 <= sequence < 1000
    ensures var r := BookingCode(date, branchId, sequence);
      && |r| == 15 && r[8..11] == Format03d(branchId) && r[11] == '-'
      && r[12..] == Format03d(sequence) && DecimalValue(r[12..]) == sequence
  {
    var p, f := CodePrefix(date, branchId), Format03d(sequence);
    JoinPieces(p, f, 8, 11);
    Format03dValue(sequence, sequence);
  }

  /** Two codes of one branch and day are equal exactly when their (non-negative) sequence numbers are. */
  lemma CodeDeterminesSequence(date: Date, branchId: int, n: int, m: int)
    requires n >= 0 && m >= 0
    ensures BookingCode(date, branchId, n) == BookingCode(date, branchId, m) <==> n == m
  {
    var p := CodePrefix(date, branchId);
    if BookingCode(date, branchId, n) == BookingCode(date, branchId, m) {
      assert Format03d(n) == (p + Format03d(n))[|p|..];
      assert Format03d(m) == (p + Format03d(m))[|p|..];
      Format03dValue(n, m);
    }
  }

  /** `countByBranchAndDate`'s condition: the branch and the date match; a row without a date never does. */
  function OnDay(branchId: int, date: Date): BookingVo -> bool {
    (b: BookingVo) => b.branchId == branchId && b.date == Some(date)
  }

  /** `countByBranchAndDate(branchId, date)`. */
  function DayCount(bookings: seq<BookingVo>, branchId: int, date: Date): (r: nat)
    ensures r <= |bookings|
  {
    |Filter(bookings, OnDay(branchId, date))|
  }

  /** The codes in use. */
  function Codes(bookings: seq<BookingVo>): set<string> {
    set b | b in bookings :: b.bookingCode
  }

  /** The daily sequence as written: the day's count plus one. */
  function SequenceAsWritten(bookings: seq<BookingVo>, branchId: int, date: Date): (r: nat)
    ensures 1 <= r <= |bookings| + 1
  {
    DayCount(bookings, branchId, date) + 1
  }

  /**
   * The sequence as written repeats a code in use: a day that had bookings 001 and 002 and lost
   * 001 to a delete counts one booking, so the next booking is given 002 again.
   */
  lemma CodeReusedAfterDelete(b: BookingVo, branchId: int, date: Date)
    requires b.branchId == branchId && b.date == Some(date)
    requires b.bookingCode == BookingCode(date, branchId, 2)
    ensures SequenceAsWritten([b], branchId, date) == 2
    ensures BookingCode(date, branchId, SequenceAsWritten([b], branchId, date)) in Codes([b])
  {
    assert Filter([b], OnDay(branchId, date)) == [b] by {
      assert [b][..0] == [];
    }
  }

  /** The code of each sequence number of one branch and day. */
  function CodeOf(date: Date, branchId: int): nat -> string {
    (m: nat) => BookingCode(date, branchId, m)
  }

  /**
   * The corrected daily sequence: the day's count plus one, moved past any code still in use.
   * At most as many numbers as there are codes in use are skipped.
   */
  function FreshSequence(bookings: seq<BookingVo>, branchId: int, date: Date): nat {
    var used := Codes(bookings);
    FirstOutside(CodeOf(date, branchId), used, SequenceAsWritten(bookings, branchId, date), |used|)
  }

  /**
   * The corrected sequence is never below the one as written, its code is not in use, and it is
   * the one as written whenever that one's code is free.
   */
  lemma FreshSequenceUnused(bookings: seq<BookingVo>, branchId: int, date: Date)
    ensures FreshSequence(bookings, branchId, date) >= SequenceAsWritten(bookings, branchId, date)
    ensures BookingCode(date, branchId, FreshSequence(bookings, branchId, date)) !in Codes(bookings)
    ensures BookingCode(date, branchId, SequenceAsWritten(bookings, branchId, date)) !in Codes(bookings)
            ==> FreshSequence(bookings, branchId, date) == SequenceAsWritten(bookings, branchId, date)
  {
    var f, used, n := CodeOf(date, branchId), Codes(bookings), SequenceAsWritten(bookings, branchId, date);
    forall i: nat, j: nat | n <= i < j <= n + |used|
      ensures f(i) != f(j)
    {
      CodeDeterminesSequence(date, branchId, i, j);
    }
    FirstOutsideFound(f, used, n);
  }
}
