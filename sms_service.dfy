/**
 * `SmsServiceImpl`: the booking confirmation text message, and the response that reports whether
 * sending it worked. The CoolSMS client is the parameter `sendOne`: what sending one message does.
 */
module SmsService {
  import opened Wrappers
  import opened JavaText

  /** `SmsRequestDto`; every field may be `null`. */
  datatype SmsRequest = SmsRequest(
    phoneNumber: Option<string>,
    productName: Option<string>,
    branchName: Option<string>,
    reservationDate: Option<string>,
    reservationTime: Option<string>,
    userName: Option<string>)

  /** What the client's `sendOne` is given: sender, recipient and text. */
  datatype OutgoingMessage = OutgoingMessage(from: string, to: Option<string>, text: string)

  /** What `sendOne` does: it returns the sent message's id, or throws with a (possibly `null`) message. */
  datatype SendOutcome = Sent(messageId: Option<string>) | Threw(errorMessage: Option<string>)

  // ------------------------------------------------------------------ createReservationMessage

  /** `StringBuilder.append(String)`: a `null` string is appended as the four letters `null`. */
  function Appended(s: Option<string>): (r: string)
    ensures s.Some? ==> r == s.value
    ensures s.None? ==> r == "null"
  {
    if s.Some? then s.value else "null"
  }

  const DEFAULT_NAME := "고객"

  /** The name the greeting uses: the user's name unless it is `null` or blank, and the default otherwise. */
  function DisplayName(userName: Option<string>): (r: string)
    ensures userName.Some? && !IsBlank(userName.value) ==> r == userName.value
    ensures userName.None? || IsBlank(userName.value) ==> r == DEFAULT_NAME
  {
    if userName.Some? && Trim(userName.value) != [] then userName.value else DEFAULT_NAME
  }

  /** The shown name is never blank, so showing it again changes nothing. */
  lemma DisplayNameIdempotent(userName: Option<string>)
    ensures !IsBlank(DisplayName(userName))
    ensures DisplayName(Some(DisplayName(userName))) == DisplayName(userName)
  {
    assert !IsTrimmable(DEFAULT_NAME[0]);
  }

  const HEADER := "[ 예약 완료 알림 ]\n"
  const COMPLETED := "방문 예약이 완료되었습니다.\n\n"
  const DOCUMENTS := "방문 시 [ 신분증 ] 을 지참해주세요.\n"
  const THANKS := "감사합니다."

  /** The eight pieces of the message, in the order the builder receives them. */
  function Lines(request: SmsRequest): (r: seq<string>)
    ensures |r| == 8 && r[0] == HEADER && r[7] == THANKS
  {
    [HEADER,
     "안녕하세요 " + DisplayName(request.userName) + "님!\n\n",
     COMPLETED,
     "▶ 상품명: " + Appended(request.productName) + "\n",
     "▶ 지점: " + Appended(request.branchName) + "\n",
     "▶ 예약일시: " + Appended(request.reservationDate) + " " + Appended(request.reservationTime) + "\n\n",
     DOCUMENTS,
     THANKS]
  }

  /** `StringBuilder.toString()` after appending the pieces in order. */
  function Concat(pieces: seq<string>): (r: string)
    ensures |pieces| > 0 ==> StartsWith(r, pieces[0])
    decreases |pieces|
  {
    if pieces == [] then [] else pieces[0] + Concat(pieces[1..])
  }

  /** Appending one more piece to a built text is building from one more piece. */
  lemma {:induction false} ConcatSnoc(pieces: seq<string>, x: string)
    ensures Concat(pieces + [x]) == Concat(pieces) + x
    decreases |pieces|
  {
    if pieces == [] {
      assert Concat([x]) == x + Concat([]);
    } else {
      assert (pieces + [x])[1..] == pieces[1..] + [x];
      ConcatSnoc(pieces[1..], x);
    }
  }

  /** Building from two runs of pieces is building from each and joining the texts. */
  lemma {:induction false} ConcatAppend(a: seq<string>, b: seq<string>)
    ensures Concat(a + b) == Concat(a) + Concat(b)
    decreases |a|
  {
    if a != [] {
      assert (a + b)[1..] == a[1..] + b;
      ConcatAppend(a[1..], b);
    } else {
      assert a + b == b;
    }
  }

  /** Every piece sits in the built text right after all the pieces before it. */
  lemma ConcatSplit(pieces: seq<string>, i: nat)
    requires i < |pieces|
    ensures Concat(pieces) == Concat(pieces[..i]) + pieces[i] + Concat(pieces[i + 1..])
    ensures OccursAt(Concat(pieces), pieces[i], |Concat(pieces[..i])|)
  {
    assert pieces == pieces[..i] + ([pieces[i]] + pieces[i + 1..]);
    ConcatAppend(pieces[..i], [pieces[i]] + pieces[i + 1..]);
    assert ([pieces[i]] + pieces[i + 1..])[1..] == pieces[i + 1..];
    var whole := Concat(pieces);
    var at := |Concat(pieces[..i])|;
    assert whole[at..at + |pieces[i]|] == pieces[i];
  }

  /** `createReservationMessage`: the builder receives the eight pieces, one after the other. */
  method CreateReservationMessage(request: SmsRequest) returns (text: string)
    ensures text == Concat(Lines(request))
  {
    text := Build(Lines(request));
  }

  /** A `StringBuilder` that is given the pieces in order and then asked for its text. */
  method Build(pieces: seq<string>) returns (text: string)
    ensures text == Concat(pieces)
  {
    var sb := "";
    var i := 0;
    while i < |pieces|
      invariant 0 <= i <= |pieces|
      invariant sb == Concat(pieces[..i])
    {
      ConcatSnoc(pieces[..i], pieces[i]);
      assert pieces[..i + 1] == pieces[..i] + [pieces[i]];
      sb := sb + pieces[i];
      i := i + 1;
    }
    assert pieces[..|pieces|] == pieces;
    text := sb;
  }

  /**
   * The message opens with the notice header and closes with the thanks, and the greeting, the
   * product, the branch and the date-time lines stand in that order, each with its field appended
   * unchanged and one space between date and time.
   */
  lemma MessageLayout(request: SmsRequest)
    ensures StartsWith(Concat(Lines(request)), HEADER)
    ensures EndsWith(Concat(Lines(request)), THANKS)
    ensures forall i | 0 <= i < 8 :: OccursAt(Concat(Lines(request)), Lines(request)[i], |Concat(Lines(request)[..i])|)
    ensures Lines(request)[1] == "안녕하세요 " + DisplayName(request.userName) + "님!\n\n"
    ensures Lines(request)[3] == "▶ 상품명: " + Appended(request.productName) + "\n"
    ensures Lines(request)[4] == "▶ 지점: " + Appended(request.branchName) + "\n"
    ensures Lines(request)[5] == "▶ 예약일시: " + Appended(request.reservationDate) + " " + Appended(request.reservationTime) + "\n\n"
  {
    var lines := Lines(request);
    forall i | 0 <= i < 8
      ensures OccursAt(Concat(lines), lines[i], |Concat(lines[..i])|)
    {
      ConcatSplit(lines, i);
    }
    ConcatSplit(lines, 7);
    assert lines[8..] == [];
    var text := Concat(lines);
    assert text == Concat(lines[..7]) + THANKS;
    assert text[|text| - |THANKS|..] == THANKS;
  }

  /** Pieces placed in order: a piece ends before the next one begins. */
  lemma PiecesInOrder(pieces: seq<string>, i: nat, j: nat)
    requires i < j <= |pieces|
    ensures |Concat(pieces[..i])| + |pieces[i]| <= |Concat(pieces[..j])|
  {
    ConcatSplit(pieces[..j], i);
    assert pieces[..j][..i] == pieces[..i] && pieces[..j][i] == pieces[i];
  }

  // ------------------------------------------------------------------ sendSms

  /** `SmsResponseDto`: a fresh one has `success == false` and every string `null`. */
  class SmsResponse {
    var success: bool
    var message: Option<string>
    var messageId: Option<string>
    var errorCode: Option<string>

    constructor()
      ensures !success && message.None? && messageId.None? && errorCode.None?
    {
      success := false;
      message := None;
      messageId := None;
      errorCode := None;
    }
  }

  const SENT := "SMS 전송 성공"
  const FAILED_PREFIX := "SMS 전송 실패: "
  const SEND_ERROR := "SMS_SEND_ERROR"

  /**
   * `sendSms`: the message goes from the configured number to the request's phone number. When
   * `sendOne` returns, the response reports success with the message id and no error code; when it
   * throws, the response reports failure, the error code and the exception's message after the
   * fixed prefix (`"null"` for a `null` message), and no message id.
   */
  method SendSms(request: SmsRequest, fromNumber: string, sendOne: OutgoingMessage -> SendOutcome)
    returns (response: SmsResponse, sent: OutgoingMessage)
    ensures fresh(response)
    ensures sent == OutgoingMessage(fromNumber, request.phoneNumber, Concat(Lines(request)))
    ensures sendOne(sent).Sent? ==>
      && response.success && response.message == Some(SENT)
      && response.messageId == sendOne(sent).messageId && response.errorCode.None?
    ensures sendOne(sent).Threw? ==>
      && !response.success && response.message == Some(FAILED_PREFIX + Appended(sendOne(sent).errorMessage))
      && response.messageId.None? && response.errorCode == Some(SEND_ERROR)
  {
    response := new SmsResponse();
    var messageText := CreateReservationMessage(request);
    sent := OutgoingMessage(fromNumber, request.phoneNumber, messageText);
    var outcome := sendOne(sent);
    match outcome {
      case Sent(messageId) =>
        response.success := true;
        response.message := Some(SENT);
        response.messageId := messageId;
      case Threw(errorMessage) =>
        response.success := false;
        response.message := Some(FAILED_PREFIX + Appended(errorMessage));
        response.errorCode := Some(SEND_ERROR);
    }
  }
}
