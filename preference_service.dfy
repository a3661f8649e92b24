/**
 * `PreferenceServiceImpl`: the five answers of the investment-tendency survey are scored,
 * summed and clamped to [-1, 1]; the result becomes the user's tendency, and the user's
 * recommendations are rebuilt.
 *
 * The answers are primitive `int`s, so none is ever `null`. Scores are exact reals, so the
 * `Double.isNaN` guard of the source can never fire here.
 */
module PreferenceService {
  import opened Wrappers
  import opened Tables
  import UserDtos
  import UserService
  import CustomRecommendService

  /** `PreferenceRequestDto`. */
  datatype PreferenceRequest = PreferenceRequest(q1: int, q2: int, q3: int, q4: int, q5: int)

  /**
   * `mapScore`: out-of-range answers score 0; on a two-point scale the first answer is +0.3 and
   * the second -0.3; on a longer scale the score falls linearly from +0.3 to -0.3.
   */
  function MapScore(answer: int, scale: int): (r: real)
    ensures -0.3 <= r <= 0.3
    ensures answer < 1 || answer > scale ==> r == 0.0
    ensures scale == 2 && answer == 1 ==> r == 0.3
    ensures scale == 2 && answer == 2 ==> r == -0.3
    ensures scale >= 2 && answer == 1 ==> r == 0.3
    ensures scale >= 2 && answer == scale ==> r == -0.3
  {
    if answer < 1 || answer > scale then 0.0
    else if scale == 2 then (if answer == 1 then 0.3 else -0.3)
    else if scale < 2 then 0.0
    else
      var t := 1.0 - (answer - 1) as real / (scale - 1) as real;
      -0.3 + t * 0.6
  }

  /** On one scale a later answer never scores higher: the first is the most conservative. */
  lemma MapScoreDecreasing(a: int, b: int, scale: int)
    requires 1 <= a <= b <= scale
    ensures MapScore(b, scale) <= MapScore(a, scale)
  {
    if scale > 2 {
      var d := (scale - 1) as real;
      var x := (a - 1) as real;
      var y := (b - 1) as real;
      assert x / d <= y / d by {
        DivideMonotone(x, y, d);
      }
    }
  }

  lemma DivideMonotone(x: real, y: real, d: real)
    requires x <= y && d > 0.0
    ensures x / d <= y / d
  {
    assert y / d - x / d == (y - x) / d;
  }

  /** The sum of the five scores on the survey's scales 3, 2, 3, 3, 2. */
  function SurveyTotal(q: PreferenceRequest): (r: real)
    ensures -1.5 <= r <= 1.5
  {
    MapScore(q.q1, 3) + MapScore(q.q2, 2) + MapScore(q.q3, 3) + MapScore(q.q4, 3) + MapScore(q.q5, 2)
  }

  /** The correction step: values above 1 become 1, below -1 become -1. */
  function Clamp(x: real): (r: real)
    ensures -1.0 <= r <= 1.0
    ensures -1.0 <= x <= 1.0 ==> r == x
    ensures x > 1.0 ==> r == 1.0
    ensures x < -1.0 ==> r == -1.0
  {
    if x > 1.0 then 1.0 else if x < -1.0 then -1.0 else x
  }

  /** The tendency a survey yields. */
  function Tendency(q: PreferenceRequest): real {
    Clamp(SurveyTotal(q))
  }

  /** The most conservative survey gives the top tendency 1, the most aggressive one -1, no answers 0. */
  lemma TendencyExtremes()
    ensures Tendency(PreferenceRequest(1, 1, 1, 1, 1)) == 1.0
    ensures Tendency(PreferenceRequest(3, 2, 3, 3, 2)) == -1.0
    ensures Tendency(PreferenceRequest(0, 0, 0, 0, 0)) == 0.0
  {
    assert SurveyTotal(PreferenceRequest(1, 1, 1, 1, 1)) == 1.5;
    assert SurveyTotal(PreferenceRequest(3, 2, 3, 3, 2)) == -1.5;
  }

  /** Changing one answer to a later one on its scale never raises the tendency. */
  lemma TendencyMonotoneInFirstAnswer(q: PreferenceRequest, later: int)
    requires 1 <= q.q1 <= later <= 3
    ensures Tendency(q.(q1 := later)) <= Tendency(q)
  {
    MapScoreDecreasing(q.q1, later, 3);
  }

  /** The accumulation of `setUserPreference`: five `+=`, then the two corrections. */
  method ScoreSurvey(requestDto: PreferenceRequest) returns (startPoint: real)
    ensures startPoint == Tendency(requestDto)
    ensures -1.0 <= startPoint <= 1.0
  {
    startPoint := 0.0;
    startPoint := startPoint + MapScore(requestDto.q1, 3);
    startPoint := startPoint + MapScore(requestDto.q2, 2);
    startPoint := startPoint + MapScore(requestDto.q3, 3);
    startPoint := startPoint + MapScore(requestDto.q4, 3);
    startPoint := startPoint + MapScore(requestDto.q5, 2);
    if startPoint > 1.0 {
      startPoint := 1.0;
    }
    if startPoint < -1.0 {
      startPoint := -1.0;
    }
  }

  /**
   * `setUserPreference`: an unknown user throws before anything is written; otherwise only the
   * user's tendency changes, and the user's recommendations are rebuilt from the updated user.
   */
  method SetUserPreference(db: Database, requestDto: PreferenceRequest, userEmail: string,
                           similarity: (real, real, real, real) -> real, scoreText: real -> string)
    returns (r: Result<(), Failure>)
    requires db.Valid()
    modifies db`users, db`recommends
    ensures db.Valid()
    ensures userEmail !in old(db.users) ==> (r == Err(NoSuchElement)
      && db.users == old(db.users) && db.recommends == old(db.recommends))
    ensures userEmail in old(db.users) ==> (r == Ok(())
      && db.users == old(db.users)[userEmail := old(db.users)[userEmail].(tendency := Some(Tendency(requestDto)))]
      && db.recommends == CustomRecommendService.RefreshedRecommendations(
           old(db.recommends), db.products, db.users[userEmail], similarity, scoreText))
  {
    var startPoint := ScoreSurvey(requestDto);
    var found := UserService.GetUser(db.users, userEmail);
    if found.Err? {
      return Err(found.error);
    }
    var userDto := found.value.(tendency := Some(startPoint));
    UserService.WriteBackOwnDto(db.users[userEmail], None, userDto.tendency, None);
    var updated := UserService.UpdateUser(db, userEmail, userDto);
    r := CustomRecommendService.AddCustomRecommend(db, userEmail, similarity, scoreText);
  }
}
