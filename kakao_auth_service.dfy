/**
 * `KakaoAuthService`: login with a Kakao account, refresh-token rotation and logout. The calls to
 * Kakao's servers are left out; the user information they return is the parameter `userInfo`.
 * The JWT processor is left out too: the tokens it generates are parameters, and the subject it
 * reads from a presented token is the parameter `subject` (`None` when the token cannot be read).
 * The refresh-token table, `Database.refreshTokens`, holds one token per email; saving a token
 * for an email that has one replaces it.
 */
module KakaoAuth {
  import opened Wrappers
  import opened Tables

  datatype Profile = Profile(nickname: Option<string>)
  datatype KakaoAccount = KakaoAccount(email: Option<string>, profile: Option<Profile>)
  datatype Properties = Properties(nickname: Option<string>)

  /** `KakaoUserInfoDto`, reduced to the fields the service reads. */
  datatype KakaoUserInfo = KakaoUserInfo(properties: Option<Properties>, kakaoAccount: Option<KakaoAccount>)

  /** `KakaoLoginResponseDto`. */
  datatype KakaoLoginResponse = KakaoLoginResponse(accessToken: string, refreshToken: string, userEmail: string,
                                                   userName: Option<string>)

  /** `TokenRefreshResponseDto`. */
  datatype TokenRefreshResponse = TokenRefreshResponse(accessToken: string, refreshToken: string)

  const DEFAULT_NICKNAME := "카카오유저"

  /** `extractEmailFromKakaoInfo`: the account's email; missing information or a missing account is refused. */
  function ExtractEmail(userInfo: Option<KakaoUserInfo>): (r: Result<Option<string>, Failure>)
    ensures r.Err? <==> userInfo.None? || userInfo.value.kakaoAccount.None?
    ensures r.Err? ==> r.error == IllegalArgument
    ensures r.Ok? ==> r.value == userInfo.value.kakaoAccount.value.email
  {
    if userInfo.None? || userInfo.value.kakaoAccount.None? then Err(IllegalArgument)
    else Ok(userInfo.value.kakaoAccount.value.email)
  }

  /** The nickname of a new user: the properties' nickname, else the profile's, else `"카카오유저"`. */
  function Nickname(info: KakaoUserInfo): (r: string)
    ensures info.properties.Some? && info.properties.value.nickname.Some? ==> r == info.properties.value.nickname.value
    ensures r != DEFAULT_NICKNAME ==>
      || (info.properties.Some? && info.properties.value.nickname == Some(r))
      || (info.kakaoAccount.Some? && info.kakaoAccount.value.profile.Some?
          && info.kakaoAccount.value.profile.value.nickname == Some(r))
  {
    if info.properties.Some? && info.properties.value.nickname.Some? then info.properties.value.nickname.value
    else if info.kakaoAccount.Some? && info.kakaoAccount.value.profile.Some?
            && info.kakaoAccount.value.profile.value.nickname.Some? then
      info.kakaoAccount.value.profile.value.nickname.value
    else DEFAULT_NICKNAME
  }

  /** The profile's nickname is used only when the properties carry none, and the default only when neither does. */
  lemma NicknamePriority(info: KakaoUserInfo)
    ensures (info.properties.None? || info.properties.value.nickname.None?)
            && info.kakaoAccount.Some? && info.kakaoAccount.value.profile.Some?
            && info.kakaoAccount.value.profile.value.nickname.Some?
            ==> Nickname(info) == info.kakaoAccount.value.profile.value.nickname.value
    ensures (info.properties.None? || info.properties.value.nickname.None?)
            && (info.kakaoAccount.None? || info.kakaoAccount.value.profile.None?
                || info.kakaoAccount.value.profile.value.nickname.None?)
            ==> Nickname(info) == DEFAULT_NICKNAME
  {
  }

  /** The row `findOrCreateUser` saves for a new email: only the email and the nickname are set. */
  function NewUser(email: string, nickname: string): (r: UserVo)
    ensures r.email == email && r.userName == Some(nickname)
    ensures r.tendency.None? && r.asset.None? && r.point == 0
  {
    UserVo(email, Some(nickname), None, None, None, None, None, None, None, None, None, 0)
  }

  /**
   * `findOrCreateUser` on the user table: the stored user for a known email, otherwise a new
   * user saved under it. An account without an email finds no user, and the row without a key
   * cannot be saved.
   */
  function FindOrCreate(users: map<string, UserVo>, userInfo: Option<KakaoUserInfo>)
    : (r: Result<(UserVo, map<string, UserVo>), Failure>)
    ensures ExtractEmail(userInfo).Err? ==> r == Err(IllegalArgument)
    ensures ExtractEmail(userInfo) == Ok(None) ==> r == Err(Runtime)
    ensures ExtractEmail(userInfo).Ok? && ExtractEmail(userInfo).value.Some? ==>
      var email := ExtractEmail(userInfo).value.value;
      && r.Ok?
      && (email in users ==> r.value == (users[email], users))
      && (email !in users ==> r.value == (NewUser(email, Nickname(userInfo.value)), users[email := r.value.0]))
  {
    var email := ExtractEmail(userInfo);
    if email.Err? then Err(email.error)
    else if email.value.None? then Err(Runtime)
    else if email.value.value in users then Ok((users[email.value.value], users))
    else
      var user := NewUser(email.value.value, Nickname(userInfo.value));
      Ok((user, users[email.value.value := user]))
  }

  /** Finding or creating keeps every stored user under its own email and removes or alters no stored user. */
  lemma FindOrCreateKeepsUsers(users: map<string, UserVo>, userInfo: Option<KakaoUserInfo>)
    requires forall e | e in users :: users[e].email == e
    requires FindOrCreate(users, userInfo).Ok?
    ensures var (user, users') := FindOrCreate(users, userInfo).value;
      && (forall e | e in users' :: users'[e].email == e)
      && (forall e | e in users :: e in users' && users'[e] == users[e])
      && user.email in users' && users'[user.email] == user
  {
  }

  /** A stored refresh token for `email` equal to `token`: what `reissueTokens` checks. */
  predicate Accepts(tokens: map<string, string>, email: string, token: string) {
    email in tokens && tokens[email] == token
  }

  /**
   * `reissueTokens` on the token table: the presented token must be the one stored for its
   * subject, and is then replaced by the new one.
   */
  function Reissue(tokens: map<string, string>, refreshToken: string, subject: Option<string>, newRefreshToken: string)
    : (r: Result<map<string, string>, Failure>)
    ensures r.Ok? <==> subject.Some? && Accepts(tokens, subject.value, refreshToken)
    ensures r.Err? ==> r.error == Runtime
    ensures r.Ok? ==> r.value == tokens[subject.value := newRefreshToken]
  {
    if subject.None? || !Accepts(tokens, subject.value, refreshToken) then Err(Runtime)
    else Ok(tokens[subject.value := newRefreshToken])
  }

  /** After a rotation the new token is accepted and the old one, if different, no longer is; other emails are untouched. */
  lemma RotationRevokesOld(tokens: map<string, string>, refreshToken: string, email: string, newRefreshToken: string,
                           other: string, t: string)
    requires Reissue(tokens, refreshToken, Some(email), newRefreshToken).Ok?
    ensures var tokens' := Reissue(tokens, refreshToken, Some(email), newRefreshToken).value;
      && Reissue(tokens', newRefreshToken, Some(email), t).Ok?
      && (newRefreshToken != refreshToken ==> Reissue(tokens', refreshToken, Some(email), t).Err?)
      && (other != email ==> (Accepts(tokens', other, t) <==> Accepts(tokens, other, t)))
  {
  }

  /** After a logout no token is accepted for that email, and other emails keep theirs. */
  lemma LogoutRevokes(tokens: map<string, string>, email: string, t: string, subject: string, other: string)
    ensures Reissue(tokens - {email}, t, Some(email), subject).Err?
    ensures other != email ==> (Accepts(tokens - {email}, other, t) <==> Accepts(tokens, other, t))
  {
  }

  class KakaoAuthService {
    /** The user table and the refresh-token table. */
    const db: Database
    var lastProcessedUserIsNew: bool
    var lastProcessedUserTendencyNotDefined: bool

    constructor (db: Database)
      ensures this.db == db && !lastProcessedUserIsNew && !lastProcessedUserTendencyNotDefined
    {
      this.db := db;
      lastProcessedUserIsNew := false;
      lastProcessedUserTendencyNotDefined := false;
    }

    /** `findOrCreateUser`. */
    method FindOrCreateUser(userInfo: Option<KakaoUserInfo>) returns (r: Result<UserVo, Failure>)
      modifies db`users
      ensures var outcome := FindOrCreate(old(db.users), userInfo);
        && (outcome.Err? ==> r == Err(outcome.error) && db.users == old(db.users))
        && (outcome.Ok? ==> r == Ok(outcome.value.0) && db.users == outcome.value.1)
    {
      if userInfo.None? || userInfo.value.kakaoAccount.None? {
        return Err(IllegalArgument);
      }
      var email := userInfo.value.kakaoAccount.value.email;
      if email.Some? && email.value in db.users {
        return Ok(db.users[email.value]);
      }
      var nickname := Nickname(userInfo.value);
      if email.None? {
        return Err(Runtime);
      }
      var newUser := NewUser(email.value, nickname);
      db.users := db.users[email.value := newUser];
      r := Ok(newUser);
    }

    /**
     * `processKakaoLogin`: records whether the user is new and, for a returning user, whether their
     * tendency is undefined; then stores the new refresh token for the user and answers with both tokens.
     */
    method ProcessKakaoLogin(userInfo: Option<KakaoUserInfo>, accessToken: string, refreshToken: string)
      returns (r: Result<KakaoLoginResponse, Failure>)
      requires db.Valid()
      modifies this, db`users, db`refreshTokens
      ensures db.Valid()
      ensures var email := ExtractEmail(userInfo);
        email.Err? ==>
          && r == Err(IllegalArgument) && db.users == old(db.users) && db.refreshTokens == old(db.refreshTokens)
          && lastProcessedUserIsNew == old(lastProcessedUserIsNew)
          && lastProcessedUserTendencyNotDefined == old(lastProcessedUserTendencyNotDefined)
      ensures var email := ExtractEmail(userInfo);
        email.Ok? ==> lastProcessedUserIsNew == !(email.value.Some? && email.value.value in old(db.users))
      ensures var outcome := FindOrCreate(old(db.users), userInfo);
        outcome.Ok? ==>
          var (user, users) := outcome.value;
          && db.users == users
          && db.refreshTokens == old(db.refreshTokens)[user.email := refreshToken]
          && lastProcessedUserTendencyNotDefined == (!lastProcessedUserIsNew && user.tendency.None?)
          && r == Ok(KakaoLoginResponse(accessToken, refreshToken, user.email, user.userName))
      ensures ExtractEmail(userInfo) == Ok(None) ==>
        r == Err(Runtime) && db.users == old(db.users) && db.refreshTokens == old(db.refreshTokens)
    {
      if userInfo.None? || userInfo.value.kakaoAccount.None? {
        return Err(IllegalArgument);
      }
      var email := userInfo.value.kakaoAccount.value.email;
      var existingUser := email.Some? && email.value in db.users;
      lastProcessedUserIsNew := !existingUser;
      ghost var users0 := db.users;
      var user := FindOrCreateUser(userInfo);
      if user.Err? {
        return Err(user.error);
      }
      FindOrCreateKeepsUsers(users0, userInfo);
      lastProcessedUserTendencyNotDefined := false;
      if !lastProcessedUserIsNew {
        lastProcessedUserTendencyNotDefined := user.value.tendency.None?;
      }
      db.refreshTokens := db.refreshTokens[user.value.email := refreshToken];
      r := Ok(KakaoLoginResponse(accessToken, refreshToken, user.value.email, user.value.userName));
    }

    /** `reissueTokens`: rotates the refresh token of the presented token's subject. */
    method ReissueTokens(refreshToken: string, subject: Option<string>, newAccessToken: string, newRefreshToken: string)
      returns (r: Result<TokenRefreshResponse, Failure>)
      modifies db`refreshTokens
      ensures var outcome := Reissue(old(db.refreshTokens), refreshToken, subject, newRefreshToken);
        && (outcome.Err? ==> r == Err(outcome.error) && db.refreshTokens == old(db.refreshTokens))
        && (outcome.Ok? ==> r == Ok(TokenRefreshResponse(newAccessToken, newRefreshToken))
                            && db.refreshTokens == outcome.value)
    {
      if subject.None? {
        return Err(Runtime);
      }
      var userEmail := subject.value;
      if userEmail !in db.refreshTokens || db.refreshTokens[userEmail] != refreshToken {
        return Err(Runtime);
      }
      db.refreshTokens := db.refreshTokens[userEmail := newRefreshToken];
      r := Ok(TokenRefreshResponse(newAccessToken, newRefreshToken));
    }

    /** `logout`: deletes the email's stored refresh token. */
    method Logout(email: string)
      modifies db`refreshTokens
      ensures db.refreshTokens == old(db.refreshTokens) - {email}
    {
      db.refreshTokens := db.refreshTokens - {email};
    }
  }

  /** The refresh token a login hands out is accepted by the next reissue for that user. */
  lemma LoginTokenReissues(users: map<string, UserVo>, tokens: map<string, string>, userInfo: Option<KakaoUserInfo>,
                           refreshToken: string, newRefreshToken: string)
    requires FindOrCreate(users, userInfo).Ok?
    ensures var user := FindOrCreate(users, userInfo).value.0;
      Reissue(tokens[user.email := refreshToken], refreshToken, Some(user.email), newRefreshToken).Ok?
  {
  }
}
