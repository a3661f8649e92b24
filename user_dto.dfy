/**
 * `UserDto` and its two conversions. `of` copies every field of the stored user, `point`
 * included, and leaves `incomeRange` empty; `toVo` copies every field but `point`, which the
 * builder then leaves at its default 0. Neither round trip is the identity.
 */
module UserDtos {
  import opened Wrappers
  import opened Dates
  import opened Tables

  datatype UserDto = UserDto(
    email: string,
    userName: Option<string>,
    userPhone: Option<string>,
    birth: Option<Date>,
    connectedId: Option<string>,
    branchId: Option<int>,
    asset: Option<int>,
    point: int,
    filename1: Option<string>,
    filename2: Option<string>,
    tendency: Option<real>,
    assetProportion: Option<real>,
    incomeRange: Option<string>)

  /** `UserDto.of`. */
  function Of(u: UserVo): (d: UserDto)
    ensures d.email == u.email && d.point == u.point && d.incomeRange == None
  {
    UserDto(u.email, u.userName, u.userPhone, u.birth, u.connectedId, u.branchId, u.asset, u.point,
            u.filename1, u.filename2, u.tendency, u.assetProportion, None)
  }

  /** `UserDto.toVo`. */
  function ToVo(d: UserDto): (u: UserVo)
    ensures u.email == d.email && u.point == 0
  {
    UserVo(d.email, d.userName, d.userPhone, d.birth, d.connectedId, d.branchId, d.asset,
           d.filename1, d.filename2, d.tendency, d.assetProportion, 0)
  }

  /** Converting a user to the DTO and back loses exactly the points. */
  lemma ToVoOfLosesPoint(u: UserVo)
    ensures ToVo(Of(u)) == u.(point := 0)
    ensures ToVo(Of(u)) == u <==> u.point == 0
  {
  }

  /** Converting a DTO to a user and back loses the points and the income range. */
  lemma OfToVoLosesPointAndIncome(d: UserDto)
    ensures Of(ToVo(d)) == d.(point := 0, incomeRange := None)
    ensures Of(ToVo(d)) == d <==> d.point == 0 && d.incomeRange == None
  {
  }
}
