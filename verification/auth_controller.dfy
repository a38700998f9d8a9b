/** The HTTP layer in front of `AuthService`
    (kajix-api/src/auth/auth.controller.ts): header parsing and the input
    checks made before a call is delegated. The checks are functions; the
    controller class only composes them with the service. */
module AuthController {
  import opened Common
  import opened Prisma
  import opened Auth

  /** JavaScript's `s.split(sep)` for a one-character separator. */
  function Split(s: string, sep: char): (r: seq<string>)
    ensures |r| >= 1
    ensures forall k | 0 <= k < |r| :: sep !in r[k]
  {
    if s == [] then [""]
    else
      var rest := Split(s[1..], sep);
      if s[0] == sep then [""] + rest
      else [[s[0]] + rest[0]] + rest[1..]
  }

  /** `fields.join(sep)`. */
  function Join(fields: seq<string>, sep: char): string
    requires |fields| >= 1
  {
    if |fields| == 1 then fields[0] else fields[0] + [sep] + Join(fields[1..], sep)
  }

  /** Splitting loses nothing: joining the fields gives back the string. */
  lemma {:induction false} JoinSplit(s: string, sep: char)
    ensures Join(Split(s, sep), sep) == s
  {
    if s != [] {
      var rest := Split(s[1..], sep);
      JoinSplit(s[1..], sep);
      if s[0] != sep {
        var r := Split(s, sep);
        if |rest| == 1 {
          assert r == [[s[0]] + rest[0]];
        } else {
          assert r[1..] == rest[1..];
          assert Join(r, sep) == [s[0]] + rest[0] + [sep] + Join(rest[1..], sep);
        }
      }
    }
  }

  /** Splitting a join of separator-free fields gives back the fields. */
  lemma {:induction false} SplitJoin(fields: seq<string>, sep: char)
    requires |fields| >= 1
    requires forall k | 0 <= k < |fields| :: sep !in fields[k]
    ensures Split(Join(fields, sep), sep) == fields
  {
    if |fields| == 1 {
      SplitField(fields[0], [], sep);
    } else {
      var tail := Join(fields[1..], sep);
      SplitJoin(fields[1..], sep);
      SplitField(fields[0], fields[1..], sep);
    }
  }

  /** Splitting `f + sep + t` (or `f` alone) where `f` has no separator puts
      `f` in front of the fields of `t`. */
  lemma {:induction false} SplitField(f: string, more: seq<string>, sep: char)
    requires sep !in f
    requires |more| >= 1 ==> Split(Join(more, sep), sep) == more
    ensures |more| == 0 ==> Split(f, sep) == [f]
    ensures |more| >= 1 ==> Split(f + [sep] + Join(more, sep), sep) == [f] + more
  {
    if f == [] {
      if |more| >= 1 {
        assert ([] + [sep] + Join(more, sep))[1..] == Join(more, sep);
      }
    } else {
      SplitField(f[1..], more, sep);
      assert [f[0]] + f[1..] == f;
      if |more| == 0 {
        assert Split(f, sep) == [[f[0]] + Split(f[1..], sep)[0]];
      } else {
        var s := f + [sep] + Join(more, sep);
        assert s[1..] == f[1..] + [sep] + Join(more, sep);
        assert s[0] == f[0];
        var rest := Split(s[1..], sep);
        assert rest == [f[1..]] + more;
        assert rest[0] == f[1..] && rest[1..] == more;
      }
    }
  }

  /** `t` is the second space-separated field of `s`: it starts right after
      the first space and ends at the next space or at the end of `s`. */
  ghost predicate IsSecondField(s: string, t: string) {
    exists k | 0 <= k < |s| ::
      && s[k] == ' ' && ' ' !in s[..k]
      && k + 1 + |t| <= |s| && s[k + 1..k + 1 + |t|] == t
      && (k + 1 + |t| == |s| || s[k + 1 + |t|] == ' ')
  }

  lemma {:induction false} SecondField(s: string)
    requires ' ' in s
    ensures |Split(s, ' ')| >= 2
    ensures IsSecondField(s, Split(s, ' ')[1])
  {
    var fields := Split(s, ' ');
    JoinSplit(s, ' ');
    if |fields| < 2 {
      assert false;
    }
    var tail := Join(fields[1..], ' ');
    assert s == fields[0] + [' '] + tail;
    var rest: string;
    if |fields| == 2 {
      rest := "";
      assert tail == fields[1];
    } else {
      rest := [' '] + Join(fields[2..], ' ');
      assert fields[1..][1..] == fields[2..];
      assert tail == fields[1] + rest;
    }
    var k := |fields[0]|;
    var t := fields[1];
    assert s == fields[0] + [' '] + t + rest;
    assert s[..k] == fields[0];
    assert s[k] == ' ';
    assert s[k + 1..k + 1 + |t|] == t;
    assert k + 1 + |t| < |s| ==> s[k + 1 + |t|] == rest[0];
  }

  /** `authHeader?.split(' ')[1]`: the second space-separated field of the
      Authorization header, or nothing when the header is absent or has no space. */
  function AccessTokenFromHeader(header: Option<string>): (r: Option<string>)
    ensures r.None? <==> header.None? || ' ' !in header.value
    ensures r.Some? ==> ' ' !in r.value && IsSecondField(header.value, r.value)
  {
    if header.None? then None
    else if ' ' !in header.value then
      SplitField(header.value, [], ' ');
      None
    else
      SecondField(header.value);
      Some(Split(header.value, ' ')[1])
  }

  /** What the logout handler passes to `AuthService.logout`. */
  datatype LogoutCall = LogoutCall(userId: int, accessToken: string, refreshToken: string)

  /** The checks of `logout`: the id is the authenticated user's; a missing
      or empty access token or body `refresh_token` is Unauthorized('Missing
      tokens') and the service is not called. */
  function LogoutCheck(authenticatedId: int, header: Option<string>, bodyRefreshToken: Option<string>)
    : (r: Result<LogoutCall>)
    ensures r.Err? <==> !Truthy(AccessTokenFromHeader(header)) || !Truthy(bodyRefreshToken)
    ensures r.Err? ==> r.error == Unauthorized("Missing tokens")
    ensures r.Ok? ==>
      && r.value.userId == authenticatedId
      && r.value.accessToken != "" && r.value.refreshToken != ""
      && Some(r.value.refreshToken) == bodyRefreshToken
      && Some(r.value.accessToken) == AccessTokenFromHeader(header)
  {
    var accessToken := AccessTokenFromHeader(header);
    if !Truthy(accessToken) || !Truthy(bodyRefreshToken) then Err(Unauthorized("Missing tokens"))
    else Ok(LogoutCall(authenticatedId, accessToken.value, bodyRefreshToken.value))
  }

  /** The claims `jwtService.decode` yields; `None` stands for a token that
      does not decode (decode returns null or throws). */
  datatype Claims = Claims(sub: Option<int>)

  datatype RefreshCall = RefreshCall(userId: int, refreshToken: string)

  /** The checks of `refresh`: a token whose decoded `sub` is missing or
      falsy (0) is Unauthorized('Invalid refresh token'); otherwise the service
      is called with that `sub` as the user id. */
  function RefreshCheck(decoded: Option<Claims>, refreshToken: string): (r: Result<RefreshCall>)
    ensures r.Err? <==> decoded.None? || decoded.value.sub.None? || decoded.value.sub.value == 0
    ensures r.Err? ==> r.error == Unauthorized(InvalidRefreshToken)
    ensures r.Ok? ==> r.value.refreshToken == refreshToken && Some(r.value.userId) == decoded.value.sub && r.value.userId != 0
  {
    if decoded.None? || decoded.value.sub.None? || decoded.value.sub.value == 0 then Err(Unauthorized(InvalidRefreshToken))
    else Ok(RefreshCall(decoded.value.sub.value, refreshToken))
  }

  /** The check of `login`: no validated user is Unauthorized('Invalid credentials'). */
  function LoginCheck(validated: Option<UserDto>): (r: Result<UserDto>)
    ensures r.Err? <==> validated.None?
    ensures r.Err? ==> r.error == Unauthorized("Invalid credentials")
    ensures r.Ok? ==> r.value == validated.value
  {
    if validated.None? then Err(Unauthorized("Invalid credentials")) else Ok(validated.value)
  }

  class AuthController {
    const service: AuthService

    constructor (service: AuthService)
      ensures this.service == service
    {
      this.service := service;
    }

    /** POST /auth/login. */
    method Login(email: string, password: string, passwordMatches: (string, string) -> bool,
                 now: int, accessToken: string, refreshToken: string)
      returns (r: Result<LoginResponse>)
      requires service.db.Valid()
      requires Unissued(service.db.tmpTokens, accessToken) && Unissued(service.db.tmpTokens, refreshToken)
      modifies service.db`tmpTokens
      ensures service.db.Valid()
      ensures Evolves(old(service.db.tmpTokens), service.db.tmpTokens)
      ensures r.Err? <==> !exists u | u in service.db.users :: u.email == email && passwordMatches(password, u.password)
      ensures r.Err? ==> r.error == Unauthorized("Invalid credentials") && service.db.tmpTokens == old(service.db.tmpTokens)
      ensures r.Ok? ==>
        && FindUserByEmail(service.db.users, email).Some?
        && r.value == LoginResponse(accessToken, refreshToken, ToDto(FindUserByEmail(service.db.users, email).value))
        && service.db.tmpTokens == old(service.db.tmpTokens) + IssuedPair(email, accessToken, refreshToken, now)
    {
      var user := service.ValidateUser(email, password, passwordMatches);
      var checked := LoginCheck(user);
      if checked.Err? {
        return Err(checked.error);
      }
      var response := service.Login(checked.value, now, accessToken, refreshToken);
      r := Ok(response);
    }

    /** POST /auth/logout: the guard has authenticated `authenticatedId`. */
    method Logout(authenticatedId: int, header: Option<string>, bodyRefreshToken: Option<string>)
      returns (r: Result<bool>)
      requires service.db.Valid()
      modifies service.db`tmpTokens
      ensures service.db.Valid()
      ensures Evolves(old(service.db.tmpTokens), service.db.tmpTokens)
      ensures LogoutCheck(authenticatedId, header, bodyRefreshToken).Err? ==>
        r == Err(Unauthorized("Missing tokens")) && service.db.tmpTokens == old(service.db.tmpTokens)
      ensures LogoutCheck(authenticatedId, header, bodyRefreshToken).Ok? &&
              FindUserById(service.db.users, authenticatedId).None? ==>
        r == Err(Unauthorized("User not found")) && service.db.tmpTokens == old(service.db.tmpTokens)
      ensures LogoutCheck(authenticatedId, header, bodyRefreshToken).Ok? &&
              FindUserById(service.db.users, authenticatedId).Some? ==>
        var call := LogoutCheck(authenticatedId, header, bodyRefreshToken).value;
        && r == Ok(true)
        && service.db.tmpTokens == RevokeBoth(old(service.db.tmpTokens), call.accessToken, call.refreshToken,
                                              FindUserById(service.db.users, authenticatedId).value.email)
    {
      var checked := LogoutCheck(authenticatedId, header, bodyRefreshToken);
      if checked.Err? {
        return Err(checked.error);
      }
      r := service.Logout(checked.value.userId, checked.value.accessToken, checked.value.refreshToken);
    }

    /** POST /auth/refresh: every failure is Unauthorized('Invalid refresh token'). */
    method Refresh(refreshToken: string, decoded: Option<Claims>, verifiedSub: Option<int>, now: int,
                   newAccessToken: string, newRefreshToken: string)
      returns (r: Result<LoginResponse>)
      requires service.db.Valid()
      requires Unissued(service.db.tmpTokens, newAccessToken) && Unissued(service.db.tmpTokens, newRefreshToken)
      modifies service.db`tmpTokens
      ensures service.db.Valid()
      ensures Evolves(old(service.db.tmpTokens), service.db.tmpTokens)
      ensures r.Err? ==> r.error == Unauthorized(InvalidRefreshToken) && service.db.tmpTokens == old(service.db.tmpTokens)
      ensures r.Ok? <==>
        && RefreshCheck(decoded, refreshToken).Ok?
        && CanRefresh(old(service.db.tmpTokens), service.db.users, RefreshCheck(decoded, refreshToken).value.userId,
                      refreshToken, verifiedSub)
      ensures r.Ok? ==>
        var i := FindToken(old(service.db.tmpTokens), refreshToken, RefreshToken).value;
        var user := FindUserById(service.db.users, RefreshCheck(decoded, refreshToken).value.userId).value;
        && service.db.tmpTokens == old(service.db.tmpTokens)[i := old(service.db.tmpTokens)[i].(isUsed := true)]
                                   + IssuedPair(user.email, newAccessToken, newRefreshToken, now)
        && r.value == LoginResponse(newAccessToken, newRefreshToken, ToDto(user))
      ensures r.Ok? ==> Redeemed(service.db.tmpTokens, refreshToken) && !Redeemable(service.db.tmpTokens, refreshToken)
      ensures Redeemed(old(service.db.tmpTokens), refreshToken) ==> r.Err?
    {
      var checked := RefreshCheck(decoded, refreshToken);
      if checked.Err? {
        return Err(checked.error);
      }
      ghost var before := service.db.tmpTokens;
      if Redeemed(before, refreshToken) {
        ReplayRejected(before, before, service.db.users, checked.value.userId, refreshToken, verifiedSub);
      }
      r := service.Refresh(checked.value.userId, refreshToken, verifiedSub, now, newAccessToken, newRefreshToken);
    }
  }
}
