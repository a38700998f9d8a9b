/** The access/refresh token lifecycle of `AuthService`
    (kajix-api/src/auth/auth.service.ts) over the temporary-token table.

    Signing, verifying and decoding JWTs and comparing bcrypt hashes are done
    by libraries whose behaviour is not part of this model: a freshly signed
    token is a parameter that does not yet occur in the table, a verification
    is its outcome (`None` when `verify` throws, else the payload's `sub`), and
    the password check is an arbitrary function. Time is `now`, in milliseconds. */
module Auth {
  import opened Common
  import opened Prisma

  const AccessTokenLifetime: int := 15 * 60 * 1000
  const RefreshTokenLifetime: int := 7 * 24 * 60 * 60 * 1000
  const SystemSender: string := "system@kajix.io"
  const SessionLocale: string := "en"
  const InvalidRefreshToken: string := "Invalid refresh token"

  datatype LoginResponse = LoginResponse(accessToken: string, refreshToken: string, user: UserDto)

  /** The two rows `login` and `refreshToken` store for a new pair. */
  function IssuedPair(email: string, accessToken: string, refreshToken: string, now: int): (p: seq<TmpToken>)
    ensures |p| == 2
    ensures p[0].tokenType == AccessToken && p[0].token == accessToken && p[0].expiresAt == now + AccessTokenLifetime
    ensures p[1].tokenType == RefreshToken && p[1].token == refreshToken && p[1].expiresAt == now + RefreshTokenLifetime
    ensures p[0].expiresAt < p[1].expiresAt
    ensures forall k | 0 <= k < 2 ::
      p[k].emailTo == email && p[k].emailFrom == SystemSender && p[k].locale == SessionLocale && !p[k].isUsed && !p[k].isExpired
  {
    [ TmpToken(AccessToken, SystemSender, email, accessToken, now + AccessTokenLifetime, SessionLocale, false, false),
      TmpToken(RefreshToken, SystemSender, email, refreshToken, now + RefreshTokenLifetime, SessionLocale, false, false) ]
  }

  /** No row of the table carries this token string. */
  predicate Unissued(ts: seq<TmpToken>, token: string) {
    forall i | 0 <= i < |ts| :: ts[i].token != token
  }

  /** Some refresh row for `token` has neither flag set. */
  ghost predicate Redeemable(ts: seq<TmpToken>, token: string) {
    exists i | 0 <= i < |ts| :: ts[i].token == token && ts[i].tokenType == RefreshToken && !ts[i].isUsed && !ts[i].isExpired
  }

  /** Some refresh row for `token` has been marked used. */
  ghost predicate Redeemed(ts: seq<TmpToken>, token: string) {
    exists i | 0 <= i < |ts| :: ts[i].token == token && ts[i].tokenType == RefreshToken && ts[i].isUsed
  }

  /** How the table may change: rows are appended, never rewritten except
      that `isUsed` and `isExpired` may go from false to true. */
  ghost predicate Evolves(a: seq<TmpToken>, b: seq<TmpToken>) {
    && |a| <= |b|
    && forall i | 0 <= i < |a| ::
         && b[i].token == a[i].token && b[i].tokenType == a[i].tokenType && b[i].emailTo == a[i].emailTo
         && (a[i].isUsed ==> b[i].isUsed) && (a[i].isExpired ==> b[i].isExpired)
  }

  /** The checks `refreshToken` makes before it writes anything: the
      signature verifies, its `sub` is the caller's id, the first refresh row
      with that token exists with neither flag set, and the user exists.
      The stored `expiresAt` is not consulted. */
  predicate CanRefresh(ts: seq<TmpToken>, users: seq<UserRow>, userId: int, token: string, verifiedSub: Option<int>) {
    && verifiedSub == Some(userId)
    && FindToken(ts, token, RefreshToken).Some?
    && !ts[FindToken(ts, token, RefreshToken).value].isUsed
    && !ts[FindToken(ts, token, RefreshToken).value].isExpired
    && FindUserById(users, userId).Some?
  }

  /** `updateMany({ where: { token, type, emailTo }, data: { isUsed: true, isExpired: true } })`. */
  function Revoke(ts: seq<TmpToken>, token: string, t: TokenType, email: string): (r: seq<TmpToken>)
    ensures |r| == |ts|
    ensures forall i | 0 <= i < |ts| :: r[i].token == ts[i].token && r[i].tokenType == ts[i].tokenType && r[i].emailTo == ts[i].emailTo
    ensures forall i | 0 <= i < |ts| :: RevokeTarget(ts[i], token, t, email) ==> r[i] == ts[i].(isUsed := true, isExpired := true)
    ensures forall i | 0 <= i < |ts| :: !RevokeTarget(ts[i], token, t, email) ==> r[i] == ts[i]
  {
    seq(|ts|, i requires 0 <= i < |ts| =>
      if RevokeTarget(ts[i], token, t, email) then ts[i].(isUsed := true, isExpired := true) else ts[i])
  }

  predicate RevokeTarget(row: TmpToken, token: string, t: TokenType, email: string) {
    row.token == token && row.tokenType == t && row.emailTo == email
  }

  /** Both `updateMany` calls of `logout`. */
  function RevokeBoth(ts: seq<TmpToken>, accessToken: string, refreshToken: string, email: string): seq<TmpToken> {
    Revoke(Revoke(ts, accessToken, AccessToken, email), refreshToken, RefreshToken, email)
  }

  lemma UniqueKept(a: seq<TmpToken>, b: seq<TmpToken>)
    requires UniqueSessionTokens(a)
    requires |a| == |b|
    requires forall i | 0 <= i < |a| :: b[i].token == a[i].token && b[i].tokenType == a[i].tokenType
    ensures UniqueSessionTokens(b)
  {
  }

  lemma UniqueAppend(a: seq<TmpToken>, row: TmpToken)
    requires UniqueSessionTokens(a)
    requires forall i | 0 <= i < |a| :: !(a[i].token == row.token && a[i].tokenType == row.tokenType)
    ensures UniqueSessionTokens(a + [row])
  {
    var b := a + [row];
    forall i, j | 0 <= i < j < |b| && b[i].token == b[j].token && b[i].tokenType == b[j].tokenType
      ensures !IsSessionToken(b[i].tokenType)
    {
      if j == |a| {
        assert b[i] == a[i];
      } else {
        assert b[i] == a[i] && b[j] == a[j];
      }
    }
  }

  /** The replay-prevention property: once a refresh row has been marked
      used, no later table reached by the service's writes lets that token
      be redeemed again, because the row keeps its flag and is the only
      refresh row with that token. */
  lemma {:induction false} RedeemedNeverRedeemable(a: seq<TmpToken>, b: seq<TmpToken>, token: string)
    requires Evolves(a, b)
    requires UniqueSessionTokens(b)
    requires Redeemed(a, token)
    ensures !Redeemable(b, token)
    ensures FindToken(b, token, RefreshToken).Some? && b[FindToken(b, token, RefreshToken).value].isUsed
  {
    var i :| 0 <= i < |a| && a[i].token == token && a[i].tokenType == RefreshToken && a[i].isUsed;
    assert b[i].token == token && b[i].tokenType == RefreshToken && b[i].isUsed;
    forall j | 0 <= j < |b| && b[j].token == token && b[j].tokenType == RefreshToken
      ensures j == i
    {
      assert IsSessionToken(b[j].tokenType);
    }
  }

  /** A refresh token that has been redeemed once can never pass the checks
      of `refreshToken` again, whatever user id or verification comes with it. */
  lemma {:induction false} ReplayRejected(
    a: seq<TmpToken>, b: seq<TmpToken>, users: seq<UserRow>, userId: int, token: string, verifiedSub: Option<int>)
    requires Evolves(a, b)
    requires UniqueSessionTokens(b)
    requires Redeemed(a, token)
    ensures !CanRefresh(b, users, userId, token, verifiedSub)
  {
    RedeemedNeverRedeemable(a, b, token);
  }

  lemma {:induction false} EvolvesTransitive(a: seq<TmpToken>, b: seq<TmpToken>, c: seq<TmpToken>)
    requires Evolves(a, b) && Evolves(b, c)
    ensures Evolves(a, c)
  {
    forall i | 0 <= i < |a|
      ensures c[i].token == a[i].token && c[i].tokenType == a[i].tokenType && c[i].emailTo == a[i].emailTo
      ensures (a[i].isUsed ==> c[i].isUsed) && (a[i].isExpired ==> c[i].isExpired)
    {
      assert i < |b|;
    }
  }

  /** Logging out twice with the same tokens leaves the table as once. */
  lemma {:induction false} LogoutIdempotent(ts: seq<TmpToken>, accessToken: string, refreshToken: string, email: string)
    ensures RevokeBoth(RevokeBoth(ts, accessToken, refreshToken, email), accessToken, refreshToken, email)
         == RevokeBoth(ts, accessToken, refreshToken, email)
  {
    var once := RevokeBoth(ts, accessToken, refreshToken, email);
    var twice := RevokeBoth(once, accessToken, refreshToken, email);
    forall i | 0 <= i < |ts| ensures twice[i] == once[i] {
      var r1 := Revoke(ts, accessToken, AccessToken, email);
      var r2 := Revoke(once, accessToken, AccessToken, email);
      if RevokeTarget(ts[i], accessToken, AccessToken, email) {
        assert r2[i] == once[i];
      }
    }
  }

  /** After logout a refresh row the user owns for that token is never redeemable. */
  lemma {:induction false} LogoutRevokesRefresh(ts: seq<TmpToken>, accessToken: string, refreshToken: string, email: string, i: nat)
    requires i < |ts| && ts[i].token == refreshToken && ts[i].tokenType == RefreshToken && ts[i].emailTo == email
    ensures Redeemed(RevokeBoth(ts, accessToken, refreshToken, email), refreshToken)
    ensures Evolves(ts, RevokeBoth(ts, accessToken, refreshToken, email))
  {
    var r := RevokeBoth(ts, accessToken, refreshToken, email);
    assert r[i].isUsed;
  }

  class AuthService {
    const db: Database

    constructor (db: Database)
      ensures this.db == db
    {
      this.db := db;
    }

    /** `validateUser`: the password-free record of the user with that email,
        when one exists and the password matches its hash. */
    method ValidateUser(email: string, password: string, passwordMatches: (string, string) -> bool)
      returns (r: Option<UserDto>)
      requires db.Valid()
      ensures r.Some? <==> exists u | u in db.users :: u.email == email && passwordMatches(password, u.password)
      ensures r.Some? ==> exists u | u in db.users :: u.email == email && r.value == ToDto(u)
      ensures r.Some? ==>
        FindUserByEmail(db.users, email).Some? && r.value == ToDto(FindUserByEmail(db.users, email).value)
    {
      var row := FindUserByEmail(db.users, email);
      if row.None? {
        return None;
      }
      if !passwordMatches(password, row.value.password) {
        forall u | u in db.users && u.email == email ensures u == row.value {
          var i :| 0 <= i < |db.users| && db.users[i] == u;
          var j :| 0 <= j < |db.users| && db.users[j] == row.value;
          assert i == j;
        }
        return None;
      }
      var user := FindUserByEmail(db.users, email);
      r := Some(ToDto(user.value));
    }

    /** `login`: store an access row expiring in 15 minutes and a refresh row
        expiring in 7 days, both unflagged, and return those two tokens. */
    method Login(user: UserDto, now: int, accessToken: string, refreshToken: string) returns (r: LoginResponse)
      requires db.Valid()
      requires Unissued(db.tmpTokens, accessToken) && Unissued(db.tmpTokens, refreshToken)
      modifies db`tmpTokens
      ensures db.Valid()
      ensures db.tmpTokens == old(db.tmpTokens) + IssuedPair(user.email, accessToken, refreshToken, now)
      ensures Evolves(old(db.tmpTokens), db.tmpTokens)
      ensures r == LoginResponse(accessToken, refreshToken, user)
    {
      StorePair(user.email, accessToken, refreshToken, now);
      r := LoginResponse(accessToken, refreshToken, user);
    }

    /** The two `tmpToken.create` calls `login` and `refreshToken` both make:
        the access row, then the refresh row, appended to the table. */
    method StorePair(email: string, accessToken: string, refreshToken: string, now: int)
      requires db.Valid()
      requires Unissued(db.tmpTokens, accessToken) && Unissued(db.tmpTokens, refreshToken)
      modifies db`tmpTokens
      ensures db.Valid()
      ensures db.tmpTokens == old(db.tmpTokens) + IssuedPair(email, accessToken, refreshToken, now)
    {
      var pair := IssuedPair(email, accessToken, refreshToken, now);
      UniqueAppend(db.tmpTokens, pair[0]);
      db.tmpTokens := db.tmpTokens + [pair[0]];
      UniqueAppend(db.tmpTokens, pair[1]);
      db.tmpTokens := db.tmpTokens + [pair[1]];
      assert db.tmpTokens == old(db.tmpTokens) + pair;
    }

    /** `refreshToken`: every failed check is reported as
        Unauthorized('Invalid refresh token') with the table untouched; on
        success the old refresh row alone is marked used (not expired) and a
        new pair is appended after it. The writes are assumed to succeed: a
        database failure after the row is marked would also be reported as
        Unauthorized, but with the token already spent. */
    method Refresh(userId: int, refreshToken: string, verifiedSub: Option<int>, now: int,
                        newAccessToken: string, newRefreshToken: string)
      returns (r: Result<LoginResponse>)
      requires db.Valid()
      requires Unissued(db.tmpTokens, newAccessToken) && Unissued(db.tmpTokens, newRefreshToken)
      modifies db`tmpTokens
      ensures db.Valid()
      ensures Evolves(old(db.tmpTokens), db.tmpTokens)
      ensures r.Ok? <==> CanRefresh(old(db.tmpTokens), db.users, userId, refreshToken, verifiedSub)
      ensures r.Err? ==> r.error == Unauthorized(InvalidRefreshToken) && db.tmpTokens == old(db.tmpTokens)
      ensures r.Ok? ==>
        var i := FindToken(old(db.tmpTokens), refreshToken, RefreshToken).value;
        var user := FindUserById(db.users, userId).value;
        && db.tmpTokens == old(db.tmpTokens)[i := old(db.tmpTokens)[i].(isUsed := true)]
                           + IssuedPair(user.email, newAccessToken, newRefreshToken, now)
        && r.value == LoginResponse(newAccessToken, newRefreshToken, ToDto(user))
      ensures r.Ok? ==> Redeemed(db.tmpTokens, refreshToken) && !Redeemable(db.tmpTokens, refreshToken)
    {
      if verifiedSub.None? || verifiedSub.value != userId {
        return Err(Unauthorized(InvalidRefreshToken));
      }
      var existing := FindToken(db.tmpTokens, refreshToken, RefreshToken);
      if existing.None? || db.tmpTokens[existing.value].isUsed || db.tmpTokens[existing.value].isExpired {
        return Err(Unauthorized(InvalidRefreshToken));
      }
      var user := FindUserById(db.users, userId);
      if user.None? {
        return Err(Unauthorized(InvalidRefreshToken));
      }
      ghost var before := db.tmpTokens;
      var i := existing.value;
      db.tmpTokens := db.tmpTokens[i := db.tmpTokens[i].(isUsed := true)];
      UniqueKept(before, db.tmpTokens);
      StorePair(user.value.email, newAccessToken, newRefreshToken, now);
      assert Redeemed(db.tmpTokens, refreshToken) by {
        assert db.tmpTokens[i].token == refreshToken && db.tmpTokens[i].tokenType == RefreshToken && db.tmpTokens[i].isUsed;
      }
      RedeemedNeverRedeemable(db.tmpTokens, db.tmpTokens, refreshToken);
      r := Ok(LoginResponse(newAccessToken, newRefreshToken, ToDto(user.value)));
    }

    /** `logout`: Unauthorized when the user is missing; otherwise flag as used
        and expired exactly the rows matching (token, type, the user's email)
        for both tokens, and return true. */
    method Logout(userId: int, accessToken: string, refreshToken: string) returns (r: Result<bool>)
      requires db.Valid()
      modifies db`tmpTokens
      ensures db.Valid()
      ensures Evolves(old(db.tmpTokens), db.tmpTokens)
      ensures FindUserById(db.users, userId).None? ==>
        r == Err(Unauthorized("User not found")) && db.tmpTokens == old(db.tmpTokens)
      ensures FindUserById(db.users, userId).Some? ==>
        && r == Ok(true)
        && db.tmpTokens == RevokeBoth(old(db.tmpTokens), accessToken, refreshToken, FindUserById(db.users, userId).value.email)
    {
      var user := FindUserById(db.users, userId);
      if user.None? {
        return Err(Unauthorized("User not found"));
      }
      ghost var before := db.tmpTokens;
      db.tmpTokens := Revoke(db.tmpTokens, accessToken, AccessToken, user.value.email);
      UniqueKept(before, db.tmpTokens);
      ghost var mid := db.tmpTokens;
      db.tmpTokens := Revoke(db.tmpTokens, refreshToken, RefreshToken, user.value.email);
      UniqueKept(mid, db.tmpTokens);
      EvolvesTransitive(before, mid, db.tmpTokens);
      r := Ok(true);
    }
  }
}
