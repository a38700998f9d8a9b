/** The relational store the services write through Prisma: one object whose
    fields are the tables, with the uniqueness and foreign-key constraints the
    database enforces stated as `Valid()`. */
module Prisma {
  import opened Common

  datatype TokenType = EmailConfirmation | PasswordReset | EmailChange | AccessToken | RefreshToken

  /** A row of the temporary-token table. Its id is its position in the table:
      rows are only ever appended, never deleted. Times are milliseconds. */
  datatype TmpToken = TmpToken(
    tokenType: TokenType,
    emailFrom: string,
    emailTo: string,
    token: string,
    expiresAt: int,
    locale: string,
    isUsed: bool,
    isExpired: bool)

  /** A row of the user table, with the credential columns. */
  datatype UserRow = UserRow(
    id: int, email: string, username: string, firstName: string, lastName: string,
    password: string, salt: string, createdAt: int, updatedAt: int)

  /** The user record the services return: every column but `password` and `salt`. */
  datatype UserDto = UserDto(
    id: int, email: string, username: string, firstName: string, lastName: string,
    createdAt: int, updatedAt: int)

  function ToDto(u: UserRow): (d: UserDto)
    ensures d.id == u.id && d.email == u.email && d.username == u.username
    ensures d.firstName == u.firstName && d.lastName == u.lastName
    ensures d.createdAt == u.createdAt && d.updatedAt == u.updatedAt
  {
    UserDto(u.id, u.email, u.username, u.firstName, u.lastName, u.createdAt, u.updatedAt)
  }

  /** A row of the scraped-content table; its id is its position. */
  datatype ScrappedRow = ScrappedRow(
    id: nat, baseUrl: string, scrappedUrl: string, lastScrappedAt: int,
    htmlContent: string, markdownContent: Option<string>, createdAt: int, updatedAt: int)

  datatype Company = Company(id: int, companyName: string, isActive: bool, createdAt: int, updatedAt: int)

  datatype LlmModel = LlmModel(
    id: int, displayName: string, modelName: string, llmCompanyId: int, typeId: int,
    createdAt: int, updatedAt: int)

  datatype StdType = StdType(id: int, typeName: string, isActive: bool, createdAt: int, updatedAt: int)

  predicate IsSessionToken(t: TokenType) {
    t == AccessToken || t == RefreshToken
  }

  /** No two access or refresh rows of the same type share a token string.
      The schema does not enforce this; it is an invariant of the model, kept
      because newly issued tokens are fresh. */
  ghost predicate UniqueSessionTokens(ts: seq<TmpToken>) {
    forall i, j | 0 <= i < j < |ts| && ts[i].token == ts[j].token && ts[i].tokenType == ts[j].tokenType ::
      !IsSessionToken(ts[i].tokenType)
  }

  /** Appending a row that is neither an access nor a refresh token keeps
      the session tokens unique. */
  lemma {:induction false} AppendOtherToken(ts: seq<TmpToken>, row: TmpToken)
    requires UniqueSessionTokens(ts)
    requires !IsSessionToken(row.tokenType)
    ensures UniqueSessionTokens(ts + [row])
  {
    var b := ts + [row];
    forall i, j | 0 <= i < j < |b| && b[i].token == b[j].token && b[i].tokenType == b[j].tokenType
      ensures !IsSessionToken(b[i].tokenType)
    {
      if j == |ts| {
        assert b[i].tokenType == row.tokenType;
      } else {
        assert b[i] == ts[i] && b[j] == ts[j];
      }
    }
  }

  ghost predicate UsersValid(users: seq<UserRow>, nextId: int) {
    && 0 < nextId
    && (forall i | 0 <= i < |users| :: 0 < users[i].id < nextId)
    && (forall i, j | 0 <= i < j < |users| ::
          users[i].id != users[j].id && users[i].email != users[j].email && users[i].username != users[j].username)
  }

  /** A row with a fresh id and an email and username nobody has keeps the
      users table valid. */
  lemma {:induction false} UsersAppend(users: seq<UserRow>, nextId: int, row: UserRow)
    requires UsersValid(users, nextId)
    requires row.id == nextId
    requires forall u | u in users :: u.email != row.email && u.username != row.username
    ensures UsersValid(users + [row], nextId + 1)
  {
    var b := users + [row];
    forall i, j | 0 <= i < j < |b|
      ensures b[i].id != b[j].id && b[i].email != b[j].email && b[i].username != b[j].username
    {
      assert b[i] == users[i];
      if j == |users| {
        assert b[i] in users;
      } else {
        assert b[j] == users[j];
      }
    }
  }

  ghost predicate ScrappedValid(rows: seq<ScrappedRow>) {
    && (forall i | 0 <= i < |rows| :: rows[i].id == i)
    && (forall i, j | 0 <= i < j < |rows| :: rows[i].scrappedUrl != rows[j].scrappedUrl)
  }

  ghost predicate CompaniesValid(companies: map<int, Company>, nextId: int) {
    && 0 < nextId
    && (forall k | k in companies :: companies[k].id == k && 0 < k < nextId)
    && (forall a, b | a in companies && b in companies && a != b ::
          companies[a].companyName != companies[b].companyName)
  }

  ghost predicate TypesValid(types: map<int, StdType>, nextId: int) {
    && 0 < nextId
    && forall k | k in types :: types[k].id == k && 0 < k < nextId
  }

  /** Every model row points at an existing company and an existing type. */
  ghost predicate ModelsValid(models: map<int, LlmModel>, nextId: int, companies: map<int, Company>, types: map<int, StdType>) {
    && 0 < nextId
    && forall k | k in models ::
      models[k].id == k && 0 < k < nextId && models[k].llmCompanyId in companies && models[k].typeId in types
  }

  class Database {
    var users: seq<UserRow>
    var nextUserId: int
    var tmpTokens: seq<TmpToken>
    var scrapped: seq<ScrappedRow>
    var companies: map<int, Company>
    var nextCompanyId: int
    var models: map<int, LlmModel>
    var nextModelId: int
    var stdTypes: map<int, StdType>
    var nextTypeId: int

    ghost predicate Valid()
      reads this
    {
      && UsersValid(users, nextUserId)
      && UniqueSessionTokens(tmpTokens)
      && ScrappedValid(scrapped)
      && CompaniesValid(companies, nextCompanyId)
      && TypesValid(stdTypes, nextTypeId)
      && ModelsValid(models, nextModelId, companies, stdTypes)
    }

    constructor ()
      ensures Valid()
      ensures users == [] && tmpTokens == [] && scrapped == []
      ensures companies == map[] && models == map[] && stdTypes == map[]
    {
      users, tmpTokens, scrapped := [], [], [];
      companies, models, stdTypes := map[], map[], map[];
      nextUserId, nextCompanyId, nextModelId, nextTypeId := 1, 1, 1, 1;
    }
  }

  /** `findUnique({ where: { id } })` on the user table. */
  function FindUserById(users: seq<UserRow>, id: int): (r: Option<UserRow>)
    ensures r.Some? ==> r.value in users && r.value.id == id
    ensures r.None? ==> forall u | u in users :: u.id != id
  {
    if users == [] then None
    else if users[0].id == id then Some(users[0])
    else FindUserById(users[1..], id)
  }

  /** `findUnique({ where: { email } })` on the user table. */
  function FindUserByEmail(users: seq<UserRow>, email: string): (r: Option<UserRow>)
    ensures r.Some? ==> r.value in users && r.value.email == email
    ensures r.None? ==> forall u | u in users :: u.email != email
  {
    if users == [] then None
    else if users[0].email == email then Some(users[0])
    else FindUserByEmail(users[1..], email)
  }

  /** `findFirst({ where: { token, type } })`: the position of the first row
      with that token string and type. */
  function FindToken(ts: seq<TmpToken>, token: string, t: TokenType): (r: Option<nat>)
    ensures r.Some? ==> r.value < |ts| && ts[r.value].token == token && ts[r.value].tokenType == t
    ensures r.Some? ==> forall i | 0 <= i < r.value :: !(ts[i].token == token && ts[i].tokenType == t)
    ensures r.None? ==> forall i | 0 <= i < |ts| :: !(ts[i].token == token && ts[i].tokenType == t)
  {
    if ts == [] then None
    else if ts[0].token == token && ts[0].tokenType == t then Some(0)
    else match FindToken(ts[1..], token, t)
      case None => None
      case Some(k) => Some(k + 1)
  }
}
