/** `UsersService` (kajix-api/src/users/users.service.ts): the random token
    generator, the localised verification email, the verification flow that
    stores a token and then mails a link to it, and the mapping of database
    errors to HTTP exceptions in `create`, `update` and `remove`. */
module Users {
  import opened Common
  import opened Prisma
  import opened Base64
  import opened VerificationMail

  /** `Math.ceil(length * 0.75)`: the number of random bytes drawn. */
  function RandomByteCount(length: nat): (n: nat)
    ensures 4 * n >= 3 * length && 4 * n < 3 * length + 4
  {
    (3 * length + 3) / 4
  }

  /** `generateRandomToken(length)`: the random bytes in standard base 64,
      moved to the URL-safe alphabet with the padding dropped, cut to
      `length` (`slice` keeps a shorter string whole). */
  function GenerateRandomToken(length: nat, randomBytes: seq<byte>): (token: string)
    requires |randomBytes| == RandomByteCount(length)
    ensures |token| == length
    ensures forall k | 0 <= k < |token| :: IsUrlSafe(token[k])
    ensures '+' !in token && '/' !in token && '=' !in token
    ensures token == Encode(randomBytes)[..length]
  {
    var encoded := ToUrlAlphabet(EncodeStd(randomBytes));
    RewriteIsUrlEncoding(randomBytes);
    EnoughCharacters(length);
    assert forall k | 0 <= k < length :: IsUrlSafe(encoded[k]);
    if length <= |encoded| then encoded[..length] else encoded
  }

  /** The length of the email verification token. */
  const VerificationTokenLength: nat := 64

  /** How long an email verification token is valid: 30 minutes, in ms. */
  const VerificationLifetime: int := 30 * 60 * 1000

  /** The environment `sendVerificationEmail` reads: `FRONTEND_URL` and `MAIL_FROM`. */
  datatype Env = Env(frontendUrl: Option<string>, mailFrom: Option<string>)

  /** `${process.env.FRONTEND_URL}/verify/${token}`: an unset variable
      prints as "undefined". */
  function VerificationLink(env: Env, token: string): (r: string)
    ensures |r| >= |"/verify/"| + |token|
    ensures r[|r| - |token| - |"/verify/"|..] == "/verify/" + token
  {
    (if env.frontendUrl.Some? then env.frontendUrl.value else "undefined") + "/verify/" + token
  }

  /** The EMAIL_CONFIRMATION row `sendVerificationEmail` stores. */
  function ConfirmationRow(email: string, mailFrom: string, token: string, now: int, locale: Locale): (t: TmpToken)
    ensures t.tokenType == EmailConfirmation && t.tokenType != AccessToken && t.tokenType != RefreshToken
    ensures t.emailTo == email && t.emailFrom == mailFrom && t.token == token
    ensures t.expiresAt - now == 30 * 60 * 1000
    ensures !t.isUsed && !t.isExpired
  {
    TmpToken(EmailConfirmation, mailFrom, email, token, now + VerificationLifetime, LocaleTag(locale), false, false)
  }

  const VerificationSent: string := "Verification email sent successfully"

  datatype Mail = Mail(to: string, subject: string, text: string)

  /** The outgoing mail transport: the mails it delivered, in order. */
  class Mailer {
    var outbox: seq<Mail>

    constructor ()
      ensures outbox == []
    {
      outbox := [];
    }

    /** `MailService.sendEmail`: delivers the mail, or fails with the reason
        the transport gives (`failure`), wrapped in a plain `Error`. */
    method SendEmail(to: string, subject: string, text: string, failure: Option<string>)
      returns (error: Option<Exception>)
      modifies this
      ensures failure.None? ==> error.None? && outbox == old(outbox) + [Mail(to, subject, text)]
      ensures failure.Some? ==>
        error == Some(PlainError("Failed to send email: " + failure.value + ". Please try again later.")) &&
        outbox == old(outbox)
    {
      if failure.Some? {
        return Some(PlainError("Failed to send email: " + failure.value + ". Please try again later."));
      }
      outbox := outbox + [Mail(to, subject, text)];
      error := None;
    }
  }

  datatype CreateUserDto = CreateUserDto(username: string, email: string, firstName: string, lastName: string, password: string)

  /** The fields `update` may change; `None` leaves a field as it is. */
  datatype UpdateUserDto = UpdateUserDto(
    username: Option<string>, email: Option<string>, firstName: Option<string>, lastName: Option<string>)

  /** The error `create` throws for a failed insert. */
  function CreateError(e: DbError): (x: Exception)
    ensures x.Conflict? <==> e == KnownRequest(UniqueConstraintViolation)
    ensures x.Conflict? ==> x.message == "Email or username already exists"
    ensures !x.Conflict? ==> x == Unhandled(e)
  {
    if e == KnownRequest(UniqueConstraintViolation) then Conflict("Email or username already exists") else Unhandled(e)
  }

  /** The error `update` throws: P2025 is NotFound, anything else is
      InternalServerError. */
  function UpdateError(id: int, e: DbError): (x: Exception)
    ensures x.NotFound? <==> e == KnownRequest(RecordNotFound)
    ensures x.NotFound? ==> x.message == "User with ID " + IntToString(id) + " not found"
    ensures !x.NotFound? ==> x == InternalServerError("Failed to update user")
  {
    if e == KnownRequest(RecordNotFound) then NotFound("User with ID " + IntToString(id) + " not found")
    else InternalServerError("Failed to update user")
  }

  /** The error `remove` throws: P2025 is NotFound, anything else is
      InternalServerError. */
  function RemoveError(id: int, e: DbError): (x: Exception)
    ensures x.NotFound? <==> e == KnownRequest(RecordNotFound)
    ensures x.NotFound? ==> x.message == "User with ID " + IntToString(id) + " not found"
    ensures !x.NotFound? ==> x == InternalServerError("Failed to delete user")
  {
    if e == KnownRequest(RecordNotFound) then NotFound("User with ID " + IntToString(id) + " not found")
    else InternalServerError("Failed to delete user")
  }

  /** The position of the user with that id. */
  function UserIndex(users: seq<UserRow>, id: int): (r: Option<nat>)
    ensures r.Some? ==> r.value < |users| && users[r.value].id == id
    ensures r.None? ==> forall k | 0 <= k < |users| :: users[k].id != id
  {
    if users == [] then None
    else if users[|users| - 1].id == id then Some(|users| - 1)
    else UserIndex(users[..|users| - 1], id)
  }

  /** Whether a user other than the one at `i` already has `email` or `username`. */
  predicate TakenByOther(users: seq<UserRow>, i: int, email: string, username: string) {
    exists k | 0 <= k < |users| :: k != i && (users[k].email == email || users[k].username == username)
  }

  /** A user row with the requested fields changed. */
  function Updated(u: UserRow, dto: UpdateUserDto, now: int): (v: UserRow)
    ensures v.id == u.id && v.password == u.password && v.salt == u.salt && v.createdAt == u.createdAt
    ensures v.updatedAt == now
    ensures v.email == (if dto.email.Some? then dto.email.value else u.email)
    ensures v.username == (if dto.username.Some? then dto.username.value else u.username)
    ensures v.firstName == (if dto.firstName.Some? then dto.firstName.value else u.firstName)
    ensures v.lastName == (if dto.lastName.Some? then dto.lastName.value else u.lastName)
    ensures v.(email := u.email, username := u.username, firstName := u.firstName, lastName := u.lastName,
               updatedAt := u.updatedAt) == u
  {
    u.(email := if dto.email.Some? then dto.email.value else u.email,
       username := if dto.username.Some? then dto.username.value else u.username,
       firstName := if dto.firstName.Some? then dto.firstName.value else u.firstName,
       lastName := if dto.lastName.Some? then dto.lastName.value else u.lastName,
       updatedAt := now)
  }

  /** The sequence without its element at `i`. */
  function RemoveAt<T>(s: seq<T>, i: nat): (r: seq<T>)
    requires i < |s|
    ensures |r| == |s| - 1
    ensures forall k | 0 <= k < i :: r[k] == s[k]
    ensures forall k | i <= k < |r| :: r[k] == s[k + 1]
  {
    s[..i] + s[i + 1..]
  }

  class UsersService {
    const db: Database
    const mailer: Mailer
    /** The email templates, keyed by locale. */
    const templates: map<Locale, Wording>

    constructor (db: Database, mailer: Mailer)
      ensures this.db == db && this.mailer == mailer && templates == Templates
    {
      this.db := db;
      this.mailer := mailer;
      templates := Templates;
    }

    /** `sendVerificationEmail`: check the email, draw the token, check the
        sender, store the token, build the mail, send it. A step that fails
        leaves what the earlier steps did in place. `fault` is the error the
        database reports instead of storing the token; it is not caught. */
    method SendVerificationEmail(email: string, locale: Locale, env: Env, randomBytes: seq<byte>, now: int,
                                 fault: Option<DbError>, delivery: Option<string>)
      returns (r: Result<string>)
      requires db.Valid()
      requires |randomBytes| == RandomByteCount(VerificationTokenLength)
      modifies db`tmpTokens, mailer
      ensures db.Valid()
      ensures email == "" ==>
        r == Err(BadRequest("Email is required")) && db.tmpTokens == old(db.tmpTokens) && mailer.outbox == old(mailer.outbox)
      ensures email != "" && !Truthy(env.mailFrom) ==>
        && r == Err(InternalServerError("Mail sender configuration is missing"))
        && db.tmpTokens == old(db.tmpTokens) && mailer.outbox == old(mailer.outbox)
      ensures email != "" && Truthy(env.mailFrom) && fault.Some? ==>
        r == Err(Unhandled(fault.value)) && db.tmpTokens == old(db.tmpTokens) && mailer.outbox == old(mailer.outbox)
      ensures email != "" && Truthy(env.mailFrom) && fault.None? ==>
        var token := GenerateRandomToken(VerificationTokenLength, randomBytes);
        && db.tmpTokens == old(db.tmpTokens) + [ConfirmationRow(email, env.mailFrom.value, token, now, locale)]
        && (locale !in templates ==>
              r == Err(BadRequest("Unsupported locale: " + LocaleTag(locale))) && mailer.outbox == old(mailer.outbox))
        && (locale in templates && delivery.Some? ==>
              && r == Err(PlainError("Failed to send email: " + delivery.value + ". Please try again later."))
              && mailer.outbox == old(mailer.outbox))
        && (locale in templates && delivery.None? ==>
              var mail := GetEmailTemplate(templates, locale, VerificationLink(env, token)).value;
              r == Ok(VerificationSent) && mailer.outbox == old(mailer.outbox) + [Mail(email, mail.subject, mail.body)])
    {
      if email == "" {
        return Err(BadRequest("Email is required"));
      }
      var token := GenerateRandomToken(VerificationTokenLength, randomBytes);
      var link := VerificationLink(env, token);
      if !Truthy(env.mailFrom) {
        return Err(InternalServerError("Mail sender configuration is missing"));
      }
      if fault.Some? {
        return Err(Unhandled(fault.value));
      }
      AppendOtherToken(db.tmpTokens, ConfirmationRow(email, env.mailFrom.value, token, now, locale));
      db.tmpTokens := db.tmpTokens + [ConfirmationRow(email, env.mailFrom.value, token, now, locale)];
      r := SendTemplate(email, locale, link, delivery);
    }

    /** The last steps of `sendVerificationEmail`: build the mail for the
        locale and send it. */
    method SendTemplate(email: string, locale: Locale, link: string, delivery: Option<string>)
      returns (r: Result<string>)
      modifies mailer
      ensures locale !in templates ==>
        r == Err(BadRequest("Unsupported locale: " + LocaleTag(locale))) && mailer.outbox == old(mailer.outbox)
      ensures locale in templates && delivery.Some? ==>
        && r == Err(PlainError("Failed to send email: " + delivery.value + ". Please try again later."))
        && mailer.outbox == old(mailer.outbox)
      ensures locale in templates && delivery.None? ==>
        var mail := GetEmailTemplate(templates, locale, link).value;
        r == Ok(VerificationSent) && mailer.outbox == old(mailer.outbox) + [Mail(email, mail.subject, mail.body)]
    {
      var template := GetEmailTemplate(templates, locale, link);
      if template.Err? {
        return Err(template.error);
      }
      var error := mailer.SendEmail(email, template.value.subject, template.value.body, delivery);
      if error.Some? {
        return Err(error.value);
      }
      r := Ok(VerificationSent);
    }

    /** `create`: insert the user with the hashed password and a salt, and
        return it without either. A duplicate email or username is a Conflict;
        any other failure (`fault`) is rethrown as it is. */
    method Create(dto: CreateUserDto, hashedPassword: string, salt: string, now: int, fault: Option<DbError>)
      returns (r: Result<UserDto>)
      requires db.Valid()
      modifies db`users, db`nextUserId
      ensures db.Valid()
      ensures var duplicate := exists u | u in old(db.users) :: u.email == dto.email || u.username == dto.username;
        && (fault.Some? ==> r == Err(CreateError(fault.value)))
        && (fault.None? && duplicate ==> r == Err(Conflict("Email or username already exists")))
        && (r.Err? ==> db.users == old(db.users))
        && (r.Ok? <==> fault.None? && !duplicate)
      ensures r.Ok? ==>
        var row := UserRow(old(db.nextUserId), dto.email, dto.username, dto.firstName, dto.lastName,
                           hashedPassword, salt, now, now);
        db.users == old(db.users) + [row] && r.value == ToDto(row)
    {
      if fault.Some? {
        return Err(CreateError(fault.value));
      }
      if exists u | u in db.users :: u.email == dto.email || u.username == dto.username {
        return Err(CreateError(KnownRequest(UniqueConstraintViolation)));
      }
      var row := UserRow(db.nextUserId, dto.email, dto.username, dto.firstName, dto.lastName,
                         hashedPassword, salt, now, now);
      UsersAppend(db.users, db.nextUserId, row);
      db.users := db.users + [row];
      db.nextUserId := db.nextUserId + 1;
      r := Ok(ToDto(row));
    }

    /** `update`: change the requested fields of the user with that id. A
        missing id (P2025) is NotFound; a clash with another user's email or
        username, or any other failure, is InternalServerError. */
    method Update(id: int, dto: UpdateUserDto, now: int, fault: Option<DbError>) returns (r: Result<UserDto>)
      requires db.Valid()
      modifies db`users
      ensures db.Valid()
      ensures fault.Some? ==> r == Err(UpdateError(id, fault.value))
      ensures fault.None? && UserIndex(old(db.users), id).None? ==>
        r == Err(NotFound("User with ID " + IntToString(id) + " not found"))
      ensures fault.None? && UserIndex(old(db.users), id).Some? ==>
        var i := UserIndex(old(db.users), id).value;
        var v := Updated(old(db.users)[i], dto, now);
        && (TakenByOther(old(db.users), i, v.email, v.username) ==> r == Err(InternalServerError("Failed to update user")))
        && (!TakenByOther(old(db.users), i, v.email, v.username) ==>
              r == Ok(ToDto(v)) && db.users == old(db.users)[i := v])
      ensures r.Err? ==> db.users == old(db.users)
    {
      if fault.Some? {
        return Err(UpdateError(id, fault.value));
      }
      var index := UserIndex(db.users, id);
      if index.None? {
        return Err(UpdateError(id, KnownRequest(RecordNotFound)));
      }
      var i := index.value;
      var v := Updated(db.users[i], dto, now);
      if TakenByOther(db.users, i, v.email, v.username) {
        return Err(UpdateError(id, KnownRequest(UniqueConstraintViolation)));
      }
      db.users := db.users[i := v];
      r := Ok(ToDto(v));
    }

    /** `remove`: delete the user with that id; a missing id (P2025) is
        NotFound and any other failure is InternalServerError. */
    method Remove(id: int, fault: Option<DbError>) returns (r: Result<()>)
      requires db.Valid()
      modifies db`users
      ensures db.Valid()
      ensures fault.Some? ==> r == Err(RemoveError(id, fault.value))
      ensures fault.None? && UserIndex(old(db.users), id).None? ==>
        r == Err(NotFound("User with ID " + IntToString(id) + " not found"))
      ensures fault.None? && UserIndex(old(db.users), id).Some? ==>
        r == Ok(()) && db.users == RemoveAt(old(db.users), UserIndex(old(db.users), id).value)
      ensures r.Err? ==> db.users == old(db.users)
      ensures r.Ok? ==> forall u | u in db.users :: u in old(db.users) && u.id != id
    {
      if fault.Some? {
        return Err(RemoveError(id, fault.value));
      }
      var index := UserIndex(db.users, id);
      if index.None? {
        return Err(RemoveError(id, KnownRequest(RecordNotFound)));
      }
      db.users := RemoveAt(db.users, index.value);
      r := Ok(());
    }
  }
}
