/**
 * The user handlers `createUser` and `loginUser`. Both run behind
 * `asyncWrapper`, so what they throw reaches `errorHandler`. bcrypt is two
 * parameters: `hash(password)` gives the stored hash, or `None` when bcrypt
 * rejects its input (a missing password, say); `compare(password, stored)`
 * gives whether the password matches the hash, or `None` when it rejects.
 * Neither body is validated: `registerValidation` and `loginValidation`
 * are not called by these handlers.
 */
module UserController {
  import opened Wrappers
  import opened Json
  import opened Types
  import opened Http
  import opened Database
  import CheckRole
  import ErrorHandler

  const EmailExists := HttpError(400, "Email already exists")
  const InvalidCredentials := HttpError(401, "Invalid credentials")

  /** `role = "super_admin"` in the destructuring: the default applies only when `role` is absent. */
  function RoleOrDefault(body: Object): (r: Value)
    ensures "role" !in body ==> r == Str(RoleName(SuperAdmin))
    ensures "role" in body ==> r == body["role"]
  {
    if "role" in body then body["role"] else Str("super_admin")
  }

  /** The row `createUser` inserts, with `hashed` in place of the password. */
  function NewUser(body: Object, hashed: string): (u: UserRow)
    ensures u.password == hashed && u.email == SqlParam(Get(body, "email")) && u.role == RoleOrDefault(body)
  {
    UserRow(
      SqlParam(Get(body, "first_name")), SqlParam(Get(body, "last_name")), SqlParam(Get(body, "email")),
      hashed,
      SqlParam(Get(body, "phone")), SqlParam(Get(body, "dob")), SqlParam(Get(body, "gender")),
      SqlParam(Get(body, "address")), RoleOrDefault(body))
  }

  /**
   * `createUser`: a taken email is thrown as 400 and nothing is inserted;
   * otherwise the password is hashed and one row is inserted and returned
   * with 201. Email uniqueness is preserved.
   */
  method CreateUser(db: Database, body: Object, hash: Option<Value> -> Option<string>) returns (out: Outcome)
    requires db.Valid()
    modifies db
    ensures db.Valid()
    ensures db.artists == old(db.artists) && db.music == old(db.music)
    ensures EmailTaken(old(db.users), SqlParam(Get(body, "email"))) ==>
              out == Threw(EmailExists) && db.users == old(db.users) && db.CountersUnchanged()
    ensures !EmailTaken(old(db.users), SqlParam(Get(body, "email"))) && hash(Get(body, "password")).None? ==>
              out.Threw? && out.error.OtherError? && db.users == old(db.users) && db.CountersUnchanged()
    ensures !EmailTaken(old(db.users), SqlParam(Get(body, "email"))) && hash(Get(body, "password")).Some? ==>
              var row := NewUser(body, hash(Get(body, "password")).value);
              && old(db.nextUserId) !in old(db.users)
              && db.users == old(db.users)[old(db.nextUserId) := row]
              && db.nextUserId == old(db.nextUserId) + 1
              && db.nextArtistId == old(db.nextArtistId) && db.nextMusicId == old(db.nextMusicId)
              && out == Reply(Response(201, RecordPayload(UserRecord(old(db.nextUserId), row))))
    ensures EmailsUnique(old(db.users)) ==> EmailsUnique(db.users)
  {
    var email := SqlParam(Get(body, "email"));
    if exists id | id in db.users :: SqlEquals(db.users[id].email, email) {
      return Threw(EmailExists);
    }
    var hashed := hash(Get(body, "password"));
    if hashed.None? {
      return Threw(OtherError("data and salt arguments required"));
    }
    var row := NewUser(body, hashed.value);
    ghost var before := db.users;
    var id := db.InsertUser(row);
    if EmailsUnique(before) {
      InsertKeepsEmailsUnique(before, id, row);
    }
    out := Reply(Response(201, RecordPayload(UserRecord(id, row))));
  }

  /** The payload both tokens carry: the user's id and email, and nothing else. */
  function LoginClaims(id: int, email: Value): (c: Object)
    ensures c.Keys == {"userId", "email"}
  {
    map["userId" := Num(id as real), "email" := email]
  }

  /** The 200 body of a successful login: a 15-minute access token and a 7-day refresh token. */
  function LoginResponse(id: int, email: Value): (r: Response)
    ensures r.status == 200 && r.payload.TokenPayload?
    ensures r.payload.accessToken.payload == LoginClaims(id, email) == r.payload.refreshToken.payload
    ensures r.payload.accessToken.secret == AccessSecret && r.payload.accessToken.expiresIn == "15m"
    ensures r.payload.refreshToken.secret == RefreshSecret && r.payload.refreshToken.expiresIn == "7d"
    ensures r.payload.accessToken != r.payload.refreshToken
  {
    var claims := LoginClaims(id, email);
    Response(200, TokenPayload(Token(claims, AccessSecret, "15m"), Token(claims, RefreshSecret, "7d")))
  }

  /**
   * `loginUser`: an unknown email and a wrong password both throw the same
   * 401 "Invalid credentials"; a matching password yields the two tokens.
   */
  method LoginUser(db: Database, body: Object, compare: (Option<Value>, string) -> Option<bool>) returns (out: Outcome)
    ensures !EmailTaken(db.users, SqlParam(Get(body, "email"))) ==> out == Threw(InvalidCredentials)
    ensures out.Threw? && out.error.HttpError? ==> out == Threw(InvalidCredentials)
    ensures out.Reply? ==>
              exists id :: id in db.users && SqlEquals(db.users[id].email, SqlParam(Get(body, "email")))
                           && compare(Get(body, "password"), db.users[id].password) == Some(true)
                           && out == Reply(LoginResponse(id, db.users[id].email))
    ensures EmailsUnique(db.users) ==>
              forall id :: id in db.users && SqlEquals(db.users[id].email, SqlParam(Get(body, "email"))) ==>
                && (compare(Get(body, "password"), db.users[id].password) == Some(false) ==> out == Threw(InvalidCredentials))
                && (compare(Get(body, "password"), db.users[id].password).None? ==> out.Threw? && out.error.OtherError?)
                && (compare(Get(body, "password"), db.users[id].password) == Some(true) ==>
                      out == Reply(LoginResponse(id, db.users[id].email)))
  {
    var email := SqlParam(Get(body, "email"));
    if !exists id | id in db.users :: SqlEquals(db.users[id].email, email) {
      return Threw(InvalidCredentials);
    }
    var id :| id in db.users && SqlEquals(db.users[id].email, email);
    var user := db.users[id];
    var valid := compare(Get(body, "password"), user.password);
    if valid.None? {
      return Threw(OtherError("data and hash arguments required"));
    }
    if !valid.value {
      return Threw(InvalidCredentials);
    }
    out := Reply(LoginResponse(id, user.email));
  }

  /** Both failed-login cases reach the client as the same response. */
  lemma {:induction false} FailedLoginResponse()
    ensures ErrorHandler.Deliver(Threw(InvalidCredentials)) == Response(401, StatusPayload("error", "Invalid credentials"))
  {
  }

  /** The login tokens carry no role, so no role guard lets their claims through. */
  lemma {:induction false} LoginClaimsPassNoGuard(id: int, email: Value, role: Role)
    ensures "role" !in LoginClaims(id, email)
    ensures CheckRole.CheckRole(role, Some(LoginClaims(id, email))) == Respond(CheckRole.Denied)
  {
    assert LoginClaims(id, email).Keys == {"userId", "email"};
  }
}
