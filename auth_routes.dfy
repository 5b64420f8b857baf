/** The `/auth` routes (backend/app/api/auth_routes.py): `/me`, `/register` and `/login`. */
module AuthRoutes {

  import opened Wrappers
  import opened Json
  import opened Http
  import opened Models
  import opened Auth
  import opened Dependencies

  datatype MeView = MeView(id: string, email: string, createdAt: Timestamp)

  datatype Registered = Registered(id: string, email: string)

  /** The OAuth2 password form: its `username` field carries the email. */
  datatype LoginForm = LoginForm(username: string, password: string)

  datatype TokenResponse = TokenResponse(accessToken: string, tokenType: string)

  /** `GET /auth/me`: the caller's id, email and creation time, behind the bearer-token check. */
  function GetMe(token: string, users: map<Uuid, User>, decode: string -> Decoded): (r: Result<MeView, HttpError>)
    ensures r.Success? <==> Resolves(token, users, decode)
    ensures r.Success? ==>
      var u := users[decode(token).payload["sub"].s];
      r.value == MeView(u.id, u.email, u.createdAt)
    ensures r.Failure? ==> r.error == CredentialsException
  {
    match CurrentUser(token, users, decode)
    case Failure(e) => Failure(e)
    case Success(u) => Success(MeView(u.id, u.email, u.createdAt))
  }

  /** `POST /auth/register`: 400 for an email already registered and nothing created; otherwise exactly
      one new user, holding the password's hash, and its id and email as the answer. */
  method Register(session: Session, email: string, password: string, hashPw: string -> string, newId: Uuid, now: Timestamp)
      returns (r: Result<Registered, HttpError>)
    requires session.Valid()
    requires newId !in session.users
    modifies session
    ensures session.Valid()
    ensures session.receipts == old(session.receipts) && session.items == old(session.items)
    ensures r.Failure? <==> HasEmail(old(session.users), email)
    ensures r.Failure? ==> r.error == Raise(400, "Email already registered") && session.users == old(session.users)
    ensures r.Success? ==> r.value == Registered(newId, email)
    ensures r.Success? ==> session.users == old(session.users)[newId := User(newId, email, hashPw(password), now)]
  {
    if UserByEmail(session.users, email).Some? {
      return Failure(Raise(400, "Email already registered"));
    }
    var created := CreateUser(session, email, password, hashPw, newId, now);
    assert created.Success?;
    var userObj := created.value;
    return Success(Registered(userObj.id, userObj.email));
  }

  /** `POST /auth/login`: 401 unless the credentials authenticate; then a bearer token whose claims are
      the user's id as `sub` and an expiry one day after `now`. */
  function Login(users: map<Uuid, User>, form: LoginForm, verify: (string, string) -> bool,
                 encode: Payload -> string, now: Timestamp): (r: Result<TokenResponse, HttpError>)
    requires UniqueEmails(users)
    ensures r.Failure? <==> AuthenticateUser(users, form.username, form.password, verify).None?
    ensures r.Failure? ==> r.error == Raise(401, "Invalid credentials")
    ensures r.Success? ==>
      var u := AuthenticateUser(users, form.username, form.password, verify).value;
      r.value == TokenResponse(encode(map["sub" := JString(u.id), "exp" := JInt(now + 86400)]), "bearer")
  {
    match AuthenticateUser(users, form.username, form.password, verify)
    case None => Failure(Raise(401, "Invalid credentials"))
    case Some(userObj) =>
      var token := CreateAccessToken(map["sub" := JString(userObj.id)], now, None, encode);
      Success(TokenResponse(token, "bearer"))
  }

  /** Register, then log in with the same credentials: the token resolves to the new user, provided the
      hash verifies its own password and the token login issues decodes to the claims it was made from. */
  lemma {:induction false} LoginAfterRegister(
      t: Tables, email: string, password: string, newId: Uuid, now: Timestamp, later: Timestamp,
      hashPw: string -> string, verify: (string, string) -> bool, encode: Payload -> string, decode: string -> Decoded)
    requires Inv(t) && newId !in t.users && !HasEmail(t.users, email)
    requires verify(password, hashPw(password))
    requires var p := map["sub" := JString(newId), "exp" := JInt(later + 86400)]; decode(encode(p)) == Claims(p)
    ensures
      var users := t.users[newId := User(newId, email, hashPw(password), now)];
      UniqueEmails(users) &&
      var login := Login(users, LoginForm(email, password), verify, encode, later);
      login.Success? && CurrentUser(login.value.accessToken, users, decode) == Success(users[newId])
  {
    var u := User(newId, email, hashPw(password), now);
    WithUserKeepsInv(t, u);
    var users := t.users[newId := u];
    assert users[newId].email == email;
    var found := UserByEmail(users, email).value;
    assert found == u;
  }
}
