/** Request authorisation (backend/app/core/dependencies.py): resolve the bearer token to a stored user. */
module Dependencies {

  import opened Wrappers
  import opened Json
  import opened Http
  import opened Models
  import opened Auth

  /** The one error every failure raises: 401 with a `WWW-Authenticate: Bearer` header. */
  const CredentialsException: HttpError :=
    HttpError(401, "Could not validate credentials", map["WWW-Authenticate" := "Bearer"])

  /** The token's subject names a stored user: it decodes, carries a string `sub`, and that is a user's id.
      A `sub` that is not a string names no user. */
  predicate Resolves(token: string, users: map<Uuid, User>, decode: string -> Decoded) {
    var d := decode(token);
    d.Claims? && "sub" in d.payload && d.payload["sub"].JString? && d.payload["sub"].s in users
  }

  /** `get_current_user`: 401 when the token does not decode, when its claims have no `sub` (an empty
      claim set is falsy and fails the same way), or when `sub` names no user; otherwise that user. */
  function CurrentUser(token: string, users: map<Uuid, User>, decode: string -> Decoded): (r: Result<User, HttpError>)
    ensures r.Success? <==> Resolves(token, users, decode)
    ensures r.Success? ==> r.value == users[decode(token).payload["sub"].s]
    ensures r.Failure? ==> r.error == CredentialsException
  {
    var payload := DecodeAccessToken(token, decode);
    if payload.None? || payload.value == map[] || "sub" !in payload.value then Failure(CredentialsException)
    else
      var sub := payload.value["sub"];
      if !sub.JString? then Failure(CredentialsException)
      else
        match UserById(users, sub.s)
        case None => Failure(CredentialsException)
        case Some(user) => Success(user)
  }

  /** An expired or tampered token (one `jwt.decode` rejects) is refused by every protected route. */
  lemma RejectedTokenIsUnauthorised(token: string, users: map<Uuid, User>, decode: string -> Decoded)
    requires decode(token).JwtError?
    ensures CurrentUser(token, users, decode) == Failure(CredentialsException)
  {
  }
}
