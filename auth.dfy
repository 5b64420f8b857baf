/** Credentials (backend/app/core/auth.py): token payloads, token decoding, user lookups, password
    check and user creation. bcrypt and the JWT library are parameters: `hashPw`, `verify`, `encode`
    and `decode` stand for `pwd_context.hash`, `pwd_context.verify`, `jwt.encode` and `jwt.decode`
    with the configured key and algorithm. */
module Auth {

  import opened Wrappers
  import opened Json
  import opened Models

  /** A JWT claim set. */
  type Payload = map<string, Json>

  /** What `jwt.decode` does with a token: returns its claims, or raises JWTError (bad signature, expired, malformed). */
  datatype Decoded = Claims(payload: Payload) | JwtError

  const AccessTokenExpireMinutes: int := 60 * 24

  /** `datetime.now(timezone.utc) + (expires_delta or timedelta(minutes=ACCESS_TOKEN_EXPIRE_MINUTES))`,
      in seconds; a zero delta is falsy and falls back to the default too. */
  function ExpiresAt(now: Timestamp, expiresDelta: Option<int>): (exp: int)
    ensures expiresDelta.None? || expiresDelta == Some(0) ==> exp == now + 86400
    ensures expiresDelta.Some? && expiresDelta.value != 0 ==> exp == now + expiresDelta.value
  {
    var delta := if expiresDelta.None? || expiresDelta.value == 0 then AccessTokenExpireMinutes * 60 else expiresDelta.value;
    now + delta
  }

  /** The claims `create_access_token` encodes: a copy of `data` with `exp` set (the caller's dict,
      a value here, is not changed). */
  function TokenClaims(data: Payload, now: Timestamp, expiresDelta: Option<int>): (p: Payload)
    ensures p.Keys == data.Keys + {"exp"}
    ensures p["exp"] == JInt(ExpiresAt(now, expiresDelta))
    ensures forall k :: k in data && k != "exp" ==> p[k] == data[k]
  {
    data["exp" := JInt(ExpiresAt(now, expiresDelta))]
  }

  /** `create_access_token`: the claims `TokenClaims` builds, signed and encoded. */
  function CreateAccessToken(data: Payload, now: Timestamp, expiresDelta: Option<int>, encode: Payload -> string): (t: string)
    ensures t == encode(TokenClaims(data, now, expiresDelta))
  {
    encode(TokenClaims(data, now, expiresDelta))
  }

  /** A token this module issues decodes, under a decoder that accepts it, to the caller's claims plus the
      expiry: every claim given survives (except a caller's own `exp`, which is overwritten). */
  lemma IssuedTokenDecodes(data: Payload, now: Timestamp, expiresDelta: Option<int>,
                           encode: Payload -> string, decode: string -> Decoded)
    requires var p := TokenClaims(data, now, expiresDelta); decode(encode(p)) == Claims(p)
    ensures var r := DecodeAccessToken(CreateAccessToken(data, now, expiresDelta, encode), decode);
      && r.Some?
      && r.value.Keys == data.Keys + {"exp"}
      && r.value["exp"] == JInt(ExpiresAt(now, expiresDelta))
      && (forall k :: k in data && k != "exp" ==> r.value[k] == data[k])
  {
  }

  /** `decode_access_token`: the claims, or None when decoding raises; it never raises itself. */
  function DecodeAccessToken(token: string, decode: string -> Decoded): (r: Option<Payload>)
    ensures r.None? <==> decode(token).JwtError?
    ensures r.Some? ==> decode(token) == Claims(r.value)
  {
    match decode(token)
    case Claims(p) => Some(p)
    case JwtError => None
  }

  predicate HasEmail(users: map<Uuid, User>, email: string) {
    exists k :: k in users && users[k].email == email
  }

  /** `get_user_by_email`: the user with that email, or None. The unique index makes "the first" the only one. */
  function UserByEmail(users: map<Uuid, User>, email: string): (r: Option<User>)
    requires UniqueEmails(users)
    ensures r.Some? <==> HasEmail(users, email)
    ensures r.Some? ==> r.value in users.Values && r.value.email == email
  {
    if HasEmail(users, email) then
      var k :| k in users && users[k].email == email;
      Some(users[k])
    else None
  }

  /** `get_user_by_id`: the user stored under that key, or None. */
  function UserById(users: map<Uuid, User>, id: Uuid): (r: Option<User>)
    ensures r.Some? <==> id in users
    ensures r.Some? ==> r.value == users[id]
  {
    if id in users then Some(users[id]) else None
  }

  /** `authenticate_user`: the user with that email when the password verifies against its stored hash;
      None for an unknown email or a wrong password. */
  function AuthenticateUser(users: map<Uuid, User>, email: string, password: string, verify: (string, string) -> bool): (r: Option<User>)
    requires UniqueEmails(users)
    ensures r.Some? <==> exists k :: k in users && users[k].email == email && verify(password, users[k].hashedPassword)
    ensures r.Some? ==> r.value in users.Values && r.value.email == email && verify(password, r.value.hashedPassword)
  {
    match UserByEmail(users, email)
    case None => None
    case Some(u) => if verify(password, u.hashedPassword) then Some(u) else None
  }

  /** A commit the database refuses: here, a second row with an email already taken. */
  datatype DbError = IntegrityError

  /** `create_user`: add a user holding the hash of the password, commit, and return the stored row.
      The unique index on email turns a duplicate into an IntegrityError and nothing is stored. */
  method CreateUser(session: Session, email: string, password: string, hashPw: string -> string, newId: Uuid, now: Timestamp)
      returns (r: Result<User, DbError>)
    requires session.Valid()
    requires newId !in session.users
    modifies session
    ensures session.Valid()
    ensures session.receipts == old(session.receipts) && session.items == old(session.items)
    ensures r.Failure? <==> HasEmail(old(session.users), email)
    ensures r.Failure? ==> session.users == old(session.users)
    ensures r.Success? ==> r.value == User(newId, email, hashPw(password), now)
    ensures r.Success? ==> session.users == old(session.users)[newId := r.value]
  {
    var user := User(newId, email, hashPw(password), now);
    if HasEmail(session.users, email) {
      return Failure(IntegrityError);
    }
    WithUserKeepsInv(session.Snapshot(), user);
    session.Commit(session.users[newId := user], session.receipts, session.items);
    return Success(user);
  }
}
