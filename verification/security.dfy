/**
 * Credential primitives (app/core/security.py). bcrypt and the JWT codec
 * are not modelled inside: each is a value holding its functions, and the
 * properties the service relies on are predicates over that value
 * (SoundHasher, SoundCodec) that lemmas take as preconditions. The clock
 * is an integer number of seconds given by the caller; the secret key and
 * algorithm are fixed inside the codec.
 */
module Security {
  import opened Values
  import opened Exceptions

  /** The password context: `pwd_context.hash` and `pwd_context.verify`. */
  datatype Hasher = Hasher(hash: string -> string, verify: (string, string) -> bool)

  /** What the service assumes of bcrypt. */
  ghost predicate SoundHasher(h: Hasher)
  {
    && (forall p :: h.verify(p, h.hash(p)))
    && (forall p :: h.hash(p) != p)
    && (forall p, q :: p != q ==> !h.verify(q, h.hash(p)))
  }

  /** `get_password_hash`: for a sound hasher, a hash that verifies its password and no other, and is not the password. */
  function GetPasswordHash(h: Hasher, password: string): (hashed: string)
    ensures SoundHasher(h) ==> h.verify(password, hashed) && hashed != password
    ensures SoundHasher(h) ==> forall other :: other != password ==> !h.verify(other, hashed)
  {
    h.hash(password)
  }

  /** `verify_password`: for a sound hasher, true against the hash of `p` exactly when the password is `p`. */
  function VerifyPassword(h: Hasher, password: string, hashedPassword: string): (ok: bool)
    ensures SoundHasher(h) ==> forall p :: hashedPassword == h.hash(p) ==> (ok <==> password == p)
  {
    h.verify(password, hashedPassword)
  }

  /** A hasher with a fixed prefix, enough to show SoundHasher can be met. */
  function PrefixHasher(): Hasher
  {
    Hasher(p => "$2b$" + p, (p, d) => d == "$2b$" + p)
  }

  lemma PrefixHasherIsSound()
    ensures SoundHasher(PrefixHasher())
  {
    var h := PrefixHasher();
    forall p ensures h.hash(p) != p {
      assert |h.hash(p)| == |p| + 4;
    }
    forall p, q | p != q ensures !h.verify(q, h.hash(p)) {
      assert ("$2b$" + p)[4..] == p && ("$2b$" + q)[4..] == q;
    }
  }

  /**
   * `authenticate_user`: `user` is the hashed password of the user the
   * lookup found, if any. Returns normally or raises UserUnauthorisedException.
   */
  function AuthenticateUser(user: Option<string>, password: string, h: Hasher): (r: Result<(), AppError>)
    ensures r.Success? <==> user.Some? && h.verify(password, user.value)
    ensures r.Failure? ==> r.error == UserUnauthorisedException(None)
  {
    if user.Some? && VerifyPassword(h, password, user.value) then Success(())
    else Failure(UserUnauthorisedException(None))
  }

  /** With no user the outcome cannot depend on the verifier: `and` short-circuits. */
  lemma AuthenticateUserSkipsVerifyWithoutUser(password: string, h1: Hasher, h2: Hasher)
    ensures AuthenticateUser(None, password, h1) == AuthenticateUser(None, password, h2)
    ensures AuthenticateUser(None, password, h1).Failure?
  {
  }

  /** For a sound hasher, the stored hash of a password authenticates exactly that password. */
  lemma AuthenticateUserAcceptsOnlyOwnPassword(stored: string, password: string, h: Hasher)
    requires SoundHasher(h)
    ensures AuthenticateUser(Some(GetPasswordHash(h, stored)), password, h).Success? <==> password == stored
  {
  }

  // ---------------------------------------------------------------- tokens

  datatype ClaimValue = Text(s: string) | NumericDate(t: int)

  type Claims = map<string, ClaimValue>

  /** What `jwt.decode` does with a token: claims, ExpiredSignatureError or another InvalidTokenError. */
  datatype DecodeOutcome = Decoded(claims: Claims) | Expired | Invalid

  /** `jwt.encode` and `jwt.decode` with the configured key and algorithm; decode reads the clock. */
  datatype JwtCodec = JwtCodec(encode: Claims -> string, decode: (string, int) -> DecodeOutcome)

  /** How a signed token decodes at time `now`: an `exp` at or before `now` has expired. */
  function DecodeOfSigned(claims: Claims, now: int): DecodeOutcome
  {
    if "exp" !in claims then Decoded(claims)
    else match claims["exp"]
      case NumericDate(t) => if t <= now then Expired else Decoded(claims)
      case Text(_) => Invalid
  }

  /** What the service assumes of the JWT library: a token it signed decodes to its claims until `exp`. */
  ghost predicate SoundCodec(c: JwtCodec)
  {
    forall claims, now :: c.decode(c.encode(claims), now) == DecodeOfSigned(claims, now)
  }

  /** `datetime.now(UTC) + timedelta(minutes=EXPIRES_MINUTES)`, in seconds. */
  function Expiry(now: int, expiresMinutes: int): int
  {
    now + expiresMinutes * 60
  }

  /**
   * `create_jwt_token` as written: the copy gets `exp`, but the original
   * `data` is what gets signed.
   */
  function CreateJwtTokenAsWritten(data: Claims, now: int, expiresMinutes: int, c: JwtCodec): (token: string)
    ensures SoundCodec(c) ==> forall later :: c.decode(token, later) == DecodeOfSigned(data, later)
  {
    var toEncode := data["exp" := NumericDate(Expiry(now, expiresMinutes))];
    c.encode(data)
  }

  /** `create_jwt_token` signing the copy that carries `exp`, as evidently intended. */
  function CreateJwtToken(data: Claims, now: int, expiresMinutes: int, c: JwtCodec): (token: string)
    ensures SoundCodec(c) ==> forall later :: c.decode(token, later).Decoded? <==> later < Expiry(now, expiresMinutes)
  {
    var toEncode := data["exp" := NumericDate(Expiry(now, expiresMinutes))];
    c.encode(toEncode)
  }

  /**
   * The token as written carries exactly the caller's claims: without an
   * `exp` of the caller's own it decodes at every later time, however far
   * past the configured lifetime.
   */
  lemma AsWrittenTokenNeverExpires(data: Claims, now: int, expiresMinutes: int, c: JwtCodec, later: int)
    requires SoundCodec(c)
    requires "exp" !in data
    ensures c.decode(CreateJwtTokenAsWritten(data, now, expiresMinutes, c), later) == Decoded(data)
  {
  }

  /** A login token for "alex" decodes, without `exp`, a day after a 30-minute lifetime ended. */
  lemma AsWrittenTokenCounterexample(c: JwtCodec)
    requires SoundCodec(c)
    ensures var decoded := c.decode(CreateJwtTokenAsWritten(map["sub" := Text("alex")], 0, 30, c), 86400);
      decoded.Decoded? && "exp" !in decoded.claims
  {
    AsWrittenTokenNeverExpires(map["sub" := Text("alex")], 0, 30, c, 86400);
  }

  /** The intended token: the caller's claims plus `exp`, valid strictly before `exp` and expired from then on. */
  lemma CreatedTokenExpires(data: Claims, now: int, expiresMinutes: int, c: JwtCodec, later: int)
    requires SoundCodec(c)
    ensures var decoded := c.decode(CreateJwtToken(data, now, expiresMinutes, c), later);
      && (later < Expiry(now, expiresMinutes) ==>
           decoded == Decoded(data["exp" := NumericDate(Expiry(now, expiresMinutes))]))
      && (later >= Expiry(now, expiresMinutes) ==> decoded == Expired)
  {
    var toEncode := data["exp" := NumericDate(Expiry(now, expiresMinutes))];
    assert c.decode(c.encode(toEncode), later) == DecodeOfSigned(toEncode, later);
  }

  const ExpiredTokenDetail := "Токен устарел"
  const UnreadableTokenDetail := "Ошибка чтения токена"

  /** `get_username_from_token`: the `sub` claim (None when absent), or InvalidTokenException. */
  function GetUsernameFromToken(token: string, now: int, c: JwtCodec): (r: Result<Option<ClaimValue>, AppError>)
    ensures c.decode(token, now).Decoded? <==> r.Success?
    ensures r.Success? ==>
      var claims := c.decode(token, now).claims;
      ("sub" in claims ==> r.value == Some(claims["sub"])) && ("sub" !in claims ==> r.value.None?)
    ensures c.decode(token, now).Expired? ==> r == Failure(InvalidTokenException(Some(ExpiredTokenDetail)))
    ensures c.decode(token, now).Invalid? ==> r == Failure(InvalidTokenException(Some(UnreadableTokenDetail)))
  {
    match c.decode(token, now)
    case Decoded(payload) => Success(if "sub" in payload then Some(payload["sub"]) else None)
    case Expired => Failure(InvalidTokenException(Some(ExpiredTokenDetail)))
    case Invalid => Failure(InvalidTokenException(Some(UnreadableTokenDetail)))
  }

  /** The two failure details are different, so a client can tell an expired token from a bad one. */
  lemma TokenFailuresDistinguishable()
    ensures AsHTTPException(InvalidTokenException(Some(ExpiredTokenDetail)))
         != AsHTTPException(InvalidTokenException(Some(UnreadableTokenDetail)))
  {
    assert ExpiredTokenDetail[0] != UnreadableTokenDetail[0];
  }

  /** Login token round trip (intended token): the user name comes back until `exp`, then the expired detail. */
  lemma {:induction false} LoginTokenRoundTrip(username: string, now: int, expiresMinutes: int, c: JwtCodec, later: int)
    requires SoundCodec(c)
    ensures var r := GetUsernameFromToken(CreateJwtToken(map["sub" := Text(username)], now, expiresMinutes, c), later, c);
      && (later < Expiry(now, expiresMinutes) ==> r == Success(Some(Text(username))))
      && (later >= Expiry(now, expiresMinutes) ==> r == Failure(InvalidTokenException(Some(ExpiredTokenDetail))))
  {
    CreatedTokenExpires(map["sub" := Text(username)], now, expiresMinutes, c, later);
  }

  /** Login token as written: the user name comes back at every time, expired or not. */
  lemma {:induction false} AsWrittenLoginTokenRoundTrip(username: string, now: int, expiresMinutes: int, c: JwtCodec, later: int)
    requires SoundCodec(c)
    ensures GetUsernameFromToken(CreateJwtTokenAsWritten(map["sub" := Text(username)], now, expiresMinutes, c), later, c)
         == Success(Some(Text(username)))
  {
    AsWrittenTokenNeverExpires(map["sub" := Text(username)], now, expiresMinutes, c, later);
  }
}
