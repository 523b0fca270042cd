/**
 * The records the user service reads and writes: a row of the user table, the
 * request bodies (DTOs), the caller-facing view `UserRO` and the claims of the
 * session token, together with the two pure projections of the service,
 * `buildUserRO` and `generateJWT`.
 */
module UserData {
  import opened Wrappers

  /** Reference to an article row; articles themselves are outside this model. */
  type ArticleId = nat

  /** A signed token, opaque to the service. */
  type Token = string

  /**
   * A row of the user table. `password`, `image` and `favorites` are `Option`s
   * because the service can hold objects in which they are absent: a freshly
   * created entity never assigns `image` or `favorites`, and `update` deletes
   * `password` and `favorites` before saving.
   */
  datatype User = User(
    id: int,
    username: string,
    email: string,
    password: Option<string>,
    image: Option<string>,
    articles: seq<ArticleId>,
    favorites: Option<seq<ArticleId>>)

  /** The entity `create` assembles before saving it: it has no id yet. */
  datatype NewUser = NewUser(
    username: string,
    email: string,
    password: string,
    articles: seq<ArticleId>)

  /** Body of a registration request. */
  datatype CreateUserDto = CreateUserDto(username: string, email: string, password: string)

  /** Body of a login request. */
  datatype LoginUserDto = LoginUserDto(email: string, password: string)

  /**
   * Body of an update request. `update` spreads it over the stored record, so
   * every property it carries overrides; `None` means the property is absent.
   */
  datatype UpdateUserDto = UpdateUserDto(
    username: Option<string>,
    email: Option<string>,
    password: Option<string>,
    image: Option<string>,
    articles: Option<seq<ArticleId>>,
    favorites: Option<seq<ArticleId>>)

  /** The caller-facing view of a user: no password, no owned collections. */
  datatype UserRO = UserRO(id: int, username: string, email: string, token: Token, image: Option<string>)

  /** The claims signed into a session token; `exp` is in seconds since the epoch. */
  datatype Claims = Claims(id: int, username: string, email: string, exp: real)

  /** One error reported by the field validator. */
  datatype ValidationError = ValidationError(property: string, constraint: string)

  /** What the password verifier reports; `Malformed` is a stored digest it cannot parse (it throws). */
  datatype Verdict = Match | Mismatch | Malformed

  /** Why an `HttpException` was thrown. */
  datatype Reason = NotUnique | InvalidInput | NotFound

  /** The exceptions the service's operations end with. */
  datatype Failure =
    | HttpException(status: int, reason: Reason)
    | VerifierError

  const BadRequest: int := 400
  const Unauthorized: int := 401

  const MsPerDay: int := 24 * 60 * 60 * 1000
  const SecondsPerDay: int := 24 * 60 * 60
  const TokenLifetimeDays: int := 60

  /**
   * The claims of a token issued at `nowMs` (milliseconds since the epoch, as
   * `Date.getTime` gives): the user's id, username and email, and an expiry
   * 60 days later, converted to (possibly fractional) seconds.
   */
  function TokenClaims(user: User, nowMs: int): (c: Claims)
    ensures c.id == user.id && c.username == user.username && c.email == user.email
    ensures c.exp - (nowMs as real) / 1000.0 == (TokenLifetimeDays * SecondsPerDay) as real
  {
    Claims(user.id, user.username, user.email, ((nowMs + TokenLifetimeDays * MsPerDay) as real) / 1000.0)
  }

  /** A session token for `user`: the claims signed with the process secret (`sign`). */
  function GenerateJWT(user: User, nowMs: int, sign: Claims -> Token): (t: Token)
    ensures t == sign(Claims(user.id, user.username, user.email,
                             (nowMs as real) / 1000.0 + (TokenLifetimeDays * SecondsPerDay) as real))
  {
    sign(TokenClaims(user, nowMs))
  }

  /** The view returned to callers, with a freshly issued token. */
  function BuildUserRO(user: User, nowMs: int, sign: Claims -> Token): (v: UserRO)
    ensures v.id == user.id && v.username == user.username && v.email == user.email && v.image == user.image
    ensures v.token == sign(Claims(v.id, v.username, v.email, TokenClaims(user, nowMs).exp))
  {
    UserRO(user.id, user.username, user.email, GenerateJWT(user, nowMs, sign), user.image)
  }

  /**
   * A token whose claims are `c` is expired at time `t` (seconds) once `t` has
   * reached `exp`, as the `exp` claim of section 4.1.4 of RFC 7519 defines it.
   */
  predicate ExpiredAt(c: Claims, t: real) {
    t >= c.exp
  }

  /** A token issued at `nowMs` is accepted for exactly 60 days of seconds after issuance. */
  lemma TokenLivesSixtyDays(user: User, nowMs: int, t: real)
    ensures !ExpiredAt(TokenClaims(user, nowMs), t)
        <==> t < (nowMs as real) / 1000.0 + (TokenLifetimeDays * SecondsPerDay) as real
  {
  }

  /**
   * The view never depends on the password or the owned collections: two
   * records that agree on id, username, email and image have the same view.
   */
  lemma ViewIgnoresCredentials(a: User, b: User, nowMs: int, sign: Claims -> Token)
    requires a.id == b.id && a.username == b.username && a.email == b.email && a.image == b.image
    ensures BuildUserRO(a, nowMs, sign) == BuildUserRO(b, nowMs, sign)
  {
  }
}
