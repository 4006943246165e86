/** `AuthService`: register, login, refresh and logout over the user table and the
    refresh-token table, with bcrypt and the JWT service as injected functions. */
module Auth {
  import opened Outcomes
  import opened UserStore
  import opened RefreshTokenStore

  /** The `useCase` tag every issued token carries. */
  datatype UseCase = Access | Refresh

  function UseCaseTag(u: UseCase): string {
    match u
    case Access => "access"
    case Refresh => "refresh"
  }

  /** The JWT payload without its tag: the user's id as subject, the email and the username. */
  datatype Payload = Payload(sub: string, email: string, username: string)

  /** What is signed: the payload spread together with `useCase`. */
  datatype Claims = Claims(sub: string, email: string, username: string, useCase: UseCase)

  /** The claims the non-verifying `jwtService.decode` reads back from an object payload;
      a claim that is missing is None. `decode` yielding nothing at all is the outer None. */
  datatype Decoded = Decoded(sub: Option<string>, useCase: Option<string>)

  datatype TokenPair = TokenPair(accessToken: string, refreshToken: string)

  /** The user as the sanitising response DTO presents it; which fields that projection keeps is not modelled. */
  datatype UserResponse = UserResponse(source: User)

  /** The data `wrapResponse` hands on: the projected user and the token pair. */
  datatype AuthData = AuthData(user: UserResponse, tokens: TokenPair)

  datatype RegisterDto = RegisterDto(email: string, username: string, password: string)
  datatype LoginDto = LoginDto(email: string, password: string)

  const RefreshTokenExpiry: string := "90d"
  const ExpirySeconds: int := 90 * 24 * 60 * 60
  /** Lifetime of a stored refresh-token record, in milliseconds. */
  const RefreshTokenLifetimeMs: int := ExpirySeconds * 1000

  const InvalidRefreshTokenMessage: string := "Invalid RefreshToken token"

  function PayloadOf(user: User): Payload {
    Payload(user.id, user.email, user.username)
  }

  /** The claims signed into a token: the payload plus the `refresh` or `access` tag. */
  function Tag(p: Payload, isRefreshToken: bool): (c: Claims)
    ensures Payload(c.sub, c.email, c.username) == p
    ensures c.useCase == (if isRefreshToken then Refresh else Access)
  {
    Claims(p.sub, p.email, p.username, if isRefreshToken then Refresh else Access)
  }

  /** The two guards of `refreshToken` before any store lookup, in order: a missing payload,
      a falsy `sub` or a falsy `useCase`, then a `useCase` other than `'refresh'`, all throw 401.
      Returns the subject the flow continues with, or None for the 401. */
  function RefreshSubject(decoded: Option<Decoded>): (r: Option<string>)
    ensures r.Some? <==> decoded.Some? && Truthy(decoded.value.sub) && decoded.value.useCase == Some("refresh")
    ensures r.Some? ==> decoded.value.sub == Some(r.value) && r.value != ""
  {
    if decoded.None? || !Truthy(decoded.value.sub) || !Truthy(decoded.value.useCase) then None
    else if decoded.value.useCase.value != "refresh" then None
    else decoded.value.sub
  }

  /** The string the one-parameter `findValidToken` receives when `refreshToken` calls it with the subject and the token:
      JavaScript binds the first argument, the subject, to the only parameter and drops the second. */
  function LookupKey(sub: string, token: string): (key: string)
    ensures key == sub
  {
    sub
  }

  /** `wrapResponse`: the projected user and the pair, under the message. */
  function WrapResponse(user: User, tokens: TokenPair, message: string): (r: Response<AuthData>)
    ensures r.data.user.source == user && r.data.tokens == tokens && r.message == message
  {
    Response(AuthData(UserResponse(user), tokens), message)
  }

  class AuthService {
    const users: UserRepository
    const refreshTokens: RefreshTokenRepository
    /** bcrypt hashing with cost 10. */
    const hash: string -> string
    /** bcrypt comparison of a plain text with a hash. */
    const compare: (string, string) -> bool
    /** JWT signing of claims with a lifetime at an instant (ms): the library stamps the issue
        time and derives the expiry from it; the secret is fixed by configuration. */
    const sign: (Claims, string, int) -> string
    /** JWT decoding without verification: the subject and tag it reads, or None. */
    const decode: string -> Option<Decoded>
    /** The configured `ACCESS_TOKEN_EXPIRES_IN`. */
    const accessTokenExpiry: string

    ghost predicate Valid()
      reads users, refreshTokens
    {
      users.Valid() && refreshTokens.Valid()
    }

    constructor (users: UserRepository, refreshTokens: RefreshTokenRepository,
                 hash: string -> string, compare: (string, string) -> bool,
                 sign: (Claims, string, int) -> string, decode: string -> Option<Decoded>,
                 accessTokenExpiry: string)
      requires users.Valid() && refreshTokens.Valid()
      ensures Valid()
      ensures this.users == users && this.refreshTokens == refreshTokens
      ensures this.hash == hash && this.compare == compare
      ensures this.sign == sign && this.decode == decode
      ensures this.accessTokenExpiry == accessTokenExpiry
    {
      this.users := users;
      this.refreshTokens := refreshTokens;
      this.hash := hash;
      this.compare := compare;
      this.sign := sign;
      this.decode := decode;
      this.accessTokenExpiry := accessTokenExpiry;
    }

    /** `genTokenByExpires`: the payload tagged for its use, signed with the given lifetime at `now`. */
    function GenTokenByExpires(p: Payload, expiresIn: string, isRefreshToken: bool, now: int): (t: string)
      ensures t == sign(Claims(p.sub, p.email, p.username, if isRefreshToken then Refresh else Access), expiresIn, now)
    {
      sign(Tag(p, isRefreshToken), expiresIn, now)
    }

    /** The pair `generateTokens` returns: both tokens are signed over the same user payload and
        differ only in the tag (and lifetime): `access` with the configured expiry, `refresh` with 90 days.
        Both are signed at the instant `now`. */
    function Tokens(user: User, now: int): (t: TokenPair)
      ensures t.accessToken == sign(Claims(user.id, user.email, user.username, Access), accessTokenExpiry, now)
      ensures t.refreshToken == sign(Claims(user.id, user.email, user.username, Refresh), RefreshTokenExpiry, now)
    {
      var payload := PayloadOf(user);
      TokenPair(GenTokenByExpires(payload, accessTokenExpiry, false, now),
                GenTokenByExpires(payload, RefreshTokenExpiry, true, now))
    }

    /** The record `generateTokens` persists: the hash of the refresh token, owned by the user,
        expiring `RefreshTokenLifetimeMs` after `now`. */
    function IssuedRecord(user: User, now: int, tokenId: string): (t: RefreshToken)
      ensures t.id == tokenId && t.userId == user.id
      ensures t.token == hash(Tokens(user, now).refreshToken)
      ensures t.expiresAt - now == 90 * 24 * 60 * 60 * 1000
    {
      RefreshTokenStore.RefreshToken(tokenId, hash(Tokens(user, now).refreshToken), user.id, now + ExpirySeconds * 1000)
    }

    /** `jwtService.decode` reads back the subject and tag of whatever `sign` produced. */
    ghost predicate DecodeReadsSignedClaims() {
      forall c: Claims, e: string, t: int {:trigger sign(c, e, t)} ::
        decode(sign(c, e, t)) == Some(Decoded(Some(c.sub), Some(UseCaseTag(c.useCase))))
    }

    /** Purpose isolation: an access token never gets past the guards of `refreshToken`. */
    lemma AccessTokenRejectedByRefresh(user: User, now: int)
      requires DecodeReadsSignedClaims()
      ensures RefreshSubject(decode(Tokens(user, now).accessToken)).None?
    {
      var c := Claims(user.id, user.email, user.username, Access);
      assert decode(sign(c, accessTokenExpiry, now)) == Some(Decoded(Some(user.id), Some("access")));
    }

    /** A refresh token passes the guards with its user's id as subject, unless that id is empty. */
    lemma RefreshTokenNamesItsUser(user: User, now: int)
      requires DecodeReadsSignedClaims()
      ensures RefreshSubject(decode(Tokens(user, now).refreshToken)) == (if user.id == "" then None else Some(user.id))
    {
      var c := Claims(user.id, user.email, user.username, Refresh);
      assert decode(sign(c, RefreshTokenExpiry, now)) == Some(Decoded(Some(user.id), Some("refresh")));
    }

    /** With the lookup key the source passes, the record issued for a refresh token matches that
        token's own refresh only if the stored hash happens to equal the user id. */
    lemma IssuedRecordMatchesOnlyTheSubject(user: User, issuedAt: int, tokenId: string, now: int)
      ensures IsValidToken(IssuedRecord(user, issuedAt, tokenId), LookupKey(user.id, Tokens(user, issuedAt).refreshToken), now)
              <==> hash(Tokens(user, issuedAt).refreshToken) == user.id && now < issuedAt + RefreshTokenLifetimeMs
    {
    }

    /** `generateTokens`: signs the pair and persists one hashed refresh-token record. The two
        signatures and the expiry are taken at the one instant `now`. */
    method GenerateTokens(user: User, now: int, tokenId: string) returns (tokens: TokenPair)
      requires Valid() && tokenId !in refreshTokens.rows
      modifies refreshTokens
      ensures Valid()
      ensures tokens == Tokens(user, now)
      ensures refreshTokens.rows == old(refreshTokens.rows)[tokenId := IssuedRecord(user, now, tokenId)]
    {
      var payload := PayloadOf(user);
      var accessToken := GenTokenByExpires(payload, accessTokenExpiry, false, now);
      var refreshToken := GenTokenByExpires(payload, RefreshTokenExpiry, true, now);
      var _ := refreshTokens.Create(tokenId, hash(refreshToken), user.id, now + ExpirySeconds * 1000);
      tokens := TokenPair(accessToken, refreshToken);
    }

    /** `register`: 409 for a taken email, then 409 for a taken username, each leaving both tables
        as they were; otherwise stores the user with the hashed password and issues tokens. */
    method Register(dto: RegisterDto, now: int, userId: string, tokenId: string)
      returns (r: Result<Response<AuthData>>)
      requires Valid() && userId !in users.rows && tokenId !in refreshTokens.rows
      modifies users, refreshTokens
      ensures Valid()
      ensures EmailTaken(old(users.rows), dto.email) ==>
                r == Err(AppError(Conflict, "User already exists")) && unchanged(users, refreshTokens)
      ensures !EmailTaken(old(users.rows), dto.email) && UsernameTaken(old(users.rows), dto.username) ==>
                r == Err(AppError(Conflict, "Username already exists")) && unchanged(users, refreshTokens)
      ensures !EmailTaken(old(users.rows), dto.email) && !UsernameTaken(old(users.rows), dto.username) ==>
                var user := User(userId, dto.email, dto.username, hash(dto.password));
                && users.rows == old(users.rows)[userId := user]
                && refreshTokens.rows == old(refreshTokens.rows)[tokenId := IssuedRecord(user, now, tokenId)]
                && r == Ok(WrapResponse(user, Tokens(user, now), "User created successfully"))
    {
      var existingUser := users.FindByEmail(dto.email);
      if existingUser.Some? {
        return Err(AppError(Conflict, "User already exists"));
      }
      var existingUserName := users.FindByUserName(dto.username);
      if existingUserName.Some? {
        return Err(AppError(Conflict, "Username already exists"));
      }
      var hashedPassword := hash(dto.password);
      var created := users.Create(userId, dto.email, dto.username, hashedPassword);
      var user := created.value;
      var tokens := GenerateTokens(user, now, tokenId);
      r := Ok(WrapResponse(user, tokens, "User created successfully"));
    }

    /** `login`: 404 when no user has the email, 401 when the password does not match; neither
        failure changes a table. Otherwise issues tokens for the stored user. */
    method Login(dto: LoginDto, now: int, tokenId: string) returns (r: Result<Response<AuthData>>)
      requires Valid() && tokenId !in refreshTokens.rows
      modifies refreshTokens
      ensures Valid()
      ensures !EmailTaken(users.rows, dto.email) ==>
                r == Err(AppError(NotFound, "Token Not Found")) && unchanged(refreshTokens)
      ensures EmailTaken(users.rows, dto.email) && !compare(dto.password, WithEmail(users.rows, dto.email).password) ==>
                r == Err(AppError(Unauthorized, "Invalid credentials")) && unchanged(refreshTokens)
      ensures EmailTaken(users.rows, dto.email) && compare(dto.password, WithEmail(users.rows, dto.email).password) ==>
                var user := WithEmail(users.rows, dto.email);
                && refreshTokens.rows == old(refreshTokens.rows)[tokenId := IssuedRecord(user, now, tokenId)]
                && r == Ok(WrapResponse(user, Tokens(user, now), "Login successful"))
    {
      var found := users.FindByEmail(dto.email);
      if found.None? {
        return Err(AppError(NotFound, "Token Not Found"));
      }
      var user := found.value;
      var match_ := compare(dto.password, user.password);
      if !match_ {
        return Err(AppError(Unauthorized, "Invalid credentials"));
      }
      var tokens := GenerateTokens(user, now, tokenId);
      r := Ok(WrapResponse(user, tokens, "Login successful"));
    }

    /** `refreshToken`: 401 from the payload guards before any lookup, 404 for an unknown subject,
        404 when no unexpired record stores exactly the lookup key; otherwise the matched record is
        deleted, a new one is created, and the table keeps its size. The clock is read twice: `now`
        for the expiry filter of the lookup, `issuedAt` for the new pair and record. */
    method RefreshToken(token: string, now: int, issuedAt: int, tokenId: string) returns (r: Result<Response<AuthData>>)
      requires Valid() && tokenId !in refreshTokens.rows
      modifies refreshTokens
      ensures Valid()
      ensures RefreshSubject(decode(token)).None? ==>
                r == Err(AppError(Unauthorized, InvalidRefreshTokenMessage)) && unchanged(refreshTokens)
      ensures var sub := RefreshSubject(decode(token));
              sub.Some? && sub.value !in users.rows ==>
                r == Err(AppError(NotFound, "User Not Found")) && unchanged(refreshTokens)
      ensures var sub := RefreshSubject(decode(token));
              sub.Some? && sub.value in users.rows &&
              !HasValidToken(old(refreshTokens.rows), LookupKey(sub.value, token), now) ==>
                r == Err(AppError(NotFound, "Token Not Found")) && unchanged(refreshTokens)
      ensures var sub := RefreshSubject(decode(token));
              sub.Some? && sub.value in users.rows &&
              HasValidToken(old(refreshTokens.rows), LookupKey(sub.value, token), now) ==>
                var user := users.rows[sub.value];
                && r == Ok(WrapResponse(user, Tokens(user, issuedAt), "Token refreshed successfully"))
                && exists saved :: saved in old(refreshTokens.rows)
                     && IsValidToken(old(refreshTokens.rows)[saved], LookupKey(sub.value, token), now)
                     && refreshTokens.rows == (old(refreshTokens.rows) - {saved})[tokenId := IssuedRecord(user, issuedAt, tokenId)]
      ensures r.Ok? ==> |refreshTokens.rows| == |old(refreshTokens.rows)|
    {
      var decoded := decode(token);
      if decoded.None? || !Truthy(decoded.value.sub) || !Truthy(decoded.value.useCase) {
        return Err(AppError(Unauthorized, InvalidRefreshTokenMessage));
      }
      if decoded.value.useCase.value != "refresh" {
        return Err(AppError(Unauthorized, InvalidRefreshTokenMessage));
      }
      var sub := decoded.value.sub.value;
      var user := users.FindById(sub);
      if user.None? {
        return Err(AppError(NotFound, "User Not Found"));
      }
      var saved := refreshTokens.FindValidToken(LookupKey(sub, token), now);
      if saved.None? {
        return Err(AppError(NotFound, "Token Not Found"));
      }
      ghost var before := refreshTokens.rows;
      var _ := refreshTokens.RevokeToken(saved.value.id);
      ghost var revoked := refreshTokens.rows;
      var tokens := GenerateTokens(user.value, issuedAt, tokenId);
      assert |revoked| == |before| - 1;
      r := Ok(WrapResponse(user.value, tokens, "Token refreshed successfully"));
    }

    /** `logout`: deletes every refresh-token record of the user, none of anyone else's,
        and returns null data. */
    method Logout(userId: string) returns (r: Result<Response<()>>)
      requires Valid()
      modifies refreshTokens
      ensures Valid()
      ensures refreshTokens.rows == WithoutUser(old(refreshTokens.rows), userId)
      ensures r == Ok(Response((), "Logout successful"))
    {
      var _ := refreshTokens.RevokeAllForUser(userId);
      r := Ok(Response((), "Logout successful"));
    }
  }
}
