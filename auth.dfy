/** The session logic of `src/auth/auth.service.ts`: registration, login and the
    refresh flow over the user table, with its single refresh-token slot per user.
    Each operation is given twice: as a function of the table before the call,
    which the lemmas reason about, and as a method of `AuthService` that updates
    the shared table step by step and is proved to agree with that function. */
module Auth {
  import opened Responses
  import opened Strings
  import opened Bcrypt
  import opened Jwt
  import opened Entities
  import opened Tables

  const EmailExists := "Email already exists"
  const InvalidCredentials := "Invalid credentials"
  const InvalidRefreshToken := "Invalid refresh token"
  const InvalidToken := "Invalid token"
  const UserNotFound := "User not found"
  const RefreshTokenExpired := "Refresh token expired"
  const RefreshTokenInvalid := "Refresh token invalid"

  /** `JWT_ACCESS_SECRET` and `JWT_REFRESH_SECRET`, either of which may be unset. */
  datatype JwtConfig = JwtConfig(accessSecret: Option<Key>, refreshSecret: Option<Key>)

  datatype TokenPair = TokenPair(accessToken: Token, refreshToken: Token)

  /** A refresh answers with a bare access token on its first path and with a
      new pair on the expiry-recovery path. */
  datatype Refreshed = AccessOnly(accessToken: Token) | NewPair(pair: TokenPair)

  /** What a `try` block throws, as far as the `catch` looks at it: the `name`
      of the error, `TokenExpiredError` being the one that leads to recovery. */
  datatype Thrown = TokenExpiredError | JsonWebTokenError | Exception(error: Error)

  datatype Attempt<+T> = Done(value: T) | Threw(thrown: Thrown)

  /** `generateAccessToken`: claims `{ userId, email }` signed with `JWT_ACCESS_SECRET`,
      valid for seven days from `now`. */
  function GenerateAccessToken(config: JwtConfig, userId: nat, email: string, now: int): (r: Result<Token>)
    ensures r.Ok? <==> config.accessSecret.Some?
    ensures r.Ok? ==> Verify(r.value, config.accessSecret, now) == Verified(Claims(userId, email))
    ensures r.Ok? ==> r.value.issuedAt == now && r.value.expiresAt == now + ExpiresIn
  {
    Sign(config.accessSecret, Claims(userId, email), now)
  }

  /** `generateRefreshToken`: claims `{ userId, email }` signed with `JWT_REFRESH_SECRET`,
      valid for seven days from `now`. */
  function GenerateRefreshToken(config: JwtConfig, userId: nat, email: string, now: int): (r: Result<Token>)
    ensures r.Ok? <==> config.refreshSecret.Some?
    ensures r.Ok? ==> Verify(r.value, config.refreshSecret, now) == Verified(Claims(userId, email))
    ensures r.Ok? ==> r.value.issuedAt == now && r.value.expiresAt == now + ExpiresIn
  {
    Sign(config.refreshSecret, Claims(userId, email), now)
  }

  /** The table after `updateRefreshToken(userId, token)`. */
  function WithSlot(rows: map<nat, User>, userId: nat, token: Token): map<nat, User>
  {
    if userId in rows then rows[userId := rows[userId].(refreshToken := Some(token))] else rows
  }

  predicate EmailTaken(rows: map<nat, User>, email: string)
  {
    exists id :: id in rows && rows[id].email == email
  }

  /** `findOne({ where: { email } })`: an exact, case-sensitive match. */
  ghost function UserWithEmail(rows: map<nat, User>, email: string): (found: Option<nat>)
    ensures found.None? <==> !EmailTaken(rows, email)
    ensures found.Some? ==> found.value in rows && rows[found.value].email == email
  {
    if EmailTaken(rows, email) then
      var id :| id in rows && rows[id].email == email; Some(id)
    else None
  }

  // ---------------------------------------------------------------- signUp

  /** `signUp` on table `rows` whose key sequence stands at `next`. A failure
      after the user row is saved leaves that row in place. */
  function SignUpOutcome(rows: map<nat, User>, next: nat, config: JwtConfig, email: string,
                         password: string, fullName: string, salt: nat, now: int): (Result<TokenPair>, map<nat, User>)
  {
    if EmailTaken(rows, email) then (Err(Conflict(EmailExists)), rows)
    else
      var user := NewUser(fullName, Lower(email), Hash(password, salt));
      if Clashes(rows, next, user) then (Err(Failure(UniqueViolation)), rows)
      else
        var saved := rows[next := user];
        match GenerateAccessToken(config, next, user.email, now)
        case Err(e) => (Err(e), saved)
        case Ok(access) =>
          match GenerateRefreshToken(config, next, user.email, now)
          case Err(e) => (Err(e), saved)
          case Ok(refresh) => (Ok(TokenPair(access, refresh)), WithSlot(saved, next, refresh))
  }

  /** An email already present exactly as given is a conflict, and nothing changes. */
  lemma SignUpExistingEmail(rows: map<nat, User>, next: nat, config: JwtConfig, email: string,
                            password: string, fullName: string, salt: nat, now: int)
    requires EmailTaken(rows, email)
    ensures SignUpOutcome(rows, next, config, email, password, fullName, salt, now) == (Err(Conflict(EmailExists)), rows)
  {
  }

  /** The lookup uses the email as given but the row stores it lower-cased, so an
      email that differs from a stored one only in case passes the lookup and is
      refused by the unique constraint instead, with nothing changed. */
  lemma SignUpCaseVariantHitsConstraint(rows: map<nat, User>, next: nat, config: JwtConfig, email: string,
                                        password: string, fullName: string, salt: nat, now: int)
    requires next !in rows
    requires !EmailTaken(rows, email) && EmailTaken(rows, Lower(email))
    ensures SignUpOutcome(rows, next, config, email, password, fullName, salt, now) == (Err(Failure(UniqueViolation)), rows)
  {
    var id :| id in rows && rows[id].email == Lower(email);
    assert Clashes(rows, next, NewUser(fullName, Lower(email), Hash(password, salt)));
  }

  /** A successful registration adds exactly one user, under a fresh key, with the
      lower-cased email, a hash that accepts exactly the given password, role USER and the returned refresh
      token in its slot; both tokens carry that user's id and stored email. */
  lemma SignUpSuccess(rows: map<nat, User>, next: nat, config: JwtConfig, email: string,
                      password: string, fullName: string, salt: nat, now: int)
    requires next !in rows
    requires SignUpOutcome(rows, next, config, email, password, fullName, salt, now).0.Ok?
    ensures var (r, rows') := SignUpOutcome(rows, next, config, email, password, fullName, salt, now);
      && rows'.Keys == rows.Keys + {next}
      && (forall id :: id in rows ==> rows'[id] == rows[id])
      && rows'[next] == User(fullName, Lower(email), None, USER, "", Hash(password, salt), Some(r.value.refreshToken))
      && (forall p :: Compare(p, rows'[next].password) <==> p == password)
      && r.value.accessToken == Signed(config.accessSecret.value, Claims(next, Lower(email)), now, now + ExpiresIn)
      && r.value.refreshToken == Signed(config.refreshSecret.value, Claims(next, Lower(email)), now, now + ExpiresIn)
  {
  }

  /** A signing failure (an unset secret) after the save leaves the new user in
      the table with an empty slot. */
  lemma SignUpSigningFailureKeepsUser(rows: map<nat, User>, next: nat, config: JwtConfig, email: string,
                                      password: string, fullName: string, salt: nat, now: int)
    requires next !in rows
    requires !EmailTaken(rows, email) && !EmailTaken(rows, Lower(email))
    requires config.accessSecret.None? || config.refreshSecret.None?
    ensures SignUpOutcome(rows, next, config, email, password, fullName, salt, now)
         == (Err(Failure(MissingSecret)), rows[next := NewUser(fullName, Lower(email), Hash(password, salt))])
  {
  }

  // ---------------------------------------------------------------- signIn

  /** `signIn`: the same error whether the email is unknown or the password wrong. */
  ghost function SignInOutcome(rows: map<nat, User>, config: JwtConfig, email: string,
                               password: string, now: int): (Result<TokenPair>, map<nat, User>)
  {
    match UserWithEmail(rows, email)
    case None => (Err(Unauthorized(InvalidCredentials)), rows)
    case Some(id) =>
      if !Compare(password, rows[id].password) then (Err(Unauthorized(InvalidCredentials)), rows)
      else
        match GenerateAccessToken(config, id, rows[id].email, now)
        case Err(e) => (Err(e), rows)
        case Ok(access) =>
          match GenerateRefreshToken(config, id, rows[id].email, now)
          case Err(e) => (Err(e), rows)
          case Ok(refresh) => (Ok(TokenPair(access, refresh)), WithSlot(rows, id, refresh))
  }

  /** Unknown email and wrong password are indistinguishable to the caller, and
      neither changes the table. */
  lemma SignInRejectsAlike(rows: map<nat, User>, config: JwtConfig, email: string, password: string, now: int)
    requires forall id :: id in rows && rows[id].email == email ==> !Compare(password, rows[id].password)
    ensures SignInOutcome(rows, config, email, password, now) == (Err(Unauthorized(InvalidCredentials)), rows)
  {
  }

  /** A successful login overwrites that user's slot with the returned refresh
      token and changes no one else. */
  lemma SignInSuccess(rows: map<nat, User>, config: JwtConfig, id: nat, password: string, now: int)
    requires UsersUnique(rows) && id in rows && Compare(password, rows[id].password)
    requires config.accessSecret.Some? && config.refreshSecret.Some?
    ensures var (r, rows') := SignInOutcome(rows, config, rows[id].email, password, now);
      && r.Ok?
      && rows' == rows[id := rows[id].(refreshToken := Some(r.value.refreshToken))]
      && r.value.refreshToken == Signed(config.refreshSecret.value, Claims(id, rows[id].email), now, now + ExpiresIn)
      && r.value.accessToken == Signed(config.accessSecret.value, Claims(id, rows[id].email), now, now + ExpiresIn)
  {
    assert UserWithEmail(rows, rows[id].email) == Some(id);
  }

  // ---------------------------------------------------------------- refreshToken

  /** The outer `try` (lines 68-81): verify, look the user up, compare the slot,
      sign a new access token. */
  function FirstAttempt(rows: map<nat, User>, config: JwtConfig, presented: Token, now: int): Attempt<Token>
  {
    match Verify(presented, config.refreshSecret, now)
    case Expired => Threw(TokenExpiredError)
    case Invalid => Threw(JsonWebTokenError)
    case Verified(payload) =>
      if payload.userId !in rows || rows[payload.userId].refreshToken != Some(presented) then
        Threw(Exception(Unauthorized(InvalidRefreshToken)))
      else
        match GenerateAccessToken(config, payload.userId, rows[payload.userId].email, now)
        case Err(e) => Threw(Exception(e))
        case Ok(access) => Done(access)
  }

  /** The inner `try` (lines 86-107): decode without checks, look the user up,
      sign a new pair; on success, the key of the user whose slot is written. */
  function RecoveryAttempt(rows: map<nat, User>, config: JwtConfig, presented: Token, now: int): Attempt<(nat, TokenPair)>
  {
    match Decode(presented)
    case None => Threw(Exception(Unauthorized(InvalidToken)))
    case Some(decoded) =>
      if decoded.userId == 0 then Threw(Exception(Unauthorized(InvalidToken)))
      else if decoded.userId !in rows then Threw(Exception(Unauthorized(UserNotFound)))
      else
        var user := rows[decoded.userId];
        match GenerateAccessToken(config, decoded.userId, user.email, now)
        case Err(e) => Threw(Exception(e))
        case Ok(access) =>
          match GenerateRefreshToken(config, decoded.userId, user.email, now)
          case Err(e) => Threw(Exception(e))
          case Ok(refresh) => Done((decoded.userId, TokenPair(access, refresh)))
  }

  /** `refreshToken`, as written: the recovery path stores the presented token. */
  function RefreshOutcome(rows: map<nat, User>, config: JwtConfig, presented: Token, now: int): (Result<Refreshed>, map<nat, User>)
  {
    match FirstAttempt(rows, config, presented, now)
    case Done(access) => (Ok(AccessOnly(access)), rows)
    case Threw(TokenExpiredError) =>
      (match RecoveryAttempt(rows, config, presented, now)
       case Threw(_) => (Err(Unauthorized(RefreshTokenExpired)), rows)
       case Done((id, pair)) => (Ok(NewPair(pair)), WithSlot(rows, id, presented)))
    case Threw(_) => (Err(Unauthorized(RefreshTokenInvalid)), rows)
  }

  /** The callers only ever see two refresh errors: the inner messages are all
      swallowed and relabelled by the `catch` blocks. */
  lemma RefreshErrorsAreRelabelled(rows: map<nat, User>, config: JwtConfig, presented: Token, now: int)
    ensures var r := RefreshOutcome(rows, config, presented, now).0;
      r.Err? ==> r.error == Unauthorized(RefreshTokenInvalid) || r.error == Unauthorized(RefreshTokenExpired)
  {
  }

  /** A valid, unexpired refresh token succeeds exactly when its user exists, the
      slot holds that very token and the access secret is set; it then yields one
      access token for that user, and the table never changes on this path. */
  lemma RefreshWithLiveToken(rows: map<nat, User>, config: JwtConfig, presented: Token, now: int)
    requires Verify(presented, config.refreshSecret, now).Verified?
    ensures var (r, rows') := RefreshOutcome(rows, config, presented, now);
      var id := presented.claims.userId;
      && rows' == rows
      && (r.Ok? <==> id in rows && rows[id].refreshToken == Some(presented) && config.accessSecret.Some?)
      && (r.Ok? ==> r.value == AccessOnly(Signed(config.accessSecret.value, Claims(id, rows[id].email), now, now + ExpiresIn)))
      && (r.Err? ==> r.error == Unauthorized(RefreshTokenInvalid))
  {
  }

  /** A token that fails verification for any reason but expiry is reported as
      invalid, with nothing changed. */
  lemma RefreshWithBadSignature(rows: map<nat, User>, config: JwtConfig, presented: Token, now: int)
    requires Verify(presented, config.refreshSecret, now).Invalid?
    ensures RefreshOutcome(rows, config, presented, now) == (Err(Unauthorized(RefreshTokenInvalid)), rows)
  {
  }

  /** An access token presented for refresh is invalid, not expired, whenever
      the two secrets differ. */
  lemma AccessTokenIsNoRefreshToken(rows: map<nat, User>, config: JwtConfig, userId: nat, email: string, issued: int, now: int)
    requires config.accessSecret.Some? && config.refreshSecret.Some? && config.accessSecret != config.refreshSecret
    ensures var access := GenerateAccessToken(config, userId, email, issued).value;
      RefreshOutcome(rows, config, access, now) == (Err(Unauthorized(RefreshTokenInvalid)), rows)
  {
  }

  /** Expiry recovery: a correctly signed expired token whose user exists yields a
      fresh pair for that user, without consulting the slot, and the slot is set
      to the PRESENTED expired token rather than to the new refresh token. */
  lemma RefreshRecoversExpired(rows: map<nat, User>, config: JwtConfig, presented: Token, now: int)
    requires Verify(presented, config.refreshSecret, now).Expired?
    requires presented.claims.userId in rows && presented.claims.userId != 0
    requires config.accessSecret.Some? && config.refreshSecret.Some?
    ensures var (r, rows') := RefreshOutcome(rows, config, presented, now);
      var id := presented.claims.userId;
      && r.Ok? && r.value.NewPair?
      && r.value.pair.accessToken == Signed(config.accessSecret.value, Claims(id, rows[id].email), now, now + ExpiresIn)
      && r.value.pair.refreshToken == Signed(config.refreshSecret.value, Claims(id, rows[id].email), now, now + ExpiresIn)
      && rows' == rows[id := rows[id].(refreshToken := Some(presented))]
  {
  }

  /** Every failure inside recovery (no usable user id, no such user, a signing
      error) ends as "Refresh token expired", with nothing changed. */
  lemma RefreshRecoveryFailure(rows: map<nat, User>, config: JwtConfig, presented: Token, now: int)
    requires Verify(presented, config.refreshSecret, now).Expired?
    requires presented.claims.userId == 0 || presented.claims.userId !in rows
          || config.accessSecret.None? || config.refreshSecret.None?
    ensures RefreshOutcome(rows, config, presented, now) == (Err(Unauthorized(RefreshTokenExpired)), rows)
  {
  }

  /** A fresh registration's refresh token, presented within seven days, yields
      a new access token. */
  lemma RegisteredTokenRefreshes(rows: map<nat, User>, next: nat, config: JwtConfig, email: string,
                                 password: string, fullName: string, salt: nat, now: int, later: int)
    requires next !in rows && now <= later < now + ExpiresIn
    requires SignUpOutcome(rows, next, config, email, password, fullName, salt, now).0.Ok?
    ensures var (r, rows') := SignUpOutcome(rows, next, config, email, password, fullName, salt, now);
      RefreshOutcome(rows', config, r.value.refreshToken, later).0
        == Ok(AccessOnly(Signed(config.accessSecret.value, Claims(next, Lower(email)), later, later + ExpiresIn)))
  {
    SignUpSuccess(rows, next, config, email, password, fullName, salt, now);
  }

  /** After a login at `now`, any other unexpired refresh token of that user is
      refused: the slot holds only the newest one. */
  lemma LoginSupersedesOlderToken(rows: map<nat, User>, config: JwtConfig, id: nat, password: string,
                                  now: int, older: Token, later: int)
    requires UsersUnique(rows) && id in rows && Compare(password, rows[id].password)
    requires config.accessSecret.Some? && config.refreshSecret.Some?
    requires older.Signed? && older.claims.userId == id && older.issuedAt != now
    requires later < older.expiresAt
    ensures var (_, rows') := SignInOutcome(rows, config, rows[id].email, password, now);
      RefreshOutcome(rows', config, older, later) == (Err(Unauthorized(RefreshTokenInvalid)), rows')
  {
    SignInSuccess(rows, config, id, password, now);
  }

  /** A user registered with upper-case letters in the email cannot log in with
      the email as typed: login matches it exactly against the lower-cased row. */
  lemma MixedCaseEmailCannotLogIn(rows: map<nat, User>, next: nat, config: JwtConfig, email: string,
                                  password: string, fullName: string, salt: nat, now: int, later: int)
    requires next !in rows && Lower(email) != email
    requires SignUpOutcome(rows, next, config, email, password, fullName, salt, now).0.Ok?
    ensures var rows' := SignUpOutcome(rows, next, config, email, password, fullName, salt, now).1;
      SignInOutcome(rows', config, email, password, later) == (Err(Unauthorized(InvalidCredentials)), rows')
  {
    var rows' := SignUpOutcome(rows, next, config, email, password, fullName, salt, now).1;
    SignUpSuccess(rows, next, config, email, password, fullName, salt, now);
    assert !EmailTaken(rows', email);
  }

  // ------------------------------------------------ the recovery path's slot

  /** As written, the refresh token returned by recovery is refused as soon as it
      is presented, because the slot holds the expired token instead. */
  lemma RecoveredTokenIsRefused(rows: map<nat, User>, config: JwtConfig, presented: Token, now: int, later: int)
    requires Verify(presented, config.refreshSecret, now).Expired?
    requires presented.claims.userId in rows && presented.claims.userId != 0
    requires config.accessSecret.Some? && config.refreshSecret.Some?
    requires now <= later < now + ExpiresIn
    ensures var (r, rows') := RefreshOutcome(rows, config, presented, now);
      RefreshOutcome(rows', config, r.value.pair.refreshToken, later) == (Err(Unauthorized(RefreshTokenInvalid)), rows')
  {
    RefreshRecoversExpired(rows, config, presented, now);
  }

  /** As written, the expired token keeps working: presented again at any later
      time it goes through recovery and yields another fresh pair. */
  lemma ExpiredTokenRenewsAgain(rows: map<nat, User>, config: JwtConfig, presented: Token, now: int, later: int)
    requires Verify(presented, config.refreshSecret, now).Expired?
    requires presented.claims.userId in rows && presented.claims.userId != 0
    requires config.accessSecret.Some? && config.refreshSecret.Some?
    requires now <= later
    ensures var rows' := RefreshOutcome(rows, config, presented, now).1;
      RefreshOutcome(rows', config, presented, later).0.Ok?
  {
    RefreshRecoversExpired(rows, config, presented, now);
  }

  /** `refreshToken` as evidently intended: recovery stores the new refresh token. */
  function RefreshOutcomeStoringNewToken(rows: map<nat, User>, config: JwtConfig, presented: Token, now: int): (Result<Refreshed>, map<nat, User>)
  {
    match FirstAttempt(rows, config, presented, now)
    case Done(access) => (Ok(AccessOnly(access)), rows)
    case Threw(TokenExpiredError) =>
      (match RecoveryAttempt(rows, config, presented, now)
       case Threw(_) => (Err(Unauthorized(RefreshTokenExpired)), rows)
       case Done((id, pair)) => (Ok(NewPair(pair)), WithSlot(rows, id, pair.refreshToken)))
    case Threw(_) => (Err(Unauthorized(RefreshTokenInvalid)), rows)
  }

  /** With the new token stored, the pair recovery returns is usable: its refresh
      token, presented within seven days, yields an access token. */
  lemma CorrectedRecoveredTokenRefreshes(rows: map<nat, User>, config: JwtConfig, presented: Token, now: int, later: int)
    requires Verify(presented, config.refreshSecret, now).Expired?
    requires presented.claims.userId in rows && presented.claims.userId != 0
    requires config.accessSecret.Some? && config.refreshSecret.Some?
    requires now <= later < now + ExpiresIn
    ensures var (r, rows') := RefreshOutcomeStoringNewToken(rows, config, presented, now);
      r.Ok? && r.value.NewPair? && RefreshOutcome(rows', config, r.value.pair.refreshToken, later).0.Ok?
  {
  }

  // ---------------------------------------------------------------- the service

  class AuthService {
    const users: Table<User>
    const config: JwtConfig

    ghost predicate Valid()
      reads this, users
    {
      users.Valid() && UsersUnique(users.rows)
    }

    constructor (users: Table<User>, config: JwtConfig)
      requires users.Valid() && UsersUnique(users.rows)
      ensures Valid() && this.users == users && this.config == config
    {
      this.users := users;
      this.config := config;
    }

    /** `updateRefreshToken(userId, token)`. */
    method UpdateRefreshToken(userId: nat, token: Token)
      requires Valid()
      modifies users
      ensures Valid() && users.next == old(users.next)
      ensures users.rows == WithSlot(old(users.rows), userId, token)
    {
      var user := users.Get(userId);
      if user.Some? {
        assert !Clashes(users.rows, userId, user.value.(refreshToken := Some(token)));
        users.Put(userId, user.value.(refreshToken := Some(token)));
      }
    }

    method SignUp(email: string, password: string, fullName: string, salt: nat, now: int) returns (r: Result<TokenPair>)
      requires Valid()
      modifies users
      ensures Valid()
      ensures (r, users.rows) == SignUpOutcome(old(users.rows), old(users.next), config, email, password, fullName, salt, now)
    {
      var existing := users.Find((u: User) => u.email == email);
      if existing.Some? {
        return Err(Conflict(EmailExists));
      }
      var user := NewUser(fullName, Lower(email), Hash(password, salt));
      if Clashes(users.rows, users.next, user) {
        return Err(Failure(UniqueViolation));
      }
      WriteKeepsUnique(users.rows, users.next, user);
      var id := users.Insert(user);
      var access := GenerateAccessToken(config, id, user.email, now);
      if access.Err? {
        return Err(access.error);
      }
      var refresh := GenerateRefreshToken(config, id, user.email, now);
      if refresh.Err? {
        return Err(refresh.error);
      }
      UpdateRefreshToken(id, refresh.value);
      r := Ok(TokenPair(access.value, refresh.value));
    }

    method SignIn(email: string, password: string, now: int) returns (r: Result<TokenPair>)
      requires Valid()
      modifies users
      ensures Valid() && users.next == old(users.next)
      ensures (r, users.rows) == SignInOutcome(old(users.rows), config, email, password, now)
    {
      var found := users.Find((u: User) => u.email == email);
      if found.None? {
        return Err(Unauthorized(InvalidCredentials));
      }
      var id := found.value;
      assert UserWithEmail(users.rows, email) == Some(id);
      var user := users.rows[id];
      if !Compare(password, user.password) {
        return Err(Unauthorized(InvalidCredentials));
      }
      var access := GenerateAccessToken(config, id, user.email, now);
      if access.Err? {
        return Err(access.error);
      }
      var refresh := GenerateRefreshToken(config, id, user.email, now);
      if refresh.Err? {
        return Err(refresh.error);
      }
      UpdateRefreshToken(id, refresh.value);
      r := Ok(TokenPair(access.value, refresh.value));
    }

    method RefreshToken(presented: Token, now: int) returns (r: Result<Refreshed>)
      requires Valid()
      modifies users
      ensures Valid() && users.next == old(users.next)
      ensures (r, users.rows) == RefreshOutcome(old(users.rows), config, presented, now)
    {
      // try
      var attempt: Attempt<Token>;
      var verdict := Verify(presented, config.refreshSecret, now);
      match verdict {
        case Expired => attempt := Threw(TokenExpiredError);
        case Invalid => attempt := Threw(JsonWebTokenError);
        case Verified(payload) =>
          var user := users.Get(payload.userId);
          if user.None? || user.value.refreshToken != Some(presented) {
            attempt := Threw(Exception(Unauthorized(InvalidRefreshToken)));
          } else {
            var access := GenerateAccessToken(config, payload.userId, user.value.email, now);
            attempt := if access.Ok? then Done(access.value) else Threw(Exception(access.error));
          }
      }
      if attempt.Done? {
        return Ok(AccessOnly(attempt.value));
      }
      // catch (err)
      if attempt.thrown != TokenExpiredError {
        return Err(Unauthorized(RefreshTokenInvalid));
      }
      // inner try
      var decoded := Decode(presented);
      if decoded.None? || decoded.value.userId == 0 {
        return Err(Unauthorized(RefreshTokenExpired));
      }
      var id := decoded.value.userId;
      var user := users.Get(id);
      if user.None? {
        return Err(Unauthorized(RefreshTokenExpired));
      }
      var access := GenerateAccessToken(config, id, user.value.email, now);
      if access.Err? {
        return Err(Unauthorized(RefreshTokenExpired));
      }
      var refresh := GenerateRefreshToken(config, id, user.value.email, now);
      if refresh.Err? {
        return Err(Unauthorized(RefreshTokenExpired));
      }
      UpdateRefreshToken(id, presented);
      r := Ok(NewPair(TokenPair(access.value, refresh.value)));
    }
  }
}
