/** The registration, login, token-refresh, profile and logout handlers. Each handler
    is a chain of early returns; the storage behind them (looking users up, creating
    one, recording a login), password hashing and checking, token signing and
    verification, and the e-mail validator are parameters. */
module AuthRoutes {
  import opened Wrappers
  import opened Strings

  // ---------------------------------------------------------------------------
  // Validation rules

  /** The length the validator library's `isLength` counts: code points, not counting
      the variation selectors U+FE0E and U+FE0F. */
  function ValidatorLength(s: string): (n: nat)
    ensures n <= |s|
  {
    if s == [] then 0
    else ValidatorLength(s[..|s| - 1]) + (if s[|s| - 1] == '\U{FE0E}' || s[|s| - 1] == '\U{FE0F}' then 0 else 1)
  }

  /** A string without variation selectors has the length `|s|`. */
  lemma {:induction false} ValidatorLengthPlain(s: string)
    requires forall i :: 0 <= i < |s| ==> s[i] != '\U{FE0E}' && s[i] != '\U{FE0F}'
    ensures ValidatorLength(s) == |s|
  {
    if s != [] {
      ValidatorLengthPlain(s[..|s| - 1]);
    }
  }

  predicate IsLower(c: char) { 'a' <= c <= 'z' }
  predicate IsUpper(c: char) { 'A' <= c <= 'Z' }
  predicate IsWordChar(c: char) { IsLower(c) || IsUpper(c) || IsDigit(c) || c == '_' }
  predicate IsSpecial(c: char) { c in "@$!%*?&" }
  predicate IsPasswordChar(c: char) { IsLower(c) || IsUpper(c) || IsDigit(c) || IsSpecial(c) }
  predicate IsLineTerminator(c: char) { c == '\n' || c == '\r' || c == '\U{2028}' || c == '\U{2029}' }

  /** The username the handler sees: the request's value trimmed. */
  function Username(raw: string): string {
    Trim(raw)
  }

  /** `trim().isLength({ min: 3, max: 30 }).matches(/^[a-zA-Z0-9_]+$/)`. */
  predicate UsernameValid(raw: string) {
    var name := Username(raw);
    && 3 <= ValidatorLength(name) <= 30
    && name != []
    && forall i :: 0 <= i < |name| ==> IsWordChar(name[i])
  }

  /** A valid username is 3 to 30 letters, digits and underscores with nothing
      around them. */
  lemma UsernameValidMeans(raw: string)
    requires UsernameValid(raw)
    ensures 3 <= |Username(raw)| <= 30
    ensures forall i :: 0 <= i < |Username(raw)| ==> IsWordChar(Username(raw)[i])
    ensures !IsJsWhitespace(Username(raw)[0])
  {
    ValidatorLengthPlain(Username(raw));
  }

  /** The text before the first line terminator: what `.*` can range over in a
      lookahead. */
  function FirstLine(s: string): (r: string)
    ensures |r| <= |s| && s[..|r|] == r
    ensures forall i :: 0 <= i < |r| ==> !IsLineTerminator(r[i])
    ensures |r| < |s| ==> IsLineTerminator(s[|r|])
  {
    if s == [] || IsLineTerminator(s[0]) then [] else [s[0]] + FirstLine(s[1..])
  }

  predicate Has(s: string, p: char -> bool) {
    exists i :: 0 <= i < |s| && p(s[i])
  }

  /** The first line runs at least as far as the first terminator-free stretch. */
  lemma {:induction false} FirstLineCovers(s: string, n: nat)
    requires n <= |s| && forall i :: 0 <= i < n ==> !IsLineTerminator(s[i])
    ensures |FirstLine(s)| >= n
  {
    if n > 0 {
      FirstLineCovers(s[1..], n - 1);
    }
  }

  /** The password rule as written: `isLength({ min: 8, max: 128 })` and
      `/^(?=.*[a-z])(?=.*[A-Z])(?=.*\d)(?=.*[@$!%*?&])[A-Za-z\d@$!%*?&]/`. The four
      lookaheads look only at the first line, and the character class after them
      matches the first character only. */
  predicate PasswordAsWritten(p: string) {
    var line := FirstLine(p);
    && 8 <= ValidatorLength(p) <= 128
    && Has(line, IsLower) && Has(line, IsUpper) && Has(line, IsDigit) && Has(line, IsSpecial)
    && p != [] && IsPasswordChar(p[0])
  }

  /** The password rule as evidently intended: 8 to 128 characters, every one a letter,
      a digit or one of `@$!%*?&`, with at least one lowercase letter, one uppercase
      letter, one digit and one special character. */
  predicate PasswordValid(p: string) {
    && 8 <= |p| <= 128
    && (forall i :: 0 <= i < |p| ==> IsPasswordChar(p[i]))
    && Has(p, IsLower) && Has(p, IsUpper) && Has(p, IsDigit) && Has(p, IsSpecial)
  }

  /** Every password the intended rule accepts, the rule as written accepts too. */
  lemma PasswordValidIsStricter(p: string)
    requires PasswordValid(p)
    ensures PasswordAsWritten(p)
  {
    ValidatorLengthPlain(p);
    FirstLineCovers(p, |p|);
    assert FirstLine(p) == p;
  }

  /** The rule as written lets through a password of any characters after a first
      four `Aa1!`, such as `Aa1!` followed by four spaces. */
  lemma PasswordAsWrittenAcceptsAnyTail(p: string, j: nat)
    requires |p| >= 8 && p[..4] == "Aa1!"
    requires ValidatorLength(p) == |p| && |p| <= 128
    requires j < |p| && !IsPasswordChar(p[j])
    ensures PasswordAsWritten(p)
    ensures !PasswordValid(p)
  {
    var line := FirstLine(p);
    assert p[0] == 'A' && p[1] == 'a' && p[2] == '1' && p[3] == '!';
    FirstLineCovers(p, 4);
    assert line[0] == 'A' && line[1] == 'a' && line[2] == '1' && line[3] == '!';
    assert IsSpecial(line[3]);
  }

  // ---------------------------------------------------------------------------
  // Users and the handlers

  /** A user row as the handlers read it; `password` is the stored hash. */
  datatype UserRecord = UserRecord(id: int, username: string, email: string, password: string, role: string, isActive: string)

  /** A user row without its password: what a response carries. */
  datatype PublicUser = PublicUser(id: int, username: string, email: string, role: string, isActive: string)

  /** `const { password: _, ...userResponse } = user`. */
  function Public(u: UserRecord): (r: PublicUser)
    ensures r.id == u.id && r.username == u.username && r.email == u.email
    ensures r.role == u.role && r.isActive == u.isActive
  {
    PublicUser(u.id, u.username, u.email, u.role, u.isActive)
  }

  /** What `storage.createUser` is given on registration. */
  datatype NewUser = NewUser(username: string, email: string, password: string, role: string, isActive: string)

  /** The claims the server signs: an access token carries the user's identity, a
      refresh token its id and `type: 'refresh'`. */
  datatype Claims =
    | AccessClaims(userId: int, username: string, email: string, role: string)
    | RefreshClaims(userId: int, tokenType: Option<string>)

  datatype Tokens = Tokens(accessToken: string, refreshToken: string)

  /** `generateTokens(user)`. */
  function GenerateTokens(sign: Claims -> string, id: int, username: string, email: string, role: string): Tokens {
    Tokens(sign(AccessClaims(id, username, email, role)), sign(RefreshClaims(id, Some("refresh"))))
  }

  /** How a handler ends. */
  datatype Answer =
    | Failed(status: int, error: string)
    | Created(insert: NewUser)                       // createUser is called, then 201 with the user and tokens
    | LoggedIn(user: PublicUser, tokens: Tokens)     // the last login is recorded, then 200
    | Refreshed(tokens: Tokens)
    | Profile(user: PublicUser)
    | LoggedOut

  predicate Active(u: Option<UserRecord>) {
    u.Some? && u.value.isActive == "true"
  }

  /** The fields of a request body the handlers read; a missing field is "". */
  datatype Credentials = Credentials(username: string, email: string, password: string)

  /** The abstract storage the handlers call. */
  datatype Directory = Directory(
    byEmail: string -> Option<UserRecord>,
    byUsername: string -> Option<UserRecord>,
    byId: int -> Option<UserRecord>)

  /** `isEmail().normalizeEmail()`: None for an invalid address, else the normalised one. */
  type EmailCheck = string -> Option<string>

  /** The registration validators as written, with the password rule as written. */
  predicate RegistrationValid(body: Credentials, email: EmailCheck) {
    UsernameValid(body.username) && email(body.email).Some? && PasswordAsWritten(body.password)
  }

  /** POST /vote/auth/register. */
  function Register(body: Credentials, email: EmailCheck, users: Directory, hash: string -> string): (r: Answer)
  {
    if !RegistrationValid(body, email) then Failed(400, "VALIDATION_ERROR")
    else
      var address := email(body.email).value;
      var name := Username(body.username);
      if users.byEmail(address).Some? then Failed(409, "USER_EXISTS")
      else if users.byUsername(name).Some? then Failed(409, "USERNAME_TAKEN")
      else Created(NewUser(name, address, hash(body.password), "user", "true"))
  }

  /** The 201 response once `createUser` has returned the stored row. */
  function Welcome(sign: Claims -> string, created: UserRecord): (r: (PublicUser, Tokens))
    ensures r.0 == Public(created)
    ensures r.1.refreshToken == sign(RefreshClaims(created.id, Some("refresh")))
  {
    (Public(created), GenerateTokens(sign, created.id, created.username, created.email, created.role))
  }

  /** Registration refuses invalid input before looking anything up; a taken e-mail
      address wins over a taken username; otherwise a user is created with role
      "user", active, under the trimmed name, the normalised address and the hashed
      password. */
  lemma RegisterDecision(body: Credentials, email: EmailCheck, users: Directory, others: Directory, hash: string -> string)
    ensures !RegistrationValid(body, email) ==>
      Register(body, email, users, hash) == Register(body, email, others, hash) == Failed(400, "VALIDATION_ERROR")
    ensures RegistrationValid(body, email) && users.byEmail(email(body.email).value).Some? ==>
      Register(body, email, users, hash) == Failed(409, "USER_EXISTS")
    ensures Register(body, email, users, hash) == Failed(409, "USERNAME_TAKEN") <==>
      RegistrationValid(body, email) && users.byEmail(email(body.email).value).None?
      && users.byUsername(Username(body.username)).Some?
    ensures Register(body, email, users, hash).Created? <==>
      RegistrationValid(body, email) && users.byEmail(email(body.email).value).None?
      && users.byUsername(Username(body.username)).None?
    ensures Register(body, email, users, hash).Created? ==>
      var insert := Register(body, email, users, hash).insert;
      && insert.role == "user" && insert.isActive == "true"
      && insert.password == hash(body.password)
      && insert.username == Username(body.username) && insert.email == email(body.email).value
      && PasswordAsWritten(body.password)
  {
  }

  /** Registration creates an account whose password the intended rule refuses:
      `Aa1!` followed by any characters, once the name and address are free. */
  lemma RegisterAcceptsAnyTail(body: Credentials, email: EmailCheck, users: Directory, hash: string -> string, j: nat)
    requires UsernameValid(body.username) && email(body.email).Some?
    requires users.byEmail(email(body.email).value).None? && users.byUsername(Username(body.username)).None?
    requires |body.password| >= 8 && body.password[..4] == "Aa1!"
    requires ValidatorLength(body.password) == |body.password| && |body.password| <= 128
    requires j < |body.password| && !IsPasswordChar(body.password[j])
    ensures Register(body, email, users, hash).Created?
    ensures Register(body, email, users, hash).insert.password == hash(body.password)
    ensures !PasswordValid(body.password)
  {
    PasswordAsWrittenAcceptsAnyTail(body.password, j);
  }

  predicate LoginValid(body: Credentials, email: EmailCheck) {
    email(body.email).Some? && body.password != ""
  }

  /** POST /vote/auth/login. */
  function Login(body: Credentials, email: EmailCheck, users: Directory, checkPassword: (string, string) -> bool, sign: Claims -> string): (r: Answer)
  {
    if !LoginValid(body, email) then Failed(400, "VALIDATION_ERROR")
    else
      var user := users.byEmail(email(body.email).value);
      if !Active(user) then Failed(401, "INVALID_CREDENTIALS")
      else if !checkPassword(body.password, user.value.password) then Failed(401, "INVALID_CREDENTIALS")
      else LoggedIn(Public(user.value), GenerateTokens(sign, user.value.id, user.value.username, user.value.email, user.value.role))
  }

  /** Login succeeds exactly for an active user found by the normalised address whose
      stored hash matches; an unknown user, an inactive one and a wrong password get
      the same answer, so a caller cannot tell them apart. */
  lemma LoginDecision(body: Credentials, email: EmailCheck, users: Directory, checkPassword: (string, string) -> bool, sign: Claims -> string)
    ensures !LoginValid(body, email) ==> Login(body, email, users, checkPassword, sign) == Failed(400, "VALIDATION_ERROR")
    ensures Login(body, email, users, checkPassword, sign).LoggedIn? <==>
      && LoginValid(body, email)
      && Active(users.byEmail(email(body.email).value))
      && checkPassword(body.password, users.byEmail(email(body.email).value).value.password)
    ensures LoginValid(body, email) && !Login(body, email, users, checkPassword, sign).LoggedIn? ==>
      Login(body, email, users, checkPassword, sign) == Failed(401, "INVALID_CREDENTIALS")
    ensures Login(body, email, users, checkPassword, sign).LoggedIn? ==>
      Login(body, email, users, checkPassword, sign).user == Public(users.byEmail(email(body.email).value).value)
  {
  }

  /** POST /vote/auth/refresh. */
  function Refresh(refreshToken: Option<string>, verify: string -> Option<Claims>, users: Directory, sign: Claims -> string): (r: Answer)
  {
    if refreshToken.None? || refreshToken.value == "" then Failed(400, "MISSING_REFRESH_TOKEN")
    else
      var payload := verify(refreshToken.value);
      if payload.None? || !payload.value.RefreshClaims? || payload.value.tokenType != Some("refresh") then Failed(401, "INVALID_REFRESH_TOKEN")
      else
        var user := users.byId(payload.value.userId);
        if !Active(user) then Failed(401, "USER_INACTIVE")
        else Refreshed(GenerateTokens(sign, user.value.id, user.value.username, user.value.email, user.value.role))
  }

  /** Only a refresh token of a user who is still active yields new tokens; an access
      token is refused as a refresh token. */
  lemma RefreshDecision(refreshToken: Option<string>, verify: string -> Option<Claims>, users: Directory, sign: Claims -> string)
    ensures refreshToken.None? ==> Refresh(refreshToken, verify, users, sign) == Failed(400, "MISSING_REFRESH_TOKEN")
    ensures Refresh(refreshToken, verify, users, sign).Refreshed? <==>
      && refreshToken.Some? && refreshToken.value != ""
      && verify(refreshToken.value).Some?
      && verify(refreshToken.value).value == RefreshClaims(verify(refreshToken.value).value.userId, Some("refresh"))
      && Active(users.byId(verify(refreshToken.value).value.userId))
    ensures refreshToken.Some? && refreshToken.value != "" && verify(refreshToken.value).Some? ==>
      verify(refreshToken.value).value.AccessClaims? ==>
      Refresh(refreshToken, verify, users, sign) == Failed(401, "INVALID_REFRESH_TOKEN")
  {
  }

  /** The refresh token a login hands out, presented back while the user is still
      active, yields new tokens for that user, provided verification returns the
      claims that were signed and the storage finds by id the user it finds by
      address. */
  lemma LoginThenRefresh(body: Credentials, email: EmailCheck, users: Directory, checkPassword: (string, string) -> bool,
                         sign: Claims -> string, verify: string -> Option<Claims>)
    requires forall c :: verify(sign(c)) == Some(c)
    requires forall e :: users.byEmail(e).Some? ==> users.byId(users.byEmail(e).value.id) == users.byEmail(e)
    requires Login(body, email, users, checkPassword, sign).LoggedIn?
    requires sign(RefreshClaims(Login(body, email, users, checkPassword, sign).user.id, Some("refresh"))) != ""
    ensures var issued := Login(body, email, users, checkPassword, sign);
      Refresh(Some(issued.tokens.refreshToken), verify, users, sign)
        == Refreshed(GenerateTokens(sign, issued.user.id, issued.user.username, issued.user.email, issued.user.role))
  {
    var user := users.byEmail(email(body.email).value).value;
    var claims := RefreshClaims(user.id, Some("refresh"));
    assert verify(sign(claims)) == Some(claims);
    assert users.byId(user.id) == Some(user);
  }

  /** GET /vote/auth/profile, after `authenticate` has attached the token's user id. */
  function GetProfile(userId: int, users: Directory): (r: Answer)
    ensures r.Profile? <==> users.byId(userId).Some?
    ensures r.Profile? ==> r.user == Public(users.byId(userId).value)
    ensures !r.Profile? ==> r == Failed(404, "USER_NOT_FOUND")
  {
    match users.byId(userId)
    case None => Failed(404, "USER_NOT_FOUND")
    case Some(u) => Profile(Public(u))
  }

  /** POST /vote/auth/logout: tokens are not revoked; the answer is always success. */
  function Logout(): Answer {
    LoggedOut
  }
}
