/** Authentication against Keycloak tokens: the header checks, the mapping of a
    Keycloak subject to a local numeric user id, and the realm-role guard. Token
    verification (key lookup and signature check) is a parameter. */
module KeycloakAuth {
  import opened Wrappers
  import opened Strings
  import opened Http

  /** The claims the server reads from a Keycloak token; `realmRoles` is
      `realm_access.roles`, absent when the token has no `realm_access`. */
  datatype KeycloakUser = KeycloakUser(
    sub: string,
    preferredUsername: string,
    givenName: Option<string>,
    familyName: Option<string>,
    email: Option<string>,
    realmRoles: Option<seq<string>>)

  // ---------------------------------------------------------------------------
  // 32-bit arithmetic

  const TWO_32 := 0x1_0000_0000
  const TWO_31 := 0x8000_0000

  predicate IsInt32(x: int) {
    -TWO_31 <= x < TWO_31
  }

  /** ECMAScript ToInt32 on an integer value: wrap modulo 2^32 into [-2^31, 2^31). */
  function ToInt32(x: int): (r: int)
    ensures IsInt32(r)
    ensures (r - x) % TWO_32 == 0
  {
    (x + TWO_31) % TWO_32 - TWO_31
  }

  /** Two integers that differ by a multiple of 2^32 wrap to the same value. */
  lemma ToInt32Congruent(x: int, y: int)
    requires (x - y) % TWO_32 == 0
    ensures ToInt32(x) == ToInt32(y)
  {
    var k := (x - y) / TWO_32;
    assert x == y + TWO_32 * k;
    assert (x + TWO_31) % TWO_32 == (y + TWO_31 + TWO_32 * k) % TWO_32;
    ModAddMultiple(y + TWO_31, k);
  }

  lemma ModAddMultiple(a: int, k: int)
    ensures (a + TWO_32 * k) % TWO_32 == a % TWO_32
  {
    var q, r := a / TWO_32, a % TWO_32;
    assert a == TWO_32 * q + r;
    assert a + TWO_32 * k == TWO_32 * (q + k) + r;
  }

  // ---------------------------------------------------------------------------
  // mapKeycloakUserToLocalId

  /** One step of the loop: `hash = ((hash << 5) - hash) + char; hash = hash & hash`.
      The shift converts to 32 bits, the subtraction and addition are exact, and the
      self-`&` converts to 32 bits again. */
  function HashStep(hash: int, unit: int): int {
    ToInt32(ToInt32(hash * 32) - hash + unit)
  }

  /** The step is the 32-bit fold `hash := int32(31 * hash + unit)`. */
  lemma HashStepIsFold(hash: int, unit: int)
    ensures HashStep(hash, unit) == ToInt32(31 * hash + unit)
  {
    var shifted := ToInt32(hash * 32);
    assert (shifted - hash + unit) - (31 * hash + unit) == shifted - hash * 32;
    ToInt32Congruent(shifted - hash + unit, 31 * hash + unit);
  }

  /** The hash of a sequence of code units: the left fold of `HashStep` from 0. */
  function Hash(units: seq<int>): (h: int)
    ensures IsInt32(h)
  {
    if units == [] then 0 else HashStep(Hash(units[..|units| - 1]), units[|units| - 1])
  }

  /** `Math.abs(hash) % 1000000`. */
  function LocalIdOf(hash: int): (id: int)
    requires IsInt32(hash)
    ensures 0 <= id <= 999999
  {
    (if hash < 0 then -hash else hash) % 1000000
  }

  /** The local id of a subject. */
  function LocalId(sub: string): int {
    LocalIdOf(Hash(Utf16(sub)))
  }

  /** The local id is always in [0, 999999]; the empty subject maps to 0; a subject
      made of one code unit `c` hashes to `c` itself. */
  lemma LocalIdRange(sub: string, c: char)
    ensures 0 <= LocalId(sub) <= 999999
    ensures LocalId("") == 0
    ensures (c as int) < 0x1_0000 ==> Hash(Utf16([c])) == c as int
  {
    if (c as int) < 0x1_0000 {
      assert [c][..0] == [];
      assert Utf16([c]) == [c as int];
      HashStepIsFold(0, c as int);
    }
  }

  /** `mapKeycloakUserToLocalId`: the hash loop over the subject's code units. */
  method MapKeycloakUserToLocalId(user: KeycloakUser) returns (id: int)
    ensures id == LocalId(user.sub)
    ensures 0 <= id <= 999999
  {
    var str := Utf16(user.sub);
    var hash := 0;
    var i := 0;
    while i < |str|
      invariant 0 <= i <= |str|
      invariant hash == Hash(str[..i])
    {
      assert str[..i + 1][..i] == str[..i];
      hash := ToInt32(ToInt32(hash * 32) - hash + str[i]);
      i := i + 1;
    }
    assert str[..i] == str;
    id := (if hash < 0 then -hash else hash) % 1000000;
  }

  // ---------------------------------------------------------------------------
  // The middlewares

  /** What `authenticateKeycloak` decides: the reply, and on success the user and
      local id attached to the request. */
  datatype KeycloakOutcome = KeycloakOutcome(reply: Reply, user: Option<KeycloakUser>, userId: Option<int>)

  const BEARER := "Bearer "

  predicate HasBearer(header: Option<string>) {
    header.Some? && header.value != "" && StartsWith(header.value, BEARER)
  }

  function AuthenticateKeycloak(header: Option<string>, verify: string -> Option<KeycloakUser>): (r: KeycloakOutcome)
  {
    if !HasBearer(header) then KeycloakOutcome(Respond(401, "UNAUTHORIZED"), None, None)
    else
      match verify(header.value[|BEARER|..])
      case None => KeycloakOutcome(Respond(401, "INVALID_TOKEN"), None, None)
      case Some(user) => KeycloakOutcome(Next, Some(user), Some(LocalId(user.sub)))
  }

  /** A request without `Bearer ` is refused before any token is verified; otherwise
      the token is the text after the prefix and the request passes exactly when it
      verifies, carrying the user and its local id. */
  lemma AuthenticateKeycloakFacts(header: Option<string>, verify: string -> Option<KeycloakUser>, token: string)
    ensures !HasBearer(header) ==> AuthenticateKeycloak(header, verify) == KeycloakOutcome(Respond(401, "UNAUTHORIZED"), None, None)
    ensures AuthenticateKeycloak(Some(BEARER + token), verify).reply == Next <==> verify(token).Some?
    ensures verify(token).Some? ==>
      AuthenticateKeycloak(Some(BEARER + token), verify).user == verify(token)
      && 0 <= AuthenticateKeycloak(Some(BEARER + token), verify).userId.value <= 999999
  {
    assert (BEARER + token)[..|BEARER|] == BEARER;
    assert (BEARER + token)[|BEARER|..] == token;
    if verify(token).Some? {
      LocalIdRange(verify(token).value.sub, 'a');
    }
  }

  /** `optionalAuth`: without a Bearer header the request passes with no user. */
  function OptionalAuth(header: Option<string>, verify: string -> Option<KeycloakUser>): (r: KeycloakOutcome)
    ensures !HasBearer(header) ==> r == KeycloakOutcome(Next, None, None)
    ensures HasBearer(header) ==> r == AuthenticateKeycloak(header, verify)
  {
    if HasBearer(header) then AuthenticateKeycloak(header, verify) else KeycloakOutcome(Next, None, None)
  }

  /** `requireRole(role)`: 401 without a user, 403 unless the role is among the realm
      roles (none when `realm_access` is absent). */
  function RequireRole(requiredRole: string, user: Option<KeycloakUser>): (r: Reply)
    ensures r == Next <==> user.Some? && user.value.realmRoles.Some? && requiredRole in user.value.realmRoles.value
    ensures user.None? ==> r == Respond(401, "UNAUTHORIZED")
    ensures user.Some? && user.value.realmRoles.None? ==> r == Respond(403, "FORBIDDEN")
  {
    if user.None? then Respond(401, "UNAUTHORIZED")
    else if requiredRole !in user.value.realmRoles.GetOr([]) then Respond(403, "FORBIDDEN")
    else Next
  }
}
