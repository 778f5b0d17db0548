/** Token authentication, role authorization and the per-user fixed-window rate
    limiter. Token verification and the user lookup belong to libraries and the
    store; they are parameters here. */
module Auth {
  import opened Wrappers
  import opened OrderedMaps
  import opened Strings
  import opened Http

  /** The claims of a verified access token. */
  datatype JwtPayload = JwtPayload(userId: int, username: string, email: string, role: string, iat: int, exp: int)

  /** What `authenticate` reads of the stored user: its `isActive` field, which holds
      the text "true" or "false" (absent when the store does not keep one). */
  datatype Account = Account(isActive: Option<string>)

  // ---------------------------------------------------------------------------
  // authenticate

  const BEARER := "Bearer "

  /** `authHeader.substring(7)` once the header is known to start with "Bearer ". */
  function BearerToken(header: string): (token: string)
    requires StartsWith(header, BEARER)
    ensures header == BEARER + token
  {
    header[|BEARER|..]
  }

  /** The decision of `authenticate` and the user it attaches to the request. */
  function Authenticate(header: Option<string>, verify: string -> Option<JwtPayload>,
                        findUser: int -> Option<Account>): (r: (Reply, Option<JwtPayload>))
  {
    if header.None? || header.value == "" || !StartsWith(header.value, BEARER) then
      (Respond(401, "UNAUTHORIZED"), None)
    else
      match verify(BearerToken(header.value))
      case None => (Respond(401, "INVALID_TOKEN"), None)
      case Some(payload) =>
        match findUser(payload.userId)
        case Some(account) =>
          if account.isActive == Some("true") then (Next, Some(payload))
          else (Respond(401, "USER_INACTIVE"), None)
        case None => (Respond(401, "USER_INACTIVE"), None)
  }

  /** A request is let through exactly when it carries `Bearer <token>` whose token
      verifies and names a stored user whose `isActive` is "true"; the user attached is
      the token's payload. The header is checked before the token is looked at. */
  lemma AuthenticateIff(header: Option<string>, verify: string -> Option<JwtPayload>,
                        findUser: int -> Option<Account>, token: string)
    ensures var (reply, user) := Authenticate(header, verify, findUser);
      && (reply == Next <==>
            header.Some? && StartsWith(header.value, BEARER)
            && verify(BearerToken(header.value)).Some?
            && findUser(verify(BearerToken(header.value)).value.userId).Some?
            && findUser(verify(BearerToken(header.value)).value.userId).value.isActive == Some("true"))
      && (reply == Next ==> user == verify(BearerToken(header.value)))
      && (reply != Next ==> user.None? && reply.Respond? && reply.status == 401)
    ensures Authenticate(Some(BEARER + token), verify, findUser).0 != Respond(401, "UNAUTHORIZED")
    ensures (header.None? || !StartsWith(header.value, BEARER)) ==>
      Authenticate(header, verify, findUser) == (Respond(401, "UNAUTHORIZED"), None)
  {
    assert StartsWith(BEARER + token, BEARER) by {
      assert (BEARER + token)[..|BEARER|] == BEARER;
    }
  }

  // ---------------------------------------------------------------------------
  // authorize

  /** `authorize(roles)`: 401 without a user, 403 when the user's role is not listed. */
  function Authorize(roles: seq<string>, user: Option<JwtPayload>): (r: Reply)
    ensures r == Next <==> user.Some? && user.value.role in roles
    ensures user.None? ==> r == Respond(401, "UNAUTHORIZED")
    ensures user.Some? && user.value.role !in roles ==> r == Respond(403, "FORBIDDEN")
  {
    if user.None? then Respond(401, "UNAUTHORIZED")
    else if user.value.role !in roles then Respond(403, "FORBIDDEN")
    else Next
  }

  // ---------------------------------------------------------------------------
  // userRateLimit

  /** A user's window: requests counted so far and the instant it ends. */
  datatype RateEntry = RateEntry(count: int, resetTime: int)

  /** Let through, or refused with 429 RATE_LIMIT_EXCEEDED and a `retryAfter` in seconds. */
  datatype RateDecision = Pass | Limited(retryAfter: int)

  /** `Math.ceil(ms / 1000)`. */
  function CeilSeconds(ms: int): (s: int)
    ensures 1000 * (s - 1) < ms <= 1000 * s
  {
    -((-ms) / 1000)
  }

  /** `userRateLimit` exactly as written: a new window starts only once `now` is
      strictly past the reset time. */
  function LimitAsWritten(limits: OrderedMap<int, RateEntry>, maxRequests: int, windowMs: int,
                          user: Option<JwtPayload>, now: int): (r: (RateDecision, OrderedMap<int, RateEntry>))
    requires limits.Valid()
    ensures r.1.Valid()
  {
    if user.None? then (Pass, limits)
    else
      var id := user.value.userId;
      if id !in limits.entries || now > limits.entries[id].resetTime then
        (Pass, limits.Set(id, RateEntry(1, now + windowMs)))
      else if limits.entries[id].count >= maxRequests then
        (Limited(CeilSeconds(limits.entries[id].resetTime - now)), limits)
      else
        (Pass, limits.Set(id, limits.entries[id].(count := limits.entries[id].count + 1)))
  }

  /** As written, a client refused with a whole number of seconds left, which waits
      exactly the `retryAfter` it was given, is refused again and now told to retry
      after 0 seconds. */
  lemma RetryAfterRefusedAgain(limits: OrderedMap<int, RateEntry>, maxRequests: int, windowMs: int,
                               user: JwtPayload, now: int)
    requires limits.Valid() && user.userId in limits.entries
    requires limits.entries[user.userId].count >= maxRequests
    requires now < limits.entries[user.userId].resetTime
    requires (limits.entries[user.userId].resetTime - now) % 1000 == 0
    ensures var first := LimitAsWritten(limits, maxRequests, windowMs, Some(user), now);
      && first == (Limited((limits.entries[user.userId].resetTime - now) / 1000), limits)
      && first.0.retryAfter >= 1
      && LimitAsWritten(limits, maxRequests, windowMs, Some(user), now + 1000 * first.0.retryAfter).0 == Limited(0)
  {
    var wait := CeilSeconds(limits.entries[user.userId].resetTime - now);
    assert wait == (limits.entries[user.userId].resetTime - now) / 1000;
  }

  /** The same with numbers: one request per minute, the first at 0, a second at
      58000 (retry after 2 s), the retry at 60000 refused with retry after 0 s. */
  lemma RetryAfterExample(user: JwtPayload)
    ensures var (first, l1) := LimitAsWritten(Empty(), 1, 60000, Some(user), 0);
      var (second, l2) := LimitAsWritten(l1, 1, 60000, Some(user), 58000);
      && first == Pass && second == Limited(2)
      && LimitAsWritten(l2, 1, 60000, Some(user), 60000).0 == Limited(0)
  {
    var l1 := LimitAsWritten(Empty(), 1, 60000, Some(user), 0).1;
    assert l1.entries[user.userId] == RateEntry(1, 60000);
    RetryAfterRefusedAgain(l1, 1, 60000, user, 58000);
  }

  /** `userRateLimit` with the window ending at `resetTime` itself, so that waiting the
      advertised `retryAfter` is enough. */
  function Limit(limits: OrderedMap<int, RateEntry>, maxRequests: int, windowMs: int,
                 user: Option<JwtPayload>, now: int): (r: (RateDecision, OrderedMap<int, RateEntry>))
    requires limits.Valid()
    ensures r.1.Valid()
  {
    if user.None? then (Pass, limits)
    else
      var id := user.value.userId;
      if id !in limits.entries || now >= limits.entries[id].resetTime then
        (Pass, limits.Set(id, RateEntry(1, now + windowMs)))
      else if limits.entries[id].count >= maxRequests then
        (Limited(CeilSeconds(limits.entries[id].resetTime - now)), limits)
      else
        (Pass, limits.Set(id, limits.entries[id].(count := limits.entries[id].count + 1)))
  }

  /** A refused client that waits the `retryAfter` it was told is let through, and the
      advice is never longer than needed: one second less would still be too early. */
  lemma RetryAfterSuffices(limits: OrderedMap<int, RateEntry>, maxRequests: int, windowMs: int,
                           user: JwtPayload, now: int)
    requires limits.Valid() && Limit(limits, maxRequests, windowMs, Some(user), now).0.Limited?
    ensures var wait := Limit(limits, maxRequests, windowMs, Some(user), now).0.retryAfter;
      && wait >= 1
      && Limit(limits, maxRequests, windowMs, Some(user), now + 1000 * wait).0 == Pass
      && Limit(limits, maxRequests, windowMs, Some(user), now + 1000 * (wait - 1)).0.Limited?
  {
  }

  /** Every stored count is at most the limit. */
  predicate CountsBounded(limits: OrderedMap<int, RateEntry>, maxRequests: int) {
    forall id :: id in limits.entries ==> limits.entries[id].count <= maxRequests
  }

  /** With a limit of at least 1, no request ever takes a user's count past it; a
      refused request changes nothing, a request without a user changes nothing. */
  lemma LimitKeepsCountsBounded(limits: OrderedMap<int, RateEntry>, maxRequests: int, windowMs: int,
                                user: Option<JwtPayload>, now: int)
    requires limits.Valid() && maxRequests >= 1 && CountsBounded(limits, maxRequests)
    ensures CountsBounded(LimitAsWritten(limits, maxRequests, windowMs, user, now).1, maxRequests)
    ensures LimitAsWritten(limits, maxRequests, windowMs, user, now).0.Limited? ==>
      LimitAsWritten(limits, maxRequests, windowMs, user, now).1 == limits
    ensures user.None? ==> LimitAsWritten(limits, maxRequests, windowMs, user, now) == (Pass, limits)
  {
  }

  /** The requests of one user at the given instants, in order: how many pass, and
      the limits afterwards. */
  function Run(limits: OrderedMap<int, RateEntry>, maxRequests: int, windowMs: int,
               user: JwtPayload, times: seq<int>): (r: (nat, OrderedMap<int, RateEntry>))
    requires limits.Valid()
    ensures r.0 <= |times|
    decreases |times|
  {
    if times == [] then (0, limits)
    else
      var (decision, next) := LimitAsWritten(limits, maxRequests, windowMs, Some(user), times[0]);
      var (passed, last) := Run(next, maxRequests, windowMs, user, times[1..]);
      ((if decision == Pass then 1 else 0) + passed, last)
  }

  /** Inside an open window, up to and including its reset time, at most the
      remaining allowance passes. */
  lemma {:induction false} RunInsideWindow(limits: OrderedMap<int, RateEntry>, maxRequests: int, windowMs: int,
                                           user: JwtPayload, times: seq<int>)
    requires limits.Valid() && user.userId in limits.entries
    requires limits.entries[user.userId].count <= maxRequests
    requires forall i :: 0 <= i < |times| ==> times[i] <= limits.entries[user.userId].resetTime
    ensures Run(limits, maxRequests, windowMs, user, times).0 <= maxRequests - limits.entries[user.userId].count
    decreases |times|
  {
    if times != [] {
      var next := LimitAsWritten(limits, maxRequests, windowMs, Some(user), times[0]).1;
      assert next.entries[user.userId].resetTime == limits.entries[user.userId].resetTime;
      RunInsideWindow(next, maxRequests, windowMs, user, times[1..]);
    }
  }

  /** At most `maxRequests` requests of a user pass in one window: the request that
      opens it, at `start`, and all those up to and including `start + windowMs`. */
  lemma PassesPerWindow(limits: OrderedMap<int, RateEntry>, maxRequests: int, windowMs: int,
                        user: JwtPayload, start: int, times: seq<int>)
    requires limits.Valid() && maxRequests >= 1
    requires user.userId !in limits.entries || start > limits.entries[user.userId].resetTime
    requires forall i :: 0 <= i < |times| ==> times[i] <= start + windowMs
    ensures Run(limits, maxRequests, windowMs, user, [start] + times).0 <= maxRequests
  {
    var first := LimitAsWritten(limits, maxRequests, windowMs, Some(user), start).1;
    assert ([start] + times)[1..] == times;
    RunInsideWindow(first, maxRequests, windowMs, user, times);
  }

  /** The `rateLimitByUser` map shared by every limiter. */
  class RateLimitStore {
    var limits: OrderedMap<int, RateEntry>

    predicate Valid()
      reads this
    {
      limits.Valid()
    }

    constructor()
      ensures Valid() && limits == Empty()
    {
      limits := Empty();
    }

    /** The middleware of `userRateLimit(maxRequests, windowMs)` for one request. */
    method UserRateLimit(maxRequests: int, windowMs: int, user: Option<JwtPayload>, now: int)
      returns (decision: RateDecision)
      requires Valid()
      modifies this
      ensures Valid()
      ensures (decision, limits) == LimitAsWritten(old(limits), maxRequests, windowMs, user, now)
    {
      if user.None? {
        return Pass;
      }
      var userId := user.value.userId;
      var userLimit := limits.Get(userId);
      if userLimit.None? || now > userLimit.value.resetTime {
        limits := limits.Set(userId, RateEntry(1, now + windowMs));
        return Pass;
      }
      if userLimit.value.count >= maxRequests {
        return Limited(CeilSeconds(userLimit.value.resetTime - now));
      }
      limits := limits.Set(userId, userLimit.value.(count := userLimit.value.count + 1));
      decision := Pass;
    }
  }
}
