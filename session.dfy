/** The in-memory session store: a map from session id to session record, kept in
    insertion order like a JavaScript `Map`. A session expires after 24 hours
    without activity; every successful check slides that window forward. The clock
    (`Date.now()`) is the `now` parameter of each operation. */
module Sessions {
  import opened Wrappers
  import opened OrderedMaps
  import opened Seqs
  import opened Http

  /** 24 hours, in milliseconds. */
  const MAX_INACTIVE_TIME := 24 * 60 * 60 * 1000

  datatype SessionData = SessionData(
    userId: int,
    username: string,
    email: string,
    role: string,
    lastActivity: int,
    ipAddress: string,
    userAgent: string,
    isActive: bool)

  /** What the caller of `createSession` supplies: a session record without
      `lastActivity` and `isActive`. */
  datatype NewSession = NewSession(
    userId: int,
    username: string,
    email: string,
    role: string,
    ipAddress: string,
    userAgent: string)

  /** A `Partial<SessionData>`: each field either carried by the update or absent. */
  datatype SessionUpdate = SessionUpdate(
    userId: Option<int>,
    username: Option<string>,
    email: Option<string>,
    role: Option<string>,
    lastActivity: Option<int>,
    ipAddress: Option<string>,
    userAgent: Option<string>,
    isActive: Option<bool>)

  /** The update that carries nothing (`{}`). */
  const NoChange := SessionUpdate(None, None, None, None, None, None, None, None)

  /** The record `createSession` stores: the supplied fields, active, last seen now. */
  function Opened(data: NewSession, now: int): SessionData {
    SessionData(data.userId, data.username, data.email, data.role, now,
                data.ipAddress, data.userAgent, true)
  }

  /** `{ ...existing, ...updates, lastActivity: now }`. */
  function Merge(s: SessionData, u: SessionUpdate, now: int): SessionData {
    SessionData(
      u.userId.GetOr(s.userId),
      u.username.GetOr(s.username),
      u.email.GetOr(s.email),
      u.role.GetOr(s.role),
      now,
      u.ipAddress.GetOr(s.ipAddress),
      u.userAgent.GetOr(s.userAgent),
      u.isActive.GetOr(s.isActive))
  }

  /** Inactive for strictly more than 24 hours. */
  predicate Expired(s: SessionData, now: int) {
    now - s.lastActivity > MAX_INACTIVE_TIME
  }

  function ExpiredAt(now: int): SessionData -> bool {
    (s: SessionData) => Expired(s, now)
  }

  function OwnedBy(userId: int): SessionData -> bool {
    (s: SessionData) => s.userId == userId
  }

  function ActiveOf(userId: int): SessionData -> bool {
    (s: SessionData) => s.userId == userId && s.isActive
  }

  // ---------------------------------------------------------------------------
  // The store as a value: what each operation leaves behind and answers.

  /** What `updateSession` leaves: an unknown id changes nothing. */
  function Updated(m: OrderedMap<string, SessionData>, id: string, u: SessionUpdate, now: int): (r: OrderedMap<string, SessionData>)
    requires m.Valid()
    ensures r.Valid()
  {
    if id in m.entries then m.Set(id, Merge(m.entries[id], u, now)) else m
  }

  /** The answer of `isSessionValid`. */
  predicate Validity(m: OrderedMap<string, SessionData>, id: string, now: int) {
    id in m.entries && m.entries[id].isActive && !Expired(m.entries[id], now)
  }

  /** What `isSessionValid` leaves: an active session found expired is destroyed; an
      inactive one is left in place. */
  function Checked(m: OrderedMap<string, SessionData>, id: string, now: int): (r: OrderedMap<string, SessionData>)
    requires m.Valid()
    ensures r.Valid()
  {
    if id in m.entries && m.entries[id].isActive && Expired(m.entries[id], now) then m.Delete(id) else m
  }

  /** What `getActiveSessions` returns: the user's active sessions in map order. */
  function ActiveSessions(m: OrderedMap<string, SessionData>, userId: int): seq<SessionData>
    requires m.Valid()
  {
    Filter(m.Values(), ActiveOf(userId))
  }

  /** `req.headers['x-session-id'] || req.sessionId`, then `!sessionId`: an absent or
      empty id is no id. */
  function ResolveSessionId(header: Option<string>, bound: Option<string>): (r: Option<string>)
    ensures r.Some? ==> r.value != ""
    ensures header.Some? && header.value != "" ==> r == header
    ensures (header.None? || header.value == "") ==> (r.Some? <==> bound.Some? && bound.value != "")
    ensures (header.None? || header.value == "") && r.Some? ==> r == bound
  {
    if header.Some? && header.value != "" then header
    else if bound.Some? && bound.value != "" then bound
    else None
  }

  /** The reply of `validateSession` and the store it leaves. */
  function Validated(m: OrderedMap<string, SessionData>, header: Option<string>, bound: Option<string>, now: int)
    : (r: (Reply, OrderedMap<string, SessionData>))
    requires m.Valid()
    ensures r.1.Valid()
  {
    match ResolveSessionId(header, bound)
    case None => (Respond(401, "SESSION_REQUIRED"), m)
    case Some(id) =>
      if !Validity(m, id, now) then (Respond(401, "SESSION_INVALID"), Checked(m, id, now))
      else (Next, Updated(m, id, SessionUpdate(None, None, None, None, Some(now), None, None, None), now))
  }

  // ---------------------------------------------------------------------------
  // Properties.

  /** A new session is valid from the moment it is created until exactly 24 hours
      later, and not one millisecond after. */
  lemma CreatedLastsADay(m: OrderedMap<string, SessionData>, id: string, data: NewSession, now: int, later: int)
    requires m.Valid() && now <= later
    ensures Validity(m.Set(id, Opened(data, now)), id, later) <==> later <= now + MAX_INACTIVE_TIME
  {
  }

  /** `updateSession` always refreshes the activity time, even when the update brings
      a `lastActivity` of its own; the other fields come from the update where it has
      them and from the stored record elsewhere. */
  lemma MergeRefreshes(s: SessionData, u: SessionUpdate, now: int)
    ensures Merge(s, u, now).lastActivity == now
    ensures !Expired(Merge(s, u, now), now)
    ensures Merge(s, NoChange, now) == s.(lastActivity := now)
    ensures u.isActive == Some(false) ==> !Merge(s, u, now).isActive
    ensures u.isActive.None? ==> Merge(s, u, now).isActive == s.isActive
    ensures Merge(Merge(s, u, now), u, now) == Merge(s, u, now)
  {
  }

  /** Updating keeps the set of sessions and their order; only the one record changes. */
  lemma UpdatedTouchesOne(m: OrderedMap<string, SessionData>, id: string, u: SessionUpdate, now: int)
    requires m.Valid()
    ensures Updated(m, id, u, now).keys == m.keys
    ensures Updated(m, id, u, now).entries.Keys == m.entries.Keys
    ensures forall k :: k in m.entries && k != id ==> Updated(m, id, u, now).entries[k] == m.entries[k]
  {
  }

  /** Deactivating a session through `updateSession` makes it invalid at any time. */
  lemma DeactivatedIsInvalid(m: OrderedMap<string, SessionData>, id: string, u: SessionUpdate, now: int, later: int)
    requires m.Valid() && u.isActive == Some(false)
    ensures !Validity(Updated(m, id, u, now), id, later)
  {
  }

  /** `isSessionValid` only ever removes the session it was asked about, and only when
      the answer is false. */
  lemma CheckedRemovesAtMostOne(m: OrderedMap<string, SessionData>, id: string, now: int)
    requires m.Valid()
    ensures Checked(m, id, now).entries == m.entries || Checked(m, id, now).entries == m.entries - {id}
    ensures Validity(m, id, now) ==> Checked(m, id, now) == m
  {
  }

  /** Asking twice gives the same answer and changes nothing more. */
  lemma CheckedIdempotent(m: OrderedMap<string, SessionData>, id: string, now: int)
    requires m.Valid()
    ensures Validity(Checked(m, id, now), id, now) == Validity(m, id, now)
    ensures Checked(Checked(m, id, now), id, now) == Checked(m, id, now)
  {
  }

  /** After `cleanupExpiredSessions` no stored session is expired, and every id gets the
      same answer from `isSessionValid` as before the sweep. */
  lemma CleanupKeepsAnswers(m: OrderedMap<string, SessionData>, id: string, now: int)
    requires m.Valid()
    ensures forall k :: k in Without(m, ExpiredAt(now)).entries ==> !Expired(Without(m, ExpiredAt(now)).entries[k], now)
    ensures Validity(Without(m, ExpiredAt(now)), id, now) == Validity(m, id, now)
  {
  }

  /** A session is listed by `getActiveSessions(u)` exactly when some id maps to it, it
      belongs to `u` and it is active. */
  lemma {:induction false} ActiveSessionsMembers(m: OrderedMap<string, SessionData>, userId: int, s: SessionData)
    requires m.Valid()
    ensures s in ActiveSessions(m, userId)
        <==> (exists k :: k in m.entries && m.entries[k] == s) && s.userId == userId && s.isActive
  {
    var values := m.Values();
    FilterMembers(values, ActiveOf(userId), s);
    if s in values {
      var j :| 0 <= j < |values| && values[j] == s;
      assert m.entries[m.keys[j]] == s;
    }
    if exists k :: k in m.entries && m.entries[k] == s {
      var k :| k in m.entries && m.entries[k] == s;
      var j :| 0 <= j < |m.keys| && m.keys[j] == k;
      assert values[j] == s;
    }
  }

  /** After `destroyAllUserSessions(u)` the user has no session left to list. */
  lemma {:induction false} DestroyedUserHasNone(m: OrderedMap<string, SessionData>, userId: int)
    requires m.Valid()
    ensures Without(m, OwnedBy(userId)).Valid()
    ensures ActiveSessions(Without(m, OwnedBy(userId)), userId) == []
  {
    var r := Without(m, OwnedBy(userId));
    var listed := ActiveSessions(r, userId);
    if listed != [] {
      ActiveSessionsMembers(r, userId, listed[0]);
      assert false;
    }
  }

  /** The request passes `validateSession` exactly when it names a valid session; that
      session is then good for another full 24 hours. A refused request leaves at most
      the expired session removed. */
  lemma ValidatedIffValid(m: OrderedMap<string, SessionData>, header: Option<string>, bound: Option<string>, now: int, later: int)
    requires m.Valid() && now <= later
    ensures var id := ResolveSessionId(header, bound);
      && (Validated(m, header, bound, now).0.Next? <==> id.Some? && Validity(m, id.value, now))
      && (id.None? ==> Validated(m, header, bound, now) == (Respond(401, "SESSION_REQUIRED"), m))
      && (id.Some? && !Validity(m, id.value, now) ==>
            Validated(m, header, bound, now) == (Respond(401, "SESSION_INVALID"), Checked(m, id.value, now)))
      && (Validated(m, header, bound, now).0.Next? ==>
            (Validity(Validated(m, header, bound, now).1, id.value, later) <==> later <= now + MAX_INACTIVE_TIME))
  {
  }

  // ---------------------------------------------------------------------------
  // The manager.

  class SessionManager {
    var store: OrderedMap<string, SessionData>

    predicate Valid()
      reads this
    {
      store.Valid()
    }

    constructor()
      ensures Valid() && store == Empty()
    {
      store := Empty();
    }

    /** `createSession`: store the record under `sessionId`, replacing any earlier one. */
    method CreateSession(sessionId: string, data: NewSession, now: int)
      requires Valid()
      modifies this
      ensures Valid()
      ensures store == old(store).Set(sessionId, Opened(data, now))
    {
      store := store.Set(sessionId, Opened(data, now));
    }

    /** `getSession`: the stored record, or null. */
    method GetSession(sessionId: string) returns (r: Option<SessionData>)
      requires Valid()
      ensures r.Some? <==> sessionId in store.entries
      ensures r.Some? ==> r.value == store.entries[sessionId]
    {
      r := store.Get(sessionId);
    }

    /** `updateSession`. */
    method UpdateSession(sessionId: string, updates: SessionUpdate, now: int)
      requires Valid()
      modifies this
      ensures Valid()
      ensures store == Updated(old(store), sessionId, updates, now)
    {
      var existing := GetSession(sessionId);
      if existing.None? {
        return;
      }
      store := store.Set(sessionId, Merge(existing.value, updates, now));
    }

    /** `destroySession`. */
    method DestroySession(sessionId: string)
      requires Valid()
      modifies this
      ensures Valid()
      ensures store == old(store).Delete(sessionId)
    {
      store := store.Delete(sessionId);
    }

    /** `destroyAllUserSessions`: walk the entries, deleting those of the user. */
    method DestroyAllUserSessions(userId: int)
      requires Valid()
      modifies this
      ensures Valid()
      ensures store == Without(old(store), OwnedBy(userId))
    {
      store := DeleteWhere(store, OwnedBy(userId));
    }

    /** `isSessionValid`. */
    method IsSessionValid(sessionId: string, now: int) returns (valid: bool)
      requires Valid()
      modifies this
      ensures Valid()
      ensures valid == Validity(old(store), sessionId, now)
      ensures store == Checked(old(store), sessionId, now)
    {
      var session := GetSession(sessionId);
      if session.None? || !session.value.isActive {
        return false;
      }
      if now - session.value.lastActivity > MAX_INACTIVE_TIME {
        DestroySession(sessionId);
        return false;
      }
      return true;
    }

    /** `cleanupExpiredSessions`: walk the entries, deleting the expired ones. */
    method CleanupExpiredSessions(now: int)
      requires Valid()
      modifies this
      ensures Valid()
      ensures store == Without(old(store), ExpiredAt(now))
    {
      store := DeleteWhere(store, ExpiredAt(now));
    }

    /** `getActiveSessions`: collect the user's active records in map order. */
    method GetActiveSessions(userId: int) returns (sessions: seq<SessionData>)
      requires Valid()
      ensures sessions == ActiveSessions(store, userId)
    {
      var values := store.Values();
      sessions := [];
      var i := 0;
      while i < |values|
        invariant 0 <= i <= |values|
        invariant sessions == Filter(values[..i], ActiveOf(userId))
      {
        var session := values[i];
        assert values[..i + 1][..i] == values[..i];
        if session.userId == userId && session.isActive {
          sessions := sessions + [session];
        }
        i := i + 1;
      }
      assert values[..i] == values;
    }

    /** `validateSession`: resolve the id, check it, and refresh it when it passes. The
        id the request carries on is returned alongside the reply. */
    method ValidateSession(header: Option<string>, bound: Option<string>, now: int)
      returns (reply: Reply, sessionId: Option<string>)
      requires Valid()
      modifies this
      ensures Valid()
      ensures (reply, store) == Validated(old(store), header, bound, now)
      ensures reply.Next? ==> sessionId == ResolveSessionId(header, bound)
    {
      sessionId := ResolveSessionId(header, bound);
      if sessionId.None? {
        return Respond(401, "SESSION_REQUIRED"), sessionId;
      }
      var isValid := IsSessionValid(sessionId.value, now);
      if !isValid {
        return Respond(401, "SESSION_INVALID"), sessionId;
      }
      UpdateSession(sessionId.value, SessionUpdate(None, None, None, None, Some(now), None, None, None), now);
      reply := Next;
    }
  }
}
