/** Sessions and principals. Tokens are stored as digests; token and session ids are fresh random strings. */
module AuthService {
  import opened Prelude
  import opened MailRecords
  import opened IdentityState
  import opened Permissions

  datatype Limits = Limits(sessionTtl: int, idleTtl: int)

  /** Revoked, past its absolute end, or idle too long: reasons that nothing can undo. */
  predicate Dead(s: Session, limits: Limits, at: int) {
    s.revokedAt.Some? || at >= s.expiresAt || at - s.lastSeenAt > limits.idleTtl
  }

  predicate ActiveUser(users: Users, id: string) {
    id in users && users[id].active
  }

  ghost predicate Resolves(users: Users, sessions: Sessions, limits: Limits, token: string, at: int) {
    && HasToken(sessions, Sha256(token))
    && !Dead(SessionOf(sessions, Sha256(token)), limits, at)
    && ActiveUser(users, SessionOf(sessions, Sha256(token)).userId)
  }

  /** The conditions on one session, one by one. */
  predicate Accepted(users: Users, s: Session, limits: Limits, h: Digest, at: int) {
    && s.tokenHash == h && s.revokedAt.None? && at < s.expiresAt && at <= s.lastSeenAt + limits.idleTtl
    && s.userId in users && users[s.userId].active
  }

  /** No other session appears, goes or changes. */
  predicate OthersUnchanged(m: Sessions, m': Sessions, own: set<string>) {
    && (forall id | id in m && id !in own :: id in m' && m'[id] == m[id])
    && (forall id | id in m' && id !in own :: id in m)
  }

  function NewSession(limits: Limits, token: string, sessionId: string, userId: string, tenantId: string,
                      authStrength: string, at: int): Session
  {
    Session(sessionId, userId, tenantId, Sha256(token), authStrength, at, at + limits.sessionTtl, at, None)
  }

  predicate Unused(sessions: Sessions, token: string, sessionId: string) {
    sessionId !in sessions && forall id | id in sessions :: sessions[id].tokenHash != Sha256(token)
  }

  method IssueSession(identity: InMemoryIdentity, limits: Limits, token: string, sessionId: string, userId: string,
                      tenantId: string, authStrength: string, at: int)
    requires identity.Valid() && Unused(identity.sessions, token, sessionId)
    modifies identity`sessions
    ensures identity.Valid()
    ensures identity.sessions
        == old(identity.sessions)[sessionId := NewSession(limits, token, sessionId, userId, tenantId, authStrength, at)]
    ensures identity.sessions[sessionId]
        == Session(sessionId, userId, tenantId, Sha256(token), authStrength, at, at + limits.sessionTtl, at, None)
    ensures var w, c := World(identity.users, old(identity.sessions), at, []),
                        IssueCall(token, sessionId, userId, tenantId, authStrength);
      Enabled(w, c) && identity.sessions == Do(limits, w, c).sessions
  {
    identity.sessions := identity.sessions[sessionId :=
      Session(sessionId, userId, tenantId, Sha256(token), authStrength, at, at + limits.sessionTtl, at, None)];
  }

  method ResolveSession(identity: InMemoryIdentity, limits: Limits, token: string, at: int) returns (r: Option<Session>)
    requires identity.Valid()
    modifies identity`sessions
    ensures identity.Valid()
    ensures r.Some? <==> Resolves(identity.users, old(identity.sessions), limits, token, at)
    ensures r.None? ==> identity.sessions == old(identity.sessions)
    ensures r.Some? ==>
      && r.value == SessionOf(old(identity.sessions), Sha256(token))
      && identity.sessions == Touch(old(identity.sessions), r.value.id, at)
    ensures r.Some? <==> exists id :: id in old(identity.sessions) && Accepted(identity.users,
                                        old(identity.sessions)[id], limits, Sha256(token), at)
    ensures OthersUnchanged(old(identity.sessions), identity.sessions, if r.Some? then {r.value.id} else {})
    ensures r.Some? ==> r.value.id in identity.sessions && identity.sessions[r.value.id] == r.value.(lastSeenAt := at)
    ensures Enabled(World(identity.users, old(identity.sessions), at, []), ResolveCall(token))
    ensures Do(limits, World(identity.users, old(identity.sessions), at, []), ResolveCall(token))
         == World(identity.users, identity.sessions, at, if r.Some? then [Success(r.value.id, at)] else [])
  {
    var session := identity.GetByTokenHash(Sha256(token));
    if session.None? || session.value.revokedAt.Some? { return None; }
    if at >= session.value.expiresAt { return None; }
    if at - session.value.lastSeenAt > limits.idleTtl { return None; }
    if session.value.userId !in identity.users || !identity.users[session.value.userId].active { return None; }
    identity.TouchSession(session.value.id, at);
    return session;
  }

  method Logout(identity: InMemoryIdentity, token: string, at: int)
    requires identity.Valid()
    modifies identity`sessions
    ensures identity.Valid()
    ensures identity.sessions == if HasToken(old(identity.sessions), Sha256(token))
      then Revoke(old(identity.sessions), SessionOf(old(identity.sessions), Sha256(token)).id, at)
      else old(identity.sessions)
    ensures forall limits, later :: !Resolves(identity.users, identity.sessions, limits, token, later)
    ensures forall id | id in old(identity.sessions) && old(identity.sessions)[id].tokenHash != Sha256(token) ::
        id in identity.sessions && identity.sessions[id] == old(identity.sessions)[id]
    ensures Enabled(World(identity.users, old(identity.sessions), at, []), LogoutCall(token))
    ensures forall limits ::
        Do(limits, World(identity.users, old(identity.sessions), at, []), LogoutCall(token))
        == World(identity.users, identity.sessions, at, [])
  {
    var session := identity.GetByTokenHash(Sha256(token));
    if session.Some? && session.value.revokedAt.None? {
      identity.RevokeSession(session.value.id, at);
    }
    if session.Some? { RevokedTokenEnds(identity.users, identity.sessions, session.value.id, token); }
  }

  /** A fresh session for the same user, and the old one revoked. */
  method RotateSession(identity: InMemoryIdentity, limits: Limits, token: string, newToken: string, newId: string,
                       at: int)
    returns (ok: bool)
    requires identity.Valid() && Unused(identity.sessions, newToken, newId)
    modifies identity`sessions
    ensures identity.Valid()
    ensures ok <==> Resolves(identity.users, old(identity.sessions), limits, token, at)
    ensures !ok ==> identity.sessions == old(identity.sessions)
    ensures ok ==>
      var s := SessionOf(old(identity.sessions), Sha256(token));
      identity.sessions == Rotated(old(identity.sessions), limits, s, newToken, newId, at)
    ensures ok ==> forall l, later :: !Resolves(identity.users, identity.sessions, l, token, later)
    ensures ok && limits.sessionTtl > 0 && limits.idleTtl >= 0 ==>
      Resolves(identity.users, identity.sessions, limits, newToken, at)
    ensures ok ==>
      var s := SessionOf(old(identity.sessions), Sha256(token));
      && newId in identity.sessions
      && identity.sessions[newId]
         == Session(newId, s.userId, s.tenantId, Sha256(newToken), s.authStrength, at, at + limits.sessionTtl, at, None)
      && OthersUnchanged(old(identity.sessions), identity.sessions, {s.id, newId})
    ensures Enabled(World(identity.users, old(identity.sessions), at, []), RotateCall(token, newToken, newId))
    ensures Do(limits, World(identity.users, old(identity.sessions), at, []), RotateCall(token, newToken, newId))
         == World(identity.users, identity.sessions, at,
                  if ok then [Success(SessionOf(old(identity.sessions), Sha256(token)).id, at)] else [])
  {
    var resolved := ResolveSession(identity, limits, token, at);
    if resolved.None? { return false; }
    var s := resolved.value;
    IssueSession(identity, limits, newToken, newId, s.userId, s.tenantId, s.authStrength, at);
    identity.RevokeSession(s.id, at);
    RevokedTokenEnds(identity.users, identity.sessions, s.id, token);
    NewTokenResolves(identity.users, identity.sessions, limits, newId, newToken, at);
    return true;
  }

  /** A session with a stamp of revocation ends its token. */
  lemma RevokedTokenEnds(users: Users, m: Sessions, id: string, token: string)
    requires SessionsKeyed(m) && id in m && m[id].tokenHash == Sha256(token) && m[id].revokedAt.Some?
    ensures forall limits, later :: !Resolves(users, m, limits, token, later)
  {
  }

  lemma NewTokenResolves(users: Users, m: Sessions, limits: Limits, id: string, token: string, at: int)
    requires SessionsKeyed(m) && id in m && m[id].tokenHash == Sha256(token) && ActiveUser(users, m[id].userId)
    requires m[id].revokedAt.None? && m[id].expiresAt == at + limits.sessionTtl && m[id].lastSeenAt == at
    ensures limits.sessionTtl > 0 && limits.idleTtl >= 0 ==> Resolves(users, m, limits, token, at)
  {
  }

  function Rotated(m: Sessions, limits: Limits, s: Session, newToken: string, newId: string, at: int): Sessions {
    var next := NewSession(limits, newToken, newId, s.userId, s.tenantId, s.authStrength, at);
    Revoke(Touch(m, s.id, at)[newId := next], s.id, at)
  }

  // ---- Session runs under a monotone clock ----

  datatype Call =
    | IssueCall(token: string, sessionId: string, userId: string, tenantId: string, authStrength: string)
    | ResolveCall(token: string)
    | RotateCall(token: string, newToken: string, newId: string)
    | LogoutCall(token: string)
    | RevokeAllCall(userId: string)
    | SetUserCall(user: User)
    | TickCall(to: int)

  datatype Success = Success(sessionId: string, at: int)

  /** `successes` lists every time a token was accepted. */
  datatype World = World(users: Users, sessions: Sessions, clock: int, successes: seq<Success>)

  ghost predicate Enabled(w: World, c: Call) {
    match c
    case IssueCall(token, id, _, _, _) => Unused(w.sessions, token, id)
    case RotateCall(_, newToken, newId) => Unused(w.sessions, newToken, newId)
    case TickCall(to) => to >= w.clock
    case _ => true
  }

  ghost function Do(limits: Limits, w: World, c: Call): World {
    match c
    case IssueCall(token, id, user, tenant, strength) =>
      w.(sessions := w.sessions[id := NewSession(limits, token, id, user, tenant, strength, w.clock)])
    case ResolveCall(token) =>
      if !Resolves(w.users, w.sessions, limits, token, w.clock) then w
      else
        var s := SessionOf(w.sessions, Sha256(token));
        w.(sessions := Touch(w.sessions, s.id, w.clock), successes := w.successes + [Success(s.id, w.clock)])
    case RotateCall(token, newToken, newId) =>
      if !Resolves(w.users, w.sessions, limits, token, w.clock) then w
      else
        var s := SessionOf(w.sessions, Sha256(token));
        w.(sessions := Rotated(w.sessions, limits, s, newToken, newId, w.clock),
           successes := w.successes + [Success(s.id, w.clock)])
    case LogoutCall(token) =>
      if HasToken(w.sessions, Sha256(token))
      then w.(sessions := Revoke(w.sessions, SessionOf(w.sessions, Sha256(token)).id, w.clock))
      else w
    case RevokeAllCall(user) => w.(sessions := RevokeAll(w.sessions, user, w.clock))
    case SetUserCall(user) => w.(users := w.users[user.id := user])
    case TickCall(to) => w.(clock := to)
  }

  ghost predicate Legal(limits: Limits, w: World, calls: seq<Call>)
    decreases calls
  {
    calls == [] || (Enabled(w, calls[0]) && Legal(limits, Do(limits, w, calls[0]), calls[1..]))
  }

  ghost function Run(limits: Limits, w: World, calls: seq<Call>): World
    decreases calls
  {
    if calls == [] then w else Run(limits, Do(limits, w, calls[0]), calls[1..])
  }

  /** How one call can change one session. */
  predicate SessionMove(s: Session, s': Session, limits: Limits, clock: int) {
    && s' == s.(lastSeenAt := s'.lastSeenAt, revokedAt := s'.revokedAt)
    && (s.revokedAt.Some? ==> s'.revokedAt.Some?)
    && (s'.lastSeenAt == s.lastSeenAt || (!Dead(s, limits, clock) && s'.lastSeenAt == clock))
  }

  lemma CallMoves(limits: Limits, w: World, c: Call, id: string)
    requires SessionsKeyed(w.sessions) && Enabled(w, c) && id in w.sessions
    ensures id in Do(limits, w, c).sessions
    ensures SessionMove(w.sessions[id], Do(limits, w, c).sessions[id], limits, w.clock)
    ensures Do(limits, w, c).clock >= w.clock
  {
    if c.RotateCall? { RotationMoves(limits, w, c, id); }
  }

  lemma RotationMoves(limits: Limits, w: World, c: Call, id: string)
    requires SessionsKeyed(w.sessions) && Enabled(w, c) && id in w.sessions && c.RotateCall?
    ensures id in Do(limits, w, c).sessions
    ensures SessionMove(w.sessions[id], Do(limits, w, c).sessions[id], limits, w.clock)
  {
  }

  lemma KeyedKept(limits: Limits, w: World, c: Call)
    requires SessionsKeyed(w.sessions) && Enabled(w, c)
    ensures SessionsKeyed(Do(limits, w, c).sessions)
  {
    match c
    case RotateCall(token, newToken, newId) =>
      if Resolves(w.users, w.sessions, limits, token, w.clock) {
        var s := SessionOf(w.sessions, Sha256(token));
        RotatedKeyed(w.sessions, limits, s, newToken, newId, w.clock);
      }
    case _ =>
  }

  lemma RotatedKeyed(m: Sessions, limits: Limits, s: Session, newToken: string, newId: string, at: int)
    requires SessionsKeyed(m) && Unused(m, newToken, newId) && s.id in m && m[s.id] == s
    ensures SessionsKeyed(Rotated(m, limits, s, newToken, newId, at))
  {
    var touched := Touch(m, s.id, at);
    assert SessionsKeyed(touched) && Unused(touched, newToken, newId);
    var added := touched[newId := NewSession(limits, newToken, newId, s.userId, s.tenantId, s.authStrength, at)];
    assert SessionsKeyed(added);
  }

  /** A session dead at some instant is dead at every later one, whatever calls are made meanwhile. */
  lemma {:induction false} DeadStaysDead(limits: Limits, w: World, calls: seq<Call>, id: string)
    requires SessionsKeyed(w.sessions) && Legal(limits, w, calls)
    requires id in w.sessions && Dead(w.sessions[id], limits, w.clock)
    ensures var w' := Run(limits, w, calls);
      SessionsKeyed(w'.sessions) && id in w'.sessions && w'.sessions[id].tokenHash == w.sessions[id].tokenHash
      && Dead(w'.sessions[id], limits, w'.clock)
    decreases calls
  {
    if calls == [] {
    } else {
      CallMoves(limits, w, calls[0], id);
      KeyedKept(limits, w, calls[0]);
      DeadStaysDead(limits, Do(limits, w, calls[0]), calls[1..], id);
    }
  }

  /** So a token refused for revocation, expiry or idleness is refused ever after. */
  lemma RefusedForever(limits: Limits, w: World, calls: seq<Call>, token: string)
    requires SessionsKeyed(w.sessions) && Legal(limits, w, calls)
    requires HasToken(w.sessions, Sha256(token)) && Dead(SessionOf(w.sessions, Sha256(token)), limits, w.clock)
    ensures !Resolves(w.users, w.sessions, limits, token, w.clock)
    ensures var w' := Run(limits, w, calls); !Resolves(w'.users, w'.sessions, limits, token, w'.clock)
  {
    var id :| id in w.sessions && w.sessions[id] == SessionOf(w.sessions, Sha256(token));
    DeadStaysDead(limits, w, calls, id);
  }

  /** A call that ends a token: a logout with it, a rotation of it, or a revocation of all its user's sessions. */
  ghost predicate Ends(w: World, c: Call, limits: Limits, token: string)
    requires HasToken(w.sessions, Sha256(token))
  {
    match c
    case LogoutCall(t) => t == token
    case RotateCall(t, _, _) => t == token && Resolves(w.users, w.sessions, limits, t, w.clock)
    case RevokeAllCall(user) => SessionOf(w.sessions, Sha256(token)).userId == user
    case _ => false
  }

  /** What ends a token ends it for good: it is refused in every later state, whatever calls follow. */
  lemma EndedForGood(limits: Limits, w: World, c: Call, calls: seq<Call>, token: string)
    requires SessionsKeyed(w.sessions) && HasToken(w.sessions, Sha256(token)) && Enabled(w, c)
    requires Ends(w, c, limits, token) && Legal(limits, Do(limits, w, c), calls)
    ensures var w' := Run(limits, Do(limits, w, c), calls); !Resolves(w'.users, w'.sessions, limits, token, w'.clock)
  {
    var id :| id in w.sessions && w.sessions[id] == SessionOf(w.sessions, Sha256(token));
    var w1 := Do(limits, w, c);
    KeyedKept(limits, w, c);
    CallMoves(limits, w, c, id);
    assert w1.sessions[id].revokedAt.Some?;
    RefusedForever(limits, w1, calls, token);
  }

  // ---- When tokens are accepted ----

  /** The instant of the last acceptance among the first n, or the creation. */
  function LastAccepted(successes: seq<Success>, n: nat, id: string, createdAt: int): int
    requires n <= |successes|
  {
    if n == 0 then createdAt
    else if successes[n - 1].sessionId == id then successes[n - 1].at
    else LastAccepted(successes, n - 1, id, createdAt)
  }

  predicate Timely(limits: Limits, successes: seq<Success>, i: nat, s: Session)
    requires i < |successes|
  {
    && successes[i].at < s.createdAt + limits.sessionTtl
    && 0 <= successes[i].at - LastAccepted(successes, i, s.id, s.createdAt) <= limits.idleTtl
  }

  ghost predicate SuccessTracked(limits: Limits, w: World, i: nat)
    requires i < |w.successes|
  {
    w.successes[i].sessionId in w.sessions && Timely(limits, w.successes, i, w.sessions[w.successes[i].sessionId])
  }

  ghost predicate Tracked(limits: Limits, w: World) {
    && SessionsKeyed(w.sessions)
    && (forall i {:trigger SuccessTracked(limits, w, i)} | 0 <= i < |w.successes| :: SuccessTracked(limits, w, i))
    && (forall id | id in w.sessions :: SessionTracked(limits, w, id))
  }

  lemma {:induction false} LastAcceptedPrefix(a: seq<Success>, b: seq<Success>, n: nat, id: string, createdAt: int)
    requires n <= |a| <= |b| && a == b[..|a|]
    ensures LastAccepted(a, n, id, createdAt) == LastAccepted(b, n, id, createdAt)
  {
    if n == 0 {
    } else {
      LastAcceptedPrefix(a, b, n - 1, id, createdAt);
    }
  }

  lemma {:induction false} NeverAccepted(successes: seq<Success>, n: nat, id: string, createdAt: int)
    requires n <= |successes| && forall i | 0 <= i < n :: successes[i].sessionId != id
    ensures LastAccepted(successes, n, id, createdAt) == createdAt
  {
    if n == 0 {
    } else {
      NeverAccepted(successes, n - 1, id, createdAt);
    }
  }

  /** Session s was alive and is accepted now; nobody else is touched. */
  ghost predicate Accepts(limits: Limits, w: World, w': World, s: string) {
    && s in w.sessions && !Dead(w.sessions[s], limits, w.clock)
    && w'.successes == w.successes + [Success(s, w.clock)]
    && forall id | id in w.sessions ::
         id in w'.sessions && w'.sessions[id].lastSeenAt == if id == s then w.clock else w.sessions[id].lastSeenAt
  }

  ghost predicate AcceptsNothing(w: World, w': World) {
    && w'.successes == w.successes
    && forall id | id in w.sessions :: id in w'.sessions && w'.sessions[id].lastSeenAt == w.sessions[id].lastSeenAt
  }

  lemma CallAccepts(limits: Limits, w: World, c: Call)
    requires SessionsKeyed(w.sessions) && Enabled(w, c)
    ensures AcceptsNothing(w, Do(limits, w, c)) || exists s :: Accepts(limits, w, Do(limits, w, c), s)
  {
    if (c.ResolveCall? || c.RotateCall?) && Resolves(w.users, w.sessions, limits, c.token, w.clock) {
      var s := SessionOf(w.sessions, Sha256(c.token)).id;
      assert s in w.sessions && w.sessions[s] == SessionOf(w.sessions, Sha256(c.token));
      assert Accepts(limits, w, Do(limits, w, c), s);
    }
  }

  lemma NewSessions(limits: Limits, w: World, c: Call, id: string)
    requires Enabled(w, c) && id in Do(limits, w, c).sessions && id !in w.sessions
    ensures var s := Do(limits, w, c).sessions[id];
      s.createdAt == w.clock == s.lastSeenAt && s.expiresAt == w.clock + limits.sessionTtl
          && Do(limits, w, c).clock == w.clock
  {
  }

  ghost predicate SessionTracked(limits: Limits, w: World, id: string)
    requires id in w.sessions
  {
    && w.sessions[id].expiresAt == w.sessions[id].createdAt + limits.sessionTtl
    && w.sessions[id].lastSeenAt == LastAccepted(w.successes, |w.successes|, id, w.sessions[id].createdAt)
    && w.sessions[id].lastSeenAt <= w.clock
  }

  lemma OldSessionTracked(limits: Limits, w: World, c: Call, id: string)
    requires Tracked(limits, w) && Enabled(w, c) && id in w.sessions && id in Do(limits, w, c).sessions
    ensures SessionTracked(limits, Do(limits, w, c), id)
  {
    var w' := Do(limits, w, c);
    CallAccepts(limits, w, c);
    assert SessionTracked(limits, w, id);
    CallMoves(limits, w, c, id);
    assert w.successes == w'.successes[..|w.successes|];
    LastAcceptedPrefix(w.successes, w'.successes, |w.successes|, id, w'.sessions[id].createdAt);
  }

  lemma NewSessionTracked(limits: Limits, w: World, c: Call, id: string)
    requires Tracked(limits, w) && Enabled(w, c) && id !in w.sessions && id in Do(limits, w, c).sessions
    ensures SessionTracked(limits, Do(limits, w, c), id)
  {
    var w' := Do(limits, w, c);
    CallAccepts(limits, w, c);
    NewSessions(limits, w, c, id);
    forall i | 0 <= i < |w.successes| ensures w.successes[i].sessionId != id {
      assert SuccessTracked(limits, w, i);
    }
    NeverAccepted(w'.successes, |w'.successes|, id, w'.sessions[id].createdAt);
  }

  lemma SessionTrackedKept(limits: Limits, w: World, c: Call, id: string)
    requires Tracked(limits, w) && Enabled(w, c) && id in Do(limits, w, c).sessions
    ensures SessionTracked(limits, Do(limits, w, c), id)
  {
    if id in w.sessions {
      OldSessionTracked(limits, w, c, id);
    } else {
      NewSessionTracked(limits, w, c, id);
    }
  }

  lemma OldSuccessTimely(limits: Limits, a: seq<Success>, b: seq<Success>, i: nat, s: Session, s': Session)
    requires i < |a| <= |b| && forall j | 0 <= j < |a| :: a[j] == b[j]
    requires Timely(limits, a, i, s) && s'.id == s.id && s'.createdAt == s.createdAt
    ensures Timely(limits, b, i, s')
  {
    TimelyPrefix(a, b, i, s.id, s.createdAt);
  }

  /** A new acceptance is timely because its session was alive. */
  lemma NewSuccessTimely(limits: Limits, w: World, s: string, s': Session)
    requires s in w.sessions && w.sessions[s].id == s && SessionTracked(limits, w, s)
    requires !Dead(w.sessions[s], limits, w.clock)
    requires s'.id == s && s'.createdAt == w.sessions[s].createdAt
    ensures Timely(limits, w.successes + [Success(s, w.clock)], |w.successes|, s')
  {
    TimelyPrefix(w.successes, w.successes + [Success(s, w.clock)], |w.successes|, s, s'.createdAt);
  }

  lemma TimelyPrefix(a: seq<Success>, b: seq<Success>, n: nat, id: string, createdAt: int)
    requires n <= |a| <= |b| && forall i | 0 <= i < |a| :: a[i] == b[i]
    ensures LastAccepted(a, n, id, createdAt) == LastAccepted(b, n, id, createdAt)
  {
    assert a == b[..|a|];
    LastAcceptedPrefix(a, b, n, id, createdAt);
  }

  lemma TrackedKept(limits: Limits, w: World, c: Call)
    requires Tracked(limits, w) && Enabled(w, c)
    ensures Tracked(limits, Do(limits, w, c))
  {
    var w' := Do(limits, w, c);
    KeyedKept(limits, w, c);
    CallAccepts(limits, w, c);
    forall id | id in w.sessions ensures id in w'.sessions && w'.sessions[id].createdAt == w.sessions[id].createdAt {
      CallMoves(limits, w, c, id);
    }
    forall id | id in w'.sessions ensures SessionTracked(limits, w', id) {
      SessionTrackedKept(limits, w, c, id);
    }
    SuccessesTimely(limits, w, w');
  }

  lemma SuccessesTimely(limits: Limits, w: World, w': World)
    requires Tracked(limits, w) && SessionsKeyed(w'.sessions)
    requires AcceptsNothing(w, w') || exists s :: Accepts(limits, w, w', s)
    requires forall id | id in w.sessions :: id in w'.sessions && w'.sessions[id].createdAt == w.sessions[id].createdAt
    ensures forall i {:trigger SuccessTracked(limits, w', i)} | 0 <= i < |w'.successes| :: SuccessTracked(limits, w', i)
  {
    forall i {:trigger SuccessTracked(limits, w', i)} | 0 <= i < |w.successes| ensures SuccessTracked(limits, w', i) {
      assert SuccessTracked(limits, w, i);
      var id := w.successes[i].sessionId;
      OldSuccessTimely(limits, w.successes, w'.successes, i, w.sessions[id], w'.sessions[id]);
    }
    if !AcceptsNothing(w, w') {
      var s :| Accepts(limits, w, w', s);
      NewSuccessTimely(limits, w, s, w'.sessions[s]);
    }
  }

  lemma {:induction false} TrackedAlways(limits: Limits, w: World, calls: seq<Call>)
    requires Tracked(limits, w) && Legal(limits, w, calls)
    ensures Tracked(limits, Run(limits, w, calls))
    decreases calls
  {
    if calls == [] {
    } else {
      TrackedKept(limits, w, calls[0]);
      TrackedAlways(limits, Do(limits, w, calls[0]), calls[1..]);
    }
  }

  /** In every run each acceptance of a session lies before its creation plus the absolute limit, and at
      most one idle limit after the previous acceptance, or after the creation. */
  lemma AcceptancesAreTimely(limits: Limits, users: Users, clock: int, calls: seq<Call>, i: nat)
    requires Legal(limits, World(users, map[], clock, []), calls)
    requires i < |Run(limits, World(users, map[], clock, []), calls).successes|
    ensures var w := Run(limits, World(users, map[], clock, []), calls);
      var id := w.successes[i].sessionId;
      id in w.sessions && Timely(limits, w.successes, i, w.sessions[id])
  {
    TrackedAlways(limits, World(users, map[], clock, []), calls);
    assert SuccessTracked(limits, Run(limits, World(users, map[], clock, []), calls), i);
  }

  // ---- Principals ----

  function RecognisedRoles(roleIds: seq<string>): seq<MailRole> {
    if roleIds == [] then []
    else (if ParseRole(roleIds[0]).Some? then [ParseRole(roleIds[0]).value] else []) + RecognisedRoles(roleIds[1..])
  }

  lemma {:induction false} RecognisedRolesIff(roleIds: seq<string>, r: MailRole)
    ensures r in RecognisedRoles(roleIds) <==> exists id :: id in roleIds && ParseRole(id) == Some(r)
  {
    if roleIds == [] {
    } else {
      RecognisedRolesIff(roleIds[1..], r);
      assert forall id :: id in roleIds <==> id == roleIds[0] || id in roleIds[1..];
    }
  }

  function LiveGrants(permissionIds: seq<string>): seq<MailPermission> {
    if permissionIds == [] then []
    else
      var p := ParsePermission(permissionIds[0]);
      (if p.Some? && p.value !in REFUSED_SERVICE_GRANTS then [p.value] else []) + LiveGrants(permissionIds[1..])
  }

  lemma {:induction false} LiveGrantsIff(permissionIds: seq<string>, p: MailPermission)
    ensures p in LiveGrants(permissionIds)
        <==> p !in REFUSED_SERVICE_GRANTS && exists id :: id in permissionIds && ParsePermission(id) == Some(p)
  {
    if permissionIds == [] {
    } else {
      LiveGrantsIff(permissionIds[1..], p);
      assert forall id :: id in permissionIds <==> id == permissionIds[0] || id in permissionIds[1..];
    }
  }

  /** The workspaces and per-workspace roles of a user principal are those of its active rows. */
  ghost predicate RolesOfRows(m: Memberships, userId: string, tenantId: string, workspaceIds: seq<string>,
                              roles: map<string, seq<MailRole>>)
  {
    && (forall k | ActiveRow(m, k, userId, tenantId) ::
          m[k].workspaceId in workspaceIds && m[k].workspaceId in roles
              && roles[m[k].workspaceId] == RecognisedRoles(m[k].roleIds))
    && (forall w | w in workspaceIds || w in roles ::
         exists k :: ActiveRow(m, k, userId, tenantId) && m[k].workspaceId == w)
  }

  ghost predicate IsActiveService(services: Services, h: Digest, s: Service) {
    exists id :: id in services && services[id] == s && s.active && s.credentialHash == h
  }

  /** The principal a token stands for. */
  ghost predicate Stands(users: Users, memberships: Memberships, services: Services, sessions: Sessions,
                         limits: Limits, token: string, at: int, p: Option<Principal>)
  {
    if Resolves(users, sessions, limits, token, at) then
      var s := SessionOf(sessions, Sha256(token));
      && p.Some? && p.value.UserPrincipal? && p.value.userId == s.userId && p.value.tenantId == s.tenantId
      && p.value.sessionId == s.id
      && p.value.workspaceRoles.Some?
      && RolesOfRows(memberships, s.userId, s.tenantId, p.value.workspaceIds, p.value.workspaceRoles.value)
    else if p.Some? then
      && p.value.ServicePrincipal?
      && exists s :: IsActiveService(services, Sha256(token), s) && s.tenantId == Some(p.value.tenantId)
           && Truthy(s.tenantId)
           && p.value.serviceId == s.name
           && p.value.workspaceIds == s.workspaceIds && p.value.grants == LiveGrants(s.permissionIds)
    else forall s :: IsActiveService(services, Sha256(token), s) ==> !Truthy(s.tenantId)
  }

  method PrincipalForToken(identity: InMemoryIdentity, limits: Limits, token: string, at: int)
    returns (p: Option<Principal>)
    requires identity.Valid()
    modifies identity`sessions
    ensures identity.Valid()
    ensures Stands(identity.users, identity.memberships, identity.services, old(identity.sessions),
                   limits, token, at, p)
    ensures p.Some? && p.value.UserPrincipal? ==>
      forall r :: r in p.value.roles <==> HoldsRole(identity.memberships, p.value.userId, p.value.tenantId, r)
  {
    var resolved := ResolveSession(identity, limits, token, at);
    if resolved.Some? {
      var s := resolved.value;
      var rows := identity.ListActiveForUser(s.userId, s.tenantId);
      var workspaceIds, workspaceRoles := CollectRoles(identity.memberships, s.userId, s.tenantId, rows);
      var roles := FlatRoles(workspaceIds, workspaceRoles);
      forall r ensures r in roles <==> HoldsRole(identity.memberships, s.userId, s.tenantId, r) {
        FlatRolesAreHeld(identity.memberships, s.userId, s.tenantId, workspaceIds, workspaceRoles, r);
      }
      return Some(UserPrincipal(s.userId, s.tenantId, workspaceIds, roles, Some(workspaceRoles), s.id));
    }
    var service := identity.FindActiveByCredentialHash(Sha256(token));
    if service.Some? && Truthy(service.value.tenantId) {
      assert IsActiveService(identity.services, Sha256(token), service.value);
      return Some(ServicePrincipal(service.value.name, service.value.tenantId.value, service.value.workspaceIds,
          LiveGrants(service.value.permissionIds)));
    }
    return None;
  }

  method CollectRoles(ghost m: Memberships, ghost userId: string, ghost tenantId: string, rows: seq<Membership>)
    returns (workspaceIds: seq<string>, workspaceRoles: map<string, seq<MailRole>>)
    requires MembershipsKeyed(m)
    requires forall k | ActiveRow(m, k, userId, tenantId) :: m[k] in rows
    requires forall r | r in rows :: exists k :: ActiveRow(m, k, userId, tenantId) && m[k] == r
    ensures RolesOfRows(m, userId, tenantId, workspaceIds, workspaceRoles)
  {
    workspaceIds, workspaceRoles := [], map[];
    for i := 0 to |rows|
      invariant forall w :: w in workspaceIds <==> w in workspaceRoles
      invariant forall j | 0 <= j < i ::
          rows[j].workspaceId in workspaceRoles
          && workspaceRoles[rows[j].workspaceId] == RecognisedRoles(rows[j].roleIds)
      invariant forall w | w in workspaceRoles :: exists j :: 0 <= j < i && rows[j].workspaceId == w
    {
      forall j | 0 <= j < i && rows[j].workspaceId == rows[i].workspaceId ensures rows[j] == rows[i] {
        SameRow(m, userId, tenantId, rows, j, i);
      }
      workspaceIds := workspaceIds + [rows[i].workspaceId];
      workspaceRoles := workspaceRoles[rows[i].workspaceId := RecognisedRoles(rows[i].roleIds)];
    }
    forall w | w in workspaceIds || w in workspaceRoles
      ensures exists k :: ActiveRow(m, k, userId, tenantId) && m[k].workspaceId == w
    {
      var j :| 0 <= j < |rows| && rows[j].workspaceId == w;
      assert rows[j] in rows;
    }
  }

  /** One user has one row per workspace of a tenant. */
  lemma SameRow(m: Memberships, userId: string, tenantId: string, rows: seq<Membership>, j: int, i: int)
    requires MembershipsKeyed(m) && 0 <= j < |rows| && 0 <= i < |rows| && rows[j].workspaceId == rows[i].workspaceId
    requires forall r | r in rows :: exists k :: ActiveRow(m, k, userId, tenantId) && m[k] == r
    ensures rows[j] == rows[i]
  {
    assert rows[j] in rows && rows[i] in rows;
    var k :| ActiveRow(m, k, userId, tenantId) && m[k] == rows[j];
    var l :| ActiveRow(m, l, userId, tenantId) && m[l] == rows[i];
  }

  function FlatRoles(workspaceIds: seq<string>, workspaceRoles: map<string, seq<MailRole>>): seq<MailRole> {
    if workspaceIds == [] then []
    else
      (if workspaceIds[0] in workspaceRoles then workspaceRoles[workspaceIds[0]] else [])
      + FlatRoles(workspaceIds[1..], workspaceRoles)
  }

  /** Some active row of the user carries the role. */
  ghost predicate HoldsRole(m: Memberships, userId: string, tenantId: string, r: MailRole) {
    exists k :: ActiveRow(m, k, userId, tenantId) && r in RecognisedRoles(m[k].roleIds)
  }

  lemma {:induction false} FlatRolesIff(ids: seq<string>, roles: map<string, seq<MailRole>>, r: MailRole)
    ensures r in FlatRoles(ids, roles) <==> exists w :: w in ids && w in roles && r in roles[w]
  {
    if ids == [] {
    } else {
      FlatRolesIff(ids[1..], roles, r);
      assert forall w :: w in ids <==> w == ids[0] || w in ids[1..];
    }
  }

  lemma FlatRolesAreHeld(m: Memberships, userId: string, tenantId: string, ids: seq<string>,
                         roles: map<string, seq<MailRole>>, r: MailRole)
    requires RolesOfRows(m, userId, tenantId, ids, roles)
    ensures r in FlatRoles(ids, roles) <==> HoldsRole(m, userId, tenantId, r)
  {
    FlatRolesIff(ids, roles, r);
    if w :| w in ids && w in roles && r in roles[w] {
      var k :| ActiveRow(m, k, userId, tenantId) && m[k].workspaceId == w;
    }
  }

  // ---- Authorization is exactly membership ----

  ghost predicate MemberMay(m: Memberships, userId: string, permission: MailPermission, target: TenantScope) {
    exists k, roleId :: ActiveRow(m, k, userId, target.tenantId) && m[k].workspaceId == target.workspaceId
      && roleId in m[k].roleIds && RoleIdGrants(roleId, permission)
  }

  ghost predicate ServiceMay(s: Service, permission: MailPermission, target: TenantScope) {
    && s.tenantId == Some(target.tenantId) && target.workspaceId in s.workspaceIds
    && match permission
       case ConnectionRead => "mail.connection.read" in s.permissionIds
       case ConnectionTest => "mail.connection.test" in s.permissionIds
       case DraftApprove => "mail.draft.approve" in s.permissionIds
       case _ => false
  }

  /** For the principal of an accepted session, authorization succeeds exactly when the user has an active
      membership row in the target workspace with a recognised role granting the permission; the flat
      role list is never consulted. */
  lemma UserAuthorizationIsMembership(users: Users, memberships: Memberships, services: Services, sessions: Sessions,
                                      limits: Limits, token: string, at: int, p: Principal, permission: MailPermission,
                                      target: TenantScope)
    requires MembershipsKeyed(memberships)
    requires Stands(users, memberships, services, sessions, limits, token, at, Some(p))
    requires Resolves(users, sessions, limits, token, at)
    ensures AuthorizeMail(p, permission, target).None? <==>
      && SessionOf(sessions, Sha256(token)).tenantId == target.tenantId
      && MemberMay(memberships, SessionOf(sessions, Sha256(token)).userId, permission, target)
    ensures target.workspaceId in p.workspaceIds ==> HasWorkspaceRoles(p, target.workspaceId)
  {
    var user, tenant, ws := p.userId, p.tenantId, target.workspaceId;
    if tenant == target.tenantId && ws in p.workspaceIds {
      var k :| ActiveRow(memberships, k, user, tenant) && memberships[k].workspaceId == ws;
      var roles := RecognisedRoles(memberships[k].roleIds);
      PermissionsOfRolesIff(roles, permission);
      forall r ensures r in roles <==> exists id :: id in memberships[k].roleIds && ParseRole(id) == Some(r) {
        RecognisedRolesIff(memberships[k].roleIds, r);
      }
      forall id | id in memberships[k].roleIds
        ensures RoleIdGrants(id, permission)
            <==> ParseRole(id).Some? && permission in RolePermissions(ParseRole(id).value)
      {
        RoleIdGrantsIff(id, permission);
      }
      forall k' | ActiveRow(memberships, k', user, tenant) && memberships[k'].workspaceId == ws ensures k' == k {
      }
    }
  }

  /** For a service principal: exactly its stored grants, less the refused ones, in its own workspaces. */
  lemma ServiceAuthorizationIsGrants(users: Users, memberships: Memberships, services: Services, sessions: Sessions,
                                     limits: Limits, token: string, at: int, p: Principal, permission: MailPermission,
                                     target: TenantScope)
    requires ServicesKeyed(services)
    requires Stands(users, memberships, services, sessions, limits, token, at, Some(p))
    requires !Resolves(users, sessions, limits, token, at)
    ensures AuthorizeMail(p, permission, target).None? <==>
            exists s :: IsActiveService(services, Sha256(token), s) && Truthy(s.tenantId)
                && ServiceMay(s, permission, target)
  {
    var s :| IsActiveService(services, Sha256(token), s) && s.tenantId == Some(p.tenantId) && Truthy(s.tenantId)
      && p.workspaceIds == s.workspaceIds && p.grants == LiveGrants(s.permissionIds);
    GrantsDecide(p, s, permission, target);
    forall s' | IsActiveService(services, Sha256(token), s') ensures s' == s {
      OneActiveService(services, Sha256(token), s, s');
    }
  }

  lemma GrantsDecide(p: Principal, s: Service, permission: MailPermission, target: TenantScope)
    requires p.ServicePrincipal? && s.tenantId == Some(p.tenantId) && p.workspaceIds == s.workspaceIds
    requires p.grants == LiveGrants(s.permissionIds)
    ensures AuthorizeMail(p, permission, target).None? <==> ServiceMay(s, permission, target)
  {
    LiveGrantsIff(s.permissionIds, permission);
  }

  lemma OneActiveService(services: Services, h: Digest, s: Service, s': Service)
    requires ServicesKeyed(services) && IsActiveService(services, h, s) && IsActiveService(services, h, s')
    ensures s == s'
  {
  }

  /** In no state does any token authorize mail.send.execute, whatever rows the stores hold. */
  lemma NobodyMaySend(users: Users, memberships: Memberships, services: Services, sessions: Sessions, limits: Limits,
                      token: string, at: int, p: Principal, target: TenantScope)
    requires MembershipsKeyed(memberships) && ServicesKeyed(services)
    requires Stands(users, memberships, services, sessions, limits, token, at, Some(p))
    ensures AuthorizeMail(p, SendExecute, target).Some?
  {
    if Resolves(users, sessions, limits, token, at) {
      UserAuthorizationIsMembership(users, memberships, services, sessions, limits, token, at, p, SendExecute, target);
    } else {
      ServiceAuthorizationIsGrants(users, memberships, services, sessions, limits, token, at, p, SendExecute, target);
    }
  }

  /** Ids and permissions name each other. */
  lemma PermissionIdParses(id: string, p: MailPermission)
    ensures ParsePermission(id) == Some(p) <==> id == PermissionId(p)
  {
  }

  function PermissionId(p: MailPermission): string {
    match p
    case ConnectionRead => "mail.connection.read"
    case ConnectionTest => "mail.connection.test"
    case ConnectionCreate => "mail.connection.create"
    case ConnectionDisconnect => "mail.connection.disconnect"
    case DraftApprove => "mail.draft.approve"
    case SendExecute => "mail.send.execute"
  }

  /** Registration refuses the first forbidden grant and then stores nothing. */
  method RegisterServiceIdentity(identity: InMemoryIdentity, id: string, serviceToken: string, name: string,
                                 tenantId: string, workspaceIds: seq<string>, grants: seq<MailPermission>)
    returns (refused: Option<MailPermission>)
    requires identity.Valid() && id !in identity.services
    requires forall k | k in identity.services :: identity.services[k].credentialHash != Sha256(serviceToken)
    modifies identity`services
    ensures identity.Valid()
    ensures refused.Some? <==> ConnectionCreate in grants || ConnectionDisconnect in grants || SendExecute in grants
    ensures refused.Some? ==>
      && refused.value in {ConnectionCreate, ConnectionDisconnect, SendExecute}
      && (exists i :: 0 <= i < |grants| && grants[i] == refused.value
            && forall j | 0 <= j < i :: grants[j] !in {ConnectionCreate, ConnectionDisconnect, SendExecute})
      && identity.services == old(identity.services)
    ensures refused.None? ==>
      && identity.services.Keys == old(identity.services).Keys + {id}
      && (forall k | k in old(identity.services) :: identity.services[k] == old(identity.services)[k])
      && var s := identity.services[id];
         s.id == id && s.name == name && s.active && s.tenantId == Some(tenantId) && s.workspaceIds == workspaceIds
             && s.credentialHash == Sha256(serviceToken)
         && |s.permissionIds| == |grants|
              && forall i | 0 <= i < |grants| :: ParsePermission(s.permissionIds[i]) == Some(grants[i])
  {
    for i := 0 to |grants|
      invariant forall j | 0 <= j < i :: grants[j] !in REFUSED_SERVICE_GRANTS
    {
      if grants[i] in REFUSED_SERVICE_GRANTS { return Some(grants[i]); }
    }
    var ids := seq(|grants|, i requires 0 <= i < |grants| => PermissionId(grants[i]));
    identity.services := identity.services[id :=
        Service(id, Some(tenantId), name, workspaceIds, ids, Sha256(serviceToken), true)];
    return None;
  }
}
