/** The Google connect callback with its rollback, and disconnect. */
module GoogleConnect {
  import opened Prelude
  import opened MailRecords
  import opened EnvelopeEncryption
  import opened MailState
  import opened OAuthStates
  import opened CredentialVault
  import opened Separators
  import Spec = MemorySpec

  datatype Tokens = Tokens(accessToken: string, refreshToken: Option<string>, expiresIn: int,
      grantedScopes: seq<string>)

  /** How a store call can end: done, thrown without effect, or thrown after taking effect. */
  datatype StoreAnswer = Stored | ThrewBefore | ThrewAfter

  datatype CallbackInput = CallbackInput(stateValue: string, redirectUri: string, expectedSessionId: string,
      expectedTenantId: Option<string>)

  /** What one callback meets: clock, Google, key wrapper, stores and audit. */
  datatype Surroundings = Surroundings(
    now: int, keyId: string,
    exchange: Result<Tokens, string>,
    mailbox: Option<string>,
    random: Randomness, wrapFails: bool,
    credentialSave: StoreAnswer, connectionSave: StoreAnswer,
    auditPersists: bool, replyValid: bool, failureAuditPersists: bool)

  datatype ConnectError = StateRejected(reason: FlowError) | TenantMismatch | ExchangeFailed | NoRefreshToken
      | ConnectFailed

  function ConnectionIdFor(scope: TenantScope, userId: string, email: string): string {
    scope.tenantId + ":" + scope.workspaceId + ":" + userId + ":google:" + email
  }

  /** The four stores the connect plane works on. */
  datatype Plane = Plane(oauthStates: Spec.OAuthStates, credentials: Spec.Credentials, connections: Spec.Connections,
      approvals: Spec.Approvals)

  ghost function PlaneOf(s: InMemoryMailState): Plane
    reads s
  {
    Plane(s.oauthStates, s.credentials, s.connections, s.approvals)
  }

  // ---- Callback ----

  /** The callback up to the moment the mailbox identity is known: the one-time state is spent on the way. */
  function Identified(c: Crypto, kms: Kms, p: Plane, input: CallbackInput,
                      env: Surroundings): (r: (Spec.OAuthStates, Result<NewCredential, ConnectError>))
  {
    var (states, reply) := Spec.Consume(p.oauthStates, StateHash(input.stateValue), input.redirectUri,
        input.expectedSessionId, env.now);
    (states,
     if reply.Err? then Err(StateRejected(Rejected(reply.error)))
     else
       match Consumed(c, kms, reply.value)
       case Err(e) => Err(StateRejected(e))
       case Ok(s) =>
         if Truthy(input.expectedTenantId) && s.scope.tenantId != input.expectedTenantId.value then Err(TenantMismatch)
         else if env.exchange.Err? then Err(ExchangeFailed)
         else if !Truthy(env.exchange.value.refreshToken) then Err(NoRefreshToken)
         else if env.mailbox.None? then Err(ConnectFailed)
         else Ok(NewCredential(ConnectionIdFor(s.scope, s.userId, env.mailbox.value), s.scope, s.userId,
           env.exchange.value.refreshToken.value, env.exchange.value.grantedScopes, env.mailbox.value,
           Some(env.now + env.exchange.value.expiresIn * 1000))))
  }

  /** Every later point of failure is quiet. */
  predicate Commits(env: Surroundings) {
    !env.wrapFails && env.credentialSave.Stored? && env.connectionSave.Stored? && env.auditPersists && env.replyValid
  }

  /** The token to be revoked at Google after a failed callback: none before the exchange has succeeded. */
  function ToRevoke(env: Surroundings, e: ConnectError): Option<string> {
    match e
    case NoRefreshToken => if env.exchange.Ok? then Some(env.exchange.value.accessToken) else None
    case ConnectFailed => if env.exchange.Ok? then env.exchange.value.refreshToken else None
    case _ => None
  }

  function ConnectionOf(n: NewCredential, at: int): Connection {
    Connection(n.connectionId, n.scope, n.userId, "google", n.connectedEmail, "oauth", "connected", at)
  }

  function Callback(c: Crypto, kms: Kms, p: Plane, input: CallbackInput,
                    env: Surroundings): (r: (Plane, Result<string, ConnectError>))
  {
    var (states, identified) := Identified(c, kms, p, input, env);
    var spent := p.(oauthStates := states);
    if identified.Err? then (spent, Err(identified.error))
    else
      var n := identified.value;
      if Commits(env) then
        (spent.(credentials := p.credentials[n.connectionId := Sealed(c, kms, n, env.random)],
                connections := p.connections[n.connectionId := ConnectionOf(n, env.now)]), Ok(n.connectionId))
      else
        (spent.(credentials := p.credentials - {n.connectionId}, connections := p.connections - {n.connectionId}),
            Err(ConnectFailed))
  }

  /** The state presented: accepted, and its verifier opened. */
  ghost predicate Presented(c: Crypto, kms: Kms, p: Plane, input: CallbackInput, env: Surroundings, s: OAuthState) {
    && StateHash(input.stateValue) in p.oauthStates && p.oauthStates[StateHash(input.stateValue)] == s
    && s.consumedAt.None? && env.now <= s.expiresAt
    && s.redirectUri == input.redirectUri && s.sessionId == input.expectedSessionId
    && Open(c, kms, s.codeVerifierEncrypted).Ok?
  }

  /** The first half of a callback fails for its state exactly when none is presented, and otherwise case by
      case in the order of its checks. */
  lemma UnpresentedRejected(c: Crypto, kms: Kms, p: Plane, input: CallbackInput, env: Surroundings)
    requires forall s :: !Presented(c, kms, p, input, env, s)
    ensures var r := Identified(c, kms, p, input, env).1; r.Err? && r.error.StateRejected?
  {
    if StateHash(input.stateValue) in p.oauthStates {
      assert !Presented(c, kms, p, input, env, p.oauthStates[StateHash(input.stateValue)]);
    }
  }

  lemma IdentifiedFrom(c: Crypto, kms: Kms, p: Plane, input: CallbackInput, env: Surroundings, s: OAuthState)
    requires Presented(c, kms, p, input, env, s)
    ensures var r := Identified(c, kms, p, input, env).1;
      var ours := input.expectedTenantId.Some? && input.expectedTenantId.value != "" ==>
        input.expectedTenantId.value == s.scope.tenantId;
      && !(r.Err? && r.error.StateRejected?)
      && (r == Err(TenantMismatch) <==> !ours)
      && (r == Err(ExchangeFailed) <==> ours && env.exchange.Err?)
      && (r == Err(NoRefreshToken) <==>
           && ours && env.exchange.Ok?
           && (env.exchange.value.refreshToken.Some? ==> env.exchange.value.refreshToken.value == ""))
      && (r == Err(ConnectFailed) ==> env.exchange.Ok? && env.mailbox.None?)
      && (r.Ok? ==> Knows(r.value, s, env))
  {
  }

  /** What is known at the end of the first half. */
  predicate Knows(n: NewCredential, s: OAuthState, env: Surroundings) {
    && env.exchange.Ok? && env.mailbox.Some? && Some(n.refreshToken) == env.exchange.value.refreshToken
    && n.scope == s.scope && n.userId == s.userId && n.connectedEmail == env.mailbox.value
    && n.connectionId == ConnectionIdFor(s.scope, s.userId, env.mailbox.value)
    && n.grantedScopes == env.exchange.value.grantedScopes
    && n.accessTokenExpiresAt == Some(env.now + 1000 * env.exchange.value.expiresIn)
  }

  /** Which token goes back to Google after a failure: the access token when no refresh token came with it, the
      refresh token when anything later failed, and none before the exchange. */
  lemma GivenBack(c: Crypto, kms: Kms, p: Plane, input: CallbackInput, env: Surroundings, e: ConnectError)
    requires Callback(c, kms, p, input, env).1 == Err(e)
    ensures e == NoRefreshToken ==> env.exchange.Ok? && ToRevoke(env, e) == Some(env.exchange.value.accessToken)
    ensures e == ConnectFailed ==>
      && env.exchange.Ok? && env.exchange.value.refreshToken.Some?
      && ToRevoke(env, e) == env.exchange.value.refreshToken
    ensures e !in {NoRefreshToken, ConnectFailed} ==> ToRevoke(env, e) == None
  {
  }

  function FailureEvents(scope: TenantScope, env: Surroundings): seq<AuditEvent> {
    if env.failureAuditPersists then [AuditEvent(scope, None, "google.connect_failed")] else []
  }

  /** The first half: spend the state, ask Google, learn the mailbox. */
  method Identify(state: InMemoryMailState, c: Crypto, kms: Kms, input: CallbackInput, env: Surroundings)
    returns (r: Result<NewCredential, ConnectError>, revoked: Option<string>)
    modifies state`oauthStates, state`audit
    ensures (state.oauthStates, r) == Identified(c, kms, old(PlaneOf(state)), input, env)
    ensures revoked == if r.Err? then ToRevoke(env, r.error) else None
    ensures r.Ok? ==> env.exchange.Ok? && env.exchange.value.refreshToken == Some(r.value.refreshToken)
    ensures r.Ok? || r.error !in {NoRefreshToken, ConnectFailed} ==> state.audit == old(state.audit)
    ensures r.Err? && r.error in {NoRefreshToken, ConnectFailed} ==>
      && StateHash(input.stateValue) in old(state.oauthStates)
      && state.audit == old(state.audit)
           + FailureEvents(old(state.oauthStates)[StateHash(input.stateValue)].scope, env)
  {
    var consumed := ConsumeOAuthState(state, c, kms, input.stateValue, input.redirectUri, input.expectedSessionId,
        env.now);
    if consumed.Err? { return Err(StateRejected(consumed.error)), None; }
    var flow := consumed.value;
    if Truthy(input.expectedTenantId) && flow.scope.tenantId != input.expectedTenantId.value {
      return Err(TenantMismatch), None;
    }
    if env.exchange.Err? { return Err(ExchangeFailed), None; }
    var tokens := env.exchange.value;
    if !Truthy(tokens.refreshToken) {
      AuditFailure(state, flow.scope, env);
      return Err(NoRefreshToken), Some(tokens.accessToken);
    }
    if env.mailbox.None? {
      AuditFailure(state, flow.scope, env);
      return Err(ConnectFailed), tokens.refreshToken;
    }
    var email := env.mailbox.value;
    return Ok(NewCredential(ConnectionIdFor(flow.scope, flow.userId, email), flow.scope, flow.userId,
      tokens.refreshToken.value, tokens.grantedScopes, email, Some(env.now + tokens.expiresIn * 1000))), None;
  }

  /** The callback as it runs, store call by store call, with the rollback of its catch clause. */
  method HandleGoogleCallback(state: InMemoryMailState, c: Crypto, kms: Kms, input: CallbackInput, env: Surroundings)
    returns (r: Result<string, ConnectError>, revoked: Option<string>)
    modifies state`oauthStates, state`credentials, state`connections, state`audit
    ensures revoked == if r.Err? then ToRevoke(env, r.error) else None
    ensures (PlaneOf(state), r) == Callback(c, kms, old(PlaneOf(state)), input, env)
    ensures WellSized(env.random) ==> LegalEvent(CallbackEvent(input, env))
    ensures PlaneOf(state) == Happen(c, _ => kms, old(PlaneOf(state)), CallbackEvent(input, env))
    ensures r.Ok? ==>
      && |state.audit| == |old(state.audit)| + 1
      && state.audit[|old(state.audit)|].connectionId == Some(r.value)
      && state.audit[|old(state.audit)|].action == "google.connected"
    ensures r.Err? ==>
      match r.error
      case NoRefreshToken => env.exchange.Ok? && revoked == Some(env.exchange.value.accessToken)
      case ConnectFailed => env.exchange.Ok? && revoked == env.exchange.value.refreshToken
      case _ => revoked == None
  {
    var identified: Result<NewCredential, ConnectError>;
    identified, revoked := Identify(state, c, kms, input, env);
    if identified.Err? { return Err(identified.error), revoked; }
    var committed := Persist(state, c, kms, identified.value, env);
    if committed { return Ok(identified.value.connectionId), None; }
    return Err(ConnectFailed), Some(identified.value.refreshToken);
  }

  /** From the known identity on: save, save, audit, answer; on any throw the catch clause deletes both records. */
  method Persist(state: InMemoryMailState, c: Crypto, kms: Kms, n: NewCredential, env: Surroundings)
    returns (committed: bool)
    modifies state`credentials, state`connections, state`audit
    ensures committed == Commits(env)
    ensures state.credentials
        == if committed then old(state.credentials)[n.connectionId := Sealed(c, kms, n, env.random)]
                                 else old(state.credentials) - {n.connectionId}
    ensures state.connections == if committed then old(state.connections)[n.connectionId := ConnectionOf(n, env.now)]
                                 else old(state.connections) - {n.connectionId}
    ensures committed ==>
        state.audit == old(state.audit) + [AuditEvent(n.scope, Some(n.connectionId), "google.connected")]
    ensures !committed ==>
      state.audit == old(state.audit)
        + (if BothStored(env) && env.auditPersists then [AuditEvent(n.scope, Some(n.connectionId), "google.connected")]
           else [])
        + FailureEvents(n.scope, env)
  {
    var id := n.connectionId;
    var failed := SaveBoth(state, c, kms, n, env);
    if !failed && env.auditPersists {
      state.audit := state.audit + [AuditEvent(n.scope, Some(id), "google.connected")];
      if env.replyValid { return true; }
    }
    state.credentials := state.credentials - {id};
    state.connections := state.connections - {id};
    AuditFailure(state, n.scope, env);
    return false;
  }

  predicate BothStored(env: Surroundings) {
    env.credentialSave.Stored? && !env.wrapFails && env.connectionSave.Stored?
  }

  /** Both saves, either of which may throw before or after it takes effect; no other record is touched. */
  method SaveBoth(state: InMemoryMailState, c: Crypto, kms: Kms, n: NewCredential, env: Surroundings)
    returns (failed: bool)
    modifies state`credentials, state`connections
    ensures failed <==> !BothStored(env)
    ensures !failed ==> state.credentials == old(state.credentials)[n.connectionId := Sealed(c, kms, n, env.random)]
    ensures !failed ==> state.connections == old(state.connections)[n.connectionId := ConnectionOf(n, env.now)]
    ensures state.credentials - {n.connectionId} == old(state.credentials) - {n.connectionId}
    ensures state.connections - {n.connectionId} == old(state.connections) - {n.connectionId}
  {
    var id := n.connectionId;
    failed := env.credentialSave.ThrewBefore?;
    if !failed {
      var saved := SaveMailCredential(state, c, kms, n, env.random, env.wrapFails);
      failed := !saved || env.credentialSave.ThrewAfter?;
    }
    if !failed {
      if !env.connectionSave.ThrewBefore? {
        state.connections := state.connections[id :=
            Connection(id, n.scope, n.userId, "google", n.connectedEmail, "oauth", "connected", env.now)];
      }
      failed := !env.connectionSave.Stored?;
    }
  }

  method AuditFailure(state: InMemoryMailState, scope: TenantScope, env: Surroundings)
    modifies state`audit
    ensures env.failureAuditPersists ==>
      state.audit == old(state.audit) + [AuditEvent(scope, None, "google.connect_failed")]
    ensures !env.failureAuditPersists ==> state.audit == old(state.audit)
  {
    if env.failureAuditPersists {
      state.audit := state.audit + [AuditEvent(scope, None, "google.connect_failed")];
    }
  }

  /** For every point of failure: credential and connection both there and usable, or neither, or, when
      the mailbox was never identified, both stores as they were. Nothing else of the plane moves. */
  lemma AllOrNothing(c: Crypto, kms: Kms, p: Plane, input: CallbackInput, env: Surroundings)
    requires Sound(c) && Inverts(kms) && WellSized(env.random)
    ensures var (p', r) := Callback(c, kms, p, input, env);
      var identified := Identified(c, kms, p, input, env).1;
      && p'.approvals == p.approvals
      && (r.Ok? <==>
           && identified.Ok? && !env.wrapFails && env.credentialSave == Stored && env.connectionSave == Stored
           && env.auditPersists && env.replyValid)
      && (identified.Err? ==> p'.credentials == p.credentials && p'.connections == p.connections)
      && (identified.Ok? ==>
          var id := identified.value.connectionId;
          && (r.Ok? ==>
               && r.value == id && id in p'.connections && id in p'.credentials
               && var n := identified.value;
               && p'.connections[id]
                  == Connection(id, n.scope, n.userId, "google", n.connectedEmail, "oauth", "connected", env.now)
               && p'.credentials[id]
                  == Credential(id, n.scope, n.userId, "google", p'.credentials[id].envelope, n.grantedScopes,
                                n.connectedEmail, n.accessTokenExpiresAt, None)
               && OpenRefreshToken(c, kms, p'.credentials, id, p'.connections[id].scope)
                    == Ok(env.exchange.value.refreshToken.value))
          && (r.Err? ==> id !in p'.connections && id !in p'.credentials)
          && (forall k | k != id ::
               && (k in p'.credentials <==> k in p.credentials)
               && (k in p.credentials ==> p'.credentials[k] == p.credentials[k])
               && (k in p'.connections <==> k in p.connections)
               && (k in p.connections ==> p'.connections[k] == p.connections[k])))
  {
    var identified := Identified(c, kms, p, input, env).1;
    if identified.Ok? {
      SealOpens(c, kms, kms, identified.value.refreshToken, env.random);
    }
  }

  // ---- Mailboxes apart ----

  /** How many colons the ids of a deployment have in them; none, for the plainest. */
  datatype Shape = Shape(tenant: nat, workspace: nat, user: nat)

  predicate OfShape(sh: Shape, scope: TenantScope, userId: string) {
    && Count(':', scope.tenantId) == sh.tenant && Count(':', scope.workspaceId) == sh.workspace
    && Count(':', userId) == sh.user
  }

  /** Ids of one shape: one connection id is one tenant, workspace, user and mailbox. */
  lemma ConnectionIdsDiffer(sh: Shape, s1: TenantScope, u1: string, e1: string, s2: TenantScope, u2: string, e2: string)
    requires OfShape(sh, s1, u1) && OfShape(sh, s2, u2)
    requires ConnectionIdFor(s1, u1, e1) == ConnectionIdFor(s2, u2, e2)
    ensures s1 == s2 && u1 == u2 && e1 == e2
  {
    var mail1, mail2 := "google:" + e1, "google:" + e2;
    var user1, user2 := u1 + ":" + mail1, u2 + ":" + mail2;
    var work1, work2 := s1.workspaceId + ":" + user1, s2.workspaceId + ":" + user2;
    IdInParts(s1, u1, e1, mail1, user1, work1);
    IdInParts(s2, u2, e2, mail2, user2, work2);
    SplitAgain(':', s1.tenantId, work1, s2.tenantId, work2);
    SplitAgain(':', s1.workspaceId, user1, s2.workspaceId, user2);
    SplitAgain(':', u1, mail1, u2, mail2);
    SameTail("google:", e1, e2);
  }

  lemma IdInParts(s: TenantScope, u: string, e: string, mail: string, user: string, work: string)
    requires mail == "google:" + e && user == u + ":" + mail && work == s.workspaceId + ":" + user
    ensures ConnectionIdFor(s, u, e) == s.tenantId + ":" + work
  {
  }

  lemma SameTail(front: string, x: string, y: string)
    requires front + x == front + y
    ensures x == y
  {
    assert x == (front + x)[|front|..] && y == (front + y)[|front|..];
  }

  /** Everything stored is under the id of its own owner. */
  ghost predicate Namespaced(sh: Shape, p: Plane) {
    && (forall h | h in p.oauthStates :: OfShape(sh, p.oauthStates[h].scope, p.oauthStates[h].userId))
    && (forall k | k in p.connections :: OwnConnection(sh, k, p.connections[k]))
    && (forall k | k in p.credentials :: OwnCredential(sh, k, p.credentials[k]))
  }

  predicate OwnConnection(sh: Shape, k: string, x: Connection) {
    OfShape(sh, x.scope, x.userId) && k == ConnectionIdFor(x.scope, x.userId, x.emailAddress)
  }

  predicate OwnCredential(sh: Shape, k: string, x: Credential) {
    OfShape(sh, x.scope, x.userId) && k == ConnectionIdFor(x.scope, x.userId, x.connectedEmail)
  }

  /** No connection and no credential but those of this owner and mailbox come, go or change. */
  ghost predicate OnlyMailboxMoves(p: Plane, p': Plane, scope: TenantScope, userId: string, email: string) {
    && (forall k | k in p.connections ::
         var x := p.connections[k];
         (x.scope, x.userId, x.emailAddress) != (scope, userId, email) ==>
           k in p'.connections && p'.connections[k] == x)
    && (forall k | k in p.credentials ::
         var x := p.credentials[k];
         (x.scope, x.userId, x.connectedEmail) != (scope, userId, email) ==>
           k in p'.credentials && p'.credentials[k] == x)
    && (forall k | k in p'.connections && k !in p.connections ::
         var x := p'.connections[k];
         (x.scope, x.userId, x.emailAddress) == (scope, userId, email))
    && (forall k | k in p'.credentials && k !in p.credentials ::
         var x := p'.credentials[k];
         (x.scope, x.userId, x.connectedEmail) == (scope, userId, email))
  }

  /** A callback, whether it connects or rolls back, moves the records of one mailbox of one user of one
      workspace, and of no other tenant, workspace, user or mailbox. */
  lemma OthersKept(c: Crypto, kms: Kms, p: Plane, input: CallbackInput, env: Surroundings, sh: Shape)
    requires Namespaced(sh, p)
    ensures var (p', r) := Callback(c, kms, p, input, env);
      var identified := Identified(c, kms, p, input, env).1;
      && Namespaced(sh, p')
      && (identified.Err? ==> p'.connections == p.connections && p'.credentials == p.credentials)
      && (identified.Ok? ==>
           OnlyMailboxMoves(p, p', identified.value.scope, identified.value.userId, identified.value.connectedEmail))
  {
    var p' := Callback(c, kms, p, input, env).0;
    StateOwnersKept(c, kms, p, input, env);
    if Identified(c, kms, p, input, env).1.Ok? {
      var n := Identified(c, kms, p, input, env).1.value;
      OwnerOfShape(c, kms, p, input, env, sh);
      OwnIdOnly(sh, p, n);
      CallbackMovesOne(c, kms, p, input, env);
      OneMoves(sh, p, p', n);
    }
  }

  /** No state changes its owner. */
  ghost predicate SameOwners(p: Plane, p': Plane) {
    forall h | h in p'.oauthStates ::
      && h in p.oauthStates && p'.oauthStates[h].scope == p.oauthStates[h].scope
      && p'.oauthStates[h].userId == p.oauthStates[h].userId
  }

  lemma StateOwnersKept(c: Crypto, kms: Kms, p: Plane, input: CallbackInput, env: Surroundings)
    ensures SameOwners(p, Callback(c, kms, p, input, env).0)
  {
  }

  lemma OneMoves(sh: Shape, p: Plane, p': Plane, n: NewCredential)
    requires Namespaced(sh, p) && OfShape(sh, n.scope, n.userId) && SameOwners(p, p')
    requires n.connectionId == ConnectionIdFor(n.scope, n.userId, n.connectedEmail)
    requires n.connectionId in p.connections ==> OwnerIs(n, p.connections[n.connectionId])
    requires n.connectionId in p'.connections ==> OwnerIs(n, p'.connections[n.connectionId])
    requires n.connectionId in p.credentials ==> HolderIs(n, p.credentials[n.connectionId])
    requires n.connectionId in p'.credentials ==> HolderIs(n, p'.credentials[n.connectionId])
    requires p'.connections - {n.connectionId} == p.connections - {n.connectionId}
    requires p'.credentials - {n.connectionId} == p.credentials - {n.connectionId}
    ensures Namespaced(sh, p') && OnlyMailboxMoves(p, p', n.scope, n.userId, n.connectedEmail)
  {
    forall k | k != n.connectionId
      ensures k in p.connections <==> k in p'.connections
      ensures k in p.connections ==> p'.connections[k] == p.connections[k]
    {
      assert k in p.connections <==> k in p.connections - {n.connectionId};
      assert k in p'.connections <==> k in p'.connections - {n.connectionId};
    }
    forall k | k != n.connectionId
      ensures k in p.credentials <==> k in p'.credentials
      ensures k in p.credentials ==> p'.credentials[k] == p.credentials[k]
    {
      assert k in p.credentials <==> k in p.credentials - {n.connectionId};
      assert k in p'.credentials <==> k in p'.credentials - {n.connectionId};
    }
  }

  predicate OwnerIs(n: NewCredential, x: Connection) {
    x.scope == n.scope && x.userId == n.userId && x.emailAddress == n.connectedEmail
  }

  predicate HolderIs(n: NewCredential, x: Credential) {
    x.scope == n.scope && x.userId == n.userId && x.connectedEmail == n.connectedEmail
  }

  /** Whatever is stored under an owner's id is the owner's. */
  lemma OwnIdOnly(sh: Shape, p: Plane, n: NewCredential)
    requires Namespaced(sh, p) && OfShape(sh, n.scope, n.userId)
    requires n.connectionId == ConnectionIdFor(n.scope, n.userId, n.connectedEmail)
    ensures n.connectionId in p.connections ==> OwnerIs(n, p.connections[n.connectionId])
    ensures n.connectionId in p.credentials ==> HolderIs(n, p.credentials[n.connectionId])
  {
    if n.connectionId in p.connections {
      var x := p.connections[n.connectionId];
      ConnectionIdsDiffer(sh, x.scope, x.userId, x.emailAddress, n.scope, n.userId, n.connectedEmail);
    }
    if n.connectionId in p.credentials {
      var x := p.credentials[n.connectionId];
      ConnectionIdsDiffer(sh, x.scope, x.userId, x.connectedEmail, n.scope, n.userId, n.connectedEmail);
    }
  }

  lemma CallbackMovesOne(c: Crypto, kms: Kms, p: Plane, input: CallbackInput, env: Surroundings)
    requires Identified(c, kms, p, input, env).1.Ok?
    ensures var (p', n) := (Callback(c, kms, p, input, env).0, Identified(c, kms, p, input, env).1.value);
      && p'.connections - {n.connectionId} == p.connections - {n.connectionId}
      && p'.credentials - {n.connectionId} == p.credentials - {n.connectionId}
      && (n.connectionId in p'.connections ==> OwnerIs(n, p'.connections[n.connectionId]))
      && (n.connectionId in p'.credentials ==> HolderIs(n, p'.credentials[n.connectionId]))
  {
  }

  lemma OwnerOfShape(c: Crypto, kms: Kms, p: Plane, input: CallbackInput, env: Surroundings, sh: Shape)
    requires Namespaced(sh, p) && Identified(c, kms, p, input, env).1.Ok?
    ensures var n := Identified(c, kms, p, input, env).1.value;
      OfShape(sh, n.scope, n.userId) && n.connectionId == ConnectionIdFor(n.scope, n.userId, n.connectedEmail)
  {
    var s := p.oauthStates[StateHash(input.stateValue)];
    assert OfShape(sh, s.scope, s.userId);
  }

  // ---- Disconnect ----

  function Disconnect(p: Plane, connectionId: string, scope: TenantScope, at: int): Plane {
    p.(credentials := Spec.Revoke(p.credentials, connectionId, scope, at),
       approvals := Spec.Invalidate(p.approvals, connectionId, at),
       connections := p.connections - {connectionId})
  }

  method DisconnectGoogle(state: InMemoryMailState, c: Crypto, kms: Kms, connectionId: string, scope: TenantScope,
                          at: int, auditPersists: bool)
    returns (ok: bool, revokedAtProvider: Option<string>)
    modifies state`credentials, state`connections, state`approvals, state`stoppedJobs, state`audit
    ensures PlaneOf(state) == Disconnect(old(PlaneOf(state)), connectionId, scope, at)
    ensures PlaneOf(state) == Happen(c, _ => kms, old(PlaneOf(state)), DisconnectEvent(connectionId, scope, at))
    ensures state.stoppedJobs == old(state.stoppedJobs)[connectionId := at]
    ensures var token := OpenRefreshToken(c, kms, old(state.credentials), connectionId, scope);
      revokedAtProvider == if token.Ok? then Some(token.value) else None
    ensures ok <==> Spec.ScopedConnection(old(state.connections), connectionId, scope).Some? ==> auditPersists
    ensures state.audit == old(state.audit)
        + if Spec.ScopedConnection(old(state.connections), connectionId, scope).None? || !auditPersists then []
          else [AuditEvent(scope, Some(connectionId), "google.disconnected")]
  {
    var known := connectionId in state.connections && state.connections[connectionId].scope == scope;
    revokedAtProvider := None;
    var refresh := ReadRefreshToken(state, c, kms, connectionId, scope);
    if refresh.Ok? { revokedAtProvider := Some(refresh.value); }
    TearDown(state, connectionId, scope, at);
    if !known { return true, revokedAtProvider; }
    if !auditPersists { return false, revokedAtProvider; }
    state.audit := state.audit + [AuditEvent(scope, Some(connectionId), "google.disconnected")];
    return true, revokedAtProvider;
  }

  /** Credential, jobs, approvals, connection, in this order. */
  method TearDown(state: InMemoryMailState, connectionId: string, scope: TenantScope, at: int)
    modifies state`credentials, state`connections, state`approvals, state`stoppedJobs
    ensures PlaneOf(state) == Disconnect(old(PlaneOf(state)), connectionId, scope, at)
    ensures state.stoppedJobs == old(state.stoppedJobs)[connectionId := at]
  {
    state.RevokeCredential(connectionId, scope, at);
    state.stoppedJobs := state.stoppedJobs[connectionId := at];
    state.InvalidateForConnection(connectionId, at);
    state.connections := state.connections - {connectionId};
  }

  /** A disconnect leaves a usable credential behind exactly when it was asked for under a scope other
      than the credential's own; connection and pending approvals go in any case. */
  lemma DisconnectDestroysIff(p: Plane, connectionId: string, scope: TenantScope, at: int)
    ensures var p' := Disconnect(p, connectionId, scope, at);
      && connectionId !in p'.connections
      && (forall id | id in p'.approvals && p'.approvals[id].connectionId == connectionId ::
           p'.approvals[id].status !in {Issued, Sending})
      && ((connectionId in p'.credentials && p'.credentials[connectionId].revokedAt.None?) <==>
          connectionId in p.credentials && p.credentials[connectionId].revokedAt.None?
              && p.credentials[connectionId].scope != scope)
      && (forall k | k != connectionId && k in p.credentials ::
           k in p'.credentials && p'.credentials[k] == p.credentials[k])
  {
  }

  // ---- Whole runs ----

  datatype Event =
    | BeginEvent(flow: FlowInput, draws: Draws, startedAt: int, keyId: string)
    | CallbackEvent(input: CallbackInput, env: Surroundings)
    | RefreshEvent(connectionId: string, scope: TenantScope, expiresAt: int, rotated: Option<string>, keyId: string,
        random: Randomness)
    | DisconnectEvent(connectionId: string, scope: TenantScope, at: int)

  predicate LegalEvent(e: Event) {
    match e
    case BeginEvent(_, draws, _, _) => WellDrawn(draws)
    case CallbackEvent(_, env) => WellSized(env.random)
    case RefreshEvent(_, _, _, _, _, random) => WellSized(random)
    case DisconnectEvent(_, _, _) => true
  }

  function Happen(c: Crypto, ring: KeyRing, p: Plane, e: Event): Plane {
    match e
    case BeginEvent(flow, draws, at, keyId) =>
      var s := NewState(c, ring(keyId), flow, draws, at);
      p.(oauthStates := p.oauthStates[s.stateHash := s])
    case CallbackEvent(input, env) => Callback(c, ring(env.keyId), p, input, env).0
    case RefreshEvent(id, scope, expiresAt, rotated, keyId, random) =>
      p.(credentials := Apply(c, ring, p.credentials, Touch(id, scope, expiresAt, rotated, keyId, random)))
    case DisconnectEvent(id, scope, at) => Disconnect(p, id, scope, at)
  }

  function HappenAll(c: Crypto, ring: KeyRing, p: Plane, events: seq<Event>): Plane
    decreases events
  {
    if events == [] then p else HappenAll(c, ring, Happen(c, ring, p, events[0]), events[1..])
  }

  // ---- A callback is for once ----

  function BegunState(c: Crypto, ring: KeyRing, e: Event): Digest
    requires e.BeginEvent?
  {
    NewState(c, ring(e.keyId), e.flow, e.draws, e.startedAt).stateHash
  }

  /** Every start draws a state value never used before. */
  predicate FreshBegins(c: Crypto, ring: KeyRing, p: Plane, events: seq<Event>)
    decreases events
  {
    events == []
    || ((events[0].BeginEvent? ==> BegunState(c, ring, events[0]) !in p.oauthStates)
        && FreshBegins(c, ring, Happen(c, ring, p, events[0]), events[1..]))
  }

  predicate SpentState(p: Plane, h: Digest) {
    h in p.oauthStates && p.oauthStates[h].consumedAt.Some?
  }

  lemma SpentStateStays(c: Crypto, ring: KeyRing, p: Plane, e: Event, h: Digest)
    requires SpentState(p, h) && (e.BeginEvent? ==> BegunState(c, ring, e) !in p.oauthStates)
    ensures SpentState(Happen(c, ring, p, e), h)
  {
  }

  lemma {:induction false} SpentStateAlways(c: Crypto, ring: KeyRing, p: Plane, events: seq<Event>, h: Digest)
    requires SpentState(p, h) && FreshBegins(c, ring, p, events)
    ensures SpentState(HappenAll(c, ring, p, events), h)
    decreases events
  {
    if events == [] {
    } else {
      SpentStateStays(c, ring, p, events[0], h);
      SpentStateAlways(c, ring, Happen(c, ring, p, events[0]), events[1..], h);
    }
  }

  /** A callback whose state was accepted can never be presented again, successful or not, under whatever
      redirect and session, after any run of other starts, callbacks, refreshes and disconnects. */
  lemma CallbackNotReplayable(c: Crypto, ring: KeyRing, p: Plane, input: CallbackInput, env: Surroundings,
                              events: seq<Event>, again: CallbackInput, env': Surroundings)
    requires StateHash(input.stateValue) in p.oauthStates && again.stateValue == input.stateValue
    requires Spec.Refusal(p.oauthStates[StateHash(input.stateValue)], input.redirectUri, input.expectedSessionId,
        env.now).None?
    requires FreshBegins(c, ring, Callback(c, ring(env.keyId), p, input, env).0, events)
    ensures var p' := HappenAll(c, ring, Callback(c, ring(env.keyId), p, input, env).0, events);
      Callback(c, ring(env'.keyId), p', again, env').1 == Err(StateRejected(Rejected(AlreadyUsed)))
  {
    SpentStateAlways(c, ring, Callback(c, ring(env.keyId), p, input, env).0, events, StateHash(input.stateValue));
  }

  // ---- Connected means usable ----

  ghost predicate Usable(c: Crypto, ring: KeyRing, p: Plane, id: string)
    requires id in p.connections
  {
    && id in p.credentials
    && p.credentials[id].scope == p.connections[id].scope && p.credentials[id].revokedAt.None?
    && OpenRefreshToken(c, ring(p.credentials[id].envelope.keyId), p.credentials, id, p.connections[id].scope).Ok?
  }

  ghost predicate ConnectedIsUsable(c: Crypto, ring: KeyRing, p: Plane) {
    forall id | id in p.connections :: Usable(c, ring, p, id)
  }

  lemma CallbackKeepsUsable(c: Crypto, ring: KeyRing, p: Plane, input: CallbackInput, env: Surroundings)
    requires Sound(c) && SoundRing(ring) && WellSized(env.random) && ConnectedIsUsable(c, ring, p)
    ensures ConnectedIsUsable(c, ring, Callback(c, ring(env.keyId), p, input, env).0)
  {
    var kms := ring(env.keyId);
    var (p', r) := Callback(c, kms, p, input, env);
    AllOrNothing(c, kms, p, input, env);
    var identified := Identified(c, kms, p, input, env).1;
    forall id | id in p'.connections ensures Usable(c, ring, p', id) {
      assert (identified.Ok? && id == identified.value.connectionId) || Usable(c, ring, p, id);
    }
  }

  lemma RefreshKeepsUsable(c: Crypto, ring: KeyRing, p: Plane, e: Event)
    requires Sound(c) && SoundRing(ring) && e.RefreshEvent? && LegalEvent(e) && ConnectedIsUsable(c, ring, p)
    ensures ConnectedIsUsable(c, ring, Happen(c, ring, p, e))
  {
    var p' := Happen(c, ring, p, e);
    if e.rotated.Some? { SealOpens(c, ring(e.keyId), ring(e.keyId), e.rotated.value, e.random); }
    forall id | id in p'.connections ensures Usable(c, ring, p', id) {
      assert Usable(c, ring, p, id);
    }
  }

  lemma DisconnectKeepsUsable(c: Crypto, ring: KeyRing, p: Plane, connectionId: string, scope: TenantScope, at: int)
    requires ConnectedIsUsable(c, ring, p)
    ensures ConnectedIsUsable(c, ring, Disconnect(p, connectionId, scope, at))
  {
    var p' := Disconnect(p, connectionId, scope, at);
    forall id | id in p'.connections ensures Usable(c, ring, p', id) {
      assert Usable(c, ring, p, id);
    }
  }

  lemma UsableKept(c: Crypto, ring: KeyRing, p: Plane, e: Event)
    requires Sound(c) && SoundRing(ring) && LegalEvent(e) && ConnectedIsUsable(c, ring, p)
    ensures ConnectedIsUsable(c, ring, Happen(c, ring, p, e))
  {
    match e
    case CallbackEvent(input, env) => CallbackKeepsUsable(c, ring, p, input, env);
    case RefreshEvent(_, _, _, _, _, _) => RefreshKeepsUsable(c, ring, p, e);
    case DisconnectEvent(id, scope, at) => DisconnectKeepsUsable(c, ring, p, id, scope, at);
    case BeginEvent(_, _, _, _) =>
      var p' := Happen(c, ring, p, e);
      assert forall id | id in p'.connections :: Usable(c, ring, p, id);
  }

  lemma {:induction false} UsableAlways(c: Crypto, ring: KeyRing, p: Plane, events: seq<Event>)
    requires Sound(c) && SoundRing(ring) && ConnectedIsUsable(c, ring, p)
    requires forall i | 0 <= i < |events| :: LegalEvent(events[i])
    ensures ConnectedIsUsable(c, ring, HappenAll(c, ring, p, events))
    decreases events
  {
    if events == [] {
    } else {
      UsableKept(c, ring, p, events[0]);
      UsableAlways(c, ring, Happen(c, ring, p, events[0]), events[1..]);
    }
  }

  /** Over all sequential runs of starts, callbacks, refreshes and disconnects, every stored connection has
      an unrevoked credential in its own scope whose token opens under the key it was sealed with. */
  lemma ConnectedMeansUsable(c: Crypto, ring: KeyRing, events: seq<Event>)
    requires Sound(c) && SoundRing(ring)
    requires forall i | 0 <= i < |events| :: LegalEvent(events[i])
    ensures var p := HappenAll(c, ring, Plane(map[], map[], map[], map[]), events);
      forall id | id in p.connections :: Usable(c, ring, p, id)
  {
    UsableAlways(c, ring, Plane(map[], map[], map[], map[]), events);
  }

  // ---- Mailboxes apart, over whole runs ----

  lemma NamespacedKept(c: Crypto, ring: KeyRing, p: Plane, e: Event, sh: Shape)
    requires Namespaced(sh, p) && (e.BeginEvent? ==> OfShape(sh, e.flow.scope, e.flow.userId))
    ensures Namespaced(sh, Happen(c, ring, p, e))
  {
    match e
    case CallbackEvent(input, env) => OthersKept(c, ring(env.keyId), p, input, env, sh);
    case RefreshEvent(_, _, _, _, _, _) => RefreshNamespaced(c, ring, p, e, sh);
    case DisconnectEvent(id, scope, at) => DisconnectNamespaced(p, id, scope, at, sh);
    case BeginEvent(_, _, _, _) =>
  }

  lemma RefreshNamespaced(c: Crypto, ring: KeyRing, p: Plane, e: Event, sh: Shape)
    requires Namespaced(sh, p) && e.RefreshEvent?
    ensures Namespaced(sh, Happen(c, ring, p, e))
  {
  }

  lemma DisconnectNamespaced(p: Plane, connectionId: string, scope: TenantScope, at: int, sh: Shape)
    requires Namespaced(sh, p)
    ensures Namespaced(sh, Disconnect(p, connectionId, scope, at))
  {
  }

  lemma {:induction false} NamespacedAlways(c: Crypto, ring: KeyRing, p: Plane, events: seq<Event>, sh: Shape)
    requires Namespaced(sh, p)
    requires forall i | 0 <= i < |events| && events[i].BeginEvent? ::
        OfShape(sh, events[i].flow.scope, events[i].flow.userId)
    ensures Namespaced(sh, HappenAll(c, ring, p, events))
    decreases events
  {
    if events == [] {
    } else {
      assert events[0].BeginEvent? ==> OfShape(sh, events[0].flow.scope, events[0].flow.userId);
      NamespacedKept(c, ring, p, events[0], sh);
      NamespacedAlways(c, ring, Happen(c, ring, p, events[0]), events[1..], sh);
    }
  }

  /** So wherever the owners of all flows have ids of one shape: after any run, the next callback moves the
      records of one mailbox of one owner and of nobody else. */
  lemma MailboxesApart(c: Crypto, ring: KeyRing, events: seq<Event>, input: CallbackInput, env: Surroundings, sh: Shape)
    requires forall i | 0 <= i < |events| && events[i].BeginEvent? ::
        OfShape(sh, events[i].flow.scope, events[i].flow.userId)
    ensures var p := HappenAll(c, ring, Plane(map[], map[], map[], map[]), events);
      var p' := Callback(c, ring(env.keyId), p, input, env).0;
      match Identified(c, ring(env.keyId), p, input, env).1
      case Ok(n) => OnlyMailboxMoves(p, p', n.scope, n.userId, n.connectedEmail)
      case Err(_) => p'.connections == p.connections && p'.credentials == p.credentials
  {
    NamespacedAlways(c, ring, Plane(map[], map[], map[], map[]), events, sh);
    OthersKept(c, ring(env.keyId), HappenAll(c, ring, Plane(map[], map[], map[], map[]), events), input, env, sh);
  }
}
