/** The two mail-state implementations side by side: where they agree, call by call and over whole
    runs, and the exact inputs on which they do not. */
module TwinSimulation {
  import opened Prelude
  import opened MailRecords
  import Mem = MemorySpec
  import Row = RowSpec

  datatype Memory = Memory(approvals: Mem.Approvals, oauthStates: Mem.OAuthStates, credentials: Mem.Credentials,
      connections: Mem.Connections)

  datatype Tables = Tables(approvals: Row.ApprovalTable, oauthStates: Row.OAuthTable, credentials: Row.CredentialTable,
      connections: Row.ConnectionTable)

  datatype Call =
    | InsertApproval(approval: SendApproval)
    | GetApproval(approvalId: string)
    | Claim(approvalId: string, operationId: string, at: int)
    | Settle(approvalId: string, operationId: string, outcome: SendOutcome, at: int)
    | Expire(approvalId: string, at: int)
    | Invalidate(connectionId: string, at: int)
    | PutState(state: OAuthState)
    | Consume(stateHash: Digest, redirectUri: string, sessionId: string, at: int, later: int)
    | SaveCredential(credential: Credential)
    | GetCredential(connectionId: string, scope: TenantScope)
    | Touch(connectionId: string, scope: TenantScope, expiresAt: int, envelope: Option<Envelope>)
    | Revoke(connectionId: string, scope: TenantScope, at: int)
    | DeleteCredential(connectionId: string)
    | SaveConnection(connection: Connection)
    | GetConnection(connectionId: string, scope: TenantScope)
    | DeleteConnection(connectionId: string)

  datatype Reply =
    | Done
    | UniqueViolation
    | Approval(found: Option<SendApproval>)
    | Settled(settled: Result<SendApproval, SettleError>)
    | Consumed(consumed: Result<OAuthState, ConsumeError>)
    | FoundCredential(credential: Option<Credential>)
    | FoundConnection(connection: Option<Connection>)

  function MemoryCall(m: Memory, call: Call): (r: (Memory, Reply)) {
    match call
    case InsertApproval(a) => (m.(approvals := m.approvals[a.approvalId := a]), Done)
    case GetApproval(id) => (m, Approval(if id in m.approvals then Some(m.approvals[id]) else None))
    case Claim(id, op, at) => var (s, r) := Mem.Claim(m.approvals, id, op, at); (m.(approvals := s), Approval(r))
    case Settle(id, op, outcome, at) =>
      var (s, r) := Mem.Settle(m.approvals, id, op, outcome, at);
      (m.(approvals := s), Settled(r))
    case Expire(id, at) => (m.(approvals := Mem.Expire(m.approvals, id, at)), Done)
    case Invalidate(c, at) => (m.(approvals := Mem.Invalidate(m.approvals, c, at)), Done)
    case PutState(s) => (m.(oauthStates := m.oauthStates[s.stateHash := s]), Done)
    case Consume(h, redirect, session, at, _) =>
      var (s, r) := Mem.Consume(m.oauthStates, h, redirect, session, at); (m.(oauthStates := s), Consumed(r))
    case SaveCredential(c) => (m.(credentials := m.credentials[c.connectionId := c]), Done)
    case GetCredential(id, scope) => (m, FoundCredential(Mem.ScopedCredential(m.credentials, id, scope)))
    case Touch(id, scope, exp, env) =>
        (m.(credentials := Mem.TouchAfterRefresh(m.credentials, id, scope, exp, env)), Done)
    case Revoke(id, scope, at) => (m.(credentials := Mem.Revoke(m.credentials, id, scope, at)), Done)
    case DeleteCredential(id) => (m.(credentials := m.credentials - {id}), Done)
    case SaveConnection(c) => (m.(connections := m.connections[c.connectionId := c]), Done)
    case GetConnection(id, scope) => (m, FoundConnection(Mem.ScopedConnection(m.connections, id, scope)))
    case DeleteConnection(id) => (m.(connections := m.connections - {id}), Done)
  }

  function TableCall(t: Tables, call: Call): (r: (Tables, Reply)) {
    match call
    case InsertApproval(a) =>
      if a.approvalId in t.approvals then (t, UniqueViolation)
      else (t.(approvals := t.approvals[a.approvalId := Row.ApprovalToRow(a)]), Done)
    case GetApproval(id) =>
      (t, Approval(if id in t.approvals then Some(Row.ApprovalFromRow(t.approvals[id])) else None))
    case Claim(id, op, at) => var (s, r) := Row.Claim(t.approvals, id, op, at); (t.(approvals := s), Approval(r))
    case Settle(id, op, outcome, at) =>
      var (s, r) := Row.Settle(t.approvals, id, op, outcome, at);
      (t.(approvals := s), Settled(r))
    case Expire(id, at) => (t.(approvals := Row.Expire(t.approvals, id, at)), Done)
    case Invalidate(c, at) => (t.(approvals := Row.Invalidate(t.approvals, c, at)), Done)
    case PutState(s) =>
      if s.stateHash in t.oauthStates then (t, UniqueViolation)
      else (t.(oauthStates := t.oauthStates[s.stateHash := s]), Done)
    case Consume(h, redirect, session, at, later) =>
      var (s, r) := Row.Consume(t.oauthStates, h, redirect, session, at, later); (t.(oauthStates := s), Consumed(r))
    case SaveCredential(c) => (t.(credentials := Row.SaveCredential(t.credentials, c)), Done)
    case GetCredential(id, scope) => (t, FoundCredential(Row.GetCredential(t.credentials, id, scope)))
    case Touch(id, scope, exp, env) =>
        (t.(credentials := Row.TouchAfterRefresh(t.credentials, id, scope, exp, env)), Done)
    case Revoke(id, scope, at) => (t.(credentials := Row.Revoke(t.credentials, id, scope, at)), Done)
    case DeleteCredential(id) => (t.(credentials := t.credentials - {id}), Done)
    case SaveConnection(c) => (t.(connections := Row.SaveConnection(t.connections, c)), Done)
    case GetConnection(id, scope) => (t, FoundConnection(Row.GetConnection(t.connections, id, scope)))
    case DeleteConnection(id) => (t.(connections := t.connections - {id}), Done)
  }

  // ---- The relation ----

  ghost predicate ApprovalsMirror(m: Mem.Approvals, t: Row.ApprovalTable) {
    && m.Keys == t.Keys
    && forall id | id in m :: t[id].approvalId == id && Row.ApprovalFromRow(t[id]) == m[id]
  }

  ghost predicate StatesMirror(m: Mem.OAuthStates, t: Row.OAuthTable) {
    && m == t
    && forall h | h in m :: m[h].stateHash == h
  }

  ghost predicate CredentialsMirror(m: Mem.Credentials, t: Row.CredentialTable) {
    && m.Keys == t.Keys
    && forall id | id in m :: t[id].connectionId == id && Row.CredentialFromRow(t[id]) == m[id]
  }

  ghost predicate ConnectionsMirror(m: Mem.Connections, t: Row.ConnectionTable) {
    && m == t
    && forall id | id in m :: m[id].connectionId == id
  }

  ghost predicate Mirrors(m: Memory, t: Tables) {
    && ApprovalsMirror(m.approvals, t.approvals)
    && StatesMirror(m.oauthStates, t.oauthStates)
    && CredentialsMirror(m.credentials, t.credentials)
    && ConnectionsMirror(m.connections, t.connections)
  }

  // ---- Where the twins agree ----

  /** Where the twins part company on consuming an unused state. The Map checks everything at one instant;
      the table's update and its diagnosing read look at the clock in turn, at `at` and `later`. Presented
      by its own session and redirect, they differ at the expiry instant itself (and after it, if the clock
      runs back); presented wrongly, when the expiry falls between the two readings. */
  predicate ConsumeSplits(m: Mem.OAuthStates, h: Digest, redirect: string, session: string, at: int, later: int) {
    h in m && m[h].consumedAt.None?
    && if m[h].redirectUri == redirect && m[h].sessionId == session
       then at == m[h].expiresAt || later <= m[h].expiresAt < at
       else (at > m[h].expiresAt) != (later > m[h].expiresAt)
  }

  predicate Agreeable(m: Memory, call: Call) {
    match call
    case InsertApproval(a) => a.approvalId !in m.approvals && a.draftId != Some("")
    case PutState(s) => s.stateHash !in m.oauthStates
    case Consume(h, redirect, session, at, later) => !ConsumeSplits(m.oauthStates, h, redirect, session, at, later)
    case SaveCredential(c) =>
      c.connectionId in m.credentials ==>
        var prior := m.credentials[c.connectionId];
        prior.scope == c.scope && prior.userId == c.userId && prior.provider == c.provider
            && prior.connectedEmail == c.connectedEmail
    case SaveConnection(c) =>
      c.connectionId in m.connections ==>
        var prior := m.connections[c.connectionId];
        && prior.scope == c.scope && prior.userId == c.userId && prior.provider == c.provider
        && prior.emailAddress == c.emailAddress && prior.authKind == c.authKind
    case _ => true
  }

  lemma ClaimAgrees(m: Mem.Approvals, t: Row.ApprovalTable, id: string, op: string, at: int)
    requires ApprovalsMirror(m, t)
    ensures Mem.Claim(m, id, op, at).1 == Row.Claim(t, id, op, at).1
    ensures ApprovalsMirror(Mem.Claim(m, id, op, at).0, Row.Claim(t, id, op, at).0)
  {
  }

  lemma SettleAgrees(m: Mem.Approvals, t: Row.ApprovalTable, id: string, op: string, outcome: SendOutcome, at: int)
    requires ApprovalsMirror(m, t)
    ensures Mem.Settle(m, id, op, outcome, at).1 == Row.Settle(t, id, op, outcome, at).1
    ensures ApprovalsMirror(Mem.Settle(m, id, op, outcome, at).0, Row.Settle(t, id, op, outcome, at).0)
  {
  }

  lemma ExpireAgrees(m: Mem.Approvals, t: Row.ApprovalTable, key: string, at: int)
    requires ApprovalsMirror(m, t)
    ensures ApprovalsMirror(Mem.Expire(m, key, at), Row.Expire(t, key, at))
  {
    var m1, t1 := Mem.Expire(m, key, at), Row.Expire(t, key, at);
    forall id | id in m ensures t1[id].approvalId == id && Row.ApprovalFromRow(t1[id]) == m1[id] {
      assert t[id].approvalId == id && Row.ApprovalFromRow(t[id]) == m[id];
    }
  }

  lemma InvalidateAgrees(m: Mem.Approvals, t: Row.ApprovalTable, connectionId: string, at: int)
    requires ApprovalsMirror(m, t)
    ensures ApprovalsMirror(Mem.Invalidate(m, connectionId, at), Row.Invalidate(t, connectionId, at))
  {
    var m1, t1 := Mem.Invalidate(m, connectionId, at), Row.Invalidate(t, connectionId, at);
    forall id | id in m ensures t1[id].approvalId == id && Row.ApprovalFromRow(t1[id]) == m1[id] {
      assert t[id].approvalId == id && Row.ApprovalFromRow(t[id]) == m[id];
    }
  }

  /** Claim, settle, expire and invalidate: equal replies, and the relation kept, on every input. */
  lemma ApprovalCallsAgree(m: Memory, t: Tables, call: Call)
    requires Mirrors(m, t)
    requires call.Claim? || call.Settle? || call.Expire? || call.Invalidate? || call.GetApproval?
    ensures MemoryCall(m, call).1 == TableCall(t, call).1
    ensures Mirrors(MemoryCall(m, call).0, TableCall(t, call).0)
  {
    match call
    case Claim(id, op, at) => ClaimAgrees(m.approvals, t.approvals, id, op, at);
    case Settle(id, op, outcome, at) => SettleAgrees(m.approvals, t.approvals, id, op, outcome, at);
    case Expire(id, at) => ExpireAgrees(m.approvals, t.approvals, id, at);
    case Invalidate(c, at) => InvalidateAgrees(m.approvals, t.approvals, c, at);
    case GetApproval(_) =>
  }

  lemma TouchAgrees(m: Mem.Credentials, t: Row.CredentialTable, id: string, scope: TenantScope, exp: int,
                    env: Option<Envelope>)
    requires CredentialsMirror(m, t)
    ensures CredentialsMirror(Mem.TouchAfterRefresh(m, id, scope, exp, env),
        Row.TouchAfterRefresh(t, id, scope, exp, env))
  {
    if id in m { assert Row.CredentialFromRow(t[id]) == m[id]; }
  }

  lemma RevokeAgrees(m: Mem.Credentials, t: Row.CredentialTable, id: string, scope: TenantScope, at: int)
    requires CredentialsMirror(m, t)
    ensures CredentialsMirror(Mem.Revoke(m, id, scope, at), Row.Revoke(t, id, scope, at))
  {
    if id in m { assert Row.CredentialFromRow(t[id]) == m[id]; }
  }

  lemma DeleteAgrees(m: Mem.Credentials, t: Row.CredentialTable, id: string)
    requires CredentialsMirror(m, t)
    ensures CredentialsMirror(m - {id}, t - {id})
  {
  }

  lemma GetAgrees(m: Mem.Credentials, t: Row.CredentialTable, id: string, scope: TenantScope)
    requires CredentialsMirror(m, t)
    ensures Mem.ScopedCredential(m, id, scope) == Row.GetCredential(t, id, scope)
  {
    if id in m { assert Row.CredentialFromRow(t[id]) == m[id]; }
  }

  lemma CredentialCallsAgree(m: Memory, t: Tables, call: Call)
    requires Mirrors(m, t)
    requires call.Touch? || call.Revoke? || call.DeleteCredential? || call.GetCredential?
          || call.GetConnection? || call.DeleteConnection?
    ensures MemoryCall(m, call).1 == TableCall(t, call).1
    ensures Mirrors(MemoryCall(m, call).0, TableCall(t, call).0)
  {
    match call
    case Touch(id, scope, exp, env) => TouchAgrees(m.credentials, t.credentials, id, scope, exp, env);
    case Revoke(id, scope, at) => RevokeAgrees(m.credentials, t.credentials, id, scope, at);
    case DeleteCredential(id) => DeleteAgrees(m.credentials, t.credentials, id);
    case GetCredential(id, scope) => GetAgrees(m.credentials, t.credentials, id, scope);
    case GetConnection(_, _) =>
    case DeleteConnection(_) =>
  }

  /** Consuming a state: the twins part company exactly there. With one reading of the clock that is the
      expiry instant, where the Map accepts and the table says already used. */
  lemma ConsumeAgreesIff(m: Memory, t: Tables, call: Call)
    requires Mirrors(m, t) && call.Consume?
    ensures MemoryCall(m, call).1 == TableCall(t, call).1 && Mirrors(MemoryCall(m, call).0, TableCall(t, call).0)
       <==> !ConsumeSplits(m.oauthStates, call.stateHash, call.redirectUri, call.sessionId, call.at, call.later)
    ensures call.later == call.at ==>
      (ConsumeSplits(m.oauthStates, call.stateHash, call.redirectUri, call.sessionId, call.at, call.later) <==>
         && call.stateHash in m.oauthStates && call.at == m.oauthStates[call.stateHash].expiresAt
         && MemoryCall(m, call).1.consumed.Ok? && TableCall(t, call).1 == Consumed(Err(AlreadyUsed)))
  {
    ConsumeReplies(m.oauthStates, call.stateHash, call.redirectUri, call.sessionId, call.at, call.later);
  }

  lemma ConsumeReplies(m: Mem.OAuthStates, h: Digest, redirect: string, session: string, at: int, later: int)
    requires forall k | k in m :: m[k].stateHash == k
    ensures var (left, right) :=
        (Mem.Consume(m, h, redirect, session, at), Row.Consume(m, h, redirect, session, at, later));
      && (ConsumeSplits(m, h, redirect, session, at, later) <==> left.1 != right.1)
      && (!ConsumeSplits(m, h, redirect, session, at, later) ==> left.0 == right.0)
      && (ConsumeSplits(m, h, redirect, session, at, later) ==> right.1.Err? && right.0 == m)
      && (forall k | k in right.0 :: right.0[k].stateHash == k)
      && (right.1.Ok? <==>
            && h in m && m[h].consumedAt.None? && m[h].redirectUri == redirect && m[h].sessionId == session
            && at < m[h].expiresAt)
  {
    var updated := Row.ConsumeUpdate(m, h, redirect, session, at);
    if h in m && Row.ConsumeWhere(m[h], h, redirect, session, at) {
      assert updated == m[h := m[h].(consumedAt := Some(at))];
    } else {
      assert updated == m;
    }
  }

  lemma InsertsAgreeIff(m: Memory, t: Tables, call: Call)
    requires Mirrors(m, t) && (call.InsertApproval? || call.SaveCredential? || call.PutState? || call.SaveConnection?)
    ensures MemoryCall(m, call).1 == TableCall(t, call).1 && Mirrors(MemoryCall(m, call).0, TableCall(t, call).0)
       <==> Agreeable(m, call)
  {
    match call
    case InsertApproval(a) => if a.approvalId !in m.approvals { InsertAgreesIff(m, t, a); }
    case SaveCredential(c) => SaveCredentialAgreesIff(m, t, c);
    case PutState(s) =>
    case SaveConnection(c) => SaveConnectionAgreesIff(m, t, c);
  }

  /** One call, exactly: same reply and mirrored states afterwards if and only if it is agreeable. */
  lemma CallAgreesIff(m: Memory, t: Tables, call: Call)
    requires Mirrors(m, t)
    ensures MemoryCall(m, call).1 == TableCall(t, call).1 && Mirrors(MemoryCall(m, call).0, TableCall(t, call).0)
       <==> Agreeable(m, call)
  {
    match call
    case Consume(_, _, _, _, _) => ConsumeAgreesIff(m, t, call);
    case InsertApproval(_) => InsertsAgreeIff(m, t, call);
    case SaveCredential(_) => InsertsAgreeIff(m, t, call);
    case PutState(_) => InsertsAgreeIff(m, t, call);
    case SaveConnection(_) => InsertsAgreeIff(m, t, call);
    case Claim(_, _, _) => ApprovalCallsAgree(m, t, call);
    case Settle(_, _, _, _) => ApprovalCallsAgree(m, t, call);
    case Expire(_, _) => ApprovalCallsAgree(m, t, call);
    case Invalidate(_, _) => ApprovalCallsAgree(m, t, call);
    case GetApproval(_) => ApprovalCallsAgree(m, t, call);
    case _ => CredentialCallsAgree(m, t, call);
  }

  lemma InsertAgreesIff(m: Memory, t: Tables, a: SendApproval)
    requires Mirrors(m, t) && a.approvalId !in m.approvals
    ensures ApprovalsMirror(m.approvals[a.approvalId := a], t.approvals[a.approvalId := Row.ApprovalToRow(a)])
       <==> a.draftId != Some("")
  {
    assert Row.ApprovalFromRow(Row.ApprovalToRow(a)) == a <==> a.draftId != Some("");
    var saved := t.approvals[a.approvalId := Row.ApprovalToRow(a)];
    assert saved[a.approvalId] == Row.ApprovalToRow(a);
  }

  lemma SaveCredentialAgreesIff(m: Memory, t: Tables, c: Credential)
    requires Mirrors(m, t)
    ensures CredentialsMirror(m.credentials[c.connectionId := c], Row.SaveCredential(t.credentials, c))
       <==> Agreeable(m, SaveCredential(c))
  {
    var saved := Row.SaveCredential(t.credentials, c)[c.connectionId];
    assert Row.CredentialFromRow(saved) == c <==> Agreeable(m, SaveCredential(c));
  }

  lemma SaveConnectionAgreesIff(m: Memory, t: Tables, c: Connection)
    requires Mirrors(m, t)
    ensures ConnectionsMirror(m.connections[c.connectionId := c], Row.SaveConnection(t.connections, c))
       <==> Agreeable(m, SaveConnection(c))
  {
    var saved := Row.SaveConnection(t.connections, c);
    assert saved[c.connectionId] == c <==> Agreeable(m, SaveConnection(c));
  }

  // ---- Whole runs ----

  function MemoryRun(m: Memory, calls: seq<Call>): seq<Reply>
    decreases calls
  {
    if calls == [] then []
    else var (m', r) := MemoryCall(m, calls[0]); [r] + MemoryRun(m', calls[1..])
  }

  function TableRun(t: Tables, calls: seq<Call>): seq<Reply>
    decreases calls
  {
    if calls == [] then []
    else var (t', r) := TableCall(t, calls[0]); [r] + TableRun(t', calls[1..])
  }

  predicate AllAgreeable(m: Memory, calls: seq<Call>)
    decreases calls
  {
    calls == [] || (Agreeable(m, calls[0]) && AllAgreeable(MemoryCall(m, calls[0]).0, calls[1..]))
  }

  /** No run of agreeable calls can tell the two implementations apart. */
  lemma {:induction false} RunsIndistinguishable(m: Memory, t: Tables, calls: seq<Call>)
    requires Mirrors(m, t) && AllAgreeable(m, calls)
    ensures MemoryRun(m, calls) == TableRun(t, calls)
    decreases calls
  {
    if calls == [] {
    } else {
      CallAgreesIff(m, t, calls[0]);
      RunsIndistinguishable(MemoryCall(m, calls[0]).0, TableCall(t, calls[0]).0, calls[1..]);
    }
  }
}
