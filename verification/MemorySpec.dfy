/** What each operation of the in-memory mail state does to the Map it works on. */
module MemorySpec {
  import opened Prelude
  import opened MailRecords

  type Approvals = map<string, SendApproval>
  type OAuthStates = map<Digest, OAuthState>
  type Credentials = map<string, Credential>
  type Connections = map<string, Connection>

  // ---- Send approvals ----

  predicate Claimable(a: SendApproval, at: int) {
    (a.status == Issued || a.status == FailedRetryable) && at < a.expiresAt
  }

  function Claim(m: Approvals, approvalId: string, operationId: string, at: int): (r: (Approvals, Option<SendApproval>))
  {
    if approvalId in m && Claimable(m[approvalId], at) then
      var claimed := m[approvalId].(status := Sending, operationId := Some(operationId), updatedAt := at);
      (m[approvalId := claimed], Some(claimed))
    else (m, None)
  }

  function Settle(m: Approvals, approvalId: string, operationId: string, outcome: SendOutcome, at: int)
    : (r: (Approvals, Result<SendApproval, SettleError>))
  {
    if approvalId !in m then (m, Err(NoSuchApproval))
    else
      var a := m[approvalId];
      if a.status != Sending then (m, Err(NotSending(a.status)))
      else if a.operationId != Some(operationId) then (m, Err(OperationMismatch))
      else
        var settled := a.(
          status := SettledStatus(outcome),
          providerMessageId := if outcome.Delivered? then Some(outcome.providerMessageId) else a.providerMessageId,
          updatedAt := at);
        (m[approvalId := settled], Ok(settled))
  }

  function Expire(m: Approvals, approvalId: string, at: int): Approvals {
    if approvalId in m && m[approvalId].status == Issued then
      m[approvalId := m[approvalId].(status := Expired, updatedAt := at)]
    else m
  }

  predicate Pending(a: SendApproval, connectionId: string) {
    a.connectionId == connectionId && (a.status == Issued || a.status == Sending)
  }

  function Invalidated(a: SendApproval, connectionId: string, at: int): SendApproval {
    if Pending(a, connectionId) then a.(status := FailedTerminal, updatedAt := at) else a
  }

  function Invalidate(m: Approvals, connectionId: string, at: int): Approvals {
    map id | id in m :: Invalidated(m[id], connectionId, at)
  }

  // ---- One-time OAuth states ----

  function Refusal(s: OAuthState, redirectUri: string, sessionId: string, now: int): Option<ConsumeError> {
    if s.consumedAt.Some? then Some(AlreadyUsed)
    else if now > s.expiresAt then Some(StateExpired)
    else if s.redirectUri != redirectUri then Some(RedirectMismatch)
    else if s.sessionId != sessionId then Some(SessionMismatch)
    else None
  }

  function Consume(m: OAuthStates, stateHash: Digest, redirectUri: string, sessionId: string, now: int)
    : (r: (OAuthStates, Result<OAuthState, ConsumeError>))
  {
    if stateHash !in m then (m, Err(UnknownState))
    else
      match Refusal(m[stateHash], redirectUri, sessionId, now)
      case Some(e) => (m, Err(e))
      case None =>
        var consumed := m[stateHash].(consumedAt := Some(now));
        (m[stateHash := consumed], Ok(consumed))
  }

  // ---- Credentials and connections ----

  function ScopedCredential(m: Credentials, connectionId: string, scope: TenantScope): Option<Credential> {
    if connectionId in m && m[connectionId].scope == scope then Some(m[connectionId]) else None
  }

  function ScopedConnection(m: Connections, connectionId: string, scope: TenantScope): Option<Connection> {
    if connectionId in m && m[connectionId].scope == scope then Some(m[connectionId]) else None
  }

  predicate Live(c: Option<Credential>) {
    c.Some? && c.value.revokedAt.None?
  }

  function TouchAfterRefresh(m: Credentials, connectionId: string, scope: TenantScope, expiresAt: int,
                             envelope: Option<Envelope>): Credentials
  {
    var record := ScopedCredential(m, connectionId, scope);
    if !Live(record) then m
    else
      m[connectionId := record.value.(
          accessTokenExpiresAt := Some(expiresAt),
          envelope := envelope.GetOr(record.value.envelope))]
  }

  function Revoke(m: Credentials, connectionId: string, scope: TenantScope, at: int): Credentials {
    var record := ScopedCredential(m, connectionId, scope);
    if !Live(record) then m
    else
      m[connectionId := record.value.(
          envelope := Envelope(record.value.envelope.keyId, "revoked", "revoked"),
          revokedAt := Some(at))]
  }
}
