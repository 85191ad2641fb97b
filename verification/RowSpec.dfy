/** What each SQL statement of the durable mail state does to its table. */
module RowSpec {
  import opened Prelude
  import opened MailRecords

  /** One row of mail_send_approvals; the nullable columns are options. */
  datatype ApprovalRow = ApprovalRow(
    approvalId: string, tenantId: string, workspaceId: string, connectionId: string, draftId: Option<string>,
    recipientHash: Digest, bodyHash: Digest, approvedByUserId: string, approvedAt: int, expiresAt: int,
    status: ApprovalStatus, operationId: Option<string>, providerMessageId: Option<string>, updatedAt: int)

  /** One row of mail_credentials; the envelope is spread over three columns. */
  datatype CredentialRow = CredentialRow(
    connectionId: string, tenantId: string, workspaceId: string, userId: string, provider: string,
    keyId: string, wrappedDataKey: string, ciphertext: string, grantedScopes: seq<string>,
    connectedEmail: string, accessTokenExpiresAt: Option<int>, revokedAt: Option<int>)

  function ApprovalFromRow(r: ApprovalRow): SendApproval {
    SendApproval(r.approvalId, TenantScope(r.tenantId, r.workspaceId), r.connectionId,
      if Truthy(r.draftId) then r.draftId else None,
      r.recipientHash, r.bodyHash, r.approvedByUserId, r.approvedAt, r.expiresAt,
      r.status, r.operationId, r.providerMessageId, r.updatedAt)
  }

  function ApprovalToRow(a: SendApproval): ApprovalRow {
    ApprovalRow(a.approvalId, a.scope.tenantId, a.scope.workspaceId, a.connectionId, a.draftId,
      a.recipientHash, a.bodyHash, a.approvedByUserId, a.approvedAt, a.expiresAt,
      a.status, a.operationId, a.providerMessageId, a.updatedAt)
  }

  function CredentialFromRow(r: CredentialRow): Credential {
    Credential(r.connectionId, TenantScope(r.tenantId, r.workspaceId), r.userId, r.provider,
      Envelope(r.keyId, r.wrappedDataKey, r.ciphertext), r.grantedScopes, r.connectedEmail,
      r.accessTokenExpiresAt, r.revokedAt)
  }

  function CredentialToRow(c: Credential): CredentialRow {
    CredentialRow(c.connectionId, c.scope.tenantId, c.scope.workspaceId, c.userId, c.provider,
      c.envelope.keyId, c.envelope.wrappedDataKey, c.envelope.ciphertext, c.grantedScopes,
      c.connectedEmail, c.accessTokenExpiresAt, c.revokedAt)
  }

  type ApprovalTable = map<string, ApprovalRow>
  type OAuthTable = map<Digest, OAuthState>
  type CredentialTable = map<string, CredentialRow>
  type ConnectionTable = map<string, Connection>

  // ---- mail_send_approvals ----

  predicate ClaimWhere(r: ApprovalRow, approvalId: string, at: int) {
    r.approvalId == approvalId && r.status in {Issued, FailedRetryable} && r.expiresAt > at
  }

  function ClaimUpdate(t: ApprovalTable, approvalId: string, operationId: string, at: int): ApprovalTable {
    map k | k in t :: if ClaimWhere(t[k], approvalId, at)
      then t[k].(status := Sending, operationId := Some(operationId), updatedAt := at) else t[k]
  }

  function Claim(t: ApprovalTable, approvalId: string, operationId: string,
                 at: int): (r: (ApprovalTable, Option<SendApproval>))
  {
    var updated := ClaimUpdate(t, approvalId, operationId, at);
    (updated, if approvalId in t && ClaimWhere(t[approvalId], approvalId, at)
              then Some(ApprovalFromRow(updated[approvalId])) else None)
  }

  predicate SettleWhere(r: ApprovalRow, approvalId: string, operationId: string) {
    r.approvalId == approvalId && r.status == Sending && r.operationId == Some(operationId)
  }

  function SettleUpdate(t: ApprovalTable, approvalId: string, operationId: string, status: ApprovalStatus,
                        messageId: Option<string>, at: int): ApprovalTable
  {
    map k | k in t :: if SettleWhere(t[k], approvalId, operationId)
      then t[k].(status := status,
                 providerMessageId := if messageId.Some? then messageId else t[k].providerMessageId,
                 updatedAt := at)
      else t[k]
  }

  function OutcomeMessage(outcome: SendOutcome): Option<string> {
    if outcome.Delivered? then Some(outcome.providerMessageId) else None
  }

  function Settle(t: ApprovalTable, approvalId: string, operationId: string, outcome: SendOutcome, at: int)
    : (r: (ApprovalTable, Result<SendApproval, SettleError>))
  {
    var updated := SettleUpdate(t, approvalId, operationId, SettledStatus(outcome), OutcomeMessage(outcome), at);
    (updated,
     if approvalId in t && SettleWhere(t[approvalId], approvalId, operationId)
         then Ok(ApprovalFromRow(updated[approvalId]))
     else if approvalId !in t then Err(NoSuchApproval)
     else if t[approvalId].status != Sending then Err(NotSending(t[approvalId].status))
     else Err(OperationMismatch))
  }

  function Expire(t: ApprovalTable, approvalId: string, at: int): ApprovalTable {
    map k | k in t :: if t[k].approvalId == approvalId && t[k].status == Issued
      then t[k].(status := Expired, updatedAt := at) else t[k]
  }

  function Invalidate(t: ApprovalTable, connectionId: string, at: int): ApprovalTable {
    map k | k in t :: if t[k].connectionId == connectionId && t[k].status in {Issued, Sending}
      then t[k].(status := FailedTerminal, updatedAt := at) else t[k]
  }

  // ---- mail_oauth_states ----

  predicate ConsumeWhere(s: OAuthState, stateHash: Digest, redirectUri: string, sessionId: string, now: int) {
    && s.stateHash == stateHash && s.consumedAt.None? && s.expiresAt > now
    && s.redirectUri == redirectUri && s.sessionId == sessionId
  }

  function ConsumeUpdate(t: OAuthTable, stateHash: Digest, redirectUri: string, sessionId: string, now: int): OAuthTable
  {
    map k | k in t :: if ConsumeWhere(t[k], stateHash, redirectUri, sessionId, now)
      then t[k].(consumedAt := Some(now)) else t[k]
  }

  /** The follow-up read of a missed UPDATE happens at its own instant, `later`. */
  function Consume(t: OAuthTable, stateHash: Digest, redirectUri: string, sessionId: string, now: int, later: int)
    : (r: (OAuthTable, Result<OAuthState, ConsumeError>))
  {
    var updated := ConsumeUpdate(t, stateHash, redirectUri, sessionId, now);
    (updated,
     if stateHash in t && ConsumeWhere(t[stateHash], stateHash, redirectUri, sessionId, now) then Ok(updated[stateHash])
     else if stateHash !in t then Err(UnknownState)
     else if t[stateHash].consumedAt.Some? then Err(AlreadyUsed)
     else if later > t[stateHash].expiresAt then Err(StateExpired)
     else if t[stateHash].redirectUri != redirectUri then Err(RedirectMismatch)
     else if t[stateHash].sessionId != sessionId then Err(SessionMismatch)
     else Err(AlreadyUsed))
  }

  // ---- mail_credentials and mail_connections ----

  /** INSERT ... ON CONFLICT DO UPDATE: the identity columns of an existing row stay as they were. */
  function SaveCredential(t: CredentialTable, c: Credential): CredentialTable {
    var row := CredentialToRow(c);
    t[c.connectionId :=
      if c.connectionId !in t then row
      else t[c.connectionId].(keyId := row.keyId, wrappedDataKey := row.wrappedDataKey, ciphertext := row.ciphertext,
        grantedScopes := row.grantedScopes, accessTokenExpiresAt := row.accessTokenExpiresAt,
        revokedAt := row.revokedAt)]
  }

  function SaveConnection(t: ConnectionTable, c: Connection): ConnectionTable {
    t[c.connectionId := if c.connectionId !in t then c
        else t[c.connectionId].(status := c.status, connectedAt := c.connectedAt)]
  }

  predicate CredentialWhere(r: CredentialRow, connectionId: string, scope: TenantScope) {
    r.connectionId == connectionId && r.tenantId == scope.tenantId && r.workspaceId == scope.workspaceId
  }

  function GetCredential(t: CredentialTable, connectionId: string, scope: TenantScope): Option<Credential> {
    if connectionId in t && CredentialWhere(t[connectionId], connectionId, scope)
        then Some(CredentialFromRow(t[connectionId])) else None
  }

  function GetConnection(t: ConnectionTable, connectionId: string, scope: TenantScope): Option<Connection> {
    if connectionId in t && t[connectionId].connectionId == connectionId && t[connectionId].scope == scope
        then Some(t[connectionId]) else None
  }

  predicate TouchWhere(r: CredentialRow, connectionId: string, scope: TenantScope) {
    CredentialWhere(r, connectionId, scope) && r.revokedAt.None?
  }

  function TouchExpiry(t: CredentialTable, connectionId: string, scope: TenantScope, expiresAt: int): CredentialTable {
    map k | k in t :: if TouchWhere(t[k], connectionId, scope) then t[k].(accessTokenExpiresAt := Some(expiresAt))
        else t[k]
  }

  function TouchEnvelope(t: CredentialTable, connectionId: string, scope: TenantScope, expiresAt: int,
                         envelope: Envelope): CredentialTable
  {
    map k | k in t :: if TouchWhere(t[k], connectionId, scope)
      then t[k].(accessTokenExpiresAt := Some(expiresAt), keyId := envelope.keyId,
                 wrappedDataKey := envelope.wrappedDataKey, ciphertext := envelope.ciphertext)
      else t[k]
  }

  function TouchAfterRefresh(t: CredentialTable, connectionId: string, scope: TenantScope, expiresAt: int,
                             envelope: Option<Envelope>): CredentialTable
  {
    if envelope.Some? then TouchEnvelope(t, connectionId, scope, expiresAt, envelope.value)
        else TouchExpiry(t, connectionId, scope, expiresAt)
  }

  function Revoke(t: CredentialTable, connectionId: string, scope: TenantScope, at: int): CredentialTable {
    map k | k in t ::
      if CredentialWhere(t[k], connectionId, scope) && t[k].revokedAt.None?
      then t[k].(revokedAt := Some(at), ciphertext := "revoked", wrappedDataKey := "revoked") else t[k]
  }
}
