/** The record shapes the mail plane stores and passes around. */
module MailRecords {
  import opened Prelude

  /** SHA-256 treated symbolically: two digests are equal exactly when their preimages are. */
  datatype Digest = Sha256(preimage: string)

  datatype TenantScope = TenantScope(tenantId: string, workspaceId: string)

  datatype ApprovalStatus = Issued | Sending | Sent | FailedRetryable | FailedTerminal | Expired

  datatype SendApproval = SendApproval(
    approvalId: string,
    scope: TenantScope,
    connectionId: string,
    draftId: Option<string>,
    recipientHash: Digest,
    bodyHash: Digest,
    approvedByUserId: string,
    approvedAt: int,
    expiresAt: int,
    status: ApprovalStatus,
    operationId: Option<string>,
    providerMessageId: Option<string>,
    updatedAt: int)

  /** What the caller of a guarded send presents. */
  datatype SendInput = SendInput(
    approvalId: string,
    connectionId: string,
    draftId: Option<string>,
    to: seq<string>,
    subject: Option<string>,
    body: string)

  datatype SendOutcome = Delivered(providerMessageId: string) | NotDelivered(retryable: bool)

  /** A record that no operation leaves. */
  predicate Final(s: ApprovalStatus) { s in {Sent, FailedTerminal, Expired} }

  function SettledStatus(outcome: SendOutcome): ApprovalStatus {
    match outcome
    case Delivered(_) => Sent
    case NotDelivered(retryable) => if retryable then FailedRetryable else FailedTerminal
  }

  /** Everything a claim checks before sending is the same; no operation may touch any of it. */
  predicate SameBinding(a: SendApproval, b: SendApproval) {
    b == a.(status := b.status, operationId := b.operationId, providerMessageId := b.providerMessageId,
        updatedAt := b.updatedAt)
  }

  datatype SettleError = NoSuchApproval | NotSending(status: ApprovalStatus) | OperationMismatch

  datatype OAuthState = OAuthState(
    stateHash: Digest,
    scope: TenantScope,
    userId: string,
    sessionId: string,
    redirectUri: string,
    codeVerifierEncrypted: Envelope,
    createdAt: int,
    expiresAt: int,
    consumedAt: Option<int>)

  datatype ConsumeError = UnknownState | AlreadyUsed | StateExpired | RedirectMismatch | SessionMismatch

  /** A sealed secret: key id, wrapped data key and ciphertext, the last two as base64 text. */
  datatype Envelope = Envelope(keyId: string, wrappedDataKey: string, ciphertext: string)

  datatype Credential = Credential(
    connectionId: string,
    scope: TenantScope,
    userId: string,
    provider: string,
    envelope: Envelope,
    grantedScopes: seq<string>,
    connectedEmail: string,
    accessTokenExpiresAt: Option<int>,
    revokedAt: Option<int>)

  datatype Connection = Connection(
    connectionId: string,
    scope: TenantScope,
    userId: string,
    provider: string,
    emailAddress: string,
    authKind: string,
    status: string,
    connectedAt: int)

  datatype ReconciliationRecord = ReconciliationRecord(
    approvalId: string,
    operationId: string,
    checkedAt: int,
    delivered: bool,
    detail: Option<string>)

  datatype AuditEvent = AuditEvent(scope: TenantScope, connectionId: Option<string>, action: string)
}
