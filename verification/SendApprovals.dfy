/** The send-approval service over the mail state: issue, begin, settle, reconcile. */
module SendApprovals {
  import opened Prelude
  import opened MailRecords
  import opened Hashing
  import opened MailState
  import Spec = MemorySpec

  const DEFAULT_TTL_MS := 15 * 60 * 1000
  const RECONCILE_AFTER_MS := 60 * 1000

  datatype SendError =
    | NoApproval | TenantMismatch | WorkspaceMismatch | ApprovalExpired | InFlight | AlreadySent | TerminallyFailed
    | ConnectionMismatch | DraftMismatch | RecipientMismatch | ContentMismatch | NoApprover
    | ClaimLost | AuditFailed | SettleRefused(reason: SettleError)

  /** The checks of beginSend before the claim, in their order. */
  function Refusal(a: SendApproval, input: SendInput, scope: Option<TenantScope>, now: int): Option<SendError> {
    if scope.Some? && a.scope.tenantId != scope.value.tenantId then Some(TenantMismatch)
    else if scope.Some? && a.scope.workspaceId != scope.value.workspaceId then Some(WorkspaceMismatch)
    else if now > a.expiresAt && a.status == Issued then Some(ApprovalExpired)
    else if a.status == Sending then Some(InFlight)
    else if a.status == Sent then Some(AlreadySent)
    else if a.status == FailedTerminal then Some(TerminallyFailed)
    else if a.status == Expired then Some(ApprovalExpired)
    else if a.connectionId != input.connectionId then Some(ConnectionMismatch)
    else if Truthy(input.draftId) && Truthy(a.draftId) && a.draftId != input.draftId then Some(DraftMismatch)
    else if a.recipientHash != RecipientHash(input.to) then Some(RecipientMismatch)
    else if a.bodyHash != BodyHash(input.subject.GetOr(""), input.body) then Some(ContentMismatch)
    else if a.approvedByUserId == "" then Some(NoApprover)
    else None
  }

  /** The bound fields agree with the message presented. */
  predicate Matches(a: SendApproval, input: SendInput) {
    && a.connectionId == input.connectionId
    && (Truthy(input.draftId) && Truthy(a.draftId) ==> a.draftId == input.draftId)
    && a.recipientHash == RecipientHash(input.to)
    && a.bodyHash == BodyHash(input.subject.GetOr(""), input.body)
    && a.approvedByUserId != ""
  }

  /** A begin that passes its checks and wins its claim: no expired, spent or in-flight record, and
      the message of the approval. A record exactly at its expiry passes the checks but not the claim. */
  lemma BeginAcceptsIff(a: SendApproval, input: SendInput, scope: Option<TenantScope>, now: int)
    ensures Refusal(a, input, scope, now) == None && Spec.Claimable(a, now) <==>
            && (scope.Some? ==> a.scope == scope.value)
            && a.status in {Issued, FailedRetryable} && now < a.expiresAt
            && Matches(a, input)
    ensures Refusal(a, input, scope, now) == None ==> Matches(a, input) && a.status in {Issued, FailedRetryable}
    ensures now == a.expiresAt && a.status == Issued ==>
            !Spec.Claimable(a, now) && Refusal(a, input, scope, now) != Some(ApprovalExpired)
  {
  }

  /** Every reason of a refusal, by itself: which approvals are refused for their scope or their state,
      whatever the input. A wrong tenant is told before a wrong workspace, and both before the state. */
  lemma RefusalByState(a: SendApproval, input: SendInput, scope: Option<TenantScope>, now: int)
    ensures var why := Refusal(a, input, scope, now);
      var inScope := scope.None? || a.scope == scope.value;
      && (why == Some(TenantMismatch) <==> scope.Some? && a.scope.tenantId != scope.value.tenantId)
      && (why == Some(WorkspaceMismatch) <==>
           scope.Some? && a.scope.tenantId == scope.value.tenantId && a.scope.workspaceId != scope.value.workspaceId)
      && (why == Some(ApprovalExpired) <==>
           inScope && (a.status == Expired || (a.status == Issued && a.expiresAt < now)))
      && (why == Some(InFlight) <==> inScope && a.status == Sending)
      && (why == Some(AlreadySent) <==> inScope && a.status == Sent)
      && (why == Some(TerminallyFailed) <==> inScope && a.status == FailedTerminal)
  {
  }

  /** In scope, and issued and not late, or retryable. */
  predicate InOrder(a: SendApproval, scope: Option<TenantScope>, now: int) {
    && (scope.None? || a.scope == scope.value)
    && (a.status == FailedRetryable || (a.status == Issued && now <= a.expiresAt))
  }

  /** And which inputs are refused for their fields, the first one that differs named. Two drafts differ only
      if both are named. */
  lemma RefusalByField(a: SendApproval, input: SendInput, scope: Option<TenantScope>, now: int)
    requires InOrder(a, scope, now)
    ensures var why := Refusal(a, input, scope, now);
      var connected := a.connectionId == input.connectionId;
      var drafts := BothNamed(a.draftId, input.draftId) ==> a.draftId == input.draftId;
      var addressed := a.recipientHash == RecipientHash(input.to);
      var worded := a.bodyHash == BodyHash(if input.subject.Some? then input.subject.value else "", input.body);
      && (why == Some(ConnectionMismatch) <==> !connected)
      && (why == Some(DraftMismatch) <==> connected && !drafts)
      && (why == Some(RecipientMismatch) <==> connected && drafts && !addressed)
      && (why == Some(ContentMismatch) <==> connected && drafts && addressed && !worded)
      && (why == Some(NoApprover) <==> connected && drafts && addressed && worded && a.approvedByUserId == "")
      && (why == None <==> connected && drafts && addressed && worded && a.approvedByUserId != "")
  {
  }

  predicate BothNamed(x: Option<string>, y: Option<string>) {
    x.Some? && y.Some? && x.value != "" && y.value != ""
  }

  /** The message a human approved. */
  datatype Message = Message(to: seq<string>, subject: string, body: string)

  predicate BoundTo(a: SendApproval, m: Message) {
    a.recipientHash == RecipientHash(m.to) && a.bodyHash == BodyHash(m.subject, m.body)
  }

  predicate WellFormedMessage(to: seq<string>, subject: string) {
    && '\n' !in subject
    && forall i | 0 <= i < |to| :: ',' !in to[i] && exists c :: c in to[i] && !IsSpace(c)
  }

  /** For well-formed messages the two hash checks pass exactly when the recipients pair off, each with the
      same address but for letter case and blanks around it, and subject and body are equal. */
  lemma ApprovalBindsMessage(a: SendApproval, m: Message, input: SendInput)
    requires BoundTo(a, m)
    requires WellFormedMessage(m.to, m.subject) && WellFormedMessage(input.to, input.subject.GetOr(""))
    ensures a.recipientHash == RecipientHash(input.to) && a.bodyHash == BodyHash(input.subject.GetOr(""), input.body)
       <==> && SameRecipients(m.to, input.to)
            && m.subject == input.subject.GetOr("")
            && m.body == input.body
  {
    NormalizedWellFormed(m.to);
    NormalizedWellFormed(input.to);
    RecipientHashBinds(m.to, input.to);
    SameRecipientsIff(m.to, input.to);
    BodyHashBinds(m.subject, m.body, input.subject.GetOr(""), input.body);
  }

  lemma NormalizedWellFormed(to: seq<string>)
    requires WellFormedMessage(to, "")
    ensures CommaFree(NormalizeAll(to)) && NormalizeAll(to) != [""]
  {
    forall i | 0 <= i < |to| ensures ',' !in NormalizeAll(to)[i] && NormalizeAll(to)[i] != "" {
      NormalizedKeeps(to[i]);
    }
    assert |to| > 0 ==> NormalizeAll(to)[0] != "";
  }

  /** Record one human approval. `approvalId` is a fresh random id, `auditOk` the audit store's answer. */
  method Issue(state: InMemoryMailState, approvalId: string, scope: TenantScope, connectionId: string,
               draftId: Option<string>, message: Message, approvedByUserId: string, ttl: Option<int>, at: int,
               auditOk: bool)
    returns (r: Result<SendApproval, SendError>)
    requires approvalId !in state.approvals
    modifies state`approvals, state`audit
    ensures r.Ok? <==> approvedByUserId != "" && auditOk
    ensures approvedByUserId == "" ==>
        state.approvals == old(state.approvals) && state.audit == old(state.audit) && r == Err(NoApprover)
    ensures approvedByUserId != "" ==>
      && state.approvals.Keys == old(state.approvals).Keys + {approvalId}
      && (forall id | id in old(state.approvals) :: state.approvals[id] == old(state.approvals)[id])
      && var a := state.approvals[approvalId];
      && a.approvalId == approvalId && a.scope == scope && a.connectionId == connectionId
      && a.draftId == (if Truthy(draftId) then draftId else None)
      && BoundTo(a, message) && a.approvedByUserId == approvedByUserId
      && a.approvedAt == at && a.expiresAt == at + (if ttl.Some? then ttl.value else 900_000)
      && a.operationId == None && a.providerMessageId == None
      && a.status == (if auditOk then Issued else Expired)
      && (auditOk ==>
           && r == Ok(a)
           && state.audit == old(state.audit) + [AuditEvent(scope, Some(connectionId), "mail.approval.issued")])
      && (!auditOk ==>
           && r == Err(AuditFailed) && state.audit == old(state.audit)
           && forall now :: !Spec.Claimable(a, now))
  {
    if approvedByUserId == "" { return Err(NoApprover); }
    var approval := SendApproval(approvalId, scope, connectionId, if Truthy(draftId) then draftId else None,
      RecipientHash(message.to), BodyHash(message.subject, message.body), approvedByUserId,
      at, at + ttl.GetOr(DEFAULT_TTL_MS), Issued, None, None, at);
    state.approvals := state.approvals[approvalId := approval];
    if !auditOk {
      state.Expire(approvalId, at);
      assert state.approvals == old(state.approvals)[approvalId := approval.(status := Expired, updatedAt := at)];
      return Err(AuditFailed);
    }
    state.audit := state.audit + [AuditEvent(scope, Some(connectionId), "mail.approval.issued")];
    return Ok(approval);
  }

  /** Begin a send: read, check, claim, audit. The clock is read once for the checks and once for the claim. */
  method BeginSend(state: InMemoryMailState, input: SendInput, scope: Option<TenantScope>,
                   operationId: string, checkedAt: int, claimedAt: int, auditOk: bool)
    returns (r: Result<SendApproval, SendError>)
    modifies state`approvals, state`audit
    ensures var id := input.approvalId;
      var refusal := if id in old(state.approvals) then Refusal(old(state.approvals)[id], input, scope, checkedAt)
          else Some(NoApproval);
      && (refusal.Some? ==>
          && r == Err(refusal.value) && state.audit == old(state.audit)
          && state.approvals == if refusal == Some(ApprovalExpired)
               then Spec.Expire(old(state.approvals), id, checkedAt) else old(state.approvals))
      && (refusal.None? ==>
          var (claimed, winner) := Spec.Claim(old(state.approvals), id, operationId, claimedAt);
          && state.approvals == claimed
          && r == (if winner.None? then Err(ClaimLost) else if !auditOk then Err(AuditFailed) else Ok(winner.value))
          && state.audit == old(state.audit) + if r.Err? then []
               else [AuditEvent(r.value.scope, Some(r.value.connectionId), "mail.approval.claimed")])
  {
    if input.approvalId !in state.approvals { return Err(NoApproval); }
    var approval := state.approvals[input.approvalId];
    if scope.Some? {
      if approval.scope.tenantId != scope.value.tenantId { return Err(TenantMismatch); }
      if approval.scope.workspaceId != scope.value.workspaceId { return Err(WorkspaceMismatch); }
    }
    if checkedAt > approval.expiresAt && approval.status == Issued {
      state.Expire(input.approvalId, checkedAt);
      return Err(ApprovalExpired);
    }
    match approval.status {
      case Sending => return Err(InFlight);
      case Sent => return Err(AlreadySent);
      case FailedTerminal => return Err(TerminallyFailed);
      case Expired => return Err(ApprovalExpired);
      case Issued =>
      case FailedRetryable =>
    }
    if approval.connectionId != input.connectionId { return Err(ConnectionMismatch); }
    if Truthy(input.draftId) && Truthy(approval.draftId) && approval.draftId != input.draftId {
      return Err(DraftMismatch);
    }
    if approval.recipientHash != RecipientHash(input.to) { return Err(RecipientMismatch); }
    if approval.bodyHash != BodyHash(input.subject.GetOr(""), input.body) { return Err(ContentMismatch); }
    if approval.approvedByUserId == "" { return Err(NoApprover); }
    var claimed := state.Claim(input.approvalId, operationId, claimedAt);
    if claimed.None? { return Err(ClaimLost); }
    if !auditOk { return Err(AuditFailed); }
    state.audit := state.audit + [AuditEvent(approval.scope, Some(approval.connectionId), "mail.approval.claimed")];
    return Ok(claimed.value);
  }

  /** Settle a claimed send, then audit. */
  method SettleSend(state: InMemoryMailState, approvalId: string, operationId: string, outcome: SendOutcome, at: int,
                    auditOk: bool)
    returns (r: Result<SendApproval, SendError>)
    modifies state`approvals, state`audit
    ensures var (settled, reply) := Spec.Settle(old(state.approvals), approvalId, operationId, outcome, at);
      && state.approvals == settled
      && r == (if reply.Err? then Err(SettleRefused(reply.error)) else if !auditOk then Err(AuditFailed)
           else Ok(reply.value))
      && state.audit == old(state.audit) + if r.Err? then []
           else [AuditEvent(r.value.scope, Some(r.value.connectionId), "mail.send.settled")]
  {
    var reply := state.Settle(approvalId, operationId, outcome, at);
    if reply.Err? { return Err(SettleRefused(reply.error)); }
    if !auditOk { return Err(AuditFailed); }
    state.audit := state.audit + [AuditEvent(reply.value.scope, Some(reply.value.connectionId), "mail.send.settled")];
    return Ok(reply.value);
  }

  /** Reconcile an ambiguous record with the verdict of a provider lookup. */
  method ReconcileSend(state: InMemoryMailState, approvalId: string, wasDelivered: bool, messageId: Option<string>,
                       at: int, auditOk: bool)
    returns (r: Result<bool, SendError>)
    modifies state`approvals, state`audit, state`reconciliation
    ensures var before := old(state.approvals);
      var due := approvalId in before && before[approvalId].status == Sending && before[approvalId].operationId.Some?;
      && (!due ==>
           && r == Ok(false) && state.approvals == before && state.reconciliation == old(state.reconciliation)
           && state.audit == old(state.audit))
      && (due ==>
          && state.approvals.Keys == before.Keys
          && (forall id | id in before && id != approvalId :: state.approvals[id] == before[id])
          && state.approvals[approvalId] == before[approvalId].(
               status := if wasDelivered then Sent else FailedRetryable,
               providerMessageId := if !wasDelivered then before[approvalId].providerMessageId
                 else if messageId.Some? then messageId
                 else Some(before[approvalId].providerMessageId.GetOr("unknown")),
               updatedAt := at)
          && state.reconciliation == old(state.reconciliation)
               + [ReconciliationRecord(approvalId, before[approvalId].operationId.value, at, wasDelivered, messageId)]
          && r == (if auditOk then Ok(true) else Err(AuditFailed))
          && state.audit == old(state.audit) + if !auditOk then []
               else [AuditEvent(before[approvalId].scope, Some(before[approvalId].connectionId),
                                "mail.reconciliation.decided")])
  {
    if approvalId !in state.approvals { return Ok(false); }
    var approval := state.approvals[approvalId];
    if approval.status != Sending || approval.operationId.None? { return Ok(false); }
    var outcome := if wasDelivered
      then Delivered(messageId.GetOr(approval.providerMessageId.GetOr("unknown")))
      else NotDelivered(true);
    var settled := state.Settle(approvalId, approval.operationId.value, outcome, at);
    state.reconciliation := state.reconciliation
      + [ReconciliationRecord(approvalId, approval.operationId.value, at, wasDelivered, messageId)];
    if !auditOk { return Err(AuditFailed); }
    state.audit := state.audit
        + [AuditEvent(approval.scope, Some(approval.connectionId), "mail.reconciliation.decided")];
    return Ok(true);
  }

  /** The queue holds a claimed, unresolved record from one minute after its claim on. */
  method ApprovalsNeedingReconciliation(state: InMemoryMailState, now: int) returns (queue: seq<SendApproval>)
    requires Keyed(state.approvals)
    ensures OldestFirst(queue)
    ensures forall a :: a in queue <==>
      exists id :: id in state.approvals && a == state.approvals[id] && a.status == Sending
          && a.updatedAt + 60_000 <= now
    ensures forall i, j | 0 <= i < j < |queue| :: queue[i].approvalId != queue[j].approvalId
  {
    queue := state.NeedingReconciliation(now - RECONCILE_AFTER_MS);
    forall a ensures a in queue <==> a in StuckRecords(state.approvals, now - RECONCILE_AFTER_MS) {
      assert a in queue <==> a in multiset(queue);
    }
    EachOnce(queue, StuckRecords(state.approvals, now - RECONCILE_AFTER_MS));
    forall i, j | 0 <= i < j < |queue| ensures queue[i].approvalId != queue[j].approvalId {
      assert queue[i] in queue && queue[j] in queue;
    }
  }

  lemma EachOnce<T>(s: seq<T>, all: set<T>)
    requires multiset(s) == multiset(all)
    ensures forall i, j | 0 <= i < j < |s| :: s[i] != s[j]
  {
    forall i, j | 0 <= i < j < |s| ensures s[i] != s[j] {
      assert s == s[..j] + [s[j]] + s[j + 1..];
      assert s[i] == s[..j][i];
      assert multiset(s)[s[j]] == multiset(s[..j])[s[j]] + 1 + multiset(s[j + 1..])[s[j]];
      assert s[i] in multiset(s[..j]);
    }
  }
}
