/** The durable mail state: tables changed by conditional UPDATE statements, each followed, when it
    missed, by a read that only diagnoses the refusal. Read through the row mappers, every one of them
    does what the plain-map operation of MemorySpec does; the exception is named at ConsumeState. */
module MailStateStore {
  import opened Prelude
  import opened MailRecords
  import opened RowSpec
  import Mem = MemorySpec
  import Twin = TwinSimulation

  /** The records the rows stand for. */
  ghost function ApprovalsOf(t: ApprovalTable): Mem.Approvals {
    map id | id in t :: ApprovalFromRow(t[id])
  }

  ghost function CredentialsOf(t: CredentialTable): Mem.Credentials {
    map id | id in t :: CredentialFromRow(t[id])
  }

  ghost predicate ApprovalsKeyed(t: ApprovalTable) {
    forall id | id in t :: t[id].approvalId == id
  }

  ghost predicate CredentialsKeyed(t: CredentialTable) {
    forall id | id in t :: t[id].connectionId == id
  }

  lemma ApprovalsMirrored(t: ApprovalTable, m: Mem.Approvals)
    ensures Twin.ApprovalsMirror(m, t) <==> ApprovalsKeyed(t) && m == ApprovalsOf(t)
  {
    if Twin.ApprovalsMirror(m, t) {
      assert forall id | id in m :: m[id] == ApprovalsOf(t)[id];
    }
  }

  lemma CredentialsMirrored(t: CredentialTable, m: Mem.Credentials)
    ensures Twin.CredentialsMirror(m, t) <==> CredentialsKeyed(t) && m == CredentialsOf(t)
  {
    if Twin.CredentialsMirror(m, t) {
      assert forall id | id in m :: m[id] == CredentialsOf(t)[id];
    }
  }

  class PostgresMailState {
    var approvalTable: ApprovalTable
    var oauthTable: OAuthTable
    var credentialTable: CredentialTable

    constructor ()
      ensures Valid() && approvalTable == map[] && oauthTable == map[] && credentialTable == map[]
    {
      approvalTable, oauthTable, credentialTable := map[], map[], map[];
    }

    /** Primary keys name their rows. */
    ghost predicate Valid()
      reads this
    {
      ApprovalsKeyed(approvalTable) && CredentialsKeyed(credentialTable)
          && forall h | h in oauthTable :: oauthTable[h].stateHash == h
    }

    ghost function Approvals(): Mem.Approvals
      reads this
    {
      ApprovalsOf(approvalTable)
    }

    ghost function Credentials(): Mem.Credentials
      reads this
    {
      CredentialsOf(credentialTable)
    }

    method ClaimApproval(approvalId: string, operationId: string, at: int) returns (r: Option<SendApproval>)
      requires Valid()
      modifies this`approvalTable
      ensures Valid() && (Approvals(), r) == Mem.Claim(old(Approvals()), approvalId, operationId, at)
    {
      ghost var before := approvalTable;
      var returning := approvalId in approvalTable && ClaimWhere(approvalTable[approvalId], approvalId, at);
      approvalTable := map k | k in approvalTable ::
        if ClaimWhere(approvalTable[k], approvalId, at)
        then approvalTable[k].(status := Sending, operationId := Some(operationId), updatedAt := at)
            else approvalTable[k];
      r := if returning then Some(ApprovalFromRow(approvalTable[approvalId])) else None;
      ApprovalsMirrored(before, ApprovalsOf(before));
      Twin.ClaimAgrees(ApprovalsOf(before), before, approvalId, operationId, at);
      assert (approvalTable, r) == RowSpec.Claim(before, approvalId, operationId, at);
      ApprovalsMirrored(approvalTable, Mem.Claim(ApprovalsOf(before), approvalId, operationId, at).0);
    }

    method SettleApproval(approvalId: string, operationId: string, outcome: SendOutcome, at: int)
      returns (r: Result<SendApproval, SettleError>)
      requires Valid()
      modifies this`approvalTable
      ensures Valid() && (Approvals(), r) == Mem.Settle(old(Approvals()), approvalId, operationId, outcome, at)
    {
      ghost var before := approvalTable;
      var returning := approvalId in approvalTable && SettleWhere(approvalTable[approvalId], approvalId, operationId);
      approvalTable := SettleUpdate(approvalTable, approvalId, operationId, SettledStatus(outcome),
          OutcomeMessage(outcome), at);
      if returning {
        r := Ok(ApprovalFromRow(approvalTable[approvalId]));
      } else if approvalId !in approvalTable {
        r := Err(NoSuchApproval);
      } else if approvalTable[approvalId].status != Sending {
        r := Err(NotSending(approvalTable[approvalId].status));
      } else {
        r := Err(OperationMismatch);
      }
      ApprovalsMirrored(before, ApprovalsOf(before));
      Twin.SettleAgrees(ApprovalsOf(before), before, approvalId, operationId, outcome, at);
      assert (approvalTable, r) == RowSpec.Settle(before, approvalId, operationId, outcome, at);
      ApprovalsMirrored(approvalTable, Mem.Settle(ApprovalsOf(before), approvalId, operationId, outcome, at).0);
    }

    /** A state is spent exactly when it is unused, strictly before its expiry, and presented with its own
        redirect and session. Table and reply are those of the plain map except where the two split, and
        there the call is refused and changes nothing. */
    method ConsumeState(stateHash: Digest, redirectUri: string, sessionId: string, now: int, later: int)
      returns (r: Result<OAuthState, ConsumeError>)
      requires Valid()
      modifies this`oauthTable
      ensures Valid()
      ensures r.Ok? <==>
        && stateHash in old(oauthTable) && old(oauthTable)[stateHash].consumedAt.None?
        && now < old(oauthTable)[stateHash].expiresAt
        && old(oauthTable)[stateHash].redirectUri == redirectUri && old(oauthTable)[stateHash].sessionId == sessionId
      ensures r == Mem.Consume(old(oauthTable), stateHash, redirectUri, sessionId, now).1 <==>
        !Twin.ConsumeSplits(old(oauthTable), stateHash, redirectUri, sessionId, now, later)
      ensures !Twin.ConsumeSplits(old(oauthTable), stateHash, redirectUri, sessionId, now, later) ==>
        oauthTable == Mem.Consume(old(oauthTable), stateHash, redirectUri, sessionId, now).0
      ensures r.Err? ==> oauthTable == old(oauthTable)
    {
      Twin.ConsumeReplies(oauthTable, stateHash, redirectUri, sessionId, now, later);
      ghost var before := oauthTable;
      var returning := stateHash in oauthTable
          && ConsumeWhere(oauthTable[stateHash], stateHash, redirectUri, sessionId, now);
      oauthTable := ConsumeUpdate(oauthTable, stateHash, redirectUri, sessionId, now);
      if returning { return Ok(oauthTable[stateHash]); }
      assert oauthTable == before;
      if stateHash !in oauthTable { return Err(UnknownState); }
      var row := oauthTable[stateHash];
      if row.consumedAt.Some? { return Err(AlreadyUsed); }
      if later > row.expiresAt { return Err(StateExpired); }
      if row.redirectUri != redirectUri { return Err(RedirectMismatch); }
      if row.sessionId != sessionId { return Err(SessionMismatch); }
      return Err(AlreadyUsed);
    }

    method ExpireApproval(approvalId: string, at: int)
      requires Valid()
      modifies this`approvalTable
      ensures Valid() && Approvals() == Mem.Expire(old(Approvals()), approvalId, at)
    {
      ghost var before := approvalTable;
      approvalTable := map k | k in approvalTable ::
        if approvalTable[k].approvalId == approvalId && approvalTable[k].status == Issued
        then approvalTable[k].(status := Expired, updatedAt := at) else approvalTable[k];
      ApprovalsMirrored(before, ApprovalsOf(before));
      Twin.ExpireAgrees(ApprovalsOf(before), before, approvalId, at);
      assert approvalTable == RowSpec.Expire(before, approvalId, at);
      ApprovalsMirrored(approvalTable, Mem.Expire(ApprovalsOf(before), approvalId, at));
    }

    method InvalidateForConnection(connectionId: string, at: int)
      requires Valid()
      modifies this`approvalTable
      ensures Valid() && Approvals() == Mem.Invalidate(old(Approvals()), connectionId, at)
    {
      ghost var before := approvalTable;
      approvalTable := map k | k in approvalTable ::
        if approvalTable[k].connectionId == connectionId && approvalTable[k].status in {Issued, Sending}
        then approvalTable[k].(status := FailedTerminal, updatedAt := at) else approvalTable[k];
      ApprovalsMirrored(before, ApprovalsOf(before));
      Twin.InvalidateAgrees(ApprovalsOf(before), before, connectionId, at);
      assert approvalTable == RowSpec.Invalidate(before, connectionId, at);
      ApprovalsMirrored(approvalTable, Mem.Invalidate(ApprovalsOf(before), connectionId, at));
    }

    method RevokeCredential(connectionId: string, scope: TenantScope, at: int)
      requires Valid()
      modifies this`credentialTable
      ensures Valid() && Credentials() == Mem.Revoke(old(Credentials()), connectionId, scope, at)
    {
      ghost var before := credentialTable;
      credentialTable := map k | k in credentialTable ::
        if CredentialWhere(credentialTable[k], connectionId, scope) && credentialTable[k].revokedAt.None?
        then credentialTable[k].(revokedAt := Some(at), ciphertext := "revoked", wrappedDataKey := "revoked")
            else credentialTable[k];
      CredentialsMirrored(before, CredentialsOf(before));
      Twin.RevokeAgrees(CredentialsOf(before), before, connectionId, scope, at);
      assert credentialTable == RowSpec.Revoke(before, connectionId, scope, at);
      CredentialsMirrored(credentialTable, Mem.Revoke(CredentialsOf(before), connectionId, scope, at));
    }

    method TouchCredential(connectionId: string, scope: TenantScope, expiresAt: int, envelope: Option<Envelope>)
      requires Valid()
      modifies this`credentialTable
      ensures Valid()
      ensures Credentials() == Mem.TouchAfterRefresh(old(Credentials()), connectionId, scope, expiresAt, envelope)
    {
      ghost var before := credentialTable;
      if envelope.Some? {
        credentialTable := TouchEnvelope(credentialTable, connectionId, scope, expiresAt, envelope.value);
      } else {
        credentialTable := TouchExpiry(credentialTable, connectionId, scope, expiresAt);
      }
      CredentialsMirrored(before, CredentialsOf(before));
      Twin.TouchAgrees(CredentialsOf(before), before, connectionId, scope, expiresAt, envelope);
      assert credentialTable == RowSpec.TouchAfterRefresh(before, connectionId, scope, expiresAt, envelope);
      CredentialsMirrored(credentialTable,
          Mem.TouchAfterRefresh(CredentialsOf(before), connectionId, scope, expiresAt, envelope));
    }
  }
}
