/** The two mail-state objects driven side by side, one operation after another. */
module TwinStores {
  import opened Prelude
  import opened MailRecords
  import opened MailState
  import opened MailStateStore
  import Twin = TwinSimulation

  datatype Operation =
    | Claim(approvalId: string, operationId: string, at: int)
    | Settle(approvalId: string, operationId: string, outcome: SendOutcome, at: int)
    | Expire(approvalId: string, at: int)
    | Invalidate(connectionId: string, at: int)
    | Revoke(connectionId: string, scope: TenantScope, at: int)
    | Touch(connectionId: string, scope: TenantScope, expiresAt: int, envelope: Option<Envelope>)
    | Consume(stateHash: Digest, redirectUri: string, sessionId: string, at: int, later: int)

  datatype Reply =
    | Done
    | Claimed(claimed: Option<SendApproval>)
    | Settled(settled: Result<SendApproval, SettleError>)
    | Consumed(consumed: Result<OAuthState, ConsumeError>)

  ghost predicate Mirrors(memory: InMemoryMailState, tables: PostgresMailState)
    reads memory, tables
  {
    && tables.Valid()
    && memory.approvals == tables.Approvals() && memory.credentials == tables.Credentials()
    && memory.oauthStates == tables.oauthTable
  }

  ghost predicate Splits(states: map<Digest, OAuthState>, op: Operation) {
    op.Consume? && Twin.ConsumeSplits(states, op.stateHash, op.redirectUri, op.sessionId, op.at, op.later)
  }

  /** One operation on each store: equal replies and mirrored stores, except exactly where consume splits. */
  method Beside(memory: InMemoryMailState, tables: PostgresMailState, op: Operation) returns (left: Reply, right: Reply)
    requires Mirrors(memory, tables)
    modifies memory, tables
    ensures left == right <==> !Splits(old(memory.oauthStates), op)
    ensures left == right ==> Mirrors(memory, tables)
    ensures left != right ==> tables.oauthTable == old(memory.oauthStates)
  {
    left, right := Done, Done;
    match op {
      case Claim(id, operationId, at) =>
        var a := memory.Claim(id, operationId, at);
        var b := tables.ClaimApproval(id, operationId, at);
        left, right := Claimed(a), Claimed(b);
      case Settle(id, operationId, outcome, at) =>
        var a := memory.Settle(id, operationId, outcome, at);
        var b := tables.SettleApproval(id, operationId, outcome, at);
        left, right := Settled(a), Settled(b);
      case Expire(id, at) =>
        memory.Expire(id, at);
        tables.ExpireApproval(id, at);
      case Invalidate(connectionId, at) =>
        memory.InvalidateForConnection(connectionId, at);
        tables.InvalidateForConnection(connectionId, at);
      case Revoke(connectionId, scope, at) =>
        memory.RevokeCredential(connectionId, scope, at);
        tables.RevokeCredential(connectionId, scope, at);
      case Touch(connectionId, scope, expiresAt, envelope) =>
        memory.TouchAfterRefresh(connectionId, scope, expiresAt, envelope);
        tables.TouchCredential(connectionId, scope, expiresAt, envelope);
      case Consume(h, redirect, session, at, later) =>
        var a := memory.ConsumeState(h, redirect, session, at);
        var b := tables.ConsumeState(h, redirect, session, at, later);
        left, right := Consumed(a), Consumed(b);
    }
  }

  /** A whole run side by side: the replies agree operation by operation up to the first split. */
  method BesideAll(memory: InMemoryMailState, tables: PostgresMailState, ops: seq<Operation>)
    returns (left: seq<Reply>, right: seq<Reply>)
    requires Mirrors(memory, tables)
    modifies memory, tables
    ensures left == right && |left| <= |ops|
    ensures |left| == |ops| ==> Mirrors(memory, tables)
    ensures |left| < |ops| ==> Splits(tables.oauthTable, ops[|left|])
  {
    left, right := [], [];
    for i := 0 to |ops|
      invariant Mirrors(memory, tables) && left == right && |left| == i
    {
      var a, b := Beside(memory, tables, ops[i]);
      if a != b { return; }
      left, right := left + [a], right + [b];
    }
  }
}
