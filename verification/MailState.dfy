/** The in-memory mail state: Maps and arrays updated in place. */
module MailState {
  import opened Prelude
  import opened MailRecords
  import Spec = MemorySpec

  class InMemoryMailState {
    var oauthStates: map<Digest, OAuthState>
    var connections: map<string, Connection>
    var credentials: map<string, Credential>
    var approvals: map<string, SendApproval>
    var reconciliation: seq<ReconciliationRecord>
    var stoppedJobs: map<string, int>
    var audit: seq<AuditEvent>

    constructor ()
      ensures oauthStates == map[] && connections == map[] && credentials == map[] && approvals == map[]
      ensures reconciliation == [] && stoppedJobs == map[] && audit == []
    {
      oauthStates, connections, credentials, approvals := map[], map[], map[], map[];
      reconciliation, stoppedJobs, audit := [], map[], [];
    }

    method ConsumeState(stateHash: Digest, redirectUri: string, sessionId: string, now: int)
      returns (r: Result<OAuthState, ConsumeError>)
      modifies this`oauthStates
      ensures (oauthStates, r) == Spec.Consume(old(oauthStates), stateHash, redirectUri, sessionId, now)
    {
      if stateHash !in oauthStates { return Err(UnknownState); }
      var state := oauthStates[stateHash];
      if state.consumedAt.Some? { return Err(AlreadyUsed); }
      if now > state.expiresAt { return Err(StateExpired); }
      if state.redirectUri != redirectUri { return Err(RedirectMismatch); }
      if state.sessionId != sessionId { return Err(SessionMismatch); }
      var consumed := state.(consumedAt := Some(now));
      oauthStates := oauthStates[stateHash := consumed];
      return Ok(consumed);
    }

    method TouchAfterRefresh(connectionId: string, scope: TenantScope, expiresAt: int, envelope: Option<Envelope>)
      modifies this`credentials
      ensures credentials == Spec.TouchAfterRefresh(old(credentials), connectionId, scope, expiresAt, envelope)
    {
      if connectionId !in credentials || credentials[connectionId].scope != scope { return; }
      var record := credentials[connectionId];
      if record.revokedAt.Some? { return; }
      record := record.(accessTokenExpiresAt := Some(expiresAt));
      if envelope.Some? {
        record := record.(envelope := envelope.value);
      }
      credentials := credentials[connectionId := record];
    }

    method RevokeCredential(connectionId: string, scope: TenantScope, at: int)
      modifies this`credentials
      ensures credentials == Spec.Revoke(old(credentials), connectionId, scope, at)
    {
      if connectionId !in credentials || credentials[connectionId].scope != scope { return; }
      var record := credentials[connectionId];
      if record.revokedAt.Some? { return; }
      credentials := credentials[connectionId := record.(
        envelope := Envelope(record.envelope.keyId, "revoked", "revoked"), revokedAt := Some(at))];
    }

    method Claim(approvalId: string, operationId: string, at: int) returns (r: Option<SendApproval>)
      modifies this`approvals
      ensures (approvals, r) == Spec.Claim(old(approvals), approvalId, operationId, at)
    {
      if approvalId !in approvals { return None; }
      var approval := approvals[approvalId];
      if (approval.status != Issued && approval.status != FailedRetryable) || approval.expiresAt <= at {
        return None;
      }
      var claimed := approval.(status := Sending, operationId := Some(operationId), updatedAt := at);
      approvals := approvals[approvalId := claimed];
      return Some(claimed);
    }

    method Settle(approvalId: string, operationId: string, outcome: SendOutcome, at: int)
      returns (r: Result<SendApproval, SettleError>)
      modifies this`approvals
      ensures (approvals, r) == Spec.Settle(old(approvals), approvalId, operationId, outcome, at)
    {
      if approvalId !in approvals { return Err(NoSuchApproval); }
      var approval := approvals[approvalId];
      if approval.status != Sending { return Err(NotSending(approval.status)); }
      if approval.operationId != Some(operationId) { return Err(OperationMismatch); }
      var settled := approval.(updatedAt := at);
      match outcome {
        case Delivered(messageId) => settled := settled.(status := Sent, providerMessageId := Some(messageId));
        case NotDelivered(true) => settled := settled.(status := FailedRetryable);
        case NotDelivered(false) => settled := settled.(status := FailedTerminal);
      }
      approvals := approvals[approvalId := settled];
      return Ok(settled);
    }

    method Expire(approvalId: string, at: int)
      modifies this`approvals
      ensures approvals == Spec.Expire(old(approvals), approvalId, at)
    {
      if approvalId !in approvals || approvals[approvalId].status != Issued { return; }
      approvals := approvals[approvalId := approvals[approvalId].(status := Expired, updatedAt := at)];
    }

    /** The Map is iterated while its values are replaced; the visiting order is left open. */
    method InvalidateForConnection(connectionId: string, at: int)
      modifies this`approvals
      ensures approvals == Spec.Invalidate(old(approvals), connectionId, at)
    {
      var unvisited := approvals.Keys;
      while unvisited != {}
        invariant unvisited <= approvals.Keys == old(approvals).Keys
        invariant forall id | id in approvals ::
          approvals[id] == if id in unvisited then old(approvals)[id]
              else Spec.Invalidated(old(approvals)[id], connectionId, at)
        decreases unvisited
      {
        var id :| id in unvisited;
        var approval := approvals[id];
        if approval.connectionId == connectionId && (approval.status == Issued || approval.status == Sending) {
          approvals := approvals[id := approval.(status := FailedTerminal, updatedAt := at)];
        }
        unvisited := unvisited - {id};
      }
    }

    /** The reconciliation queue: exactly the records claimed at or before the cutoff and still
        unresolved, each once, oldest first. */
    method NeedingReconciliation(staleSince: int) returns (queue: seq<SendApproval>)
      requires Keyed(approvals)
      ensures OldestFirst(queue)
      ensures multiset(queue) == multiset(StuckRecords(approvals, staleSince))
    {
      queue := [];
      var unvisited := approvals.Keys;
      while unvisited != {}
        invariant unvisited <= approvals.Keys
        invariant OldestFirst(queue)
        invariant multiset(queue)
            == multiset(set id | id in approvals.Keys - unvisited && Stuck(approvals[id], staleSince) :: approvals[id])
        decreases unvisited
      {
        var id :| id in unvisited;
        ghost var found := set k | k in approvals.Keys - unvisited && Stuck(approvals[k], staleSince) :: approvals[k];
        assert approvals[id] !in found;
        unvisited := unvisited - {id};
        if Stuck(approvals[id], staleSince) {
          InsertByAgeKeepsOrder(approvals[id], queue);
          queue := InsertByAge(approvals[id], queue);
          assert (set k | k in approvals.Keys - unvisited && Stuck(approvals[k], staleSince) :: approvals[k])
              == found + {approvals[id]};
        } else {
          assert (set k | k in approvals.Keys - unvisited && Stuck(approvals[k], staleSince) :: approvals[k]) == found;
        }
      }
    }
  }

  ghost predicate Keyed(approvals: map<string, SendApproval>) {
    forall id | id in approvals :: approvals[id].approvalId == id
  }

  predicate Stuck(a: SendApproval, staleSince: int) {
    a.status == Sending && a.updatedAt <= staleSince
  }

  ghost function StuckRecords(approvals: map<string, SendApproval>, staleSince: int): set<SendApproval> {
    set id | id in approvals && Stuck(approvals[id], staleSince) :: approvals[id]
  }

  predicate OldestFirst(queue: seq<SendApproval>) {
    forall i, j | 0 <= i < j < |queue| :: queue[i].updatedAt <= queue[j].updatedAt
  }

  function InsertByAge(a: SendApproval, queue: seq<SendApproval>): (r: seq<SendApproval>)
    ensures multiset(r) == multiset(queue) + multiset{a}
  {
    if queue == [] then [a]
    else if a.updatedAt < queue[0].updatedAt then [a] + queue
    else
      assert queue == [queue[0]] + queue[1..];
      [queue[0]] + InsertByAge(a, queue[1..])
  }

  /** The oldest of a queue is still the oldest with a younger record inserted behind it. */
  lemma HeadStaysOldest(a: SendApproval, queue: seq<SendApproval>, i: nat)
    requires OldestFirst(queue) && queue != [] && queue[0].updatedAt <= a.updatedAt
    requires i < |InsertByAge(a, queue[1..])|
    ensures queue[0].updatedAt <= InsertByAge(a, queue[1..])[i].updatedAt
  {
    var rest, x := queue[1..], InsertByAge(a, queue[1..])[i];
    assert x in multiset(InsertByAge(a, rest));
    if x != a {
      assert x in multiset(rest);
      var k :| 0 <= k < |rest| && rest[k] == x;
      assert queue[k + 1] == x;
    }
  }

  lemma OldestInFront(x: SendApproval, rest: seq<SendApproval>)
    requires OldestFirst(rest) && forall i | 0 <= i < |rest| :: x.updatedAt <= rest[i].updatedAt
    ensures OldestFirst([x] + rest)
  {
  }

  lemma {:induction false} InsertByAgeKeepsOrder(a: SendApproval, queue: seq<SendApproval>)
    requires OldestFirst(queue)
    ensures OldestFirst(InsertByAge(a, queue))
  {
    if queue == [] {
    } else if a.updatedAt < queue[0].updatedAt {
      OldestInFront(a, queue);
    } else {
      var rest := InsertByAge(a, queue[1..]);
      InsertByAgeKeepsOrder(a, queue[1..]);
      forall i | 0 <= i < |rest| ensures queue[0].updatedAt <= rest[i].updatedAt {
        HeadStaysOldest(a, queue, i);
      }
      OldestInFront(queue[0], rest);
    }
  }
}
