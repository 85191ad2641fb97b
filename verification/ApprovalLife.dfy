/** The life of a send approval under any sequence of store operations. */
module ApprovalLife {
  import opened Prelude
  import opened MailRecords
  import opened MemorySpec

  datatype Op =
    | ClaimOp(approvalId: string, operationId: string, at: int)
    | SettleOp(approvalId: string, operationId: string, outcome: SendOutcome, at: int)
    | ExpireOp(approvalId: string, at: int)
    | InvalidateOp(connectionId: string, at: int)

  function Apply(m: Approvals, op: Op): Approvals {
    match op
    case ClaimOp(id, operationId, at) => Claim(m, id, operationId, at).0
    case SettleOp(id, operationId, outcome, at) => Settle(m, id, operationId, outcome, at).0
    case ExpireOp(id, at) => Expire(m, id, at)
    case InvalidateOp(connectionId, at) => Invalidate(m, connectionId, at)
  }

  function ApplyAll(m: Approvals, ops: seq<Op>): Approvals
    decreases ops
  {
    if ops == [] then m else ApplyAll(Apply(m, ops[0]), ops[1..])
  }

  predicate Edge(a: ApprovalStatus, b: ApprovalStatus) {
    match a
    case Issued => b in {Sending, Expired, FailedTerminal}
    case Sending => b in {Sent, FailedRetryable, FailedTerminal}
    case FailedRetryable => b == Sending
    case _ => false
  }

  predicate IsPath(h: seq<ApprovalStatus>) {
    h != [] && forall i | 0 <= i < |h| - 1 :: Edge(h[i], h[i + 1])
  }

  predicate WellFormed(a: SendApproval) {
    a.status == Sending ==> a.operationId.Some?
  }

  /** One operation leaves a record exactly as it was or moves it along one edge. */
  lemma OneOperation(m: Approvals, op: Op, id: string)
    requires id in m && WellFormed(m[id])
    ensures id in Apply(m, op) && WellFormed(Apply(m, op)[id])
    ensures Apply(m, op)[id] == m[id] || Edge(m[id].status, Apply(m, op)[id].status)
    ensures SameBinding(m[id], Apply(m, op)[id])
    ensures Apply(m, op)[id] != m[id] && Apply(m, op)[id].status == Sending ==>
            op.ClaimOp? && op.at < m[id].expiresAt && Apply(m, op)[id].operationId == Some(op.operationId)
    ensures Apply(m, op)[id] != m[id] && m[id].status == Sending ==>
            op.InvalidateOp? || (op.SettleOp? && m[id].operationId == Some(op.operationId))
  {
  }

  /** The statuses a record goes through, without repetitions. */
  function History(m: Approvals, ops: seq<Op>, id: string): (h: seq<ApprovalStatus>)
    requires id in m
    ensures h != [] && h[0] == m[id].status
    decreases ops
  {
    if ops == [] then [m[id].status]
    else
      var m' := Apply(m, ops[0]);
      var rest := History(m', ops[1..], id);
      if m'[id].status == m[id].status then rest else [m[id].status] + rest
  }

  lemma {:induction false} HistoryIsPath(m: Approvals, ops: seq<Op>, id: string)
    requires id in m && WellFormed(m[id])
    ensures IsPath(History(m, ops, id))
    decreases ops
  {
    if ops == [] {
    } else {
      OneOperation(m, ops[0], id);
      HistoryIsPath(Apply(m, ops[0]), ops[1..], id);
    }
  }

  lemma {:induction false} BindingNeverChanges(m: Approvals, ops: seq<Op>, id: string)
    requires id in m && WellFormed(m[id])
    ensures id in ApplyAll(m, ops) && WellFormed(ApplyAll(m, ops)[id])
    ensures SameBinding(m[id], ApplyAll(m, ops)[id])
    ensures Final(m[id].status) ==> ApplyAll(m, ops)[id] == m[id]
    decreases ops
  {
    if ops == [] {
    } else {
      OneOperation(m, ops[0], id);
      BindingNeverChanges(Apply(m, ops[0]), ops[1..], id);
    }
  }

  /** The n-th name of a family of operation ids. */
  function Name(n: nat): string {
    seq(n, _ => 'o')
  }

  /** An operation at the given instant that moves the given record along the given edge. */
  function Mover(a: SendApproval, next: ApprovalStatus, name: string, at: int): Op
    requires WellFormed(a) && Edge(a.status, next)
  {
    match next
    case Sending => ClaimOp(a.approvalId, name, at)
    case Expired => ExpireOp(a.approvalId, at)
    case Sent => SettleOp(a.approvalId, a.operationId.value, Delivered("message"), at)
    case FailedRetryable => SettleOp(a.approvalId, a.operationId.value, NotDelivered(true), at)
    case FailedTerminal => InvalidateOp(a.connectionId, at)
  }

  lemma MoverMoves(m: Approvals, id: string, next: ApprovalStatus, name: string, at: int)
    requires id in m && m[id].approvalId == id && WellFormed(m[id]) && at < m[id].expiresAt && Edge(m[id].status, next)
    ensures var m' := Apply(m, Mover(m[id], next, name, at));
      id in m' && m'[id].status == next && WellFormed(m'[id]) && SameBinding(m[id], m'[id])
  {
    OneOperation(m, Mover(m[id], next, name, at), id);
  }

  lemma PathTail(path: seq<ApprovalStatus>)
    requires IsPath(path) && |path| > 1
    ensures IsPath(path[1..])
  {
    forall i | 0 <= i < |path| - 2 ensures Edge(path[1..][i], path[1..][i + 1]) {
      assert Edge(path[i + 1], path[i + 1 + 1]);
    }
  }

  /** All at one instant, and every claim under a name of its own. */
  predicate Plausible(ops: seq<Op>, at: int, names: nat) {
    && |ops| <= names
    && forall i | 0 <= i < |ops| :: ops[i].at == at && (ops[i].ClaimOp? ==> ops[i].operationId == Name(names - i))
  }

  lemma StillPlausible(op: Op, rest: seq<Op>, at: int, names: nat)
    requires names > 0 && Plausible(rest, at, names - 1) && op.at == at
    requires op.ClaimOp? ==> op.operationId == Name(names)
    ensures Plausible([op] + rest, at, names)
  {
    var ops := [op] + rest;
    forall i | 0 <= i < |ops| ensures ops[i].at == at && (ops[i].ClaimOp? ==> ops[i].operationId == Name(names - i)) {
      if i > 0 { assert ops[i] == rest[i - 1]; }
    }
  }

  lemma OneMore(m: Approvals, op: Op, m': Approvals, rest: seq<Op>, ops: seq<Op>, id: string, path: seq<ApprovalStatus>)
    requires id in m && id in m' && m' == Apply(m, op) && ops == [op] + rest
    requires path != [] && path[0] == m[id].status && m'[id].status != m[id].status
    requires History(m', rest, id) == path[1..]
    ensures History(m, ops, id) == path
  {
    assert ops[0] == op && ops[1..] == rest;
  }

  /** The graph is not too large either: at any instant before its expiry, a record can go along every path
      through the graph, with a fresh operation id at every claim. */
  lemma {:induction false} EveryPathIsAHistory(m: Approvals, id: string, path: seq<ApprovalStatus>, at: int)
    returns (ops: seq<Op>)
    requires id in m && m[id].approvalId == id && WellFormed(m[id]) && at < m[id].expiresAt
    requires IsPath(path) && path[0] == m[id].status
    ensures History(m, ops, id) == path
    ensures Plausible(ops, at, |path| - 1)
    ensures forall i, j | 0 <= i < j < |ops| && ops[i].ClaimOp? && ops[j].ClaimOp? ::
        ops[i].operationId != ops[j].operationId
    decreases path
  {
    if |path| == 1 {
      ops := [];
    } else {
      assert Edge(path[0], path[0 + 1]);
      var op := Mover(m[id], path[1], Name(|path| - 1), at);
      var m' := Apply(m, op);
      MoverMoves(m, id, path[1], Name(|path| - 1), at);
      PathTail(path);
      var rest := EveryPathIsAHistory(m', id, path[1..], at);
      ops := [op] + rest;
      OneMore(m, op, m', rest, ops, id, path);
      StillPlausible(op, rest, at, |path| - 1);
      NamesDiffer(ops, at, |path| - 1);
    }
  }

  lemma NamesDiffer(ops: seq<Op>, at: int, names: nat)
    requires Plausible(ops, at, names)
    ensures forall i, j | 0 <= i < j < |ops| && ops[i].ClaimOp? && ops[j].ClaimOp? ::
        ops[i].operationId != ops[j].operationId
  {
    forall i, j | 0 <= i < j < |ops| && ops[i].ClaimOp? && ops[j].ClaimOp?
      ensures ops[i].operationId != ops[j].operationId
    {
      assert |Name(names - i)| == names - i && |Name(names - j)| == names - j;
    }
  }

  // ---- Disconnect ----

  /** A disconnect makes everything issued or sending on its connection terminal, for good, and touches no
      record of any other connection. */
  lemma DisconnectClears(m: Approvals, connectionId: string, at: int, ops: seq<Op>, id: string)
    requires id in m && WellFormed(m[id])
    ensures m[id].connectionId != connectionId ==> Invalidate(m, connectionId, at)[id] == m[id]
    ensures m[id].connectionId == connectionId ==>
            Invalidate(m, connectionId, at)[id].status !in {Issued, Sending}
    ensures Pending(m[id], connectionId) ==>
            id in ApplyAll(Invalidate(m, connectionId, at), ops)
            && ApplyAll(Invalidate(m, connectionId, at), ops)[id].status == FailedTerminal
  {
    OneOperation(m, InvalidateOp(connectionId, at), id);
    BindingNeverChanges(Invalidate(m, connectionId, at), ops, id);
  }

  predicate NotBefore(ops: seq<Op>, at: int) {
    forall i | 0 <= i < |ops| :: ops[i].at >= at
  }

  /** What can never be sent again: a final record, or a retryable one whose time is over. */
  predicate Done(a: SendApproval, at: int) {
    Final(a.status) || (a.status == FailedRetryable && a.expiresAt <= at)
  }

  lemma {:induction false} DoneStays(m: Approvals, ops: seq<Op>, id: string, at: int)
    requires id in m && WellFormed(m[id]) && Done(m[id], at) && NotBefore(ops, at)
    ensures id in ApplyAll(m, ops) && ApplyAll(m, ops)[id] == m[id]
    decreases ops
  {
    if ops == [] {
    } else {
      assert ops[0].at >= at;
      OneOperation(m, ops[0], id);
      assert NotBefore(ops[1..], at) by {
        forall i | 0 <= i < |ops| - 1 ensures ops[1..][i].at >= at { assert ops[i + 1].at >= at; }
      }
      DoneStays(Apply(m, ops[0]), ops[1..], id, at);
    }
  }

  /** Exactly which records of a disconnected connection can be sending at some later time: the retryable
      ones that had not expired when it was disconnected. */
  lemma DisconnectedCanSendIff(m: Approvals, connectionId: string, at: int, id: string)
    requires id in m && m[id].approvalId == id && WellFormed(m[id]) && m[id].connectionId == connectionId
    ensures (exists ops :: NotBefore(ops, at) && id in ApplyAll(Invalidate(m, connectionId, at), ops)
               && ApplyAll(Invalidate(m, connectionId, at), ops)[id].status == Sending)
       <==> m[id].status == FailedRetryable && at < m[id].expiresAt
  {
    var after := Invalidate(m, connectionId, at);
    OneOperation(m, InvalidateOp(connectionId, at), id);
    if m[id].status == FailedRetryable && at < m[id].expiresAt {
      var ops := [ClaimOp(id, "op", at)];
      assert ops[1..] == [] && ApplyAll(after, ops) == Apply(after, ops[0]);
      assert NotBefore(ops, at);
    } else {
      forall ops | NotBefore(ops, at) ensures id in ApplyAll(after, ops) && ApplyAll(after, ops)[id].status != Sending {
        DoneStays(after, ops, id, at);
      }
    }
  }

  /** The disconnect does not reach retryable failures: the connection keeps an approval that can be claimed
      at some instant from the disconnect on if and only if one of its records is retryable and unexpired. */
  lemma DisconnectLeavesClaimableIff(m: Approvals, connectionId: string, at: int)
    ensures (exists id, later ::
        at <= later && id in m && m[id].connectionId == connectionId
        && Claimable(Invalidate(m, connectionId, at)[id], later))
       <==> (exists id ::
        id in m && m[id].connectionId == connectionId && m[id].status == FailedRetryable && at < m[id].expiresAt)
  {
    if id :| id in m && m[id].connectionId == connectionId && m[id].status == FailedRetryable && at < m[id].expiresAt {
      assert Claimable(Invalidate(m, connectionId, at)[id], at);
    }
  }
}
