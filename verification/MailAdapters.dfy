/** sendMessage of the three adapters: one program around different provider calls. */
module MailAdapters {
  import opened Prelude
  import opened MailRecords
  import opened MailState
  import opened SendGuard
  import opened Grouping
  import Service = SendApprovals
  import Spec = MemorySpec

  /** The provider call of one send: it returns a message id or throws with some text. */
  datatype ProviderAnswer = Accepted(messageId: string) | Threw(text: string)

  /** A throw of the provider, or of the settlement in its place. */
  datatype AdapterError = Refused(reason: Service.SendError) | ProviderError(text: string)
      | SettlementError(why: Service.SendError)

  /** Everything outside the adapter that one call meets. */
  datatype Surroundings = Surroundings(
    operationId: string, checkedAt: int, claimedAt: int, settledAt: int,
    claimAudited: bool, settleAudited: bool, answer: ProviderAnswer, auditFailureText: string)

  /** The record of a send that got as far as the provider call. */
  function RecordAfter(a: SendApproval, env: Surroundings): SendApproval {
    var claimed := a.(status := Sending, operationId := Some(env.operationId), updatedAt := env.claimedAt);
    if env.answer.Accepted? then claimed.(status := Sent, providerMessageId := Some(env.answer.messageId),
        updatedAt := env.settledAt)
    else if ClassifySendError(env.answer.text).Some? then claimed.(status := FailedTerminal, updatedAt := env.settledAt)
    else claimed
  }

  /** What the caller of a send that got as far as the provider call is told. A settlement that fails in the
      catch clause throws in place of the error being handled. */
  function ReportAfter(env: Surroundings): Result<string, AdapterError> {
    match env.answer
    case Accepted(messageId) =>
      if env.settleAudited then Ok(messageId)
      else if ClassifySendError(env.auditFailureText).Some?
          then Err(SettlementError(Service.SettleRefused(NotSending(Sent))))
      else Err(SettlementError(Service.AuditFailed))
    case Threw(text) =>
      if ClassifySendError(text).Some? && !env.settleAudited then Err(SettlementError(Service.AuditFailed))
      else Err(ProviderError(text))
  }

  /** What became of the record of a send that reached the provider, field by field. */
  ghost predicate Came(a: SendApproval, b: SendApproval, env: Surroundings) {
    && SameBinding(a, b) && b.operationId == Some(env.operationId)
    && (b.status == Sent <==> env.answer.Accepted?)
    && (b.status == FailedTerminal <==> env.answer.Threw? && exists i :: StandsAlone(env.answer.text, i))
    && (b.status == Sending <==> env.answer.Threw? && forall i :: !StandsAlone(env.answer.text, i))
    && b.providerMessageId == (if env.answer.Accepted? then Some(env.answer.messageId) else a.providerMessageId)
    && b.updatedAt == (if b.status == Sending then env.claimedAt else env.settledAt)
  }

  /** What its caller is told: the provider's own message id, now on the record, or the text or settlement
      error that was thrown last. */
  ghost predicate Told(r: Result<string, AdapterError>, b: SendApproval, env: Surroundings) {
    && (r.Ok? <==> env.answer.Accepted? && env.settleAudited)
    && (r.Ok? ==> r.value == env.answer.messageId && b.status == Sent && b.providerMessageId == Some(r.value))
    && (env.answer.Threw? && (env.settleAudited || b.status == Sending) ==> r == Err(ProviderError(env.answer.text)))
    && (env.answer.Threw? && !env.settleAudited && b.status == FailedTerminal ==>
         r == Err(SettlementError(Service.AuditFailed)))
    && (env.answer.Accepted? && !env.settleAudited ==>
         r == Err(SettlementError(if exists i :: StandsAlone(env.auditFailureText, i)
                                  then Service.SettleRefused(NotSending(Sent)) else Service.AuditFailed)))
  }

  lemma CameAndTold(a: SendApproval, env: Surroundings)
    ensures Came(a, RecordAfter(a, env), env) && Told(ReportAfter(env), RecordAfter(a, env), env)
  {
    NeverRetryable(env.auditFailureText);
    if env.answer.Threw? { NeverRetryable(env.answer.text); }
  }

  /** The approvals after one call: as the refusal leaves them, as the claim leaves them when it is lost or
      cannot be audited, and otherwise with the record the provider call leads to. */
  function StoreAfter(before: Spec.Approvals, input: SendInput, scope: Option<TenantScope>,
                      env: Surroundings): Spec.Approvals
  {
    var id := input.approvalId;
    if id !in before then before
    else
      match Service.Refusal(before[id], input, scope, env.checkedAt)
      case Some(reason) => if reason == Service.ApprovalExpired then Spec.Expire(before, id, env.checkedAt) else before
      case None =>
        if Spec.Claimable(before[id], env.claimedAt) && env.claimAudited then before[id := RecordAfter(before[id], env)]
        else Spec.Claim(before, id, env.operationId, env.claimedAt).0
  }

  /** Claim, call the provider, then settle or leave the record for reconciliation. The contract follows
      one record from the claim on: the provider is called only with that record durably in `Sending`
      under this call's operation id, success ends in Sent, an unambiguous rejection in FailedTerminal,
      and everything else leaves the record as claimed. */
  method SendMessage(state: InMemoryMailState, input: SendInput, scope: Option<TenantScope>, env: Surroundings)
    returns (r: Result<string, AdapterError>, called: bool)
    modifies state`approvals, state`audit
    ensures called <==>
      && input.approvalId in old(state.approvals)
      && Service.Refusal(old(state.approvals)[input.approvalId], input, scope, env.checkedAt) == None
      && Spec.Claimable(old(state.approvals)[input.approvalId], env.claimedAt) && env.claimAudited
    ensures r.Ok? ==> called
    ensures state.approvals == StoreAfter(old(state.approvals), input, scope, env)
    ensures !called ==>
      var before, id := old(state.approvals), input.approvalId;
      var refusal := if id in before then Service.Refusal(before[id], input, scope, env.checkedAt)
          else Some(Service.NoApproval);
      && r.Err? && r.error.Refused?
      && (refusal.Some? ==> r.error.reason == refusal.value)
    ensures called ==> Came(old(state.approvals)[input.approvalId], state.approvals[input.approvalId], env)
    ensures called ==> r == ReportAfter(env) && Told(r, state.approvals[input.approvalId], env)
  {
    var claim := Service.BeginSend(state, input, scope, env.operationId, env.checkedAt, env.claimedAt,
        env.claimAudited);
    if claim.Err? { return Err(Refused(claim.error)), false; }
    r := CallAndSettle(state, input.approvalId, old(state.approvals)[input.approvalId], env);
    CameAndTold(old(state.approvals)[input.approvalId], env);
    return r, true;
  }

  /** The try and catch clauses, from the won claim on. */
  method CallAndSettle(state: InMemoryMailState, id: string, ghost a: SendApproval, env: Surroundings)
    returns (r: Result<string, AdapterError>)
    requires id in state.approvals
    requires state.approvals[id]
        == a.(status := Sending, operationId := Some(env.operationId), updatedAt := env.claimedAt)
    modifies state`approvals, state`audit
    ensures state.approvals == old(state.approvals)[id := RecordAfter(a, env)]
    ensures r == ReportAfter(env)
  {
    if env.answer.Accepted? {
      var settled := Service.SettleSend(state, id, env.operationId, Delivered(env.answer.messageId), env.settledAt,
          env.settleAudited);
      if settled.Ok? { return Ok(env.answer.messageId); }
      r := Catch(state, id, env, env.auditFailureText, SettlementError(settled.error));
    } else {
      r := Catch(state, id, env, env.answer.text, ProviderError(env.answer.text));
    }
  }

  /** The catch clause: settle what the error text decides, then throw again. */
  method Catch(state: InMemoryMailState, id: string, env: Surroundings, text: string, thrown: AdapterError)
    returns (r: Result<string, AdapterError>)
    modifies state`approvals, state`audit
    ensures ClassifySendError(text).None? ==> r == Err(thrown) && state.approvals == old(state.approvals)
    ensures ClassifySendError(text).Some? ==>
      var (settled, reply) := Spec.Settle(old(state.approvals), id, env.operationId, NotDelivered(false),
          env.settledAt);
      && state.approvals == settled
      && r == Err(if reply.Err? then SettlementError(Service.SettleRefused(reply.error))
                  else if !env.settleAudited then SettlementError(Service.AuditFailed) else thrown)
  {
    NeverRetryable(text);
    var verdict := ClassifySendError(text);
    if verdict.Some? {
      var settled := Service.SettleSend(state, id, env.operationId, verdict.value, env.settledAt, env.settleAudited);
      if settled.Err? { return Err(SettlementError(settled.error)); }
    }
    return Err(thrown);
  }

  // ---- Grouping messages into threads ----

  datatype GraphMessage = GraphMessage(id: Option<string>, conversationId: Option<string>, subject: Option<string>)

  datatype MailThread = MailThread(threadId: string, subject: string)

  function ConversationOf(m: GraphMessage): string {
    m.conversationId.GetOr(m.id.GetOr("unknown"))
  }

  function Conversations(messages: seq<GraphMessage>): (ids: seq<string>)
    ensures |ids| == |messages| && forall i | 0 <= i < |messages| :: ids[i] == ConversationOf(messages[i])
  {
    seq(|messages|, i requires 0 <= i < |messages| => ConversationOf(messages[i]))
  }

  /** By its conversation; without one by its own id, and without that among the unknown. */
  predicate BelongsTo(m: GraphMessage, t: MailThread) {
    match m.conversationId
    case Some(conversation) => t.threadId == conversation
    case None => t.threadId == if m.id.Some? then m.id.value else "unknown"
  }

  /** `firsts` are the positions among the first n at which a conversation first shows up; the threads are
      titled by those. */
  ghost predicate Grouped(messages: seq<GraphMessage>, n: nat, threads: seq<MailThread>, firsts: seq<nat>)
    requires n <= |messages|
  {
    && |threads| == |firsts| && Firsts(Conversations(messages), n, firsts)
    && forall a | 0 <= a < |firsts| ::
         threads[a] == MailThread(ConversationOf(messages[firsts[a]]), messages[firsts[a]].subject.GetOr(""))
  }

  /** One thread per conversation, in the order of their first messages: no conversation is missing and
      none appears twice. */
  lemma EveryConversationOnce(messages: seq<GraphMessage>, threads: seq<MailThread>, firsts: seq<nat>)
    requires Grouped(messages, |messages|, threads, firsts)
    ensures forall m | m in messages :: exists a :: 0 <= a < |threads| && BelongsTo(m, threads[a])
    ensures forall a, b | 0 <= a < b < |threads| :: threads[a].threadId != threads[b].threadId
  {
    forall m | m in messages ensures exists a :: 0 <= a < |threads| && BelongsTo(m, threads[a]) {
      var i: nat :| i < |messages| && messages[i] == m;
      var a := KindIsMet(Conversations(messages), firsts, i);
      assert BelongsTo(m, threads[a]);
    }
    forall a, b | 0 <= a < b < |threads| ensures threads[a].threadId != threads[b].threadId {
      MetOnce(Conversations(messages), firsts, a, b);
    }
  }

  lemma GroupedExtended(messages: seq<GraphMessage>, n: nat, threads: seq<MailThread>, firsts: seq<nat>)
    requires n < |messages| && Grouped(messages, n, threads, firsts)
    ensures FirstOfKind(Conversations(messages), n) ==>
      var thread := MailThread(ConversationOf(messages[n]), messages[n].subject.GetOr(""));
      Grouped(messages, n + 1, threads + [thread], firsts + [n])
    ensures !FirstOfKind(Conversations(messages), n) ==> Grouped(messages, n + 1, threads, firsts)
  {
    FirstsExtended(Conversations(messages), n, firsts);
  }

  method ListThreads(messages: seq<GraphMessage>) returns (threads: seq<MailThread>, ghost firsts: seq<nat>)
    ensures Grouped(messages, |messages|, threads, firsts)
    ensures forall a | 0 <= a < |threads| ::
        var first := messages[firsts[a]];
        threads[a].subject == if first.subject.Some? then first.subject.value else ""
    ensures forall m | m in messages :: exists a :: 0 <= a < |threads| && BelongsTo(m, threads[a])
    ensures forall a, b | 0 <= a < b < |threads| :: threads[a].threadId != threads[b].threadId
  {
    var byConversation: set<string> := {};
    ghost var ids := Conversations(messages);
    threads, firsts := [], [];
    for i := 0 to |messages|
      invariant Grouped(messages, i, threads, firsts)
      invariant byConversation == set j | 0 <= j < i :: ids[j]
    {
      var key := ConversationOf(messages[i]);
      GroupedExtended(messages, i, threads, firsts);
      SeenBefore(ids, i, byConversation);
      if key !in byConversation {
        threads := threads + [MailThread(key, messages[i].subject.GetOr(""))];
        firsts := firsts + [i];
      }
      byConversation := byConversation + {key};
    }
    EveryConversationOnce(messages, threads, firsts);
  }

  lemma SeenBefore(ids: seq<string>, i: nat, seen: set<string>)
    requires i < |ids| && seen == set j | 0 <= j < i :: ids[j]
    ensures ids[i] !in seen <==> FirstOfKind(ids, i)
    ensures seen + {ids[i]} == set j | 0 <= j < i + 1 :: ids[j]
  {
  }
}
