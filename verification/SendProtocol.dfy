/** Guarded sending as an interleaved protocol: any number of adapters, reconcilers and disconnects
    over one durable approval store and one mail provider. Each step below is one atomic store
    operation, one provider event, or one local event of a running call. */
module SendProtocol {
  import opened Prelude
  import opened MailRecords
  import opened SendApprovals
  import opened SendGuard
  import opened MemorySpec

  /** What the provider knows about one claimed send: its call has not begun, is open, or is over. */
  datatype Phase = NotBegun | Open | Over

  datatype Attempt = Attempt(input: SendInput, claimedAt: int, phase: Phase, delivered: bool)

  datatype DeliveredMail = DeliveredMail(input: SendInput, operationId: string)

  /** Where a running call stands. */
  datatype Pc =
    | Checked(input: SendInput)                              // read and checked, claim not yet tried
    | Claimed(input: SendInput, op: string)                  // claim won, not yet audited
    | Calling(input: SendInput, op: string)                  // provider call outstanding
    | Answered(input: SendInput, op: string, messageId: string)
    | Caught(input: SendInput, op: string, error: string)    // in the adapter's catch clause
    | Reconciling(approvalId: string, op: string, delivered: bool, messageId: string)

  datatype World = World(
    approvals: Approvals,
    messages: map<string, Message>,      // what was approved, by approval id
    attempts: map<string, Attempt>,      // every operation id ever used
    calls: map<nat, Pc>,
    log: seq<DeliveredMail>)             // what the provider delivered, in order

  datatype Step =
    | IssueStep(approval: SendApproval, message: Message)
    | ExpireStep(approvalId: string, at: int)
    | CheckStep(call: nat, input: SendInput, scope: Option<TenantScope>, at: int)
    | ClaimStep(call: nat, op: string, at: int)
    | ClaimAuditStep(call: nat, persisted: bool)
    | DeliverStep(op: string)
    | CallEndsStep(op: string)
    | AnswerStep(call: nat, messageId: string)
    | FailStep(call: nat, error: string)
    | SettleSentStep(call: nat, at: int, failure: Option<string>)
    | CatchStep(call: nat, at: int)
    | CrashStep(call: nat)
    | ReconcileReadStep(call: nat, approvalId: string, delivered: bool, found: Option<string>)
    | ReconcileSettleStep(call: nat, at: int)
    | DisconnectStep(connectionId: string, at: int)

  const Start := World(map[], map[], map[], map[], [])

  /** What the code and the provider can do next. Ids are fresh; one provider call delivers at most
      once, and only while it is open. A provider answer says nothing about delivery. */
  predicate Enabled(w: World, s: Step) {
    match s
    case IssueStep(a, m) => a.approvalId !in w.approvals && a.status == Issued && a.operationId == None && BoundTo(a, m)
    case ExpireStep(_, _) => true
    case CheckStep(c, input, scope, at) =>
      c !in w.calls && input.approvalId in w.approvals
          && SendApprovals.Refusal(w.approvals[input.approvalId], input, scope, at) == None
    case ClaimStep(c, op, _) => c in w.calls && w.calls[c].Checked? && op !in w.attempts
    case ClaimAuditStep(c, _) => c in w.calls && w.calls[c].Claimed?
    case DeliverStep(op) => op in w.attempts && w.attempts[op].phase == Open && !w.attempts[op].delivered
    case CallEndsStep(op) => op in w.attempts && w.attempts[op].phase == Open
    case AnswerStep(c, _) => c in w.calls && w.calls[c].Calling?
    case FailStep(c, _) => c in w.calls && w.calls[c].Calling?
    case SettleSentStep(c, _, _) => c in w.calls && w.calls[c].Answered?
    case CatchStep(c, _) => c in w.calls && w.calls[c].Caught?
    case CrashStep(c) => c in w.calls
    case ReconcileReadStep(c, _, _, _) => c !in w.calls
    case ReconcileSettleStep(c, _) => c in w.calls && w.calls[c].Reconciling?
    case DisconnectStep(_, _) => true
  }

  /** The assumption on whoever reconciles: "not delivered" is said only of a send whose provider call
      is over and delivered nothing. Nothing is assumed of "delivered". */
  predicate Truthful(w: World, s: Step) {
    s.ReconcileReadStep? && !s.delivered && ReconcileDue(w, s.approvalId) ==>
      var op := w.approvals[s.approvalId].operationId.value;
      op in w.attempts ==> w.attempts[op].phase == Over && !w.attempts[op].delivered
  }

  predicate ReconcileDue(w: World, approvalId: string) {
    approvalId in w.approvals && w.approvals[approvalId].status == Sending && w.approvals[approvalId].operationId.Some?
  }

  function SetPhase(attempts: map<string, Attempt>, op: string, phase: Phase): map<string, Attempt> {
    if op in attempts then attempts[op := attempts[op].(phase := phase)] else attempts
  }

  function Finish(w: World, call: nat): World { w.(calls := w.calls - {call}) }

  /** A call that dies between claim and provider call never reaches the provider. */
  function Abandon(w: World, call: nat): World
    requires call in w.calls
  {
    var pc := w.calls[call];
    if pc.Claimed? then Finish(w, call).(attempts := SetPhase(w.attempts, pc.op, Over))
    else Finish(w, call)
  }

  function Do(w: World, s: Step): World
    requires Enabled(w, s)
  {
    match s
    case IssueStep(a, m) => w.(approvals := w.approvals[a.approvalId := a], messages := w.messages[a.approvalId := m])
    case ExpireStep(id, at) => w.(approvals := Expire(w.approvals, id, at))
    case CheckStep(c, input, _, _) => w.(calls := w.calls[c := Checked(input)])
    case ClaimStep(c, op, at) =>
      var input := w.calls[c].input;
      var (approvals, winner) := Claim(w.approvals, input.approvalId, op, at);
      if winner.None? then Finish(w, c)
      else w.(approvals := approvals, attempts := w.attempts[op := Attempt(input, at, NotBegun, false)],
              calls := w.calls[c := Claimed(input, op)])
    case ClaimAuditStep(c, persisted) =>
      var pc := w.calls[c];
      if !persisted then Abandon(w, c)
      else w.(attempts := SetPhase(w.attempts, pc.op, Open), calls := w.calls[c := Calling(pc.input, pc.op)])
    case DeliverStep(op) =>
      w.(attempts := w.attempts[op := w.attempts[op].(delivered := true)],
         log := w.log + [DeliveredMail(w.attempts[op].input, op)])
    case CallEndsStep(op) => w.(attempts := SetPhase(w.attempts, op, Over))
    case AnswerStep(c, messageId) => w.(calls := w.calls[c := Answered(w.calls[c].input, w.calls[c].op, messageId)])
    case FailStep(c, error) => w.(calls := w.calls[c := Caught(w.calls[c].input, w.calls[c].op, error)])
    case SettleSentStep(c, at, failure) =>
      var pc := w.calls[c];
      var (approvals, reply) := Settle(w.approvals, pc.input.approvalId, pc.op, Delivered(pc.messageId), at);
      if reply.Ok? && failure.None? then Finish(w, c).(approvals := approvals)
      else w.(approvals := approvals, calls := w.calls[c := Caught(pc.input, pc.op, failure.GetOr("settle refused"))])
    case CatchStep(c, at) =>
      var pc := w.calls[c];
      var verdict := ClassifySendError(pc.error);
      if verdict.None? then Finish(w, c)
      else Finish(w, c).(approvals := Settle(w.approvals, pc.input.approvalId, pc.op, verdict.value, at).0)
    case CrashStep(c) => Abandon(w, c)
    case ReconcileReadStep(c, id, delivered, messageId) =>
      if ReconcileDue(w, id) then w.(calls := w.calls[c := Reconciling(id, w.approvals[id].operationId.value, delivered,
          messageId.GetOr(w.approvals[id].providerMessageId.GetOr("unknown")))])
      else w
    case ReconcileSettleStep(c, at) =>
      var pc := w.calls[c];
      var outcome := if pc.delivered then Delivered(pc.messageId) else NotDelivered(true);
      Finish(w, c).(approvals := Settle(w.approvals, pc.approvalId, pc.op, outcome, at).0)
    case DisconnectStep(connectionId, at) => w.(approvals := Invalidate(w.approvals, connectionId, at))
  }

  predicate Legal(w: World, steps: seq<Step>)
    decreases steps
  {
    steps == [] || (Enabled(w, steps[0]) && Legal(Do(w, steps[0]), steps[1..]))
  }

  function Run(w: World, steps: seq<Step>): World
    requires Legal(w, steps)
    decreases steps
  {
    if steps == [] then w else Run(Do(w, steps[0]), steps[1..])
  }

  predicate AllTruthful(w: World, steps: seq<Step>)
    requires Legal(w, steps)
    decreases steps
  {
    steps == [] || (Truthful(w, steps[0]) && AllTruthful(Do(w, steps[0]), steps[1..]))
  }

  // ---- What one step changes, part by part ----

  predicate Reclaimed(w: World, s: Step, w': World, a: SendApproval, b: SendApproval) {
    && s.ClaimStep? && s.call in w.calls && w.calls[s.call].Checked? && w.calls[s.call].input.approvalId == a.approvalId
    && a.status in {Issued, FailedRetryable} && b.status == Sending && b.operationId == Some(s.op)
    && s.op in w'.attempts && w'.attempts[s.op].input.approvalId == a.approvalId
  }

  predicate Unwound(w: World, s: Step, a: SendApproval, b: SendApproval) {
    && b.operationId == a.operationId && b.status !in {Sending, Issued} && a.status in {Issued, Sending}
    && (b.status == FailedRetryable ==>
        && s.ReconcileSettleStep? && s.call in w.calls && w.calls[s.call].Reconciling? && !w.calls[s.call].delivered
        && a.status == Sending && a.operationId == Some(w.calls[s.call].op))
  }

  /** One record is left alone, claimed, or moved out of its pending state; only a "not delivered"
      reconciliation of its current operation makes it retryable. */
  predicate RecordMove(w: World, s: Step, w': World, a: SendApproval, b: SendApproval) {
    && SameBinding(a, b)
    && ((b.status == a.status && b.operationId == a.operationId) || Reclaimed(w, s, w', a, b) || Unwound(w, s, a, b))
  }

  ghost predicate ApprovalsMove(w: World, s: Step, w': World) {
    && (forall id | id in w.approvals :: id in w'.approvals && RecordMove(w, s, w', w.approvals[id], w'.approvals[id]))
    && (forall id | id in w'.approvals && id !in w.approvals ::
         s.IssueStep? && id == s.approval.approvalId && w'.approvals[id] == s.approval
         && s.approval.status == Issued && s.approval.operationId == None)
  }

  ghost predicate MessagesMove(w: World, s: Step, w': World) {
    && (forall id | id in w.messages && !(s.IssueStep? && id == s.approval.approvalId) ::
         id in w'.messages && w'.messages[id] == w.messages[id])
    && (s.IssueStep? ==>
         && s.approval.approvalId !in w.approvals && s.approval.approvalId in w'.messages
         && BoundTo(s.approval, w'.messages[s.approval.approvalId]))
  }

  predicate AttemptMove(w: World, s: Step, w': World, op: string, a: Attempt, b: Attempt) {
    && b.input == a.input && b.claimedAt == a.claimedAt
    && (|| b == a
        || (s.DeliverStep? && s.op == op && a.phase == Open && !a.delivered && b == a.(delivered := true))
        || (a.phase == Open && b == a.(phase := Over))
        || (s.ClaimAuditStep? && s.call in w.calls && w.calls[s.call].Claimed? && w.calls[s.call].op == op
            && s.call in w'.calls && w'.calls[s.call].Calling? && b == a.(phase := Open))
        || ((s.ClaimAuditStep? || s.CrashStep?) && s.call in w.calls && w.calls[s.call].Claimed?
             && w.calls[s.call].op == op
            && s.call !in w'.calls && b == a.(phase := Over)))
  }

  ghost predicate AttemptsMove(w: World, s: Step, w': World) {
    && (forall op | op in w.attempts :: op in w'.attempts && AttemptMove(w, s, w', op, w.attempts[op], w'.attempts[op]))
    && (forall op | op in w'.attempts && op !in w.attempts ::
         && s.ClaimStep? && s.op == op && s.call in w.calls && w.calls[s.call].Checked?
         && w'.attempts[op] == Attempt(w.calls[s.call].input, s.at, NotBegun, false)
         && Winning(w, w', w.calls[s.call].input.approvalId, op, s.at))
  }

  predicate Winning(w: World, w': World, id: string, op: string, at: int) {
    && id in w.approvals && at < w.approvals[id].expiresAt
    && id in w'.approvals && w'.approvals[id].status == Sending && w'.approvals[id].operationId == Some(op)
  }

  predicate CallMove(w: World, s: Step, w': World, c: nat, pc: Pc) {
    || (pc.Checked? && s.CheckStep? && pc.input == s.input
        && s.input.approvalId in w.approvals && Matches(w.approvals[s.input.approvalId], s.input))
    || (pc.Claimed? && s.ClaimStep? && pc.op == s.op && c == s.call && c in w.calls && w.calls[c] == Checked(pc.input)
        && s.op !in w.attempts && s.op in w'.attempts && w'.attempts[s.op].input == pc.input)
    || (pc.Reconciling? && s.ReconcileReadStep? && ReconcileDue(w, s.approvalId) && pc.delivered == s.delivered
        && w.approvals[s.approvalId].operationId == Some(pc.op))
    || (!pc.Checked? && !pc.Claimed? && !pc.Reconciling? && c in w.calls && !w.calls[c].Checked?
         && !w.calls[c].Reconciling?
        && w.calls[c].input == pc.input && w.calls[c].op == pc.op)
  }

  ghost predicate CallsMove(w: World, s: Step, w': World) {
    forall c | c in w'.calls :: (c in w.calls && w'.calls[c] == w.calls[c]) || CallMove(w, s, w', c, w'.calls[c])
  }

  ghost predicate LogMoves(w: World, s: Step, w': World) {
    || w'.log == w.log
    || (s.DeliverStep? && s.op in w.attempts && !w.attempts[s.op].delivered && s.op in w'.attempts
         && w'.attempts[s.op].delivered
        && w'.log == w.log + [DeliveredMail(w.attempts[s.op].input, s.op)])
  }

  ghost predicate Moves(w: World, s: Step, w': World) {
    ApprovalsMove(w, s, w') && MessagesMove(w, s, w') && AttemptsMove(w, s, w') && CallsMove(w, s, w')
        && LogMoves(w, s, w')
  }

  /** A settlement moves only the record whose current operation it names. */
  lemma SettleEffect(m: Approvals, id: string, op: string, outcome: SendOutcome, at: int)
    ensures var m' := Settle(m, id, op, outcome, at).0;
      && m'.Keys == m.Keys
      && (forall k | k in m && k != id :: m'[k] == m[k])
      && (id in m ==> m'[id].operationId == m[id].operationId && SameBinding(m[id], m'[id]))
      && (id in m && m'[id] != m[id] ==>
            m[id].status == Sending && m[id].operationId == Some(op) && m'[id].status == SettledStatus(outcome))
  {
  }

  lemma SentSettlementMoves(w: World, s: Step, id: string)
    requires Enabled(w, s) && s.SettleSentStep? && id in w.approvals && w.approvals[id].approvalId == id
    ensures id in Do(w, s).approvals && RecordMove(w, s, Do(w, s), w.approvals[id], Do(w, s).approvals[id])
  {
    var pc := w.calls[s.call];
    SettleEffect(w.approvals, pc.input.approvalId, pc.op, Delivered(pc.messageId), s.at);
  }

  lemma CaughtSettlementMoves(w: World, s: Step, id: string)
    requires Enabled(w, s) && s.CatchStep? && id in w.approvals && w.approvals[id].approvalId == id
    ensures id in Do(w, s).approvals && RecordMove(w, s, Do(w, s), w.approvals[id], Do(w, s).approvals[id])
  {
    var pc := w.calls[s.call];
    NeverRetryable(pc.error);
    SettleEffect(w.approvals, pc.input.approvalId, pc.op, NotDelivered(false), s.at);
  }

  lemma VerdictSettlementMoves(w: World, s: Step, id: string)
    requires Enabled(w, s) && s.ReconcileSettleStep? && id in w.approvals && w.approvals[id].approvalId == id
    ensures id in Do(w, s).approvals && RecordMove(w, s, Do(w, s), w.approvals[id], Do(w, s).approvals[id])
  {
    var pc := w.calls[s.call];
    var outcome := if pc.delivered then Delivered(pc.messageId) else NotDelivered(true);
    SettleEffect(w.approvals, pc.approvalId, pc.op, outcome, s.at);
  }

  /** A settlement step: whatever outcome it reports, only its own sending record can move. */
  lemma SettlementMoves(w: World, s: Step, id: string)
    requires Enabled(w, s) && (s.SettleSentStep? || s.CatchStep? || s.ReconcileSettleStep?)
    requires id in w.approvals && w.approvals[id].approvalId == id
    ensures id in Do(w, s).approvals && RecordMove(w, s, Do(w, s), w.approvals[id], Do(w, s).approvals[id])
  {
    match s
    case SettleSentStep(_, _, _) => SentSettlementMoves(w, s, id);
    case CatchStep(_, _) => CaughtSettlementMoves(w, s, id);
    case ReconcileSettleStep(_, _) => VerdictSettlementMoves(w, s, id);
  }

  lemma StoreOperationMoves(w: World, s: Step, id: string)
    requires Enabled(w, s) && (s.ClaimStep? || s.ExpireStep? || s.DisconnectStep? || s.IssueStep?)
    requires id in w.approvals && w.approvals[id].approvalId == id
    ensures id in Do(w, s).approvals && RecordMove(w, s, Do(w, s), w.approvals[id], Do(w, s).approvals[id])
  {
  }

  lemma LocalStepKeepsApprovals(w: World, s: Step)
    requires Enabled(w, s)
    requires !s.SettleSentStep? && !s.CatchStep? && !s.ReconcileSettleStep? && !s.ClaimStep? && !s.ExpireStep?
    requires !s.DisconnectStep? && !s.IssueStep?
    ensures Do(w, s).approvals == w.approvals
  {
  }

  lemma RecordsMove(w: World, s: Step, id: string)
    requires Enabled(w, s) && id in w.approvals && w.approvals[id].approvalId == id
    ensures id in Do(w, s).approvals && RecordMove(w, s, Do(w, s), w.approvals[id], Do(w, s).approvals[id])
  {
    if s.SettleSentStep? || s.CatchStep? || s.ReconcileSettleStep? {
      SettlementMoves(w, s, id);
    } else if s.ClaimStep? || s.ExpireStep? || s.DisconnectStep? || s.IssueStep? {
      StoreOperationMoves(w, s, id);
    } else {
      LocalStepKeepsApprovals(w, s);
    }
  }

  lemma StepApprovals(w: World, s: Step)
    requires Enabled(w, s) && forall id | id in w.approvals :: w.approvals[id].approvalId == id
    ensures ApprovalsMove(w, s, Do(w, s))
  {
    forall id | id in w.approvals
      ensures id in Do(w, s).approvals && RecordMove(w, s, Do(w, s), w.approvals[id], Do(w, s).approvals[id])
    {
      RecordsMove(w, s, id);
    }
    NewRecords(w, s);
  }

  lemma NewRecords(w: World, s: Step)
    requires Enabled(w, s)
    ensures Do(w, s).approvals.Keys == w.approvals.Keys + if s.IssueStep? then {s.approval.approvalId} else {}
    ensures s.IssueStep? ==> Do(w, s).approvals[s.approval.approvalId] == s.approval
  {
  }

  lemma StepMessages(w: World, s: Step)
    requires Enabled(w, s)
    ensures MessagesMove(w, s, Do(w, s))
  {
  }

  lemma ProviderMovesAttempt(w: World, s: Step, op: string)
    requires Enabled(w, s) && op in w.attempts && (s.DeliverStep? || s.CallEndsStep? || s.ClaimStep?)
    ensures op in Do(w, s).attempts && AttemptMove(w, s, Do(w, s), op, w.attempts[op], Do(w, s).attempts[op])
  {
  }

  lemma CallerMovesAttempt(w: World, s: Step, op: string)
    requires Enabled(w, s) && op in w.attempts && (s.ClaimAuditStep? || s.CrashStep?)
    ensures op in Do(w, s).attempts && AttemptMove(w, s, Do(w, s), op, w.attempts[op], Do(w, s).attempts[op])
  {
  }

  lemma OtherStepKeepsAttempts(w: World, s: Step)
    requires Enabled(w, s) && !s.DeliverStep? && !s.CallEndsStep? && !s.ClaimStep? && !s.ClaimAuditStep?
    requires !s.CrashStep?
    ensures Do(w, s).attempts == w.attempts
  {
  }

  lemma StepAttempt(w: World, s: Step, op: string)
    requires Enabled(w, s) && op in w.attempts
    ensures op in Do(w, s).attempts && AttemptMove(w, s, Do(w, s), op, w.attempts[op], Do(w, s).attempts[op])
  {
    if s.DeliverStep? || s.CallEndsStep? || s.ClaimStep? {
      ProviderMovesAttempt(w, s, op);
    } else if s.ClaimAuditStep? || s.CrashStep? {
      CallerMovesAttempt(w, s, op);
    } else {
      OtherStepKeepsAttempts(w, s);
    }
  }

  lemma StepNewAttempt(w: World, s: Step, op: string)
    requires Enabled(w, s) && op in Do(w, s).attempts && op !in w.attempts
    ensures s.ClaimStep? && s.op == op && s.call in w.calls && w.calls[s.call].Checked?
    ensures Do(w, s).attempts[op] == Attempt(w.calls[s.call].input, s.at, NotBegun, false)
    ensures Winning(w, Do(w, s), w.calls[s.call].input.approvalId, op, s.at)
  {
  }

  lemma StepAttempts(w: World, s: Step)
    requires Enabled(w, s)
    ensures AttemptsMove(w, s, Do(w, s))
  {
    forall op | op in w.attempts
      ensures op in Do(w, s).attempts && AttemptMove(w, s, Do(w, s), op, w.attempts[op], Do(w, s).attempts[op])
    {
      StepAttempt(w, s, op);
    }
    forall op | op in Do(w, s).attempts && op !in w.attempts
      ensures s.ClaimStep? && s.op == op && s.call in w.calls && w.calls[s.call].Checked?
        && Do(w, s).attempts[op] == Attempt(w.calls[s.call].input, s.at, NotBegun, false)
        && Winning(w, Do(w, s), w.calls[s.call].input.approvalId, op, s.at)
    {
      StepNewAttempt(w, s, op);
    }
  }

  lemma StepCall(w: World, s: Step, c: nat)
    requires Enabled(w, s) && c in Do(w, s).calls
    ensures (c in w.calls && Do(w, s).calls[c] == w.calls[c]) || CallMove(w, s, Do(w, s), c, Do(w, s).calls[c])
  {
    if s.CheckStep? || s.ClaimStep? || s.ReconcileReadStep? {
      StartingStepCall(w, s, c);
    }
  }

  lemma StartingStepCall(w: World, s: Step, c: nat)
    requires Enabled(w, s) && c in Do(w, s).calls && (s.CheckStep? || s.ClaimStep? || s.ReconcileReadStep?)
    ensures (c in w.calls && Do(w, s).calls[c] == w.calls[c]) || CallMove(w, s, Do(w, s), c, Do(w, s).calls[c])
  {
    if s.CheckStep? {
      BeginAcceptsIff(w.approvals[s.input.approvalId], s.input, s.scope, s.at);
    }
  }

  lemma StepCalls(w: World, s: Step)
    requires Enabled(w, s)
    ensures CallsMove(w, s, Do(w, s))
  {
    forall c | c in Do(w, s).calls
      ensures (c in w.calls && Do(w, s).calls[c] == w.calls[c]) || CallMove(w, s, Do(w, s), c, Do(w, s).calls[c])
    {
      StepCall(w, s, c);
    }
  }

  lemma StepLog(w: World, s: Step)
    requires Enabled(w, s)
    ensures LogMoves(w, s, Do(w, s))
  {
  }

  // ---- Every delivery is an approved one ----

  ghost predicate Known(w: World, input: SendInput) {
    input.approvalId in w.approvals && Matches(w.approvals[input.approvalId], input)
  }

  ghost predicate ApprovalsBound(w: World) {
    forall id | id in w.approvals ::
        id in w.messages && w.approvals[id].approvalId == id && BoundTo(w.approvals[id], w.messages[id])
  }

  ghost predicate AttemptsKnown(w: World) {
    forall op | op in w.attempts :: Known(w, w.attempts[op].input)
      && w.attempts[op].claimedAt < w.approvals[w.attempts[op].input.approvalId].expiresAt
  }

  ghost predicate CallsKnown(w: World) {
    forall c | c in w.calls && !w.calls[c].Reconciling? :: Known(w, w.calls[c].input)
  }

  ghost predicate ClaimsRegistered(w: World) {
    forall c | c in w.calls && !w.calls[c].Checked? && !w.calls[c].Reconciling? ::
      w.calls[c].op in w.attempts && w.attempts[w.calls[c].op].input == w.calls[c].input
  }

  ghost predicate Backed(w: World, mail: DeliveredMail) {
    mail.operationId in w.attempts && w.attempts[mail.operationId].delivered
        && w.attempts[mail.operationId].input == mail.input
  }

  ghost predicate LogBacked(w: World) {
    && (forall i | 0 <= i < |w.log| :: Backed(w, w.log[i]))
    && (forall i, j | 0 <= i < j < |w.log| :: w.log[i].operationId != w.log[j].operationId)
  }

  ghost predicate Bound(w: World) {
    ApprovalsBound(w) && AttemptsKnown(w) && CallsKnown(w) && ClaimsRegistered(w) && LogBacked(w)
  }

  lemma KnownStays(w: World, s: Step, w': World, input: SendInput)
    requires ApprovalsMove(w, s, w') && Known(w, input)
    ensures Known(w', input) && w'.approvals[input.approvalId].expiresAt == w.approvals[input.approvalId].expiresAt
  {
    assert RecordMove(w, s, w', w.approvals[input.approvalId], w'.approvals[input.approvalId]);
  }

  lemma ApprovalsBoundKept(w: World, s: Step, w': World)
    requires ApprovalsBound(w) && ApprovalsMove(w, s, w') && MessagesMove(w, s, w')
    ensures ApprovalsBound(w')
  {
    forall id | id in w'.approvals
      ensures id in w'.messages && w'.approvals[id].approvalId == id && BoundTo(w'.approvals[id], w'.messages[id])
    {
      if id in w.approvals { assert RecordMove(w, s, w', w.approvals[id], w'.approvals[id]); }
    }
  }

  lemma AttemptsKnownKept(w: World, s: Step, w': World)
    requires Bound(w) && ApprovalsMove(w, s, w') && AttemptsMove(w, s, w')
    ensures AttemptsKnown(w')
  {
    forall op | op in w'.attempts ensures Known(w', w'.attempts[op].input)
      && w'.attempts[op].claimedAt < w'.approvals[w'.attempts[op].input.approvalId].expiresAt
    {
      if op in w.attempts {
        assert AttemptMove(w, s, w', op, w.attempts[op], w'.attempts[op]);
      }
      KnownStays(w, s, w', w'.attempts[op].input);
    }
  }

  lemma CallsKnownKept(w: World, s: Step, w': World)
    requires CallsKnown(w) && ApprovalsMove(w, s, w') && CallsMove(w, s, w')
    ensures CallsKnown(w')
  {
    forall c | c in w'.calls && !w'.calls[c].Reconciling? ensures Known(w', w'.calls[c].input) {
      assert (c in w.calls && w'.calls[c] == w.calls[c]) || CallMove(w, s, w', c, w'.calls[c]);
      CallWasKnown(w, s, w', c, w'.calls[c]);
      KnownStays(w, s, w', w'.calls[c].input);
    }
  }

  lemma CallWasKnown(w: World, s: Step, w': World, c: nat, pc: Pc)
    requires CallsKnown(w) && !pc.Reconciling?
    requires (c in w.calls && pc == w.calls[c]) || CallMove(w, s, w', c, pc)
    ensures Known(w, pc.input)
  {
  }

  lemma ClaimsRegisteredKept(w: World, s: Step, w': World)
    requires ClaimsRegistered(w) && AttemptsMove(w, s, w') && CallsMove(w, s, w')
    ensures ClaimsRegistered(w')
  {
    forall c | c in w'.calls && !w'.calls[c].Reconciling? && !w'.calls[c].Checked?
      ensures w'.calls[c].op in w'.attempts && w'.attempts[w'.calls[c].op].input == w'.calls[c].input
    {
      assert (c in w.calls && w'.calls[c] == w.calls[c]) || CallMove(w, s, w', c, w'.calls[c]);
      var op := w'.calls[c].op;
      if op in w.attempts {
        assert AttemptMove(w, s, w', op, w.attempts[op], w'.attempts[op]);
      }
    }
  }

  lemma LogKept(w: World, s: Step, w': World)
    requires LogBacked(w) && AttemptsMove(w, s, w') && LogMoves(w, s, w')
    ensures LogBacked(w')
  {
    forall i | 0 <= i < |w'.log| ensures Backed(w', w'.log[i]) {
      if i < |w.log| {
        assert Backed(w, w.log[i]);
        var op := w.log[i].operationId;
        assert AttemptMove(w, s, w', op, w.attempts[op], w'.attempts[op]);
      } else {
        assert AttemptMove(w, s, w', s.op, w.attempts[s.op], w'.attempts[s.op]);
      }
    }
    forall i, j | 0 <= i < j < |w'.log| ensures w'.log[i].operationId != w'.log[j].operationId {
      assert Backed(w, w.log[i]);
    }
  }

  lemma BoundKept(w: World, s: Step)
    requires Bound(w) && Enabled(w, s)
    ensures Bound(Do(w, s)) && Moves(w, s, Do(w, s))
  {
    StepApprovals(w, s);
    StepMessages(w, s);
    StepAttempts(w, s);
    StepCalls(w, s);
    StepLog(w, s);
    BoundFollows(w, s, Do(w, s));
  }

  lemma BoundFollows(w: World, s: Step, w': World)
    requires Bound(w) && Moves(w, s, w')
    ensures Bound(w')
  {
    ApprovalsBoundKept(w, s, w');
    AttemptsKnownKept(w, s, w');
    CallsKnownKept(w, s, w');
    ClaimsRegisteredKept(w, s, w');
    LogKept(w, s, w');
  }

  lemma {:induction false} BoundAlways(w: World, steps: seq<Step>)
    requires Bound(w) && Legal(w, steps)
    ensures Bound(Run(w, steps))
    decreases steps
  {
    if steps == [] {
    } else {
      BoundKept(w, steps[0]);
      BoundAlways(Do(w, steps[0]), steps[1..]);
    }
  }

  /** In every run, whatever reconcilers claim, every delivered mail belongs to an approval with a named
      approver, went through that approval's connection, was claimed before its expiry, and carries
      the hashes of the message approved. */
  lemma DeliveredWasApproved(steps: seq<Step>, i: int)
    requires Legal(Start, steps) && 0 <= i < |Run(Start, steps).log|
    ensures var w := Run(Start, steps);
      var mail := w.log[i];
      && mail.input.approvalId in w.approvals && mail.input.approvalId in w.messages
      && mail.operationId in w.attempts
      && var a := w.approvals[mail.input.approvalId];
      && a.approvedByUserId != "" && a.connectionId == mail.input.connectionId
      && w.attempts[mail.operationId].claimedAt < a.expiresAt
      && BoundTo(a, w.messages[mail.input.approvalId]) && Matches(a, mail.input)
  {
    BoundAlways(Start, steps);
  }

  /** So for well-formed messages the mail delivered is the message approved. */
  lemma DeliveredIsWhatWasApproved(steps: seq<Step>, i: int)
    requires Legal(Start, steps) && 0 <= i < |Run(Start, steps).log|
    requires var w := Run(Start, steps);
      var mail := w.log[i].input;
      && mail.approvalId in w.messages
      && WellFormedMessage(w.messages[mail.approvalId].to, w.messages[mail.approvalId].subject)
      && WellFormedMessage(mail.to, mail.subject.GetOr(""))
    ensures var w := Run(Start, steps);
      var mail := w.log[i].input;
      var approved := w.messages[mail.approvalId];
      && Hashing.SameRecipients(approved.to, mail.to)
      && approved.subject == mail.subject.GetOr("") && approved.body == mail.body
  {
    var w := Run(Start, steps);
    DeliveredWasApproved(steps, i);
    var mail := w.log[i].input;
    ApprovalBindsMessage(w.approvals[mail.approvalId], w.messages[mail.approvalId], mail);
  }

  // ---- At most one delivery per approval ----

  /** A send that was retried, or is about to be: over, and nothing delivered. */
  predicate Spent(a: Attempt) { a.phase == Over && !a.delivered }

  ghost predicate SendingHasAttempt(w: World) {
    forall id | id in w.approvals && w.approvals[id].status == Sending ::
      w.approvals[id].operationId.Some? && w.approvals[id].operationId.value in w.attempts
      && w.attempts[w.approvals[id].operationId.value].input.approvalId == id
  }

  ghost predicate IssuedUnclaimed(w: World) {
    forall id | id in w.approvals && w.approvals[id].status == Issued :: w.approvals[id].operationId == None
  }

  ghost predicate OldAttemptsSpent(w: World) {
    forall op | op in w.attempts && w.attempts[op].input.approvalId in w.approvals ::
      SpentUnlessCurrent(w.approvals[w.attempts[op].input.approvalId], op, w.attempts[op])
  }

  ghost predicate UnauditedNotBegun(w: World) {
    && (forall c | c in w.calls && w.calls[c].Claimed? :: w.calls[c].op in w.attempts ==>
         w.attempts[w.calls[c].op].phase == NotBegun)
    && (forall c, d | c in w.calls && d in w.calls && c != d && w.calls[c].Claimed? && w.calls[d].Claimed? ::
         w.calls[c].op != w.calls[d].op)
  }

  ghost predicate VerdictsTrue(w: World) {
    forall c | c in w.calls && w.calls[c].Reconciling? && !w.calls[c].delivered ::
      w.calls[c].op in w.attempts && Spent(w.attempts[w.calls[c].op])
  }

  ghost predicate Safe(w: World) {
    && Bound(w) && SendingHasAttempt(w) && IssuedUnclaimed(w) && OldAttemptsSpent(w) && UnauditedNotBegun(w)
    && VerdictsTrue(w)
  }

  /** A spent attempt stays spent: only an open call delivers, and only an unaudited claim opens one. */
  lemma SpentStays(w: World, s: Step, w': World, op: string)
    requires UnauditedNotBegun(w) && AttemptsMove(w, s, w') && op in w.attempts && Spent(w.attempts[op])
    ensures op in w'.attempts && Spent(w'.attempts[op])
  {
    assert AttemptMove(w, s, w', op, w.attempts[op], w'.attempts[op]);
  }

  ghost predicate Keyed(w: World) {
    forall id | id in w.approvals :: w.approvals[id].approvalId == id
  }

  lemma SendingKept(w: World, s: Step, w': World)
    requires Keyed(w) && SendingHasAttempt(w) && IssuedUnclaimed(w)
    requires ApprovalsMove(w, s, w') && AttemptsMove(w, s, w')
    ensures SendingHasAttempt(w') && IssuedUnclaimed(w')
  {
    forall id | id in w'.approvals
      ensures w'.approvals[id].status == Issued ==> w'.approvals[id].operationId == None
      ensures w'.approvals[id].status == Sending ==>
        w'.approvals[id].operationId.Some? && w'.approvals[id].operationId.value in w'.attempts
        && w'.attempts[w'.approvals[id].operationId.value].input.approvalId == id
    {
      if id in w.approvals {
        SendingStays(w, s, w', id);
      }
    }
  }

  lemma SendingStays(w: World, s: Step, w': World, id: string)
    requires id in w.approvals && w.approvals[id].approvalId == id && id in w'.approvals
    requires w.approvals[id].status == Issued ==> w.approvals[id].operationId == None
    requires w.approvals[id].status == Sending ==> RegisteredFor(w, w.approvals[id], id)
    requires RecordMove(w, s, w', w.approvals[id], w'.approvals[id]) && AttemptsMove(w, s, w')
    ensures w'.approvals[id].status == Issued ==> w'.approvals[id].operationId == None
    ensures w'.approvals[id].status == Sending ==> RegisteredFor(w', w'.approvals[id], id)
  {
    if w.approvals[id].status == Sending {
      var op := w.approvals[id].operationId.value;
      assert AttemptMove(w, s, w', op, w.attempts[op], w'.attempts[op]);
    }
  }

  predicate RegisteredFor(w: World, a: SendApproval, id: string) {
    a.operationId.Some? && a.operationId.value in w.attempts && w.attempts[a.operationId.value].input.approvalId == id
  }

  predicate SpentUnlessCurrent(a: SendApproval, op: string, attempt: Attempt) {
    a.operationId != Some(op) || a.status == FailedRetryable ==> Spent(attempt)
  }

  lemma UnspentStaysCurrent(w: World, s: Step, w': World, a: SendApproval, b: SendApproval, op: string)
    requires VerdictsTrue(w) && op in w.attempts && !Spent(w.attempts[op])
    requires RecordMove(w, s, w', a, b) && a.operationId == Some(op) && a.status !in {Issued, FailedRetryable}
    ensures b.operationId == Some(op) && b.status != FailedRetryable
  {
  }

  /** A record only takes a new operation, or becomes retryable, when every attempt so far is spent. */
  lemma OldAttemptStays(w: World, s: Step, w': World, op: string, id: string)
    requires op in w.attempts && w.attempts[op].input.approvalId == id && id in w.approvals
    requires w.approvals[id].approvalId == id
    requires SpentUnlessCurrent(w.approvals[id], op, w.attempts[op])
    requires w.approvals[id].status == Issued ==> w.approvals[id].operationId == None
    requires UnauditedNotBegun(w) && VerdictsTrue(w)
    requires ApprovalsMove(w, s, w') && AttemptsMove(w, s, w')
    ensures id in w'.approvals && op in w'.attempts && SpentUnlessCurrent(w'.approvals[id], op, w'.attempts[op])
  {
    var a, b := w.approvals[id], w'.approvals[id];
    assert RecordMove(w, s, w', a, b);
    if Spent(w.attempts[op]) {
      SpentStays(w, s, w', op);
    } else {
      UnspentStaysCurrent(w, s, w', a, b, op);
      assert op in w'.attempts;
    }
  }

  lemma OldAttemptsKept(w: World, s: Step, w': World)
    requires Keyed(w) && IssuedUnclaimed(w) && OldAttemptsSpent(w) && UnauditedNotBegun(w) && VerdictsTrue(w)
    requires forall op | op in w.attempts :: w.attempts[op].input.approvalId in w.approvals
    requires ApprovalsMove(w, s, w') && AttemptsMove(w, s, w')
    ensures OldAttemptsSpent(w')
  {
    forall op | op in w'.attempts && w'.attempts[op].input.approvalId in w'.approvals
      ensures SpentUnlessCurrent(w'.approvals[w'.attempts[op].input.approvalId], op, w'.attempts[op])
    {
      if op in w.attempts {
        assert AttemptMove(w, s, w', op, w.attempts[op], w'.attempts[op]);
        OldAttemptStays(w, s, w', op, w.attempts[op].input.approvalId);
      }
    }
  }

  lemma UnauditedStays(w: World, s: Step, w': World, c: nat)
    requires ClaimsRegistered(w) && UnauditedNotBegun(w) && AttemptsMove(w, s, w') && CallsMove(w, s, w')
    requires c in w'.calls && w'.calls[c].Claimed?
    ensures (c in w.calls && w.calls[c] == w'.calls[c] && w.calls[c].op in w.attempts)
         || (s.ClaimStep? && c == s.call && w'.calls[c].op == s.op && s.op !in w.attempts)
    ensures w'.calls[c].op in w'.attempts && w'.attempts[w'.calls[c].op].phase == NotBegun
  {
    if c in w.calls && w'.calls[c] == w.calls[c] {
      SameCallUnaudited(w, s, w', c);
    } else {
      assert CallMove(w, s, w', c, w'.calls[c]);
      assert w'.attempts[s.op] == Attempt(w.calls[s.call].input, s.at, NotBegun, false);
    }
  }

  lemma SameCallUnaudited(w: World, s: Step, w': World, c: nat)
    requires ClaimsRegistered(w) && UnauditedNotBegun(w) && AttemptsMove(w, s, w')
    requires c in w.calls && c in w'.calls && w.calls[c].Claimed? && w'.calls[c] == w.calls[c]
    ensures w.calls[c].op in w.attempts && w.calls[c].op in w'.attempts
    ensures w'.attempts[w.calls[c].op].phase == NotBegun
  {
    var op := w.calls[c].op;
    assert AttemptMove(w, s, w', op, w.attempts[op], w'.attempts[op]);
  }

  lemma UnauditedKept(w: World, s: Step, w': World)
    requires ClaimsRegistered(w) && UnauditedNotBegun(w) && AttemptsMove(w, s, w') && CallsMove(w, s, w')
    ensures UnauditedNotBegun(w')
  {
    forall c | c in w'.calls && w'.calls[c].Claimed?
      ensures (c in w.calls && w.calls[c] == w'.calls[c] && w.calls[c].op in w.attempts)
           || (s.ClaimStep? && c == s.call && w'.calls[c].op == s.op && s.op !in w.attempts)
      ensures w'.calls[c].op in w'.attempts && w'.attempts[w'.calls[c].op].phase == NotBegun
    {
      UnauditedStays(w, s, w', c);
    }
  }

  lemma VerdictsKept(w: World, s: Step, w': World)
    requires SendingHasAttempt(w) && UnauditedNotBegun(w) && VerdictsTrue(w)
    requires AttemptsMove(w, s, w') && CallsMove(w, s, w') && Truthful(w, s)
    ensures VerdictsTrue(w')
  {
    forall c | c in w'.calls && w'.calls[c].Reconciling? && !w'.calls[c].delivered
      ensures w'.calls[c].op in w'.attempts && Spent(w'.attempts[w'.calls[c].op])
    {
      assert (c in w.calls && w'.calls[c] == w.calls[c]) || CallMove(w, s, w', c, w'.calls[c]);
      SpentStays(w, s, w', w'.calls[c].op);
    }
  }

  lemma SafeKept(w: World, s: Step)
    requires Safe(w) && Enabled(w, s) && Truthful(w, s)
    ensures Safe(Do(w, s))
  {
    BoundKept(w, s);
    assert Keyed(w);
    assert forall op | op in w.attempts :: Known(w, w.attempts[op].input);
    SendingKept(w, s, Do(w, s));
    OldAttemptsKept(w, s, Do(w, s));
    UnauditedKept(w, s, Do(w, s));
    VerdictsKept(w, s, Do(w, s));
  }

  lemma {:induction false} SafeAlways(w: World, steps: seq<Step>)
    requires Safe(w) && Legal(w, steps) && AllTruthful(w, steps)
    ensures Safe(Run(w, steps))
    decreases steps
  {
    if steps == [] {
    } else {
      SafeKept(w, steps[0]);
      SafeAlways(Do(w, steps[0]), steps[1..]);
    }
  }

  /** However the calls interleave, the provider delivers each approval at most once, and never has two
      open calls for one approval, provided that "not delivered" verdicts are true of ended calls. */
  lemma AtMostOnceDelivery(steps: seq<Step>)
    requires Legal(Start, steps) && AllTruthful(Start, steps)
    ensures var log := Run(Start, steps).log;
      forall i, j | 0 <= i < |log| && 0 <= j < |log| :: log[i].input.approvalId == log[j].input.approvalId ==> i == j
    ensures var attempts := Run(Start, steps).attempts;
      forall op1, op2 | op1 in attempts && op2 in attempts && attempts[op1].phase == Open
          && attempts[op2].phase == Open ::
        attempts[op1].input.approvalId == attempts[op2].input.approvalId ==> op1 == op2
  {
    SafeAlways(Start, steps);
    SafeIsOnce(Run(Start, steps));
  }

  lemma SafeIsOnce(w: World)
    requires Safe(w)
    ensures forall i, j | 0 <= i < |w.log| && 0 <= j < |w.log| ::
        w.log[i].input.approvalId == w.log[j].input.approvalId ==> i == j
    ensures forall op1, op2 | op1 in w.attempts && op2 in w.attempts && w.attempts[op1].phase == Open
        && w.attempts[op2].phase == Open ::
      w.attempts[op1].input.approvalId == w.attempts[op2].input.approvalId ==> op1 == op2
  {
    DeliveredOnce(w);
    OneOpenCall(w);
  }

  /** An attempt that is not spent is the current one of its approval. */
  lemma UnspentIsCurrent(w: World, op: string)
    requires AttemptsKnown(w) && OldAttemptsSpent(w) && op in w.attempts && !Spent(w.attempts[op])
    ensures w.attempts[op].input.approvalId in w.approvals
    ensures w.approvals[w.attempts[op].input.approvalId].operationId == Some(op)
  {
    assert Known(w, w.attempts[op].input);
  }

  lemma DeliveredOnce(w: World)
    requires AttemptsKnown(w) && OldAttemptsSpent(w) && LogBacked(w)
    ensures forall i, j | 0 <= i < |w.log| && 0 <= j < |w.log| ::
        w.log[i].input.approvalId == w.log[j].input.approvalId ==> i == j
  {
    forall i, j | 0 <= i < |w.log| && 0 <= j < |w.log| && w.log[i].input.approvalId == w.log[j].input.approvalId
      ensures i == j
    {
      assert Backed(w, w.log[i]) && Backed(w, w.log[j]);
      UnspentIsCurrent(w, w.log[i].operationId);
      UnspentIsCurrent(w, w.log[j].operationId);
    }
  }

  lemma OneOpenCall(w: World)
    requires AttemptsKnown(w) && OldAttemptsSpent(w)
    ensures forall op1, op2 | op1 in w.attempts && op2 in w.attempts && w.attempts[op1].phase == Open
        && w.attempts[op2].phase == Open ::
      w.attempts[op1].input.approvalId == w.attempts[op2].input.approvalId ==> op1 == op2
  {
    forall op | op in w.attempts && w.attempts[op].phase == Open
      ensures w.attempts[op].input.approvalId in w.approvals
      ensures w.approvals[w.attempts[op].input.approvalId].operationId == Some(op)
    {
      UnspentIsCurrent(w, op);
    }
  }
}
