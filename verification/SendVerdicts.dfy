/** Two things about the send protocol beyond its safety: a call that nobody interleaves with is the
    sequential adapter program, and the assumption on reconcilers is exactly the right one. */
module SendVerdicts {
  import opened Prelude
  import opened MailRecords
  import opened SendApprovals
  import opened SendGuard
  import opened MemorySpec
  import opened SendProtocol
  import MailAdapters

  // ---- Putting runs together ----

  lemma Then(w: World, s: Step, w1: World, rest: seq<Step>)
    requires Enabled(w, s) && w1 == Do(w, s) && Legal(w1, rest)
    ensures Legal(w, [s] + rest) && Run(w, [s] + rest) == Run(w1, rest)
  {
    assert ([s] + rest)[0] == s && ([s] + rest)[1..] == rest;
  }

  /** The first step of a run, as the world it leads to. */
  lemma Head(w: World, steps: seq<Step>, second: seq<Step>) returns (next: World)
    requires steps != [] && Legal(w, steps)
    ensures Legal(next, steps[1..]) && Run(w, steps) == Run(next, steps[1..])
    ensures Legal(next, steps[1..] + second) ==>
        Legal(w, steps + second) && Run(w, steps + second) == Run(next, steps[1..] + second)
  {
    next := Do(w, steps[0]);
    assert (steps + second)[0] == steps[0] && (steps + second)[1..] == steps[1..] + second;
  }

  lemma {:induction false} Chain(w: World, first: seq<Step>, second: seq<Step>)
    requires Legal(w, first) && Legal(Run(w, first), second)
    ensures Legal(w, first + second) && Run(w, first + second) == Run(Run(w, first), second)
    decreases first
  {
    if first == [] {
      assert first + second == second;
    } else {
      var next := Head(w, first, second);
      Chain(next, first[1..], second);
    }
  }

  lemma One(w: World, s: Step)
    requires Enabled(w, s)
    ensures Legal(w, [s]) && Run(w, [s]) == Do(w, s)
  {
    assert [s][1..] == [];
  }

  lemma Two(w: World, s: Step, s': Step)
    requires Enabled(w, s) && Enabled(Do(w, s), s')
    ensures Legal(w, [s, s']) && Run(w, [s, s']) == Do(Do(w, s), s')
  {
    One(Do(w, s), s');
    assert [s, s'][1..] == [s'];
  }

  lemma Three(w: World, s: Step, s': Step, s'': Step)
    requires Enabled(w, s) && Enabled(Do(w, s), s') && Enabled(Do(Do(w, s), s'), s'')
    ensures Legal(w, [s, s', s'']) && Run(w, [s, s', s'']) == Do(Do(Do(w, s), s'), s'')
  {
    Two(Do(w, s), s', s'');
    assert [s, s', s''][1..] == [s', s''];
  }

  /** A run without "not delivered" verdicts makes no false one. */
  lemma {:induction false} NoVerdictsNoLies(w: World, steps: seq<Step>)
    requires Legal(w, steps) && forall i | 0 <= i < |steps| :: !steps[i].ReconcileReadStep?
    ensures AllTruthful(w, steps)
    decreases steps
  {
    if steps == [] {
    } else {
      assert !steps[0].ReconcileReadStep?;
      NoVerdictsNoLies(Do(w, steps[0]), steps[1..]);
    }
  }

  function OpenSteps(call: nat, op: string, input: SendInput, scope: Option<TenantScope>, checkedAt: int,
                     at: int): seq<Step>
  {
    [CheckStep(call, input, scope, checkedAt), ClaimStep(call, op, at), ClaimAuditStep(call, true)]
  }

  function Opened(w: World, call: nat, op: string, input: SendInput, at: int): World {
    w.(approvals := Claim(w.approvals, input.approvalId, op, at).0,
       attempts := w.attempts[op := Attempt(input, at, Open, false)],
       calls := w.calls[call := Calling(input, op)])
  }

  /** A call that checks, claims and audits, up to the open provider call. */
  lemma OpenCall(w: World, call: nat, op: string, input: SendInput, scope: Option<TenantScope>, checkedAt: int, at: int)
    requires call !in w.calls && op !in w.attempts && input.approvalId in w.approvals
    requires SendApprovals.Refusal(w.approvals[input.approvalId], input, scope, checkedAt) == None
    requires Claimable(w.approvals[input.approvalId], at)
    ensures Legal(w, OpenSteps(call, op, input, scope, checkedAt, at))
    ensures Run(w, OpenSteps(call, op, input, scope, checkedAt, at)) == Opened(w, call, op, input, at)
  {
    var w1 := Do(w, CheckStep(call, input, scope, checkedAt));
    var w2 := Do(w1, ClaimStep(call, op, at));
    assert w2.attempts == w.attempts[op := Attempt(input, at, NotBegun, false)];
    assert w2.calls == w.calls[call := Claimed(input, op)];
    var w3 := Do(w2, ClaimAuditStep(call, true));
    assert w3.attempts == w.attempts[op := Attempt(input, at, Open, false)];
    assert w3.calls == w.calls[call := Calling(input, op)];
    Three(w, CheckStep(call, input, scope, checkedAt), ClaimStep(call, op, at), ClaimAuditStep(call, true));
  }

  // ---- A call alone is the sequential program ----

  function AnswerSteps(call: nat, env: MailAdapters.Surroundings): seq<Step> {
    match env.answer
    case Accepted(messageId) =>
      if env.settleAudited then [AnswerStep(call, messageId), SettleSentStep(call, env.settledAt, None)]
      else [AnswerStep(call, messageId), SettleSentStep(call, env.settledAt, Some(env.auditFailureText)),
          CatchStep(call, env.settledAt)]
    case Threw(text) => [FailStep(call, text), CatchStep(call, env.settledAt)]
  }

  /** The catch clause after a settlement whose audit threw: the record is no longer sending. */
  lemma CatchAfterSettled(w: World, call: nat, input: SendInput, env: MailAdapters.Surroundings)
    requires call in w.calls && w.calls[call] == Caught(input, env.operationId, env.auditFailureText)
    requires input.approvalId in w.approvals && w.approvals[input.approvalId].status == Sent
    ensures Enabled(w, CatchStep(call, env.settledAt))
    ensures Do(w, CatchStep(call, env.settledAt)) == w.(calls := w.calls - {call})
  {
    NeverRetryable(env.auditFailureText);
  }

  lemma AcceptedAlone(w: World, call: nat, input: SendInput, a: SendApproval, env: MailAdapters.Surroundings)
    requires call in w.calls && w.calls[call] == Calling(input, env.operationId) && input.approvalId in w.approvals
    requires env.answer.Accepted?
    requires w.approvals[input.approvalId]
        == a.(status := Sending, operationId := Some(env.operationId), updatedAt := env.claimedAt)
    ensures Legal(w, AnswerSteps(call, env))
    ensures Run(w, AnswerSteps(call, env))
        == w.(calls := w.calls - {call}, approvals := w.approvals[input.approvalId := MailAdapters.RecordAfter(a, env)])
  {
    var answer := AnswerStep(call, env.answer.messageId);
    var settle := SettleSentStep(call, env.settledAt, if env.settleAudited then None else Some(env.auditFailureText));
    if env.settleAudited {
      Two(w, answer, settle);
    } else {
      var w2 := Do(Do(w, answer), settle);
      CatchAfterSettled(w2, call, input, env);
      Three(w, answer, settle, CatchStep(call, env.settledAt));
    }
  }

  lemma ThrewAlone(w: World, call: nat, input: SendInput, a: SendApproval, env: MailAdapters.Surroundings)
    requires call in w.calls && w.calls[call] == Calling(input, env.operationId) && input.approvalId in w.approvals
    requires env.answer.Threw?
    requires w.approvals[input.approvalId]
        == a.(status := Sending, operationId := Some(env.operationId), updatedAt := env.claimedAt)
    ensures Legal(w, AnswerSteps(call, env))
    ensures Run(w, AnswerSteps(call, env))
        == w.(calls := w.calls - {call}, approvals := w.approvals[input.approvalId := MailAdapters.RecordAfter(a, env)])
  {
    NeverRetryable(env.answer.text);
    Two(w, FailStep(call, env.answer.text), CatchStep(call, env.settledAt));
  }

  lemma AnswerAlone(w: World, call: nat, input: SendInput, a: SendApproval, env: MailAdapters.Surroundings)
    requires call in w.calls && w.calls[call] == Calling(input, env.operationId) && input.approvalId in w.approvals
    requires w.approvals[input.approvalId]
        == a.(status := Sending, operationId := Some(env.operationId), updatedAt := env.claimedAt)
    ensures Legal(w, AnswerSteps(call, env))
    ensures Run(w, AnswerSteps(call, env))
        == w.(calls := w.calls - {call}, approvals := w.approvals[input.approvalId := MailAdapters.RecordAfter(a, env)])
  {
    if env.answer.Accepted? { AcceptedAlone(w, call, input, a, env); } else { ThrewAlone(w, call, input, a, env); }
  }

  /** The steps of one call, as far as it gets. */
  function AloneSteps(w: World, call: nat, input: SendInput, scope: Option<TenantScope>,
                      env: MailAdapters.Surroundings): seq<Step>
  {
    if input.approvalId !in w.approvals then []
    else
      match SendApprovals.Refusal(w.approvals[input.approvalId], input, scope, env.checkedAt)
      case Some(reason) => if reason == ApprovalExpired then [ExpireStep(input.approvalId, env.checkedAt)] else []
      case None =>
        if !Claimable(w.approvals[input.approvalId], env.claimedAt) then
          [CheckStep(call, input, scope, env.checkedAt), ClaimStep(call, env.operationId, env.claimedAt)]
        else if !env.claimAudited then
          [CheckStep(call, input, scope, env.checkedAt), ClaimStep(call, env.operationId, env.claimedAt),
              ClaimAuditStep(call, false)]
        else OpenSteps(call, env.operationId, input, scope, env.checkedAt, env.claimedAt) + AnswerSteps(call, env)
  }

  lemma OpenedAlone(w: World, call: nat, input: SendInput, scope: Option<TenantScope>, env: MailAdapters.Surroundings)
    requires call !in w.calls && env.operationId !in w.attempts && input.approvalId in w.approvals
    requires SendApprovals.Refusal(w.approvals[input.approvalId], input, scope, env.checkedAt) == None
    requires Claimable(w.approvals[input.approvalId], env.claimedAt)
    ensures var steps := OpenSteps(call, env.operationId, input, scope, env.checkedAt, env.claimedAt)
        + AnswerSteps(call, env);
      && Legal(w, steps)
      && Run(w, steps).approvals
           == w.approvals[input.approvalId := MailAdapters.RecordAfter(w.approvals[input.approvalId], env)]
      && Run(w, steps).calls == w.calls
  {
    var start := OpenSteps(call, env.operationId, input, scope, env.checkedAt, env.claimedAt);
    OpenCall(w, call, env.operationId, input, scope, env.checkedAt, env.claimedAt);
    var w1 := Opened(w, call, env.operationId, input, env.claimedAt);
    AnswerAlone(w1, call, input, w.approvals[input.approvalId], env);
    Chain(w, start, AnswerSteps(call, env));
    assert w1.calls - {call} == w.calls;
  }

  lemma UnopenedAlone(w: World, call: nat, input: SendInput, scope: Option<TenantScope>, env: MailAdapters.Surroundings)
    requires call !in w.calls && env.operationId !in w.attempts && input.approvalId in w.approvals
    requires SendApprovals.Refusal(w.approvals[input.approvalId], input, scope, env.checkedAt) == None
    requires !(Claimable(w.approvals[input.approvalId], env.claimedAt) && env.claimAudited)
    ensures var steps := AloneSteps(w, call, input, scope, env);
      && Legal(w, steps) && Run(w, steps).calls == w.calls
      && Run(w, steps).approvals == Claim(w.approvals, input.approvalId, env.operationId, env.claimedAt).0
  {
    var check, claim := CheckStep(call, input, scope, env.checkedAt), ClaimStep(call, env.operationId, env.claimedAt);
    var w2 := Do(Do(w, check), claim);
    if Claimable(w.approvals[input.approvalId], env.claimedAt) {
      Three(w, check, claim, ClaimAuditStep(call, false));
    } else {
      Two(w, check, claim);
    }
  }

  /** With nobody interleaving, the steps of one call, refused, lost, unaudited or answered, leave exactly
      the approvals that the sequential adapter program leaves (MailAdapters.SendMessage). */
  lemma CallAloneIsSendMessage(w: World, call: nat, input: SendInput, scope: Option<TenantScope>,
                               env: MailAdapters.Surroundings)
    requires call !in w.calls && env.operationId !in w.attempts
    ensures var steps := AloneSteps(w, call, input, scope, env);
      && Legal(w, steps) && Run(w, steps).calls == w.calls
      && Run(w, steps).approvals == MailAdapters.StoreAfter(w.approvals, input, scope, env)
  {
    if input.approvalId in w.approvals {
      var a := w.approvals[input.approvalId];
      var refusal := SendApprovals.Refusal(a, input, scope, env.checkedAt);
      if refusal == Some(ApprovalExpired) {
        One(w, ExpireStep(input.approvalId, env.checkedAt));
      } else if refusal == None {
        if Claimable(a, env.claimedAt) && env.claimAudited {
          OpenedAlone(w, call, input, scope, env);
        } else {
          UnopenedAlone(w, call, input, scope, env);
        }
      }
    }
  }

  /** Likewise for a reconciliation: reading and settling with nobody in between moves a due record to sent or
      retryable, keeping or learning its message id, as SendApprovals.ReconcileSend does, and nothing otherwise. */
  lemma ReconcileAloneIsReconcileSend(w: World, c: nat, id: string, delivered: bool, found: Option<string>, at: int)
    requires c !in w.calls
    ensures var steps :=
        if ReconcileDue(w, id) then [ReconcileReadStep(c, id, delivered, found), ReconcileSettleStep(c, at)] else [];
      && Legal(w, steps) && Run(w, steps).calls == w.calls && Run(w, steps).attempts == w.attempts
      && Run(w, steps).approvals
         == if !(id in w.approvals && w.approvals[id].status == Sending && w.approvals[id].operationId.Some?)
            then w.approvals
            else
              w.approvals[id := w.approvals[id].(
                status := if delivered then Sent else FailedRetryable,
                providerMessageId := if !delivered then w.approvals[id].providerMessageId
                  else if found.Some? then found
                  else Some(w.approvals[id].providerMessageId.GetOr("unknown")),
                updatedAt := at)]
  {
    if ReconcileDue(w, id) {
      Two(w, ReconcileReadStep(c, id, delivered, found), ReconcileSettleStep(c, at));
    }
  }

  /** And a disconnect, at any time, ends whatever is issued or sending on its connection and nothing else. */
  lemma DisconnectAlone(w: World, connectionId: string, at: int)
    ensures Legal(w, [DisconnectStep(connectionId, at)])
    ensures var w' := Run(w, [DisconnectStep(connectionId, at)]);
      && w' == w.(approvals := w'.approvals) && w'.approvals.Keys == w.approvals.Keys
      && forall id | id in w.approvals ::
           var a := w.approvals[id];
           w'.approvals[id] == if a.connectionId == connectionId && a.status in {Issued, Sending}
                               then a.(status := FailedTerminal, updatedAt := at) else a
  {
    One(w, DisconnectStep(connectionId, at));
  }

  // ---- Two more invariants ----

  /** What is delivered is in the log. */
  ghost predicate DeliveredLogged(w: World) {
    forall op | op in w.attempts && w.attempts[op].delivered :: Logged(w, op)
  }

  ghost predicate Logged(w: World, op: string)
    requires op in w.attempts
  {
    exists i :: 0 <= i < |w.log| && w.log[i] == DeliveredMail(w.attempts[op].input, op)
  }

  /** A send that has not begun still has the call that claimed it. */
  ghost predicate UnbegunHeld(w: World) {
    forall op | op in w.attempts && w.attempts[op].phase == NotBegun :: Held(w, op)
  }

  ghost predicate Held(w: World, op: string) {
    exists c :: c in w.calls && w.calls[c].Claimed? && w.calls[c].op == op
  }

  lemma LogGrows(w: World, s: Step)
    requires Enabled(w, s)
    ensures Do(w, s).log == w.log + if s.DeliverStep? then [DeliveredMail(w.attempts[s.op].input, s.op)] else []
  {
  }

  lemma LoggedStays(w: World, s: Step, op: string)
    requires Enabled(w, s) && op in w.attempts && op in Do(w, s).attempts && Do(w, s).attempts[op].delivered
    requires w.attempts[op].delivered ==> Logged(w, op)
    ensures Logged(Do(w, s), op)
  {
    var w' := Do(w, s);
    LogGrows(w, s);
    StepAttempt(w, s, op);
    if w.attempts[op].delivered {
      var i :| 0 <= i < |w.log| && w.log[i] == DeliveredMail(w.attempts[op].input, op);
      assert w'.log[i] == w.log[i];
    } else {
      assert s.DeliverStep? && s.op == op && w'.log[|w.log|] == DeliveredMail(w.attempts[op].input, op);
    }
  }

  lemma DeliveredLoggedKept(w: World, s: Step)
    requires DeliveredLogged(w) && Enabled(w, s)
    ensures DeliveredLogged(Do(w, s))
  {
    var w' := Do(w, s);
    forall op | op in w'.attempts && w'.attempts[op].delivered ensures Logged(w', op) {
      if op in w.attempts { LoggedStays(w, s, op); } else { StepNewAttempt(w, s, op); }
    }
  }

  lemma AuditEndsNotBegun(w: World, s: Step, c: nat)
    requires Enabled(w, s) && c in w.calls && w.calls[c].Claimed? && w.calls[c].op in w.attempts
    requires (s.ClaimAuditStep? || s.CrashStep?) && s.call == c
    ensures w.calls[c].op in Do(w, s).attempts && Do(w, s).attempts[w.calls[c].op].phase != NotBegun
  {
  }

  lemma OtherStepKeepsCall(w: World, s: Step, c: nat)
    requires Enabled(w, s) && c in w.calls && w.calls[c].Claimed?
    requires !((s.ClaimAuditStep? || s.CrashStep?) && s.call == c)
    ensures c in Do(w, s).calls && Do(w, s).calls[c] == w.calls[c]
  {
    if s.ClaimAuditStep? || s.CrashStep? || s.SettleSentStep? || s.CatchStep? {
      OtherCallKeepsCall(w, s, c);
    }
  }

  lemma OtherCallKeepsCall(w: World, s: Step, c: nat)
    requires Enabled(w, s) && c in w.calls && w.calls[c].Claimed?
    requires s.ClaimAuditStep? || s.CrashStep? || s.SettleSentStep? || s.CatchStep?
    requires (s.ClaimAuditStep? || s.CrashStep?) ==> s.call != c
    ensures c in Do(w, s).calls && Do(w, s).calls[c] == w.calls[c]
  {
  }

  lemma ClaimedCallStays(w: World, s: Step, c: nat)
    requires Enabled(w, s) && c in w.calls && w.calls[c].Claimed? && w.calls[c].op in w.attempts
    ensures (c in Do(w, s).calls && Do(w, s).calls[c] == w.calls[c])
         || (w.calls[c].op in Do(w, s).attempts && Do(w, s).attempts[w.calls[c].op].phase != NotBegun)
  {
    if (s.ClaimAuditStep? || s.CrashStep?) && s.call == c {
      AuditEndsNotBegun(w, s, c);
    } else {
      OtherStepKeepsCall(w, s, c);
    }
  }

  lemma UnbegunHeldKept(w: World, s: Step)
    requires UnbegunHeld(w) && Enabled(w, s)
    ensures UnbegunHeld(Do(w, s))
  {
    var w' := Do(w, s);
    forall op | op in w'.attempts && w'.attempts[op].phase == NotBegun ensures Held(w', op) {
      if op in w.attempts {
        StepAttempt(w, s, op);
        var c :| c in w.calls && w.calls[c].Claimed? && w.calls[c].op == op;
        ClaimedCallStays(w, s, c);
      } else {
        StepNewAttempt(w, s, op);
        NewClaimHeld(w, s, op);
      }
    }
  }

  lemma NewClaimHeld(w: World, s: Step, op: string)
    requires Enabled(w, s) && s.ClaimStep? && s.op == op && op in Do(w, s).attempts && op !in w.attempts
    ensures Held(Do(w, s), op)
  {
    assert s.call in Do(w, s).calls && Do(w, s).calls[s.call] == Claimed(w.calls[s.call].input, op);
  }

  ghost predicate Live(w: World) {
    Safe(w) && DeliveredLogged(w) && UnbegunHeld(w)
  }

  lemma {:induction false} LiveAlways(w: World, steps: seq<Step>)
    requires Live(w) && Legal(w, steps) && AllTruthful(w, steps)
    ensures Live(Run(w, steps))
    decreases steps
  {
    if steps == [] {
    } else {
      SafeKept(w, steps[0]);
      DeliveredLoggedKept(w, steps[0]);
      UnbegunHeldKept(w, steps[0]);
      LiveAlways(Do(w, steps[0]), steps[1..]);
    }
  }

  // ---- Which verdicts lead to a second delivery ----

  ghost predicate DeliveredTwice(log: seq<DeliveredMail>, id: string) {
    exists i, j :: 0 <= i < j < |log| && log[i].input.approvalId == id && log[j].input.approvalId == id
  }

  /** The steps that read a clock. */
  predicate Timed(s: Step) {
    || s.ExpireStep? || s.CheckStep? || s.ClaimStep? || s.SettleSentStep? || s.CatchStep? || s.ReconcileSettleStep?
    || s.DisconnectStep?
  }

  predicate Later(s: Step, now: int) { Timed(s) ==> s.at >= now }

  predicate NotBefore(steps: seq<Step>, now: int) {
    forall i | 0 <= i < |steps| :: Later(steps[i], now)
  }

  lemma {:induction false} Above(s: set<nat>) returns (n: nat)
    ensures forall x | x in s :: x < n
  {
    if s == {} {
      n := 0;
    } else {
      var x :| x in s;
      var m := Above(s - {x});
      n := if m <= x then x + 1 else m;
      assert forall y | y in s :: y == x || y in s - {x};
    }
  }

  lemma UnusedOperation(attempts: map<string, Attempt>) returns (op: string)
    ensures op !in attempts
  {
    var lengths: set<nat> := set o | o in attempts :: |o|;
    var n := Above(lengths);
    op := seq(n, _ => 'o');
    assert op in attempts ==> |op| in lengths;
  }

  /** The record after the verdict: retryable again. */
  function Reopened(w: World, id: string, at: int): World
    requires id in w.approvals
  {
    w.(approvals := w.approvals[id := w.approvals[id].(status := FailedRetryable, updatedAt := at)])
  }

  lemma SettleVerdict(w: World, c: nat, id: string, found: Option<string>, at: int)
    requires c !in w.calls && ReconcileDue(w, id)
    ensures var w1 := Do(w, ReconcileReadStep(c, id, false, found));
      Enabled(w1, ReconcileSettleStep(c, at)) && Do(w1, ReconcileSettleStep(c, at)) == Reopened(w, id, at)
  {
    var w1 := Do(w, ReconcileReadStep(c, id, false, found));
    assert w1.calls - {c} == w.calls;
  }

  function ResendSteps(c: nat, op: string, input: SendInput, at: int): seq<Step> {
    OpenSteps(c, op, input, None, at, at) + [DeliverStep(op)]
  }

  /** A second send of the same message under the reopened record, delivered. */
  lemma Resend(w: World, c: nat, id: string, op: string, input: SendInput, at: int)
    requires c !in w.calls && op !in w.attempts && id in w.approvals && input.approvalId == id
    requires w.approvals[id].status == FailedRetryable && at < w.approvals[id].expiresAt
    requires Matches(w.approvals[id], input)
    ensures Legal(w, ResendSteps(c, op, input, at))
    ensures var w' := Run(w, ResendSteps(c, op, input, at));
      && w'.attempts == w.attempts[op := Attempt(input, at, Open, true)]
      && w'.calls == w.calls[c := Calling(input, op)] && w'.log == w.log + [DeliveredMail(input, op)]
  {
    BeginAcceptsIff(w.approvals[id], input, None, at);
    OpenCall(w, c, op, input, None, at, at);
    var w1 := Opened(w, c, op, input, at);
    One(w1, DeliverStep(op));
    Chain(w, OpenSteps(c, op, input, None, at, at), [DeliverStep(op)]);
  }

  /** The first send can still deliver, or has done so. */
  lemma FirstDelivers(w: World, op: string) returns (steps: seq<Step>)
    requires op in w.attempts && !Spent(w.attempts[op])
    requires w.attempts[op].delivered ==> Logged(w, op)
    requires w.attempts[op].phase == NotBegun ==> Held(w, op)
    ensures Legal(w, steps) && forall i | 0 <= i < |steps| :: !steps[i].ReconcileReadStep? && !Timed(steps[i])
    ensures Run(w, steps).log
        == w.log + if w.attempts[op].delivered then [] else [DeliveredMail(w.attempts[op].input, op)]
  {
    if w.attempts[op].delivered {
      steps := [];
    } else if w.attempts[op].phase == Open {
      steps := [DeliverStep(op)];
      One(w, DeliverStep(op));
    } else {
      var c :| c in w.calls && w.calls[c].Claimed? && w.calls[c].op == op;
      steps := [ClaimAuditStep(c, true), DeliverStep(op)];
      Two(w, ClaimAuditStep(c, true), DeliverStep(op));
    }
  }

  /** Both sends together give two deliveries. */
  lemma TwiceFollows(log: seq<DeliveredMail>, w: World, op: string, op2: string, id: string)
    requires op in w.attempts && w.attempts[op].input.approvalId == id && (w.attempts[op].delivered ==> Logged(w, op))
    requires log == w.log + [DeliveredMail(w.attempts[op].input, op2)]
      + if w.attempts[op].delivered then [] else [DeliveredMail(w.attempts[op].input, op)]
    ensures DeliveredTwice(log, id)
  {
    if w.attempts[op].delivered {
      var i :| 0 <= i < |w.log| && w.log[i] == DeliveredMail(w.attempts[op].input, op);
      assert log[i] == w.log[i] && log[|w.log|].input.approvalId == id;
    } else {
      assert log[|w.log|].input.approvalId == id && log[|w.log| + 1].input.approvalId == id;
    }
  }

  /** The first send is untouched by the second. */
  lemma StillThere(w: World, w3: World, c: nat, op: string, op2: string, input: SendInput, at: int)
    requires op in w.attempts && op2 !in w.attempts && c !in w.calls
    requires w3.attempts == w.attempts[op2 := Attempt(input, at, Open, true)]
    requires w3.calls == w.calls[c := Calling(input, op2)]
    requires w3.log == w.log + [DeliveredMail(input, op2)]
    requires w.attempts[op].delivered ==> Logged(w, op)
    requires w.attempts[op].phase == NotBegun ==> Held(w, op)
    ensures op in w3.attempts && w3.attempts[op] == w.attempts[op]
    ensures w3.attempts[op].delivered ==> Logged(w3, op)
    ensures w3.attempts[op].phase == NotBegun ==> Held(w3, op)
  {
    if w.attempts[op].delivered {
      var i :| 0 <= i < |w.log| && w.log[i] == DeliveredMail(w.attempts[op].input, op);
      assert w3.log[i] == w.log[i];
    }
    if w.attempts[op].phase == NotBegun {
      var d :| d in w.calls && w.calls[d].Claimed? && w.calls[d].op == op;
      assert d in w3.calls && w3.calls[d] == w.calls[d];
    }
  }

  /** The current send of a pending approval. */
  lemma CurrentSend(w: World, id: string, op: string)
    requires Live(w) && ReconcileDue(w, id) && op == w.approvals[id].operationId.value
    ensures op in w.attempts && w.attempts[op].input.approvalId == id && Matches(w.approvals[id], w.attempts[op].input)
    ensures w.attempts[op].delivered ==> Logged(w, op)
    ensures w.attempts[op].phase == NotBegun ==> Held(w, op)
  {
    assert SendingHasAttempt(w);
    assert Known(w, w.attempts[op].input);
  }

  lemma ThenBoth(w: World, s: Step, w1: World, first: seq<Step>, w2: World, second: seq<Step>)
    returns (steps: seq<Step>)
    requires Enabled(w, s) && w1 == Do(w, s) && Legal(w1, first) && w2 == Run(w1, first) && Legal(w2, second)
    ensures steps == [s] + (first + second) && Legal(w, steps) && Run(w, steps) == Run(w2, second)
  {
    Chain(w1, first, second);
    Then(w, s, w1, first + second);
    steps := [s] + (first + second);
  }

  lemma NoVerdictsAmong(s: Step, c: nat, op: string, input: SendInput, at: int, last: seq<Step>, steps: seq<Step>)
    requires steps == [s] + (ResendSteps(c, op, input, at) + last) && !s.ReconcileReadStep?
    requires forall i | 0 <= i < |last| :: !last[i].ReconcileReadStep? && !Timed(last[i])
    requires Later(s, at)
    ensures (forall i | 0 <= i < |steps| :: !steps[i].ReconcileReadStep?) && NotBefore(steps, at)
  {
  }

  /** The steps after the verdict: settle it, send again, and let the first send deliver as well. */
  lemma AfterTheLie(w: World, w1: World, c: nat, id: string, op: string, at: int) returns (rest: seq<Step>)
    requires c !in w.calls && id in w.approvals && at < w.approvals[id].expiresAt
    requires op in w.attempts && w.attempts[op].input.approvalId == id
    requires Matches(w.approvals[id], w.attempts[op].input) && !Spent(w.attempts[op])
    requires w.attempts[op].delivered ==> Logged(w, op)
    requires w.attempts[op].phase == NotBegun ==> Held(w, op)
    requires Enabled(w1, ReconcileSettleStep(c, at)) && Do(w1, ReconcileSettleStep(c, at)) == Reopened(w, id, at)
    ensures Legal(w1, rest) && (forall i | 0 <= i < |rest| :: !rest[i].ReconcileReadStep?) && NotBefore(rest, at)
    ensures DeliveredTwice(Run(w1, rest).log, id)
  {
    var input, w2 := w.attempts[op].input, Reopened(w, id, at);
    var op2 := UnusedOperation(w.attempts);
    Resend(w2, c, id, op2, input, at);
    var w3 := Run(w2, ResendSteps(c, op2, input, at));
    StillThere(w, w3, c, op, op2, input, at);
    var last := FirstDelivers(w3, op);
    rest := ThenBoth(w1, ReconcileSettleStep(c, at), w2, ResendSteps(c, op2, input, at), w3, last);
    NoVerdictsAmong(ReconcileSettleStep(c, at), c, op2, input, at, last, rest);
    TwiceFollows(Run(w1, rest).log, w, op, op2, id);
  }

  /** A verdict that is not true of an ended call, given before the approval expires, can be followed, with no
      further untruth and at once, by a second delivery. */
  lemma LieDeliversTwice(w: World, w1: World, c: nat, id: string, found: Option<string>, now: int)
    returns (rest: seq<Step>)
    requires Live(w) && c !in w.calls && ReconcileDue(w, id) && w1 == Do(w, ReconcileReadStep(c, id, false, found))
    requires w.approvals[id].operationId.value in w.attempts && !Spent(w.attempts[w.approvals[id].operationId.value])
    requires now < w.approvals[id].expiresAt
    ensures Legal(w1, rest) && AllTruthful(w1, rest) && NotBefore(rest, now) && DeliveredTwice(Run(w1, rest).log, id)
  {
    var op := w.approvals[id].operationId.value;
    CurrentSend(w, id, op);
    SettleVerdict(w, c, id, found, now);
    rest := AfterTheLie(w, w1, c, id, op, now);
    NoVerdictsNoLies(w1, rest);
  }

  /** After a true one, nothing true leads there. */
  lemma TruthDeliversOnce(w: World, w1: World, c: nat, id: string, found: Option<string>, rest: seq<Step>)
    requires Safe(w) && c !in w.calls && ReconcileDue(w, id) && w1 == Do(w, ReconcileReadStep(c, id, false, found))
    requires w.approvals[id].operationId.value in w.attempts && Spent(w.attempts[w.approvals[id].operationId.value])
    requires Legal(w1, rest) && AllTruthful(w1, rest)
    ensures !DeliveredTwice(Run(w1, rest).log, id)
  {
    SafeKept(w, ReconcileReadStep(c, id, false, found));
    SafeAlways(w1, rest);
    DeliveredOnce(Run(w1, rest));
  }

  /** Whatever was claimed for the approval, but for one operation, is spent. */
  ghost predicate OthersSpent(w: World, id: string, left: Option<string>) {
    forall op | op in w.attempts && w.attempts[op].input.approvalId == id && Some(op) != left :: Spent(w.attempts[op])
  }

  lemma OthersSpentKept(w: World, s: Step, w': World, id: string, left: Option<string>)
    requires UnauditedNotBegun(w) && AttemptsMove(w, s, w') && OthersSpent(w, id, left)
    requires forall op | op in w'.attempts && op !in w.attempts :: w'.attempts[op].input.approvalId != id
    ensures OthersSpent(w', id, left)
  {
    forall op | op in w'.attempts && w'.attempts[op].input.approvalId == id && Some(op) != left
      ensures Spent(w'.attempts[op])
    {
      assert AttemptMove(w, s, w', op, w.attempts[op], w'.attempts[op]);
      SpentStays(w, s, w', op);
    }
  }

  /** The operation a record names is the only one of its approval that may be unspent. */
  lemma CurrentLeft(w: World, id: string)
    requires Safe(w) && id in w.approvals
    ensures OthersSpent(w, id, w.approvals[id].operationId)
  {
    var left := w.approvals[id].operationId;
    forall op | op in w.attempts && w.attempts[op].input.approvalId == id && Some(op) != left
      ensures Spent(w.attempts[op])
    {
      assert SpentUnlessCurrent(w.approvals[id], op, w.attempts[op]);
    }
  }

  ghost predicate OnlyOneLeft(w: World, id: string, left: Option<string>, now: int) {
    && Bound(w) && UnauditedNotBegun(w) && id in w.approvals && w.approvals[id].expiresAt <= now
    && OthersSpent(w, id, left)
  }

  /** After the expiry nothing new is claimed for it, whoever says what. */
  lemma OnlyOneLeftKept(w: World, s: Step, w': World, id: string, left: Option<string>, now: int)
    requires OnlyOneLeft(w, id, left, now) && Later(s, now) && Bound(w') && Moves(w, s, w')
    ensures OnlyOneLeft(w', id, left, now)
  {
    assert RecordMove(w, s, w', w.approvals[id], w'.approvals[id]);
    UnauditedKept(w, s, w');
    OthersSpentKept(w, s, w', id, left);
  }

  lemma {:induction false} OnlyOneLeftAlways(w: World, steps: seq<Step>, id: string, left: Option<string>, now: int)
    requires OnlyOneLeft(w, id, left, now) && Legal(w, steps) && NotBefore(steps, now)
    ensures OnlyOneLeft(Run(w, steps), id, left, now)
    decreases steps
  {
    if steps == [] {
    } else {
      assert Later(steps[0], now);
      BoundKept(w, steps[0]);
      OnlyOneLeftKept(w, steps[0], Do(w, steps[0]), id, left, now);
      assert NotBefore(steps[1..], now) by {
        forall i | 0 <= i < |steps| - 1 ensures Later(steps[1..][i], now) { assert Later(steps[i + 1], now); }
      }
      OnlyOneLeftAlways(Do(w, steps[0]), steps[1..], id, left, now);
    }
  }

  lemma OnlyOneDelivers(w: World, id: string, left: Option<string>)
    requires LogBacked(w) && OthersSpent(w, id, left)
    ensures !DeliveredTwice(w.log, id)
  {
    forall i, j | 0 <= i < j < |w.log| && w.log[i].input.approvalId == id ensures w.log[j].input.approvalId != id {
      assert Backed(w, w.log[i]) && Backed(w, w.log[j]);
    }
  }

  lemma LeftAfter(w: World, s: Step, w1: World, id: string, now: int)
    requires Safe(w) && Enabled(w, s) && w1 == Do(w, s) && Later(s, now)
    requires id in w.approvals && w.approvals[id].expiresAt <= now
    ensures OnlyOneLeft(w1, id, w.approvals[id].operationId, now)
  {
    CurrentLeft(w, id);
    BoundKept(w, s);
    OnlyOneLeftKept(w, s, w1, id, w.approvals[id].operationId, now);
  }

  /** After a verdict on an expired approval, true or not, nothing leads there either. */
  lemma ExpiredDeliversOnce(w: World, w1: World, c: nat, id: string, found: Option<string>, now: int, rest: seq<Step>)
    requires Safe(w) && c !in w.calls && ReconcileDue(w, id) && w1 == Do(w, ReconcileReadStep(c, id, false, found))
    requires w.approvals[id].expiresAt <= now && Legal(w1, rest) && NotBefore(rest, now)
    ensures !DeliveredTwice(Run(w1, rest).log, id)
  {
    var left := w.approvals[id].operationId;
    LeftAfter(w, ReconcileReadStep(c, id, false, found), w1, id, now);
    OnlyOneLeftAlways(w1, rest, id, left, now);
    OnlyOneDelivers(Run(w1, rest), id, left);
  }

  ghost predicate LeadsToSecond(w: World, rest: seq<Step>, id: string, now: int) {
    Legal(w, rest) && AllTruthful(w, rest) && NotBefore(rest, now) && DeliveredTwice(Run(w, rest).log, id)
  }

  /** Some continuation from this instant on, with true verdicts only, has this approval delivered twice. */
  ghost predicate CanDeliverTwice(w: World, id: string, now: int) {
    exists rest :: LeadsToSecond(w, rest, id, now)
  }

  lemma LieCan(w: World, w1: World, c: nat, id: string, found: Option<string>, now: int)
    requires Live(w) && c !in w.calls && ReconcileDue(w, id) && w1 == Do(w, ReconcileReadStep(c, id, false, found))
    requires w.approvals[id].operationId.value in w.attempts && !Spent(w.attempts[w.approvals[id].operationId.value])
    requires now < w.approvals[id].expiresAt
    ensures CanDeliverTwice(w1, id, now)
  {
    var rest := LieDeliversTwice(w, w1, c, id, found, now);
    assert LeadsToSecond(w1, rest, id, now);
  }

  lemma HarmlessVerdict(w: World, w1: World, c: nat, id: string, found: Option<string>, now: int)
    requires Safe(w) && c !in w.calls && ReconcileDue(w, id) && w1 == Do(w, ReconcileReadStep(c, id, false, found))
    requires w.approvals[id].operationId.value in w.attempts
    requires Spent(w.attempts[w.approvals[id].operationId.value]) || w.approvals[id].expiresAt <= now
    ensures !CanDeliverTwice(w1, id, now)
  {
    forall rest ensures !LeadsToSecond(w1, rest, id, now) {
      if Legal(w1, rest) && AllTruthful(w1, rest) && NotBefore(rest, now) {
        if w.approvals[id].expiresAt <= now {
          ExpiredDeliversOnce(w, w1, c, id, found, now, rest);
        } else {
          TruthDeliversOnce(w, w1, c, id, found, rest);
        }
      }
    }
  }

  /** Exactly which verdicts are dangerous. In any live state, saying "not delivered" of a pending approval
      can be followed from then on, everything said later being true, by a second delivery if and only if
      its current send is not over or did deliver, and the approval has not expired yet. */
  lemma SecondDeliveryIff(w: World, w1: World, c: nat, id: string, found: Option<string>, now: int)
    requires Live(w) && c !in w.calls && ReconcileDue(w, id) && w1 == Do(w, ReconcileReadStep(c, id, false, found))
    ensures w.approvals[id].operationId.value in w.attempts
    ensures CanDeliverTwice(w1, id, now)
       <==> !Spent(w.attempts[w.approvals[id].operationId.value]) && now < w.approvals[id].expiresAt
  {
    CurrentSend(w, id, w.approvals[id].operationId.value);
    if Spent(w.attempts[w.approvals[id].operationId.value]) || w.approvals[id].expiresAt <= now {
      HarmlessVerdict(w, w1, c, id, found, now);
    } else {
      LieCan(w, w1, c, id, found, now);
    }
  }

  /** Every state reached with true verdicts only is live. */
  lemma ReachedIsLive(steps: seq<Step>)
    requires Legal(Start, steps) && AllTruthful(Start, steps)
    ensures Live(Run(Start, steps))
  {
    LiveAlways(Start, steps);
  }

  lemma DeliveredAndEnded(w: World, op: string)
    requires op in w.attempts && w.attempts[op].phase == Open && !w.attempts[op].delivered
    ensures Legal(w, [DeliverStep(op), CallEndsStep(op)])
    ensures var w' := Run(w, [DeliverStep(op), CallEndsStep(op)]);
      && w'.approvals == w.approvals && w'.calls == w.calls
      && w'.attempts == w.attempts[op := w.attempts[op].(phase := Over, delivered := true)]
  {
    Two(w, DeliverStep(op), CallEndsStep(op));
  }

  /** An issued approval whose send is open, and the same after delivery and end of the call. */
  lemma SentOnce(a: SendApproval, m: Message, input: SendInput, at: int, ended: bool) returns (steps: seq<Step>)
    requires a.status == Issued && a.operationId == None && BoundTo(a, m) && Matches(a, input)
    requires a.approvalId == input.approvalId && at < a.expiresAt
    ensures Legal(Start, steps) && forall i | 0 <= i < |steps| :: !steps[i].ReconcileReadStep?
    ensures var w := Run(Start, steps);
      && ReconcileDue(w, input.approvalId) && w.approvals[input.approvalId].operationId == Some("first")
      && "first" in w.attempts
      && w.attempts["first"] == (if ended then Attempt(input, at, Over, true) else Attempt(input, at, Open, false))
      && 1 !in w.calls
      && 0 in w.calls && w.calls[0] == Calling(input, "first")
  {
    BeginAcceptsIff(a, input, None, at);
    var issue := [IssueStep(a, m)];
    One(Start, IssueStep(a, m));
    var w := Run(Start, issue);
    OpenCall(w, 0, "first", input, None, at, at);
    steps := issue + OpenSteps(0, "first", input, None, at, at);
    Chain(Start, issue, OpenSteps(0, "first", input, None, at, at));
    if ended {
      DeliveredAndEnded(Opened(w, 0, "first", input, at), "first");
      Chain(Start, steps, [DeliverStep("first"), CallEndsStep("first")]);
      steps := steps + [DeliverStep("first"), CallEndsStep("first")];
    }
  }

  /** Both kinds of bad verdict occur: one given while the provider call is open and nothing is delivered
      yet, and a false one about a call that is over and did deliver. Each leads to two deliveries. */
  lemma VerdictMustBeTrueOfEndedCalls(a: SendApproval, m: Message, input: SendInput, at: int, tooEarly: bool)
    returns (before: seq<Step>, rest: seq<Step>)
    requires a.status == Issued && a.operationId == None && BoundTo(a, m) && Matches(a, input)
    requires a.approvalId == input.approvalId && at < a.expiresAt
    ensures Legal(Start, before) && AllTruthful(Start, before)
    ensures var w := Run(Start, before);
      var verdict := ReconcileReadStep(1, input.approvalId, false, None);
      && ReconcileDue(w, input.approvalId) && w.approvals[input.approvalId].operationId == Some("first")
      && "first" in w.attempts
      && w.attempts["first"] == (if tooEarly then Attempt(input, at, Open, false) else Attempt(input, at, Over, true))
      && Enabled(w, verdict) && Legal(Do(w, verdict), rest) && AllTruthful(Do(w, verdict), rest) && NotBefore(rest, at)
      && DeliveredTwice(Run(Do(w, verdict), rest).log, input.approvalId)
  {
    before := SentOnce(a, m, input, at, !tooEarly);
    NoVerdictsNoLies(Start, before);
    ReachedIsLive(before);
    var w := Run(Start, before);
    rest := LieDeliversTwice(w, Do(w, ReconcileReadStep(1, input.approvalId, false, None)), 1, input.approvalId, None,
        at);
  }
}
