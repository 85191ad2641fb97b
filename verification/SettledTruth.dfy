/** What a settled record says about delivery. A terminal failure is recorded on the word of an error text,
    while the provider call may still be open; a `Sent` is recorded on the word of an answer or a verdict. */
module SettledTruth {
  import opened Prelude
  import opened MailRecords
  import opened SendApprovals
  import opened SendGuard
  import opened SendProtocol
  import opened SendVerdicts

  /** Every operation a record names is a registered send of that approval. */
  ghost predicate OperationsKnown(w: World) {
    forall id | id in w.approvals && w.approvals[id].operationId.Some? :: RegisteredFor(w, w.approvals[id], id)
  }

  lemma OperationsKnownKept(w: World, s: Step, w': World)
    requires Keyed(w) && OperationsKnown(w) && ApprovalsMove(w, s, w') && AttemptsMove(w, s, w')
    ensures OperationsKnown(w')
  {
    forall id | id in w'.approvals && w'.approvals[id].operationId.Some?
      ensures RegisteredFor(w', w'.approvals[id], id)
    {
      if id in w.approvals { RegisteredStays(w, s, w', id); }
    }
  }

  lemma RegisteredStays(w: World, s: Step, w': World, id: string)
    requires id in w.approvals && w.approvals[id].approvalId == id && id in w'.approvals
    requires w.approvals[id].operationId.Some? ==> RegisteredFor(w, w.approvals[id], id)
    requires RecordMove(w, s, w', w.approvals[id], w'.approvals[id]) && AttemptsMove(w, s, w')
    ensures w'.approvals[id].operationId.Some? ==> RegisteredFor(w', w'.approvals[id], id)
  {
    if w.approvals[id].operationId.Some? {
      var op := w.approvals[id].operationId.value;
      assert AttemptMove(w, s, w', op, w.attempts[op], w'.attempts[op]);
    }
  }

  lemma {:induction false} OperationsKnownAlways(w: World, steps: seq<Step>)
    requires Bound(w) && OperationsKnown(w) && Legal(w, steps)
    ensures OperationsKnown(Run(w, steps))
    decreases steps
  {
    if steps == [] {
    } else {
      BoundKept(w, steps[0]);
      OperationsKnownKept(w, steps[0], Do(w, steps[0]));
      OperationsKnownAlways(Do(w, steps[0]), steps[1..]);
    }
  }

  // ---- Nothing more is claimed for a settled record ----

  ghost predicate SettledWith(w: World, id: string, status: ApprovalStatus, left: Option<string>) {
    && Bound(w) && UnauditedNotBegun(w) && OthersSpent(w, id, left)
    && id in w.approvals && Final(w.approvals[id].status) && w.approvals[id].status == status
  }

  lemma FinalStays(w: World, s: Step, w': World, a: SendApproval, b: SendApproval)
    requires Final(a.status) && RecordMove(w, s, w', a, b)
    ensures b.status == a.status
  {
  }

  lemma NotClaimed(w: World, w': World, id: string, op: string, at: int)
    requires id in w'.approvals && Final(w'.approvals[id].status)
    ensures !Winning(w, w', id, op, at)
  {
  }

  lemma SettledWithKept(w: World, s: Step, w': World, id: string, status: ApprovalStatus, left: Option<string>)
    requires SettledWith(w, id, status, left) && Bound(w') && Moves(w, s, w')
    ensures SettledWith(w', id, status, left)
  {
    FinalStays(w, s, w', w.approvals[id], w'.approvals[id]);
    UnauditedKept(w, s, w');
    forall op | op in w'.attempts && op !in w.attempts ensures w'.attempts[op].input.approvalId != id {
      NotClaimed(w, w', id, op, s.at);
    }
    OthersSpentKept(w, s, w', id, left);
  }

  lemma {:induction false} SettledWithAlways(w: World, steps: seq<Step>, id: string, status: ApprovalStatus,
                                             left: Option<string>)
    requires SettledWith(w, id, status, left) && Legal(w, steps)
    ensures SettledWith(Run(w, steps), id, status, left)
    decreases steps
  {
    if steps == [] {
    } else {
      BoundKept(w, steps[0]);
      SettledWithKept(w, steps[0], Do(w, steps[0]), id, status, left);
      SettledWithAlways(Do(w, steps[0]), steps[1..], id, status, left);
    }
  }

  // ---- When its mail is delivered all the same ----

  ghost predicate DeliveredFor(w: World, id: string) {
    exists i :: 0 <= i < |w.log| && w.log[i].input.approvalId == id
  }

  /** In some continuation the record still says what it says now, and the mail has been delivered. */
  ghost predicate CanHaveDelivered(w: World, id: string)
    requires id in w.approvals
  {
    exists rest :: DeliversUnder(w, rest, id)
  }

  ghost predicate DeliversUnder(w: World, rest: seq<Step>, id: string)
    requires id in w.approvals
  {
    && Legal(w, rest) && DeliveredFor(Run(w, rest), id)
    && id in Run(w, rest).approvals && Run(w, rest).approvals[id].status == w.approvals[id].status
  }

  lemma SpentNeverDelivers(w: World, id: string)
    requires Bound(w) && OthersSpent(w, id, None)
    ensures !DeliveredFor(w, id)
  {
    forall i | 0 <= i < |w.log| ensures w.log[i].input.approvalId != id {
      assert Backed(w, w.log[i]);
    }
  }

  lemma SettledSpent(w: World, id: string, rest: seq<Step>)
    requires Safe(w) && id in w.approvals && Final(w.approvals[id].status) && OthersSpent(w, id, None) && Legal(w, rest)
    ensures !DeliversUnder(w, rest, id)
  {
    SettledWithAlways(w, rest, id, w.approvals[id].status, None);
    SpentNeverDelivers(Run(w, rest), id);
  }

  lemma UnspentCanDeliver(w: World, id: string, op: string)
    requires Live(w) && id in w.approvals && Final(w.approvals[id].status) && w.approvals[id].operationId == Some(op)
    requires op in w.attempts && w.attempts[op].input.approvalId == id && !Spent(w.attempts[op])
    ensures CanHaveDelivered(w, id)
  {
    var rest := FirstDelivers(w, op);
    CurrentLeft(w, id);
    SettledWithAlways(w, rest, id, w.approvals[id].status, Some(op));
    DeliveredInTheEnd(w, Run(w, rest), op);
    assert DeliversUnder(w, rest, id);
  }

  lemma DeliveredInTheEnd(w: World, w': World, op: string)
    requires op in w.attempts && (w.attempts[op].delivered ==> Logged(w, op))
    requires w'.log == w.log + if w.attempts[op].delivered then [] else [DeliveredMail(w.attempts[op].input, op)]
    ensures DeliveredFor(w', w.attempts[op].input.approvalId)
  {
    if w.attempts[op].delivered {
      var i :| 0 <= i < |w.log| && w.log[i] == DeliveredMail(w.attempts[op].input, op);
      assert w'.log[i] == w.log[i];
    } else {
      assert w'.log[|w.log|].input.approvalId == w.attempts[op].input.approvalId;
    }
  }

  /** Exactly which settled records can hide a delivery, or promise one that can be: those whose operation has
      a send that is not over, or that did deliver. Every other `FailedTerminal` tells the truth for good,
      every other `Sent` never will. */
  lemma SettledDeliversIff(steps: seq<Step>, id: string)
    requires Legal(Start, steps) && AllTruthful(Start, steps)
    requires id in Run(Start, steps).approvals && Final(Run(Start, steps).approvals[id].status)
    ensures var w := Run(Start, steps);
      var operation := w.approvals[id].operationId;
      && (operation.Some? ==> operation.value in w.attempts)
      && (CanHaveDelivered(w, id) <==> operation.Some? && !Spent(w.attempts[operation.value]))
  {
    ReachedIsLive(steps);
    OperationsKnownAlways(Start, steps);
    SettledDelivers(Run(Start, steps), id);
  }

  lemma SettledDelivers(w: World, id: string)
    requires Live(w) && OperationsKnown(w) && id in w.approvals && Final(w.approvals[id].status)
    ensures var operation := w.approvals[id].operationId;
      && (operation.Some? ==> operation.value in w.attempts)
      && (CanHaveDelivered(w, id) <==> operation.Some? && !Spent(w.attempts[operation.value]))
  {
    var operation := w.approvals[id].operationId;
    CurrentLeft(w, id);
    if operation.Some? && !Spent(w.attempts[operation.value]) {
      UnspentCanDeliver(w, id, operation.value);
    } else {
      assert OthersSpent(w, id, None);
      forall rest | Legal(w, rest) ensures !DeliversUnder(w, rest, id) {
        SettledSpent(w, id, rest);
      }
    }
  }

  function CaughtSteps(c: nat, op: string, error: string, at: int): (steps: seq<Step>)
    ensures steps != []
  {
    [FailStep(c, error), CatchStep(c, at), DeliverStep(op)]
  }

  /** An error text read as a rejection, caught while the call is open, and the delivery after it. */
  lemma CaughtThenDelivered(w: World, c: nat, op: string, input: SendInput, error: string, at: int)
    requires c in w.calls && w.calls[c] == Calling(input, op) && op in w.attempts
    requires w.attempts[op] == Attempt(input, at, Open, false) && ClassifySendError(error) == Some(NotDelivered(false))
    requires input.approvalId in w.approvals && w.approvals[input.approvalId].status == Sending
    requires w.approvals[input.approvalId].operationId == Some(op)
    ensures var steps := CaughtSteps(c, op, error, at);
      && Legal(w, steps) && input.approvalId in Run(w, steps).approvals
      && Run(w, steps).approvals[input.approvalId].status == FailedTerminal
      && DeliveredFor(Run(w, steps), input.approvalId)
      && steps[0] == FailStep(c, error) && forall i | 0 <= i < |steps| :: !steps[i].ReconcileReadStep?
  {
    var w1 := Do(w, FailStep(c, error));
    var w2 := Do(w1, CatchStep(c, at));
    var w3 := Do(w2, DeliverStep(op));
    assert w3.log[|w.log|] == DeliveredMail(input, op);
    Three(w, FailStep(c, error), CatchStep(c, at), DeliverStep(op));
  }

  lemma NoVerdictsInEither(before: seq<Step>, after: seq<Step>, steps: seq<Step>)
    requires steps == before + after
    requires forall i | 0 <= i < |before| :: !before[i].ReconcileReadStep?
    requires forall i | 0 <= i < |after| :: !after[i].ReconcileReadStep?
    ensures forall i | 0 <= i < |steps| :: !steps[i].ReconcileReadStep?
  {
    forall i | 0 <= i < |steps| ensures !steps[i].ReconcileReadStep? {
      if i >= |before| { assert steps[i] == after[i - |before|]; }
    }
  }

  lemma Appended(before: seq<Step>, after: seq<Step>, steps: seq<Step>)
    requires steps == before + after && after != [] && Legal(Start, before) && Legal(Run(Start, before), after)
    requires forall i | 0 <= i < |steps| :: !steps[i].ReconcileReadStep?
    ensures Legal(Start, steps) && AllTruthful(Start, steps) && after[0] in steps
    ensures Run(Start, steps) == Run(Run(Start, before), after)
  {
    Chain(Start, before, after);
    NoVerdictsNoLies(Start, steps);
    assert steps[|before|] == after[0];
  }

  lemma RejectedYetDelivered(a: SendApproval, m: Message, input: SendInput, at: int, error: string)
    returns (steps: seq<Step>)
    requires a.status == Issued && a.operationId == None && BoundTo(a, m) && Matches(a, input)
    requires a.approvalId == input.approvalId && at < a.expiresAt
    requires ClassifySendError(error) == Some(NotDelivered(false))
    ensures Legal(Start, steps) && AllTruthful(Start, steps) && FailStep(0, error) in steps
    ensures var w := Run(Start, steps);
      && input.approvalId in w.approvals && w.approvals[input.approvalId].status == FailedTerminal
      && DeliveredFor(w, input.approvalId)
  {
    var before := SentOnce(a, m, input, at, false);
    var after := CaughtSteps(0, "first", error, at);
    CaughtThenDelivered(Run(Start, before), 0, "first", input, error, at);
    steps := before + after;
    NoVerdictsInEither(before, after, steps);
    Appended(before, after, steps);
  }

  /** Such records occur: an error text that names a port is caught while the provider call is open, the record
      says the send failed for good, and the mail is delivered. */
  lemma TerminalYetDelivered(a: SendApproval, m: Message, input: SendInput, at: int, front: string)
    returns (steps: seq<Step>)
    requires a.status == Issued && a.operationId == None && BoundTo(a, m) && Matches(a, input)
    requires a.approvalId == input.approvalId && at < a.expiresAt
    ensures Legal(Start, steps) && AllTruthful(Start, steps) && FailStep(0, front + ":443") in steps
    ensures var w := Run(Start, steps);
      && input.approvalId in w.approvals && w.approvals[input.approvalId].status == FailedTerminal
      && DeliveredFor(w, input.approvalId)
  {
    TrailingNumberReadsAsRejection(front + ":", "443");
    assert front + ":" + "443" == front + ":443";
    steps := RejectedYetDelivered(a, m, input, at, front + ":443");
  }
}
