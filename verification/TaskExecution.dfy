/** The two clients of the idempotency record: runAaliyahTask and runInboundDraft. Each is one call of
    LeaseClients with a plan of its own. */
module TaskExecution {
  import opened Prelude
  import opened MailRecords
  import opened Idempotency
  import opened TenantScopedStore
  import opened LeaseClients
  import opened DecisionCascade

  /** What a call for this task does once it gets to work; failing to record the result is a failure too. */
  function TaskPlan(task: Task, env: Surroundings): Plan<TaskResult> {
    var (decided, executed) := Decided(task, env);
    Plan(if decided.Ok? && env.recordFails.Some? then Err(env.recordFails.value) else decided, executed,
      task.riskTier in {A2_WriteApproved, A4_Irreversible})
  }

  datatype RunError = StoreRefused(error: StoreError) | CallFailed(reason: CallError)

  /** The record a call finds, if it gets as far as asking for it. */
  function Slot<R>(store: IdempotencyStore<R>, key: string, scope: TenantScope): Result<string, StoreError> {
    var scoped := ScopedKey(key, Some(scope));
    if scoped.Err? then Err(InvalidScope(scoped.error))
    else if !store.databaseUrl && !store.inMemoryAllowed then Err(DatabaseRequired)
    else Ok(scoped.value)
  }

  predicate FindsGrant<R>(store: IdempotencyStore<R>, records: Records<R>, key: string, scope: TenantScope,
                          payload: string, now: int)
  {
    Slot(store, key, scope).Ok? && Decide(records, Slot(store, key, scope).value, Sha256(payload), now).Granted?
  }

  predicate FindsEmptyReplay<R>(store: IdempotencyStore<R>, records: Records<R>, key: string, scope: TenantScope,
                                payload: string, now: int)
  {
    Slot(store, key, scope).Ok? && EmptyReplay(Decide(records, Slot(store, key, scope).value, Sha256(payload), now))
  }

  function Reported<R>(answer: Result<R, CallError>): Result<R, RunError> {
    match answer
    case Ok(value) => Ok(value)
    case Err(reason) => Err(CallFailed(reason))
  }

  /** From the grant on: the cascade, and its outcome recorded, a failure to record it as a failure. */
  method WorkAndRecord(store: IdempotencyStore<TaskResult>, task: Task, env: Surroundings)
    returns (r: Result<TaskResult, RunError>, executed: bool)
    requires ScopedKey(task.taskId, Some(task.scope)).Ok?
    modifies store`table, store`fallback
    ensures store.OtherUnchanged()
    ensures var plan := TaskPlan(task, env);
      var key := ScopedKey(task.taskId, Some(task.scope)).value;
      && executed == plan.acts
      && (plan.outcome.Ok? ==>
           && r == Ok(plan.outcome.value)
           && store.Records()
              == RecordOutcome(old(store.Records()), key, Completed, Value(plan.outcome.value), env.finishedAt))
      && (plan.outcome.Err? ==>
           && r == Err(CallFailed(WorkFailed(plan.outcome.error)))
           && store.Records()
              == RecordOutcome(old(store.Records()), key, Failed, Failure(plan.outcome.error), env.finishedAt))
    ensures executed ==> Cleared(task, env)
    ensures r.Ok? <==> Succeeds(task, env) && env.recordFails.None?
    ensures r.Ok? ==> exists e :: Used(task, env, e) && Warranted(task, env, e, r.value.decision)
    ensures r.Ok? ==>
      && (executed <==> r.value.decision in {Executed, Recovered})
      && r.value.candidate == env.planned.value.name
    ensures r.Err? ==>
      && r.error.CallFailed? && r.error.reason.WorkFailed?
      && var text := r.error.reason.message;
      if Succeeds(task, env) then env.recordFails == Some(text) else FailsWith(task, env, text)
  {
    var scope := Some(task.scope);
    var decided: Result<TaskResult, string>;
    decided, executed := RunCascade(task, env);
    if decided.Ok? {
      if env.recordFails.None? {
        var _ := store.MarkCompleted(task.taskId, decided.value, scope, env.finishedAt);
        return Ok(decided.value), executed;
      }
      decided := Err(env.recordFails.value);
    }
    var _ := store.RecordIdempotentFailure(task.taskId, decided.error, scope, env.finishedAt);
    return Err(CallFailed(WorkFailed(decided.error))), executed;
  }

  /** One call of runAaliyahTask is one call of LeaseClients with the task's plan. A normal return is the
      value replayed or the value just recorded; every throw after a grant leaves the record failed;
      tools run only under a grant or on an empty replay, which records kept by these calls never give,
      and never for the tiers that need a human. */
  method RunAaliyahTask(store: IdempotencyStore<TaskResult>, task: Task, env: Surroundings)
    returns (r: Result<TaskResult, RunError>, executed: bool)
    modifies store`table, store`fallback
    ensures store.OtherUnchanged()
    ensures var slot := Slot(store, task.taskId, task.scope);
      && (slot.Err? ==> r == Err(StoreRefused(slot.error)) && !executed && store.Records() == old(store.Records()))
      && (slot.Ok? ==>
          var (records, answer, acted) :=
            CallAlone(store.Kind(), old(store.Records()), slot.value, Sha256(task.payload), task.taskType,
                      TaskPlan(task, env), env.startedAt, env.finishedAt);
          store.Records() == records && r == Reported(answer) && executed == acted)
    ensures executed ==>
      && Cleared(task, env) && task.riskTier !in {A2_WriteApproved, A4_Irreversible}
      && (task.riskTier == A3_LowRiskAuto ==> env.planned.value.score >= 85 && env.planned.value.margin >= 10)
      && (|| FindsGrant(store, old(store.Records()), task.taskId, task.scope, task.payload, env.startedAt)
          || FindsEmptyReplay(store, old(store.Records()), task.taskId, task.scope, task.payload, env.startedAt))
    ensures executed && ResultsKept(old(store.Records())) ==>
      FindsGrant(store, old(store.Records()), task.taskId, task.scope, task.payload, env.startedAt)
    ensures ResultsKept(old(store.Records())) ==> ResultsKept(store.Records())
    ensures FindsGrant(store, old(store.Records()), task.taskId, task.scope, task.payload, env.startedAt) ==>
      && (r.Ok? <==> Succeeds(task, env) && env.recordFails.None?)
      && (r.Ok? ==> exists e :: Used(task, env, e) && Warranted(task, env, e, r.value.decision))
      && (r.Ok? ==>
           && (executed <==> r.value.decision in {Executed, Recovered})
           && r.value.candidate == env.planned.value.name)
      && (r.Err? ==>
           && r.error.CallFailed? && r.error.reason.WorkFailed?
           && var text := r.error.reason.message;
           if Succeeds(task, env) then env.recordFails == Some(text) else FailsWith(task, env, text))
  {
    var scope := Some(task.scope);
    ghost var before := store.Records();
    executed := false;
    var answer := store.EnsureIdempotentExecution(task.taskId, task.payload, task.taskType, scope, env.startedAt);
    if answer.Err? { return Err(StoreRefused(answer.error)), false; }
    ghost var key := ScopedKey(task.taskId, scope).value;
    ToolsNeedGrant(store.Kind(), before, key, Sha256(task.payload), task.taskType, TaskPlan(task, env), env.startedAt,
        env.finishedAt);
    match answer.value {
      case PayloadMismatch => return Err(CallFailed(KeyReused)), false;
      case AlreadyInProgress => return Err(CallFailed(InFlight)), false;
      case Replay(Some(Value(result))) => return Ok(result), false;
      case _ =>
    }
    r, executed := WorkAndRecord(store, task, env);
  }

  /** Two calls in a row for one task: whatever the first returned normally is what the second returns,
      and the second runs no tool. */
  method CallTwice(store: IdempotencyStore<TaskResult>, task: Task, env1: Surroundings, env2: Surroundings)
    returns (r1: Result<TaskResult, RunError>, r2: Result<TaskResult, RunError>, executed2: bool)
    requires ResultsKept(store.Records())
    modifies store`table, store`fallback
    ensures r1.Ok? ==> r2 == r1 && !executed2
  {
    var executed1: bool;
    r1, executed1 := RunAaliyahTask(store, task, env1);
    r2, executed2 := RunAaliyahTask(store, task, env2);
  }

  // ---- Any number of tasks, interleaved ----

  /** A caller asking on behalf of a task. */
  function AskForTask(caller: nat, task: Task, env: Surroundings): Step<TaskResult>
    requires ScopedKey(task.taskId, Some(task.scope)).Ok?
  {
    Ask(caller, ScopedKey(task.taskId, Some(task.scope)).value, Sha256(task.payload), task.taskType,
        TaskPlan(task, env))
  }

  ghost predicate IsTaskAsk(s: Step<TaskResult>) {
    s.Ask? && exists task: Task, env: Surroundings ::
        ScopedKey(task.taskId, Some(task.scope)).Ok? && s == AskForTask(s.caller, task, env)
  }

  lemma TaskPlansAreGuarded(s: Step<TaskResult>)
    requires IsTaskAsk(s)
    ensures Guarded(s.plan)
  {
  }

  /** In every run of task calls on either backend, crashes and retries included, no tool ever runs for a
      task that needs a human; and while calls keep their leases, every return for a task gives the value
      of the first one, to the same request, and no tool runs for it afterwards. */
  lemma TaskRunsAgree(backend: Backend, clock: int, steps: seq<Step<TaskResult>>)
    requires Legal(backend, Start<TaskResult>(clock), steps)
    requires forall i | 0 <= i < |steps| && steps[i].Ask? :: IsTaskAsk(steps[i])
    ensures var log := Run(backend, Start<TaskResult>(clock), steps).log;
      && (forall i | 0 <= i < |log| && log[i].ToolRun? :: !log[i].needsHuman)
      && (AlwaysInLease(backend, Start<TaskResult>(clock), steps) ==>
           && (forall i, j | 0 <= i < |log| && 0 <= j < |log| && log[i].Returned? && log[j].Returned?
                && log[i].key == log[j].key ::
                 log[i].value == log[j].value && log[i].hash == log[j].hash)
           && (forall i, j | 0 <= i < j < |log| && log[i].Returned? && log[j].ToolRun? :: log[i].key != log[j].key))
  {
    forall i | 0 <= i < |steps| && steps[i].Ask? ensures Guarded(steps[i].plan) {
      TaskPlansAreGuarded(steps[i]);
    }
    GuardedAlways(backend, Start<TaskResult>(clock), steps);
    if AlwaysInLease(backend, Start<TaskResult>(clock), steps) {
      FirstCallerAndReplaysAgree(backend, clock, steps);
    }
  }

  /** A task's tool really can run twice, every lease kept: a first call executes and then fails, as when its
      trace or its record cannot be written, and a second call executes again. */
  lemma TaskToolsCanRunTwice(backend: Backend, task: Task, env1: Surroundings, env2: Surroundings)
    returns (steps: seq<Step<TaskResult>>)
    requires ScopedKey(task.taskId, Some(task.scope)).Ok?
    requires TaskPlan(task, env1).acts && TaskPlan(task, env1).outcome.Err? && TaskPlan(task, env2).acts
    ensures Legal(backend, Start<TaskResult>(0), steps) && AlwaysInLease(backend, Start<TaskResult>(0), steps)
    ensures forall i | 0 <= i < |steps| && steps[i].Ask? :: IsTaskAsk(steps[i])
    ensures var key := ScopedKey(task.taskId, Some(task.scope)).value;
      Run(backend, Start<TaskResult>(0), steps).log
          == [ToolRun(1, key, false), Ended(1, key, false), ToolRun(2, key, false)]
  {
    var key, hash := ScopedKey(task.taskId, Some(task.scope)).value, Sha256(task.payload);
    steps := FailsThenActsAgain(backend, key, hash, task.taskType, TaskPlan(task, env1), TaskPlan(task, env2));
    assert steps[0] == AskForTask(1, task, env1) && steps[4] == AskForTask(2, task, env2);
  }

  // ---- runInboundDraft ----

  datatype DraftResult = NoAction(reason: string) | AwaitingApproval(draftId: string)

  datatype InboundRequest = InboundRequest(messageId: string, payload: string, scope: TenantScope)

  datatype InboundSurroundings = InboundSurroundings(
    startedAt: int, finishedAt: int, shouldDraft: bool, reason: string,
    drafted: Result<string, string>, traceFails: Option<string>, recordFails: Option<string>)

  /** What a call for this message does once it gets to work; creating the draft is its tool. */
  function DraftPlan(env: InboundSurroundings): Plan<DraftResult> {
    var outcome: Result<DraftResult, string> :=
      if env.shouldDraft && env.drafted.Err? then Err(env.drafted.error)
      else if env.traceFails.Some? then Err(env.traceFails.value)
      else if env.recordFails.Some? then Err(env.recordFails.value)
      else Ok(if env.shouldDraft then AwaitingApproval(env.drafted.value) else NoAction(env.reason));
    Plan(outcome, env.shouldDraft && env.drafted.Ok?, false)
  }

  /** One call of runInboundDraft is one call of LeaseClients with the message's plan: at most one mailbox
      draft, none without a grant or an empty replay, and the outcome recorded under the message's own key
      before it is returned. */
  method RunInboundDraft(store: IdempotencyStore<DraftResult>, request: InboundRequest, env: InboundSurroundings)
    returns (r: Result<DraftResult, RunError>, drafts: nat)
    modifies store`table, store`fallback
    ensures store.OtherUnchanged()
    ensures var slot := Slot(store, "inbound:" + request.messageId, request.scope);
      && (slot.Err? ==> r == Err(StoreRefused(slot.error)) && drafts == 0 && store.Records() == old(store.Records()))
      && (slot.Ok? ==>
          var (records, answer, acted) :=
            CallAlone(store.Kind(), old(store.Records()), slot.value, Sha256(request.payload), "inbound_draft",
                      DraftPlan(env), env.startedAt, env.finishedAt);
          store.Records() == records && r == Reported(answer) && drafts == if acted then 1 else 0)
    ensures drafts > 0 ==>
      && env.shouldDraft
      && (|| FindsGrant(store, old(store.Records()), "inbound:" + request.messageId, request.scope, request.payload,
                        env.startedAt)
          || FindsEmptyReplay(store, old(store.Records()), "inbound:" + request.messageId, request.scope,
                              request.payload, env.startedAt))
    ensures drafts > 0 && ResultsKept(old(store.Records())) ==>
      FindsGrant(store, old(store.Records()), "inbound:" + request.messageId, request.scope, request.payload,
                 env.startedAt)
    ensures ResultsKept(old(store.Records())) ==> ResultsKept(store.Records())
    ensures FindsGrant(store, old(store.Records()), "inbound:" + request.messageId, request.scope, request.payload,
                       env.startedAt) ==>
      && (drafts == 1 <==> env.shouldDraft && env.drafted.Ok?)
      && (r.Ok? <==> (env.shouldDraft ==> env.drafted.Ok?) && env.traceFails.None? && env.recordFails.None?)
      && (r.Ok? ==> r.value == if env.shouldDraft then AwaitingApproval(env.drafted.value) else NoAction(env.reason))
      && (r.Err? ==>
           && r.error.CallFailed? && r.error.reason.WorkFailed?
           && var text := r.error.reason.message;
           if env.shouldDraft && env.drafted.Err? then text == env.drafted.error
           else if env.traceFails.Some? then text == env.traceFails.value
           else env.recordFails == Some(text))
  {
    var scope := Some(request.scope);
    var key := "inbound:" + request.messageId;
    ghost var before := store.Records();
    drafts := 0;
    var answer := store.EnsureIdempotentExecution(key, request.payload, "inbound_draft", scope, env.startedAt);
    if answer.Err? { return Err(StoreRefused(answer.error)), 0; }
    ToolsNeedGrant(store.Kind(), before, ScopedKey(key, scope).value, Sha256(request.payload), "inbound_draft",
        DraftPlan(env), env.startedAt, env.finishedAt);
    match answer.value {
      case PayloadMismatch => return Err(CallFailed(KeyReused)), 0;
      case AlreadyInProgress => return Err(CallFailed(InFlight)), 0;
      case Replay(Some(Value(result))) => return Ok(result), 0;
      case _ =>
    }
    var failure: Option<string> := None;
    var result := NoAction(env.reason);
    if env.shouldDraft {
      if env.drafted.Err? {
        failure := Some(env.drafted.error);
      } else {
        drafts := 1;
        result := AwaitingApproval(env.drafted.value);
      }
    }
    if failure.None? { failure := env.traceFails; }
    if failure.None? { failure := env.recordFails; }
    if failure.None? {
      var _ := store.MarkCompleted(key, result, scope, env.finishedAt);
      return Ok(result), drafts;
    }
    var _ := store.RecordIdempotentFailure(key, failure.value, scope, env.finishedAt);
    return Err(CallFailed(WorkFailed(failure.value))), drafts;
  }

  /** A caller asking on behalf of an inbound message. */
  ghost predicate IsDraftAsk(s: Step<DraftResult>) {
    s.Ask? && exists request: InboundRequest, env: InboundSurroundings ::
        DraftAsked(s, request, env)
  }

  predicate DraftAsked(s: Step<DraftResult>, request: InboundRequest, env: InboundSurroundings) {
    var key := ScopedKey("inbound:" + request.messageId, Some(request.scope));
    && key.Ok? && s.Ask? && s.key == key.value && s.hash == Sha256(request.payload)
    && s.operationType == "inbound_draft" && s.plan == DraftPlan(env)
  }

  /** In every run of inbound calls that keep their leases, every return for a message gives the value of the
      first one, no draft is created for it afterwards, and before that a further one only once the call that
      created the last has failed or died; none of it needs a person. */
  lemma DraftRunsAgree(backend: Backend, clock: int, steps: seq<Step<DraftResult>>)
    requires Legal(backend, Start<DraftResult>(clock), steps)
    requires AlwaysInLease(backend, Start<DraftResult>(clock), steps)
    requires forall i | 0 <= i < |steps| && steps[i].Ask? :: IsDraftAsk(steps[i])
    ensures var log := Run(backend, Start<DraftResult>(clock), steps).log;
      && (forall i | 0 <= i < |log| && log[i].ToolRun? :: !log[i].needsHuman)
      && (forall i, j | 0 <= i < |log| && 0 <= j < |log| && log[i].Returned? && log[j].Returned?
                     && log[i].key == log[j].key :: log[i].value == log[j].value && log[i].hash == log[j].hash)
      && (forall i, j | 0 <= i < j < |log| && log[i].Returned? && log[j].ToolRun? :: log[i].key != log[j].key)
      && (forall i: nat, j: nat {:trigger EndBetween(log, i, j)}
            | i < j < |log| && log[i].ToolRun? && log[j].ToolRun? && log[i].key == log[j].key :: EndBetween(log, i, j))
  {
    forall i | 0 <= i < |steps| && steps[i].Ask? ensures Guarded(steps[i].plan) {
      assert IsDraftAsk(steps[i]);
    }
    GuardedAlways(backend, Start<DraftResult>(clock), steps);
    FirstCallerAndReplaysAgree(backend, clock, steps);
    ToolsRunAgainOnlyAfterAnEnd(backend, clock, steps);
  }
}
