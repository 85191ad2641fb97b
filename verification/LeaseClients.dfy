/** The clients of the idempotency record, as any number of interleaved calls: ask for the record, do the
    work, record its outcome, return. The record store underneath is the one of LeaseProtocol. */
module LeaseClients {
  import opened Prelude
  import opened MailRecords
  import opened Idempotency
  import Lease = LeaseProtocol

  /** What a call that gets to work comes to: its outcome, a record call that throws included, whether it
      runs tools on the way, and whether its kind of work needs a human first. */
  datatype Plan<R> = Plan(outcome: Result<R, string>, acts: bool, needsHuman: bool)

  // ---- One call with nobody in between ----

  datatype CallError = KeyReused | InFlight | WorkFailed(message: string)

  function CallAlone<R>(backend: Backend, records: Records<R>, key: string, hash: Digest, operationType: string,
                        plan: Plan<R>, startedAt: int, finishedAt: int): (r: (Records<R>, Result<R, CallError>, bool))
  {
    var (asked, reply) := Ensure(backend, records, key, hash, operationType, startedAt);
    match reply
    case PayloadMismatch => (asked, Err(KeyReused), false)
    case AlreadyInProgress => (asked, Err(InFlight), false)
    case Replay(Some(Value(result))) => (asked, Ok(result), false)
    case _ =>
      match plan.outcome
      case Ok(result) => (RecordOutcome(asked, key, Completed, Value(result), finishedAt), Ok(result), plan.acts)
      case Err(message) => (RecordOutcome(asked, key, Failed, Failure(message), finishedAt), Err(WorkFailed(message)),
          plan.acts)
  }

  /** Tools run only under a grant, or on an empty replay; and where completed records carry their values,
      as every call keeps them, only under a grant. */
  lemma ToolsNeedGrant<R>(backend: Backend, records: Records<R>, key: string, hash: Digest, operationType: string,
                          plan: Plan<R>, startedAt: int, finishedAt: int)
    ensures var (after, _, acted) := CallAlone(backend, records, key, hash, operationType, plan, startedAt, finishedAt);
      var reply := Decide(records, key, hash, startedAt);
      && (acted <==> plan.acts && (reply == Granted || EmptyReplay(reply)))
      && (ResultsKept(records) ==> ResultsKept(after) && !EmptyReplay(reply))
  {
  }

  /** The exception is real: a completed record without a value lets the same request run again, ungranted. */
  lemma EmptyReplayRuns<R>(backend: Backend, records: Records<R>, key: string, hash: Digest, operationType: string,
                           plan: Plan<R>, startedAt: int, finishedAt: int)
    ensures var (_, _, acted) := CallAlone(backend, records, key, hash, operationType, plan, startedAt, finishedAt);
      (acted && Decide(records, key, hash, startedAt) != Granted) <==>
        && plan.acts && key in records && records[key].requestHash == hash && records[key].status == Completed
        && !(records[key].resultPayload.Some? && records[key].resultPayload.value.Value?)
  {
  }

  // ---- Interleaved calls ----

  /** Where a call stands after it has asked. Whether it holds a grant is up to the lease. */
  datatype Pc<R> =
    | Working(key: string, hash: Digest, plan: Plan<R>, acted: bool)
    | Recorded(key: string, hash: Digest, value: R)

  datatype Event<R> =
    | Returned(caller: nat, key: string, hash: Digest, value: R)
    | ToolRun(caller: nat, key: string, needsHuman: bool)
    | Ended(caller: nat, key: string, crashed: bool)          // work over without a result: failed or died

  datatype World<R> = World(lease: Lease.World<R>, calls: map<nat, Pc<R>>, log: seq<Event<R>>)

  datatype Step<R> =
    | Time(to: int)
    | Ask(caller: nat, key: string, hash: Digest, operationType: string, plan: Plan<R>)
    | Act(caller: nat)
    | Finish(caller: nat)
    | Return(caller: nat)
    | Crash(caller: nat)

  function Start<R>(clock: int): World<R> { World(Lease.Start(clock), map[], []) }

  predicate Enabled<R>(w: World<R>, s: Step<R>) {
    match s
    case Time(to) => to >= w.lease.clock
    case Ask(c, _, _, _, _) => c !in w.calls && c !in w.lease.executors
    case Act(c) => c in w.calls && w.calls[c].Working? && w.calls[c].plan.acts && !w.calls[c].acted
    case Finish(c) => c in w.calls && w.calls[c].Working? && (w.calls[c].plan.acts ==> w.calls[c].acted)
    case Return(c) => c in w.calls && w.calls[c].Recorded?
    case Crash(c) => c in w.calls
  }

  /** The record store's part of a step, if it has one. */
  function LeaseStep<R>(w: World<R>, s: Step<R>): Option<Lease.Step<R>>
    requires Enabled(w, s)
    ensures LeaseStep(w, s).Some? ==> Lease.Enabled(w.lease, LeaseStep(w, s).value)
  {
    match s
    case Time(to) => Some(Lease.Tick(to))
    case Ask(c, key, hash, operationType, _) => Some(Lease.EnsureStep(c, key, hash, operationType))
    case Finish(c) =>
      if c !in w.lease.executors then None
      else (match w.calls[c].plan.outcome
            case Ok(result) => Some(Lease.CompleteStep(c, result))
            case Err(message) => Some(Lease.FailStep(c, message)))
    case Crash(c) => if c in w.lease.executors then Some(Lease.CrashStep(c)) else None
    case _ => None
  }

  /** The store after a step. A call without a grant, if there is one, writes its outcome all the same. */
  function Stored<R>(backend: Backend, w: World<R>, s: Step<R>): Lease.World<R>
    requires Enabled(w, s)
  {
    if LeaseStep(w, s).Some? then Lease.Do(backend, w.lease, LeaseStep(w, s).value)
    else if s.Finish? then
      var pc := w.calls[s.caller];
      w.lease.(records := match pc.plan.outcome
        case Ok(result) => RecordOutcome(w.lease.records, pc.key, Completed, Value(result), w.lease.clock)
        case Err(message) => RecordOutcome(w.lease.records, pc.key, Failed, Failure(message), w.lease.clock))
    else w.lease
  }

  function Do<R>(backend: Backend, w: World<R>, s: Step<R>): World<R>
    requires Enabled(w, s)
  {
    var w1 := w.(lease := Stored(backend, w, s));
    match s
    case Time(_) => w1
    case Ask(c, key, hash, _, plan) =>
      (match Decide(w.lease.records, key, hash, w.lease.clock)
       case PayloadMismatch => w1
       case AlreadyInProgress => w1
       case Replay(Some(Value(result))) => w1.(log := w.log + [Returned(c, key, hash, result)])
       case _ => w1.(calls := w.calls[c := Working(key, hash, plan, false)]))
    case Act(c) =>
      var pc := w.calls[c];
      w1.(calls := w.calls[c := pc.(acted := true)], log := w.log + [ToolRun(c, pc.key, pc.plan.needsHuman)])
    case Finish(c) =>
      var pc := w.calls[c];
      if pc.plan.outcome.Ok? then w1.(calls := w.calls[c := Recorded(pc.key, pc.hash, pc.plan.outcome.value)])
      else w1.(calls := w.calls - {c}, log := w.log + [Ended(c, pc.key, false)])
    case Return(c) =>
      var pc := w.calls[c];
      w1.(calls := w.calls - {c}, log := w.log + [Returned(c, pc.key, pc.hash, pc.value)])
    case Crash(c) =>
      var w2 := w1.(calls := w.calls - {c});
      if w.calls[c].Working? then w2.(log := w.log + [Ended(c, w.calls[c].key, true)]) else w2
  }

  predicate Legal<R>(backend: Backend, w: World<R>, steps: seq<Step<R>>)
    decreases steps
  {
    steps == [] || (Enabled(w, steps[0]) && Legal(backend, Do(backend, w, steps[0]), steps[1..]))
  }

  function Run<R>(backend: Backend, w: World<R>, steps: seq<Step<R>>): World<R>
    requires Legal(backend, w, steps)
    decreases steps
  {
    if steps == [] then w else Run(backend, Do(backend, w, steps[0]), steps[1..])
  }

  /** Every granted call records its outcome within one window of its lease. */
  ghost predicate AlwaysInLease<R>(backend: Backend, w: World<R>, steps: seq<Step<R>>)
    requires Legal(backend, w, steps)
    decreases steps
  {
    Lease.InLease(w.lease) && (steps == [] || AlwaysInLease(backend, Do(backend, w, steps[0]), steps[1..]))
  }

  // ---- The invariant ----

  /** Exactly the working calls hold a grant. */
  ghost predicate GrantsMatch<R>(w: World<R>) {
    && (forall c | c in w.lease.executors :: c in w.calls && w.calls[c].Working?)
    && (forall c | c in w.calls && w.calls[c].Working? ::
         c in w.lease.executors && w.lease.executors[c].key == w.calls[c].key
             && w.lease.executors[c].hash == w.calls[c].hash)
  }

  /** What is recorded or returned is what the record holds. */
  ghost predicate ValuesHeld<R>(w: World<R>) {
    && (forall c | c in w.calls && w.calls[c].Recorded? ::
         Lease.IsCompleted(w.lease, w.calls[c].key, w.calls[c].hash, w.calls[c].value))
    && (forall i | 0 <= i < |w.log| && w.log[i].Returned? ::
         Lease.IsCompleted(w.lease, w.log[i].key, w.log[i].hash, w.log[i].value))
  }

  ghost predicate NoToolAfterReturn<R>(log: seq<Event<R>>) {
    forall i, j | 0 <= i < j < |log| && log[i].Returned? && log[j].ToolRun? :: log[i].key != log[j].key
  }

  ghost predicate Sound<R>(w: World<R>) {
    && Lease.Exclusive(w.lease) && Lease.LogAgrees(w.lease) && GrantsMatch(w) && ValuesHeld(w)
    && NoToolAfterReturn(w.log)
  }

  lemma CompletedHasValue<R>(w: Lease.World<R>, key: string)
    requires Lease.LogAgrees(w) && key in w.records && w.records[key].status == Completed
    ensures w.records[key].resultPayload.Some? && w.records[key].resultPayload.value.Value?
    ensures Lease.IsCompleted(w, key, w.records[key].requestHash, w.records[key].resultPayload.value.result)
  {
    var i :| 0 <= i < |w.log| && w.log[i].Recorded? && w.log[i].key == key;
    assert Lease.IsCompleted(w, w.log[i].key, w.log[i].hash, w.log[i].result);
  }

  lemma NoEmptyReplay<R>(w: Lease.World<R>, key: string, hash: Digest)
    requires Lease.LogAgrees(w)
    ensures !EmptyReplay(Decide(w.records, key, hash, w.clock))
  {
    if key in w.records && w.records[key].status == Completed { CompletedHasValue(w, key); }
  }

  lemma LeaseSoundKept<R>(backend: Backend, w: World<R>, s: Step<R>)
    requires Sound(w) && Lease.InLease(w.lease) && Enabled(w, s)
    ensures Lease.Exclusive(Stored(backend, w, s)) && Lease.LogAgrees(Stored(backend, w, s))
  {
    var step := LeaseStep(w, s);
    if step.Some? {
      Lease.InLeaseNoTakeover(w.lease, step.value);
      Lease.ExclusiveKept(backend, w.lease, step.value);
      Lease.LogKept(backend, w.lease, step.value);
    }
  }

  lemma StillCompleted<R>(backend: Backend, w: World<R>, s: Step<R>, key: string, hash: Digest, value: R)
    requires Sound(w) && Enabled(w, s) && Lease.IsCompleted(w.lease, key, hash, value)
    ensures Lease.IsCompleted(Stored(backend, w, s), key, hash, value)
  {
    if LeaseStep(w, s).Some? { Lease.CompletedFrozen(backend, w.lease, LeaseStep(w, s).value, key); }
  }

  /** Who holds a grant after a step. */
  lemma ExecutorsAfter<R>(backend: Backend, w: World<R>, s: Step<R>)
    requires Enabled(w, s)
    ensures var e, e' := w.lease.executors, Stored(backend, w, s).executors;
      match s
      case Ask(c, key, hash, _, _) =>
        if Decide(w.lease.records, key, hash, w.lease.clock) == Granted
        then c in e' && e' == e[c := e'[c]] && e'[c].key == key && e'[c].hash == hash else e' == e
      case Finish(c) => e' == e - {c}
      case Crash(c) => e' == e - {c}
      case _ => e' == e
  {
  }

  lemma GrantsMatchKept<R>(backend: Backend, w: World<R>, s: Step<R>)
    requires Sound(w) && Enabled(w, s)
    ensures GrantsMatch(Do(backend, w, s))
  {
    ExecutorsAfter(backend, w, s);
    if s.Ask? { NoEmptyReplay(w.lease, s.key, s.hash); }
    GrantsFollow(backend, w, s, Stored(backend, w, s).executors);
  }

  lemma GrantsFollow<R>(backend: Backend, w: World<R>, s: Step<R>, e: map<nat, Lease.Executor>)
    requires GrantsMatch(w) && Enabled(w, s) && e == Stored(backend, w, s).executors
    requires match s
      case Ask(c, key, hash, _, _) =>
        var reply := Decide(w.lease.records, key, hash, w.lease.clock);
        && !EmptyReplay(reply)
        && if reply == Granted then c in e && e == w.lease.executors[c := e[c]] && e[c].key == key && e[c].hash == hash
             else e == w.lease.executors
      case Finish(c) => e == w.lease.executors - {c}
      case Crash(c) => e == w.lease.executors - {c}
      case _ => e == w.lease.executors
    ensures GrantsMatch(Do(backend, w, s))
  {
    var calls := Do(backend, w, s).calls;
    forall c | c in calls && calls[c].Working?
      ensures c in e && e[c].key == calls[c].key && e[c].hash == calls[c].hash
    {
      if c in w.calls { assert w.calls[c].Working? ==> c in w.lease.executors; }
    }
  }

  lemma NewValueHeld<R>(backend: Backend, w: World<R>, s: Step<R>)
    requires Sound(w) && Enabled(w, s)
    ensures s.Finish? && w.calls[s.caller].plan.outcome.Ok? ==>
      Lease.IsCompleted(Stored(backend, w, s), w.calls[s.caller].key, w.calls[s.caller].hash,
          w.calls[s.caller].plan.outcome.value)
    ensures s.Ask? ==> match Decide(w.lease.records, s.key, s.hash, w.lease.clock)
      case Replay(Some(Value(result))) => Lease.IsCompleted(w.lease, s.key, s.hash, result)
      case _ => true
  {
    if s.Finish? { assert Lease.Holds(w.lease, w.lease.executors[s.caller]); }
  }

  lemma ValuesHeldKept<R>(backend: Backend, w: World<R>, s: Step<R>)
    requires Sound(w) && Enabled(w, s)
    ensures ValuesHeld(Do(backend, w, s))
  {
    var w' := Do(backend, w, s);
    NewValueHeld(backend, w, s);
    forall c | c in w'.calls && w'.calls[c].Recorded?
      ensures Lease.IsCompleted(w'.lease, w'.calls[c].key, w'.calls[c].hash, w'.calls[c].value)
    {
      if c in w.calls && w.calls[c] == w'.calls[c] {
        StillCompleted(backend, w, s, w'.calls[c].key, w'.calls[c].hash, w'.calls[c].value);
      }
    }
    forall i | 0 <= i < |w'.log| && w'.log[i].Returned?
      ensures Lease.IsCompleted(w'.lease, w'.log[i].key, w'.log[i].hash, w'.log[i].value)
    {
      assert i < |w.log| ==> w'.log[i] == w.log[i];
      StillCompleted(backend, w, s, w'.log[i].key, w'.log[i].hash, w'.log[i].value);
    }
  }

  lemma ToolRunKept<R>(backend: Backend, w: World<R>, s: Step<R>)
    requires Sound(w) && Enabled(w, s)
    ensures NoToolAfterReturn(Do(backend, w, s).log)
  {
    var log := Do(backend, w, s).log;
    forall i, j | 0 <= i < j < |log| && log[i].Returned? && log[j].ToolRun? ensures log[i].key != log[j].key {
      assert log[i] == w.log[i];
      if j == |w.log| {
        assert Lease.IsCompleted(w.lease, w.log[i].key, w.log[i].hash, w.log[i].value);
        assert Lease.Holds(w.lease, w.lease.executors[s.caller]);
      } else {
        assert log[j] == w.log[j];
      }
    }
  }

  lemma SoundKept<R>(backend: Backend, w: World<R>, s: Step<R>)
    requires Sound(w) && Lease.InLease(w.lease) && Enabled(w, s)
    ensures Sound(Do(backend, w, s))
  {
    LeaseSoundKept(backend, w, s);
    GrantsMatchKept(backend, w, s);
    ValuesHeldKept(backend, w, s);
    ToolRunKept(backend, w, s);
  }

  lemma {:induction false} SoundAlways<R>(backend: Backend, w: World<R>, steps: seq<Step<R>>)
    requires Sound(w) && Legal(backend, w, steps) && AlwaysInLease(backend, w, steps)
    ensures Sound(Run(backend, w, steps))
    decreases steps
  {
    if steps == [] {
    } else {
      SoundKept(backend, w, steps[0]);
      SoundAlways(backend, Do(backend, w, steps[0]), steps[1..]);
    }
  }

  /** Over every interleaving of calls that keep their leases, crashes, retries and passing time: whatever
      one call returned for a key is what every call for that key ever returns, to the same request; once
      something is returned no tool runs for that key; a tool runs only under a grant; and completed
      records carry their values. */
  lemma FirstCallerAndReplaysAgree<R>(backend: Backend, clock: int, steps: seq<Step<R>>)
    requires Legal(backend, Start<R>(clock), steps) && AlwaysInLease(backend, Start<R>(clock), steps)
    ensures var w := Run(backend, Start<R>(clock), steps);
      && (forall i, j | 0 <= i < |w.log| && 0 <= j < |w.log| && w.log[i].Returned? && w.log[j].Returned?
           && w.log[i].key == w.log[j].key ::
            w.log[i].value == w.log[j].value && w.log[i].hash == w.log[j].hash)
      && (forall i, j | 0 <= i < j < |w.log| && w.log[i].Returned? && w.log[j].ToolRun? :: w.log[i].key != w.log[j].key)
      && (forall c | c in w.calls && w.calls[c].Working? :: c in w.lease.executors)
      && ResultsKept(w.lease.records)
  {
    SoundAlways(backend, Start<R>(clock), steps);
    var w := Run(backend, Start<R>(clock), steps);
    forall i, j | 0 <= i < |w.log| && 0 <= j < |w.log| && w.log[i].Returned? && w.log[j].Returned?
        && w.log[i].key == w.log[j].key
      ensures w.log[i].value == w.log[j].value && w.log[i].hash == w.log[j].hash
    {
      assert Lease.IsCompleted(w.lease, w.log[i].key, w.log[i].hash, w.log[i].value);
      assert Lease.IsCompleted(w.lease, w.log[j].key, w.log[j].hash, w.log[j].value);
    }
    forall key | key in w.lease.records && w.lease.records[key].status == Completed
      ensures w.lease.records[key].resultPayload.Some? && w.lease.records[key].resultPayload.value.Value?
    {
      CompletedHasValue(w.lease, key);
    }
  }

  lemma ResultsKeptStep<R>(backend: Backend, w: World<R>, s: Step<R>)
    requires ResultsKept(w.lease.records) && Enabled(w, s)
    ensures ResultsKept(Do(backend, w, s).lease.records)
  {
    if s.Finish? {
      FinishKeepsResults(backend, w, s);
    } else {
      assert Do(backend, w, s).lease == Stored(backend, w, s);
    }
  }

  lemma FinishKeepsResults<R>(backend: Backend, w: World<R>, s: Step<R>)
    requires ResultsKept(w.lease.records) && Enabled(w, s) && s.Finish?
    ensures ResultsKept(Do(backend, w, s).lease.records)
  {
  }

  /** In every run, leases kept or not, completed records carry their values, so no replay is empty. */
  lemma {:induction false} ResultsAlwaysKept<R>(backend: Backend, w: World<R>, steps: seq<Step<R>>)
    requires ResultsKept(w.lease.records) && Legal(backend, w, steps)
    ensures ResultsKept(Run(backend, w, steps).lease.records)
    ensures forall key, hash, now :: !EmptyReplay(Decide(Run(backend, w, steps).lease.records, key, hash, now))
    decreases steps
  {
    if steps == [] {
    } else {
      ResultsKeptStep(backend, w, steps[0]);
      ResultsAlwaysKept(backend, Do(backend, w, steps[0]), steps[1..]);
    }
  }

  // ---- When a tool runs again ----

  /** Where the call that ran a tool for a key has got to: it ended without a result, it is still at work,
      or the key is completed. */
  ghost predicate ToolAccounted<R>(w: World<R>, i: nat)
    requires i < |w.log| && w.log[i].ToolRun?
  {
    || EndedAfter(w.log, i)
    || StillAtWork(w, w.log[i].caller, w.log[i].key)
    || (w.log[i].key in w.lease.records && w.lease.records[w.log[i].key].status == Completed)
  }

  ghost predicate EndedAfter<R>(log: seq<Event<R>>, i: nat)
    requires i < |log| && log[i].ToolRun?
  {
    exists k :: i < k < |log| && log[k].Ended? && log[k].caller == log[i].caller && log[k].key == log[i].key
  }

  predicate StillAtWork<R>(w: World<R>, c: nat, key: string) {
    c in w.calls && w.calls[c].Working? && w.calls[c].acted && w.calls[c].key == key
  }

  ghost predicate ToolsAccounted<R>(w: World<R>) {
    forall i: nat {:trigger ToolAccounted(w, i)} | i < |w.log| && w.log[i].ToolRun? :: ToolAccounted(w, i)
  }

  /** Between two tool runs for one key the first of the two calls ended without a result. */
  ghost predicate EndBetween<R>(log: seq<Event<R>>, i: nat, j: nat)
    requires i < j < |log| && log[i].ToolRun?
  {
    exists k :: i < k < j && log[k].Ended? && log[k].caller == log[i].caller && log[k].key == log[i].key
  }

  ghost predicate RunsSeparated<R>(log: seq<Event<R>>) {
    forall i: nat, j: nat {:trigger EndBetween(log, i, j)}
      | i < j < |log| && log[i].ToolRun? && log[j].ToolRun? && log[i].key == log[j].key :: EndBetween(log, i, j)
  }

  lemma LogGrows<R>(backend: Backend, w: World<R>, s: Step<R>)
    requires Enabled(w, s)
    ensures var log := Do(backend, w, s).log;
      && |w.log| <= |log| <= |w.log| + 1 && (forall i | 0 <= i < |w.log| :: log[i] == w.log[i])
      && (s.Act? ==> log == w.log + [ToolRun(s.caller, w.calls[s.caller].key, w.calls[s.caller].plan.needsHuman)])
      && (|log| > |w.log| && log[|w.log|].ToolRun? ==> s.Act?)
  {
  }

  lemma EndedStays<R>(log: seq<Event<R>>, log': seq<Event<R>>, i: nat)
    requires i < |log| <= |log'| && (forall k | 0 <= k < |log| :: log'[k] == log[k]) && log[i].ToolRun?
    requires EndedAfter(log, i)
    ensures EndedAfter(log', i)
  {
    var k :| i < k < |log| && log[k].Ended? && log[k].caller == log[i].caller && log[k].key == log[i].key;
    assert log'[k] == log[k];
  }

  /** A call at work stays at work, ends in the log, or completes its key. */
  lemma WorkerMoves<R>(backend: Backend, w: World<R>, s: Step<R>, c: nat, key: string)
    requires Sound(w) && Enabled(w, s) && StillAtWork(w, c, key)
    ensures var w' := Do(backend, w, s);
      || StillAtWork(w', c, key)
      || (|w'.log| == |w.log| + 1 && w'.log[|w.log|].Ended? && w'.log[|w.log|].caller == c
           && w'.log[|w.log|].key == key)
      || (key in w'.lease.records && w'.lease.records[key].status == Completed)
  {
    assert Lease.Holds(w.lease, w.lease.executors[c]);
  }

  lemma CompletedStays<R>(backend: Backend, w: World<R>, s: Step<R>, key: string)
    requires Sound(w) && Enabled(w, s) && key in w.lease.records && w.lease.records[key].status == Completed
    ensures key in Stored(backend, w, s).records && Stored(backend, w, s).records[key].status == Completed
  {
    if LeaseStep(w, s).Some? { Lease.CompletedFrozen(backend, w.lease, LeaseStep(w, s).value, key); }
  }

  lemma AccountedStays<R>(backend: Backend, w: World<R>, s: Step<R>, i: nat)
    requires Sound(w) && Enabled(w, s) && i < |w.log| && w.log[i].ToolRun? && ToolAccounted(w, i)
    requires i < |Do(backend, w, s).log| && Do(backend, w, s).log[i] == w.log[i]
    ensures ToolAccounted(Do(backend, w, s), i)
  {
    var w' := Do(backend, w, s);
    LogGrows(backend, w, s);
    if EndedAfter(w.log, i) {
      EndedStays(w.log, w'.log, i);
    } else if StillAtWork(w, w.log[i].caller, w.log[i].key) {
      WorkerMoves(backend, w, s, w.log[i].caller, w.log[i].key);
    } else {
      CompletedStays(backend, w, s, w.log[i].key);
    }
  }

  lemma ToolsAccountedKept<R>(backend: Backend, w: World<R>, s: Step<R>)
    requires Sound(w) && Enabled(w, s) && ToolsAccounted(w)
    ensures ToolsAccounted(Do(backend, w, s))
  {
    var w' := Do(backend, w, s);
    LogGrows(backend, w, s);
    forall i: nat {:trigger ToolAccounted(w', i)} | i < |w'.log| && w'.log[i].ToolRun? ensures ToolAccounted(w', i) {
      if i < |w.log| {
        assert ToolAccounted(w, i);
        AccountedStays(backend, w, s, i);
      } else {
        assert StillAtWork(w', w'.log[i].caller, w'.log[i].key);
      }
    }
  }

  /** A call about to act holds its key alone, so whoever acted for it before has ended. */
  lemma ActorIsAlone<R>(w: World<R>, c: nat, i: nat)
    requires Sound(w) && c in w.calls && w.calls[c].Working? && !w.calls[c].acted
    requires i < |w.log| && w.log[i].ToolRun? && w.log[i].key == w.calls[c].key && ToolAccounted(w, i)
    ensures EndedAfter(w.log, i)
  {
    assert Lease.Holds(w.lease, w.lease.executors[c]);
    assert forall d | d in w.lease.executors && w.lease.executors[d].key == w.lease.executors[c].key :: d == c;
  }

  lemma RunsSeparatedKept<R>(backend: Backend, w: World<R>, s: Step<R>)
    requires Sound(w) && Enabled(w, s) && ToolsAccounted(w) && RunsSeparated(w.log)
    ensures RunsSeparated(Do(backend, w, s).log)
  {
    var log := Do(backend, w, s).log;
    LogGrows(backend, w, s);
    forall i: nat, j: nat {:trigger EndBetween(log, i, j)}
      | i < j < |log| && log[i].ToolRun? && log[j].ToolRun? && log[i].key == log[j].key
      ensures EndBetween(log, i, j)
    {
      if j < |w.log| {
        assert EndBetween(w.log, i, j);
        EndBetweenStays(w.log, log, i, j);
      } else {
        assert ToolAccounted(w, i);
        ActorIsAlone(w, s.caller, i);
        EndBeforeNew(w.log, log, i);
      }
    }
  }

  lemma EndBetweenStays<R>(log: seq<Event<R>>, log': seq<Event<R>>, i: nat, j: nat)
    requires i < j < |log| <= |log'| && (forall k | 0 <= k < |log| :: log'[k] == log[k]) && log[i].ToolRun?
    requires EndBetween(log, i, j)
    ensures EndBetween(log', i, j)
  {
    var k :| i < k < j && log[k].Ended? && log[k].caller == log[i].caller && log[k].key == log[i].key;
    assert log'[k] == log[k];
  }

  lemma EndBeforeNew<R>(log: seq<Event<R>>, log': seq<Event<R>>, i: nat)
    requires i < |log| < |log'| && (forall k | 0 <= k < |log| :: log'[k] == log[k]) && log[i].ToolRun?
    requires EndedAfter(log, i)
    ensures EndBetween(log', i, |log|)
  {
    var k :| i < k < |log| && log[k].Ended? && log[k].caller == log[i].caller && log[k].key == log[i].key;
    assert log'[k] == log[k];
  }

  lemma {:induction false} SeparatedAlways<R>(backend: Backend, w: World<R>, steps: seq<Step<R>>)
    requires Sound(w) && ToolsAccounted(w) && RunsSeparated(w.log)
    requires Legal(backend, w, steps) && AlwaysInLease(backend, w, steps)
    ensures RunsSeparated(Run(backend, w, steps).log)
    decreases steps
  {
    if steps == [] {
    } else {
      SoundKept(backend, w, steps[0]);
      ToolsAccountedKept(backend, w, steps[0]);
      RunsSeparatedKept(backend, w, steps[0]);
      SeparatedAlways(backend, Do(backend, w, steps[0]), steps[1..]);
    }
  }

  /** Tools are not run at most once per key: they can run again. But while leases are kept, only after the
      call that ran them last failed or died without a result. */
  lemma ToolsRunAgainOnlyAfterAnEnd<R>(backend: Backend, clock: int, steps: seq<Step<R>>)
    requires Legal(backend, Start<R>(clock), steps) && AlwaysInLease(backend, Start<R>(clock), steps)
    ensures var log := Run(backend, Start<R>(clock), steps).log;
      forall i: nat, j: nat {:trigger EndBetween(log, i, j)}
        | i < j < |log| && log[i].ToolRun? && log[j].ToolRun? && log[i].key == log[j].key :: EndBetween(log, i, j)
  {
    SeparatedAlways(backend, Start<R>(clock), steps);
  }

  /** A key nobody works on and that is not completed. */
  ghost predicate Abandoned<R>(w: World<R>, key: string, hash: Digest) {
    && key in w.lease.records && w.lease.records[key].requestHash == hash && w.lease.records[key].status != Completed
    && forall c | c in w.lease.executors :: w.lease.executors[c].key != key
  }

  /** Every end leaves its key abandoned. */
  lemma EndAbandons<R>(backend: Backend, w: World<R>, s: Step<R>)
    requires Sound(w) && Enabled(w, s) && (s.Finish? || s.Crash?) && w.calls[s.caller].Working?
    requires s.Finish? ==> w.calls[s.caller].plan.outcome.Err?
    ensures var w' := Do(backend, w, s);
      && w'.log == w.log + [Ended(s.caller, w.calls[s.caller].key, s.Crash?)]
      && Abandoned(w', w.calls[s.caller].key, w.calls[s.caller].hash)
  {
    assert Lease.Holds(w.lease, w.lease.executors[s.caller]);
  }

  /** When an abandoned key is granted again: at once after a failure, after the window otherwise. */
  function GrantedFrom<R>(w: World<R>, key: string): int
    requires key in w.lease.records
  {
    var r := w.lease.records[key];
    if r.status == Failed then w.lease.clock
    else if w.lease.clock > r.createdAt + STALE_IN_PROGRESS_MS then w.lease.clock
    else r.createdAt + STALE_IN_PROGRESS_MS + 1
  }

  function AgainSteps<R>(at: int, c: nat, key: string, hash: Digest, operationType: string, plan: Plan<R>): seq<Step<R>>
  {
    [Time(at), Ask(c, key, hash, operationType, plan), Act(c)]
  }

  /** No call's window ends before that instant. */
  ghost predicate LeasesLast<R>(w: World<R>, until: int) {
    forall e | e in w.lease.executors :: until <= w.lease.executors[e].leaseStart + STALE_IN_PROGRESS_MS
  }

  /** A retry in memory keeps the start of the failed record: its lease is over before it begins. */
  predicate RetryBeginsLate<R>(backend: Backend, w: World<R>, key: string)
    requires key in w.lease.records
  {
    var r := w.lease.records[key];
    backend == InMemory && r.status == Failed && Stale(r.createdAt, w.lease.clock)
  }

  /** And on an abandoned key the same request can act again, by a further grant. Waiting for it breaks no lease
      as long as no other call's window ends before and the new lease is not over before it begins. */
  lemma AbandonedCanActAgain<R>(backend: Backend, w: World<R>, c: nat, key: string, hash: Digest,
                                operationType: string, plan: Plan<R>)
    requires Abandoned(w, key, hash) && c !in w.calls && c !in w.lease.executors && plan.acts
    ensures var steps := AgainSteps(GrantedFrom(w, key), c, key, hash, operationType, plan);
      && Legal(backend, w, steps) && Run(backend, w, steps).log == w.log + [ToolRun(c, key, plan.needsHuman)]
      && (Lease.InLease(w.lease) && LeasesLast(w, GrantedFrom(w, key)) && !RetryBeginsLate(backend, w, key) ==>
           AlwaysInLease(backend, w, steps))
  {
    var at := GrantedFrom(w, key);
    var time: Step<R>, ask: Step<R>, act: Step<R> := Time(at), Ask(c, key, hash, operationType, plan), Act(c);
    var none: seq<Step<R>> := [];
    var w1 := Do(backend, w, time);
    assert Decide(w1.lease.records, key, hash, w1.lease.clock) == Granted;
    var w2 := Do(backend, w1, ask);
    var w3 := Do(backend, w2, act);
    Then(backend, w2, act, w3, none);
    Then(backend, w1, ask, w2, [act] + none);
    Then(backend, w, time, w1, [ask] + ([act] + none));
    assert AgainSteps(at, c, key, hash, operationType, plan) == [time] + ([ask] + ([act] + none));
    if Lease.InLease(w.lease) && LeasesLast(w, at) && !RetryBeginsLate(backend, w, key) {
      AgainInLease(backend, w, c, key, hash, operationType, plan);
    }
  }

  lemma AgainInLease<R>(backend: Backend, w: World<R>, c: nat, key: string, hash: Digest,
                        operationType: string, plan: Plan<R>)
    requires Abandoned(w, key, hash) && c !in w.calls && c !in w.lease.executors && plan.acts
    requires Lease.InLease(w.lease) && LeasesLast(w, GrantedFrom(w, key)) && !RetryBeginsLate(backend, w, key)
    ensures var steps := AgainSteps(GrantedFrom(w, key), c, key, hash, operationType, plan);
      Legal(backend, w, steps) && AlwaysInLease(backend, w, steps)
  {
    var at := GrantedFrom(w, key);
    var time: Step<R>, ask: Step<R>, act: Step<R> := Time(at), Ask(c, key, hash, operationType, plan), Act(c);
    var none: seq<Step<R>> := [];
    var w1 := Do(backend, w, time);
    var w2 := Do(backend, w1, ask);
    var w3 := Do(backend, w2, act);
    ThenInLease(backend, w2, act, w3, none);
    ThenInLease(backend, w1, ask, w2, [act] + none);
    ThenInLease(backend, w, time, w1, [ask] + ([act] + none));
    assert AgainSteps(at, c, key, hash, operationType, plan) == [time] + ([ask] + ([act] + none));
  }

  lemma ThenInLease<R>(backend: Backend, w: World<R>, s: Step<R>, w1: World<R>, rest: seq<Step<R>>)
    requires Enabled(w, s) && w1 == Do(backend, w, s) && Lease.InLease(w.lease)
    requires Legal(backend, w1, rest) && (rest == [] ==> Lease.InLease(w1.lease)) && AlwaysInLease(backend, w1, rest)
    ensures Legal(backend, w, [s] + rest) && AlwaysInLease(backend, w, [s] + rest)
    ensures Run(backend, w, [s] + rest) == Run(backend, w1, rest)
  {
    assert ([s] + rest)[0] == s && ([s] + rest)[1..] == rest;
  }

  /** The worlds of a first call that acts and fails, from the start. */
  lemma ActsAndFails<R>(backend: Backend, key: string, hash: Digest, operationType: string, plan: Plan<R>)
    returns (w1: World<R>, w2: World<R>, w3: World<R>)
    requires plan.acts && plan.outcome.Err?
    ensures Enabled(Start<R>(0), Ask(1, key, hash, operationType, plan))
    ensures w1 == Do(backend, Start<R>(0), Ask(1, key, hash, operationType, plan)) && Lease.InLease(w1.lease)
    ensures Enabled(w1, Act(1)) && w2 == Do(backend, w1, Act(1)) && Lease.InLease(w2.lease)
    ensures Enabled(w2, Finish(1)) && w3 == Do(backend, w2, Finish(1)) && w3.lease.executors == map[]
    ensures w3.calls == map[]
    ensures Abandoned(w3, key, hash) && GrantedFrom(w3, key) == 0
    ensures w3.lease.records[key].createdAt == 0 == w3.lease.clock
    ensures w3.log == [ToolRun(1, key, plan.needsHuman), Ended(1, key, false)]
  {
    w1 := Do(backend, Start<R>(0), Ask(1, key, hash, operationType, plan));
    w2 := Do(backend, w1, Act(1));
    w3 := Do(backend, w2, Finish(1));
  }

  /** From the start, a first call acts and fails, and a second one acts again: no lease is broken on the way. */
  lemma FailsThenActsAgain<R>(backend: Backend, key: string, hash: Digest, operationType: string,
                              plan1: Plan<R>, plan2: Plan<R>)
    returns (steps: seq<Step<R>>)
    requires plan1.acts && plan1.outcome.Err? && plan2.acts
    ensures steps == [Ask(1, key, hash, operationType, plan1)]
        + ([Act(1)] + ([Finish(1)] + AgainSteps(0, 2, key, hash, operationType, plan2)))
    ensures Legal(backend, Start<R>(0), steps) && AlwaysInLease(backend, Start<R>(0), steps)
    ensures Run(backend, Start<R>(0), steps).log
         == [ToolRun(1, key, plan1.needsHuman), Ended(1, key, false)] + [ToolRun(2, key, plan2.needsHuman)]
  {
    var ask: Step<R>, act: Step<R>, finish: Step<R> := Ask(1, key, hash, operationType, plan1), Act(1), Finish(1);
    var again := AgainSteps(0, 2, key, hash, operationType, plan2);
    var w1, w2, w3 := ActsAndFails(backend, key, hash, operationType, plan1);
    AbandonedCanActAgain(backend, w3, 2, key, hash, operationType, plan2);
    ThenInLease(backend, w2, finish, w3, again);
    ThenInLease(backend, w1, act, w2, [finish] + again);
    ThenInLease(backend, Start<R>(0), ask, w1, [act] + ([finish] + again));
    steps := [ask] + ([act] + ([finish] + again));
  }

  // ---- Work that needs a human ----

  /** Work that needs a human runs no tools. */
  predicate Guarded<R>(plan: Plan<R>) {
    plan.needsHuman ==> !plan.acts
  }

  ghost predicate AllGuarded<R>(w: World<R>) {
    && (forall c | c in w.calls && w.calls[c].Working? :: Guarded(w.calls[c].plan))
    && (forall i | 0 <= i < |w.log| && w.log[i].ToolRun? :: !w.log[i].needsHuman)
  }

  /** If every plan asked for is guarded, no tool ever runs for work that needs a human. Needs no lease. */
  lemma {:induction false} GuardedAlways<R>(backend: Backend, w: World<R>, steps: seq<Step<R>>)
    requires AllGuarded(w) && Legal(backend, w, steps)
    requires forall i | 0 <= i < |steps| && steps[i].Ask? :: Guarded(steps[i].plan)
    ensures AllGuarded(Run(backend, w, steps))
    decreases steps
  {
    if steps == [] {
    } else {
      assert steps[0].Ask? ==> Guarded(steps[0].plan);
      GuardedStep(backend, w, steps[0]);
      GuardedAlways(backend, Do(backend, w, steps[0]), steps[1..]);
    }
  }

  lemma GuardedStep<R>(backend: Backend, w: World<R>, s: Step<R>)
    requires AllGuarded(w) && Enabled(w, s) && (s.Ask? ==> Guarded(s.plan))
    ensures AllGuarded(Do(backend, w, s))
  {
  }

  // ---- The steps of one call alone ----

  function AloneSteps<R>(w: World<R>, c: nat, key: string, hash: Digest, operationType: string, plan: Plan<R>,
                         finishedAt: int): seq<Step<R>>
  {
    var reply := Decide(w.lease.records, key, hash, w.lease.clock);
    [Ask(c, key, hash, operationType, plan)]
    + if reply == Granted || EmptyReplay(reply) then WorkSteps(c, plan, finishedAt) else []
  }

  function WorkSteps<R>(c: nat, plan: Plan<R>, finishedAt: int): seq<Step<R>> {
    (if plan.acts then [Act(c)] else []) + EndSteps(c, plan, finishedAt)
  }

  function EndSteps<R>(c: nat, plan: Plan<R>, finishedAt: int): seq<Step<R>> {
    [Time(finishedAt), Finish(c)] + if plan.outcome.Ok? then [Return(c)] else []
  }

  function AloneEvents<R>(c: nat, key: string, hash: Digest, plan: Plan<R>, r: Result<R, CallError>,
                          acted: bool): seq<Event<R>>
  {
    (if acted then [ToolRun(c, key, plan.needsHuman)] else [])
    + if r.Ok? then [Returned(c, key, hash, r.value)] else if r.error.WorkFailed? then [Ended(c, key, false)] else []
  }

  lemma Then<R>(backend: Backend, w: World<R>, s: Step<R>, w1: World<R>, rest: seq<Step<R>>)
    requires Enabled(w, s) && w1 == Do(backend, w, s) && Legal(backend, w1, rest)
    ensures Legal(backend, w, [s] + rest) && Run(backend, w, [s] + rest) == Run(backend, w1, rest)
  {
    assert ([s] + rest)[0] == s && ([s] + rest)[1..] == rest;
  }

  lemma EndAlone<R>(backend: Backend, w: World<R>, c: nat, finishedAt: int)
    requires c in w.calls && w.calls[c].Working? && (w.calls[c].plan.acts ==> w.calls[c].acted)
    requires w.lease.clock <= finishedAt
    requires c in w.lease.executors ==> w.lease.executors[c].key == w.calls[c].key
    ensures var pc := w.calls[c];
      var steps := EndSteps(c, pc.plan, finishedAt);
      && Legal(backend, w, steps)
      && var w' := Run(backend, w, steps);
      && w'.lease.records == (match pc.plan.outcome
           case Ok(result) => RecordOutcome(w.lease.records, pc.key, Completed, Value(result), finishedAt)
           case Err(message) => RecordOutcome(w.lease.records, pc.key, Failed, Failure(message), finishedAt))
      && w'.calls == w.calls - {c} && w'.lease.executors == w.lease.executors - {c}
      && w'.log == w.log + if pc.plan.outcome.Ok? then [Returned(c, pc.key, pc.hash, pc.plan.outcome.value)]
           else [Ended(c, pc.key, false)]
  {
    var pc := w.calls[c];
    var time: Step<R>, finish: Step<R>, back: Step<R> := Time(finishedAt), Finish(c), Return(c);
    var none: seq<Step<R>> := [];
    var w1 := Do(backend, w, time);
    var w2 := Do(backend, w1, finish);
    if pc.plan.outcome.Ok? {
      var w3 := Do(backend, w2, back);
      Then(backend, w2, back, w3, none);
      Then(backend, w1, finish, w2, [back] + none);
      Then(backend, w, time, w1, [finish] + ([back] + none));
      assert EndSteps(c, pc.plan, finishedAt) == [time] + ([finish] + ([back] + none));
      assert w3.calls == w.calls - {c};
    } else {
      Then(backend, w1, finish, w2, none);
      Then(backend, w, time, w1, [finish] + none);
      assert EndSteps(c, pc.plan, finishedAt) == [time] + ([finish] + none);
    }
  }

  lemma WorkAlone<R>(backend: Backend, w: World<R>, c: nat, finishedAt: int)
    requires c in w.calls && w.calls[c].Working? && !w.calls[c].acted && w.lease.clock <= finishedAt
    requires c in w.lease.executors ==> w.lease.executors[c].key == w.calls[c].key
    ensures var pc := w.calls[c];
      var steps := WorkSteps(c, pc.plan, finishedAt);
      && Legal(backend, w, steps)
      && var w' := Run(backend, w, steps);
      && w'.lease.records == (match pc.plan.outcome
           case Ok(result) => RecordOutcome(w.lease.records, pc.key, Completed, Value(result), finishedAt)
           case Err(message) => RecordOutcome(w.lease.records, pc.key, Failed, Failure(message), finishedAt))
      && w'.calls == w.calls - {c} && w'.lease.executors == w.lease.executors - {c}
      && w'.log == w.log + ((if pc.plan.acts then [ToolRun(c, pc.key, pc.plan.needsHuman)] else [])
           + if pc.plan.outcome.Ok? then [Returned(c, pc.key, pc.hash, pc.plan.outcome.value)]
               else [Ended(c, pc.key, false)])
  {
    var pc := w.calls[c];
    if pc.plan.acts {
      var act: Step<R> := Act(c);
      var w1 := Do(backend, w, act);
      EndAlone(backend, w1, c, finishedAt);
      Then(backend, w, act, w1, EndSteps(c, pc.plan, finishedAt));
      assert w1.calls - {c} == w.calls - {c};
    } else {
      var none: seq<Step<R>> := [];
      EndAlone(backend, w, c, finishedAt);
      assert none + EndSteps(c, pc.plan, finishedAt) == EndSteps(c, pc.plan, finishedAt);
    }
  }

  lemma AloneWorks<R>(backend: Backend, w: World<R>, c: nat, key: string, hash: Digest, operationType: string,
                      plan: Plan<R>, finishedAt: int)
    requires c !in w.calls && c !in w.lease.executors && w.lease.clock <= finishedAt
    requires var reply := Decide(w.lease.records, key, hash, w.lease.clock);
      reply == Granted || EmptyReplay(reply)
    ensures var steps := AloneSteps(w, c, key, hash, operationType, plan, finishedAt);
      var (records, r, acted) :=
          CallAlone(backend, w.lease.records, key, hash, operationType, plan, w.lease.clock, finishedAt);
      && Legal(backend, w, steps)
      && var w' := Run(backend, w, steps);
      && w'.lease.records == records && w'.calls == w.calls && w'.lease.executors == w.lease.executors
      && w'.log == w.log + AloneEvents(c, key, hash, plan, r, acted)
  {
    var ask: Step<R> := Ask(c, key, hash, operationType, plan);
    var w1 := Do(backend, w, ask);
    AskAlone(backend, w, ask);
    WorkAlone(backend, w1, c, finishedAt);
    Then(backend, w, ask, w1, WorkSteps(c, plan, finishedAt));
  }

  lemma AloneRefused<R>(backend: Backend, w: World<R>, c: nat, key: string, hash: Digest, operationType: string,
                        plan: Plan<R>, finishedAt: int)
    requires c !in w.calls && c !in w.lease.executors && w.lease.clock <= finishedAt
    requires var reply := Decide(w.lease.records, key, hash, w.lease.clock);
      !(reply == Granted || EmptyReplay(reply))
    ensures var steps := AloneSteps(w, c, key, hash, operationType, plan, finishedAt);
      var (records, r, acted) :=
          CallAlone(backend, w.lease.records, key, hash, operationType, plan, w.lease.clock, finishedAt);
      && Legal(backend, w, steps)
      && var w' := Run(backend, w, steps);
      && w'.lease.records == records && w'.calls == w.calls && w'.lease.executors == w.lease.executors
      && w'.log == w.log + AloneEvents(c, key, hash, plan, r, acted)
  {
    var ask: Step<R> := Ask(c, key, hash, operationType, plan);
    var none: seq<Step<R>> := [];
    AskAlone(backend, w, ask);
    Then(backend, w, ask, Do(backend, w, ask), none);
  }

  /** With nobody interleaving, the steps of one call leave the records and give the answer of the
      sequential program, and run a tool exactly when it does. */
  lemma AloneIsCallAlone<R>(backend: Backend, w: World<R>, c: nat, key: string, hash: Digest, operationType: string,
                            plan: Plan<R>, finishedAt: int)
    requires c !in w.calls && c !in w.lease.executors && w.lease.clock <= finishedAt
    ensures var steps := AloneSteps(w, c, key, hash, operationType, plan, finishedAt);
      var (records, r, acted) :=
          CallAlone(backend, w.lease.records, key, hash, operationType, plan, w.lease.clock, finishedAt);
      && Legal(backend, w, steps)
      && var w' := Run(backend, w, steps);
      && w'.lease.records == records && w'.calls == w.calls && w'.lease.executors == w.lease.executors
      && w'.log == w.log + AloneEvents(c, key, hash, plan, r, acted)
  {
    var reply := Decide(w.lease.records, key, hash, w.lease.clock);
    if reply == Granted || EmptyReplay(reply) {
      AloneWorks(backend, w, c, key, hash, operationType, plan, finishedAt);
    } else {
      AloneRefused(backend, w, c, key, hash, operationType, plan, finishedAt);
    }
  }

  lemma AskAlone<R>(backend: Backend, w: World<R>, s: Step<R>)
    requires Enabled(w, s) && s.Ask?
    ensures var reply := Decide(w.lease.records, s.key, s.hash, w.lease.clock);
      var w1 := Do(backend, w, s);
      && w1.lease.records == Ensure(backend, w.lease.records, s.key, s.hash, s.operationType, w.lease.clock).0
      && w1.lease.clock == w.lease.clock && w1.lease.executors - {s.caller} == w.lease.executors
      && w1.calls - {s.caller} == w.calls
      && (s.caller in w1.lease.executors ==> w1.lease.executors[s.caller].key == s.key)
      && (reply == Granted || EmptyReplay(reply) ==>
           s.caller in w1.calls && w1.calls[s.caller] == Working(s.key, s.hash, s.plan, false) && w1.log == w.log)
      && (!(reply == Granted || EmptyReplay(reply)) ==>
           && w1.calls == w.calls && w1.lease.executors == w.lease.executors
           && w1.log == w.log + if reply.Replay? then [Returned(s.caller, s.key, s.hash, reply.payload.value.result)]
                else [])
  {
    ExecutorsAfter(backend, w, s);
  }
}
