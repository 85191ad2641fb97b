/** The idempotency record as a timed lease, over every run of any number of callers. */
module LeaseProtocol {
  import opened Prelude
  import opened MailRecords
  import opened Idempotency

  /** A granted call that has neither recorded an outcome nor died. */
  datatype Executor = Executor(key: string, hash: Digest, grantedAt: int, leaseStart: int)

  datatype Event<R> =
    | GrantedTo(caller: nat, key: string, hash: Digest)
    | Recorded(caller: nat, key: string, hash: Digest, result: R)
    | RecordedFailure(caller: nat, key: string)
    | Replayed(caller: nat, key: string, hash: Digest, payload: Option<Payload<R>>)
    | Refused(caller: nat, key: string, hash: Digest)

  datatype World<R> = World(records: Records<R>, clock: int, executors: map<nat, Executor>, log: seq<Event<R>>)

  datatype Step<R> =
    | Tick(to: int)
    | EnsureStep(caller: nat, key: string, hash: Digest, operationType: string)
    | CompleteStep(caller: nat, result: R)
    | FailStep(caller: nat, message: string)
    | CrashStep(caller: nat)

  function Start<R>(clock: int): World<R> { World(map[], clock, map[], []) }

  predicate Enabled<R>(w: World<R>, s: Step<R>) {
    match s
    case Tick(to) => to >= w.clock
    case EnsureStep(c, _, _, _) => c !in w.executors
    case CompleteStep(c, _) => c in w.executors
    case FailStep(c, _) => c in w.executors
    case CrashStep(c) => c in w.executors
  }

  function Do<R>(backend: Backend, w: World<R>, s: Step<R>): World<R>
    requires Enabled(w, s)
  {
    match s
    case Tick(to) => w.(clock := to)
    case EnsureStep(c, key, hash, operationType) =>
      var (records, reply) := Ensure(backend, w.records, key, hash, operationType, w.clock);
      (match reply
       case Granted =>
         w.(records := records, log := w.log + [GrantedTo(c, key, hash)],
            executors := w.executors[c := Executor(key, hash, w.clock, LeaseStart(backend, w.records, key, w.clock))])
       case Replay(payload) => w.(log := w.log + [Replayed(c, key, hash, payload)])
       case _ => w.(log := w.log + [Refused(c, key, hash)]))
    case CompleteStep(c, result) =>
      var e := w.executors[c];
      w.(records := RecordOutcome(w.records, e.key, Completed, Value(result), w.clock),
         executors := w.executors - {c}, log := w.log + [Recorded(c, e.key, e.hash, result)])
    case FailStep(c, message) =>
      var e := w.executors[c];
      w.(records := RecordOutcome(w.records, e.key, Failed, Failure(message), w.clock),
         executors := w.executors - {c}, log := w.log + [RecordedFailure(c, e.key)])
    case CrashStep(c) => w.(executors := w.executors - {c})
  }

  /** The lease assumption: nobody is still executing more than one window after its lease began. */
  ghost predicate InLease<R>(w: World<R>) {
    forall c | c in w.executors :: w.clock <= w.executors[c].leaseStart + STALE_IN_PROGRESS_MS
  }

  /** The same counted from the grant itself. */
  ghost predicate PromptSinceGrant<R>(w: World<R>) {
    forall c | c in w.executors :: w.clock <= w.executors[c].grantedAt + STALE_IN_PROGRESS_MS
  }

  predicate Legal<R>(backend: Backend, w: World<R>, steps: seq<Step<R>>)
    decreases steps
  {
    steps == [] || (Enabled(w, steps[0]) && Legal(backend, Do(backend, w, steps[0]), steps[1..]))
  }

  function Run<R>(backend: Backend, w: World<R>, steps: seq<Step<R>>): World<R>
    requires Legal(backend, w, steps)
    decreases steps
  {
    if steps == [] then w else Run(backend, Do(backend, w, steps[0]), steps[1..])
  }

  ghost predicate AlwaysInLease<R>(backend: Backend, w: World<R>, steps: seq<Step<R>>)
    requires Legal(backend, w, steps)
    decreases steps
  {
    InLease(w) && (steps == [] || AlwaysInLease(backend, Do(backend, w, steps[0]), steps[1..]))
  }

  ghost predicate AlwaysPrompt<R>(backend: Backend, w: World<R>, steps: seq<Step<R>>)
    requires Legal(backend, w, steps)
    decreases steps
  {
    PromptSinceGrant(w) && (steps == [] || AlwaysPrompt(backend, Do(backend, w, steps[0]), steps[1..]))
  }

  // ---- Exclusion ----

  ghost predicate Holds<R>(w: World<R>, e: Executor) {
    e.key in w.records && w.records[e.key].status == InProgress
    && w.records[e.key].requestHash == e.hash && w.records[e.key].createdAt == e.leaseStart
  }

  ghost predicate Exclusive<R>(w: World<R>) {
    && (forall c | c in w.executors :: Holds(w, w.executors[c]))
    && (forall c, d | c in w.executors && d in w.executors && c != d :: w.executors[c].key != w.executors[d].key)
  }

  // ---- The log against the records ----

  ghost predicate IsCompleted<R>(w: World<R>, key: string, hash: Digest, result: R) {
    key in w.records && w.records[key].status == Completed
    && w.records[key].requestHash == hash && w.records[key].resultPayload == Some(Value(result))
  }

  /** Completed records, and only they, have their result in the log; it is there once, after every
      grant of its key, and it is what every replay returned. */
  ghost predicate LogAgrees<R>(w: World<R>) {
    && (forall i | 0 <= i < |w.log| && w.log[i].Recorded? ::
         IsCompleted(w, w.log[i].key, w.log[i].hash, w.log[i].result))
    && (forall key | key in w.records && w.records[key].status == Completed ::
         exists i :: 0 <= i < |w.log| && w.log[i].Recorded? && w.log[i].key == key)
    && (forall i, j | 0 <= i < j < |w.log| && w.log[i].Recorded? :: AfterRecorded(w.log[i], w.log[j]))
    && (forall j | 0 <= j < |w.log| && w.log[j].Replayed? :: Backed(w.log, j))
  }

  /** What may follow the recording of a result, for the same key: replays of that very result to the
      same request, and refusals of other requests. */
  predicate AfterRecorded<R(==)>(first: Event<R>, later: Event<R>)
    requires first.Recorded?
  {
    later.key == first.key ==>
      || (later.Replayed? && later.hash == first.hash && later.payload == Some(Value(first.result)))
      || (later.Refused? && later.hash != first.hash)
  }

  ghost predicate Backed<R>(log: seq<Event<R>>, j: int)
    requires 0 <= j < |log| && log[j].Replayed?
  {
    exists i :: 0 <= i < j && log[i].Recorded? && log[i].key == log[j].key && log[i].hash == log[j].hash
      && log[j].payload == Some(Value(log[i].result))
  }

  /** The same request asks for a key while its executor is past its window. */
  ghost predicate Takeover<R>(w: World<R>, s: Step<R>) {
    s.EnsureStep? && exists c :: c in w.executors && Outlived(w, w.executors[c], s.key, s.hash)
  }

  predicate Outlived<R>(w: World<R>, e: Executor, key: string, hash: Digest) {
    e.key == key && e.hash == hash && Stale(e.leaseStart, w.clock)
  }

  /** Two executors hold one key. */
  ghost predicate Shared<R>(w: World<R>) {
    exists c, d :: c in w.executors && d in w.executors && c != d && w.executors[c].key == w.executors[d].key
  }

  lemma ExclusiveKept<R>(backend: Backend, w: World<R>, s: Step<R>)
    requires Exclusive(w) && !Takeover(w, s) && Enabled(w, s)
    ensures Exclusive(Do(backend, w, s))
  {
    var w' := Do(backend, w, s);
    forall c | c in w'.executors ensures Holds(w', w'.executors[c]) {
      if c in w.executors { assert Holds(w, w.executors[c]); }
    }
    forall c, d | c in w'.executors && d in w'.executors && c != d ensures w'.executors[c].key != w'.executors[d].key {
      if c in w.executors { assert Holds(w, w.executors[c]); }
      if d in w.executors { assert Holds(w, w.executors[d]); }
    }
  }

  lemma CompletedFrozen<R>(backend: Backend, w: World<R>, s: Step<R>, key: string)
    requires Exclusive(w) && Enabled(w, s) && key in w.records && w.records[key].status == Completed
    ensures key in Do(backend, w, s).records && Do(backend, w, s).records[key] == w.records[key]
  {
    if s.CompleteStep? || s.FailStep? { assert Holds(w, w.executors[s.caller]); }
  }

  lemma LogKept<R>(backend: Backend, w: World<R>, s: Step<R>)
    requires Exclusive(w) && LogAgrees(w) && Enabled(w, s)
    ensures LogAgrees(Do(backend, w, s))
  {
    var w' := Do(backend, w, s);
    forall i | 0 <= i < |w'.log| && w'.log[i].Recorded?
      ensures IsCompleted(w', w'.log[i].key, w'.log[i].hash, w'.log[i].result)
    {
      if i < |w.log| {
        assert IsCompleted(w, w.log[i].key, w.log[i].hash, w.log[i].result);
        CompletedFrozen(backend, w, s, w.log[i].key);
      } else {
        assert Holds(w, w.executors[s.caller]);
      }
    }
    CompletedLogged(backend, w, s);
    NewEventFits(backend, w, s);
  }

  lemma CompletedLogged<R>(backend: Backend, w: World<R>, s: Step<R>)
    requires Exclusive(w) && LogAgrees(w) && Enabled(w, s)
    ensures var w' := Do(backend, w, s);
      forall key | key in w'.records && w'.records[key].status == Completed ::
          exists i :: 0 <= i < |w'.log| && w'.log[i].Recorded? && w'.log[i].key == key
  {
    var w' := Do(backend, w, s);
    forall key | key in w'.records && w'.records[key].status == Completed
      ensures exists i :: 0 <= i < |w'.log| && w'.log[i].Recorded? && w'.log[i].key == key
    {
      if key in w.records && w.records[key].status == Completed {
        var i :| 0 <= i < |w.log| && w.log[i].Recorded? && w.log[i].key == key;
        assert w'.log[i] == w.log[i];
      } else {
        assert w'.log[|w.log|].Recorded? && w'.log[|w.log|].key == key;
      }
    }
  }

  lemma NewEventFits<R>(backend: Backend, w: World<R>, s: Step<R>)
    requires Exclusive(w) && LogAgrees(w) && Enabled(w, s)
    ensures var log := Do(backend, w, s).log;
      && (forall i, j | 0 <= i < j < |log| && log[i].Recorded? :: AfterRecorded(log[i], log[j]))
      && (forall j | 0 <= j < |log| && log[j].Replayed? :: Backed(log, j))
  {
    var log := Do(backend, w, s).log;
    assert w.log == log[..|w.log|];
    forall i, j | 0 <= i < j < |log| && log[i].Recorded? ensures AfterRecorded(log[i], log[j]) {
      if j == |w.log| {
        assert IsCompleted(w, w.log[i].key, w.log[i].hash, w.log[i].result);
        if s.CompleteStep? || s.FailStep? { assert Holds(w, w.executors[s.caller]); }
      } else {
        assert AfterRecorded(w.log[i], w.log[j]);
      }
    }
    forall j | 0 <= j < |log| && log[j].Replayed? ensures Backed(log, j) {
      if j < |w.log| {
        assert Backed(w.log, j);
      } else {
        var i :| 0 <= i < |w.log| && w.log[i].Recorded? && w.log[i].key == log[j].key;
        assert IsCompleted(w, w.log[i].key, w.log[i].hash, w.log[i].result);
        assert log[i] == w.log[i];
      }
    }
  }

  /** Some step of the run is a takeover. */
  ghost predicate EverTakeover<R>(backend: Backend, w: World<R>, steps: seq<Step<R>>)
    requires Legal(backend, w, steps)
    decreases steps
  {
    steps != [] && (Takeover(w, steps[0]) || EverTakeover(backend, Do(backend, w, steps[0]), steps[1..]))
  }

  /** At some moment of the run two executors hold one key. */
  ghost predicate EverShared<R>(backend: Backend, w: World<R>, steps: seq<Step<R>>)
    requires Legal(backend, w, steps)
    decreases steps
  {
    Shared(w) || (steps != [] && EverShared(backend, Do(backend, w, steps[0]), steps[1..]))
  }

  /** One step, on either backend: while keys are held by one executor each, the next step has two
      executors hold one key if and only if it is a takeover. */
  lemma SharedIffTakeover<R>(backend: Backend, w: World<R>, s: Step<R>)
    requires Exclusive(w) && Enabled(w, s)
    ensures Shared(Do(backend, w, s)) <==> Takeover(w, s)
  {
    var w' := Do(backend, w, s);
    if Takeover(w, s) {
      var c :| c in w.executors && Outlived(w, w.executors[c], s.key, s.hash);
      assert Holds(w, w.executors[c]);
      assert c in w'.executors && s.caller in w'.executors && c != s.caller
          && w'.executors[c].key == w'.executors[s.caller].key;
    } else {
      ExclusiveKept(backend, w, s);
    }
  }

  /** Over whole runs: exclusion is lost if and only if some step is a takeover, and it is the first such
      step that loses it. */
  lemma {:induction false} ExclusionLostIff<R>(backend: Backend, w: World<R>, steps: seq<Step<R>>)
    requires Exclusive(w) && Legal(backend, w, steps)
    ensures EverShared(backend, w, steps) <==> EverTakeover(backend, w, steps)
    decreases steps
  {
    if steps == [] {
    } else {
      var w1 := Do(backend, w, steps[0]);
      SharedIffTakeover(backend, w, steps[0]);
      if Takeover(w, steps[0]) {
        assert EverShared(backend, w1, steps[1..]);
      } else {
        ExclusiveKept(backend, w, steps[0]);
        ExclusionLostIff(backend, w1, steps[1..]);
      }
    }
  }

  lemma InLeaseNoTakeover<R>(w: World<R>, s: Step<R>)
    requires InLease(w)
    ensures !Takeover(w, s)
  {
  }

  lemma {:induction false} NeverTakenOver<R>(backend: Backend, w: World<R>, steps: seq<Step<R>>)
    requires Legal(backend, w, steps) && AlwaysInLease(backend, w, steps)
    ensures !EverTakeover(backend, w, steps)
    decreases steps
  {
    if steps == [] {
    } else {
      InLeaseNoTakeover(w, steps[0]);
      NeverTakenOver(backend, Do(backend, w, steps[0]), steps[1..]);
    }
  }

  // ---- Completed records ----

  /** Some step of the run changes a completed record. */
  ghost predicate EverOverwritten<R>(backend: Backend, w: World<R>, steps: seq<Step<R>>)
    requires Legal(backend, w, steps)
    decreases steps
  {
    steps != [] && (Overwrites(w, Do(backend, w, steps[0]))
        || EverOverwritten(backend, Do(backend, w, steps[0]), steps[1..]))
  }

  ghost predicate Overwrites<R>(w: World<R>, w': World<R>) {
    exists key :: key in w.records && w.records[key].status == Completed
        && !(key in w'.records && w'.records[key] == w.records[key])
  }

  /** Without a takeover nothing overwrites a recorded result. */
  lemma {:induction false} OverwriteNeedsTakeover<R>(backend: Backend, w: World<R>, steps: seq<Step<R>>)
    requires Exclusive(w) && Legal(backend, w, steps) && EverOverwritten(backend, w, steps)
    ensures EverTakeover(backend, w, steps)
    decreases steps
  {
    var w1 := Do(backend, w, steps[0]);
    if Takeover(w, steps[0]) {
    } else {
      if Overwrites(w, w1) {
        var key :| key in w.records && w.records[key].status == Completed
            && !(key in w1.records && w1.records[key] == w.records[key]);
        CompletedFrozen(backend, w, steps[0], key);
      } else {
        ExclusiveKept(backend, w, steps[0]);
        OverwriteNeedsTakeover(backend, w1, steps[1..]);
      }
    }
  }

  /** Every executor works on a record that exists. */
  ghost predicate Recordable<R>(w: World<R>) {
    forall c | c in w.executors :: w.executors[c].key in w.records
  }

  /** And once two executors hold one key, they can do it without any further grant: one records its
      result, the other fails. */
  lemma SharedCanOverwrite<R>(backend: Backend, w: World<R>, result: R, message: string) returns (steps: seq<Step<R>>)
    requires Shared(w) && Recordable(w)
    ensures |steps| == 2 && steps[0].CompleteStep? && steps[1].FailStep?
    ensures Legal(backend, w, steps) && EverOverwritten(backend, w, steps)
  {
    var c, d :| c in w.executors && d in w.executors && c != d && w.executors[c].key == w.executors[d].key;
    var key := w.executors[c].key;
    var complete: Step<R>, fail: Step<R> := CompleteStep(c, result), FailStep(d, message);
    steps := [complete, fail];
    var w1 := Do(backend, w, complete);
    var w2 := Do(backend, w1, fail);
    assert key in w1.records && w1.records[key].status == Completed && w2.records[key].status == Failed;
    assert Overwrites(w1, w2);
    assert steps[1..] == [fail] && [fail][1..] == [];
    assert Legal(backend, w1, [fail]) && EverOverwritten(backend, w1, [fail]);
  }

  lemma {:induction false} RecordableAlways<R>(backend: Backend, w: World<R>, steps: seq<Step<R>>)
    requires Recordable(w) && Legal(backend, w, steps)
    ensures Recordable(Run(backend, w, steps))
    decreases steps
  {
    if steps == [] {
    } else {
      RecordableAlways(backend, Do(backend, w, steps[0]), steps[1..]);
    }
  }

  lemma {:induction false} InvariantsAlways<R>(backend: Backend, w: World<R>, steps: seq<Step<R>>)
    requires Exclusive(w) && LogAgrees(w) && Legal(backend, w, steps) && !EverTakeover(backend, w, steps)
    ensures Exclusive(Run(backend, w, steps)) && LogAgrees(Run(backend, w, steps))
    decreases steps
  {
    if steps == [] {
    } else {
      ExclusiveKept(backend, w, steps[0]);
      LogKept(backend, w, steps[0]);
      InvariantsAlways(backend, Do(backend, w, steps[0]), steps[1..]);
    }
  }

  /** On either backend, in every run that keeps the lease: a key has at most one executor, a recorded
      result is final, and after it the same request gets exactly that result and any other is refused. */
  lemma LeaseExclusionAndStableReplay<R>(backend: Backend, clock: int, steps: seq<Step<R>>)
    requires Legal(backend, Start<R>(clock), steps) && AlwaysInLease(backend, Start<R>(clock), steps)
    ensures var w := Run(backend, Start<R>(clock), steps);
      && (forall c, d | c in w.executors && d in w.executors && w.executors[c].key == w.executors[d].key :: c == d)
      && (forall i, j | 0 <= i < j < |w.log| && w.log[i].Recorded? :: AfterRecorded(w.log[i], w.log[j]))
      && (forall j | 0 <= j < |w.log| && w.log[j].Replayed? :: Backed(w.log, j))
      && (forall i | 0 <= i < |w.log| && w.log[i].Recorded? ::
           IsCompleted(w, w.log[i].key, w.log[i].hash, w.log[i].result))
  {
    NeverTakenOver(backend, Start<R>(clock), steps);
    InvariantsAlways(backend, Start<R>(clock), steps);
  }

  // ---- The durable lease starts with its grant ----

  ghost predicate LeasesStartAtGrant<R>(w: World<R>) {
    forall c | c in w.executors :: w.executors[c].leaseStart == w.executors[c].grantedAt
  }

  lemma {:induction false} PromptMeansInLease<R>(w: World<R>, steps: seq<Step<R>>)
    requires LeasesStartAtGrant(w) && Legal(Durable, w, steps) && AlwaysPrompt(Durable, w, steps)
    ensures AlwaysInLease(Durable, w, steps)
    decreases steps
  {
    if steps == [] {
    } else {
      PromptMeansInLease(Do(Durable, w, steps[0]), steps[1..]);
    }
  }

  /** On the durable path it is enough that every executor records within one window of its own grant. */
  lemma DurableLeaseExclusion<R>(clock: int, steps: seq<Step<R>>)
    requires Legal(Durable, Start<R>(clock), steps) && AlwaysPrompt(Durable, Start<R>(clock), steps)
    ensures var w := Run(Durable, Start<R>(clock), steps);
      && (forall c, d | c in w.executors && d in w.executors && w.executors[c].key == w.executors[d].key :: c == d)
      && (forall i, j | 0 <= i < j < |w.log| && w.log[i].Recorded? :: AfterRecorded(w.log[i], w.log[j]))
      && (forall j | 0 <= j < |w.log| && w.log[j].Replayed? :: Backed(w.log, j))
  {
    PromptMeansInLease(Start<R>(clock), steps);
    LeaseExclusionAndStableReplay(Durable, clock, steps);
  }

  // ---- Both assumptions are needed ----

  /** An executor that outlives its window and then fails overwrites the result another one recorded. */
  lemma LateFailureOverwrites<R>(key: string, hash: Digest, result: R, message: string) returns (steps: seq<Step<R>>)
    ensures Legal(Durable, Start<R>(0), steps)
    ensures var w := Run(Durable, Start<R>(0), steps);
      && Recorded(2, key, hash, result) in w.log
      && key in w.records && w.records[key].status == Failed && w.records[key].resultPayload == Some(Failure(message))
  {
    var e1: Step<R>, e2: Step<R> := EnsureStep(1, key, hash, "op"), EnsureStep(2, key, hash, "op");
    var late: Step<R> := Tick(STALE_IN_PROGRESS_MS + 1);
    steps := [e1, late, e2, CompleteStep(2, result), FailStep(1, message)];
    var w1 := Do(Durable, Start<R>(0), e1);
    var w2 := Do(Durable, w1, late);
    var w3 := Do(Durable, w2, e2);
    assert w3.executors.Keys == {1, 2};
    var w4 := Do(Durable, w3, CompleteStep(2, result));
    var w5 := Do(Durable, w4, FailStep(1, message));
    FiveSteps(Durable, Start<R>(0), steps, w1, w2, w3, w4, w5);
    assert w5.log[2] == Recorded(2, key, hash, result);
  }

  lemma FiveSteps<R>(backend: Backend, w: World<R>, s: seq<Step<R>>, w1: World<R>, w2: World<R>, w3: World<R>,
                     w4: World<R>, w5: World<R>)
    requires |s| == 5 && Enabled(w, s[0]) && w1 == Do(backend, w, s[0]) && Enabled(w1, s[1])
    requires w2 == Do(backend, w1, s[1])
    requires Enabled(w2, s[2]) && w3 == Do(backend, w2, s[2]) && Enabled(w3, s[3]) && w4 == Do(backend, w3, s[3])
    requires Enabled(w4, s[4]) && w5 == Do(backend, w4, s[4])
    ensures Legal(backend, w, s) && Run(backend, w, s) == w5
  {
    var t1, t2, t3, t4 := s[1..], s[2..], s[3..], s[4..];
    assert t1[1..] == t2 && t2[1..] == t3 && t3[1..] == t4 && t4[1..] == [];
    assert Legal(backend, w4, t4) && Run(backend, w4, t4) == w5;
    assert Legal(backend, w3, t3) && Run(backend, w3, t3) == w5;
    assert Legal(backend, w2, t2) && Run(backend, w2, t2) == w5;
    assert Legal(backend, w1, t1) && Run(backend, w1, t1) == w5;
  }

  /** In memory a retry after a failure inherits the old instant: once that is a window old, two callers
      are granted the same key at the same moment, each as prompt as can be. */
  lemma InMemoryRetryGrantedTwice<R>(key: string, hash: Digest, message: string) returns (steps: seq<Step<R>>)
    ensures Legal(InMemory, Start<R>(0), steps) && AlwaysPrompt(InMemory, Start<R>(0), steps)
    ensures var w := Run(InMemory, Start<R>(0), steps);
      1 in w.executors && 2 in w.executors && w.executors[1].key == w.executors[2].key == key
  {
    var e0: Step<R>, e1: Step<R>, e2: Step<R> :=
        EnsureStep(0, key, hash, "op"), EnsureStep(1, key, hash, "op"), EnsureStep(2, key, hash, "op");
    var late: Step<R> := Tick(STALE_IN_PROGRESS_MS + 1);
    steps := [e0, FailStep(0, message), late, e1, e2];
    var w := Start<R>(0);
    var w1 := Do(InMemory, w, e0);
    var w2 := Do(InMemory, w1, FailStep(0, message));
    var w3 := Do(InMemory, w2, late);
    var w4 := Do(InMemory, w3, e1);
    var w5 := Do(InMemory, w4, e2);
    FiveSteps(InMemory, w, steps, w1, w2, w3, w4, w5);
    assert PromptSinceGrant(w) && PromptSinceGrant(w1) && PromptSinceGrant(w2) && PromptSinceGrant(w3)
        && PromptSinceGrant(w4) && PromptSinceGrant(w5);
    FivePrompt(InMemory, w, steps, w1, w2, w3, w4, w5);
  }

  lemma FivePrompt<R>(backend: Backend, w: World<R>, s: seq<Step<R>>, w1: World<R>, w2: World<R>, w3: World<R>,
                      w4: World<R>, w5: World<R>)
    requires |s| == 5 && Enabled(w, s[0]) && w1 == Do(backend, w, s[0]) && Enabled(w1, s[1])
    requires w2 == Do(backend, w1, s[1])
    requires Enabled(w2, s[2]) && w3 == Do(backend, w2, s[2]) && Enabled(w3, s[3]) && w4 == Do(backend, w3, s[3])
    requires Enabled(w4, s[4]) && w5 == Do(backend, w4, s[4]) && Legal(backend, w, s)
    requires PromptSinceGrant(w) && PromptSinceGrant(w1) && PromptSinceGrant(w2) && PromptSinceGrant(w3)
    requires PromptSinceGrant(w4) && PromptSinceGrant(w5)
    ensures AlwaysPrompt(backend, w, s)
  {
    var t1, t2, t3, t4 := s[1..], s[2..], s[3..], s[4..];
    assert t1[1..] == t2 && t2[1..] == t3 && t3[1..] == t4 && t4[1..] == [];
    assert AlwaysPrompt(backend, w4, t4);
    assert AlwaysPrompt(backend, w3, t3);
    assert AlwaysPrompt(backend, w2, t2);
    assert AlwaysPrompt(backend, w1, t1);
  }
}
