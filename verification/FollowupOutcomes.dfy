/** Follow-up outcomes: a process-local index of the latest outcome beside a durable append-only log. */
module FollowupOutcomes {
  import opened Prelude
  import opened MailRecords
  import opened TenantScopedStore
  import opened Grouping

  datatype Status = Detected | Drafted | Approved | Sent | Escalated | Dismissed

  datatype FollowupOutcome = FollowupOutcome(taskId: string, threadId: string, status: Status, rest: string)

  function AllowedTransitions(status: Status): seq<Status> {
    match status
    case Detected => [Drafted, Dismissed, Escalated]
    case Drafted => [Approved, Dismissed, Escalated]
    case Approved => [Status.Sent, Escalated]
    case _ => []
  }

  /** Which status may follow which: one is drafted once detected, approved once drafted and sent once approved;
      what is not approved yet can be dismissed, what is not over can be escalated, and nothing follows an end. */
  lemma FollowsIff(status: Status, next: Status)
    ensures next in AllowedTransitions(status) <==>
      match next
      case Detected => false
      case Drafted => status == Detected
      case Approved => status == Drafted
      case Sent => status == Approved
      case Dismissed => status == Detected || status == Drafted
      case Escalated => status == Detected || status == Drafted || status == Approved
  {
  }

  function Key(taskId: string, threadId: string): string {
    taskId + ":" + threadId
  }

  function LogScope(scope: Option<TenantScope>): TenantScope {
    scope.GetOr(TenantScope(LEGACY_BUCKET, LEGACY_BUCKET))
  }

  /** The log of unscoped calls is that of the scope named like it, and of no other. */
  lemma LogScopesAgreeIff(a: Option<TenantScope>, b: Option<TenantScope>)
    ensures LogScope(a) == LogScope(b)
        <==> a == b || (a in {None, Some(TenantScope("__legacy__", "__legacy__"))}
                        && b in {None, Some(TenantScope("__legacy__", "__legacy__"))})
  {
  }

  /** A map with its insertion order. */
  datatype Bucket = Bucket(order: seq<string>, entries: map<string, FollowupOutcome>)

  const EMPTY := Bucket([], map[])

  predicate WellOrdered(b: Bucket) {
    (forall k | k in b.order :: k in b.entries) && forall k | k in b.entries :: k in b.order
  }

  function Put(b: Bucket, key: string, outcome: FollowupOutcome): Bucket {
    Bucket(if key in b.entries then b.order else b.order + [key], b.entries[key := outcome])
  }

  // ---- Histories ----

  /** `logged` and `logCleared` say whether the durable log took part. */
  datatype Event =
    | Accepted(scope: Option<TenantScope>, outcome: FollowupOutcome, logged: bool)
    | Cleared(scope: Option<TenantScope>, logCleared: bool)

  function AcceptedAfter(before: seq<FollowupOutcome>, e: Event, bucket: string): seq<FollowupOutcome> {
    if ScopeBucketKey(e.scope) != bucket then before
    else if e.Accepted? then before + [e.outcome] else []
  }

  /** What a bucket has accepted since it was last cleared. */
  function AcceptedIn(history: seq<Event>, bucket: string): seq<FollowupOutcome> {
    if history == [] then []
    else AcceptedAfter(AcceptedIn(history[..|history| - 1], bucket), history[|history| - 1], bucket)
  }

  function LoggedAfter(before: seq<FollowupOutcome>, e: Event, scope: TenantScope): seq<FollowupOutcome> {
    if LogScope(e.scope) != scope then before
    else if e.Accepted? then (if e.logged then before + [e.outcome] else before)
    else if e.logCleared then [] else before
  }

  /** What a log holds, given what it held when the process started. */
  function LoggedIn(history: seq<Event>, scope: TenantScope, prior: seq<FollowupOutcome>): seq<FollowupOutcome> {
    if history == [] then prior
    else LoggedAfter(LoggedIn(history[..|history| - 1], scope, prior), history[|history| - 1], scope)
  }

  function OfKey(outcomes: seq<FollowupOutcome>, key: string): seq<FollowupOutcome> {
    if outcomes == [] then []
    else
      var o := outcomes[|outcomes| - 1];
      OfKey(outcomes[..|outcomes| - 1], key) + if Key(o.taskId, o.threadId) == key then [o] else []
  }

  function LastOf(outcomes: seq<FollowupOutcome>, key: string): Option<FollowupOutcome> {
    var mine := OfKey(outcomes, key);
    if mine == [] then None else Some(mine[|mine| - 1])
  }

  predicate MayFollow(current: Option<FollowupOutcome>, next: FollowupOutcome) {
    current.Some? ==> next.status in AllowedTransitions(current.value.status)
  }

  predicate Path(outcomes: seq<FollowupOutcome>) {
    forall i | 0 < i < |outcomes| :: outcomes[i].status in AllowedTransitions(outcomes[i - 1].status)
  }

  predicate LawfulNext(history: seq<Event>, e: Event) {
    e.Accepted? ==>
      MayFollow(LastOf(AcceptedIn(history, ScopeBucketKey(e.scope)), Key(e.outcome.taskId, e.outcome.threadId)),
          e.outcome)
  }

  /** Each accepted outcome was allowed by the one its key had at that moment. */
  ghost predicate Lawful(history: seq<Event>) {
    forall i | 0 <= i < |history| :: LawfulNext(history[..i], history[i])
  }

  lemma LawfulPrefix(history: seq<Event>, n: nat)
    requires Lawful(history) && n <= |history|
    ensures Lawful(history[..n])
  {
    forall i | 0 <= i < n ensures history[..n][..i] == history[..i] {
    }
  }

  lemma OfKeyGrows(outcomes: seq<FollowupOutcome>, o: FollowupOutcome, key: string)
    ensures OfKey(outcomes + [o], key)
        == if Key(o.taskId, o.threadId) == key then OfKey(outcomes, key) + [o] else OfKey(outcomes, key)
  {
    assert (outcomes + [o])[..|outcomes|] == outcomes;
  }

  lemma PathGrows(outcomes: seq<FollowupOutcome>, o: FollowupOutcome)
    requires Path(outcomes) && MayFollow(if outcomes == [] then None else Some(outcomes[|outcomes| - 1]), o)
    ensures Path(outcomes + [o])
  {
  }

  /** In every lawful history, whatever buckets, clears and failed appends are mixed in, the statuses one key
      went through since its bucket was cleared form a path of the transition graph. */
  lemma {:induction false} StatusesFormAPath(history: seq<Event>, bucket: string, key: string)
    requires Lawful(history)
    ensures Path(OfKey(AcceptedIn(history, bucket), key))
  {
    if history == [] {
    } else {
      var n := |history| - 1;
      LawfulPrefix(history, n);
      StatusesFormAPath(history[..n], bucket, key);
      EventKeepsPath(AcceptedIn(history[..n], bucket), history[n], bucket, key);
    }
  }

  lemma EventKeepsPath(before: seq<FollowupOutcome>, e: Event, bucket: string, key: string)
    requires Path(OfKey(before, key))
    requires e.Accepted? && ScopeBucketKey(e.scope) == bucket && Key(e.outcome.taskId, e.outcome.threadId) == key ==>
        MayFollow(LastOf(before, key), e.outcome)
    ensures Path(OfKey(AcceptedAfter(before, e, bucket), key))
  {
    if e.Accepted? && ScopeBucketKey(e.scope) == bucket {
      OfKeyGrows(before, e.outcome, key);
      if Key(e.outcome.taskId, e.outcome.threadId) == key { PathGrows(OfKey(before, key), e.outcome); }
    }
  }

  function Rank(status: Status): nat {
    match status
    case Detected => 0
    case Drafted => 1
    case Approved => 2
    case _ => 3
  }

  lemma {:induction false} RanksRise(outcomes: seq<FollowupOutcome>, i: nat, j: nat)
    requires Path(outcomes) && i <= j < |outcomes|
    ensures Rank(outcomes[j].status) >= Rank(outcomes[i].status) + (j - i)
  {
    if i == j {
    } else {
      RanksRise(outcomes, i, j - 1);
      assert outcomes[j].status in AllowedTransitions(outcomes[j - 1].status);
    }
  }

  /** Nothing is sent that was not approved just before, nor approved that was not drafted, and an end is the
      end. Only the very first status of a path is free. */
  lemma SentOnlyAfterApproval(outcomes: seq<FollowupOutcome>, i: nat)
    requires Path(outcomes) && i + 1 < |outcomes|
    ensures outcomes[i + 1].status == Status.Sent ==> outcomes[i].status == Approved
    ensures outcomes[i + 1].status == Approved ==> outcomes[i].status == Drafted
    ensures outcomes[i].status !in {Status.Sent, Escalated, Dismissed} && outcomes[i + 1].status != Detected
  {
    FollowsIff(outcomes[i].status, outcomes[i + 1].status);
    assert outcomes[i + 1].status in AllowedTransitions(outcomes[i].status);
  }

  /** The graph has no cycle: a path has at most four steps and never repeats a status. */
  lemma PathsAreShort(outcomes: seq<FollowupOutcome>)
    requires Path(outcomes)
    ensures |outcomes| <= 4 && forall i, j | 0 <= i < j < |outcomes| :: outcomes[i].status != outcomes[j].status
  {
    if outcomes != [] { RanksRise(outcomes, 0, |outcomes| - 1); }
    forall i, j | 0 <= i < j < |outcomes| ensures outcomes[i].status != outcomes[j].status {
      RanksRise(outcomes, i, j);
    }
  }

  // ---- The tracker ----

  datatype TrackError = IllegalTransition | AppendFailed

  function KindOf(o: FollowupOutcome): (string, string, Status) {
    (o.taskId, o.threadId, o.status)
  }

  predicate SameOutcome(a: FollowupOutcome, b: FollowupOutcome) {
    KindOf(a) == KindOf(b)
  }

  type Stores = map<string, Bucket>
  type Logs = map<TenantScope, seq<FollowupOutcome>>

  function BucketAt(stores: Stores, bucket: string): Bucket {
    if bucket in stores then stores[bucket] else EMPTY
  }

  function LogAt(logs: Logs, scope: TenantScope): seq<FollowupOutcome> {
    if scope in logs then logs[scope] else []
  }

  function Current(b: Bucket, key: string): Option<FollowupOutcome> {
    if key in b.entries then Some(b.entries[key]) else None
  }

  ghost predicate InIndex(o: FollowupOutcome, b: Bucket) {
    exists key :: Current(b, key) == Some(o)
  }

  ghost predicate BucketAgrees(b: Bucket, accepted: seq<FollowupOutcome>) {
    WellOrdered(b) && forall key :: Current(b, key) == LastOf(accepted, key)
  }

  /** The index holds each key's last accepted outcome, and the logs what was appended to them. */
  ghost predicate Agrees(stores: Stores, logs: Logs, history: seq<Event>, prior: Logs) {
    && Lawful(history)
    && (forall bucket :: BucketAgrees(BucketAt(stores, bucket), AcceptedIn(history, bucket)))
    && (forall scope :: LogAt(logs, scope) == LoggedIn(history, scope, LogAt(prior, scope)))
  }

  lemma CurrentIsLast(stores: Stores, logs: Logs, history: seq<Event>, prior: Logs, bucket: string, key: string)
    requires Agrees(stores, logs, history, prior)
    ensures Current(BucketAt(stores, bucket), key) == LastOf(AcceptedIn(history, bucket), key)
  {
    assert BucketAgrees(BucketAt(stores, bucket), AcceptedIn(history, bucket));
  }

  lemma HistoryGrows(history: seq<Event>, e: Event)
    ensures forall bucket :: AcceptedIn(history + [e], bucket) == AcceptedAfter(AcceptedIn(history, bucket), e, bucket)
    ensures forall scope, prior ::
        LoggedIn(history + [e], scope, prior) == LoggedAfter(LoggedIn(history, scope, prior), e, scope)
    ensures Lawful(history) && LawfulNext(history, e) ==> Lawful(history + [e])
  {
    assert (history + [e])[..|history|] == history;
    assert forall i | 0 <= i < |history| :: (history + [e])[..i] == history[..i];
  }

  lemma PutAgrees(b: Bucket, accepted: seq<FollowupOutcome>, o: FollowupOutcome)
    requires BucketAgrees(b, accepted)
    ensures BucketAgrees(Put(b, Key(o.taskId, o.threadId), o), accepted + [o])
  {
    var b' := Put(b, Key(o.taskId, o.threadId), o);
    forall key ensures Current(b', key) == LastOf(accepted + [o], key) {
      OfKeyGrows(accepted, o, key);
      assert Current(b, key) == LastOf(accepted, key);
    }
  }

  lemma AcceptAgrees(stores: Stores, logs: Logs, history: seq<Event>, prior: Logs, e: Event, stores': Stores,
                     logs': Logs)
    requires Agrees(stores, logs, history, prior) && e.Accepted? && LawfulNext(history, e)
    requires var bucket := ScopeBucketKey(e.scope);
      stores' == stores[bucket := Put(BucketAt(stores, bucket), Key(e.outcome.taskId, e.outcome.threadId), e.outcome)]
    requires logs' == if e.logged then logs[LogScope(e.scope) := LogAt(logs, LogScope(e.scope)) + [e.outcome]] else logs
    ensures Agrees(stores', logs', history + [e], prior)
  {
    HistoryGrows(history, e);
    forall bucket ensures BucketAgrees(BucketAt(stores', bucket), AcceptedIn(history + [e], bucket)) {
      AcceptAgreesAt(BucketAt(stores, bucket), AcceptedIn(history, bucket), e, bucket);
    }
    forall scope ensures LogAt(logs', scope) == LoggedIn(history + [e], scope, LogAt(prior, scope)) {
      AppendAgreesAt(logs, LoggedIn(history, scope, LogAt(prior, scope)), e, logs', scope);
    }
  }

  lemma AppendAgreesAt(logs: Logs, logged: seq<FollowupOutcome>, e: Event, logs': Logs, scope: TenantScope)
    requires e.Accepted? && LogAt(logs, scope) == logged
    requires logs' == if e.logged then logs[LogScope(e.scope) := LogAt(logs, LogScope(e.scope)) + [e.outcome]] else logs
    ensures LogAt(logs', scope) == LoggedAfter(logged, e, scope)
  {
  }

  lemma AcceptAgreesAt(b: Bucket, accepted: seq<FollowupOutcome>, e: Event, bucket: string)
    requires BucketAgrees(b, accepted) && e.Accepted?
    ensures BucketAgrees(if ScopeBucketKey(e.scope) == bucket
        then Put(b, Key(e.outcome.taskId, e.outcome.threadId), e.outcome) else b,
      AcceptedAfter(accepted, e, bucket))
  {
    PutAgrees(b, accepted, e.outcome);
  }

  lemma ClearAgrees(stores: Stores, logs: Logs, history: seq<Event>, prior: Logs, e: Event, stores': Stores,
                    logs': Logs)
    requires Agrees(stores, logs, history, prior) && e.Cleared?
    requires stores' == stores[ScopeBucketKey(e.scope) := EMPTY]
    requires logs' == if e.logCleared then logs - {LogScope(e.scope)} else logs
    ensures Agrees(stores', logs', history + [e], prior)
  {
    HistoryGrows(history, e);
    forall bucket ensures BucketAgrees(BucketAt(stores', bucket), AcceptedIn(history + [e], bucket)) {
      assert BucketAgrees(BucketAt(stores, bucket), AcceptedIn(history, bucket));
    }
    forall scope ensures LogAt(logs', scope) == LoggedIn(history + [e], scope, LogAt(prior, scope)) {
      assert LogAt(logs, scope) == LoggedIn(history, scope, LogAt(prior, scope));
    }
  }

  /** The first of each kind, index before log. */
  ghost predicate ListedFrom(b: Bucket, log: seq<FollowupOutcome>, listed: seq<FollowupOutcome>) {
    WellOrdered(b) && exists firsts :: KeepsFirsts(Values(b) + log, |Values(b) + log|, listed, firsts)
  }

  class OutcomeTracker {
    var outcomeStores: Stores
    var logs: Logs
    ghost var history: seq<Event>
    ghost const prior: Logs

    constructor (logs: Logs)
      ensures Valid() && history == [] && prior == logs
    {
      outcomeStores, this.logs := map[], logs;
      history, prior := [], logs;
    }

    ghost predicate Valid()
      reads this
    {
      Agrees(outcomeStores, logs, history, prior)
    }

    /** The bucket of a scope, opened empty at its first use. */
    method OpenBucket(scope: Option<TenantScope>) returns (bucket: Bucket)
      requires Valid()
      modifies this`outcomeStores
      ensures Valid() && outcomeStores == old(outcomeStores)[ScopeBucketKey(scope) := bucket]
      ensures bucket == old(BucketAt(outcomeStores, ScopeBucketKey(scope)))
    {
      var key := ScopeBucketKey(scope);
      if key !in outcomeStores {
        outcomeStores := outcomeStores[key := EMPTY];
      }
      bucket := outcomeStores[key];
      assert outcomeStores == old(outcomeStores)[key := bucket];
      assert forall k :: BucketAt(outcomeStores, k) == old(BucketAt(outcomeStores, k));
    }

    method TrackFollowupOutcome(outcome: FollowupOutcome, scope: Option<TenantScope>, appendWorks: bool)
      returns (r: Result<FollowupOutcome, TrackError>)
      requires Valid()
      modifies this
      ensures Valid()
      ensures var allowed := MayFollow(LastOf(AcceptedIn(old(history), ScopeBucketKey(scope)),
          Key(outcome.taskId, outcome.threadId)), outcome);
        && (r == Err(IllegalTransition) <==> !allowed)
        && (r == Err(AppendFailed) <==> allowed && !appendWorks)
        && (r.Ok? ==> r.value == outcome)
        && history == if allowed then old(history) + [Accepted(scope, outcome, appendWorks)] else old(history)
    {
      var store := OpenBucket(scope);
      ghost var stores, logs0 := outcomeStores, logs;
      var key := Key(outcome.taskId, outcome.threadId);
      CurrentIsLast(stores, logs, history, prior, ScopeBucketKey(scope), key);
      if key in store.entries && outcome.status !in AllowedTransitions(store.entries[key].status) {
        return Err(IllegalTransition);
      }
      ghost var e := Accepted(scope, outcome, appendWorks);
      outcomeStores := outcomeStores[ScopeBucketKey(scope) := Put(store, key, outcome)];
      if appendWorks {
        logs := logs[LogScope(scope) := LogAt(logs, LogScope(scope)) + [outcome]];
      }
      AcceptAgrees(stores, logs0, history, prior, e, outcomeStores, logs);
      history := history + [e];
      return if appendWorks then Ok(outcome) else Err(AppendFailed);
    }

    method GetTrackedFollowupOutcome(taskId: string, threadId: string, scope: Option<TenantScope>)
      returns (r: Option<FollowupOutcome>)
      requires Valid()
      modifies this`outcomeStores
      ensures Valid()
      ensures r == LastOf(AcceptedIn(history, ScopeBucketKey(scope)), Key(taskId, threadId))
    {
      var store := OpenBucket(scope);
      var key := Key(taskId, threadId);
      CurrentIsLast(outcomeStores, logs, history, prior, ScopeBucketKey(scope), key);
      return if key in store.entries then Some(store.entries[key]) else None;
    }

    method ClearTrackedFollowupOutcomes(scope: Option<TenantScope>, clearWorks: bool)
      requires Valid()
      modifies this
      ensures Valid() && history == old(history) + [Cleared(scope, clearWorks)]
    {
      outcomeStores := outcomeStores[ScopeBucketKey(scope) := EMPTY];
      if clearWorks { logs := logs - {LogScope(scope)}; }
      ClearAgrees(old(outcomeStores), old(logs), history, prior, Cleared(scope, clearWorks), outcomeStores, logs);
      history := history + [Cleared(scope, clearWorks)];
    }

    /** Index and log together, each (task, thread, status) once, at its first occurrence; an index entry is
        listed itself, in front of what the log says of the same kind. */
    method ListTrackedFollowupOutcomes(scope: Option<TenantScope>) returns (listed: seq<FollowupOutcome>)
      requires Valid()
      modifies this`outcomeStores
      ensures Valid()
      ensures forall i, j | 0 <= i < j < |listed| :: !SameOutcome(listed[i], listed[j])
      ensures forall o | o in listed ::
          o in LogAt(logs, LogScope(scope)) || InIndex(o, BucketAt(outcomeStores, ScopeBucketKey(scope)))
      ensures forall o | o in LogAt(logs, LogScope(scope))
          || InIndex(o, BucketAt(outcomeStores, ScopeBucketKey(scope))) ::
        exists x :: x in listed && SameOutcome(x, o)
      ensures forall o | InIndex(o, BucketAt(outcomeStores, ScopeBucketKey(scope))) :: o in listed
      ensures ListedFrom(BucketAt(outcomeStores, ScopeBucketKey(scope)), LogAt(logs, LogScope(scope)), listed)
    {
      var store := OpenBucket(scope);
      assert BucketAgrees(BucketAt(outcomeStores, ScopeBucketKey(scope)), AcceptedIn(history, ScopeBucketKey(scope)));
      var values := Values(store);
      var records := values + if LogScope(scope) in logs then logs[LogScope(scope)] else [];
      ghost var firsts: seq<nat>;
      listed, firsts := Deduplicate(records);
      ValuesAreIndex(store);
      forall o | InIndex(o, store) ensures o in listed {
        var i: nat :| i < |values| && values[i] == o;
        IndexWins(store, AcceptedIn(history, ScopeBucketKey(scope)), LogAt(logs, LogScope(scope)), listed, firsts, i);
      }
      assert forall o :: o in records <==> o in values || o in LogAt(logs, LogScope(scope));
    }
  }

  function Values(b: Bucket): seq<FollowupOutcome>
    requires WellOrdered(b)
  {
    seq(|b.order|, i requires 0 <= i < |b.order| && b.order[i] in b.order => b.entries[b.order[i]])
  }

  lemma ValuesAreIndex(b: Bucket)
    requires WellOrdered(b)
    ensures forall o :: o in Values(b) <==> InIndex(o, b)
  {
    forall o ensures o in Values(b) <==> InIndex(o, b) {
      if key :| Current(b, key) == Some(o) {
        var i :| 0 <= i < |b.order| && b.order[i] == key;
        assert Values(b)[i] == o;
      }
      if o in Values(b) {
        var i :| 0 <= i < |b.order| && Values(b)[i] == o;
        assert Current(b, b.order[i]) == Some(o);
      }
    }
  }

  function Kinds(records: seq<FollowupOutcome>): (kinds: seq<(string, string, Status)>)
    ensures |kinds| == |records| && forall i | 0 <= i < |records| :: kinds[i] == KindOf(records[i])
  {
    seq(|records|, i requires 0 <= i < |records| => KindOf(records[i]))
  }

  /** `kept` holds, in order, exactly the first of each kind among the first n records; `firsts` are their positions. */
  ghost predicate KeepsFirsts(records: seq<FollowupOutcome>, n: nat, kept: seq<FollowupOutcome>, firsts: seq<nat>)
    requires n <= |records|
  {
    |kept| == |firsts| && Firsts(Kinds(records), n, firsts)
        && forall a | 0 <= a < |firsts| :: kept[a] == records[firsts[a]]
  }

  lemma KeptAt(records: seq<FollowupOutcome>, kept: seq<FollowupOutcome>, firsts: seq<nat>, a: nat)
    requires KeepsFirsts(records, |records|, kept, firsts) && a < |kept|
    ensures firsts[a] < |records| && kept[a] == records[firsts[a]] && Kinds(records)[firsts[a]] == KindOf(kept[a])
  {
  }

  lemma KeptDiffer(records: seq<FollowupOutcome>, kept: seq<FollowupOutcome>, firsts: seq<nat>, i: nat, j: nat)
    requires KeepsFirsts(records, |records|, kept, firsts) && i < j < |kept|
    ensures !SameOutcome(kept[i], kept[j])
  {
    KeptAt(records, kept, firsts, i);
    KeptAt(records, kept, firsts, j);
    MetOnce(Kinds(records), firsts, i, j);
  }

  lemma KindIsKept(records: seq<FollowupOutcome>, kept: seq<FollowupOutcome>, firsts: seq<nat>, i: nat)
    requires KeepsFirsts(records, |records|, kept, firsts) && i < |records|
    ensures exists x :: x in kept && SameOutcome(x, records[i])
  {
    var a := KindIsMet(Kinds(records), firsts, i);
    KeptAt(records, kept, firsts, a);
    assert kept[a] in kept && SameOutcome(kept[a], records[i]);
  }

  lemma KeptOncePerKind(records: seq<FollowupOutcome>, kept: seq<FollowupOutcome>, firsts: seq<nat>)
    requires KeepsFirsts(records, |records|, kept, firsts)
    ensures forall i, j | 0 <= i < j < |kept| :: !SameOutcome(kept[i], kept[j])
    ensures forall o | o in kept :: o in records
    ensures forall o | o in records :: exists x :: x in kept && SameOutcome(x, o)
  {
    forall i, j | 0 <= i < j < |kept| ensures !SameOutcome(kept[i], kept[j]) {
      KeptDiffer(records, kept, firsts, i, j);
    }
    forall o | o in kept ensures o in records {
      var a: nat :| a < |kept| && kept[a] == o;
      KeptAt(records, kept, firsts, a);
    }
    forall o | o in records ensures exists x :: x in kept && SameOutcome(x, o) {
      var i: nat :| i < |records| && records[i] == o;
      KindIsKept(records, kept, firsts, i);
    }
  }

  lemma FirstIsKept(records: seq<FollowupOutcome>, kept: seq<FollowupOutcome>, firsts: seq<nat>, first: nat)
    requires KeepsFirsts(records, |records|, kept, firsts) && first < |records| && FirstOfKind(Kinds(records), first)
    ensures records[first] in kept
  {
    var a :| 0 <= a < |firsts| && firsts[a] == first;
    assert kept[a] == records[first];
  }

  /** The first record of each kind stays, in order; the others go. */
  method Deduplicate(records: seq<FollowupOutcome>) returns (kept: seq<FollowupOutcome>, ghost firsts: seq<nat>)
    ensures KeepsFirsts(records, |records|, kept, firsts)
    ensures forall i, j | 0 <= i < j < |kept| :: !SameOutcome(kept[i], kept[j])
    ensures forall o | o in kept :: o in records
    ensures forall o | o in records :: exists x :: x in kept && SameOutcome(x, o)
  {
    kept, firsts := [], [];
    for i := 0 to |records|
      invariant KeepsFirsts(records, i, kept, firsts)
    {
      var first := 0;
      while !SameOutcome(records[first], records[i])
        invariant 0 <= first <= i
        invariant forall j | 0 <= j < first :: !SameOutcome(records[j], records[i])
        decreases i - first
      {
        first := first + 1;
      }
      FirstsExtended(Kinds(records), i, firsts);
      assert first == i <==> FirstOfKind(Kinds(records), i);
      if first == i {
        kept := kept + [records[i]];
        firsts := firsts + [i];
      }
    }
    KeptOncePerKind(records, kept, firsts);
  }

  lemma {:induction false} OfKeyHasKey(outcomes: seq<FollowupOutcome>, key: string)
    ensures forall o | o in OfKey(outcomes, key) :: Key(o.taskId, o.threadId) == key
  {
    if outcomes == [] {
    } else {
      OfKeyHasKey(outcomes[..|outcomes| - 1], key);
    }
  }

  lemma EntriesAreKeyed(b: Bucket, accepted: seq<FollowupOutcome>, key: string)
    requires BucketAgrees(b, accepted) && key in b.entries
    ensures Key(b.entries[key].taskId, b.entries[key].threadId) == key
  {
    assert Current(b, key) == LastOf(accepted, key);
    OfKeyHasKey(accepted, key);
    var mine := OfKey(accepted, key);
    assert mine[|mine| - 1] in mine;
  }

  /** Index entries come first and differ in kind, so each of them is listed itself. */
  lemma IndexWins(b: Bucket, accepted: seq<FollowupOutcome>, log: seq<FollowupOutcome>, kept: seq<FollowupOutcome>,
                  firsts: seq<nat>, i: nat)
    requires BucketAgrees(b, accepted) && i < |b.order| && KeepsFirsts(Values(b) + log, |Values(b) + log|, kept, firsts)
    ensures Values(b)[i] in kept
  {
    var records := Values(b) + log;
    var first := FirstExists(Kinds(records), i);
    assert records[first] == Values(b)[first] && records[i] == Values(b)[i];
    EntriesAreKeyed(b, accepted, b.order[first]);
    EntriesAreKeyed(b, accepted, b.order[i]);
    assert b.order[first] == b.order[i];
    FirstIsKept(records, kept, firsts, first);
  }

  // ---- Index and log agree ----

  /** Nothing but this scope reaches its bucket or its log, and no append or clear of the log failed. */
  ghost predicate Undisturbed(history: seq<Event>, scope: Option<TenantScope>) {
    forall e | e in history && (ScopeBucketKey(e.scope) == ScopeBucketKey(scope)
        || LogScope(e.scope) == LogScope(scope)) ::
      e.scope == scope && if e.Accepted? then e.logged else e.logCleared
  }

  predicate EndsWith(whole: seq<FollowupOutcome>, part: seq<FollowupOutcome>) {
    |part| <= |whole| && whole[|whole| - |part|..] == part
  }

  /** Then the log ends with exactly what the bucket accepted: the index never runs ahead of the log. */
  lemma {:induction false} LogEndsWithAccepted(history: seq<Event>, scope: Option<TenantScope>,
                                               prior: seq<FollowupOutcome>)
    requires Undisturbed(history, scope)
    ensures EndsWith(LoggedIn(history, LogScope(scope), prior), AcceptedIn(history, ScopeBucketKey(scope)))
  {
    if history == [] {
    } else {
      var n := |history| - 1;
      var e, before := history[n], history[..n];
      assert e in history && forall e | e in before :: e in history;
      LogEndsWithAccepted(before, scope, prior);
      EventKeepsEnd(LoggedIn(before, LogScope(scope), prior), AcceptedIn(before, ScopeBucketKey(scope)), e, scope);
    }
  }

  lemma EventKeepsEnd(log: seq<FollowupOutcome>, accepted: seq<FollowupOutcome>, e: Event, scope: Option<TenantScope>)
    requires EndsWith(log, accepted) && Undisturbed([e], scope)
    ensures EndsWith(LoggedAfter(log, e, LogScope(scope)), AcceptedAfter(accepted, e, ScopeBucketKey(scope)))
  {
    assert e in [e];
    if e.Accepted? && e.logged { BothEnd(log, accepted, e.outcome); }
  }

  lemma BothEnd(log: seq<FollowupOutcome>, accepted: seq<FollowupOutcome>, o: FollowupOutcome)
    requires EndsWith(log, accepted)
    ensures EndsWith(log + [o], accepted + [o])
  {
  }

  lemma {:induction false} OfKeyConcat(a: seq<FollowupOutcome>, b: seq<FollowupOutcome>, key: string)
    ensures OfKey(a + b, key) == OfKey(a, key) + OfKey(b, key)
  {
    if b == [] {
      assert a + b == a;
    } else {
      var front, o := b[..|b| - 1], b[|b| - 1];
      OfKeyConcat(a, front, key);
      ConcatStep(a, front, b, o, key);
    }
  }

  lemma ConcatStep(a: seq<FollowupOutcome>, front: seq<FollowupOutcome>, b: seq<FollowupOutcome>, o: FollowupOutcome,
                   key: string)
    requires b == front + [o] && OfKey(a + front, key) == OfKey(a, key) + OfKey(front, key)
    ensures OfKey(a + b, key) == OfKey(a, key) + OfKey(b, key)
  {
    AppendBoth(a, front, o);
    OfKeyGrows(a + front, o, key);
    OfKeyGrows(front, o, key);
    AppendBoth(OfKey(a, key), OfKey(front, key), o);
  }

  lemma AppendBoth(x: seq<FollowupOutcome>, y: seq<FollowupOutcome>, o: FollowupOutcome)
    ensures (x + y) + [o] == x + (y + [o])
  {
  }

  /** Index and log of an undisturbed scope: what a key went through in this process is a path of at most
      four statuses, the log ends with it, and the index entry is the key's last logged outcome. */
  lemma IndexAgreesWithLog(history: seq<Event>, scope: Option<TenantScope>, prior: seq<FollowupOutcome>, key: string)
    requires Lawful(history) && Undisturbed(history, scope)
    ensures var log, accepted := LoggedIn(history, LogScope(scope), prior), AcceptedIn(history, ScopeBucketKey(scope));
      var mine := OfKey(accepted, key);
      && Path(mine) && |mine| <= 4 && EndsWith(OfKey(log, key), mine)
      && (mine != [] ==> LastOf(log, key) == LastOf(accepted, key))
      && forall o | LastOf(accepted, key) == Some(o) :: o in log
  {
    var log, accepted := LoggedIn(history, LogScope(scope), prior), AcceptedIn(history, ScopeBucketKey(scope));
    StatusesFormAPath(history, ScopeBucketKey(scope), key);
    PathsAreShort(OfKey(accepted, key));
    LogEndsWithAccepted(history, scope, prior);
    var front := log[..|log| - |accepted|];
    assert log == front + accepted;
    OfKeyConcat(front, accepted, key);
    OfKeyIn(log, key);
  }

  lemma {:induction false} OfKeyIn(outcomes: seq<FollowupOutcome>, key: string)
    ensures forall o | o in OfKey(outcomes, key) :: o in outcomes
  {
    if outcomes == [] {
    } else {
      OfKeyIn(outcomes[..|outcomes| - 1], key);
    }
  }

  /** All events are this scope's, and clears reach its log. */
  ghost predicate OnlyScope(history: seq<Event>, scope: Option<TenantScope>) {
    forall i | 0 <= i < |history| :: history[i].scope == scope && (history[i].Cleared? ==> history[i].logCleared)
  }

  /** The last outcome accepted for the key since the last clear, if there is one, was appended to the log. */
  predicate LastLogged(history: seq<Event>, key: string) {
    history == []
    || var e := history[|history| - 1];
       e.Cleared?
       || if Key(e.outcome.taskId, e.outcome.threadId) == key then e.logged
            else LastLogged(history[..|history| - 1], key)
  }

  lemma {:induction false} LoggedWereAccepted(history: seq<Event>, scope: Option<TenantScope>, key: string)
    requires OnlyScope(history, scope)
    ensures forall o | o in OfKey(LoggedIn(history, LogScope(scope), []), key) ::
        o in OfKey(AcceptedIn(history, ScopeBucketKey(scope)), key)
  {
    if history == [] {
    } else {
      var e, before := history[|history| - 1], history[..|history| - 1];
      LoggedWereAccepted(before, scope, key);
      if e.Accepted? {
        OfKeyGrows(LoggedIn(before, LogScope(scope), []), e.outcome, key);
        OfKeyGrows(AcceptedIn(before, ScopeBucketKey(scope)), e.outcome, key);
      }
    }
  }

  /** An outcome newly accepted differs from all that its key went through. */
  lemma NewOutcomeDiffers(before: seq<FollowupOutcome>, o: FollowupOutcome)
    requires Path(before + [o])
    ensures o !in before
  {
    PathsAreShort(before + [o]);
    forall i | 0 <= i < |before| ensures before[i] != o {
      assert (before + [o])[i] == before[i] && (before + [o])[|before|] == o;
    }
  }

  /** What the log says of a key was accepted. */
  ghost predicate LogWithin(log: seq<FollowupOutcome>, accepted: seq<FollowupOutcome>, key: string) {
    forall x | x in OfKey(log, key) :: x in OfKey(accepted, key)
  }

  lemma UnloggedDiffers(log: seq<FollowupOutcome>, accepted: seq<FollowupOutcome>, o: FollowupOutcome, key: string)
    requires Key(o.taskId, o.threadId) == key && Path(OfKey(accepted + [o], key))
    requires LogWithin(log, accepted, key)
    ensures LastOf(accepted + [o], key) == Some(o) && LastOf(log, key) != Some(o)
  {
    OfKeyGrows(accepted, o, key);
    NewOutcomeDiffers(OfKey(accepted, key), o);
    var mine := OfKey(log, key);
    assert mine != [] ==> mine[|mine| - 1] in mine;
  }

  /** For one scope with an empty log to begin with: the index entry of a key is its last logged outcome if
      and only if the last outcome accepted for it was logged. */
  lemma {:induction false} IndexAgreesIff(history: seq<Event>, scope: Option<TenantScope>, key: string)
    requires Lawful(history) && OnlyScope(history, scope)
    ensures LastOf(LoggedIn(history, LogScope(scope), []), key)
        == LastOf(AcceptedIn(history, ScopeBucketKey(scope)), key)
       <==> LastLogged(history, key)
  {
    if history == [] {
    } else {
      var n := |history| - 1;
      LawfulPrefix(history, n);
      IndexAgreesIff(history[..n], scope, key);
      LoggedWereAccepted(history[..n], scope, key);
      StatusesFormAPath(history, ScopeBucketKey(scope), key);
      EventAgrees(LoggedIn(history[..n], LogScope(scope), []), AcceptedIn(history[..n], ScopeBucketKey(scope)),
          history[n], key);
    }
  }

  /** After an accepted outcome of the key: the two agree exactly if it was logged. */
  lemma OwnEventAgrees(log: seq<FollowupOutcome>, accepted: seq<FollowupOutcome>, o: FollowupOutcome, logged: bool,
                       key: string)
    requires Key(o.taskId, o.threadId) == key && Path(OfKey(accepted + [o], key)) && LogWithin(log, accepted, key)
    ensures LastOf(if logged then log + [o] else log, key) == LastOf(accepted + [o], key) <==> logged
  {
    UnloggedDiffers(log, accepted, o, key);
    OfKeyGrows(log, o, key);
  }

  /** An outcome of another key does not count. */
  lemma OtherKeepsLast(outcomes: seq<FollowupOutcome>, o: FollowupOutcome, key: string)
    requires Key(o.taskId, o.threadId) != key
    ensures LastOf(outcomes + [o], key) == LastOf(outcomes, key)
  {
    OfKeyGrows(outcomes, o, key);
  }

  lemma EventAgrees(log: seq<FollowupOutcome>, accepted: seq<FollowupOutcome>, e: Event, key: string)
    requires (e.Cleared? ==> e.logCleared) && LogWithin(log, accepted, key)
    requires Path(OfKey(AcceptedAfter(accepted, e, ScopeBucketKey(e.scope)), key))
    ensures
      (LastOf(LoggedAfter(log, e, LogScope(e.scope)), key)
       == LastOf(AcceptedAfter(accepted, e, ScopeBucketKey(e.scope)), key)) <==>
      if e.Cleared? then true
      else if Key(e.outcome.taskId, e.outcome.threadId) == key then e.logged
      else LastOf(log, key) == LastOf(accepted, key)
  {
    if e.Accepted? {
      assert LoggedAfter(log, e, LogScope(e.scope)) == if e.logged then log + [e.outcome] else log;
      if Key(e.outcome.taskId, e.outcome.threadId) == key {
        OwnEventAgrees(log, accepted, e.outcome, e.logged, key);
      } else {
        OtherKeepsLast(log, e.outcome, key);
        OtherKeepsLast(accepted, e.outcome, key);
      }
    }
  }

  /** One failed append is enough to leave the index ahead: the outcome is current, and not in the log. */
  lemma FailedAppendRunsAhead(o: FollowupOutcome, scope: Option<TenantScope>)
    ensures var history := [Accepted(scope, o, false)];
      && Lawful(history) && LastOf(AcceptedIn(history, ScopeBucketKey(scope)), Key(o.taskId, o.threadId)) == Some(o)
      && LoggedIn(history, LogScope(scope), []) == []
  {
    var history := [Accepted(scope, o, false)];
    assert history[..0] == [];
    assert AcceptedIn(history, ScopeBucketKey(scope)) == [o];
    OfKeyGrows([], o, Key(o.taskId, o.threadId));
    assert [] + [o] == [o];
  }

  /** Two different (task, thread) pairs share a key exactly when one task id is the other one, a colon and
      the front of the other's thread id. Without colons in task ids, a key is one pair. */
  lemma KeysCollideIff(task1: string, thread1: string, task2: string, thread2: string)
    requires |task1| <= |task2|
    ensures Key(task1, thread1) == Key(task2, thread2) <==>
      (task1 == task2 && thread1 == thread2) || exists x :: task2 == task1 + ":" + x && thread1 == x + ":" + thread2
    ensures ':' !in task2 ==> (Key(task1, thread1) == Key(task2, thread2) <==> task1 == task2 && thread1 == thread2)
  {
    var k1, k2 := Key(task1, thread1), Key(task2, thread2);
    if k1 == k2 {
      assert task1 == k1[..|task1|] == task2[..|task1|];
      if |task1| == |task2| {
        assert thread1 == k1[|task1| + 1..] == thread2;
      } else {
        assert k1[|task1|] == ':' == task2[|task1|];
        var x := task2[|task1| + 1..];
        assert task2 == task1 + ":" + x;
        assert thread1 == k1[|task1| + 1..] == x + ":" + thread2;
      }
    }
    if x :| task2 == task1 + ":" + x && thread1 == x + ":" + thread2 {
      assert k1 == k2;
      assert task2[|task1|] == ':';
    }
  }
}
