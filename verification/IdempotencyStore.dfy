/** The idempotency records and the one entry point that decides between grant, replay and refusal. */
module Idempotency {
  import opened Prelude
  import opened MailRecords
  import opened TenantScopedStore

  const STALE_IN_PROGRESS_MS := 5 * 60 * 1000

  datatype RecordStatus = InProgress | Completed | Failed

  datatype Payload<R> = Value(result: R) | Failure(message: string)

  datatype Record<R> = Record(
    requestHash: Digest,
    operationType: string,
    status: RecordStatus,
    resultPayload: Option<Payload<R>>,
    createdAt: int,
    completedAt: Option<int>)

  type Records<R> = map<string, Record<R>>

  /** Where the records live; the two paths differ in what a retry does to createdAt. */
  datatype Backend = Durable | InMemory

  datatype Reply<R> = Granted | Replay(payload: Option<Payload<R>>) | PayloadMismatch | AlreadyInProgress

  datatype StoreError = InvalidScope(segment: SegmentError) | DatabaseRequired

  predicate Stale(createdAt: int, now: int) {
    now - createdAt > STALE_IN_PROGRESS_MS
  }

  function Decide<R>(records: Records<R>, key: string, hash: Digest, now: int): Reply<R> {
    if key !in records then Granted
    else
      var existing := records[key];
      if existing.requestHash != hash then PayloadMismatch
      else if existing.status == Completed then Replay(existing.resultPayload)
      else if existing.status == Failed || Stale(existing.createdAt, now) then Granted
      else AlreadyInProgress
  }

  /** The lease starts when the record says it was created. An in-memory retry after a failure keeps the
      old instant; every other grant takes the current one. */
  function LeaseStart<R>(backend: Backend, records: Records<R>, key: string, now: int): int {
    if backend == InMemory && key in records && records[key].status == Failed then records[key].createdAt else now
  }

  function Ensure<R>(backend: Backend, records: Records<R>, key: string, hash: Digest, operationType: string,
                     now: int): (r: (Records<R>, Reply<R>))
  {
    var reply := Decide(records, key, hash, now);
    if reply != Granted then (records, reply)
    else (records[key := Record(hash, operationType, InProgress, None, LeaseStart(backend, records, key, now), None)],
        Granted)
  }

  /** Recording an outcome looks at nothing but the key. */
  function RecordOutcome<R>(records: Records<R>, key: string, status: RecordStatus, payload: Payload<R>,
                            now: int): Records<R>
  {
    if key !in records then records
    else
      records[key := records[key].(status := status, resultPayload := Some(payload), completedAt := Some(now))]
  }

  /** A key is granted exactly to a new request, to the same request after a failure, and to the same
      request whose executor has been silent for longer than five minutes; and a grant leaves a fresh record
      in progress, every other answer the records as they were. */
  lemma GrantIff<R>(backend: Backend, records: Records<R>, key: string, hash: Digest, operationType: string, now: int)
    ensures var (after, reply) := Ensure(backend, records, key, hash, operationType, now);
      && (reply == Granted <==>
           key in records ==>
             && records[key].requestHash == hash && records[key].status != Completed
             && (records[key].status == Failed || records[key].createdAt + 300_000 < now))
      && (reply != Granted ==> after == records)
      && (reply == Granted ==>
           && after.Keys == records.Keys + {key} && (forall k | k in records && k != key :: after[k] == records[k])
           && after[key].requestHash == hash && after[key].operationType == operationType
           && after[key].status == InProgress && after[key].resultPayload == None && after[key].completedAt == None
           && after[key].createdAt
              == if backend == InMemory && key in records && records[key].status == Failed
                   then records[key].createdAt else now)
  {
  }

  /** The other answers: another payload under the key, whatever became of it; the recorded payload of the same
      request; and the same request still at work. */
  lemma AnswerMeans<R>(records: Records<R>, key: string, hash: Digest, now: int)
    ensures var reply := Decide(records, key, hash, now);
      && (reply == PayloadMismatch <==> key in records && records[key].requestHash != hash)
      && (reply.Replay? <==> key in records && records[key].requestHash == hash && records[key].status == Completed)
      && (reply.Replay? ==> reply.payload == records[key].resultPayload)
      && (reply == AlreadyInProgress <==>
           && key in records && records[key].requestHash == hash && records[key].status == InProgress
           && now <= records[key].createdAt + 300_000)
  {
  }

  /** An outcome goes to the record of its key, if there is one, whatever that says by then, and nowhere else. */
  lemma OutcomeWrites<R>(records: Records<R>, key: string, status: RecordStatus, payload: Payload<R>, now: int)
    ensures var after := RecordOutcome(records, key, status, payload, now);
      && after.Keys == records.Keys && (forall k | k in records && k != key :: after[k] == records[k])
      && (key in records ==>
           && after[key].status == status && after[key].resultPayload == Some(payload)
           && after[key].completedAt == Some(now) && after[key].createdAt == records[key].createdAt
           && after[key].requestHash == records[key].requestHash
           && after[key].operationType == records[key].operationType)
  {
  }

  /** A completed record carries the recorded value. */
  ghost predicate ResultsKept<R>(records: Records<R>) {
    forall key | key in records && records[key].status == Completed ::
        records[key].resultPayload.Some? && records[key].resultPayload.value.Value?
  }

  /** A replay whose record holds no value: the clients take it for no replay at all and run. */
  predicate EmptyReplay<R>(reply: Reply<R>) {
    reply.Replay? && !(reply.payload.Some? && reply.payload.value.Value?)
  }

  class IdempotencyStore<R(==)> {
    const databaseUrl: bool
    const inMemoryAllowed: bool
    var table: Records<R>
    var fallback: Records<R>

    constructor (databaseUrl: bool, inMemoryAllowed: bool)
      ensures table == map[] && fallback == map[]
      ensures this.databaseUrl == databaseUrl && this.inMemoryAllowed == inMemoryAllowed
    {
      this.databaseUrl, this.inMemoryAllowed := databaseUrl, inMemoryAllowed;
      table, fallback := map[], map[];
    }

    function Records(): Records<R>
      reads this
    {
      if databaseUrl then table else fallback
    }

    function Kind(): Backend { if databaseUrl then Durable else InMemory }

    /** Nothing of the store the current configuration does not use. */
    twostate predicate OtherUnchanged()
      reads this
    {
      if databaseUrl then fallback == old(fallback) else table == old(table)
    }

    method EnsureIdempotentExecution(key: string, payload: string, operationType: string, scope: Option<TenantScope>,
                                     now: int)
      returns (r: Result<Reply<R>, StoreError>)
      modifies this`table, this`fallback
      ensures OtherUnchanged()
      ensures ScopedKey(key, scope).Err? ==>
          r == Err(InvalidScope(ScopedKey(key, scope).error)) && Records() == old(Records())
      ensures ScopedKey(key, scope).Ok? ==>
        if !databaseUrl && !inMemoryAllowed then r == Err(DatabaseRequired) && Records() == old(Records())
        else
          && r.Ok?
          && (Records(), r.value)
             == Ensure(Kind(), old(Records()), ScopedKey(key, scope).value, Sha256(payload), operationType, now)
    {
      var effective := ScopedKey(key, scope);
      if effective.Err? { return Err(InvalidScope(effective.error)); }
      if !databaseUrl {
        if !inMemoryAllowed { return Err(DatabaseRequired); }
        var reply := EnsureInMemory(effective.value, Sha256(payload), operationType, now);
        return Ok(reply);
      }
      var requestHash := Sha256(payload);
      if effective.value in table {
        var row := table[effective.value];
        if row.requestHash != requestHash { return Ok(PayloadMismatch); }
        if row.status == Completed { return Ok(Replay(row.resultPayload)); }
        if row.status == Failed || Stale(row.createdAt, now) {
          table := table[effective.value := row.(status := InProgress, resultPayload := None, completedAt := None,
            requestHash := requestHash, operationType := operationType, createdAt := now)];
          return Ok(Granted);
        }
        return Ok(AlreadyInProgress);
      }
      table := table[effective.value := Record(requestHash, operationType, InProgress, None, now, None)];
      return Ok(Granted);
    }

    method EnsureInMemory(key: string, requestHash: Digest, operationType: string, now: int) returns (r: Reply<R>)
      modifies this`fallback
      ensures (fallback, r) == Ensure(InMemory, old(fallback), key, requestHash, operationType, now)
    {
      if key in fallback {
        var existing := fallback[key];
        if existing.requestHash != requestHash { return PayloadMismatch; }
        if existing.status == Completed { return Replay(existing.resultPayload); }
        if existing.status == Failed {
          var again := existing.(operationType := operationType, status := InProgress, resultPayload := None,
                                 completedAt := None);
          fallback := fallback[key := again];
          return Granted;
        }
        if Stale(existing.createdAt, now) {
          var again := existing.(operationType := operationType, status := InProgress, resultPayload := None,
                                 createdAt := now, completedAt := None);
          fallback := fallback[key := again];
          return Granted;
        }
        return AlreadyInProgress;
      }
      fallback := fallback[key := Record(requestHash, operationType, InProgress, None, now, None)];
      return Granted;
    }

    method Update(key: string, status: RecordStatus, payload: Payload<R>, scope: Option<TenantScope>, now: int)
      returns (ok: bool)
      modifies this`table, this`fallback
      ensures OtherUnchanged()
      ensures ok == ScopedKey(key, scope).Ok?
      ensures Records() == if ok then RecordOutcome(old(Records()), ScopedKey(key, scope).value, status, payload, now)
          else old(Records())
    {
      var effective := ScopedKey(key, scope);
      if effective.Err? { return false; }
      if databaseUrl {
        table := RecordOutcome(table, effective.value, status, payload, now);
      } else if effective.value in fallback {
        var after := fallback[effective.value].(status := status, resultPayload := Some(payload),
                                                completedAt := Some(now));
        fallback := fallback[effective.value := after];
      }
      return true;
    }

    method MarkCompleted(key: string, result: R, scope: Option<TenantScope>, now: int) returns (ok: bool)
      modifies this`table, this`fallback
      ensures OtherUnchanged() && ok == ScopedKey(key, scope).Ok?
      ensures Records() == if ok
          then RecordOutcome(old(Records()), ScopedKey(key, scope).value, Completed, Value(result), now)
          else old(Records())
    {
      ok := Update(key, Completed, Value(result), scope, now);
    }

    method RecordIdempotentFailure(key: string, message: string, scope: Option<TenantScope>, now: int)
      returns (ok: bool)
      modifies this`table, this`fallback
      ensures OtherUnchanged() && ok == ScopedKey(key, scope).Ok?
      ensures Records() == if ok
          then RecordOutcome(old(Records()), ScopedKey(key, scope).value, Failed, Failure(message), now)
          else old(Records())
    {
      ok := Update(key, Failed, Failure(message), scope, now);
    }
  }
}
