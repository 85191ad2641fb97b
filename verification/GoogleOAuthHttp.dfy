/** The bounded retry loop under every Google OAuth call. The responses of the network are a given stream. */
module GoogleOAuthHttp {
  import opened Prelude

  /** What one fetch comes to; a body that cannot be read as JSON is None. */
  datatype Event = NetworkFailure | Response(status: int, body: Option<string>, errorCode: Option<string>)

  datatype HttpError = HttpError(status: int, errorCode: Option<string>)

  predicate IsOk(e: Event) {
    e.Response? && 200 <= e.status <= 299
  }

  /** Failures that another fetch may cure. */
  predicate Transient(e: Event) {
    e.NetworkFailure? || (IsOk(e) && e.body.None?) || (e.Response? && e.status >= 500)
  }

  /** What the caller sees if the last fetch came to `e`. */
  function Verdict(e: Event): Result<string, HttpError> {
    if IsOk(e) && e.body.Some? then Ok(e.body.value)
    else if IsOk(e) || e.NetworkFailure? then Err(HttpError(0, None))
    else Err(HttpError(e.status, e.errorCode))
  }

  function Attempts(retry: bool, maxRetries: int): int {
    if retry then maxRetries + 1 else 1
  }

  /** The loop's specification: the first fetch that is not a transient failure decides, or the last one
      allowed; with no fetch allowed the call fails without one. */
  function Answer(stream: nat -> Event, i: nat, attempts: int): (r: (Result<string, HttpError>, nat))
    decreases attempts - i
  {
    if i >= attempts then (Err(HttpError(0, None)), i)
    else if Transient(stream(i)) && i < attempts - 1 then Answer(stream, i + 1, attempts)
    else (Verdict(stream(i)), i + 1)
  }

  method Request(stream: nat -> Event, retry: bool, maxRetries: int)
    returns (outcome: Result<string, HttpError>, fetches: nat)
    ensures (outcome, fetches) == Answer(stream, 0, Attempts(retry, maxRetries))
  {
    var attempts := if retry then maxRetries + 1 else 1;
    var lastError: Option<HttpError> := None;
    fetches := 0;
    var i := 0;
    while i < attempts
      invariant i == fetches
      invariant 0 < i ==> i < attempts
      invariant i == 0 ==> lastError.None?
      invariant Answer(stream, 0, attempts) == Answer(stream, i, attempts)
    {
      var e := stream(i);
      fetches := fetches + 1;
      if e.Response? && 200 <= e.status <= 299 && e.body.Some? {
        return Ok(e.body.value), fetches;
      } else if e.NetworkFailure? || 200 <= e.status <= 299 {
        lastError := Some(HttpError(0, None));
        if !retry || i >= attempts - 1 { return Err(HttpError(0, None)), fetches; }
      } else if e.status >= 500 && retry && i < attempts - 1 {
        lastError := Some(HttpError(e.status, e.errorCode));
      } else {
        return Err(HttpError(e.status, e.errorCode)), fetches;
      }
      i := i + 1;
    }
    assert lastError.None?;
    return Err(HttpError(0, None)), fetches;
  }

  /** Worth another fetch: nothing came, or a server error, or a success without a readable body. */
  predicate Curable(e: Event) {
    match e
    case NetworkFailure => true
    case Response(status, body, _) => status > 499 || (199 < status < 300 && body == None)
  }

  /** What one fetch tells the caller: its body if it succeeded with one, else its status and code, which are
      unknown when nothing readable came. */
  predicate Tells(e: Event, outcome: Result<string, HttpError>) {
    match e
    case NetworkFailure => outcome == Err(HttpError(0, None))
    case Response(status, body, code) =>
      if !(199 < status < 300) then outcome == Err(HttpError(status, code))
      else outcome == if body.Some? then Ok(body.value) else Err(HttpError(0, None))
  }

  lemma EventMeans(e: Event)
    ensures Transient(e) <==> Curable(e)
    ensures Tells(e, Verdict(e))
  {
  }

  lemma {:induction false} AnswerDecided(stream: nat -> Event, i: nat, attempts: int)
    ensures var (outcome, fetches) := Answer(stream, i, attempts);
      && i <= fetches && (fetches > i <==> attempts > i) && (fetches > i ==> fetches <= attempts)
      && (forall j | i <= j < fetches - 1 :: Transient(stream(j)))
      && (fetches > i ==>
           && outcome == Verdict(stream(fetches - 1))
           && (!Transient(stream(fetches - 1)) || fetches == attempts))
    decreases attempts - i
  {
    if i >= attempts || !Transient(stream(i)) || i == attempts - 1 {
    } else {
      AnswerDecided(stream, i + 1, attempts);
    }
  }

  /** On every stream: at most maxRetries + 1 fetches, every fetch but the last answered by a transient
      failure, the last by a decisive answer unless the allowance is used up, and its verdict returned. */
  lemma RetriesAreBounded(stream: nat -> Event, maxRetries: nat)
    ensures var (outcome, fetches) := Answer(stream, 0, Attempts(true, maxRetries));
      && 1 <= fetches <= maxRetries + 1
      && (forall j | 0 <= j < fetches - 1 :: Curable(stream(j)))
      && Tells(stream(fetches - 1), outcome) && (Curable(stream(fetches - 1)) ==> fetches == maxRetries + 1)
  {
    AnswerDecided(stream, 0, maxRetries + 1);
    forall j: nat ensures Curable(stream(j)) <==> Transient(stream(j)) {
      EventMeans(stream(j));
    }
    EventMeans(stream(Answer(stream, 0, maxRetries + 1).1 - 1));
  }

  /** The call succeeds exactly when some allowed fetch is answered, all before it having failed transiently. */
  lemma SucceedsIff(stream: nat -> Event, maxRetries: nat, body: string)
    ensures Answer(stream, 0, Attempts(true, maxRetries)).0 == Ok(body) <==>
      exists n: nat :: n <= maxRetries && Tells(stream(n), Ok(body)) && forall j | 0 <= j < n :: Curable(stream(j))
  {
    forall j: nat ensures Curable(stream(j)) <==> Transient(stream(j)) {
      EventMeans(stream(j));
    }
    AnswerDecided(stream, 0, maxRetries + 1);
    var fetches := Answer(stream, 0, maxRetries + 1).1;
    if Answer(stream, 0, maxRetries + 1).0 == Ok(body) {
      assert IsOk(stream(fetches - 1)) && stream(fetches - 1).body == Some(body);
    }
    if n: nat :|
      && n <= maxRetries && Tells(stream(n), Ok(body))
      && forall j | 0 <= j < n :: Curable(stream(j))
    {
      assert fetches - 1 >= n;
      assert fetches - 1 <= n;
    }
  }

  /** A single-use code is sent once, whatever the response and whatever the configured allowance. */
  lemma CodeExchangeIsSentOnce(stream: nat -> Event, maxRetries: int)
    ensures Answer(stream, 0, Attempts(false, maxRetries)).1 == 1
    ensures Tells(stream(0), Answer(stream, 0, Attempts(false, maxRetries)).0)
  {
    EventMeans(stream(0));
  }

  /** The call fails without any fetch exactly when retries are allowed but their number is negative. */
  lemma NoFetchIff(stream: nat -> Event, retry: bool, maxRetries: int)
    ensures Answer(stream, 0, Attempts(retry, maxRetries)).1 == 0 <==> retry && maxRetries < 0
    ensures retry && maxRetries < 0 ==> Answer(stream, 0, Attempts(retry, maxRetries)).0 == Err(HttpError(0, None))
  {
    AnswerDecided(stream, 0, Attempts(retry, maxRetries));
  }
}
