/** Provider fallback with health awareness. */
module ModelRouter {
  import opened Prelude

  datatype HealthState = HealthState(consecutiveFailures: nat, unhealthyUntil: int)

  /** One finished provider call; only failures read the clock. */
  datatype Attempt = Succeeded(provider: string) | Failed(provider: string, at: int)

  function Mine(history: seq<Attempt>, provider: string): seq<Attempt> {
    if history == [] then []
    else
      var last := history[|history| - 1];
      Mine(history[..|history| - 1], provider) + if last.provider == provider then [last] else []
  }

  predicate LastFailed(mine: seq<Attempt>, k: nat) {
    k <= |mine| && forall i | |mine| - k <= i < |mine| :: mine[i].Failed?
  }

  function AtLeastOne(threshold: int): nat {
    if threshold < 1 then 1 else threshold
  }

  /** The provider's last `threshold` calls all failed, the very last of them less than a cooldown ago. */
  predicate CoolingDown(history: seq<Attempt>, provider: string, threshold: int, cooldown: int, now: int) {
    var mine := Mine(history, provider);
    if LastFailed(mine, AtLeastOne(threshold)) then now < mine[|mine| - 1].at + cooldown else now < 0
  }

  /** What a health entry must say about the full history of its provider. */
  ghost predicate Reflects(state: HealthState, mine: seq<Attempt>, threshold: int, cooldown: int) {
    && (forall k: nat :: LastFailed(mine, k) <==> k <= state.consecutiveFailures)
    && state.unhealthyUntil == if LastFailed(mine, AtLeastOne(threshold)) then mine[|mine| - 1].at + cooldown else 0
  }

  lemma FailureReflected(state: HealthState, mine: seq<Attempt>, threshold: int, cooldown: int, a: Attempt)
    requires Reflects(state, mine, threshold, cooldown) && a.Failed?
    ensures var n := state.consecutiveFailures + 1;
      Reflects(HealthState(n, if n >= threshold then a.at + cooldown else state.unhealthyUntil),
               mine + [a], threshold, cooldown)
  {
    var longer := mine + [a];
    forall k: nat ensures LastFailed(longer, k) <==> k <= state.consecutiveFailures + 1 {
      if k > 0 {
        assert LastFailed(mine, k - 1) <==> k - 1 <= state.consecutiveFailures;
        if LastFailed(longer, k) {
          forall i | |mine| - (k - 1) <= i < |mine| ensures mine[i].Failed? {
            assert longer[i] == mine[i];
          }
        }
      }
    }
    assert LastFailed(mine, 0);
  }

  lemma SuccessReflected(mine: seq<Attempt>, threshold: int, cooldown: int, a: Attempt)
    requires a.Succeeded?
    ensures Reflects(HealthState(0, 0), mine + [a], threshold, cooldown)
  {
    var longer := mine + [a];
    forall k: nat | k > 0 && k <= |longer| ensures !LastFailed(longer, k) {
      assert longer[|mine|] == a;
    }
  }

  lemma MineExtended(history: seq<Attempt>, a: Attempt, provider: string)
    ensures Mine(history + [a], provider)
        == if a.provider == provider then Mine(history, provider) + [a] else Mine(history, provider)
  {
    assert (history + [a])[..|history|] == history;
  }

  type States = map<string, HealthState>

  function View(states: States, provider: string): HealthState {
    if provider in states then states[provider] else HealthState(0, 0)
  }

  /** Every provider's entry, present or not, tells its full history. */
  ghost predicate AllReflect(states: States, history: seq<Attempt>, threshold: int, cooldown: int) {
    forall p :: Reflects(View(states, p), Mine(history, p), threshold, cooldown)
  }

  /** The entry after one more attempt. */
  function Updated(state: HealthState, a: Attempt, threshold: int, cooldown: int): HealthState {
    match a
    case Succeeded(_) => HealthState(0, 0)
    case Failed(_, at) =>
      var n := state.consecutiveFailures + 1;
      HealthState(n, if n >= threshold then at + cooldown else state.unhealthyUntil)
  }

  lemma AttemptReflected(states: States, history: seq<Attempt>, threshold: int, cooldown: int, a: Attempt)
    requires AllReflect(states, history, threshold, cooldown)
    ensures AllReflect(states[a.provider := Updated(View(states, a.provider), a, threshold, cooldown)],
                       history + [a], threshold, cooldown)
  {
    var states' := states[a.provider := Updated(View(states, a.provider), a, threshold, cooldown)];
    forall p ensures Reflects(View(states', p), Mine(history + [a], p), threshold, cooldown) {
      assert Reflects(View(states, p), Mine(history, p), threshold, cooldown);
      MineExtended(history, a, p);
      if p == a.provider {
        if a.Failed? {
          FailureReflected(View(states, p), Mine(history, p), threshold, cooldown, a);
        } else {
          SuccessReflected(Mine(history, p), threshold, cooldown, a);
        }
      }
    }
  }

  class ProviderHealthTracker {
    const failureThreshold: int
    const cooldownMs: int
    var states: States
    ghost var history: seq<Attempt>

    constructor (failureThreshold: int, cooldownMs: int)
      ensures Valid() && history == []
      ensures this.failureThreshold == failureThreshold && this.cooldownMs == cooldownMs
    {
      this.failureThreshold := failureThreshold;
      this.cooldownMs := cooldownMs;
      states, history := map[], [];
    }

    ghost predicate Valid()
      reads this
    {
      AllReflect(states, history, failureThreshold, cooldownMs)
    }

    /** The provider's entry, created at its first use. */
    method StateFor(provider: string) returns (state: HealthState)
      requires Valid()
      modifies this`states
      ensures Valid()
      ensures state == View(old(states), provider) && states == old(states)[provider := state]
    {
      if provider !in states {
        states := states[provider := HealthState(0, 0)];
      }
      state := states[provider];
      assert states == old(states)[provider := state];
      assert forall p :: View(states, p) == View(old(states), p);
    }

    method IsHealthy(provider: string, now: int) returns (healthy: bool)
      requires Valid()
      modifies this`states
      ensures Valid()
      ensures healthy <==> !CoolingDown(history, provider, failureThreshold, cooldownMs, now)
    {
      var state := StateFor(provider);
      assert Reflects(View(states, provider), Mine(history, provider), failureThreshold, cooldownMs);
      return now >= state.unhealthyUntil;
    }

    method RecordSuccess(provider: string)
      requires Valid()
      modifies this
      ensures Valid() && history == old(history) + [Succeeded(provider)]
    {
      var state := StateFor(provider);
      AttemptReflected(states, history, failureThreshold, cooldownMs, Succeeded(provider));
      states := states[provider := state.(consecutiveFailures := 0, unhealthyUntil := 0)];
      history := history + [Succeeded(provider)];
    }

    method RecordFailure(provider: string, now: int)
      requires Valid()
      modifies this
      ensures Valid() && history == old(history) + [Failed(provider, now)]
    {
      var state := StateFor(provider);
      AttemptReflected(states, history, failureThreshold, cooldownMs, Failed(provider, now));
      ghost var next := Updated(View(states, provider), Failed(provider, now), failureThreshold, cooldownMs);
      ghost var extended := states[provider := next];
      state := state.(consecutiveFailures := state.consecutiveFailures + 1);
      if state.consecutiveFailures >= failureThreshold {
        state := state.(unhealthyUntil := now + cooldownMs);
      }
      states := states[provider := state];
      assert states == extended by { assert state == next; }
      history := history + [Failed(provider, now)];
    }
  }

  /** What a provider call comes to: an answer in time, or an error or a timeout noticed at some instant. */
  datatype Reply<R> = Answered(response: R) | Broke(message: string, at: int)

  datatype ProviderFailure = ProviderFailure(provider: string, message: string)

  ghost predicate Skippable(history: seq<Attempt>, provider: string, limits: (int, int), now: int) {
    CoolingDown(history, provider, limits.0, limits.1, now)
  }

  /** `order` lists positions of the configured providers, in their configured order: the healthy ones,
      or all of them when none is healthy. */
  ghost predicate IsOrder(order: seq<nat>, adapters: seq<string>, history: seq<Attempt>, limits: (int, int),
                          checks: seq<int>)
    requires |checks| == |adapters|
  {
    && (forall a, b | 0 <= a < b < |order| :: order[a] < order[b])
    && (forall a | 0 <= a < |order| :: order[a] < |adapters|)
    && (forall i | 0 <= i < |adapters| :: i in order <==>
         !Skippable(history, adapters[i], limits, checks[i])
         || forall j | 0 <= j < |adapters| :: Skippable(history, adapters[j], limits, checks[j]))
  }

  function Outcome<R>(provider: string, reply: Reply<R>): Attempt {
    match reply
    case Answered(_) => Succeeded(provider)
    case Broke(_, at) => Failed(provider, at)
  }

  /** The attempts made when the first `n` providers in order were called. */
  function Attempts<R>(order: seq<nat>, adapters: seq<string>, replies: seq<Reply<R>>, n: nat): seq<Attempt>
    requires n <= |order| <= |replies| && forall a | 0 <= a < |order| :: order[a] < |adapters|
  {
    if n == 0 then [] else Attempts(order, adapters, replies, n - 1) + [Outcome(adapters[order[n - 1]], replies[n - 1])]
  }

  /** The history grows by one entry for each of the first n calls, in their order: whom was called, and the
      success, or the failure with its instant. */
  ghost predicate CallsNoted<R>(order: seq<nat>, adapters: seq<string>, replies: seq<Reply<R>>, n: nat,
                                before: seq<Attempt>, after: seq<Attempt>)
    requires n <= |order| <= |replies| && forall a | 0 <= a < |order| :: order[a] < |adapters|
  {
    && |after| == |before| + n && after[..|before|] == before
    && forall a | 0 <= a < n :: NotedAs(after[|before| + a], adapters[order[a]], replies[a])
  }

  predicate NotedAs<R>(entry: Attempt, who: string, reply: Reply<R>) {
    match reply
    case Answered(_) => entry.Succeeded? && entry.provider == who
    case Broke(_, at) => entry.Failed? && entry.provider == who && entry.at == at
  }

  lemma {:induction false} AttemptAt<R>(order: seq<nat>, adapters: seq<string>, replies: seq<Reply<R>>, n: nat, a: nat)
    requires a < n <= |order| <= |replies| && forall a | 0 <= a < |order| :: order[a] < |adapters|
    ensures |Attempts(order, adapters, replies, n)| == n
    ensures NotedAs(Attempts(order, adapters, replies, n)[a], adapters[order[a]], replies[a])
  {
    AttemptsCount(order, adapters, replies, n - 1);
    if a == n - 1 {
    } else {
      AttemptAt(order, adapters, replies, n - 1, a);
    }
  }

  lemma {:induction false} AttemptsCount<R>(order: seq<nat>, adapters: seq<string>, replies: seq<Reply<R>>, n: nat)
    requires n <= |order| <= |replies| && forall a | 0 <= a < |order| :: order[a] < |adapters|
    ensures |Attempts(order, adapters, replies, n)| == n
  {
    if n == 0 {
    } else {
      AttemptsCount(order, adapters, replies, n - 1);
    }
  }

  lemma AttemptsAreNoted<R>(order: seq<nat>, adapters: seq<string>, replies: seq<Reply<R>>, n: nat,
                            before: seq<Attempt>)
    requires n <= |order| <= |replies| && forall a | 0 <= a < |order| :: order[a] < |adapters|
    ensures CallsNoted(order, adapters, replies, n, before, before + Attempts(order, adapters, replies, n))
  {
    AttemptsCount(order, adapters, replies, n);
    var more := Attempts(order, adapters, replies, n);
    forall a | 0 <= a < n ensures NotedAs((before + more)[|before| + a], adapters[order[a]], replies[a]) {
      AttemptAt(order, adapters, replies, n, a);
    }
  }

  /** The first n calls broke, each with its failure noted. */
  ghost predicate AllBroke<R>(order: seq<nat>, adapters: seq<string>, replies: seq<Reply<R>>, n: nat,
                              failures: seq<ProviderFailure>)
    requires n <= |order| <= |replies| && forall a | 0 <= a < |order| :: order[a] < |adapters|
  {
    && |failures| == n
    && forall a | 0 <= a < n ::
         replies[a].Broke? && failures[a] == ProviderFailure(adapters[order[a]], replies[a].message)
  }

  ghost predicate GenerateMeets<R>(order: seq<nat>, adapters: seq<string>, replies: seq<Reply<R>>,
                                    before: seq<Attempt>, after: seq<Attempt>, result: Result<R, seq<ProviderFailure>>)
    requires |order| <= |replies| && forall a | 0 <= a < |order| :: order[a] < |adapters|
  {
    match result
    case Ok(response) => exists n: nat ::
      && n < |order| && replies[n] == Answered(response) && (forall a | 0 <= a < n :: replies[a].Broke?)
      && CallsNoted(order, adapters, replies, n + 1, before, after)
    case Err(failures) =>
      AllBroke(order, adapters, replies, |order|, failures)
          && CallsNoted(order, adapters, replies, |order|, before, after)
  }

  method Healthy(adapters: seq<string>, health: ProviderHealthTracker, checks: seq<int>)
    returns (healthy: seq<nat>, ghost flags: seq<bool>)
    requires health.Valid() && |checks| == |adapters|
    modifies health`states
    ensures health.Valid() && |flags| == |adapters| && IsFilter(healthy, flags)
    ensures FlagsMean(flags, adapters, health.history, (health.failureThreshold, health.cooldownMs), checks)
  {
    healthy, flags := [], [];
    for i := 0 to |adapters|
      invariant health.Valid() && |flags| == i
      invariant FlagsMean(flags, adapters, health.history, (health.failureThreshold, health.cooldownMs), checks)
      invariant IsFilter(healthy, flags)
    {
      var flag := health.IsHealthy(adapters[i], checks[i]);
      FilterExtended(healthy, flags, flag);
      FlagsExtended(flags, adapters, health.history, (health.failureThreshold, health.cooldownMs), checks, flag);
      flags := flags + [flag];
      if flag { healthy := healthy + [i]; }
    }
  }

  method Order(adapters: seq<string>, health: ProviderHealthTracker, checks: seq<int>) returns (order: seq<nat>)
    requires health.Valid() && |checks| == |adapters|
    modifies health`states
    ensures health.Valid()
    ensures IsOrder(order, adapters, health.history, (health.failureThreshold, health.cooldownMs), checks)
  {
    ghost var flags: seq<bool>;
    order, flags := Healthy(adapters, health, checks);
    ghost var healthy := order;
    if order == [] {
      order := seq(|adapters|, i requires 0 <= i < |adapters| => i);
    }
    HealthyOrAll(healthy, order, flags, adapters, health.history, (health.failureThreshold, health.cooldownMs), checks);
  }

  lemma FlagsExtended(flags: seq<bool>, adapters: seq<string>, history: seq<Attempt>, limits: (int, int),
                      checks: seq<int>, flag: bool)
    requires |flags| < |adapters| == |checks| && FlagsMean(flags, adapters, history, limits, checks)
    requires flag <==> !CoolingDown(history, adapters[|flags|], limits.0, limits.1, checks[|flags|])
    ensures FlagsMean(flags + [flag], adapters, history, limits, checks)
  {
  }

  ghost predicate FlagsMean(flags: seq<bool>, adapters: seq<string>, history: seq<Attempt>, limits: (int, int),
                            checks: seq<int>)
    requires |flags| <= |adapters| == |checks|
  {
    forall i | 0 <= i < |flags| :: flags[i] <==> !Skippable(history, adapters[i], limits, checks[i])
  }

  lemma HealthyOrAll(healthy: seq<nat>, order: seq<nat>, flags: seq<bool>, adapters: seq<string>,
                     history: seq<Attempt>, limits: (int, int), checks: seq<int>)
    requires |flags| == |adapters| == |checks| && FlagsMean(flags, adapters, history, limits, checks)
    requires IsFilter(healthy, flags)
    requires healthy != [] ==> order == healthy
    requires healthy == [] ==> |order| == |adapters| && forall i | 0 <= i < |order| :: order[i] == i
    ensures IsOrder(order, adapters, history, limits, checks)
  {
    FilterDecides(healthy, flags);
    if healthy == [] {
      forall i | 0 <= i < |adapters| ensures i in order {
        assert order[i] in order;
      }
      assert forall j | 0 <= j < |adapters| :: !flags[j] && Skippable(history, adapters[j], limits, checks[j]);
    } else {
      assert healthy[0] in healthy && flags[healthy[0]];
    }
  }

  ghost predicate IsFilter(order: seq<nat>, flags: seq<bool>) {
    && (forall a, b | 0 <= a < b < |order| :: order[a] < order[b])
    && (forall a | 0 <= a < |order| :: order[a] < |flags|)
    && (forall i | 0 <= i < |flags| :: i in order <==> flags[i])
  }

  lemma FilterExtended(order: seq<nat>, flags: seq<bool>, flag: bool)
    requires IsFilter(order, flags)
    ensures IsFilter(if flag then order + [|flags|] else order, flags + [flag])
  {
  }

  lemma FilterDecides(order: seq<nat>, flags: seq<bool>)
    requires IsFilter(order, flags)
    ensures order == [] <==> forall i | 0 <= i < |flags| :: !flags[i]
  {
    if order != [] { assert order[0] in order; }
  }

  /** Providers are called in order until one answers. `checks[i]` is the clock when provider i is looked
      at, `replies[n]` what the n-th provider called comes to. */
  method Generate<R>(adapters: seq<string>, health: ProviderHealthTracker, checks: seq<int>, replies: seq<Reply<R>>)
    returns (result: Result<R, seq<ProviderFailure>>, ghost order: seq<nat>)
    requires health.Valid() && |checks| == |adapters| <= |replies|
    modifies health
    ensures health.Valid()
    ensures IsOrder(order, adapters, old(health.history), (health.failureThreshold, health.cooldownMs), checks)
    ensures |order| <= |adapters|
    ensures GenerateMeets(order, adapters, replies, old(health.history), health.history, result)
  {
    var candidates := Order(adapters, health, checks);
    order := candidates;
    OrderFits(candidates, |adapters|);
    result := CallInOrder(candidates, adapters, health, replies);
  }

  method CallInOrder<R>(order: seq<nat>, adapters: seq<string>, health: ProviderHealthTracker, replies: seq<Reply<R>>)
    returns (result: Result<R, seq<ProviderFailure>>)
    requires health.Valid() && |order| <= |replies| && forall a | 0 <= a < |order| :: order[a] < |adapters|
    modifies health
    ensures health.Valid()
    ensures GenerateMeets(order, adapters, replies, old(health.history), health.history, result)
  {
    var failures: seq<ProviderFailure> := [];
    for n := 0 to |order|
      invariant health.Valid()
      invariant health.history == old(health.history) + Attempts(order, adapters, replies, n)
      invariant AllBroke(order, adapters, replies, n, failures)
    {
      var provider := adapters[order[n]];
      match replies[n] {
        case Answered(response) =>
          health.RecordSuccess(provider);
          AttemptsAreNoted(order, adapters, replies, n + 1, old(health.history));
          assert health.history == old(health.history) + Attempts(order, adapters, replies, n + 1);
          return Ok(response);
        case Broke(message, at) =>
          health.RecordFailure(provider, at);
          failures := failures + [ProviderFailure(provider, message)];
      }
    }
    AttemptsAreNoted(order, adapters, replies, |order|, old(health.history));
    return Err(failures);
  }

  lemma OrderRises(order: seq<nat>, a: nat)
    requires a < |order| && forall a, b | 0 <= a < b < |order| :: order[a] < order[b]
    ensures a <= order[a]
  {
    if a == 0 {
    } else {
      OrderRises(order, a - 1);
    }
  }

  lemma OrderFits(order: seq<nat>, bound: nat)
    requires forall a, b | 0 <= a < b < |order| :: order[a] < order[b]
    requires forall a | 0 <= a < |order| :: order[a] < bound
    ensures |order| <= bound
  {
    if order != [] { OrderRises(order, |order| - 1); }
  }

  /** The order is determined by the history, and is empty only when nothing is configured. */
  lemma OrderIsUnique(x: seq<nat>, y: seq<nat>, adapters: seq<string>, history: seq<Attempt>, limits: (int, int),
                      checks: seq<int>)
    requires |checks| == |adapters|
    requires IsOrder(x, adapters, history, limits, checks) && IsOrder(y, adapters, history, limits, checks)
    ensures x == y && (x == [] <==> adapters == [])
  {
    forall i ensures i in x <==> i in y {
    }
    SameElementsSameOrder(x, y);
    if adapters != [] {
      if j :| 0 <= j < |adapters| && !Skippable(history, adapters[j], limits, checks[j]) {
        assert j in x;
      } else {
        assert 0 in x;
      }
    }
    assert x != [] ==> x[0] < |adapters|;
  }

  lemma {:induction false} SameElementsSameOrder(x: seq<nat>, y: seq<nat>)
    requires forall a, b | 0 <= a < b < |x| :: x[a] < x[b]
    requires forall a, b | 0 <= a < b < |y| :: y[a] < y[b]
    requires forall i :: i in x <==> i in y
    ensures x == y
  {
    if x == [] {
      assert forall a | 0 <= a < |y| :: y[a] in y;
    } else {
      var m := |x| - 1;
      assert x[m] in y;
      assert y[|y| - 1] in x;
      forall i ensures i in x[..m] <==> i in y[..|y| - 1] {
        assert i in x <==> i in x[..m] || i == x[m];
        assert i in y <==> i in y[..|y| - 1] || i == y[|y| - 1];
      }
      SameElementsSameOrder(x[..m], y[..|y| - 1]);
      assert x == x[..m] + [x[m]] && y == y[..|y| - 1] + [y[|y| - 1]];
    }
  }

  /** A provider that has just failed `threshold` times in a row is passed over until its cooldown ends,
      whatever happens to the others, as long as another provider is not cooling down. */
  lemma FailedProviderIsSkipped(order: seq<nat>, adapters: seq<string>, history: seq<Attempt>, limits: (int, int),
                                checks: seq<int>, i: nat, j: nat)
    requires |checks| == |adapters| && IsOrder(order, adapters, history, limits, checks) && i < |adapters|
    requires j < |adapters|
    requires LastFailed(Mine(history, adapters[i]), AtLeastOne(limits.0))
    requires !LastFailed(Mine(history, adapters[j]), AtLeastOne(limits.0)) && checks[j] >= 0
    ensures var mine := Mine(history, adapters[i]);
      j in order && (i in order <==> checks[i] >= mine[|mine| - 1].at + limits.1)
  {
    assert !Skippable(history, adapters[j], limits, checks[j]);
  }
}
