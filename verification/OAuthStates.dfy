/** One-time, session-bound OAuth states carrying a sealed PKCE verifier. */
module OAuthStates {
  import opened Prelude
  import opened MailRecords
  import opened Base64
  import opened EnvelopeEncryption
  import opened MailState
  import Spec = MemorySpec
  import Vault = CredentialVault

  const DEFAULT_TTL_MS := 10 * 60 * 1000

  datatype FlowInput = FlowInput(scope: TenantScope, userId: string, sessionId: string, redirectUri: string,
      ttl: Option<int>)

  /** The random draws of one createOAuthState. */
  datatype Draws = Draws(stateBytes: Bytes, verifierBytes: Bytes, seal: Randomness)

  predicate WellDrawn(d: Draws) {
    |d.stateBytes| == 32 && |d.verifierBytes| == 32 && WellSized(d.seal)
  }

  /** Section 4.2 of RFC 7636, method S256. */
  function S256(c: Crypto, verifier: string): string {
    B64Url(c.sha256(verifier))
  }

  function StateHash(stateValue: string): Digest { Sha256(stateValue) }

  function NewState(c: Crypto, kms: Kms, input: FlowInput, d: Draws, at: int): OAuthState {
    OAuthState(StateHash(B64Url(d.stateBytes)), input.scope, input.userId, input.sessionId, input.redirectUri,
      Seal(c, kms, B64Url(d.verifierBytes), d.seal), at, at + input.ttl.GetOr(DEFAULT_TTL_MS), None)
  }

  method CreateOAuthState(state: InMemoryMailState, c: Crypto, kms: Kms, input: FlowInput, d: Draws, at: int)
    returns (stateValue: string, codeChallenge: string)
    modifies state`oauthStates
    ensures stateValue == B64Url(d.stateBytes) && codeChallenge == S256(c, B64Url(d.verifierBytes))
    ensures state.oauthStates == old(state.oauthStates)[StateHash(stateValue) := NewState(c, kms, input, d, at)]
    ensures Sha256(stateValue) in state.oauthStates
    ensures var s := state.oauthStates[Sha256(stateValue)];
      && s.stateHash == Sha256(stateValue) && s.scope == input.scope && s.userId == input.userId
      && s.sessionId == input.sessionId && s.redirectUri == input.redirectUri && s.createdAt == at
      && s.expiresAt == at + (if input.ttl.Some? then input.ttl.value else 600_000) && s.consumedAt == None
    ensures codeChallenge == B64Url(c.sha256(B64Url(d.verifierBytes)))
    ensures |d.stateBytes| == 32 == |d.verifierBytes| && WellSized(d.seal) ==>
      Enabled(World(old(state.oauthStates), map[], []), Begin(input, d, at, kms.keyId))
    ensures var w := Do(c, _ => kms, World(old(state.oauthStates), map[], []), Begin(input, d, at, kms.keyId));
      && w.states == state.oauthStates && w.successes == []
      && w.flows == map[Sha256(stateValue) := Flow(codeChallenge, input, at, kms.keyId)]
  {
    stateValue := B64Url(d.stateBytes);
    var codeVerifier := B64Url(d.verifierBytes);
    codeChallenge := B64Url(c.sha256(codeVerifier));
    var envelope := SealFresh(c, kms, codeVerifier, d.seal);
    var record := OAuthState(StateHash(stateValue), input.scope, input.userId, input.sessionId, input.redirectUri,
      envelope, at, at + input.ttl.GetOr(DEFAULT_TTL_MS), None);
    state.oauthStates := state.oauthStates[StateHash(stateValue) := record];
  }

  datatype ConsumedState = ConsumedState(scope: TenantScope, userId: string, sessionId: string, codeVerifier: string)

  datatype FlowError = Rejected(reason: ConsumeError) | VerifierUnopenable(reason': OpenError)

  function Consumed(c: Crypto, kms: Kms, s: OAuthState): Result<ConsumedState, FlowError> {
    match Open(c, kms, s.codeVerifierEncrypted)
    case Ok(verifier) => Ok(ConsumedState(s.scope, s.userId, s.sessionId, verifier))
    case Err(e) => Err(VerifierUnopenable(e))
  }

  /** The state is spent before its verifier is opened. */
  method ConsumeOAuthState(state: InMemoryMailState, c: Crypto, kms: Kms, stateValue: string, redirectUri: string,
                           sessionId: string, now: int)
    returns (r: Result<ConsumedState, FlowError>)
    modifies state`oauthStates
    ensures var (states, reply) :=
        Spec.Consume(old(state.oauthStates), StateHash(stateValue), redirectUri, sessionId, now);
      && state.oauthStates == states
      && r == match reply { case Err(e) => Err(Rejected(e)) case Ok(s) => Consumed(c, kms, s) }
    ensures var h := Sha256(stateValue);
      var (before, spent) := (old(state.oauthStates), state.oauthStates != old(state.oauthStates));
      Do(c, _ => kms, World(before, map[], []), Callback(stateValue, redirectUri, sessionId, now, kms.keyId))
      == World(state.oauthStates, map[],
               if spent then [Success(h, redirectUri, sessionId, now, kms.keyId, r)] else [])
  {
    var consumed := state.ConsumeState(StateHash(stateValue), redirectUri, sessionId, now);
    if consumed.Err? { return Err(Rejected(consumed.error)); }
    var handed := HandOver(kms, consumed.value.codeVerifierEncrypted);
    var verifier := EnvelopeOpen(c, kms, consumed.value.codeVerifierEncrypted, handed);
    match verifier {
      case Err(e) => return Err(VerifierUnopenable(e));
      case Ok(v) => return Ok(ConsumedState(consumed.value.scope, consumed.value.userId, consumed.value.sessionId, v));
    }
  }

  // ---- Any interleaving of starts and callbacks ----

  /** What the browser was sent away with. */
  datatype Flow = Flow(challenge: string, input: FlowInput, startedAt: int, keyId: string)

  datatype Step =
    | Begin(input: FlowInput, draws: Draws, at: int, keyId: string)
    | Callback(stateValue: string, redirectUri: string, sessionId: string, at: int, keyId: string)

  datatype Success = Success(stateHash: Digest, redirectUri: string, sessionId: string, at: int, keyId: string,
      result: Result<ConsumedState, FlowError>)

  datatype World = World(states: Spec.OAuthStates, flows: map<Digest, Flow>, successes: seq<Success>)

  predicate Enabled(w: World, s: Step) {
    s.Begin? ==> WellDrawn(s.draws) && StateHash(B64Url(s.draws.stateBytes)) !in w.flows
  }

  function Do(c: Crypto, ring: Vault.KeyRing, w: World, s: Step): World {
    match s
    case Begin(input, draws, at, keyId) =>
      var record := NewState(c, ring(keyId), input, draws, at);
      w.(states := w.states[record.stateHash := record],
         flows := w.flows[record.stateHash := Flow(S256(c, B64Url(draws.verifierBytes)), input, at, keyId)])
    case Callback(stateValue, redirect, session, at, keyId) =>
      var h := StateHash(stateValue);
      var (states, reply) := Spec.Consume(w.states, h, redirect, session, at);
      if reply.Err? then w
      else
        var success := Success(h, redirect, session, at, keyId, Consumed(c, ring(keyId), reply.value));
        World(states, w.flows, w.successes + [success])
  }

  /** A refused callback leaves every stored state as it is. */
  lemma RefusalChangesNothing(states: Spec.OAuthStates, h: Digest, redirect: string, session: string, at: int)
    requires Spec.Consume(states, h, redirect, session, at).1.Err?
    ensures Spec.Consume(states, h, redirect, session, at).0 == states
  {
  }

  predicate Legal(c: Crypto, ring: Vault.KeyRing, w: World, steps: seq<Step>)
    decreases steps
  {
    steps == [] || (Enabled(w, steps[0]) && Legal(c, ring, Do(c, ring, w, steps[0]), steps[1..]))
  }

  function Run(c: Crypto, ring: Vault.KeyRing, w: World, steps: seq<Step>): World
    decreases steps
  {
    if steps == [] then w else Run(c, ring, Do(c, ring, w, steps[0]), steps[1..])
  }

  ghost predicate Verifies(c: Crypto, verifier: string, challenge: string) {
    S256(c, verifier) == challenge && |verifier| == 43 && |challenge| == 43
    && (forall i | 0 <= i < |verifier| :: UrlSafe(verifier[i]))
    && (forall i | 0 <= i < |challenge| :: UrlSafe(challenge[i]))
  }

  ghost predicate StateFits(c: Crypto, ring: Vault.KeyRing, s: OAuthState, f: Flow) {
    && s.redirectUri == f.input.redirectUri && s.sessionId == f.input.sessionId && s.scope == f.input.scope
    && s.userId == f.input.userId
    && s.expiresAt == f.startedAt + f.input.ttl.GetOr(DEFAULT_TTL_MS)
    && s.codeVerifierEncrypted.keyId == f.keyId
    && Open(c, ring(f.keyId), s.codeVerifierEncrypted).Ok?
    && Verifies(c, Open(c, ring(f.keyId), s.codeVerifierEncrypted).value, f.challenge)
  }

  /** A success belongs to its own flow, in time, and hands back the verifier of the challenge sent out, or,
      when the deployed key changed in between, no verifier at all. */
  ghost predicate SuccessFits(c: Crypto, f: Flow, s: Success) {
    && s.redirectUri == f.input.redirectUri && s.sessionId == f.input.sessionId
    && s.at <= f.startedAt + f.input.ttl.GetOr(DEFAULT_TTL_MS)
    && (s.keyId == f.keyId ==>
        && s.result.Ok? && s.result.value.scope == f.input.scope && s.result.value.userId == f.input.userId
        && s.result.value.sessionId == f.input.sessionId && Verifies(c, s.result.value.codeVerifier, f.challenge))
    && (s.keyId != f.keyId ==> s.result == Err(VerifierUnopenable(KeyIdMismatch)))
  }

  ghost predicate StatesFit(c: Crypto, ring: Vault.KeyRing, states: Spec.OAuthStates, flows: map<Digest, Flow>) {
    states.Keys == flows.Keys && forall h | h in states :: StateFits(c, ring, states[h], flows[h])
  }

  ghost predicate SuccessesFit(c: Crypto, flows: map<Digest, Flow>, successes: seq<Success>) {
    forall i | 0 <= i < |successes| ::
        successes[i].stateHash in flows && SuccessFits(c, flows[successes[i].stateHash], successes[i])
  }

  /** Every success has spent its own state. */
  ghost predicate SpentOnce(states: Spec.OAuthStates, successes: seq<Success>) {
    && (forall i | 0 <= i < |successes| ::
         successes[i].stateHash in states && states[successes[i].stateHash].consumedAt.Some?)
    && (forall i, j | 0 <= i < j < |successes| :: successes[i].stateHash != successes[j].stateHash)
  }

  ghost predicate Consistent(c: Crypto, ring: Vault.KeyRing, w: World) {
    StatesFit(c, ring, w.states, w.flows) && SuccessesFit(c, w.flows, w.successes) && SpentOnce(w.states, w.successes)
  }

  lemma NewStateFits(c: Crypto, ring: Vault.KeyRing, s: Step)
    requires Sound(c) && Vault.SoundRing(ring) && s.Begin? && WellDrawn(s.draws)
    ensures StateFits(c, ring, NewState(c, ring(s.keyId), s.input, s.draws, s.at),
        Flow(S256(c, B64Url(s.draws.verifierBytes)), s.input, s.at, s.keyId))
  {
    SealOpens(c, ring(s.keyId), ring(s.keyId), B64Url(s.draws.verifierBytes), s.draws.seal);
    B64UrlShape(s.draws.verifierBytes);
    B64UrlShape(c.sha256(B64Url(s.draws.verifierBytes)));
  }

  lemma StatesFitUpdate(c: Crypto, ring: Vault.KeyRing, states: Spec.OAuthStates, flows: map<Digest, Flow>, h: Digest,
                        s: OAuthState, f: Flow)
    requires StatesFit(c, ring, states, flows) && StateFits(c, ring, s, f)
    ensures StatesFit(c, ring, states[h := s], flows[h := f])
  {
    var states', flows' := states[h := s], flows[h := f];
    forall k | k in states' ensures StateFits(c, ring, states'[k], flows'[k]) {
      if k != h { assert StateFits(c, ring, states[k], flows[k]); }
    }
  }

  lemma BeginKeeps(c: Crypto, ring: Vault.KeyRing, w: World, s: Step)
    requires Sound(c) && Vault.SoundRing(ring) && Consistent(c, ring, w) && Enabled(w, s) && s.Begin?
    ensures Consistent(c, ring, Do(c, ring, w, s))
  {
    var record := NewState(c, ring(s.keyId), s.input, s.draws, s.at);
    var flow := Flow(S256(c, B64Url(s.draws.verifierBytes)), s.input, s.at, s.keyId);
    NewStateFits(c, ring, s);
    StatesFitUpdate(c, ring, w.states, w.flows, record.stateHash, record, flow);
    assert Do(c, ring, w, s) == World(w.states[record.stateHash := record], w.flows[record.stateHash := flow],
        w.successes);
    SuccessesKeep(c, w.flows, record.stateHash, flow, w.successes);
  }

  lemma SuccessesKeep(c: Crypto, flows: map<Digest, Flow>, h: Digest, f: Flow, successes: seq<Success>)
    requires SuccessesFit(c, flows, successes) && h !in flows
    ensures SuccessesFit(c, flows[h := f], successes)
  {
    forall i | 0 <= i < |successes|
      ensures successes[i].stateHash in flows[h := f]
      ensures SuccessFits(c, flows[h := f][successes[i].stateHash], successes[i])
    {
      assert SuccessFits(c, flows[successes[i].stateHash], successes[i]);
    }
  }

  /** What a successful consume found, and what it leaves. */
  lemma ConsumeFits(c: Crypto, ring: Vault.KeyRing, before: OAuthState, f: Flow, s: Step)
    requires s.Callback? && StateFits(c, ring, before, f) && ring(f.keyId).keyId == f.keyId
    requires ring(s.keyId).keyId == s.keyId
    requires Spec.Refusal(before, s.redirectUri, s.sessionId, s.at).None?
    ensures before.consumedAt.None?
    ensures StateFits(c, ring, before.(consumedAt := Some(s.at)), f)
    ensures SuccessFits(c, f, Success(StateHash(s.stateValue), s.redirectUri, s.sessionId, s.at, s.keyId,
      Consumed(c, ring(s.keyId), before.(consumedAt := Some(s.at)))))
  {
  }

  /** A callback either changes nothing or spends its state and records one success. */
  lemma CallbackEffect(c: Crypto, ring: Vault.KeyRing, w: World, s: Step)
    requires s.Callback?
    ensures var h := StateHash(s.stateValue);
      if h in w.states && Spec.Refusal(w.states[h], s.redirectUri, s.sessionId, s.at).None? then
        var spent := w.states[h].(consumedAt := Some(s.at));
        Do(c, ring, w, s) == World(w.states[h := spent], w.flows,
          w.successes + [Success(h, s.redirectUri, s.sessionId, s.at, s.keyId, Consumed(c, ring(s.keyId), spent))])
      else Do(c, ring, w, s) == w
  {
  }

  lemma SpentOnceAdded(states: Spec.OAuthStates, successes: seq<Success>, spent: OAuthState, s: Success)
    requires SpentOnce(states, successes) && s.stateHash in states && states[s.stateHash].consumedAt.None?
    requires spent.consumedAt.Some?
    ensures SpentOnce(states[s.stateHash := spent], successes + [s])
  {
  }

  lemma CallbackKeeps(c: Crypto, ring: Vault.KeyRing, w: World, s: Step)
    requires Vault.SoundRing(ring) && Consistent(c, ring, w) && s.Callback?
    ensures Consistent(c, ring, Do(c, ring, w, s))
  {
    var h := StateHash(s.stateValue);
    CallbackEffect(c, ring, w, s);
    if h in w.states && Spec.Refusal(w.states[h], s.redirectUri, s.sessionId, s.at).None? {
      var spent := w.states[h].(consumedAt := Some(s.at));
      ConsumeFits(c, ring, w.states[h], w.flows[h], s);
      AcceptedKeeps(c, ring, w, h, spent,
          Success(h, s.redirectUri, s.sessionId, s.at, s.keyId, Consumed(c, ring(s.keyId), spent)));
    }
  }

  lemma AcceptedKeeps(c: Crypto, ring: Vault.KeyRing, w: World, h: Digest, spent: OAuthState, success: Success)
    requires Consistent(c, ring, w) && h in w.states && success.stateHash == h
    requires w.states[h].consumedAt.None? && spent.consumedAt.Some? && StateFits(c, ring, spent, w.flows[h])
    requires SuccessFits(c, w.flows[h], success)
    ensures Consistent(c, ring, World(w.states[h := spent], w.flows, w.successes + [success]))
  {
    StatesFitUpdate(c, ring, w.states, w.flows, h, spent, w.flows[h]);
    assert w.flows[h := w.flows[h]] == w.flows;
    SpentOnceAdded(w.states, w.successes, spent, success);
    SuccessAdded(c, w.flows, w.successes, success);
  }

  lemma SuccessAdded(c: Crypto, flows: map<Digest, Flow>, successes: seq<Success>, s: Success)
    requires SuccessesFit(c, flows, successes) && s.stateHash in flows && SuccessFits(c, flows[s.stateHash], s)
    ensures SuccessesFit(c, flows, successes + [s])
  {
  }

  lemma ConsistentKept(c: Crypto, ring: Vault.KeyRing, w: World, s: Step)
    requires Sound(c) && Vault.SoundRing(ring) && Consistent(c, ring, w) && Enabled(w, s)
    ensures Consistent(c, ring, Do(c, ring, w, s))
  {
    if s.Begin? { BeginKeeps(c, ring, w, s); } else { CallbackKeeps(c, ring, w, s); }
  }

  lemma {:induction false} ConsistentAlways(c: Crypto, ring: Vault.KeyRing, w: World, steps: seq<Step>)
    requires Sound(c) && Vault.SoundRing(ring) && Consistent(c, ring, w) && Legal(c, ring, w, steps)
    ensures Consistent(c, ring, Run(c, ring, w, steps))
    decreases steps
  {
    if steps == [] {
    } else {
      ConsistentKept(c, ring, w, steps[0]);
      ConsistentAlways(c, ring, Do(c, ring, w, steps[0]), steps[1..]);
    }
  }

  /** In any interleaving a state is consumed at most once, only under its own redirect and session and in
      time, and the verifier returned is the one whose S256 challenge was sent out; verifier and challenge
      are 43 URL-safe characters. */
  lemma OneTimeAndPkceConsistent(c: Crypto, ring: Vault.KeyRing, steps: seq<Step>)
    requires Sound(c) && Vault.SoundRing(ring) && Legal(c, ring, World(map[], map[], []), steps)
    ensures var w := Run(c, ring, World(map[], map[], []), steps);
      && (forall i, j | 0 <= i < j < |w.successes| :: w.successes[i].stateHash != w.successes[j].stateHash)
      && (forall i | 0 <= i < |w.successes| ::
            w.successes[i].stateHash in w.flows && SuccessFits(c, w.flows[w.successes[i].stateHash], w.successes[i]))
  {
    ConsistentAlways(c, ring, World(map[], map[], []), steps);
  }
}
