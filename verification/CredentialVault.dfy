/** Refresh tokens at rest: an encrypted, scoped store that answers like a plain map. */
module CredentialVault {
  import opened Prelude
  import opened MailRecords
  import opened EnvelopeEncryption
  import opened Spec = MemorySpec
  import opened MailState

  datatype VaultError = NotFound | CredentialRevoked | Unopenable(reason: OpenError)

  function OpenRefreshToken(c: Crypto, kms: Kms, m: Credentials, connectionId: string,
                            scope: TenantScope): Result<string, VaultError>
  {
    var record := ScopedCredential(m, connectionId, scope);
    if record.None? then Err(NotFound)
    else if record.value.revokedAt.Some? then Err(CredentialRevoked)
    else
      match Open(c, kms, record.value.envelope)
      case Ok(token) => Ok(token)
      case Err(e) => Err(Unopenable(e))
  }

  datatype NewCredential = NewCredential(
    connectionId: string, scope: TenantScope, userId: string, refreshToken: string,
    grantedScopes: seq<string>, connectedEmail: string, accessTokenExpiresAt: Option<int>)

  function Sealed(c: Crypto, kms: Kms, n: NewCredential, r: Randomness): Credential {
    Credential(n.connectionId, n.scope, n.userId, "google", Seal(c, kms, n.refreshToken, r), n.grantedScopes,
        n.connectedEmail, n.accessTokenExpiresAt, None)
  }

  method SaveMailCredential(state: InMemoryMailState, c: Crypto, kms: Kms, n: NewCredential, r: Randomness,
                            wrapFails: bool)
    returns (saved: bool)
    modifies state`credentials
    ensures saved == !wrapFails
    ensures state.credentials
        == if saved then old(state.credentials)[n.connectionId := Sealed(c, kms, n, r)] else old(state.credentials)
    ensures saved ==> state.credentials == Apply(c, _ => kms, old(state.credentials), Save(n, kms.keyId, r))
    ensures saved ==>
      state.credentials[n.connectionId]
      == Credential(n.connectionId, n.scope, n.userId, "google", Seal(c, kms, n.refreshToken, r), n.grantedScopes,
                    n.connectedEmail, n.accessTokenExpiresAt, None)
  {
    var dataKey := Buffer(r.dataKey);
    var envelope := EnvelopeSeal(c, kms, n.refreshToken, dataKey, r.wrapNonce, r.iv, wrapFails);
    if envelope.None? { return false; }
    state.credentials := state.credentials[n.connectionId :=
      Credential(n.connectionId, n.scope, n.userId, "google", envelope.value, n.grantedScopes, n.connectedEmail,
          n.accessTokenExpiresAt, None)];
    return true;
  }

  method ReadRefreshToken(state: InMemoryMailState, c: Crypto, kms: Kms, connectionId: string, scope: TenantScope)
    returns (r: Result<string, VaultError>)
    ensures r == OpenRefreshToken(c, kms, state.credentials, connectionId, scope)
  {
    if connectionId !in state.credentials || state.credentials[connectionId].scope != scope { return Err(NotFound); }
    var record := state.credentials[connectionId];
    if record.revokedAt.Some? { return Err(CredentialRevoked); }
    var handed := HandOver(kms, record.envelope);
    var opened' := EnvelopeOpen(c, kms, record.envelope, handed);
    match opened' {
      case Ok(token) => return Ok(token);
      case Err(e) => return Err(Unopenable(e));
    }
  }

  // ---- Runs, against a map of plain tokens ----

  /** Key ids name wrappers: the deployment's ring of keys. */
  type KeyRing = string -> Kms

  ghost predicate SoundRing(ring: KeyRing) {
    forall id :: ring(id).keyId == id && Inverts(ring(id))
  }

  datatype VaultOp =
    | Save(credential: NewCredential, keyId: string, random: Randomness)
    | Touch(connectionId: string, scope: TenantScope, expiresAt: int, rotated: Option<string>, keyId: string,
        random: Randomness)
    | RevokeOp(connectionId: string, scope: TenantScope, at: int)
    | Delete(connectionId: string)

  predicate LegalOp(op: VaultOp) {
    op.Save? || op.Touch? ==> WellSized(op.random)
  }

  function Apply(c: Crypto, ring: KeyRing, m: Credentials, op: VaultOp): Credentials {
    match op
    case Save(n, keyId, r) => m[n.connectionId := Sealed(c, ring(keyId), n, r)]
    case Touch(id, scope, expiresAt, rotated, keyId, r) =>
      TouchAfterRefresh(m, id, scope, expiresAt, if rotated.Some? then Some(Seal(c, ring(keyId), rotated.value, r))
          else None)
    case RevokeOp(id, scope, at) => Revoke(m, id, scope, at)
    case Delete(id) => m - {id}
  }

  /** What the vault stands for: per connection its scope, the token, the key id it is under, and
      whether it was revoked. */
  datatype Plain = Plain(scope: TenantScope, token: string, keyId: string, revoked: bool)

  function ApplyPlain(m: map<string, Plain>, op: VaultOp): map<string, Plain> {
    match op
    case Save(n, keyId, _) => m[n.connectionId := Plain(n.scope, n.refreshToken, keyId, false)]
    case Touch(id, scope, _, rotated, keyId, _) =>
      if id in m && m[id].scope == scope && !m[id].revoked && rotated.Some?
          then m[id := m[id].(token := rotated.value, keyId := keyId)] else m
    case RevokeOp(id, scope, _) =>
      if id in m && m[id].scope == scope then m[id := m[id].(revoked := true)] else m
    case Delete(id) => m - {id}
  }

  function OpenPlain(m: map<string, Plain>, connectionId: string, scope: TenantScope,
                     keyId: string): Result<string, VaultError>
  {
    if connectionId !in m || m[connectionId].scope != scope then Err(NotFound)
    else if m[connectionId].revoked then Err(CredentialRevoked)
    else if m[connectionId].keyId != keyId then Err(Unopenable(KeyIdMismatch))
    else Ok(m[connectionId].token)
  }

  ghost predicate Stands(c: Crypto, ring: KeyRing, r: Credential, p: Plain) {
    && r.scope == p.scope && (r.revokedAt.Some? <==> p.revoked)
    && (!p.revoked ==> r.envelope.keyId == p.keyId && Open(c, ring(p.keyId), r.envelope) == Ok(p.token))
  }

  ghost predicate Represents(c: Crypto, ring: KeyRing, m: Credentials, plain: map<string, Plain>) {
    m.Keys == plain.Keys && forall id | id in m :: Stands(c, ring, m[id], plain[id])
  }

  lemma SaveRepresents(c: Crypto, ring: KeyRing, m: Credentials, plain: map<string, Plain>, op: VaultOp)
    requires Sound(c) && SoundRing(ring) && LegalOp(op) && Represents(c, ring, m, plain) && op.Save?
    ensures Represents(c, ring, Apply(c, ring, m, op), ApplyPlain(plain, op))
  {
    SealOpens(c, ring(op.keyId), ring(op.keyId), op.credential.refreshToken, op.random);
  }

  lemma TouchRepresents(c: Crypto, ring: KeyRing, m: Credentials, plain: map<string, Plain>, op: VaultOp)
    requires Sound(c) && SoundRing(ring) && LegalOp(op) && Represents(c, ring, m, plain) && op.Touch?
    ensures Represents(c, ring, Apply(c, ring, m, op), ApplyPlain(plain, op))
  {
    if op.rotated.Some? {
      SealOpens(c, ring(op.keyId), ring(op.keyId), op.rotated.value, op.random);
    }
    var m', plain' := Apply(c, ring, m, op), ApplyPlain(plain, op);
    forall id | id in m' ensures id in plain' && Stands(c, ring, m'[id], plain'[id]) {
      assert Stands(c, ring, m[id], plain[id]);
    }
  }

  lemma EndRepresents(c: Crypto, ring: KeyRing, m: Credentials, plain: map<string, Plain>, op: VaultOp)
    requires Represents(c, ring, m, plain) && (op.RevokeOp? || op.Delete?)
    ensures Represents(c, ring, Apply(c, ring, m, op), ApplyPlain(plain, op))
  {
    var m', plain' := Apply(c, ring, m, op), ApplyPlain(plain, op);
    forall id | id in m' ensures id in plain' && Stands(c, ring, m'[id], plain'[id]) {
      assert Stands(c, ring, m[id], plain[id]);
    }
  }

  lemma ApplyRepresents(c: Crypto, ring: KeyRing, m: Credentials, plain: map<string, Plain>, op: VaultOp)
    requires Sound(c) && SoundRing(ring) && LegalOp(op) && Represents(c, ring, m, plain)
    ensures Represents(c, ring, Apply(c, ring, m, op), ApplyPlain(plain, op))
  {
    match op
    case Save(_, _, _) => SaveRepresents(c, ring, m, plain, op);
    case Touch(_, _, _, _, _, _) => TouchRepresents(c, ring, m, plain, op);
    case RevokeOp(_, _, _) => EndRepresents(c, ring, m, plain, op);
    case Delete(_) => EndRepresents(c, ring, m, plain, op);
  }

  function ApplyAll(c: Crypto, ring: KeyRing, m: Credentials, ops: seq<VaultOp>): Credentials
    decreases ops
  {
    if ops == [] then m else ApplyAll(c, ring, Apply(c, ring, m, ops[0]), ops[1..])
  }

  function ApplyAllPlain(m: map<string, Plain>, ops: seq<VaultOp>): map<string, Plain>
    decreases ops
  {
    if ops == [] then m else ApplyAllPlain(ApplyPlain(m, ops[0]), ops[1..])
  }

  lemma {:induction false} RunRepresents(c: Crypto, ring: KeyRing, m: Credentials, plain: map<string, Plain>,
                                         ops: seq<VaultOp>)
    requires Sound(c) && SoundRing(ring) && Represents(c, ring, m, plain)
    requires forall i | 0 <= i < |ops| :: LegalOp(ops[i])
    ensures Represents(c, ring, ApplyAll(c, ring, m, ops), ApplyAllPlain(plain, ops))
    decreases ops
  {
    if ops == [] {
    } else {
      ApplyRepresents(c, ring, m, plain, ops[0]);
      RunRepresents(c, ring, Apply(c, ring, m, ops[0]), ApplyPlain(plain, ops[0]), ops[1..]);
    }
  }

  /** After any run, opening a token under any deployed key answers as the plain map does: the token last
      sealed for that connection, in its own scope, unrevoked and under that key id, and otherwise the
      matching refusal. */
  lemma VaultRefinesPlainMap(c: Crypto, ring: KeyRing, ops: seq<VaultOp>, connectionId: string, scope: TenantScope,
                             keyId: string)
    requires Sound(c) && SoundRing(ring)
    requires forall i | 0 <= i < |ops| :: LegalOp(ops[i])
    ensures OpenRefreshToken(c, ring(keyId), ApplyAll(c, ring, map[], ops), connectionId, scope)
         == OpenPlain(ApplyAllPlain(map[], ops), connectionId, scope, keyId)
  {
    RunRepresents(c, ring, map[], map[], ops);
  }

  /** A revoked credential comes back through a new save only: refreshes and further revocations leave
      the very record. */
  lemma {:induction false} RevokedStays(c: Crypto, ring: KeyRing, m: Credentials, ops: seq<VaultOp>,
                                        connectionId: string)
    requires connectionId in m && m[connectionId].revokedAt.Some?
    requires forall i | 0 <= i < |ops| :: ops[i].Save? ==> ops[i].credential.connectionId != connectionId
    ensures connectionId in ApplyAll(c, ring, m, ops) ==> ApplyAll(c, ring, m, ops)[connectionId] == m[connectionId]
    decreases ops
  {
    if ops == [] {
    } else {
      var m' := Apply(c, ring, m, ops[0]);
      if connectionId in m' {
        RevokedStays(c, ring, m', ops[1..], connectionId);
      } else {
        AbsentStays(c, ring, m', ops[1..], connectionId);
      }
    }
  }

  lemma {:induction false} AbsentStays(c: Crypto, ring: KeyRing, m: Credentials, ops: seq<VaultOp>,
                                       connectionId: string)
    requires connectionId !in m
    requires forall i | 0 <= i < |ops| :: ops[i].Save? ==> ops[i].credential.connectionId != connectionId
    ensures connectionId !in ApplyAll(c, ring, m, ops)
    decreases ops
  {
    if ops == [] {
    } else {
      AbsentStays(c, ring, Apply(c, ring, m, ops[0]), ops[1..], connectionId);
    }
  }
}
