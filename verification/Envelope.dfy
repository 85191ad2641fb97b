/** Envelope encryption: one fresh data key per secret, wrapped by a key-management service. */
module EnvelopeEncryption {
  import opened Prelude
  import opened MailRecords
  import opened Base64

  /** The primitives of the platform, as functions. `seal` gives ciphertext and tag. */
  datatype Crypto = Crypto(
    seal: (Bytes, Bytes, Bytes) -> (Bytes, Bytes),
    open: (Bytes, Bytes, Bytes, Bytes) -> Option<Bytes>,
    utf8: string -> Bytes,
    text: Bytes -> string,
    sha256: string -> Bytes)

  /** What is assumed of them: 16-byte tags, 32-byte digests, and that the inverse pairs invert. */
  ghost predicate Sound(c: Crypto) {
    && (forall key, iv, p :: |c.seal(key, iv, p).1| == 16
         && c.open(key, iv, c.seal(key, iv, p).1, c.seal(key, iv, p).0) == Some(p))
    && (forall s :: c.text(c.utf8(s)) == s)
    && (forall s :: |c.sha256(s)| == 32)
  }

  // ---- The assumptions can be met ----

  function Unary(v: nat): Bytes {
    if v == 0 then [0] else [1] + Unary(v - 1)
  }

  function UnaryText(s: string): Bytes {
    if s == "" then [] else Unary(s[0] as int) + UnaryText(s[1..])
  }

  function CharOf(v: int): char {
    if 0 <= v < 0xD800 || 0xE000 <= v < 0x11_0000 then v as char else '?'
  }

  function FromUnary(b: Bytes, n: nat): string {
    if b == [] then ""
    else if b[0] == 0 then [CharOf(n)] + FromUnary(b[1..], 0)
    else FromUnary(b[1..], n + 1)
  }

  lemma {:induction false} UnaryInverts(v: nat, rest: Bytes, n: nat)
    ensures FromUnary(Unary(v) + rest, n) == [CharOf(n + v)] + FromUnary(rest, 0)
  {
    var whole := Unary(v) + rest;
    if v == 0 {
      assert whole[1..] == rest;
    } else {
      assert whole[1..] == Unary(v - 1) + rest;
      UnaryInverts(v - 1, rest, n + 1);
    }
  }

  lemma CharOfCode(c: char)
    ensures CharOf(c as int) == c
  {
  }

  lemma HeadInverts(c: char, rest: Bytes)
    ensures FromUnary(Unary(c as int) + rest, 0) == [c] + FromUnary(rest, 0)
  {
    UnaryInverts(c as int, rest, 0);
    CharOfCode(c);
  }

  lemma HeadAndTail(s: string)
    requires s != ""
    ensures s == [s[0]] + s[1..]
  {
  }

  lemma {:induction false} UnaryTextInverts(s: string)
    ensures FromUnary(UnaryText(s), 0) == s
  {
    if s == "" {
    } else {
      UnaryTextInverts(s[1..]);
      HeadInverts(s[0], UnaryText(s[1..]));
      HeadAndTail(s);
    }
  }

  /** A toy instance: nothing below is proved of an impossible object. */
  lemma SoundIsMet() returns (c: Crypto)
    ensures Sound(c)
  {
    c := Crypto((key, iv, p) => (p, seq(16, _ => 0)), (key, iv, tag, data) => Some(data),
                UnaryText, b => FromUnary(b, 0), _ => seq(32, _ => 0));
    forall s ensures c.text(c.utf8(s)) == s {
      UnaryTextInverts(s);
    }
  }

  /** A key wrapper; the nonce stands for the randomness of one wrapping. */
  datatype Kms = Kms(keyId: string, wrap: (Bytes, Bytes) -> Bytes, unwrap: Bytes -> Option<Bytes>)

  ghost predicate Inverts(k: Kms) {
    forall nonce, key :: |nonce| == 12 ==> k.unwrap(k.wrap(nonce, key)) == Some(key)
  }

  // ---- iv || tag || data ----

  function GcmSeal(c: Crypto, key: Bytes, iv: Bytes, plaintext: Bytes): Bytes {
    iv + c.seal(key, iv, plaintext).1 + c.seal(key, iv, plaintext).0
  }

  function GcmOpen(c: Crypto, key: Bytes, sealed: Bytes): Option<Bytes> {
    if |sealed| < 28 then None
    else c.open(key, sealed[..12], sealed[12..28], sealed[28..])
  }

  lemma GcmRoundTrip(c: Crypto, key: Bytes, iv: Bytes, plaintext: Bytes)
    requires Sound(c) && |iv| == 12
    ensures var sealed, (data, tag) := GcmSeal(c, key, iv, plaintext), c.seal(key, iv, plaintext);
      sealed[..12] == iv && sealed[12..28] == tag && sealed[28..] == data
    ensures GcmOpen(c, key, GcmSeal(c, key, iv, plaintext)) == Some(plaintext)
  {
    var (data, tag) := c.seal(key, iv, plaintext);
    var sealed := GcmSeal(c, key, iv, plaintext);
    assert sealed[..12] == iv && sealed[12..28] == tag && sealed[28..] == data;
  }

  /** The wrapper with a local master key: the data key sealed under the master. */
  function LocalMasterKms(c: Crypto, keyId: string, masterKey: Bytes): Kms {
    Kms(keyId, (nonce, key) => GcmSeal(c, masterKey, nonce, key), wrapped => GcmOpen(c, masterKey, wrapped))
  }

  lemma LocalMasterInverts(c: Crypto, keyId: string, masterKey: Bytes)
    requires Sound(c)
    ensures Inverts(LocalMasterKms(c, keyId, masterKey))
  {
    forall nonce: Bytes, key: Bytes | |nonce| == 12
      ensures LocalMasterKms(c, keyId, masterKey).unwrap(LocalMasterKms(c, keyId, masterKey).wrap(nonce, key))
          == Some(key)
    {
      GcmRoundTrip(c, masterKey, nonce, key);
    }
  }

  // ---- Seal and open ----

  /** The random bytes one sealing draws. */
  datatype Randomness = Randomness(dataKey: Bytes, wrapNonce: Bytes, iv: Bytes)

  predicate WellSized(r: Randomness) {
    |r.dataKey| == 32 && |r.wrapNonce| == 12 && |r.iv| == 12
  }

  function Seal(c: Crypto, kms: Kms, plaintext: string, r: Randomness): Envelope {
    Envelope(kms.keyId, Encode(kms.wrap(r.wrapNonce, r.dataKey)),
        Encode(GcmSeal(c, r.dataKey, r.iv, c.utf8(plaintext))))
  }

  datatype OpenError = KeyIdMismatch | BadEncoding | UnwrapFailed | AuthenticationFailed

  function Open(c: Crypto, kms: Kms, e: Envelope): Result<string, OpenError> {
    if e.keyId != kms.keyId then Err(KeyIdMismatch)
    else
      var wrapped, ciphertext := Decode(e.wrappedDataKey), Decode(e.ciphertext);
      if wrapped.None? || ciphertext.None? then Err(BadEncoding)
      else
        var dataKey := kms.unwrap(wrapped.value);
        if dataKey.None? then Err(UnwrapFailed)
        else
          var plain := GcmOpen(c, dataKey.value, ciphertext.value);
          if plain.None? then Err(AuthenticationFailed) else Ok(c.text(plain.value))
  }

  /** What is sealed opens to itself under the same wrapper, and under a wrapper of another key id not at all. */
  lemma SealOpens(c: Crypto, kms: Kms, other: Kms, plaintext: string, r: Randomness)
    requires Sound(c) && Inverts(kms) && WellSized(r)
    ensures Open(c, kms, Seal(c, kms, plaintext, r)) == Ok(plaintext)
    ensures other.keyId != kms.keyId ==> Open(c, other, Seal(c, kms, plaintext, r)) == Err(KeyIdMismatch)
  {
    Base64.RoundTrip(kms.wrap(r.wrapNonce, r.dataKey));
    Base64.RoundTrip(GcmSeal(c, r.dataKey, r.iv, c.utf8(plaintext)));
    GcmRoundTrip(c, r.dataKey, r.iv, c.utf8(plaintext));
  }

  /** Why an envelope does not open: another key id, then text that is no base64, then a data key that does not
      unwrap, then a ciphertext that does not authenticate under it. */
  lemma OpenMeans(c: Crypto, kms: Kms, e: Envelope)
    ensures var r, key := Open(c, kms, e), DataKeyOf(kms, e);
      && (r == Err(KeyIdMismatch) <==> e.keyId != kms.keyId)
      && (r == Err(BadEncoding) <==>
           e.keyId == kms.keyId && (Decode(e.wrappedDataKey).None? || Decode(e.ciphertext).None?))
      && (key.Some? ==>
           var plain := GcmOpen(c, key.value, Decode(e.ciphertext).value);
           r == if plain.None? then Err(AuthenticationFailed) else Ok(c.text(plain.value)))
      && (r == Err(UnwrapFailed) <==>
           && e.keyId == kms.keyId && Decode(e.wrappedDataKey).Some? && Decode(e.ciphertext).Some?
           && kms.unwrap(Decode(e.wrappedDataKey).value).None?)
  {
  }

  method Zero(buffer: array<Byte>)
    modifies buffer
    ensures forall i | 0 <= i < buffer.Length :: buffer[i] == 0
  {
    for i := 0 to buffer.Length
      invariant forall j | 0 <= j < i :: buffer[j] == 0
    {
      buffer[i] := 0;
    }
  }

  method Buffer(bytes: Bytes) returns (buffer: array<Byte>)
    ensures fresh(buffer) && buffer[..] == bytes
  {
    buffer := new Byte[|bytes|](i requires 0 <= i < |bytes| => bytes[i]);
    assert buffer[..] == bytes;
  }

  /** Seal with a data key held in a buffer, which is wiped whether or not the wrapping succeeds. The
      envelope is built before the wipe and does not share the buffer. */
  method EnvelopeSeal(c: Crypto, kms: Kms, plaintext: string, dataKey: array<Byte>, wrapNonce: Bytes, iv: Bytes,
                      wrapFails: bool)
    returns (r: Option<Envelope>)
    modifies dataKey
    ensures r == if wrapFails then None else Some(Seal(c, kms, plaintext, Randomness(old(dataKey[..]), wrapNonce, iv)))
    ensures forall i | 0 <= i < dataKey.Length :: dataKey[i] == 0
  {
    r := None;
    if !wrapFails {
      var wrapped := kms.wrap(wrapNonce, dataKey[..]);
      r := Some(Envelope(kms.keyId, Encode(wrapped), Encode(GcmSeal(c, dataKey[..], iv, c.utf8(plaintext)))));
    }
    Zero(dataKey);
  }

  /** Seal under a data key drawn into a buffer of its own. */
  method SealFresh(c: Crypto, kms: Kms, plaintext: string, r: Randomness) returns (envelope: Envelope)
    ensures envelope == Seal(c, kms, plaintext, r)
  {
    var dataKey := Buffer(r.dataKey);
    var sealed := EnvelopeSeal(c, kms, plaintext, dataKey, r.wrapNonce, r.iv, false);
    envelope := sealed.value;
  }

  /** The data key an envelope unwraps to, if it gets that far. */
  function DataKeyOf(kms: Kms, e: Envelope): Option<Bytes> {
    if e.keyId != kms.keyId || Decode(e.wrappedDataKey).None? || Decode(e.ciphertext).None? then None
    else kms.unwrap(Decode(e.wrappedDataKey).value)
  }

  /** The buffer in which the wrapper hands over the unwrapped key. */
  method HandOver(kms: Kms, e: Envelope) returns (handed: array<Byte>)
    ensures fresh(handed) && forall key :: DataKeyOf(kms, e) == Some(key) ==> handed[..] == key
  {
    var dataKey := DataKeyOf(kms, e);
    handed := Buffer(dataKey.GetOr([]));
  }

  /** Open, wiping the very buffer the unwrapped data key came in, also when authentication fails. */
  method EnvelopeOpen(c: Crypto, kms: Kms, e: Envelope, handed: array<Byte>) returns (r: Result<string, OpenError>)
    requires forall key :: DataKeyOf(kms, e) == Some(key) ==> handed[..] == key
    modifies handed
    ensures r == Open(c, kms, e)
    ensures r.Ok? || r == Err(AuthenticationFailed) ==> forall i | 0 <= i < handed.Length :: handed[i] == 0
    ensures DataKeyOf(kms, e).Some? ==> forall i | 0 <= i < handed.Length :: handed[i] == 0
    ensures DataKeyOf(kms, e).None? ==> handed[..] == old(handed[..])
  {
    if e.keyId != kms.keyId { return Err(KeyIdMismatch); }
    var wrapped, ciphertext := Decode(e.wrappedDataKey), Decode(e.ciphertext);
    if wrapped.None? || ciphertext.None? { return Err(BadEncoding); }
    var dataKey := kms.unwrap(wrapped.value);
    if dataKey.None? { return Err(UnwrapFailed); }
    assert handed[..] == dataKey.value;
    var plain := GcmOpen(c, handed[..], ciphertext.value);
    r := if plain.None? then Err(AuthenticationFailed) else Ok(c.text(plain.value));
    Zero(handed);
  }
}
