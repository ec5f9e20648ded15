/**
 Envelope encryption with data-key caches.

 The cipher, the base64 codec and the key service are function values; what is assumed of them is the
 predicate Correct, and that generated data keys unwrap to themselves.
 */
module Cipher {
  import opened Wrappers

  type Bytes = seq<int>

  datatype Sealed = Sealed(tag: Bytes, data: Bytes)

  datatype Toolkit = Toolkit(
    seal: (Bytes, Bytes, string) -> Sealed,
    unseal: (Bytes, Bytes, Sealed) -> Option<string>,
    unwrap: Bytes -> Option<Bytes>,
    encode: Bytes -> string,
    decode: string -> Bytes)

  ghost predicate Correct(t: Toolkit) {
    && (forall key, iv, plaintext :: t.unseal(key, iv, t.seal(key, iv, plaintext)) == Some(plaintext))
    && (forall b :: t.decode(t.encode(b)) == b && ':' !in t.encode(b))
  }
}

/** The envelope format and the service over a key-management service. */
module Kms {
  import opened Wrappers
  import opened Cipher
  import opened Text

  datatype Error = NotConfigured | UnsupportedFormat | InvalidKeyVersion | NotKmsEnvelope | KeyServiceFailed | Unauthenticated

  /** A data key with its wrapped form. */
  datatype DataKey = DataKey(encrypted: Bytes, plaintext: Bytes)

  datatype ActiveDek = ActiveDek(dek: DataKey, expiresAt: int)

  datatype CachedDek = CachedDek(plaintext: Bytes, expiresAt: int)

  function Fields(version: int, dek: DataKey, iv: Bytes, s: Sealed, t: Toolkit): seq<string> {
    ["kms", ToString(version), t.encode(dek.encrypted), t.encode(iv), t.encode(s.tag), t.encode(s.data)]
  }

  function Envelope(version: int, dek: DataKey, iv: Bytes, plaintext: string, t: Toolkit): string {
    Join(Fields(version, dek, iv, t.seal(dek.plaintext, iv, plaintext), t), ':')
  }

  function Parts(ciphertext: string): Option<seq<string>>
    ensures Parts(ciphertext).Some? ==> |Parts(ciphertext).value| == 6
  {
    var parts := Split(ciphertext, ':');
    if parts[0] != "kms" || |parts| != 6 then None else Some(parts)
  }

  function KeyVersionOf(ciphertext: string): Result<int, Error> {
    match Parts(ciphertext)
    case None => Err(UnsupportedFormat)
    case Some(parts) =>
      var version := ParseInt(parts[1]);
      if version.None? || version.value < 1 then Err(InvalidKeyVersion) else Ok(version.value)
  }

  function Unseal(parts: seq<string>, key: Bytes, t: Toolkit): Result<string, Error>
    requires |parts| == 6
  {
    match t.unseal(key, t.decode(parts[3]), Sealed(t.decode(parts[4]), t.decode(parts[5])))
    case None => Err(Unauthenticated)
    case Some(plaintext) => Ok(plaintext)
  }

  /** Decryption without any cache: every data key is unwrapped by the key service. */
  function Decrypted(ciphertext: string, configured: bool, t: Toolkit): Result<string, Error> {
    match Parts(ciphertext)
    case None => Err(UnsupportedFormat)
    case Some(parts) =>
      if !configured then Err(NotConfigured)
      else
        match t.unwrap(t.decode(parts[2]))
        case None => Err(KeyServiceFailed)
        case Some(key) => Unseal(parts, key, t)
  }

  /** What opening an envelope by hand gives: the fields, the unwrapped key, the cipher's answer. */
  function Opened(ciphertext: string, t: Toolkit): Option<string> {
    var parts := Split(ciphertext, ':');
    if |parts| != 6 || parts[0] != "kms" then None
    else
      var key := t.unwrap(t.decode(parts[2]));
      if key == None then None
      else t.unseal(key.value, t.decode(parts[3]), Sealed(t.decode(parts[4]), t.decode(parts[5])))
  }

  /** Decryption never invents a text, and says of every failure which it was. */
  lemma DecryptedIff(ciphertext: string, configured: bool, t: Toolkit)
    ensures var parts, r := Split(ciphertext, ':'), Decrypted(ciphertext, configured, t);
            && (r.Ok? <==> configured && Opened(ciphertext, t).Some?)
            && (r.Ok? ==> Opened(ciphertext, t) == Some(r.value))
            && (r == Err(UnsupportedFormat) <==> |parts| != 6 || parts[0] != "kms")
            && (r == Err(NotConfigured) <==> |parts| == 6 && parts[0] == "kms" && !configured)
            && (r == Err(KeyServiceFailed) <==> |parts| == 6 && parts[0] == "kms" && configured && t.unwrap(t.decode(parts[2])) == None)
            && (r == Err(Unauthenticated) <==>
                  && |parts| == 6 && parts[0] == "kms" && configured && t.unwrap(t.decode(parts[2])).Some?
                  && Opened(ciphertext, t) == None)
  {
  }

  /** The colons of an envelope are its own: it splits into the fields it was joined from. */
  lemma EnvelopeSplits(version: int, dek: DataKey, iv: Bytes, plaintext: string, t: Toolkit)
    requires Correct(t)
    ensures Parts(Envelope(version, dek, iv, plaintext, t))
            == Some(Fields(version, dek, iv, t.seal(dek.plaintext, iv, plaintext), t))
  {
    NumberHasNo(version, ':');
    SplitOfJoin(Fields(version, dek, iv, t.seal(dek.plaintext, iv, plaintext), t), ':');
  }

  /** Decrypting undoes encrypting, whatever the version, data key and initialisation vector. */
  lemma DecryptUndoesEncrypt(version: int, dek: DataKey, iv: Bytes, plaintext: string, t: Toolkit)
    requires Correct(t) && t.unwrap(dek.encrypted) == Some(dek.plaintext)
    ensures Decrypted(Envelope(version, dek, iv, plaintext, t), true, t) == Ok(plaintext)
  {
    EnvelopeSplits(version, dek, iv, plaintext, t);
  }

  /** An envelope names the version it was made with; a version below one cannot be read back. */
  lemma EnvelopeVersion(version: int, dek: DataKey, iv: Bytes, plaintext: string, t: Toolkit)
    requires Correct(t)
    ensures KeyVersionOf(Envelope(version, dek, iv, plaintext, t)) == if version >= 1 then Ok(version) else Err(InvalidKeyVersion)
  {
    EnvelopeSplits(version, dek, iv, plaintext, t);
    ParseIntOfToString(version);
  }

  lemma EnvelopeStart(version: int, dek: DataKey, iv: Bytes, plaintext: string, t: Toolkit)
    ensures var c := Envelope(version, dek, iv, plaintext, t); |c| >= 4 && c[..4] == "kms:"
  {
  }

  class KmsCryptoService {
    const keyId: Option<string>
    const keyVersion: int
    const dekCacheTtlMs: int
    const tools: Toolkit
    var activeDek: Option<ActiveDek>
    var dekCache: map<string, CachedDek>

    /** Whatever is cached is what the key service would answer. */
    ghost predicate Valid()
      reads this
    {
      && Correct(tools)
      && (activeDek.Some? ==> tools.unwrap(activeDek.value.dek.encrypted) == Some(activeDek.value.dek.plaintext))
      && (forall k :: k in dekCache ==> tools.unwrap(tools.decode(k)) == Some(dekCache[k].plaintext))
    }

    predicate Configured() {
      keyId.Some? && keyId.value != ""
    }

    constructor (keyId: Option<string>, keyVersion: int, dekCacheTtlMs: int, tools: Toolkit)
      requires Correct(tools)
      ensures Valid() && this.keyId == keyId && this.keyVersion == keyVersion && this.tools == tools
      ensures this.dekCacheTtlMs == dekCacheTtlMs && activeDek == None && dekCache == map[]
    {
      this.keyId, this.keyVersion, this.dekCacheTtlMs, this.tools := keyId, keyVersion, dekCacheTtlMs, tools;
      activeDek, dekCache := None, map[];
    }

    /** The key service's reply, if it gives one, is a data key and its wrapped form. */
    method GetActiveDek(now: int, generated: Option<DataKey>) returns (r: Result<DataKey, Error>)
      requires Valid()
      requires generated.Some? ==> tools.unwrap(generated.value.encrypted) == Some(generated.value.plaintext)
      modifies this`activeDek
      ensures Valid()
      ensures r.Ok? ==> tools.unwrap(r.value.encrypted) == Some(r.value.plaintext)
      ensures var live := old(activeDek).Some? && old(activeDek).value.expiresAt > now;
              && r == (if !Configured() then Err(NotConfigured)
                       else if live then Ok(old(activeDek).value.dek)
                       else if generated.Some? then Ok(generated.value) else Err(KeyServiceFailed))
              && activeDek == if r.Ok? && !live then Some(ActiveDek(r.value, now + dekCacheTtlMs)) else old(activeDek)
    {
      if !Configured() { return Err(NotConfigured); }
      if activeDek.Some? && activeDek.value.expiresAt > now { return Ok(activeDek.value.dek); }
      if generated.None? { return Err(KeyServiceFailed); }
      activeDek := Some(ActiveDek(generated.value, now + dekCacheTtlMs));
      return Ok(generated.value);
    }

    /** Without the key service only cached keys are found; with it, the answer is always the service's. */
    method GetDekPlaintext(encryptedDek: string, now: int, reachable: bool) returns (r: Result<Bytes, Error>)
      requires Valid()
      modifies this`dekCache
      ensures Valid()
      ensures r.Ok? ==> tools.unwrap(tools.decode(encryptedDek)) == Some(r.value)
      ensures r.Err? ==> r.error == (if !Configured() then NotConfigured else KeyServiceFailed)
      ensures var live := encryptedDek in old(dekCache) && old(dekCache)[encryptedDek].expiresAt > now;
              && (r.Ok? <==> Configured() && (live || (reachable && tools.unwrap(tools.decode(encryptedDek)).Some?)))
              && (live || r.Err? ==> dekCache == old(dekCache))
              && (!live && r.Ok? ==> dekCache == old(dekCache)[encryptedDek := CachedDek(r.value, now + dekCacheTtlMs)])
      ensures forall k :: k != encryptedDek ==> (k in dekCache <==> k in old(dekCache))
                                                && (k in dekCache ==> dekCache[k] == old(dekCache)[k])
    {
      if !Configured() { return Err(NotConfigured); }
      if encryptedDek in dekCache && dekCache[encryptedDek].expiresAt > now { return Ok(dekCache[encryptedDek].plaintext); }
      var plaintext := if reachable then tools.unwrap(tools.decode(encryptedDek)) else None;
      if plaintext.None? { return Err(KeyServiceFailed); }
      dekCache := dekCache[encryptedDek := CachedDek(plaintext.value, now + dekCacheTtlMs)];
      return Ok(plaintext.value);
    }

    method Encrypt(plaintext: string, iv: Bytes, now: int, generated: Option<DataKey>) returns (r: Result<string, Error>)
      requires Valid()
      requires generated.Some? ==> tools.unwrap(generated.value.encrypted) == Some(generated.value.plaintext)
      modifies this`activeDek
      ensures Valid()
      ensures r.Ok? <==> Configured() && (generated.Some? || (old(activeDek).Some? && old(activeDek).value.expiresAt > now))
      ensures r.Ok? ==>
                && Decrypted(r.value, true, tools) == Ok(plaintext)
                && KeyVersionOf(r.value) == (if keyVersion >= 1 then Ok(keyVersion) else Err(InvalidKeyVersion))
                && |r.value| >= 4 && r.value[..4] == "kms:"
    {
      var dek := GetActiveDek(now, generated);
      if dek.Err? { return Err(dek.error); }
      DecryptUndoesEncrypt(keyVersion, dek.value, iv, plaintext, tools);
      EnvelopeVersion(keyVersion, dek.value, iv, plaintext, tools);
      EnvelopeStart(keyVersion, dek.value, iv, plaintext, tools);
      return Ok(Envelope(keyVersion, dek.value, iv, plaintext, tools));
    }

    /** In every state of the caches, decrypting gives what it gives without them, or no answer. */
    method Decrypt(ciphertext: string, now: int, reachable: bool) returns (r: Result<string, Error>)
      requires Valid()
      modifies this`dekCache
      ensures Valid()
      ensures reachable ==> r == Decrypted(ciphertext, Configured(), tools)
      ensures !reachable ==> r == Decrypted(ciphertext, Configured(), tools) || r == Err(KeyServiceFailed)
      ensures var parts := Split(ciphertext, ':');
              && (r.Ok? ==> |parts| == 6 && parts[0] == "kms" && Opened(ciphertext, tools) == Some(r.value))
              && (reachable && |parts| == 6 && parts[0] == "kms" && Configured() && Opened(ciphertext, tools) == None ==>
                    r == if tools.unwrap(tools.decode(parts[2])).Some? then Err(Unauthenticated) else Err(KeyServiceFailed))
    {
      DecryptedIff(ciphertext, Configured(), tools);
      var parts := Parts(ciphertext);
      if parts.None? { return Err(UnsupportedFormat); }
      var key := GetDekPlaintext(parts.value[2], now, reachable);
      if key.Err? { return Err(key.error); }
      return Unseal(parts.value, key.value, tools);
    }

    /** A stale envelope is replaced by one of the active version with the same plaintext. */
    method ReEncryptIfStale(ciphertext: string, iv: Bytes, now: int, reachable: bool, generated: Option<DataKey>)
      returns (r: Result<Option<string>, Error>)
      requires Valid()
      requires generated.Some? ==> tools.unwrap(generated.value.encrypted) == Some(generated.value.plaintext)
      modifies this`activeDek, this`dekCache
      ensures Valid()
      ensures ciphertext[..(if |ciphertext| < 4 then |ciphertext| else 4)] != "kms:" ==> r == Err(NotKmsEnvelope)
      ensures r == Ok(None) ==> KeyVersionOf(ciphertext) == Ok(keyVersion)
      ensures KeyVersionOf(ciphertext) == Ok(keyVersion) && |ciphertext| >= 4 && ciphertext[..4] == "kms:" ==> r == Ok(None)
      ensures KeyVersionOf(ciphertext) != Ok(keyVersion) && Opened(ciphertext, tools) == None ==> r.Err?
      ensures r.Ok? && r.value.Some? ==>
                && Opened(ciphertext, tools).Some? && Opened(r.value.value, tools) == Opened(ciphertext, tools)
                && Decrypted(ciphertext, true, tools).Ok?
                && Decrypted(r.value.value, true, tools) == Decrypted(ciphertext, true, tools)
                && KeyVersionOf(r.value.value) == (if keyVersion >= 1 then Ok(keyVersion) else Err(InvalidKeyVersion))
                && |r.value.value| >= 4 && r.value.value[..4] == "kms:"
    {
      if |ciphertext| < 4 || ciphertext[..4] != "kms:" { return Err(NotKmsEnvelope); }
      var version := KeyVersionOf(ciphertext);
      if version.Err? { return Err(version.error); }
      if version.value == keyVersion { return Ok(None); }
      var plaintext := Decrypt(ciphertext, now, reachable);
      if plaintext.Err? { return Err(plaintext.error); }
      var renewed := Encrypt(plaintext.value, iv, now, generated);
      if renewed.Err? { return Err(renewed.error); }
      DecryptedIff(renewed.value, true, tools);
      return Ok(Some(renewed.value));
    }

    method ClearCaches()
      requires Correct(tools)
      modifies this`activeDek, this`dekCache
      ensures Valid() && activeDek == None && dekCache == map[]
    {
      activeDek, dekCache := None, map[];
    }
  }

  /** Anything that may happen to the service between two calls. */
  datatype Event =
    | EncryptOther(plaintext: string, iv: Bytes, now: int, generated: Option<DataKey>)
    | DecryptOther(ciphertext: string, now: int, reachable: bool)
    | ReEncryptOther(ciphertext: string, iv: Bytes, now: int, reachable: bool, generated: Option<DataKey>)
    | Clear

  /** Data keys come with their own wrapped form. */
  ghost predicate Genuine(key: Option<DataKey>, t: Toolkit) {
    key.Some? ==> t.unwrap(key.value.encrypted) == Some(key.value.plaintext)
  }

  ghost predicate GenuineKeys(events: seq<Event>, t: Toolkit) {
    forall i :: 0 <= i < |events| ==>
                  match events[i]
                  case EncryptOther(_, _, _, key) => Genuine(key, t)
                  case ReEncryptOther(_, _, _, _, key) => Genuine(key, t)
                  case _ => true
  }

  method Happen(service: KmsCryptoService, event: Event)
    requires service.Valid() && GenuineKeys([event], service.tools)
    modifies service
    ensures service.Valid()
  {
    assert [event][0] == event;
    match event
    case EncryptOther(plaintext, iv, now, generated) => var r := service.Encrypt(plaintext, iv, now, generated);
    case DecryptOther(ciphertext, now, reachable) => var r := service.Decrypt(ciphertext, now, reachable);
    case ReEncryptOther(ciphertext, iv, now, reachable, generated) =>
      var r := service.ReEncryptIfStale(ciphertext, iv, now, reachable, generated);
    case Clear => service.ClearCaches();
  }

  /**
   Every envelope of the service, whatever calls, expiries and cache clearings come in between and whatever
   the clock says, decrypts to its plaintext and is not stale.
   */
  method RoundTrip(service: KmsCryptoService, plaintext: string, iv: Bytes, now: int, generated: DataKey,
                   between: seq<Event>, later: int) returns (back: Result<string, Error>, renewed: Result<Option<string>, Error>)
    requires service.Valid() && service.Configured() && service.keyVersion >= 1
    requires Genuine(Some(generated), service.tools) && GenuineKeys(between, service.tools)
    modifies service
    ensures back == Ok(plaintext) && renewed == Ok(None)
  {
    var sealedText := service.Encrypt(plaintext, iv, now, Some(generated));
    for i := 0 to |between|
      invariant service.Valid()
    {
      Happen(service, between[i]);
    }
    back := service.Decrypt(sealedText.value, later, true);
    renewed := service.ReEncryptIfStale(sealedText.value, iv, later, true, Some(generated));
  }
}
