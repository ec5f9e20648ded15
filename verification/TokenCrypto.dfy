/** Token encryption with versioned keys from configuration, and the module's key cache. */
module TokenCrypto {
  import opened Wrappers
  import opened Cipher
  import opened Text

  datatype Error = KeyNotConfigured | MalformedKey | InvalidVersion | InvalidFormat | Unauthenticated

  /** The configured keys, as hexadecimal text. */
  datatype Keys = Keys(key: Option<string>, keyV2: Option<string>, keyV3: Option<string>)

  /** Versions beyond 2 all read the third key. */
  function ConfigKey(keys: Keys, version: int): Option<string> {
    if version == 1 then keys.key else if version == 2 then keys.keyV2 else keys.keyV3
  }

  function FromHex(s: string): Bytes
    requires forall i :: 0 <= i < |s| ==> HexValue(s[i]).Some?
  {
    if |s| < 2 then [] else [16 * HexValue(s[0]).value + HexValue(s[1]).value] + FromHex(s[2..])
  }

  const KeyHexLength := 64

  function LoadKey(keys: Keys, version: int): Result<Bytes, Error> {
    var hex := ConfigKey(keys, version);
    if hex.None? || hex.value == "" then Err(KeyNotConfigured)
    else if |hex.value| != KeyHexLength then Err(MalformedKey)
    else if exists i :: 0 <= i < |hex.value| && HexValue(hex.value[i]).None? then Err(MalformedKey)
    else Ok(FromHex(hex.value))
  }

  // ----- Keys -----

  predicate IsHex(s: string) {
    forall i :: 0 <= i < |s| ==> HexValue(s[i]).Some?
  }

  function HexByte(s: string, i: nat): int
    requires 2 * i + 1 < |s| && IsHex(s)
  {
    16 * HexValue(s[2 * i]).value + HexValue(s[2 * i + 1]).value
  }

  lemma HexShifts(s: string, i: nat)
    requires IsHex(s) && |s| >= 2 && 0 < i && 2 * i + 1 < |s|
    ensures IsHex(s[2..]) && HexByte(s, i) == HexByte(s[2..], i - 1)
  {
    assert s[2..][2 * (i - 1)] == s[2 * i] && s[2..][2 * (i - 1) + 1] == s[2 * i + 1];
  }

  /** Two digits make a byte. */
  lemma {:induction false} HexBytes(s: string, i: nat)
    requires |s| % 2 == 0 && IsHex(s)
    ensures |FromHex(s)| == |s| / 2
    ensures i < |s| / 2 ==> FromHex(s)[i] == HexByte(s, i)
  {
    if s != "" {
      HexBytes(s[2..], if i > 0 then i - 1 else 0);
      if 0 < i < |s| / 2 {
        HexShifts(s, i);
      }
    }
  }

  /** The configured text that a version's key is read from. */
  ghost predicate KeyText(keys: Keys, version: int, hex: string) {
    (version == 1 && keys.key == Some(hex)) || (version == 2 && keys.keyV2 == Some(hex))
    || (version != 1 && version != 2 && keys.keyV3 == Some(hex))
  }

  ghost predicate IsKeyHex(hex: string) {
    |hex| == 64 && IsHex(hex)
  }

  /** A version has a key exactly when its own configured text is 64 hexadecimal digits: then those 32 bytes. */
  lemma LoadKeyIff(keys: Keys, version: int)
    ensures LoadKey(keys, version).Ok? <==> exists hex :: KeyText(keys, version, hex) && IsKeyHex(hex)
    ensures forall hex :: KeyText(keys, version, hex) && IsKeyHex(hex) ==>
                            && LoadKey(keys, version).Ok? && |LoadKey(keys, version).value| == 32
                            && forall i :: 0 <= i < 32 ==> LoadKey(keys, version).value[i] == HexByte(hex, i)
  {
    var configured := ConfigKey(keys, version);
    if configured.Some? {
      assert forall hex :: KeyText(keys, version, hex) <==> hex == configured.value;
      if IsKeyHex(configured.value) {
        HexBytes(configured.value, 0);
        forall i | 0 <= i < 32
          ensures LoadKey(keys, version).value[i] == HexByte(configured.value, i)
        {
          HexBytes(configured.value, i);
        }
      }
    }
  }

  /** Without a text the key is not configured; any other text but a key is malformed. */
  lemma LoadKeyFails(keys: Keys, version: int)
    ensures LoadKey(keys, version) == Err(KeyNotConfigured) <==> forall hex :: KeyText(keys, version, hex) ==> hex == ""
    ensures LoadKey(keys, version) == Err(MalformedKey)
            <==> exists hex :: KeyText(keys, version, hex) && hex != "" && !IsKeyHex(hex)
  {
    var configured := ConfigKey(keys, version);
    assert forall hex :: KeyText(keys, version, hex) <==> configured == Some(hex);
    if configured.Some? {
      assert KeyText(keys, version, configured.value);
    }
  }

  /** Version 1 reads nothing but the first key, version 2 nothing but the second, all others the third. */
  lemma VersionsReadTheirOwnKey(a: Keys, b: Keys)
    ensures a.key == b.key ==> LoadKey(a, 1) == LoadKey(b, 1)
    ensures a.keyV2 == b.keyV2 ==> LoadKey(a, 2) == LoadKey(b, 2)
    ensures a.keyV3 == b.keyV3 ==> forall v :: v != 1 && v != 2 ==> LoadKey(a, v) == LoadKey(b, v)
  {
  }

  // ----- Envelopes -----

  datatype Parsed = Parsed(version: int, iv: Bytes, s: Sealed)

  /** The text starts with "v", digits and a colon. */
  predicate IsVersioned(value: string) {
    && value != "" && value[0] == 'v'
    && var k := DigitCount(value[1..]);
       k > 0 && 1 + k < |value| && value[1 + k] == ':'
  }

  function ThreeParts(text: string, version: int, t: Toolkit): Result<Parsed, Error> {
    var parts := Split(text, ':');
    if |parts| != 3 then Err(InvalidFormat)
    else Ok(Parsed(version, t.decode(parts[0]), Sealed(t.decode(parts[1]), t.decode(parts[2]))))
  }

  function ParseEnvelope(value: string, t: Toolkit): Result<Parsed, Error> {
    if IsVersioned(value) then
      var colon := IndexOf(value, ':');
      var version := ParseInt(value[if colon < 1 then 0 else 1..colon]);
      if version.None? || version.value < 1 then Err(InvalidVersion)
      else ThreeParts(value[if colon < |value| then colon + 1 else colon..], version.value, t)
    else ThreeParts(value, 1, t)
  }

  /** A version as a reader takes it: unreadable texts count as version 1. */
  function EncryptedKeyVersion(value: string, t: Toolkit): int {
    match ParseEnvelope(value, t)
    case Ok(parsed) => parsed.version
    case Err(_) => 1
  }

  function Unsealed(parsed: Parsed, key: Bytes, t: Toolkit): Result<string, Error> {
    match t.unseal(key, parsed.iv, parsed.s)
    case None => Err(Unauthenticated)
    case Some(plaintext) => Ok(plaintext)
  }

  /** Decryption with keys loaded from configuration every time. */
  function Decrypted(value: string, keys: Keys, t: Toolkit): Result<string, Error> {
    match ParseEnvelope(value, t)
    case Err(e) => Err(e)
    case Ok(parsed) =>
      match LoadKey(keys, parsed.version)
      case Err(e) => Err(e)
      case Ok(key) => Unsealed(parsed, key, t)
  }

  /** Tokens of version 1, legacy ones included, depend on the first configured key alone. */
  lemma VersionOneDependsOnFirstKey(value: string, a: Keys, b: Keys, t: Toolkit)
    requires a.key == b.key && ParseEnvelope(value, t).Ok? && ParseEnvelope(value, t).value.version == 1
    ensures Decrypted(value, a, t) == Decrypted(value, b, t)
  {
    VersionsReadTheirOwnKey(a, b);
  }

  /** The text is a "v", digits of the version, a colon and three fields, or three fields of version 1. */
  ghost predicate Spells(value: string, version: int, digits: string, rest: string) {
    && |Split(rest, ':')| == 3
    && if IsVersioned(value)
       then && value == "v" + digits + ":" + rest && digits != "" && (forall i :: 0 <= i < |digits| ==> IsDigit(digits[i]))
            && ParseInt(digits) == Some(version) && version >= 1
       else digits == "" && value == rest && version == 1
  }

  /** What the cipher makes of three fields under a version's key. */
  function Opened(rest: string, version: int, keys: Keys, t: Toolkit): Option<string> {
    var parts := Split(rest, ':');
    if |parts| != 3 || LoadKey(keys, version).Err? then None
    else t.unseal(LoadKey(keys, version).value, t.decode(parts[0]), Sealed(t.decode(parts[1]), t.decode(parts[2])))
  }

  /** Decryption never invents a text: what it answers is what the cipher made of the fields, and a refusal is an error. */
  lemma DecryptedIff(value: string, version: int, digits: string, rest: string, keys: Keys, t: Toolkit)
    requires Spells(value, version, digits, rest)
    ensures var r := Decrypted(value, keys, t);
            && (r.Ok? <==> Opened(rest, version, keys, t).Some?)
            && (r.Ok? ==> Opened(rest, version, keys, t) == Some(r.value))
            && (LoadKey(keys, version).Err? ==> r == Err(LoadKey(keys, version).error))
            && (LoadKey(keys, version).Ok? && Opened(rest, version, keys, t) == None ==> r == Err(Unauthenticated))
  {
    if IsVersioned(value) {
      VersionedPieces(digits, rest);
    }
  }

  /** A text that no spelling fits is an error, and reads as version 1. */
  lemma UnspelledFails(value: string, keys: Keys, t: Toolkit)
    requires forall version, digits, rest :: !Spells(value, version, digits, rest)
    ensures Decrypted(value, keys, t) == Err(InvalidFormat) || Decrypted(value, keys, t) == Err(InvalidVersion)
    ensures EncryptedKeyVersion(value, t) == 1
  {
    if IsVersioned(value) {
      var k := DigitCount(value[1..]);
      var digits, rest := value[1..1 + k], value[2 + k..];
      assert value == "v" + digits + ":" + rest;
      ParsesAs(digits, rest, t);
      var version := ParseInt(digits);
      if version.Some? {
        assert !Spells(value, version.value, digits, rest);
      }
    } else {
      assert !Spells(value, 1, "", value);
    }
  }

  function Triple(iv: Bytes, s: Sealed, t: Toolkit): seq<string> {
    [t.encode(iv), t.encode(s.tag), t.encode(s.data)]
  }

  function Legacy(iv: Bytes, s: Sealed, t: Toolkit): string {
    Join(Triple(iv, s, t), ':')
  }

  function Envelope(version: int, iv: Bytes, s: Sealed, t: Toolkit): string {
    Join(["v" + ToString(version)] + Triple(iv, s, t), ':')
  }

  lemma TripleParses(iv: Bytes, s: Sealed, version: int, t: Toolkit)
    requires Correct(t)
    ensures ThreeParts(Legacy(iv, s, t), version, t) == Ok(Parsed(version, iv, s))
  {
    SplitOfJoin(Triple(iv, s, t), ':');
  }

  lemma EnvelopeText(version: int, iv: Bytes, s: Sealed, t: Toolkit)
    ensures Envelope(version, iv, s, t) == "v" + ToString(version) + ":" + Legacy(iv, s, t)
  {
  }

  lemma {:induction false} DigitsThen(a: string, b: string)
    requires forall i :: 0 <= i < |a| ==> IsDigit(a[i])
    requires b != "" && !IsDigit(b[0])
    ensures DigitCount(a + b) == |a|
  {
    if a == "" {
      assert a + b == b;
    } else {
      DigitsThen(a[1..], b);
      assert (a + b)[1..] == a[1..] + b;
    }
  }

  lemma VersionedPieces(digits: string, rest: string)
    requires digits != "" && forall i :: 0 <= i < |digits| ==> IsDigit(digits[i])
    ensures var value := "v" + digits + ":" + rest;
            && IsVersioned(value) && IndexOf(value, ':') == 1 + |digits|
            && value[1..1 + |digits|] == digits && value[|digits| + 2..] == rest
  {
    var value := "v" + digits + ":" + rest;
    FirstIndex("v" + digits, ':', rest);
    assert value == ("v" + digits) + [':'] + rest;
    assert value[1..] == digits + (":" + rest);
    DigitsThen(digits, ":" + rest);
    assert value[1 + |digits|] == ':';
  }

  /** What a versioned text parses to is decided by its digits and its rest alone. */
  lemma ParsesAs(digits: string, rest: string, t: Toolkit)
    requires digits != "" && forall i :: 0 <= i < |digits| ==> IsDigit(digits[i])
    ensures var value, version := "v" + digits + ":" + rest, ParseInt(digits);
            && IsVersioned(value)
            && ParseEnvelope(value, t) == if version.None? || version.value < 1 then Err(InvalidVersion)
                                          else ThreeParts(rest, version.value, t)
  {
    VersionedPieces(digits, rest);
  }

  /** A "v", digits, a colon and any rest: the digits are the version and the rest the three parts. */
  lemma VersionedText(version: nat, rest: string, t: Toolkit)
    ensures var value := "v" + Decimal(version) + ":" + rest;
            ParseEnvelope(value, t) == if version < 1 then Err(InvalidVersion) else ThreeParts(rest, version, t)
  {
    ParseIntOfDecimal(version);
    ParsesAs(Decimal(version), rest, t);
  }

  lemma NegativeVersion(version: int, iv: Bytes, s: Sealed, t: Toolkit)
    requires Correct(t) && version < 0
    ensures ParseEnvelope(Envelope(version, iv, s, t), t).Err?
  {
    var digits := ToString(version);
    EnvelopeText(version, iv, s, t);
    NumberHasNo(version, ':');
    assert Envelope(version, iv, s, t)[1] == '-';
    SplitOfJoin(["v" + digits] + Triple(iv, s, t), ':');
  }

  /** A versioned envelope parses to what was sealed; one below version 1 does not parse. */
  lemma EnvelopeParses(version: int, iv: Bytes, s: Sealed, t: Toolkit)
    requires Correct(t)
    ensures version >= 1 ==> ParseEnvelope(Envelope(version, iv, s, t), t) == Ok(Parsed(version, iv, s))
    ensures version < 1 ==> ParseEnvelope(Envelope(version, iv, s, t), t).Err?
  {
    if version < 0 {
      NegativeVersion(version, iv, s, t);
    } else {
      EnvelopeText(version, iv, s, t);
      VersionedText(version, Legacy(iv, s, t), t);
      TripleParses(iv, s, version, t);
    }
  }

  /** Decrypting undoes encrypting for every key and version a reader accepts. */
  lemma DecryptUndoesEncrypt(version: int, iv: Bytes, plaintext: string, keys: Keys, t: Toolkit)
    requires Correct(t) && LoadKey(keys, version).Ok?
    ensures var value := Envelope(version, iv, t.seal(LoadKey(keys, version).value, iv, plaintext), t);
            Decrypted(value, keys, t) == Ok(plaintext) <==> version >= 1
  {
    EnvelopeParses(version, iv, t.seal(LoadKey(keys, version).value, iv, plaintext), t);
  }

  /** The legacy format is read exactly when its first field does not read as "v" and digits. */
  lemma LegacyReadsIff(iv: Bytes, plaintext: string, keys: Keys, t: Toolkit)
    requires Correct(t) && LoadKey(keys, 1).Ok?
    ensures var first := t.encode(iv);
            var value := Legacy(iv, t.seal(LoadKey(keys, 1).value, iv, plaintext), t);
            Decrypted(value, keys, t) == Ok(plaintext)
            <==> !(|first| >= 2 && first[0] == 'v' && forall i :: 1 <= i < |first| ==> IsDigit(first[i]))
  {
    var s := t.seal(LoadKey(keys, 1).value, iv, plaintext);
    var first, rest := t.encode(iv), Join([t.encode(s.tag), t.encode(s.data)], ':');
    JoinMore(first, [t.encode(s.tag), t.encode(s.data)], ':');
    assert [first] + [t.encode(s.tag), t.encode(s.data)] == Triple(iv, s, t);
    VersionedField(first, rest);
    TripleParses(iv, s, 1, t);
    if IsVersioned(first + ":" + rest) {
      FirstIndex(first, ':', rest);
      assert (first + ":" + rest)[|first| + 1..] == rest;
      SplitOfJoin([t.encode(s.tag), t.encode(s.data)], ':');
    }
  }

  lemma VersionedField(first: string, rest: string)
    requires ':' !in first
    ensures IsVersioned(first + ":" + rest)
            <==> |first| >= 2 && first[0] == 'v' && forall i :: 1 <= i < |first| ==> IsDigit(first[i])
  {
    var value := first + ":" + rest;
    if first != "" && first[0] == 'v' {
      var digits := first[1..];
      var k := DigitCount(digits);
      assert value[1..] == digits + (":" + rest);
      if forall i :: 1 <= i < |first| ==> IsDigit(first[i]) {
        DigitsThen(digits, ":" + rest);
        assert value[|first|] == ':';
      } else {
        DigitsStop(digits, ":" + rest);
        assert value[1 + k] == first[1 + k];
      }
    }
  }

  lemma {:induction false} DigitsStop(a: string, b: string)
    requires exists i :: 0 <= i < |a| && !IsDigit(a[i])
    ensures DigitCount(a + b) == DigitCount(a) < |a|
  {
    assert (a + b)[0] == a[0];
    if IsDigit(a[0]) {
      assert (a + b)[1..] == a[1..] + b;
      var i :| 0 <= i < |a| && !IsDigit(a[i]);
      assert a[1..][i - 1] == a[i];
      DigitsStop(a[1..], b);
    }
  }

  // ----- The module's state -----

  class TokenEncryption {
    const keys: Keys
    const tools: Toolkit
    /** The configured version for new encryptions. */
    var activeVersion: int
    var keyCache: map<int, Bytes>
    var activeCachedVersion: Option<int>

    /** Cached keys are the configured ones. */
    ghost predicate Valid()
      reads this
    {
      && Correct(tools)
      && forall v :: v in keyCache ==> LoadKey(keys, v) == Ok(keyCache[v])
    }

    /** The version that new encryptions use: fixed at the first use. */
    function VersionInUse(): int
      reads this
    {
      if activeCachedVersion.Some? then activeCachedVersion.value else activeVersion
    }

    constructor (keys: Keys, activeVersion: int, tools: Toolkit)
      requires Correct(tools)
      ensures Valid() && this.keys == keys && this.activeVersion == activeVersion && this.tools == tools
      ensures keyCache == map[] && activeCachedVersion == None
    {
      this.keys, this.activeVersion, this.tools := keys, activeVersion, tools;
      keyCache, activeCachedVersion := map[], None;
    }

    method GetKeyByVersion(version: int) returns (r: Result<Bytes, Error>)
      requires Valid()
      modifies this`keyCache
      ensures Valid()
      ensures r == LoadKey(keys, version)
      ensures keyCache == if r.Ok? then old(keyCache)[version := r.value] else old(keyCache)
    {
      if version in keyCache { return Ok(keyCache[version]); }
      r := LoadKey(keys, version);
      if r.Ok? { keyCache := keyCache[version := r.value]; }
    }

    method EncryptToken(plaintext: string, iv: Bytes) returns (r: Result<string, Error>)
      requires Valid()
      modifies this`keyCache, this`activeCachedVersion
      ensures Valid()
      ensures r.Ok? <==> LoadKey(keys, old(VersionInUse())).Ok?
      ensures activeCachedVersion == if r.Ok? then Some(old(VersionInUse())) else old(activeCachedVersion)
      ensures r.Ok? ==> (Decrypted(r.value, keys, tools) == Ok(plaintext) <==> old(VersionInUse()) >= 1)
      ensures r.Ok? && old(VersionInUse()) >= 1 ==> EncryptedKeyVersion(r.value, tools) == old(VersionInUse())
    {
      var version := if activeCachedVersion.Some? then activeCachedVersion.value else activeVersion;
      var key := GetKeyByVersion(version);
      if key.Err? { return Err(key.error); }
      if activeCachedVersion.None? { activeCachedVersion := Some(version); }
      var s := tools.seal(key.value, iv, plaintext);
      DecryptUndoesEncrypt(version, iv, plaintext, keys, tools);
      EnvelopeParses(version, iv, s, tools);
      return Ok(Envelope(version, iv, s, tools));
    }

    /** Whatever is cached, decrypting gives what freshly loaded keys give. */
    method DecryptToken(value: string) returns (r: Result<string, Error>)
      requires Valid()
      modifies this`keyCache
      ensures Valid()
      ensures r == Decrypted(value, keys, tools)
      ensures forall version, digits, rest :: Spells(value, version, digits, rest) ==>
                                                && (r.Ok? <==> Opened(rest, version, keys, tools).Some?)
                                                && (r.Ok? ==> Opened(rest, version, keys, tools) == Some(r.value))
    {
      forall version, digits, rest | Spells(value, version, digits, rest)
        ensures var d := Decrypted(value, keys, tools);
                && (d.Ok? <==> Opened(rest, version, keys, tools).Some?)
                && (d.Ok? ==> Opened(rest, version, keys, tools) == Some(d.value))
      {
        DecryptedIff(value, version, digits, rest, keys, tools);
      }
      var parsed := ParseEnvelope(value, tools);
      if parsed.Err? { return Err(parsed.error); }
      var key := GetKeyByVersion(parsed.value.version);
      if key.Err? { return Err(key.error); }
      return Unsealed(parsed.value, key.value, tools);
    }

    /**
     A stale token is replaced by one with the same plaintext. The check reads the configured version and
     the encryption the version in use: the result is of the configured version exactly when the two agree.
     */
    method ReEncryptIfStale(value: string, iv: Bytes) returns (r: Result<Option<string>, Error>)
      requires Valid()
      modifies this`keyCache, this`activeCachedVersion
      ensures Valid()
      ensures r == Ok(None) <==> EncryptedKeyVersion(value, tools) == activeVersion
      ensures r.Ok? && r.value.Some? ==> Decrypted(value, keys, tools).Ok?
      ensures r.Ok? && r.value.Some? && old(VersionInUse()) >= 1 ==>
                && Decrypted(value, keys, tools).Ok?
                && Decrypted(r.value.value, keys, tools) == Decrypted(value, keys, tools)
                && (EncryptedKeyVersion(r.value.value, tools) == activeVersion
                    <==> old(activeCachedVersion) == None || old(activeCachedVersion) == Some(activeVersion))
    {
      var current := EncryptedKeyVersion(value, tools);
      if current == activeVersion { return Ok(None); }
      var plaintext := DecryptToken(value);
      if plaintext.Err? { return Err(plaintext.error); }
      var renewed := EncryptToken(plaintext.value, iv);
      if renewed.Err? { return Err(renewed.error); }
      return Ok(Some(renewed.value));
    }

    method InvalidateKeyCache(version: Option<int>)
      requires Valid()
      modifies this`keyCache, this`activeCachedVersion
      ensures Valid()
      ensures version == None ==> keyCache == map[] && activeCachedVersion == None
      ensures version.Some? ==>
                && keyCache == old(keyCache) - {version.value}
                && activeCachedVersion == if old(activeCachedVersion) == version then None else old(activeCachedVersion)
    {
      if version.Some? {
        keyCache := keyCache - {version.value};
        if activeCachedVersion == version { activeCachedVersion := None; }
      } else {
        keyCache, activeCachedVersion := map[], None;
      }
    }

    /** A change of the configured version at run time: no cache notices. */
    method SetActiveVersion(version: int)
      requires Valid()
      modifies this`activeVersion
      ensures Valid() && activeVersion == version
    {
      activeVersion := version;
    }
  }
}
