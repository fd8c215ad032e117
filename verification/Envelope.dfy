/**
 Envelope encryption: a payload sealed under a random data key (DEK), the DEK sealed under a key
 encryption key (KEK), and the three column layouts that store the pair.
 AES-GCM and the JSON of the envelope are parameters, constrained only by laws they satisfy.
 */
module Envelope {
  import opened Prelude
  import Base64
  import Text
  import Utf8

  const MASTER_KEY_BYTES := 32
  const DEK_BYTES := 32
  const NONCE_BYTES := 12
  const TAG_BYTES := 16
  const WRAPPED_DEK_BYTES := NONCE_BYTES + DEK_BYTES + TAG_BYTES

  type bytes = seq<byte>
  type nonce = n: bytes | |n| == NONCE_BYTES witness seq(12, i => 0)

  datatype CryptoError = InvalidMasterKey | DecryptFailed | BadCipherKey | BadEnvelope | UnsupportedFormat

  /** AES-GCM with the nonce in front of the sealed bytes, for keys AES accepts. */
  datatype Aead = Aead(seal: (bytes, bytes, nonce) -> bytes, open: (bytes, bytes) -> Option<bytes>)

  /** The JSON form of an envelope's two strings. */
  datatype EnvelopeJson = EnvelopeJson(marshal: (text, text) -> bytes, unmarshal: bytes -> Option<(text, text)>)

  datatype Suite = Suite(aead: Aead, json: EnvelopeJson)

  /**
   Facts of AES-GCM (section 5.2 of RFC 5116): fixed expansion, decryption inverts encryption, and
   only the encryption of a plaintext under the same key and nonce decrypts to it.
   */
  ghost predicate LawfulAead(a: Aead) {
    && (forall p, k, n :: |a.seal(p, k, n)| == |p| + NONCE_BYTES + TAG_BYTES)
    && (forall p, k, n :: a.seal(p, k, n)[..NONCE_BYTES] == n)
    && (forall p, k, n :: a.open(a.seal(p, k, n), k) == Some(p))
    && (forall x, k :: a.open(x, k).Some? ==>
          |x| >= NONCE_BYTES + TAG_BYTES && x == a.seal(a.open(x, k).value, k, x[..NONCE_BYTES]))
  }

  ghost predicate LawfulJson(j: EnvelopeJson) {
    && (forall a, b :: Utf8.WellFormed(a) && Utf8.WellFormed(b) ==> j.unmarshal(j.marshal(a, b)) == Some((a, b)))
    && (forall x :: j.unmarshal(x).Some? ==>
          Utf8.WellFormed(j.unmarshal(x).value.0) && Utf8.WellFormed(j.unmarshal(x).value.1))
  }

  ghost predicate Lawful(s: Suite) { LawfulAead(s.aead) && LawfulJson(s.json) }

  /** Nothing sealed under `k` opens under `other`: the authenticity of the tag, asked of this pair only. */
  ghost predicate Separates(a: Aead, k: bytes, other: bytes) {
    forall p, n :: a.open(a.seal(p, k, n), other).None?
  }

  predicate CipherKey(k: bytes) { |k| == 16 || |k| == 24 || |k| == 32 }

  function Seal(a: Aead, plaintext: bytes, key: bytes, n: nonce): Result<bytes, CryptoError> {
    if CipherKey(key) then Ok(a.seal(plaintext, key, n)) else Err(BadCipherKey)
  }

  function Open(a: Aead, ciphertext: bytes, key: bytes): Result<bytes, CryptoError> {
    if |ciphertext| <= NONCE_BYTES then Err(DecryptFailed)
    else if !CipherKey(key) then Err(BadCipherKey)
    else match a.open(ciphertext, key)
      case None => Err(DecryptFailed)
      case Some(p) => Ok(p)
  }

  /** `Encrypt`: the payload under a fresh DEK, and the DEK under the KEK. */
  function Encrypt(a: Aead, plaintext: bytes, kek: bytes, dek: bytes, n1: nonce, n2: nonce)
    : Result<(bytes, bytes), CryptoError>
    requires |dek| == DEK_BYTES
  {
    if |kek| != MASTER_KEY_BYTES then Err(InvalidMasterKey)
    else Ok((a.seal(plaintext, dek, n1), a.seal(dek, kek, n2)))
  }

  function Decrypt(a: Aead, ciphertext: bytes, encryptedDek: bytes, kek: bytes): Result<bytes, CryptoError> {
    if |kek| != MASTER_KEY_BYTES then Err(InvalidMasterKey)
    else match Open(a, encryptedDek, kek)
      case Err(e) => Err(e)
      case Ok(dek) => Open(a, ciphertext, dek)
  }

  function RewrapDek(a: Aead, encryptedDek: bytes, oldKek: bytes, newKek: bytes, n: nonce): Result<bytes, CryptoError> {
    if |oldKek| != MASTER_KEY_BYTES || |newKek| != MASTER_KEY_BYTES then Err(InvalidMasterKey)
    else match Open(a, encryptedDek, oldKek)
      case Err(e) => Err(e)
      case Ok(dek) => Seal(a, dek, newKek, n)
  }

  /** Rewrapping succeeds exactly when the old KEK opens the DEK, and moves that DEK under the new one. */
  lemma RewrapDekMeaning(a: Aead, v: bytes, oldKek: bytes, newKek: bytes, n: nonce)
    requires LawfulAead(a) && |oldKek| == |newKek| == MASTER_KEY_BYTES
    ensures RewrapDek(a, v, oldKek, newKek, n).Ok? <==> Open(a, v, oldKek).Ok?
    ensures RewrapDek(a, v, oldKek, newKek, n).Ok? ==>
              var w := RewrapDek(a, v, oldKek, newKek, n).value;
              && Open(a, w, newKek) == Open(a, v, oldKek)
              && |w| == |v|
              && (Separates(a, newKek, oldKek) ==> Open(a, w, oldKek).Err?)
  {}

  // ----- Signing-key envelopes: two unpadded base64 strings in a JSON object

  function MarshalEnvelope(j: EnvelopeJson, ciphertext: bytes, encryptedDek: bytes): bytes {
    j.marshal(Base64.EncodeRaw(Base64.Std, ciphertext), Base64.EncodeRaw(Base64.Std, encryptedDek))
  }

  function UnmarshalEnvelope(j: EnvelopeJson, raw: bytes): Result<(bytes, bytes), CryptoError> {
    match j.unmarshal(raw)
    case None => Err(BadEnvelope)
    case Some(pair) =>
      match (Base64.Decode(Base64.Std, false, pair.0), Base64.Decode(Base64.Std, false, pair.1))
      case (Some(ciphertext), Some(dek)) => Ok((ciphertext, dek))
      case _ => Err(BadEnvelope)
  }

  lemma AlphabetAscii(s: text)
    requires Base64.InAlphabet(Base64.Std, s)
    ensures Utf8.WellFormed(s)
  {}

  lemma EnvelopeRoundTrip(j: EnvelopeJson, ciphertext: bytes, dek: bytes)
    requires LawfulJson(j)
    ensures UnmarshalEnvelope(j, MarshalEnvelope(j, ciphertext, dek)) == Ok((ciphertext, dek))
  {
    var a, b := Base64.EncodeRaw(Base64.Std, ciphertext), Base64.EncodeRaw(Base64.Std, dek);
    AlphabetAscii(a);
    AlphabetAscii(b);
    Base64.RoundTrip(Base64.Std, false, ciphertext);
    Base64.RoundTrip(Base64.Std, false, dek);
    assert j.unmarshal(j.marshal(a, b)) == Some((a, b));
  }

  function DecryptSigningPrivateKey(s: Suite, envelope: bytes, kek: bytes): Result<bytes, CryptoError> {
    match UnmarshalEnvelope(s.json, envelope)
    case Err(e) => Err(e)
    case Ok(pair) => Decrypt(s.aead, pair.0, pair.1, kek)
  }

  /** A signing key reads back from its envelope for every key material, DEK and nonces. */
  lemma SigningKeyRoundTrip(s: Suite, der: bytes, kek: bytes, dek: bytes, n1: nonce, n2: nonce)
    requires Lawful(s) && |dek| == DEK_BYTES && |kek| == MASTER_KEY_BYTES
    ensures var pair := Encrypt(s.aead, der, kek, dek, n1, n2).value;
            DecryptSigningPrivateKey(s, MarshalEnvelope(s.json, pair.0, pair.1), kek) == Ok(der)
  {
    hide MarshalEnvelope, UnmarshalEnvelope;
    EnvelopeRoundTrip(s.json, s.aead.seal(der, dek, n1), s.aead.seal(dek, kek, n2));
  }

  // ----- Prefix layout: the wrapped DEK followed by the ciphertext

  function EncryptProviderSecret(a: Aead, plaintext: bytes, masterKey: bytes, dek: bytes, n1: nonce, n2: nonce)
    : Result<bytes, CryptoError>
    requires |dek| == DEK_BYTES
  {
    if masterKey == [] then Ok(plaintext)
    else match Encrypt(a, plaintext, masterKey, dek, n1, n2)
      case Err(e) => Err(e)
      case Ok(pair) => Ok(pair.1 + pair.0)
  }

  function DecryptProviderSecret(a: Aead, stored: bytes, masterKey: bytes): Result<bytes, CryptoError> {
    if masterKey == [] || |stored| < WRAPPED_DEK_BYTES then Ok(stored)
    else Decrypt(a, stored[WRAPPED_DEK_BYTES..], stored[..WRAPPED_DEK_BYTES], masterKey)
  }

  function EncryptConfig(a: Aead, config: bytes, kek: bytes, dek: bytes, n1: nonce, n2: nonce)
    : Result<bytes, CryptoError>
    requires |dek| == DEK_BYTES
  {
    match Encrypt(a, config, kek, dek, n1, n2)
    case Err(e) => Err(e)
    case Ok(pair) => Ok(pair.1 + pair.0)
  }

  /** `decryptConfig`; `empty` is the text `{}` an absent configuration reads as. */
  function DecryptConfig(a: Aead, stored: bytes, kek: bytes, empty: bytes): Result<bytes, CryptoError> {
    if stored == [] then Ok(empty)
    else if kek == [] then Ok(stored)
    else if |stored| < WRAPPED_DEK_BYTES then Err(BadEnvelope)
    else Decrypt(a, stored[WRAPPED_DEK_BYTES..], stored[..WRAPPED_DEK_BYTES], kek)
  }

  /** The 60-byte split inverts the writers' append, for every plaintext, key and nonce. */
  lemma PrefixRoundTrip(a: Aead, p: bytes, key: bytes, dek: bytes, n1: nonce, n2: nonce, empty: bytes)
    requires LawfulAead(a) && |dek| == DEK_BYTES
    ensures EncryptProviderSecret(a, p, key, dek, n1, n2).Ok? <==> |key| == 0 || |key| == MASTER_KEY_BYTES
    ensures EncryptProviderSecret(a, p, key, dek, n1, n2).Ok? ==>
              DecryptProviderSecret(a, EncryptProviderSecret(a, p, key, dek, n1, n2).value, key) == Ok(p)
    ensures EncryptConfig(a, p, key, dek, n1, n2).Ok? <==> |key| == MASTER_KEY_BYTES
    ensures EncryptConfig(a, p, key, dek, n1, n2).Ok? ==>
              DecryptConfig(a, EncryptConfig(a, p, key, dek, n1, n2).value, key, empty) == Ok(p)
  {}

  /** What `seal` writes and `open` reads: a 12-byte nonce, the ciphertext and a 16-byte tag, under any AES key. */
  lemma SealedLayout(a: Aead, p: bytes, k: bytes, n: nonce, x: bytes)
    requires LawfulAead(a)
    ensures |k| == 16 || |k| == 24 || |k| == 32 ==> Seal(a, p, k, n) == Ok(a.seal(p, k, n))
    ensures |a.seal(p, k, n)| == |p| + 28 && a.seal(p, k, n)[..12] == n
    ensures |k| == 16 || |k| == 24 || |k| == 32 ==> Open(a, a.seal(p, k, n), k) == Ok(p)
    ensures |k| != 16 && |k| != 24 && |k| != 32 ==> Seal(a, p, k, n) == Err(BadCipherKey)
    ensures |k| != 16 && |k| != 24 && |k| != 32 && |x| > 12 ==> Open(a, x, k) == Err(BadCipherKey)
    ensures |x| <= 12 ==> Open(a, x, k) == Err(DecryptFailed)
    ensures |a.seal(seq(32, i => 0), k, n)| == WRAPPED_DEK_BYTES == 60
  {}

  /** The readers and the rewrapper refuse a KEK of any other length, whatever they are given. */
  lemma KekLengthChecked(a: Aead, v: bytes, w: bytes, kek: bytes, other: bytes, n: nonce)
    requires |kek| != MASTER_KEY_BYTES
    ensures Decrypt(a, v, w, kek) == Err(InvalidMasterKey)
    ensures RewrapDek(a, w, kek, other, n) == RewrapDek(a, w, other, kek, n) == Err(InvalidMasterKey)
  {}

  /** What the prefix readers do with values that nobody encrypted. */
  lemma UnencryptedRead(a: Aead, stored: bytes, key: bytes, empty: bytes)
    ensures key == [] || |stored| < 60 ==> DecryptProviderSecret(a, stored, key) == Ok(stored)
    ensures DecryptConfig(a, [], key, empty) == Ok(empty)
    ensures stored != [] ==> DecryptConfig(a, stored, [], empty) == Ok(stored)
    ensures stored != [] && key != [] && |stored| < 60 ==> DecryptConfig(a, stored, key, empty) == Err(BadEnvelope)
  {}

  // ----- The three formats and their re-keying

  datatype Format = Dek | Prefix | JsonEnvelope | OtherFormat(name: string)

  /** What a column protects: the data key and the bytes stored beside it. */
  datatype Secret = Secret(dek: bytes, payload: bytes)

  /** Reads a column with a KEK, down to its data key. */
  function Unwrap(s: Suite, v: bytes, format: Format, kek: bytes): Result<Secret, CryptoError> {
    match format
    case Dek => (match Open(s.aead, v, kek) case Err(e) => Err(e) case Ok(dek) => Ok(Secret(dek, [])))
    case Prefix =>
      if |v| < WRAPPED_DEK_BYTES then Err(DecryptFailed)
      else (match Open(s.aead, v[..WRAPPED_DEK_BYTES], kek)
            case Err(e) => Err(e)
            case Ok(dek) => Ok(Secret(dek, v[WRAPPED_DEK_BYTES..])))
    case JsonEnvelope =>
      (match UnmarshalEnvelope(s.json, v)
       case Err(e) => Err(e)
       case Ok(pair) => (match Open(s.aead, pair.1, kek)
                         case Err(e) => Err(e)
                         case Ok(dek) => Ok(Secret(dek, pair.0))))
    case OtherFormat(_) => Err(UnsupportedFormat)
  }

  /**
   Who writes an encrypted column: signing keys as envelopes, provider secrets through `encryptProviderSecret`, and
   client secrets, e-mail configurations and TOTP secrets by appending the ciphertext to the wrapped DEK.
   */
  datatype Writer = SigningKeys | ProviderSecrets | Appending

  /** What a writer stores under a KEK of the right length. */
  function Written(s: Suite, w: Writer, plaintext: bytes, kek: bytes, dek: bytes, n1: nonce, n2: nonce): bytes
    requires |kek| == MASTER_KEY_BYTES && |dek| == DEK_BYTES
  {
    match w
    case SigningKeys =>
      var pair := Encrypt(s.aead, plaintext, kek, dek, n1, n2).value;
      MarshalEnvelope(s.json, pair.0, pair.1)
    case ProviderSecrets => EncryptProviderSecret(s.aead, plaintext, kek, dek, n1, n2).value
    case Appending => EncryptConfig(s.aead, plaintext, kek, dek, n1, n2).value
  }

  /** A format reads what a writer stores: the DEK and the ciphertext of the plaintext under it. */
  ghost predicate ReadsWriter(s: Suite, f: Format, w: Writer) {
    forall p: bytes, kek: bytes, dek: bytes, n1: nonce, n2: nonce | |kek| == MASTER_KEY_BYTES && |dek| == DEK_BYTES ::
      Unwrap(s, Written(s, w, p, kek, dek, n1, n2), f, kek) == Ok(Secret(dek, s.aead.seal(p, dek, n1)))
  }

  lemma WrittenIsRead(s: Suite, w: Writer)
    requires Lawful(s)
    ensures ReadsWriter(s, if w == SigningKeys then JsonEnvelope else Prefix, w)
  {
    hide MarshalEnvelope, UnmarshalEnvelope;
    forall p: bytes, kek: bytes, dek: bytes, n1: nonce, n2: nonce | |kek| == MASTER_KEY_BYTES && |dek| == DEK_BYTES
      ensures Unwrap(s, Written(s, w, p, kek, dek, n1, n2), if w == SigningKeys then JsonEnvelope else Prefix, kek)
           == Ok(Secret(dek, s.aead.seal(p, dek, n1)))
    {
      var ct, wrapped := s.aead.seal(p, dek, n1), s.aead.seal(dek, kek, n2);
      EnvelopeRoundTrip(s.json, ct, wrapped);
      assert (wrapped + ct)[..WRAPPED_DEK_BYTES] == wrapped && (wrapped + ct)[WRAPPED_DEK_BYTES..] == ct;
    }
  }

  /** `rewrapValue` of the rotation service. */
  function RewrapValue(s: Suite, v: bytes, format: Format, oldKek: bytes, newKek: bytes, n: nonce)
    : Result<bytes, CryptoError>
  {
    match format
    case Dek => RewrapDek(s.aead, v, oldKek, newKek, n)
    case Prefix =>
      if |v| < WRAPPED_DEK_BYTES then Err(DecryptFailed)
      else (match RewrapDek(s.aead, v[..WRAPPED_DEK_BYTES], oldKek, newKek, n)
            case Err(e) => Err(e)
            case Ok(w) => Ok(w + v[WRAPPED_DEK_BYTES..]))
    case JsonEnvelope =>
      (match UnmarshalEnvelope(s.json, v)
       case Err(e) => Err(e)
       case Ok(pair) => (match RewrapDek(s.aead, pair.1, oldKek, newKek, n)
                         case Err(e) => Err(e)
                         case Ok(w) => Ok(MarshalEnvelope(s.json, pair.0, w))))
    case OtherFormat(_) => Err(UnsupportedFormat)
  }

  /** `rewrapBackupValue`: as above, but the envelope's ciphertext string is kept as it was read. */
  function RewrapBackupValue(s: Suite, v: bytes, format: Format, oldKek: bytes, newKek: bytes, n: nonce)
    : Result<bytes, CryptoError>
  {
    if format != JsonEnvelope then RewrapValue(s, v, format, oldKek, newKek, n)
    else match s.json.unmarshal(v)
      case None => Err(BadEnvelope)
      case Some(pair) =>
        match Base64.Decode(Base64.Std, false, pair.1)
        case None => Err(BadEnvelope)
        case Some(dek) =>
          match RewrapDek(s.aead, dek, oldKek, newKek, n)
          case Err(e) => Err(e)
          case Ok(w) => Ok(s.json.marshal(pair.0, Base64.EncodeRaw(Base64.Std, w)))
  }

  /**
   Re-keying a column of any format succeeds exactly when the old KEK reads it, and then the new KEK
   reads the same data key and the same stored bytes, while the old KEK reads nothing.
   */
  lemma RewrapPreserves(s: Suite, v: bytes, f: Format, oldKek: bytes, newKek: bytes, n: nonce)
    requires Lawful(s) && |oldKek| == |newKek| == MASTER_KEY_BYTES
    ensures RewrapValue(s, v, f, oldKek, newKek, n).Ok? <==> Unwrap(s, v, f, oldKek).Ok?
    ensures RewrapValue(s, v, f, oldKek, newKek, n).Ok? ==>
              var w := RewrapValue(s, v, f, oldKek, newKek, n).value;
              && Unwrap(s, w, f, newKek) == Unwrap(s, v, f, oldKek)
              && (Separates(s.aead, newKek, oldKek) ==> Unwrap(s, w, f, oldKek).Err?)
  {
    match f
    case Dek =>
      RewrapDekMeaning(s.aead, v, oldKek, newKek, n);
    case Prefix =>
      if |v| >= WRAPPED_DEK_BYTES {
        var head := v[..WRAPPED_DEK_BYTES];
        RewrapDekMeaning(s.aead, head, oldKek, newKek, n);
        var r := RewrapDek(s.aead, head, oldKek, newKek, n);
        if r.Ok? {
          var w := r.value + v[WRAPPED_DEK_BYTES..];
          assert w[..WRAPPED_DEK_BYTES] == r.value && w[WRAPPED_DEK_BYTES..] == v[WRAPPED_DEK_BYTES..];
        }
      }
    case JsonEnvelope =>
      var u := UnmarshalEnvelope(s.json, v);
      if u.Ok? {
        RewrapDekMeaning(s.aead, u.value.1, oldKek, newKek, n);
        var r := RewrapDek(s.aead, u.value.1, oldKek, newKek, n);
        if r.Ok? { EnvelopeRoundTrip(s.json, u.value.0, r.value); }
      }
    case OtherFormat(_) =>
  }

  /** Hence the readers of each layout decrypt, under the new KEK, exactly what they decrypted before. */
  lemma ReadersUnaffected(s: Suite, v: bytes, f: Format, oldKek: bytes, newKek: bytes, n: nonce, empty: bytes)
    requires Lawful(s) && |oldKek| == |newKek| == MASTER_KEY_BYTES
    requires RewrapValue(s, v, f, oldKek, newKek, n).Ok?
    ensures var w := RewrapValue(s, v, f, oldKek, newKek, n).value;
            && (f == JsonEnvelope ==> DecryptSigningPrivateKey(s, w, newKek) == DecryptSigningPrivateKey(s, v, oldKek))
            && (f == Prefix ==> DecryptProviderSecret(s.aead, w, newKek) == DecryptProviderSecret(s.aead, v, oldKek))
            && (f == Prefix ==> DecryptConfig(s.aead, w, newKek, empty) == DecryptConfig(s.aead, v, oldKek, empty))
  {
    RewrapPreserves(s, v, f, oldKek, newKek, n);
    var w := RewrapValue(s, v, f, oldKek, newKek, n).value;
    if f == Prefix {
      RewrapDekMeaning(s.aead, v[..WRAPPED_DEK_BYTES], oldKek, newKek, n);
      assert |w| == |v|;
    }
  }

  /** Two columns of a layout from which its readers decrypt the same, each with its own KEK. */
  ghost predicate SamePlaintext(s: Suite, v: bytes, kek: bytes, v': bytes, kek': bytes, f: Format) {
    && (f == JsonEnvelope ==> DecryptSigningPrivateKey(s, v', kek') == DecryptSigningPrivateKey(s, v, kek))
    && (f == Prefix ==> DecryptProviderSecret(s.aead, v', kek') == DecryptProviderSecret(s.aead, v, kek))
    && (f == Prefix ==>
          forall empty :: DecryptConfig(s.aead, v', kek', empty) == DecryptConfig(s.aead, v, kek, empty))
  }

  /** What a column protects determines what its readers decrypt; a prefix column must be readable at all. */
  lemma SecretDeterminesPlaintext(s: Suite, v: bytes, kek: bytes, v': bytes, kek': bytes, f: Format)
    requires |kek| == |kek'| == MASTER_KEY_BYTES
    requires Unwrap(s, v', f, kek') == Unwrap(s, v, f, kek)
    requires f == Prefix ==> Unwrap(s, v, f, kek).Ok?
    ensures SamePlaintext(s, v, kek, v', kek', f)
  {
    hide UnmarshalEnvelope;
  }

  /** A ciphertext string that encoding would have produced. */
  predicate Canonical(ct: text) {
    var b := Base64.Decode(Base64.Std, false, ct);
    b.Some? && Base64.EncodeRaw(Base64.Std, b.value) == ct
  }

  /**
   The two rewrappers of an envelope agree exactly when the stored ciphertext string is canonical base64
   (or neither succeeds): the rotation re-encodes it, the backup keeps it.
   */
  lemma RewrappersAgree(s: Suite, v: bytes, oldKek: bytes, newKek: bytes, n: nonce)
    requires Lawful(s) && RewrapBackupValue(s, v, JsonEnvelope, oldKek, newKek, n).Ok?
    ensures RewrapValue(s, v, JsonEnvelope, oldKek, newKek, n)
            == RewrapBackupValue(s, v, JsonEnvelope, oldKek, newKek, n)
       <==> Canonical(s.json.unmarshal(v).value.0)
  {
    var pair := s.json.unmarshal(v).value;
    var b := Base64.Decode(Base64.Std, false, pair.0);
    if b.Some? {
      var dek := Base64.Decode(Base64.Std, false, pair.1).value;
      var w := RewrapDek(s.aead, dek, oldKek, newKek, n).value;
      var w64, ct := Base64.EncodeRaw(Base64.Std, w), Base64.EncodeRaw(Base64.Std, b.value);
      AlphabetAscii(w64);
      AlphabetAscii(ct);
      assert s.json.unmarshal(s.json.marshal(pair.0, w64)) == Some((pair.0, w64));
      assert s.json.unmarshal(s.json.marshal(ct, w64)) == Some((ct, w64));
    }
  }

  /** Such strings exist: two texts decode to a zero byte, and only one of them is what encoding produces. */
  lemma NonCanonicalExists()
    ensures Base64.Decode(Base64.Std, false, "AB") == Base64.Decode(Base64.Std, false, "AA") == Some([0])
    ensures Canonical("AA") && !Canonical("AB")
  {
    Base64.TailDecodes(Base64.Std, "AB");
    Base64.TailDecodes(Base64.Std, "AA");
    assert Base64.IndexOf(Base64.Std, 'A') == Some(0) && Base64.IndexOf(Base64.Std, 'B') == Some(1);
    hide Base64.Decode;
    assert Base64.EncodeRaw(Base64.Std, [0]) == "AA";
  }

  /** Every envelope the writers produce is re-keyed identically by both. */
  lemma MarshalledAgree(s: Suite, ciphertext: bytes, dek: bytes, oldKek: bytes, newKek: bytes, n: nonce)
    requires Lawful(s)
    ensures var v := MarshalEnvelope(s.json, ciphertext, dek);
            RewrapValue(s, v, JsonEnvelope, oldKek, newKek, n)
                == RewrapBackupValue(s, v, JsonEnvelope, oldKek, newKek, n)
  {
    EnvelopeRoundTrip(s.json, ciphertext, dek);
    var a, b := Base64.EncodeRaw(Base64.Std, ciphertext), Base64.EncodeRaw(Base64.Std, dek);
    AlphabetAscii(a);
    AlphabetAscii(b);
    assert s.json.unmarshal(s.json.marshal(a, b)) == Some((a, b));
    Base64.RoundTrip(Base64.Std, false, dek);
  }

  /** The backup rewrapper succeeds exactly when the old KEK opens the DEK that the format points to. */
  lemma BackupRewrapSucceeds(s: Suite, v: bytes, f: Format, oldKek: bytes, newKek: bytes, n: nonce)
    requires Lawful(s) && |oldKek| == |newKek| == MASTER_KEY_BYTES
    ensures f != JsonEnvelope ==> (RewrapBackupValue(s, v, f, oldKek, newKek, n).Ok? <==> Unwrap(s, v, f, oldKek).Ok?)
    ensures f == JsonEnvelope ==>
              (RewrapBackupValue(s, v, f, oldKek, newKek, n).Ok? <==>
               && s.json.unmarshal(v).Some?
               && Base64.Decode(Base64.Std, false, s.json.unmarshal(v).value.1).Some?
               && Open(s.aead, Base64.Decode(Base64.Std, false, s.json.unmarshal(v).value.1).value, oldKek).Ok?)
    ensures Unwrap(s, v, f, oldKek).Ok? ==> RewrapBackupValue(s, v, f, oldKek, newKek, n).Ok?
  {
    hide Base64.Decode, Base64.EncodeRaw;
    if f != JsonEnvelope { RewrapPreserves(s, v, f, oldKek, newKek, n); }
  }

  /** The backup rewrapper preserves secrets too, and what it writes can be re-keyed again to any third key. */
  lemma BackupRewrapPreserves(s: Suite, v: bytes, f: Format, oldKek: bytes, newKek: bytes, n: nonce, third: bytes,
                              n': nonce)
    requires Lawful(s) && |oldKek| == |newKek| == |third| == MASTER_KEY_BYTES
    requires RewrapBackupValue(s, v, f, oldKek, newKek, n).Ok?
    ensures var w := RewrapBackupValue(s, v, f, oldKek, newKek, n).value;
            && Unwrap(s, w, f, newKek) == Unwrap(s, v, f, oldKek)
            && (f == Prefix ==> Unwrap(s, v, f, oldKek).Ok?)
            && RewrapBackupValue(s, w, f, newKek, third, n').Ok?
  {
    if f != JsonEnvelope {
      RewrapPreserves(s, v, f, oldKek, newKek, n);
      RewrapPreserves(s, RewrapValue(s, v, f, oldKek, newKek, n).value, f, newKek, third, n');
    } else {
      var pair := s.json.unmarshal(v).value;
      var dek := Base64.Decode(Base64.Std, false, pair.1).value;
      RewrapDekMeaning(s.aead, dek, oldKek, newKek, n);
      var w := RewrapDek(s.aead, dek, oldKek, newKek, n).value;
      var w64 := Base64.EncodeRaw(Base64.Std, w);
      AlphabetAscii(w64);
      Base64.RoundTrip(Base64.Std, false, w);
      RewrapDekMeaning(s.aead, w, newKek, third, n');
      assert s.json.unmarshal(s.json.marshal(pair.0, w64)) == Some((pair.0, w64));
    }
  }

  // ----- The laws are satisfiable: a cipher whose tag is drawn from the key meets them

  function Tag(k: bytes): (t: bytes)
    ensures |t| == TAG_BYTES
  {
    seq(TAG_BYTES, i requires 0 <= i < TAG_BYTES => if i < |k| then k[i] else 0)
  }

  function TaggedOpen(x: bytes, k: bytes): Option<bytes> {
    if |x| >= NONCE_BYTES + TAG_BYTES && x[|x| - TAG_BYTES..] == Tag(k)
    then Some(x[NONCE_BYTES..|x| - TAG_BYTES]) else None
  }

  const TAGGED := Aead((p: bytes, k: bytes, n: nonce) => n + p + Tag(k), (x: bytes, k: bytes) => TaggedOpen(x, k))

  function TextOf(b: bytes): (t: text)
    ensures |t| == |b|
  { seq(|b|, i requires 0 <= i < |b| => b[i] as char) }

  function BytesOf(t: text): (b: bytes)
    ensures |b| == |t|
  { seq(|t|, i requires 0 <= i < |t| => t[i] as int) }

  lemma TextOfBytesOf(t: text)
    ensures TextOf(BytesOf(t)) == t
  {}

  function DottedMarshal(a: text, b: text): bytes {
    BytesOf(Base64.EncodeRaw(Base64.Url, BytesOf(a)) + "." + Base64.EncodeRaw(Base64.Url, BytesOf(b)))
  }

  function DottedUnmarshal(x: bytes): Option<(text, text)> {
    var cut := Text.Cut(TextOf(x), '.');
    match (Base64.Decode(Base64.Url, false, cut.before), Base64.Decode(Base64.Url, false, cut.after))
    case (Some(a), Some(b)) =>
      if Utf8.WellFormed(TextOf(a)) && Utf8.WellFormed(TextOf(b)) then Some((TextOf(a), TextOf(b))) else None
    case _ => None
  }

  /** Two strings joined by a dot in base64 meet the laws asked of the envelope's JSON. */
  const DOTTED := EnvelopeJson((a: text, b: text) => DottedMarshal(a, b), (x: bytes) => DottedUnmarshal(x))

  lemma DottedRoundTrip(a: text, b: text)
    requires Utf8.WellFormed(a) && Utf8.WellFormed(b)
    ensures DottedUnmarshal(DottedMarshal(a, b)) == Some((a, b))
  {
    hide Base64.EncodeRaw, Base64.Decode, Text.Cut, Utf8.WellFormed, TextOf, BytesOf;
    var x, y := Base64.EncodeRaw(Base64.Url, BytesOf(a)), Base64.EncodeRaw(Base64.Url, BytesOf(b));
    assert '.' !in x by { assert Base64.IndexOf(Base64.Url, '.').None?; }
    Text.CutAt(x, y, '.');
    assert x + "." + y == x + ['.'] + y;
    TextOfBytesOf(x + "." + y);
    TextOfBytesOf(a);
    TextOfBytesOf(b);
    Base64.RoundTrip(Base64.Url, false, BytesOf(a));
    Base64.RoundTrip(Base64.Url, false, BytesOf(b));
  }

  lemma JsonLawsSatisfiable()
    ensures LawfulJson(DOTTED)
  {
    hide Utf8.WellFormed, DottedMarshal;
    forall a, b | Utf8.WellFormed(a) && Utf8.WellFormed(b)
        ensures DOTTED.unmarshal(DOTTED.marshal(a, b)) == Some((a, b)) {
      DottedRoundTrip(a, b);
    }
  }

  lemma LawsSatisfiable(k: bytes, other: bytes)
    requires Tag(k) != Tag(other)
    ensures Lawful(Suite(TAGGED, DOTTED)) && Separates(TAGGED, k, other) && Separates(TAGGED, other, k)
  {
    hide LawfulJson;
    JsonLawsSatisfiable();
  }
}
