/** Reading a master key: four encodings tried in turn, and the refusal of a repeated byte. */
module MasterKey {
  import opened Prelude
  import opened Envelope
  import opened Base64

  function RawBytes(raw: text): (b: bytes)
    ensures |b| == |raw|
  {
    seq(|raw|, i requires 0 <= i < |raw| => raw[i] as int)
  }

  predicate Is32(b: Option<bytes>) { b.Some? && |b.value| == MASTER_KEY_BYTES }

  /** `decodeKey`: padded base64, unpadded base64, base16, then the raw bytes. */
  function DecodeKey(raw: text): Result<bytes, CryptoError> {
    if raw == [] then Err(InvalidMasterKey)
    else if Is32(Decode(Std, true, raw)) then Ok(Decode(Std, true, raw).value)
    else if Is32(Decode(Std, false, raw)) then Ok(Decode(Std, false, raw).value)
    else if Is32(HexDecode(raw)) then Ok(HexDecode(raw).value)
    else if |raw| == MASTER_KEY_BYTES then Ok(RawBytes(raw))
    else Err(InvalidMasterKey)
  }

  lemma {:induction false} HexHasNoNewline(s: string)
    requires HexDecode(s).Some?
    ensures DropNewlines(s) == s
  {
    if s != "" {
      HexHasNoNewline(s[2..]);
      assert s[1..][1..] == s[2..];
      assert s == [s[0]] + ([s[1]] + s[2..]);
    }
  }

  /**
   At most one of the four readings yields a 32-byte key, on every input, so the order in which
   `decodeKey` tries them cannot change its answer.
   */
  lemma Unambiguous(raw: text)
    ensures Is32(Decode(Std, true, raw)) ==> |DropNewlines(raw)| == 44
    ensures Is32(Decode(Std, false, raw)) ==> |DropNewlines(raw)| == 43
    ensures Is32(HexDecode(raw)) ==> |DropNewlines(raw)| == 64
    ensures |raw| == MASTER_KEY_BYTES ==> |DropNewlines(raw)| <= 32
  {
    if Is32(Decode(Std, true, raw)) { DecodedLength(Std, true, raw); }
    if Is32(Decode(Std, false, raw)) { DecodedLength(Std, false, raw); }
    if Is32(HexDecode(raw)) { HexHasNoNewline(raw); HexDecodedLength(raw); }
    DropNewlinesShortens(raw);
  }

  /** Every 32-byte key is recovered from each of its three encodings, and every 32-byte raw string is itself. */
  lemma DecodeKeyForms(key: bytes, raw: text)
    requires |key| == MASTER_KEY_BYTES
    ensures DecodeKey(EncodePadded(Std, key)) == Ok(key)
    ensures DecodeKey(EncodeRaw(Std, key)) == Ok(key)
    ensures DecodeKey(HexEncode(key)) == Ok(key)
    ensures |raw| == MASTER_KEY_BYTES ==> DecodeKey(raw) == Ok(RawBytes(raw))
  {
    hide Decode, HexDecode, DropNewlines, RawBytes;
    RoundTrip(Std, true, key);
    RoundTrip(Std, false, key);
    HexRoundTrip(key);
    Unambiguous(EncodeRaw(Std, key));
    Unambiguous(HexEncode(key));
    Unambiguous(raw);
  }

  /** A key whose bytes are all the same. */
  predicate Weak(raw: text) { forall i :: 0 <= i < |raw| ==> raw[i] == raw[0] }

  /** `weakRawMasterKey`. */
  method WeakRawMasterKey(raw: text) returns (weak: bool)
    requires raw != []
    ensures weak == Weak(raw)
  {
    var first := raw[0];
    for i := 1 to |raw|
      invariant forall j :: 0 <= j < i ==> raw[j] == first
    {
      if raw[i] != first { return false; }
    }
    return true;
  }

  /** A byte that can belong to white space: an ASCII blank, or part of a longer code point. */
  predicate Blank(c: octet) { c in ['\t', '\n', '\r', ' '] || c as int == 11 || c as int == 12 || c as int >= 0x80 }

  /** `strings.TrimSpace` removes bytes at both ends, and only such. */
  ghost predicate Trims(trim: text -> text) {
    forall s :: exists i, j :: 0 <= i <= j <= |s| && trim(s) == s[i..j]
                               && (forall k :: 0 <= k < i ==> Blank(s[k])) && (forall k :: j <= k < |s| ==> Blank(s[k]))
  }

  lemma NothingToTrim(trim: text -> text, s: text)
    requires Trims(trim) && forall i :: 0 <= i < |s| ==> !Blank(s[i])
    ensures trim(s) == s
  {
    hide Blank;
    var i, j :| 0 <= i <= j <= |s| && trim(s) == s[i..j]
                && (forall k :: 0 <= k < i ==> Blank(s[k])) && (forall k :: j <= k < |s| ==> Blank(s[k]));
    assert s != [] ==> !Blank(s[0]) && !Blank(s[|s| - 1]);
  }

  function LoadMasterKey(trim: text -> text, raw: text): Result<bytes, CryptoError> { DecodeKey(trim(raw)) }

  /** `normalizeMasterKey`; an unset key reads as the empty one. */
  function NormalizeMasterKey(trim: text -> text, raw: text): Result<bytes, CryptoError> {
    if raw == [] then Ok([])
    else if |raw| == MASTER_KEY_BYTES && Weak(raw) then Err(InvalidMasterKey)
    else if LoadMasterKey(trim, raw).Ok? then LoadMasterKey(trim, raw)
    else Err(InvalidMasterKey)
  }

  /** Too short for any of the four readings. */
  lemma ShortRejected(raw: text)
    requires |raw| < MASTER_KEY_BYTES
    ensures DecodeKey(raw).Err?
  {
    hide Decode, HexDecode, DropNewlines, RawBytes;
    Unambiguous(raw);
    DropNewlinesShortens(raw);
  }

  lemma RawDecodes(raw: text)
    requires |raw| == MASTER_KEY_BYTES
    ensures DecodeKey(raw) == Ok(RawBytes(raw))
  {
    hide Decode, HexDecode, DropNewlines, RawBytes;
    Unambiguous(raw);
  }

  /** A 32-byte raw string is accepted exactly when it is not one repeated byte and has no outer white space. */
  lemma NormalizeRaw(trim: text -> text, raw: text)
    requires Trims(trim) && |raw| == MASTER_KEY_BYTES
    ensures NormalizeMasterKey(trim, raw) ==
            if !Weak(raw) && trim(raw) == raw then Ok(RawBytes(raw)) else Err(InvalidMasterKey)
  {
    hide DecodeKey, Weak, Trims;
    RawDecodes(raw);
    TrimShortens(trim, raw);
    if |trim(raw)| < MASTER_KEY_BYTES { ShortRejected(trim(raw)); }
  }

  lemma TrimShortens(trim: text -> text, raw: text)
    requires Trims(trim)
    ensures trim(raw) == raw || |trim(raw)| < |raw|
  { hide Blank; }

  lemma EncodingsHaveNoBlanks(s: text)
    requires forall i :: 0 <= i < |s| ==> IndexOf(Std, s[i]).Some? || s[i] == '='
    ensures forall i :: 0 <= i < |s| ==> !Blank(s[i])
  {}

  /** A key is accepted in each of its encodings, whatever its bytes; an unset key reads as the empty one. */
  lemma NormalizeForms(trim: text -> text, key: bytes)
    requires Trims(trim) && |key| == MASTER_KEY_BYTES
    ensures NormalizeMasterKey(trim, EncodePadded(Std, key)) == Ok(key)
    ensures NormalizeMasterKey(trim, EncodeRaw(Std, key)) == Ok(key)
    ensures NormalizeMasterKey(trim, HexEncode(key)) == Ok(key)
    ensures NormalizeMasterKey(trim, []) == Ok([])
  {
    hide DecodeKey, Weak, EncodeRaw, HexEncode, Blank, Trims, IndexOf;
    DecodeKeyForms(key, []);
    EncodingsHaveNoBlanks(EncodePadded(Std, key));
    EncodingsHaveNoBlanks(EncodeRaw(Std, key));
    EncodingsHaveNoBlanks(HexEncode(key));
    NothingToTrim(trim, EncodePadded(Std, key));
    NothingToTrim(trim, EncodeRaw(Std, key));
    NothingToTrim(trim, HexEncode(key));
  }

  /** Whatever has, after trimming, none of the four lengths a key can have is refused. */
  lemma WrongLengthRefused(trim: text -> text, raw: text)
    requires raw != [] && |trim(raw)| != 32
    requires |DropNewlines(trim(raw))| != 43 && |DropNewlines(trim(raw))| != 44 && |DropNewlines(trim(raw))| != 64
    ensures NormalizeMasterKey(trim, raw) == Err(InvalidMasterKey)
  {
    hide Decode, HexDecode, DropNewlines, RawBytes, Weak;
    Unambiguous(trim(raw));
  }
}
