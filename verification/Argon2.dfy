/** The PHC string of a password hash: its printer, its parser and the password check built on them. */
module Argon2 {
  import opened Prelude
  import opened Text
  import opened Base64

  type bytes = seq<byte>

  const UINT32_LIMIT: nat := 0x1_0000_0000
  const UINT8_LIMIT: nat := 0x100
  const SALT_BYTES: nat := 16
  const KEY_BYTES: nat := 32

  datatype Params = Params(memory: nat, time: nat, threads: nat)

  /** The cost parameters every new hash is written with. */
  const DEFAULTS := Params(19 * 1024, 2, 1)

  predicate InRange(p: Params) {
    1 <= p.memory < UINT32_LIMIT && 1 <= p.time < UINT32_LIMIT && 1 <= p.threads < UINT8_LIMIT
  }

  datatype HashError = Rejected | Mismatch | InvalidHash

  function ParamsText(p: Params): string {
    "m=" + Decimal(p.memory) + ",t=" + Decimal(p.time) + ",p=" + Decimal(p.threads)
  }

  function EncodeWith(p: Params, salt: bytes, hash: bytes): string {
    "$argon2id$v=19$" + ParamsText(p) + "$" + EncodeRaw(Std, salt) + "$" + EncodeRaw(Std, hash)
  }

  /** `encodeArgon2id`. */
  function EncodeArgon2id(salt: bytes, hash: bytes): string { EncodeWith(DEFAULTS, salt, hash) }

  /** The key/value fields in order, later ones winning; `None` when one has no `=`. */
  function Fields(parts: seq<string>): Option<map<string, string>> {
    if parts == [] then Some(map[])
    else
      var last := Cut(parts[|parts| - 1], '=');
      match Fields(parts[..|parts| - 1])
      case None => None
      case Some(values) => if last.found then Some(values[last.before := last.after]) else None
  }

  function FieldUint(values: map<string, string>, name: string, limit: nat): (r: Option<nat>)
    ensures r.Some? ==> 1 <= r.value < limit
  {
    var n := ParseUint(if name in values then values[name] else "", limit);
    if n.Some? && n.value != 0 then n else None
  }

  function ParamsOf(raw: string): Option<Params> {
    match Fields(Split(raw, ','))
    case None => None
    case Some(values) =>
      match (FieldUint(values, "m", UINT32_LIMIT), FieldUint(values, "t", UINT32_LIMIT),
             FieldUint(values, "p", UINT8_LIMIT))
      case (Some(m), Some(t), Some(p)) => Some(Params(m, t, p))
      case _ => None
  }

  /** `parseArgon2Params`. */
  method ParseArgon2Params(raw: string) returns (r: Option<Params>)
    ensures r == ParamsOf(raw)
    ensures r.Some? ==> 1 <= r.value.memory <= 4_294_967_295 && 1 <= r.value.time <= 4_294_967_295
    ensures r.Some? ==> 1 <= r.value.threads <= 255
  {
    hide Split, Cut, FieldUint;
    var parts := Split(raw, ',');
    var values: map<string, string> := map[];
    for i := 0 to |parts|
      invariant Fields(parts[..i]) == Some(values)
    {
      var field := Cut(parts[i], '=');
      assert parts[..i + 1][..i] == parts[..i];
      if !field.found {
        FieldsPrefix(parts, i + 1);
        return None;
      }
      values := values[field.before := field.after];
    }
    assert parts[..|parts|] == parts;
    var m, t, p := FieldUint(values, "m", UINT32_LIMIT), FieldUint(values, "t", UINT32_LIMIT),
        FieldUint(values, "p", UINT8_LIMIT);
    if m.None? || t.None? || p.None? { return None; }
    return Some(Params(m.value, t.value, p.value));
  }

  // What the parameter field says, by its last part of each name.

  predicate Named(part: string, name: string) { |part| > |name| && part[..|name| + 1] == name + "=" }

  /** What stands behind the name. */
  function Assigned(part: string, name: string): string { if |part| > |name| then part[|name| + 1..] else "" }

  /** Part `i` is the last one of that name. */
  predicate LastNamed(parts: seq<string>, name: string, i: nat) {
    i < |parts| && Named(parts[i], name) && forall j :: i < j < |parts| ==> !Named(parts[j], name)
  }

  predicate Numeral(v: string, n: nat) {
    v != "" && (forall k :: 0 <= k < |v| ==> IsDigit(v[k])) && DecimalValue(v) == n
  }

  /** The last part of that name assigns the decimal digits of `n`. */
  predicate Gives(parts: seq<string>, name: string, n: nat) {
    exists i: nat :: i < |parts| && LastNamed(parts, name, i) && Numeral(Assigned(parts[i], name), n)
  }

  lemma CutNamed(part: string, name: string)
    requires '=' !in name
    ensures var c := Cut(part, '=');
            && (Named(part, name) <==> c.found && c.before == name)
            && (Named(part, name) ==> c.after == Assigned(part, name))
            && (c.found <==> '=' in part)
  {
    if Named(part, name) {
      var rest := part[|name| + 1..];
      assert part == name + ['='] + rest;
      CutAt(name, rest, '=');
    }
    hide Cut;
    var c := Cut(part, '=');
    if c.found { assert part[|c.before|] == '='; }
  }

  lemma {:induction false} FieldsExactly(parts: seq<string>)
    ensures Fields(parts).Some? <==> forall i :: 0 <= i < |parts| ==> '=' in parts[i]
  {
    hide Cut;
    if parts != [] {
      var n := |parts| - 1;
      FieldsExactly(parts[..n]);
      CutNamed(parts[n], "");
      assert forall i :: 0 <= i < n ==> parts[..n][i] == parts[i];
    }
  }

  /** The value kept under a name is that of the last part of the name. */
  lemma {:induction false} FieldsLast(parts: seq<string>, name: string) returns (i: nat)
    requires '=' !in name && Fields(parts).Some?
    ensures name in Fields(parts).value ==>
              i < |parts| && LastNamed(parts, name, i) && Fields(parts).value[name] == Assigned(parts[i], name)
    ensures name !in Fields(parts).value ==> forall j :: 0 <= j < |parts| ==> !Named(parts[j], name)
  {
    hide Cut, Named, Assigned;
    i := 0;
    if parts != [] {
      var n := |parts| - 1;
      i := FieldsLast(parts[..n], name);
      CutNamed(parts[n], name);
      assert forall j :: 0 <= j < n ==> parts[..n][j] == parts[j];
      if Named(parts[n], name) { i := n; }
    }
  }

  lemma FieldExactly(parts: seq<string>, name: string, limit: nat, n: nat)
    requires '=' !in name && Fields(parts).Some?
    ensures FieldUint(Fields(parts).value, name, limit) == Some(n) <==> Gives(parts, name, n) && 1 <= n < limit
  {
    hide Fields, DecimalValue, Assigned, Named;
    var i := FieldsLast(parts, name);
    assert forall j: nat :: LastNamed(parts, name, j) ==> name in Fields(parts).value && j == i;
  }

  /** The parameters that a text gives: its parts are all assignments, and the last one of each name counts. */
  lemma ParamsExactly(raw: string, q: Params)
    ensures var parts := Split(raw, ',');
            ParamsOf(raw) == Some(q) <==>
            && (forall i :: 0 <= i < |parts| ==> '=' in parts[i])
            && Gives(parts, "m", q.memory) && 1 <= q.memory <= 4_294_967_295
            && Gives(parts, "t", q.time) && 1 <= q.time <= 4_294_967_295
            && Gives(parts, "p", q.threads) && 1 <= q.threads <= 255
  {
    hide Fields, FieldUint, Gives, Split;
    var parts := Split(raw, ',');
    FieldsExactly(parts);
    if Fields(parts).Some? {
      FieldExactly(parts, "m", UINT32_LIMIT, q.memory);
      FieldExactly(parts, "t", UINT32_LIMIT, q.time);
      FieldExactly(parts, "p", UINT8_LIMIT, q.threads);
    }
  }

  lemma {:induction false} FieldsPrefix(parts: seq<string>, n: nat)
    requires n <= |parts| && Fields(parts[..n]).None?
    ensures Fields(parts).None?
    decreases |parts|
  {
    if n == |parts| {
      assert parts[..n] == parts;
    } else {
      assert parts[..|parts| - 1][..n] == parts[..n];
      FieldsPrefix(parts[..|parts| - 1], n);
    }
  }

  /** `decodeArgon2id`. */
  function DecodeArgon2id(encoded: string): Result<(Params, bytes, bytes), HashError> {
    var parts := Split(encoded, '$');
    if |parts| != 6 || parts[1] != "argon2id" || parts[2] != "v=19" then Err(InvalidHash)
    else match (ParamsOf(parts[3]), Decode(Std, false, parts[4]), Decode(Std, false, parts[5]))
      case (Some(params), Some(salt), Some(hash)) =>
        if salt == [] || hash == [] then Err(InvalidHash) else Ok((params, salt, hash))
      case _ => Err(InvalidHash)
  }

  lemma NotInDecimal(n: nat, c: char)
    requires !IsDigit(c)
    ensures c !in Decimal(n)
  {}

  lemma ParamsParts(p: Params)
    ensures Split(ParamsText(p), ',') == ["m=" + Decimal(p.memory), "t=" + Decimal(p.time), "p=" + Decimal(p.threads)]
    ensures '$' !in ParamsText(p)
  {
    var m, t, q := "m=" + Decimal(p.memory), "t=" + Decimal(p.time), "p=" + Decimal(p.threads);
    NotInDecimal(p.memory, ','); NotInDecimal(p.time, ','); NotInDecimal(p.threads, ',');
    NotInDecimal(p.memory, '$'); NotInDecimal(p.time, '$'); NotInDecimal(p.threads, '$');
    SplitFirst(m, t + "," + q, ',');
    SplitFirst(t, q, ',');
    SplitOne(q, ',');
    assert ParamsText(p) == m + [','] + (t + "," + q);
    assert t + "," + q == t + [','] + q;
  }

  lemma FieldCut(name: char, value: string)
    requires name != '='
    ensures Cut([name, '='] + value, '=') == CutResult([name], value, true)
  {}

  /** The parameter field parses back for every parameter set in range. */
  lemma ParamsRoundTrip(p: Params)
    requires InRange(p)
    ensures ParamsOf(ParamsText(p)) == Some(p)
  {
    hide Split, Cut, Decimal, ParseUint, ParamsText;
    ParamsParts(p);
    var m, t, q := Decimal(p.memory), Decimal(p.time), Decimal(p.threads);
    var parts := ["m=" + m, "t=" + t, "p=" + q];
    assert parts[..2] == ["m=" + m, "t=" + t] && parts[..2][..1] == ["m=" + m] && parts[..2][..1][..0] == [];
    FieldCut('m', m); FieldCut('t', t); FieldCut('p', q);
    var values := map["m" := m]["t" := t]["p" := q];
    assert Fields(parts[..2][..1]) == Some(map["m" := m]);
    assert Fields(parts[..2]) == Some(map["m" := m]["t" := t]);
    assert Fields(parts) == Some(values);
    ParseDecimal(p.memory, UINT32_LIMIT); ParseDecimal(p.time, UINT32_LIMIT); ParseDecimal(p.threads, UINT8_LIMIT);
  }

  lemma AlphabetNoDollar(s: string)
    requires InAlphabet(Std, s)
    ensures '$' !in s
  {}

  lemma LastParts(m: string, s: string, h: string)
    requires '$' !in m && '$' !in s && '$' !in h
    ensures Split(m + "$" + s + "$" + h, '$') == [m, s, h]
  {
    SplitOne(h, '$');
    SplitFirst(s, h, '$');
    SplitFirst(m, s + "$" + h, '$');
    assert m + "$" + s + "$" + h == m + "$" + (s + "$" + h);
  }

  lemma HeaderParts(rest: string)
    ensures Split("$argon2id$v=19$" + rest, '$') == ["", "argon2id", "v=19"] + Split(rest, '$')
  {
    hide Split;
    SplitFirst("v=19", rest, '$');
    SplitFirst("argon2id", "v=19$" + rest, '$');
    SplitFirst("", "argon2id$v=19$" + rest, '$');
    assert "$argon2id$v=19$" + rest == "" + "$" + ("argon2id$v=19$" + rest);
    assert "argon2id$v=19$" + rest == "argon2id" + "$" + ("v=19$" + rest);
    assert "v=19$" + rest == "v=19" + "$" + rest;
  }

  lemma EncodedParts(p: Params, salt: bytes, hash: bytes)
    ensures Split(EncodeWith(p, salt, hash), '$') ==
            ["", "argon2id", "v=19", ParamsText(p), EncodeRaw(Std, salt), EncodeRaw(Std, hash)]
  {
    var m, s, h := ParamsText(p), EncodeRaw(Std, salt), EncodeRaw(Std, hash);
    ParamsParts(p);
    AlphabetNoDollar(s);
    AlphabetNoDollar(h);
    LastParts(m, s, h);
    HeaderParts(m + "$" + s + "$" + h);
    assert EncodeWith(p, salt, hash) == "$argon2id$v=19$" + (m + "$" + s + "$" + h);
  }

  /** Decoding undoes encoding exactly when neither part is empty, for every parameter set in range. */
  lemma DecodeEncode(p: Params, salt: bytes, hash: bytes)
    requires InRange(p)
    ensures DecodeArgon2id(EncodeWith(p, salt, hash)) ==
            if salt == [] || hash == [] then Err(InvalidHash) else Ok((p, salt, hash))
  {
    hide Split, Decode, ParamsOf, ParamsText, EncodeWith;
    EncodedParts(p, salt, hash);
    ParamsRoundTrip(p);
    RoundTrip(Std, false, salt);
    RoundTrip(Std, false, hash);
  }

  /** Decoding accepts exactly this shape: any prefix, the algorithm, the version, and three parts that parse. */
  lemma DecodesExactly(encoded: string)
    ensures DecodeArgon2id(encoded).Ok? <==>
            exists x: string, m: string, s: string, h: string ::
              && '$' !in x && '$' !in m && '$' !in s && '$' !in h
              && encoded == Join([x, "argon2id", "v=19", m, s, h], '$')
              && ParamsOf(m).Some? && NonEmpty(Decode(Std, false, s)) && NonEmpty(Decode(Std, false, h))
  {
    hide Split, Join, Decode, ParamsOf;
    var parts := Split(encoded, '$');
    JoinSplit(encoded, '$');
    if DecodeArgon2id(encoded).Ok? {
      assert parts == [parts[0], "argon2id", "v=19", parts[3], parts[4], parts[5]];
      assert '$' !in parts[0] && '$' !in parts[3] && '$' !in parts[4] && '$' !in parts[5];
    }
    if x: string, m: string, s: string, h: string :|
      && '$' !in x && '$' !in m && '$' !in s && '$' !in h
      && encoded == Join([x, "argon2id", "v=19", m, s, h], '$')
      && ParamsOf(m).Some? && NonEmpty(Decode(Std, false, s)) && NonEmpty(Decode(Std, false, h))
    {
      SplitJoin([x, "argon2id", "v=19", m, s, h], '$');
    }
  }

  predicate NonEmpty(b: Option<bytes>) { b.Some? && b.value != [] }

  /** argon2.IDKey(password, salt, time, memory, threads, keyLen). */
  type Kdf = (text, bytes, nat, nat, nat, nat) -> bytes

  ghost predicate FixedLength(kdf: Kdf) {
    forall pw, salt, t, m, p, n :: |kdf(pw, salt, t, m, p, n)| == n
  }

  /** `HashPassword`; `allowed` is the denylist's verdict and `salt` the random salt. */
  function HashPassword(kdf: Kdf, password: text, allowed: bool, salt: bytes): Result<string, HashError>
    requires |salt| == SALT_BYTES
  {
    if !allowed then Err(Rejected)
    else Ok(EncodeArgon2id(salt, kdf(password, salt, DEFAULTS.time, DEFAULTS.memory, DEFAULTS.threads, KEY_BYTES)))
  }

  function VerifyPassword(kdf: Kdf, encoded: string, password: text): Result<(), HashError> {
    match DecodeArgon2id(encoded)
    case Err(e) => Err(e)
    case Ok((params, salt, want)) =>
      if |want| >= UINT32_LIMIT then Err(InvalidHash)
      else if kdf(password, salt, params.time, params.memory, params.threads, |want|) != want then Err(Mismatch)
      else Ok(())
  }

  /** Whatever parameters a hash was made with, it accepts exactly the passwords that derive its key with them. */
  lemma VerifyEncoded(kdf: Kdf, p: Params, salt: bytes, want: bytes, attempt: text)
    requires InRange(p) && salt != [] && want != []
    ensures VerifyPassword(kdf, EncodeWith(p, salt, want), attempt) ==
            if |want| > 4_294_967_295 then Err(InvalidHash)
            else if kdf(attempt, salt, p.time, p.memory, p.threads, |want|) == want then Ok(()) else Err(Mismatch)
  {
    hide EncodeWith, DecodeArgon2id;
    DecodeEncode(p, salt, want);
  }

  /** New hashes carry these costs, and nothing is hashed that the denylist rejects. */
  lemma NewHash(kdf: Kdf, password: text, salt: bytes)
    requires |salt| == 16
    ensures HashPassword(kdf, password, false, salt) == Err(Rejected)
    ensures HashPassword(kdf, password, true, salt) ==
            Ok("$argon2id$v=19$" + "m=19456,t=2,p=1" + "$" + EncodeRaw(Std, salt) + "$" + EncodeRaw(Std,
                kdf(password, salt, 2, 19456, 1, 32)))
  {
    hide EncodeRaw;
    DecimalDigits();
    assert ParamsText(DEFAULTS) == "m=19456,t=2,p=1";
  }

  lemma DecimalDigits()
    ensures Decimal(19456) == "19456" && Decimal(2) == "2" && Decimal(1) == "1"
  {
    assert Decimal(19) == Decimal(1) + [Digit(9)] == "19";
    assert Decimal(194) == Decimal(19) + [Digit(4)] == "194";
    assert Decimal(1945) == Decimal(194) + [Digit(5)] == "1945";
    assert Decimal(19456) == Decimal(1945) + [Digit(6)];
  }

  /** A stored hash accepts exactly the passwords that derive the same key, so always the one it was made from. */
  lemma VerifyHashed(kdf: Kdf, password: text, attempt: text, salt: bytes)
    requires FixedLength(kdf) && |salt| == SALT_BYTES
    ensures var key := (pw: text) => kdf(pw, salt, DEFAULTS.time, DEFAULTS.memory, DEFAULTS.threads, KEY_BYTES);
            VerifyPassword(kdf, HashPassword(kdf, password, true, salt).value, attempt) ==
            if key(attempt) == key(password) then Ok(()) else Err(Mismatch)
  {
    DecodeEncode(DEFAULTS, salt, kdf(password, salt, DEFAULTS.time, DEFAULTS.memory, DEFAULTS.threads, KEY_BYTES));
  }
}
