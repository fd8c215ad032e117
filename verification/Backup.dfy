/**
 Encrypted backups: every table is dumped, its encrypted columns re-keyed in place from the master key to a
 key derived from the passphrase, and on import re-keyed again to the importing instance's master key.
 */
module Backup {
  import opened Prelude
  import opened Envelope
  import opened Columns
  import Base64
  import Utf8

  /** A JSON field: a string, or any other value, which a backup carries unchanged. */
  datatype Json = Str(s: text) | Other(value: int)

  type Row = map<string, Json>
  type Tables = map<string, seq<Row>>

  function Rows(tables: Tables, table: string): seq<Row> { if table in tables then tables[table] else [] }

  // ----- Byte columns as JSON strings

  const HEX_PREFIX: text := "\\x"

  /** `decodeJSONBytea`. */
  function DecodeBytea(value: text): Option<bytes> {
    if |value| >= 2 && value[..2] == HEX_PREFIX then Base64.HexDecode(value[2..])
    else Base64.Decode(Base64.Std, true, value)
  }

  /** `encodeJSONBytea`. */
  function EncodeBytea(value: bytes): text { HEX_PREFIX + Base64.HexEncode(value) }

  lemma ByteaRoundTrip(b: bytes)
    ensures EncodeBytea(b) != [] && DecodeBytea(EncodeBytea(b)) == Some(b)
  {
    Base64.HexRoundTrip(b);
    assert EncodeBytea(b)[..2] == HEX_PREFIX && EncodeBytea(b)[2..] == Base64.HexEncode(b);
  }

  /** Base64, which older dumps may hold, is read too: it never looks like the hex form. */
  lemma ByteaBase64(b: bytes)
    ensures DecodeBytea(Base64.EncodePadded(Base64.Std, b)) == Some(b)
  {
    hide Base64.EncodeRaw, Base64.Decode, Base64.HexDecode;
    Base64.RoundTrip(Base64.Std, true, b);
    var raw := Base64.EncodeRaw(Base64.Std, b);
    assert Base64.IndexOf(Base64.Std, '\\').None?;
    var v := Base64.EncodePadded(Base64.Std, b);
    assert |v| >= 2 ==> v[..2][0] == raw[0] != HEX_PREFIX[0];
  }

  // ----- Re-keying one field

  /** Only a non-empty string is re-keyed; null, absent and empty fields are passed over. */
  predicate Encrypted(v: Json) { v.Str? && v.s != [] }

  datatype Rekey = Rekey(suite: Suite, oldKek: bytes, newKek: bytes) {
    predicate Usable() { |oldKek| == MASTER_KEY_BYTES && |newKek| == MASTER_KEY_BYTES }
  }

  function RewrapField(r: Rekey, v: Json, format: Format, n: nonce): Result<Json, CryptoError> {
    if !Encrypted(v) then Ok(v)
    else match DecodeBytea(v.s)
      case None => Err(BadEnvelope)
      case Some(b) =>
        match RewrapBackupValue(r.suite, b, format, r.oldKek, r.newKek, n)
        case Err(e) => Err(e)
        case Ok(w) => Ok(Str(EncodeBytea(w)))
  }

  /**
   Two fields protect the same secret under two keys, and read the same with them; a field that is not encrypted must be
   unchanged.
   */
  ghost predicate SameSecret(s: Suite, v: Json, kek: bytes, v': Json, kek': bytes, format: Format) {
    if !v.Str? || v.s == [] then v' == v
    else
      && v'.Str? && v'.s != [] && DecodeBytea(v.s).Some? && DecodeBytea(v'.s).Some?
      && Unwrap(s, DecodeBytea(v'.s).value, format, kek') == Unwrap(s, DecodeBytea(v.s).value, format, kek)
      && SamePlaintext(s, DecodeBytea(v.s).value, kek, DecodeBytea(v'.s).value, kek', format)
  }

  lemma FieldPreserved(r: Rekey, v: Json, format: Format, n: nonce, third: bytes, n': nonce)
    requires Lawful(r.suite) && r.Usable() && |third| == MASTER_KEY_BYTES && RewrapField(r, v, format, n).Ok?
    ensures SameSecret(r.suite, v, r.oldKek, RewrapField(r, v, format, n).value, r.newKek, format)
    ensures RewrapField(Rekey(r.suite, r.newKek, third), RewrapField(r, v, format, n).value, format, n').Ok?
  {
    hide RewrapBackupValue, Unwrap, DecodeBytea, EncodeBytea, SamePlaintext;
    if Encrypted(v) {
      var b := DecodeBytea(v.s).value;
      BackupRewrapPreserves(r.suite, b, format, r.oldKek, r.newKek, n, third, n');
      var w := RewrapBackupValue(r.suite, b, format, r.oldKek, r.newKek, n).value;
      ByteaRoundTrip(w);
      SecretDeterminesPlaintext(r.suite, b, r.oldKek, w, r.newKek, format);
    }
  }

  /** A field is re-keyed exactly when it is no encrypted value, or its bytes can be read and re-keyed. */
  lemma FieldSucceeds(r: Rekey, v: Json, format: Format, n: nonce)
    requires Lawful(r.suite) && r.Usable()
    ensures !v.Str? || v.s == [] ==> RewrapField(r, v, format, n) == Ok(v)
    ensures v.Str? && v.s != [] ==>
              (RewrapField(r, v, format, n).Ok? <==>
               DecodeBytea(v.s).Some? && RewrapBackupValue(r.suite, DecodeBytea(v.s).value, format, r.oldKek, r.newKek,
                                                           n).Ok?)
    ensures v.Str? && v.s != [] && DecodeBytea(v.s).Some? &&
            Unwrap(r.suite, DecodeBytea(v.s).value, format, r.oldKek).Ok? ==>
              RewrapField(r, v, format, n).Ok?
  {
    hide RewrapBackupValue, Unwrap, DecodeBytea, EncodeBytea;
    if v.Str? && DecodeBytea(v.s).Some? {
      BackupRewrapSucceeds(r.suite, DecodeBytea(v.s).value, format, r.oldKek, r.newKek, n);
    }
  }

  lemma SameSecretTransitive(s: Suite, a: Json, ka: bytes, b: Json, kb: bytes, c: Json, kc: bytes, format: Format)
    requires SameSecret(s, a, ka, b, kb, format) && SameSecret(s, b, kb, c, kc, format)
    ensures SameSecret(s, a, ka, c, kc, format)
  {
    hide Unwrap, DecodeBytea, DecryptSigningPrivateKey, DecryptProviderSecret, DecryptConfig;
  }

  // ----- Strings that JSON carries unchanged

  predicate WellFormedField(v: Json) { v.Str? ==> Utf8.WellFormed(v.s) }

  predicate WellFormedRow(row: Row) { forall c :: c in row ==> WellFormedField(row[c]) }

  /** PostgreSQL text is UTF-8, so this holds of every dump. */
  ghost predicate WellFormedTables(tables: Tables) {
    forall table, i :: 0 <= i < |Rows(tables, table)| ==> WellFormedRow(Rows(tables, table)[i])
  }

  lemma ByteaWellFormed(b: bytes)
    ensures Utf8.WellFormed(EncodeBytea(b))
  {
    hide Base64.HexEncode, Utf8.WellFormed;
    assert Utf8.Ascii(EncodeBytea(b));
    Utf8.AsciiWellFormed(EncodeBytea(b));
  }

  lemma FieldWellFormed(r: Rekey, v: Json, format: Format, n: nonce)
    requires WellFormedField(v) && RewrapField(r, v, format, n).Ok?
    ensures WellFormedField(RewrapField(r, v, format, n).value)
  {
    hide RewrapBackupValue, DecodeBytea, EncodeBytea, Utf8.WellFormed;
    if Encrypted(v) {
      ByteaWellFormed(RewrapBackupValue(r.suite, DecodeBytea(v.s).value, format, r.oldKek, r.newKek, n).value);
    }
  }

  // ----- Re-keying all tables

  /** The target, if any, of a column. */
  function TargetOf(targets: seq<Target>, table: string, column: string): (k: Option<nat>)
    ensures k.Some? ==> k.value < |targets| && targets[k.value].table == table && targets[k.value].column == column
    ensures k.None? ==> forall i :: 0 <= i < |targets| ==> targets[i].table != table || targets[i].column != column
  {
    if targets == [] then None
    else
      var last := |targets| - 1;
      if targets[last].table == table && targets[last].column == column then Some(last)
      else TargetOf(targets[..last], table, column)
  }

  /** A row with each of its target columns re-keyed once and nothing else changed. */
  ghost predicate RowRekeyed(r: Rekey, targets: seq<Target>, table: string, i: nat, before: Row, after: Row,
                             nonces: (nat, nat) -> nonce) {
    && after.Keys == before.Keys
    && forall c :: c in before ==>
         var k := TargetOf(targets, table, c);
         if k.None? then after[c] == before[c]
         else RewrapField(r, before[c], targets[k.value].format, nonces(k.value, i)) == Ok(after[c])
  }

  ghost predicate RowsRekeyed(r: Rekey, targets: seq<Target>, table: string, before: seq<Row>, after: seq<Row>,
                              nonces: (nat, nat) -> nonce) {
    |after| == |before| && forall i :: 0 <= i < |before| ==>
        RowRekeyed(r, targets, table, i, before[i], after[i], nonces)
  }

  ghost predicate TablesRekeyed(r: Rekey, targets: seq<Target>, before: Tables, after: Tables,
                                nonces: (nat, nat) -> nonce) {
    forall table :: RowsRekeyed(r, targets, table, Rows(before, table), Rows(after, table), nonces)
  }

  /** A field that stands in the way of re-keying. */
  ghost predicate FieldFails(r: Rekey, targets: seq<Target>, tables: Tables, k: nat, i: nat,
                             nonces: (nat, nat) -> nonce, e: CryptoError) {
    && k < |targets| && i < |Rows(tables, targets[k].table)|
    && var row := Rows(tables, targets[k].table)[i];
    && targets[k].column in row && RewrapField(r, row[targets[k].column], targets[k].format, nonces(k, i)) == Err(e)
  }

  predicate AnyTargetRows(targets: seq<Target>, tables: Tables) {
    exists k :: 0 <= k < |targets| && Rows(tables, targets[k].table) != []
  }

  lemma TargetOfNext(targets: seq<Target>, k: nat, table: string, column: string)
    requires DistinctColumns(targets) && k < |targets|
    ensures TargetOf(targets[..k + 1], table, column) ==
            if targets[k].table == table && targets[k].column == column then Some(k)
                else TargetOf(targets[..k], table, column)
    ensures targets[k].table == table && targets[k].column == column ==> TargetOf(targets[..k], table, column) == None
  {}

  /** Visiting the next target's column: no earlier target has touched it, so it still holds its first value. */
  lemma RowStep(r: Rekey, targets: seq<Target>, k: nat, i: nat, before: Row, row: Row, v: Json,
                nonces: (nat, nat) -> nonce)
    requires DistinctColumns(targets) && k < |targets|
    requires RowRekeyed(r, targets[..k], targets[k].table, i, before, row, nonces)
    requires targets[k].column in row ==>
             RewrapField(r, row[targets[k].column], targets[k].format, nonces(k, i)) == Ok(v)
    ensures RowRekeyed(r, targets[..k + 1], targets[k].table, i, before,
                       if targets[k].column in row then row[targets[k].column := v] else row, nonces)
  {
    hide RewrapField, TargetOf, DistinctColumns;
    var t := targets[k];
    var after := if t.column in row then row[t.column := v] else row;
    assert after.Keys == before.Keys;
    forall c | c in before
      ensures var m := TargetOf(targets[..k + 1], t.table, c);
              if m.None? then after[c] == before[c]
              else RewrapField(r, before[c], targets[..k + 1][m.value].format, nonces(m.value, i)) == Ok(after[c])
    {
      TargetOfNext(targets, k, t.table, c);
    }
  }

  lemma OtherRowStep(r: Rekey, targets: seq<Target>, k: nat, table: string, before: seq<Row>, after: seq<Row>,
                     nonces: (nat, nat) -> nonce)
    requires DistinctColumns(targets) && k < |targets| && table != targets[k].table
    requires RowsRekeyed(r, targets[..k], table, before, after, nonces)
    ensures RowsRekeyed(r, targets[..k + 1], table, before, after, nonces)
  {
    hide RewrapField, TargetOf, DistinctColumns;
    forall i, c | 0 <= i < |before| && c in before[i]
      ensures TargetOf(targets[..k + 1], table, c) == TargetOf(targets[..k], table, c)
    {
      TargetOfNext(targets, k, table, c);
    }
    assert forall i :: 0 <= i < |before| ==> RowRekeyed(r, targets[..k], table, i, before[i], after[i], nonces);
  }

  /** The tables of a payload, which `rewrapBackupTables` changes in place. */
  class PayloadTables {
    var tables: Tables

    constructor (tables: Tables)
      ensures this.tables == tables
    {
      this.tables := tables;
    }

    /** `rewrapBackupTables`. */
    method RewrapBackupTables(r: Rekey, targets: seq<Target>, nonces: (nat, nat) -> nonce)
        returns (result: Result<(), CryptoError>)
      requires DistinctColumns(targets)
      modifies this
      ensures |r.oldKek| != 32 || |r.newKek| != 32 ==> tables == old(tables)
      ensures |r.oldKek| != 32 || |r.newKek| != 32 ==>
                result == if AnyTargetRows(targets, tables) then Err(InvalidMasterKey) else Ok(())
      ensures r.Usable() && result.Ok? ==> TablesRekeyed(r, targets, old(tables), tables, nonces)
      ensures r.Usable() && result.Err? ==> exists k, i ::
              FieldFails(r, targets, old(tables), k, i, nonces, result.error)
    {
      hide RewrapField;
      if !r.Usable() {
        for k := 0 to |targets|
          invariant forall j :: 0 <= j < k ==> Rows(tables, targets[j].table) == []
        {
          if |Rows(tables, targets[k].table)| > 0 { return Err(InvalidMasterKey); }
        }
        return Ok(());
      }
      NothingYet(r, tables, nonces);
      for k := 0 to |targets|
        invariant TablesRekeyed(r, targets[..k], old(tables), tables, nonces)
      {
        result := RewrapColumn(r, targets, k, nonces, old(tables));
        if result.Err? { return; }
      }
      assert targets[..|targets|] == targets;
      return Ok(());
    }

    /** The inner loop: one column of one table, row by row in place. */
    method RewrapColumn(r: Rekey, targets: seq<Target>, k: nat, nonces: (nat, nat) -> nonce, ghost first: Tables)
      returns (result: Result<(), CryptoError>)
      requires DistinctColumns(targets) && k < |targets| && TablesRekeyed(r, targets[..k], first, tables, nonces)
      modifies this
      ensures result.Ok? ==> TablesRekeyed(r, targets[..k + 1], first, tables, nonces)
      ensures result.Err? ==> exists i :: FieldFails(r, targets, first, k, i, nonces, result.error)
    {
      hide RewrapField, TargetOf, RowRekeyed, DistinctColumns;
      var t := targets[k];
      var rows := Rows(tables, t.table);
      ghost var before, previous := Rows(first, t.table), tables;
      assert RowsRekeyed(r, targets[..k], t.table, before, rows, nonces);
      for i := 0 to |rows|
        invariant tables == previous && |rows| == |before|
        invariant forall j :: 0 <= j < i ==> RowRekeyed(r, targets[..k + 1], t.table, j, before[j], rows[j], nonces)
        invariant forall j :: i <= j < |rows| ==> RowRekeyed(r, targets[..k], t.table, j, before[j], rows[j], nonces)
      {
        var row := rows[i];
        ghost var v := Other(0);
        if t.column in row {
          var field := RewrapField(r, row[t.column], t.format, nonces(k, i));
          if field.Err? {
            FieldUntouched(r, targets, k, i, before[i], row, nonces);
            assert FieldFails(r, targets, first, k, i, nonces, field.error);
            return Err(field.error);
          }
          v := field.value;
          rows := rows[i := row[t.column := field.value]];
        }
        RowStep(r, targets, k, i, before[i], row, v, nonces);
      }
      tables := tables[t.table := rows];
      forall table ensures RowsRekeyed(r, targets[..k + 1], table, Rows(first, table), Rows(tables, table), nonces) {
        if table != t.table {
          assert RowsRekeyed(r, targets[..k], table, Rows(first, table), Rows(previous, table), nonces);
          OtherRowStep(r, targets, k, table, Rows(first, table), Rows(tables, table), nonces);
        }
      }
      return Ok(());
    }
  }

  /** Re-keying keeps every string well-formed. */
  lemma RowWellFormed(r: Rekey, targets: seq<Target>, table: string, i: nat, before: Row, after: Row,
                      nonces: (nat, nat) -> nonce)
    requires RowRekeyed(r, targets, table, i, before, after, nonces) && WellFormedRow(before)
    ensures WellFormedRow(after)
  {
    hide RewrapField, TargetOf, WellFormedField;
    forall c | c in after ensures WellFormedField(after[c]) {
      var k := TargetOf(targets, table, c);
      if k.Some? { FieldWellFormed(r, before[c], targets[k.value].format, nonces(k.value, i)); }
    }
  }

  lemma NothingYet(r: Rekey, tables: Tables, nonces: (nat, nat) -> nonce)
    ensures TablesRekeyed(r, [], tables, tables, nonces)
  {}

  lemma FieldUntouched(r: Rekey, targets: seq<Target>, k: nat, i: nat, before: Row, row: Row,
                       nonces: (nat, nat) -> nonce)
    requires DistinctColumns(targets) && k < |targets| && targets[k].column in row
    requires RowRekeyed(r, targets[..k], targets[k].table, i, before, row, nonces)
    ensures targets[k].column in before && row[targets[k].column] == before[targets[k].column]
  {}
}
