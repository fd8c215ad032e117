/** Exporting an instance to a passphrase-sealed file and importing it into another one. */
module BackupTransfer {
  import opened Prelude
  import opened Envelope
  import opened Columns
  import opened Backup
  import opened References
  import Base64

  const FORMAT := "cypra-backup-v2"

  /** Every encrypted column belongs to a table that is backed up. */
  lemma EncryptedTablesBackedUp()
    ensures forall t :: t in ENCRYPTED_COLUMNS ==> t.table in BACKUP_TABLES
  {}

  datatype Payload = Payload(format: string, tables: Tables)

  /** The JSON of a payload. */
  datatype PayloadJson = PayloadJson(marshal: Payload -> bytes, unmarshal: bytes -> Option<Payload>)

  /** Strings that are UTF-8 come back; `encoding/json` would alter others. */
  ghost predicate LawfulPayload(j: PayloadJson) {
    forall p: Payload :: WellFormedTables(p.tables) ==> j.unmarshal(j.marshal(p)) == Some(p)
  }

  /** SHA-256 of the passphrase. */
  type digest = b: bytes | |b| == MASTER_KEY_BYTES witness seq(32, i => 0)

  datatype BackupFile = BackupFile(format: string, nonce: text, ciphertext: text)

  datatype BackupError = UnknownVersion | InvalidEnvelope | WrongPassphrase | BadPayload | RefusesResurrection
    | Crypto(error: CryptoError) | NoMasterKey | DatabaseFailed | DanglingReference | BadNonceLength | StorageFailed

  /**
   What can go wrong outside: the master key is unreadable, a database call fails, a storage object cannot be accessed.
   */
  datatype Health = Health(loaded: bool, database: bool, storage: bool) {
    predicate Sound() { loaded && database && storage }
  }

  /** `sealBackup`: nonce and sealed bytes are stored apart. */
  function SealBackup(a: Aead, plaintext: bytes, key: digest, n: nonce): BackupFile
    requires |a.seal(plaintext, key, n)| >= NONCE_BYTES
  {
    BackupFile(FORMAT, Base64.EncodePadded(Base64.Std, n),
               Base64.EncodePadded(Base64.Std, a.seal(plaintext, key, n)[NONCE_BYTES..]))
  }

  /** `openBackup`; AES-GCM refuses a nonce of the wrong length outright. */
  function OpenBackup(a: Aead, file: BackupFile, key: digest): (r: Result<bytes, BackupError>)
    ensures r.Err? ==> r.error in {UnknownVersion, InvalidEnvelope, BadNonceLength, WrongPassphrase}
  {
    if file.format != FORMAT then Err(UnknownVersion)
    else match (Base64.Decode(Base64.Std, true, file.nonce), Base64.Decode(Base64.Std, true, file.ciphertext))
      case (Some(n), Some(ct)) =>
        if |n| != NONCE_BYTES then Err(BadNonceLength)
        else (match a.open(n + ct, key) case None => Err(WrongPassphrase) case Some(p) => Ok(p))
      case _ => Err(InvalidEnvelope)
  }

  lemma OpenSealed(a: Aead, plaintext: bytes, key: digest, other: digest, n: nonce)
    requires LawfulAead(a)
    ensures OpenBackup(a, SealBackup(a, plaintext, key, n), key) == Ok(plaintext)
    ensures Separates(a, key, other) ==> OpenBackup(a, SealBackup(a, plaintext, key, n), other) == Err(WrongPassphrase)
    ensures forall format :: format != "cypra-backup-v2" ==>
              OpenBackup(a, SealBackup(a, plaintext, key, n).(format := format), key) == Err(UnknownVersion)
  {
    var sealed := a.seal(plaintext, key, n);
    Base64.RoundTrip(Base64.Std, true, n);
    Base64.RoundTrip(Base64.Std, true, sealed[NONCE_BYTES..]);
    assert sealed == sealed[..NONCE_BYTES] + sealed[NONCE_BYTES..];
  }

  /** A file whose nonce or ciphertext is no base64, or whose nonce has another length, is refused as such. */
  lemma OpenRefuses(a: Aead, nonce: text, ciphertext: text, key: digest)
    ensures var r := OpenBackup(a, BackupFile("cypra-backup-v2", nonce, ciphertext), key);
            var n, c := Base64.Decode(Base64.Std, true, nonce), Base64.Decode(Base64.Std, true, ciphertext);
            && (n.None? || c.None? ==> r == Err(InvalidEnvelope))
            && (n.Some? && c.Some? && |n.value| != 12 ==> r == Err(BadNonceLength))
            && (n.Some? && c.Some? && |n.value| == 12 ==> (r.Ok? <==> a.open(n.value + c.value, key).Some?))
  { hide Base64.Decode; }

  /** `tables` is what an export of `db` puts in the file. */
  ghost predicate Exported(s: Suite, db: Tables, masterKey: bytes, passKey: digest, tables: Tables,
                           nonces: (nat, nat) -> nonce) {
    var r := Rekey(s, masterKey, passKey);
    if r.Usable() then
      forall table :: RowsRekeyed(r, ENCRYPTED_COLUMNS, table, if table in BACKUP_TABLES then Rows(db, table) else [],
                                  Rows(tables, table), nonces)
    else
      && (forall table :: Rows(tables, table) == if table in BACKUP_TABLES then Rows(db, table) else [])
      && !AnyTargetRows(ENCRYPTED_COLUMNS, tables)
  }

  /** The dump loop of `exportBackup`. */
  method Dump(names: seq<string>, db: Tables) returns (dumped: Tables)
    ensures forall table :: Rows(dumped, table) == if table in names then Rows(db, table) else []
  {
    dumped := map[];
    for i := 0 to |names|
      invariant forall table :: Rows(dumped, table) == if table in names[..i] then Rows(db, table) else []
    {
      assert names[..i + 1] == names[..i] + [names[i]];
      dumped := dumped[names[i] := Rows(db, names[i])];
    }
    assert names[..|names|] == names;
  }

  /** Why re-keying a dump fails: a field the old key cannot read, or no usable key at all. */
  ghost predicate RekeyFails(r: Rekey, targets: seq<Target>, db: Tables, nonces: (nat, nat) -> nonce, e: CryptoError) {
    if r.Usable() then exists k, i :: FieldFails(r, targets, db, k, i, nonces, e)
    else e == InvalidMasterKey && AnyTargetRows(targets, db)
  }

  lemma DumpFails(r: Rekey, targets: seq<Target>, names: seq<string>, db: Tables, dumped: Tables,
                  nonces: (nat, nat) -> nonce, e: CryptoError)
    requires forall table :: Rows(dumped, table) == if table in names then Rows(db, table) else []
    requires forall t :: t in targets ==> t.table in names
    requires RekeyFails(r, targets, dumped, nonces, e)
    ensures RekeyFails(r, targets, db, nonces, e)
  {
    hide RewrapField;
    if r.Usable() {
      var k: nat, i: nat :| FieldFails(r, targets, dumped, k, i, nonces, e);
      assert targets[k] in targets;
      assert FieldFails(r, targets, db, k, i, nonces, e);
    } else {
      var k :| 0 <= k < |targets| && Rows(dumped, targets[k].table) != [];
      assert targets[k] in targets;
    }
  }

  /** Why an export fails. */
  ghost predicate ExportFails(s: Suite, db: Tables, masterKey: bytes, passKey: digest, health: Health,
                              nonces: (nat, nat) -> nonce, e: BackupError)
  {
    match e
    case DatabaseFailed => !health.database
    case NoMasterKey => !health.loaded
    case Crypto(c) => RekeyFails(Rekey(s, masterKey, passKey), ENCRYPTED_COLUMNS, db, nonces, c)
    case StorageFailed => !health.storage
    case _ => false
  }

  /** `exportBackup`, without the contents of the storage objects. */
  method ExportBackup(s: Suite, j: PayloadJson, db: Tables, masterKey: bytes, passKey: digest, health: Health,
                      nonces: (nat, nat) -> nonce, n: nonce)
    returns (r: Result<BackupFile, BackupError>)
    requires LawfulAead(s.aead)
    ensures r.Ok? ==> health.Sound() && exists tables ::
              Exported(s, db, masterKey, passKey, tables, nonces) &&
                  r.value == SealBackup(s.aead, j.marshal(Payload(FORMAT, tables)), passKey, n)
    ensures r.Err? ==> ExportFails(s, db, masterKey, passKey, health, nonces, r.error)
  {
    hide RowsRekeyed, FieldFails, ENCRYPTED_COLUMNS, BACKUP_TABLES, AnyTargetRows;
    if !health.database { return Err(DatabaseFailed); }
    var dumped := Dump(BACKUP_TABLES, db);
    if !health.loaded { return Err(NoMasterKey); }
    var payload := new PayloadTables(dumped);
    EncryptedColumnsDistinct();
    var rekeyed := payload.RewrapBackupTables(Rekey(s, masterKey, passKey), ENCRYPTED_COLUMNS, nonces);
    if rekeyed.Err? {
      EncryptedTablesBackedUp();
      DumpFails(Rekey(s, masterKey, passKey), ENCRYPTED_COLUMNS, BACKUP_TABLES, db, dumped, nonces, rekeyed.error);
      return Err(Crypto(rekeyed.error));
    }
    if !health.storage { return Err(StorageFailed); }
    assert Exported(s, db, masterKey, passKey, payload.tables, nonces);
    return Ok(SealBackup(s.aead, j.marshal(Payload(FORMAT, payload.tables)), passKey, n));
  }

  const RESURRECT_AUDIT: Row := map["action" := Str("backup.import_allow_resurrect")]

  /** Whether an import got past its commit. */
  predicate Committed(result: Result<(), BackupError>) { result.Ok? || result.error == StorageFailed }

  function AuditRows(allowResurrect: bool, table: string): seq<Row> {
    if allowResurrect && table == "audit_entries" then [RESURRECT_AUDIT] else []
  }

  class Database {
    var tables: Tables

    constructor (tables: Tables)
      ensures this.tables == tables
    {
      this.tables := tables;
    }

    /**
     `importBackup`. A failing database call or a row that is refused rolls the transaction back. The storage objects
     follow the commit, so an error there finds the tables already restored.
     */
    method ImportBackup(s: Suite, j: PayloadJson, file: BackupFile, masterKey: bytes, passKey: digest,
                        allowResurrect: bool, health: Health, nonces: (nat, nat) -> nonce)
      returns (result: Result<(), BackupError>, ghost restored: Tables)
      modifies this
      ensures !Committed(result) ==> tables == old(tables)
      ensures !Committed(result) ==>
                ImportRefused(s, j, file, masterKey, passKey, allowResurrect, health, nonces, restored, result.error)
      ensures Committed(result) ==> result.Ok? == health.storage
      ensures Committed(result) ==> Restored(s, j, file, masterKey, passKey, restored, nonces)
      ensures Committed(result) ==> Admitted(restored, allowResurrect, health)
      ensures Committed(result) ==> forall table :: table in BACKUP_TABLES ==>
                Rows(tables, table) == Rows(restored, table) + AuditRows(allowResurrect, table)
    {
      hide Restored, ImportRefused, Admitted;
      result, restored := ImportTables(s, j, file, masterKey, passKey, allowResurrect, health, nonces);
      if result.Ok? && !health.storage { result := Err(StorageFailed); }
    }

    /** `importBackup` up to and including the commit. */
    method ImportTables(s: Suite, j: PayloadJson, file: BackupFile, masterKey: bytes, passKey: digest,
                        allowResurrect: bool, health: Health, nonces: (nat, nat) -> nonce)
      returns (result: Result<(), BackupError>, ghost restored: Tables)
      modifies this
      ensures result.Err? ==> tables == old(tables) && result.error != StorageFailed
      ensures result.Ok? ==> Restored(s, j, file, masterKey, passKey, restored, nonces)
      ensures result.Ok? ==> Admitted(restored, allowResurrect, health)
      ensures result.Ok? ==> forall table :: table in BACKUP_TABLES ==>
                Rows(tables, table) == Rows(restored, table) + AuditRows(allowResurrect, table)
      ensures result.Err? ==>
                ImportRefused(s, j, file, masterKey, passKey, allowResurrect, health, nonces, restored, result.error)
    {
      hide RowsRekeyed, TablesRekeyed, FieldFails, OpenBackup, AuditRows, AnyTargetRows, Grounded, ENCRYPTED_COLUMNS,
        BACKUP_TABLES;
      restored := map[];
      var plaintext := OpenBackup(s.aead, file, passKey);
      if plaintext.Err? { return Err(plaintext.error), restored; }
      var parsed := j.unmarshal(plaintext.value);
      if parsed.None? { return Err(BadPayload), restored; }
      if parsed.value.format != FORMAT { return Err(UnknownVersion), restored; }
      if !health.loaded { return Err(NoMasterKey), restored; }
      var payload := new PayloadTables(parsed.value.tables);
      EncryptedColumnsDistinct();
      var rekeyed := payload.RewrapBackupTables(Rekey(s, passKey, masterKey), ENCRYPTED_COLUMNS, nonces);
      if rekeyed.Err? { return Err(Crypto(rekeyed.error)), restored; }
      restored := payload.tables;
      if |Rows(payload.tables, "gdpr_deletions")| > 0 && !allowResurrect { return Err(RefusesResurrection), restored; }
      if !health.database { return Err(DatabaseFailed), restored; }
      var ok, staged := Install(payload.tables, tables, allowResurrect);
      if !ok { return Err(DanglingReference), restored; }
      tables := staged;
      return Ok(()), restored;
    }
  }

  /** What a payload must satisfy to be imported, beyond being readable. */
  ghost predicate Admitted(tables: Tables, allowResurrect: bool, health: Health) {
    && health.loaded && health.database
    && (allowResurrect || Rows(tables, "gdpr_deletions") == [])
    && Grounded(ForeignKeys, BACKUP_TABLES, tables)
  }

  /** The transaction of `importBackup`: truncates, restores and, when resurrecting, adds an audit row. */
  method Install(payload: Tables, db: Tables, allowResurrect: bool) returns (ok: bool, staged: Tables)
    ensures ok <==> Grounded(ForeignKeys, BACKUP_TABLES, payload)
    ensures ok ==> forall table :: table in BACKUP_TABLES ==>
              Rows(staged, table) == Rows(payload, table) + AuditRows(allowResurrect, table)
  {
    hide Grounded;
    BackupTablesDistinct();
    ok, staged := Restore(ForeignKeys, BACKUP_TABLES, payload, db);
    if ok && allowResurrect { staged := staged["audit_entries" := Rows(staged, "audit_entries") + [RESURRECT_AUDIT]]; }
  }

  /** The tables that truncating `names` empties: these, and those outside the backup that refer to them. */
  function Emptied(names: seq<string>): set<string> {
    if names == [] then {} else {names[0]} + Outside(names[0]) + Emptied(names[1..])
  }

  /** Empties every named table, last first, with what depends on it. */
  method Truncate(names: seq<string>, db: Tables) returns (staged: Tables)
    ensures forall table :: Rows(staged, table) == if table in Emptied(names) then [] else Rows(db, table)
  {
    hide Outside;
    staged := db;
    assert names[|names|..] == [];
    for i := |names| downto 0
      invariant forall table :: Rows(staged, table) == if table in Emptied(names[i..]) then [] else Rows(db, table)
    {
      assert names[i..][0] == names[i] && names[i..][1..] == names[i + 1..];
      var gone := {names[i]} + Outside(names[i]);
      staged := map table | table in staged && table !in gone :: staged[table];
    }
    assert names[0..] == names;
  }

  lemma {:induction false} NamesEmptied(names: seq<string>)
    ensures forall n :: n in names ==> n in Emptied(names)
  {
    if names != [] {
      NamesEmptied(names[1..]);
      assert names == [names[0]] + names[1..];
    }
  }

  lemma {:induction false} OutsideEmptied(names: seq<string>, n: string)
    requires n in names
    ensures Outside(n) <= Emptied(names)
  {
    hide Outside;
    if n != names[0] {
      assert names == [names[0]] + names[1..];
      OutsideEmptied(names[1..], n);
    }
  }

  lemma {:induction false} EmptiedOnly(names: seq<string>, table: string)
    requires table in Emptied(names)
    ensures table in names || exists n :: n in names && table in Outside(n)
  {
    hide Outside;
    if table != names[0] && table !in Outside(names[0]) { EmptiedOnly(names[1..], table); }
  }

  /** After the truncation no table that is left refers to an emptied one. */
  lemma TruncationIsClosed(table: string, column: string, target: string)
    requires Refers(table, column, target) && target in BACKUP_TABLES
    ensures table in Emptied(BACKUP_TABLES)
  {
    hide Refers, Outside, Emptied, BACKUP_TABLES, Keyed;
    KeysAreTheSchema(table, column, target, 0, LOGO);
    NamesEmptied(BACKUP_TABLES);
    OutsideEmptied(BACKUP_TABLES, target);
    if Keyed(table, column, target) { KeyedTable(table, column, target); }
  }

  lemma KeyedTable(table: string, column: string, target: string)
    requires Keyed(table, column, target)
    ensures table in BACKUP_TABLES
  { hide BACKUP_TABLES, ForeignKeys; }

  /** What is in the tables after the first `i` of them were restored. */
  ghost predicate RestoredUpTo(names: seq<string>, payload: Tables, db: Tables, i: nat, staged: Tables)
    requires i <= |names|
  {
    forall table :: Rows(staged, table) ==
                      if table in names[..i] then Rows(payload, table)
                      else if table in Emptied(names) then [] else Rows(db, table)
  }

  /**
   Truncates, then inserts the payload table by table and row by row. It succeeds exactly if every reference is in
   order, and then the named tables hold the payload.
   */
  method Restore(schema: Schema, names: seq<string>, payload: Tables, db: Tables) returns (ok: bool, staged: Tables)
    requires NoDuplicates(names)
    ensures ok <==> Grounded(schema, names, payload)
    ensures ok ==> forall table :: Rows(staged, table) ==
                     if table in names then Rows(payload, table) else if table in Emptied(names) then []
                         else Rows(db, table)
  {
    hide Emptied, TableGrounded;
    staged := Truncate(names, db);
    NamesEmptied(names);
    for i := 0 to |names|
      invariant RestoredUpTo(names, payload, db, i, staged)
      invariant forall j :: 0 <= j < i ==> TableGrounded(schema, names, payload, j)
    {
      ok, staged := InsertRows(schema, names, payload, db, i, staged);
      if !ok { return; }
    }
    assert names[..|names|] == names;
    ok := true;
  }

  lemma PresentWhen(names: seq<string>, payload: Tables, db: Tables, i: nat, k: nat, before: Tables, there: Tables,
                    to: nat)
    requires NoDuplicates(names) && i < |names| && to < |names| && k < |Rows(payload, names[i])|
    requires RestoredUpTo(names, payload, db, i, before)
    requires forall other :: Rows(there, other) ==
                               if other == names[i] then Rows(payload, names[i])[..k + 1] else Rows(before, other)
    ensures Rows(there, names[to]) == Present(names, payload, i, k, to)
  {
    hide Emptied;
    NamesEmptied(names);
    assert names[to] in names[..i] <==> to < i;
  }

  /** A row is accepted exactly if its references find their rows at that moment. */
  lemma AcceptedRow(schema: Schema, names: seq<string>, payload: Tables, db: Tables, i: nat, k: nat, before: Tables,
                    there: Tables)
    requires NoDuplicates(names) && i < |names| && k < |Rows(payload, names[i])|
    requires RestoredUpTo(names, payload, db, i, before)
    requires forall other :: Rows(there, other) ==
                               if other == names[i] then Rows(payload, names[i])[..k + 1] else Rows(before, other)
    ensures Resolves(schema, names, i, Rows(payload, names[i])[k], there) <==> RowGrounded(schema, names, payload, i, k)
  {
    hide Holds, RestoredUpTo, Present, NoDuplicates;
    forall r | r in schema(i) && r.to < |names| ensures Rows(there, names[r.to]) == Present(names, payload, i, k, r.to)
    {
      PresentWhen(names, payload, db, i, k, before, there, r.to);
    }
  }

  method InsertRows(schema: Schema, names: seq<string>, payload: Tables, ghost db: Tables, i: nat, before: Tables)
    returns (ok: bool, staged: Tables)
    requires NoDuplicates(names) && i < |names| && RestoredUpTo(names, payload, db, i, before)
    ensures ok <==> TableGrounded(schema, names, payload, i)
    ensures ok ==> RestoredUpTo(names, payload, db, i + 1, staged)
  {
    hide RestoredUpTo, Emptied, Resolves, RowGrounded, NoDuplicates, Holds;
    var rows := Rows(payload, names[i]);
    staged := before;
    EmptyBefore(names, payload, db, i, before);
    for k := 0 to |rows|
      invariant forall other :: Rows(staged, other) == if other == names[i] then rows[..k] else Rows(before, other)
      invariant forall n :: 0 <= n < k ==> RowGrounded(schema, names, payload, i, n)
    {
      staged := staged[names[i] := Rows(staged, names[i]) + [rows[k]]];
      assert rows[..k + 1] == rows[..k] + [rows[k]];
      AcceptedRow(schema, names, payload, db, i, k, before, staged);
      if !Resolves(schema, names, i, rows[k], staged) { return false, staged; }
    }
    assert rows[..|rows|] == rows;
    TableRestored(names, payload, db, i, before, staged);
    ok := true;
  }

  lemma TableRestored(names: seq<string>, payload: Tables, db: Tables, i: nat, before: Tables, staged: Tables)
    requires i < |names| && RestoredUpTo(names, payload, db, i, before)
    requires forall other :: Rows(staged, other) ==
                               if other == names[i] then Rows(payload, names[i]) else Rows(before, other)
    ensures RestoredUpTo(names, payload, db, i + 1, staged)
  {
    hide Emptied;
    assert names[..i + 1] == names[..i] + [names[i]];
  }

  lemma EmptyBefore(names: seq<string>, payload: Tables, db: Tables, i: nat, before: Tables)
    requires NoDuplicates(names) && i < |names| && RestoredUpTo(names, payload, db, i, before)
    ensures Rows(before, names[i]) == []
  {
    hide Emptied;
    NamesEmptied(names);
    assert names[i] !in names[..i];
  }

  /** The file opens with the passphrase, and `restored` is its content re-keyed to the importing master key. */
  ghost predicate Restored(s: Suite, j: PayloadJson, file: BackupFile, masterKey: bytes, passKey: digest,
                           restored: Tables,
                           nonces: (nat, nat) -> nonce)
  {
    var r := Rekey(s, passKey, masterKey);
    var plaintext := OpenBackup(s.aead, file, passKey);
    && plaintext.Ok? && j.unmarshal(plaintext.value).Some?
    && var payload := j.unmarshal(plaintext.value).value;
    && payload.format == FORMAT
    && if r.Usable() then TablesRekeyed(r, ENCRYPTED_COLUMNS, payload.tables, restored, nonces)
       else restored == payload.tables && !AnyTargetRows(ENCRYPTED_COLUMNS, restored)
  }

  ghost predicate ImportRefused(s: Suite, j: PayloadJson, file: BackupFile, masterKey: bytes, passKey: digest,
                                allowResurrect: bool, health: Health, nonces: (nat, nat) -> nonce, restored: Tables,
                                e: BackupError)
  {
    var r := Rekey(s, passKey, masterKey);
    var plaintext := OpenBackup(s.aead, file, passKey);
    if plaintext.Err? then e == plaintext.error
    else if j.unmarshal(plaintext.value).None? then e == BadPayload
    else
      var payload := j.unmarshal(plaintext.value).value;
      if payload.format != FORMAT then e == UnknownVersion
      else match e
        case NoMasterKey => !health.loaded
        case Crypto(c) => RekeyFails(r, ENCRYPTED_COLUMNS, payload.tables, nonces, c)
        case RefusesResurrection => !allowResurrect && Restored(s, j, file, masterKey, passKey, restored, nonces) &&
            Rows(restored, "gdpr_deletions") != []
        case DatabaseFailed => !health.database
        case DanglingReference => Restored(s, j, file, masterKey, passKey, restored, nonces) &&
            !Grounded(ForeignKeys, BACKUP_TABLES, restored)
        case _ => false
  }

  /** Every backed-up row survives with the same columns; encrypted fields keep their secret under the new key. */
  ghost predicate Preserved(s: Suite, before: seq<Row>, kek: bytes, after: seq<Row>, kek': bytes, table: string) {
    && |after| == |before|
    && forall i :: 0 <= i < |before| ==>
         && after[i].Keys == before[i].Keys
         && forall c :: c in before[i] ==>
              && (forall f :: IsEncrypted(table, c, f) ==> SameSecret(s, before[i][c], kek, after[i][c], kek', f))
              && ((forall f :: !IsEncrypted(table, c, f)) ==> after[i][c] == before[i][c])
  }

  /** The targets and the schema say the same of every column. */
  lemma TargetMatchesSchema(table: string, column: string)
    ensures match TargetOf(ENCRYPTED_COLUMNS, table, column)
            case None => forall f :: !IsEncrypted(table, column, f)
            case Some(i) => forall f :: IsEncrypted(table, column, f) <==> f == ENCRYPTED_COLUMNS[i].format
  {
    EncryptedColumnsDistinct();
    TargetsAreTheSchema(0);
    hide ENCRYPTED_COLUMNS, ENCRYPTED_SCHEMA, PLACES, SOURCES, TargetOf, DistinctColumns;
    forall f | IsEncrypted(table, column, f)
      ensures TargetOf(ENCRYPTED_COLUMNS, table, column).Some?
      ensures f == ENCRYPTED_COLUMNS[TargetOf(ENCRYPTED_COLUMNS, table, column).value].format
    {
      var k :| 0 <= k < |ENCRYPTED_SCHEMA| && ENCRYPTED_SCHEMA[k].table == table && ENCRYPTED_SCHEMA[k].column == column
               && f == FormatFor(ENCRYPTED_SCHEMA[k].writer);
      TargetsAreTheSchema(k);
      UniqueTarget(ENCRYPTED_COLUMNS, PLACES[k]);
    }
    var i := TargetOf(ENCRYPTED_COLUMNS, table, column);
    if i.Some? { TargetsAreTheSchema(i.value); }
  }

  /** Re-keying twice, through the passphrase key, is re-keying from the first master key to the second. */
  lemma RekeyTwice(s: Suite, mk: bytes, pk: bytes, mk': bytes, table: string, a: seq<Row>, b: seq<Row>, c: seq<Row>,
                   n1: (nat, nat) -> nonce, n2: (nat, nat) -> nonce)
    requires Lawful(s) && |mk| == |pk| == |mk'| == MASTER_KEY_BYTES
    requires RowsRekeyed(Rekey(s, mk, pk), ENCRYPTED_COLUMNS, table, a, b, n1)
    requires RowsRekeyed(Rekey(s, pk, mk'), ENCRYPTED_COLUMNS, table, b, c, n2)
    ensures Preserved(s, a, mk, c, mk', table)
  {
    hide RewrapField, SameSecret, TargetOf, IsEncrypted, ENCRYPTED_COLUMNS;
    forall i, col | 0 <= i < |a| && col in a[i]
      ensures col in c[i]
      ensures forall f :: IsEncrypted(table, col, f) ==> SameSecret(s, a[i][col], mk, c[i][col], mk', f)
      ensures (forall f :: !IsEncrypted(table, col, f)) ==> c[i][col] == a[i][col]
    {
      assert RowRekeyed(Rekey(s, mk, pk), ENCRYPTED_COLUMNS, table, i, a[i], b[i], n1);
      assert RowRekeyed(Rekey(s, pk, mk'), ENCRYPTED_COLUMNS, table, i, b[i], c[i], n2);
      TargetMatchesSchema(table, col);
      var target := TargetOf(ENCRYPTED_COLUMNS, table, col);
      if target.Some? {
        var k, f := target.value, ENCRYPTED_COLUMNS[target.value].format;
        assert IsEncrypted(table, col, f);
        FieldPreserved(Rekey(s, mk, pk), a[i][col], f, n1(k, i), mk', n2(k, i));
        FieldPreserved(Rekey(s, pk, mk'), b[i][col], f, n2(k, i), mk', n2(k, i));
        SameSecretTransitive(s, a[i][col], mk, b[i][col], pk, c[i][col], mk', f);
      }
    }
    forall i | 0 <= i < |a| ensures c[i].Keys == a[i].Keys {
      assert RowRekeyed(Rekey(s, mk, pk), ENCRYPTED_COLUMNS, table, i, a[i], b[i], n1);
      assert RowRekeyed(Rekey(s, pk, mk'), ENCRYPTED_COLUMNS, table, i, b[i], c[i], n2);
    }
  }

  lemma ExportedWellFormed(s: Suite, db: Tables, mk: bytes, pk: digest, tables: Tables, nonces: (nat, nat) -> nonce)
    requires Exported(s, db, mk, pk, tables, nonces) && WellFormedTables(db)
    ensures WellFormedTables(tables)
  {
    hide RowRekeyed, WellFormedRow, AnyTargetRows;
    forall table, i | 0 <= i < |Rows(tables, table)| ensures WellFormedRow(Rows(tables, table)[i]) {
      if |mk| == MASTER_KEY_BYTES {
        var before := if table in BACKUP_TABLES then Rows(db, table) else [];
        assert RowsRekeyed(Rekey(s, mk, pk), ENCRYPTED_COLUMNS, table, before, Rows(tables, table), nonces);
        RowWellFormed(Rekey(s, mk, pk), ENCRYPTED_COLUMNS, table, i, before[i], Rows(tables, table)[i], nonces);
      }
    }
  }

  /** A field that was exported can always be re-keyed on import. */
  lemma ExportedNeverFails(s: Suite, mk: bytes, pk: digest, mk': bytes, db: Tables, tables: Tables,
                           n1: (nat, nat) -> nonce,
                           n2: (nat, nat) -> nonce, k: nat, i: nat, e: CryptoError)
    requires Lawful(s) && |mk| == |mk'| == MASTER_KEY_BYTES && Exported(s, db, mk, pk, tables, n1)
    ensures !FieldFails(Rekey(s, pk, mk'), ENCRYPTED_COLUMNS, tables, k, i, n2, e)
  {
    hide RewrapField, TargetOf;
    if FieldFails(Rekey(s, pk, mk'), ENCRYPTED_COLUMNS, tables, k, i, n2, e) {
      var t := ENCRYPTED_COLUMNS[k];
      var before := if t.table in BACKUP_TABLES then Rows(db, t.table) else [];
      assert RowsRekeyed(Rekey(s, mk, pk), ENCRYPTED_COLUMNS, t.table, before, Rows(tables, t.table), n1);
      assert RowRekeyed(Rekey(s, mk, pk), ENCRYPTED_COLUMNS, t.table, i, before[i], Rows(tables, t.table)[i], n1);
      EncryptedColumnsDistinct();
      UniqueTarget(ENCRYPTED_COLUMNS, k);
      FieldPreserved(Rekey(s, mk, pk), before[i][t.column], t.format, n1(k, i), mk', n2(k, i));
    }
  }

  lemma {:induction false} UniqueTarget(targets: seq<Target>, k: nat)
    requires DistinctColumns(targets) && k < |targets|
    ensures TargetOf(targets, targets[k].table, targets[k].column) == Some(k)
    decreases |targets|
  {
    if k < |targets| - 1 { UniqueTarget(targets[..|targets| - 1], k); }
  }

  /**
   Export then import under any second master key: when the export succeeds, the tables are imported exactly when the
   importing side is healthy, no deleted user would be resurrected, and every reference among the exported rows is in
   order. Then every backed-up row is there with its other columns unchanged and its encrypted columns holding,
       under the
   new master key, the secrets they held under the old one, so that their readers decrypt the same plaintexts.
   */
  method ExportThenImport(s: Suite, j: PayloadJson, source: Tables, target: Database, mk: bytes, mk': bytes,
                          passKey: digest, allowResurrect: bool, there: Health, here: Health,
                          n1: (nat, nat) -> nonce, n2: (nat, nat) -> nonce, n: nonce)
    returns (exported: bool, result: Result<(), BackupError>)
    requires Lawful(s) && LawfulPayload(j) && |mk| == |mk'| == MASTER_KEY_BYTES && WellFormedTables(source)
    modifies target
    ensures exported ==> there.Sound()
    ensures !exported ==> result.Err? && ExportFails(s, source, mk, passKey, there, n1, result.error)
    ensures exported ==> (Committed(result) <==> Admitted(source, allowResurrect, here))
    ensures exported && Committed(result) ==> result.Ok? == here.storage
    ensures exported && Committed(result) ==> forall table :: table in BACKUP_TABLES ==>
              var rows := Rows(target.tables, table);
              var count := |Rows(source, table)|;
              && count <= |rows| && Preserved(s, Rows(source, table), mk, rows[..count], mk', table)
              && rows[count..] == AuditRows(allowResurrect, table)
    ensures !exported || !Committed(result) ==> target.tables == old(target.tables)
  {
    hide RowsRekeyed, FieldFails, SealBackup, OpenBackup, Preserved, Restored, ImportRefused, Exported, ExportFails,
        Admitted;
    var file := ExportBackup(s, j, source, mk, passKey, there, n1, n);
    if file.Err? { return false, Err(file.error); }
    ghost var tables :| Exported(s, source, mk, passKey, tables, n1) &&
        file.value == SealBackup(s.aead, j.marshal(Payload(FORMAT, tables)), passKey, n);
    OpenSealed(s.aead, j.marshal(Payload(FORMAT, tables)), passKey, passKey, n);
    ExportedWellFormed(s, source, mk, passKey, tables, n1);
    ghost var restored: Tables;
    result, restored := target.ImportBackup(s, j, file.value, mk', passKey, allowResurrect, here, n2);
    if !Committed(result) {
      RefusalReasons(s, j, file.value, source, tables, mk, mk', passKey, allowResurrect, here, n1, n2, restored,
                     result.error);
    } else {
      TransferPreserves(s, j, file.value, source, tables, mk, mk', passKey, n1, n2, restored);
      AdmittedAlike(source, restored, allowResurrect, here);
    }
    return true, result;
  }

  lemma AdmittedAlike(source: Tables, restored: Tables, allowResurrect: bool, health: Health)
    requires |Rows(restored, "gdpr_deletions")| == |Rows(source, "gdpr_deletions")|
    requires Grounded(ForeignKeys, BACKUP_TABLES, restored) <==> Grounded(ForeignKeys, BACKUP_TABLES, source)
    ensures Admitted(source, allowResurrect, health) <==> Admitted(restored, allowResurrect, health)
  { hide Grounded; }

  lemma TransferPreserves(s: Suite, j: PayloadJson, file: BackupFile, source: Tables, tables: Tables, mk: bytes,
                          mk': bytes, passKey: digest, n1: (nat, nat) -> nonce, n2: (nat, nat) -> nonce,
                          restored: Tables)
    requires Lawful(s) && LawfulPayload(j) && |mk| == |mk'| == MASTER_KEY_BYTES
    requires Exported(s, source, mk, passKey, tables, n1) && WellFormedTables(tables)
    requires OpenBackup(s.aead, file, passKey) == Ok(j.marshal(Payload(FORMAT, tables)))
    requires Restored(s, j, file, mk', passKey, restored, n2)
    ensures forall table :: table in BACKUP_TABLES ==>
              && |Rows(restored, table)| == |Rows(source, table)|
              && Preserved(s, Rows(source, table), mk, Rows(restored, table), mk', table)
    ensures |Rows(restored, "gdpr_deletions")| == |Rows(source, "gdpr_deletions")|
    ensures Grounded(ForeignKeys, BACKUP_TABLES, restored) <==> Grounded(ForeignKeys, BACKUP_TABLES, source)
  {
    hide RowsRekeyed, OpenBackup, Preserved, Grounded, SameKeyRows;
    forall table | table in BACKUP_TABLES
      ensures Preserved(s, Rows(source, table), mk, Rows(restored, table), mk', table)
      ensures |Rows(restored, table)| == |Rows(source, table)|
      ensures SameKeyRows(Rows(source, table), Rows(restored, table)) &&
              SameKeyRows(Rows(restored, table), Rows(source, table))
    {
      RekeyTwice(s, mk, passKey, mk', table, Rows(source, table), Rows(tables, table), Rows(restored, table), n1, n2);
      PreservedLength(s, Rows(source, table), mk, Rows(restored, table), mk', table);
      PreservedKeys(s, Rows(source, table), mk, Rows(restored, table), mk', table);
    }
    assert BACKUP_TABLES[32] == "gdpr_deletions";
    SameGroundedBoth(source, restored);
  }

  lemma SameGroundedBoth(a: Tables, b: Tables)
    requires forall n :: n in BACKUP_TABLES ==> SameKeyRows(Rows(a, n), Rows(b, n))
    requires forall n :: n in BACKUP_TABLES ==> SameKeyRows(Rows(b, n), Rows(a, n))
    ensures Grounded(ForeignKeys, BACKUP_TABLES, a) <==> Grounded(ForeignKeys, BACKUP_TABLES, b)
  {
    hide Grounded, SameKeyRows, KeyColumn, ForeignKeys;
    ReferencesAreKeys();
    if Grounded(ForeignKeys, BACKUP_TABLES, a) { SameGrounded(ForeignKeys, BACKUP_TABLES, a, b); }
    if Grounded(ForeignKeys, BACKUP_TABLES, b) { SameGrounded(ForeignKeys, BACKUP_TABLES, b, a); }
  }

  lemma EncryptedAreNotKeys(column: string)
    ensures forall table, f :: IsEncrypted(table, column, f) ==> !KeyColumn(column)
  {}

  /** Re-keying leaves the columns that rows are found by alone. */
  lemma PreservedKeys(s: Suite, a: seq<Row>, kek: bytes, b: seq<Row>, kek': bytes, table: string)
    requires Preserved(s, a, kek, b, kek', table)
    ensures SameKeyRows(a, b) && SameKeyRows(b, a)
  {
    hide SameSecret, KeyColumn, IsEncrypted;
    forall c | KeyColumn(c) ensures forall f :: !IsEncrypted(table, c, f) { EncryptedAreNotKeys(c); }
  }

  /** An exported file is refused only for the reasons that can be seen on the exporting side, or by a failure here. */
  lemma RefusalReasons(s: Suite, j: PayloadJson, file: BackupFile, source: Tables, tables: Tables, mk: bytes,
                       mk': bytes, passKey: digest, allowResurrect: bool, health: Health, n1: (nat, nat) -> nonce,
                       n2: (nat, nat) -> nonce, restored: Tables, e: BackupError)
    requires Lawful(s) && LawfulPayload(j) && |mk| == |mk'| == MASTER_KEY_BYTES
    requires Exported(s, source, mk, passKey, tables, n1) && WellFormedTables(tables)
    requires OpenBackup(s.aead, file, passKey) == Ok(j.marshal(Payload(FORMAT, tables)))
    requires ImportRefused(s, j, file, mk', passKey, allowResurrect, health, n2, restored, e)
    ensures !Admitted(source, allowResurrect, health)
  {
    hide RowsRekeyed, OpenBackup, FieldFails, Restored, Exported, Preserved, Grounded;
    if e.Crypto? {
      var k, i :| FieldFails(Rekey(s, passKey, mk'), ENCRYPTED_COLUMNS, tables, k, i, n2, e.error);
      ExportedNeverFails(s, mk, passKey, mk', source, tables, n1, n2, k, i, e.error);
    } else if e.RefusesResurrection? || e.DanglingReference? {
      TransferPreserves(s, j, file, source, tables, mk, mk', passKey, n1, n2, restored);
    }
  }

  lemma PreservedLength(s: Suite, a: seq<Row>, kek: bytes, b: seq<Row>, kek': bytes, table: string)
    requires Preserved(s, a, kek, b, kek', table)
    ensures |b| == |a|
  {}
}
