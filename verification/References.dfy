/**
 The tables of a backup and the foreign keys between them. A restore inserts table by table and row by row, and no
 foreign key is deferred, so a row is refused when it refers to one that is not there yet.
 */
module References {
  import opened Prelude
  import opened Backup

  /** The tables a backup carries, in the order in which they are restored. */
  const BACKUP_TABLES: seq<string> := [
    "tenants", "projects", "instance_admins", "storage_objects", "users", "tenant_memberships",
    "password_credentials", "passkey_credentials", "totp_credentials", "user_backup_codes",
    "instance_admin_backup_codes", "magic_link_tokens", "password_reset_tokens", "email_verification_tokens",
    "pending_invitations", "sessions", "instance_admin_sessions", "oidc_clients", "oidc_authorization_codes",
    "oidc_refresh_tokens", "oidc_consents", "oidc_signing_keys", "upstream_providers", "social_connections",
    "oidc_connections", "email_provider_configs", "email_outbox", "tenant_auth_methods", "audit_entries",
    "bootstrap_tokens", "master_key_rotations", "rate_limit_buckets", "gdpr_deletions", "webauthn_challenges",
    "invite_continuations"
  ]

  predicate NoDuplicates(names: seq<string>) { forall i, j :: 0 <= i < j < |names| ==> names[i] != names[j] }

  lemma EarlyTablesDistinct(i: nat, j: nat)
    requires i < j < |BACKUP_TABLES| && i < 8
    ensures BACKUP_TABLES[i] != BACKUP_TABLES[j]
  {}

  lemma LateTablesDistinct(i: nat, j: nat)
    requires 8 <= i < j < |BACKUP_TABLES|
    ensures BACKUP_TABLES[i] != BACKUP_TABLES[j]
  {}

  lemma BackupTablesDistinct()
    ensures NoDuplicates(BACKUP_TABLES)
  {
    forall i, j | 0 <= i < j < |BACKUP_TABLES| ensures BACKUP_TABLES[i] != BACKUP_TABLES[j] {
      if i < 8 { EarlyTablesDistinct(i, j); } else { LateTablesDistinct(i, j); }
    }
  }

  /** A column that refers to the `id` of another table, given by its place in the restore order. */
  datatype ForeignKey = ForeignKey(column: string, to: nat)

  type Schema = nat -> seq<ForeignKey>

  const TENANT := ForeignKey("tenant_id", 0)
  const USER := ForeignKey("user_id", 4)
  const CLIENT := ForeignKey("oidc_client_uuid", 17)
  const ADMIN := ForeignKey("instance_admin_id", 2)
  const LOGO := ForeignKey("logo_object_id", 3)
  const OWNER := ForeignKey("owner_user_id", 4)
  const PARENT := ForeignKey("parent_id", 19)

  /** The foreign keys of the schema among the tables above, table by table. */
  function ForeignKeys(table: nat): seq<ForeignKey> {
    if table == 0 then [LOGO]
    else if table == 3 then [TENANT, OWNER]
    else if table == 4 then [TENANT, ForeignKey("profile_picture_object_id", 3)]
    else if 5 <= table <= 9 || 11 <= table <= 13 || 32 <= table <= 33 then [TENANT, USER]
    else if table == 10 || table == 16 then [ADMIN]
    else if table == 14 then [TENANT, ForeignKey("redeemed_by_user_id", 4)]
    else if table == 17 then [TENANT, ForeignKey("project_id", 1)]
    else if table == 18 || table == 20 then [TENANT, CLIENT, USER]
    else if table == 19 then [PARENT, TENANT, CLIENT, USER]
    else if table == 34 then [TENANT, ForeignKey("invite_id", 14)]
    else if table == 1 || table == 15 || 21 <= table <= 28 || table == 31 then [TENANT]
    else []
  }

  /** A table outside the backup that a truncation of `table` empties with it. */
  function Outside(table: string): set<string> {
    if table == "tenants" || table == "users" then {"personal_access_tokens"}
    else if table == "instance_admins" then {"instance_admin_passkey_credentials"}
    else {}
  }

  // ----- The foreign keys by name, as the migrations create them

  const TENANT_TABLES: seq<string> := [
    "projects", "users", "tenant_memberships", "password_credentials", "passkey_credentials", "totp_credentials",
    "user_backup_codes", "magic_link_tokens", "password_reset_tokens", "email_verification_tokens",
    "pending_invitations", "sessions", "oidc_clients", "oidc_authorization_codes", "oidc_refresh_tokens",
    "oidc_consents", "oidc_signing_keys", "upstream_providers", "email_provider_configs", "email_outbox",
    "storage_objects", "tenant_auth_methods", "audit_entries", "rate_limit_buckets", "gdpr_deletions",
    "webauthn_challenges", "invite_continuations", "social_connections", "oidc_connections", "personal_access_tokens"
  ]

  const USER_TABLES: seq<string> := [
    "tenant_memberships", "password_credentials", "passkey_credentials", "totp_credentials", "user_backup_codes",
    "magic_link_tokens", "password_reset_tokens", "email_verification_tokens", "oidc_authorization_codes",
    "oidc_refresh_tokens", "oidc_consents", "gdpr_deletions", "webauthn_challenges", "personal_access_tokens"
  ]

  /** `column` of `table` refers to the id of `target`. */
  predicate Refers(table: string, column: string, target: string) {
    || (column == "tenant_id" && target == "tenants" && table in TENANT_TABLES)
    || (column == "user_id" && target == "users" && table in USER_TABLES)
    || (column == "oidc_client_uuid" && target == "oidc_clients" &&
        table in ["oidc_authorization_codes", "oidc_refresh_tokens", "oidc_consents"])
    || (column == "instance_admin_id" && target == "instance_admins" &&
        table in ["instance_admin_backup_codes", "instance_admin_sessions", "instance_admin_passkey_credentials"])
    || (column == "redeemed_by_user_id" && target == "users" && table == "pending_invitations")
    || (column == "project_id" && target == "projects" && table == "oidc_clients")
    || (column == "parent_id" && target == "oidc_refresh_tokens" && table == "oidc_refresh_tokens")
    || (column == "profile_picture_object_id" && target == "storage_objects" && table == "users")
    || (column == "invite_id" && target == "pending_invitations" && table == "invite_continuations")
    || (column == "owner_user_id" && target == "users" && table == "storage_objects")
    || (column == "logo_object_id" && target == "storage_objects" && table == "tenants")
  }

  /** Where the tables above are in the restore order; 35 stands for a table outside the backup. */
  const TENANT_PLACES: seq<nat> := [1, 4, 5, 6, 7, 8, 9, 11, 12, 13, 14, 15, 17, 18, 19, 20, 21, 22, 25, 26, 3, 27, 28,
                                    31,
                                    32, 33, 34, 23, 24, 35]
  const USER_PLACES: seq<nat> := [5, 6, 7, 8, 9, 11, 12, 13, 18, 19, 20, 32, 33, 35]

  predicate PlacedAt(k: nat)
    requires k < |TENANT_TABLES| && k < |TENANT_PLACES|
  {
    var i := TENANT_PLACES[k];
    if i < |BACKUP_TABLES| then BACKUP_TABLES[i] == TENANT_TABLES[k] else TENANT_TABLES[k] == "personal_access_tokens"
  }

  lemma TenantCounts()
    ensures |TENANT_TABLES| == |TENANT_PLACES| == 30 && |BACKUP_TABLES| == 35
  {}

  lemma FirstTenantPlaces(k: nat)
    requires k < 10
    ensures |TENANT_TABLES| == |TENANT_PLACES| == 30 && PlacedAt(k)
  {}

  lemma MiddleTenantPlaces(k: nat)
    requires 10 <= k < 20
    ensures |TENANT_TABLES| == |TENANT_PLACES| == 30 && PlacedAt(k)
  {}

  lemma LastTenantPlaces(k: nat)
    requires 20 <= k < 30
    ensures |TENANT_TABLES| == |TENANT_PLACES| == 30 && PlacedAt(k)
  {}

  lemma TenantPlace(k: nat)
    requires k < 30
    ensures |TENANT_TABLES| == |TENANT_PLACES| == 30 && |BACKUP_TABLES| == 35
    ensures var i := TENANT_PLACES[k];
            if i < 35 then BACKUP_TABLES[i] == TENANT_TABLES[k] else TENANT_TABLES[k] == "personal_access_tokens"
  {
    hide BACKUP_TABLES, TENANT_TABLES, TENANT_PLACES;
    TenantCounts();
    if k < 10 { FirstTenantPlaces(k); } else if k < 20 { MiddleTenantPlaces(k); } else { LastTenantPlaces(k); }
  }

  lemma UserPlace(k: nat)
    requires k < 14
    ensures |USER_TABLES| == |USER_PLACES| == 14 && |BACKUP_TABLES| == 35
    ensures var i := USER_PLACES[k];
            if i < 35 then BACKUP_TABLES[i] == USER_TABLES[k] else USER_TABLES[k] == "personal_access_tokens"
  {}

  predicate TenantRange(i: nat) { i == 1 || 3 <= i <= 9 || 11 <= i <= 15 || 17 <= i <= 28 || 31 <= i <= 34 }

  lemma TenantKeysRange(i: nat)
    ensures TENANT in ForeignKeys(i) <==> TenantRange(i)
  {}

  lemma TenantPlacesRange(i: nat)
    ensures i in TENANT_PLACES && i < 35 <==> TenantRange(i)
  { assert forall j: nat :: j < 30 ==> TENANT_PLACES[j] in TENANT_PLACES; }

  lemma TenantKeysAt(i: nat)
    ensures i in TENANT_PLACES && i < 35 <==> TENANT in ForeignKeys(i)
  {
    hide ForeignKeys, TENANT_PLACES;
    TenantKeysRange(i);
    TenantPlacesRange(i);
  }

  lemma UserKeysAt(i: nat)
    ensures i in USER_PLACES && i < 35 <==> USER in ForeignKeys(i)
  {
    assert USER in ForeignKeys(i) <==> 5 <= i <= 9 || 11 <= i <= 13 || 18 <= i <= 20 || 32 <= i <= 33;
    hide ForeignKeys;
    assert forall j: nat :: j < 14 ==> USER_PLACES[j] in USER_PLACES;
  }

  /** The restore knows this foreign key. */
  ghost predicate Keyed(table: string, column: string, target: string) {
    exists i: nat, r :: i < |BACKUP_TABLES| && r in ForeignKeys(i) && r.to < |BACKUP_TABLES| &&
      BACKUP_TABLES[i] == table && r.column == column && BACKUP_TABLES[r.to] == target
  }

  lemma TableNames()
    ensures |BACKUP_TABLES| == 35
    ensures BACKUP_TABLES[0] == "tenants" && BACKUP_TABLES[1] == "projects" && BACKUP_TABLES[2] == "instance_admins"
    ensures BACKUP_TABLES[3] == "storage_objects" && BACKUP_TABLES[4] == "users" && BACKUP_TABLES[17] == "oidc_clients"
    ensures BACKUP_TABLES[10] == "instance_admin_backup_codes" && BACKUP_TABLES[16] == "instance_admin_sessions"
    ensures BACKUP_TABLES[14] == "pending_invitations" && BACKUP_TABLES[18] == "oidc_authorization_codes"
    ensures BACKUP_TABLES[19] == "oidc_refresh_tokens" && BACKUP_TABLES[20] == "oidc_consents"
    ensures BACKUP_TABLES[34] == "invite_continuations"
  {}

  lemma PlacedKeys(i: nat, r: ForeignKey)
    requires r in ForeignKeys(i) && (r == TENANT || r == USER)
    ensures i < |BACKUP_TABLES| && Refers(BACKUP_TABLES[i], r.column, BACKUP_TABLES[r.to])
  {
    hide BACKUP_TABLES, TENANT_TABLES, USER_TABLES, TENANT_PLACES, USER_PLACES, ForeignKeys;
    TenantKeysAt(i);
    UserKeysAt(i);
    TableNames();
    TenantPlace(0);
    UserPlace(0);
    if r == TENANT {
      var k :| 0 <= k < |TENANT_PLACES| && TENANT_PLACES[k] == i;
      TenantPlace(k);
    } else {
      var k :| 0 <= k < |USER_PLACES| && USER_PLACES[k] == i;
      UserPlace(k);
    }
  }

  lemma OtherKeys(i: nat, r: ForeignKey)
    requires r in ForeignKeys(i) && r != TENANT && r != USER
    ensures i < |BACKUP_TABLES| && Refers(BACKUP_TABLES[i], r.column, BACKUP_TABLES[r.to])
  {
    hide BACKUP_TABLES, TENANT_TABLES, USER_TABLES;
    TableNames();
  }

  lemma KeyAt(i: nat, r: ForeignKey)
    requires i < |BACKUP_TABLES| && r in ForeignKeys(i) && r.to < |BACKUP_TABLES|
    ensures Keyed(BACKUP_TABLES[i], r.column, BACKUP_TABLES[r.to])
  { hide BACKUP_TABLES, ForeignKeys; }

  lemma PlacedReferences(table: string, column: string, target: string)
    requires (column == "tenant_id" && target == "tenants" && table in TENANT_TABLES)
          || (column == "user_id" && target == "users" && table in USER_TABLES)
    ensures table == "personal_access_tokens" || Keyed(table, column, target)
  {
    hide BACKUP_TABLES, TENANT_TABLES, USER_TABLES, TENANT_PLACES, USER_PLACES, ForeignKeys, Keyed;
    TableNames();
    TenantPlace(0);
    UserPlace(0);
    if column == "tenant_id" && table in TENANT_TABLES {
      var k :| 0 <= k < |TENANT_TABLES| && TENANT_TABLES[k] == table;
      TenantPlace(k);
      TenantKeysAt(TENANT_PLACES[k]);
      if TENANT_PLACES[k] < 35 { KeyAt(TENANT_PLACES[k], TENANT); }
    } else {
      var k :| 0 <= k < |USER_TABLES| && USER_TABLES[k] == table;
      UserPlace(k);
      UserKeysAt(USER_PLACES[k]);
      if USER_PLACES[k] < 35 { KeyAt(USER_PLACES[k], USER); }
    }
  }

  lemma OtherReferences(table: string, column: string, target: string)
    requires Refers(table, column, target) && column != "tenant_id" && column != "user_id"
    ensures table == "instance_admin_passkey_credentials" || Keyed(table, column, target)
  {
    hide BACKUP_TABLES, TENANT_TABLES, USER_TABLES, Keyed, ForeignKeys;
    TableNames();
    KeyPlaces();
    KeyAt(18, CLIENT); KeyAt(19, CLIENT); KeyAt(20, CLIENT); KeyAt(10, ADMIN); KeyAt(16, ADMIN);
    KeyAt(0, LOGO); KeyAt(3, OWNER); KeyAt(19, PARENT);
    KeyAt(4, ForeignKey("profile_picture_object_id", 3)); KeyAt(14, ForeignKey("redeemed_by_user_id", 4));
    KeyAt(17, ForeignKey("project_id", 1)); KeyAt(34, ForeignKey("invite_id", 14));
  }

  lemma KeyPlaces()
    ensures CLIENT in ForeignKeys(18) && CLIENT in ForeignKeys(19) && CLIENT in ForeignKeys(20)
    ensures ADMIN in ForeignKeys(10) && ADMIN in ForeignKeys(16)
    ensures LOGO in ForeignKeys(0) && OWNER in ForeignKeys(3) && PARENT in ForeignKeys(19)
    ensures ForeignKey("profile_picture_object_id", 3) in ForeignKeys(4)
    ensures ForeignKey("redeemed_by_user_id", 4) in ForeignKeys(14)
    ensures ForeignKey("project_id", 1) in ForeignKeys(17) && ForeignKey("invite_id", 14) in ForeignKeys(34)
  {
    assert ForeignKeys(18)[1] == ForeignKeys(19)[2] == ForeignKeys(20)[1] == CLIENT;
    assert ForeignKeys(10)[0] == ForeignKeys(16)[0] == ADMIN;
    assert ForeignKeys(0)[0] == LOGO && ForeignKeys(3)[1] == OWNER && ForeignKeys(19)[0] == PARENT;
    assert ForeignKeys(4)[1].to == 3 && ForeignKeys(14)[1].to == 4 && ForeignKeys(17)[1].to == 1 &&
        ForeignKeys(34)[1].to == 14;
  }

  lemma TokensNotAt(i: nat)
    requires i < |BACKUP_TABLES|
    ensures BACKUP_TABLES[i] != "personal_access_tokens"
  {}

  lemma PasskeysNotAt(i: nat)
    requires i < |BACKUP_TABLES|
    ensures BACKUP_TABLES[i] != "instance_admin_passkey_credentials"
  {}

  lemma ChallengesNotAt(i: nat)
    requires i < |BACKUP_TABLES|
    ensures BACKUP_TABLES[i] != "instance_admin_webauthn_challenges"
  {}

  /** The backup leaves out personal access tokens and what belongs to the passkeys of instance admins. */
  lemma NotBackedUp()
    ensures "personal_access_tokens" !in BACKUP_TABLES && "instance_admin_passkey_credentials" !in BACKUP_TABLES
    ensures "instance_admin_webauthn_challenges" !in BACKUP_TABLES
  {
    hide BACKUP_TABLES;
    forall i | 0 <= i < |BACKUP_TABLES|
      ensures BACKUP_TABLES[i] != "personal_access_tokens" && BACKUP_TABLES[i] != "instance_admin_passkey_credentials"
      ensures BACKUP_TABLES[i] != "instance_admin_webauthn_challenges"
    {
      TokensNotAt(i);
      PasskeysNotAt(i);
      ChallengesNotAt(i);
    }
  }

  /** The tables of the schema that belong to no tenant, and the tenants; the last two are not backed up. */
  const INSTANCE_TABLES: seq<string> := [
    "tenants", "instance_admins", "instance_admin_backup_codes", "instance_admin_sessions", "bootstrap_tokens",
    "master_key_rotations", "instance_admin_passkey_credentials", "instance_admin_webauthn_challenges"
  ]
  const INSTANCE_PLACES: seq<nat> := [0, 2, 10, 16, 29, 30]

  lemma InstancePlace(k: nat)
    requires k < 6
    ensures |INSTANCE_TABLES| == 8 && |INSTANCE_PLACES| == 6 && INSTANCE_PLACES[k] < |BACKUP_TABLES| == 35
    ensures BACKUP_TABLES[INSTANCE_PLACES[k]] == INSTANCE_TABLES[k]
  {}

  lemma InstanceRange(i: nat) returns (k: nat)
    requires i < 35 && !TenantRange(i)
    ensures k < 6 && |INSTANCE_PLACES| == 6 && INSTANCE_PLACES[k] == i
  {
    k := if i == 0 then 0 else if i == 2 then 1 else if i == 10 then 2 else if i == 16 then 3 else if i == 29 then 4
    else 5;
  }

  lemma LastInstanceTables()
    ensures |INSTANCE_TABLES| == 8 && INSTANCE_TABLES[6] == "instance_admin_passkey_credentials"
    ensures INSTANCE_TABLES[7] == "instance_admin_webauthn_challenges"
  {}

  /** Every table of the schema is in the backup but for those three, and nothing else is. */
  lemma BackedUpExactly(table: string)
    ensures table in BACKUP_TABLES <==>
            && (table in TENANT_TABLES || table in INSTANCE_TABLES)
            && table != "personal_access_tokens" && table != "instance_admin_passkey_credentials"
            && table != "instance_admin_webauthn_challenges"
  {
    hide BACKUP_TABLES, TENANT_TABLES, INSTANCE_TABLES, TENANT_PLACES, INSTANCE_PLACES, TenantRange;
    NotBackedUp();
    TenantPlace(0);
    InstancePlace(0);
    LastInstanceTables();
    if table in BACKUP_TABLES {
      var i :| 0 <= i < 35 && BACKUP_TABLES[i] == table;
      if TenantRange(i) {
        TenantPlacesRange(i);
        var k :| 0 <= k < 30 && TENANT_PLACES[k] == i;
        TenantPlace(k);
      } else {
        var k := InstanceRange(i);
        InstancePlace(k);
      }
    }
    if table in TENANT_TABLES {
      var k :| 0 <= k < 30 && TENANT_TABLES[k] == table;
      TenantPlace(k);
    }
    if table in INSTANCE_TABLES {
      var k :| 0 <= k < 8 && INSTANCE_TABLES[k] == table;
      if k < 6 { InstancePlace(k); }
    }
  }

  lemma TokensRefer()
    ensures "personal_access_tokens" in TENANT_TABLES && "personal_access_tokens" in USER_TABLES
  { assert TENANT_TABLES[29] == USER_TABLES[13] == "personal_access_tokens"; }

  /** A table that a truncation takes with it is outside the backup and does refer to it. */
  lemma OutsideRefers(table: string, target: string)
    requires table in Outside(target)
    ensures table !in BACKUP_TABLES
    ensures Refers(table, "tenant_id", target) || Refers(table, "user_id", target) ||
            Refers(table, "instance_admin_id", target)
  {
    hide BACKUP_TABLES, TENANT_TABLES, USER_TABLES;
    NotBackedUp();
    TokensRefer();
  }

  /**
   The foreign keys of the restore order are those of the schema, except for the two tables that are not backed up.
   */
  lemma KeysAreTheSchema(table: string, column: string, target: string, i: nat, r: ForeignKey)
    ensures Refers(table, column, target) ==> table in Outside(target) || Keyed(table, column, target)
    ensures r in ForeignKeys(i) ==>
              i < |BACKUP_TABLES| && r.to < |BACKUP_TABLES| && Refers(BACKUP_TABLES[i], r.column, BACKUP_TABLES[r.to])
  {
    if r in ForeignKeys(i) {
      LateReferences(i, r);
      if r == TENANT || r == USER { PlacedKeys(i, r); } else { OtherKeys(i, r); }
    }
    hide BACKUP_TABLES, TENANT_TABLES, USER_TABLES, Keyed, ForeignKeys;
    if Refers(table, column, target) {
      if column == "tenant_id" || column == "user_id" { PlacedReferences(table, column, target); }
      else { OtherReferences(table, column, target); }
    }
  }

  // ----- What an insertion checks

  /** A reference column that is set; null is no string. */
  predicate Points(row: Row, column: string) { column in row && row[column].Str? }

  predicate Holds(rows: seq<Row>, id: Json) {
    exists i :: 0 <= i < |rows| && "id" in rows[i] && rows[i]["id"] == id
  }

  /** Every reference of a row of table `i` finds its target among the rows that are there. */
  predicate Resolves(schema: Schema, names: seq<string>, i: nat, row: Row, there: Tables) {
    forall r :: r in schema(i) && r.to < |names| && Points(row, r.column) ==>
                  Holds(Rows(there, names[r.to]), row[r.column])
  }

  /**
   The rows of table `to` that are there once row `k` of table `i` is inserted: earlier tables, and the row itself.
   */
  function Present(names: seq<string>, payload: Tables, i: nat, k: nat, to: nat): seq<Row>
    requires i < |names| && k < |Rows(payload, names[i])| && to < |names|
  {
    if to < i then Rows(payload, names[to]) else if to == i then Rows(payload, names[i])[..k + 1] else []
  }

  predicate RowGrounded(schema: Schema, names: seq<string>, payload: Tables, i: nat, k: nat)
    requires i < |names| && k < |Rows(payload, names[i])|
  {
    var row := Rows(payload, names[i])[k];
    forall r :: r in schema(i) && r.to < |names| && Points(row, r.column) ==>
                  Holds(Present(names, payload, i, k, r.to), row[r.column])
  }

  ghost predicate TableGrounded(schema: Schema, names: seq<string>, payload: Tables, i: nat)
    requires i < |names|
  { forall k :: 0 <= k < |Rows(payload, names[i])| ==> RowGrounded(schema, names, payload, i, k) }

  /** Each reference is null or points to a row of an earlier table, or of the same table no later than itself. */
  ghost predicate Grounded(schema: Schema, names: seq<string>, payload: Tables) {
    forall i :: 0 <= i < |names| ==> TableGrounded(schema, names, payload, i)
  }

  /** Each reference points to some row, as the foreign keys of the exporting database ensure. */
  ghost predicate Closed(schema: Schema, names: seq<string>, db: Tables) {
    forall i, k :: 0 <= i < |names| && 0 <= k < |Rows(db, names[i])| ==>
        Resolves(schema, names, i, Rows(db, names[i])[k], db)
  }

  /** A reference that does not point to an earlier table. */
  ghost predicate LateGrounded(names: seq<string>, db: Tables, i: nat, r: ForeignKey)
    requires i < |names|
  {
    forall k :: 0 <= k < |Rows(db, names[i])| && Points(Rows(db, names[i])[k], r.column) ==>
                  r.to == i && Holds(Rows(db, names[i])[..k + 1], Rows(db, names[i])[k][r.column])
  }

  ghost predicate AllLateGrounded(schema: Schema, names: seq<string>, db: Tables) {
    forall i, r :: 0 <= i < |names| && r in schema(i) && i <= r.to < |names| ==> LateGrounded(names, db, i, r)
  }

  lemma HoldsNothing(id: Json)
    ensures !Holds([], id)
  {}

  lemma GroundedLate(schema: Schema, names: seq<string>, db: Tables, i: nat, r: ForeignKey)
    requires Grounded(schema, names, db) && i < |names| && r in schema(i) && i <= r.to < |names|
    ensures LateGrounded(names, db, i, r)
  {
    hide Holds;
    assert TableGrounded(schema, names, db, i);
    forall k | 0 <= k < |Rows(db, names[i])| && Points(Rows(db, names[i])[k], r.column)
      ensures r.to == i && Holds(Rows(db, names[i])[..k + 1], Rows(db, names[i])[k][r.column])
    {
      assert RowGrounded(schema, names, db, i, k);
      HoldsNothing(Rows(db, names[i])[k][r.column]);
    }
  }

  lemma LateGroundedAll(schema: Schema, names: seq<string>, db: Tables)
    requires Closed(schema, names, db) && AllLateGrounded(schema, names, db)
    ensures Grounded(schema, names, db)
  {
    hide Holds;
    forall i, k | 0 <= i < |names| && 0 <= k < |Rows(db, names[i])| ensures RowGrounded(schema, names, db, i, k) {
      assert Resolves(schema, names, i, Rows(db, names[i])[k], db);
      assert forall r :: r in schema(i) && i <= r.to < |names| ==> LateGrounded(names, db, i, r);
    }
  }

  /** In a database whose references are intact, a restore succeeds exactly if its late references are in order. */
  lemma GroundedExactly(schema: Schema, names: seq<string>, db: Tables)
    requires Closed(schema, names, db)
    ensures Grounded(schema, names, db) <==> AllLateGrounded(schema, names, db)
  {
    hide Grounded, Closed, LateGrounded;
    if Grounded(schema, names, db) {
      forall i, r | 0 <= i < |names| && r in schema(i) && i <= r.to < |names| ensures LateGrounded(names, db, i, r) {
        GroundedLate(schema, names, db, i, r);
      }
    }
    if AllLateGrounded(schema, names, db) { LateGroundedAll(schema, names, db); }
  }

  // ----- The schema's late references

  lemma LateReferences(i: nat, r: ForeignKey)
    requires r in ForeignKeys(i)
    ensures i < |BACKUP_TABLES| && r.to < |BACKUP_TABLES|
    ensures i <= r.to ==> (i == 0 && r == LOGO) || (i == 3 && r == OWNER) || (i == 19 && r == PARENT)
  {}

  /** No tenant has a logo, no storage object an owner, and each refresh token comes no earlier than its parent. */
  ghost predicate Restorable(db: Tables) {
    && (forall k :: 0 <= k < |Rows(db, "tenants")| ==> !Points(Rows(db, "tenants")[k], "logo_object_id"))
    && (forall k :: 0 <= k < |Rows(db, "storage_objects")| ==> !Points(Rows(db, "storage_objects")[k], "owner_user_id"))
    && var tokens := Rows(db, "oidc_refresh_tokens");
    && forall k :: 0 <= k < |tokens| && Points(tokens[k], "parent_id") ==>
                     Holds(tokens[..k + 1], tokens[k]["parent_id"])
  }

  lemma LateGroundedMeans(db: Tables)
    ensures (&& LateGrounded(BACKUP_TABLES, db, 0, LOGO)
             && LateGrounded(BACKUP_TABLES, db, 3, OWNER)
             && LateGrounded(BACKUP_TABLES, db, 19, PARENT)) <==> Restorable(db)
  {
    hide Holds;
    assert BACKUP_TABLES[0] == "tenants" && BACKUP_TABLES[3] == "storage_objects" &&
        BACKUP_TABLES[19] == "oidc_refresh_tokens";
    hide BACKUP_TABLES;
  }

  /** So an intact database can be restored from its dump exactly if it is `Restorable`. */
  lemma RestorableExactly(db: Tables)
    requires Closed(ForeignKeys, BACKUP_TABLES, db)
    ensures Grounded(ForeignKeys, BACKUP_TABLES, db) <==> Restorable(db)
  {
    hide Closed, Grounded, LateGrounded, Restorable, ForeignKeys;
    GroundedExactly(ForeignKeys, BACKUP_TABLES, db);
    LateGroundedMeans(db);
    KeyPlaces();
    forall i, r | 0 <= i < |BACKUP_TABLES| && r in ForeignKeys(i) && i <= r.to
      ensures (i == 0 && r == LOGO) || (i == 3 && r == OWNER) || (i == 19 && r == PARENT)
    { LateReferences(i, r); }
  }

  /** A tenant with a logo and the storage object it is kept in: an intact database that no restore brings back. */
  const WITH_LOGO: Tables := map[
    "tenants" := [map["id" := Str("t"), "logo_object_id" := Str("o")]],
    "storage_objects" := [map["id" := Str("o"), "tenant_id" := Str("t")]]
  ]

  lemma LogoRowsResolve(i: nat)
    requires i < |BACKUP_TABLES|
    ensures Rows(WITH_LOGO, BACKUP_TABLES[i]) != [] ==> i == 0 || i == 3
  {
    BackupTablesDistinct();
    assert BACKUP_TABLES[0] == "tenants" && BACKUP_TABLES[3] == "storage_objects";
    hide BACKUP_TABLES;
  }

  lemma LogoIsNotRestorable()
    ensures Closed(ForeignKeys, BACKUP_TABLES, WITH_LOGO) && !Grounded(ForeignKeys, BACKUP_TABLES, WITH_LOGO)
  {
    LogoClosed();
    hide Closed, Grounded;
    RestorableExactly(WITH_LOGO);
    assert Points(Rows(WITH_LOGO, "tenants")[0], "logo_object_id");
  }

  lemma LogoClosed()
    ensures Closed(ForeignKeys, BACKUP_TABLES, WITH_LOGO)
  {
    var tenant, stored := Rows(WITH_LOGO, "tenants"), Rows(WITH_LOGO, "storage_objects");
    assert Holds(tenant, Str("t")) by { assert tenant[0]["id"] == Str("t"); }
    assert Holds(stored, Str("o")) by { assert stored[0]["id"] == Str("o"); }
    forall i, k | 0 <= i < |BACKUP_TABLES| && 0 <= k < |Rows(WITH_LOGO, BACKUP_TABLES[i])|
      ensures Resolves(ForeignKeys, BACKUP_TABLES, i, Rows(WITH_LOGO, BACKUP_TABLES[i])[k], WITH_LOGO)
    {
      LogoRowsResolve(i);
      LogoResolves(i, Rows(WITH_LOGO, BACKUP_TABLES[i])[k]);
    }
  }

  lemma LogoResolves(i: nat, row: Row)
    requires (i == 0 && row == Rows(WITH_LOGO, "tenants")[0]) ||
             (i == 3 && row == Rows(WITH_LOGO, "storage_objects")[0])
    ensures Resolves(ForeignKeys, BACKUP_TABLES, i, row, WITH_LOGO)
  {
    hide BACKUP_TABLES;
    TableNames();
    var tenant, stored := Rows(WITH_LOGO, "tenants"), Rows(WITH_LOGO, "storage_objects");
    assert tenant[0]["id"] == Str("t") && stored[0]["id"] == Str("o");
    assert Holds(tenant, Str("t")) && Holds(stored, Str("o"));
    hide Holds;
    if i == 0 {
      assert ForeignKeys(0) == [LOGO] && row[LOGO.column] == Str("o");
    } else {
      assert ForeignKeys(3) == [TENANT, OWNER] && row[TENANT.column] == Str("t") && !Points(row, OWNER.column);
    }
  }

  /** In a payload that can be inserted, a reference to an earlier table names the id of one of its rows. */
  lemma ReferenceFound(payload: Tables, i: nat, k: nat, r: ForeignKey)
    requires i < |BACKUP_TABLES| && k < |Rows(payload, BACKUP_TABLES[i])| && r in ForeignKeys(i) && r.to < i
    requires Grounded(ForeignKeys, BACKUP_TABLES, payload) && r.column in Rows(payload, BACKUP_TABLES[i])[k]
    requires Rows(payload, BACKUP_TABLES[i])[k][r.column].Str?
    ensures exists row :: row in Rows(payload, BACKUP_TABLES[r.to]) && "id" in row &&
                          row["id"] == Rows(payload, BACKUP_TABLES[i])[k][r.column]
  {
    hide BACKUP_TABLES, ForeignKeys;
    assert TableGrounded(ForeignKeys, BACKUP_TABLES, payload, i);
    assert RowGrounded(ForeignKeys, BACKUP_TABLES, payload, i, k);
    assert Points(Rows(payload, BACKUP_TABLES[i])[k], r.column);
    var rows := Present(BACKUP_TABLES, payload, i, k, r.to);
    var n :| 0 <= n < |rows| && "id" in rows[n] && rows[n]["id"] == Rows(payload, BACKUP_TABLES[i])[k][r.column];
    assert rows[n] in Rows(payload, BACKUP_TABLES[r.to]);
  }

  // ----- Re-keying leaves the keys alone

  /** The columns rows are found by; no encrypted column is among them. */
  predicate KeyColumn(column: string) { |column| >= 2 && column[|column| - 2] == 'i' }

  lemma ReferencesAreKeys()
    ensures KeyColumn("id") && forall i: nat, r :: r in ForeignKeys(i) ==> KeyColumn(r.column)
  {}

  ghost predicate SameKeys(a: Row, b: Row) {
    forall c :: KeyColumn(c) ==> (c in a <==> c in b) && (c in a ==> b[c] == a[c])
  }

  ghost predicate SameKeyRows(a: seq<Row>, b: seq<Row>) {
    |a| == |b| && forall i :: 0 <= i < |a| ==> SameKeys(a[i], b[i])
  }

  lemma SameHolds(a: seq<Row>, b: seq<Row>, id: Json)
    requires SameKeyRows(a, b)
    ensures Holds(a, id) <==> Holds(b, id)
  {
    assert KeyColumn("id");
    assert forall i :: 0 <= i < |a| ==> SameKeys(a[i], b[i]);
  }

  lemma SameGroundedRow(schema: Schema, names: seq<string>, a: Tables, b: Tables, i: nat, k: nat)
    requires forall i: nat, r :: r in schema(i) ==> KeyColumn(r.column)
    requires forall n :: n in names ==> SameKeyRows(Rows(a, n), Rows(b, n))
    requires i < |names| && k < |Rows(a, names[i])| && k < |Rows(b, names[i])| && RowGrounded(schema, names, a, i, k)
    ensures RowGrounded(schema, names, b, i, k)
  {
    hide Holds, KeyColumn;
    var x, y := Rows(a, names[i])[k], Rows(b, names[i])[k];
    assert SameKeyRows(Rows(a, names[i]), Rows(b, names[i])) && SameKeys(x, y);
    forall r | r in schema(i) && r.to < |names| && Points(y, r.column)
      ensures Holds(Present(names, b, i, k, r.to), y[r.column])
    {
      assert KeyColumn(r.column) && SameKeyRows(Rows(a, names[r.to]), Rows(b, names[r.to]));
      assert SameKeyRows(Present(names, a, i, k, r.to), Present(names, b, i, k, r.to));
      SameHolds(Present(names, a, i, k, r.to), Present(names, b, i, k, r.to), y[r.column]);
    }
  }

  lemma SameGrounded(schema: Schema, names: seq<string>, a: Tables, b: Tables)
    requires forall i: nat, r :: r in schema(i) ==> KeyColumn(r.column)
    requires forall n :: n in names ==> SameKeyRows(Rows(a, n), Rows(b, n))
    requires Grounded(schema, names, a)
    ensures Grounded(schema, names, b)
  {
    hide RowGrounded, KeyColumn;
    forall i, k | 0 <= i < |names| && 0 <= k < |Rows(b, names[i])| ensures RowGrounded(schema, names, b, i, k) {
      assert SameKeyRows(Rows(a, names[i]), Rows(b, names[i])) && TableGrounded(schema, names, a, i);
      assert RowGrounded(schema, names, a, i, k);
      SameGroundedRow(schema, names, a, b, i, k);
    }
  }
}
