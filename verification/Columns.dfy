/** The encrypted columns of the database, and the fixed order in which a rotation visits their cells. */
module Columns {
  import opened Prelude
  import opened Envelope

  datatype Target = Target(table: string, idColumn: string, column: string, format: Format)

  /** One non-null encrypted value; `id` is the row's UUID, as a number in the database's sort order. */
  datatype Cell = Cell(table: string, column: string, id: nat)

  datatype Slot = Slot(cell: Cell, format: Format)

  predicate DistinctColumns(targets: seq<Target>) {
    forall i, j :: 0 <= i < j < |targets| ==>
      targets[i].table != targets[j].table || targets[i].column != targets[j].column
  }

  /** `encryptedColumnTargets`. */
  const ENCRYPTED_COLUMNS: seq<Target> := [
    Target("oidc_signing_keys", "id", "private_key_encrypted", JsonEnvelope),
    Target("oidc_clients", "id", "client_secret_encrypted", Prefix),
    Target("upstream_providers", "id", "client_id_encrypted", Prefix),
    Target("upstream_providers", "id", "client_secret_encrypted", Prefix),
    Target("social_connections", "id", "client_id_encrypted", Prefix),
    Target("social_connections", "id", "client_secret_encrypted", Prefix),
    Target("oidc_connections", "id", "client_id_encrypted", Prefix),
    Target("oidc_connections", "id", "client_secret_encrypted", Prefix),
    Target("email_provider_configs", "id", "config_encrypted", Prefix),
    Target("totp_credentials", "id", "secret_encrypted", Prefix)
  ]

  /** An encrypted column of the schema and who writes it. */
  datatype SchemaColumn = SchemaColumn(table: string, column: string, writer: Writer)

  /** The encrypted columns as the migrations create them. */
  const ENCRYPTED_SCHEMA: seq<SchemaColumn> := [
    SchemaColumn("totp_credentials", "secret_encrypted", Appending),
    SchemaColumn("oidc_clients", "client_secret_encrypted", Appending),
    SchemaColumn("oidc_signing_keys", "private_key_encrypted", SigningKeys),
    SchemaColumn("upstream_providers", "client_id_encrypted", ProviderSecrets),
    SchemaColumn("upstream_providers", "client_secret_encrypted", ProviderSecrets),
    SchemaColumn("email_provider_configs", "config_encrypted", ProviderSecrets),
    SchemaColumn("social_connections", "client_id_encrypted", ProviderSecrets),
    SchemaColumn("social_connections", "client_secret_encrypted", ProviderSecrets),
    SchemaColumn("oidc_connections", "client_id_encrypted", ProviderSecrets),
    SchemaColumn("oidc_connections", "client_secret_encrypted", ProviderSecrets)
  ]

  function FormatFor(w: Writer): Format { if w == SigningKeys then JsonEnvelope else Prefix }

  /** Where each column of the schema is among the targets, and the other way round. */
  const PLACES: seq<nat> := [9, 1, 0, 2, 3, 8, 4, 5, 6, 7]
  const SOURCES: seq<nat> := [2, 1, 3, 4, 6, 7, 8, 9, 5, 0]

  /** The targets are the encrypted columns of the schema, no more and no less, each in its writer's format. */
  lemma TargetsAreTheSchema(k: nat)
    requires k < 10
    ensures |ENCRYPTED_SCHEMA| == |ENCRYPTED_COLUMNS| == 10 && PLACES[k] < 10 && SOURCES[k] < 10
    ensures var c := ENCRYPTED_SCHEMA[k];
            ENCRYPTED_COLUMNS[PLACES[k]] == Target(c.table, "id", c.column, FormatFor(c.writer))
    ensures var c := ENCRYPTED_SCHEMA[SOURCES[k]];
            ENCRYPTED_COLUMNS[k] == Target(c.table, "id", c.column, FormatFor(c.writer))
  {}

  /** Every encrypted column of the schema is a target, in a format that reads what its writer stores. */
  lemma EveryColumnHasATarget(s: Suite, k: nat) returns (i: nat)
    requires Lawful(s) && k < |ENCRYPTED_SCHEMA|
    ensures i < |ENCRYPTED_COLUMNS|
    ensures ENCRYPTED_COLUMNS[i].table == ENCRYPTED_SCHEMA[k].table &&
            ENCRYPTED_COLUMNS[i].column == ENCRYPTED_SCHEMA[k].column
    ensures ReadsWriter(s, ENCRYPTED_COLUMNS[i].format, ENCRYPTED_SCHEMA[k].writer)
  {
    TargetsAreTheSchema(k);
    i := PLACES[k];
    hide ReadsWriter, ENCRYPTED_COLUMNS, ENCRYPTED_SCHEMA, PLACES;
    WrittenIsRead(s, ENCRYPTED_SCHEMA[k].writer);
  }

  /** The schema has this column as an encrypted one, and its writer stores it in this format. */
  ghost predicate IsEncrypted(table: string, column: string, f: Format) {
    exists k :: 0 <= k < |ENCRYPTED_SCHEMA| && ENCRYPTED_SCHEMA[k].table == table &&
        ENCRYPTED_SCHEMA[k].column == column
                && f == FormatFor(ENCRYPTED_SCHEMA[k].writer)
  }

  lemma EncryptedColumnsDistinct()
    ensures DistinctColumns(ENCRYPTED_COLUMNS)
    ensures forall t :: t in ENCRYPTED_COLUMNS ==> !t.format.OtherFormat?
  {
    assert "upstream_providers"[0] == 'u' && "social_connections"[0] == 's' && "oidc_connections"[5] == 'c';
    assert "email_provider_configs"[0] == 'e' && "totp_credentials"[0] == 't';
    assert |"oidc_signing_keys"| == 17 && |"oidc_clients"| == 12 && |"oidc_connections"| == 16;
    assert |"upstream_providers"| == 18 && |"social_connections"| == 18;
    assert |"email_provider_configs"| == 22 && |"totp_credentials"| == 16;
    assert |"client_id_encrypted"| == 19 && |"client_secret_encrypted"| == 23;
  }

  // ----- ORDER BY id

  lemma {:induction false} LeastExists(s: set<nat>)
    requires s != {}
    ensures exists m :: m in s && forall x :: x in s ==> m <= x
  {
    var a :| a in s;
    if s != {a} {
      var rest := s - {a};
      LeastExists(rest);
      var m :| m in rest && forall x :: x in rest ==> m <= x;
      var l := if a <= m then a else m;
      assert forall x :: x in s ==> x == a || x in rest;
      assert l in s && forall x :: x in s ==> l <= x;
    }
  }

  function Least(s: set<nat>): (m: nat)
    requires s != {}
    ensures m in s && forall x :: x in s ==> m <= x
  {
    LeastExists(s);
    var m :| m in s && forall x :: x in s ==> m <= x;
    m
  }

  /** A set in ascending order. */
  function Ascending(s: set<nat>): (r: seq<nat>)
    ensures |r| == |s|
    ensures forall x :: x in r <==> x in s
    ensures forall i, j :: 0 <= i < j < |r| ==> r[i] < r[j]
  {
    if s == {} then [] else [Least(s)] + Ascending(s - {Least(s)})
  }

  function Without<T>(s: seq<T>, k: nat): seq<T>
    requires k < |s|
  {
    s[..k] + s[k + 1..]
  }

  lemma WithoutLeft<T>(a: seq<T>, b: seq<T>, k: nat)
    requires k < |a|
    ensures Without(a + b, k) == Without(a, k) + b
  {}

  lemma WithoutRight<T>(a: seq<T>, b: seq<T>, k: nat)
    requires k < |b|
    ensures Without(a + b, |a| + k) == a + Without(b, k)
  {}

  predicate StrictlyAscending(r: seq<nat>) { forall i, j :: 0 <= i < j < |r| ==> r[i] < r[j] }

  /** There is only one ascending order. */
  lemma {:induction false} AscendingUnique(a: seq<nat>, b: seq<nat>)
    requires StrictlyAscending(a) && StrictlyAscending(b)
    requires forall x :: x in a <==> x in b
    ensures a == b
  {
    assert a != [] ==> a[0] in a;
    assert b != [] ==> b[0] in b;
    if a != [] && b != [] {
      assert a[0] in b && b[0] in a;
      assert a[0] == b[0];
      forall x ensures x in a[1..] <==> x in b[1..] {
        assert x in a[1..] <==> x in a && x != a[0];
        assert x in b[1..] <==> x in b && x != b[0];
      }
      AscendingUnique(a[1..], b[1..]);
      assert a == [a[0]] + a[1..] && b == [b[0]] + b[1..];
    }
  }

  lemma WithoutAscending(r: seq<nat>, k: nat)
    requires StrictlyAscending(r) && k < |r|
    ensures StrictlyAscending(Without(r, k))
    ensures forall x :: x in Without(r, k) <==> x in r && x != r[k]
  {}

  /** Removing an element from the set removes one place from the order. */
  lemma {:induction false} AscendingRemove(s: set<nat>, k: nat)
    requires k < |Ascending(s)|
    ensures Ascending(s - {Ascending(s)[k]}) == Without(Ascending(s), k)
  {
    WithoutAscending(Ascending(s), k);
    AscendingUnique(Ascending(s - {Ascending(s)[k]}), Without(Ascending(s), k));
  }

  function IdsOf(keys: set<Cell>, t: Target): set<nat> {
    set c | c in keys && c.table == t.table && c.column == t.column :: c.id
  }

  function SlotsOfIds(t: Target, ids: seq<nat>): (r: seq<Slot>)
    ensures |r| == |ids|
    ensures forall k :: 0 <= k < |r| ==> r[k] == Slot(Cell(t.table, t.column, ids[k]), t.format)
  {
    seq(|ids|, k requires 0 <= k < |ids| => Slot(Cell(t.table, t.column, ids[k]), t.format))
  }

  /** The rows of one target, as `targetRows` selects and orders them. */
  function TargetSlots(keys: set<Cell>, t: Target): (r: seq<Slot>)
    ensures forall k :: 0 <= k < |r| ==> r[k].cell in keys && r[k].cell.table == t.table && r[k].cell.column == t.column
  {
    var ids := Ascending(IdsOf(keys, t));
    assert forall k :: 0 <= k < |ids| ==> ids[k] in IdsOf(keys, t);
    SlotsOfIds(t, ids)
  }

  predicate Visited(r: seq<Slot>, c: Cell) { exists k :: 0 <= k < |r| && r[k].cell == c }

  /** Within a target the rows come in ascending order of id, each of the table's non-null cells once. */
  lemma TargetSlotsAscend(keys: set<Cell>, t: Target)
    ensures var r := TargetSlots(keys, t);
            && (forall i, j :: 0 <= i < j < |r| ==> r[i].cell.id < r[j].cell.id)
            && (forall c :: c in keys && c.table == t.table && c.column == t.column ==> Visited(r, c))
  {
    var r, ids := TargetSlots(keys, t), Ascending(IdsOf(keys, t));
    forall c | c in keys && c.table == t.table && c.column == t.column ensures Visited(r, c) {
      assert c.id in IdsOf(keys, t);
      var k :| 0 <= k < |ids| && ids[k] == c.id;
      assert r[k].cell == c;
    }
  }

  /** The order of visit: target by target, each in id order. */
  function Slots(keys: set<Cell>, targets: seq<Target>): (r: seq<Slot>)
    ensures forall k :: 0 <= k < |r| ==> r[k].cell in keys
  {
    if targets == [] then []
    else Slots(keys, targets[..|targets| - 1]) + TargetSlots(keys, targets[|targets| - 1])
  }

  lemma {:induction false} SlotsPrefix(keys: set<Cell>, targets: seq<Target>, i: nat)
    requires i <= |targets|
    ensures Slots(keys, targets[..i]) <= Slots(keys, targets)
  {
    if i == |targets| {
      assert targets[..i] == targets;
    } else {
      var init := targets[..|targets| - 1];
      SlotsPrefix(keys, init, i);
      assert init[..i] == targets[..i];
    }
  }

  lemma SlotsNone(keys: set<Cell>, targets: seq<Target>)
    ensures Slots(keys, targets[..0]) == []
  {}

  lemma SlotsStep(keys: set<Cell>, targets: seq<Target>, i: nat)
    requires i < |targets|
    ensures Slots(keys, targets[..i + 1]) == Slots(keys, targets[..i]) + TargetSlots(keys, targets[i])
  {
    assert targets[..i + 1][..i] == targets[..i];
  }

  /** Where the rows of target `i` stand in the overall order. */
  lemma TargetRange(keys: set<Cell>, targets: seq<Target>, i: nat)
    requires i < |targets|
    ensures var slots, base, rows := Slots(keys, targets), |Slots(keys, targets[..i])|, TargetSlots(keys, targets[i]);
            && |Slots(keys, targets[..i + 1])| == base + |rows| <= |slots|
            && forall k :: 0 <= k < |rows| ==> slots[base + k] == rows[k]
  {
    hide Slots, TargetSlots;
    SlotsStep(keys, targets, i);
    SlotsPrefix(keys, targets, i + 1);
  }

  lemma {:induction false} SlotTarget(keys: set<Cell>, targets: seq<Target>, k: nat) returns (i: nat)
    requires k < |Slots(keys, targets)|
    ensures i < |targets| && Slots(keys, targets)[k].format == targets[i].format
    ensures Slots(keys, targets)[k].cell.table == targets[i].table &&
            Slots(keys, targets)[k].cell.column == targets[i].column
  {
    var init := targets[..|targets| - 1];
    if k < |Slots(keys, init)| {
      i := SlotTarget(keys, init, k);
    } else {
      i := |targets| - 1;
    }
  }

  predicate DistinctCells(slots: seq<Slot>) {
    forall i, j :: 0 <= i < j < |slots| ==> slots[i].cell != slots[j].cell
  }

  /** With distinct columns no cell is visited twice, even though two columns may share a table. */
  lemma {:induction false} SlotsDistinct(keys: set<Cell>, targets: seq<Target>)
    requires DistinctColumns(targets)
    ensures DistinctCells(Slots(keys, targets))
  {
    if targets != [] {
      var init := targets[..|targets| - 1];
      SlotsDistinct(keys, init);
      var before := Slots(keys, init);
      forall k | 0 <= k < |before|
        ensures before[k].cell.table != targets[|targets| - 1].table ||
                before[k].cell.column != targets[|targets| - 1].column
      {
        var i := SlotTarget(keys, init, k);
      }
    }
  }

  /** A counted cell has a place in the order. */
  lemma {:induction false} SlotOf(keys: set<Cell>, targets: seq<Target>, i: nat, cell: Cell) returns (k: nat)
    requires i < |targets| && cell in keys && cell.table == targets[i].table && cell.column == targets[i].column
    ensures k < |Slots(keys, targets)| && Slots(keys, targets)[k].cell == cell
  {
    var ids := Ascending(IdsOf(keys, targets[i]));
    assert cell.id in IdsOf(keys, targets[i]);
    var j :| 0 <= j < |ids| && ids[j] == cell.id;
    SlotsStep(keys, targets, i);
    SlotsPrefix(keys, targets, i + 1);
    k := |Slots(keys, targets[..i])| + j;
    assert Slots(keys, targets[..i + 1])[k].cell == cell;
  }

  lemma IdsRemove(keys: set<Cell>, t: Target, cell: Cell)
    ensures IdsOf(keys - {cell}, t) ==
            if cell.table == t.table && cell.column == t.column then IdsOf(keys, t) - {cell.id} else IdsOf(keys, t)
  {}

  lemma SlotsOfIdsWithout(t: Target, ids: seq<nat>, k: nat)
    requires k < |ids|
    ensures SlotsOfIds(t, Without(ids, k)) == Without(SlotsOfIds(t, ids), k)
  {}

  lemma {:induction false} TargetSlotsRemove(keys: set<Cell>, t: Target, k: nat)
    requires k < |TargetSlots(keys, t)|
    ensures TargetSlots(keys - {TargetSlots(keys, t)[k].cell}, t) == Without(TargetSlots(keys, t), k)
  {
    var ids := Ascending(IdsOf(keys, t));
    var cell := TargetSlots(keys, t)[k].cell;
    IdsRemove(keys, t, cell);
    AscendingRemove(IdsOf(keys, t), k);
    SlotsOfIdsWithout(t, ids, k);
  }

  lemma {:induction false} RemoveFromLast(keys: set<Cell>, init: seq<Target>, t: Target, k: nat)
    requires forall j :: 0 <= j < |init| ==> init[j].table != t.table || init[j].column != t.column
    requires |Slots(keys, init)| <= k < |Slots(keys, init)| + |TargetSlots(keys, t)|
    ensures var cell := TargetSlots(keys, t)[k - |Slots(keys, init)|].cell;
            Slots(keys - {cell}, init) + TargetSlots(keys - {cell}, t) ==
            Without(Slots(keys, init) + TargetSlots(keys, t), k)
  {
    hide Slots, TargetSlots, Without;
    var j := k - |Slots(keys, init)|;
    SlotsUnaffected(keys, init, TargetSlots(keys, t)[j].cell);
    TargetSlotsRemove(keys, t, j);
    WithoutRight(Slots(keys, init), TargetSlots(keys, t), j);
    assert |Slots(keys, init)| + j == k;
  }

  lemma {:induction false} RemoveFromInit(keys: set<Cell>, init: seq<Target>, t: Target, k: nat)
    requires forall j :: 0 <= j < |init| ==> init[j].table != t.table || init[j].column != t.column
    requires k < |Slots(keys, init)|
    ensures TargetSlots(keys - {Slots(keys, init)[k].cell}, t) == TargetSlots(keys, t)
  {
    var i := SlotTarget(keys, init, k);
    IdsRemove(keys, t, Slots(keys, init)[k].cell);
  }

  /** Deleting a cell drops its place and shifts the later ones down. */
  lemma {:induction false} SlotsRemove(keys: set<Cell>, targets: seq<Target>, k: nat)
    requires DistinctColumns(targets) && k < |Slots(keys, targets)|
    ensures Slots(keys - {Slots(keys, targets)[k].cell}, targets) == Without(Slots(keys, targets), k)
  {
    var init, t := targets[..|targets| - 1], targets[|targets| - 1];
    var before, mine := Slots(keys, init), TargetSlots(keys, t);
    var all := before + mine;
    assert Slots(keys, targets) == all;
    var less := keys - {all[k].cell};
    assert Slots(less, targets) == Slots(less, init) + TargetSlots(less, t);
    if k < |before| {
      assert all[k] == before[k];
      SlotsRemove(keys, init, k);
      RemoveFromInit(keys, init, t, k);
      WithoutLeft(before, mine, k);
    } else {
      assert all[k] == mine[k - |before|];
      RemoveFromLast(keys, init, t, k);
    }
  }

  lemma {:induction false} SlotsUnaffected(keys: set<Cell>, targets: seq<Target>, cell: Cell)
    requires forall j :: 0 <= j < |targets| ==> targets[j].table != cell.table || targets[j].column != cell.column
    ensures Slots(keys - {cell}, targets) == Slots(keys, targets)
  {
    if targets != [] {
      SlotsUnaffected(keys, targets[..|targets| - 1], cell);
      IdsRemove(keys, targets[|targets| - 1], cell);
    }
  }
}
