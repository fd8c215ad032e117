/**
 The life of a tenant: create, suspend, resume, schedule deletion, cancel, and the cleanup job that deletes for good.
 Each handler's transaction is one step. The job reads its ids first and then deletes tenant by tenant, so other steps
 come in between. Key rotation is included because it is what gives a tenant several signing keys; it looks at no
 setting. Time is in seconds.
 */
module Tenants {
  import opened Prelude

  type Tid = nat
  type Kid = nat

  const DAY := 86_400

  datatype KeyState = Active | Overlap | Retired | Sunsetting
  /** `number` is the one in the key's name, which is unique for the tenant. */
  datatype Key = Key(tenant: Tid, state: KeyState, activated: int, sunset: Option<int>, number: nat)

  /** The value of a settings entry: settings are JSON, and a new tenant brings its own. */
  datatype Stamp = At(time: int) | Null | Junk

  /** The entries `suspended_at`, `deletion_scheduled_at`, `deletion_cancellable_until` and `hard_delete_after`. */
  datatype Settings = Settings(suspended: Option<Stamp>, scheduled: Option<Stamp>, cancellable: Option<Stamp>,
                               hardDelete: Option<Stamp>)

  /** A cleanup run that still has `ids` to go through. */
  datatype Job = Job(cutoff: int, ids: seq<Tid>)

  /** `used` are the ids ever given out. */
  datatype Db = Db(tenants: map<Tid, Settings>, keys: map<Kid, Key>, jobs: seq<Job>, used: set<Tid>, now: int)

  datatype Event =
    | Tick(elapsed: nat)
    | Create(id: Tid, kid: Kid, settings: Settings)
    | Suspend(id: Tid)
    | Resume(id: Tid)
    | Rotate(id: Tid, kid: Kid)
    | Schedule(id: Tid)
    | Cancel(id: Tid, newest: Kid)
    | Snapshot(lag: nat, ids: seq<Tid>)
    | Clean(job: nat)
    | Stop(job: nat)

  // The statements.

  function Owned(keys: map<Kid, Key>, id: Tid): set<Kid> { set k | k in keys && keys[k].tenant == id }

  function SunsetOf(key: Key, now: int): Key {
    key.(state := Sunsetting, sunset := Some(if key.sunset.Some? then key.sunset.value else now + 30 * DAY))
  }

  function SunsetKeys(keys: map<Kid, Key>, id: Tid, now: int): map<Kid, Key> {
    map k | k in keys :: if keys[k].tenant == id && keys[k].state != Sunsetting then SunsetOf(keys[k], now) else keys[k]
  }

  function ScheduledSettings(s: Settings, now: int): Settings {
    Settings(Some(match s.suspended case None => At(now) case Some(Null) => At(now) case Some(stamp) => stamp),
             Some(At(now)), Some(At(now + 7 * DAY)), Some(At(now + 30 * DAY)))
  }

  predicate Cancellable(db: Db, id: Tid) {
    && id in db.tenants && db.tenants[id].scheduled.Some?
    && db.tenants[id].cancellable.Some? && db.tenants[id].cancellable.value.At? &&
        db.tenants[id].cancellable.value.time > db.now
  }

  /** The key `ORDER BY activated_at DESC LIMIT 1` may pick among the tenant's sunsetting keys. */
  ghost predicate Newest(keys: map<Kid, Key>, id: Tid, newest: Kid) {
    var candidates := set k | k in Owned(keys, id) && keys[k].state == Sunsetting;
    candidates != {} ==> newest in candidates && forall k :: k in candidates ==>
        keys[k].activated <= keys[newest].activated
  }

  function RestoreKeys(keys: map<Kid, Key>, id: Tid, newest: Kid): map<Kid, Key> {
    map k | k in keys :: if keys[k].tenant == id && keys[k].state == Sunsetting
                         then keys[k].(state := if k == newest then Active else Retired, sunset := None) else keys[k]
  }

  /** The tenant's keys in one state, moved to another. */
  function Moved(keys: map<Kid, Key>, id: Tid, from: KeyState, to: KeyState): map<Kid, Key> {
    map k | k in keys :: if keys[k].tenant == id && keys[k].state == from then keys[k].(state := to) else keys[k]
  }

  /** `nextSequence`: the number of the tenant's keys plus one. */
  function NextSequence(keys: map<Kid, Key>, id: Tid): nat { |Owned(keys, id)| + 1 }

  /** What a rotation does to each key: the overlapping ones retire, the active one overlaps, the rest stay. */
  lemma RotateMeans(keys: map<Kid, Key>, id: Tid, kid: Kid, now: int)
    requires kid !in keys
    ensures var r := RotateKeys(keys, id, kid, now);
            && r.Keys == keys.Keys + {kid} && r[kid] == Key(id, Active, now, None, |Owned(keys, id)| + 1)
            && forall k :: k in keys ==>
                 r[k] == if keys[k].tenant != id then keys[k]
                         else if keys[k].state == Active then keys[k].(state := Overlap)
                         else if keys[k].state == Overlap then keys[k].(state := Retired)
                         else keys[k]
  {}

  /** The name a rotation would give its key is in use. */
  predicate Taken(keys: map<Kid, Key>, id: Tid) {
    exists k :: k in Owned(keys, id) && keys[k].number == NextSequence(keys, id)
  }

  /** `ForceRotate`: overlap retires, active overlaps, and a new key is active. */
  function RotateKeys(keys: map<Kid, Key>, id: Tid, kid: Kid, now: int): map<Kid, Key> {
    Moved(Moved(keys, id, Overlap, Retired), id, Active,
          Overlap)[kid := Key(id, Active, now, None, NextSequence(keys, id))]
  }

  predicate Selected(s: Settings, cutoff: int) {
    s.hardDelete.Some? && s.hardDelete.value.At? && s.hardDelete.value.time <= cutoff
  }

  predicate Expired(key: Key, cutoff: int) { key.state == Sunsetting && key.sunset.Some? && key.sunset.value <= cutoff }

  function WithoutExpired(keys: map<Kid, Key>, id: Tid, cutoff: int): map<Kid, Key> {
    map k | k in keys && !(keys[k].tenant == id && Expired(keys[k], cutoff)) :: keys[k]
  }

  /** The two DELETE statements for one tenant. */
  function Cleaned(db: Db, id: Tid, cutoff: int): Db {
    var keys := WithoutExpired(db.keys, id, cutoff);
    db.(keys := keys, tenants := if Owned(keys, id) == {} then db.tenants - {id} else db.tenants)
  }

  /** What the job's SELECT returns; a hard_delete_after that is no timestamp makes it fail. */
  ghost predicate Snapshots(db: Db, cutoff: int, ids: seq<Tid>) {
    && (forall id :: id in db.tenants && db.tenants[id].hardDelete.Some? ==> db.tenants[id].hardDelete.value != Junk)
    && (forall i, j :: 0 <= i < j < |ids| ==> ids[i] != ids[j])
    && (forall id :: id in ids <==> id in db.tenants && Selected(db.tenants[id], cutoff))
  }

  // The steps.

  predicate HasActive(keys: map<Kid, Key>, id: Tid) { exists k :: k in Owned(keys, id) && keys[k].state == Active }

  /** Restoring would make a second active key, which the unique index on active keys refuses. */
  predicate Clashes(keys: map<Kid, Key>, id: Tid) {
    HasActive(keys, id) && exists k :: k in Owned(keys, id) && keys[k].state == Sunsetting
  }

  /** As long as one key at most is active, that is exactly when two keys would be active after restoring. */
  lemma ClashesExactly(keys: map<Kid, Key>, id: Tid, newest: Kid)
    requires Newest(keys, id, newest)
    requires forall k, l :: k in ActiveKeys(keys, id) && l in ActiveKeys(keys, id) ==> k == l
    ensures var active := ActiveKeys(RestoreKeys(keys, id, newest), id);
            Clashes(keys, id) <==> exists k, l :: k in active && l in active && k != l
  {
    var r := RestoreKeys(keys, id, newest);
    var candidates := set k | k in Owned(keys, id) && keys[k].state == Sunsetting;
    if Clashes(keys, id) {
      var active :| active in Owned(keys, id) && keys[active].state == Active;
      var k :| k in Owned(keys, id) && keys[k].state == Sunsetting;
      assert k in candidates && newest in ActiveKeys(r, id) && active in ActiveKeys(r, id);
    }
    if k, l :| k in ActiveKeys(r, id) && l in ActiveKeys(r, id) && k != l {
      assert k in Owned(keys, id) && l in Owned(keys, id);
      assert k in ActiveKeys(keys, id) || k == newest;
      assert l in ActiveKeys(keys, id) || l == newest;
    }
  }

  ghost predicate Enabled(db: Db, e: Event) {
    match e
    case Tick(_) => true
    case Create(id, kid, _) => id !in db.used && kid !in db.keys
    case Suspend(id) => id in db.tenants
    case Resume(id) => id in db.tenants
    case Rotate(id, kid) => id in db.tenants && kid !in db.keys && !Taken(db.keys, id)
    case Schedule(id) => id in db.tenants
    case Cancel(id, newest) => Cancellable(db, id) && Newest(db.keys, id, newest) && !Clashes(db.keys, id)
    case Snapshot(lag, ids) => Snapshots(db, db.now - lag, ids)
    case Clean(j) => j < |db.jobs| && db.jobs[j].ids != []
    case Stop(j) => j < |db.jobs|
  }

  function WithSettings(db: Db, id: Tid, s: Settings): Db { db.(tenants := db.tenants[id := s]) }

  ghost function Effect(db: Db, e: Event): Db
    requires Enabled(db, e)
  {
    match e
    case Tick(elapsed) => db.(now := db.now + elapsed)
    case Create(id, kid, s) =>
      WithSettings(db, id, s).(keys := db.keys[kid := Key(id, Active, db.now, None, 1)], used := db.used + {id})
    case Suspend(id) => WithSettings(db, id, db.tenants[id].(suspended := Some(At(db.now))))
    case Resume(id) => WithSettings(db, id, db.tenants[id].(suspended := None))
    case Rotate(id, kid) => db.(keys := RotateKeys(db.keys, id, kid, db.now))
    case Schedule(id) =>
      WithSettings(db, id, ScheduledSettings(db.tenants[id], db.now)).(keys := SunsetKeys(db.keys, id, db.now))
    case Cancel(id, newest) =>
      WithSettings(db, id, Settings(None, None, None, None)).(keys := RestoreKeys(db.keys, id, newest))
    case Snapshot(lag, ids) => db.(jobs := db.jobs + [Job(db.now - lag, ids)])
    case Clean(j) =>
      var job := db.jobs[j];
      Cleaned(db, job.ids[0], job.cutoff).(jobs := db.jobs[j := job.(ids := job.ids[1..])])
    case Stop(j) => db.(jobs := db.jobs[j := db.jobs[j].(ids := [])])
  }

  ghost function Step(db: Db, e: Event): Db { if Enabled(db, e) then Effect(db, e) else db }

  ghost function Run(db: Db, events: seq<Event>): Db
    decreases |events|
  { if events == [] then db else Step(Run(db, events[..|events| - 1]), events[|events| - 1]) }

  /** `tenantAuthBlocked`. */
  predicate Blocked(s: Settings) { s.suspended.Some? || s.scheduled.Some? }

  // The invariant.

  /** Exactly one active key; it is the newest, and nothing sunsets. */
  ghost predicate OneActive(keys: map<Kid, Key>, id: Tid, active: Kid) {
    && active in keys && keys[active].tenant == id && keys[active].state == Active
    && forall k :: k in keys && keys[k].tenant == id ==>
                     keys[k].sunset == None && keys[k].state != Sunsetting && (keys[k].state == Active ==> k == active)
                     && keys[k].activated <= keys[active].activated
  }

  /** Every key sunsets, all at the same time. */
  ghost predicate AllSunset(keys: map<Kid, Key>, id: Tid, until: int) {
    && Owned(keys, id) != {}
    && forall k :: k in keys && keys[k].tenant == id ==> keys[k].state == Sunsetting && keys[k].sunset == Some(until)
  }

  /** The windows count from the latest schedule, the sunset of the keys from the first. */
  ghost predicate Scheduled(s: Settings, keys: map<Kid, Key>, id: Tid, first: int, latest: int) {
    && first <= latest
    && s.scheduled == Some(At(latest)) && s.cancellable == Some(At(latest + 7 * DAY)) &&
        s.hardDelete == Some(At(latest + 30 * DAY))
    && AllSunset(keys, id, first + 30 * DAY)
  }

  ghost predicate TenantOk(s: Settings, keys: map<Kid, Key>, id: Tid, now: int) {
    if s.scheduled.None? then exists active :: OneActive(keys, id, active)
    else exists first, latest :: latest <= now && Scheduled(s, keys, id, first, latest)
  }

  /** Keys belong to tenants, ids are not reused, and nothing carries a time of the future. */
  ghost predicate Framed(db: Db) {
    && db.tenants.Keys <= db.used
    && (forall k :: k in db.keys ==> db.keys[k].tenant in db.tenants && db.keys[k].activated <= db.now)
    && (forall j :: 0 <= j < |db.jobs| ==> db.jobs[j].cutoff <= db.now)
  }

  /** The invariant of the runs that keep the law. */
  ghost predicate Inv(db: Db) {
    Framed(db) && forall id :: id in db.tenants ==> TenantOk(db.tenants[id], db.keys, id, db.now)
  }

  ghost predicate NewestActive(keys: map<Kid, Key>, id: Tid, active: Kid) {
    && active in keys && keys[active].tenant == id && keys[active].state == Active
    && forall k :: k in keys && keys[k].tenant == id ==>
                     (keys[k].state == Active ==> k == active) && keys[k].activated <= keys[active].activated
  }

  /** At most one key is active, and then it is the newest; without one, all sunset. */
  ghost predicate Mixed(keys: map<Kid, Key>, id: Tid) {
    && (forall k :: k in keys && keys[k].tenant == id ==> (keys[k].sunset.Some? <==> keys[k].state == Sunsetting))
    && (|| (exists active :: NewestActive(keys, id, active))
        || (Owned(keys, id) != {} && forall k :: k in keys && keys[k].tenant == id ==> keys[k].state == Sunsetting))
  }

  ghost predicate TenantSound(s: Settings, keys: map<Kid, Key>, id: Tid) {
    Mixed(keys, id) && (s.scheduled.None? ==> exists active :: OneActive(keys, id, active))
  }

  /** The invariant of all runs. */
  ghost predicate Sound(db: Db) {
    Framed(db) && forall id :: id in db.tenants ==> TenantSound(db.tenants[id], db.keys, id)
  }

  /** Two key tables agree on a tenant. */
  ghost predicate Agree(keys: map<Kid, Key>, keys': map<Kid, Key>, id: Tid) {
    && (forall k :: k in keys && keys[k].tenant == id ==> k in keys' && keys'[k] == keys[k])
    && (forall k :: k in keys' && keys'[k].tenant == id ==> k in keys && keys[k] == keys'[k])
  }

  lemma TenantKept(s: Settings, keys: map<Kid, Key>, keys': map<Kid, Key>, id: Tid, now: int, now': int)
    requires TenantOk(s, keys, id, now) && Agree(keys, keys', id) && now <= now'
    ensures TenantOk(s, keys', id, now')
  {
    if s.scheduled.None? {
      var active :| OneActive(keys, id, active);
      assert OneActive(keys', id, active);
    } else {
      var first, latest :| latest <= now && Scheduled(s, keys, id, first, latest);
      assert Owned(keys', id) == Owned(keys, id);
      assert Scheduled(s, keys', id, first, latest);
    }
  }

  lemma SunsetAll(s: Settings, keys: map<Kid, Key>, id: Tid, now: int)
    requires TenantOk(s, keys, id, now)
    ensures TenantOk(ScheduledSettings(s, now), SunsetKeys(keys, id, now), id, now)
  {
    var keys' := SunsetKeys(keys, id, now);
    assert Owned(keys', id) == Owned(keys, id);
    if s.scheduled.None? {
      var active :| OneActive(keys, id, active);
      assert active in Owned(keys, id);
      assert Scheduled(ScheduledSettings(s, now), keys', id, now, now);
    } else {
      var first, latest :| latest <= now && Scheduled(s, keys, id, first, latest);
      assert Scheduled(ScheduledSettings(s, now), keys', id, first, now);
    }
  }

  /** The newest key becomes active, the others retire, and no sunset is left. */
  lemma RestoreOne(s: Settings, keys: map<Kid, Key>, id: Tid, now: int, newest: Kid)
    requires TenantOk(s, keys, id, now) && s.scheduled.Some? && Newest(keys, id, newest)
    ensures OneActive(RestoreKeys(keys, id, newest), id, newest)
    ensures forall k :: k in Owned(keys, id) && k != newest ==> RestoreKeys(keys, id, newest)[k].state == Retired
  {}

  lemma RotateOne(keys: map<Kid, Key>, id: Tid, kid: Kid, active: Kid, now: int)
    requires OneActive(keys, id, active) && kid !in keys && forall k :: k in keys ==> keys[k].activated <= now
    ensures OneActive(RotateKeys(keys, id, kid, now), id, kid)
  {}

  /** Cleaning a tenant takes all of it or nothing: all its keys sunset together. */
  lemma CleanWhole(s: Settings, keys: map<Kid, Key>, id: Tid, now: int, cutoff: int)
    requires TenantOk(s, keys, id, now)
    ensures Owned(WithoutExpired(keys, id, cutoff), id) != {} ==> Agree(keys, WithoutExpired(keys, id, cutoff), id)
    ensures s.scheduled.None? ==> Owned(WithoutExpired(keys, id, cutoff), id) != {}
    ensures s.scheduled.Some? && Selected(s, cutoff) ==> Owned(WithoutExpired(keys, id, cutoff), id) == {}
  {
    var keys' := WithoutExpired(keys, id, cutoff);
    if s.scheduled.None? {
      var active :| OneActive(keys, id, active);
      assert active in Owned(keys', id);
    } else {
      var first, latest :| latest <= now && Scheduled(s, keys, id, first, latest);
      if Owned(keys', id) != {} { var k :| k in Owned(keys', id); assert !Expired(keys[k], cutoff); }
    }
  }

  lemma TenantStep(db: Db, e: Event, id: Tid)
    requires Inv(db) && Enabled(db, e) && id in Effect(db, e).tenants && HonestStep(db, e)
    ensures TenantOk(Effect(db, e).tenants[id], Effect(db, e).keys, id, Effect(db, e).now)
  {
    hide TenantOk, Agree, Newest, Snapshots;
    var db' := Effect(db, e);
    if id in db.tenants { assert TenantOk(db.tenants[id], db.keys, id, db.now); }
    match e
    case Tick(_) => AgreeSelf(db.keys, id); TenantKept(db.tenants[id], db.keys, db.keys, id, db.now, db'.now);
    case Create(t, kid, s) =>
      if id == t { CreatedOk(db.keys, t, kid, s, db.now); }
      else {
        AgreeInsert(db.keys, kid, Key(t, Active, db.now, None, 1), id);
        TenantKept(db.tenants[id], db.keys, db'.keys, id, db.now, db.now);
      }
    case Suspend(t) => if id == t { SuspendedOk(db.tenants[id], db.keys, id, db.now, Some(At(db.now))); }
    case Resume(t) => if id == t { SuspendedOk(db.tenants[id], db.keys, id, db.now, None); }
    case Rotate(t, kid) =>
      if id == t { RotatedOk(db, t, kid); }
      else {
        AgreeRotate(db.keys, t, kid, db.now, id);
        TenantKept(db.tenants[id], db.keys, db'.keys, id, db.now, db.now);
      }
    case Schedule(t) =>
      if id == t { SunsetAll(db.tenants[id], db.keys, id, db.now); }
      else { AgreeSunset(db.keys, t, db.now, id); TenantKept(db.tenants[id], db.keys, db'.keys, id, db.now, db.now); }
    case Cancel(t, newest) =>
      if id == t { RestoredOk(db.tenants[id], db.keys, id, db.now, newest); }
      else { AgreeRestore(db.keys, t, newest, id); TenantKept(db.tenants[id], db.keys, db'.keys, id, db.now, db.now); }
    case Snapshot(_, _) =>
    case Clean(j) =>
      var t, cutoff := db.jobs[j].ids[0], db.jobs[j].cutoff;
      if id == t { CleanWhole(db.tenants[id], db.keys, id, db.now, cutoff); }
      else { AgreeClean(db.keys, t, cutoff, id); }
      TenantKept(db.tenants[id], db.keys, db'.keys, id, db.now, db.now);
    case Stop(_) =>
  }

  lemma AgreeSelf(keys: map<Kid, Key>, id: Tid) ensures Agree(keys, keys, id) {}

  lemma AgreeInsert(keys: map<Kid, Key>, kid: Kid, key: Key, id: Tid)
    requires kid !in keys && key.tenant != id
    ensures Agree(keys, keys[kid := key], id)
  {}

  lemma AgreeRotate(keys: map<Kid, Key>, t: Tid, kid: Kid, now: int, id: Tid)
    requires kid !in keys && t != id
    ensures Agree(keys, RotateKeys(keys, t, kid, now), id)
  {}

  lemma AgreeSunset(keys: map<Kid, Key>, t: Tid, now: int, id: Tid)
    requires t != id
    ensures Agree(keys, SunsetKeys(keys, t, now), id)
  {}

  lemma AgreeRestore(keys: map<Kid, Key>, t: Tid, newest: Kid, id: Tid)
    requires t != id
    ensures Agree(keys, RestoreKeys(keys, t, newest), id)
  {}

  lemma AgreeClean(keys: map<Kid, Key>, t: Tid, cutoff: int, id: Tid)
    requires t != id
    ensures Agree(keys, WithoutExpired(keys, t, cutoff), id)
  {}

  lemma CreatedOk(keys: map<Kid, Key>, id: Tid, kid: Kid, s: Settings, now: int)
    requires kid !in keys && forall k :: k in keys ==> keys[k].tenant != id
    requires s.scheduled.None?
    ensures TenantOk(s, keys[kid := Key(id, Active, now, None, 1)], id, now)
  { assert OneActive(keys[kid := Key(id, Active, now, None, 1)], id, kid); }

  lemma SuspendedOk(s: Settings, keys: map<Kid, Key>, id: Tid, now: int, suspended: Option<Stamp>)
    requires TenantOk(s, keys, id, now)
    ensures TenantOk(s.(suspended := suspended), keys, id, now)
  {
    if s.scheduled.Some? {
      var first, latest :| latest <= now && Scheduled(s, keys, id, first, latest);
      assert Scheduled(s.(suspended := suspended), keys, id, first, latest);
    }
  }

  lemma RotatedOk(db: Db, id: Tid, kid: Kid)
    requires Inv(db) && Enabled(db, Rotate(id, kid)) && db.tenants[id].scheduled.None?
    ensures TenantOk(db.tenants[id], RotateKeys(db.keys, id, kid, db.now), id, db.now)
  {
    assert TenantOk(db.tenants[id], db.keys, id, db.now);
    var active :| OneActive(db.keys, id, active);
    RotateOne(db.keys, id, kid, active, db.now);
  }

  lemma RestoredOk(s: Settings, keys: map<Kid, Key>, id: Tid, now: int, newest: Kid)
    requires TenantOk(s, keys, id, now) && s.scheduled.Some? && Newest(keys, id, newest)
    ensures TenantOk(Settings(None, None, None, None), RestoreKeys(keys, id, newest), id, now)
  { RestoreOne(s, keys, id, now, newest); }

  lemma KeysStep(db: Db, e: Event)
    requires Framed(db) && Enabled(db, e)
    ensures var db' := Effect(db, e);
            forall k :: k in db'.keys ==> db'.keys[k].tenant in db'.tenants && db'.keys[k].activated <= db'.now
  {
    hide Newest, Snapshots, Clashes;
    if e.Clean? {
      var id, cutoff := db.jobs[e.job].ids[0], db.jobs[e.job].cutoff;
      var keys' := WithoutExpired(db.keys, id, cutoff);
      forall k | k in keys' ensures keys'[k].tenant in Effect(db, e).tenants {
        assert keys'[k].tenant == id ==> k in Owned(keys', id);
      }
    }
  }

  lemma JobsStep(db: Db, e: Event)
    requires Framed(db) && Enabled(db, e)
    ensures var db' := Effect(db, e);
            db'.tenants.Keys <= db'.used && forall j :: 0 <= j < |db'.jobs| ==> db'.jobs[j].cutoff <= db'.now
  {}

  lemma FramedStep(db: Db, e: Event)
    requires Framed(db)
    ensures Framed(Step(db, e))
  {
    hide Effect;
    if Enabled(db, e) { KeysStep(db, e); JobsStep(db, e); }
  }

  /** What the law asks of a step: no tenant is created scheduled, and no scheduled tenant's key is rotated. */
  ghost predicate HonestStep(db: Db, e: Event) {
    Enabled(db, e) ==>
      (e.Create? ==> e.settings.scheduled.None?) && (e.Rotate? ==> db.tenants[e.id].scheduled.None?)
  }

  lemma StepKeepsInv(db: Db, e: Event)
    requires Inv(db) && HonestStep(db, e)
    ensures Inv(Step(db, e))
  {
    hide TenantOk, Enabled, Effect, Framed, HonestStep;
    FramedStep(db, e);
    if Enabled(db, e) {
      forall id | id in Effect(db, e).tenants
        ensures TenantOk(Effect(db, e).tenants[id], Effect(db, e).keys, id, Effect(db, e).now)
      { TenantStep(db, e, id); }
    }
  }

  ghost predicate Honest(db: Db, events: seq<Event>)
    decreases |events|
  {
    events == [] ||
    (Honest(db, events[..|events| - 1]) && HonestStep(Run(db, events[..|events| - 1]), events[|events| - 1]))
  }

  lemma {:induction false} RunKeepsInv(db: Db, events: seq<Event>)
    requires Inv(db) && Honest(db, events)
    ensures Inv(Run(db, events))
    decreases |events|
  {
    hide Inv, Step, HonestStep;
    if events != [] {
      RunKeepsInv(db, events[..|events| - 1]);
      StepKeepsInv(Run(db, events[..|events| - 1]), events[|events| - 1]);
    }
  }

  // Names of keys.

  /** The numbers in use are no larger than the number of keys. */
  ghost predicate Numbered(keys: map<Kid, Key>, id: Tid) {
    forall k :: k in Owned(keys, id) ==> keys[k].number <= |Owned(keys, id)|
  }

  lemma NumberedKept(keys: map<Kid, Key>, keys': map<Kid, Key>, id: Tid)
    requires Numbered(keys, id) && Owned(keys', id) == Owned(keys, id)
    requires forall k :: k in Owned(keys, id) ==> keys'[k].number == keys[k].number
    ensures Numbered(keys', id)
  {}

  lemma NumberedRotate(keys: map<Kid, Key>, id: Tid, kid: Kid, now: int)
    requires Numbered(keys, id) && kid !in keys
    ensures Numbered(RotateKeys(keys, id, kid, now), id)
  { assert Owned(RotateKeys(keys, id, kid, now), id) == Owned(keys, id) + {kid}; }

  lemma AgreeOwned(keys: map<Kid, Key>, keys': map<Kid, Key>, id: Tid)
    requires Agree(keys, keys', id)
    ensures Owned(keys', id) == Owned(keys, id) && forall k :: k in Owned(keys, id) ==> keys'[k] == keys[k]
  {}

  lemma NumberedCreate(keys: map<Kid, Key>, id: Tid, kid: Kid, now: int)
    requires kid !in keys && forall k :: k in keys ==> keys[k].tenant != id
    ensures Numbered(keys[kid := Key(id, Active, now, None, 1)], id)
  { assert Owned(keys[kid := Key(id, Active, now, None, 1)], id) == {kid}; }

  ghost predicate AllNumbered(db: Db) { forall id :: id in db.tenants ==> Numbered(db.keys, id) }

  /** The other tenants' keys are as they were. */
  lemma OthersAgree(db: Db, e: Event, id: Tid)
    requires Enabled(db, e) && id in db.tenants
    requires (e.Create? || e.Rotate? || e.Schedule? || e.Cancel?) ==> e.id != id
    requires e.Clean? ==> db.jobs[e.job].ids[0] != id
    requires e.Create? ==> e.id !in db.tenants
    ensures Agree(db.keys, Effect(db, e).keys, id)
  { hide Newest, Snapshots, Clashes, Taken; }

  lemma NumberedTenantStep(db: Db, e: Event, id: Tid)
    requires Inv(db) && AllNumbered(db) && Enabled(db, e) && id in Effect(db, e).tenants
    ensures Numbered(Effect(db, e).keys, id)
  {
    hide TenantOk, Numbered, Newest, Snapshots, Clashes, Taken;
    var keys' := Effect(db, e).keys;
    if e.Create? && e.id == id {
      NumberedCreate(db.keys, id, e.kid, db.now);
    } else {
      assert Numbered(db.keys, id);
      if e.Rotate? && e.id == id {
        NumberedRotate(db.keys, id, e.kid, db.now);
      } else if e.Schedule? || e.Cancel? {
        assert Owned(keys', id) == Owned(db.keys, id);
        NumberedKept(db.keys, keys', id);
      } else if e.Clean? && db.jobs[e.job].ids[0] == id {
        CleanWhole(db.tenants[id], db.keys, id, db.now, db.jobs[e.job].cutoff);
        AgreeOwned(db.keys, keys', id);
        NumberedKept(db.keys, keys', id);
      } else {
        OthersAgree(db, e, id);
        AgreeOwned(db.keys, keys', id);
        NumberedKept(db.keys, keys', id);
      }
    }
  }

  lemma NumberedStep(db: Db, e: Event)
    requires Inv(db) && AllNumbered(db)
    ensures AllNumbered(Step(db, e))
  {
    hide Inv, Numbered, Enabled, Effect;
    if Enabled(db, e) {
      forall id | id in Effect(db, e).tenants ensures Numbered(Effect(db, e).keys, id) {
        NumberedTenantStep(db, e, id);
      }
    }
  }

  /** While the law is kept, a rotation never meets a name in use. */
  lemma {:induction false} RotationNeverCollides(db: Db, events: seq<Event>)
    requires Inv(db) && AllNumbered(db) && Honest(db, events)
    ensures AllNumbered(Run(db, events))
    ensures forall id :: id in Run(db, events).tenants ==> !Taken(Run(db, events).keys, id)
    decreases |events|
  {
    hide Inv, Step, HonestStep;
    if events != [] {
      RotationNeverCollides(db, events[..|events| - 1]);
      RunKeepsInv(db, events[..|events| - 1]);
      NumberedStep(Run(db, events[..|events| - 1]), events[|events| - 1]);
    }
    assert forall id :: id in Run(db, events).tenants ==> Numbered(Run(db, events).keys, id);
  }

  // All runs.

  lemma OneActiveMixed(keys: map<Kid, Key>, id: Tid, active: Kid)
    requires OneActive(keys, id, active)
    ensures Mixed(keys, id)
  { assert NewestActive(keys, id, active); }

  lemma OkSound(s: Settings, keys: map<Kid, Key>, id: Tid, now: int)
    requires TenantOk(s, keys, id, now)
    ensures TenantSound(s, keys, id)
  {
    if s.scheduled.None? {
      var active: Kid :| OneActive(keys, id, active);
      OneActiveMixed(keys, id, active);
    }
  }

  lemma InvSound(db: Db)
    requires Inv(db)
    ensures Sound(db)
  {
    hide TenantOk, TenantSound, Framed;
    forall id | id in db.tenants ensures TenantSound(db.tenants[id], db.keys, id) {
      OkSound(db.tenants[id], db.keys, id, db.now);
    }
  }

  lemma MixedKept(keys: map<Kid, Key>, keys': map<Kid, Key>, id: Tid)
    requires Mixed(keys, id) && Agree(keys, keys', id)
    ensures Mixed(keys', id)
  {
    if active: Kid :| NewestActive(keys, id, active) {
      assert NewestActive(keys', id, active);
    } else {
      assert Owned(keys', id) == Owned(keys, id);
    }
  }

  lemma SoundKept(s: Settings, keys: map<Kid, Key>, keys': map<Kid, Key>, id: Tid)
    requires TenantSound(s, keys, id) && Agree(keys, keys', id)
    ensures TenantSound(s, keys', id)
  {
    hide Mixed;
    MixedKept(keys, keys', id);
    if s.scheduled.None? {
      var active: Kid :| OneActive(keys, id, active);
      assert OneActive(keys', id, active);
    }
  }

  lemma SunsetMixed(keys: map<Kid, Key>, id: Tid, now: int)
    requires Mixed(keys, id)
    ensures Mixed(SunsetKeys(keys, id, now), id)
  {
    var keys' := SunsetKeys(keys, id, now);
    assert Owned(keys', id) == Owned(keys, id);
    if active: Kid :| NewestActive(keys, id, active) { assert active in Owned(keys, id); }
  }

  lemma RotateMixed(keys: map<Kid, Key>, id: Tid, kid: Kid, now: int)
    requires Mixed(keys, id) && kid !in keys && forall k :: k in keys ==> keys[k].activated <= now
    ensures Mixed(RotateKeys(keys, id, kid, now), id)
  { assert NewestActive(RotateKeys(keys, id, kid, now), id, kid); }

  /** After a cancel exactly one key is active, whatever the tenant had gone through. */
  lemma CancelOne(keys: map<Kid, Key>, id: Tid, newest: Kid) returns (active: Kid)
    requires Mixed(keys, id) && Newest(keys, id, newest) && !Clashes(keys, id)
    ensures OneActive(RestoreKeys(keys, id, newest), id, active)
  {
    if active0: Kid :| NewestActive(keys, id, active0) {
      active := active0;
      assert active in Owned(keys, id);
      assert forall k :: k in keys && keys[k].tenant == id ==> k in Owned(keys, id);
    } else {
      active := newest;
      var candidates := set k | k in Owned(keys, id) && keys[k].state == Sunsetting;
      assert candidates == Owned(keys, id);
    }
  }

  lemma CleanMixed(keys: map<Kid, Key>, id: Tid, cutoff: int)
    requires Mixed(keys, id) && Owned(WithoutExpired(keys, id, cutoff), id) != {}
    ensures Mixed(WithoutExpired(keys, id, cutoff), id)
  {
    if active: Kid :| NewestActive(keys, id, active) {
      assert NewestActive(WithoutExpired(keys, id, cutoff), id, active);
    }
  }

  lemma CleanKeepsActive(s: Settings, keys: map<Kid, Key>, id: Tid, cutoff: int)
    requires TenantSound(s, keys, id) && Owned(WithoutExpired(keys, id, cutoff), id) != {}
    ensures TenantSound(s, WithoutExpired(keys, id, cutoff), id)
  {
    hide Mixed;
    CleanMixed(keys, id, cutoff);
    if s.scheduled.None? {
      var active: Kid :| OneActive(keys, id, active);
      assert OneActive(WithoutExpired(keys, id, cutoff), id, active);
    }
  }

  lemma SoundRotate(s: Settings, keys: map<Kid, Key>, id: Tid, kid: Kid, now: int)
    requires TenantSound(s, keys, id) && kid !in keys && forall k :: k in keys ==> keys[k].activated <= now
    ensures TenantSound(s, RotateKeys(keys, id, kid, now), id)
  {
    hide Mixed;
    RotateMixed(keys, id, kid, now);
    if s.scheduled.None? {
      var active: Kid :| OneActive(keys, id, active);
      RotateOne(keys, id, kid, active, now);
    }
  }

  lemma SoundTenantStep(db: Db, e: Event, id: Tid)
    requires Sound(db) && Enabled(db, e) && id in Effect(db, e).tenants
    ensures TenantSound(Effect(db, e).tenants[id], Effect(db, e).keys, id)
  {
    hide Mixed, OneActive, Agree, Newest, Snapshots, Clashes;
    var db' := Effect(db, e);
    if id in db.tenants { assert TenantSound(db.tenants[id], db.keys, id); }
    match e
    case Tick(_) =>
    case Suspend(_) =>
    case Resume(_) =>
    case Snapshot(_, _) =>
    case Stop(_) =>
    case Create(t, kid, s) =>
      if id == t {
        CreatedActive(db.keys, t, kid, db.now);
        OneActiveMixed(db'.keys, id, kid);
      } else {
        AgreeInsert(db.keys, kid, Key(t, Active, db.now, None, 1), id);
        SoundKept(db.tenants[id], db.keys, db'.keys, id);
      }
    case Rotate(t, kid) =>
      if id == t { SoundRotate(db.tenants[id], db.keys, id, kid, db.now); }
      else { AgreeRotate(db.keys, t, kid, db.now, id); SoundKept(db.tenants[id], db.keys, db'.keys, id); }
    case Schedule(t) =>
      if id == t { SunsetMixed(db.keys, id, db.now); }
      else { AgreeSunset(db.keys, t, db.now, id); SoundKept(db.tenants[id], db.keys, db'.keys, id); }
    case Cancel(t, newest) =>
      if id == t {
        var active := CancelOne(db.keys, id, newest);
        OneActiveMixed(db'.keys, id, active);
      } else {
        AgreeRestore(db.keys, t, newest, id);
        SoundKept(db.tenants[id], db.keys, db'.keys, id);
      }
    case Clean(j) =>
      var t, cutoff := db.jobs[j].ids[0], db.jobs[j].cutoff;
      if id == t { CleanKeepsActive(db.tenants[id], db.keys, id, cutoff); }
      else { AgreeClean(db.keys, t, cutoff, id); SoundKept(db.tenants[id], db.keys, db'.keys, id); }
  }

  lemma CreatedActive(keys: map<Kid, Key>, id: Tid, kid: Kid, now: int)
    requires kid !in keys && forall k :: k in keys ==> keys[k].tenant != id
    ensures OneActive(keys[kid := Key(id, Active, now, None, 1)], id, kid)
  {}

  lemma StepKeepsSound(db: Db, e: Event)
    requires Sound(db)
    ensures Sound(Step(db, e))
  {
    hide TenantSound, Enabled, Effect, Framed;
    FramedStep(db, e);
    if Enabled(db, e) {
      forall id | id in Effect(db, e).tenants ensures TenantSound(Effect(db, e).tenants[id], Effect(db, e).keys, id) {
        SoundTenantStep(db, e, id);
      }
    }
  }

  lemma {:induction false} RunKeepsSound(db: Db, events: seq<Event>)
    requires Sound(db)
    ensures Sound(Run(db, events))
    decreases |events|
  {
    hide Sound, Step;
    if events != [] {
      RunKeepsSound(db, events[..|events| - 1]);
      StepKeepsSound(Run(db, events[..|events| - 1]), events[|events| - 1]);
    }
  }

  function ActiveKeys(keys: map<Kid, Key>, id: Tid): set<Kid> {
    set k | k in Owned(keys, id) && keys[k].state == Active
  }

  lemma ActiveCount(s: Settings, keys: map<Kid, Key>, id: Tid, now: int)
    requires TenantOk(s, keys, id, now)
    ensures |ActiveKeys(keys, id)| == if s.scheduled.None? then 1 else 0
    ensures s.scheduled.Some? ==> exists until :: AllSunset(keys, id, until)
  {
    if s.scheduled.None? {
      var active: Kid :| OneActive(keys, id, active);
      assert ActiveKeys(keys, id) == {active};
    } else {
      var first, latest :| latest <= now && Scheduled(s, keys, id, first, latest);
      assert AllSunset(keys, id, first + 30 * DAY);
      assert ActiveKeys(keys, id) == {};
    }
  }

  lemma SoundCount(s: Settings, keys: map<Kid, Key>, id: Tid)
    requires TenantSound(s, keys, id)
    ensures |ActiveKeys(keys, id)| <= 1 && (s.scheduled.None? ==> |ActiveKeys(keys, id)| == 1)
    ensures ActiveKeys(keys, id) == {} ==> forall k :: k in Owned(keys, id) ==> keys[k].state == Sunsetting
  {
    if s.scheduled.None? {
      var active: Kid :| OneActive(keys, id, active);
      assert NewestActive(keys, id, active);
    }
    if active: Kid :| NewestActive(keys, id, active) {
      assert ActiveKeys(keys, id) == {active};
    } else {
      assert ActiveKeys(keys, id) == {};
    }
  }

  /**
   Over every run, whatever settings tenants are created with and whenever keys are rotated: a tenant that is not
   scheduled for deletion has exactly one active key; a scheduled one has at most one, and none only if all its keys
   sunset.
   */
  lemma ActiveKeysOverRuns(db: Db, events: seq<Event>, id: Tid)
    requires Sound(db) && id in Run(db, events).tenants
    ensures var r := Run(db, events);
            && |ActiveKeys(r.keys, id)| <= 1
            && (r.tenants[id].scheduled.None? ==> |ActiveKeys(r.keys, id)| == 1)
            && (ActiveKeys(r.keys, id) == {} ==> forall k :: k in Owned(r.keys, id) ==> r.keys[k].state == Sunsetting)
  {
    hide Run;
    RunKeepsSound(db, events);
    var r := Run(db, events);
    assert TenantSound(r.tenants[id], r.keys, id);
    hide TenantSound;
    SoundCount(r.tenants[id], r.keys, id);
  }

  /** The law: one active key exactly while no deletion is scheduled, none otherwise. */
  ghost predicate Law(db: Db, id: Tid) {
    id in db.tenants ==> |ActiveKeys(db.keys, id)| == if db.tenants[id].scheduled.None? then 1 else 0
  }

  lemma InvLaw(db: Db, id: Tid)
    requires Inv(db)
    ensures Law(db, id)
  {
    if id in db.tenants {
      assert TenantOk(db.tenants[id], db.keys, id, db.now);
      hide TenantOk;
      ActiveCount(db.tenants[id], db.keys, id, db.now);
    }
  }

  /**
   Settings come from the caller of `createTenant`: the law survives a creation exactly if they schedule no deletion.
   */
  lemma CreateKeepsTheLaw(db: Db, id: Tid, kid: Kid, s: Settings)
    requires Inv(db) && Enabled(db, Create(id, kid, s))
    ensures Law(Step(db, Create(id, kid, s)), id) <==> s.scheduled.None?
    ensures Inv(Step(db, Create(id, kid, s))) <==> s.scheduled.None?
  {
    var r := Step(db, Create(id, kid, s));
    assert ActiveKeys(r.keys, id) == {kid};
    if s.scheduled.None? { StepKeepsInv(db, Create(id, kid, s)); }
    if Inv(r) { InvLaw(r, id); }
  }

  /**
   A rotation asks for no active key and always makes one: the law survives it exactly if no deletion is scheduled.
   */
  lemma RotateKeepsTheLaw(db: Db, id: Tid, kid: Kid)
    requires Inv(db) && Enabled(db, Rotate(id, kid))
    ensures Law(Step(db, Rotate(id, kid)), id) <==> db.tenants[id].scheduled.None?
    ensures Inv(Step(db, Rotate(id, kid))) <==> db.tenants[id].scheduled.None?
  {
    hide TenantOk;
    var r := Step(db, Rotate(id, kid));
    assert ActiveKeys(r.keys, id) == {kid};
    if db.tenants[id].scheduled.None? { StepKeepsInv(db, Rotate(id, kid)); }
    if Inv(r) { InvLaw(r, id); }
  }

  ghost predicate LawThroughout(db: Db, events: seq<Event>)
    decreases |events|
  {
    (forall id :: Law(Run(db, events), id)) && (events == [] || LawThroughout(db, events[..|events| - 1]))
  }

  /**
   The law holds at every moment of a run exactly if the run never creates a scheduled tenant and never rotates the
   key of one.
   */
  lemma {:induction false} LawHoldsExactlyIfHonest(db: Db, events: seq<Event>)
    requires Inv(db)
    ensures LawThroughout(db, events) <==> Honest(db, events)
    decreases |events|
  {
    hide Inv, Law, Step, HonestStep;
    if events == [] {
      forall id ensures Law(Run(db, events), id) { InvLaw(db, id); }
    } else {
      var before, e := events[..|events| - 1], events[|events| - 1];
      LawHoldsExactlyIfHonest(db, before);
      assert Run(db, events) == Step(Run(db, before), e);
      if Honest(db, before) {
        RunKeepsInv(db, before);
        LawAfterStep(Run(db, before), e);
        assert Honest(db, events) <==> HonestStep(Run(db, before), e);
      }
    }
  }

  lemma LawAfterStep(db: Db, e: Event)
    requires Inv(db)
    ensures (forall id :: Law(Step(db, e), id)) <==> HonestStep(db, e)
  {
    hide Inv, Law, Step;
    if HonestStep(db, e) {
      StepKeepsInv(db, e);
      forall id ensures Law(Step(db, e), id) { InvLaw(Step(db, e), id); }
    } else {
      if e.Create? { CreateKeepsTheLaw(db, e.id, e.kid, e.settings); } else { RotateKeepsTheLaw(db, e.id, e.kid); }
      assert !Law(Step(db, e), e.id);
    }
  }
}
