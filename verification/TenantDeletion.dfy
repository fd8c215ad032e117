/**
 What happens around the end of a tenant: who is deleted for good, who survives a cleanup that is under way, when a
 tenant is blocked, and what a rotation of a scheduled tenant's key does to all this.
 */
module TenantDeletion {
  import opened Prelude
  import opened Tenants

  /**
   Whatever happened before, only the cleanup job deletes a tenant, and only when each of its keys had sunset by the
   cutoff.
   */
  lemma HardDeleteOnlyExpired(db: Db, e: Event, id: Tid)
    requires id in db.tenants && id !in Step(db, e).tenants
    ensures e.Clean? && e.job < |db.jobs| && db.jobs[e.job].ids != [] && db.jobs[e.job].ids[0] == id
    ensures forall k :: k in Owned(db.keys, id) ==> Expired(db.keys[k], db.jobs[e.job].cutoff)
  {
    hide Newest, Snapshots;
    var keys' := WithoutExpired(db.keys, id, db.jobs[e.job].cutoff);
    assert Owned(keys', id) == {};
    forall k | k in Owned(db.keys, id) ensures Expired(db.keys[k], db.jobs[e.job].cutoff) {
      assert k !in Owned(keys', id);
    }
  }

  /** One tenant with a deletion time that is no timestamp keeps every cleanup from starting. */
  lemma JunkStopsCleanups(db: Db, id: Tid, lag: nat, ids: seq<Tid>)
    requires id in db.tenants && db.tenants[id].hardDelete == Some(Junk)
    ensures !Enabled(db, Snapshot(lag, ids))
  {}

  /** A tenant that a job with this cutoff cannot touch. */
  ghost predicate Spared(db: Db, id: Tid, cutoff: int) {
    id in db.tenants ==>
      && Owned(db.keys, id) != {}
      && forall k :: k in db.keys && db.keys[k].tenant == id && db.keys[k].sunset.Some? ==>
          db.keys[k].sunset.value > cutoff
  }

  lemma SparedStep(db: Db, e: Event, id: Tid, cutoff: int)
    requires Spared(db, id, cutoff) && cutoff <= db.now && id in db.used && db.tenants.Keys <= db.used
    ensures var db' := Step(db, e);
            Spared(db', id, cutoff) && cutoff <= db'.now && id in db'.used && db'.tenants.Keys <= db'.used
  {}

  lemma {:induction false} SparedRun(db: Db, events: seq<Event>, id: Tid, j: nat)
    requires j < |db.jobs| && Spared(db, id, db.jobs[j].cutoff) && db.jobs[j].cutoff <= db.now && id in db.used &&
             db.tenants.Keys <= db.used
    ensures var r := Run(db, events);
            && j < |r.jobs| && r.jobs[j].cutoff == db.jobs[j].cutoff && r.jobs[j].cutoff <= r.now
            && Spared(r, id, r.jobs[j].cutoff) && id in r.used && r.tenants.Keys <= r.used
    decreases |events|
  {
    hide Spared;
    if events != [] {
      var before := events[..|events| - 1];
      SparedRun(db, before, id, j);
      var r, e := Run(db, before), events[|events| - 1];
      SparedStep(r, e, id, db.jobs[j].cutoff);
      assert Run(db, events) == Step(r, e);
      CutoffsStay(r, e, j);
    }
  }

  lemma CutoffsStay(db: Db, e: Event, j: nat)
    requires j < |db.jobs|
    ensures j < |Step(db, e).jobs| && Step(db, e).jobs[j].cutoff == db.jobs[j].cutoff
  {}

  lemma SparedSurvives(db: Db, id: Tid, j: nat)
    requires j < |db.jobs| && id in db.tenants && Spared(db, id, db.jobs[j].cutoff)
    ensures id in Step(db, Clean(j)).tenants && Agree(db.keys, Step(db, Clean(j)).keys, id)
  {}

  /**
   A tenant whose deletion is cancelled survives every cleanup run that had begun by then, whatever happens in
   between, even if it is scheduled again: such a run never removes the tenant or one of its keys.
   */
  lemma CancelledSurvives(db: Db, id: Tid, newest: Kid, j: nat, events: seq<Event>)
    requires Sound(db) && Enabled(db, Cancel(id, newest)) && j < |db.jobs|
    ensures var r := Run(Step(db, Cancel(id, newest)), events);
            id in r.tenants ==> id in Step(r, Clean(j)).tenants && Agree(r.keys, Step(r, Clean(j)).keys, id)
  {
    hide Run, Newest, Agree, Clashes, Mixed;
    var db' := Effect(db, Cancel(id, newest));
    assert TenantSound(db.tenants[id], db.keys, id);
    var active := CancelOne(db.keys, id, newest);
    assert active in Owned(db'.keys, id);
    SparedRun(db', events, id, j);
    var r := Run(db', events);
    if id in r.tenants { SparedSurvives(r, id, j); }
  }

  /** Windows that leave a moment, now or later, in which the tenant can be cancelled and is due for deletion. */
  predicate Overlapping(s: Settings, now: int) {
    && s.scheduled.Some? && s.cancellable.Some? && s.cancellable.value.At? && s.hardDelete.Some? &&
        s.hardDelete.value.At?
    && s.hardDelete.value.time < s.cancellable.value.time && now < s.cancellable.value.time
  }

  /** The condition of the cancel and the condition of the cleanup's SELECT, with a cutoff that is not in the future. */
  ghost predicate Both(db: Db, id: Tid) {
    exists cutoff :: cutoff <= db.now && Cancellable(db, id) && Selected(db.tenants[id], cutoff)
  }

  /** Waiting long enough makes both conditions true exactly if the windows overlap. */
  lemma BothLaterIff(db: Db, id: Tid)
    requires id in db.tenants
    ensures (exists wait: nat :: Both(Step(db, Tick(wait)), id)) <==> Overlapping(db.tenants[id], db.now)
  {
    var s := db.tenants[id];
    if Overlapping(s, db.now) {
      var wait: nat := if s.hardDelete.value.time <= db.now then 0 else s.hardDelete.value.time - db.now;
      var later := Step(db, Tick(wait));
      assert Cancellable(later, id) && Selected(later.tenants[id], later.now);
      assert Both(later, id);
    }
  }

  /** Windows come from the caller of `createTenant`: after a creation both become true exactly if these overlap. */
  lemma BothAfterCreationIff(db: Db, id: Tid, kid: Kid, s: Settings)
    requires Enabled(db, Create(id, kid, s))
    ensures (exists wait: nat :: Both(Step(Step(db, Create(id, kid, s)), Tick(wait)), id)) <==> Overlapping(s, db.now)
  { BothLaterIff(Step(db, Create(id, kid, s)), id); }

  /** For example at once, with a deletion that is due and a cancel window still open. */
  lemma BothAtOnce(db: Db, id: Tid, kid: Kid, until: int)
    requires id !in db.used && kid !in db.keys && until > db.now
    ensures var s := Settings(None, Some(At(db.now)), Some(At(until)), Some(At(db.now)));
            Both(Step(db, Create(id, kid, s)), id)
  {
    var s := Settings(None, Some(At(db.now)), Some(At(until)), Some(At(db.now)));
    var r := Step(db, Create(id, kid, s));
    assert Cancellable(r, id) && Selected(r.tenants[id], r.now);
  }

  ghost predicate AllDisjoint(db: Db) { forall id :: id in db.tenants ==> !Overlapping(db.tenants[id], db.now) }

  /** No step of the run creates a tenant with overlapping windows. */
  ghost predicate DisjointCreations(db: Db, events: seq<Event>)
    decreases |events|
  {
    events == [] ||
    (var before := events[..|events| - 1]; var e := events[|events| - 1];
     DisjointCreations(db, before) &&
     (e.Create? && Enabled(Run(db, before), e) ==> !Overlapping(e.settings, Run(db, before).now)))
  }

  lemma DisjointStep(db: Db, e: Event)
    requires AllDisjoint(db) && (e.Create? && Enabled(db, e) ==> !Overlapping(e.settings, db.now))
    ensures AllDisjoint(Step(db, e))
  { hide Newest, Snapshots, Clashes, Taken, Owned, WithoutExpired, SunsetKeys, RestoreKeys, RotateKeys; }

  lemma {:induction false} DisjointRun(db: Db, events: seq<Event>)
    requires AllDisjoint(db) && DisjointCreations(db, events)
    ensures AllDisjoint(Run(db, events))
    decreases |events|
  {
    hide AllDisjoint, Step, Overlapping;
    if events != [] {
      DisjointRun(db, events[..|events| - 1]);
      DisjointStep(Run(db, events[..|events| - 1]), events[|events| - 1]);
    }
  }

  /**
   Over every run that creates no tenant with overlapping windows, the condition of the cancel and the condition of the
   cleanup's SELECT are never true together, whatever the cutoff, as long as it is not in the future.
   */
  lemma NeverBoth(db: Db, events: seq<Event>, id: Tid)
    requires AllDisjoint(db) && DisjointCreations(db, events)
    ensures !Both(Run(db, events), id)
  {
    hide Run;
    DisjointRun(db, events);
  }

  /** In particular the lawful states are disjoint: seven days end before thirty. */
  lemma LawIsDisjoint(db: Db)
    requires Inv(db)
    ensures AllDisjoint(db)
  {
    hide AllSunset, OneActive;
    forall id | id in db.tenants ensures !Overlapping(db.tenants[id], db.now) {
      assert TenantOk(db.tenants[id], db.keys, id, db.now);
    }
  }

  // A tenant scheduled again while a cleanup is under way.

  /** Every key of the tenant has sunset by the cutoff. */
  ghost predicate Overdue(db: Db, id: Tid, cutoff: int) {
    id in db.tenants ==>
      && db.tenants[id].scheduled.Some?
      && forall k :: k in db.keys && db.keys[k].tenant == id ==> Expired(db.keys[k], cutoff)
  }

  lemma OverdueStep(db: Db, e: Event, id: Tid, cutoff: int)
    requires Overdue(db, id, cutoff) && id in db.used && db.tenants.Keys <= db.used && HonestStep(db, e)
    requires !(e.Cancel? && e.id == id && Enabled(db, e))
    ensures var db' := Step(db, e); Overdue(db', id, cutoff) && id in db'.used && db'.tenants.Keys <= db'.used
  { hide Newest, Snapshots, Clashes; }

  lemma {:induction false} OverdueRun(db: Db, events: seq<Event>, id: Tid, cutoff: int)
    requires Overdue(db, id, cutoff) && id in db.used && db.tenants.Keys <= db.used
    requires Honest(db, events) && NotCancelled(db, events, id)
    ensures var r := Run(db, events); Overdue(r, id, cutoff) && id in r.used && r.tenants.Keys <= r.used
    decreases |events|
  {
    hide Overdue, Step, HonestStep;
    if events != [] {
      OverdueRun(db, events[..|events| - 1], id, cutoff);
      OverdueStep(Run(db, events[..|events| - 1]), events[|events| - 1], id, cutoff);
    }
  }

  lemma OverdueRemoved(db: Db, id: Tid, j: nat)
    requires j < |db.jobs| && db.jobs[j].ids != [] && db.jobs[j].ids[0] == id && Overdue(db, id, db.jobs[j].cutoff)
    ensures id !in Step(db, Clean(j)).tenants
  { hide Newest, Snapshots, Clashes; }

  lemma {:induction false} CutoffRun(db: Db, events: seq<Event>, j: nat)
    requires j < |db.jobs|
    ensures j < |Run(db, events).jobs| && Run(db, events).jobs[j].cutoff == db.jobs[j].cutoff
    decreases |events|
  {
    hide Step;
    if events != [] {
      CutoffRun(db, events[..|events| - 1], j);
      CutoffsStay(Run(db, events[..|events| - 1]), events[|events| - 1], j);
    }
  }

  lemma {:induction false} RunConcat(db: Db, a: seq<Event>, b: seq<Event>)
    ensures Run(db, a + b) == Run(Run(db, a), b)
    decreases |b|
  {
    hide Step;
    if b == [] {
      assert a + b == a;
    } else {
      RunConcat(db, a, b[..|b| - 1]);
      assert (a + b)[..|a + b| - 1] == a + b[..|b| - 1];
    }
  }

  /** Where a run cancels. */
  lemma {:induction false} CancelledAt(db: Db, events: seq<Event>, id: Tid) returns (n: nat)
    requires !NotCancelled(db, events, id)
    ensures n < |events| && events[n].Cancel? && events[n].id == id && Enabled(Run(db, events[..n]), events[n])
    decreases |events|
  {
    hide Enabled, Step;
    var before := events[..|events| - 1];
    if NotCancelled(db, before, id) {
      n := |before|;
    } else {
      n := CancelledAt(db, before, id);
      assert before[..n] == events[..n];
    }
  }

  lemma CancelledRunSurvives(db: Db, events: seq<Event>, id: Tid, j: nat)
    requires Sound(db) && j < |db.jobs| && !NotCancelled(db, events, id)
    ensures id in Run(db, events).tenants ==> id in Step(Run(db, events), Clean(j)).tenants
  {
    hide Sound, Run, Step, Enabled, NotCancelled, Agree;
    var n := CancelledAt(db, events, id);
    var there, rest := Run(db, events[..n]), events[n + 1..];
    RunKeepsSound(db, events[..n]);
    CutoffRun(db, events[..n], j);
    CancelledSurvives(there, id, events[n].newest, j, rest);
    assert events == events[..n] + [events[n]] + rest;
    RunConcat(db, events[..n] + [events[n]], rest);
    RunConcat(db, events[..n], [events[n]]);
    RunOne(there, events[n]);
  }

  lemma RunOne(db: Db, e: Event)
    ensures Run(db, [e]) == Step(db, e)
  { assert [e][..0] == []; }

  /**
   A tenant listed by a cleanup's snapshot can have become cancellable again by the time the cleanup gets to it, but
   only by being scheduled anew. The cleanup then removes it exactly if the deletion was not cancelled in between: the
   keys keep the sunset of the first schedule.
   */
  lemma RemovedWhileCancellable(db: Db, lag: nat, ids: seq<Tid>, events: seq<Event>, id: Tid)
    requires Inv(db) && Enabled(db, Snapshot(lag, ids)) && id in ids && db.tenants[id].scheduled.Some?
    requires Honest(Step(db, Snapshot(lag, ids)), events)
    requires var r := Run(Step(db, Snapshot(lag, ids)), events);
             && Cancellable(r, id) && |db.jobs| < |r.jobs| && r.jobs[|db.jobs|].ids != [] &&
                 r.jobs[|db.jobs|].ids[0] == id
    ensures var start := Step(db, Snapshot(lag, ids)); var r := Run(start, events);
            && r.tenants[id].scheduled != db.tenants[id].scheduled
            && (id !in Step(r, Clean(|db.jobs|)).tenants <==> NotCancelled(start, events, id))
  {
    hide Run, Step, Honest, NotCancelled;
    var start, j := Effect(db, Snapshot(lag, ids)), |db.jobs|;
    assert start == Step(db, Snapshot(lag, ids)) by { EnabledSteps(db, Snapshot(lag, ids)); }
    var r := Run(start, events);
    SnapshotOverdue(db, lag, ids, id);
    CutoffRun(start, events, j);
    if NotCancelled(start, events, id) {
      OverdueRun(start, events, id, start.jobs[j].cutoff);
      OverdueRemoved(r, id, j);
    } else {
      InvSound(start);
      CancelledRunSurvives(start, events, id, j);
    }
    RunKeepsInv(start, events);
    LaterWindow(db, r, id, start.jobs[j].cutoff);
  }

  lemma EnabledSteps(db: Db, e: Event)
    requires Enabled(db, e)
    ensures Step(db, e) == Effect(db, e)
  {}

  lemma SnapshotOverdue(db: Db, lag: nat, ids: seq<Tid>, id: Tid)
    requires Inv(db) && Enabled(db, Snapshot(lag, ids)) && id in ids && db.tenants[id].scheduled.Some?
    ensures var start := Effect(db, Snapshot(lag, ids));
            Inv(start) && Overdue(start, id, db.now - lag) && id in start.used && start.tenants.Keys <= start.used
  {
    StepKeepsInv(db, Snapshot(lag, ids));
    assert TenantOk(db.tenants[id], db.keys, id, db.now);
  }

  lemma LaterWindow(db: Db, r: Db, id: Tid, cutoff: int)
    requires Inv(db) && Inv(r) && id in db.tenants && Selected(db.tenants[id], cutoff) && db.tenants[id].scheduled.Some?
    requires Cancellable(r, id) && cutoff <= r.now
    ensures r.tenants[id].scheduled != db.tenants[id].scheduled
  {
    hide AllSunset;
    assert TenantOk(db.tenants[id], db.keys, id, db.now) && TenantOk(r.tenants[id], r.keys, id, r.now);
  }

  const LONE := Db(map[0 := Settings(None, None, None, None)], map[0 := Key(0, Active, 0, None, 1)], [], {0}, 0)

  function LoneScheduled(at: int, jobs: seq<Job>, now: int): Db {
    Db(map[0 := Settings(Some(At(0)), Some(At(at)), Some(At(at + 7 * DAY)), Some(At(at + 30 * DAY)))],
       map[0 := Key(0, Sunsetting, 0, Some(30 * DAY), 1)], jobs, {0}, now)
  }

  lemma LoneSchedule(jobs: seq<Job>)
    ensures Inv(LONE) && Step(LONE, Schedule(0)) == LoneScheduled(0, [], 0)
    ensures Step(LoneScheduled(0, jobs, 30 * DAY), Schedule(0)) == LoneScheduled(30 * DAY, jobs, 30 * DAY)
  { assert OneActive(LONE.keys, 0, 0); }

  lemma LoneListed()
    ensures Step(LoneScheduled(0, [], 30 * DAY), Snapshot(0, [0])) == LoneScheduled(0, [Job(30 * DAY, [0])], 30 * DAY)
  { assert Snapshots(LoneScheduled(0, [], 30 * DAY), 30 * DAY, [0]); }

  lemma LoneCleaned()
    ensures 0 !in Step(LoneScheduled(30 * DAY, [Job(30 * DAY, [0])], 30 * DAY), Clean(0)).tenants
  { OverdueRemoved(LoneScheduled(30 * DAY, [Job(30 * DAY, [0])], 30 * DAY), 0, 0); }

  /**
   It happens: scheduled, due after thirty days, listed, scheduled again, and deleted with seven days left to cancel.
   */
  lemma RescheduledIsRemoved()
    ensures var listed := Step(Step(Step(LONE, Schedule(0)), Tick(30 * DAY)), Snapshot(0, [0]));
            var again := Step(listed, Schedule(0));
            Inv(LONE) && Cancellable(again, 0) && 0 !in Step(again, Clean(0)).tenants
  {
    LoneSchedule([Job(30 * DAY, [0])]);
    LoneListed();
    LoneCleaned();
    assert Step(LoneScheduled(0, [], 0), Tick(30 * DAY)) == LoneScheduled(0, [], 30 * DAY);
    hide Step, Inv;
  }

  // A scheduled tenant whose key is rotated.

  /** No step of the run schedules this tenant. */
  predicate Unscheduled(events: seq<Event>, id: Tid) { Schedule(id) !in events }

  lemma ActiveStays(db: Db, e: Event, id: Tid)
    requires id in db.tenants && db.tenants.Keys <= db.used && HasActive(db.keys, id) && e != Schedule(id)
    ensures var db' := Step(db, e); id in db'.tenants && db'.tenants.Keys <= db'.used && HasActive(db'.keys, id)
  {
    hide Newest, Snapshots;
    if Enabled(db, e) {
      var db' := Effect(db, e);
      var a :| a in Owned(db.keys, id) && db.keys[a].state == Active;
      if e.Rotate? && e.id == id {
        assert e.kid in Owned(db'.keys, id);
      } else {
        assert a in Owned(db'.keys, id) && db'.keys[a].state == Active;
      }
    }
  }

  /**
   Rotating the key of a tenant scheduled for deletion gives it an active key. From then on no cleanup removes the
   tenant, and no cancel succeeds while one of its old keys is left, until it is scheduled once more.
   */
  lemma {:induction false} RotatedStays(db: Db, id: Tid, kid: Kid, events: seq<Event>)
    requires db.tenants.Keys <= db.used && Enabled(db, Rotate(id, kid)) && Unscheduled(events, id)
    ensures var r := Run(Step(db, Rotate(id, kid)), events);
            && id in r.tenants && r.tenants.Keys <= r.used && HasActive(r.keys, id)
            && forall k, newest :: k in Owned(r.keys, id) && r.keys[k].state == Sunsetting ==>
                !Enabled(r, Cancel(id, newest))
    decreases |events|
  {
    hide Newest;
    if events == [] {
      assert kid in Owned(Step(db, Rotate(id, kid)).keys, id);
    } else {
      RotatedStays(db, id, kid, events[..|events| - 1]);
      ActiveStays(Run(Step(db, Rotate(id, kid)), events[..|events| - 1]), events[|events| - 1], id);
    }
  }

  // Blocking.

  /** No step of the run is a successful cancellation of this tenant. */
  ghost predicate NotCancelled(db: Db, events: seq<Event>, id: Tid)
    decreases |events|
  {
    events == [] ||
    (var before := events[..|events| - 1]; var e := events[|events| - 1];
     NotCancelled(db, before, id) && !(e.Cancel? && e.id == id && Enabled(Run(db, before), e)))
  }

  /**
   A suspension blocks, a resume unblocks exactly if no deletion is scheduled, and scheduling keeps an earlier
   suspension's time.
   */
  lemma SuspensionBlocks(db: Db, id: Tid)
    requires id in db.tenants
    ensures Blocked(Step(db, Suspend(id)).tenants[id]) &&
            Step(db, Suspend(id)).tenants[id].suspended == Some(At(db.now))
    ensures Blocked(Step(db, Resume(id)).tenants[id]) <==> db.tenants[id].scheduled.Some?
    ensures var s := Step(db, Schedule(id)).tenants[id].suspended;
            s.Some? && (db.tenants[id].suspended.Some? && db.tenants[id].suspended.value.At? ==>
                        s == db.tenants[id].suspended)
  {}

  /**
   Scheduling opens a window of seven days to cancel and sets the deletion thirty days ahead, and so for each key of the
   tenant that has no time yet; a time that a key has stays.
   */
  lemma ScheduleWindows(db: Db, id: Tid, k: Kid)
    requires id in db.tenants && k in db.keys
    ensures var r := Step(db, Schedule(id));
            && r.tenants[id].scheduled == Some(At(db.now)) && r.tenants[id].cancellable == Some(At(db.now + 604_800))
            && r.tenants[id].hardDelete == Some(At(db.now + 2_592_000))
            && r.keys[k] == if db.keys[k].tenant != id || db.keys[k].state == Sunsetting then db.keys[k]
                            else if db.keys[k].sunset.Some? then db.keys[k].(state := Sunsetting)
                            else db.keys[k].(state := Sunsetting, sunset := Some(db.now + 2_592_000))
  {}

  /** From schedule to a successful cancel the tenant stays blocked, through any suspend and resume. */
  lemma {:induction false} BlockedUntilCancelled(db: Db, events: seq<Event>, id: Tid)
    requires id in db.tenants && db.tenants.Keys <= db.used && NotCancelled(Step(db, Schedule(id)), events, id)
    ensures var r := Run(Step(db, Schedule(id)), events);
            && id in r.used && r.tenants.Keys <= r.used
            && (id in r.tenants ==> r.tenants[id].scheduled.Some? && Blocked(r.tenants[id]))
    decreases |events|
  {
    if events != [] {
      var before := events[..|events| - 1];
      BlockedUntilCancelled(db, before, id);
      StaysScheduled(Run(Step(db, Schedule(id)), before), events[|events| - 1], id);
    }
  }

  lemma StaysScheduled(db: Db, e: Event, id: Tid)
    requires id in db.used && db.tenants.Keys <= db.used && (id in db.tenants ==> db.tenants[id].scheduled.Some?)
    requires !(e.Cancel? && e.id == id && Enabled(db, e))
    ensures var db' := Step(db, e);
            id in db'.used && db'.tenants.Keys <= db'.used && (id in db'.tenants ==> db'.tenants[id].scheduled.Some?)
  {}

  /**
   Schedule, wait less than seven days, cancel: if the active key was strictly the newest it is active again, every
   other key of the tenant is retired, every sunset is gone, the other tenants are untouched. The tenant is also no
   longer suspended, even if it was before.
   */
  lemma ScheduleThenCancel(db: Db, id: Tid, active: Kid, elapsed: nat, newest: Kid)
    requires Inv(db) && id in db.tenants && OneActive(db.keys, id, active) && elapsed < 7 * DAY
    requires forall k :: k in Owned(db.keys, id) && k != active ==> db.keys[k].activated < db.keys[active].activated
    requires Newest(Step(Step(db, Schedule(id)), Tick(elapsed)).keys, id, newest)
    ensures var waited := Step(Step(db, Schedule(id)), Tick(elapsed)); var r := Step(waited, Cancel(id, newest));
            && Enabled(waited, Cancel(id, newest)) && newest == active
            && r.keys.Keys == db.keys.Keys
            && (forall k :: k in db.keys ==>
                  r.keys[k] == if db.keys[k].tenant == id && k != active then db.keys[k].(state := Retired)
                      else db.keys[k])
            && r.tenants == db.tenants[id := Settings(None, None, None, None)]
  {
    hide Inv;
    var waited := Step(Step(db, Schedule(id)), Tick(elapsed));
    var candidates := set k | k in Owned(waited.keys, id) && waited.keys[k].state == Sunsetting;
    assert active in candidates;
    assert newest in candidates && waited.keys[active].activated <= waited.keys[newest].activated;
    assert newest in Owned(db.keys, id);
  }

  // Names after a partial cleanup.

  /** The lone tenant with an old key that sunsets and a rotated one. */
  function LoneRotated(jobs: seq<Job>, now: int): Db {
    LoneScheduled(0, jobs, now).(keys := map[0 := Key(0, Sunsetting, 0, Some(30 * DAY), 1),
                                             1 := Key(0, Active, 0, None, 2)])
  }

  lemma LoneRotate()
    ensures Step(LoneScheduled(0, [], 0), Rotate(0, 1)) == LoneRotated([], 0)
  {
    var db := LoneScheduled(0, [], 0);
    assert Owned(db.keys, 0) == {0};
    assert !Taken(db.keys, 0);
    assert Moved(db.keys, 0, Overlap, Retired) == db.keys;
    assert Moved(db.keys, 0, Active, Overlap) == db.keys;
  }

  lemma LoneRotatedListed()
    ensures Step(LoneRotated([], 30 * DAY), Snapshot(0, [0])) == LoneRotated([Job(30 * DAY, [0])], 30 * DAY)
  { assert Snapshots(LoneRotated([], 30 * DAY), 30 * DAY, [0]); }

  lemma LoneRotatedCleaned()
    ensures var r := Step(LoneRotated([Job(30 * DAY, [0])], 30 * DAY), Clean(0));
            r.keys == map[1 := Key(0, Active, 0, None, 2)] && 0 in r.tenants && Taken(r.keys, 0)
  {
    var r := Step(LoneRotated([Job(30 * DAY, [0])], 30 * DAY), Clean(0));
    assert r.keys == map[1 := Key(0, Active, 0, None, 2)];
    assert Owned(r.keys, 0) == {1};
  }

  /** It happens that a name is in use: scheduled, rotated, and the old key cleaned; from there no rotation succeeds. */
  lemma RotationCanCollide(kid: Kid)
    ensures var rotated := Step(Step(LONE, Schedule(0)), Rotate(0, 1));
            var cleaned := Step(Step(Step(rotated, Tick(30 * DAY)), Snapshot(0, [0])), Clean(0));
            0 in cleaned.tenants && !Enabled(cleaned, Rotate(0, kid))
  {
    LoneSchedule([]);
    LoneRotate();
    LoneRotatedListed();
    LoneRotatedCleaned();
    assert Step(LoneRotated([], 0), Tick(30 * DAY)) == LoneRotated([], 30 * DAY);
    hide Step, Taken;
  }
}
