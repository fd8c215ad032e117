/** The lifecycle handlers and the cleanup job as they run undisturbed. */
module TenantHandlers {
  import opened Prelude
  import opened Tenants

  /** The tenants the job's SELECT returns. */
  function Listed(db: Db, cutoff: int): set<Tid> { set id | id in db.tenants && Selected(db.tenants[id], cutoff) }

  predicate AllExpired(db: Db, id: Tid, cutoff: int) {
    forall k :: k in Owned(db.keys, id) ==> Expired(db.keys[k], cutoff)
  }

  /**
   The database after the tenants `ids` were cleaned: their expired keys are gone, and each of them that has none left.
   */
  function Swept(db: Db, ids: set<Tid>, cutoff: int): Db {
    db.(tenants := db.tenants - (set id | id in ids && AllExpired(db, id, cutoff)),
        keys := map k | k in db.keys && !(db.keys[k].tenant in ids && Expired(db.keys[k], cutoff)) :: db.keys[k])
  }

  lemma SweptNothing(db: Db, cutoff: int)
    ensures Swept(db, {}, cutoff) == db
  {}

  lemma SweptOne(db: Db, ids: set<Tid>, id: Tid, cutoff: int)
    requires id !in ids
    ensures Cleaned(Swept(db, ids, cutoff), id, cutoff) == Swept(db, ids + {id}, cutoff)
  {
    var before, after := Swept(db, ids, cutoff), Swept(db, ids + {id}, cutoff);
    assert WithoutExpired(before.keys, id, cutoff) == after.keys;
    assert Owned(after.keys, id) == {} <==> AllExpired(db, id, cutoff) by {
      if AllExpired(db, id, cutoff) { assert forall k :: k in Owned(after.keys, id) ==> k in Owned(db.keys, id); }
      else {
        var k :| k in Owned(db.keys, id) && !Expired(db.keys[k], cutoff);
        assert k in Owned(after.keys, id);
      }
    }
    SweptTenants(db, ids, id, cutoff);
  }

  lemma SweptTenants(db: Db, ids: set<Tid>, id: Tid, cutoff: int)
    ensures Swept(db, ids + {id}, cutoff).tenants ==
            if AllExpired(db, id, cutoff) then Swept(db, ids, cutoff).tenants - {id} else Swept(db, ids, cutoff).tenants
  {
    hide AllExpired;
    var a, b := set x | x in ids && AllExpired(db, x, cutoff), set x | x in ids + {id} && AllExpired(db, x, cutoff);
    assert b == if AllExpired(db, id, cutoff) then a + {id} else a;
  }

  /** The database without some tenants and their keys. */
  function Removed(db: Db, ids: set<Tid>): Db {
    db.(tenants := db.tenants - ids, keys := map k | k in db.keys && db.keys[k].tenant !in ids :: db.keys[k])
  }

  /** Where the law holds, a sweep takes scheduled tenants with everything they have, and nothing else. */
  lemma SweptUnderTheLaw(db: Db, ids: set<Tid>, cutoff: int)
    requires Inv(db) && ids <= Listed(db, cutoff)
    ensures Swept(db, ids, cutoff) == Removed(db, set id | id in ids && db.tenants[id].scheduled.Some?)
  {
    var gone := set id | id in ids && db.tenants[id].scheduled.Some?;
    forall id | id in ids ensures AllExpired(db, id, cutoff) <==> id in gone {
      ListedExpired(db, id, cutoff);
    }
    forall k | k in db.keys && db.keys[k].tenant in ids ensures Expired(db.keys[k], cutoff) <==>
        db.keys[k].tenant in gone {
      ListedExpired(db, db.keys[k].tenant, cutoff);
      assert k in Owned(db.keys, db.keys[k].tenant);
    }
    hide Expired, Inv, AllExpired;
    assert (set id | id in ids && AllExpired(db, id, cutoff)) == gone;
  }

  lemma ListedExpired(db: Db, id: Tid, cutoff: int)
    requires Inv(db) && id in Listed(db, cutoff)
    ensures AllExpired(db, id, cutoff) <==> db.tenants[id].scheduled.Some?
    ensures db.tenants[id].scheduled.None? ==> forall k :: k in Owned(db.keys, id) ==> !Expired(db.keys[k], cutoff)
  {
    assert TenantOk(db.tenants[id], db.keys, id, db.now);
    if db.tenants[id].scheduled.None? {
      var active: Kid :| OneActive(db.keys, id, active);
      assert active in Owned(db.keys, id);
    }
  }

  /** A cancel window that the cast to a timestamp fails on. */
  predicate Unreadable(db: Db, id: Tid) {
    id in db.tenants && db.tenants[id].scheduled.Some? && db.tenants[id].cancellable == Some(Junk)
  }

  datatype Reply = Done | NotFound | NotCancellable | Failed

  class Server {
    var tenants: map<Tid, Settings>
    var keys: map<Kid, Key>
    var jobs: seq<Job>
    var used: set<Tid>
    var now: int

    constructor (db: Db)
      ensures Current() == db
    { tenants, keys, jobs, used, now := db.tenants, db.keys, db.jobs, db.used, db.now; }

    ghost function Current(): Db reads this { Db(tenants, keys, jobs, used, now) }

    /** `createTenant`. */
    method CreateTenant(id: Tid, kid: Kid, settings: Settings)
      requires id !in used && kid !in keys
      modifies this
      ensures Current() == Step(old(Current()), Create(id, kid, settings))
    {
      tenants := tenants[id := settings];
      keys := keys[kid := Key(id, Active, now, None, 1)];
      used := used + {id};
    }

    /** `applyTenantSuspension`; for an unknown tenant the UPDATE matches no row. */
    method ApplySuspension(id: Tid, suspended: bool)
      modifies this
      ensures Current() == Step(old(Current()), if suspended then Suspend(id) else Resume(id))
    {
      if id in tenants {
        tenants := tenants[id := tenants[id].(suspended := if suspended then Some(At(now)) else None)];
      }
    }

    /** `scheduleTenantDeletion`. */
    method ScheduleDeletion(id: Tid) returns (reply: Reply)
      modifies this
      ensures Current() == Step(old(Current()), Schedule(id))
      ensures reply == if id in old(tenants) then Done else NotFound
    {
      if id !in tenants { return NotFound; }
      keys := SunsetKeys(keys, id, now);
      tenants := tenants[id := ScheduledSettings(tenants[id], now)];
      reply := Done;
    }

    /** `cancelTenantDeletion`; the database fails on a window that is no timestamp, and on a second active key. */
    method CancelDeletion(id: Tid) returns (reply: Reply, newest: Kid)
      modifies this
      ensures Current() == Step(old(Current()), Cancel(id, newest)) && Newest(old(keys), id, newest)
      ensures reply == if Unreadable(old(Current()), id) then Failed
                       else if !Cancellable(old(Current()), id) then NotCancellable
                       else if Clashes(old(keys), id) then Failed
                       else Done
    {
      newest := PickNewest(id);
      if id !in tenants || tenants[id].scheduled.None? || tenants[id].cancellable.None? {
        return NotCancellable, newest;
      }
      match tenants[id].cancellable.value {
        case Junk => return Failed, newest;
        case Null => return NotCancellable, newest;
        case At(until) => if until <= now { return NotCancellable, newest; }
      }
      if Clashes(keys, id) { return Failed, newest; }
      tenants := tenants[id := Settings(None, None, None, None)];
      keys := RestoreKeys(keys, id, newest);
      reply := Done;
    }

    /** `ForceRotate`; a name in use refuses the insertion, and the transaction is rolled back. */
    method ForceRotate(id: Tid, kid: Kid) returns (reply: Reply)
      requires kid !in keys
      modifies this
      ensures Current() == Step(old(Current()), Rotate(id, kid))
      ensures reply == if id in old(tenants) && !Taken(old(keys), id) then Done else Failed
    {
      if id !in tenants || Taken(keys, id) { return Failed; }
      var number := NextSequence(keys, id);
      keys := Moved(keys, id, Overlap, Retired);
      keys := Moved(keys, id, Active, Overlap);
      keys := keys[kid := Key(id, Active, now, None, number)];
      reply := Done;
    }

    method PickNewest(id: Tid) returns (newest: Kid)
      ensures Newest(keys, id, newest)
    {
      newest := 0;
      var todo := set k | k in Owned(keys, id) && keys[k].state == Sunsetting;
      var seen: set<Kid> := {};
      while todo != {}
        invariant todo + seen == (set k | k in Owned(keys, id) && keys[k].state == Sunsetting)
        invariant seen != {} ==> newest in seen && forall k :: k in seen ==> keys[k].activated <= keys[newest].activated
        decreases todo
      {
        var k :| k in todo;
        if seen == {} || keys[k].activated > keys[newest].activated { newest := k; }
        todo, seen := todo - {k}, seen + {k};
      }
    }

    /** The job's SELECT; one value that is no timestamp makes it fail for all tenants. */
    method SelectIds(cutoff: int) returns (ok: bool, ids: seq<Tid>)
      ensures ok ==> Snapshots(Current(), cutoff, ids)
      ensures ok <==> forall id :: id in tenants ==> tenants[id].hardDelete != Some(Junk)
    {
      ids := [];
      var todo := tenants.Keys;
      while todo != {}
        invariant todo <= tenants.Keys
        invariant forall id :: id in tenants && id !in todo && tenants[id].hardDelete.Some? ==>
                  tenants[id].hardDelete.value != Junk
        invariant forall i, j :: 0 <= i < j < |ids| ==> ids[i] != ids[j]
        invariant forall id :: id in ids <==> id in tenants && id !in todo && Selected(tenants[id], cutoff)
        decreases todo
      {
        var id :| id in todo;
        if tenants[id].hardDelete == Some(Junk) { return false, []; }
        if Selected(tenants[id], cutoff) { ids := ids + [id]; }
        todo := todo - {id};
      }
      ok := true;
    }

    /**
     `RunTenantDeletionCleanup` when nothing comes in between; `commits` is the number of transactions that succeed.
     From any state: the expired keys of the tenants it cleaned are gone, and so is each of these tenants that had no
     other key. A run that completes cleans exactly the listed tenants.
     */
    method RunCleanup(cutoff: int, commits: nat) returns (reply: Reply, ghost cleaned: set<Tid>)
      modifies this
      ensures Current() == Swept(old(Current()), cleaned, cutoff) && cleaned <= Listed(old(Current()), cutoff)
      ensures reply == Done ==> cleaned == Listed(old(Current()), cutoff)
      ensures reply == Failed ==>
                || (exists id :: id in old(tenants) && old(tenants)[id].hardDelete == Some(Junk))
                || |cleaned| == commits < |Listed(old(Current()), cutoff)|
      ensures reply == Done || reply == Failed
    {
      hide Swept, Cleaned;
      ghost var start := Current();
      cleaned := {};
      SweptNothing(start, cutoff);
      var ok, ids := SelectIds(cutoff);
      if !ok { return Failed, cleaned; }
      ListedIds(start, cutoff, ids);
      for i := 0 to |ids|
        invariant i <= commits && |cleaned| == i
        invariant Current() == Swept(start, cleaned, cutoff)
        invariant cleaned == Ids(ids[..i])
      {
        if i == commits { return Failed, cleaned; }
        var id := ids[i];
        ghost var before := Current();
        assert id !in cleaned;
        SweptOne(start, cleaned, id, cutoff);
        keys := WithoutExpired(keys, id, cutoff);
        if Owned(keys, id) == {} { tenants := tenants - {id}; }
        assert Current() == Cleaned(before, id, cutoff) by { CleanedIs(before, Current(), id, cutoff); }
        assert ids[..i + 1] == ids[..i] + [id];
        cleaned := cleaned + {id};
      }
      assert ids[..|ids|] == ids;
      reply := Done;
    }
  }

  lemma CleanedIs(db: Db, db': Db, id: Tid, cutoff: int)
    requires db' == db.(keys := db'.keys, tenants := db'.tenants) && db'.keys == WithoutExpired(db.keys, id, cutoff)
    requires db'.tenants == if Owned(db'.keys, id) == {} then db.tenants - {id} else db.tenants
    ensures db' == Cleaned(db, id, cutoff)
  {}

  function Ids(ids: seq<Tid>): set<Tid> { set id | id in ids }

  lemma ListedIds(db: Db, cutoff: int, ids: seq<Tid>)
    requires Snapshots(db, cutoff, ids)
    ensures Ids(ids) == Listed(db, cutoff) && |ids| == |Listed(db, cutoff)|
  {
    DistinctCount(ids);
    assert Ids(ids) == Listed(db, cutoff);
  }

  lemma {:induction false} DistinctCount(ids: seq<Tid>)
    requires forall i, j :: 0 <= i < j < |ids| ==> ids[i] != ids[j]
    ensures |Ids(ids)| == |ids|
  {
    if ids != [] {
      var n := |ids| - 1;
      DistinctCount(ids[..n]);
      assert Ids(ids) == Ids(ids[..n]) + {ids[n]};
    }
  }
}
