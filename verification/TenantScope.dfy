/**
 The setting `cypra.tenant_id` on pooled connections. `withTenant` sets it for a transaction; the GORM plugin sets it
 again before each statement of a kind it is registered for and clears it after. The connection follows PostgreSQL: a
 local setting ends with the transaction, a session setting lasts beyond it if the transaction commits.
 */
module TenantScope {
  import opened Prelude

  /** `Row` is what GORM runs for Row, Rows and Scan; the plugin has no callback for it. */
  datatype Kind = Query | Create | Update | Delete | Raw | Row

  predicate Registered(kind: Kind) { kind != Row }

  /** One statement of a closure: which of its database calls work, and whether the closure goes on after an error. */
  datatype Statement = Statement(kind: Kind, setWorks: bool, works: bool, resetWorks: bool, goOn: bool)

  /** A call of `withTenant`; the zero tenant id is "". `admin` marks an instance-admin context. */
  datatype Call = Call(tenant: text, admin: bool, setWorks: bool, statements: seq<Statement>, fails: bool,
                       resetWorks: bool, commitWorks: bool)

  /** The value of the setting a statement ran with, if it ran. */
  datatype Seen = Skipped | Ran(tenant: text)

  /**
   What statement `i` of a closure sees: the tenant, unless it has no callback and comes after a statement that has.
   */
  predicate SeesTenant(call: Call, i: nat)
    requires i < |call.statements|
  {
    call.admin || call.statements[i].kind != Row || forall j :: 0 <= j < i ==> call.statements[j].kind == Row
  }

  predicate Isolated(call: Call, seen: seq<Seen>) {
    && |seen| <= |call.statements|
    && forall i :: 0 <= i < |seen| ==> seen[i].Ran? ==> seen[i].tenant == if SeesTenant(call, i) then call.tenant
        else ""
  }

  predicate Works(s: Statement, admin: bool) {
    s.works && (s.kind != Row && !admin ==> s.setWorks && s.resetWorks)
  }

  predicate Succeeds(call: Call) {
    && call.tenant != "" && call.setWorks && !call.fails && call.resetWorks && call.commitWorks
    && forall i :: 0 <= i < |call.statements| ==> Works(call.statements[i], call.admin)
  }

  /** A closure of queries, creations, updates, deletions and raw statements is isolated completely. */
  lemma RegisteredSeeTheirTenant(call: Call, seen: seq<Seen>)
    requires Isolated(call, seen)
    requires forall i :: 0 <= i < |call.statements| ==> call.statements[i].kind in {Query, Create, Update, Delete, Raw}
    ensures forall i :: 0 <= i < |seen| ==> seen[i] == Skipped || seen[i] == Ran(call.tenant)
  {}

  /** A Row statement that runs after one of these sees no tenant, except for an instance admin. */
  lemma RowAfterSeesNothing(call: Call, seen: seq<Seen>, j: nat, i: nat)
    requires Isolated(call, seen) && j < i < |seen| && !call.admin
    requires call.statements[i].kind == Row && call.statements[j].kind in {Query, Create, Update, Delete, Raw}
    ensures seen[i] == Skipped || seen[i] == Ran("")
  {}

  class Connection {
    var session: text
    var effective: text
    var pending: Option<text>
    var inTx: bool
    var aborted: bool

    constructor ()
      ensures Idle() && session == ""
    { session, effective, pending, inTx, aborted := "", "", None, false, false; }

    /** Outside a transaction the session value is in force. */
    predicate Idle()
      reads this
    { !inTx && effective == session }

    method Begin()
      requires Idle()
      modifies this
      ensures inTx && !aborted && pending == None && session == old(session) && effective == session
    { inTx, aborted, pending := true, false, None; }

    /** `set_config('cypra.tenant_id', value, local)`. */
    method SetConfig(value: text, local: bool, works: bool) returns (ok: bool)
      requires inTx
      modifies this
      ensures inTx && session == old(session)
      ensures ok == (works && !old(aborted)) && aborted == !ok
      ensures ok ==> effective == value && pending == if local then old(pending) else Some(value)
      ensures !ok ==> effective == old(effective) && pending == old(pending)
    {
      ok := works && !aborted;
      aborted := !ok;
      if ok {
        effective := value;
        if !local { pending := Some(value); }
      }
    }

    /** `COMMIT`; an aborted transaction is rolled back instead. */
    method Commit(works: bool) returns (ok: bool)
      requires inTx
      modifies this
      ensures Idle() && ok == (works && !old(aborted))
      ensures session == if ok && old(pending).Some? then old(pending).value else old(session)
    {
      ok := works && !aborted;
      if ok && pending.Some? { session := pending.value; }
      inTx, effective := false, session;
    }

    method Rollback()
      requires inTx
      modifies this
      ensures Idle() && session == old(session)
    { inTx, effective := false, session; }

    /** A statement between the plugin's callbacks. */
    method RunStatement(tenant: text, admin: bool, s: Statement) returns (seen: Seen, ok: bool)
      requires inTx
      modifies this
      ensures inTx && session == old(session)
      ensures ok == (!old(aborted) && Works(s, admin)) && aborted == !ok
      ensures if old(aborted) then seen == Skipped else ok ==> seen.Ran?
      ensures var called := s.kind in {Query, Create, Update, Delete, Raw} && !admin;
              && (seen.Ran? ==> seen.tenant == if called then tenant else old(effective))
              && (ok ==> effective == if called then "" else old(effective))
    {
      var called := Registered(s.kind) && !admin;
      seen, ok := Skipped, true;
      if called { ok := SetConfig(tenant, true, s.setWorks); }
      if ok && !aborted {
        seen := Ran(effective);
        if !s.works { aborted := true; }
      }
      ok := ok && !aborted;
      if called {
        var reset := SetConfig("", false, s.resetWorks);
        ok := ok && reset;
      }
    }

    /**
     `withTenant`: every statement that runs sees what `Isolated` says; a commit leaves the session value empty, and
     a rollback leaves it as it was. It commits exactly when everything works.
     */
    method WithTenant(call: Call) returns (seen: seq<Seen>, ok: bool)
      requires Idle()
      modifies this
      ensures Idle() && Isolated(call, seen)
      ensures session == if ok then "" else old(session)
      ensures ok == Succeeds(call)
      ensures ok ==> |seen| == |call.statements| && forall i :: 0 <= i < |seen| ==> seen[i].Ran?
    {
      seen := [];
      if call.tenant == "" { return [], false; }
      Begin();
      ok := SetConfig(call.tenant, true, call.setWorks);
      if !ok { Rollback(); return; }
      var failed := false;
      var i := 0;
      while i < |call.statements| && !failed
        invariant 0 <= i <= |call.statements| && |seen| == i
        invariant inTx && session == old(session)
        invariant !aborted ==> effective == if call.admin || forall j :: 0 <= j < i ==>
                  call.statements[j].kind == Row then call.tenant else ""
        invariant forall k :: 0 <= k < i ==> seen[k].Ran? ==> seen[k].tenant == if SeesTenant(call, k) then call.tenant
                  else ""
        invariant !aborted ==> !failed && forall k :: 0 <= k < i ==> seen[k].Ran?
        invariant !aborted == forall k :: 0 <= k < i ==> Works(call.statements[k], call.admin)
      {
        var one, fine := RunStatement(call.tenant, call.admin, call.statements[i]);
        seen := seen + [one];
        failed := !fine && !call.statements[i].goOn;
        i := i + 1;
      }
      var reset := SetConfig("", false, call.resetWorks);
      if failed || call.fails || !reset {
        Rollback();
        ok := false;
      } else {
        ok := Commit(call.commitWorks);
      }
    }
  }

  /** A pool: whichever connections serve whichever calls, no call finds or leaves a tenant on its connection. */
  method Serve(pool: seq<Connection>, calls: seq<(nat, Call)>) returns (seen: seq<seq<Seen>>)
    requires forall i :: 0 <= i < |calls| ==> calls[i].0 < |pool|
    requires forall c :: c in pool ==> c.Idle() && c.session == ""
    modifies set c | c in pool
    ensures forall c :: c in pool ==> c.Idle() && c.session == ""
    ensures |seen| == |calls| && forall i :: 0 <= i < |calls| ==> Isolated(calls[i].1, seen[i])
  {
    seen := [];
    for i := 0 to |calls|
      invariant |seen| == i && forall k :: 0 <= k < i ==> Isolated(calls[k].1, seen[k])
      invariant forall c :: c in pool ==> c.Idle() && c.session == ""
    {
      var one, _ := pool[calls[i].0].WithTenant(calls[i].1);
      seen := seen + [one];
    }
  }
}
