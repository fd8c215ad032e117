/**
 The e-mail outbox and its workers. Each worker opens a transaction, claims due rows that nobody else holds
 (`FOR UPDATE SKIP LOCKED`), sends them, and commits or rolls back. Sending is not undone by a rollback. The steps of
 all workers, the clock and the writers of new rows interleave freely. Time is in nanoseconds.
 */
module Outbox {
  import opened Prelude

  type Id = nat

  const MINUTE := 60_000_000_000

  datatype Row = Row(attempts: nat, next: int, sent: Option<int>, failed: Option<int>)

  /** What a worker meets when it processes one row. */
  datatype Resolution = ResolveError | NoProvider | Provider
  datatype Attempt = Attempt(ownSender: bool, hasTenant: bool, resolution: Resolution, renders: bool, sends: bool)
  datatype Outcome = Retry | Fail | Sent

  /** A message goes out only with a sender and a rendered template; a row without one of these fails for good. */
  function OutcomeOf(a: Attempt): (o: Outcome)
    ensures var sender := a.ownSender || (a.hasTenant && a.resolution == Provider);
            var unresolved := !a.ownSender && a.hasTenant && a.resolution == ResolveError;
            && (o == Sent <==> sender && a.renders && a.sends)
            && (o == Retry <==> unresolved || (sender && a.renders && !a.sends))
  {
    if !a.ownSender && a.hasTenant && a.resolution.ResolveError? then Retry
    else if !a.ownSender && (!a.hasTenant || a.resolution.NoProvider?) then Fail
    else if !a.renders then Fail
    else if a.sends then Sent
    else Retry
  }

  /** A claimed row as the SELECT returned it, and one processing of a row. */
  datatype Claimed = Claimed(id: Id, attempts: nat)
  datatype Try = Try(id: Id, outcome: Outcome, time: int, seen: nat)

  datatype Status = Open | Committed | RolledBack

  /** `staged` holds the transaction's own version of the rows it updated; a failed statement aborts it. */
  datatype Tx = Tx(began: int, batch: seq<Claimed>, tries: seq<Try>, staged: map<Id, Row>, aborted: bool,
                   status: Status)

  datatype State = State(rows: map<Id, Row>, txs: seq<Tx>, deliveries: multiset<Id>, now: int)

  datatype Event =
    | Tick(elapsed: nat)
    | Insert(id: Id, next: int)
    | Claim(lag: nat, limit: int, ids: seq<Id>)
    | Process(worker: nat, attempt: Attempt, executes: bool)
    | Commit(worker: nat)
    | Rollback(worker: nat)

  function Pow2(n: nat): nat { if n == 0 then 1 else 2 * Pow2(n - 1) }

  /** `backoffDelay`. */
  function BackoffDelay(attempts: int): int {
    var clamped := if attempts < 1 then 1 else if attempts > 6 then 6 else attempts;
    Pow2(clamped - 1) * MINUTE
  }

  function BackoffSum(k: nat): int { if k == 0 then 0 else BackoffSum(k - 1) + BackoffDelay(k) }

  function BatchLimit(batchSize: int): nat { if batchSize <= 0 then 10 else batchSize }

  predicate Due(row: Row, now: int) { row.sent.None? && row.failed.None? && row.next <= now }

  predicate Holds(t: Tx, id: Id) { exists k :: 0 <= k < |t.batch| && t.batch[k].id == id }

  predicate Locked(txs: seq<Tx>, id: Id) { exists j :: 0 <= j < |txs| && txs[j].status == Open && Holds(txs[j], id) }

  predicate Claimable(s: State, began: int, id: Id) { id in s.rows && Due(s.rows[id], began) && !Locked(s.txs, id) }

  /** The rows `SELECT … ORDER BY next_attempt_at LIMIT n FOR UPDATE SKIP LOCKED` may return. */
  ghost predicate Selects(s: State, began: int, limit: nat, ids: seq<Id>) {
    && |ids| <= limit
    && (forall i :: 0 <= i < |ids| ==> Claimable(s, began, ids[i]))
    && (forall i, j :: 0 <= i < j < |ids| ==> ids[i] != ids[j] && s.rows[ids[i]].next <= s.rows[ids[j]].next)
    && (forall id :: Claimable(s, began, id) && id !in ids ==>
          |ids| == limit && forall i :: 0 <= i < |ids| ==> s.rows[ids[i]].next <= s.rows[id].next)
  }

  /** The UPDATE that ends the processing of a row. */
  function Updated(row: Row, try: Try, began: int): Row {
    match try.outcome
    case Retry => row.(attempts := row.attempts + 1, next := try.time + BackoffDelay(try.seen + 1))
    case Fail => row.(attempts := row.attempts + 1, failed := Some(began))
    case Sent => row.(sent := Some(began))
  }

  predicate OpenAt(s: State, worker: nat) { worker < |s.txs| && s.txs[worker].status == Open }

  ghost predicate Enabled(s: State, e: Event) {
    match e
    case Tick(_) => true
    case Insert(id, _) => id !in s.rows
    case Claim(lag, limit, ids) => Selects(s, s.now - lag, BatchLimit(limit), ids)
    case Process(w, _, _) =>
      OpenAt(s, w) && |s.txs[w].tries| < |s.txs[w].batch| && s.txs[w].batch[|s.txs[w].tries|].id in s.rows
    case Commit(w) => OpenAt(s, w) && |s.txs[w].tries| == |s.txs[w].batch|
    case Rollback(w) => OpenAt(s, w)
  }

  function ClaimedRows(rows: map<Id, Row>, ids: seq<Id>): seq<Claimed>
    requires forall i :: 0 <= i < |ids| ==> ids[i] in rows
  { seq(|ids|, i requires 0 <= i < |ids| => Claimed(ids[i], rows[ids[i]].attempts)) }

  /** The transaction after its next row was processed. A statement in an aborted transaction changes nothing. */
  function Processed(t: Tx, row: Row, outcome: Outcome, executes: bool, now: int): Tx
    requires |t.tries| < |t.batch|
  {
    var c := t.batch[|t.tries|];
    var try := Try(c.id, outcome, now, c.attempts);
    var aborted := t.aborted || !executes;
    t.(tries := t.tries + [try], aborted := aborted,
       staged := if aborted then t.staged else t.staged[c.id := Updated(row, try, t.began)])
  }

  ghost function Effect(s: State, e: Event): State
    requires Enabled(s, e)
  {
    match e
    case Tick(elapsed) => s.(now := s.now + elapsed)
    case Insert(id, next) => s.(rows := s.rows[id := Row(0, next, None, None)])
    case Claim(lag, limit, ids) =>
      s.(txs := s.txs + [Tx(s.now - lag, ClaimedRows(s.rows, ids), [], map[], false, Open)])
    case Process(w, attempt, executes) =>
      var id := s.txs[w].batch[|s.txs[w].tries|].id;
      s.(txs := s.txs[w := Processed(s.txs[w], s.rows[id], OutcomeOf(attempt), executes, s.now)],
         deliveries := if OutcomeOf(attempt) == Sent then s.deliveries + multiset{id} else s.deliveries)
    case Commit(w) =>
      if s.txs[w].aborted then s.(txs := s.txs[w := s.txs[w].(status := RolledBack)])
      else s.(rows := s.rows + s.txs[w].staged, txs := s.txs[w := s.txs[w].(status := Committed)])
    case Rollback(w) => s.(txs := s.txs[w := s.txs[w].(status := RolledBack)])
  }

  /** A step that is not possible is one that does not happen. */
  ghost function Step(s: State, e: Event): State { if Enabled(s, e) then Effect(s, e) else s }

  ghost function Run(s: State, events: seq<Event>): State
    decreases |events|
  { if events == [] then s else Step(Run(s, events[..|events| - 1]), events[|events| - 1]) }

  ghost predicate Initial(s: State) { s.rows == map[] && s.txs == [] && s.deliveries == multiset{} }

  // What is counted.

  predicate Tried(t: Tx, id: Id, sent: bool) {
    exists k :: 0 <= k < |t.tries| && t.tries[k].id == id && (t.tries[k].outcome == Sent) == sent
  }

  /** The number of transactions in one of `statuses` that processed the row, with or without delivering it. */
  function Count(txs: seq<Tx>, statuses: set<Status>, id: Id, sent: bool): nat {
    if txs == [] then 0
    else Count(txs[..|txs| - 1], statuses, id, sent) + Counted(txs[|txs| - 1], statuses, id, sent)
  }

  function Counted(t: Tx, statuses: set<Status>, id: Id, sent: bool): nat {
    if t.status in statuses && Tried(t, id, sent) then 1 else 0
  }

  lemma {:induction false} CountUpdate(txs: seq<Tx>, w: nat, t: Tx, statuses: set<Status>, id: Id, sent: bool)
    requires w < |txs|
    ensures Count(txs[w := t], statuses, id, sent) ==
            Count(txs, statuses, id, sent) - Counted(txs[w], statuses, id, sent) + Counted(t, statuses, id, sent)
  {
    var n := |txs| - 1;
    if w == n {
      assert txs[w := t][..n] == txs[..n];
    } else {
      assert txs[w := t][..n] == txs[..n][w := t];
      CountUpdate(txs[..n], w, t, statuses, id, sent);
    }
  }

  lemma CountAppend(txs: seq<Tx>, t: Tx, statuses: set<Status>, id: Id, sent: bool)
    ensures Count(txs + [t], statuses, id, sent) == Count(txs, statuses, id, sent) + Counted(t, statuses, id, sent)
  {}

  lemma {:induction false} CountSplit(txs: seq<Tx>, id: Id, sent: bool)
    ensures Count(txs, {Open, Committed, RolledBack}, id, sent) ==
            Count(txs, {Committed}, id, sent) + Count(txs, {Open, RolledBack}, id, sent)
  { if txs != [] { CountSplit(txs[..|txs| - 1], id, sent); } }

  // The invariant, part by part.

  /** What holds of a transaction whatever its status. */
  ghost predicate Recorded(t: Tx, rows: map<Id, Row>, now: int) {
    && t.began <= now && |t.tries| <= |t.batch|
    && (t.status == Committed ==> !t.aborted && |t.tries| == |t.batch|)
    && (forall i, j :: 0 <= i < j < |t.batch| ==> t.batch[i].id != t.batch[j].id)
    && (forall i :: 0 <= i < |t.batch| ==> t.batch[i].id in rows && t.batch[i].attempts <= rows[t.batch[i].id].attempts)
    && (forall i :: 0 <= i < |t.tries| ==>
          t.tries[i].id == t.batch[i].id && t.tries[i].seen == t.batch[i].attempts && t.began <= t.tries[i].time <= now)
  }

  /** The rows an open transaction holds are as it read them: due and undecided. */
  ghost predicate Undisturbed(t: Tx, rows: map<Id, Row>) {
    forall i :: 0 <= i < |t.batch| ==>
      var c := t.batch[i];
      c.id in rows && Due(rows[c.id], t.began) && rows[c.id].attempts == c.attempts
  }

  ghost predicate StagedMatches(t: Tx, rows: map<Id, Row>) {
    && (forall id :: id in t.staged ==> exists i :: 0 <= i < |t.tries| && t.tries[i].id == id)
    && (forall i :: 0 <= i < |t.tries| ==>
          var id := t.tries[i].id;
          id in rows && id in t.staged && t.staged[id] == Updated(rows[id], t.tries[i], t.began))
  }

  /** What a committed processing left on its row. */
  ghost predicate Effected(t: Tx, rows: map<Id, Row>) {
    forall i :: 0 <= i < |t.tries| ==>
      var try := t.tries[i];
      && try.id in rows
      && (try.outcome == Sent ==> rows[try.id].sent.Some?)
      && (try.outcome == Fail ==> rows[try.id].failed.Some?)
      && (try.outcome != Sent ==> try.seen < rows[try.id].attempts)
      && (try.outcome == Retry && rows[try.id].failed.None? ==>
            rows[try.id].next >= try.time + BackoffSum(rows[try.id].attempts) - BackoffSum(try.seen))
  }

  ghost predicate Journal(t: Tx, rows: map<Id, Row>, now: int) {
    && Recorded(t, rows, now)
    && (t.status == Open ==> Undisturbed(t, rows) && (!t.aborted ==> StagedMatches(t, rows)))
    && (t.status == Committed ==> Effected(t, rows))
  }

  ghost predicate Journals(s: State) { forall j :: 0 <= j < |s.txs| ==> Journal(s.txs[j], s.rows, s.now) }

  predicate Apart(t: Tx, u: Tx) {
    forall a, b :: 0 <= a < |t.batch| && 0 <= b < |u.batch| ==> t.batch[a].id != u.batch[b].id
  }

  /** No row is held by two open transactions. */
  ghost predicate Exclusive(s: State) {
    forall i, j :: 0 <= i < j < |s.txs| && s.txs[i].status == Open && s.txs[j].status == Open ==>
        Apart(s.txs[i], s.txs[j])
  }

  ghost predicate Decided(s: State) {
    forall id :: id in s.rows ==> !(s.rows[id].sent.Some? && s.rows[id].failed.Some?)
  }

  function AttemptsOf(rows: map<Id, Row>, id: Id): nat { if id in rows then rows[id].attempts else 0 }
  function SentOf(rows: map<Id, Row>, id: Id): nat { if id in rows && rows[id].sent.Some? then 1 else 0 }

  ghost predicate Tallied(s: State, id: Id) {
    && AttemptsOf(s.rows, id) == Count(s.txs, {Committed}, id, false)
    && SentOf(s.rows, id) == Count(s.txs, {Committed}, id, true)
    && s.deliveries[id] == Count(s.txs, {Open, Committed, RolledBack}, id, true)
  }

  /** Two tries of a row with a committed retry as the first of them are as far apart as the backoff asks. */
  predicate Apace(first: Try, later: Try) {
    first.id == later.id && first.outcome == Retry && first.seen < later.seen ==>
      later.time >= first.time + BackoffSum(later.seen) - BackoffSum(first.seen)
  }

  predicate PacedAfter(t: Tx, u: Tx) {
    forall a, b :: 0 <= a < |t.tries| && 0 <= b < |u.tries| ==> Apace(t.tries[a], u.tries[b])
  }

  ghost predicate Spaced(s: State) {
    forall i, j :: 0 <= i < |s.txs| && 0 <= j < |s.txs| && s.txs[i].status == Committed ==>
        PacedAfter(s.txs[i], s.txs[j])
  }

  /** A committed processing that left the row unsent after `seen` earlier ones. */
  predicate MissAt(t: Tx, id: Id, seen: nat) {
    && t.status == Committed
    && exists a :: 0 <= a < |t.tries| && t.tries[a].id == id && t.tries[a].seen == seen && t.tries[a].outcome != Sent
  }

  predicate RetryAt(t: Tx, id: Id, seen: nat) {
    && t.status == Committed
    && exists a :: 0 <= a < |t.tries| && t.tries[a].id == id && t.tries[a].seen == seen && t.tries[a].outcome == Retry
  }

  predicate Missed(txs: seq<Tx>, id: Id, seen: nat) { exists i :: 0 <= i < |txs| && MissAt(txs[i], id, seen) }
  predicate Retried(txs: seq<Tx>, id: Id, seen: nat) { exists i :: 0 <= i < |txs| && RetryAt(txs[i], id, seen) }

  /** Each of a row's attempts is there. */
  ghost predicate Covered(s: State) {
    forall id, k: nat :: id in s.rows && k < s.rows[id].attempts ==> Missed(s.txs, id, k)
  }

  /** Each try has all the committed retries it counts before it. */
  ghost predicate Preceded(txs: seq<Tx>, try: Try) {
    forall k: nat :: k < try.seen ==> Retried(txs, try.id, k)
  }

  ghost predicate AllPreceded(s: State) {
    forall j, b :: 0 <= j < |s.txs| && 0 <= b < |s.txs[j].tries| ==> Preceded(s.txs, s.txs[j].tries[b])
  }

  ghost predicate Inv(s: State) {
    && Journals(s) && Exclusive(s) && Decided(s) && (forall id: Id :: Tallied(s, id)) && Spaced(s)
    && Covered(s) && AllPreceded(s)
  }

  // How a row changes.

  /** A row only moves forward, and keeps its distance to the backoff schedule. */
  predicate Advances(before: Row, after: Row) {
    && before.attempts <= after.attempts
    && (before.sent.Some? ==> after.sent.Some?) && (before.failed.Some? ==> after.failed.Some?)
    && (after.failed.None? ==> after.next - BackoffSum(after.attempts) >= before.next - BackoffSum(before.attempts))
  }

  ghost predicate AllAdvance(rows: map<Id, Row>, rows': map<Id, Row>) {
    forall id :: id in rows ==> id in rows' && Advances(rows[id], rows'[id])
  }

  lemma UpdatedAdvances(row: Row, try: Try, began: int)
    requires Due(row, began) && began <= try.time && try.seen == row.attempts
    ensures Advances(row, Updated(row, try, began))
  {}

  lemma Unmoved(row: Row)
    ensures Advances(row, row)
  {}

  lemma CommitAdvances(t: Tx, rows: map<Id, Row>, now: int)
    requires Recorded(t, rows, now) && Undisturbed(t, rows) && StagedMatches(t, rows)
    ensures AllAdvance(rows, rows + t.staged)
  {
    hide Updated, Advances;
    forall id | id in rows ensures Advances(rows[id], (rows + t.staged)[id]) {
      if id in t.staged {
        var i :| 0 <= i < |t.tries| && t.tries[i].id == id;
        assert t.batch[i].id == id;
        UpdatedAdvances(rows[id], t.tries[i], t.began);
      } else {
        assert Advances(rows[id], rows[id]) by { Unmoved(rows[id]); }
      }
    }
  }

  lemma RecordedAdvances(t: Tx, rows: map<Id, Row>, rows': map<Id, Row>, now: int, now': int)
    requires Recorded(t, rows, now) && AllAdvance(rows, rows') && now <= now'
    ensures Recorded(t, rows', now')
  {}

  /** The journal of a transaction whose rows nobody else touched. */
  lemma JournalKept(t: Tx, rows: map<Id, Row>, rows': map<Id, Row>, now: int, now': int)
    requires Journal(t, rows, now) && AllAdvance(rows, rows') && now <= now'
    requires t.status == Open ==>
               forall i :: 0 <= i < |t.batch| ==> t.batch[i].id in rows' && rows'[t.batch[i].id] == rows[t.batch[i].id]
    ensures Journal(t, rows', now')
  {}

  lemma CommittedJournal(t: Tx, rows: map<Id, Row>, now: int)
    requires Journal(t, rows, now) && t.status == Open && !t.aborted && |t.tries| == |t.batch|
    ensures Journal(t.(status := Committed), rows + t.staged, now)
  {
    hide Advances;
    CommitAdvances(t, rows, now);
    RecordedAdvances(t, rows, rows + t.staged, now, now);
    CommittedEffected(t, rows, now);
  }

  lemma CommittedEffected(t: Tx, rows: map<Id, Row>, now: int)
    requires Recorded(t, rows, now) && Undisturbed(t, rows) && StagedMatches(t, rows)
    ensures Effected(t, rows + t.staged) && Effected(t.(status := Committed), rows + t.staged)
  {
    hide BackoffDelay;
    var rows' := rows + t.staged;
    forall i | 0 <= i < |t.tries|
      ensures rows'[t.tries[i].id] == Updated(rows[t.tries[i].id], t.tries[i], t.began)
      ensures rows[t.tries[i].id].attempts == t.tries[i].seen
    { assert t.batch[i].id == t.tries[i].id; }
  }

  lemma ProcessedJournal(t: Tx, rows: map<Id, Row>, outcome: Outcome, executes: bool, now: int)
    requires Journal(t, rows, now) && t.status == Open && |t.tries| < |t.batch|
    ensures Journal(Processed(t, rows[t.batch[|t.tries|].id], outcome, executes, now), rows, now)
  {}

  lemma ClaimedJournal(s: State, lag: nat, limit: nat, ids: seq<Id>)
    requires Selects(s, s.now - lag, limit, ids)
    ensures Journal(Tx(s.now - lag, ClaimedRows(s.rows, ids), [], map[], false, Open), s.rows, s.now)
  {}

  lemma SameRows(rows: map<Id, Row>)
    ensures AllAdvance(rows, rows)
  {}

  lemma JournalsStep(s: State, e: Event)
    requires Inv(s) && Enabled(s, e)
    ensures Journals(Effect(s, e))
  {
    hide Journal, Updated, Processed, AllAdvance, Due, Selects, Tallied, Spaced;
    var s' := Effect(s, e);
    SameRows(s.rows);
    forall j | 0 <= j < |s'.txs| ensures Journal(s'.txs[j], s'.rows, s'.now) {
      if j < |s.txs| { assert Journal(s.txs[j], s.rows, s.now); }
      match e
      case Tick(_) =>
        HeldRowsExist(s.txs[j], s.rows, s.now);
        JournalKept(s.txs[j], s.rows, s.rows, s.now, s'.now);
      case Insert(id, next) =>
        InsertAdvances(s.rows, id, s'.rows[id]);
        HeldRowsExist(s.txs[j], s.rows, s.now);
        JournalKept(s.txs[j], s.rows, s'.rows, s.now, s.now);
      case Claim(lag, limit, ids) => if j == |s.txs| { ClaimedJournal(s, lag, BatchLimit(limit), ids); }
      case Process(w, attempt, executes) =>
        if j == w { ProcessedJournal(s.txs[w], s.rows, OutcomeOf(attempt), executes, s.now); }
      case Commit(w) => CommitJournals(s, w, j);
      case Rollback(w) => if j == w { RolledBackJournal(s.txs[w], s.rows, s.now); }
    }
  }

  lemma InsertAdvances(rows: map<Id, Row>, id: Id, row: Row)
    requires id !in rows
    ensures AllAdvance(rows, rows[id := row])
  {}

  lemma HeldRowsExist(t: Tx, rows: map<Id, Row>, now: int)
    requires Journal(t, rows, now)
    ensures forall i :: 0 <= i < |t.batch| ==> t.batch[i].id in rows
  {}

  lemma RolledBackJournal(t: Tx, rows: map<Id, Row>, now: int)
    requires Journal(t, rows, now) && t.status == Open
    ensures Journal(t.(status := RolledBack), rows, now)
  {}

  lemma StagedHeld(t: Tx, rows: map<Id, Row>, now: int)
    requires Journal(t, rows, now) && t.status == Open && !t.aborted
    ensures forall id :: id in t.staged ==> Holds(t, id)
  {}

  lemma OpenParts(t: Tx, rows: map<Id, Row>, now: int)
    requires Journal(t, rows, now) && t.status == Open && !t.aborted
    ensures Recorded(t, rows, now) && Undisturbed(t, rows) && StagedMatches(t, rows)
  {}

  lemma CommitJournals(s: State, w: nat, j: nat)
    requires Inv(s) && Enabled(s, Commit(w)) && j < |s.txs|
    ensures Journal(Effect(s, Commit(w)).txs[j], Effect(s, Commit(w)).rows, s.now)
  {
    hide Journal, AllAdvance, Tallied, Spaced, Undisturbed, StagedMatches, Recorded;
    var t := s.txs[w];
    assert Journal(t, s.rows, s.now) && Journal(s.txs[j], s.rows, s.now);
    if t.aborted {
      if j == w { RolledBackJournal(t, s.rows, s.now); }
    } else if j == w {
      CommittedJournal(t, s.rows, s.now);
    } else {
      OpenParts(t, s.rows, s.now);
      CommitAdvances(t, s.rows, s.now);
      StagedHeld(t, s.rows, s.now);
      HeldRowsExist(s.txs[j], s.rows, s.now);
      if s.txs[j].status == Open { assert if j < w then Apart(s.txs[j], t) else Apart(t, s.txs[j]); }
      JournalKept(s.txs[j], s.rows, s.rows + t.staged, s.now, s.now);
    }
  }

  // Exclusive claims and decisions.

  lemma ExclusiveStep(s: State, e: Event)
    requires Inv(s) && Enabled(s, e)
    ensures Exclusive(Effect(s, e))
  {}

  lemma DecidedStep(s: State, e: Event)
    requires Inv(s) && Enabled(s, e)
    ensures Decided(Effect(s, e))
  {}

  // Counting.

  lemma TallyWhole(s: State, w: nat, t: Tx, id: Id)
    requires w < |s.txs| && s.txs[w].status == Open
    requires t.tries == s.txs[w].tries && t.status != Committed
    ensures Count(s.txs[w := t], {Committed}, id, false) == Count(s.txs, {Committed}, id, false)
    ensures Count(s.txs[w := t], {Committed}, id, true) == Count(s.txs, {Committed}, id, true)
    ensures Count(s.txs[w := t], {Open, Committed, RolledBack}, id, true)
            == Count(s.txs, {Open, Committed, RolledBack}, id, true)
  {
    CountUpdate(s.txs, w, t, {Committed}, id, false);
    CountUpdate(s.txs, w, t, {Committed}, id, true);
    CountUpdate(s.txs, w, t, {Open, Committed, RolledBack}, id, true);
  }

  lemma TallyProcess(s: State, e: Event, id: Id)
    requires Inv(s) && Enabled(s, e) && e.Process?
    ensures Tallied(Effect(s, e), id)
  {
    hide Count, Exclusive, Spaced, Decided, Updated, StagedMatches, Undisturbed;
    var w, s' := e.worker, Effect(s, e);
    var t, t' := s.txs[w], s'.txs[w];
    var n := |t.tries|;
    assert Journal(t, s.rows, s.now) && Tallied(s, id);
    CountUpdate(s.txs, w, t', {Committed}, id, false);
    CountUpdate(s.txs, w, t', {Committed}, id, true);
    CountUpdate(s.txs, w, t', {Open, Committed, RolledBack}, id, true);
    TriedMore(t, t', id);
    assert forall k :: 0 <= k < n ==> t.tries[k].id == t.batch[k].id != t.batch[n].id;
  }

  lemma TriedMore(t: Tx, t': Tx, id: Id)
    requires |t'.tries| == |t.tries| + 1 && t'.tries[..|t.tries|] == t.tries
    ensures var last := t'.tries[|t.tries|];
            Tried(t', id, true) <==> Tried(t, id, true) || (last.id == id && last.outcome == Sent)
  {}

  /** A complete transaction changes a row exactly by what it tried on it. */
  lemma CommitChanges(t: Tx, rows: map<Id, Row>, now: int, id: Id)
    requires Journal(t, rows, now) && t.status == Open && !t.aborted
    ensures AttemptsOf(rows + t.staged, id) == AttemptsOf(rows, id) + if Tried(t, id, false) then 1 else 0
    ensures SentOf(rows + t.staged, id) == SentOf(rows, id) + if Tried(t, id, true) then 1 else 0
  {}

  lemma TallyCommit(s: State, w: nat, id: Id)
    requires Inv(s) && Enabled(s, Commit(w)) && !s.txs[w].aborted
    ensures Tallied(Effect(s, Commit(w)), id)
  {
    hide Count, Journal, Exclusive, Spaced, Decided, Tried, AttemptsOf, SentOf;
    var t := s.txs[w];
    var t' := t.(status := Committed);
    assert Journal(t, s.rows, s.now) && Tallied(s, id);
    CommitChanges(t, s.rows, s.now, id);
    SameTries(t, t', id);
    CountUpdate(s.txs, w, t', {Committed}, id, false);
    CountUpdate(s.txs, w, t', {Committed}, id, true);
    CountUpdate(s.txs, w, t', {Open, Committed, RolledBack}, id, true);
  }

  lemma SameTries(t: Tx, t': Tx, id: Id)
    requires t.tries == t'.tries
    ensures Tried(t, id, true) == Tried(t', id, true) && Tried(t, id, false) == Tried(t', id, false)
  {}

  lemma TallyStep(s: State, e: Event, id: Id)
    requires Inv(s) && Enabled(s, e)
    ensures Tallied(Effect(s, e), id)
  {
    hide Count, Journals, Exclusive, Spaced, Decided, Selects;
    assert Tallied(s, id);
    match e
    case Tick(_) =>
    case Insert(_, _) =>
    case Claim(_, _, ids) =>
      var t := Effect(s, e).txs[|s.txs|];
      CountAppend(s.txs, t, {Committed}, id, false);
      CountAppend(s.txs, t, {Committed}, id, true);
      CountAppend(s.txs, t, {Open, Committed, RolledBack}, id, true);
    case Process(_, _, _) => TallyProcess(s, e, id);
    case Commit(w) => if s.txs[w].aborted { TallyWhole(s, w, s.txs[w].(status := RolledBack), id); }
        else { TallyCommit(s, w, id); }
    case Rollback(w) => TallyWhole(s, w, s.txs[w].(status := RolledBack), id);
  }

  // Spacing.

  lemma SpacedProcess(s: State, e: Event)
    requires Inv(s) && Enabled(s, e) && e.Process?
    ensures Spaced(Effect(s, e))
  {
    hide BackoffSum, Updated, StagedMatches, Tallied, Exclusive, Decided;
    var w, s' := e.worker, Effect(s, e);
    var t := s.txs[w];
    var n := |t.tries|;
    forall i, j | 0 <= i < |s'.txs| && 0 <= j < |s'.txs| && s'.txs[i].status == Committed
        ensures PacedAfter(s'.txs[i], s'.txs[j]) {
      assert i != w && PacedAfter(s.txs[i], s.txs[j]);
      if j == w {
        assert Journal(t, s.rows, s.now) && Journal(s.txs[i], s.rows, s.now);
        var later := s'.txs[w].tries[n];
        forall a | 0 <= a < |s.txs[i].tries| ensures Apace(s.txs[i].tries[a], later) {
          assert later.id == t.batch[n].id && Due(s.rows[later.id], t.began);
        }
      }
    }
  }

  lemma SpacedCommit(s: State, w: nat)
    requires Inv(s) && Enabled(s, Commit(w)) && !s.txs[w].aborted
    ensures Spaced(Effect(s, Commit(w)))
  {
    hide BackoffSum, Updated, StagedMatches, Tallied, Exclusive, Decided;
    var s' := Effect(s, Commit(w));
    forall i, j | 0 <= i < |s'.txs| && 0 <= j < |s'.txs| && s'.txs[i].status == Committed
        ensures PacedAfter(s'.txs[i], s'.txs[j]) {
      if i != w {
        assert PacedAfter(s.txs[i], s.txs[j]);
      } else {
        assert Journal(s.txs[w], s.rows, s.now) && Journal(s.txs[j], s.rows, s.now);
        forall a, b | 0 <= a < |s.txs[w].tries| && 0 <= b < |s.txs[j].tries|
          ensures Apace(s.txs[w].tries[a], s.txs[j].tries[b])
        {
          assert s.txs[w].tries[a].seen == s.txs[w].batch[a].attempts;
          assert s.txs[j].tries[b].seen == s.txs[j].batch[b].attempts;
        }
      }
    }
  }

  lemma SpacedStep(s: State, e: Event)
    requires Inv(s) && Enabled(s, e)
    ensures Spaced(Effect(s, e))
  {
    hide Journals, Tallied, Exclusive, Decided, Updated, Selects, Apace;
    if e.Process? {
      SpacedProcess(s, e);
    } else if e.Commit? && !s.txs[e.worker].aborted {
      SpacedCommit(s, e.worker);
    } else {
      var s' := Effect(s, e);
      forall i, j | 0 <= i < |s'.txs| && 0 <= j < |s'.txs| && s'.txs[i].status == Committed
        ensures PacedAfter(s'.txs[i], s'.txs[j])
      { if j < |s.txs| { assert PacedAfter(s.txs[i], s.txs[j]); } }
    }
  }

  // What came before a try.

  /** Committed transactions stay as they are. */
  ghost predicate Grows(txs: seq<Tx>, txs': seq<Tx>) {
    |txs| <= |txs'| && forall i :: 0 <= i < |txs| && txs[i].status == Committed ==> txs'[i] == txs[i]
  }

  lemma StepGrows(s: State, e: Event)
    requires Enabled(s, e)
    ensures Grows(s.txs, Effect(s, e).txs)
  { hide Selects, Updated; }

  lemma PrecededGrows(txs: seq<Tx>, txs': seq<Tx>, try: Try)
    requires Grows(txs, txs') && Preceded(txs, try)
    ensures Preceded(txs', try)
  {
    forall k: nat | k < try.seen ensures Retried(txs', try.id, k) {
      assert Retried(txs, try.id, k);
      var i :| 0 <= i < |txs| && RetryAt(txs[i], try.id, k);
      assert RetryAt(txs'[i], try.id, k);
    }
  }

  lemma CoveredStep(s: State, e: Event)
    requires Inv(s) && Enabled(s, e)
    ensures Covered(Effect(s, e))
  {
    hide Selects, Tallied, Spaced, Exclusive, AllPreceded, Decided, MissAt, Updated, Journals;
    var s' := Effect(s, e);
    StepGrows(s, e);
    forall id, k: nat | id in s'.rows && k < s'.rows[id].attempts ensures Missed(s'.txs, id, k) {
      if id in s.rows && k < s.rows[id].attempts {
        assert Missed(s.txs, id, k);
        var i :| 0 <= i < |s.txs| && MissAt(s.txs[i], id, k);
        assert s.txs[i].status == Committed by { CommittedMiss(s.txs[i], id, k); }
        assert MissAt(s'.txs[i], id, k);
      } else {
        CommitHolds(s, e.worker);
        NewMiss(s, e.worker, id, k);
        assert MissAt(s'.txs[e.worker], id, k);
      }
    }
  }

  lemma CommitHolds(s: State, w: nat)
    requires Inv(s) && Enabled(s, Commit(w)) && !s.txs[w].aborted
    ensures s.txs[w].staged.Keys <= s.rows.Keys
  { assert Journal(s.txs[w], s.rows, s.now); }

  lemma CommittedMiss(t: Tx, id: Id, k: nat)
    requires MissAt(t, id, k)
    ensures t.status == Committed
  {}

  /** Only a commit adds an attempt, and it is the one that processed the row. */
  lemma NewMiss(s: State, w: nat, id: Id, k: nat)
    requires Inv(s) && Enabled(s, Commit(w)) && !s.txs[w].aborted && id in s.rows
    requires id in s.txs[w].staged && s.rows[id].attempts <= k < s.txs[w].staged[id].attempts
    ensures MissAt(s.txs[w].(status := Committed), id, k)
  {
    hide Tallied, Spaced, Exclusive, AllPreceded, Decided, Covered, BackoffDelay;
    var t := s.txs[w];
    assert Journal(t, s.rows, s.now);
    var a :| 0 <= a < |t.tries| && t.tries[a].id == id;
    assert t.batch[a].id == id && t.tries[a].seen == k;
  }

  lemma PrecededStep(s: State, e: Event)
    requires Inv(s) && Enabled(s, e)
    ensures AllPreceded(Effect(s, e))
  {
    hide Selects, Tallied, Spaced, Exclusive, Decided, Covered, Preceded, Journals, Updated, Grows;
    var s' := Effect(s, e);
    StepGrows(s, e);
    forall j, b | 0 <= j < |s'.txs| && 0 <= b < |s'.txs[j].tries| ensures Preceded(s'.txs, s'.txs[j].tries[b]) {
      if j < |s.txs| && b < |s.txs[j].tries| {
        assert Preceded(s.txs, s.txs[j].tries[b]);
        PrecededGrows(s.txs, s'.txs, s.txs[j].tries[b]);
      } else {
        NewTryPreceded(s, j);
        PrecededGrows(s.txs, s'.txs, s'.txs[j].tries[b]);
      }
    }
  }

  /** A row that is processed is undecided, so all its committed processings were retries. */
  lemma NewTryPreceded(s: State, w: nat)
    requires Inv(s) && OpenAt(s, w) && |s.txs[w].tries| < |s.txs[w].batch|
    ensures forall outcome, time ::
              Preceded(s.txs, Try(s.txs[w].batch[|s.txs[w].tries|].id, outcome, time,
                                  s.txs[w].batch[|s.txs[w].tries|].attempts))
  {
    hide Tallied, Spaced, Exclusive, Decided, AllPreceded;
    var t := s.txs[w];
    var c := t.batch[|t.tries|];
    assert Journal(t, s.rows, s.now);
    forall k: nat | k < c.attempts ensures Retried(s.txs, c.id, k) {
      assert Missed(s.txs, c.id, k);
      var i :| 0 <= i < |s.txs| && MissAt(s.txs[i], c.id, k);
      assert Journal(s.txs[i], s.rows, s.now);
      assert RetryAt(s.txs[i], c.id, k);
    }
  }

  lemma StepKeepsInv(s: State, e: Event)
    requires Inv(s)
    ensures Inv(Step(s, e))
  {
    hide Journals, Tallied, Exclusive, Decided, Spaced, Covered, AllPreceded, Enabled, Effect;
    if Enabled(s, e) {
      CoveredStep(s, e);
      PrecededStep(s, e);
      JournalsStep(s, e);
      ExclusiveStep(s, e);
      DecidedStep(s, e);
      forall id: Id ensures Tallied(Effect(s, e), id) { TallyStep(s, e, id); }
      SpacedStep(s, e);
    }
  }

  lemma {:induction false} RunKeepsInv(s: State, events: seq<Event>)
    requires Inv(s)
    ensures Inv(Run(s, events))
    decreases |events|
  {
    hide Inv, Step;
    if events != [] {
      RunKeepsInv(s, events[..|events| - 1]);
      StepKeepsInv(Run(s, events[..|events| - 1]), events[|events| - 1]);
    }
  }

  lemma InitialInv(s: State)
    requires Initial(s)
    ensures Inv(s)
  {}

  /**
   Every interleaving: no row is held by two open transactions; no row is both sent and failed; `attempts` is the
   number of committed unsuccessful processings; and a row was delivered once for its committed send, if any, plus
   once for each open or rolled-back transaction that sent it.
   */
  lemma EveryInterleaving(s: State, events: seq<Event>, id: Id)
    requires Initial(s)
    ensures var r := Run(s, events);
            forall i, j :: 0 <= i < j < |r.txs| && r.txs[i].status == Open && r.txs[j].status == Open ==>
              !(Holds(r.txs[i], id) && Holds(r.txs[j], id))
    ensures var r := Run(s, events);
            id in r.rows ==> !(r.rows[id].sent.Some? && r.rows[id].failed.Some?)
    ensures var r := Run(s, events);
            id in r.rows ==> r.rows[id].attempts == Count(r.txs, {Committed}, id, false)
    ensures var r := Run(s, events);
            r.deliveries[id] ==
            (if id in r.rows && r.rows[id].sent.Some? then 1 else 0) + Count(r.txs, {Open, RolledBack}, id, true)
  {
    hide Count, Run, Journals, Spaced;
    InitialInv(s);
    RunKeepsInv(s, events);
    var r := Run(s, events);
    assert Tallied(r, id);
    CountSplit(r.txs, id, true);
    forall i, j | 0 <= i < j < |r.txs| && r.txs[i].status == Open && r.txs[j].status == Open
      ensures !(Holds(r.txs[i], id) && Holds(r.txs[j], id))
    { assert Apart(r.txs[i], r.txs[j]); }
  }

  // The schedule.

  lemma {:induction false} BackoffSumClosed(k: nat)
    ensures BackoffSum(k) == (if k <= 6 then Pow2(k) - 1 else 63 + 32 * (k - 6)) * MINUTE
  {
    if k > 0 {
      BackoffSumClosed(k - 1);
      assert Pow2(5) == 32;
    }
  }

  /**
   In every interleaving, a try of a row that k committed processings left unsent starts at least
   `BackoffSum(k)` after the first of them; in general the sums of any two tries are kept apart.
   */
  lemma EveryTryIsSpaced(s: State, events: seq<Event>, i: nat, a: nat, j: nat, b: nat)
    requires Initial(s)
    requires var r := Run(s, events);
             i < |r.txs| && a < |r.txs[i].tries| && r.txs[i].status == Committed && r.txs[i].tries[a].outcome == Retry
    requires var r := Run(s, events);
             j < |r.txs| && b < |r.txs[j].tries| && r.txs[j].tries[b].id == r.txs[i].tries[a].id
    ensures var r := Run(s, events); var first, later := r.txs[i].tries[a], r.txs[j].tries[b];
            first.seen < later.seen ==> later.time >= first.time + BackoffSum(later.seen) - BackoffSum(first.seen)
    ensures var r := Run(s, events); var first, later := r.txs[i].tries[a], r.txs[j].tries[b];
            first.seen == 0 && later.seen >= 6 ==> later.time >= first.time + (63 + 32 * (later.seen - 6)) * MINUTE
  {
    hide Run, Journals, Tallied, BackoffSum;
    InitialInv(s);
    RunKeepsInv(s, events);
    var r := Run(s, events);
    assert PacedAfter(r.txs[i], r.txs[j]);
    assert Apace(r.txs[i].tries[a], r.txs[j].tries[b]);
    BackoffSumClosed(0);
    BackoffSumClosed(r.txs[j].tries[b].seen);
    assert Pow2(6) == 64;
  }

  /**
   In every interleaving, a try that k > 0 committed processings precede has a first of them, a retry, and starts at
   least the first k backoffs after it.
   */
  lemma EveryTryHasAFirst(s: State, events: seq<Event>, j: nat, b: nat) returns (i: nat, a: nat)
    requires Initial(s)
    requires j < |Run(s, events).txs| && b < |Run(s, events).txs[j].tries| && Run(s, events).txs[j].tries[b].seen > 0
    ensures var r := Run(s, events);
            && i < |r.txs| && a < |r.txs[i].tries| && r.txs[i].status == Committed
            && var first, later := r.txs[i].tries[a], r.txs[j].tries[b];
            && first.id == later.id && first.outcome == Retry && first.seen == 0
            && later.time >= first.time + BackoffSum(later.seen)
  {
    hide Run, Journals, Tallied, Exclusive, Decided, Spaced, Covered, BackoffSum;
    InitialInv(s);
    RunKeepsInv(s, events);
    var r := Run(s, events);
    var later := r.txs[j].tries[b];
    assert Preceded(r.txs, later);
    assert Retried(r.txs, later.id, 0);
    i :| 0 <= i < |r.txs| && RetryAt(r.txs[i], later.id, 0);
    a :| 0 <= a < |r.txs[i].tries| && r.txs[i].tries[a].id == later.id && r.txs[i].tries[a].seen == 0 &&
        r.txs[i].tries[a].outcome == Retry;
    EveryTryIsSpaced(s, events, i, a, j, b);
    BackoffSumClosed(0);
  }

  // What a commit writes.

  /** The change of a row by one processing, field by field. Durations are in nanoseconds. */
  predicate Settled(before: Row, after: Row, try: Try, began: int) {
    match try.outcome
    case Retry =>
      && after.attempts == before.attempts + 1 && after.sent.None? && after.failed.None?
      && after.next == try.time + Pow2(if try.seen + 1 < 6 then try.seen else 5) * 60_000_000_000
    case Fail =>
      && after.attempts == before.attempts + 1 && after.sent.None? && after.failed == Some(began)
      && after.next == before.next
    case Sent =>
      && after.attempts == before.attempts && after.sent == Some(began) && after.failed.None?
      && after.next == before.next
  }

  lemma UpdatedSettles(row: Row, try: Try, began: int)
    requires row.sent.None? && row.failed.None?
    ensures Settled(row, Updated(row, try, began), try, began)
  {}

  /** A commit changes exactly the rows it processed, each as its outcome asks. */
  lemma CommitWrites(s: State, w: nat)
    requires Inv(s) && Enabled(s, Commit(w)) && !s.txs[w].aborted
    ensures var t, s' := s.txs[w], Effect(s, Commit(w));
            && s'.rows.Keys == s.rows.Keys
            && (forall i :: 0 <= i < |t.tries| ==>
                  t.tries[i].id in s.rows && Settled(s.rows[t.tries[i].id], s'.rows[t.tries[i].id], t.tries[i],
                                                     t.began))
            && (forall id :: id in s.rows && !Holds(t, id) ==> s'.rows[id] == s.rows[id])
  {
    hide Tallied, Spaced, Exclusive, Decided, Covered, AllPreceded, Updated, Settled;
    var t := s.txs[w];
    assert Journal(t, s.rows, s.now);
    StagedHeld(t, s.rows, s.now);
    CommitHolds(s, w);
    forall i | 0 <= i < |t.tries|
      ensures t.tries[i].id in s.rows
      ensures Settled(s.rows[t.tries[i].id], Effect(s, Commit(w)).rows[t.tries[i].id], t.tries[i], t.began)
    {
      assert t.batch[i].id == t.tries[i].id;
      UpdatedSettles(s.rows[t.tries[i].id], t.tries[i], t.began);
    }
  }

  /** From then on a retried row can be claimed exactly from its next time on, unless somebody holds it. */
  lemma RetriedIsDueThen(s: State, before: Row, try: Try, began: int, id: Id, at: int)
    requires try.outcome == Retry && id in s.rows && Settled(before, s.rows[id], try, began) && !Locked(s.txs, id)
    ensures Claimable(s, at, id) <==> at >= try.time + Pow2(if try.seen + 1 < 6 then try.seen else 5) * 60_000_000_000
  {}

  /** A claim takes as many free due rows as there are, up to the batch size, which is ten if none is given. */
  lemma BatchTakes(s: State, began: int, batchSize: int, ids: seq<Id>, free: set<Id>)
    requires Selects(s, began, BatchLimit(batchSize), ids) && forall id :: id in free <==> Claimable(s, began, id)
    ensures |ids| == if |free| < (if batchSize <= 0 then 10 else batchSize) then |free|
                     else if batchSize <= 0 then 10 else batchSize
  {
    hide Claimable;
    var taken := Members(ids);
    Distinct(ids);
    assert taken <= free;
    Smaller(taken, free);
    if |ids| < BatchLimit(batchSize) { assert taken == free; }
  }

  function Members(ids: seq<Id>): set<Id> { set id | id in ids }

  lemma {:induction false} Distinct(ids: seq<Id>)
    requires forall i, j :: 0 <= i < j < |ids| ==> ids[i] != ids[j]
    ensures |Members(ids)| == |ids|
  {
    if ids != [] {
      var n := |ids| - 1;
      Distinct(ids[..n]);
      assert Members(ids) == Members(ids[..n]) + {ids[n]};
    }
  }

  // Draining under a frozen clock.

  function DueSet(s: State): set<Id> { set id | id in s.rows && Due(s.rows[id], s.now) }

  /** The tries of the open transactions are less than a minute old. */
  ghost predicate Fresh(s: State) {
    forall j :: 0 <= j < |s.txs| && s.txs[j].status == Open ==> FreshTries(s.txs[j], s.now)
  }

  predicate FreshTries(t: Tx, now: int) { forall k :: 0 <= k < |t.tries| ==> t.tries[k].time + MINUTE > now }

  function CommittedBatches(txs: seq<Tx>): nat {
    if txs == [] then 0 else CommittedBatches(txs[..|txs| - 1]) + Batch(txs[|txs| - 1])
  }

  function Batch(t: Tx): nat { if t.status == Committed && t.batch != [] then 1 else 0 }

  lemma {:induction false} BatchesUpdate(txs: seq<Tx>, w: nat, t: Tx)
    requires w < |txs|
    ensures CommittedBatches(txs[w := t]) == CommittedBatches(txs) - Batch(txs[w]) + Batch(t)
  {
    var n := |txs| - 1;
    if w == n {
      assert txs[w := t][..n] == txs[..n];
    } else {
      assert txs[w := t][..n] == txs[..n][w := t];
      BatchesUpdate(txs[..n], w, t);
    }
  }

  predicate Frozen(e: Event) { !e.Tick? && !e.Insert? }

  lemma DelayAtLeastAMinute(n: int)
    ensures BackoffDelay(n) >= MINUTE
  { assert Pow2(1) == 2 && Pow2(2) == 4 && Pow2(3) == 8 && Pow2(4) == 16 && Pow2(5) == 32; }

  /** A commit settles or postpones every row of its batch. */
  lemma CommitSettles(s: State, w: nat)
    requires Inv(s) && Fresh(s) && Enabled(s, Commit(w)) && !s.txs[w].aborted
    ensures forall i :: 0 <= i < |s.txs[w].batch| ==>
              s.txs[w].batch[i].id in DueSet(s) && s.txs[w].batch[i].id !in DueSet(Effect(s, Commit(w)))
    ensures DueSet(Effect(s, Commit(w))) <= DueSet(s)
  {
    hide BackoffDelay, Tallied, Spaced, Exclusive, Decided;
    var t, s' := s.txs[w], Effect(s, Commit(w));
    assert Journal(t, s.rows, s.now) && FreshTries(t, s.now);
    forall i | 0 <= i < |t.batch| ensures t.batch[i].id in DueSet(s) && t.batch[i].id !in DueSet(s') {
      DelayAtLeastAMinute(t.tries[i].seen + 1);
      assert t.tries[i].id == t.batch[i].id;
    }
    StagedHeld(t, s.rows, s.now);
    forall id | id in DueSet(s') ensures id in DueSet(s) { assert !Holds(t, id); }
  }

  /** How the potential of a step compares: batches committed plus rows due. */
  ghost predicate Lowers(s: State, s': State) {
    && Fresh(s') && DueSet(s') <= DueSet(s)
    && CommittedBatches(s'.txs) + |DueSet(s')| <= CommittedBatches(s.txs) + |DueSet(s)|
  }

  lemma FrozenCommit(s: State, w: nat)
    requires Inv(s) && Fresh(s) && Enabled(s, Commit(w)) && !s.txs[w].aborted
    ensures Lowers(s, Effect(s, Commit(w)))
  {
    hide Inv, Due, DueSet, FreshTries;
    var s' := Effect(s, Commit(w));
    BatchesUpdate(s.txs, w, s'.txs[w]);
    CommitSettles(s, w);
    if s.txs[w].batch != [] {
      Smaller(DueSet(s'), DueSet(s) - {s.txs[w].batch[0].id});
    } else {
      Smaller(DueSet(s'), DueSet(s));
    }
  }

  /** Replacing an open transaction by one that is not committed. */
  lemma FrozenReplace(s: State, w: nat, t: Tx, deliveries: multiset<Id>)
    requires Fresh(s) && OpenAt(s, w) && t.status != Committed && (t.status == Open ==> FreshTries(t, s.now))
    ensures Lowers(s, s.(txs := s.txs[w := t], deliveries := deliveries))
  {
    hide Due, FreshTries;
    var s' := s.(txs := s.txs[w := t], deliveries := deliveries);
    assert DueSet(s') == DueSet(s);
    BatchesUpdate(s.txs, w, t);
  }

  lemma FrozenClaim(s: State, t: Tx)
    requires Fresh(s) && t.status == Open && t.tries == []
    ensures Lowers(s, s.(txs := s.txs + [t]))
  {
    hide Due;
    var s' := s.(txs := s.txs + [t]);
    assert DueSet(s') == DueSet(s) && s'.txs[..|s.txs|] == s.txs;
  }

  lemma FrozenStep(s: State, e: Event)
    requires Inv(s) && Fresh(s) && Frozen(e)
    ensures Lowers(s, Step(s, e))
  {
    hide Inv, Due, Updated, Selects, Lowers;
    if Enabled(s, e) {
      var s' := Effect(s, e);
      match e
      case Claim(_, _, _) => FrozenClaim(s, s'.txs[|s.txs|]);
      case Process(w, _, _) =>
        assert FreshTries(s.txs[w], s.now);
        FrozenReplace(s, w, s'.txs[w], s'.deliveries);
      case Rollback(w) => FrozenReplace(s, w, s'.txs[w], s.deliveries);
      case Commit(w) =>
        if s.txs[w].aborted { FrozenReplace(s, w, s'.txs[w], s.deliveries); } else { FrozenCommit(s, w); }
    } else {
      LowersItself(s);
    }
  }

  lemma LowersItself(s: State)
    requires Fresh(s)
    ensures Lowers(s, s)
  {}

  lemma Smaller(a: set<Id>, b: set<Id>)
    requires a <= b
    ensures |a| <= |b|
  {
    assert b == a + (b - a);
  }

  /**
   With a frozen clock and no inserts, whatever the workers do: each committed non-empty batch lowers the number of
   due rows, so there are at most as many such batches as rows were due.
   */
  lemma {:induction false} BatchesBounded(s: State, events: seq<Event>)
    requires Inv(s) && Fresh(s) && forall i :: 0 <= i < |events| ==> Frozen(events[i])
    ensures Fresh(Run(s, events)) && DueSet(Run(s, events)) <= DueSet(s)
    ensures CommittedBatches(Run(s, events).txs) + |DueSet(Run(s, events))| <= CommittedBatches(s.txs) + |DueSet(s)|
    decreases |events|
  {
    hide Inv, Step, Fresh, DueSet;
    if events != [] {
      var before := events[..|events| - 1];
      BatchesBounded(s, before);
      RunKeepsInv(s, before);
      FrozenStep(Run(s, before), events[|events| - 1]);
    }
  }

  lemma {:induction false} RunConcat(s: State, a: seq<Event>, b: seq<Event>)
    ensures Run(s, a + b) == Run(Run(s, a), b)
    decreases |b|
  {
    if b == [] {
      assert a + b == a;
    } else {
      RunConcat(s, a, b[..|b| - 1]);
      assert (a + b)[..|a + b| - 1] == a + b[..|b| - 1];
    }
  }

  // The worker's own code.

  lemma {:induction false} EarliestExists(rows: map<Id, Row>, ids: set<Id>)
    requires ids != {} && ids <= rows.Keys
    ensures exists id :: id in ids && forall other :: other in ids ==> rows[id].next <= rows[other].next
  {
    var x :| x in ids;
    if ids != {x} {
      EarliestExists(rows, ids - {x});
      var y :| y in ids - {x} && forall other :: other in ids - {x} ==> rows[y].next <= rows[other].next;
      var least := if rows[x].next <= rows[y].next then x else y;
      assert forall other :: other in ids ==> rows[least].next <= rows[other].next;
    }
  }

  lemma RunSnoc(s: State, events: seq<Event>, e: Event)
    ensures Run(s, events + [e]) == Step(Run(s, events), e)
  {}

  /** What the mail world and the database answer during a batch. */
  datatype World = World(mail: Id -> Attempt, executes: Id -> bool, commits: bool)

  class Worker {
    var rows: map<Id, Row>
    var txs: seq<Tx>
    var deliveries: multiset<Id>
    var now: int

    constructor (s: State)
      ensures Current() == s
    { rows, txs, deliveries, now := s.rows, s.txs, s.deliveries, s.now; }

    ghost function Current(): State reads this { State(rows, txs, deliveries, now) }

    /** The SELECT of `runBatch`. */
    method Select(limit: nat) returns (ids: seq<Id>)
      ensures Selects(Current(), now, limit, ids)
      ensures |ids| <= limit && forall i :: 0 <= i < |ids| ==> Claimable(Current(), now, ids[i])
      ensures forall i, j :: 0 <= i < j < |ids| ==> ids[i] != ids[j] && rows[ids[i]].next <= rows[ids[j]].next
      ensures forall id, i :: Claimable(Current(), now, id) && id !in ids && 0 <= i < |ids| ==>
              rows[ids[i]].next <= rows[id].next
      ensures |ids| < limit ==> forall id :: Claimable(Current(), now, id) ==> id in ids
    {
      ids := [];
      var candidates := set id | id in rows && Due(rows[id], now) && !Locked(txs, id);
      while |ids| < limit && candidates != {}
        invariant |ids| <= limit
        invariant forall i :: 0 <= i < |ids| ==> Claimable(Current(), now, ids[i])
        invariant forall i, j :: 0 <= i < j < |ids| ==> ids[i] != ids[j] && rows[ids[i]].next <= rows[ids[j]].next
        invariant forall id :: id in candidates <==> Claimable(Current(), now, id) && id !in ids
        invariant forall id, i :: id in candidates && 0 <= i < |ids| ==> rows[ids[i]].next <= rows[id].next
        decreases candidates
      {
        assert candidates <= rows.Keys;
        EarliestExists(rows, candidates);
        var id :| id in candidates && forall other :: other in candidates ==> rows[id].next <= rows[other].next;
        ids, candidates := ids + [id], candidates - {id};
      }
    }

    /** One pass of the loop over the pending rows. */
    method ProcessNext(w: nat, world: World) returns (ghost e: Event)
      requires Inv(Current()) && OpenAt(Current(), w) && |txs[w].tries| < |txs[w].batch|
      modifies this
      ensures Frozen(e) && Current() == Step(old(Current()), e) && Inv(Current())
      ensures rows == old(rows) && now == old(now) && |txs| == |old(txs)| && txs == old(txs)[w := txs[w]]
      ensures var id := old(txs[w].batch[|txs[w].tries|].id);
              && txs[w].tries == old(txs[w].tries) + [Try(id, OutcomeOf(world.mail(id)), now,
                                                          old(txs[w].batch[|txs[w].tries|].attempts))]
              && txs[w].aborted == (old(txs[w].aborted) || !world.executes(id))
      ensures txs[w].status == Open && txs[w].batch == old(txs[w].batch) && txs[w].began == old(txs[w].began)
    {
      hide Inv;
      HeldByOpen(Current(), w);
      var id := txs[w].batch[|txs[w].tries|].id;
      var outcome := OutcomeOf(world.mail(id));
      e := Process(w, world.mail(id), world.executes(id));
      StepKeepsInv(Current(), e);
      txs := txs[w := Processed(txs[w], rows[id], outcome, world.executes(id), now)];
      if outcome == Sent { deliveries := deliveries + multiset{id}; }
    }

    /** The loop over the pending rows. */
    method ProcessAll(w: nat, world: World) returns (ghost events: seq<Event>)
      requires Inv(Current()) && OpenAt(Current(), w) && txs[w].tries == [] && !txs[w].aborted
      modifies this
      ensures Current() == Run(old(Current()), events) && Inv(Current())
      ensures forall i :: 0 <= i < |events| ==> Frozen(events[i])
      ensures rows == old(rows) && now == old(now) && |txs| == |old(txs)| && txs == old(txs)[w := txs[w]]
      ensures txs[w].status == Open && txs[w].batch == old(txs[w].batch) && txs[w].began == old(txs[w].began) &&
              |txs[w].tries| == |txs[w].batch|
      ensures !txs[w].aborted == forall k :: 0 <= k < |txs[w].tries| ==> world.executes(txs[w].tries[k].id)
      ensures forall k :: 0 <= k < |txs[w].tries| ==>
                txs[w].tries[k].outcome == OutcomeOf(world.mail(txs[w].tries[k].id)) && txs[w].tries[k].time == now
      ensures txs[w].batch == [] ==> txs == old(txs)
    {
      hide Inv, Run, Step;
      ghost var start := Current();
      events := [];
      RunNothing(start);
      var k := 0;
      while k < |txs[w].batch|
        invariant rows == start.rows && now == start.now && |txs| == |start.txs| && txs == start.txs[w := txs[w]]
        invariant 0 <= k == |txs[w].tries| <= |txs[w].batch| && txs[w].batch == start.txs[w].batch
        invariant Current() == Run(start, events) && Inv(Current())
        invariant forall i :: 0 <= i < |events| ==> Frozen(events[i])
        invariant txs[w].status == Open && txs[w].began == start.txs[w].began && (k == 0 ==> txs == start.txs)
        invariant !txs[w].aborted == forall i :: 0 <= i < k ==> world.executes(txs[w].tries[i].id)
        invariant forall i :: 0 <= i < k ==>
                    txs[w].tries[i].outcome == OutcomeOf(world.mail(txs[w].tries[i].id)) && txs[w].tries[i].time == now
      {
        ghost var tries := txs[w].tries;
        ghost var e := ProcessNext(w, world);
        assert txs[w].tries[..k] == tries && txs[w].tries[k] == txs[w].tries[|tries|];
        RunSnoc(start, events, e);
        events := events + [e];
        k := k + 1;
      }
    }

    /** `Commit`, or the deferred `Rollback`. */
    method Finish(w: nat, commits: bool) returns (ok: bool, ghost e: Event)
      requires Inv(Current()) && OpenAt(Current(), w) && |txs[w].tries| == |txs[w].batch|
      modifies this
      ensures Frozen(e) && Current() == Step(old(Current()), e) && Inv(Current())
      ensures ok == (commits && !old(txs[w].aborted)) && now == old(now)
      ensures rows == if ok then old(rows) + old(txs[w].staged) else old(rows)
      ensures |txs| == |old(txs)| && txs == old(txs)[w := old(txs[w]).(status := if ok then Committed else RolledBack)]
      ensures ok ==> forall k :: 0 <= k < |txs[w].tries| ==>
                var try := txs[w].tries[k];
                try.id in old(rows) && try.id in rows && Settled(old(rows)[try.id], rows[try.id], try, txs[w].began)
    {
      hide Inv;
      e := if commits then Commit(w) else Rollback(w);
      StepKeepsInv(Current(), e);
      if !txs[w].aborted { CommitWrites(Current(), w); }
      ok := commits && !txs[w].aborted;
      if ok { rows := rows + txs[w].staged; }
      txs := txs[w := txs[w].(status := if ok then Committed else RolledBack)];
    }

    /**
     `runBatch`: one transaction. Its steps are steps of the interleaving model; it succeeds exactly when the
     database took every statement and the commit, and it finds nothing only if nothing is due and free.
     */
    method RunBatch(batchSize: int, world: World) returns (processed: nat, ok: bool, ghost events: seq<Event>)
      requires Inv(Current())
      modifies this
      ensures Current() == Run(old(Current()), events) && Inv(Current()) && now == old(now)
      ensures forall i :: 0 <= i < |events| ==> Frozen(events[i])
      ensures |txs| == |old(txs)| + 1 && txs[..|old(txs)|] == old(txs)
      ensures |txs[|old(txs)|].batch| == |txs[|old(txs)|].tries| == processed
      ensures ok == (world.commits && forall k :: 0 <= k < processed ==> world.executes(txs[|old(txs)|].tries[k].id))
      ensures txs[|old(txs)|].status == if ok then Committed else RolledBack
      ensures forall k :: 0 <= k < processed ==>
                var try := txs[|old(txs)|].tries[k]; try.outcome == OutcomeOf(world.mail(try.id)) && try.time == now
      ensures processed == 0 ==> forall id :: !Claimable(Current(), now, id)
      ensures ok ==> forall k :: 0 <= k < processed ==>
                var try := txs[|old(txs)|].tries[k];
                try.id in old(rows) && try.id in rows && Settled(old(rows)[try.id], rows[try.id], try, now)
      ensures !ok ==> rows == old(rows)
    {
      hide Inv, Run, Step, Updated, Due, Selects, Claimable, Locked, Settled;
      ghost var start := Current();
      var w := |txs|;
      var ids := Select(BatchLimit(batchSize));
      events := [Claim(0, batchSize, ids)];
      SelectedExist(start, BatchLimit(batchSize), ids);
      ClaimRun(start, batchSize, ids);
      txs := txs + [Tx(now, ClaimedRows(rows, ids), [], map[], false, Open)];
      RunKeepsInv(start, events);
      ghost var steps := ProcessAll(w, world);
      RunConcat(start, events, steps);
      events := events + steps;
      processed := |ids|;
      ghost var e;
      ok, e := Finish(w, world.commits);
      RunSnoc(start, events, e);
      events := events + [e];
      if processed == 0 { NothingToClaim(start, Current(), BatchLimit(batchSize)); }
    }

    /** The loop of `Run` between two polls, with the clock standing still: it ends, and leaves nothing due and free. */
    method Drain(batchSize: int, world: World) returns (ok: bool, ghost events: seq<Event>)
      requires Inv(Current()) && Fresh(Current())
      modifies this
      ensures Current() == Run(old(Current()), events) && Inv(Current())
      ensures ok ==> forall id :: !Claimable(Current(), now, id)
    {
      hide Inv, Run, Fresh, DueSet, Claimable;
      ghost var start := Current();
      events, ok := [], true;
      RunNothing(start);
      var more := true;
      while more
        invariant Current() == Run(start, events) && Inv(Current()) && Fresh(Current())
        invariant !more && ok ==> forall id :: !Claimable(Current(), now, id)
        decreases more, |DueSet(Current())|
      {
        ghost var before := Current();
        var processed, committed;
        ghost var steps;
        processed, committed, steps := RunBatch(batchSize, world);
        BatchesBounded(before, steps);
        RunConcat(start, events, steps);
        events := events + steps;
        NewBatch(before.txs, txs);
        ok, more := committed, committed && processed > 0;
      }
    }
  }

  lemma SelectedExist(s: State, limit: nat, ids: seq<Id>)
    requires Selects(s, s.now, limit, ids)
    ensures forall i :: 0 <= i < |ids| ==> ids[i] in s.rows
  {}

  lemma ClaimRun(s: State, batchSize: int, ids: seq<Id>)
    requires Selects(s, s.now, BatchLimit(batchSize), ids)
    ensures Run(s, [Claim(0, batchSize, ids)])
            == s.(txs := s.txs + [Tx(s.now, ClaimedRows(s.rows, ids), [], map[], false, Open)])
  {}

  /** A closed transaction locks nothing, so what an empty batch could not claim cannot be claimed after it either. */
  lemma NothingToClaim(s: State, s': State, limit: nat)
    requires Selects(s, s.now, limit, []) && limit > 0
    requires s'.rows == s.rows && s'.now == s.now && |s'.txs| == |s.txs| + 1 && s'.txs[..|s.txs|] == s.txs &&
             s'.txs[|s.txs|].status != Open
    ensures forall id :: !Claimable(s', s'.now, id)
  {}

  lemma RunNothing(s: State)
    ensures Run(s, []) == s
  {}

  lemma HeldByOpen(s: State, w: nat)
    requires Inv(s) && OpenAt(s, w)
    ensures forall k :: 0 <= k < |s.txs[w].batch| ==> s.txs[w].batch[k].id in s.rows
  {}

  lemma NewBatch(txs: seq<Tx>, txs': seq<Tx>)
    requires |txs'| == |txs| + 1 && txs'[..|txs|] == txs
    ensures CommittedBatches(txs') == CommittedBatches(txs) + Batch(txs'[|txs|])
  {}

  /**
   A rolled-back transaction leaves no trace on the rows it held: each can be claimed again at once, whatever was
   delivered. So only committed tries are spaced, and the bound on deliveries has to count the rolled-back ones.
   */
  lemma RolledBackRowsAreDueAtOnce(s: State, w: nat, e: Event, id: Id)
    requires Inv(s) && OpenAt(s, w) && Holds(s.txs[w], id)
    requires e == Rollback(w) || (e == Commit(w) && s.txs[w].aborted && |s.txs[w].tries| == |s.txs[w].batch|)
    ensures Claimable(Step(s, e), s.now, id) && Step(s, e).rows == s.rows && Step(s, e).deliveries == s.deliveries
  {}
}
