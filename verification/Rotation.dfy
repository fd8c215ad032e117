/**
 Master-key rotation: a resumable walk over every encrypted cell that moves one row per transaction to the
 new key and keeps a positional cursor. Runs may stop, fail or be limited anywhere and be resumed.
 */
module Rotation {
  import opened Prelude
  import opened Envelope
  import opened Columns

  type Cells = map<Cell, bytes>

  datatype Phase = Rewrapping | Cutover | Done
  datatype Progress = Progress(total: nat, done: nat, phase: Phase)
  datatype World = World(cells: Cells, rotations: map<nat, Progress>)

  datatype Outcome =
    | Completed
    | AlreadyDone
    | Incomplete
    | Drift
    | RowFailed(error: CryptoError)
    | InvalidKeys
    | DatabaseError

  /** The keys of a rotation; both must be 32 bytes for a run to start. */
  datatype Keys = Keys(oldKek: bytes, newKek: bytes) {
    predicate Usable() { |oldKek| == MASTER_KEY_BYTES && |newKek| == MASTER_KEY_BYTES }
  }

  function Min(a: nat, b: nat): nat { if a < b then a else b }

  function Touched(slots: seq<Slot>, from: nat, to: nat): set<Cell>
    requires to <= |slots|
  {
    set k | from <= k < to :: slots[k].cell
  }

  /** `after` is `before` with exactly the cells of slots `from..to` rewrapped. */
  ghost predicate Rewrapped(s: Suite, keys: Keys, slots: seq<Slot>, before: Cells, after: Cells, from: nat, to: nat,
                            nonces: nat -> nonce)
    requires forall k :: 0 <= k < |slots| ==> slots[k].cell in before
  {
    && (from < to ==> to <= |slots|)
    && after.Keys == before.Keys
    && (forall k :: from <= k < to ==>
          RewrapValue(s, before[slots[k].cell], slots[k].format, keys.oldKek, keys.newKek, nonces(k))
              == Ok(after[slots[k].cell]))
    && (forall c :: c in before && (from < to ==> c !in Touched(slots, from, to)) ==> after[c] == before[c])
  }

  /** The arguments of a run; `calls` is how many database calls succeed before one fails. */
  datatype Run = Run(id: nat, keys: Keys, maxRows: int, calls: nat, nonces: nat -> nonce)

  /**
   What one `Resume` run does, in terms of the place it starts from: it rewraps the next `processed` slots and
   stops for the reason `outcome` gives.
   */
  ghost predicate Resumed(s: Suite, targets: seq<Target>, run: Run, w: World, w': World, outcome: Outcome,
                          processed: nat) {
    var Run(id, keys, maxRows, calls, nonces) := run;
    if |keys.oldKek| != 32 || |keys.newKek| != 32 then outcome == InvalidKeys && w' == w && processed == 0
    else if calls == 0 || id !in w.rotations then outcome == DatabaseError && w' == w && processed == 0
    else if w.rotations[id].phase == Done then outcome == AlreadyDone && w' == w && processed == 0
    else
      var p := w.rotations[id];
      var slots := Slots(w.cells.Keys, targets);
      var at, limit := p.done + processed, Min(|slots|, p.total);
      && (processed > 0 ==> at <= limit)
      && (maxRows > 0 ==> processed <= maxRows)
      && Rewrapped(s, keys, slots, w.cells, w'.cells, p.done, at, nonces)
      && w'.rotations == w.rotations[id := Progress(p.total, at, if outcome == Completed then Cutover else p.phase)]
      && match outcome
         case Completed => |slots| >= p.total && at >= p.total
         case Drift => |slots| < p.total && at >= |slots|
         case Incomplete => maxRows > 0 && processed == maxRows && at < limit
         case RowFailed(e) =>
           && at < limit && (maxRows > 0 ==> processed < maxRows)
           && RewrapValue(s, w.cells[slots[at].cell], slots[at].format, keys.oldKek, keys.newKek, nonces(at)) == Err(e)
         case DatabaseError => calls < |targets| + processed + 2
         case _ => false
  }

  function Values(cells: Cells, rows: seq<Slot>): (values: seq<bytes>)
    requires forall k :: 0 <= k < |rows| ==> rows[k].cell in cells
    ensures |values| == |rows| && forall k :: 0 <= k < |rows| ==> values[k] == cells[rows[k].cell]
  {
    seq(|rows|, k requires 0 <= k < |rows| => cells[rows[k].cell])
  }

  /** Later slots are untouched. */
  lemma RewrappedBeyond(s: Suite, keys: Keys, slots: seq<Slot>, before: Cells, after: Cells, from: nat, to: nat,
                        nonces: nat -> nonce, k: nat)
    requires DistinctCells(slots) && forall k :: 0 <= k < |slots| ==> slots[k].cell in before
    requires Rewrapped(s, keys, slots, before, after, from, to, nonces)
    requires from <= to <= k < |slots|
    ensures after[slots[k].cell] == before[slots[k].cell]
  {}

  /** One more row: its cell has not been touched before, and touching it disturbs no earlier one. */
  lemma RewrappedStep(s: Suite, keys: Keys, slots: seq<Slot>, before: Cells, after: Cells, from: nat, at: nat,
                      nonces: nat -> nonce, v: bytes)
    requires DistinctCells(slots) && forall k :: 0 <= k < |slots| ==> slots[k].cell in before
    requires from <= at < |slots| && Rewrapped(s, keys, slots, before, after, from, at, nonces)
    requires RewrapValue(s, before[slots[at].cell], slots[at].format, keys.oldKek, keys.newKek, nonces(at)) == Ok(v)
    ensures Rewrapped(s, keys, slots, before, after[slots[at].cell := v], from, at + 1, nonces)
  {}

  /** The loops' bookkeeping: everything up to `seen` is done, nothing beyond it is touched. */
  ghost predicate Walked(s: Suite, targets: seq<Target>, run: Run, w: World, w': World, seen: nat, processed: nat) {
    var slots := Slots(w.cells.Keys, targets);
    && run.id in w.rotations && seen <= |slots|
    && var p := w.rotations[run.id];
    && processed == (if seen > p.done then seen - p.done else 0)
    && (processed > 0 ==> seen <= p.total)
    && (run.maxRows > 0 ==> processed <= run.maxRows)
    && Rewrapped(s, run.keys, slots, w.cells, w'.cells, p.done, p.done + processed, run.nonces)
    && w'.rotations == w.rotations[run.id := p.(done := p.done + processed)]
  }

  /** Why the walk stopped early. */
  ghost predicate Halted(s: Suite, targets: seq<Target>, run: Run, w: World, seen: nat, processed: nat, left: nat,
                         outcome: Outcome) {
    var slots := Slots(w.cells.Keys, targets);
    && run.id in w.rotations
    && w.rotations[run.id].done <= seen < Min(|slots|, w.rotations[run.id].total)
    && match outcome
       case Incomplete => run.maxRows > 0 && processed == run.maxRows
       case RowFailed(e) =>
         && (run.maxRows > 0 ==> processed < run.maxRows)
         && RewrapValue(s, w.cells[slots[seen].cell], slots[seen].format, run.keys.oldKek, run.keys.newKek,
                        run.nonces(seen)) == Err(e)
       case DatabaseError => left == 0
       case _ => false
  }

  lemma WalkedStart(s: Suite, targets: seq<Target>, run: Run, w: World)
    requires run.id in w.rotations
    ensures Walked(s, targets, run, w, w, 0, 0)
  {}

  lemma WalkedFacts(s: Suite, targets: seq<Target>, run: Run, w: World, w': World, seen: nat, processed: nat)
    requires Walked(s, targets, run, w, w', seen, processed)
    ensures run.id in w.rotations && run.id in w'.rotations
    ensures run.maxRows > 0 ==> processed <= run.maxRows
    ensures seen < Min(|Slots(w.cells.Keys, targets)|, w.rotations[run.id].done) ==>
            Walked(s, targets, run, w, w', seen + 1, processed)
  {}

  lemma WalkedBeyond(s: Suite, targets: seq<Target>, run: Run, w: World, w': World, seen: nat, processed: nat, k: nat)
    requires DistinctColumns(targets) && Walked(s, targets, run, w, w', seen, processed)
    requires seen <= k < |Slots(w.cells.Keys, targets)| && w.rotations[run.id].done <= k
    ensures var cell := Slots(w.cells.Keys, targets)[k].cell;
            cell in w'.cells && w'.cells[cell] == w.cells[cell]
  {
    hide RewrapValue, Slots;
    var p := w.rotations[run.id];
    SlotsDistinct(w.cells.Keys, targets);
    RewrappedBeyond(s, run.keys, Slots(w.cells.Keys, targets), w.cells, w'.cells, p.done, p.done + processed,
                    run.nonces, k);
  }

  /** The rows of target `i` in the overall order; those at or after the cursor still hold their first value. */
  lemma TargetPlaces(s: Suite, targets: seq<Target>, run: Run, w: World, w': World, i: nat, seen: nat, processed: nat)
    requires DistinctColumns(targets) && Walked(s, targets, run, w, w', seen, processed) && i < |targets|
    requires seen <= |Slots(w.cells.Keys, targets[..i])|
    ensures var slots, base := Slots(w.cells.Keys, targets), |Slots(w.cells.Keys, targets[..i])|;
            var rows := TargetSlots(w.cells.Keys, targets[i]);
            && |Slots(w.cells.Keys, targets[..i + 1])| == base + |rows| <= |slots|
            && forall k :: 0 <= k < |rows| ==>
                 && slots[base + k] == rows[k] && rows[k].cell in w'.cells
                 && (base + k >= w.rotations[run.id].done ==> w'.cells[rows[k].cell] == w.cells[rows[k].cell])
  {
    hide RewrapValue, Slots, TargetSlots, Walked;
    TargetRange(w.cells.Keys, targets, i);
    WalkedKeys(s, targets, run, w, w', seen, processed);
    var base := |Slots(w.cells.Keys, targets[..i])|;
    var rows := TargetSlots(w.cells.Keys, targets[i]);
    forall k | 0 <= k < |rows| && base + k >= w.rotations[run.id].done
      ensures w'.cells[rows[k].cell] == w.cells[rows[k].cell]
    {
      WalkedBeyond(s, targets, run, w, w', seen, processed, base + k);
    }
  }

  lemma WalkedKeys(s: Suite, targets: seq<Target>, run: Run, w: World, w': World, seen: nat, processed: nat)
    requires Walked(s, targets, run, w, w', seen, processed)
    ensures w'.cells.Keys == w.cells.Keys && run.id in w.rotations
  {}

  lemma WalkedStep(s: Suite, targets: seq<Target>, run: Run, w: World, w': World, seen: nat, processed: nat, v: bytes)
    requires DistinctColumns(targets) && Walked(s, targets, run, w, w', seen, processed)
    requires var slots := Slots(w.cells.Keys, targets);
             && w.rotations[run.id].done <= seen < Min(|slots|, w.rotations[run.id].total)
             && RewrapValue(s, w.cells[slots[seen].cell], slots[seen].format, run.keys.oldKek, run.keys.newKek,
                            run.nonces(seen)) == Ok(v)
    requires run.maxRows > 0 ==> processed < run.maxRows
    ensures var cell := Slots(w.cells.Keys, targets)[seen].cell;
            Walked(s, targets, run, w, World(w'.cells[cell := v],
                                             w'.rotations[run.id := w'.rotations[run.id].(done := seen + 1)]),
                   seen + 1, processed + 1)
  {
    hide RewrapValue, Slots;
    SlotsDistinct(w.cells.Keys, targets);
    RewrappedStep(s, run.keys, Slots(w.cells.Keys, targets), w.cells, w'.cells, w.rotations[run.id].done, seen,
                  run.nonces, v);
  }

  lemma HaltedResumed(s: Suite, targets: seq<Target>, run: Run, w: World, w': World, seen: nat, processed: nat,
                      left: nat, outcome: Outcome)
    requires run.keys.Usable() && run.calls > 0 && run.id in w.rotations && w.rotations[run.id].phase != Done
    requires Walked(s, targets, run, w, w', seen, processed) &&
             Halted(s, targets, run, w, seen, processed, left, outcome)
    requires outcome == DatabaseError ==> run.calls < |targets| + processed + 2
    ensures Resumed(s, targets, run, w, w', outcome, processed)
  { hide RewrapValue; }

  class RotationService {
    const suite: Suite
    const targets: seq<Target>
    var cells: Cells
    var rotations: map<nat, Progress>

    constructor (suite: Suite, targets: seq<Target>, cells: Cells)
      ensures this.suite == suite && this.targets == targets && this.cells == cells && rotations == map[]
    {
      this.suite, this.targets, this.cells, rotations := suite, targets, cells, map[];
    }

    ghost function Current(): World reads this { World(cells, rotations) }

    /** `countRows`; `counted` is false when a query fails. */
    method CountRows(calls: nat) returns (total: nat, counted: bool)
      ensures counted == (calls >= |targets|)
      ensures counted ==> total == |Slots(cells.Keys, targets)|
    {
      total := 0;
      for i := 0 to |targets|
        invariant i <= calls && total == |Slots(cells.Keys, targets[..i])|
      {
        if i == calls { return 0, false; }
        SlotsStep(cells.Keys, targets, i);
        total := total + |TargetSlots(cells.Keys, targets[i])|;
      }
      assert targets[..|targets|] == targets;
      counted := true;
    }

    /** `Start`: counts, records the rotation and runs it. */
    method Start(run: Run) returns (outcome: Outcome, processed: nat)
      requires DistinctColumns(targets)
      modifies this
      ensures run.calls <= |targets| || run.id in old(rotations) ==>
                outcome == DatabaseError && processed == 0 && Current() == old(Current())
      ensures run.calls > |targets| && run.id !in old(rotations) ==>
                Resumed(suite, targets, run.(calls := run.calls - |targets| - 1),
                        Inserted(targets, old(Current()), run.id), Current(), outcome, processed)
    {
      var total, counted := CountRows(run.calls);
      if !counted || run.calls == |targets| || run.id in rotations { return DatabaseError, 0; }
      rotations := rotations[run.id := Progress(total, 0, Rewrapping)];
      outcome, processed := Resume(run.(calls := run.calls - |targets| - 1));
    }

    /** `Resume`. */
    method Resume(run: Run) returns (outcome: Outcome, processed: nat)
      requires DistinctColumns(targets)
      modifies this
      ensures Resumed(suite, targets, run, old(Current()), Current(), outcome, processed)
    {
      hide RewrapValue, Slots, Rewrapped;
      processed := 0;
      if !run.keys.Usable() { return InvalidKeys, 0; }
      if run.calls == 0 || run.id !in rotations { return DatabaseError, 0; }
      var p := rotations[run.id];
      if p.phase == Done { return AlreadyDone, 0; }
      var left: nat, seen := run.calls - 1, 0;
      ghost var w := Current();
      WalkedStart(suite, targets, run, w);
      SlotsNone(w.cells.Keys, targets);
      for i := 0 to |targets|
        invariant cells.Keys == w.cells.Keys
        invariant seen == Min(|Slots(w.cells.Keys, targets[..i])|, p.total)
        invariant Walked(suite, targets, run, w, Current(), seen, processed)
        invariant left + 1 + i + processed == run.calls
      {
        if left == 0 { return DatabaseError, processed; }
        var stop: Option<Outcome>;
        stop, seen, processed, left := WalkTarget(w, i, p, run, seen, processed, left - 1);
        if stop.Some? {
          HaltedResumed(suite, targets, run, w, Current(), seen, processed, left, stop.value);
          return stop.value, processed;
        }
      }
      assert targets[..|targets|] == targets;
      if seen < p.total { return Drift, processed; }
      if left == 0 { return DatabaseError, processed; }
      rotations := rotations[run.id := rotations[run.id].(phase := Cutover)];
      return Completed, processed;
    }

    /** The inner loop of `Resume`: the rows of target `i`, skipping those already done. */
    method WalkTarget(ghost w: World, i: nat, p: Progress, run: Run, seen0: nat, processed0: nat, left0: nat)
      returns (stop: Option<Outcome>, seen: nat, processed: nat, left: nat)
      requires DistinctColumns(targets) && i < |targets|
      requires run.id in w.rotations && p == w.rotations[run.id] && cells.Keys == w.cells.Keys
      requires seen0 == Min(|Slots(w.cells.Keys, targets[..i])|, p.total)
      requires Walked(suite, targets, run, w, Current(), seen0, processed0)
      modifies this
      ensures cells.Keys == w.cells.Keys
      ensures Walked(suite, targets, run, w, Current(), seen, processed)
      ensures left + processed == left0 + processed0 && processed >= processed0
      ensures stop.None? ==> seen == Min(|Slots(w.cells.Keys, targets[..i + 1])|, p.total)
      ensures stop.Some? ==> Halted(suite, targets, run, w, seen, processed, left, stop.value)
    {
      hide RewrapValue, Slots, TargetSlots, Walked, Values, DistinctColumns;
      seen, processed, left, stop := seen0, processed0, left0, None;
      ghost var base := |Slots(w.cells.Keys, targets[..i])|;
      var rows := TargetSlots(cells.Keys, targets[i]);
      var values := Values(cells, rows);
      TargetPlaces(suite, targets, run, w, Current(), i, seen, processed);
      var j := 0;
      while j < |rows|
        invariant j <= |rows| && cells.Keys == w.cells.Keys
        invariant seen == Min(base + j, p.total)
        invariant Walked(suite, targets, run, w, Current(), seen, processed)
        invariant left + processed == left0 + processed0 && processed >= processed0
      {
        WalkedFacts(suite, targets, run, w, Current(), seen, processed);
        if seen >= p.total { break; }
        if seen < p.done {
          seen, j := seen + 1, j + 1;
          continue;
        }
        if run.maxRows > 0 && processed >= run.maxRows { stop := Some(Incomplete); return; }
        var rewrapped := RewrapValue(suite, values[j], rows[j].format, run.keys.oldKek, run.keys.newKek,
                                     run.nonces(seen));
        if rewrapped.Err? { stop := Some(RowFailed(rewrapped.error)); return; }
        if left == 0 { stop := Some(DatabaseError); return; }
        left := left - 1;
        WalkedStep(suite, targets, run, w, Current(), seen, processed, rewrapped.value);
        CommitRow(rows[j].cell, rewrapped.value, run.id, seen + 1);
        seen, processed, j := seen + 1, processed + 1, j + 1;
      }
    }

    /** The transaction of `rewrapRow`: the row and the cursor change together. */
    method CommitRow(cell: Cell, value: bytes, id: nat, done: nat)
      requires id in rotations
      modifies this
      ensures cells == old(cells)[cell := value]
      ensures rotations == old(rotations)[id := old(rotations)[id].(done := done)]
    {
      cells := cells[cell := value];
      rotations := rotations[id := rotations[id].(done := done)];
    }

    /** `ConfirmCutover`: unconditional. */
    method ConfirmCutover(id: nat)
      modifies this`rotations
      ensures Current() == Confirmed(old(Current()), id)
    {
      if id in rotations { rotations := rotations[id := rotations[id].(phase := Done)]; }
    }
  }

  function Inserted(targets: seq<Target>, w: World, id: nat): World {
    w.(rotations := w.rotations[id := Progress(|Slots(w.cells.Keys, targets)|, 0, Rewrapping)])
  }

  function Confirmed(w: World, id: nat): World {
    if id in w.rotations then w.(rotations := w.rotations[id := w.rotations[id].(phase := Done)]) else w
  }

  // ----- Whole runs

  datatype Event =
    | Insert(id: nat)
    | Resume(run: Run, outcome: Outcome, processed: nat)
    | Confirm(id: nat)
    | Delete(cell: Cell)

  /** One step of a history: `Start` is `Insert` then `Resume`. Every `Resume` uses the same key pair. */
  ghost predicate Next(s: Suite, targets: seq<Target>, keys: Keys, w: World, e: Event, w': World) {
    match e
    case Insert(id) => id !in w.rotations && w' == Inserted(targets, w, id)
    case Resume(run, outcome, processed) => run.keys == keys && Resumed(s, targets, run, w, w', outcome, processed)
    case Confirm(id) => w' == Confirmed(w, id)
    case Delete(cell) => w' == w.(cells := w.cells - {cell})
  }

  ghost predicate IsRun(s: Suite, targets: seq<Target>, keys: Keys, ws: seq<World>, es: seq<Event>) {
    |ws| == |es| + 1 && forall i :: 0 <= i < |es| ==> Next(s, targets, keys, ws[i], es[i], ws[i + 1])
  }

  /** The first `f` cells hold their original secret under the new key; all others are byte for byte the original. */
  ghost predicate Rekeyed(s: Suite, keys: Keys, slots: seq<Slot>, original: Cells, now: Cells, f: nat)
    requires forall k :: 0 <= k < |slots| ==> slots[k].cell in original
  {
    && f <= |slots| && now.Keys == original.Keys
    && (forall k :: 0 <= k < f ==>
          && Unwrap(s, original[slots[k].cell], slots[k].format, keys.oldKek).Ok?
          && Unwrap(s, now[slots[k].cell], slots[k].format, keys.newKek)
              == Unwrap(s, original[slots[k].cell], slots[k].format, keys.oldKek)
          && Unwrap(s, now[slots[k].cell], slots[k].format, keys.oldKek).Err?)
    && (forall c :: c in original && c !in Touched(slots, 0, f) ==> now[c] == original[c])
  }

  /** The state of every rotation record relative to the frontier `f` of `n` cells: only one has ever moved. */
  ghost predicate RecordsAt(rotations: map<nat, Progress>, n: nat, f: nat) {
    && (forall id :: id in rotations ==>
          && rotations[id].total == n
          && (rotations[id].done == 0 || rotations[id].done == f)
          && (rotations[id].phase == Cutover ==> f == n))
    && (forall id, other ::
          id in rotations && other in rotations && rotations[id].done > 0 && rotations[other].done > 0 ==> id == other)
    && (f > 0 ==> exists id :: id in rotations && rotations[id].done == f)
  }

  ghost predicate Frontier(s: Suite, targets: seq<Target>, keys: Keys, original: Cells, w: World, f: nat) {
    var slots := Slots(original.Keys, targets);
    Rekeyed(s, keys, slots, original, w.cells, f) && RecordsAt(w.rotations, |slots|, f)
  }

  /** A rewrapped cell moves from the untouched part to the new key, and the old key no longer opens it. */
  lemma RekeyedStep(s: Suite, keys: Keys, slots: seq<Slot>, original: Cells, now: Cells, next: Cells, f: nat, to: nat,
                    nonces: nat -> nonce)
    requires Lawful(s) && keys.Usable() && Separates(s.aead, keys.newKek, keys.oldKek)
    requires DistinctCells(slots) && forall k :: 0 <= k < |slots| ==> slots[k].cell in original
    requires Rekeyed(s, keys, slots, original, now, f) && f <= to <= |slots|
    requires Rewrapped(s, keys, slots, now, next, f, to, nonces)
    ensures Rekeyed(s, keys, slots, original, next, to)
  {
    hide RewrapValue, Unwrap;
    forall k | f <= k < to
      ensures now[slots[k].cell] == original[slots[k].cell]
      ensures Unwrap(s, original[slots[k].cell], slots[k].format, keys.oldKek).Ok?
      ensures Unwrap(s, next[slots[k].cell], slots[k].format, keys.newKek)
              == Unwrap(s, original[slots[k].cell], slots[k].format, keys.oldKek)
      ensures Unwrap(s, next[slots[k].cell], slots[k].format, keys.oldKek).Err?
    {
      assert slots[k].cell !in Touched(slots, 0, f);
      RewrapPreserves(s, now[slots[k].cell], slots[k].format, keys.oldKek, keys.newKek, nonces(k));
    }
    forall k | 0 <= k < f ensures next[slots[k].cell] == now[slots[k].cell] {
      assert f < to ==> slots[k].cell !in Touched(slots, f, to);
    }
    assert Touched(slots, 0, to) == Touched(slots, 0, f) + Touched(slots, f, to);
  }

  /** A record whose cursor lags behind the frontier cannot move: its next row no longer opens under the old key. */
  lemma LaggingStuck(s: Suite, targets: seq<Target>, run: Run, original: Cells, w: World, w': World, f: nat,
                     outcome: Outcome, processed: nat)
    requires Lawful(s) && run.keys.Usable()
    requires Frontier(s, targets, run.keys, original, w, f)
    requires Resumed(s, targets, run, w, w', outcome, processed)
    requires run.id in w.rotations && w.rotations[run.id].done < f && w.rotations[run.id].phase != Done
    ensures processed == 0
  {
    hide RewrapValue, Unwrap, Slots;
    var slots := Slots(original.Keys, targets);
    if run.calls > 0 && processed > 0 {
      var k := w.rotations[run.id].done;
      RewrapPreserves(s, w.cells[slots[k].cell], slots[k].format, run.keys.oldKek, run.keys.newKek, run.nonces(k));
    }
  }

  /** A run that is really walking: started on a known record that is not done. */
  predicate Walks(run: Run, w: World) {
    run.keys.Usable() && run.calls > 0 && run.id in w.rotations && w.rotations[run.id].phase != Done
  }

  /** Moving the leading record, or updating a record in place, keeps the records in order. */
  lemma RecordsStep(rotations: map<nat, Progress>, n: nat, f: nat, f': nat, id: nat, p: Progress)
    requires RecordsAt(rotations, n, f) && id in rotations && p.total == n && f <= f'
    requires if f' == f then p.done == rotations[id].done else rotations[id].done == f && p.done == f'
    requires p.phase == Cutover ==> f' == n
    requires forall other :: other in rotations && rotations[other].phase == Cutover ==> f' == n
    ensures RecordsAt(rotations[id := p], n, f')
  {
    var next := rotations[id := p];
    if f' > f {
      assert next[id].done == f';
    } else if f > 0 {
      var leader :| leader in rotations && rotations[leader].done == f;
      assert next[leader].done == f;
    }
  }

  lemma ResumeRecords(s: Suite, targets: seq<Target>, run: Run, w: World, w': World, n: nat, f: nat, outcome: Outcome,
                      processed: nat)
    requires Walks(run, w) && Resumed(s, targets, run, w, w', outcome, processed)
    requires n == |Slots(w.cells.Keys, targets)| && f <= n && RecordsAt(w.rotations, n, f)
    requires w.rotations[run.id].done < f ==> processed == 0
    ensures f + processed <= n && RecordsAt(w'.rotations, n, f + processed)
  {
    hide RewrapValue, Slots, Rewrapped;
    RecordsStep(w.rotations, n, f, f + processed, run.id, w'.rotations[run.id]);
  }

  lemma ResumeFrontier(s: Suite, targets: seq<Target>, run: Run, original: Cells, w: World, w': World, f: nat,
                       outcome: Outcome, processed: nat)
    requires Lawful(s) && DistinctColumns(targets) && Separates(s.aead, run.keys.newKek, run.keys.oldKek)
    requires Frontier(s, targets, run.keys, original, w, f) && Walks(run, w)
    requires Resumed(s, targets, run, w, w', outcome, processed)
    ensures Frontier(s, targets, run.keys, original, w', f + processed)
  {
    hide RewrapValue, Unwrap, Slots, Rekeyed, Rewrapped, RecordsAt;
    var slots := Slots(original.Keys, targets);
    RekeyedKeys(s, run.keys, slots, original, w.cells, f);
    if w.rotations[run.id].done < f {
      LaggingStuck(s, targets, run, original, w, w', f, outcome, processed);
      NothingRewrapped(s, run.keys, slots, w.cells, w'.cells, w.rotations[run.id].done, run.nonces);
    } else {
      SlotsDistinct(original.Keys, targets);
      LeaderAt(w.rotations, |slots|, f, run.id);
      RekeyedStep(s, run.keys, slots, original, w.cells, w'.cells, f, f + processed, run.nonces);
    }
    ResumeRecords(s, targets, run, w, w', |slots|, f, outcome, processed);
  }

  lemma NothingRewrapped(s: Suite, keys: Keys, slots: seq<Slot>, before: Cells, after: Cells, at: nat,
                         nonces: nat -> nonce)
    requires forall k :: 0 <= k < |slots| ==> slots[k].cell in before
    requires Rewrapped(s, keys, slots, before, after, at, at, nonces)
    ensures after == before
  { hide RewrapValue; }

  lemma LeaderAt(rotations: map<nat, Progress>, n: nat, f: nat, id: nat)
    requires RecordsAt(rotations, n, f) && id in rotations && rotations[id].done >= f
    ensures rotations[id].done == f && rotations[id].total == n
  {}

  /** A new record starts at zero. */
  lemma InsertRecords(rotations: map<nat, Progress>, n: nat, f: nat, id: nat)
    requires RecordsAt(rotations, n, f) && id !in rotations
    ensures RecordsAt(rotations[id := Progress(n, 0, Rewrapping)], n, f)
  {
    if f > 0 {
      var leader :| leader in rotations && rotations[leader].done == f;
      assert rotations[id := Progress(n, 0, Rewrapping)][leader].done == f;
    }
  }

  lemma InsertFrontier(s: Suite, targets: seq<Target>, keys: Keys, original: Cells, w: World, id: nat, f: nat)
    requires Frontier(s, targets, keys, original, w, f) && id !in w.rotations
    ensures Frontier(s, targets, keys, original, Inserted(targets, w, id), f)
  {
    hide Rekeyed, RecordsAt, Slots;
    RekeyedKeys(s, keys, Slots(original.Keys, targets), original, w.cells, f);
    InsertRecords(w.rotations, |Slots(original.Keys, targets)|, f, id);
  }

  lemma RekeyedKeys(s: Suite, keys: Keys, slots: seq<Slot>, original: Cells, now: Cells, f: nat)
    requires forall k :: 0 <= k < |slots| ==> slots[k].cell in original
    requires Rekeyed(s, keys, slots, original, now, f)
    ensures now.Keys == original.Keys && f <= |slots|
  { hide Unwrap; }

  lemma ConfirmFrontier(s: Suite, targets: seq<Target>, keys: Keys, original: Cells, w: World, id: nat, f: nat)
    requires Frontier(s, targets, keys, original, w, f)
    ensures Frontier(s, targets, keys, original, Confirmed(w, id), f)
  {
    hide Rekeyed, Slots;
    if id in w.rotations {
      RecordsStep(w.rotations, |Slots(original.Keys, targets)|, f, f, id, w.rotations[id].(phase := Done));
    }
  }

  /** A run that does not get past its checks changes nothing. */
  lemma IdleRun(s: Suite, targets: seq<Target>, run: Run, w: World, w': World, outcome: Outcome, processed: nat)
    requires Resumed(s, targets, run, w, w', outcome, processed) && !Walks(run, w)
    ensures w' == w
  { hide Rewrapped, Slots, RewrapValue; }

  /** Every step that deletes nothing keeps a frontier, and the frontier never moves back. */
  lemma FrontierStep(s: Suite, targets: seq<Target>, keys: Keys, original: Cells, w: World, e: Event, w': World, f: nat)
    returns (f': nat)
    requires Lawful(s) && DistinctColumns(targets) && Separates(s.aead, keys.newKek, keys.oldKek)
    requires Frontier(s, targets, keys, original, w, f) && Next(s, targets, keys, w, e, w') && !e.Delete?
    ensures f' >= f && Frontier(s, targets, keys, original, w', f')
  {
    hide Frontier, Resumed, Walks, Inserted, Confirmed, Lawful, DistinctColumns, Separates;
    f' := f;
    match e
    case Insert(id) => InsertFrontier(s, targets, keys, original, w, id, f);
    case Confirm(id) => ConfirmFrontier(s, targets, keys, original, w, id, f);
    case Resume(run, outcome, processed) =>
      if Walks(run, w) {
        ResumeFrontier(s, targets, run, original, w, w', f, outcome, processed);
        f' := f + processed;
      } else {
        IdleRun(s, targets, run, w, w', outcome, processed);
      }
  }

  /**
   In every history of starts, resumes and confirmations, stopped or failing anywhere, on a fixed set of rows:
   a prefix of the visiting order holds its original secrets under the new key only, the rest is unchanged,
   every record's cursor is at that frontier or has never moved, and cutover means everything was moved.
   */
  lemma {:induction false} EveryRunKeepsAFrontier(s: Suite, targets: seq<Target>, keys: Keys, ws: seq<World>,
                                                  es: seq<Event>)
    returns (f: nat)
    requires Lawful(s) && DistinctColumns(targets) && Separates(s.aead, keys.newKek, keys.oldKek)
    requires IsRun(s, targets, keys, ws, es) && ws[0].rotations == map[]
    requires forall i :: 0 <= i < |es| ==> !es[i].Delete?
    ensures Frontier(s, targets, keys, ws[0].cells, ws[|es|], f)
  {
    hide Slots, Unwrap, Resumed;
    if es == [] {
      f := 0;
    } else {
      var n := |es| - 1;
      f := EveryRunKeepsAFrontier(s, targets, keys, ws[..n + 1], es[..n]);
      assert Next(s, targets, keys, ws[n], es[n], ws[n + 1]);
      f := FrontierStep(s, targets, keys, ws[0].cells, ws[n], es[n], ws[n + 1], f);
    }
  }

  // ----- Nothing is left behind

  lemma AllMoved(s: Suite, targets: seq<Target>, keys: Keys, original: Cells, now: Cells, i: nat, cell: Cell)
    requires DistinctColumns(targets) && i < |targets| && cell in original
    requires cell.table == targets[i].table && cell.column == targets[i].column
    requires Rekeyed(s, keys, Slots(original.Keys, targets), original, now, |Slots(original.Keys, targets)|)
    ensures cell in now && Unwrap(s, now[cell], targets[i].format, keys.oldKek).Err?
    ensures Unwrap(s, now[cell], targets[i].format, keys.newKek)
            == Unwrap(s, original[cell], targets[i].format, keys.oldKek)
    ensures Unwrap(s, original[cell], targets[i].format, keys.oldKek).Ok?
  {
    hide Unwrap, Slots;
    var k := SlotOf(original.Keys, targets, i, cell);
    var j := SlotTarget(original.Keys, targets, k);
    assert j == i;
  }

  /**
   At cutover every non-null cell of every encrypted column of the schema has left the old key and holds its original
   secret under the new one; a cell that its writer had stored reads back the DEK and ciphertext it was written with.
   */
  lemma NothingLeftAtCutover(s: Suite, keys: Keys, ws: seq<World>, es: seq<Event>, id: nat, k: nat, cell: Cell)
    returns (f: Format)
    requires Lawful(s) && Separates(s.aead, keys.newKek, keys.oldKek) && keys.Usable()
    requires IsRun(s, ENCRYPTED_COLUMNS, keys, ws, es) && ws[0].rotations == map[]
    requires forall i :: 0 <= i < |es| ==> !es[i].Delete?
    requires id in ws[|es|].rotations && ws[|es|].rotations[id].phase == Cutover
    requires k < |ENCRYPTED_SCHEMA| && cell in ws[0].cells
    requires cell.table == ENCRYPTED_SCHEMA[k].table && cell.column == ENCRYPTED_SCHEMA[k].column
    ensures cell in ws[|es|].cells && Unwrap(s, ws[|es|].cells[cell], f, keys.oldKek).Err?
    ensures Unwrap(s, ws[|es|].cells[cell], f, keys.newKek) == Unwrap(s, ws[0].cells[cell], f, keys.oldKek)
    ensures ReadsWriter(s, f, ENCRYPTED_SCHEMA[k].writer)
    ensures forall p: bytes, dek: bytes, n1: nonce, n2: nonce | |dek| == DEK_BYTES ::
              ws[0].cells[cell] == Written(s, ENCRYPTED_SCHEMA[k].writer, p, keys.oldKek, dek, n1, n2) ==>
              Unwrap(s, ws[|es|].cells[cell], f, keys.newKek) == Ok(Secret(dek, s.aead.seal(p, dek, n1)))
  {
    hide Unwrap, Slots, Resumed, Next, Written, ENCRYPTED_COLUMNS, ENCRYPTED_SCHEMA, Lawful, Separates;
    EncryptedColumnsDistinct();
    var frontier := EveryRunKeepsAFrontier(s, ENCRYPTED_COLUMNS, keys, ws, es);
    var i := EveryColumnHasATarget(s, k);
    f := ENCRYPTED_COLUMNS[i].format;
    AllMoved(s, ENCRYPTED_COLUMNS, keys, ws[0].cells, ws[|es|].cells, i, cell);
  }

  // ----- How many runs a rotation takes

  /** Every counted cell can be read with the old key. */
  ghost predicate AllReadable(s: Suite, keys: Keys, slots: seq<Slot>, original: Cells)
    requires forall k :: 0 <= k < |slots| ==> slots[k].cell in original
  {
    forall k :: 0 <= k < |slots| ==> Unwrap(s, original[slots[k].cell], slots[k].format, keys.oldKek).Ok?
  }

  /** A row whose value is still the original and readable cannot be the reason a run stops. */
  lemma ReadableRowSucceeds(s: Suite, targets: seq<Target>, run: Run, w: World, w': World, original: bytes,
                            outcome: Outcome, processed: nat)
    requires Lawful(s) && Walks(run, w) && Resumed(s, targets, run, w, w', outcome, processed)
    requires var slots, at := Slots(w.cells.Keys, targets), w.rotations[run.id].done + processed;
             at < |slots| ==>
               w.cells[slots[at].cell] == original && Unwrap(s, original, slots[at].format, run.keys.oldKek).Ok?
    ensures !outcome.RowFailed?
  {
    hide RewrapValue, Unwrap, Slots, Rewrapped;
    var slots, at := Slots(w.cells.Keys, targets), w.rotations[run.id].done + processed;
    if at < |slots| {
      RewrapPreserves(s, original, slots[at].format, run.keys.oldKek, run.keys.newKek, run.nonces(at));
    }
  }

  /** One undisturbed run of the leading record advances by `maxRows`, or finishes. */
  lemma UndisturbedRun(s: Suite, targets: seq<Target>, run: Run, original: Cells, w: World, w': World, f: nat,
                       outcome: Outcome, processed: nat)
    requires Lawful(s) && DistinctColumns(targets)
    requires Frontier(s, targets, run.keys, original, w, f) &&
             AllReadable(s, run.keys, Slots(original.Keys, targets), original)
    requires Walks(run, w) && w.rotations[run.id].done == f && run.maxRows > 0
    requires Resumed(s, targets, run, w, w', outcome, processed) && outcome != DatabaseError
    ensures var n := |Slots(original.Keys, targets)|;
            && f + processed == Min(f + run.maxRows, n)
            && outcome == (if f + run.maxRows >= n then Completed else Incomplete)
  {
    hide RewrapValue, Unwrap, Slots, Rewrapped;
    var slots := Slots(original.Keys, targets);
    SlotsDistinct(original.Keys, targets);
    var at := f + processed;
    if at < |slots| {
      assert slots[at].cell !in Touched(slots, 0, f);
      ReadableRowSucceeds(s, targets, run, w, w', original[slots[at].cell], outcome, processed);
    }
  }

  lemma LimitedRun(s: Suite, targets: seq<Target>, run: Run, original: Cells, w: World, w': World, d: nat,
                   outcome: Outcome, processed: nat)
    requires Lawful(s) && DistinctColumns(targets) && Separates(s.aead, run.keys.newKek, run.keys.oldKek)
    requires AllReadable(s, run.keys, Slots(original.Keys, targets), original) && Walks(run, w) && run.maxRows > 0
    requires var n := |Slots(original.Keys, targets)|;
             Frontier(s, targets, run.keys, original, w, Min(d, n)) && w.rotations[run.id].done == Min(d, n)
    requires Resumed(s, targets, run, w, w', outcome, processed) && outcome != DatabaseError
    ensures var n, d' := |Slots(original.Keys, targets)|, d + run.maxRows;
            && Frontier(s, targets, run.keys, original, w', Min(d', n))
            && run.id in w'.rotations && w'.rotations[run.id].done == Min(d', n) && w'.rotations[run.id].phase != Done
            && outcome == if d' >= n then Completed else Incomplete
  {
    hide Slots, Unwrap, Rewrapped, AllReadable, Frontier, RewrapValue, Lawful, DistinctColumns, Separates;
    var f := Min(d, |Slots(original.Keys, targets)|);
    UndisturbedRun(s, targets, run, original, w, w', f, outcome, processed);
    ResumeFrontier(s, targets, run, original, w, w', f, outcome, processed);
  }

  function RowsIn(runs: nat, m: nat): nat { runs * m }

  lemma CeilingDivision(k: nat, m: nat, n: nat)
    requires m > 0 && k > 0
    ensures RowsIn(k, m) == RowsIn(k - 1, m) + m
    ensures RowsIn(k, m) >= n <==> k >= RunsNeeded(n, m)
  {
    assert k * m == (k - 1) * m + m;
    var q := (n + m - 1) / m;
    assert q * m <= n + m - 1 < q * m + m;
    if k >= q {
      assert k * m >= q * m;
    } else {
      assert (k + 1) * m <= q * m;
    }
  }

  /** The number of runs of `m` rows that a rotation of `n` rows takes. */
  function RunsNeeded(n: nat, m: nat): nat
    requires m > 0
  {
    if n == 0 then 1 else (n + m - 1) / m
  }

  /**
   With a limit of `m` rows per run and no failing database call, run number `RunsNeeded` is the first to
   reach cutover, and every earlier one reports an incomplete rotation after exactly `m` more rows.
   */
  lemma {:induction false} RunsToCutover(s: Suite, targets: seq<Target>, keys: Keys, id: nat, m: nat, ws: seq<World>,
                                         es: seq<Event>)
    requires Lawful(s) && DistinctColumns(targets) && Separates(s.aead, keys.newKek, keys.oldKek) && keys.Usable() &&
             m > 0
    requires IsRun(s, targets, keys, ws, es) && ws[0] == Inserted(targets, World(ws[0].cells, map[]), id)
    requires AllReadable(s, keys, Slots(ws[0].cells.Keys, targets), ws[0].cells)
    requires forall i :: 0 <= i < |es| ==>
               es[i].Resume? && es[i].run.id == id && es[i].run.maxRows == m && es[i].run.calls > 0 &&
                   es[i].outcome != DatabaseError
    ensures var n := |Slots(ws[0].cells.Keys, targets)|;
            && Frontier(s, targets, keys, ws[0].cells, ws[|es|], Min(RowsIn(|es|, m), n))
            && id in ws[|es|].rotations && ws[|es|].rotations[id].done == Min(RowsIn(|es|, m), n) &&
                ws[|es|].rotations[id].phase != Done
            && (es != [] ==> es[|es| - 1].outcome == if |es| >= RunsNeeded(n, m) then Completed else Incomplete)
  {
    hide Slots, Unwrap, Rewrapped, Resumed, Frontier, AllReadable, RowsIn, RunsNeeded, Lawful, DistinctColumns,
        Separates;
    if es == [] {
      NoRuns(m);
      FreshFrontier(s, targets, keys, ws[0].cells, id);
    } else {
      var k := |es| - 1;
      RunsToCutover(s, targets, keys, id, m, ws[..k + 1], es[..k]);
      assert Next(s, targets, keys, ws[k], es[k], ws[k + 1]);
      LimitedRun(s, targets, es[k].run, ws[0].cells, ws[k], ws[k + 1], RowsIn(k, m), es[k].outcome, es[k].processed);
      CeilingDivision(|es|, m, |Slots(ws[0].cells.Keys, targets)|);
    }
  }

  lemma FreshFrontier(s: Suite, targets: seq<Target>, keys: Keys, cells: Cells, id: nat)
    ensures Frontier(s, targets, keys, cells, Inserted(targets, World(cells, map[]), id), 0)
  {}

  lemma NoRuns(m: nat)
    ensures RowsIn(0, m) == 0
  {}

  // ----- Rows deleted between runs

  /** Deleting any cell drops at most its own place. */
  lemma DeleteAny(targets: seq<Target>, w: World, cell: Cell) returns (k: nat)
    requires DistinctColumns(targets)
    ensures var before, after := Slots(w.cells.Keys, targets), Slots((w.cells - {cell}).Keys, targets);
            after == before || (k < |before| && before[k].cell == cell && after == Without(before, k))
  {
    hide Slots;
    k := 0;
    assert (w.cells - {cell}).Keys == w.cells.Keys - {cell};
    if i :| 0 <= i < |targets| && targets[i].table == cell.table && targets[i].column == cell.column {
      if cell in w.cells {
        k := SlotOf(w.cells.Keys, targets, i, cell);
        SlotsRemove(w.cells.Keys, targets, k);
      } else {
        assert w.cells.Keys - {cell} == w.cells.Keys;
      }
    } else {
      SlotsUnaffected(w.cells.Keys, targets, cell);
    }
  }

  /**
   Once fewer rows are left than a rotation counted, no later history of any rotations and deletions
   moves that rotation to cutover.
   */
  lemma {:induction false} NeverCutoverAfterLoss(s: Suite, targets: seq<Target>, keys: Keys, id: nat, ws: seq<World>,
                                                 es: seq<Event>)
    requires DistinctColumns(targets) && IsRun(s, targets, keys, ws, es)
    requires id in ws[0].rotations && |Slots(ws[0].cells.Keys, targets)| < ws[0].rotations[id].total
    ensures id in ws[|es|].rotations && ws[|es|].rotations[id].total == ws[0].rotations[id].total
    ensures |Slots(ws[|es|].cells.Keys, targets)| <= |Slots(ws[0].cells.Keys, targets)|
    ensures ws[|es|].rotations[id].phase == Cutover ==> ws[0].rotations[id].phase == Cutover
  {
    hide Slots, RewrapValue;
    if es != [] {
      var k := |es| - 1;
      NeverCutoverAfterLoss(s, targets, keys, id, ws[..k + 1], es[..k]);
      assert Next(s, targets, keys, ws[k], es[k], ws[k + 1]);
      if es[k].Delete? {
        var j := DeleteAny(targets, ws[k], es[k].cell);
      }
    }
  }

  /** Every row at or after the cursor still holds its original value. */
  ghost predicate Behind(targets: seq<Target>, original: Cells, w: World, done: nat) {
    var slots := Slots(w.cells.Keys, targets);
    forall k :: done <= k < |slots| ==> slots[k].cell in original && w.cells[slots[k].cell] == original[slots[k].cell]
  }

  lemma BehindStep(s: Suite, targets: seq<Target>, keys: Keys, id: nat, original: Cells, w: World, e: Event, w': World)
    requires DistinctColumns(targets) && id in w.rotations && Next(s, targets, keys, w, e, w')
    requires e.Delete? || (e.Resume? && e.run.id == id)
    requires Behind(targets, original, w, w.rotations[id].done)
    ensures id in w'.rotations && Behind(targets, original, w', w'.rotations[id].done)
  {
    hide Slots, RewrapValue;
    var slots := Slots(w.cells.Keys, targets);
    var done := w.rotations[id].done;
    if e.Delete? {
      var k := DeleteAny(targets, w, e.cell);
    } else if Walks(e.run, w) {
      SlotsDistinct(w.cells.Keys, targets);
      forall k | done + e.processed <= k < |slots| ensures w'.cells[slots[k].cell] == w.cells[slots[k].cell] {
        RewrappedBeyond(s, keys, slots, w.cells, w'.cells, done, done + e.processed, e.run.nonces, k);
      }
    }
  }

  lemma {:induction false} BehindRun(s: Suite, targets: seq<Target>, keys: Keys, id: nat, ws: seq<World>,
                                     es: seq<Event>)
    requires DistinctColumns(targets) && IsRun(s, targets, keys, ws, es) && id in ws[0].rotations
    requires forall i :: 0 <= i < |es| ==> es[i].Delete? || (es[i].Resume? && es[i].run.id == id)
    ensures id in ws[|es|].rotations && Behind(targets, ws[0].cells, ws[|es|], ws[|es|].rotations[id].done)
  {
    hide Slots, Resumed;
    if es != [] {
      var k := |es| - 1;
      BehindRun(s, targets, keys, id, ws[..k + 1], es[..k]);
      assert Next(s, targets, keys, ws[k], es[k], ws[k + 1]);
      BehindStep(s, targets, keys, id, ws[0].cells, ws[k], es[k], ws[k + 1]);
    }
  }

  /**
   However a rotation was interrupted and whatever was deleted in between, an unlimited run that meets no
   database error ends in the drift error once rows are missing, leaving the phase as it was.
   */
  lemma LossEndsInDrift(s: Suite, targets: seq<Target>, keys: Keys, ws: seq<World>, es: seq<Event>, run: Run, w': World,
                        outcome: Outcome, processed: nat)
    requires Lawful(s) && DistinctColumns(targets) && IsRun(s, targets, keys, ws, es) && run.id in ws[0].rotations
    requires forall i :: 0 <= i < |es| ==> es[i].Delete? || (es[i].Resume? && es[i].run.id == run.id)
    requires forall t, c :: t in targets && c in ws[0].cells && c.table == t.table && c.column == t.column ==>
               Unwrap(s, ws[0].cells[c], t.format, keys.oldKek).Ok?
    requires run.keys == keys && run.maxRows <= 0 && Walks(run, ws[|es|])
    requires |Slots(ws[|es|].cells.Keys, targets)| < ws[|es|].rotations[run.id].total
    requires Resumed(s, targets, run, ws[|es|], w', outcome, processed) && outcome != DatabaseError
    ensures outcome == Drift && w'.rotations[run.id].phase == ws[|es|].rotations[run.id].phase
  {
    hide Slots, Rewrapped, RewrapValue, Unwrap;
    var w := ws[|es|];
    BehindRun(s, targets, keys, run.id, ws, es);
    var slots, at := Slots(w.cells.Keys, targets), w.rotations[run.id].done + processed;
    if at < |slots| {
      var i := SlotTarget(w.cells.Keys, targets, at);
      ReadableRowSucceeds(s, targets, run, w, w', ws[0].cells[slots[at].cell], outcome, processed);
    }
  }
}
