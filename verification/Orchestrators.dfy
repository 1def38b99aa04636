/** The flows a runner goes through from acquire to release, over the rows and the table: apply one,
    apply a batch under one lock, finalize, roll back. Each of these methods is one runner's own
    sequence of steps; what other runners do in between is the business of `LockHistories`. */
module Orchestrators {
  import opened Wrappers
  import opened TableWrites
  import opened PhysicalTable
  import opened BatchFlush
  import opened Migrations
  import opened Audit
  import opened ScanFlows
  import opened TypeTable
  import opened Strategies
  import L = LockRows
  import P = Preconditions

  /** How a run ends. */
  datatype RunOutcome = Done(counts: ItemCounts) | LockHeld | Refused(why: P.Refusal) | Failed(at: FlowResult)

  predicate ThrewIn(o: RunOutcome) {
    o.Failed? && o.at.UserThrew?
  }

  /** What can make an operation fail: user code, the schema of a record, or a write DynamoDB refused. */
  ghost predicate HasCause(op: Operation, m: Migration, t: Items, refused: bool) {
    UserStops(op, m, t) || SchemaStops(op, m, t) || refused
  }

  // ----- The rows a flow leaves ---------------------------------------------------------------------

  function PendingRow(m: Migration): L.MigrationRow {
    L.MigrationRow(L.Pending, m.entity, m.fromVersion, m.toVersion, m.readsFrom, None, None)
  }

  /** The row says which entity the migration is of, between which versions, and what it reads. */
  predicate Describes(row: L.MigrationRow, m: Migration) {
    row.entity == m.entity && row.fromVersion == m.fromVersion && row.toVersion == m.toVersion && row.readsFrom == m.readsFrom
  }

  function AppliedRow(m: Migration, counts: ItemCounts): L.MigrationRow {
    PendingRow(m).(status := L.Applied, counts := Some(counts))
  }

  predicate Holds(b: L.Bundle, r: L.RunId, state: L.LockState) {
    b.lock.Some? && L.Names(b.lock.value, r) && b.lock.value.state == state && r in b.runs
  }

  /** The lock as run `r` parks it after migration `m`; the instant of the last heartbeat is open. */
  predicate Parked(before: L.LockRow, after: L.LockRow, r: L.RunId, m: L.MigId) {
    && after.state.Release? && L.Names(after, r)
    && after.inFlightIds == before.inFlightIds - {m}
    && after.failedIds == before.failedIds
    && after.releaseIds == before.releaseIds + {m}
  }

  /** The lock as run `r` fails it during migration `m`. */
  predicate FailedLock(before: L.LockRow, after: L.LockRow, r: L.RunId, m: L.MigId) {
    && after.state.Failed? && L.Names(after, r)
    && after.inFlightIds == before.inFlightIds - {m}
    && after.failedIds == before.failedIds + {m}
    && after.releaseIds == before.releaseIds
  }

  /** Run `r` went through to release with migration `m` as `row`. */
  predicate ReleasedWith(before: L.Bundle, after: L.Bundle, r: L.RunId, command: L.Mode, m: L.MigId, row: L.MigrationRow) {
    && before.lock.Some? && after.lock.Some? && Parked(before.lock.value, after.lock.value, r, m)
    && after.migrations == before.migrations[m := row]
    && after.runs == before.runs[r := L.RunRow(command, L.Completed, m)]
  }

  /** Run `r` acquired the lock for migration `m` and failed it; what became of the migration rows is
      said where this is used. */
  predicate FailedWith(before: L.Bundle, after: L.Bundle, r: L.RunId, command: L.Mode, m: L.MigId) {
    && before.lock.Some? && after.lock.Some? && FailedLock(before.lock.value, after.lock.value, r, m)
    && after.runs == before.runs[r := L.RunRow(command, L.RunFailed, m)]
  }

  predicate AcquiredBy(before: L.Bundle, after: L.Bundle, r: L.RunId, mode: L.Mode, m: L.MigId) {
    && before.lock.Some? && Holds(after, r, mode)
    && (var l, l' := before.lock.value, after.lock.value;
        l'.inFlightIds == l.inFlightIds + {m} && l'.failedIds == l.failedIds && l'.releaseIds == l.releaseIds)
    && after.migrations == before.migrations
    && after.runs == before.runs[r := L.RunRow(mode, L.Running, m)]
  }

  /** The step from holding the lock to release: what `transitionToReleaseMode` leaves. */
  predicate HandedOver(before: L.Bundle, after: L.Bundle, r: L.RunId, m: L.MigId, row: L.MigrationRow) {
    && before.lock.Some? && after.lock.Some? && r in before.runs && Parked(before.lock.value, after.lock.value, r, m)
    && after.migrations == before.migrations[m := row]
    && after.runs == before.runs[r := before.runs[r].(status := L.Completed)]
  }

  method Now() returns (t: int)
  {
    t :| true;
  }

  // ----- Acquire -------------------------------------------------------------------------------------

  /** A run is at work under the lock, and its last beat is at most `staleMs` old. */
  predicate HeldLive(l: L.LockRow, at: int, staleMs: int) {
    && (l.state.Apply? || l.state.Rollback? || l.state.Finalize? || l.state.Dying?)
    && (l.heartbeatAt.Some? ==> at - l.heartbeatAt.value <= staleMs)
  }

  predicate ParkedState(s: L.LockState) {
    s.Release? || s.Failed?
  }

  /** What keeps a run out at the instant `at`: no lock row, a live holder, or a parked lock unless it is for
      a rollback. */
  predicate Blocked(lock: Option<L.LockRow>, mode: L.Mode, at: int, staleMs: int) {
    lock.None? || HeldLive(lock.value, at, staleMs) || (ParkedState(lock.value.state) && !mode.Rollback?)
  }

  /** `acquireLock`: the conditional write, then the read-back. `at` is the instant it computes the stale
      cutoff from. */
  method AcquireLock(store: L.Store, staleMs: int, mode: L.Mode, m: L.MigId, r: L.RunId, holder: string) returns (ok: bool, ghost at: int)
    modifies store
    ensures ok <==> !Blocked(old(store.lock), mode, at, staleMs)
    ensures !ok ==> store.State() == old(store.State())
    ensures ok ==> AcquiredBy(old(store.State()), store.State(), r, mode, m)
    ensures ok ==> var l := store.lock.value;
              l.holder == Some(holder) && l.migId == Some(m) && l.acquiredAt == l.heartbeatAt == Some(at)
  {
    var now := Now();
    at := now;
    ok := store.Acquire(mode, m, r, holder, now, staleMs);
    if ok {
      ok := store.lock.Some? && store.lock.value.runId == Some(r);
    }
  }

  // ----- Apply ---------------------------------------------------------------------------------------

  /** `transitionToReleaseMode` by the run that holds the lock always commits. */
  method HandOver(store: L.Store, r: L.RunId, m: L.MigId, outcome: L.ReleaseOutcome, counts: ItemCounts, strategy: Option<L.Strategy>)
    returns (ok: bool)
    requires Holds(store.State(), r, L.LockState.Apply) || Holds(store.State(), r, L.LockState.Rollback)
    requires m in store.migrations
    modifies store
    ensures ok
    ensures var row := old(store.migrations)[m];
            HandedOver(old(store.State()), store.State(), r, m,
                       row.(status := outcome, counts := Some(counts), strategy := if strategy.Some? then strategy else row.strategy))
  {
    var now := Now();
    ok := store.TransitionToReleaseMode(r, m, outcome, Some(counts), strategy, now);
  }

  /** The scan of `applyFlowScanWrite` and the count check after it. */
  method ScanAndAudit(table: Table, m: Migration) returns (o: RunOutcome)
    requires table.Valid() && WellFormed(m) && Placed(m, table.items)
    modifies table
    ensures table.Valid()
    ensures o.Done? ==> Reaches(Apply, m, old(table.items), table.items)
    ensures o.Done? ==> Balanced(o.counts) && CountedAll(m, table.rank, old(table.items), o.counts)
    ensures PartWay(Apply, m, old(table.items), table.items)
    ensures o.Done? ==> !UserStops(Apply, m, old(table.items)) && !SchemaStops(Apply, m, old(table.items))
    ensures ThrewIn(o) ==> UserStops(Apply, m, old(table.items))
    ensures o.Failed? ==> HasCause(Apply, m, old(table.items), table.refused)
    ensures o.Done? || o.Failed?
  {
    var audit := new CountAudit();
    ghost var yielded;
    var flow;
    flow, yielded := ApplyScan(m, table, audit);
    if !flow.Finished? {
      return Failed(flow);
    }
    o := Done(audit.Counts());
  }

  /** `applyFlowScanWrite`: put the row, scan and write, check the counts, hand over to release. */
  method ApplyFlowScanWrite(store: L.Store, table: Table, m: Migration, r: L.RunId) returns (o: RunOutcome)
    requires table.Valid() && WellFormed(m) && Placed(m, table.items)
    requires Holds(store.State(), r, L.LockState.Apply)
    modifies store, table
    ensures table.Valid()
    ensures o.Done? ==> Reaches(Apply, m, old(table.items), table.items)
    ensures o.Done? ==> Balanced(o.counts) && CountedAll(m, table.rank, old(table.items), o.counts)
    ensures o.Done? ==> HandedOver(old(store.State()), store.State(), r, m.id, AppliedRow(m, o.counts))
    ensures PartWay(Apply, m, old(table.items), table.items)
    ensures o.Done? ==> !UserStops(Apply, m, old(table.items)) && !SchemaStops(Apply, m, old(table.items))
    ensures ThrewIn(o) ==> UserStops(Apply, m, old(table.items))
    ensures o.Failed? ==> HasCause(Apply, m, old(table.items), table.refused)
    ensures !o.Done? ==> store.State() == old(store.State()).(migrations := old(store.migrations)[m.id := PendingRow(m)])
    ensures o.Done? || o.Failed?
  {
    store.PutMigration(m.id, PendingRow(m));
    o := ScanAndAudit(table, m);
    if o.Done? {
      var ok := HandOver(store, r, m.id, L.Applied, o.counts, None);
    }
  }

  lemma ScannedAll(m: Migration, rank: PK -> real, t: Items)
    requires Injective(rank)
    ensures |InOrder(rank, V1Keys(m, t))| == |V1Keys(m, t)|
  {
    InOrderLists(rank, V1Keys(m, t));
  }

  /** The catch block every flow has: `markFailed`, whose own failure is swallowed. */
  method FailRun(store: L.Store, r: L.RunId, m: L.MigId)
    modifies store
    ensures store.migrations == old(store.migrations)
    ensures old(store.lock).Some? && L.Names(old(store.lock).value, r) && r in old(store.runs) ==>
              && store.lock.Some? && FailedLock(old(store.lock).value, store.lock.value, r, m)
              && store.runs == old(store.runs)[r := old(store.runs)[r].(status := L.RunFailed)]
  {
    var now := Now();
    var ok := store.MarkFailed(r, Some(m), now);
  }

  lemma AcquireThenRelease(b0: L.Bundle, b1: L.Bundle, b2: L.Bundle, r: L.RunId, mode: L.Mode, m: L.MigId, row: L.MigrationRow)
    requires AcquiredBy(b0, b1, r, mode, m) && HandedOver(b1, b2, r, m, row)
    ensures ReleasedWith(b0, b2, r, mode, m, row)
  {
    var ids := b0.lock.value.inFlightIds;
    assert (ids + {m}) - {m} == ids - {m};
  }

  /** `applyFlow`: acquire, wait, scan and write; on a throw fail the lock and patch the row. */
  method ApplyFlow(store: L.Store, table: Table, staleMs: int, m: Migration, r: L.RunId, holder: string)
    returns (o: RunOutcome, ghost at: int)
    requires table.Valid() && WellFormed(m) && Placed(m, table.items)
    modifies store, table
    ensures table.Valid()
    ensures o.LockHeld? ==> store.State() == old(store.State()) && table.items == old(table.items)
    ensures o.LockHeld? <==> Blocked(old(store.lock), L.LockState.Apply, at, staleMs)
    ensures o.Done? ==> Reaches(Apply, m, old(table.items), table.items) && Balanced(o.counts)
    ensures o.Done? ==> CountedAll(m, table.rank, old(table.items), o.counts)
    ensures o.Done? ==> ReleasedWith(old(store.State()), store.State(), r, L.LockState.Apply, m.id, AppliedRow(m, o.counts))
    ensures PartWay(Apply, m, old(table.items), table.items)
    ensures o.Done? ==> !UserStops(Apply, m, old(table.items)) && !SchemaStops(Apply, m, old(table.items))
    ensures ThrewIn(o) ==> UserStops(Apply, m, old(table.items))
    ensures o.Failed? ==> HasCause(Apply, m, old(table.items), table.refused)
    ensures o.Failed? ==>
              && FailedWith(old(store.State()), store.State(), r, L.LockState.Apply, m.id)
              && store.migrations == old(store.migrations)[m.id := PendingRow(m).(status := L.FailedStatus)]
    ensures o.Done? || o.Failed? ==>
              && m.id in store.migrations && Describes(store.migrations[m.id], m)
              && store.migrations[m.id].status == if o.Done? then L.Applied else L.FailedStatus
    ensures !o.Refused?
  {
    ghost var b0 := store.State();
    Untouched(Apply, m, table.items);
    var acquired;
    acquired, at := AcquireLock(store, staleMs, L.LockState.Apply, m.id, r, holder);
    if !acquired {
      return LockHeld, at;
    }
    ghost var b1 := store.State();
    o := ApplyFlowScanWrite(store, table, m, r);
    if o.Done? {
      AcquireThenRelease(b0, b1, store.State(), r, L.LockState.Apply, m.id, AppliedRow(m, o.counts));
    } else {
      FailRun(store, r, m.id);
      assert (b0.lock.value.inFlightIds + {m.id}) - {m.id} == b0.lock.value.inFlightIds - {m.id};
      var patched := store.PatchStatus(m.id, L.FailedStatus);
    }
  }

  // ----- A batch under one lock ---------------------------------------------------------------------

  /** `appendInFlight` then `transitionReleaseToApply`: from the release lock of the previous migration
      back into apply for the next, under the same run id. */
  method NextInBatch(store: L.Store, r: L.RunId, m: L.MigId) returns (ok: bool)
    requires Holds(store.State(), r, L.Release)
    modifies store
    ensures ok && Holds(store.State(), r, L.LockState.Apply)
    ensures store.lock.value.inFlightIds == old(store.lock).value.inFlightIds + {m}
    ensures store.lock.value.failedIds == old(store.lock).value.failedIds
    ensures store.lock.value.releaseIds == old(store.lock).value.releaseIds
    ensures store.migrations == old(store.migrations) && store.runs == old(store.runs)
  {
    var now := Now();
    ok := store.AppendInFlight(r, m, now);
    if ok {
      now := Now();
      ok := store.TransitionReleaseToApply(r, m, now);
    }
  }

  datatype AppliedMigration = AppliedMigration(migId: L.MigId, counts: ItemCounts)

  datatype BatchOutcome =
    | BatchDone
    | NotPending
    | NotNextPending
    | BatchLockHeld
    | BatchFailed(at: FlowResult)

  /** `isNextPending`: the first pending migration of its entity. */
  predicate IsNextPending(pending: seq<Migration>, id: L.MigId) {
    exists i :: 0 <= i < |pending| && FirstOfItsEntity(pending, i) && pending[i].id == id && FirstWithId(pending, i)
  }

  predicate FirstOfItsEntity(pending: seq<Migration>, i: nat)
    requires i < |pending|
  {
    forall j :: 0 <= j < i ==> pending[j].entity != pending[i].entity
  }

  predicate FirstWithId(pending: seq<Migration>, i: nat)
    requires i < |pending|
  {
    forall j :: 0 <= j < i ==> pending[j].id != pending[i].id
  }

  ghost function IdsOf(ms: seq<Migration>): set<L.MigId> {
    set m | m in ms :: m.id
  }

  /** The migration rows after the batch got through `ms`. */
  function RowsAfter(rows: map<L.MigId, L.MigrationRow>, ms: seq<Migration>, applied: seq<AppliedMigration>): map<L.MigId, L.MigrationRow>
    requires |ms| == |applied|
  {
    if ms == [] then rows
    else
      var n := |ms| - 1;
      RowsAfter(rows, ms[..n], applied[..n])[ms[n].id := AppliedRow(ms[n], applied[n].counts)]
  }

  /** Run `r` has applied `ms` and parked the lock: the ids are released, nothing of the batch is in
      flight any more, and the lock still names `r`. */
  ghost predicate BatchParked(before: L.Bundle, after: L.Bundle, r: L.RunId, ms: seq<Migration>, applied: seq<AppliedMigration>) {
    && |ms| == |applied| && (forall i :: 0 <= i < |ms| ==> applied[i].migId == ms[i].id)
    && before.lock.Some? && Holds(after, r, L.Release)
    && after.lock.value.releaseIds == before.lock.value.releaseIds + IdsOf(ms)
    && after.lock.value.inFlightIds == before.lock.value.inFlightIds - IdsOf(ms)
    && after.lock.value.failedIds == before.lock.value.failedIds
    && after.migrations == RowsAfter(before.migrations, ms, applied)
    && after.runs.Keys == before.runs.Keys + {r} && after.runs[r].status == L.Completed
    && forall other :: other in before.runs && other != r ==> after.runs[other] == before.runs[other]
  }

  /** The table went from each migration to the next. */
  ghost predicate AppliedAlong(ms: seq<Migration>, ts: seq<Items>) {
    |ts| == |ms| + 1 && forall i :: 0 <= i < |ms| ==> Reaches(Apply, ms[i], ts[i], ts[i + 1])
  }

  /** No record any of the migrations made was outside its schema. */
  ghost predicate AcceptedAlong(ms: seq<Migration>, ts: seq<Items>) {
    |ts| == |ms| + 1 && forall i :: 0 <= i < |ms| ==> !SchemaStops(Apply, ms[i], ts[i])
  }

  lemma OneMoreAccepted(ms: seq<Migration>, i: nat, ts: seq<Items>, t': Items)
    requires i < |ms| && AcceptedAlong(ms[..i], ts) && !SchemaStops(Apply, ms[i], ts[i])
    ensures AcceptedAlong(ms[..i + 1], ts + [t'])
  {
    assert forall j :: 0 <= j < i ==> ms[..i + 1][j] == ms[..i][j] && (ts + [t'])[j] == ts[j];
  }

  ghost predicate Runnable(ms: seq<Migration>, t: Items) {
    && (forall m :: m in ms ==> WellFormed(m) && Placed(m, t))
    && forall m, other :: m in ms && other in ms ==> SharesKeys(m, other)
  }

  lemma StaysRunnable(ms: seq<Migration>, m: Migration, t: Items, t': Items)
    requires Runnable(ms, t) && m in ms && PartWay(Apply, m, t, t')
    ensures Runnable(ms, t')
  {
    forall other | other in ms ensures Placed(other, t') {
      PlacedStays(Apply, m, other, t, t');
    }
  }

  lemma FirstParked(b0: L.Bundle, b1: L.Bundle, r: L.RunId, m: Migration, counts: ItemCounts)
    requires ReleasedWith(b0, b1, r, L.LockState.Apply, m.id, AppliedRow(m, counts))
    ensures BatchParked(b0, b1, r, [m], [AppliedMigration(m.id, counts)])
  {
    assert IdsOf([m]) == {m.id};
    assert RowsAfter(b0.migrations, [m], [AppliedMigration(m.id, counts)])
           == RowsAfter(b0.migrations, [], [])[m.id := AppliedRow(m, counts)];
  }

  lemma NextParked(b0: L.Bundle, b1: L.Bundle, b2: L.Bundle, r: L.RunId, ms: seq<Migration>,
                   applied: seq<AppliedMigration>, m: Migration, counts: ItemCounts)
    requires BatchParked(b0, b1, r, ms, applied) && HandedOver(b1, b2, r, m.id, AppliedRow(m, counts))
    ensures BatchParked(b0, b2, r, ms + [m], applied + [AppliedMigration(m.id, counts)])
  {
    var ms', applied' := ms + [m], applied + [AppliedMigration(m.id, counts)];
    assert IdsOf(ms') == IdsOf(ms) + {m.id} by {
      assert forall i :: 0 <= i < |ms| ==> ms'[i] == ms[i];
      assert ms'[|ms|] == m;
    }
    assert ms'[..|ms|] == ms && applied'[..|ms|] == applied;
  }

  /** One turn of the batch loop, from release back to release. A failure here leaves the row pending:
      only the first migration's catch block patches it. */
  method NextMigration(store: L.Store, table: Table, m: Migration, r: L.RunId) returns (o: RunOutcome)
    requires table.Valid() && WellFormed(m) && Placed(m, table.items)
    requires Holds(store.State(), r, L.Release)
    modifies store, table
    ensures table.Valid()
    ensures o.Done? ==> Reaches(Apply, m, old(table.items), table.items)
    ensures o.Done? ==> HandedOver(old(store.State()), store.State(), r, m.id, AppliedRow(m, o.counts))
    ensures PartWay(Apply, m, old(table.items), table.items)
    ensures m.id in store.migrations && Describes(store.migrations[m.id], m)
    ensures store.migrations[m.id].status == if o.Done? then L.Applied else L.Pending
    ensures o.Done? ==> !UserStops(Apply, m, old(table.items)) && !SchemaStops(Apply, m, old(table.items))
    ensures ThrewIn(o) ==> UserStops(Apply, m, old(table.items))
    ensures o.Failed? ==> HasCause(Apply, m, old(table.items), table.refused)
    ensures !o.Done? ==>
              && store.lock.Some? && FailedLock(old(store.lock).value, store.lock.value, r, m.id)
              && store.migrations == old(store.migrations)[m.id := PendingRow(m)]
              && store.runs == old(store.runs)[r := old(store.runs)[r].(status := L.RunFailed)]
    ensures o.Done? || o.Failed?
  {
    ghost var ids := store.lock.value.inFlightIds;
    var resumed := NextInBatch(store, r, m.id);
    o := ApplyFlowScanWrite(store, table, m, r);
    if !o.Done? {
      FailRun(store, r, m.id);
    }
    assert (ids + {m.id}) - {m.id} == ids - {m.id};
  }

  /** Which of the pending migrations a batch is to apply, or why none. */
  method SelectPending(pending: seq<Migration>, migrationId: Option<L.MigId>) returns (o: BatchOutcome, toApply: seq<Migration>)
    ensures migrationId.None? ==> o.BatchDone? && toApply == pending
    ensures !o.BatchDone? ==> toApply == []
    ensures migrationId.Some? ==>
              && (o.BatchDone? <==> IsNextPending(pending, migrationId.value))
              && (o.NotPending? <==> forall i :: 0 <= i < |pending| ==> pending[i].id != migrationId.value)
              && (o.BatchDone? || o.NotPending? || o.NotNextPending?)
    ensures o.BatchDone? && migrationId.Some? ==>
              exists i :: 0 <= i < |pending| && FirstOfItsEntity(pending, i) && pending[i].id == migrationId.value && toApply == [pending[i]]
  {
    if migrationId.None? {
      return BatchDone, pending;
    }
    var target := 0;
    while target < |pending| && pending[target].id != migrationId.value
      invariant 0 <= target <= |pending|
      invariant forall j :: 0 <= j < target ==> pending[j].id != migrationId.value
    {
      target := target + 1;
    }
    if target == |pending| {
      return NotPending, [];
    }
    var first := 0;
    while pending[first].entity != pending[target].entity
      invariant 0 <= first <= target
      invariant forall j :: 0 <= j < first ==> pending[j].entity != pending[target].entity
      decreases target - first
    {
      first := first + 1;
    }
    if pending[first].id != migrationId.value {
      return NotNextPending, [];
    }
    assert FirstWithId(pending, target);
    return BatchDone, [pending[target]];
  }

  /** The batch has got through `ms`: tables and rows. */
  ghost predicate BatchAt(b0: L.Bundle, b: L.Bundle, r: L.RunId, ms: seq<Migration>, applied: seq<AppliedMigration>,
                          ts: seq<Items>, t: Items) {
    && BatchParked(b0, b, r, ms, applied)
    && AppliedAlong(ms, ts) && ts[|ms|] == t
  }

  /** A batch that stopped at migration `k`: those before it are applied, `k` itself is part-way, the
      lock is failed in the name of the run, and `k`'s row says `failed` only if it was the first. */
  ghost predicate BatchStopped(b: L.Bundle, r: L.RunId, toApply: seq<Migration>, applied: seq<AppliedMigration>,
                               ts: seq<Items>, t: Items) {
    var k := |applied|;
    && k < |toApply| && AppliedAlong(toApply[..k], ts) && PartWay(Apply, toApply[k], ts[k], t)
    && b.lock.Some? && b.lock.value.state.Failed? && L.Names(b.lock.value, r) && toApply[k].id in b.lock.value.failedIds
    && toApply[k].id in b.migrations
    && b.migrations[toApply[k].id].status == if k == 0 then L.FailedStatus else L.Pending
  }

  /** A batch that fails has a cause in the migration it stopped at, on the table that migration was given. */
  ghost predicate StopsForCause(o: BatchOutcome, toApply: seq<Migration>, applied: seq<AppliedMigration>, ts: seq<Items>, refused: bool) {
    o.BatchFailed? ==>
      && |applied| < |toApply| && |applied| < |ts|
      && (o.at.UserThrew? ==> UserStops(Apply, toApply[|applied|], ts[|applied|]))
      && HasCause(Apply, toApply[|applied|], ts[|applied|], refused)
  }

  lemma BatchAdvances(b0: L.Bundle, b1: L.Bundle, b2: L.Bundle, r: L.RunId, ms: seq<Migration>, i: nat,
                      applied: seq<AppliedMigration>, counts: ItemCounts, ts: seq<Items>, t: Items, t': Items)
    requires i < |ms| && BatchAt(b0, b1, r, ms[..i], applied, ts, t)
    requires HandedOver(b1, b2, r, ms[i].id, AppliedRow(ms[i], counts)) && Reaches(Apply, ms[i], t, t')
    ensures BatchAt(b0, b2, r, ms[..i + 1], applied + [AppliedMigration(ms[i].id, counts)], ts + [t'], t')
  {
    assert ms[..i + 1] == ms[..i] + [ms[i]];
    NextParked(b0, b1, b2, r, ms[..i], applied, ms[i], counts);
    OneMoreApplied(ms[..i], ts, ms[i], t');
  }

  lemma OneMoreApplied(ms: seq<Migration>, ts: seq<Items>, m: Migration, t': Items)
    requires AppliedAlong(ms, ts) && Reaches(Apply, m, ts[|ms|], t')
    ensures AppliedAlong(ms + [m], ts + [t'])
  {
  }

  /** The batch loop, from the second migration on. */
  method FinishBatch(store: L.Store, table: Table, toApply: seq<Migration>, r: L.RunId, first: AppliedMigration,
                     ghost b0: L.Bundle, ghost t0: Items)
    returns (o: BatchOutcome, applied: seq<AppliedMigration>, ghost ts: seq<Items>)
    requires table.Valid() && Runnable(toApply, table.items) && |toApply| > 0
    requires BatchAt(b0, store.State(), r, toApply[..1], [first], [t0, table.items], table.items)
    requires AcceptedAlong(toApply[..1], [t0, table.items])
    modifies store, table
    ensures table.Valid() && ts != [] && ts[0] == t0
    ensures o.BatchDone? ==> BatchAt(b0, store.State(), r, toApply, applied, ts, table.items)
    ensures o.BatchFailed? ==> BatchStopped(store.State(), r, toApply, applied, ts, table.items)
    ensures StopsForCause(o, toApply, applied, ts, table.refused)
    ensures o.BatchDone? || o.BatchFailed?
    ensures o.BatchDone? ==> AcceptedAlong(toApply, ts)
  {
    applied, ts := [first], [t0, table.items];
    var i := 1;
    while i < |toApply|
      invariant 1 <= i <= |toApply| && |applied| == i && ts != [] && ts[0] == t0
      invariant table.Valid() && Runnable(toApply, table.items)
      invariant BatchAt(b0, store.State(), r, toApply[..i], applied, ts, table.items)
      invariant AcceptedAlong(toApply[..i], ts)
    {
      ghost var b1, t := store.State(), table.items;
      var run := NextMigration(store, table, toApply[i], r);
      if !run.Done? {
        return BatchFailed(run.at), applied, ts;
      }
      BatchAdvances(b0, b1, store.State(), r, toApply, i, applied, run.counts, ts, t, table.items);
      StaysRunnable(toApply, toApply[i], t, table.items);
      OneMoreAccepted(toApply, i, ts, table.items);
      applied := applied + [AppliedMigration(toApply[i].id, run.counts)];
      ts := ts + [table.items];
      i := i + 1;
    }
    assert toApply[..i] == toApply;
    o := BatchDone;
  }

  lemma BatchStarts(b0: L.Bundle, b1: L.Bundle, r: L.RunId, ms: seq<Migration>, counts: ItemCounts, t0: Items, t: Items)
    requires ms != [] && ReleasedWith(b0, b1, r, L.LockState.Apply, ms[0].id, AppliedRow(ms[0], counts))
    requires Runnable(ms, t0) && Reaches(Apply, ms[0], t0, t)
    ensures BatchAt(b0, b1, r, ms[..1], [AppliedMigration(ms[0].id, counts)], [t0, t], t) && Runnable(ms, t)
  {
    assert ms[..1] == [ms[0]];
    FirstParked(b0, b1, r, ms[0], counts);
    ReachedIsPartWay(Apply, ms[0], t0, t);
    StaysRunnable(ms, ms[0], t0, t);
  }

  /** `applyBatch`: the first migration through `applyFlow`, the others under the same lock. `ts` are
      the tables between the migrations. */
  method ApplyBatch(store: L.Store, table: Table, staleMs: int, pending: seq<Migration>, migrationId: Option<L.MigId>,
                    r: L.RunId, holder: string)
    returns (o: BatchOutcome, applied: seq<AppliedMigration>, toApply: seq<Migration>, ghost ts: seq<Items>, ghost at: int)
    requires table.Valid() && Runnable(pending, table.items)
    modifies store, table
    ensures table.Valid() && ts != [] && ts[0] == old(table.items)
    ensures o.NotPending? || o.NotNextPending? || o.BatchLockHeld? || toApply == [] ==>
              store.State() == old(store.State()) && table.items == old(table.items)
    ensures o.BatchLockHeld? <==> toApply != [] && Blocked(old(store.lock), L.LockState.Apply, at, staleMs)
    ensures migrationId.None? ==> toApply == pending && !o.NotPending? && !o.NotNextPending?
    ensures migrationId.Some? && o.BatchDone? ==> |toApply| == 1 && toApply[0].id == migrationId.value
    ensures o.BatchDone? && toApply != [] ==> BatchAt(old(store.State()), store.State(), r, toApply, applied, ts, table.items)
    ensures o.BatchDone? ==> AcceptedAlong(toApply, ts)
    ensures o.BatchFailed? ==> BatchStopped(store.State(), r, toApply, applied, ts, table.items)
    ensures StopsForCause(o, toApply, applied, ts, table.refused)
  {
    applied, ts, at := [], [table.items], 0;
    o, toApply := SelectPending(pending, migrationId);
    if !o.BatchDone? || |toApply| == 0 {
      return;
    }
    ghost var b0, t0 := store.State(), table.items;
    assert Runnable(toApply, t0);
    var run;
    run, at := ApplyFlow(store, table, staleMs, toApply[0], r, holder);
    if run.LockHeld? {
      return BatchLockHeld, applied, toApply, ts, at;
    }
    if run.Failed? {
      assert toApply[..0] == [];
      return BatchFailed(run.at), applied, toApply, ts, at;
    }
    BatchStarts(b0, store.State(), r, toApply, run.counts, t0, table.items);
    OneMoreAccepted(toApply, 0, [t0], table.items);
    o, applied, ts := FinishBatch(store, table, toApply, r, AppliedMigration(toApply[0].id, run.counts), b0, t0);
  }

  // ----- Finalize -----------------------------------------------------------------------------------

  /** The reap of `finalizeFlow` and its count check. */
  method ReapAndAudit(table: Table, m: Migration) returns (o: RunOutcome)
    requires table.Valid() && WellFormed(m) && Placed(m, table.items)
    modifies table`items, table`refused
    ensures o.Done? ==> Reaches(Finalize, m, old(table.items), table.items)
    ensures o.Done? ==> var n := |V1Keys(m, old(table.items))|; AllDeleted(o.counts, n)
    ensures PartWay(Finalize, m, old(table.items), table.items)
    ensures o.Done? || (o.Failed? && table.refused)
  {
    var audit := new CountAudit();
    ghost var yielded;
    var flow;
    flow, yielded := FinalizeScan(m, table, audit);
    if !flow.Finished? {
      return Failed(flow);
    }
    ScannedAll(m, table.rank, old(table.items));
    o := Done(audit.Counts());
  }

  /** What a finished finalize leaves of the rows: the lock is free with nothing in flight and nothing
      released. The run row still says `running`: no verb of this flow completes it. */
  predicate FinalizedWith(before: L.Bundle, after: L.Bundle, r: L.RunId, m: L.MigId) {
    && before.lock.Some? && m in before.migrations
    && after.lock == Some(L.FREE_ROW.(failedIds := before.lock.value.failedIds))
    && after.migrations == before.migrations[m := before.migrations[m].(status := L.Finalized)]
    && after.runs == before.runs[r := L.RunRow(L.LockState.Finalize, L.Running, m)]
  }

  method FinalizeFlow(store: L.Store, table: Table, staleMs: int, m: Migration, r: L.RunId, holder: string)
    returns (o: RunOutcome, ghost at: int)
    requires table.Valid() && WellFormed(m) && Placed(m, table.items)
    modifies store, table`items, table`refused
    ensures o.LockHeld? ==> store.State() == old(store.State()) && table.items == old(table.items)
    ensures o.LockHeld? <==> Blocked(old(store.lock), L.LockState.Finalize, at, staleMs)
    ensures o.Done? ==> Reaches(Finalize, m, old(table.items), table.items)
    ensures o.Done? ==> FinalizedWith(old(store.State()), store.State(), r, m.id)
    ensures o.Failed? ==> FailedWith(old(store.State()), store.State(), r, L.LockState.Finalize, m.id)
    ensures o.Failed? ==> store.migrations == old(store.migrations)
    ensures PartWay(Finalize, m, old(table.items), table.items)
    ensures m.id !in old(store.migrations) ==> !o.Done?
    ensures o.Failed? ==> m.id !in old(store.migrations) || table.refused
    ensures !o.Refused?
  {
    ghost var ids := if store.lock.Some? then store.lock.value.inFlightIds else {};
    assert (ids + {m.id}) - {m.id} == ids - {m.id};
    Untouched(Finalize, m, table.items);
    var acquired;
    acquired, at := AcquireLock(store, staleMs, L.LockState.Finalize, m.id, r, holder);
    if !acquired {
      return LockHeld, at;
    }
    o := ReapAndAudit(table, m);
    if o.Done? {
      var patched := store.PatchStatus(m.id, L.Finalized);
      if patched {
        var cleared := store.ClearFinalizeMode(r);
        return;
      }
      o := Failed(WriteFailed);
    }
    FailRun(store, r, m.id);
  }

  // ----- Rollback -----------------------------------------------------------------------------------

  /** What the dispatch of `rollback` is to achieve: case 1 deletes the v2 records whatever strategy
      was asked for, the other cases run the strategy. */
  function Dispatched(lifecycle: P.LifecycleCase, strategy: L.Strategy): Operation {
    if lifecycle.CaseOne? then CaseOne else strategy
  }

  /** The operator was asked about data loss and said no. */
  predicate Declined(op: Operation, yes: bool, proceed: bool) {
    op == Snapshot && !yes && !proceed
  }

  /** User code threw, or a record is outside the schema. */
  predicate StopsBeforeWrites(at: FlowResult) {
    at.UserThrew? || at.SchemaRejected?
  }

  /** The `switch` over the strategy. */
  method ExecuteStrategy(op: Operation, m: Migration, table: Table, rows: seq<TypeTableEntry>, audit: CountAudit, yes: bool, proceed: bool)
    returns (flow: FlowResult)
    requires table.Valid() && WellFormed(m) && Placed(m, table.items) && AllRows(m, table.items, rows)
    requires IsStrategy(op) && audit.AllZero()
    modifies table, audit
    ensures table.Valid()
    ensures flow.Finished? && !Declined(op, yes, proceed) && Faithful(op, m) ==> Reaches(op, m, old(table.items), table.items)
    ensures Declined(op, yes, proceed) ==> flow.Finished? && table.items == old(table.items)
    ensures Faithful(op, m) ==> PartWay(op, m, old(table.items), table.items)
    ensures flow.Finished? && !Declined(op, yes, proceed) ==> NoneFails(op, m, rows) && audit.Counts() == StrategyCounts(op, m, rows)
    ensures Declined(op, yes, proceed) ==> OnlySkipped(audit.Counts(), |rows|, |rows|)
    ensures StopsBeforeWrites(flow) ==> unchanged(table)
    ensures flow.UserThrew? <==> UserStops(op, m, old(table.items))
    ensures flow.SchemaRejected? <==>
              !Declined(op, yes, proceed) && !UserStops(op, m, old(table.items)) && SchemaStops(op, m, old(table.items))
    ensures flow.WriteFailed? ==> table.refused
    ensures flow.Finished? ==> Applied(old(table.log), table.log, audit.moved, audit.deleted)
    ensures !flow.CountMismatch?
  {
    if op.Projected? {
      flow := ExecuteProjected(m, table, rows, audit);
    } else if op.Snapshot? {
      flow := ExecuteSnapshot(m, table, rows, audit, yes, proceed);
    } else if op.FillOnly? {
      flow := ExecuteFillOnly(m, table, rows, audit);
    } else {
      flow := ExecuteCustom(m, table, rows, audit);
    }
  }

  method RunStrategy(table: Table, m: Migration, op: Operation, audit: CountAudit, yes: bool, proceed: bool) returns (flow: FlowResult)
    requires table.Valid() && WellFormed(m) && Placed(m, table.items) && IsStrategy(op) && audit.AllZero()
    modifies table, audit
    ensures table.Valid()
    ensures flow.Finished? && !Declined(op, yes, proceed) && Faithful(op, m) ==> Reaches(op, m, old(table.items), table.items)
    ensures Declined(op, yes, proceed) ==> flow.Finished? && table.items == old(table.items)
    ensures Faithful(op, m) ==> PartWay(op, m, old(table.items), table.items)
    ensures flow.Finished? ==> Balanced(audit.Counts())
    ensures StopsBeforeWrites(flow) ==> unchanged(table)
    ensures flow.UserThrew? <==> UserStops(op, m, old(table.items))
    ensures flow.SchemaRejected? <==>
              !Declined(op, yes, proceed) && !UserStops(op, m, old(table.items)) && SchemaStops(op, m, old(table.items))
    ensures flow.WriteFailed? ==> table.refused
    ensures flow.Finished? ==> Applied(old(table.log), table.log, audit.moved, audit.deleted)
    ensures !flow.CountMismatch?
  {
    var rows := ClassifyTypeTable(m, table);
    RowsPartition(m, table.rank, table.items);
    flow := ExecuteStrategy(op, m, table, rows, audit, yes, proceed);
    if flow.Finished? && !Declined(op, yes, proceed) {
      StrategyCountsBalanced(op, m, rows);
    }
  }

  method RunCaseOne(table: Table, m: Migration, audit: CountAudit) returns (flow: FlowResult)
    requires table.Valid() && WellFormed(m) && Placed(m, table.items) && audit.AllZero()
    modifies table, audit
    ensures table.Valid()
    ensures flow.Finished? ==> Reaches(CaseOne, m, old(table.items), table.items)
    ensures flow.Finished? ==> AllDeleted(audit.Counts(), |V2Keys(m, old(table.items))|)
    ensures PartWay(CaseOne, m, old(table.items), table.items)
    ensures !flow.UserThrew? && !flow.CountMismatch?
    ensures flow.SchemaRejected? ==> SchemaStops(CaseOne, m, old(table.items))
    ensures flow.Finished? ==> !SchemaStops(CaseOne, m, old(table.items))
    ensures flow.WriteFailed? ==> table.refused
  {
    ghost var yielded;
    InOrderLists(table.rank, V2Keys(m, table.items));
    flow, yielded := RollbackCase1(m, table, audit);
  }

  /** Dispatch by lifecycle case, then the closing count check, which never fails. */
  method DispatchAndAudit(table: Table, m: Migration, lifecycle: P.LifecycleCase, strategy: L.Strategy, yes: bool, proceed: bool)
    returns (o: RunOutcome)
    requires table.Valid() && WellFormed(m) && Placed(m, table.items) && IsStrategy(strategy)
    modifies table
    ensures table.Valid()
    ensures var op := Dispatched(lifecycle, strategy);
            && (o.Done? && !Declined(op, yes, proceed) && Faithful(op, m) ==> Reaches(op, m, old(table.items), table.items))
            && (Declined(op, yes, proceed) ==> o.Done? && table.items == old(table.items))
            && (Faithful(op, m) ==> PartWay(op, m, old(table.items), table.items))
    ensures o.Done? ==> Balanced(o.counts)
    ensures o.Done? || o.Failed?
    ensures o.Failed? ==> !o.at.CountMismatch?
    ensures o.Failed? && StopsBeforeWrites(o.at) && !lifecycle.CaseOne? ==> unchanged(table)
    ensures ThrewIn(o) <==> UserStops(Dispatched(lifecycle, strategy), m, old(table.items))
    ensures o.Failed? ==> HasCause(Dispatched(lifecycle, strategy), m, old(table.items), table.refused)
    ensures o.Done? ==> Declined(Dispatched(lifecycle, strategy), yes, proceed) || !SchemaStops(Dispatched(lifecycle, strategy), m, old(table.items))
    ensures o.Done? && !lifecycle.CaseOne? ==> Applied(old(table.log), table.log, o.counts.moved, o.counts.deleted)
    ensures o.Done? && lifecycle.CaseOne? ==> AllDeleted(o.counts, |V2Keys(m, old(table.items))|)
  {
    var audit := new CountAudit();
    var flow;
    if lifecycle.CaseOne? {
      flow := RunCaseOne(table, m, audit);
    } else {
      flow := RunStrategy(table, m, strategy, audit, yes, proceed);
    }
    if !flow.Finished? {
      return Failed(flow);
    }
    var balanced := audit.AssertInvariant();
    o := if balanced then Done(audit.Counts()) else Failed(CountMismatch);
  }

  function RevertedRow(row: L.MigrationRow, counts: ItemCounts, strategy: L.Strategy): L.MigrationRow {
    row.(status := L.Reverted, counts := Some(counts), strategy := Some(strategy))
  }

  /** `rollback`: the decision is made before the lock is taken. */
  method Rollback(store: L.Store, table: Table, staleMs: int, m: Migration, strategy: L.Strategy, r: L.RunId, holder: string,
                  yes: bool, proceed: bool)
    returns (o: RunOutcome, lifecycle: Option<P.LifecycleCase>, ghost at: int)
    requires table.Valid() && WellFormed(m) && Placed(m, table.items) && IsStrategy(strategy)
    modifies store, table
    ensures table.Valid()
    ensures o.Refused? || o.LockHeld? ==> store.State() == old(store.State()) && table.items == old(table.items)
    ensures o.Refused? <==> lifecycle.None?
    ensures P.Decides(old(store.State()), m, strategy, if o.Refused? then P.Refuse(o.why) else P.Proceed(lifecycle.value))
    ensures lifecycle == Some(P.CaseOne) <==> JudgedCaseOne(old(store.State()), m.id)
    ensures o.LockHeld? <==> lifecycle.Some? && Blocked(old(store.lock), L.LockState.Rollback, at, staleMs)
    ensures o.Done? ==> lifecycle.Some? && Balanced(o.counts) && m.id in old(store.migrations)
    ensures o.Done? ==> var op := Dispatched(lifecycle.value, strategy);
              Faithful(op, m) && !Declined(op, yes, proceed) ==> Reaches(op, m, old(table.items), table.items)
    ensures o.Done? && Declined(Dispatched(lifecycle.value, strategy), yes, proceed) ==> table.items == old(table.items)
    ensures o.Done? ==> ReleasedWith(old(store.State()), store.State(), r, L.LockState.Rollback, m.id,
                                     RevertedRow(old(store.migrations)[m.id], o.counts, strategy))
    ensures o.Done? ==>
              && m.id in store.migrations
              && store.migrations[m.id].status == L.Reverted
              && store.migrations[m.id].strategy == Some(strategy) && store.migrations[m.id].counts == Some(o.counts)
    ensures o.Failed? ==> FailedWith(old(store.State()), store.State(), r, L.LockState.Rollback, m.id)
                          && store.migrations == old(store.migrations) && !o.at.CountMismatch?
    ensures o.Failed? && StopsBeforeWrites(o.at) && lifecycle != Some(P.CaseOne) ==> unchanged(table)
    ensures lifecycle.Some? && !o.LockHeld? ==>
              (ThrewIn(o) <==> UserStops(Dispatched(lifecycle.value, strategy), m, old(table.items)))
    ensures o.Failed? ==> HasCause(Dispatched(lifecycle.value, strategy), m, old(table.items), table.refused)
    ensures o.Done? ==> var op := Dispatched(lifecycle.value, strategy);
              Declined(op, yes, proceed) || !SchemaStops(op, m, old(table.items))
    ensures o.Done? && lifecycle != Some(P.CaseOne) ==> Applied(old(table.log), table.log, o.counts.moved, o.counts.deleted)
    ensures o.Done? && lifecycle == Some(P.CaseOne) ==> AllDeleted(o.counts, |V2Keys(m, old(table.items))|)
    ensures lifecycle.Some? && Faithful(Dispatched(lifecycle.value, strategy), m) ==>
              PartWay(Dispatched(lifecycle.value, strategy), m, old(table.items), table.items)
  {
    var decision := P.CheckPreconditions(store.State(), m, strategy);
    if decision.Refuse? {
      return Refused(decision.why), None, 0;
    }
    ghost var b0 := store.State();
    lifecycle := Some(decision.lifecycle);
    Untouched(Dispatched(decision.lifecycle, strategy), m, table.items);
    var acquired;
    acquired, at := AcquireLock(store, staleMs, L.LockState.Rollback, m.id, r, holder);
    if !acquired {
      return LockHeld, lifecycle, at;
    }
    ghost var b1 := store.State();
    o := DispatchAndAudit(table, m, decision.lifecycle, strategy, yes, proceed);
    if o.Done? {
      var ok := HandOver(store, r, m.id, L.Reverted, o.counts, Some(strategy));
      AcquireThenRelease(b0, b1, store.State(), r, L.LockState.Rollback, m.id, RevertedRow(b0.migrations[m.id], o.counts, strategy));
    } else {
      FailRun(store, r, m.id);
      assert (b0.lock.value.inFlightIds + {m.id}) - {m.id} == b0.lock.value.inFlightIds - {m.id};
    }
  }

  /** The rows on which a rollback goes the case-1 way. */
  ghost predicate JudgedCaseOne(b: L.Bundle, id: L.MigId) {
    && id in b.migrations && P.IsHead(b.migrations, id)
    && (b.migrations[id].status.FailedStatus? || (b.migrations[id].status.Applied? && P.IsReleaseModeForMig(b.lock, id)))
  }
}
