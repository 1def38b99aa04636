/** A batch of chained migrations of one entity, undone head first before any release. */
module ChainUnwind {
  import opened Wrappers
  import opened TableWrites
  import opened PhysicalTable
  import opened Migrations
  import opened Audit
  import opened Strategies
  import opened Orchestrators
  import L = LockRows
  import P = Preconditions

  /** Migrations of one entity, each from the version the last one led to, under distinct ids. */
  ghost predicate Chain(ms: seq<Migration>) {
    && (forall i :: 0 <= i < |ms| ==> ms[i].entity == ms[0].entity && ms[i].fromVersion < ms[i].toVersion)
    && (forall i :: 0 < i < |ms| ==> ms[i].fromVersion == ms[i - 1].toVersion)
    && (forall i, j :: 0 <= i < j < |ms| ==> ms[i].id != ms[j].id)
  }

  lemma {:induction false} VersionsClimb(ms: seq<Migration>, i: nat, j: nat)
    requires Chain(ms) && i < j < |ms|
    ensures ms[i].toVersion <= ms[j].fromVersion < ms[j].toVersion
    decreases j
  {
    if i + 1 < j {
      VersionsClimb(ms, i, j - 1);
    }
  }

  // ----- The table ----------------------------------------------------------------------------------

  ghost predicate NoTargets(ms: seq<Migration>, t: Items) {
    forall i :: 0 <= i < |ms| ==> NoVersion(t, ms[i].entity, ms[i].toVersion)
  }

  /** A version is empty until the migration that leads to it is applied. */
  lemma {:induction false} TargetStillEmpty(ms: seq<Migration>, ts: seq<Items>, i: nat, j: nat)
    requires Chain(ms) && AppliedAlong(ms, ts) && NoTargets(ms, ts[0]) && i <= j < |ms|
    ensures NoVersion(ts[i], ms[j].entity, ms[j].toVersion)
    decreases i
  {
    if i > 0 {
      TargetStillEmpty(ms, ts, i - 1, j);
      VersionsClimb(ms, i - 1, j);
      forall dk: string ensures PK(ms[j].entity, ms[j].toVersion, dk) !in ts[i] {
        assert ReachesAt(Apply, ms[i - 1], ts[i - 1], ts[i], PK(ms[j].entity, ms[j].toVersion, dk));
      }
    }
  }

  /** Case 1 of the head takes the table back to where it was before the head was applied. */
  lemma HeadUndone(ms: seq<Migration>, ts: seq<Items>, i: nat, back: Items)
    requires Chain(ms) && AppliedAlong(ms, ts) && NoTargets(ms, ts[0]) && i < |ms|
    requires Reaches(CaseOne, ms[i], ts[i + 1], back)
    ensures back == ts[i]
  {
    TargetStillEmpty(ms, ts, i, i);
    ReachedIsPartWay(Apply, ms[i], ts[i], ts[i + 1]);
    CaseOneUndoesApply(ms[i], ts[i], ts[i + 1], back);
  }

  lemma AppliedAccepted(m: Migration, t: Items, t': Items)
    requires m.fromVersion != m.toVersion && NoVersion(t, m.entity, m.toVersion)
    requires Reaches(Apply, m, t, t') && !SchemaStops(Apply, m, t)
    ensures !SchemaStops(CaseOne, m, t')
  {
    forall dk: string ensures !RejectsAt(CaseOne, m, t', dk) {
      assert ReachesAt(Apply, m, t, t', V2Key(m, dk)) && V2Key(m, dk) !in t && !RejectsAt(Apply, m, t, dk);
    }
  }

  /** What apply put is accepted when its keys are marshalled for the delete. */
  lemma HeadAccepted(ms: seq<Migration>, ts: seq<Items>, i: nat)
    requires Chain(ms) && AppliedAlong(ms, ts) && NoTargets(ms, ts[0]) && AcceptedAlong(ms, ts) && i < |ms|
    ensures !SchemaStops(CaseOne, ms[i], ts[i + 1])
  {
    TargetStillEmpty(ms, ts, i, i);
    AppliedAccepted(ms[i], ts[i], ts[i + 1]);
  }

  lemma {:induction false} RunnableAlong(ms: seq<Migration>, ts: seq<Items>, i: nat)
    requires AppliedAlong(ms, ts) && Runnable(ms, ts[0]) && i <= |ms|
    ensures Runnable(ms, ts[i])
  {
    if i > 0 {
      RunnableAlong(ms, ts, i - 1);
      ReachedIsPartWay(Apply, ms[i - 1], ts[i - 1], ts[i]);
      StaysRunnable(ms, ms[i - 1], ts[i - 1], ts[i]);
    }
  }

  // ----- The rows -----------------------------------------------------------------------------------

  ghost predicate RowOf(b: L.Bundle, m: Migration, status: L.Status) {
    && m.id in b.migrations
    && var row := b.migrations[m.id];
       row.status == status && row.entity == m.entity && row.toVersion == m.toVersion
  }

  /** The lock is still in the release window of the whole chain, `i` migrations of it are applied, the
      rest reverted, and nothing else of the entity is in force beyond the chain's start. */
  ghost predicate UnwoundTo(b: L.Bundle, ms: seq<Migration>, i: nat)
    requires i <= |ms|
  {
    && b.lock.Some? && b.lock.value.state.Release?
    && (forall j :: 0 <= j < i ==> RowOf(b, ms[j], L.Applied) && ms[j].id in b.lock.value.releaseIds)
    && (forall j :: i <= j < |ms| ==> RowOf(b, ms[j], L.Reverted))
    && OthersBelow(b.migrations, ms)
  }

  ghost predicate Below(row: L.MigrationRow, ms: seq<Migration>) {
    ms != [] && row.entity == ms[0].entity && (row.status.Applied? || row.status.Finalized?) ==>
      row.toVersion <= ms[0].fromVersion
  }

  ghost predicate OthersBelow(rows: map<L.MigId, L.MigrationRow>, ms: seq<Migration>) {
    forall id :: id in rows && id !in IdsOf(ms) ==> Below(rows[id], ms)
  }

  lemma IdsIndexed(ms: seq<Migration>, id: L.MigId)
    requires id in IdsOf(ms)
    ensures exists j :: 0 <= j < |ms| && ms[j].id == id
  {
    var m :| m in ms && m.id == id;
    var j :| 0 <= j < |ms| && ms[j] == m;
  }

  /** The last migration not yet reverted is accepted as case 1. */
  lemma HeadJudgedCaseOne(b: L.Bundle, ms: seq<Migration>, i: nat)
    requires Chain(ms) && i < |ms| && UnwoundTo(b, ms, i + 1)
    ensures JudgedCaseOne(b, ms[i].id)
  {
    assert RowOf(b, ms[i], L.Applied);
    forall other | other in b.migrations ensures !P.ViolatesHead(b.migrations, ms[i].id, other) {
      NoneAbove(b, ms, i, other);
    }
  }

  /** Those of the chain before it end at lower versions, those after it are reverted, others lie below. */
  lemma NoneAbove(b: L.Bundle, ms: seq<Migration>, i: nat, other: L.MigId)
    requires Chain(ms) && i < |ms| && UnwoundTo(b, ms, i + 1) && ms[i].id in b.migrations && other in b.migrations
    ensures !P.ViolatesHead(b.migrations, ms[i].id, other)
  {
    assert RowOf(b, ms[i], L.Applied);
    if other in IdsOf(ms) {
      IdsIndexed(ms, other);
      var j :| 0 <= j < |ms| && ms[j].id == other;
      if j < i { VersionsClimb(ms, j, i); }
      if i < j { assert RowOf(b, ms[j], L.Reverted); } else { assert RowOf(b, ms[j], L.Applied); }
    } else {
      assert Below(b.migrations[other], ms);
      if i > 0 { VersionsClimb(ms, 0, i); }
    }
  }

  lemma OneUnwound(b: L.Bundle, b': L.Bundle, ms: seq<Migration>, i: nat, r: L.RunId, row: L.MigrationRow)
    requires Chain(ms) && i < |ms| && UnwoundTo(b, ms, i + 1)
    requires ReleasedWith(b, b', r, L.LockState.Rollback, ms[i].id, row)
    requires row.status.Reverted? && row.entity == ms[i].entity && row.toVersion == ms[i].toVersion
    ensures UnwoundTo(b', ms, i)
  {
    forall j | 0 <= j < i ensures RowOf(b', ms[j], L.Applied) && ms[j].id in b'.lock.value.releaseIds {
      assert RowOf(b, ms[j], L.Applied);
    }
    forall j | i <= j < |ms| ensures RowOf(b', ms[j], L.Reverted) {
      if j > i { assert RowOf(b, ms[j], L.Reverted); }
    }
    assert ms[i].id in IdsOf(ms);
  }

  lemma {:induction false} RowsAfterAt(rows: map<L.MigId, L.MigrationRow>, ms: seq<Migration>, applied: seq<AppliedMigration>, i: nat)
    requires i < |ms| == |applied| && forall i, j :: 0 <= i < j < |ms| ==> ms[i].id != ms[j].id
    ensures var after := RowsAfter(rows, ms, applied);
            ms[i].id in after && after[ms[i].id] == AppliedRow(ms[i], applied[i].counts)
  {
    var n := |ms| - 1;
    if i < n {
      RowsAfterAt(rows, ms[..n], applied[..n], i);
    }
  }

  lemma {:induction false} RowsAfterElsewhere(rows: map<L.MigId, L.MigrationRow>, ms: seq<Migration>, applied: seq<AppliedMigration>, id: L.MigId)
    requires |ms| == |applied| && forall m :: m in ms ==> m.id != id
    ensures var after := RowsAfter(rows, ms, applied);
            (id in after <==> id in rows) && (id in rows ==> after[id] == rows[id])
  {
    if ms != [] {
      assert ms[|ms| - 1] in ms;
      RowsAfterElsewhere(rows, ms[..|ms| - 1], applied[..|ms| - 1], id);
    }
  }

  /** A batch leaves its whole chain in the release window. */
  lemma BatchLeavesChain(b0: L.Bundle, b: L.Bundle, r: L.RunId, ms: seq<Migration>, applied: seq<AppliedMigration>)
    requires Chain(ms) && ms != [] && BatchParked(b0, b, r, ms, applied) && OthersBelow(b0.migrations, ms)
    ensures UnwoundTo(b, ms, |ms|)
  {
    forall j | 0 <= j < |ms| ensures RowOf(b, ms[j], L.Applied) && ms[j].id in b.lock.value.releaseIds {
      RowsAfterAt(b0.migrations, ms, applied, j);
      assert ms[j] in ms && ms[j].id in IdsOf(ms);
    }
    forall id | id in b.migrations && id !in IdsOf(ms) ensures id in b0.migrations && b.migrations[id] == b0.migrations[id] {
      RowsAfterElsewhere(b0.migrations, ms, applied, id);
    }
  }

  // ----- The unwinding --------------------------------------------------------------------------------

  /** A rollback judged case 1 whose v2 records are in their schema: it acquires from release, and only a
      refused write keeps it from its end. */
  method RollbackJudged(store: L.Store, table: Table, staleMs: int, m: Migration, strategy: L.Strategy,
                        r: L.RunId, holder: string, yes: bool, proceed: bool)
    returns (last: RunOutcome)
    requires table.Valid() && WellFormed(m) && Placed(m, table.items) && IsStrategy(strategy)
    requires JudgedCaseOne(store.State(), m.id) && !SchemaStops(CaseOne, m, table.items)
    requires store.lock.Some? && (store.lock.value.state.Release? || L.Idle(store.lock.value.state))
    modifies store, table
    ensures table.Valid() && m.id in old(store.migrations)
    ensures last.Done? ==>
              && Reaches(CaseOne, m, old(table.items), table.items)
              && ReleasedWith(old(store.State()), store.State(), r, L.LockState.Rollback, m.id,
                              RevertedRow(old(store.migrations)[m.id], last.counts, strategy))
    ensures last.Done? || (last.Failed? && table.refused && PartWay(CaseOne, m, old(table.items), table.items))
  {
    var lifecycle;
    ghost var at;
    last, lifecycle, at := Rollback(store, table, staleMs, m, strategy, r, holder, yes, proceed);
  }

  /** Rolls back the head of what is left of the chain. */
  method UnwindHead(store: L.Store, table: Table, staleMs: int, ms: seq<Migration>, left: nat, strategy: L.Strategy,
                    r: L.RunId, holder: string, yes: bool, proceed: bool, ghost ts: seq<Items>)
    returns (last: RunOutcome)
    requires 0 < left <= |ms| && IsStrategy(strategy) && table.Valid()
    requires Chain(ms) && AppliedAlong(ms, ts) && NoTargets(ms, ts[0]) && Runnable(ms, ts[0]) && AcceptedAlong(ms, ts)
    requires UnwoundTo(store.State(), ms, left) && table.items == ts[left]
    modifies store, table
    ensures table.Valid() && (last.Done? || last.Failed?)
    ensures last.Done? ==> UnwoundTo(store.State(), ms, left - 1) && table.items == ts[left - 1]
    ensures last.Failed? ==> PartWay(CaseOne, ms[left - 1], ts[left], table.items) && table.refused
  {
    ghost var b := store.State();
    RunnableAlong(ms, ts, left);
    assert ms[left - 1] in ms && RowOf(b, ms[left - 1], L.Applied);
    HeadJudgedCaseOne(b, ms, left - 1);
    HeadAccepted(ms, ts, left - 1);
    last := RollbackJudged(store, table, staleMs, ms[left - 1], strategy, r, holder, yes, proceed);
    if last.Done? {
      HeadUndone(ms, ts, left - 1, table.items);
      OneUnwound(b, store.State(), ms, left - 1, r, RevertedRow(b.migrations[ms[left - 1].id], last.counts, strategy));
    }
  }

  /** Rolls the chain back head first, each migration in a run of its own, with any strategies. `left`
      is how many migrations are still applied. */
  method UnwindChain(store: L.Store, table: Table, staleMs: int, ms: seq<Migration>, strategies: seq<L.Strategy>,
                     runs: seq<L.RunId>, holder: string, yes: bool, proceed: bool, ghost ts: seq<Items>)
    returns (left: nat, last: RunOutcome)
    requires |strategies| == |runs| == |ms| && forall s :: s in strategies ==> IsStrategy(s)
    requires table.Valid() && Chain(ms) && AppliedAlong(ms, ts) && NoTargets(ms, ts[0]) && Runnable(ms, ts[0])
    requires AcceptedAlong(ms, ts)
    requires UnwoundTo(store.State(), ms, |ms|) && table.items == ts[|ms|]
    modifies store, table
    ensures left <= |ms| && !last.Refused? && !last.LockHeld?
    ensures left == 0 ==> table.items == ts[0] && UnwoundTo(store.State(), ms, 0)
    ensures left > 0 ==> last.Failed? && PartWay(CaseOne, ms[left - 1], ts[left], table.items) && table.refused
  {
    left, last := |ms|, Done(ZERO);
    while left > 0
      invariant left <= |ms| && table.Valid() && !last.Refused? && !last.LockHeld?
      invariant UnwoundTo(store.State(), ms, left) && table.items == ts[left]
    {
      last := UnwindHead(store, table, staleMs, ms, left, strategies[left - 1], runs[left - 1], holder, yes, proceed, ts);
      if !last.Done? {
        return;
      }
      left := left - 1;
    }
  }

  /** Apply the batch, unwind the chain: unless a write fails on the way, the table is the initial one,
      other entities included. Every rollback is accepted as case 1 and acquires from release. */
  method BatchThenUnwind(store: L.Store, table: Table, staleMs: int, ms: seq<Migration>, r: L.RunId,
                         strategies: seq<L.Strategy>, runs: seq<L.RunId>, holder: string, yes: bool, proceed: bool)
    returns (batch: BatchOutcome, left: nat, last: RunOutcome)
    requires ms != [] && |strategies| == |runs| == |ms| && forall s :: s in strategies ==> IsStrategy(s)
    requires table.Valid() && Chain(ms) && Runnable(ms, table.items) && NoTargets(ms, table.items)
    requires store.lock.Some? && L.Idle(store.lock.value.state) && OthersBelow(store.migrations, ms)
    modifies store, table
    ensures batch.BatchDone? || batch.BatchFailed?
    ensures batch.BatchDone? ==> !last.Refused? && !last.LockHeld? && (left > 0 ==> last.Failed? && table.refused)
    ensures batch.BatchDone? && left == 0 ==> table.items == old(table.items)
  {
    ghost var b0 := store.State();
    var applied, toApply;
    ghost var ts, at;
    batch, applied, toApply, ts, at := ApplyBatch(store, table, staleMs, ms, None, r, holder);
    left, last := |ms|, Done(ZERO);
    if batch.BatchDone? {
      BatchLeavesChain(b0, store.State(), r, ms, applied);
      left, last := UnwindChain(store, table, staleMs, ms, strategies, runs, holder, yes, proceed, ts);
    }
  }
}
