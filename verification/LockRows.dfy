/** The rows the runners coordinate through, and the verbs that change them. Each verb is one atomic
    conditional write: its `where` clause is the guard, and a transaction commits every item or none.
    A `patch` on a row that does not exist is refused. Times are numbers; the source compares ISO
    strings of one fixed form, whose order is the order of the instants. */
module LockRows {
  import opened Wrappers
  import opened Audit
  import Migrations

  type RunId = string
  type MigId = string
  type Strategy = Migrations.Operation

  /** `Unset`: the row is there, but was never given a lock state. */
  datatype LockState = Unset | Free | Apply | Finalize | Rollback | Release | Failed | Dying

  type Mode = s: LockState | s.Apply? || s.Rollback? || s.Finalize? witness LockState.Apply

  /** A string set that becomes empty is an attribute that no longer exists. */
  datatype LockRow = LockRow(
    state: LockState,
    holder: Option<string>,
    runId: Option<RunId>,
    migId: Option<MigId>,
    acquiredAt: Option<int>,
    heartbeatAt: Option<int>,
    inFlightIds: set<MigId>,
    failedIds: set<MigId>,
    releaseIds: set<MigId>)

  const FREE_ROW := LockRow(Free, None, None, None, None, None, {}, {}, {})

  datatype Status = Pending | Applied | Finalized | FailedStatus | Reverted

  type ReleaseOutcome = s: Status | s.Applied? || s.Reverted? witness Applied

  datatype MigrationRow = MigrationRow(
    status: Status,
    entity: string,
    fromVersion: nat,
    toVersion: nat,
    readsFrom: set<string>,
    strategy: Option<Strategy>,
    counts: Option<ItemCounts>)

  datatype RunStatus = Running | Completed | RunFailed

  datatype RunRow = RunRow(command: Mode, status: RunStatus, migId: MigId)

  /** The three internal entities. */
  datatype Bundle = Bundle(lock: Option<LockRow>, migrations: map<MigId, MigrationRow>, runs: map<RunId, RunRow>)

  datatype Verb =
    | Acquire(mode: Mode, migId: MigId, runId: RunId, holder: string)
    | AppendInFlight(runId: RunId, migId: MigId)
    | ResumeApply(runId: RunId, migId: MigId)
    | ToRelease(runId: RunId, migId: MigId, outcome: ReleaseOutcome, counts: Option<ItemCounts>, strategy: Option<Strategy>)
    | MarkFailed(runId: RunId, failing: Option<MigId>)
    | Heartbeat(runId: RunId)
    | Clear(runId: RunId)
    | ClearFinalize(runId: RunId)
    | ForcedClear(runId: RunId)
    | PutMigration(migId: MigId, row: MigrationRow)
    | PatchStatus(migId: MigId, status: Status)

  /** Nobody holds the lock. */
  predicate Idle(s: LockState) {
    s.Unset? || s.Free?
  }

  /** The states a heartbeat keeps alive, and the ones a stale heartbeat gives up to the next run. */
  predicate Active(s: LockState) {
    s.Apply? || s.Rollback? || s.Finalize? || s.Dying?
  }

  predicate StaleBefore(l: LockRow, cutoff: int) {
    Active(l.state) && l.heartbeatAt.Some? && l.heartbeatAt.value < cutoff
  }

  /** `buildAcquireWhereExpression`: no lock state, free, stale, or, for a rollback, parked in release or failed. */
  predicate Acquirable(l: LockRow, mode: Mode, cutoff: int) {
    || Idle(l.state)
    || StaleBefore(l, cutoff)
    || (mode.Rollback? && (l.state.Release? || l.state.Failed?))
  }

  predicate Names(l: LockRow, r: RunId) {
    l.runId == Some(r)
  }

  /** The `where` clause of a verb. */
  predicate Guard(v: Verb, l: LockRow, cutoff: int) {
    match v
    case Acquire(mode, _, _, _) => Acquirable(l, mode, cutoff)
    case AppendInFlight(r, _) => Names(l, r)
    case ResumeApply(r, m) => Names(l, r) && l.state.Release? && l.migId == Some(m)
    case ToRelease(r, _, _, _, _) => Names(l, r) && (l.state.Apply? || l.state.Rollback?)
    case MarkFailed(r, _) => Names(l, r)
    case Heartbeat(r) => Names(l, r) && Active(l.state)
    case Clear(r) => l.state.Release? && Names(l, r) && l.inFlightIds == {}
    case ClearFinalize(r) => Names(l, r) && l.state.Finalize?
    case ForcedClear(r) => Names(l, r)
    case _ => true
  }

  /** The lock row a committed verb leaves. */
  function LockAfter(v: Verb, l: LockRow, now: int): LockRow {
    match v
    case Acquire(mode, m, r, holder) =>
      l.(state := mode, holder := Some(holder), runId := Some(r), migId := Some(m), acquiredAt := Some(now),
         heartbeatAt := Some(now), inFlightIds := l.inFlightIds + {m})
    case AppendInFlight(_, m) => l.(migId := Some(m), inFlightIds := l.inFlightIds + {m})
    case ResumeApply(_, _) => l.(state := LockState.Apply, heartbeatAt := Some(now))
    case ToRelease(_, m, _, _, _) =>
      l.(state := Release, heartbeatAt := Some(now), inFlightIds := l.inFlightIds - {m}, releaseIds := l.releaseIds + {m})
    case MarkFailed(_, failing) =>
      var failed := l.(state := Failed, heartbeatAt := Some(now));
      if failing.Some? then
        failed.(failedIds := l.failedIds + {failing.value}, inFlightIds := l.inFlightIds - {failing.value})
      else failed
    case Heartbeat(_) => l.(heartbeatAt := Some(now))
    case Clear(_) => Cleared(l).(releaseIds := {})
    case ClearFinalize(_) => Cleared(l).(releaseIds := {}, inFlightIds := {})
    case ForcedClear(_) => Cleared(l)
    case _ => l
  }

  function Cleared(l: LockRow): LockRow {
    l.(state := Free, holder := None, runId := None, migId := None, acquiredAt := None, heartbeatAt := None)
  }

  /** One verb against the rows: `None` when refused. `cutoff` is the stale cutoff acquire computes. */
  function Perform(v: Verb, b: Bundle, now: int, cutoff: int): Option<Bundle> {
    match v
    case PutMigration(m, row) => Some(b.(migrations := b.migrations[m := row]))
    case PatchStatus(m, status) =>
      if m in b.migrations then Some(b.(migrations := b.migrations[m := b.migrations[m].(status := status)])) else None
    case _ =>
      if b.lock.None? || !Guard(v, b.lock.value, cutoff) then None
      else
        var l := Some(LockAfter(v, b.lock.value, now));
        match v
        case Acquire(mode, m, r, _) => Some(b.(lock := l, runs := b.runs[r := RunRow(mode, Running, m)]))
        case ToRelease(r, m, outcome, counts, strategy) =>
          if m !in b.migrations || r !in b.runs then None
          else
            var row := b.migrations[m];
            var done := row.(status := outcome,
                             counts := if counts.Some? then counts else row.counts,
                             strategy := if strategy.Some? then strategy else row.strategy);
            Some(Bundle(l, b.migrations[m := done], b.runs[r := b.runs[r].(status := Completed)]))
        case MarkFailed(r, _) =>
          if r !in b.runs then None
          else Some(b.(lock := l, runs := b.runs[r := b.runs[r].(status := RunFailed)]))
        case _ => Some(b.(lock := l))
  }

  // ----- What the rows look like afterwards ----------------------------------------------------------

  predicate NamedBy(lock: Option<LockRow>, r: RunId) {
    lock.Some? && lock.value.runId == Some(r)
  }

  /** Lock and run row say `failed`; the failing migration, if there is one, is no longer in flight but among
      the failed; everything else is as it was. */
  predicate FailsAs(before: Bundle, after: Bundle, r: RunId, failing: Option<MigId>, now: int) {
    && before.lock.Some? && after.lock.Some? && r in before.runs
    && (var l, l' := before.lock.value, after.lock.value;
        var ids := if failing.Some? then {failing.value} else {};
        && l'.state == Failed && l'.heartbeatAt == Some(now)
        && l'.inFlightIds == l.inFlightIds - ids && l'.failedIds == l.failedIds + ids && l'.releaseIds == l.releaseIds
        && l'.holder == l.holder && l'.runId == l.runId && l'.migId == l.migId && l'.acquiredAt == l.acquiredAt)
    && after.runs == before.runs[r := before.runs[r].(status := RunFailed)]
    && after.migrations == before.migrations
  }

  /** The lock is free, names nobody, and keeps these sets; the other rows are as they were. */
  predicate FreedWith(before: Bundle, after: Bundle, inFlightIds: set<MigId>, failedIds: set<MigId>, releaseIds: set<MigId>) {
    && after.lock == Some(LockRow(Free, None, None, None, None, None, inFlightIds, failedIds, releaseIds))
    && after.migrations == before.migrations && after.runs == before.runs
  }

  // ----- The store -------------------------------------------------------------------------------

  class Store {
    var lock: Option<LockRow>
    var migrations: map<MigId, MigrationRow>
    var runs: map<RunId, RunRow>

    function State(): Bundle
      reads this
    {
      Bundle(lock, migrations, runs)
    }

    constructor (initial: Bundle)
      ensures State() == initial
    {
      lock, migrations, runs := initial.lock, initial.migrations, initial.runs;
    }

    /** Did the verb commit, and is the state what it leaves, or refused, and the state untouched? */
    twostate predicate Settled(v: Verb, ok: bool, now: int, cutoff: int)
      reads this
    {
      var next := Perform(v, old(State()), now, cutoff);
      ok == next.Some? && State() == if ok then next.value else old(State())
    }

    method Acquire(mode: Mode, m: MigId, r: RunId, holder: string, now: int, staleThresholdMs: int) returns (ok: bool)
      modifies this
      ensures Settled(Verb.Acquire(mode, m, r, holder), ok, now, now - staleThresholdMs)
      ensures !ok ==> State() == old(State())
      ensures ok ==>
                && migrations == old(migrations) && runs == old(runs)[r := RunRow(mode, Running, m)]
                && old(lock).Some? && lock == Some(LockRow(mode, Some(holder), Some(r), Some(m), Some(now), Some(now),
                     old(lock).value.inFlightIds + {m}, old(lock).value.failedIds, old(lock).value.releaseIds))
      ensures old(lock).Some? ==>
                match old(lock).value.state {
                  case Unset => ok
                  case Free => ok
                  case Release => ok == mode.Rollback?
                  case Failed => ok == mode.Rollback?
                  case _ => ok == (old(lock).value.heartbeatAt.Some? && now - old(lock).value.heartbeatAt.value > staleThresholdMs)
                }
      ensures old(lock).None? ==> !ok
    {
      if lock.None? { return false; }
      var l := lock.value;
      var staleCutoff := now - staleThresholdMs;
      var free := l.state.Unset? || l.state.Free?;
      var stale := Active(l.state) && l.heartbeatAt.Some? && l.heartbeatAt.value < staleCutoff;
      if mode.Rollback? {
        ok := free || l.state.Release? || l.state.Failed? || stale;
      } else {
        ok := free || stale;
      }
      if ok {
        lock := Some(LockRow(mode, Some(holder), Some(r), Some(m), Some(now), Some(now),
                             l.inFlightIds + {m}, l.failedIds, l.releaseIds));
        runs := runs[r := RunRow(mode, Running, m)];
      }
    }

    method AppendInFlight(r: RunId, m: MigId, now: int) returns (ok: bool)
      modifies this
      ensures Settled(Verb.AppendInFlight(r, m), ok, now, 0)
      ensures ok <==> NamedBy(old(lock), r)
      ensures !ok ==> State() == old(State())
      ensures ok ==>
                && migrations == old(migrations) && runs == old(runs)
                && lock == Some(old(lock).value.(migId := Some(m), inFlightIds := old(lock).value.inFlightIds + {m}))
    {
      ok := lock.Some? && lock.value.runId == Some(r);
      if ok {
        lock := Some(lock.value.(migId := Some(m), inFlightIds := lock.value.inFlightIds + {m}));
      }
    }

    method TransitionReleaseToApply(r: RunId, m: MigId, now: int) returns (ok: bool)
      modifies this
      ensures Settled(ResumeApply(r, m), ok, now, 0)
      ensures ok <==> NamedBy(old(lock), r) && old(lock).value.state == Release && old(lock).value.migId == Some(m)
      ensures !ok ==> State() == old(State())
      ensures ok ==>
                && migrations == old(migrations) && runs == old(runs)
                && lock == Some(old(lock).value.(state := LockState.Apply, heartbeatAt := Some(now)))
    {
      ok := lock.Some? && lock.value.runId == Some(r) && lock.value.state.Release? && lock.value.migId == Some(m);
      if ok {
        lock := Some(lock.value.(state := LockState.Apply, heartbeatAt := Some(now)));
      }
    }

    method TransitionToReleaseMode(r: RunId, m: MigId, outcome: ReleaseOutcome, counts: Option<ItemCounts>,
                                   strategy: Option<Strategy>, now: int) returns (ok: bool)
      modifies this
      ensures Settled(ToRelease(r, m, outcome, counts, strategy), ok, now, 0)
      ensures ok <==>
                && NamedBy(old(lock), r) && (old(lock).value.state == LockState.Apply || old(lock).value.state == LockState.Rollback)
                && m in old(migrations) && r in old(runs)
      ensures !ok ==> State() == old(State())
      ensures ok ==>
                && lock == Some(old(lock).value.(state := Release, heartbeatAt := Some(now),
                     inFlightIds := old(lock).value.inFlightIds - {m}, releaseIds := old(lock).value.releaseIds + {m}))
                && runs == old(runs)[r := old(runs)[r].(status := Completed)]
                && migrations - {m} == old(migrations) - {m} && m in migrations
                && migrations[m].status == outcome
                && migrations[m].counts == (if counts.Some? then counts else old(migrations)[m].counts)
                && migrations[m].strategy == (if strategy.Some? then strategy else old(migrations)[m].strategy)
    {
      ok := && lock.Some? && lock.value.runId == Some(r) && (lock.value.state.Apply? || lock.value.state.Rollback?)
            && m in migrations && r in runs;
      if ok {
        lock := Some(lock.value.(state := Release, heartbeatAt := Some(now),
                                 inFlightIds := lock.value.inFlightIds - {m},
                                 releaseIds := lock.value.releaseIds + {m}));
        var row := migrations[m].(status := outcome);
        if counts.Some? { row := row.(counts := counts); }
        if strategy.Some? { row := row.(strategy := strategy); }
        migrations := migrations[m := row];
        runs := runs[r := runs[r].(status := Completed)];
      }
    }

    method MarkFailed(r: RunId, m: Option<MigId>, now: int) returns (ok: bool)
      modifies this
      ensures Settled(Verb.MarkFailed(r, m), ok, now, 0)
      ensures ok <==> NamedBy(old(lock), r) && r in old(runs)
      ensures !ok ==> State() == old(State())
      ensures ok ==> FailsAs(old(State()), State(), r, m, now)
    {
      ok := lock.Some? && lock.value.runId == Some(r) && r in runs;
      if ok {
        var l := lock.value.(state := Failed, heartbeatAt := Some(now));
        if m.Some? {
          l := l.(failedIds := l.failedIds + {m.value}, inFlightIds := l.inFlightIds - {m.value});
        }
        lock := Some(l);
        runs := runs[r := runs[r].(status := RunFailed)];
      }
    }

    method Heartbeat(r: RunId, now: int) returns (ok: bool)
      modifies this
      ensures Settled(Verb.Heartbeat(r), ok, now, 0)
      ensures ok <==> NamedBy(old(lock), r) && !Idle(old(lock).value.state) && old(lock).value.state !in {Release, Failed}
      ensures !ok ==> State() == old(State())
      ensures ok ==> migrations == old(migrations) && runs == old(runs) && lock == Some(old(lock).value.(heartbeatAt := Some(now)))
    {
      ok := && lock.Some? && lock.value.runId == Some(r)
            && (lock.value.state.Apply? || lock.value.state.Rollback? || lock.value.state.Finalize? || lock.value.state.Dying?);
      if ok {
        lock := Some(lock.value.(heartbeatAt := Some(now)));
      }
    }

    method Clear(r: RunId) returns (ok: bool)
      modifies this
      ensures Settled(Verb.Clear(r), ok, 0, 0)
      ensures ok <==> NamedBy(old(lock), r) && old(lock).value.state == Release && old(lock).value.inFlightIds == {}
      ensures !ok ==> State() == old(State())
      ensures ok ==> FreedWith(old(State()), State(), {}, old(lock).value.failedIds, {})
    {
      ok := lock.Some? && lock.value.state.Release? && lock.value.runId == Some(r) && lock.value.inFlightIds == {};
      if ok {
        lock := Some(LockRow(Free, None, None, None, None, None, {}, lock.value.failedIds, {}));
      }
    }

    method ClearFinalizeMode(r: RunId) returns (ok: bool)
      modifies this
      ensures Settled(ClearFinalize(r), ok, 0, 0)
      ensures ok <==> NamedBy(old(lock), r) && old(lock).value.state == LockState.Finalize
      ensures !ok ==> State() == old(State())
      ensures ok ==> FreedWith(old(State()), State(), {}, old(lock).value.failedIds, {})
    {
      ok := lock.Some? && lock.value.runId == Some(r) && lock.value.state.Finalize?;
      if ok {
        lock := Some(LockRow(Free, None, None, None, None, None, {}, lock.value.failedIds, {}));
      }
    }

    /** `unlock` reads the row and then acts on what it read; `Some(v)` is the write it goes for. */
    method UnlockRead(r: RunId) returns (write: Option<Verb>)
      ensures write == UnlockDispatch(old(lock), r)
      ensures lock.None? || Idle(lock.value.state) ==> write == None
      ensures lock.Some? && lock.value.state in {LockState.Apply, LockState.Rollback, LockState.Finalize, Dying} ==>
                write == Some(Verb.MarkFailed(r, lock.value.migId))
      ensures lock.Some? && lock.value.state in {Release, Failed} ==> write == Some(Verb.ForcedClear(r))
    {
      if lock.None? || Idle(lock.value.state) { return None; }
      if Active(lock.value.state) { return Some(Verb.MarkFailed(r, lock.value.migId)); }
      return Some(Verb.ForcedClear(r));
    }

    method ForcedClear(r: RunId) returns (ok: bool)
      modifies this
      ensures Settled(Verb.ForcedClear(r), ok, 0, 0)
      ensures ok <==> NamedBy(old(lock), r)
      ensures !ok ==> State() == old(State())
      ensures ok ==> FreedWith(old(State()), State(), old(lock).value.inFlightIds, old(lock).value.failedIds, old(lock).value.releaseIds)
    {
      ok := lock.Some? && lock.value.runId == Some(r);
      if ok {
        var l := lock.value;
        lock := Some(LockRow(Free, None, None, None, None, None, l.inFlightIds, l.failedIds, l.releaseIds));
      }
    }

    /** `unlock`: `false` is the throw of a refused `markFailed` or patch. Another verb may come between the
        read and the write; this is the case where none does. */
    method Unlock(r: RunId, now: int) returns (ok: bool)
      modifies this
      ensures old(lock).None? || Idle(old(lock).value.state) ==> ok && State() == old(State())
      ensures old(lock).Some? && !Idle(old(lock).value.state) && !NamedBy(old(lock), r) ==> !ok
      ensures NamedBy(old(lock), r) && old(lock).value.state in {LockState.Apply, LockState.Rollback, LockState.Finalize, Dying} ==>
                ok == (r in old(runs)) && (ok ==> FailsAs(old(State()), State(), r, old(lock).value.migId, now))
      ensures NamedBy(old(lock), r) && old(lock).value.state in {Release, Failed} ==>
                ok && FreedWith(old(State()), State(), old(lock).value.inFlightIds, old(lock).value.failedIds, old(lock).value.releaseIds)
      ensures !ok ==> State() == old(State())
      ensures UnlockDispatch(old(lock), r).Some? ==> Settled(UnlockDispatch(old(lock), r).value, ok, now, 0)
    {
      var write := UnlockRead(r);
      if write.None? {
        return true;
      }
      if write.value.MarkFailed? {
        ok := MarkFailed(r, write.value.failing, now);
      } else {
        ok := ForcedClear(r);
      }
    }

    method PutMigration(m: MigId, row: MigrationRow)
      modifies this`migrations
      ensures Settled(Verb.PutMigration(m, row), true, 0, 0)
      ensures migrations == old(migrations)[m := row]
    {
      migrations := migrations[m := row];
    }

    method PatchStatus(m: MigId, status: Status) returns (ok: bool)
      modifies this`migrations
      ensures Settled(Verb.PatchStatus(m, status), ok, 0, 0)
      ensures ok <==> m in old(migrations)
      ensures migrations == if ok then old(migrations)[m := old(migrations)[m].(status := status)] else old(migrations)
    {
      ok := m in migrations;
      if ok {
        migrations := migrations[m := migrations[m].(status := status)];
      }
    }
  }

  function UnlockDispatch(lock: Option<LockRow>, r: RunId): Option<Verb> {
    if lock.None? || Idle(lock.value.state) then None
    else if Active(lock.value.state) then Some(MarkFailed(r, lock.value.migId))
    else Some(ForcedClear(r))
  }
}
