/** The decision a rollback makes before it takes the lock: lifecycle case, head-only rule, refusals. */
module Preconditions {
  import opened Wrappers
  import opened LockRows
  import Migrations

  datatype LifecycleCase = CaseOne | CaseTwo | CaseThree

  predicate IsReleaseModeForMig(lock: Option<LockRow>, m: MigId) {
    lock.Some? && lock.value.state.Release? && m in lock.value.releaseIds
  }

  /** `None` is the defensive throw on a reverted row. */
  function DetermineLifecycleCase(row: MigrationRow, lock: Option<LockRow>, m: MigId): Option<LifecycleCase> {
    match row.status
    case FailedStatus => Some(CaseOne)
    case Pending => Some(CaseOne)
    case Applied => Some(if IsReleaseModeForMig(lock, m) then CaseOne else CaseTwo)
    case Finalized => Some(CaseThree)
    case Reverted => None
  }

  /** A later row of the same entity that is still in force. */
  predicate ViolatesHead(rows: map<MigId, MigrationRow>, target: MigId, other: MigId)
    requires target in rows && other in rows
  {
    && rows[other].entity == rows[target].entity
    && other != target
    && (rows[other].status.Applied? || rows[other].status.Finalized?)
    && rows[other].toVersion > rows[target].toVersion
  }

  ghost predicate IsHead(rows: map<MigId, MigrationRow>, target: MigId)
    requires target in rows
  {
    forall other :: other in rows ==> !ViolatesHead(rows, target, other)
  }

  /** A migration in force of an entity the target reads, from a version not older than the target's. */
  predicate BlocksReads(rows: map<MigId, MigrationRow>, target: MigId, other: MigId)
    requires target in rows && other in rows
  {
    && rows[other].entity in rows[target].readsFrom
    && (rows[other].status.Applied? || rows[other].status.Finalized?)
    && rows[other].fromVersion >= rows[target].toVersion
  }

  datatype Refusal =
    | NotFound | AlreadyReverted | NotApplied | OutOfOrder
    | FinalizedOnlyProjected | NoDownFunction | NoResolver | ReadsDependencyApplied

  datatype Decision = Proceed(lifecycle: LifecycleCase) | Refuse(why: Refusal)

  /** The target passed the status and head checks and is not pre-release. */
  ghost predicate PastCaseOne(b: Bundle, id: MigId) {
    && id in b.migrations && IsHead(b.migrations, id)
    && (b.migrations[id].status.Finalized? || (b.migrations[id].status.Applied? && !IsReleaseModeForMig(b.lock, id)))
  }

  /** Strategies a finalized migration does not admit. */
  predicate NeedsV1(row: MigrationRow, strategy: Strategy) {
    row.status.Finalized? && (strategy.Snapshot? || strategy.FillOnly?)
  }

  /** What each answer says of the rows; the answers exclude one another. */
  ghost predicate Decides(b: Bundle, m: Migrations.Migration, strategy: Strategy, d: Decision) {
    && (d == Refuse(NotFound) <==> m.id !in b.migrations)
    && (d == Refuse(AlreadyReverted) <==> m.id in b.migrations && b.migrations[m.id].status.Reverted?)
    && (d == Refuse(NotApplied) <==> m.id in b.migrations && b.migrations[m.id].status.Pending?)
    && (d == Refuse(OutOfOrder) <==>
          && m.id in b.migrations && !b.migrations[m.id].status.Reverted? && !b.migrations[m.id].status.Pending?
          && !IsHead(b.migrations, m.id))
    && (d == Proceed(CaseOne) <==>
          && m.id in b.migrations && IsHead(b.migrations, m.id)
          && var status := b.migrations[m.id].status;
             status.FailedStatus? || (status.Applied? && IsReleaseModeForMig(b.lock, m.id)))
    && (d == Refuse(FinalizedOnlyProjected) <==> PastCaseOne(b, m.id) && NeedsV1(b.migrations[m.id], strategy))
    && (d == Refuse(NoDownFunction) <==>
          PastCaseOne(b, m.id) && !NeedsV1(b.migrations[m.id], strategy) && (strategy.Projected? || strategy.FillOnly?) && m.down.None?)
    && (d == Refuse(NoResolver) <==> PastCaseOne(b, m.id) && strategy.Custom? && m.resolver.None?)
    && (d == Refuse(ReadsDependencyApplied) <==>
          && PastCaseOne(b, m.id) && !NeedsV1(b.migrations[m.id], strategy) && Capable(m, strategy)
          && !NoReadsBlocker(b.migrations, m.id))
    && (d == Proceed(CaseTwo) || d == Proceed(CaseThree) <==>
          && PastCaseOne(b, m.id) && !NeedsV1(b.migrations[m.id], strategy) && Capable(m, strategy)
          && NoReadsBlocker(b.migrations, m.id))
    && (d == Proceed(CaseThree) ==> b.migrations[m.id].status.Finalized?)
    && (d == Proceed(CaseTwo) ==> b.migrations[m.id].status.Applied?)
  }

  predicate InForce(row: MigrationRow) {
    row.status == Applied || row.status == Finalized
  }

  /** The gate, step by step in the order the source checks. */
  method CheckPreconditions(b: Bundle, m: Migrations.Migration, strategy: Strategy) returns (d: Decision)
    ensures Decides(b, m, strategy, d)
  {
    if m.id !in b.migrations { return Refuse(NotFound); }
    var target := b.migrations[m.id];
    if target.status.Reverted? { return Refuse(AlreadyReverted); }
    if target.status.Pending? { return Refuse(NotApplied); }
    if exists other :: other in b.migrations && ViolatesHead(b.migrations, m.id, other) { return Refuse(OutOfOrder); }
    var lifecycle := DetermineLifecycleCase(target, b.lock, m.id).value;
    if lifecycle.CaseOne? { return Proceed(CaseOne); }
    if lifecycle.CaseThree? && (strategy.Snapshot? || strategy.FillOnly?) { return Refuse(FinalizedOnlyProjected); }
    if (strategy.Projected? || strategy.FillOnly?) && m.down.None? { return Refuse(NoDownFunction); }
    if strategy.Custom? && m.resolver.None? { return Refuse(NoResolver); }
    if exists other :: other in b.migrations && BlocksReads(b.migrations, m.id, other) { return Refuse(ReadsDependencyApplied); }
    return Proceed(lifecycle);
  }

  predicate Capable(m: Migrations.Migration, strategy: Strategy) {
    && (strategy.Projected? || strategy.FillOnly? ==> m.down.Some?)
    && (strategy.Custom? ==> m.resolver.Some?)
  }

  ghost predicate NoReadsBlocker(rows: map<MigId, MigrationRow>, target: MigId)
    requires target in rows
  {
    forall other :: other in rows ==> !BlocksReads(rows, target, other)
  }

  // ----- What the decision means for the rows ---------------------------------------------------------

  /** The lock is parked with the migration released under it. */
  predicate InReleaseWindow(b: Bundle, id: MigId) {
    b.lock.Some? && b.lock.value.state == Release && id in b.lock.value.releaseIds
  }

  /** Only the newest migration in force of its entity is rolled back, and nothing in force that reads, or
      may have read, what it wrote stays behind. */
  lemma DecisionLaw(b: Bundle, m: Migrations.Migration, strategy: Strategy, d: Decision)
    requires Decides(b, m, strategy, d)
    ensures d.Proceed? ==> m.id in b.migrations && forall other ::
              other in b.migrations && b.migrations[other].entity == b.migrations[m.id].entity && InForce(b.migrations[other]) ==>
              b.migrations[other].toVersion <= b.migrations[m.id].toVersion
    ensures d == Refuse(OutOfOrder) ==> m.id in b.migrations && exists other ::
              && other in b.migrations && b.migrations[other].entity == b.migrations[m.id].entity && InForce(b.migrations[other])
              && b.migrations[other].toVersion > b.migrations[m.id].toVersion
    ensures d == Proceed(CaseTwo) || d == Proceed(CaseThree) ==> m.id in b.migrations && forall other ::
              other in b.migrations && b.migrations[other].entity in b.migrations[m.id].readsFrom && InForce(b.migrations[other]) ==>
              b.migrations[other].fromVersion < b.migrations[m.id].toVersion
    ensures d == Refuse(ReadsDependencyApplied) ==> m.id in b.migrations && exists other ::
              && other in b.migrations && b.migrations[other].entity in b.migrations[m.id].readsFrom && InForce(b.migrations[other])
              && b.migrations[other].fromVersion >= b.migrations[m.id].toVersion
    ensures m.id in b.migrations && b.migrations[m.id].status == Finalized && (strategy == Migrations.Snapshot || strategy == Migrations.FillOnly) ==>
              d == Refuse(FinalizedOnlyProjected) || d == Refuse(OutOfOrder)
    ensures d == Refuse(FinalizedOnlyProjected) ==>
              m.id in b.migrations && b.migrations[m.id].status == Finalized && (strategy == Migrations.Snapshot || strategy == Migrations.FillOnly)
    ensures d == Proceed(CaseOne) ==>
              && m.id in b.migrations
              && (b.migrations[m.id].status == FailedStatus || (b.migrations[m.id].status == Applied && InReleaseWindow(b, m.id)))
    ensures d == Proceed(CaseTwo) ==> m.id in b.migrations && b.migrations[m.id].status == Applied && !InReleaseWindow(b, m.id)
    ensures d == Proceed(CaseThree) ==> m.id in b.migrations && b.migrations[m.id].status == Finalized
  {
    if d.Proceed? {
      forall other | other in b.migrations && b.migrations[other].entity == b.migrations[m.id].entity && InForce(b.migrations[other])
        ensures b.migrations[other].toVersion <= b.migrations[m.id].toVersion
      {
        assert !ViolatesHead(b.migrations, m.id, other);
      }
    }
    if d == Proceed(CaseTwo) || d == Proceed(CaseThree) {
      forall other | other in b.migrations && b.migrations[other].entity in b.migrations[m.id].readsFrom && InForce(b.migrations[other])
        ensures b.migrations[other].fromVersion < b.migrations[m.id].toVersion
      {
        assert !BlocksReads(b.migrations, m.id, other);
      }
    }
  }
}
