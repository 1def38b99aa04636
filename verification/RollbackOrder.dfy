/** Migrations come back in the reverse of the order they went in: the row one apply writes keeps the
    migrations it was built on from being rolled back under it. */
module RollbackOrder {
  import opened Wrappers
  import opened TableWrites
  import opened PhysicalTable
  import opened Migrations
  import opened Strategies
  import opened Orchestrators
  import L = LockRows
  import P = Preconditions

  /** The runner of one command, and what the operator answers. */
  datatype Runner = Runner(run: L.RunId, holder: string, staleMs: int)

  /** After a newer migration of the entity is applied, the older one cannot be rolled back, with whatever
      strategy, and the attempt changes nothing. */
  method NewerKeepsOlder(store: L.Store, table: Table, newer: Migration, older: Migration, strategy: L.Strategy,
                         first: Runner, second: Runner, yes: bool, proceed: bool)
    returns (applied: RunOutcome, o: RunOutcome, ghost rows: L.Bundle, ghost items: Items)
    requires table.Valid() && IsStrategy(strategy) && newer.id != older.id && SharesKeys(newer, older)
    requires WellFormed(newer) && Placed(newer, table.items) && WellFormed(older) && Placed(older, table.items)
    requires older.id in store.migrations
    requires var row := store.migrations[older.id];
             && row.entity == newer.entity && row.toVersion < newer.toVersion
             && (row.status == L.Applied || row.status == L.Finalized || row.status == L.FailedStatus)
    modifies store, table
    ensures applied.Done? ==> o.Refused? && o.why.OutOfOrder? && store.State() == rows && table.items == items
    ensures applied.Done? ==> Reaches(Apply, newer, old(table.items), items)
  {
    ghost var at, t0 := 0, table.items;
    var lifecycle;
    applied, at := ApplyFlow(store, table, first.staleMs, newer, first.run, first.holder);
    rows, items := store.State(), table.items;
    PlacedStays(Apply, newer, older, t0, table.items);
    if !applied.Done? {
      return applied, applied, rows, items;
    }
    assert P.ViolatesHead(store.migrations, older.id, newer.id);
    o, lifecycle, at := Rollback(store, table, second.staleMs, older, strategy, second.run, second.holder, yes, proceed);
  }

  /** No migration of the reader's entity in force is newer than the reader. */
  ghost predicate NewestOfItsEntity(rows: map<L.MigId, L.MigrationRow>, m: Migration) {
    forall other :: other in rows && other != m.id && rows[other].entity == m.entity && P.InForce(rows[other]) ==>
      rows[other].toVersion <= m.toVersion
  }

  /** The rows on which the reader is refused. */
  lemma ReaderIsKept(b: L.Bundle, reader: Migration, next: L.MigId, strategy: L.Strategy, d: P.Decision)
    requires P.Decides(b, reader, strategy, d) && P.Capable(reader, strategy)
    requires reader.id in b.migrations && next in b.migrations && NewestOfItsEntity(b.migrations, reader)
    requires Describes(b.migrations[reader.id], reader) && b.migrations[reader.id].status == L.Applied
    requires b.lock.Some? && reader.id !in b.lock.value.releaseIds
    requires var row := b.migrations[next];
             row.entity in reader.readsFrom && row.status == L.Applied && row.fromVersion >= reader.toVersion
    ensures d.Refuse? && d.why.ReadsDependencyApplied?
  {
    assert P.IsHead(b.migrations, reader.id);
    assert P.BlocksReads(b.migrations, reader.id, next);
  }

  lemma StaysNewest(rows: map<L.MigId, L.MigrationRow>, rows': map<L.MigId, L.MigrationRow>, reader: Migration, put: L.MigId)
    requires NewestOfItsEntity(rows, reader) && put in rows' && rows' - {put} == rows - {put}
    requires put == reader.id || rows'[put].entity != reader.entity
    ensures NewestOfItsEntity(rows', reader)
  {
    forall other | other in rows' && other != reader.id && rows'[other].entity == reader.entity && P.InForce(rows'[other])
      ensures rows'[other].toVersion <= reader.toVersion
    {
      assert other in rows' - {put} && other in rows - {put};
    }
  }

  /** A migration is applied and its lock cleared; then an entity it reads is migrated on, from a version not
      older than its own. Past its release window the reader cannot be rolled back any more until that
      migration is. */
  method ReadEntityMovesOn(store: L.Store, table: Table, reader: Migration, next: Migration, strategy: L.Strategy,
                           first: Runner, second: Runner, third: Runner, yes: bool, proceed: bool)
    returns (applied: RunOutcome, cleared: bool, moved: RunOutcome, o: RunOutcome)
    requires table.Valid() && IsStrategy(strategy) && P.Capable(reader, strategy)
    requires reader.id != next.id && reader.entity != next.entity
    requires next.entity in reader.readsFrom && next.fromVersion >= reader.toVersion
    requires WellFormed(reader) && Placed(reader, table.items) && WellFormed(next) && Placed(next, table.items)
    requires NewestOfItsEntity(store.migrations, reader)
    modifies store, table
    ensures applied.Done? && cleared && moved.Done? ==> o.Refused? && o.why.ReadsDependencyApplied?
  {
    ghost var at, t0, rows := 0, table.items, store.migrations;
    applied, at := ApplyFlow(store, table, first.staleMs, reader, first.run, first.holder);
    PlacedStays(Apply, reader, next, t0, table.items);
    PlacedStays(Apply, reader, reader, t0, table.items);
    cleared, moved, o := false, applied, applied;
    if applied.Done? {
      StaysNewest(rows, store.migrations, reader, reader.id);
      cleared := store.Clear(first.run);
      if cleared {
        moved, o := MoveOnThenRollback(store, table, reader, next, strategy, second, third, yes, proceed);
      }
    }
  }

  /** The second half: `next` is applied, then the reader is to be rolled back. */
  method MoveOnThenRollback(store: L.Store, table: Table, reader: Migration, next: Migration, strategy: L.Strategy,
                            second: Runner, third: Runner, yes: bool, proceed: bool)
    returns (moved: RunOutcome, o: RunOutcome)
    requires table.Valid() && IsStrategy(strategy) && P.Capable(reader, strategy)
    requires reader.id != next.id && reader.entity != next.entity
    requires next.entity in reader.readsFrom && next.fromVersion >= reader.toVersion
    requires WellFormed(reader) && Placed(reader, table.items) && WellFormed(next) && Placed(next, table.items)
    requires NewestOfItsEntity(store.migrations, reader) && reader.id in store.migrations
    requires Describes(store.migrations[reader.id], reader) && store.migrations[reader.id].status == L.Applied
    requires store.lock.Some? && reader.id !in store.lock.value.releaseIds
    modifies store, table
    ensures moved.Done? ==> o.Refused? && o.why.ReadsDependencyApplied?
  {
    ghost var at, t1, rows := 0, table.items, store.migrations;
    var lifecycle;
    moved, at := ApplyFlow(store, table, second.staleMs, next, second.run, second.holder);
    PlacedStays(Apply, next, reader, t1, table.items);
    o := moved;
    if moved.Done? {
      StaysNewest(rows, store.migrations, reader, next.id);
      ghost var b := store.State();
      o, lifecycle, at := Rollback(store, table, third.staleMs, reader, strategy, third.run, third.holder, yes, proceed);
      ReaderIsKept(b, reader, next.id, strategy, if o.Refused? then P.Refuse(o.why) else P.Proceed(lifecycle.value));
    }
  }
}
