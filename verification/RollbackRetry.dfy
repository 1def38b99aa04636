/** A case-1 rollback that failed midway, run again: which case it is judged the second time, and what the
    two runs together leave. */
module RollbackRetry {
  import opened Wrappers
  import opened TableWrites
  import opened PhysicalTable
  import opened Migrations
  import opened Strategies
  import opened Orchestrators
  import L = LockRows
  import P = Preconditions

  /** The failed run leaves the lock failed and the migration row as it was: only a row that already said
      `failed` is still case 1. */
  lemma RetriedCase(b: L.Bundle, b': L.Bundle, r: L.RunId, id: L.MigId)
    requires JudgedCaseOne(b, id)
    requires FailedWith(b, b', r, L.LockState.Rollback, id) && b'.migrations == b.migrations
    ensures JudgedCaseOne(b', id) <==> b.migrations[id].status.FailedStatus?
    ensures P.DetermineLifecycleCase(b'.migrations[id], b'.lock, id)
            == Some(if b.migrations[id].status.FailedStatus? then P.CaseOne else P.CaseTwo)
  {
  }

  // ----- What the second run leaves, judged case 2 --------------------------------------------------

  /** Case 1 was to delete every v2 record and to touch no other. */
  lemma OnlyV2Deleted(m: Migration, t0: Items, t: Items, dk: string)
    requires m.fromVersion != m.toVersion && PartWay(CaseOne, m, t0, t)
    ensures Lookup(t, V1Key(m, dk)) == Lookup(t0, V1Key(m, dk))
    ensures Lookup(t, V2Key(m, dk)) == Lookup(t0, V2Key(m, dk)) || V2Key(m, dk) !in t
  {
    assert PartWayAt(CaseOne, m, t0, t, V1Key(m, dk)) && PartWayAt(CaseOne, m, t0, t, V2Key(m, dk));
  }

  /** A projected retry keeps a v1 key exactly where v2 survived the first run, or came to nothing anyway: it
      drops the originals whose v2 the first run had deleted, though the migration never was released. */
  lemma ProjectedRetry(m: Migration, t0: Items, t: Items, t1: Items)
    requires m.fromVersion != m.toVersion && PartWay(CaseOne, m, t0, t) && Reaches(Projected, m, t, t1)
    ensures forall dk: string ::
              Lookup(t1, V1Key(m, dk)) == if V2Key(m, dk) in t then Target(Projected, m, t0, V1Key(m, dk)) else None
    ensures forall dk: string :: V1Key(m, dk) in t0 ==> (V1Key(m, dk) in t1 <==> V2Key(m, dk) in t)
    ensures forall dk: string :: Lookup(t1, V2Key(m, dk)) == Lookup(t, V2Key(m, dk))
  {
    forall dk: string
      ensures Lookup(t1, V1Key(m, dk)) == if V2Key(m, dk) in t then Target(Projected, m, t0, V1Key(m, dk)) else None
      ensures V1Key(m, dk) in t0 ==> (V1Key(m, dk) in t1 <==> V2Key(m, dk) in t)
      ensures Lookup(t1, V2Key(m, dk)) == Lookup(t, V2Key(m, dk))
    {
      OnlyV2Deleted(m, t0, t, dk);
      assert ReachesAt(Projected, m, t, t1, V1Key(m, dk)) && ReachesAt(Projected, m, t, t1, V2Key(m, dk));
    }
  }

  /** Hence the retry gives v1 what a projected rollback from the start would have given it exactly when that
      would have left nothing at any key whose v2 was deleted. */
  lemma ProjectedRetryExact(m: Migration, t0: Items, t: Items, t1: Items)
    requires m.fromVersion != m.toVersion && PartWay(CaseOne, m, t0, t) && Reaches(Projected, m, t, t1)
    ensures (forall dk: string :: ReachesAt(Projected, m, t0, t1, V1Key(m, dk))) <==>
            (forall dk: string :: DeletedWithoutLoss(m, t0, t, dk))
  {
    ProjectedRetry(m, t0, t, t1);
    forall dk: string ensures ReachesAt(Projected, m, t0, t1, V1Key(m, dk)) <==> DeletedWithoutLoss(m, t0, t, dk) {
      OnlyV2Deleted(m, t0, t, dk);
    }
  }

  predicate DeletedWithoutLoss(m: Migration, t0: Items, t: Items, dk: string) {
    V2Key(m, dk) in t0 && V2Key(m, dk) !in t ==> Target(Projected, m, t0, V1Key(m, dk)).None?
  }

  /** Fill-only and snapshot retries keep every v1 original; what is left of v2-only keys is filled in, or
      deleted. */
  lemma OtherRetriesKeepV1(op: Operation, m: Migration, t0: Items, t: Items, t1: Items)
    requires m.fromVersion != m.toVersion && (op == FillOnly || op == Snapshot)
    requires PartWay(CaseOne, m, t0, t) && Reaches(op, m, t, t1)
    ensures forall dk: string :: V1Key(m, dk) in t0 ==> Lookup(t1, V1Key(m, dk)) == Lookup(t0, V1Key(m, dk))
    ensures forall dk: string :: V1Key(m, dk) !in t0 ==>
              Lookup(t1, V1Key(m, dk)) ==
              if op == FillOnly && V2Key(m, dk) in t then Target(FillOnly, m, t0, V1Key(m, dk)) else None
    ensures op == Snapshot ==> forall dk: string :: V2Key(m, dk) in t1 ==> V1Key(m, dk) in t1
  {
    forall dk: string
      ensures V1Key(m, dk) in t0 ==> Lookup(t1, V1Key(m, dk)) == Lookup(t0, V1Key(m, dk))
      ensures V1Key(m, dk) !in t0 ==>
                Lookup(t1, V1Key(m, dk)) ==
                if op == FillOnly && V2Key(m, dk) in t then Target(FillOnly, m, t0, V1Key(m, dk)) else None
      ensures op == Snapshot && V2Key(m, dk) in t1 ==> V1Key(m, dk) in t1
    {
      OnlyV2Deleted(m, t0, t, dk);
      assert ReachesAt(op, m, t, t1, V1Key(m, dk)) && ReachesAt(op, m, t, t1, V2Key(m, dk));
    }
  }

  /** What the retry needs of a key of the table it starts on to finish what case 1 began: nothing left of v2,
      or a strategy that deletes it; and v1 as it is, or nothing there. */
  predicate RetryFinishes(op: Operation, m: Migration, t: Items, dk: string) {
    var v1, v2 := Lookup(t, V1Key(m, dk)), Lookup(t, V2Key(m, dk));
    match op
    case Projected => v2.None? && v1.None?
    case Snapshot => v2.Some? ==> v1.None?
    case Custom => v2.None? && (v1.Some? ==> Resolve(m, TypeC(v1.value, dk)) == Produced(v1.value))
    case _ => v2.None?
  }

  /** The retry ends where the interrupted case-1 run was to end exactly when that holds of every key. */
  lemma RetryConvergesExactly(op: Operation, m: Migration, t0: Items, t: Items, t1: Items)
    requires m.fromVersion != m.toVersion && IsStrategy(op)
    requires PartWay(CaseOne, m, t0, t) && Reaches(op, m, t, t1)
    ensures Reaches(CaseOne, m, t0, t1) <==> forall dk: string :: RetryFinishes(op, m, t, dk)
  {
    forall dk: string
      ensures RetryFinishes(op, m, t, dk) <==>
              ReachesAt(CaseOne, m, t0, t1, V1Key(m, dk)) && ReachesAt(CaseOne, m, t0, t1, V2Key(m, dk))
    {
      OnlyV2Deleted(m, t0, t, dk);
      assert ReachesAt(op, m, t, t1, V1Key(m, dk)) && ReachesAt(op, m, t, t1, V2Key(m, dk));
    }
    if forall dk: string :: RetryFinishes(op, m, t, dk) {
      forall k: PK ensures ReachesAt(CaseOne, m, t0, t1, k) {
        assert RetryFinishes(op, m, t, k.dk);
        assert ReachesAt(op, m, t, t1, k) && PartWayAt(CaseOne, m, t0, t, k);
      }
    }
  }

  // ----- Both runs ---------------------------------------------------------------------------------------

  /** Rolls back a migration judged case 1, and once more if that fails. The retry is never held up by the
      lock the first run left. On a row that said `failed` it is case 1 again and completes the first run; on
      an applied row it is not, and where it is not refused it runs the strategy on what is left: `mid`. */
  method RollbackTwice(store: L.Store, table: Table, staleMs: int, m: Migration, strategy: L.Strategy,
                       first: L.RunId, second: L.RunId, holder: string, yes: bool, proceed: bool)
    returns (o: RunOutcome, retried: bool, lifecycle: Option<P.LifecycleCase>, ghost mid: Items)
    requires table.Valid() && WellFormed(m) && Placed(m, table.items) && IsStrategy(strategy)
    requires JudgedCaseOne(store.State(), m.id)
    modifies store, table
    ensures !retried ==> o.Done? || o.LockHeld?
    ensures !retried && o.Done? ==> Reaches(CaseOne, m, old(table.items), table.items)
    ensures retried ==> !o.LockHeld? && PartWay(CaseOne, m, old(table.items), mid)
    ensures retried ==> (lifecycle == Some(P.CaseOne) <==> old(store.migrations)[m.id].status.FailedStatus?)
    ensures retried && lifecycle == Some(P.CaseOne) && o.Done? ==> Reaches(CaseOne, m, old(table.items), table.items)
    ensures retried && lifecycle != Some(P.CaseOne) && o.Done? && Faithful(strategy, m) && !Declined(strategy, yes, proceed) ==>
              Reaches(strategy, m, mid, table.items)
    ensures retried && o.Refused? ==> table.items == mid
  {
    ghost var b, t0 := store.State(), table.items;
    retried, mid := false, t0;
    ghost var at;
    o, lifecycle, at := Rollback(store, table, staleMs, m, strategy, first, holder, yes, proceed);
    if o.Failed? {
      RetriedCase(b, store.State(), first, m.id);
      retried, mid := true, table.items;
      PlacedStays(CaseOne, m, m, t0, mid);
      o, lifecycle, at := Rollback(store, table, staleMs, m, strategy, second, holder, yes, proceed);
      if o.Done? && lifecycle == Some(P.CaseOne) { Converges(CaseOne, m, t0, mid, table.items); }
    }
  }
}
