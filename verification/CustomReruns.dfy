/** Re-running an interrupted `custom` rollback. The resolver of the second run is asked about rows whose
    v1 half may already be its own answer; whether the runs converge is decided row by row. */
module CustomReruns {
  import opened Wrappers
  import opened TableWrites
  import opened PhysicalTable
  import opened BatchFlush
  import opened Migrations
  import opened Audit
  import opened TypeTable
  import opened Strategies

  /** The v1 half the resolver leaves. */
  function Answer(m: Migration, v1: Option<Record>, v2: Option<Record>, dk: string): Option<Record> {
    var row := RowFor(v1, v2, dk);
    if row.Some? && Resolve(m, row.value).Produced? then Some(Resolve(m, row.value).rec) else None
  }

  /** The resolver does not throw on the row, and the v1 schema admits its answer. */
  predicate Passes(m: Migration, v1: Option<Record>, v2: Option<Record>, dk: string) {
    var row := RowFor(v1, v2, dk);
    row.Some? ==> !Decide(Custom, m, row.value).Fail?
  }

  predicate PassesAt(m: Migration, t: Items, dk: string) {
    Passes(m, Lookup(t, V1Key(m, dk)), Lookup(t, V2Key(m, dk)), dk)
  }

  ghost predicate AllPass(m: Migration, t: Items) {
    forall dk: string :: PassesAt(m, t, dk)
  }

  /** Asked about a row whose v1 half is its own answer, the resolver gives that answer again. */
  predicate Settles(m: Migration, t: Items, dk: string) {
    var v2 := Lookup(t, V2Key(m, dk));
    var answer := Answer(m, Lookup(t, V1Key(m, dk)), v2, dk);
    Passes(m, answer, v2, dk) && Answer(m, answer, v2, dk) == answer
  }

  ghost predicate AllSettle(m: Migration, t: Items) {
    forall dk: string :: Settles(m, t, dk)
  }

  /** From `t`, which an interrupted run left, no row stops the next run, and a complete one ends where an
      uninterrupted run from `t0` ends. */
  ghost predicate ConvergesFrom(m: Migration, t0: Items, t: Items, t1: Items) {
    PartWay(Custom, m, t0, t) ==> AllPass(m, t) && (Reaches(Custom, m, t, t1) ==> Reaches(Custom, m, t0, t1))
  }

  ghost predicate RerunsConverge(m: Migration, t0: Items) {
    forall t: Items, t1: Items :: ConvergesFrom(m, t0, t, t1)
  }

  /** Where an interrupted run may have left a row: as it was, or with the answer in place of v1. */
  lemma RowPartWay(m: Migration, t0: Items, t: Items, dk: string)
    requires m.fromVersion != m.toVersion && PartWay(Custom, m, t0, t)
    ensures var a, b := V1Key(m, dk), V2Key(m, dk);
            && Lookup(t, b) == Lookup(t0, b)
            && (Lookup(t, a) == Lookup(t0, a) || Lookup(t, a) == Answer(m, Lookup(t0, a), Lookup(t0, b), dk))
  {
    assert PartWayAt(Custom, m, t0, t, V1Key(m, dk)) && PartWayAt(Custom, m, t0, t, V2Key(m, dk));
  }

  lemma SettledRunsConverge(m: Migration, t0: Items, t: Items, t1: Items)
    requires m.fromVersion != m.toVersion && AllPass(m, t0) && AllSettle(m, t0)
    ensures ConvergesFrom(m, t0, t, t1)
  {
    if PartWay(Custom, m, t0, t) {
      forall dk: string ensures PassesAt(m, t, dk) {
        RowPartWay(m, t0, t, dk);
        assert PassesAt(m, t0, dk) && Settles(m, t0, dk);
      }
      if Reaches(Custom, m, t, t1) {
        forall k: PK ensures ReachesAt(Custom, m, t0, t1, k) {
          RowPartWay(m, t0, t, k.dk);
          assert ReachesAt(Custom, m, t, t1, k) && PartWayAt(Custom, m, t0, t, k) && Settles(m, t0, k.dk);
        }
      }
    }
  }

  /** The run interrupted after the one write of `dk`'s row. */
  function OneRowWritten(m: Migration, t0: Items, dk: string): Items {
    var a := V1Key(m, dk);
    var answer := Answer(m, Lookup(t0, a), Lookup(t0, V2Key(m, dk)), dk);
    if answer.Some? then t0[a := answer.value] else t0 - {a}
  }

  lemma OneRowIsPartWay(m: Migration, t0: Items, dk: string)
    ensures PartWay(Custom, m, t0, OneRowWritten(m, t0, dk))
  {
    forall k: PK ensures PartWayAt(Custom, m, t0, OneRowWritten(m, t0, dk), k) {}
  }

  lemma UnsettledRowDiverges(m: Migration, t0: Items, dk: string)
    requires m.fromVersion != m.toVersion && !Settles(m, t0, dk)
    ensures var t := OneRowWritten(m, t0, dk); !ConvergesFrom(m, t0, t, Complete(Custom, m, t))
  {
    var t := OneRowWritten(m, t0, dk);
    var t1 := Complete(Custom, m, t);
    OneRowIsPartWay(m, t0, dk);
    CompleteReaches(Custom, m, t);
    assert ReachesAt(Custom, m, t, t1, V1Key(m, dk));
    if Reaches(Custom, m, t0, t1) { assert ReachesAt(Custom, m, t0, t1, V1Key(m, dk)); }
    if AllPass(m, t) { assert PassesAt(m, t, dk); }
  }

  /** From a table no row of which stops the run, re-runs converge from wherever a run was interrupted
      exactly when every row settles. */
  lemma CustomConvergesExactly(m: Migration, t0: Items)
    requires m.fromVersion != m.toVersion && AllPass(m, t0)
    ensures RerunsConverge(m, t0) <==> AllSettle(m, t0)
  {
    if AllSettle(m, t0) {
      forall t: Items, t1: Items ensures ConvergesFrom(m, t0, t, t1) { SettledRunsConverge(m, t0, t, t1); }
    } else {
      var dk: string :| !Settles(m, t0, dk);
      UnsettledRowDiverges(m, t0, dk);
    }
  }

  /** With rows that settle, a re-run that is itself interrupted is still part-way of the first. */
  lemma CustomInterruptedAgain(m: Migration, t0: Items, t: Items, t': Items)
    requires m.fromVersion != m.toVersion && AllSettle(m, t0)
    requires PartWay(Custom, m, t0, t) && PartWay(Custom, m, t, t')
    ensures PartWay(Custom, m, t0, t')
  {
    forall k: PK ensures PartWayAt(Custom, m, t0, t', k) {
      RowPartWay(m, t0, t, k.dk);
      assert PartWayAt(Custom, m, t, t', k) && PartWayAt(Custom, m, t0, t, k) && Settles(m, t0, k.dk);
    }
  }

  /** The rows of the type table pass exactly when the executor meets no failing one. */
  lemma PassingRows(m: Migration, t: Items, rows: seq<TypeTableEntry>)
    requires AllRows(m, t, rows)
    ensures AllPass(m, t) <==> NoneFails(Custom, m, rows)
  {
    if AllPass(m, t) {
      forall e | e in rows ensures !Decide(Custom, m, e).Fail? { assert PassesAt(m, t, e.domainKey); }
    }
    if NoneFails(Custom, m, rows) {
      forall dk: string ensures PassesAt(m, t, dk) {
        var row := EntryAt(m, t, dk);
        if row.Some? { assert row.value in rows; }
      }
    }
  }

  /** The executor, started on what an interrupted run left: where rows settle it is not stopped by the
      resolver, and when it finishes the table is that of one uninterrupted run. */
  method RerunCustom(m: Migration, table: Table, ghost t0: Items) returns (r: FlowResult)
    requires table.Valid() && WellFormed(m) && Placed(m, t0) && m.resolver.Some? && ResolverKeepsKey(m)
    requires AllPass(m, t0) && AllSettle(m, t0) && PartWay(Custom, m, t0, table.items)
    modifies table
    ensures r.Finished? || (r.WriteFailed? && table.refused)
    ensures r.Finished? ==> Reaches(Custom, m, t0, table.items)
    ensures PartWay(Custom, m, t0, table.items)
  {
    ghost var t := table.items;
    PlacedStays(Custom, m, m, t0, t);
    var audit := new CountAudit();
    var rows := ClassifyTypeTable(m, table);
    RowsPartition(m, table.rank, t);
    SettledRunsConverge(m, t0, t, t);
    PassingRows(m, t, rows);
    StopsExactly(Custom, m, t, rows);
    r := ExecuteCustom(m, table, rows, audit);
    SettledRunsConverge(m, t0, t, table.items);
    CustomInterruptedAgain(m, t0, t, table.items);
  }

  /** Gives back v2 where there is no v1, and deletes v1 where there is. */
  ghost predicate Alternates(m: Migration) {
    forall e: TypeTableEntry :: Resolve(m, e) == if e.TypeB? then Produced(e.v2) else Nothing
  }

  lemma AlternatingKeepsKey(m: Migration)
    requires Alternates(m)
    ensures ResolverKeepsKey(m)
  {
    forall e: TypeTableEntry | InPlace(m, e) ensures ResolvesInPlace(m, e) {}
  }

  lemma AlternatingPasses(m: Migration, t: Items)
    requires Alternates(m) && forall k :: k in t ==> m.acceptsV1(t[k])
    ensures AllPass(m, t)
  {
    forall dk: string ensures PassesAt(m, t, dk) {}
  }

  /** Such a resolver keeps every key, passes every row, and settles on no row that v2 holds: a type A
      row loses its v1 half to the first run and gets it back, from v2, from the second. */
  lemma CustomNeedNotConverge(m: Migration, t0: Items, dk: string)
    requires WellFormed(m) && Alternates(m) && (forall k :: k in t0 ==> m.acceptsV1(t0[k])) && V2Key(m, dk) in t0
    ensures ResolverKeepsKey(m) && AllPass(m, t0) && !RerunsConverge(m, t0)
  {
    AlternatingKeepsKey(m);
    AlternatingPasses(m, t0);
    assert !Settles(m, t0, dk);
    CustomConvergesExactly(m, t0);
  }
}
