/** The four rollback strategies over the type table. Each walks the rows, collects what to put and
    what to delete, and flushes once at the end. `Decide` says what a strategy does with one row; what
    that amounts to for the table is `Migrations.Target`, stated per key without reference to rows. */
module Strategies {
  import opened Wrappers
  import opened TableWrites
  import opened PhysicalTable
  import opened BatchWrite
  import opened BatchFlush
  import opened Migrations
  import opened Audit
  import opened ScanFlows
  import opened TypeTable

  /** What becomes of a row: a v1 record is put, a mirror record is deleted, nothing, or the run stops. */
  datatype Decision = Write(rec: Record) | Drop | Skip | Fail

  predicate IsStrategy(op: Operation) {
    op == Projected || op == FillOnly || op == Snapshot || op == Custom
  }

  function FromDown(m: Migration, v2: Record): Decision {
    match DownOf(m, v2)
    case Threw => Fail
    case Nothing => Skip
    case Produced(rec) => Write(rec)
  }

  function Decide(op: Operation, m: Migration, e: TypeTableEntry): Decision {
    match op
    case Projected => if e.TypeC? then Drop else FromDown(m, e.v2)
    case FillOnly => if e.TypeB? then FromDown(m, e.v2) else Skip
    case Snapshot => if e.TypeB? then Drop else Skip
    case _ =>
      match Resolve(m, e)
      case Threw => Fail
      case Nothing => if e.TypeB? then Skip else Drop
      case Produced(rec) => if m.acceptsV1(rec) then Write(rec) else Fail
  }

  /** The record whose key a dropped row deletes. */
  function Mirror(op: Operation, e: TypeTableEntry): Record
    requires if op == Snapshot then e.TypeB? else !e.TypeB?
  {
    if op == Snapshot then e.v2 else e.v1Original
  }

  function Written(op: Operation, m: Migration, rows: seq<TypeTableEntry>): seq<Record> {
    if rows == [] then []
    else
      var d := Decide(op, m, rows[|rows| - 1]);
      Written(op, m, rows[..|rows| - 1]) + if d.Write? then [d.rec] else []
  }

  function Dropped(op: Operation, m: Migration, rows: seq<TypeTableEntry>): seq<Record>
    requires IsStrategy(op)
  {
    if rows == [] then []
    else
      var last := rows[|rows| - 1];
      Dropped(op, m, rows[..|rows| - 1]) + if Decide(op, m, last).Drop? then [Mirror(op, last)] else []
  }

  function Skipped(op: Operation, m: Migration, rows: seq<TypeTableEntry>): nat {
    if rows == [] then 0
    else Skipped(op, m, rows[..|rows| - 1]) + if Decide(op, m, rows[|rows| - 1]).Skip? then 1 else 0
  }

  ghost predicate NoneFails(op: Operation, m: Migration, rows: seq<TypeTableEntry>) {
    forall e :: e in rows ==> !Decide(op, m, e).Fail?
  }

  /** The counts a complete run reports. */
  function StrategyCounts(op: Operation, m: Migration, rows: seq<TypeTableEntry>): ItemCounts
    requires IsStrategy(op)
  {
    ItemCounts(|rows|, |Written(op, m, rows)|, |Dropped(op, m, rows)|, Skipped(op, m, rows), 0)
  }

  /** No strategy can fail the final count check. */
  lemma {:induction false} StrategyCountsBalanced(op: Operation, m: Migration, rows: seq<TypeTableEntry>)
    requires IsStrategy(op) && NoneFails(op, m, rows)
    ensures Balanced(StrategyCounts(op, m, rows))
  {
    if rows != [] {
      assert rows[|rows| - 1] in rows && forall e :: e in rows[..|rows| - 1] ==> e in rows;
      StrategyCountsBalanced(op, m, rows[..|rows| - 1]);
    }
  }

  // ----- From rows to requests --------------------------------------------------------------------

  function Requests(op: Operation, m: Migration, rows: seq<TypeTableEntry>): seq<Request>
    requires IsStrategy(op)
  {
    if op == Snapshot then RollbackRequests(m, [], [], Dropped(op, m, rows))
    else RollbackRequests(m, Written(op, m, rows), Dropped(op, m, rows), [])
  }

  /** The one request a row leads to, under the row's own domain key. */
  function RowRequest(op: Operation, m: Migration, e: TypeTableEntry): Option<Request> {
    match Decide(op, m, e)
    case Write(rec) => Some(Put(V1Key(m, e.domainKey), rec))
    case Drop => Some(Delete(if op == Snapshot then V2Key(m, e.domainKey) else V1Key(m, e.domainKey)))
    case _ => None
  }

  lemma {:induction false} WrittenMembers(op: Operation, m: Migration, rows: seq<TypeTableEntry>, rec: Record)
    ensures rec in Written(op, m, rows) <==> exists e :: e in rows && Decide(op, m, e) == Write(rec)
  {
    if rows != [] {
      var init, last := rows[..|rows| - 1], rows[|rows| - 1];
      assert forall e :: e in rows <==> e in init || e == last;
      WrittenMembers(op, m, init, rec);
    }
  }

  predicate DropsAs(op: Operation, m: Migration, e: TypeTableEntry, rec: Record)
    requires IsStrategy(op)
  {
    Decide(op, m, e).Drop? && Mirror(op, e) == rec
  }

  lemma {:induction false} DroppedMembers(op: Operation, m: Migration, rows: seq<TypeTableEntry>, rec: Record)
    requires IsStrategy(op)
    ensures rec in Dropped(op, m, rows) <==> exists e :: e in rows && DropsAs(op, m, e, rec)
  {
    if rows != [] {
      var init, last := rows[..|rows| - 1], rows[|rows| - 1];
      assert forall e :: e in rows <==> e in init || e == last;
      DroppedMembers(op, m, init, rec);
      if Decide(op, m, last).Drop? && Mirror(op, last) == rec { assert DropsAs(op, m, last, rec); }
    }
  }

  lemma PutsMembers(m: Migration, version: nat, records: seq<Record>, q: Request)
    ensures q in Puts(m, version, records) <==> q.Put? && q.rec in records && q.key == KeyAt(m, version, q.rec)
  {
    var all := Puts(m, version, records);
    if q.Put? && q.rec in records && q.key == KeyAt(m, version, q.rec) {
      var i :| 0 <= i < |records| && records[i] == q.rec;
      assert all[i] == q;
    }
  }

  lemma DeletesOf(m: Migration, version: nat, records: seq<Record>, q: Request)
    ensures q in Deletes(m, version, records) <==> q.Delete? && exists r :: r in records && q.key == KeyAt(m, version, r)
  {
    var all := Deletes(m, version, records);
    if q in all {
      var i :| 0 <= i < |all| && all[i] == q;
      assert records[i] in records;
    }
    if q.Delete? {
      if r :| r in records && q.key == KeyAt(m, version, r) {
        var i :| 0 <= i < |records| && records[i] == r;
        assert all[i] == q;
      }
    }
  }

  /** A row of the table, and what it leads to, are all about one domain key. */
  lemma RowInPlace(op: Operation, m: Migration, t: Items, e: TypeTableEntry)
    requires IsStrategy(op) && WellFormed(m) && Placed(m, t) && EntryAt(m, t, e.domainKey) == Some(e)
    requires Faithful(op, m)
    ensures Decide(op, m, e).Write? ==> KeyAt(m, m.fromVersion, Decide(op, m, e).rec) == V1Key(m, e.domainKey)
    ensures Decide(op, m, e).Drop? ==>
              var version := if op == Snapshot then m.toVersion else m.fromVersion;
              KeyAt(m, version, Mirror(op, e)) == PK(m.entity, version, e.domainKey)
  {
    if op == Custom {
      RowsInPlace(m, t, e.domainKey);
      assert ResolvesInPlace(m, e);
    } else if !e.TypeC? {
      assert KeepsKey(m, e.v2);
    }
  }

  ghost predicate AllRows(m: Migration, t: Items, rows: seq<TypeTableEntry>) {
    forall e :: e in rows <==> EntryAt(m, t, e.domainKey) == Some(e)
  }

  lemma RequestsMembers(op: Operation, m: Migration, t: Items, rows: seq<TypeTableEntry>, q: Request)
    requires IsStrategy(op) && WellFormed(m) && Placed(m, t) && AllRows(m, t, rows)
    requires Faithful(op, m)
    ensures q in Requests(op, m, rows) <==> exists e :: e in rows && RowRequest(op, m, e) == Some(q)
  {
    var version := if op == Snapshot then m.toVersion else m.fromVersion;
    var written, dropped := Written(op, m, rows), Dropped(op, m, rows);
    if op == Snapshot {
      forall e ensures !Decide(op, m, e).Write? {}
    }
    assert q in Requests(op, m, rows) <==> (op != Snapshot && q in Puts(m, m.fromVersion, written)) || q in Deletes(m, version, dropped);
    PutsMembers(m, m.fromVersion, written, q);
    DeletesOf(m, version, dropped, q);
    if q in Requests(op, m, rows) {
      RequestHasRow(op, m, t, rows, q, version);
    }
    if e :| e in rows && RowRequest(op, m, e) == Some(q) {
      RowHasRequest(op, m, t, rows, e, q, version);
    }
  }

  lemma RowHasRequest(op: Operation, m: Migration, t: Items, rows: seq<TypeTableEntry>, e: TypeTableEntry, q: Request, version: nat)
    requires IsStrategy(op) && WellFormed(m) && Placed(m, t) && AllRows(m, t, rows)
    requires Faithful(op, m)
    requires version == if op == Snapshot then m.toVersion else m.fromVersion
    requires e in rows && RowRequest(op, m, e) == Some(q)
    ensures || (q.Put? && q.rec in Written(op, m, rows) && q.key == KeyAt(m, m.fromVersion, q.rec))
            || (q.Delete? && exists r :: r in Dropped(op, m, rows) && q.key == KeyAt(m, version, r))
  {
    RowInPlace(op, m, t, e);
    var d := Decide(op, m, e);
    if d.Write? {
      WrittenMembers(op, m, rows, d.rec);
    } else {
      assert d.Drop?;
      var r := Mirror(op, e);
      assert DropsAs(op, m, e, r);
      DroppedMembers(op, m, rows, r);
    }
  }

  lemma RequestHasRow(op: Operation, m: Migration, t: Items, rows: seq<TypeTableEntry>, q: Request, version: nat)
    requires IsStrategy(op) && WellFormed(m) && Placed(m, t) && AllRows(m, t, rows)
    requires Faithful(op, m)
    requires version == if op == Snapshot then m.toVersion else m.fromVersion
    requires || (q.Put? && q.rec in Written(op, m, rows) && q.key == KeyAt(m, m.fromVersion, q.rec))
             || (q.Delete? && exists r :: r in Dropped(op, m, rows) && q.key == KeyAt(m, version, r))
    ensures exists e :: e in rows && RowRequest(op, m, e) == Some(q)
  {
    if q.Put? {
      WrittenMembers(op, m, rows, q.rec);
      var e :| e in rows && Decide(op, m, e) == Write(q.rec);
      RowInPlace(op, m, t, e);
      assert RowRequest(op, m, e) == Some(q);
    } else {
      var r :| r in Dropped(op, m, rows) && q.key == KeyAt(m, version, r);
      DroppedMembers(op, m, rows, r);
      var e :| e in rows && DropsAs(op, m, e, r);
      RowInPlace(op, m, t, e);
      assert RowRequest(op, m, e) == Some(q);
    }
  }

  lemma RequestsConsistent(op: Operation, m: Migration, t: Items, rows: seq<TypeTableEntry>)
    requires IsStrategy(op) && WellFormed(m) && Placed(m, t) && AllRows(m, t, rows)
    requires Faithful(op, m)
    ensures Consistent(Requests(op, m, rows))
  {
    var all := Requests(op, m, rows);
    forall p, q | p in all && q in all && p.key == q.key ensures p == q {
      RequestsMembers(op, m, t, rows, p);
      RequestsMembers(op, m, t, rows, q);
      SameKeySameRow(op, m, t, rows, p, q);
    }
  }

  lemma SameKeySameRow(op: Operation, m: Migration, t: Items, rows: seq<TypeTableEntry>, p: Request, q: Request)
    requires AllRows(m, t, rows) && p.key == q.key
    requires exists e :: e in rows && RowRequest(op, m, e) == Some(p)
    requires exists e :: e in rows && RowRequest(op, m, e) == Some(q)
    ensures p == q
  {
    var d :| d in rows && RowRequest(op, m, d) == Some(p);
    var e :| e in rows && RowRequest(op, m, e) == Some(q);
    assert EntryAt(m, t, d.domainKey) == Some(d) && EntryAt(m, t, e.domainKey) == Some(e);
  }

  /** The row of `k`'s domain key either asks for `k` to be as targeted, or leaves it as it is. */
  lemma RowMeetsTarget(op: Operation, m: Migration, t: Items, k: PK)
    requires IsStrategy(op) && m.fromVersion != m.toVersion
    requires var row := EntryAt(m, t, k.dk); row.Some? ==> !Decide(op, m, row.value).Fail?
    ensures var row := EntryAt(m, t, k.dk);
            var q := if row.Some? then RowRequest(op, m, row.value) else None;
            Target(op, m, t, k) == if q.Some? && q.value.key == k then Effect(q.value) else Lookup(t, k)
  {
  }

  /** A key no row asks for is not among the requests. */
  lemma NoRequestFor(op: Operation, m: Migration, t: Items, rows: seq<TypeTableEntry>, k: PK)
    requires IsStrategy(op) && WellFormed(m) && Placed(m, t) && AllRows(m, t, rows) && Faithful(op, m)
    requires var row := EntryAt(m, t, k.dk);
             row.Some? && RowRequest(op, m, row.value).Some? ==> RowRequest(op, m, row.value).value.key != k
    ensures forall q :: q in Requests(op, m, rows) ==> q.key != k
  {
    forall q | q in Requests(op, m, rows) ensures q.key != k {
      RequestsMembers(op, m, t, rows, q);
      var e :| e in rows && RowRequest(op, m, e) == Some(q);
      assert EntryAt(m, t, e.domainKey) == Some(e);
    }
  }

  lemma StrategyReachesAt(op: Operation, m: Migration, t: Items, rows: seq<TypeTableEntry>, k: PK)
    requires IsStrategy(op) && WellFormed(m) && Placed(m, t) && AllRows(m, t, rows) && NoneFails(op, m, rows)
    requires Faithful(op, m) && Consistent(Requests(op, m, rows))
    ensures ReachesAt(op, m, t, ExecAll(t, Requests(op, m, rows)), k)
  {
    var all := Requests(op, m, rows);
    var row := EntryAt(m, t, k.dk);
    if row.Some? { assert row.value in rows; }
    RowMeetsTarget(op, m, t, k);
    if row.Some? && RowRequest(op, m, row.value).Some? && RowRequest(op, m, row.value).value.key == k {
      var q := RowRequest(op, m, row.value).value;
      RequestsMembers(op, m, t, rows, q);
      ExecAllHits(t, all, q);
    } else {
      NoRequestFor(op, m, t, rows, k);
      ExecAllMisses(t, all, k);
    }
  }

  /** Executing what the rows ask for takes the table to the strategy's target. */
  lemma StrategyReaches(op: Operation, m: Migration, t: Items, rows: seq<TypeTableEntry>)
    requires IsStrategy(op) && WellFormed(m) && Placed(m, t) && AllRows(m, t, rows) && NoneFails(op, m, rows)
    requires Faithful(op, m)
    ensures Reaches(op, m, t, ExecAll(t, Requests(op, m, rows)))
  {
    RequestsConsistent(op, m, t, rows);
    forall k: PK ensures ReachesAt(op, m, t, ExecAll(t, Requests(op, m, rows)), k) {
      StrategyReachesAt(op, m, t, rows, k);
    }
  }

  /** The same for whatever a flush of those requests applied, all or part. */
  lemma FlushedRows(op: Operation, m: Migration, t: Items, rows: seq<TypeTableEntry>, applied: seq<Request>)
    requires IsStrategy(op) && WellFormed(m) && Placed(m, t) && AllRows(m, t, rows) && NoneFails(op, m, rows)
    requires Faithful(op, m)
    requires multiset(applied) <= multiset(Requests(op, m, rows))
    ensures PartWay(op, m, t, ExecAll(t, applied))
    ensures multiset(applied) == multiset(Requests(op, m, rows)) ==> Reaches(op, m, t, ExecAll(t, applied))
  {
    var all := Requests(op, m, rows);
    RequestsConsistent(op, m, t, rows);
    StrategyReaches(op, m, t, rows);
    FlushOutcome(t, all, applied);
    forall k: PK ensures PartWayAt(op, m, t, ExecAll(t, applied), k) {
      assert BetweenAt(t, ExecAll(t, applied), ExecAll(t, all), k);
      assert ReachesAt(op, m, t, ExecAll(t, all), k);
    }
  }

  lemma Untouched(op: Operation, m: Migration, t: Items)
    ensures PartWay(op, m, t, t)
  {
    forall k: PK ensures PartWayAt(op, m, t, t, k) {}
  }

  // ----- The executors ------------------------------------------------------------------------------

  lemma TakeOne(op: Operation, m: Migration, rows: seq<TypeTableEntry>, i: nat)
    requires IsStrategy(op) && i < |rows|
    ensures var d := Decide(op, m, rows[i]);
            && Written(op, m, rows[..i + 1]) == Written(op, m, rows[..i]) + (if d.Write? then [d.rec] else [])
            && Dropped(op, m, rows[..i + 1]) == Dropped(op, m, rows[..i]) + (if d.Drop? then [Mirror(op, rows[i])] else [])
            && Skipped(op, m, rows[..i + 1]) == Skipped(op, m, rows[..i]) + (if d.Skip? then 1 else 0)
            && (NoneFails(op, m, rows[..i]) && !d.Fail? ==> NoneFails(op, m, rows[..i + 1]))
  {
    var taken := rows[..i + 1];
    assert taken[..i] == rows[..i] && taken[i] == rows[i] && taken == rows[..i] + [rows[i]];
  }

  /** The walk of `executeProjected`. */
  method WalkProjected(m: Migration, rows: seq<TypeTableEntry>, audit: CountAudit)
    returns (threw: bool, puts: seq<Record>, v1Deletes: seq<Record>)
    requires audit.AllZero()
    modifies audit
    ensures threw ==> audit.failed == 1 && !NoneFails(Projected, m, rows)
    ensures !threw ==>
              && NoneFails(Projected, m, rows)
              && puts == Written(Projected, m, rows) && v1Deletes == Dropped(Projected, m, rows)
              && OnlySkipped(audit.Counts(), |rows|, Skipped(Projected, m, rows))
  {
    puts, v1Deletes := [], [];
    for i := 0 to |rows|
      invariant puts == Written(Projected, m, rows[..i]) && v1Deletes == Dropped(Projected, m, rows[..i])
      invariant NoneFails(Projected, m, rows[..i])
      invariant audit.scanned == i && audit.skipped == Skipped(Projected, m, rows[..i])
      invariant audit.moved == audit.deleted == audit.failed == 0
    {
      var entry := rows[i];
      TakeOne(Projected, m, rows, i);
      audit.IncrementScanned();
      if entry.TypeA? || entry.TypeB? {
        var v1Derived := DownOf(m, entry.v2);
        match v1Derived
        case Threw =>
          audit.IncrementFailed();
          assert entry in rows;
          return true, puts, v1Deletes;
        case Nothing => audit.IncrementSkipped();
        case Produced(rec) => puts := puts + [rec];
      } else {
        v1Deletes := v1Deletes + [entry.v1Original];
      }
    }
    assert rows[..|rows|] == rows;
    threw := false;
  }

  /** The walk of `executeFillOnly`. */
  method WalkFillOnly(m: Migration, rows: seq<TypeTableEntry>, audit: CountAudit)
    returns (threw: bool, puts: seq<Record>)
    requires audit.AllZero()
    modifies audit
    ensures threw ==> audit.failed == 1 && !NoneFails(FillOnly, m, rows)
    ensures !threw ==>
              && NoneFails(FillOnly, m, rows)
              && puts == Written(FillOnly, m, rows) && Dropped(FillOnly, m, rows) == []
              && OnlySkipped(audit.Counts(), |rows|, Skipped(FillOnly, m, rows))
  {
    puts := [];
    for i := 0 to |rows|
      invariant puts == Written(FillOnly, m, rows[..i]) && Dropped(FillOnly, m, rows[..i]) == []
      invariant NoneFails(FillOnly, m, rows[..i])
      invariant audit.scanned == i && audit.skipped == Skipped(FillOnly, m, rows[..i])
      invariant audit.moved == audit.deleted == audit.failed == 0
    {
      var entry := rows[i];
      TakeOne(FillOnly, m, rows, i);
      audit.IncrementScanned();
      if entry.TypeB? {
        var v1Derived := DownOf(m, entry.v2);
        match v1Derived
        case Threw =>
          audit.IncrementFailed();
          assert entry in rows;
          return true, puts;
        case Nothing => audit.IncrementSkipped();
        case Produced(rec) => puts := puts + [rec];
      } else {
        audit.IncrementSkipped();
      }
    }
    assert rows[..|rows|] == rows;
    threw := false;
  }

  /** `buildResolverArgs`: field by field, what the entry has. */
  method BuildResolverArgs(entry: TypeTableEntry) returns (args: ResolverArgs)
    ensures args == ArgsOf(entry)
  {
    args := ResolverArgs(if entry.TypeA? then A else if entry.TypeB? then B else C, None, None);
    if entry.TypeA? || entry.TypeC? { args := args.(v1Original := Some(entry.v1Original)); }
    if entry.TypeA? || entry.TypeB? { args := args.(v2 := Some(entry.v2)); }
  }

  /** The walk of `executeCustom`: the resolver's answer is validated before it is dispatched. */
  method WalkCustom(m: Migration, rows: seq<TypeTableEntry>, audit: CountAudit)
    returns (threw: bool, puts: seq<Record>, v1Deletes: seq<Record>)
    requires m.resolver.Some? && audit.AllZero()
    modifies audit
    ensures threw ==> audit.failed == 1 && !NoneFails(Custom, m, rows)
    ensures !threw ==>
              && NoneFails(Custom, m, rows)
              && puts == Written(Custom, m, rows) && v1Deletes == Dropped(Custom, m, rows)
              && OnlySkipped(audit.Counts(), |rows|, Skipped(Custom, m, rows))
  {
    puts, v1Deletes := [], [];
    for i := 0 to |rows|
      invariant puts == Written(Custom, m, rows[..i]) && v1Deletes == Dropped(Custom, m, rows[..i])
      invariant NoneFails(Custom, m, rows[..i])
      invariant audit.scanned == i && audit.skipped == Skipped(Custom, m, rows[..i])
      invariant audit.moved == audit.deleted == audit.failed == 0
    {
      var entry := rows[i];
      TakeOne(Custom, m, rows, i);
      audit.IncrementScanned();
      var resolverArgs := BuildResolverArgs(entry);
      var result := m.resolver.value(resolverArgs);
      if result.Threw? || (result.Produced? && !m.acceptsV1(result.rec)) {
        audit.IncrementFailed();
        assert entry in rows;
        return true, puts, v1Deletes;
      }
      if result.Produced? {
        puts := puts + [result.rec];
      } else if entry.TypeB? {
        audit.IncrementSkipped();
      } else {
        v1Deletes := v1Deletes + [entry.v1Original];
      }
    }
    assert rows[..|rows|] == rows;
    threw := false;
  }

  /** The flush at the end of a walk. */
  method FlushRows(op: Operation, m: Migration, table: Table, ghost rows: seq<TypeTableEntry>,
                   puts: seq<Record>, v1Deletes: seq<Record>, v2Deletes: seq<Record>) returns (r: FlowResult)
    requires table.Valid() && WellFormed(m) && Placed(m, table.items) && AllRows(m, table.items, rows)
    requires IsStrategy(op) && NoneFails(op, m, rows)
    requires RollbackRequests(m, puts, v1Deletes, v2Deletes) == Requests(op, m, rows)
    modifies table
    ensures table.Valid()
    ensures r.Finished? && Faithful(op, m) ==> Reaches(op, m, old(table.items), table.items)
    ensures Faithful(op, m) ==> PartWay(op, m, old(table.items), table.items)
    ensures r.Finished? || r.SchemaRejected? || r.WriteFailed?
    ensures r.SchemaRejected? ==> unchanged(table)
    ensures r.SchemaRejected? <==> !InSchemas(m, puts, v2Deletes)
    ensures r.WriteFailed? ==> table.refused
    ensures r.Finished? ==> Applied(old(table.log), table.log, |puts|, |v1Deletes| + |v2Deletes|)
  {
    ghost var t, mark := table.items, |table.log|;
    var written;
    r, written := BatchFlushRollback(m, table, puts, v1Deletes, v2Deletes);
    if r.Finished? {
      RollbackRequestCounts(m, puts, v1Deletes, v2Deletes);
      PutCountUnordered(table.Since(mark), RollbackRequests(m, puts, v1Deletes, v2Deletes));
    }
    if Faithful(op, m) {
      FlushedRows(op, m, t, rows, table.Since(mark));
    }
  }

  /** Between two states of its log the table applied this many puts and this many deletes. */
  predicate Applied(before: seq<Request>, log: seq<Request>, puts: int, deletes: int) {
    before <= log && PutCount(log[|before|..]) == puts && DeleteCount(log[|before|..]) == deletes
  }

  lemma NothingApplied(log: seq<Request>)
    ensures Applied(log, log, 0, 0)
  {
  }

  /** Of the rows of a table one stops a strategy exactly when user code stops it at a domain key. */
  lemma StopsExactly(op: Operation, m: Migration, t: Items, rows: seq<TypeTableEntry>)
    requires IsStrategy(op) && AllRows(m, t, rows) && (op == Custom ==> m.resolver.Some?)
    ensures NoneFails(op, m, rows) <==> !UserStops(op, m, t)
  {
    if !NoneFails(op, m, rows) {
      var e :| e in rows && Decide(op, m, e).Fail?;
      assert EntryAt(m, t, e.domainKey) == Some(e) && StopsAt(op, m, t, e.domainKey);
    }
    if UserStops(op, m, t) {
      var dk: string :| StopsAt(op, m, t, dk);
      assert EntryAt(m, t, dk).value in rows && Decide(op, m, EntryAt(m, t, dk).value).Fail?;
    }
  }

  /** Where no row stops it, marshalling stops a strategy exactly when the schema does at a domain key. */
  lemma RejectsExactly(op: Operation, m: Migration, t: Items, rows: seq<TypeTableEntry>)
    requires IsStrategy(op) && AllRows(m, t, rows) && NoneFails(op, m, rows)
    ensures InSchemas(m, if op == Snapshot then [] else Written(op, m, rows), if op == Snapshot then Dropped(op, m, rows) else [])
            <==> !SchemaStops(op, m, t)
  {
    if SchemaStops(op, m, t) {
      var dk: string :| RejectsAt(op, m, t, dk);
      var e := EntryAt(m, t, dk).value;
      assert e in rows;
      if op == Snapshot {
        assert DropsAs(op, m, e, e.v2);
        DroppedMembers(op, m, rows, e.v2);
      } else {
        WrittenMembers(op, m, rows, m.down.value(e.v2).rec);
      }
    }
    if op == Snapshot {
      forall d | d in Dropped(op, m, rows) && !m.acceptsV2(d) ensures SchemaStops(op, m, t) {
        DroppedMembers(op, m, rows, d);
        var e :| e in rows && DropsAs(op, m, e, d);
        assert EntryAt(m, t, e.domainKey) == Some(e) && RejectsAt(op, m, t, e.domainKey);
      }
    } else {
      forall p | p in Written(op, m, rows) && !m.acceptsV1(p) ensures SchemaStops(op, m, t) {
        WrittenMembers(op, m, rows, p);
        var e :| e in rows && Decide(op, m, e) == Write(p);
        assert EntryAt(m, t, e.domainKey) == Some(e) && RejectsAt(op, m, t, e.domainKey);
      }
    }
  }

  /** A resolver may answer with a record of another key; the other strategies have no such freedom. */
  ghost predicate Faithful(op: Operation, m: Migration) {
    op == Custom ==> ResolverKeepsKey(m)
  }

  lemma NothingToDo(op: Operation, m: Migration, t: Items, rows: seq<TypeTableEntry>)
    requires IsStrategy(op) && WellFormed(m) && Placed(m, t) && AllRows(m, t, rows) && NoneFails(op, m, rows)
    requires Faithful(op, m) && Written(op, m, rows) == [] && Dropped(op, m, rows) == []
    ensures Reaches(op, m, t, t)
  {
    StrategyReaches(op, m, t, rows);
    assert Requests(op, m, rows) == [];
  }

  method ExecuteProjected(m: Migration, table: Table, rows: seq<TypeTableEntry>, audit: CountAudit) returns (r: FlowResult)
    requires table.Valid() && WellFormed(m) && Placed(m, table.items) && AllRows(m, table.items, rows)
    requires audit.AllZero()
    modifies table, audit
    ensures table.Valid()
    ensures r.Finished? ==> Reaches(Projected, m, old(table.items), table.items)
    ensures r.Finished? ==> NoneFails(Projected, m, rows) && audit.Counts() == StrategyCounts(Projected, m, rows)
    ensures r.UserThrew? <==> UserStops(Projected, m, old(table.items))
    ensures r.SchemaRejected? <==> !UserStops(Projected, m, old(table.items)) && SchemaStops(Projected, m, old(table.items))
    ensures r.WriteFailed? ==> table.refused
    ensures r.Finished? ==> Applied(old(table.log), table.log, audit.moved, audit.deleted)
    ensures r.UserThrew? ==> audit.failed == 1
    ensures PartWay(Projected, m, old(table.items), table.items)
    ensures r.UserThrew? || r.SchemaRejected? ==> unchanged(table)
    ensures !r.CountMismatch?
  {
    Untouched(Projected, m, table.items);
    StopsExactly(Projected, m, table.items, rows);
    var threw, puts, v1Deletes := WalkProjected(m, rows, audit);
    if threw {
      return UserThrew;
    }
    RejectsExactly(Projected, m, table.items, rows);
    r := FlushRows(Projected, m, table, rows, puts, v1Deletes, []);
    if r.Finished? {
      audit.AddMoved(|puts|);
      audit.AddDeleted(|v1Deletes|);
    }
  }

  method ExecuteFillOnly(m: Migration, table: Table, rows: seq<TypeTableEntry>, audit: CountAudit) returns (r: FlowResult)
    requires table.Valid() && WellFormed(m) && Placed(m, table.items) && AllRows(m, table.items, rows)
    requires audit.AllZero()
    modifies table, audit
    ensures table.Valid()
    ensures r.Finished? ==> Reaches(FillOnly, m, old(table.items), table.items)
    ensures r.Finished? ==> NoneFails(FillOnly, m, rows) && audit.Counts() == StrategyCounts(FillOnly, m, rows)
    ensures r.UserThrew? <==> UserStops(FillOnly, m, old(table.items))
    ensures r.SchemaRejected? <==> !UserStops(FillOnly, m, old(table.items)) && SchemaStops(FillOnly, m, old(table.items))
    ensures r.WriteFailed? ==> table.refused
    ensures r.Finished? ==> Applied(old(table.log), table.log, audit.moved, audit.deleted)
    ensures r.UserThrew? ==> audit.failed == 1
    ensures PartWay(FillOnly, m, old(table.items), table.items)
    ensures r.UserThrew? || r.SchemaRejected? ==> unchanged(table)
    ensures !r.CountMismatch?
  {
    Untouched(FillOnly, m, table.items);
    StopsExactly(FillOnly, m, table.items, rows);
    NothingApplied(table.log);
    var threw, puts := WalkFillOnly(m, rows, audit);
    if threw {
      return UserThrew;
    }
    RejectsExactly(FillOnly, m, table.items, rows);
    if |puts| > 0 {
      r := FlushRows(FillOnly, m, table, rows, puts, [], []);
    } else {
      r := Finished;
      NothingToDo(FillOnly, m, table.items, rows);
    }
    if r.Finished? {
      audit.AddMoved(|puts|);
    }
  }

  method ExecuteCustom(m: Migration, table: Table, rows: seq<TypeTableEntry>, audit: CountAudit) returns (r: FlowResult)
    requires table.Valid() && WellFormed(m) && Placed(m, table.items) && AllRows(m, table.items, rows)
    requires audit.AllZero()
    modifies table, audit
    ensures table.Valid()
    ensures r.Finished? && ResolverKeepsKey(m) ==> Reaches(Custom, m, old(table.items), table.items)
    ensures r.Finished? ==> NoneFails(Custom, m, rows) && audit.Counts() == StrategyCounts(Custom, m, rows)
    ensures r.UserThrew? <==> UserStops(Custom, m, old(table.items))
    ensures !r.SchemaRejected?
    ensures r.WriteFailed? ==> table.refused
    ensures r.Finished? ==> Applied(old(table.log), table.log, audit.moved, audit.deleted)
    ensures r.UserThrew? && m.resolver.Some? ==> audit.failed == 1
    ensures ResolverKeepsKey(m) ==> PartWay(Custom, m, old(table.items), table.items)
    ensures r.UserThrew? || r.SchemaRejected? ==> unchanged(table)
    ensures !r.CountMismatch?
  {
    Untouched(Custom, m, table.items);
    if m.resolver.None? {
      return UserThrew;
    }
    StopsExactly(Custom, m, table.items, rows);
    var threw, puts, v1Deletes := WalkCustom(m, rows, audit);
    if threw {
      return UserThrew;
    }
    RejectsExactly(Custom, m, table.items, rows);
    r := FlushRows(Custom, m, table, rows, puts, v1Deletes, []);
    if r.Finished? {
      audit.AddMoved(|puts|);
      audit.AddDeleted(|v1Deletes|);
    }
  }

  // ----- Snapshot -------------------------------------------------------------------------------

  /** The buffers after the rows `rows`: how many A and C rows, and the B rows themselves. */
  ghost predicate Buffered(m: Migration, rows: seq<TypeTableEntry>, a: nat, bBuffer: seq<TypeTableEntry>, c: nat) {
    && a + c == Skipped(Snapshot, m, rows) && a + |bBuffer| + c == |rows|
    && (forall e :: e in bBuffer ==> e.TypeB?) && Dropped(Snapshot, m, rows) == V2Of(bBuffer)
    && NoneFails(Snapshot, m, rows) && Written(Snapshot, m, rows) == []
  }

  lemma BufferOne(m: Migration, rows: seq<TypeTableEntry>, i: nat, a: nat, bBuffer: seq<TypeTableEntry>, c: nat)
    requires i < |rows| && Buffered(m, rows[..i], a, bBuffer, c)
    ensures rows[i].TypeA? ==> Buffered(m, rows[..i + 1], a + 1, bBuffer, c)
    ensures rows[i].TypeB? ==> Buffered(m, rows[..i + 1], a, bBuffer + [rows[i]], c)
    ensures rows[i].TypeC? ==> Buffered(m, rows[..i + 1], a, bBuffer, c + 1)
  {
    TakeOne(Snapshot, m, rows, i);
    if rows[i].TypeB? { assert V2Of(bBuffer + [rows[i]]) == V2Of(bBuffer) + [rows[i].v2]; }
  }

  /** One pass over the classifier into three buffers. */
  method BufferByType(m: Migration, rows: seq<TypeTableEntry>) returns (a: nat, bBuffer: seq<TypeTableEntry>, c: nat)
    ensures a + c == Skipped(Snapshot, m, rows) && a + |bBuffer| + c == |rows|
    ensures (forall e :: e in bBuffer ==> e.TypeB?) && Dropped(Snapshot, m, rows) == V2Of(bBuffer)
    ensures NoneFails(Snapshot, m, rows) && Written(Snapshot, m, rows) == []
  {
    a, bBuffer, c := 0, [], 0;
    for i := 0 to |rows|
      invariant Buffered(m, rows[..i], a, bBuffer, c)
    {
      BufferOne(m, rows, i, a, bBuffer, c);
      match rows[i]
      case TypeA(_, _, _) => a := a + 1;
      case TypeB(_, _) => bBuffer := bBuffer + [rows[i]];
      case TypeC(_, _) => c := c + 1;
    }
    assert rows[..|rows|] == rows;
  }

  function V2Of(entries: seq<TypeTableEntry>): seq<Record>
    requires forall e :: e in entries ==> e.TypeB?
  {
    seq(|entries|, i requires 0 <= i < |entries| => entries[i].v2)
  }

  method CountSkipped(audit: CountAudit, n: nat)
    modifies audit
    ensures audit.scanned == old(audit.scanned) + n && audit.skipped == old(audit.skipped) + n
    ensures unchanged(audit`moved) && unchanged(audit`deleted) && unchanged(audit`failed)
  {
    for i := 0 to n
      invariant audit.scanned == old(audit.scanned) + i && audit.skipped == old(audit.skipped) + i
      invariant unchanged(audit`moved) && unchanged(audit`deleted) && unchanged(audit`failed)
    {
      audit.IncrementScanned();
      audit.IncrementSkipped();
    }
  }

  method QueueDeletes(bBuffer: seq<TypeTableEntry>, audit: CountAudit) returns (v2Deletes: seq<Record>)
    requires forall e :: e in bBuffer ==> e.TypeB?
    modifies audit
    ensures v2Deletes == V2Of(bBuffer) && audit.scanned == old(audit.scanned) + |bBuffer|
    ensures unchanged(audit`skipped) && unchanged(audit`moved) && unchanged(audit`deleted) && unchanged(audit`failed)
  {
    v2Deletes := [];
    for i := 0 to |bBuffer|
      invariant v2Deletes == V2Of(bBuffer[..i]) && audit.scanned == old(audit.scanned) + i
      invariant unchanged(audit`skipped) && unchanged(audit`moved) && unchanged(audit`deleted) && unchanged(audit`failed)
    {
      audit.IncrementScanned();
      v2Deletes := v2Deletes + [bBuffer[i].v2];
    }
    assert bBuffer[..|bBuffer|] == bBuffer;
  }

  /** `proceed` is the operator's answer, `yes` the flag that replaces the question. */
  method ExecuteSnapshot(m: Migration, table: Table, rows: seq<TypeTableEntry>, audit: CountAudit, yes: bool, proceed: bool)
    returns (r: FlowResult)
    requires table.Valid() && WellFormed(m) && Placed(m, table.items) && AllRows(m, table.items, rows)
    requires audit.AllZero()
    modifies table, audit
    ensures table.Valid()
    ensures r.Finished? && (yes || proceed) ==>
              && Reaches(Snapshot, m, old(table.items), table.items)
              && NoneFails(Snapshot, m, rows) && audit.Counts() == StrategyCounts(Snapshot, m, rows)
    ensures !yes && !proceed ==>
              r.Finished? && table.items == old(table.items) && OnlySkipped(audit.Counts(), |rows|, |rows|)
    ensures PartWay(Snapshot, m, old(table.items), table.items)
    ensures r.Finished? || r.SchemaRejected? || r.WriteFailed?
    ensures r.Finished? ==> Applied(old(table.log), table.log, audit.moved, audit.deleted)
    ensures r.SchemaRejected? ==> unchanged(table)
    ensures r.SchemaRejected? <==> (yes || proceed) && SchemaStops(Snapshot, m, old(table.items))
    ensures r.WriteFailed? ==> table.refused
  {
    Untouched(Snapshot, m, table.items);
    NothingApplied(table.log);
    var a, bBuffer, c := BufferByType(m, rows);
    RejectsExactly(Snapshot, m, table.items, rows);
    if |bBuffer| == 0 && c == 0 {
      CountSkipped(audit, a);
      NothingToDo(Snapshot, m, table.items, rows);
      return Finished;
    }
    if !yes && !proceed {
      CountSkipped(audit, a + |bBuffer| + c);
      return Finished;
    }
    CountSkipped(audit, a);
    var v2Deletes := QueueDeletes(bBuffer, audit);
    CountSkipped(audit, c);
    if |v2Deletes| > 0 {
      r := FlushRows(Snapshot, m, table, rows, [], [], v2Deletes);
      if r.Finished? {
        audit.AddDeleted(|v2Deletes|);
      }
    } else {
      r := Finished;
      NothingToDo(Snapshot, m, table.items, rows);
    }
  }
}
