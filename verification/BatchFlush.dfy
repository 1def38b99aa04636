/** The two flushes: everything is marshalled before anything is sent, then cut into chunks of 25. */
module BatchFlush {
  import opened TableWrites
  import opened PhysicalTable
  import opened BatchWrite
  import opened Migrations

  /** How a flow ends: normally, by a throw of user code, of the schema check while marshalling, of
      a write, or of the closing `assertInvariant`. */
  datatype FlowResult = Finished | UserThrew | SchemaRejected | WriteFailed | CountMismatch

  function Puts(m: Migration, version: nat, records: seq<Record>): seq<Request> {
    seq(|records|, i requires 0 <= i < |records| => Put(KeyAt(m, version, records[i]), records[i]))
  }

  function Deletes(m: Migration, version: nat, records: seq<Record>): seq<Request> {
    seq(|records|, i requires 0 <= i < |records| => Delete(KeyAt(m, version, records[i])))
  }

  /** Marshals records to puts before anything is sent; one record outside the schema stops it. */
  method MarshalPuts(m: Migration, version: nat, accepts: Record -> bool, records: seq<Record>)
    returns (ok: bool, requests: seq<Request>)
    ensures ok <==> forall r :: r in records ==> accepts(r)
    ensures ok ==> requests == Puts(m, version, records)
  {
    requests := [];
    for i := 0 to |records|
      invariant requests == Puts(m, version, records[..i])
      invariant forall r :: r in records[..i] ==> accepts(r)
    {
      if !accepts(records[i]) {
        assert records[i] in records;
        return false, [];
      }
      requests := requests + [Put(KeyAt(m, version, records[i]), records[i])];
    }
    assert records[..|records|] == records;
    ok := true;
  }

  /** v1 keys come from `delete(record).params()`, which asks for the composite attributes only. */
  method MarshalV1Deletes(m: Migration, records: seq<Record>) returns (requests: seq<Request>)
    ensures requests == Deletes(m, m.fromVersion, records)
  {
    requests := [];
    for i := 0 to |records|
      invariant requests == Deletes(m, m.fromVersion, records[..i])
    {
      requests := requests + [Delete(KeyAt(m, m.fromVersion, records[i]))];
    }
    assert records[..|records|] == records;
  }

  /** v2 keys are taken out of `put(record).params()`, so here the schema check applies. */
  method MarshalV2Deletes(m: Migration, records: seq<Record>) returns (ok: bool, requests: seq<Request>)
    ensures ok <==> forall r :: r in records ==> m.acceptsV2(r)
    ensures ok ==> requests == Deletes(m, m.toVersion, records)
  {
    requests := [];
    for i := 0 to |records|
      invariant requests == Deletes(m, m.toVersion, records[..i])
      invariant forall r :: r in records[..i] ==> m.acceptsV2(r)
    {
      if !m.acceptsV2(records[i]) {
        assert records[i] in records;
        return false, [];
      }
      requests := requests + [Delete(KeyAt(m, m.toVersion, records[i]))];
    }
    assert records[..|records|] == records;
    ok := true;
  }

  /** `batchFlushV2` of a page. */
  method BatchFlushV2(m: Migration, table: Table, v2Batch: seq<Record>) returns (r: FlowResult, written: nat)
    requires table.Valid() && Consistent(Puts(m, m.toVersion, v2Batch))
    modifies table
    ensures table.Valid()
    ensures r.Finished? ==> table.items == ExecAll(old(table.items), Puts(m, m.toVersion, v2Batch)) && written == |v2Batch|
    ensures Between(old(table.items), table.items, ExecAll(old(table.items), Puts(m, m.toVersion, v2Batch)))
    ensures r.Finished? || r.SchemaRejected? || r.WriteFailed?
    ensures r.SchemaRejected? <==> exists v2 :: v2 in v2Batch && !m.acceptsV2(v2)
    ensures r.SchemaRejected? ==> unchanged(table)
    ensures r.WriteFailed? ==> table.refused
  {
    if |v2Batch| == 0 {
      return Finished, 0;
    }
    var accepted, requests := MarshalPuts(m, m.toVersion, m.acceptsV2, v2Batch);
    if !accepted {
      return SchemaRejected, 0;
    }
    ghost var t, mark := table.items, |table.log|;
    var result := FlushInChunks(table, requests);
    FlushOutcome(t, requests, table.Since(mark));
    if result.Written? {
      return Finished, result.counts.written;
    }
    return WriteFailed, 0;
  }

  /** The mixed request list of a rollback flush. */
  function RollbackRequests(m: Migration, puts: seq<Record>, v1Deletes: seq<Record>, v2Deletes: seq<Record>): seq<Request> {
    Puts(m, m.fromVersion, puts) + Deletes(m, m.fromVersion, v1Deletes) + Deletes(m, m.toVersion, v2Deletes)
  }

  lemma {:induction false} OnlyPuts(qs: seq<Request>, put: bool)
    requires forall i :: 0 <= i < |qs| ==> qs[i].Put? == put
    ensures PutCount(qs) == if put then |qs| else 0
  {
    if qs != [] { OnlyPuts(qs[..|qs| - 1], put); }
  }

  lemma RollbackRequestCounts(m: Migration, puts: seq<Record>, v1Deletes: seq<Record>, v2Deletes: seq<Record>)
    ensures var all := RollbackRequests(m, puts, v1Deletes, v2Deletes);
            PutCount(all) == |puts| && DeleteCount(all) == |v1Deletes| + |v2Deletes|
  {
    var a, b, c := Puts(m, m.fromVersion, puts), Deletes(m, m.fromVersion, v1Deletes), Deletes(m, m.toVersion, v2Deletes);
    PutCountAppend(a + b, c);
    PutCountAppend(a, b);
    OnlyPuts(a, true);
    OnlyPuts(b, false);
    OnlyPuts(c, false);
  }

  ghost predicate InSchemas(m: Migration, puts: seq<Record>, v2Deletes: seq<Record>) {
    (forall p :: p in puts ==> m.acceptsV1(p)) && (forall d :: d in v2Deletes ==> m.acceptsV2(d))
  }

  /** All three lists, before the first send. */
  method MarshalRollback(m: Migration, puts: seq<Record>, v1Deletes: seq<Record>, v2Deletes: seq<Record>)
    returns (ok: bool, requests: seq<Request>)
    ensures ok <==> InSchemas(m, puts, v2Deletes)
    ensures ok ==> requests == RollbackRequests(m, puts, v1Deletes, v2Deletes)
  {
    var accepted, v1Puts := MarshalPuts(m, m.fromVersion, m.acceptsV1, puts);
    if !accepted {
      return false, [];
    }
    var v1Requests := MarshalV1Deletes(m, v1Deletes);
    var keyed, v2Requests := MarshalV2Deletes(m, v2Deletes);
    if !keyed {
      return false, [];
    }
    return true, v1Puts + v1Requests + v2Requests;
  }

  /** `batchFlushRollback`. Nothing here depends on the requests being for distinct keys. */
  method BatchFlushRollback(m: Migration, table: Table, puts: seq<Record>, v1Deletes: seq<Record>, v2Deletes: seq<Record>)
    returns (r: FlowResult, written: nat)
    requires table.Valid()
    modifies table
    ensures table.Valid() && old(table.log) <= table.log
    ensures table.items == ExecAll(old(table.items), table.Since(|old(table.log)|))
    ensures multiset(table.Since(|old(table.log)|)) <= multiset(RollbackRequests(m, puts, v1Deletes, v2Deletes))
    ensures r.Finished? ==>
              && multiset(table.Since(|old(table.log)|)) == multiset(RollbackRequests(m, puts, v1Deletes, v2Deletes))
              && written == |puts| + |v1Deletes| + |v2Deletes|
    ensures r.Finished? || r.SchemaRejected? || r.WriteFailed?
    ensures r.SchemaRejected? <==> !InSchemas(m, puts, v2Deletes)
    ensures r.SchemaRejected? ==> unchanged(table)
    ensures r.WriteFailed? ==> table.refused
  {
    assert table.Since(|table.log|) == [];
    if |puts| == 0 && |v1Deletes| == 0 && |v2Deletes| == 0 {
      return Finished, 0;
    }
    var accepted, requests := MarshalRollback(m, puts, v1Deletes, v2Deletes);
    if !accepted {
      return SchemaRejected, 0;
    }
    var result := FlushInChunks(table, requests);
    if result.Written? {
      return Finished, result.counts.written;
    }
    return WriteFailed, 0;
  }
}
