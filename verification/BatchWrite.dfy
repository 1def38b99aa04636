/** The bounded retry over `UnprocessedItems`, and the flush that cuts a request list into chunks
    of 25. Both are stated against the table's log: what DynamoDB applied is, as a multiset, exactly
    what was asked. */
module BatchWrite {
  import opened TableWrites
  import opened PhysicalTable

  const DDB_BATCH_LIMIT: nat := 25
  const DEFAULT_MAX_ATTEMPTS: int := 5

  datatype RetryCounts = RetryCounts(scanned: nat, written: nat, unprocessed: nat)

  /** `Exhausted` is the thrown `EDBBatchWriteExhaustedError` with its counts; `Failed` is a
      rejected `client.send`. */
  datatype WriteResult = Written(counts: RetryCounts) | Exhausted(counts: RetryCounts) | Failed

  /** Sends a chunk may cost: the first try and `maxAttempts` retries. */
  function SendBound(maxAttempts: int): nat {
    if maxAttempts < 0 then 0 else maxAttempts + 1
  }

  /** One send of what is pending; `applied` is what was applied since the log had length `start`. */
  method SendPending(table: Table, pending: seq<Request>, ghost items: seq<Request>, ghost start: nat, ghost t0: Items, ghost applied: seq<Request>)
    returns (sent: SendOutcome, ghost applied': seq<Request>)
    requires table.Valid() && 1 <= |pending| <= DDB_BATCH_LIMIT
    requires start <= |table.log| && table.Since(start) == applied && table.items == ExecAll(t0, applied)
    requires multiset(applied) + multiset(pending) == multiset(items)
    modifies table
    ensures table.Valid() && old(table.log) <= table.log && table.sends == old(table.sends) + 1
    ensures table.Since(start) == applied' && table.items == ExecAll(t0, applied')
    ensures sent.Sent? ==> multiset(applied') + multiset(sent.unprocessed) == multiset(items) && |sent.unprocessed| <= |pending|
    ensures sent.Threw? ==> multiset(applied') <= multiset(items)
    ensures sent.Threw? || sent.unprocessed != [] ==> table.refused
  {
    ghost var log := table.log;
    sent := table.BatchWriteItem(pending);
    ghost var now := table.Since(|log|);
    LogGrows(log, table.log, start);
    ExecAllAppend(t0, applied, now);
    applied' := applied + now;
    if sent.Sent? { SentPart(items, applied, pending, now, sent.unprocessed); } else { SentSome(items, applied, pending, now); }
  }

  /** What came since `start` is what had come, and what came after. */
  lemma LogGrows(was: seq<Request>, log: seq<Request>, start: nat)
    requires start <= |was| && was <= log
    ensures log[start..] == was[start..] + log[|was|..]
  {
  }

  lemma SentPart(items: seq<Request>, applied: seq<Request>, pending: seq<Request>, now: seq<Request>, rest: seq<Request>)
    requires multiset(applied) + multiset(pending) == multiset(items) && multiset(now) + multiset(rest) == multiset(pending)
    ensures multiset(applied + now) + multiset(rest) == multiset(items) && |rest| <= |pending|
  {
    assert multiset(applied + now) == multiset(applied) + multiset(now);
    SameSize(now + rest, pending);
  }

  lemma SentSome(items: seq<Request>, applied: seq<Request>, pending: seq<Request>, now: seq<Request>)
    requires multiset(applied) + multiset(pending) == multiset(items) && multiset(now) <= multiset(pending)
    ensures multiset(applied + now) <= multiset(items)
  {
    assert multiset(applied + now) == multiset(applied) + multiset(now);
  }

  method WithBatchWriteRetry(table: Table, items: seq<Request>, maxAttempts: int) returns (r: WriteResult)
    requires table.Valid() && |items| <= DDB_BATCH_LIMIT
    modifies table
    ensures table.Valid() && old(table.log) <= table.log
    ensures table.items == ExecAll(old(table.items), table.Since(|old(table.log)|))
    ensures table.sends <= old(table.sends) + SendBound(maxAttempts)
    ensures r.Written? ==>
              && multiset(table.Since(|old(table.log)|)) == multiset(items)
              && r.counts == RetryCounts(|items|, |items|, 0)
    ensures r.Exhausted? ==>
              && multiset(table.Since(|old(table.log)|)) <= multiset(items)
              && 0 < r.counts.unprocessed == |items| - |table.Since(|old(table.log)|)|
              && r.counts.scanned == |items|
              && r.counts.written == |table.Since(|old(table.log)|)|
              && table.sends == old(table.sends) + SendBound(maxAttempts)
              && (maxAttempts >= 0 ==> table.sends == old(table.sends) + 1 + maxAttempts)
    ensures r.Failed? ==> multiset(table.Since(|old(table.log)|)) <= multiset(items)
    ensures r.Failed? || (r.Exhausted? && maxAttempts >= 0) ==> table.refused
  {
    ghost var start, t0 := |table.log|, table.items;
    ghost var applied: seq<Request> := [];
    var pending := items;
    var attempt := 0;
    while |pending| > 0 && attempt <= maxAttempts
      invariant table.Valid() && old(table.log) <= table.log && |pending| <= |items|
      invariant table.Since(start) == applied && table.items == ExecAll(t0, applied)
      invariant multiset(applied) + multiset(pending) == multiset(items)
      invariant 0 <= attempt <= SendBound(maxAttempts)
      invariant table.sends == old(table.sends) + attempt
      invariant attempt > 0 && pending != [] ==> table.refused
      decreases SendBound(maxAttempts) - attempt
    {
      var sent;
      sent, applied := SendPending(table, pending, items, start, t0, applied);
      if sent.Threw? {
        return Failed;
      }
      pending := sent.unprocessed;
      attempt := attempt + 1;
    }
    SameSize(applied + pending, items);
    var counts := RetryCounts(|items|, |items| - |pending|, |pending|);
    r := if |pending| > 0 then Exhausted(counts) else Written(counts);
  }

  lemma SameSize(a: seq<Request>, b: seq<Request>)
    requires multiset(a) == multiset(b)
    ensures |a| == |b|
  {
    assert |multiset(a)| == |multiset(b)|;
  }

  /** The chunks before `i` are applied. */
  ghost predicate AppliedUpTo(requests: seq<Request>, i: nat, applied: seq<Request>) {
    multiset(applied) == multiset(requests[..Upto(i, |requests|)])
  }

  lemma ChunkApplied(requests: seq<Request>, i: nat, j: nat, applied: seq<Request>, now: seq<Request>)
    requires i <= j <= |requests| && AppliedUpTo(requests, i, applied)
    requires multiset(now) <= multiset(requests[i..j])
    ensures multiset(applied + now) <= multiset(requests)
    ensures multiset(now) == multiset(requests[i..j]) ==> AppliedUpTo(requests, j, applied + now)
  {
    assert requests[..j] == requests[..i] + requests[i..j] && requests == requests[..j] + requests[j..];
    assert multiset(requests) == multiset(requests[..i]) + multiset(requests[i..j]) + multiset(requests[j..]);
    assert multiset(applied + now) == multiset(applied) + multiset(now);
  }

  lemma AppliedToEnd(requests: seq<Request>, i: nat, applied: seq<Request>)
    requires i >= |requests| && AppliedUpTo(requests, i, applied)
    ensures multiset(applied) == multiset(requests)
  {
    assert requests[..|requests|] == requests;
  }

  /** One chunk, `requests[i..j]`; `applied` is what the flush applied since the log had length `start`. */
  method FlushChunk(table: Table, requests: seq<Request>, i: nat, j: nat, ghost start: nat, ghost t0: Items, ghost applied: seq<Request>)
    returns (r: WriteResult, ghost applied': seq<Request>)
    requires table.Valid() && start <= |table.log| && table.Since(start) == applied && table.items == ExecAll(t0, applied)
    requires i < j <= |requests| && j - i <= DDB_BATCH_LIMIT && AppliedUpTo(requests, i, applied)
    modifies table
    ensures table.Valid() && old(table.log) <= table.log
    ensures table.Since(start) == applied' && table.items == ExecAll(t0, applied')
    ensures multiset(applied') <= multiset(requests)
    ensures r.Written? ==> AppliedUpTo(requests, j, applied') && r.counts.scanned == r.counts.written == j - i
    ensures r.Exhausted? ==> 0 < r.counts.unprocessed <= r.counts.scanned <= 25
    ensures table.sends <= old(table.sends) + 6
    ensures !r.Written? ==> table.refused
  {
    ghost var log := table.log;
    r := WithBatchWriteRetry(table, requests[i..j], DEFAULT_MAX_ATTEMPTS);
    ghost var now := table.Since(|log|);
    LogGrows(log, table.log, start);
    ExecAllAppend(t0, applied, now);
    ChunkApplied(requests, i, j, applied, now);
    applied' := applied + now;
  }

  /** Cuts the requests into chunks of 25 and retries each on its own: the loop of `batchFlushV2`
      and of `batchFlushRollback`. The first chunk that fails ends the flush. */
  method FlushInChunks(table: Table, requests: seq<Request>) returns (r: WriteResult)
    requires table.Valid()
    modifies table
    ensures table.Valid() && old(table.log) <= table.log
    ensures table.items == ExecAll(old(table.items), table.Since(|old(table.log)|))
    ensures r.Written? ==>
              && multiset(table.Since(|old(table.log)|)) == multiset(requests)
              && r.counts == RetryCounts(|requests|, |requests|, 0)
    ensures !r.Written? ==> multiset(table.Since(|old(table.log)|)) <= multiset(requests)
    ensures r.Exhausted? ==> 0 < r.counts.unprocessed <= r.counts.scanned <= 25
    ensures 25 * (table.sends - old(table.sends)) <= 6 * (|requests| + 24)
    ensures !r.Written? ==> table.refused
  {
    ghost var start, t0 := |table.log|, table.items;
    var totalScanned, totalWritten := 0, 0;
    var i := 0;
    ghost var chunks := 0;
    ghost var applied: seq<Request> := [];
    while i < |requests|
      invariant 0 <= i == 25 * chunks && i <= |requests| + 24
      invariant table.Valid() && old(table.log) <= table.log && table.Since(start) == applied
      invariant table.items == ExecAll(t0, applied)
      invariant AppliedUpTo(requests, i, applied)
      invariant totalScanned == totalWritten == Upto(i, |requests|)
      invariant table.sends <= old(table.sends) + 6 * chunks
    {
      var result;
      var j := Upto(i + DDB_BATCH_LIMIT, |requests|);
      result, applied := FlushChunk(table, requests, i, j, start, t0, applied);
      if !result.Written? {
        return result;
      }
      totalScanned := totalScanned + result.counts.scanned;
      totalWritten := totalWritten + result.counts.written;
      i := i + DDB_BATCH_LIMIT;
      chunks := chunks + 1;
    }
    AppliedToEnd(requests, i, applied);
    r := Written(RetryCounts(totalScanned, totalWritten, totalScanned - totalWritten));
  }

  function Upto(i: nat, n: nat): nat { if i <= n then i else n }

  /** What a flush of consistent requests leaves: all of it on a normal return, part of it otherwise. */
  lemma FlushOutcome(t: Items, requests: seq<Request>, applied: seq<Request>)
    requires Consistent(requests) && multiset(applied) <= multiset(requests)
    ensures multiset(applied) == multiset(requests) ==> ExecAll(t, applied) == ExecAll(t, requests)
    ensures Between(t, ExecAll(t, applied), ExecAll(t, requests))
  {
    PartOfRequests(t, applied, requests);
    if multiset(applied) == multiset(requests) {
      OrderIrrelevant(t, requests, applied);
    }
  }
}
