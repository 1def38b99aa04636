/** Finalize does not gate: the application goes on writing while the v1 records are reaped. The reap as a
    step system with the application's writes in between, any keys, any time; `ScanFlows.FinalizeScan` is
    the case without them. */
module FinalizeAmidWrites {
  import opened Wrappers
  import opened TableWrites
  import opened PhysicalTable
  import opened Migrations
  import opened Audit

  /** The table, where the page loop is, the keys of the current page not yet deleted, and the counts. */
  datatype Reap = Reap(items: Items, more: bool, cursor: Option<PK>, queue: seq<PK>, counts: ItemCounts)

  datatype Step =
    | Writes(key: PK, value: Option<Record>)
    | NextPage(next: Option<PK>)
    | Deletes(gone: bool)

  function Started(t: Items): Reap {
    Reap(t, true, None, [], ZERO)
  }

  predicate Done(s: Reap) {
    !s.more && s.queue == []
  }

  predicate Enabled(rank: PK -> real, s: Reap, step: Step) {
    match step
    case Writes(_, _) => true
    case NextPage(next) => s.more && s.queue == [] && (next.Some? ==> next.value in Window(rank, s.items, s.cursor, next))
    case Deletes(_) => s.queue != []
  }

  /** A delete is by key, whatever the key holds by then; `gone` is the concurrent delete that is counted as
      skipped. */
  function Do(m: Migration, rank: PK -> real, s: Reap, step: Step): Reap
    requires Injective(rank) && Enabled(rank, s, step)
  {
    match step
    case Writes(k, value) => s.(items := if value.Some? then s.items[k := value.value] else s.items - {k})
    case NextPage(next) =>
      s.(more := next.Some?, cursor := next,
         queue := InOrder(rank, Matching(Window(rank, s.items, s.cursor, next), m.entity, m.fromVersion)))
    case Deletes(gone) =>
      var c := s.counts.(scanned := s.counts.scanned + 1);
      s.(items := s.items - {s.queue[0]}, queue := s.queue[1..],
         counts := if gone then c.(skipped := c.skipped + 1) else c.(deleted := c.deleted + 1))
  }

  ghost predicate Run(m: Migration, rank: PK -> real, ss: seq<Reap>, steps: seq<Step>) {
    && Injective(rank) && |ss| == |steps| + 1 && ss[0] == Started(ss[0].items)
    && forall i :: 0 <= i < |steps| ==> Takes(m, rank, ss, steps, i)
  }

  predicate Takes(m: Migration, rank: PK -> real, ss: seq<Reap>, steps: seq<Step>, i: nat)
    requires Injective(rank) && |ss| == |steps| + 1 && i < |steps|
  {
    Enabled(rank, ss[i], steps[i]) && ss[i + 1] == Do(m, rank, ss[i], steps[i])
  }

  predicate IsV1(m: Migration, k: PK) {
    k.entity == m.entity && k.version == m.fromVersion
  }

  /** The reap has yet to come past `k`, or has read it and is to delete it. */
  predicate Pending(rank: PK -> real, s: Reap, k: PK) {
    (s.more && Ahead(rank, s.cursor, k)) || k in s.queue
  }

  /** The application does not write `k` from state `i` to state `n`. */
  predicate Unwritten(steps: seq<Step>, k: PK, i: nat, n: nat)
    requires i <= n <= |steps|
  {
    forall j :: i <= j < n ==> !(steps[j].Writes? && steps[j].key == k)
  }

  predicate QueueIsV1(m: Migration, s: Reap) {
    forall k :: k in s.queue ==> IsV1(m, k)
  }

  lemma {:induction false} QueuesAreV1(m: Migration, rank: PK -> real, ss: seq<Reap>, steps: seq<Step>, n: nat)
    requires Run(m, rank, ss, steps) && n < |ss|
    ensures QueueIsV1(m, ss[n])
  {
    if n > 0 {
      QueuesAreV1(m, rank, ss, steps, n - 1);
      assert Takes(m, rank, ss, steps, n - 1);
      var s := ss[n - 1];
      if steps[n - 1].NextPage? {
        InOrderLists(rank, Matching(Window(rank, s.items, s.cursor, steps[n - 1].next), m.entity, m.fromVersion));
      }
    }
  }

  /** What one step of the reap, or a write elsewhere, does to `k`. */
  lemma StepAt(m: Migration, rank: PK -> real, s: Reap, step: Step, k: PK)
    requires Injective(rank) && Enabled(rank, s, step) && QueueIsV1(m, s) && !(step.Writes? && step.key == k)
    ensures var s' := Do(m, rank, s, step);
            && (Pending(rank, s', k) ==> Pending(rank, s, k))
            && (!Pending(rank, s, k) || !IsV1(m, k) ==> Lookup(s'.items, k) == Lookup(s.items, k))
            && (k in s'.items ==> Lookup(s'.items, k) == Lookup(s.items, k))
            && (IsV1(m, k) && k in s'.items && Pending(rank, s, k) ==> Pending(rank, s', k))
  {
    match step
    case Writes(_, _) =>
    case NextPage(next) => InOrderLists(rank, Matching(Window(rank, s.items, s.cursor, next), m.entity, m.fromVersion));
    case Deletes(_) =>
      assert forall x :: x in s.queue <==> x == s.queue[0] || x in s.queue[1..];
  }

  lemma {:induction false} FromThenOn(m: Migration, rank: PK -> real, ss: seq<Reap>, steps: seq<Step>, k: PK, i: nat, n: nat)
    requires Run(m, rank, ss, steps) && i <= n < |ss| && Unwritten(steps, k, i, n)
    ensures Pending(rank, ss[n], k) ==> Pending(rank, ss[i], k)
    ensures !Pending(rank, ss[i], k) || !IsV1(m, k) ==> Lookup(ss[n].items, k) == Lookup(ss[i].items, k)
    ensures k in ss[n].items ==> Lookup(ss[n].items, k) == Lookup(ss[i].items, k)
    ensures IsV1(m, k) && k in ss[n].items && Pending(rank, ss[i], k) ==> Pending(rank, ss[n], k)
    decreases n
  {
    if i < n {
      FromThenOn(m, rank, ss, steps, k, i, n - 1);
      assert Takes(m, rank, ss, steps, n - 1);
      QueuesAreV1(m, rank, ss, steps, n - 1);
      StepAt(m, rank, ss[n - 1], steps[n - 1], k);
    }
  }

  /** What a finished reap leaves at `k`, of what was there when the application last wrote it, or at the start:
      a v1 record is gone exactly when the reap had not come past it by then; everything else stays. */
  lemma ReapLeaves(m: Migration, rank: PK -> real, ss: seq<Reap>, steps: seq<Step>, k: PK, i: nat, n: nat)
    requires Run(m, rank, ss, steps) && i <= n < |ss| && Done(ss[n]) && Unwritten(steps, k, i, n)
    ensures Lookup(ss[n].items, k) == if IsV1(m, k) && Pending(rank, ss[i], k) then None else Lookup(ss[i].items, k)
  {
    FromThenOn(m, rank, ss, steps, k, i, n);
  }

  /** So a v1 record the application left alone is gone, and no other key changes but by the application. */
  lemma UnwrittenV1Gone(m: Migration, rank: PK -> real, ss: seq<Reap>, steps: seq<Step>, k: PK, n: nat)
    requires Run(m, rank, ss, steps) && n < |ss| && Done(ss[n]) && Unwritten(steps, k, 0, n)
    ensures ReachesAt(Finalize, m, ss[0].items, ss[n].items, k)
  {
    ReapLeaves(m, rank, ss, steps, k, 0, n);
  }

  /** Whatever the application does, finalize never fails its count check. */
  lemma {:induction false} ReapBalanced(m: Migration, rank: PK -> real, ss: seq<Reap>, steps: seq<Step>, n: nat)
    requires Run(m, rank, ss, steps) && n < |ss|
    ensures Balanced(ss[n].counts) && ss[n].counts.failed == 0
  {
    if n > 0 {
      ReapBalanced(m, rank, ss, steps, n - 1);
      assert Takes(m, rank, ss, steps, n - 1);
    }
  }

  /** The page read last, and what is still to be deleted of it. */
  lemma {:induction false} DrainQueue(m: Migration, rank: PK -> real, ss: seq<Reap>, steps: seq<Step>)
    returns (ss': seq<Reap>, steps': seq<Step>)
    requires Run(m, rank, ss, steps) && !ss[|steps|].more
    ensures Run(m, rank, ss', steps') && ss <= ss' && steps <= steps' && Done(ss'[|steps'|])
    ensures forall i :: |steps| <= i < |steps'| ==> steps'[i] == Deletes(false)
    decreases |ss[|steps|].queue|
  {
    var s := ss[|steps|];
    if s.queue == [] {
      ss', steps' := ss, steps;
    } else {
      var t := Do(m, rank, s, Deletes(false));
      OneMore(m, rank, ss, steps, Deletes(false));
      ss', steps' := DrainQueue(m, rank, ss + [t], steps + [Deletes(false)]);
      assert (steps + [Deletes(false)])[|steps|] == Deletes(false);
    }
  }

  lemma OneMore(m: Migration, rank: PK -> real, ss: seq<Reap>, steps: seq<Step>, step: Step)
    requires Run(m, rank, ss, steps) && Enabled(rank, ss[|steps|], step)
    ensures Run(m, rank, ss + [Do(m, rank, ss[|steps|], step)], steps + [step])
  {
    var ss', steps' := ss + [Do(m, rank, ss[|steps|], step)], steps + [step];
    forall i | 0 <= i < |steps'| ensures Takes(m, rank, ss', steps', i) {
      if i < |steps| { assert Takes(m, rank, ss, steps, i); }
    }
  }

  /** From any table: a v1 record the application inserts once the last page has been read, while its records
      are being deleted, stays. Finalize then ends with a v1 record in the table. */
  lemma WriteBehindStays(m: Migration, rank: PK -> real, t: Items, k: PK, value: Record)
    requires Injective(rank) && IsV1(m, k) && k !in t
    ensures exists ss: seq<Reap>, steps: seq<Step> ::
              Run(m, rank, ss, steps) && ss[0].items == t && Done(ss[|steps|]) && Lookup(ss[|steps|].items, k) == Some(value)
  {
    var s0 := Started(t);
    assert Run(m, rank, [s0], []);
    OneMore(m, rank, [s0], [], NextPage(None));
    var s1 := Do(m, rank, s0, NextPage(None));
    InOrderLists(rank, Matching(Window(rank, t, None, None), m.entity, m.fromVersion));
    OneMore(m, rank, [s0] + [s1], [] + [NextPage(None)], Writes(k, Some(value)));
    var s2 := Do(m, rank, s1, Writes(k, Some(value)));
    var ss, steps := DrainQueue(m, rank, [s0] + [s1] + [s2], [] + [NextPage(None)] + [Writes(k, Some(value))]);
    assert ss[0] == s0 && ss[2] == s2;
    ReapLeaves(m, rank, ss, steps, k, 2, |steps|);
  }
}
