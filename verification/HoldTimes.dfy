/** How long a run keeps its lock: in the timed system of `GuardWindow`, for any runners, operators and
    processes in any interleaving, a run whose heartbeats come in time is not displaced, and one whose
    last heartbeat has gone stale can be. */
module HoldTimes {
  import opened Wrappers
  import opened LockRows
  import opened LockHistories
  import opened GuardWindow

  /** The event a write step sends. */
  function SentBy(c: Timing, step: Step): Event
    requires step.Write?
  {
    Event(step.verb, step.stamp, step.stamp - c.staleMs)
  }

  /** Step `k` is a write that commits. */
  predicate CommitsAt(c: Timing, ss: seq<System>, steps: seq<Step>, k: nat)
    requires |ss| == |steps| + 1 && k < |steps|
  {
    steps[k].Write? && Commits(ss[k].rows, SentBy(c, steps[k]))
  }

  /** The verbs with which a run stamps the lock it is to hold: its acquire, its heartbeats, and the resumption
      for the next migration of a batch. */
  predicate Stamps(v: Verb, r: RunId) {
    RunOf(v) == Some(r) && (v.Acquire? || v.Heartbeat? || v.ResumeApply?)
  }

  predicate BeatsAt(c: Timing, ss: seq<System>, steps: seq<Step>, r: RunId, k: nat)
    requires |ss| == |steps| + 1 && k < |steps|
  {
    CommitsAt(c, ss, steps, k) && Stamps(steps[k].verb, r)
  }

  /** Step `k` is the last before state `n` at which `r` stamped the lock. */
  predicate LastBeat(c: Timing, ss: seq<System>, steps: seq<Step>, r: RunId, n: nat, k: nat)
    requires |ss| == |steps| + 1 && n < |ss|
  {
    k < n && BeatsAt(c, ss, steps, r, k) && forall l :: k < l < n ==> !BeatsAt(c, ss, steps, r, l)
  }

  predicate HoldsAt(s: System, r: RunId) {
    HeldBy(s.rows, r) && Active(s.rows.lock.value.state)
  }

  // ----- The heartbeat on the row is the last stamp of the run --------------------------------------

  lemma StampedByBeat(b: Bundle, e: Event, r: RunId)
    requires Commits(b, e) && Stamps(e.verb, r)
    ensures HeldBy(After(b, e), r) && After(b, e).lock.value.heartbeatAt == Some(e.now)
  {
  }

  lemma KeptByOthers(b: Bundle, e: Event, r: RunId)
    requires !(Commits(b, e) && Stamps(e.verb, r))
    requires HeldBy(After(b, e), r) && Active(After(b, e).lock.value.state)
    ensures HeldBy(b, r) && Active(b.lock.value.state) && After(b, e).lock.value.heartbeatAt == b.lock.value.heartbeatAt
  {
  }

  lemma {:induction false} HeartbeatIsLastStamp(c: Timing, ss: seq<System>, steps: seq<Step>, r: RunId, n: nat)
    requires Run(c, ss, steps) && n < |ss| && HoldsAt(ss[n], r)
    ensures exists k: nat :: LastBeat(c, ss, steps, r, n, k) && ss[n].rows.lock.value.heartbeatAt == Some(steps[k].stamp)
  {
    if n > 0 {
      assert Takes(c, ss, steps, n - 1);
      if BeatsAt(c, ss, steps, r, n - 1) {
        StampedByBeat(ss[n - 1].rows, SentBy(c, steps[n - 1]), r);
        assert LastBeat(c, ss, steps, r, n, n - 1);
      } else {
        if steps[n - 1].Write? { KeptByOthers(ss[n - 1].rows, SentBy(c, steps[n - 1]), r); }
        HeartbeatIsLastStamp(c, ss, steps, r, n - 1);
        var k: nat :| LastBeat(c, ss, steps, r, n - 1, k) && ss[n - 1].rows.lock.value.heartbeatAt == Some(steps[k].stamp);
        assert LastBeat(c, ss, steps, r, n, k);
      }
    }
  }

  // ----- Non-displacement ----------------------------------------------------------------------------

  /** At state `n` the last stamp of `r` is no older than the stale threshold. */
  ghost predicate FreshAt(c: Timing, ss: seq<System>, steps: seq<Step>, r: RunId, n: nat)
    requires |ss| == |steps| + 1 && n < |ss|
  {
    forall k: nat :: LastBeat(c, ss, steps, r, n, k) ==> ss[n].clock - steps[k].stamp <= c.staleMs
  }

  predicate EndsAt(step: Step, r: RunId) {
    step.Write? && EndsHold(step.verb, r)
  }

  lemma FreshIsBeating(c: Timing, ss: seq<System>, steps: seq<Step>, r: RunId, n: nat)
    requires Run(c, ss, steps) && n < |steps| && HoldsAt(ss[n], r) && FreshAt(c, ss, steps, r, n) && steps[n].Write?
    ensures HoldsActive(ss[n].rows, r) && Beating(ss[n].rows, SentBy(c, steps[n]))
  {
    assert Takes(c, ss, steps, n);
    HeartbeatIsLastStamp(c, ss, steps, r, n);
  }

  /** As long as the last stamp of `r` is no older than the threshold, `r` keeps its lock, in the state it
      has it in, until a verb in its own name ends the hold; and no acquire by anyone commits. */
  lemma {:induction false} NotDisplaced(c: Timing, ss: seq<System>, steps: seq<Step>, r: RunId, i: nat, j: nat)
    requires Run(c, ss, steps) && i <= j < |ss| && HoldsAt(ss[i], r)
    requires forall n :: i <= n < j ==> FreshAt(c, ss, steps, r, n) && !EndsAt(steps[n], r)
    ensures HoldsAt(ss[j], r) && ss[j].rows.lock.value.state == ss[i].rows.lock.value.state
    ensures forall n :: i <= n < j && CommitsAt(c, ss, steps, n) ==> !steps[n].verb.Acquire?
    decreases j
  {
    if i < j {
      NotDisplaced(c, ss, steps, r, i, j - 1);
      assert Takes(c, ss, steps, j - 1) && FreshAt(c, ss, steps, r, j - 1);
      if steps[j - 1].Write? {
        FreshIsBeating(c, ss, steps, r, j - 1);
        HoldGoesOn(ss[j - 1].rows, SentBy(c, steps[j - 1]), r);
        if steps[j - 1].verb.Acquire? { NoAcquireWhileBeating(ss[j - 1].rows, SentBy(c, steps[j - 1]), r); }
      }
    }
  }

  // ----- Heartbeats at intervals -----------------------------------------------------------------------

  lemma {:induction false} ClockClimbs(c: Timing, ss: seq<System>, steps: seq<Step>, i: nat, j: nat)
    requires Run(c, ss, steps) && i <= j < |ss|
    ensures ss[i].clock <= ss[j].clock
    decreases j
  {
    if i < j {
      ClockClimbs(c, ss, steps, i, j - 1);
      assert Takes(c, ss, steps, j - 1);
    }
  }

  /** Before state `n`, within `gapMs`, a stamp of `r` reached the row. */
  ghost predicate BeatWithin(c: Timing, ss: seq<System>, steps: seq<Step>, r: RunId, n: nat, gapMs: int)
    requires |ss| == |steps| + 1 && n < |ss|
  {
    exists k: nat :: k < n && BeatsAt(c, ss, steps, r, k) && ss[n].clock - ss[k].clock <= gapMs
  }

  /** No stamp of `r` was older than `lagMs` when it reached the row. */
  ghost predicate LagsAtMost(c: Timing, ss: seq<System>, steps: seq<Step>, r: RunId, lagMs: int)
    requires |ss| == |steps| + 1
  {
    forall k :: 0 <= k < |steps| && BeatsAt(c, ss, steps, r, k) ==> ss[k].clock - steps[k].stamp <= lagMs
  }

  lemma GapsKeepFresh(c: Timing, ss: seq<System>, steps: seq<Step>, r: RunId, n: nat, gapMs: int, lagMs: int)
    requires Run(c, ss, steps) && n < |ss| && gapMs + lagMs <= c.staleMs
    requires LagsAtMost(c, ss, steps, r, lagMs) && BeatWithin(c, ss, steps, r, n, gapMs)
    ensures FreshAt(c, ss, steps, r, n)
  {
    var k: nat :| k < n && BeatsAt(c, ss, steps, r, k) && ss[n].clock - ss[k].clock <= gapMs;
    forall l: nat | LastBeat(c, ss, steps, r, n, l) ensures ss[n].clock - steps[l].stamp <= c.staleMs {
      assert k <= l;
      ClockClimbs(c, ss, steps, k, l);
    }
  }

  /** With heartbeats that reach the row at most `gapMs` apart and at most `lagMs` after they were stamped, a
      stale threshold of their sum keeps the run from being displaced. */
  lemma HeartbeatGapsKeepTheLock(c: Timing, ss: seq<System>, steps: seq<Step>, r: RunId, i: nat, j: nat, gapMs: int, lagMs: int)
    requires Run(c, ss, steps) && i <= j < |ss| && HoldsAt(ss[i], r) && gapMs + lagMs <= c.staleMs
    requires LagsAtMost(c, ss, steps, r, lagMs)
    requires forall n :: i <= n < j ==> BeatWithin(c, ss, steps, r, n, gapMs) && !EndsAt(steps[n], r)
    ensures HoldsAt(ss[j], r) && ss[j].rows.lock.value.state == ss[i].rows.lock.value.state
    ensures forall n :: i <= n < j && CommitsAt(c, ss, steps, n) ==> !steps[n].verb.Acquire?
  {
    forall n | i <= n < j ensures FreshAt(c, ss, steps, r, n) { GapsKeepFresh(c, ss, steps, r, n, gapMs, lagMs); }
    NotDisplaced(c, ss, steps, r, i, j);
  }

  /** The threshold is exact: a new run `taker` can take the lock over at state `n`, in any mode, exactly when
      the last stamp of `r` is older than the threshold. */
  lemma TakeoverExactlyWhenStale(c: Timing, ss: seq<System>, steps: seq<Step>, r: RunId, n: nat,
                                 mode: Mode, m: MigId, taker: RunId, host: string)
    requires Run(c, ss, steps) && n < |ss| && HoldsAt(ss[n], r)
    requires taker !in ss[n].rows.runs && taker !in ss[n].phases
    ensures (exists stamp :: TakesOver(c, ss[n], Acquire(mode, m, taker, host), stamp)) <==> !FreshAt(c, ss, steps, r, n)
  {
    HeartbeatIsLastStamp(c, ss, steps, r, n);
    var v, s := Acquire(mode, m, taker, host), ss[n];
    var k: nat :| LastBeat(c, ss, steps, r, n, k) && s.rows.lock.value.heartbeatAt == Some(steps[k].stamp);
    forall l: nat | LastBeat(c, ss, steps, r, n, l) ensures l == k {}
    if !FreshAt(c, ss, steps, r, n) {
      assert TakesOver(c, s, v, s.clock);
    }
  }

  predicate TakesOver(c: Timing, s: System, v: Verb, stamp: int) {
    Enabled(c, s, Write(v, stamp)) && Commits(s.rows, SentBy(c, Write(v, stamp)))
  }
}
