/** The timed system: lock rows, one clock, the wait every run makes after acquiring, and the caches
    of the guarded processes. Runners, operators and processes interleave arbitrarily and may stop
    anywhere. The question is whether a guarded call can still be admitted while a run writes. */
module GuardWindow {
  import opened Wrappers
  import opened LockRows
  import opened LockHistories
  import opened GuardCache

  type AppId = string

  /** `latencyMs` bounds the time from reading the row to having its value in the cache. */
  datatype Timing = Timing(staleMs: int, waitMs: int, ttlMs: int, latencyMs: int)

  predicate Sane(c: Timing) {
    c.waitMs >= 0 && c.ttlMs >= 0 && c.latencyMs >= 0
  }

  /** A run that acquired sleeps from `since`, then works, for as many migrations as it likes. */
  datatype Phase = Sleeping(since: int) | Working(since: int)

  /** A lock read on its way back to a process. */
  datatype Sample = Sample(value: LockState, readAt: int)

  /** A process may have any number of reads under way. */
  datatype App = App(cached: Option<Entry>, inFlight: set<Sample>)

  /** `gatingSince` is history: the instant the lock last went from admitting to gating. */
  datatype System = System(
    rows: Bundle,
    clock: int,
    phases: map<RunId, Phase>,
    apps: map<AppId, App>,
    gatingSince: int)

  datatype Step =
    | Tick(to: int)
    | Write(verb: Verb, stamp: int)
    | BeginWait(run: RunId)
    | EndWait(run: RunId)
    | Read(app: AppId)
    | Deliver(app: AppId, sample: Sample)
    | Lose(app: AppId, sample: Sample)
    | Forget(app: AppId)

  predicate GatingNow(b: Bundle) {
    Gating(LockValue(b.lock))
  }

  /** Any verb by anyone, stamped no later than now; only acquire needs a run id nobody used. */
  predicate Enabled(c: Timing, s: System, step: Step) {
    match step
    case Tick(to) => to >= s.clock
    case Write(v, stamp) => stamp <= s.clock && (v.Acquire? ==> v.runId !in s.rows.runs && v.runId !in s.phases)
    case BeginWait(r) => HeldBy(s.rows, r) && r !in s.phases
    case EndWait(r) => r in s.phases && s.phases[r].Sleeping? && s.clock >= s.phases[r].since + c.waitMs
    case Read(a) => a in s.apps
    case Deliver(a, x) => a in s.apps && x in s.apps[a].inFlight && s.clock <= x.readAt + c.latencyMs
    case Lose(a, x) => a in s.apps && x in s.apps[a].inFlight
    case Forget(a) => a in s.apps
  }

  function Do(c: Timing, s: System, step: Step): System
    requires Enabled(c, s, step)
  {
    match step
    case Tick(to) => s.(clock := to)
    case Write(v, stamp) =>
      var rows := After(s.rows, Event(v, stamp, stamp - c.staleMs));
      s.(rows := rows, gatingSince := if GatingNow(rows) && !GatingNow(s.rows) then s.clock else s.gatingSince)
    case BeginWait(r) => s.(phases := s.phases[r := Sleeping(s.clock)])
    case EndWait(r) => s.(phases := s.phases[r := Working(s.phases[r].since)])
    case Read(a) =>
      var app := s.apps[a];
      s.(apps := s.apps[a := app.(inFlight := app.inFlight + {Sample(LockValue(s.rows.lock), s.clock)})])
    case Deliver(a, x) =>
      s.(apps := s.apps[a := App(Some(Entry(x.value, s.clock)), s.apps[a].inFlight - {x})])
    case Lose(a, x) => s.(apps := s.apps[a := s.apps[a].(inFlight := s.apps[a].inFlight - {x})])
    case Forget(a) => s.(apps := s.apps[a := s.apps[a].(cached := None)])
  }

  predicate Initial(s: System) {
    && (s.rows.lock == Some(FREE_ROW) || s.rows.lock == Some(FREE_ROW.(state := Unset))) && s.rows.runs == map[] && s.phases == map[]
    && forall a :: a in s.apps ==> s.apps[a] == App(None, {})
  }

  ghost predicate Run(c: Timing, ss: seq<System>, steps: seq<Step>) {
    |ss| == |steps| + 1 && Initial(ss[0]) && forall i :: 0 <= i < |steps| ==> Takes(c, ss, steps, i)
  }

  predicate Takes(c: Timing, ss: seq<System>, steps: seq<Step>, i: nat)
    requires |ss| == |steps| + 1 && i < |steps|
  {
    Enabled(c, ss[i], steps[i]) && ss[i + 1] == Do(c, ss[i], steps[i])
  }

  // ----- What is to be shown -----------------------------------------------------------------------

  /** A run is past its wait and the lock row still names it in apply or rollback: it may write. */
  predicate MayWrite(s: System, r: RunId) {
    && r in s.phases && s.phases[r].Working?
    && HeldBy(s.rows, r) && (s.rows.lock.value.state.Apply? || s.rows.lock.value.state.Rollback?)
  }

  /** What a call of the process can get for an answer: the live cached value, a read still due, the row as
      it is now, or nothing, because a read can always fail. */
  predicate Answers(c: Timing, s: System, app: App, seen: Option<LockState>) {
    || seen.None?
    || (app.cached.Some? && s.clock - app.cached.value.cachedAt < c.ttlMs && seen == Some(app.cached.value.value))
    || (exists x :: x in app.inFlight && s.clock <= x.readAt + c.latencyMs && seen == Some(x.value))
    || seen == Some(LockValue(s.rows.lock))
  }

  ghost predicate LetsThrough(c: Timing, s: System, app: App, mode: BlockMode, readCommand: bool) {
    exists seen :: Answers(c, s, app, seen) && Admits(mode, readCommand, seen)
  }

  /** Some guarded call of the process could be let through. */
  ghost predicate CouldAdmit(c: Timing, s: System, app: App) {
    LetsThrough(c, s, app, All, true) || LetsThrough(c, s, app, All, false) || LetsThrough(c, s, app, WritesOnly, false)
  }

  ghost predicate NoneAdmits(c: Timing, s: System) {
    forall a :: a in s.apps ==> !CouldAdmit(c, s, s.apps[a])
  }

  // ----- The invariant -----------------------------------------------------------------------------

  predicate OldNews(c: Timing, s: System, app: App) {
    && (app.cached.Some? && !Gating(app.cached.value.value) ==>
          app.cached.value.cachedAt <= s.clock
          && (GatingNow(s.rows) ==> app.cached.value.cachedAt <= s.gatingSince + c.latencyMs))
    && forall x :: x in app.inFlight && !Gating(x.value) ==>
         x.readAt <= s.clock && (GatingNow(s.rows) ==> x.readAt <= s.gatingSince)
  }

  predicate Waited(c: Timing, s: System, r: RunId) {
    r in s.phases ==>
      && s.phases[r].since <= s.clock
      && (s.phases[r].Working? ==> s.clock >= s.phases[r].since + c.waitMs)
      && (HeldBy(s.rows, r) && ReachesWriting(s.rows.lock.value.state) ==> s.gatingSince <= s.phases[r].since)
  }

  /** The states of a run that may yet write. */
  predicate ReachesWriting(l: LockState) {
    l.Apply? || l.Rollback? || l.Release?
  }

  ghost predicate Inv(c: Timing, s: System) {
    && (GatingNow(s.rows) ==> s.gatingSince <= s.clock)
    && (forall a :: a in s.apps ==> OldNews(c, s, s.apps[a]))
    && (forall r :: r in s.phases ==> Waited(c, s, r))
  }

  lemma NewsGetsOlder(c: Timing, s: System, step: Step, a: AppId)
    requires Sane(c) && Inv(c, s) && Enabled(c, s, step) && a in s.apps
    ensures a in Do(c, s, step).apps && OldNews(c, Do(c, s, step), Do(c, s, step).apps[a])
  {
    assert OldNews(c, s, s.apps[a]);
  }

  /** A verb moves a run that holds the lock only along states that gate, once it may write. */
  lemma HoldStaysGating(s: System, v: Verb, r: RunId, rows: Bundle, e: Event)
    requires rows == After(s.rows, e) && e.verb == v && !Acquires(v, r)
    requires HeldBy(rows, r) && ReachesWriting(rows.lock.value.state)
    ensures HeldBy(s.rows, r) && ReachesWriting(s.rows.lock.value.state)
  {
  }

  lemma WaitGoesOn(c: Timing, s: System, step: Step, r: RunId)
    requires Sane(c) && Inv(c, s) && Enabled(c, s, step) && r in Do(c, s, step).phases
    ensures Waited(c, Do(c, s, step), r)
  {
    if r in s.phases { assert Waited(c, s, r); }
    if step.Write? {
      var e := Event(step.verb, step.stamp, step.stamp - c.staleMs);
      var rows := After(s.rows, e);
      if HeldBy(rows, r) && ReachesWriting(rows.lock.value.state) {
        HoldStaysGating(s, step.verb, r, rows, e);
      }
    }
  }

  lemma InvStep(c: Timing, s: System, step: Step)
    requires Sane(c) && Inv(c, s) && Enabled(c, s, step)
    ensures Inv(c, Do(c, s, step))
  {
    var s' := Do(c, s, step);
    forall a | a in s'.apps ensures OldNews(c, s', s'.apps[a]) { NewsGetsOlder(c, s, step, a); }
    forall r | r in s'.phases ensures Waited(c, s', r) { WaitGoesOn(c, s, step, r); }
  }

  lemma {:induction false} InvAlways(c: Timing, ss: seq<System>, steps: seq<Step>, n: nat)
    requires Sane(c) && Run(c, ss, steps) && n < |ss|
    ensures Inv(c, ss[n])
  {
    if n > 0 {
      InvAlways(c, ss, steps, n - 1);
      assert Takes(c, ss, steps, n - 1);
      InvStep(c, ss[n - 1], steps[n - 1]);
    }
  }

  predicate Headroom(c: Timing) {
    c.ttlMs + c.latencyMs <= c.waitMs && c.latencyMs < c.waitMs
  }

  /** In every run, whenever some run may write, no process could admit a guarded call: one wait
      covers the whole batch. */
  lemma GuardHolds(c: Timing, ss: seq<System>, steps: seq<Step>, n: nat, r: RunId)
    requires Sane(c) && Headroom(c) && Run(c, ss, steps) && n < |ss| && MayWrite(ss[n], r)
    ensures NoneAdmits(c, ss[n])
  {
    InvAlways(c, ss, steps, n);
    var s := ss[n];
    assert Waited(c, s, r);
    forall a | a in s.apps ensures !CouldAdmit(c, s, s.apps[a]) {
      assert OldNews(c, s, s.apps[a]);
      forall seen | Answers(c, s, s.apps[a], seen) ensures seen.Some? ==> Gating(seen.value) {}
    }
  }

  /** What a call waiting for sample `x` gets when the read settles. */
  function Settles(step: Step): Option<LockState>
    requires step.Deliver? || step.Lose?
  {
    if step.Deliver? then Some(step.sample.value) else None
  }

  /** While a run may write, no read that arrives or is lost lets a waiting call through: only a read
      command of a writes-only guard passes, and that one always does. */
  lemma SettledCallStays(c: Timing, ss: seq<System>, steps: seq<Step>, n: nat, r: RunId, mode: BlockMode, readCommand: bool)
    requires Sane(c) && Headroom(c) && Run(c, ss, steps) && n < |steps| && MayWrite(ss[n], r)
    requires steps[n].Deliver? || steps[n].Lose?
    ensures Admits(mode, readCommand, Settles(steps[n])) <==> mode.WritesOnly? && readCommand
  {
    assert Takes(c, ss, steps, n);
    GuardHolds(c, ss, steps, n, r);
    var seen := Settles(steps[n]);
    var app := ss[n].apps[steps[n].app];
    assert !CouldAdmit(c, ss[n], app);
    GuardLaw(mode, readCommand, seen);
    assert Answers(c, ss[n], app, seen);
    assert Admits(mode, readCommand, seen) ==> LetsThrough(c, ss[n], app, mode, readCommand);
  }

  // ----- The premise is exact ----------------------------------------------------------------------

  ghost predicate Safe(c: Timing) {
    forall ss: seq<System>, steps: seq<Step>, n: nat, r: RunId ::
      Run(c, ss, steps) && n < |ss| && MayWrite(ss[n], r) ==> NoneAdmits(c, ss[n])
  }

  const FIRST := System(Bundle(Some(FREE_ROW), map[], map[]), 0, map[], map["app" := App(None, {})], 0)

  const READ_FREE := Sample(Free, 0)

  /** A process reads `free`; a run acquires at the same instant and begins its wait. */
  const ACQUIRED := [Read("app"), Write(Acquire(LockState.Apply, "m", "r", "host"), 0), BeginWait("r")]

  lemma Acquired(c: Timing) returns (ss: seq<System>)
    requires Sane(c)
    ensures Run(c, ss, ACQUIRED)
    ensures var s := ss[3];
            && s.clock == 0 && s.phases == map["r" := Sleeping(0)]
            && HeldBy(s.rows, "r") && s.rows.lock.value.state.Apply?
            && s.apps == map["app" := App(None, {READ_FREE})]
  {
    var s1 := Do(c, FIRST, ACQUIRED[0]);
    var s2 := Do(c, s1, ACQUIRED[1]);
    ss := [FIRST, s1, s2, Do(c, s2, ACQUIRED[2])];
    assert {} + {READ_FREE} == {READ_FREE};
  }

  lemma Extend(c: Timing, ss: seq<System>, steps: seq<Step>, step: Step)
    requires Run(c, ss, steps) && Enabled(c, ss[|steps|], step)
    ensures Run(c, ss + [Do(c, ss[|steps|], step)], steps + [step])
  {
    var ss', steps' := ss + [Do(c, ss[|steps|], step)], steps + [step];
    forall i | 0 <= i < |steps'| ensures Takes(c, ss', steps', i) {
      if i < |steps| { assert Takes(c, ss, steps, i); }
    }
  }

  lemma FreeLetsThrough(c: Timing, s: System, app: App)
    requires Answers(c, s, app, Some(Free))
    ensures CouldAdmit(c, s, app)
  {
    assert Admits(All, false, Some(Free));
  }

  /** The read takes as long as the wait: it can still arrive when the run starts to write. */
  lemma SlowReadGetsIn(c: Timing)
    requires Sane(c) && c.latencyMs >= c.waitMs
    ensures !Safe(c)
  {
    var ss := Acquired(c);
    Extend(c, ss, ACQUIRED, Tick(c.waitMs));
    var s4 := Do(c, ss[3], Tick(c.waitMs));
    var ss4, steps4 := ss + [s4], ACQUIRED + [Tick(c.waitMs)];
    Extend(c, ss4, steps4, EndWait("r"));
    var s5 := Do(c, s4, EndWait("r"));
    assert READ_FREE in s5.apps["app"].inFlight;
    FreeLetsThrough(c, s5, s5.apps["app"]);
    assert (ss4 + [s5])[5] == s5 && MayWrite(s5, "r") && CouldAdmit(c, s5, s5.apps["app"]);
  }

  /** The read arrives as late as it may; its value is still live when the run starts to write. */
  lemma LateReadGetsIn(c: Timing)
    requires Sane(c) && c.latencyMs < c.waitMs < c.ttlMs + c.latencyMs
    ensures !Safe(c)
  {
    var ss := Acquired(c);
    Extend(c, ss, ACQUIRED, Tick(c.latencyMs));
    var s4 := Do(c, ss[3], Tick(c.latencyMs));
    var ss4, steps4 := ss + [s4], ACQUIRED + [Tick(c.latencyMs)];
    Extend(c, ss4, steps4, Deliver("app", READ_FREE));
    var s5 := Do(c, s4, Deliver("app", READ_FREE));
    var ss5, steps5 := ss4 + [s5], steps4 + [Deliver("app", READ_FREE)];
    Extend(c, ss5, steps5, Tick(c.waitMs));
    var s6 := Do(c, s5, Tick(c.waitMs));
    var ss6, steps6 := ss5 + [s6], steps5 + [Tick(c.waitMs)];
    Extend(c, ss6, steps6, EndWait("r"));
    var s7 := Do(c, s6, EndWait("r"));
    FreeLetsThrough(c, s7, s7.apps["app"]);
    assert (ss6 + [s7])[7] == s7 && MayWrite(s7, "r") && CouldAdmit(c, s7, s7.apps["app"]);
  }

  /** TTL plus read latency within the wait is exactly what the guard needs. */
  lemma GuardWindowExact(c: Timing)
    requires Sane(c)
    ensures Safe(c) <==> Headroom(c)
  {
    if Headroom(c) {
      forall ss: seq<System>, steps: seq<Step>, n: nat, r: RunId | Run(c, ss, steps) && n < |ss| && MayWrite(ss[n], r)
        ensures NoneAdmits(c, ss[n])
      {
        GuardHolds(c, ss, steps, n, r);
      }
    } else if c.latencyMs >= c.waitMs {
      SlowReadGetsIn(c);
    } else {
      LateReadGetsIn(c);
    }
  }

  /** What `validateConfigInvariants` lets pass. */
  predicate ConfigAccepted(c: Timing) {
    c.ttlMs < c.waitMs
  }

  /** With instant reads the config check is enough, and nothing with a longer TTL than wait is safe. */
  lemma ConfigCheckForInstantReads(c: Timing)
    requires Sane(c) && c.latencyMs == 0
    ensures ConfigAccepted(c) ==> Safe(c)
    ensures Safe(c) ==> c.ttlMs <= c.waitMs
  {
    GuardWindowExact(c);
  }

  /** With slower reads it is enough exactly when the latency fits into the headroom it reports. */
  lemma ConfigCheckForSlowReads(c: Timing)
    requires Sane(c) && c.latencyMs > 0 && ConfigAccepted(c) && c.ttlMs > 0
    ensures Safe(c) <==> c.latencyMs <= c.waitMs - c.ttlMs
  {
    GuardWindowExact(c);
  }
}
