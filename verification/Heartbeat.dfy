/** The self-rescheduling heartbeat: a timer chain, the work a tick starts, abort and stop. */
module Heartbeat {

  /** What can happen next: the timer fires, the work in flight settles, somebody calls `stop`. */
  datatype Event = Fires | Succeeds | Fails | Stops

  /** `armed`: a timeout is scheduled. `inFlight`: calls of `work` not yet settled. `starts` and
      `aborts` count calls of `work` and of `onAbort`. */
  datatype Machine = Machine(stopped: bool, armed: bool, failures: nat, inFlight: nat, starts: nat, aborts: nat)

  const STARTED := Machine(false, true, 0, 0, 0, 0)

  predicate Possible(m: Machine, e: Event) {
    match e
    case Fires => m.armed
    case Stops => true
    case _ => m.inFlight > 0
  }

  function Next(m: Machine, e: Event, maxFailures: int): Machine
    requires Possible(m, e)
  {
    match e
    case Fires =>
      if m.stopped then m.(armed := false) else m.(armed := false, inFlight := m.inFlight + 1, starts := m.starts + 1)
    case Succeeds => m.(failures := 0, inFlight := m.inFlight - 1, armed := m.armed || !m.stopped)
    case Fails =>
      var failed := m.(failures := m.failures + 1, inFlight := m.inFlight - 1);
      if failed.failures >= maxFailures then failed.(stopped := true, aborts := m.aborts + 1)
      else failed.(armed := m.armed || !m.stopped)
    case Stops => m.(stopped := true, armed := false)
  }

  /** The closure of `startHeartbeatScheduler`. */
  class Scheduler {
    const maxFailures: int
    var stopped: bool
    var armed: bool
    var consecutiveFailures: nat
    var inFlight: nat
    ghost var starts: nat
    ghost var aborts: nat

    ghost function State(): Machine
      reads this
    {
      Machine(stopped, armed, consecutiveFailures, inFlight, starts, aborts)
    }

    /** The first tick is one interval away. */
    constructor (maxConsecutiveFailures: int)
      ensures State() == STARTED && maxFailures == maxConsecutiveFailures
    {
      maxFailures := maxConsecutiveFailures;
      stopped, armed, consecutiveFailures, inFlight := false, true, 0, 0;
      starts, aborts := 0, 0;
    }

    /** The timer fires: `tick` up to its `await`. */
    method Tick()
      requires Possible(State(), Fires)
      modifies this
      ensures State() == Next(old(State()), Fires, maxFailures)
    {
      armed := false;
      if stopped { return; }
      inFlight := inFlight + 1;
      starts := starts + 1;
    }

    /** The rest of `tick`, once the work has settled. */
    method Settle(ok: bool)
      requires Possible(State(), Succeeds)
      modifies this
      ensures State() == Next(old(State()), if ok then Succeeds else Fails, maxFailures)
    {
      inFlight := inFlight - 1;
      if ok {
        consecutiveFailures := 0;
      } else {
        consecutiveFailures := consecutiveFailures + 1;
        if consecutiveFailures >= maxFailures {
          stopped := true;
          aborts := aborts + 1;
          return;
        }
      }
      if !stopped { armed := true; }
    }

    method Stop()
      modifies this
      ensures State() == Next(old(State()), Stops, maxFailures)
    {
      stopped := true;
      if armed { armed := false; }
    }
  }

  // ----- Over every order of events ---------------------------------------------------------------

  ghost predicate Run(ms: seq<Machine>, es: seq<Event>, maxFailures: int) {
    |ms| == |es| + 1 && ms[0] == STARTED && forall i :: 0 <= i < |es| ==> Happens(ms, es, maxFailures, i)
  }

  predicate Happens(ms: seq<Machine>, es: seq<Event>, maxFailures: int, i: nat)
    requires |ms| == |es| + 1 && i < |es|
  {
    Possible(ms[i], es[i]) && ms[i + 1] == Next(ms[i], es[i], maxFailures)
  }

  /** Failures since the last success. */
  function Trailing(es: seq<Event>): nat {
    if es == [] then 0
    else
      match es[|es| - 1]
      case Succeeds => 0
      case Fails => Trailing(es[..|es| - 1]) + 1
      case _ => Trailing(es[..|es| - 1])
  }

  /** A single failure aborts also when the maximum is set below one. */
  function Threshold(maxFailures: int): nat {
    if maxFailures < 1 then 1 else maxFailures
  }

  ghost predicate Stopping(es: seq<Event>) {
    Stops in es
  }

  predicate Sound(m: Machine, maxFailures: int, trailing: nat) {
    && m.inFlight + (if m.armed then 1 else 0) <= 1
    && (m.stopped ==> !m.armed)
    && (!m.stopped ==> m.armed || m.inFlight == 1)
    && m.failures == trailing
    && (if m.failures < Threshold(maxFailures) then m.aborts == 0
        else m.failures == Threshold(maxFailures) && m.aborts == 1 && m.stopped && m.inFlight == 0)
  }

  lemma {:induction false} AlwaysSound(ms: seq<Machine>, es: seq<Event>, maxFailures: int, n: nat)
    requires Run(ms, es, maxFailures) && n < |ms|
    ensures Sound(ms[n], maxFailures, Trailing(es[..n]))
    ensures ms[n].stopped <==> Stopping(es[..n]) || ms[n].aborts == 1
  {
    if n > 0 {
      AlwaysSound(ms, es, maxFailures, n - 1);
      assert Happens(ms, es, maxFailures, n - 1);
      assert es[..n] == es[..n - 1] + [es[n - 1]] && es[..n][..n - 1] == es[..n - 1];
    }
  }

  /** At most one `work` is in flight, and as long as nothing stopped it the chain never dies. */
  lemma OneAtATime(ms: seq<Machine>, es: seq<Event>, maxFailures: int, n: nat)
    requires Run(ms, es, maxFailures) && n < |ms|
    ensures ms[n].inFlight <= 1
    ensures !ms[n].stopped ==> Possible(ms[n], Fires) || Possible(ms[n], Succeeds)
  {
    AlwaysSound(ms, es, maxFailures, n);
  }

  /** `onAbort` is called at most once, at the very failure that completes a series of exactly the
      threshold length, and at every such failure. */
  lemma AbortsExactlyAtThreshold(ms: seq<Machine>, es: seq<Event>, maxFailures: int, n: nat)
    requires Run(ms, es, maxFailures) && n < |es|
    ensures ms[n + 1].aborts <= 1
    ensures ms[n + 1].aborts == ms[n].aborts + 1 <==> es[n].Fails? && Trailing(es[..n + 1]) == Threshold(maxFailures)
    ensures ms[n + 1].aborts != ms[n].aborts + 1 ==> ms[n + 1].aborts == ms[n].aborts
  {
    AlwaysSound(ms, es, maxFailures, n);
    AlwaysSound(ms, es, maxFailures, n + 1);
    assert Happens(ms, es, maxFailures, n);
  }

  /** After `stop`, or after an abort, no `work` starts any more. */
  lemma {:induction false} NoneStartsAfter(ms: seq<Machine>, es: seq<Event>, maxFailures: int, i: nat, j: nat)
    requires Run(ms, es, maxFailures) && i <= j < |ms|
    requires Stopping(es[..i]) || ms[i].aborts == 1
    ensures ms[j].stopped && ms[j].starts == ms[i].starts
    decreases j
  {
    AlwaysSound(ms, es, maxFailures, j);
    if i == j {
      AlwaysSound(ms, es, maxFailures, i);
    } else {
      NoneStartsAfter(ms, es, maxFailures, i, j - 1);
      assert Happens(ms, es, maxFailures, j - 1);
    }
  }

  /** `stop` does not disarm `onAbort`: it still fires exactly when the work in flight was one failure
      short of the threshold and fails. */
  lemma AbortAfterStop(ms: seq<Machine>, es: seq<Event>, maxFailures: int, n: nat)
    requires Run(ms, es, maxFailures) && n < |es| && Stopping(es[..n]) && ms[n].aborts == 0
    ensures ms[n + 1].aborts == 1 <==> es[n].Fails? && Trailing(es[..n]) + 1 == Threshold(maxFailures)
  {
    AbortsExactlyAtThreshold(ms, es, maxFailures, n);
    assert es[..n + 1][..n] == es[..n];
  }

  /** Such a run exists for the default of two. */
  lemma AbortAfterStopHappens()
    ensures exists ms: seq<Machine>, es: seq<Event> :: Run(ms, es, 2) && |es| == 5 && es[3].Stops? && ms[4].aborts == 0 && ms[5].aborts == 1
  {
    var es := [Fires, Fails, Fires, Stops, Fails];
    var m1 := Next(STARTED, Fires, 2);
    var m2 := Next(m1, Fails, 2);
    var m3 := Next(m2, Fires, 2);
    var m4 := Next(m3, Stops, 2);
    var ms := [STARTED, m1, m2, m3, m4, Next(m4, Fails, 2)];
    assert Run(ms, es, 2);
  }
}
