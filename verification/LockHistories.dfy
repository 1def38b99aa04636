/** Safety of the lock over whole histories: any verbs, with any arguments, by anyone, in any order.
    A refused verb leaves the rows as they are. */
module LockHistories {
  import opened Wrappers
  import opened LockRows

  /** A verb as it reaches the store: `now` and `cutoff` were computed by the caller. */
  datatype Event = Event(verb: Verb, now: int, cutoff: int)

  predicate Commits(b: Bundle, e: Event) {
    Perform(e.verb, b, e.now, e.cutoff).Some?
  }

  function After(b: Bundle, e: Event): Bundle {
    var next := Perform(e.verb, b, e.now, e.cutoff);
    if next.Some? then next.value else b
  }

  ghost predicate History(bs: seq<Bundle>, es: seq<Event>) {
    |bs| == |es| + 1 && forall i :: 0 <= i < |es| ==> Follows(bs, es, i)
  }

  predicate Follows(bs: seq<Bundle>, es: seq<Event>, i: nat)
    requires |bs| == |es| + 1 && i < |es|
  {
    bs[i + 1] == After(bs[i], es[i])
  }

  /** The run a verb acts for. */
  function RunOf(v: Verb): Option<RunId> {
    match v
    case PutMigration(_, _) => None
    case PatchStatus(_, _) => None
    case _ => Some(v.runId)
  }

  predicate HeldBy(b: Bundle, r: RunId) {
    b.lock.Some? && Names(b.lock.value, r)
  }

  // ----- The rows agree ------------------------------------------------------------------------

  /** Idle exactly when no run is named; a named run has its row, which says `completed` under a
      release lock and `failed` under a failed one. */
  predicate Coherent(b: Bundle) {
    b.lock.Some? ==>
      var l := b.lock.value;
      && (Idle(l.state) <==> l.runId.None?)
      && (l.runId.Some? ==> l.runId.value in b.runs)
      && (l.state.Release? ==> b.runs[l.runId.value].status == Completed)
      && (l.state.Failed? ==> b.runs[l.runId.value].status == RunFailed)
  }

  lemma StaysCoherent(b: Bundle, e: Event)
    requires Coherent(b)
    ensures Coherent(After(b, e))
  {
    match e.verb
    case Acquire(_, _, _, _) =>
    case AppendInFlight(_, _) =>
    case ToRelease(_, _, _, _, _) =>
    case MarkFailed(_, _) =>
    case _ =>
  }

  /** In every state of every history. */
  lemma {:induction false} AlwaysCoherent(bs: seq<Bundle>, es: seq<Event>, n: nat)
    requires History(bs, es) && n < |bs| && Coherent(bs[0])
    ensures Coherent(bs[n])
  {
    if n > 0 {
      AlwaysCoherent(bs, es, n - 1);
      assert Follows(bs, es, n - 1);
      StaysCoherent(bs[n - 1], es[n - 1]);
    }
  }

  /** Hence the run that holds the lock can always fail it. */
  lemma HolderCanFail(bs: seq<Bundle>, es: seq<Event>, n: nat, r: RunId, failing: Option<MigId>, now: int)
    requires History(bs, es) && n < |bs| && Coherent(bs[0]) && HeldBy(bs[n], r)
    ensures var b := After(bs[n], Event(MarkFailed(r, failing), now, 0));
            HeldBy(b, r) && b.lock.value.state.Failed? && r in b.runs && b.runs[r].status == RunFailed
  {
    AlwaysCoherent(bs, es, n);
  }

  // ----- Fencing ---------------------------------------------------------------------------------

  predicate Acquires(v: Verb, r: RunId) {
    v.Acquire? && v.runId == r
  }

  lemma FencedOnce(b: Bundle, e: Event, r: RunId)
    requires !HeldBy(b, r) && !Acquires(e.verb, r)
    ensures !HeldBy(After(b, e), r)
    ensures (r in After(b, e).runs <==> r in b.runs) && (r in b.runs ==> After(b, e).runs[r] == b.runs[r])
    ensures RunOf(e.verb) == Some(r) ==> After(b, e) == b
  {
  }

  /** Row puts and status patches are not conditioned on the lock: a displaced run can still send them, and
      they change the row of the migration they name, and nothing else. */
  lemma UnfencedTouchOneRow(b: Bundle, e: Event)
    requires e.verb.PutMigration? || e.verb.PatchStatus?
    ensures var a := After(b, e);
            && a.lock == b.lock && a.runs == b.runs
            && a.migrations - {e.verb.migId} == b.migrations - {e.verb.migId}
            && (e.verb.migId in a.migrations && e.verb.migId in b.migrations && e.verb.PatchStatus? ==>
                  a.migrations[e.verb.migId] == b.migrations[e.verb.migId].(status := e.verb.status))
  {
  }

  /** Once the lock stops naming `r`, no lock-row verb `r` still sends changes any row, and no verb of anyone
      changes the run row of `r`. */
  lemma {:induction false} Fenced(bs: seq<Bundle>, es: seq<Event>, r: RunId, i: nat, j: nat)
    requires History(bs, es) && i <= j < |bs| && !HeldBy(bs[i], r)
    requires forall k :: i <= k < j ==> !Acquires(es[k].verb, r)
    ensures !HeldBy(bs[j], r)
    ensures (r in bs[j].runs <==> r in bs[i].runs) && (r in bs[i].runs ==> bs[j].runs[r] == bs[i].runs[r])
    ensures j < |es| && RunOf(es[j].verb) == Some(r) && !Acquires(es[j].verb, r) ==> bs[j + 1] == bs[j]
    decreases j
  {
    if i < j {
      Fenced(bs, es, r, i, j - 1);
      assert Follows(bs, es, j - 1);
      FencedOnce(bs[j - 1], es[j - 1], r);
    }
    if j < |es| {
      assert Follows(bs, es, j);
      if !Acquires(es[j].verb, r) { FencedOnce(bs[j], es[j], r); }
    }
  }

  // ----- One step of a hold ----------------------------------------------------------------------

  predicate HoldsActive(b: Bundle, r: RunId) {
    HeldBy(b, r) && Active(b.lock.value.state) && b.lock.value.heartbeatAt.Some?
  }

  /** The heartbeat is not older than the cutoff the event came with. `HoldTimes` says when that is so. */
  predicate Beating(b: Bundle, e: Event)
    requires b.lock.Some? && b.lock.value.heartbeatAt.Some?
  {
    e.cutoff <= b.lock.value.heartbeatAt.value
  }

  /** The verbs of `r`, or sent in its name by `unlock`, that end an active hold. */
  predicate EndsHold(v: Verb, r: RunId) {
    RunOf(v) == Some(r) && (v.ToRelease? || v.MarkFailed? || v.ClearFinalize? || v.ForcedClear?)
  }

  lemma NoAcquireWhileBeating(b: Bundle, e: Event, r: RunId)
    requires HoldsActive(b, r) && Beating(b, e) && e.verb.Acquire?
    ensures !Commits(b, e)
  {
  }

  lemma HoldGoesOn(b: Bundle, e: Event, r: RunId)
    requires HoldsActive(b, r) && Beating(b, e) && !EndsHold(e.verb, r)
    ensures HoldsActive(After(b, e), r) && After(b, e).lock.value.state == b.lock.value.state
  {
  }

  // ----- What a takeover leaves behind --------------------------------------------------------------

  /** After a release transition the run can clear the lock exactly when no other migration was still
      listed in flight; a takeover leaves the dead run's id listed, and then `clear` refuses. */
  lemma ClearAfterRelease(b: Bundle, e: Event, now: int)
    requires e.verb.ToRelease? && Commits(b, e)
    ensures Commits(After(b, e), Event(Clear(e.verb.runId), now, 0)) <==> b.lock.value.inFlightIds <= {e.verb.migId}
  {
    var m := e.verb.migId;
    assert b.lock.value.inFlightIds <= {m} <==> b.lock.value.inFlightIds - {m} == {};
  }

  /** A takeover of a stale lock: the dead run's migration stays listed in flight. */
  lemma TakeoverKeepsInFlight(b: Bundle, take: Event, done: Event, dead: MigId, now: int)
    requires take.verb.Acquire? && Commits(b, take) && dead in b.lock.value.inFlightIds
    requires done.verb.ToRelease? && done.verb.runId == take.verb.runId && done.verb.migId == take.verb.migId != dead
    requires Commits(After(b, take), done)
    ensures !Commits(After(After(b, take), done), Event(Clear(take.verb.runId), now, 0))
  {
    ClearAfterRelease(After(b, take), done, now);
    assert dead in After(b, take).lock.value.inFlightIds;
  }
}
