/** When a rollback judges an applied migration to be pre-release, has the guard really kept the
    application out since that migration was released? */
module CaseOneSoundness {
  import opened Wrappers
  import opened LockRows
  import opened LockHistories
  import opened Preconditions
  import opened GuardCache

  predicate GatingRow(b: Bundle) {
    b.lock.Some? && Gating(b.lock.value.state)
  }

  /** An applied migration that the lifecycle rule puts before its release. */
  predicate JudgedPreRelease(b: Bundle, m: MigId) {
    && m in b.migrations && b.migrations[m].status.Applied?
    && DetermineLifecycleCase(b.migrations[m], b.lock, m) == Some(Preconditions.CaseOne)
  }

  predicate AppliedAndReleased(b: Bundle, m: MigId) {
    m in b.migrations && b.migrations[m].status.Applied? && b.lock.Some? && m in b.lock.value.releaseIds
  }

  /** The two steps that let calls through and keep the release set. */
  predicate ForcesClear(b: Bundle, e: Event) {
    e.verb.ForcedClear? && Commits(b, e)
  }

  predicate FinalizesOverStale(b: Bundle, e: Event) {
    e.verb.Acquire? && e.verb.mode.Finalize? && Commits(b, e) && !Idle(b.lock.value.state) && !b.lock.value.state.Finalize?
  }

  /** Such a step while an applied migration is in the release set. */
  ghost predicate Harmful(b: Bundle, e: Event) {
    (ForcesClear(b, e) || FinalizesOverStale(b, e)) && exists m :: AppliedAndReleased(b, m)
  }

  /** The guard lets calls through, and yet an applied migration counts as released in this cycle. */
  predicate Leaks(b: Bundle, m: MigId) {
    AppliedAndReleased(b, m) && !GatingRow(b)
  }

  ghost predicate Tight(b: Bundle) {
    forall m :: !Leaks(b, m)
  }

  /** `applied` is only ever written by the release transition: the apply flow puts `pending`, and
      the patches write `failed` and `finalized`. */
  predicate WritesOwnStatuses(e: Event) {
    && (e.verb.PatchStatus? ==> e.verb.status.FailedStatus? || e.verb.status.Finalized?)
    && (e.verb.PutMigration? ==> e.verb.row.status.Pending?)
  }

  /** From a tight state a step leaves a tight one exactly when it is not harmful. */
  lemma StaysTight(b: Bundle, e: Event)
    requires Tight(b) && WritesOwnStatuses(e)
    ensures Tight(After(b, e)) <==> !Harmful(b, e)
  {
    if Harmful(b, e) {
      var m :| AppliedAndReleased(b, m);
      assert Leaks(After(b, e), m);
    } else {
      forall m ensures !Leaks(After(b, e), m) { LeakIsHarm(b, e, m); }
    }
  }

  lemma LeakIsHarm(b: Bundle, e: Event, m: MigId)
    requires !Leaks(b, m) && WritesOwnStatuses(e)
    ensures Leaks(After(b, e), m) ==> Harmful(b, e)
  {
    if Leaks(After(b, e), m) {
      assert AppliedAndReleased(b, m);
    }
  }

  /** Released as applied by step `i`, and every state since is gating. */
  predicate GuardedSince(bs: seq<Bundle>, es: seq<Event>, m: MigId, n: nat, i: nat)
    requires |bs| == |es| + 1 && n < |bs|
  {
    && i < n
    && es[i].verb.ToRelease? && es[i].verb.migId == m && es[i].verb.outcome.Applied? && Commits(bs[i], es[i])
    && forall k :: i < k <= n ==> GatingRow(bs[k])
  }

  /** What one step can do to an applied migration in the release set. */
  lemma ReleasedStep(b: Bundle, e: Event, m: MigId)
    requires !Leaks(After(b, e), m) && AppliedAndReleased(After(b, e), m) && WritesOwnStatuses(e)
    ensures GatingRow(After(b, e))
    ensures || (e.verb.ToRelease? && e.verb.migId == m && e.verb.outcome.Applied? && Commits(b, e))
            || AppliedAndReleased(b, m)
  {
  }

  /** A history that starts with nothing released, by writers of their own statuses. */
  ghost predicate Proper(bs: seq<Bundle>, es: seq<Event>) {
    && History(bs, es)
    && (bs[0].lock.Some? ==> bs[0].lock.value.releaseIds == {})
    && forall k :: 0 <= k < |es| ==> WritesOwnStatuses(es[k])
  }

  ghost predicate Harmless(bs: seq<Bundle>, es: seq<Event>, n: nat)
    requires |bs| == |es| + 1 && n < |bs|
  {
    forall k :: 0 <= k < n ==> !Harmful(bs[k], es[k])
  }

  lemma {:induction false} ReleasedMeansGuarded(bs: seq<Bundle>, es: seq<Event>, m: MigId, n: nat)
    requires Proper(bs, es) && n < |bs| && Harmless(bs, es, n)
    ensures Tight(bs[n])
    ensures AppliedAndReleased(bs[n], m) ==> exists i :: GuardedSince(bs, es, m, n, i)
  {
    if n > 0 {
      var b, e := bs[n - 1], es[n - 1];
      ReleasedMeansGuarded(bs, es, m, n - 1);
      assert Follows(bs, es, n - 1) && !Harmful(b, e) && WritesOwnStatuses(e);
      StaysTight(b, e);
      if AppliedAndReleased(bs[n], m) {
        ReleasedStep(b, e, m);
        if e.verb.ToRelease? && e.verb.migId == m && e.verb.outcome.Applied? && Commits(b, e) {
          assert GuardedSince(bs, es, m, n, n - 1);
        } else {
          var i :| GuardedSince(bs, es, m, n - 1, i);
          assert GuardedSince(bs, es, m, n, i);
        }
      }
    }
  }

  /** In histories without a harmful step, an applied migration is judged pre-release only if the lock has
      been gating at every instant since it was released as applied. */
  lemma CaseOneSound(bs: seq<Bundle>, es: seq<Event>, m: MigId, n: nat)
    requires Proper(bs, es) && n < |bs| && Harmless(bs, es, n)
    requires JudgedPreRelease(bs[n], m)
    ensures exists i :: GuardedSince(bs, es, m, n, i)
  {
    ReleasedMeansGuarded(bs, es, m, n);
  }

  // ----- The exclusion is exact --------------------------------------------------------------------------

  /** `cs` and `fs` agree with the history up to state `n`, and go on without a harmful step. */
  ghost predicate GoesOn(bs: seq<Bundle>, es: seq<Event>, n: nat, cs: seq<Bundle>, fs: seq<Event>) {
    && Proper(cs, fs) && n < |bs| == |es| + 1 && n < |cs|
    && cs[..n + 1] == bs[..n + 1] && fs[..n] == es[..n]
    && forall k :: n <= k < |fs| ==> !Harmful(cs[k], fs[k])
  }

  /** At the end of the history the judgement on `m`, if it is pre-release, is right. */
  ghost predicate JudgedRightly(bs: seq<Bundle>, es: seq<Event>, m: MigId)
    requires |bs| == |es| + 1
  {
    JudgedPreRelease(bs[|es|], m) ==> exists i :: GuardedSince(bs, es, m, |es|, i)
  }

  /** The judgement is right wherever the history, left at any of its states, leads without a harmful step. */
  ghost predicate StaysSound(bs: seq<Bundle>, es: seq<Event>) {
    forall n: nat, cs: seq<Bundle>, fs: seq<Event>, m: MigId :: GoesOn(bs, es, n, cs, fs) ==> JudgedRightly(cs, fs, m)
  }

  lemma HarmlessGoesOn(bs: seq<Bundle>, es: seq<Event>, n: nat, cs: seq<Bundle>, fs: seq<Event>, m: MigId)
    requires Proper(bs, es) && Harmless(bs, es, |es|) && GoesOn(bs, es, n, cs, fs)
    ensures JudgedRightly(cs, fs, m)
  {
    forall k | 0 <= k < |fs| ensures !Harmful(cs[k], fs[k]) {
      if k < n {
        assert cs[k] == cs[..n + 1][k] == bs[k] && fs[k] == fs[..n][k] == es[k];
      }
    }
    if JudgedPreRelease(cs[|fs|], m) { CaseOneSound(cs, fs, m, |fs|); }
  }

  // ----- From a leak to a wrong judgement ---------------------------------------------------------------

  function Follow(b: Bundle, es: seq<Event>): seq<Bundle>
    ensures |Follow(b, es)| == |es| + 1 && Follow(b, es)[0] == b
    decreases |es|
  {
    if es == [] then [b] else [b] + Follow(After(b, es[0]), es[1..])
  }

  lemma {:induction false} FollowIsHistory(b: Bundle, es: seq<Event>)
    ensures History(Follow(b, es), es)
    decreases |es|
  {
    var bs := Follow(b, es);
    if es != [] {
      var rest := Follow(After(b, es[0]), es[1..]);
      FollowIsHistory(After(b, es[0]), es[1..]);
      forall i | 0 <= i < |es| ensures Follows(bs, es, i) {
        if i > 0 { assert Follows(rest, es[1..], i - 1); }
      }
    }
  }

  /** An active lock carries a heartbeat. */
  predicate Stamped(b: Bundle) {
    b.lock.Some? && Active(b.lock.value.state) ==> b.lock.value.heartbeatAt.Some?
  }

  lemma {:induction false} AlwaysStamped(bs: seq<Bundle>, es: seq<Event>, n: nat)
    requires History(bs, es) && n < |bs| && Stamped(bs[0])
    ensures Stamped(bs[n])
  {
    if n > 0 {
      AlwaysStamped(bs, es, n - 1);
      assert Follows(bs, es, n - 1);
    }
  }

  function OtherOf(m: MigId): MigId { m + "'" }

  /** An acquire later than whatever heartbeat the lock carries, by an apply run. */
  function TakeFor(b: Bundle, m: MigId): Event
    requires b.lock.Some?
  {
    var beat := if b.lock.value.heartbeatAt.Some? then b.lock.value.heartbeatAt.value else 0;
    Event(Acquire(LockState.Apply, OtherOf(m), "other run", "host"), beat + 61, beat + 1)
  }

  /** An apply run for another migration: acquire, from an idle or a stale lock, row put, release. */
  function Misleading(b: Bundle, m: MigId): seq<Event>
    requires b.lock.Some?
  {
    [TakeFor(b, m),
     Event(PutMigration(OtherOf(m), FRESH_MIGRATION), 0, 0),
     Event(ToRelease("other run", OtherOf(m), Applied, None, None), 0, 0)]
  }

  /** It acquires, and goes through. */
  lemma OtherRunAcquires(b: Bundle, m: MigId)
    requires Stamped(b) && Leaks(b, m)
    ensures var a := After(b, TakeFor(b, m));
            Commits(b, TakeFor(b, m)) && AppliedAndReleased(a, m) && a.lock.value.state.Apply? && HeldBy(a, "other run") && "other run" in a.runs
  {
  }

  lemma MisleadingMisleads(b: Bundle, m: MigId)
    requires Stamped(b) && Leaks(b, m)
    ensures var es := Misleading(b, m); JudgedPreRelease(Follow(b, es)[|es|], m)
  {
    var es := Misleading(b, m);
    assert OtherOf(m) != m;
    OtherRunAcquires(b, m);
    var b1 := After(b, es[0]);
    var b2 := After(b1, es[1]);
    assert es[0..] == es && es[|es|..] == [];
    FollowOne(b, es, 0);
    FollowOne(b1, es, 1);
    FollowOne(b2, es, 2);
    assert AppliedAndReleased(b2, m) && OtherOf(m) in b2.migrations;
  }

  lemma FollowOne(b: Bundle, es: seq<Event>, i: nat)
    requires i < |es|
    ensures Follow(b, es[i..]) == [b] + Follow(After(b, es[i]), es[i + 1..])
  {
    assert es[i..][1..] == es[i + 1..];
  }

  /** The history up to state `n`, and then the events `more`. */
  lemma Splice(bs: seq<Bundle>, es: seq<Event>, n: nat, more: seq<Event>) returns (cs: seq<Bundle>, fs: seq<Event>)
    requires History(bs, es) && n < |bs|
    ensures History(cs, fs) && n + |more| == |fs| && cs[..n + 1] == bs[..n + 1] && fs[..n] == es[..n]
    ensures cs[n] == bs[n] && cs[|fs|] == Follow(bs[n], more)[|more|]
    ensures forall k :: n <= k < |fs| ==> fs[k] == more[k - n]
  {
    var tail := Follow(bs[n], more);
    FollowIsHistory(bs[n], more);
    cs, fs := bs[..n] + tail, es[..n] + more;
    forall i | 0 <= i < |fs| ensures Follows(cs, fs, i) {
      if i < n { assert Follows(bs, es, i); } else { assert Follows(tail, more, i - n); }
    }
  }

  lemma LeakMisleads(bs: seq<Bundle>, es: seq<Event>, n: nat, m: MigId)
    requires Proper(bs, es) && Stamped(bs[0]) && n < |bs| && Leaks(bs[n], m)
    ensures !StaysSound(bs, es)
  {
    AlwaysStamped(bs, es, n);
    var more := Misleading(bs[n], m);
    MisleadingMisleads(bs[n], m);
    var cs, fs := Splice(bs, es, n, more);
    assert cs[0] == cs[..n + 1][0] == bs[..n + 1][0];
    forall k | 0 <= k < n ensures WritesOwnStatuses(fs[k]) { assert fs[k] == fs[..n][k] == es[..n][k]; }
    assert GoesOn(bs, es, n, cs, fs);
    forall i | 0 <= i ensures !GuardedSince(cs, fs, m, |fs|, i) {
      assert i < n ==> !GatingRow(cs[n]);
    }
    assert !JudgedRightly(cs, fs, m);
  }

  /** A history has no harmful step exactly when in none of its states the guard lets calls through while an
      applied migration is in the release set. */
  lemma {:induction false} HarmlessMeansTight(bs: seq<Bundle>, es: seq<Event>, n: nat)
    requires Proper(bs, es) && n < |bs|
    ensures Harmless(bs, es, n) <==> forall k :: 0 <= k <= n ==> Tight(bs[k])
  {
    if n > 0 {
      HarmlessMeansTight(bs, es, n - 1);
      assert Follows(bs, es, n - 1) && WritesOwnStatuses(es[n - 1]);
      if Tight(bs[n - 1]) { StaysTight(bs[n - 1], es[n - 1]); }
    }
  }

  /** The judgement stays right along a history and wherever it may lead exactly when no step of the history
      was a forced clear, or a finalize run taking over a stale lock, with an applied migration in the
      release set. */
  lemma CaseOneSoundExactly(bs: seq<Bundle>, es: seq<Event>)
    requires Proper(bs, es) && Stamped(bs[0])
    ensures StaysSound(bs, es) <==> Harmless(bs, es, |es|)
  {
    if Harmless(bs, es, |es|) {
      forall n: nat, cs: seq<Bundle>, fs: seq<Event>, m: MigId | GoesOn(bs, es, n, cs, fs) ensures JudgedRightly(cs, fs, m) {
        HarmlessGoesOn(bs, es, n, cs, fs, m);
      }
    } else {
      var k := FirstHarm(bs, es, |es|);
      ReleasedMeansGuarded(bs, es, "", k);
      assert Follows(bs, es, k) && WritesOwnStatuses(es[k]);
      StaysTight(bs[k], es[k]);
      var m :| Leaks(bs[k + 1], m);
      LeakMisleads(bs, es, k + 1, m);
    }
  }

  lemma {:induction false} FirstHarm(bs: seq<Bundle>, es: seq<Event>, n: nat) returns (k: nat)
    requires |bs| == |es| + 1 && n < |bs| && !Harmless(bs, es, n)
    ensures k < n && Harmful(bs[k], es[k]) && Harmless(bs, es, k)
  {
    if Harmless(bs, es, n - 1) { k := n - 1; } else { k := FirstHarm(bs, es, n - 1); }
  }

  // ----- Both kinds of harm happen -------------------------------------------------------------

  function Play(b: Bundle, es: seq<Event>): Bundle
    decreases |es|
  {
    if es == [] then b else Play(After(b, es[0]), es[1..])
  }

  function At(v: Verb, now: int): Event { Event(v, now, now - 60) }

  const FRESH_MIGRATION := MigrationRow(Pending, "user", 1, 2, {}, None, None)
  const START := Bundle(Some(FREE_ROW), map["m1" := FRESH_MIGRATION, "m2" := FRESH_MIGRATION.(entity := "team")], map[])

  function ApplyOne(r: RunId, m: MigId, now: int): seq<Event> {
    [At(Acquire(LockState.Apply, m, r, "host"), now), At(ToRelease(r, m, Applied, None, None), now + 1)]
  }

  lemma PlayTwo(b: Bundle, e: Event, f: Event, rest: seq<Event>)
    ensures Play(b, [e, f] + rest) == Play(After(After(b, e), f), rest)
  {
    assert ([e, f] + rest)[1..] == [f] + rest && ([f] + rest)[1..] == rest;
  }

  /** Release m1, force the lock free, release m2: m1 is judged pre-release again, though the
      application had the table to itself in between. */
  lemma ForcedClearBreaksIt()
    ensures var released := Play(START, ApplyOne("r1", "m1", 0));
            var cleared := After(released, At(ForcedClear("r1"), 2));
            && ForcesClear(released, At(ForcedClear("r1"), 2))
            && cleared.lock.value.state.Free?
            && JudgedPreRelease(Play(cleared, ApplyOne("r2", "m2", 3)), "m1")
  {
    PlayApplyOne(START, "r1", "m1", 0);
    PlayApplyOne(After(Play(START, ApplyOne("r1", "m1", 0)), At(ForcedClear("r1"), 2)), "r2", "m2", 3);
  }

  /** Release m1, go on to m2 and die; a finalize run takes the stale lock over, letting traffic in,
      dies in turn, and an apply run takes over and releases: m1 is judged pre-release again. */
  lemma FinalizeTakeoverBreaksIt()
    ensures var dead := Play(Play(START, ApplyOne("r1", "m1", 0)), [At(AppendInFlight("r1", "m2"), 2), At(ResumeApply("r1", "m2"), 3)]);
            var take := At(Acquire(LockState.Finalize, "m0", "r2", "host"), 100);
            && FinalizesOverStale(dead, take)
            && !Gating(After(dead, take).lock.value.state)
            && JudgedPreRelease(Play(After(dead, take), ApplyOne("r3", "m2", 200)), "m1")
  {
    var released := Play(START, ApplyOne("r1", "m1", 0));
    PlayApplyOne(START, "r1", "m1", 0);
    var go, resume := At(AppendInFlight("r1", "m2"), 2), At(ResumeApply("r1", "m2"), 3);
    PlayTwo(released, go, resume, []);
    assert [go, resume] == [go, resume] + [];
    var dead := Play(released, [go, resume]);
    AfterTakeover(dead);
  }

  lemma PlayApplyOne(b: Bundle, r: RunId, m: MigId, now: int)
    ensures Play(b, ApplyOne(r, m, now)) == After(After(b, ApplyOne(r, m, now)[0]), ApplyOne(r, m, now)[1])
  {
    var a := ApplyOne(r, m, now);
    PlayTwo(b, a[0], a[1], []);
    assert a == [a[0], a[1]] + [];
  }

  lemma AfterTakeover(dead: Bundle)
    requires dead.lock.Some? && dead.lock.value.state.Apply? && dead.lock.value.heartbeatAt == Some(3) && "m1" in dead.lock.value.releaseIds
    requires "m1" in dead.migrations && dead.migrations["m1"].status.Applied? && "m2" in dead.migrations
    ensures var take := At(Acquire(LockState.Finalize, "m0", "r2", "host"), 100);
            && FinalizesOverStale(dead, take)
            && !Gating(After(dead, take).lock.value.state)
            && JudgedPreRelease(Play(After(dead, take), ApplyOne("r3", "m2", 200)), "m1")
  {
    var taken := After(dead, At(Acquire(LockState.Finalize, "m0", "r2", "host"), 100));
    PlayApplyOne(taken, "r3", "m2", 200);
  }
}
