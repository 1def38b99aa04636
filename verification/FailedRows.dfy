/** A row that says `failed` is always judged to be before its release. The unlock command and the catch
    block of the apply flow write `failed` without looking at what the row said; when is the judgement
    right? */
module FailedRows {
  import opened Wrappers
  import opened LockRows
  import opened LockHistories
  import opened Preconditions
  import opened CaseOneSoundness

  predicate StatusIs(b: Bundle, m: MigId, status: Status) {
    m in b.migrations && b.migrations[m].status == status
  }

  predicate InForce(b: Bundle, m: MigId) {
    StatusIs(b, m, Applied) || StatusIs(b, m, Finalized)
  }

  /** The application runs on the new version: the migration is in force and the guard admits calls. */
  predicate Live(b: Bundle, m: MigId) {
    InForce(b, m) && !GatingRow(b)
  }

  /** A new cycle of `m`: its row is put pending, or a run transitions it to release. */
  predicate StartsOver(b: Bundle, e: Event, m: MigId) {
    || (e.verb.PutMigration? && e.verb.migId == m)
    || (e.verb.ToRelease? && e.verb.migId == m && Commits(b, e))
  }

  predicate LiveSince(bs: seq<Bundle>, es: seq<Event>, m: MigId, n: nat, k: nat)
    requires |bs| == |es| + 1 && n < |bs|
  {
    k <= n && Live(bs[k], m) && forall l :: k <= l < n ==> !StartsOver(bs[l], es[l], m)
  }

  /** In the current cycle of `m` the application has run on its new version. */
  ghost predicate Exposed(bs: seq<Bundle>, es: seq<Event>, m: MigId, n: nat)
    requires |bs| == |es| + 1 && n < |bs|
  {
    exists k: nat :: LiveSince(bs, es, m, n, k)
  }

  lemma ExposedStep(bs: seq<Bundle>, es: seq<Event>, m: MigId, n: nat)
    requires |bs| == |es| + 1 && n < |es|
    ensures Exposed(bs, es, m, n + 1) <==> Live(bs[n + 1], m) || (Exposed(bs, es, m, n) && !StartsOver(bs[n], es[n], m))
  {
    if Live(bs[n + 1], m) { assert LiveSince(bs, es, m, n + 1, n + 1); }
    if Exposed(bs, es, m, n) && !StartsOver(bs[n], es[n], m) {
      var k: nat :| LiveSince(bs, es, m, n, k);
      assert LiveSince(bs, es, m, n + 1, k);
    }
    if Exposed(bs, es, m, n + 1) && !Live(bs[n + 1], m) {
      var k: nat :| LiveSince(bs, es, m, n + 1, k);
      assert LiveSince(bs, es, m, n, k);
    }
  }

  /** `finalized` is patched by a finalize run under its own lock. */
  predicate FinalizesUnderLock(b: Bundle, e: Event) {
    e.verb.PatchStatus? && e.verb.status.Finalized? ==> b.lock.Some? && b.lock.value.state.Finalize?
  }

  /** A proper history without a harmful step, in which `m` was not in force at the start. */
  ghost predicate Orderly(bs: seq<Bundle>, es: seq<Event>, m: MigId, n: nat) {
    && Proper(bs, es) && n < |bs| && Harmless(bs, es, n)
    && (m in bs[0].migrations ==> StatusIs(bs[0], m, Pending) || StatusIs(bs[0], m, Reverted))
    && forall k :: 0 <= k < n ==> FinalizesUnderLock(bs[k], es[k])
  }

  /** What a row says, of a migration that is not failed, about its exposure. */
  predicate SaysExposed(b: Bundle, m: MigId) {
    StatusIs(b, m, Finalized) || (StatusIs(b, m, Applied) && !AppliedAndReleased(b, m))
  }

  /** How one step changes the status of `m`. */
  lemma StatusStep(b: Bundle, e: Event, m: MigId)
    requires WritesOwnStatuses(e) && m in After(b, e).migrations
    ensures var was, now := if m in b.migrations then Some(b.migrations[m].status) else None, After(b, e).migrations[m].status;
            || (StartsOver(b, e, m) && (now.Pending? || now.Reverted? || (now.Applied? && AppliedAndReleased(After(b, e), m))))
            || (!StartsOver(b, e, m) && e.verb.PatchStatus? && e.verb.migId == m && was.Some? && now == e.verb.status
                && (now.FailedStatus? || now.Finalized?))
            || (!StartsOver(b, e, m) && was == Some(now) && !(e.verb.PatchStatus? && e.verb.migId == m))
  {
  }

  /** An applied migration leaves the release set only by a step that frees the lock. */
  lemma LeavesReleaseSet(b: Bundle, e: Event, m: MigId)
    requires WritesOwnStatuses(e) && !StartsOver(b, e, m)
    requires StatusIs(b, m, Applied) && StatusIs(After(b, e), m, Applied)
    ensures AppliedAndReleased(After(b, e), m) ==> AppliedAndReleased(b, m)
    ensures AppliedAndReleased(b, m) && !AppliedAndReleased(After(b, e), m) ==> Live(After(b, e), m)
  {
  }

  /** Of a migration that is not failed the row and the release set tell whether it was exposed. */
  lemma {:induction false} RowTells(bs: seq<Bundle>, es: seq<Event>, m: MigId, n: nat)
    requires Orderly(bs, es, m, n) && m in bs[n].migrations && !StatusIs(bs[n], m, FailedStatus)
    ensures Exposed(bs, es, m, n) <==> SaysExposed(bs[n], m)
  {
    if n == 0 {
      forall k: nat ensures !LiveSince(bs, es, m, 0, k) {}
    } else {
      var b, e := bs[n - 1], es[n - 1];
      assert Follows(bs, es, n - 1) && WritesOwnStatuses(e) && FinalizesUnderLock(b, e);
      ExposedStep(bs, es, m, n - 1);
      StatusStep(b, e, m);
      ReleasedMeansGuarded(bs, es, m, n);
      assert !Leaks(bs[n], m);
      if !StartsOver(b, e, m) && !(e.verb.PatchStatus? && e.verb.migId == m) {
        RowTells(bs, es, m, n - 1);
        if StatusIs(b, m, Applied) { LeavesReleaseSet(b, e, m); }
      }
    }
  }

  /** While the row says `failed`, nothing adds to its exposure. */
  lemma {:induction false} FailedKeepsExposure(bs: seq<Bundle>, es: seq<Event>, m: MigId, j: nat, n: nat)
    requires Orderly(bs, es, m, n) && j < n && forall k :: j < k <= n ==> StatusIs(bs[k], m, FailedStatus)
    ensures Exposed(bs, es, m, n) <==> Exposed(bs, es, m, j)
    decreases n
  {
    var b, e := bs[n - 1], es[n - 1];
    assert Follows(bs, es, n - 1) && WritesOwnStatuses(e);
    ExposedStep(bs, es, m, n - 1);
    StatusStep(b, e, m);
    if j < n - 1 { FailedKeepsExposure(bs, es, m, j, n - 1); }
  }

  /** A row written `failed` by step `j`, and failed since, is judged case 1; the application has run on the
      new version, and the judgement is wrong, exactly when the row it replaced said `finalized`, or `applied`
      with the migration no longer in the release set. */
  lemma FailedJudgedRightlyExactly(bs: seq<Bundle>, es: seq<Event>, m: MigId, j: nat, n: nat)
    requires Orderly(bs, es, m, n) && j < n && m in bs[j].migrations && !StatusIs(bs[j], m, FailedStatus)
    requires forall k :: j < k <= n ==> StatusIs(bs[k], m, FailedStatus)
    ensures StatusIs(bs[n], m, FailedStatus) && DetermineLifecycleCase(bs[n].migrations[m], bs[n].lock, m) == Some(Preconditions.CaseOne)
    ensures Exposed(bs, es, m, n) <==> SaysExposed(bs[j], m)
  {
    FailedKeepsExposure(bs, es, m, j, n);
    assert Orderly(bs, es, m, j);
    RowTells(bs, es, m, j);
  }
}
