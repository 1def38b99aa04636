/** The count audit of a run: closure counters, and the check that every scanned record was
    accounted for. The apply side and the rollback side differ only in what `moved` is called there:
    `migrated` and `reverted`. */
module Audit {
  datatype ItemCounts = ItemCounts(scanned: nat, moved: nat, deleted: nat, skipped: nat, failed: nat)

  const ZERO := ItemCounts(0, 0, 0, 0, 0)

  predicate Balanced(c: ItemCounts) {
    c.scanned == c.moved + c.deleted + c.skipped + c.failed
  }

  /** Every record scanned was deleted, as in a reap. */
  predicate AllDeleted(c: ItemCounts, n: nat) {
    c.scanned == c.deleted == n && c.moved == c.skipped == c.failed == 0
  }

  /** Nothing written yet: of the records scanned some were skipped. */
  predicate OnlySkipped(c: ItemCounts, scanned: nat, skipped: nat) {
    c.scanned == scanned && c.skipped == skipped && c.moved == c.deleted == c.failed == 0
  }

  class CountAudit {
    var scanned: nat
    var moved: nat
    var deleted: nat
    var skipped: nat
    var failed: nat

    constructor ()
      ensures AllZero()
    {
      scanned, moved, deleted, skipped, failed := 0, 0, 0, 0, 0;
    }

    predicate AllZero()
      reads this
    {
      scanned == moved == deleted == skipped == failed == 0
    }

    function Counts(): ItemCounts
      reads this
    {
      ItemCounts(scanned, moved, deleted, skipped, failed)
    }

    /** `assertInvariant`: false stands for the throw. */
    method AssertInvariant() returns (ok: bool)
      ensures ok == Balanced(Counts())
      ensures ok <==> scanned == moved + deleted + skipped + failed
    {
      ok := scanned == moved + deleted + skipped + failed;
    }

    method IncrementScanned()
      modifies this`scanned
      ensures scanned == old(scanned) + 1
    {
      scanned := scanned + 1;
    }

    method IncrementSkipped()
      modifies this`skipped
      ensures skipped == old(skipped) + 1
    {
      skipped := skipped + 1;
    }

    method IncrementFailed()
      modifies this`failed
      ensures failed == old(failed) + 1
    {
      failed := failed + 1;
    }

    method AddMoved(n: nat)
      modifies this`moved
      ensures moved == old(moved) + n
    {
      moved := moved + n;
    }

    method AddDeleted(n: nat)
      modifies this`deleted
      ensures deleted == old(deleted) + n
    {
      deleted := deleted + n;
    }
  }
}
