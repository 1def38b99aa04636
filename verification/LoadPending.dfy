/** Which migrations are pending, in which order, and which of them may be applied next. */
module LoadPending {
  import opened Wrappers
  import opened NamedLists
  import opened Migrations
  import opened Orchestrators
  import L = LockRows

  /** No row yet, or a row that was put and never moved on. */
  predicate IsPending(m: Migration, rows: map<L.MigId, L.MigrationRow>) {
    m.id !in rows || rows[m.id].status.Pending?
  }

  /** The comparator: entity name first, then the version it starts from. */
  predicate Before(a: Migration, b: Migration) {
    Less(a.entity, b.entity) || (a.entity == b.entity && a.fromVersion < b.fromVersion)
  }

  function OnlyPending(onDisk: seq<Migration>, rows: map<L.MigId, L.MigrationRow>): seq<Migration> {
    if onDisk == [] then []
    else
      var last := onDisk[|onDisk| - 1];
      OnlyPending(onDisk[..|onDisk| - 1], rows) + if IsPending(last, rows) then [last] else []
  }

  /** `sort` with the comparator, which is stable: `m` goes behind what it is not before. */
  function Place(m: Migration, ms: seq<Migration>): seq<Migration> {
    if ms == [] || Before(m, ms[0]) then [m] + ms else [ms[0]] + Place(m, ms[1..])
  }

  function InSequence(ms: seq<Migration>): seq<Migration> {
    if ms == [] then [] else Place(ms[|ms| - 1], InSequence(ms[..|ms| - 1]))
  }

  ghost predicate Ascending(ms: seq<Migration>) {
    forall i, j :: 0 <= i < j < |ms| ==> !Before(ms[j], ms[i])
  }

  lemma BeforeOrder(a: Migration, b: Migration, c: Migration)
    requires Before(a, b) && !Before(c, b)
    ensures !Before(c, a)
  {
    LessTotal(a.entity, b.entity);
    LessTotal(b.entity, c.entity);
    LessTotal(a.entity, c.entity);
    if Less(c.entity, a.entity) && Less(a.entity, b.entity) { LessTransitive(c.entity, a.entity, b.entity); }
  }

  lemma NotBoth(a: Migration, b: Migration)
    requires Before(a, b)
    ensures !Before(b, a)
  {
    LessTotal(a.entity, b.entity);
  }

  lemma {:induction false} PlaceFacts(m: Migration, ms: seq<Migration>)
    requires Ascending(ms)
    ensures Ascending(Place(m, ms)) && multiset(Place(m, ms)) == multiset(ms) + multiset{m}
  {
    if ms != [] {
      if Before(m, ms[0]) {
        NotBoth(m, ms[0]);
        forall j | 0 < j < |ms| ensures !Before(ms[j], m) { BeforeOrder(m, ms[0], ms[j]); }
      } else {
        var rest := Place(m, ms[1..]);
        PlaceFacts(m, ms[1..]);
        assert ms == [ms[0]] + ms[1..];
        forall j | 0 <= j < |rest| ensures !Before(rest[j], ms[0]) {
          assert rest[j] in multiset(rest);
          assert rest[j] == m || rest[j] in ms[1..];
        }
      }
    }
  }

  /** The pending list is ascending and is exactly the pending migrations on disk. */
  lemma {:induction false} SequenceFacts(ms: seq<Migration>)
    ensures Ascending(InSequence(ms)) && multiset(InSequence(ms)) == multiset(ms)
  {
    if ms != [] {
      SequenceFacts(ms[..|ms| - 1]);
      PlaceFacts(ms[|ms| - 1], InSequence(ms[..|ms| - 1]));
      assert ms == ms[..|ms| - 1] + [ms[|ms| - 1]];
    }
  }

  lemma {:induction false} OnlyPendingMembers(onDisk: seq<Migration>, rows: map<L.MigId, L.MigrationRow>, m: Migration)
    ensures m in OnlyPending(onDisk, rows) <==> m in onDisk && IsPending(m, rows)
  {
    if onDisk != [] {
      OnlyPendingMembers(onDisk[..|onDisk| - 1], rows, m);
      assert onDisk == onDisk[..|onDisk| - 1] + [onDisk[|onDisk| - 1]];
    }
  }

  /** The migrations of one entity from one version, in the order of the list. */
  function From(ms: seq<Migration>, entity: string, version: nat): seq<Migration> {
    if ms == [] then []
    else
      var last := ms[|ms| - 1];
      From(ms[..|ms| - 1], entity, version) + if last.entity == entity && last.fromVersion == version then [last] else []
  }

  lemma {:induction false} FromAppend(a: seq<Migration>, b: seq<Migration>, entity: string, version: nat)
    ensures From(a + b, entity, version) == From(a, entity, version) + From(b, entity, version)
  {
    if b == [] {
      assert a + b == a;
    } else {
      FromAppend(a, b[..|b| - 1], entity, version);
      assert (a + b)[..|a + b| - 1] == a + b[..|b| - 1];
    }
  }

  lemma FromOne(m: Migration, entity: string, version: nat)
    ensures From([m], entity, version) == if m.entity == entity && m.fromVersion == version then [m] else []
  {
    assert [m][..0] == [];
  }

  lemma {:induction false} FromAllLater(m: Migration, ms: seq<Migration>)
    requires forall k :: k in ms ==> Before(m, k)
    ensures From(ms, m.entity, m.fromVersion) == []
  {
    if ms != [] {
      var last := ms[|ms| - 1];
      assert Before(m, last);
      LessTotal(m.entity, last.entity);
      FromAllLater(m, ms[..|ms| - 1]);
    }
  }

  lemma PlacedFirst(m: Migration, ms: seq<Migration>, entity: string, version: nat)
    requires ms != [] && Ascending(ms) && Before(m, ms[0])
    ensures From([m] + ms, entity, version) == From(ms, entity, version) + From([m], entity, version)
  {
    FromAppend([m], ms, entity, version);
    FromOne(m, entity, version);
    if m.entity == entity && m.fromVersion == version {
      forall k | k in ms ensures Before(m, k) { BehindToo(m, ms, k); }
      FromAllLater(m, ms);
    }
  }

  /** `m` goes behind every migration it ties with. */
  lemma {:induction false} PlaceIsStable(m: Migration, ms: seq<Migration>, entity: string, version: nat)
    requires Ascending(ms)
    ensures From(Place(m, ms), entity, version) == From(ms, entity, version) + From([m], entity, version)
  {
    if ms == [] {
      assert [m] + ms == [m];
    } else if Before(m, ms[0]) {
      PlacedFirst(m, ms, entity, version);
    } else {
      var head, rest := [ms[0]], ms[1..];
      PlaceIsStable(m, rest, entity, version);
      FromAppend(head, Place(m, rest), entity, version);
      FromAppend(head, rest, entity, version);
      assert ms == head + rest && Place(m, ms) == head + Place(m, rest);
    }
  }

  lemma BehindToo(m: Migration, ms: seq<Migration>, k: Migration)
    requires ms != [] && Ascending(ms) && Before(m, ms[0]) && k in ms
    ensures Before(m, k)
  {
    LessTotal(m.entity, ms[0].entity);
    LessTotal(ms[0].entity, k.entity);
    LessTotal(m.entity, k.entity);
    if Less(m.entity, ms[0].entity) && Less(ms[0].entity, k.entity) { LessTransitive(m.entity, ms[0].entity, k.entity); }
  }

  /** Sorting keeps the order of those that tie. */
  lemma {:induction false} SequenceIsStable(ms: seq<Migration>, entity: string, version: nat)
    ensures From(InSequence(ms), entity, version) == From(ms, entity, version)
  {
    if ms != [] {
      var init, last := ms[..|ms| - 1], ms[|ms| - 1];
      SequenceFacts(init);
      SequenceIsStable(init, entity, version);
      PlaceIsStable(last, InSequence(init), entity, version);
      FromAppend(init, [last], entity, version);
      assert ms == init + [last];
    }
  }

  lemma SameMembers(a: seq<Migration>, b: seq<Migration>, m: Migration)
    requires multiset(a) == multiset(b)
    ensures m in a <==> m in b
  {
    assert m in a <==> m in multiset(a);
    assert m in b <==> m in multiset(b);
  }

  method LoadPendingMigrations(onDisk: seq<Migration>, rows: map<L.MigId, L.MigrationRow>) returns (pending: seq<Migration>)
    ensures pending == InSequence(OnlyPending(onDisk, rows))
    ensures forall m :: m in pending <==> m in onDisk && (m.id !in rows || rows[m.id].status == L.Pending)
    ensures forall i, j :: 0 <= i < j < |pending| ==>
              Less(pending[i].entity, pending[j].entity) ||
              (pending[i].entity == pending[j].entity && pending[i].fromVersion <= pending[j].fromVersion)
    ensures forall entity, version :: From(pending, entity, version) == From(OnlyPending(onDisk, rows), entity, version)
  {
    pending := [];
    for i := 0 to |onDisk|
      invariant pending == OnlyPending(onDisk[..i], rows)
    {
      assert onDisk[..i + 1][..i] == onDisk[..i];
      if IsPending(onDisk[i], rows) {
        pending := pending + [onDisk[i]];
      }
    }
    assert onDisk[..|onDisk|] == onDisk;
    SequenceFacts(pending);
    forall m ensures m in InSequence(pending) <==> m in onDisk && (m.id !in rows || rows[m.id].status == L.Pending) {
      OnlyPendingMembers(onDisk, rows, m);
      SameMembers(InSequence(pending), pending, m);
    }
    forall entity, version ensures From(InSequence(pending), entity, version) == From(pending, entity, version) {
      SequenceIsStable(pending, entity, version);
    }
    pending := InSequence(pending);
    forall i, j | 0 <= i < j < |pending|
      ensures Less(pending[i].entity, pending[j].entity) ||
              (pending[i].entity == pending[j].entity && pending[i].fromVersion <= pending[j].fromVersion)
    {
      LessTotal(pending[i].entity, pending[j].entity);
    }
  }


  ghost predicate OneStartPerVersion(ms: seq<Migration>) {
    forall i, j :: 0 <= i < j < |ms| && ms[i].entity == ms[j].entity ==> ms[i].fromVersion != ms[j].fromVersion
  }

  /** The next pending migration of an entity is the one that starts from its oldest version, whatever
      order the files were found in. */
  lemma NextIsOldest(pending: seq<Migration>, id: L.MigId)
    requires Ascending(pending) && OneStartPerVersion(pending)
    requires forall i, j :: 0 <= i < j < |pending| ==> pending[i].id != pending[j].id
    ensures IsNextPending(pending, id) <==>
            exists i :: 0 <= i < |pending| && pending[i].id == id && OldestOfItsEntity(pending, i)
  {
    forall i | 0 <= i < |pending| ensures FirstOfItsEntity(pending, i) <==> OldestOfItsEntity(pending, i) {
      if FirstOfItsEntity(pending, i) {
        forall j | 0 <= j < |pending| && pending[j].entity == pending[i].entity ensures pending[i].fromVersion <= pending[j].fromVersion {
          if i < j { assert !Before(pending[j], pending[i]); }
        }
      }
      if OldestOfItsEntity(pending, i) {
        forall j | 0 <= j < i ensures pending[j].entity != pending[i].entity {
          assert !Before(pending[i], pending[j]);
        }
      }
    }
    forall i | 0 <= i < |pending| ensures FirstWithId(pending, i) {}
  }

  ghost predicate OldestOfItsEntity(ms: seq<Migration>, i: nat)
    requires i < |ms|
  {
    forall j :: 0 <= j < |ms| && ms[j].entity == ms[i].entity ==> ms[i].fromVersion <= ms[j].fromVersion
  }
}
