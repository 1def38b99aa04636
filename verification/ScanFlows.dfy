/** The flows that write while they page: apply puts v2 records ahead of and behind its own cursor,
    case-1 rollback and finalize delete behind theirs. Each is a cursor loop over `Scan`. */
module ScanFlows {
  import opened Wrappers
  import opened TableWrites
  import opened PhysicalTable
  import opened BatchWrite
  import opened BatchFlush
  import opened Migrations
  import opened Audit

  const PAGE_SIZE: nat := 100

  function V1Keys(m: Migration, t: Items): set<PK> {
    Matching(t.Keys, m.entity, m.fromVersion)
  }

  function V2Keys(m: Migration, t: Items): set<PK> {
    Matching(t.Keys, m.entity, m.toVersion)
  }

  /** `yielded` are the records under `keys`, each once, in scan order. */
  ghost predicate InScanOrder(rank: PK -> real, t: Items, keys: set<PK>, yielded: seq<Record>)
    requires Injective(rank)
  {
    var order := InOrder(rank, keys);
    (forall k :: k in order ==> k in t) && yielded == Records(t, order)
  }

  /** The stamped keys the cursor has passed. */
  function Passed(rank: PK -> real, ks: set<PK>, cursor: Option<PK>): set<PK> {
    set k | k in ks && !Ahead(rank, cursor, k)
  }

  /** What a loop at `cursor` still has to read: the stamped keys ahead count twice, because each may
      put one more record ahead. */
  function Work(rank: PK -> real, t: Items, cursor: Option<PK>, version: nat, entity: string): nat {
    var ahead := set k | k in t && Ahead(rank, cursor, k);
    |ahead| + |Matching(ahead, entity, version)|
  }

  // ----- One page ---------------------------------------------------------------------------------

  /** The keys of one page are the stamped keys between the two cursors; together with those passed
      before they are those passed after. */
  lemma PageAdvances(rank: PK -> real, ks: set<PK>, t: Items, entity: string, version: nat,
                     cursor: Option<PK>, next: Option<PK>)
    requires Injective(rank)
    requires forall k: PK :: k.entity == entity && k.version == version && Ahead(rank, cursor, k) ==> (k in t <==> k in ks)
    requires forall k :: k in ks ==> k.entity == entity && k.version == version
    requires next.Some? ==> Ahead(rank, cursor, next.value)
    ensures var page := Matching(Window(rank, t, cursor, next), entity, version);
            var after := if next.None? then ks else Passed(rank, ks, next);
            && after == Passed(rank, ks, cursor) + page
            && Passed(rank, ks, cursor) !! page
            && InOrder(rank, after) == InOrder(rank, Passed(rank, ks, cursor)) + InOrder(rank, page)
  {
    var page := Matching(Window(rank, t, cursor, next), entity, version);
    var before := Passed(rank, ks, cursor);
    var after := if next.None? then ks else Passed(rank, ks, next);
    assert after == before + page;
    InOrderSplit(rank, before, page);
  }

  lemma SubsetSize<T>(a: set<T>, b: set<T>)
    requires a <= b
    ensures |a| <= |b|
  {
    assert b == a + (b - a);
  }

  /** Each page shortens the work ahead, although it may add as many keys as it read stamped ones. */
  lemma WorkShrinks(rank: PK -> real, t: Items, t': Items, cursor: Option<PK>, next: Option<PK>,
                    entity: string, version: nat, added: set<PK>)
    requires next.Some? && next.value in Window(rank, t, cursor, next)
    requires t'.Keys <= t.Keys + added
    requires forall k :: k in added ==> !(k.entity == entity && k.version == version)
    requires |added| <= |Matching(Window(rank, t, cursor, next), entity, version)|
    ensures Work(rank, t', next, version, entity) < Work(rank, t, cursor, version, entity)
  {
    var w := Window(rank, t, cursor, next);
    var ahead := set k | k in t && Ahead(rank, cursor, k);
    var ahead' := set k | k in t' && Ahead(rank, next, k);
    var hits, hits' := Matching(ahead, entity, version), Matching(ahead', entity, version);
    var page := Matching(w, entity, version);
    assert w <= ahead && page <= hits;
    SubsetSize(ahead', (ahead - w) + added);
    SubsetSize(hits', hits - page);
    assert |ahead - w| == |ahead| - |w|;
    assert |hits - page| == |hits| - |page|;
    assert |(ahead - w) + added| <= |ahead - w| + |added| by {
      SubsetSize(((ahead - w) + added) - (ahead - w), added);
    }
    assert |w| >= 1;
  }

  // ----- Apply --------------------------------------------------------------------------------------

  /** The v2 records `up` makes of a page, in order. */
  function UpImages(m: Migration, page: seq<Record>): seq<Record> {
    if page == [] then []
    else
      var last := m.up(page[|page| - 1]);
      UpImages(m, page[..|page| - 1]) + if last.Produced? then [last.rec] else []
  }

  lemma {:induction false} UpImagesAppend(m: Migration, a: seq<Record>, b: seq<Record>)
    ensures UpImages(m, a + b) == UpImages(m, a) + UpImages(m, b)
  {
    if b == [] {
      assert a + b == a;
    } else {
      assert (a + b)[..|a + b| - 1] == a + b[..|b| - 1];
      UpImagesAppend(m, a, b[..|b| - 1]);
    }
  }

  lemma {:induction false} UpImagesMembers(m: Migration, page: seq<Record>, rec: Record)
    ensures rec in UpImages(m, page) <==> exists i :: 0 <= i < |page| && m.up(page[i]) == Produced(rec)
    ensures |UpImages(m, page)| <= |page|
  {
    if page != [] {
      var init, last := page[..|page| - 1], page[|page| - 1];
      UpImagesMembers(m, init, rec);
      assert forall i :: 0 <= i < |init| ==> init[i] == page[i];
    }
  }

  /** The counts of an apply run that has dealt with `records`. */
  predicate Counted(m: Migration, c: ItemCounts, records: seq<Record>) {
    && c.scanned == |records| && c.moved == |UpImages(m, records)|
    && c.moved + c.skipped == c.scanned && c.deleted == c.failed == 0
  }

  /** Everything `up` makes of the keys in `done` is in place, nothing else has changed. */
  ghost predicate AppliedTo(m: Migration, t0: Items, t: Items, done: set<PK>) {
    forall k: PK :: AppliedAt(m, t0, t, done, k)
  }

  ghost predicate AppliedAt(m: Migration, t0: Items, t: Items, done: set<PK>, k: PK) {
    Lookup(t, k) ==
    if V1Key(m, k.dk) in done && k == V2Key(m, k.dk) then Target(Apply, m, t0, k) else Lookup(t0, k)
  }

  /** The puts of a page: one per key whose record `up` maps, under that key's domain key. */
  lemma PutHasKey(m: Migration, t: Items, keys: seq<PK>, q: Request)
    requires WellFormed(m) && Placed(m, t)
    requires forall k :: k in keys ==> k in t && k == V1Key(m, k.dk)
    requires q in Puts(m, m.toVersion, UpImages(m, Records(t, keys)))
    ensures exists k :: k in keys && m.up(t[k]).Produced? && q == Put(V2Key(m, k.dk), m.up(t[k]).rec)
  {
    var page := Records(t, keys);
    var images := UpImages(m, page);
    var puts := Puts(m, m.toVersion, images);
    var i :| 0 <= i < |puts| && puts[i] == q;
    UpImagesMembers(m, page, images[i]);
    var j :| 0 <= j < |page| && m.up(page[j]) == Produced(images[i]);
    assert keys[j] in keys && page[j] == t[keys[j]] && KeepsKey(m, page[j]);
  }

  lemma KeyHasPut(m: Migration, t: Items, keys: seq<PK>, k: PK)
    requires WellFormed(m) && Placed(m, t)
    requires forall k :: k in keys ==> k in t && k == V1Key(m, k.dk)
    requires k in keys && m.up(t[k]).Produced?
    ensures Put(V2Key(m, k.dk), m.up(t[k]).rec) in Puts(m, m.toVersion, UpImages(m, Records(t, keys)))
  {
    var page, rec := Records(t, keys), m.up(t[k]).rec;
    var images := UpImages(m, page);
    var j :| 0 <= j < |keys| && keys[j] == k;
    assert page[j] == t[k] && KeepsKey(m, t[k]);
    UpImagesMembers(m, page, rec);
    var i :| 0 <= i < |images| && images[i] == rec;
    assert Puts(m, m.toVersion, images)[i] == Put(V2Key(m, k.dk), rec);
  }

  lemma PagePuts(m: Migration, t: Items, keys: seq<PK>, q: Request)
    requires WellFormed(m) && Placed(m, t)
    requires forall k :: k in keys ==> k in t && k == V1Key(m, k.dk)
    ensures q in Puts(m, m.toVersion, UpImages(m, Records(t, keys))) <==>
            exists k :: k in keys && m.up(t[k]).Produced? && q == Put(V2Key(m, k.dk), m.up(t[k]).rec)
  {
    if q in Puts(m, m.toVersion, UpImages(m, Records(t, keys))) { PutHasKey(m, t, keys, q); }
    if k :| k in keys && m.up(t[k]).Produced? && q == Put(V2Key(m, k.dk), m.up(t[k]).rec) { KeyHasPut(m, t, keys, k); }
  }

  /** Flushing a page's puts extends what is applied by that page; a part of them stays part-way. */
  lemma PageApplied(m: Migration, t0: Items, t: Items, done: set<PK>, keys: seq<PK>, page: set<PK>)
    requires WellFormed(m) && Placed(m, t0) && AppliedTo(m, t0, t, done)
    requires forall k :: k in keys <==> k in page
    requires forall k :: k in page ==> k in t0 && k == V1Key(m, k.dk)
    ensures forall k :: k in page ==> k in t && t[k] == t0[k]
    ensures var puts := Puts(m, m.toVersion, UpImages(m, Records(t, keys)));
            Consistent(puts) && AppliedTo(m, t0, ExecAll(t, puts), done + page)
  {
    forall k | k in page ensures k in t && t[k] == t0[k] { assert AppliedAt(m, t0, t, done, k); }
    assert Records(t, keys) == Records(t0, keys);
    var puts := Puts(m, m.toVersion, UpImages(m, Records(t0, keys)));
    forall p, q | p in puts && q in puts && p.key == q.key ensures p == q {
      PagePuts(m, t0, keys, p);
      PagePuts(m, t0, keys, q);
    }
    forall k: PK
      ensures AppliedAt(m, t0, ExecAll(t, puts), done + page, k)
    {
      assert AppliedAt(m, t0, t, done, k);
      var a := V1Key(m, k.dk);
      if a in page && k == V2Key(m, k.dk) && m.up(t0[a]).Produced? {
        var q := Put(k, m.up(t0[a]).rec);
        PagePuts(m, t0, keys, q);
        ExecAllHits(t, puts, q);
      } else {
        forall q | q in puts ensures q.key != k { PagePuts(m, t0, keys, q); }
        ExecAllMisses(t, puts, k);
      }
    }
  }

  lemma AppliedPart(m: Migration, t0: Items, t: Items, full: Items, part: Items, done: set<PK>, done': set<PK>)
    requires AppliedTo(m, t0, t, done) && AppliedTo(m, t0, full, done') && Between(t, part, full)
    ensures PartWay(Apply, m, t0, part)
  {
    forall k: PK ensures PartWayAt(Apply, m, t0, part, k) {
      assert BetweenAt(t, part, full, k);
      assert AppliedAt(m, t0, t, done, k) && AppliedAt(m, t0, full, done', k);
    }
  }

  lemma AppliedAll(m: Migration, t0: Items, t: Items)
    requires m.fromVersion != m.toVersion && AppliedTo(m, t0, t, V1Keys(m, t0))
    ensures Reaches(Apply, m, t0, t)
  {
    forall k: PK ensures ReachesAt(Apply, m, t0, t, k) {
      assert V1Key(m, k.dk) in V1Keys(m, t0) <==> V1Key(m, k.dk) in t0;
      assert AppliedAt(m, t0, t, V1Keys(m, t0), k);
    }
  }

  /** The stamped v1 keys are the same while v2 records are being written. */
  lemma SameV1Keys(m: Migration, t0: Items, t: Items, done: set<PK>)
    requires m.fromVersion != m.toVersion && AppliedTo(m, t0, t, done)
    ensures forall k: PK :: k.entity == m.entity && k.version == m.fromVersion ==> (k in t <==> k in V1Keys(m, t0))
  {
    forall k: PK | k.entity == m.entity && k.version == m.fromVersion ensures k in t <==> k in V1Keys(m, t0) {
      assert AppliedAt(m, t0, t, done, k);
    }
  }

  lemma KeysAdded(m: Migration, t0: Items, t: Items, puts: seq<Request>, keys: seq<PK>, page: set<PK>)
    requires WellFormed(m) && Placed(m, t0)
    requires forall k :: k in keys <==> k in page
    requires forall k :: k in page ==> k in t0 && k == V1Key(m, k.dk)
    requires puts == Puts(m, m.toVersion, UpImages(m, Records(t0, keys)))
    ensures var added := set k | k in page :: V2Key(m, k.dk);
            && |added| <= |page|
            && ExecAll(t, puts).Keys <= t.Keys + added
            && forall k :: k in added ==> k.version == m.toVersion
  {
    var added := set k | k in page :: V2Key(m, k.dk);
    ImageSize(m, page);
    forall k | k in ExecAll(t, puts).Keys ensures k in t.Keys + added {
      if k !in added {
        forall q | q in puts ensures q.key != k { PagePuts(m, t0, keys, q); }
        ExecAllMisses(t, puts, k);
        assert Lookup(ExecAll(t, puts), k) == Lookup(t, k);
      }
    }
  }

  lemma {:induction false} ImageSize(m: Migration, page: set<PK>)
    ensures |set k | k in page :: V2Key(m, k.dk)| <= |page|
  {
    var image := set k | k in page :: V2Key(m, k.dk);
    if x :| x in page {
      var rest := page - {x};
      ImageSize(m, rest);
      assert image == (set k | k in rest :: V2Key(m, k.dk)) + {V2Key(m, x.dk)};
    }
  }

  lemma AppliedSoFar(m: Migration, t0: Items, t: Items, done: set<PK>)
    requires AppliedTo(m, t0, t, done)
    ensures PartWay(Apply, m, t0, t)
  {
    forall k: PK ensures PartWayAt(Apply, m, t0, t, k) {
      assert AppliedAt(m, t0, t, done, k);
    }
  }

  /** What `Scan` returned, in terms of the table the flow started from. */
  lemma ReadPage(m: Migration, t0: Items, t: Items, done: set<PK>, rank: PK -> real,
                 cursor: Option<PK>, next: Option<PK>, page: set<PK>, keys: seq<PK>)
    requires Injective(rank) && m.fromVersion != m.toVersion && AppliedTo(m, t0, t, done)
    requires done == Passed(rank, V1Keys(m, t0), cursor)
    requires page == Matching(Window(rank, t, cursor, next), m.entity, m.fromVersion)
    requires keys == InOrder(rank, page)
    requires next.Some? ==> next.value in Window(rank, t, cursor, next)
    ensures |keys| == |page| && forall k :: k in keys <==> k in page
    ensures forall k :: k in page ==> k in t0 && k in t && t[k] == t0[k] && k == V1Key(m, k.dk)
    ensures done + page == (if next.None? then V1Keys(m, t0) else Passed(rank, V1Keys(m, t0), next))
    ensures InOrder(rank, done + page) == InOrder(rank, done) + keys
  {
    PageContents(m, t0, t, done, page);
    InOrderLists(rank, page);
    PageAdvances(rank, V1Keys(m, t0), t, m.entity, m.fromVersion, cursor, next);
  }

  lemma PageContents(m: Migration, t0: Items, t: Items, done: set<PK>, page: set<PK>)
    requires m.fromVersion != m.toVersion && AppliedTo(m, t0, t, done)
    requires forall k :: k in page ==> k in t && k.entity == m.entity && k.version == m.fromVersion
    ensures forall k :: k in page ==> k in t0 && t[k] == t0[k] && k == V1Key(m, k.dk)
    ensures forall k: PK :: k.entity == m.entity && k.version == m.fromVersion ==> (k in t <==> k in V1Keys(m, t0))
  {
    SameV1Keys(m, t0, t, done);
    forall k | k in page ensures k in t0 && t[k] == t0[k] { assert AppliedAt(m, t0, t, done, k); }
  }

  lemma SameRecords(t0: Items, t: Items, keys: seq<PK>)
    requires forall k :: k in keys ==> k in t0 && k in t && t[k] == t0[k]
    ensures Records(t, keys) == Records(t0, keys)
  {
  }

  /** The records under two key lists, one after the other. */
  lemma RecordsAppend(t0: Items, t: Items, a: seq<PK>, b: seq<PK>)
    requires forall k :: k in a ==> k in t0
    requires forall k :: k in b ==> k in t0 && k in t && t[k] == t0[k]
    ensures forall k :: k in a + b ==> k in t0
    ensures Records(t0, a + b) == Records(t0, a) + Records(t, b)
  {
  }

  /** The inner loop over one page: calls `up` record by record and collects what it returns. */
  method TransformPage(m: Migration, page: seq<Record>, audit: CountAudit)
    returns (threw: bool, v2Batch: seq<Record>)
    modifies audit
    ensures !threw ==> v2Batch == UpImages(m, page) && |v2Batch| <= |page|
    ensures !threw ==>
              && audit.scanned == old(audit.scanned) + |page|
              && audit.skipped == old(audit.skipped) + |page| - |v2Batch|
              && unchanged(audit`moved) && unchanged(audit`deleted) && unchanged(audit`failed)
    ensures threw ==> audit.failed == old(audit.failed) + 1
    ensures threw <==> exists i :: 0 <= i < |page| && m.up(page[i]).Threw?
  {
    v2Batch := [];
    for i := 0 to |page|
      invariant v2Batch == UpImages(m, page[..i]) && |v2Batch| <= i
      invariant audit.scanned == old(audit.scanned) + i && audit.skipped == old(audit.skipped) + i - |v2Batch|
      invariant unchanged(audit`moved) && unchanged(audit`deleted) && unchanged(audit`failed)
      invariant forall k :: 0 <= k < i ==> !m.up(page[k]).Threw?
    {
      assert page[..i + 1][..|page[..i + 1]| - 1] == page[..i];
      audit.IncrementScanned();
      var v2 := m.up(page[i]);
      match v2
      case Threw =>
        audit.IncrementFailed();
        return true, v2Batch;
      case Nothing => audit.IncrementSkipped();
      case Produced(rec) => v2Batch := v2Batch + [rec];
    }
    assert page[..|page|] == page;
    threw := false;
  }

  /** The loop is at `cursor` and has dealt with the v1 keys in `done`. */
  ghost predicate ApplyingAt(m: Migration, rank: PK -> real, t0: Items, t: Items, cursor: Option<PK>, done: set<PK>) {
    && AppliedTo(m, t0, t, done)
    && done == Passed(rank, V1Keys(m, t0), cursor)
  }

  /** What is done with one page: transform, flush, count. */
  method WritePage(m: Migration, table: Table, audit: CountAudit, records: seq<Record>) returns (r: FlowResult)
    requires table.Valid() && Consistent(Puts(m, m.toVersion, UpImages(m, records)))
    modifies table, audit
    ensures table.Valid()
    ensures r.Finished? ==>
              && table.items == ExecAll(old(table.items), Puts(m, m.toVersion, UpImages(m, records)))
              && |UpImages(m, records)| <= |records|
              && audit.scanned == old(audit.scanned) + |records|
              && audit.moved == old(audit.moved) + |UpImages(m, records)|
              && audit.skipped == old(audit.skipped) + |records| - |UpImages(m, records)|
              && unchanged(audit`deleted) && unchanged(audit`failed)
    ensures Between(old(table.items), table.items, ExecAll(old(table.items), Puts(m, m.toVersion, UpImages(m, records))))
    ensures r.UserThrew? <==> exists i :: 0 <= i < |records| && m.up(records[i]).Threw?
    ensures r.UserThrew? ==> audit.failed == old(audit.failed) + 1
    ensures r.UserThrew? || r.SchemaRejected? ==> unchanged(table)
    ensures r.SchemaRejected? ==> exists i :: 0 <= i < |records| && Rejects(m, records[i])
    ensures r.Finished? ==> NoneStopped(m, records)
    ensures r.WriteFailed? ==> table.refused
    ensures !r.CountMismatch?
  {
    var threw, v2Batch := TransformPage(m, records, audit);
    if threw {
      return UserThrew;
    }
    ImagesRejected(m, records);
    var written;
    r, written := BatchFlushV2(m, table, v2Batch);
    if r.Finished? {
      audit.AddMoved(written);
    }
  }

  /** One turn of the page loop: scan, transform, flush, count. */
  method ApplyPage(m: Migration, table: Table, audit: CountAudit, cursor: Option<PK>, ghost t0: Items, ghost done: set<PK>)
    returns (r: FlowResult, next: Option<PK>, ghost page: seq<Record>, ghost done': set<PK>)
    requires table.Valid() && WellFormed(m) && Placed(m, t0)
    requires ApplyingAt(m, table.rank, t0, table.items, cursor, done)
    modifies table, audit
    ensures table.Valid()
    ensures r.Finished? ==>
              && AppliedTo(m, t0, table.items, done')
              && done' == (if next.None? then V1Keys(m, t0) else Passed(table.rank, V1Keys(m, t0), next))
              && (var keys := InOrder(table.rank, done' - done);
                  && InOrder(table.rank, done') == InOrder(table.rank, done) + keys
                  && (forall k :: k in keys ==> k in t0)
                  && page == Records(t0, keys))
              && |UpImages(m, page)| <= |page|
              && audit.scanned == old(audit.scanned) + |page|
              && audit.moved == old(audit.moved) + |UpImages(m, page)|
              && audit.skipped == old(audit.skipped) + |page| - |UpImages(m, page)|
              && unchanged(audit`deleted) && unchanged(audit`failed)
              && (next.Some? ==> Work(table.rank, table.items, next, m.fromVersion, m.entity)
                                 < Work(table.rank, old(table.items), cursor, m.fromVersion, m.entity))
    ensures PartWay(Apply, m, t0, table.items)
    ensures r.UserThrew? ==> audit.failed == old(audit.failed) + 1
    ensures r.UserThrew? || r.SchemaRejected? ==> unchanged(table)
    ensures r.UserThrew? ==> UserStops(Apply, m, t0)
    ensures r.SchemaRejected? ==> SchemaStops(Apply, m, t0)
    ensures r.Finished? ==> NoneStopped(m, page)
    ensures r.WriteFailed? ==> table.refused
    ensures !r.CountMismatch?
  {
    ghost var t, rank := table.items, table.rank;
    var records;
    records, next := table.Scan(m.entity, m.fromVersion, cursor, PAGE_SIZE);
    ghost var keySet := Matching(Window(rank, t, cursor, next), m.entity, m.fromVersion);
    page, done' := records, done + keySet;
    PlanPage(m, rank, t0, t, cursor, next, done, keySet, records);
    PlanPuts(m, rank, t0, t, cursor, next, done, keySet, records);
    r := WritePage(m, table, audit, records);
    AppliedPart(m, t0, t, ExecAll(t, Puts(m, m.toVersion, UpImages(m, records))), table.items, done, done');
    if r.UserThrew? || r.SchemaRejected? { StoppedOnPage(m, rank, t0, keySet, records); }
  }

  /** `up` made something of the record that is outside the v2 schema. */
  predicate Rejects(m: Migration, r: Record) {
    m.up(r).Produced? && !m.acceptsV2(m.up(r).rec)
  }

  ghost predicate NoneStopped(m: Migration, records: seq<Record>) {
    forall r :: r in records ==> !m.up(r).Threw? && !Rejects(m, r)
  }

  lemma ImagesRejected(m: Migration, records: seq<Record>)
    ensures (exists v2 :: v2 in UpImages(m, records) && !m.acceptsV2(v2)) <==> exists i :: 0 <= i < |records| && Rejects(m, records[i])
  {
    if v2 :| v2 in UpImages(m, records) && !m.acceptsV2(v2) {
      UpImagesMembers(m, records, v2);
      var i :| 0 <= i < |records| && m.up(records[i]) == Produced(v2);
      assert Rejects(m, records[i]);
    }
    if i :| 0 <= i < |records| && Rejects(m, records[i]) {
      UpImagesMembers(m, records, m.up(records[i]).rec);
    }
  }

  lemma StoppedOnPage(m: Migration, rank: PK -> real, t0: Items, keySet: set<PK>, records: seq<Record>)
    requires Injective(rank) && forall k :: k in keySet ==> k.entity == m.entity && k.version == m.fromVersion
    requires (forall k :: k in InOrder(rank, keySet) ==> k in t0) && records == Records(t0, InOrder(rank, keySet))
    ensures (exists i :: 0 <= i < |records| && m.up(records[i]).Threw?) ==> UserStops(Apply, m, t0)
    ensures (exists i :: 0 <= i < |records| && Rejects(m, records[i])) ==> SchemaStops(Apply, m, t0)
  {
    InOrderLists(rank, keySet);
    forall i | 0 <= i < |records|
      ensures m.up(records[i]).Threw? ==> UserStops(Apply, m, t0)
      ensures Rejects(m, records[i]) ==> SchemaStops(Apply, m, t0)
    {
      var k := InOrder(rank, keySet)[i];
      assert k in InOrder(rank, keySet) && k == V1Key(m, k.dk);
      if m.up(records[i]).Threw? { assert StopsAt(Apply, m, t0, k.dk); }
      if Rejects(m, records[i]) { assert RejectsAt(Apply, m, t0, k.dk); }
    }
  }

  lemma NoneStops(m: Migration, rank: PK -> real, t0: Items, yielded: seq<Record>)
    requires Injective(rank) && InScanOrder(rank, t0, V1Keys(m, t0), yielded) && NoneStopped(m, yielded)
    ensures !UserStops(Apply, m, t0) && !SchemaStops(Apply, m, t0)
  {
    InOrderLists(rank, V1Keys(m, t0));
    var keys := InOrder(rank, V1Keys(m, t0));
    forall dk: string ensures !StopsAt(Apply, m, t0, dk) && !RejectsAt(Apply, m, t0, dk) {
      if V1Key(m, dk) in t0 {
        assert V1Key(m, dk) in keys;
        var i :| 0 <= i < |keys| && keys[i] == V1Key(m, dk);
        assert yielded[i] in yielded;
      }
    }
  }

  /** What a page turn will have achieved once its puts are flushed. */
  lemma PlanPage(m: Migration, rank: PK -> real, t0: Items, t: Items, cursor: Option<PK>, next: Option<PK>,
                 done: set<PK>, keySet: set<PK>, records: seq<Record>)
    requires Injective(rank) && WellFormed(m) && Placed(m, t0) && ApplyingAt(m, rank, t0, t, cursor, done)
    requires keySet == Matching(Window(rank, t, cursor, next), m.entity, m.fromVersion)
    requires next.Some? ==> next.value in Window(rank, t, cursor, next)
    requires (forall k :: k in InOrder(rank, keySet) ==> k in t) && records == Records(t, InOrder(rank, keySet))
    ensures PartWay(Apply, m, t0, t)
    ensures (done + keySet) - done == keySet
    ensures done + keySet == if next.None? then V1Keys(m, t0) else Passed(rank, V1Keys(m, t0), next)
    ensures InOrder(rank, done + keySet) == InOrder(rank, done) + InOrder(rank, keySet)
    ensures (forall k :: k in InOrder(rank, keySet) ==> k in t0) && records == Records(t0, InOrder(rank, keySet))
  {
    ReadPage(m, t0, t, done, rank, cursor, next, keySet, InOrder(rank, keySet));
    SameRecords(t0, t, InOrder(rank, keySet));
    PassedIsBehind(rank, V1Keys(m, t0), t, cursor, next, done, keySet);
    AppliedSoFar(m, t0, t, done);
  }

  lemma PlanPuts(m: Migration, rank: PK -> real, t0: Items, t: Items, cursor: Option<PK>, next: Option<PK>,
                 done: set<PK>, keySet: set<PK>, records: seq<Record>)
    requires Injective(rank) && WellFormed(m) && Placed(m, t0) && ApplyingAt(m, rank, t0, t, cursor, done)
    requires keySet == Matching(Window(rank, t, cursor, next), m.entity, m.fromVersion)
    requires next.Some? ==> next.value in Window(rank, t, cursor, next)
    requires (forall k :: k in InOrder(rank, keySet) ==> k in t) && records == Records(t, InOrder(rank, keySet))
    ensures var puts := Puts(m, m.toVersion, UpImages(m, records));
            && Consistent(puts)
            && AppliedTo(m, t0, ExecAll(t, puts), done + keySet)
            && (next.Some? ==> Work(rank, ExecAll(t, puts), next, m.fromVersion, m.entity)
                               < Work(rank, t, cursor, m.fromVersion, m.entity))
  {
    var keys := InOrder(rank, keySet);
    InOrderLists(rank, keySet);
    PageContents(m, t0, t, done, keySet);
    PageApplied(m, t0, t, done, keys, keySet);
    PageProgress(m, rank, t0, t, ExecAll(t, Puts(m, m.toVersion, UpImages(m, records))), cursor, next, keys, keySet);
  }

  lemma PassedIsBehind(rank: PK -> real, all: set<PK>, t: Items, cursor: Option<PK>, next: Option<PK>,
                       done: set<PK>, page: set<PK>)
    requires done == Passed(rank, all, cursor) && page <= Window(rank, t, cursor, next)
    ensures (done + page) - done == page
  {
  }

  /** The page loop at `cursor`: the keys in `done` are dealt with and their records, `yielded`, counted;
      `more` is false after the last page. */
  ghost predicate Scanning(m: Migration, rank: PK -> real, t0: Items, t: Items, more: bool, cursor: Option<PK>,
                           done: set<PK>, yielded: seq<Record>, c: ItemCounts)
    requires Injective(rank)
  {
    && (if more then ApplyingAt(m, rank, t0, t, cursor, done) else AppliedTo(m, t0, t, done) && done == V1Keys(m, t0))
    && PartWay(Apply, m, t0, t)
    && InScanOrder(rank, t0, done, yielded)
    && Counted(m, c, yielded)
    && NoneStopped(m, yielded)
  }

  /** One turn of the page loop and what it adds to the records yielded. */
  method ApplyTurn(m: Migration, table: Table, audit: CountAudit, cursor: Option<PK>,
                   ghost t0: Items, ghost done: set<PK>, ghost yielded: seq<Record>)
    returns (r: FlowResult, next: Option<PK>, ghost done': set<PK>, ghost yielded': seq<Record>)
    requires table.Valid() && WellFormed(m) && Placed(m, t0)
    requires Scanning(m, table.rank, t0, table.items, true, cursor, done, yielded, audit.Counts())
    modifies table, audit
    ensures table.Valid()
    ensures r.Finished? ==>
              && Scanning(m, table.rank, t0, table.items, next.Some?, next, done', yielded', audit.Counts())
              && (next.Some? ==> Work(table.rank, table.items, next, m.fromVersion, m.entity)
                                 < Work(table.rank, old(table.items), cursor, m.fromVersion, m.entity))
    ensures PartWay(Apply, m, t0, table.items)
    ensures r.UserThrew? ==> audit.failed == 1 && UserStops(Apply, m, t0)
    ensures r.SchemaRejected? ==> SchemaStops(Apply, m, t0)
    ensures r.WriteFailed? ==> table.refused
    ensures !r.CountMismatch?
  {
    ghost var was, rank := audit.Counts(), table.rank;
    ghost var page;
    r, next, page, done' := ApplyPage(m, table, audit, cursor, t0, done);
    yielded' := yielded + page;
    if r.Finished? {
      PageYielded(t0, rank, done, done', yielded, page);
      PageCounted(m, was, audit.Counts(), yielded, page);
    }
  }

  lemma StartScanning(m: Migration, rank: PK -> real, t0: Items, c: ItemCounts)
    requires Injective(rank) && c.scanned == c.moved == c.deleted == c.skipped == c.failed == 0
    ensures Scanning(m, rank, t0, t0, true, None, {}, [], c)
  {
    StartApplying(m, rank, t0);
  }

  lemma ScannedToEnd(m: Migration, rank: PK -> real, t0: Items, t: Items, cursor: Option<PK>,
                     done: set<PK>, yielded: seq<Record>, c: ItemCounts)
    requires Injective(rank) && m.fromVersion != m.toVersion
    requires Scanning(m, rank, t0, t, false, cursor, done, yielded, c)
    ensures Reaches(Apply, m, t0, t) && PartWay(Apply, m, t0, t)
    ensures InScanOrder(rank, t0, V1Keys(m, t0), yielded) && Counted(m, c, yielded) && Balanced(c)
    ensures !UserStops(Apply, m, t0) && !SchemaStops(Apply, m, t0)
  {
    AppliedAll(m, t0, t);
    NoneStops(m, rank, t0, yielded);
  }

  /** The scan loop of `applyFlowScanWrite`, between the row put and the transition: pages through the v1 records,
      transforms each page and flushes it. `yielded` is what the page generator handed to `up`. */
  method ApplyScan(m: Migration, table: Table, audit: CountAudit)
    returns (r: FlowResult, ghost yielded: seq<Record>)
    requires table.Valid() && WellFormed(m) && Placed(m, table.items) && audit.AllZero()
    modifies table, audit
    ensures table.Valid()
    ensures r.Finished? ==>
              && Reaches(Apply, m, old(table.items), table.items)
              && InScanOrder(table.rank, old(table.items), V1Keys(m, old(table.items)), yielded)
              && Counted(m, audit.Counts(), yielded)
    ensures PartWay(Apply, m, old(table.items), table.items)
    ensures r.Finished? ==> !UserStops(Apply, m, old(table.items)) && !SchemaStops(Apply, m, old(table.items))
    ensures r.UserThrew? ==> audit.failed == 1 && UserStops(Apply, m, old(table.items))
    ensures r.SchemaRejected? ==> SchemaStops(Apply, m, old(table.items))
    ensures r.WriteFailed? ==> table.refused
    ensures !r.CountMismatch?
  {
    ghost var t0, done: set<PK> := table.items, {};
    yielded := [];
    var cursor: Option<PK> := None;
    var more := true;
    StartScanning(m, table.rank, t0, audit.Counts());
    while more
      invariant table.Valid()
      invariant Scanning(m, table.rank, t0, table.items, more, cursor, done, yielded, audit.Counts())
      decreases more, Work(table.rank, table.items, cursor, m.fromVersion, m.entity)
    {
      r, cursor, done, yielded := ApplyTurn(m, table, audit, cursor, t0, done, yielded);
      if !r.Finished? {
        return;
      }
      more := cursor.Some?;
    }
    ScannedToEnd(m, table.rank, t0, table.items, cursor, done, yielded, audit.Counts());
    var balanced := audit.AssertInvariant();
    r := if balanced then Finished else CountMismatch;
  }

  /** The keys of the v1 records `up` makes something of. */
  ghost predicate MappedKeys(m: Migration, t: Items, mapped: set<PK>) {
    forall k :: k in mapped <==> k in t && k == V1Key(m, k.dk) && m.up(t[k]).Produced?
  }

  lemma {:induction false} ImagesOf(m: Migration, t: Items, keys: seq<PK>, mapped: set<PK>)
    requires forall k :: k in keys ==> k in t
    requires forall i, j :: 0 <= i < j < |keys| ==> keys[i] != keys[j]
    requires forall k :: k in mapped <==> k in keys && m.up(t[k]).Produced?
    ensures |UpImages(m, Records(t, keys))| == |mapped|
  {
    if keys == [] {
      assert mapped == {};
    } else {
      var init, last := keys[..|keys| - 1], keys[|keys| - 1];
      assert last in keys && last !in init;
      forall k ensures k in mapped - {last} <==> k in init && m.up(t[k]).Produced? {
        assert k in keys <==> k in init || k == last;
      }
      ImagesOf(m, t, init, mapped - {last});
      LastImage(m, t, keys);
    }
  }

  lemma LastImage(m: Migration, t: Items, keys: seq<PK>)
    requires keys != [] && forall k :: k in keys ==> k in t
    ensures var init, last := keys[..|keys| - 1], keys[|keys| - 1];
            |UpImages(m, Records(t, keys))| == |UpImages(m, Records(t, init))| + if m.up(t[last]).Produced? then 1 else 0
  {
    assert Records(t, keys)[..|keys| - 1] == Records(t, keys[..|keys| - 1]);
  }

  /** The counts of a complete apply run: every v1 record was scanned, what `up` maps was moved, the rest
      skipped. */
  ghost predicate CountedAll(m: Migration, rank: PK -> real, t: Items, c: ItemCounts)
    requires Injective(rank)
  {
    && (exists yielded :: InScanOrder(rank, t, V1Keys(m, t), yielded) && c.scanned == |yielded| && c.moved == |UpImages(m, yielded)|)
    && c.deleted <= 0 && c.failed <= 0
  }

  /** In numbers of keys. */
  lemma MovedAreMapped(m: Migration, rank: PK -> real, t0: Items, c: ItemCounts, mapped: set<PK>)
    requires Injective(rank) && CountedAll(m, rank, t0, c) && Balanced(c) && MappedKeys(m, t0, mapped)
    ensures c.scanned == |V1Keys(m, t0)| && c.moved == |mapped| && c.skipped == c.scanned - |mapped|
  {
    var keys := InOrder(rank, V1Keys(m, t0));
    InOrderLists(rank, V1Keys(m, t0));
    ImagesOf(m, t0, keys, mapped);
  }

  /** A page adds its records to the counts. */
  lemma PageCounted(m: Migration, was: ItemCounts, c: ItemCounts, yielded: seq<Record>, page: seq<Record>)
    requires Counted(m, was, yielded) && |UpImages(m, page)| <= |page|
    requires c.scanned == was.scanned + |page| && c.moved == was.moved + |UpImages(m, page)|
    requires c.skipped == was.skipped + |page| - |UpImages(m, page)| && c.deleted == was.deleted && c.failed == was.failed
    ensures Counted(m, c, yielded + page)
  {
    UpImagesAppend(m, yielded, page);
  }

  /** A page adds its records to what was yielded. */
  lemma PageYielded(t0: Items, rank: PK -> real, done: set<PK>, done': set<PK>, yielded: seq<Record>, page: seq<Record>)
    requires Injective(rank) && InOrder(rank, done') == InOrder(rank, done) + InOrder(rank, done' - done)
    requires (forall k :: k in InOrder(rank, done) ==> k in t0) && yielded == Records(t0, InOrder(rank, done))
    requires (forall k :: k in InOrder(rank, done' - done) ==> k in t0) && page == Records(t0, InOrder(rank, done' - done))
    ensures (forall k :: k in InOrder(rank, done') ==> k in t0) && yielded + page == Records(t0, InOrder(rank, done'))
  {
    RecordsAppend(t0, t0, InOrder(rank, done), InOrder(rank, done' - done));
  }

  lemma StartApplying(m: Migration, rank: PK -> real, t0: Items)
    ensures ApplyingAt(m, rank, t0, t0, None, {})
    ensures PartWay(Apply, m, t0, t0)
  {
    forall k: PK ensures AppliedAt(m, t0, t0, {}, k) { }
  }

  lemma PageProgress(m: Migration, rank: PK -> real, t0: Items, t: Items, t': Items,
                     cursor: Option<PK>, next: Option<PK>, keys: seq<PK>, page: set<PK>)
    requires WellFormed(m) && Placed(m, t0)
    requires forall k :: k in keys <==> k in page
    requires forall k :: k in page ==> k in t0 && k in t && t[k] == t0[k] && k == V1Key(m, k.dk)
    requires page == Matching(Window(rank, t, cursor, next), m.entity, m.fromVersion)
    requires next.Some? ==> next.value in Window(rank, t, cursor, next)
    requires t' == ExecAll(t, Puts(m, m.toVersion, UpImages(m, Records(t, keys))))
    ensures next.Some? ==> Work(rank, t', next, m.fromVersion, m.entity) < Work(rank, t, cursor, m.fromVersion, m.entity)
  {
    assert Records(t, keys) == Records(t0, keys);
    if next.Some? {
      KeysAdded(m, t0, t, Puts(m, m.toVersion, UpImages(m, Records(t0, keys))), keys, page);
      WorkShrinks(rank, t, t', cursor, next, m.entity, m.fromVersion, set k | k in page :: V2Key(m, k.dk));
    }
  }

  // ----- Deleting while paging: finalize and case 1 -------------------------------------------------

  /** The state of a deleting loop: the keys in `done` are gone, their records were yielded. */
  ghost predicate Reaped(rank: PK -> real, t0: Items, t: Items, entity: string, version: nat,
                         more: bool, cursor: Option<PK>, done: set<PK>, yielded: seq<Record>)
    requires Injective(rank)
  {
    var all := Matching(t0.Keys, entity, version);
    && done <= all
    && done == (if more then Passed(rank, all, cursor) else all)
    && t == t0 - done
    && (forall k :: k in InOrder(rank, done) ==> k in t0)
    && yielded == Records(t0, InOrder(rank, done))
  }

  /** A page of a deleting loop: its keys are the next stamped keys of the table the loop started
      from, whatever was deleted behind the cursor. */
  lemma DeletingPage(rank: PK -> real, t0: Items, t: Items, entity: string, version: nat, done: set<PK>,
                     cursor: Option<PK>, next: Option<PK>, page: set<PK>)
    requires Injective(rank)
    requires done == Passed(rank, Matching(t0.Keys, entity, version), cursor) && t == t0 - done
    requires page == Matching(Window(rank, t, cursor, next), entity, version)
    requires next.Some? ==> next.value in Window(rank, t, cursor, next)
    ensures var all := Matching(t0.Keys, entity, version);
            && done + page == (if next.None? then all else Passed(rank, all, next))
            && InOrder(rank, done + page) == InOrder(rank, done) + InOrder(rank, page)
    ensures forall k :: k in page ==> k in t0 && k in t && t[k] == t0[k]
    ensures next.Some? ==> Work(rank, t - page, next, version, entity) < Work(rank, t, cursor, version, entity)
  {
    PageAdvances(rank, Matching(t0.Keys, entity, version), t, entity, version, cursor, next);
    if next.Some? {
      WorkShrinks(rank, t, t - page, cursor, next, entity, version, {});
    }
  }

  lemma StartReaping(rank: PK -> real, t0: Items, entity: string, version: nat)
    requires Injective(rank)
    ensures Reaped(rank, t0, t0, entity, version, true, None, {}, [])
  {
    assert t0 - {} == t0;
    assert Passed(rank, Matching(t0.Keys, entity, version), None) == {};
  }

  lemma MinusMinus(t: Items, a: set<PK>, b: set<PK>)
    ensures (t - a) - b == t - (a + b)
  {
  }

  lemma MinusNone(t: Items)
    ensures t - {} == t
  {
  }

  lemma ReapTurn(m: Migration, rank: PK -> real, t0: Items, t: Items, version: nat, cursor: Option<PK>, next: Option<PK>,
                 done: set<PK>, yielded: seq<Record>, page: set<PK>, records: seq<Record>)
    requires Injective(rank) && Placed(m, t0) && (version == m.fromVersion || version == m.toVersion)
    requires Reaped(rank, t0, t, m.entity, version, true, cursor, done, yielded)
    requires page == Matching(Window(rank, t, cursor, next), m.entity, version)
    requires next.Some? ==> next.value in Window(rank, t, cursor, next)
    requires (forall k :: k in InOrder(rank, page) ==> k in t) && records == Records(t, InOrder(rank, page))
    ensures Reaped(rank, t0, t - page, m.entity, version, next.Some?, next, done + page, yielded + records)
    ensures next.Some? ==> Work(rank, t - page, next, version, m.entity) < Work(rank, t, cursor, version, m.entity)
    ensures var keys := InOrder(rank, page);
            && page == (set k | k in keys)
            && |keys| == |records| && forall i :: 0 <= i < |keys| ==> keys[i] == KeyAt(m, version, records[i])
  {
    var keys := InOrder(rank, page);
    DeletingPage(rank, t0, t, m.entity, version, done, cursor, next, page);
    InOrderLists(rank, page);
    RecordsAppend(t0, t, InOrder(rank, done), keys);
    PlacedPage(m, t0, t, version, keys);
    MinusMinus(t0, done, page);
  }

  ghost predicate DeletesVersion(op: Operation, m: Migration, version: nat) {
    (op == Finalize && version == m.fromVersion) || (op == CaseOne && version == m.toVersion)
  }

  lemma DeletedAll(op: Operation, m: Migration, version: nat, t0: Items)
    requires m.fromVersion != m.toVersion && DeletesVersion(op, m, version)
    ensures Reaches(op, m, t0, t0 - Matching(t0.Keys, m.entity, version))
  {
    forall k: PK ensures ReachesAt(op, m, t0, t0 - Matching(t0.Keys, m.entity, version), k) {}
  }

  /** Any part of the stamped keys deleted is part-way. */
  lemma DeletedSome(op: Operation, m: Migration, version: nat, t0: Items, t: Items, gone: set<PK>)
    requires m.fromVersion != m.toVersion && DeletesVersion(op, m, version)
    requires gone <= Matching(t0.Keys, m.entity, version) && t == t0 - gone
    ensures PartWay(op, m, t0, t)
  {
    forall k: PK ensures PartWayAt(op, m, t0, t, k) {}
  }

  /** Where a deleting loop ends. */
  lemma ReapedAll(op: Operation, m: Migration, version: nat, rank: PK -> real, t0: Items, t: Items, cursor: Option<PK>,
                  done: set<PK>, yielded: seq<Record>)
    requires Injective(rank) && m.fromVersion != m.toVersion && DeletesVersion(op, m, version)
    requires Reaped(rank, t0, t, m.entity, version, false, cursor, done, yielded)
    ensures Reaches(op, m, t0, t) && PartWay(op, m, t0, t)
    ensures InScanOrder(rank, t0, Matching(t0.Keys, m.entity, version), yielded)
  {
    DeletedAll(op, m, version, t0);
    DeletedSome(op, m, version, t0, t, done);
  }

  /** Some of the keys are gone, nothing else has changed. */
  ghost predicate LostSome(t: Items, t': Items, keys: set<PK>) {
    exists gone: set<PK> :: gone <= keys && t' == t - gone
  }

  lemma LostNone(t: Items, keys: set<PK>)
    ensures LostSome(t, t, keys)
  {
    MinusNone(t);
    assert {} <= keys;
  }

  lemma StoppedInPage(op: Operation, m: Migration, version: nat, t0: Items, t: Items, t': Items, done: set<PK>, page: set<PK>)
    requires m.fromVersion != m.toVersion && DeletesVersion(op, m, version)
    requires done + page <= Matching(t0.Keys, m.entity, version) && t == t0 - done
    requires LostSome(t, t', page)
    ensures PartWay(op, m, t0, t')
  {
    var gone: set<PK> :| gone <= page && t' == t - gone;
    MinusMinus(t0, done, gone);
    DeletedSome(op, m, version, t0, t', done + gone);
  }

  /** The reap of one page, record by record. */
  method DeletePage(m: Migration, table: Table, audit: CountAudit, page: seq<Record>, ghost keys: seq<PK>)
    returns (ok: bool)
    requires table.Valid() && |keys| == |page|
    requires forall i :: 0 <= i < |page| ==> keys[i] == KeyAt(m, m.fromVersion, page[i])
    modifies table`items, table`refused, audit`scanned, audit`deleted, audit`failed
    ensures ok ==> table.items == old(table.items) - (set k | k in keys)
    ensures ok ==> audit.scanned == old(audit.scanned) + |page| && audit.deleted == old(audit.deleted) + |page| && unchanged(audit`failed)
    ensures LostSome(old(table.items), table.items, set k | k in keys)
    ensures !ok ==> table.refused
  {
    assert old(table.items) - (set k | k in keys[..0]) == old(table.items);
    for i := 0 to |page|
      invariant table.items == old(table.items) - (set k | k in keys[..i])
      invariant audit.scanned == old(audit.scanned) + i && audit.deleted == old(audit.deleted) + i
      invariant unchanged(audit`moved) && unchanged(audit`skipped) && unchanged(audit`failed)
    {
      audit.IncrementScanned();
      var deleted := table.DeleteItem(KeyAt(m, m.fromVersion, page[i]));
      if !deleted {
        audit.IncrementFailed();
        ghost var gone := set k | k in keys[..i];
        assert gone <= (set k | k in keys);
        return false;
      }
      assert keys[..i + 1] == keys[..i] + [keys[i]];
      audit.AddDeleted(1);
    }
    assert keys[..|page|] == keys;
    ok := true;
  }

  /** One turn of the finalize loop: scan, then reap record by record. */
  method FinalizePage(m: Migration, table: Table, audit: CountAudit, cursor: Option<PK>,
                      ghost t0: Items, ghost done: set<PK>, ghost yielded: seq<Record>)
    returns (ok: bool, next: Option<PK>, ghost page: seq<Record>, ghost keySet: set<PK>)
    requires table.Valid() && WellFormed(m) && Placed(m, t0)
    requires Reaped(table.rank, t0, table.items, m.entity, m.fromVersion, true, cursor, done, yielded)
    modifies table`items, table`refused, audit`scanned, audit`deleted, audit`failed
    ensures ok ==> Reaped(table.rank, t0, table.items, m.entity, m.fromVersion, next.Some?, next, done + keySet, yielded + page)
    ensures ok ==> audit.scanned == old(audit.scanned) + |page| && audit.deleted == old(audit.deleted) + |page| && unchanged(audit`failed)
    ensures ok && next.Some? ==>
              Work(table.rank, table.items, next, m.fromVersion, m.entity) < Work(table.rank, old(table.items), cursor, m.fromVersion, m.entity)
    ensures PartWay(Finalize, m, t0, table.items)
    ensures !ok ==> table.refused
  {
    ghost var t, rank := table.items, table.rank;
    var records;
    records, next := table.Scan(m.entity, m.fromVersion, cursor, PAGE_SIZE);
    keySet := Matching(Window(rank, t, cursor, next), m.entity, m.fromVersion);
    page := records;
    ReapTurn(m, rank, t0, t, m.fromVersion, cursor, next, done, yielded, keySet, records);
    ok := DeletePage(m, table, audit, records, InOrder(rank, keySet));
    StoppedInPage(Finalize, m, m.fromVersion, t0, t, table.items, done, keySet);
  }

  /** The scan loop of `finalizeFlow`: reaps every v1 record, one delete at a time. */
  method FinalizeScan(m: Migration, table: Table, audit: CountAudit) returns (r: FlowResult, ghost yielded: seq<Record>)
    requires table.Valid() && WellFormed(m) && Placed(m, table.items) && audit.AllZero()
    modifies table`items, table`refused, audit`scanned, audit`deleted, audit`failed
    ensures r.Finished? ==>
              && Reaches(Finalize, m, old(table.items), table.items)
              && InScanOrder(table.rank, old(table.items), V1Keys(m, old(table.items)), yielded)
              && AllDeleted(audit.Counts(), |yielded|)
    ensures PartWay(Finalize, m, old(table.items), table.items)
    ensures r.Finished? || (r.WriteFailed? && table.refused)
  {
    ghost var t0, rank, done: set<PK> := table.items, table.rank, {};
    StartReaping(rank, t0, m.entity, m.fromVersion);
    yielded := [];
    var cursor: Option<PK> := None;
    var more := true;
    while more
      invariant Reaped(rank, t0, table.items, m.entity, m.fromVersion, more, cursor, done, yielded)
      invariant audit.scanned == |yielded| == audit.deleted && audit.failed == 0
      decreases more, Work(rank, table.items, cursor, m.fromVersion, m.entity)
    {
      ghost var page, keySet;
      var ok, next;
      ok, next, page, keySet := FinalizePage(m, table, audit, cursor, t0, done, yielded);
      if !ok {
        return WriteFailed, yielded;
      }
      yielded := yielded + page;
      done := done + keySet;
      cursor := next;
      more := next.Some?;
    }
    ReapedAll(Finalize, m, m.fromVersion, rank, t0, table.items, cursor, done, yielded);
    var balanced := audit.AssertInvariant();
    r := if balanced then Finished else CountMismatch;
  }

  /** Scanned records marshal back to the key they sit under. */
  lemma PlacedPage(m: Migration, t0: Items, t: Items, version: nat, keys: seq<PK>)
    requires Placed(m, t0) && (version == m.fromVersion || version == m.toVersion)
    requires forall k :: k in keys ==> k in t0 && k in t && t[k] == t0[k] && k.entity == m.entity && k.version == version
    ensures forall i :: 0 <= i < |keys| ==> keys[i] == KeyAt(m, version, Records(t, keys)[i])
  {
    forall i | 0 <= i < |keys| ensures keys[i] == KeyAt(m, version, t[keys[i]]) {
      assert keys[i] in keys;
    }
  }

  lemma DeletesMembers(m: Migration, version: nat, records: seq<Record>, keys: seq<PK>, q: Request)
    requires |keys| == |records| && forall i :: 0 <= i < |keys| ==> keys[i] == KeyAt(m, version, records[i])
    ensures q in Deletes(m, version, records) <==> q.Delete? && q.key in keys
  {
    var all := Deletes(m, version, records);
    if q in all {
      var i :| 0 <= i < |all| && all[i] == q;
      assert q.key == keys[i];
    }
    if q.Delete? && q.key in keys {
      var i :| 0 <= i < |keys| && keys[i] == q.key;
      assert all[i] == q;
    }
  }

  /** Executing some deletes removes exactly the keys they name. */
  lemma DeletesGone(t: Items, applied: seq<Request>, gone: set<PK>)
    requires forall q :: q in applied ==> q.Delete?
    requires gone == set q | q in applied :: q.key
    ensures ExecAll(t, applied) == t - gone
  {
    forall k: PK ensures Lookup(ExecAll(t, applied), k) == Lookup(t - gone, k) {
      if k in gone {
        var q :| q in applied && q.key == k;
        ExecAllHits(t, applied, q);
      } else {
        ExecAllMisses(t, applied, k);
      }
    }
    SameLookups(ExecAll(t, applied), t - gone);
  }

  /** Executing the deletes of a key list, wholly or in part, removes those keys, wholly or in part. */
  lemma DeletesRemove(m: Migration, version: nat, t: Items, records: seq<Record>, keys: seq<PK>, applied: seq<Request>)
    requires |keys| == |records| && forall i :: 0 <= i < |keys| ==> keys[i] == KeyAt(m, version, records[i])
    requires multiset(applied) <= multiset(Deletes(m, version, records))
    ensures LostSome(t, ExecAll(t, applied), set k | k in keys)
    ensures multiset(applied) == multiset(Deletes(m, version, records)) ==> ExecAll(t, applied) == t - (set k | k in keys)
  {
    var all := Deletes(m, version, records);
    var gone := set q | q in applied :: q.key;
    assert forall q :: q in multiset(all) ==> q in all;
    forall q | q in applied ensures q.Delete? && q.key in keys {
      assert q in multiset(applied);
      DeletesMembers(m, version, records, keys, q);
    }
    DeletesGone(t, applied, gone);
    assert gone <= (set k | k in keys);
    if multiset(applied) == multiset(all) {
      forall k | k in keys ensures k in gone {
        DeletesMembers(m, version, records, keys, Delete(k));
        assert Delete(k) in multiset(all) && Delete(k) in applied && Delete(k).key == k;
      }
      assert gone == set k | k in keys;
    }
  }

  /** One turn of the case-1 loop: scan, count, delete. */
  method CaseOnePage(m: Migration, table: Table, audit: CountAudit, cursor: Option<PK>,
                     ghost t0: Items, ghost done: set<PK>, ghost yielded: seq<Record>)
    returns (r: FlowResult, next: Option<PK>, ghost page: seq<Record>, ghost keySet: set<PK>)
    requires table.Valid() && WellFormed(m) && Placed(m, t0)
    requires Reaped(table.rank, t0, table.items, m.entity, m.toVersion, true, cursor, done, yielded)
    modifies table, audit`scanned, audit`deleted
    ensures table.Valid()
    ensures r.Finished? ==> Reaped(table.rank, t0, table.items, m.entity, m.toVersion, next.Some?, next, done + keySet, yielded + page)
    ensures r.Finished? ==> audit.scanned == old(audit.scanned) + |page| && audit.deleted == old(audit.deleted) + |page|
    ensures r.Finished? && next.Some? ==>
              Work(table.rank, table.items, next, m.toVersion, m.entity) < Work(table.rank, old(table.items), cursor, m.toVersion, m.entity)
    ensures PartWay(CaseOne, m, t0, table.items)
    ensures r.Finished? || r.SchemaRejected? || r.WriteFailed?
    ensures r.SchemaRejected? ==> unchanged(table) && SchemaStops(CaseOne, m, t0)
    ensures r.Finished? ==> forall v2 :: v2 in page ==> m.acceptsV2(v2)
    ensures r.WriteFailed? ==> table.refused
  {
    ghost var t, rank := table.items, table.rank;
    var records;
    records, next := table.Scan(m.entity, m.toVersion, cursor, PAGE_SIZE);
    keySet := Matching(Window(rank, t, cursor, next), m.entity, m.toVersion);
    page := records;
    ReapTurn(m, rank, t0, t, m.toVersion, cursor, next, done, yielded, keySet, records);
    r := FlushV2Deletes(m, table, audit, records, InOrder(rank, keySet));
    if r.SchemaRejected? { RejectedOnPage(m, rank, t0, t, keySet, records); }
    StoppedInPage(CaseOne, m, m.toVersion, t0, t, table.items, done, keySet);
  }

  /** `rollbackCase1`: deletes every v2 record page by page; `down` is never called. */
  method RollbackCase1(m: Migration, table: Table, audit: CountAudit) returns (r: FlowResult, ghost yielded: seq<Record>)
    requires table.Valid() && WellFormed(m) && Placed(m, table.items) && audit.AllZero()
    modifies table, audit`scanned, audit`deleted
    ensures table.Valid()
    ensures r.Finished? ==>
              && Reaches(CaseOne, m, old(table.items), table.items)
              && InScanOrder(table.rank, old(table.items), V2Keys(m, old(table.items)), yielded)
              && AllDeleted(audit.Counts(), |yielded|)
    ensures PartWay(CaseOne, m, old(table.items), table.items)
    ensures !r.UserThrew? && !r.CountMismatch?
    ensures r.SchemaRejected? ==> SchemaStops(CaseOne, m, old(table.items))
    ensures r.Finished? ==> !SchemaStops(CaseOne, m, old(table.items))
    ensures r.WriteFailed? ==> table.refused
  {
    ghost var t0, rank, done: set<PK> := table.items, table.rank, {};
    StartReaping(rank, t0, m.entity, m.toVersion);
    yielded := [];
    var cursor: Option<PK> := None;
    var more := true;
    while more
      invariant table.Valid() && table.rank == rank
      invariant Reaped(rank, t0, table.items, m.entity, m.toVersion, more, cursor, done, yielded)
      invariant audit.scanned == |yielded| == audit.deleted
      invariant forall v2 :: v2 in yielded ==> m.acceptsV2(v2)
      decreases more, Work(rank, table.items, cursor, m.toVersion, m.entity)
    {
      ghost var page, keySet;
      var next;
      r, next, page, keySet := CaseOnePage(m, table, audit, cursor, t0, done, yielded);
      if !r.Finished? {
        return r, yielded;
      }
      yielded := yielded + page;
      done := done + keySet;
      cursor := next;
      more := next.Some?;
    }
    ReapedAll(CaseOne, m, m.toVersion, rank, t0, table.items, cursor, done, yielded);
    NoneRejected(m, rank, t0, yielded);
    r := Finished;
  }

  lemma RejectedOnPage(m: Migration, rank: PK -> real, t0: Items, t: Items, keySet: set<PK>, records: seq<Record>)
    requires Injective(rank) && forall k :: k in keySet ==> k.entity == m.entity && k.version == m.toVersion
    requires forall k :: k in InOrder(rank, keySet) ==> k in t0 && k in t && t[k] == t0[k]
    requires records == Records(t, InOrder(rank, keySet)) && exists v2 :: v2 in records && !m.acceptsV2(v2)
    ensures SchemaStops(CaseOne, m, t0)
  {
    var i :| 0 <= i < |records| && !m.acceptsV2(records[i]);
    var k := InOrder(rank, keySet)[i];
    InOrderLists(rank, keySet);
    assert k in InOrder(rank, keySet) && k == V2Key(m, k.dk);
    assert RejectsAt(CaseOne, m, t0, k.dk);
  }

  lemma NoneRejected(m: Migration, rank: PK -> real, t0: Items, yielded: seq<Record>)
    requires Injective(rank) && InScanOrder(rank, t0, V2Keys(m, t0), yielded) && forall v2 :: v2 in yielded ==> m.acceptsV2(v2)
    ensures !SchemaStops(CaseOne, m, t0)
  {
    InOrderLists(rank, V2Keys(m, t0));
    var keys := InOrder(rank, V2Keys(m, t0));
    forall dk: string ensures !RejectsAt(CaseOne, m, t0, dk) {
      if V2Key(m, dk) in t0 {
        assert V2Key(m, dk) in keys;
        var i :| 0 <= i < |keys| && keys[i] == V2Key(m, dk);
        assert yielded[i] in yielded;
      }
    }
  }

  method CountScanned(audit: CountAudit, n: nat)
    modifies audit`scanned
    ensures audit.scanned == old(audit.scanned) + n
  {
    for i := 0 to n
      invariant audit.scanned == old(audit.scanned) + i
    {
      audit.IncrementScanned();
    }
  }

  lemma OnlyV2Deletes(m: Migration, page: seq<Record>)
    ensures RollbackRequests(m, [], [], page) == Deletes(m, m.toVersion, page)
  {
  }

  /** Deletes a page of v2 records in one flush. */
  method DeleteV2Page(m: Migration, table: Table, page: seq<Record>, ghost keys: seq<PK>) returns (r: FlowResult, written: nat)
    requires table.Valid() && |keys| == |page|
    requires forall i :: 0 <= i < |page| ==> keys[i] == KeyAt(m, m.toVersion, page[i])
    modifies table
    ensures table.Valid()
    ensures r.Finished? ==> table.items == old(table.items) - (set k | k in keys) && written == |page|
    ensures LostSome(old(table.items), table.items, set k | k in keys)
    ensures r.Finished? || r.SchemaRejected? || r.WriteFailed?
    ensures r.SchemaRejected? ==> unchanged(table)
    ensures r.SchemaRejected? <==> exists v2 :: v2 in page && !m.acceptsV2(v2)
    ensures r.WriteFailed? ==> table.refused
  {
    ghost var t, mark := table.items, |table.log|;
    r, written := BatchFlushRollback(m, table, [], [], page);
    OnlyV2Deletes(m, page);
    DeletesRemove(m, m.toVersion, t, page, keys, table.Since(mark));
  }

  /** Counts a page, deletes it, and adds what was written. */
  method FlushV2Deletes(m: Migration, table: Table, audit: CountAudit, page: seq<Record>, ghost keys: seq<PK>)
    returns (r: FlowResult)
    requires table.Valid() && |keys| == |page|
    requires forall i :: 0 <= i < |page| ==> keys[i] == KeyAt(m, m.toVersion, page[i])
    modifies table, audit`scanned, audit`deleted
    ensures table.Valid()
    ensures r.Finished? ==> table.items == old(table.items) - (set k | k in keys)
    ensures r.Finished? ==> audit.scanned == old(audit.scanned) + |page| && audit.deleted == old(audit.deleted) + |page|
    ensures LostSome(old(table.items), table.items, set k | k in keys)
    ensures r.Finished? || r.SchemaRejected? || r.WriteFailed?
    ensures r.SchemaRejected? ==> unchanged(table)
    ensures r.SchemaRejected? <==> exists v2 :: v2 in page && !m.acceptsV2(v2)
    ensures r.WriteFailed? ==> table.refused
  {
    if |page| == 0 {
      LostNone(table.items, set k | k in keys);
      MinusNone(table.items);
      return Finished;
    }
    CountScanned(audit, |page|);
    var written;
    r, written := DeleteV2Page(m, table, page, keys);
    if r.Finished? {
      audit.AddDeleted(written);
    }
  }
}
