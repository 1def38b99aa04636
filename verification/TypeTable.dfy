/** The A/B/C classifier: index v1, stream v2 against the index, then what v1 has left over. */
module TypeTable {
  import opened Wrappers
  import opened TableWrites
  import opened PhysicalTable
  import opened Migrations
  import opened ScanFlows

  // ----- Reading a version page by page ---------------------------------------------------------

  /** The loop at `cursor` has read the keys in `done` of version `version`. */
  ghost predicate ReadTo(rank: PK -> real, t: Items, entity: string, version: nat, more: bool, cursor: Option<PK>, done: set<PK>) {
    var all := Matching(t.Keys, entity, version);
    && done <= all
    && done == if more then Passed(rank, all, cursor) else all
  }

  /** One page: its keys come next, and its records marshal back to them. */
  lemma ReadTurn(m: Migration, rank: PK -> real, t: Items, version: nat, cursor: Option<PK>, next: Option<PK>,
                 done: set<PK>, page: set<PK>, records: seq<Record>)
    requires Injective(rank) && Placed(m, t) && (version == m.fromVersion || version == m.toVersion)
    requires ReadTo(rank, t, m.entity, version, true, cursor, done)
    requires page == Matching(Window(rank, t, cursor, next), m.entity, version)
    requires next.Some? ==> next.value in Window(rank, t, cursor, next)
    requires (forall k :: k in InOrder(rank, page) ==> k in t) && records == Records(t, InOrder(rank, page))
    ensures ReadTo(rank, t, m.entity, version, next.Some?, next, done + page)
    ensures InOrder(rank, done + page) == InOrder(rank, done) + InOrder(rank, page)
    ensures next.Some? ==> Work(rank, t, next, version, m.entity) < Work(rank, t, cursor, version, m.entity)
    ensures Sits(m, t, version, InOrder(rank, page), records)
  {
    PageAdvances(rank, Matching(t.Keys, m.entity, version), t, m.entity, version, cursor, next);
    if next.Some? {
      WorkShrinks(rank, t, t, cursor, next, m.entity, version, {});
    }
    PageSits(m, rank, t, version, page);
  }

  lemma PageSits(m: Migration, rank: PK -> real, t: Items, version: nat, page: set<PK>)
    requires Injective(rank) && Placed(m, t) && (version == m.fromVersion || version == m.toVersion)
    requires page <= Matching(t.Keys, m.entity, version)
    ensures forall k :: k in InOrder(rank, page) ==> k in t
    ensures Sits(m, t, version, InOrder(rank, page), Records(t, InOrder(rank, page)))
  {
    InOrderLists(rank, page);
    PlacedPage(m, t, t, version, InOrder(rank, page));
    var keys := InOrder(rank, page);
    forall i | 0 <= i < |keys| ensures SitsAt(m, t, version, keys[i], Records(t, keys)[i]) {
      assert keys[i] in keys;
    }
  }

  /** `records` are what `t` holds under `keys`, each under its own key of that version. */
  ghost predicate Sits(m: Migration, t: Items, version: nat, keys: seq<PK>, records: seq<Record>) {
    && |keys| == |records|
    && forall i :: 0 <= i < |keys| ==> SitsAt(m, t, version, keys[i], records[i])
  }

  ghost predicate SitsAt(m: Migration, t: Items, version: nat, k: PK, r: Record) {
    && Lookup(t, k) == Some(r)
    && k == PK(m.entity, version, ExtractDomainKey(m.composite, r))
  }

  // ----- Phase 1 ----------------------------------------------------------------------------------

  function DomainKeys(keys: seq<PK>): seq<string> {
    seq(|keys|, i requires 0 <= i < |keys| => keys[i].dk)
  }

  /** `v1Index` holds exactly the records under `keys`; `order` is its insertion order. */
  ghost predicate Indexed(m: Migration, t: Items, keys: seq<PK>, v1Index: map<string, Record>, order: seq<string>) {
    && order == DomainKeys(keys)
    && forall dk: string :: IndexedAt(m, t, keys, v1Index, dk)
  }

  ghost predicate IndexedAt(m: Migration, t: Items, keys: seq<PK>, v1Index: map<string, Record>, dk: string) {
    (if dk in v1Index then Some(v1Index[dk]) else None) == if V1Key(m, dk) in keys then Lookup(t, V1Key(m, dk)) else None
  }

  /** `Map.set`: a new key goes to the end of the insertion order, a known one keeps its place. */
  method IndexPage(m: Migration, page: seq<Record>, index0: map<string, Record>, order0: seq<string>,
                   ghost t: Items, ghost before: seq<PK>, ghost keys: seq<PK>)
    returns (v1Index: map<string, Record>, order: seq<string>)
    requires Indexed(m, t, before, index0, order0) && Sits(m, t, m.fromVersion, keys, page)
    requires forall i, j :: 0 <= i < j < |before + keys| ==> (before + keys)[i] != (before + keys)[j]
    ensures Indexed(m, t, before + keys, v1Index, order)
  {
    v1Index, order := index0, order0;
    assert before + keys[..0] == before;
    for i := 0 to |page|
      invariant Indexed(m, t, before + keys[..i], v1Index, order)
    {
      var domainKey := ExtractDomainKey(m.composite, page[i]);
      assert SitsAt(m, t, m.fromVersion, keys[i], page[i]);
      IndexOne(m, t, before + keys[..i], keys[i], v1Index, order, domainKey, page[i]);
      assert keys[..i + 1] == keys[..i] + [keys[i]];
      assert before + keys[..i + 1] == (before + keys[..i]) + [keys[i]];
      assert (before + keys)[|before| + i] == keys[i] && forall j :: 0 <= j < |before| + i ==> (before + keys[..i])[j] == (before + keys)[j];
      if domainKey !in v1Index {
        order := order + [domainKey];
      }
      v1Index := v1Index[domainKey := page[i]];
    }
    assert keys[..|page|] == keys;
  }

  lemma IndexOne(m: Migration, t: Items, keys: seq<PK>, k: PK, v1Index: map<string, Record>, order: seq<string>, dk: string, r: Record)
    requires Indexed(m, t, keys, v1Index, order) && SitsAt(m, t, m.fromVersion, k, r) && dk == ExtractDomainKey(m.composite, r)
    ensures k !in keys ==> dk !in v1Index && Indexed(m, t, keys + [k], v1Index[dk := r], order + [dk])
  {
    assert IndexedAt(m, t, keys, v1Index, dk) && k == V1Key(m, dk);
    if k !in keys {
      var keys', index' := keys + [k], v1Index[dk := r];
      forall other: string ensures IndexedAt(m, t, keys', index', other) {
        assert IndexedAt(m, t, keys, v1Index, other);
      }
    }
  }

  method IndexV1(m: Migration, table: Table) returns (v1Index: map<string, Record>, order: seq<string>)
    requires table.Valid() && Placed(m, table.items)
    ensures Indexed(m, table.items, InOrder(table.rank, V1Keys(m, table.items)), v1Index, order)
  {
    ghost var t, rank, done: set<PK> := table.items, table.rank, {};
    v1Index, order := map[], [];
    var cursor: Option<PK> := None;
    var more := true;
    while more
      invariant ReadTo(rank, t, m.entity, m.fromVersion, more, cursor, done)
      invariant Indexed(m, t, InOrder(rank, done), v1Index, order)
      decreases more, Work(rank, t, cursor, m.fromVersion, m.entity)
    {
      var page, next := table.Scan(m.entity, m.fromVersion, cursor, PAGE_SIZE);
      ghost var keySet := Matching(Window(rank, t, cursor, next), m.entity, m.fromVersion);
      ReadTurn(m, rank, t, m.fromVersion, cursor, next, done, keySet, page);
      InOrderLists(rank, done + keySet);
      v1Index, order := IndexPage(m, page, v1Index, order, t, InOrder(rank, done), InOrder(rank, keySet));
      done := done + keySet;
      cursor := next;
      more := next.Some?;
    }
  }

  // ----- Phase 2 ----------------------------------------------------------------------------------

  /** The A and B rows for v2 keys, in scan order. */
  function V2Entries(m: Migration, t: Items, keys: seq<PK>): seq<TypeTableEntry>
    requires forall k :: k in keys ==> EntryAt(m, t, k.dk).Some?
  {
    seq(|keys|, i requires 0 <= i < |keys| => EntryAt(m, t, keys[i].dk).value)
  }

  /** The v2 keys in `keys` are streamed: their rows emitted, their domain keys seen. */
  ghost predicate Streamed(m: Migration, t: Items, keys: seq<PK>, entries: seq<TypeTableEntry>, seen: set<string>) {
    && (forall k :: k in keys ==> EntryAt(m, t, k.dk).Some?)
    && entries == V2Entries(m, t, keys)
    && seen == set k | k in keys :: k.dk
  }

  lemma StreamOne(m: Migration, t: Items, keys: seq<PK>, entries: seq<TypeTableEntry>, seen: set<string>, k: PK)
    requires Streamed(m, t, keys, entries, seen) && EntryAt(m, t, k.dk).Some?
    ensures Streamed(m, t, keys + [k], entries + [EntryAt(m, t, k.dk).value], seen + {k.dk})
  {
  }

  method StreamPage(m: Migration, page: seq<Record>, v1Index: map<string, Record>,
                    entries0: seq<TypeTableEntry>, seen0: set<string>,
                    ghost t: Items, ghost v1Keys: seq<PK>, ghost before: seq<PK>, ghost keys: seq<PK>)
    returns (entries: seq<TypeTableEntry>, seen: set<string>)
    requires Sits(m, t, m.toVersion, keys, page) && forall dk: string :: IndexedAt(m, t, v1Keys, v1Index, dk)
    requires forall k :: k in t && k == V1Key(m, k.dk) ==> k in v1Keys
    requires Streamed(m, t, before, entries0, seen0)
    ensures Streamed(m, t, before + keys, entries, seen)
  {
    entries, seen := entries0, seen0;
    assert before + keys[..0] == before;
    for i := 0 to |page|
      invariant Streamed(m, t, before + keys[..i], entries, seen)
    {
      var key := ExtractDomainKey(m.composite, page[i]);
      assert SitsAt(m, t, m.toVersion, keys[i], page[i]) && IndexedAt(m, t, v1Keys, v1Index, key);
      StreamOne(m, t, before + keys[..i], entries, seen, keys[i]);
      seen := seen + {key};
      if key in v1Index {
        entries := entries + [TypeA(v1Index[key], page[i], key)];
      } else {
        entries := entries + [TypeB(page[i], key)];
      }
      assert before + keys[..i + 1] == (before + keys[..i]) + [keys[i]];
    }
    assert keys[..|page|] == keys;
  }

  method StreamV2(m: Migration, table: Table, v1Index: map<string, Record>, ghost v1Keys: seq<PK>)
    returns (entries: seq<TypeTableEntry>, seen: set<string>)
    requires table.Valid() && Placed(m, table.items)
    requires forall dk: string :: IndexedAt(m, table.items, v1Keys, v1Index, dk)
    requires forall k :: k in table.items && k == V1Key(m, k.dk) ==> k in v1Keys
    ensures Streamed(m, table.items, InOrder(table.rank, V2Keys(m, table.items)), entries, seen)
  {
    ghost var t, rank, done: set<PK> := table.items, table.rank, {};
    entries, seen := [], {};
    var cursor: Option<PK> := None;
    var more := true;
    while more
      invariant ReadTo(rank, t, m.entity, m.toVersion, more, cursor, done)
      invariant Streamed(m, t, InOrder(rank, done), entries, seen)
      decreases more, Work(rank, t, cursor, m.toVersion, m.entity)
    {
      var page, next := table.Scan(m.entity, m.toVersion, cursor, PAGE_SIZE);
      ghost var keySet := Matching(Window(rank, t, cursor, next), m.entity, m.toVersion);
      ReadTurn(m, rank, t, m.toVersion, cursor, next, done, keySet, page);
      entries, seen := StreamPage(m, page, v1Index, entries, seen, t, v1Keys, InOrder(rank, done), InOrder(rank, keySet));
      done := done + keySet;
      cursor := next;
      more := next.Some?;
    }
  }

  // ----- Phase 3 ----------------------------------------------------------------------------------

  /** The C rows: v1 keys without a v2 record, in the order v1 was read. */
  function V1Leftovers(m: Migration, t: Items, keys: seq<PK>): seq<TypeTableEntry> {
    if keys == [] then []
    else
      var last := EntryAt(m, t, keys[|keys| - 1].dk);
      V1Leftovers(m, t, keys[..|keys| - 1]) + if last.Some? && last.value.TypeC? then [last.value] else []
  }

  method EmitC(m: Migration, v1Index: map<string, Record>, order: seq<string>, seen: set<string>,
               ghost t: Items, ghost keys: seq<PK>)
    returns (entries: seq<TypeTableEntry>)
    requires Indexed(m, t, keys, v1Index, order)
    requires forall k :: k in keys ==> k in t && k == V1Key(m, k.dk)
    requires forall dk: string :: dk in seen <==> V2Key(m, dk) in t
    ensures entries == V1Leftovers(m, t, keys)
  {
    entries := [];
    for i := 0 to |order|
      invariant entries == V1Leftovers(m, t, keys[..i])
    {
      var key := order[i];
      assert key == keys[i].dk && keys[i] in keys && IndexedAt(m, t, keys, v1Index, key);
      if key !in seen {
        entries := entries + [TypeC(v1Index[key], key)];
      }
      assert keys[..i + 1][..i] == keys[..i] && keys[..i + 1][i] == keys[i];
    }
    assert keys[..|order|] == keys;
  }

  // ----- The whole table ------------------------------------------------------------------------

  /** The rows the generator yields, in order. */
  function Rows(m: Migration, rank: PK -> real, t: Items): seq<TypeTableEntry>
    requires Injective(rank)
  {
    InOrderLists(rank, V2Keys(m, t));
    V2Entries(m, t, InOrder(rank, V2Keys(m, t))) + V1Leftovers(m, t, InOrder(rank, V1Keys(m, t)))
  }

  method ClassifyTypeTable(m: Migration, table: Table) returns (entries: seq<TypeTableEntry>)
    requires table.Valid() && m.fromVersion != m.toVersion && Placed(m, table.items)
    ensures entries == Rows(m, table.rank, table.items)
  {
    var v1Index, order := IndexV1(m, table);
    ghost var t, rank := table.items, table.rank;
    ghost var v1Keys, v2Keys := InOrder(rank, V1Keys(m, t)), InOrder(rank, V2Keys(m, t));
    InOrderLists(rank, V1Keys(m, t));
    InOrderLists(rank, V2Keys(m, t));
    var rows, seen := StreamV2(m, table, v1Index, v1Keys);
    forall dk: string ensures dk in seen <==> V2Key(m, dk) in t {
      assert V2Key(m, dk) in t <==> V2Key(m, dk) in v2Keys;
      if k :| k in v2Keys && k.dk == dk {
        assert k == V2Key(m, dk);
      }
      assert V2Key(m, dk) in v2Keys ==> V2Key(m, dk).dk in seen;
    }
    var rest := EmitC(m, v1Index, order, seen, t, v1Keys);
    entries := rows + rest;
  }

  lemma {:induction false} V1LeftoversMembers(m: Migration, t: Items, keys: seq<PK>, e: TypeTableEntry)
    requires forall i, j :: 0 <= i < j < |keys| ==> keys[i].dk != keys[j].dk
    ensures e in V1Leftovers(m, t, keys) <==> e.TypeC? && EntryAt(m, t, e.domainKey) == Some(e) && exists k :: k in keys && k.dk == e.domainKey
    ensures forall i, j :: 0 <= i < j < |V1Leftovers(m, t, keys)| ==>
              V1Leftovers(m, t, keys)[i].domainKey != V1Leftovers(m, t, keys)[j].domainKey
  {
    if keys != [] {
      var init, last := keys[..|keys| - 1], keys[|keys| - 1];
      V1LeftoversMembers(m, t, init, e);
      var row := EntryAt(m, t, last.dk);
      if row.Some? && row.value.TypeC? {
        V1LeftoversMembers(m, t, init, row.value);
        var before := V1Leftovers(m, t, init);
        forall i | 0 <= i < |before| ensures before[i].domainKey != last.dk {
          V1LeftoversMembers(m, t, init, before[i]);
          assert before[i] in before;
        }
      }
      assert forall k :: k in keys <==> k in init || k == last;
    }
  }

  lemma RowMember(m: Migration, rank: PK -> real, t: Items, e: TypeTableEntry)
    requires Injective(rank) && m.fromVersion != m.toVersion
    ensures e in Rows(m, rank, t) <==> EntryAt(m, t, e.domainKey) == Some(e)
  {
    var v1Keys, v2Keys := InOrder(rank, V1Keys(m, t)), InOrder(rank, V2Keys(m, t));
    InOrderLists(rank, V1Keys(m, t));
    InOrderLists(rank, V2Keys(m, t));
    DistinctDomainKeys(m, m.fromVersion, v1Keys, rank);
    V1LeftoversMembers(m, t, v1Keys, e);
    V2EntriesMembers(m, t, v2Keys, e);
    assert V1Key(m, e.domainKey) in v1Keys <==> V1Key(m, e.domainKey) in t;
    assert V2Key(m, e.domainKey) in v2Keys <==> V2Key(m, e.domainKey) in t;
  }

  /** Partition: every domain key of v1 or v2 has exactly one row, and its type says which versions
      hold it. */
  lemma RowsPartition(m: Migration, rank: PK -> real, t: Items)
    requires Injective(rank) && m.fromVersion != m.toVersion
    ensures forall e :: e in Rows(m, rank, t) <==> EntryAt(m, t, e.domainKey) == Some(e)
    ensures forall i, j :: 0 <= i < j < |Rows(m, rank, t)| ==> Rows(m, rank, t)[i].domainKey != Rows(m, rank, t)[j].domainKey
  {
    var v1Keys, v2Keys := InOrder(rank, V1Keys(m, t)), InOrder(rank, V2Keys(m, t));
    InOrderLists(rank, V1Keys(m, t));
    InOrderLists(rank, V2Keys(m, t));
    var ab, c, rows := V2Entries(m, t, v2Keys), V1Leftovers(m, t, v1Keys), Rows(m, rank, t);
    DistinctDomainKeys(m, m.fromVersion, v1Keys, rank);
    DistinctDomainKeys(m, m.toVersion, v2Keys, rank);
    forall e ensures e in rows <==> EntryAt(m, t, e.domainKey) == Some(e) { RowMember(m, rank, t, e); }
    forall i | 0 <= i < |ab| ensures ab[i].domainKey == v2Keys[i].dk && !ab[i].TypeC? {
      assert v2Keys[i] in v2Keys;
    }
    forall i | 0 <= i < |c| ensures c[i].TypeC? {
      V1LeftoversMembers(m, t, v1Keys, c[i]);
    }
    V1LeftoversMembers(m, t, v1Keys, TypeC(map[], ""));
    forall i, j | 0 <= i < |ab| && 0 <= j < |c| ensures ab[i].domainKey != c[j].domainKey {
      RowMember(m, rank, t, ab[i]);
      RowMember(m, rank, t, c[j]);
      assert ab[i] in rows && c[j] in rows;
    }
    DistinctAppend(ab, c);
  }

  lemma DistinctAppend(ab: seq<TypeTableEntry>, c: seq<TypeTableEntry>)
    requires forall i, j :: 0 <= i < j < |ab| ==> ab[i].domainKey != ab[j].domainKey
    requires forall i, j :: 0 <= i < j < |c| ==> c[i].domainKey != c[j].domainKey
    requires forall i, j :: 0 <= i < |ab| && 0 <= j < |c| ==> ab[i].domainKey != c[j].domainKey
    ensures forall i, j :: 0 <= i < j < |ab + c| ==> (ab + c)[i].domainKey != (ab + c)[j].domainKey
  {
  }

  lemma V2EntriesMembers(m: Migration, t: Items, keys: seq<PK>, e: TypeTableEntry)
    requires forall k :: k in keys ==> EntryAt(m, t, k.dk).Some?
    ensures e in V2Entries(m, t, keys) <==> EntryAt(m, t, e.domainKey) == Some(e) && exists k :: k in keys && k.dk == e.domainKey
  {
    var rows := V2Entries(m, t, keys);
    if e in rows {
      var i :| 0 <= i < |rows| && rows[i] == e;
      assert keys[i] in keys;
    }
    if EntryAt(m, t, e.domainKey) == Some(e) {
      if k :| k in keys && k.dk == e.domainKey {
        var i :| 0 <= i < |keys| && keys[i] == k;
        assert rows[i] == e;
      }
    }
  }

  lemma DistinctDomainKeys(m: Migration, version: nat, keys: seq<PK>, rank: PK -> real)
    requires forall k :: k in keys ==> k == PK(m.entity, version, k.dk)
    requires forall i, j :: 0 <= i < j < |keys| ==> rank(keys[i]) < rank(keys[j])
    ensures forall i, j :: 0 <= i < j < |keys| ==> keys[i].dk != keys[j].dk
  {
    forall i, j | 0 <= i < j < |keys| ensures keys[i].dk != keys[j].dk {
      assert keys[i] in keys && keys[j] in keys;
    }
  }

  // ----- The order of the rows ------------------------------------------------------------------------

  /** Rows that have a v2 record come first, in the scan order of v2; then the others, in that of v1. */
  predicate RowBefore(m: Migration, rank: PK -> real, d: TypeTableEntry, e: TypeTableEntry) {
    if d.TypeC? then e.TypeC? && rank(V1Key(m, d.domainKey)) < rank(V1Key(m, e.domainKey))
    else e.TypeC? || rank(V2Key(m, d.domainKey)) < rank(V2Key(m, e.domainKey))
  }

  lemma {:induction false} LeftoversInOrder(m: Migration, rank: PK -> real, t: Items, keys: seq<PK>)
    requires forall k :: k in keys ==> k == V1Key(m, k.dk)
    requires forall i, j :: 0 <= i < j < |keys| ==> rank(keys[i]) < rank(keys[j])
    ensures forall e :: e in V1Leftovers(m, t, keys) ==> e.TypeC? && V1Key(m, e.domainKey) in keys
    ensures forall i, j :: 0 <= i < j < |V1Leftovers(m, t, keys)| ==>
              RowBefore(m, rank, V1Leftovers(m, t, keys)[i], V1Leftovers(m, t, keys)[j])
  {
    if keys != [] {
      var init, last := keys[..|keys| - 1], keys[|keys| - 1];
      LeftoversInOrder(m, rank, t, init);
      var before := V1Leftovers(m, t, init);
      assert last in keys;
      forall i | 0 <= i < |before| ensures before[i].TypeC? && rank(V1Key(m, before[i].domainKey)) < rank(last) {
        assert before[i] in before;
      }
    }
  }

  /** The order in which the generator yields. */
  lemma RowsInOrder(m: Migration, rank: PK -> real, t: Items)
    requires Injective(rank) && m.fromVersion != m.toVersion
    ensures forall i, j :: 0 <= i < j < |Rows(m, rank, t)| ==> RowBefore(m, rank, Rows(m, rank, t)[i], Rows(m, rank, t)[j])
  {
    var v1Keys, v2Keys := InOrder(rank, V1Keys(m, t)), InOrder(rank, V2Keys(m, t));
    InOrderLists(rank, V1Keys(m, t));
    InOrderLists(rank, V2Keys(m, t));
    LeftoversInOrder(m, rank, t, v1Keys);
    var ab, c := V2Entries(m, t, v2Keys), V1Leftovers(m, t, v1Keys);
    forall i | 0 <= i < |ab| ensures V2Key(m, ab[i].domainKey) == v2Keys[i] && !ab[i].TypeC? {
      assert v2Keys[i] in v2Keys;
    }
    forall i | 0 <= i < |c| ensures c[i].TypeC? { assert c[i] in c; }
    HeadThenTail(m, rank, ab, c);
  }

  lemma HeadThenTail(m: Migration, rank: PK -> real, ab: seq<TypeTableEntry>, c: seq<TypeTableEntry>)
    requires (forall i :: 0 <= i < |ab| ==> !ab[i].TypeC?) && (forall i :: 0 <= i < |c| ==> c[i].TypeC?)
    requires forall i, j :: 0 <= i < j < |ab| ==> RowBefore(m, rank, ab[i], ab[j])
    requires forall i, j :: 0 <= i < j < |c| ==> RowBefore(m, rank, c[i], c[j])
    ensures forall i, j :: 0 <= i < j < |ab + c| ==> RowBefore(m, rank, (ab + c)[i], (ab + c)[j])
  {
  }
}
