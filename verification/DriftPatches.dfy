/** What the list of drift records says, read as a patch: the records under each common name take what the
    old projection has there to what the new one has. */
module DriftPatches {
  import opened Wrappers
  import opened NamedLists
  import opened CanonicalJson
  import opened Projection
  import opened Drift
  import opened DriftLaws

  // ----- Which records the list holds -------------------------------------------------------------

  lemma {:induction false} ChangedAttributeMembers(p: Named<Attribute>, c: Named<Attribute>, names: seq<string>, r: Record)
    requires forall n :: n in names ==> n in Names(p) && n in Names(c)
    ensures r in ChangedAttributes(p, c, names) <==>
            r.AttributeChanged? && r.name in names && r.changes == AttributeChanges(Get(p, r.name), Get(c, r.name)) != []
  {
    if names != [] {
      var init, last := names[..|names| - 1], names[|names| - 1];
      ChangedAttributeMembers(p, c, init, r);
      assert forall n :: n in names <==> n in init || n == last;
    }
  }

  lemma ChangeRecordMember(n: string, changes: seq<Change>, renamed: bool, r: Record)
    ensures r in ChangeRecord(n, changes, renamed) <==> r == IndexChanged(n, changes) && changes != [] && !renamed
  {
  }

  lemma RenameRecordMember(n: string, rename: Option<Rename>, r: Record)
    ensures r in RenameRecord(n, rename) <==> r.KeyRename? && r.name == n && rename == Some(Rename(r.keyType, r.from, r.to))
  {
  }

  lemma InEither(a: seq<Record>, b: seq<Record>, r: Record)
    ensures r in a + b <==> r in a || r in b
  {
  }

  lemma InInitOrLast(names: seq<string>, n: string)
    requires names != []
    ensures n in names <==> n in names[..|names| - 1] || n == names[|names| - 1]
  {
  }

  lemma LastIndexRecords(p: Named<Index>, c: Named<Index>, names: seq<string>, changes: seq<Change>, rename: Option<Rename>)
    requires names != [] && forall n :: n in names ==> n in Names(p) && n in Names(c)
    requires changes == IndexChanges(Get(p, names[|names| - 1]), Get(c, names[|names| - 1])) && rename == RenameOf(changes)
    ensures var init, last := names[..|names| - 1], names[|names| - 1];
            && ChangedIndexes(p, c, names) == ChangedIndexes(p, c, init) + ChangeRecord(last, changes, rename.Some?)
            && RenamedKeys(p, c, names) == RenamedKeys(p, c, init) + RenameRecord(last, rename)
  {
  }

  lemma {:induction false} ChangedIndexMembers(p: Named<Index>, c: Named<Index>, names: seq<string>, r: Record)
    requires forall n :: n in names ==> n in Names(p) && n in Names(c)
    ensures r in ChangedIndexes(p, c, names) <==>
            && r.IndexChanged? && r.name in names
            && var changes := IndexChanges(Get(p, r.name), Get(c, r.name));
               r == IndexChanged(r.name, changes) && changes != [] && RenameOf(changes).None?
  {
    if names != [] {
      var init, last := names[..|names| - 1], names[|names| - 1];
      ChangedIndexMembers(p, c, init, r);
      var changes := IndexChanges(Get(p, last), Get(c, last));
      LastIndexRecords(p, c, names, changes, RenameOf(changes));
      ChangeRecordMember(last, changes, RenameOf(changes).Some?, r);
      InEither(ChangedIndexes(p, c, init), ChangeRecord(last, changes, RenameOf(changes).Some?), r);
      if r.IndexChanged? { InInitOrLast(names, r.name); }
    }
  }

  lemma {:induction false} RenamedMembers(p: Named<Index>, c: Named<Index>, names: seq<string>, r: Record)
    requires forall n :: n in names ==> n in Names(p) && n in Names(c)
    ensures r in RenamedKeys(p, c, names) <==>
            && r.KeyRename? && r.name in names
            && RenameOf(IndexChanges(Get(p, r.name), Get(c, r.name))) == Some(Rename(r.keyType, r.from, r.to))
  {
    if names != [] {
      var init, last := names[..|names| - 1], names[|names| - 1];
      RenamedMembers(p, c, init, r);
      var changes := IndexChanges(Get(p, last), Get(c, last));
      LastIndexRecords(p, c, names, changes, RenameOf(changes));
      RenameRecordMember(last, RenameOf(changes), r);
      InEither(RenamedKeys(p, c, init), RenameRecord(last, RenameOf(changes)), r);
      if r.KeyRename? { InInitOrLast(names, r.name); }
    }
  }

  lemma Sectioned(p: EntityProjection, c: EntityProjection)
    requires WellNamedProjection(p) && WellNamedProjection(c)
    ensures Classified(Some(p), Some(c)) == SectionsOf(p, c).Listed()
  {
  }

  lemma ListedMembers(s: Sections, r: Record)
    ensures r in s.Listed() <==>
            || r in s.added || r in s.removed || r in s.changed
            || r in s.indexAdded || r in s.indexRemoved || r in s.indexChanged || r in s.renamed
  {
  }

  /** Additions and removals are records of their own kinds. */
  lemma OtherKinds(p: EntityProjection, c: EntityProjection, r: Record)
    requires WellNamedProjection(p) && WellNamedProjection(c)
    requires var s := SectionsOf(p, c); r in s.added || r in s.removed || r in s.indexAdded || r in s.indexRemoved
    ensures r.AttributeAdded? || r.AttributeRemoved? || r.IndexAdded? || r.IndexRemoved?
  {
  }

  predicate CommonAttribute(p: EntityProjection, c: EntityProjection, name: string) {
    name in Names(p.attributes) && name in Names(c.attributes)
  }

  predicate CommonIndex(p: EntityProjection, c: EntityProjection, name: string) {
    name in Names(p.indexes) && name in Names(c.indexes)
  }

  lemma ChangedSections(p: EntityProjection, c: EntityProjection, r: Record)
    requires WellNamedProjection(p) && WellNamedProjection(c)
    ensures r in SectionsOf(p, c).changed <==>
            && r.AttributeChanged? && CommonAttribute(p, c, r.name)
            && r.changes == AttributeChanges(Get(p.attributes, r.name), Get(c.attributes, r.name)) != []
    ensures r in SectionsOf(p, c).indexChanged <==>
            && r.IndexChanged? && CommonIndex(p, c, r.name)
            && r.changes == IndexChanges(Get(p.indexes, r.name), Get(c.indexes, r.name)) != []
            && RenameOf(r.changes).None?
    ensures r in SectionsOf(p, c).renamed <==>
            && r.KeyRename? && CommonIndex(p, c, r.name)
            && RenameOf(IndexChanges(Get(p.indexes, r.name), Get(c.indexes, r.name))) == Some(Rename(r.keyType, r.from, r.to))
  {
    AttributesProper(p.attributes);
    AttributesProper(c.attributes);
    OnlyInFacts(c.attributes, p.attributes);
    OnlyInFacts(c.indexes, p.indexes);
    ChangedAttributeMembers(p.attributes, c.attributes, InBoth(c.attributes, p.attributes), r);
    ChangedIndexMembers(p.indexes, c.indexes, InBoth(c.indexes, p.indexes), r);
    RenamedMembers(p.indexes, c.indexes, InBoth(c.indexes, p.indexes), r);
  }

  predicate IsChange(r: Record) {
    r.AttributeChanged? || r.IndexChanged? || r.KeyRename?
  }

  /** A change is in the list exactly when it is in its section. */
  lemma ChangeRecords(p: EntityProjection, c: EntityProjection, r: Record)
    requires WellNamedProjection(p) && WellNamedProjection(c) && IsChange(r)
    ensures var s := SectionsOf(p, c);
            r in Classified(Some(p), Some(c)) <==> r in s.changed || r in s.indexChanged || r in s.renamed
  {
    var s := SectionsOf(p, c);
    Sectioned(p, c);
    ListedMembers(s, r);
    if r in s.added || r in s.removed || r in s.indexAdded || r in s.indexRemoved { OtherKinds(p, c, r); }
  }

  // ----- The records as a patch ---------------------------------------------------------------------

  /** The changes, applied to the old attribute's values, give the new one's. */
  ghost predicate PatchesAttribute(changes: seq<Change>, was: Attribute, now: Attribute) {
    SameValues(PatchedValues(changes, ATTRIBUTE_CHANGE_FIELDS, AttributeValues(was)), AttributeValues(now))
  }

  ghost predicate PatchesIndex(changes: seq<Change>, was: Index, now: Index) {
    SameValues(PatchedValues(changes, INDEX_CHANGE_FIELDS, IndexValues(was)), IndexValues(now))
  }

  lemma AttributeChangesPatch(was: Attribute, now: Attribute)
    ensures PatchesAttribute(AttributeChanges(was, now), was, now)
  {
    ChangesTakeOldToNew(ATTRIBUTE_CHANGE_FIELDS, AttributeValues(was), AttributeValues(now));
  }

  lemma IndexChangesPatch(was: Index, now: Index)
    ensures PatchesIndex(IndexChanges(was, now), was, now)
  {
    ChangesTakeOldToNew(INDEX_CHANGE_FIELDS, IndexValues(was), IndexValues(now));
  }

  /** What the list says of a common attribute: one changed record that patches it, or nothing, and then the
      two have one canonical form. */
  ghost predicate AttributePatched(list: seq<Record>, name: string, was: Attribute, now: Attribute) {
    && (forall changes :: AttributeChanged(name, changes) in list ==> PatchesAttribute(changes, was, now))
    && ((forall changes :: AttributeChanged(name, changes) !in list) ==> Canonical(AttributeJson(was)) == Canonical(AttributeJson(now)))
  }

  lemma AttributesArePatched(p: EntityProjection, c: EntityProjection, name: string)
    requires WellNamedProjection(p) && WellNamedProjection(c) && CommonAttribute(p, c, name)
    ensures AttributePatched(Classified(Some(p), Some(c)), name, Get(p.attributes, name), Get(c.attributes, name))
  {
    var was, now := Get(p.attributes, name), Get(c.attributes, name);
    var list, all := Classified(Some(p), Some(c)), AttributeChanges(was, now);
    forall changes ensures AttributeChanged(name, changes) in list <==> changes == all != [] {
      ChangeRecords(p, c, AttributeChanged(name, changes));
      ChangedSections(p, c, AttributeChanged(name, changes));
    }
    AttributeChangesPatch(was, now);
    AttributesProper(p.attributes);
    AttributesProper(c.attributes);
    AttributeChangesExact(was, now);
    if all != [] { assert AttributeChanged(name, all) in list; }
  }

  /** The one change of a composite that a rename stands for. */
  function RenamedChange(was: Index, keyType: KeyType, i: nat, to: string): Change
    requires Composite(was, keyType).Some? && i < |Composite(was, keyType).value|
  {
    var composite := Composite(was, keyType).value;
    Change(if keyType.Pk? then "pk.composite" else "sk.composite", Some(Strings(composite)), Some(Strings(composite[i := to])))
  }

  ghost predicate RenamesTo(was: Index, now: Index, keyType: KeyType, from: string, to: string, i: nat) {
    var composite := Composite(was, keyType);
    && composite.Some? && i < |composite.value| && composite.value[i] == from
    && PatchesIndex([RenamedChange(was, keyType, i, to)], was, now)
  }

  ghost predicate Unlisted(list: seq<Record>, name: string) {
    && (forall changes :: IndexChanged(name, changes) !in list)
    && (forall keyType, from, to :: KeyRename(name, keyType, from, to) !in list)
  }

  /** The same of a common index; a rename patches as the change it stands for. */
  ghost predicate IndexPatched(list: seq<Record>, name: string, was: Index, now: Index) {
    && (forall changes :: IndexChanged(name, changes) in list ==> PatchesIndex(changes, was, now))
    && (forall keyType, from, to :: KeyRename(name, keyType, from, to) in list ==>
          exists i :: RenamesTo(was, now, keyType, from, to, i))
    && (Unlisted(list, name) ==> Canonical(IndexJson(was)) == Canonical(IndexJson(now)))
  }

  lemma OnlyChange(was: Index, now: Index, r: Rename, i: nat)
    requires RenameOf(IndexChanges(was, now)) == Some(r)
    requires var w, n := Composite(was, r.keyType), Composite(now, r.keyType);
             w.Some? && n.Some? && i < |w.value| && n.value == w.value[i := r.to]
    ensures IndexChanges(was, now) == [RenamedChange(was, r.keyType, i, r.to)]
  {
    var changes := IndexChanges(was, now);
    var ch := changes[0];
    ChangeMembers(INDEX_CHANGE_FIELDS, IndexValues(was), IndexValues(now), ch);
    var k :| 0 <= k < 14 && ch == Change(INDEX_CHANGE_FIELDS[k], IndexValues(was)[k], IndexValues(now)[k]);
    CompositeField(was, k);
    CompositeField(now, k);
    assert changes == [ch];
  }

  lemma RenameIsItsChange(was: Index, now: Index, r: Rename)
    requires RenameOf(IndexChanges(was, now)) == Some(r)
    ensures exists i :: RenamesTo(was, now, r.keyType, r.from, r.to, i)
  {
    RenameIsOneName(was, now);
    IndexChangesPatch(was, now);
    var w, n := Composite(was, r.keyType), Composite(now, r.keyType);
    var i: nat :| i < |w.value| && w.value[i] == r.from && n.value == w.value[i := r.to];
    OnlyChange(was, now, r, i);
    assert RenamesTo(was, now, r.keyType, r.from, r.to, i);
  }

  lemma IndexListed(p: EntityProjection, c: EntityProjection, name: string)
    requires WellNamedProjection(p) && WellNamedProjection(c) && CommonIndex(p, c, name)
    ensures var list, all := Classified(Some(p), Some(c)), IndexChanges(Get(p.indexes, name), Get(c.indexes, name));
            && (forall changes :: IndexChanged(name, changes) in list <==> changes == all != [] && RenameOf(all).None?)
            && (forall keyType, from, to :: KeyRename(name, keyType, from, to) in list <==> RenameOf(all) == Some(Rename(keyType, from, to)))
  {
    var list, all := Classified(Some(p), Some(c)), IndexChanges(Get(p.indexes, name), Get(c.indexes, name));
    forall changes ensures IndexChanged(name, changes) in list <==> changes == all != [] && RenameOf(all).None? {
      ChangeRecords(p, c, IndexChanged(name, changes));
      ChangedSections(p, c, IndexChanged(name, changes));
    }
    forall keyType, from, to ensures KeyRename(name, keyType, from, to) in list <==> RenameOf(all) == Some(Rename(keyType, from, to)) {
      ChangeRecords(p, c, KeyRename(name, keyType, from, to));
      ChangedSections(p, c, KeyRename(name, keyType, from, to));
    }
  }

  lemma IndexesArePatched(p: EntityProjection, c: EntityProjection, name: string)
    requires WellNamedProjection(p) && WellNamedProjection(c) && CommonIndex(p, c, name)
    ensures IndexPatched(Classified(Some(p), Some(c)), name, Get(p.indexes, name), Get(c.indexes, name))
  {
    var was, now := Get(p.indexes, name), Get(c.indexes, name);
    var list, all := Classified(Some(p), Some(c)), IndexChanges(was, now);
    IndexListed(p, c, name);
    IndexChangesPatch(was, now);
    IndexChangesExact(was, now);
    if RenameOf(all).Some? {
      var r := RenameOf(all).value;
      RenameIsItsChange(was, now, r);
      assert KeyRename(name, r.keyType, r.from, r.to) in list;
    } else if all != [] {
      assert IndexChanged(name, all) in list;
    }
  }

  /** Over the whole list: what it says of each common name patches that name, and it speaks of changes of
      common names only. */
  lemma ListIsPatch(p: EntityProjection, c: EntityProjection)
    requires WellNamedProjection(p) && WellNamedProjection(c)
    ensures var list := Classified(Some(p), Some(c));
            && (forall n :: CommonAttribute(p, c, n) ==> AttributePatched(list, n, Get(p.attributes, n), Get(c.attributes, n)))
            && (forall n :: CommonIndex(p, c, n) ==> IndexPatched(list, n, Get(p.indexes, n), Get(c.indexes, n)))
            && (forall r :: r in list && IsChange(r) ==>
                  if r.AttributeChanged? then CommonAttribute(p, c, r.name) else CommonIndex(p, c, r.name))
  {
    var list := Classified(Some(p), Some(c));
    forall n | CommonAttribute(p, c, n) ensures AttributePatched(list, n, Get(p.attributes, n), Get(c.attributes, n)) {
      AttributesArePatched(p, c, n);
    }
    forall n | CommonIndex(p, c, n) ensures IndexPatched(list, n, Get(p.indexes, n), Get(c.indexes, n)) {
      IndexesArePatched(p, c, n);
    }
    forall r | r in list && IsChange(r) ensures if r.AttributeChanged? then CommonAttribute(p, c, r.name) else CommonIndex(p, c, r.name) {
      ChangeRecords(p, c, r);
      ChangedSections(p, c, r);
    }
  }
}
