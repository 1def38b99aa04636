/** Which records the classifier lists, field by field, and in which order: together they determine the
    list. */
module DriftListed {
  import opened Wrappers
  import opened NamedLists
  import opened CanonicalJson
  import opened Projection
  import opened Drift
  import opened DriftLaws
  import opened DriftPatches

  // ----- What belongs into the list -----------------------------------------------------------------

  predicate InAttributes(p: Option<EntityProjection>, name: string) {
    p.Some? && name in Names(p.value.attributes)
  }

  predicate InIndexes(p: Option<EntityProjection>, name: string) {
    p.Some? && name in Names(p.value.indexes)
  }

  /** The record speaks the truth about the two projections, and the list is to hold it. A required
      attribute that is new is to be warned about. */
  predicate Belongs(prev: Option<EntityProjection>, curr: Option<EntityProjection>, r: Record) {
    match r
    case EntityRemoved(entity, service) =>
      prev.Some? && curr.None? && entity == prev.value.entity && service == prev.value.service
    case AttributeAdded(n, kind, required, warnNeedsDefault) =>
      && InAttributes(curr, n) && !InAttributes(prev, n)
      && (var a := Get(curr.value.attributes, n);
          kind == OneOrManyJson(a.kind) && (required <==> a.required) && (warnNeedsDefault <==> a.required))
    case AttributeRemoved(n, kind) =>
      && curr.Some? && InAttributes(prev, n) && !InAttributes(curr, n)
      && kind == OneOrManyJson(Get(prev.value.attributes, n).kind)
    case AttributeChanged(n, changes) =>
      && InAttributes(prev, n) && InAttributes(curr, n)
      && changes == AttributeChanges(Get(prev.value.attributes, n), Get(curr.value.attributes, n)) != []
    case IndexAdded(n, pkComposite, skComposite) =>
      && InIndexes(curr, n) && !InIndexes(prev, n)
      && (var i := Get(curr.value.indexes, n);
          && pkComposite == i.pk.composite
          && (skComposite.Some? <==> i.sk.Some?)
          && (i.sk.Some? ==> skComposite.value == i.sk.value.composite))
    case IndexRemoved(n) => curr.Some? && InIndexes(prev, n) && !InIndexes(curr, n)
    case IndexChanged(n, changes) =>
      && InIndexes(prev, n) && InIndexes(curr, n)
      && changes == IndexChanges(Get(prev.value.indexes, n), Get(curr.value.indexes, n)) != []
      && RenameOf(changes).None?
    case KeyRename(n, keyType, from, to) =>
      && InIndexes(prev, n) && InIndexes(curr, n)
      && RenameOf(IndexChanges(Get(prev.value.indexes, n), Get(curr.value.indexes, n))) == Some(Rename(keyType, from, to))
  }

  lemma AddedMembers(c: Named<Attribute>, names: seq<string>, r: Record)
    requires forall n :: n in names ==> n in Names(c)
    ensures r in AddedAttributes(c, names) <==> r.AttributeAdded? && r.name in names && r == AddedAttribute(r.name, Get(c, r.name))
  {
    if r.AttributeAdded? && r.name in names {
      var i :| 0 <= i < |names| && names[i] == r.name;
      assert AddedAttributes(c, names)[i] == AddedAttribute(r.name, Get(c, r.name));
    }
  }

  lemma RemovedMembers(p: Named<Attribute>, names: seq<string>, r: Record)
    requires forall n :: n in names ==> n in Names(p)
    ensures r in RemovedAttributes(p, names) <==>
            r.AttributeRemoved? && r.name in names && r.kind == OneOrManyJson(Get(p, r.name).kind)
  {
    if r.AttributeRemoved? && r.name in names {
      var i :| 0 <= i < |names| && names[i] == r.name;
      assert RemovedAttributes(p, names)[i] == AttributeRemoved(r.name, OneOrManyJson(Get(p, r.name).kind));
    }
  }

  lemma AddedIndexMembers(c: Named<Index>, names: seq<string>, r: Record)
    requires forall n :: n in names ==> n in Names(c)
    ensures r in AddedIndexes(c, names) <==> r.IndexAdded? && r.name in names && r == AddedIndex(r.name, Get(c, r.name))
  {
    if r.IndexAdded? && r.name in names {
      var i :| 0 <= i < |names| && names[i] == r.name;
      assert AddedIndexes(c, names)[i] == AddedIndex(r.name, Get(c, r.name));
    }
  }

  lemma RemovedIndexMembers(names: seq<string>, r: Record)
    ensures r in RemovedIndexes(names) <==> r.IndexRemoved? && r.name in names
  {
    if r.IndexRemoved? && r.name in names {
      var i :| 0 <= i < |names| && names[i] == r.name;
      assert RemovedIndexes(names)[i] == IndexRemoved(r.name);
    }
  }

  lemma AttributeMembers(p: EntityProjection, c: EntityProjection, r: Record)
    requires WellNamedProjection(p) && WellNamedProjection(c)
    ensures var s := SectionsOf(p, c);
            (r in s.added || r in s.removed || r in s.changed) <==>
            Belongs(Some(p), Some(c), r) && (r.AttributeAdded? || r.AttributeRemoved? || r.AttributeChanged?)
  {
    AttributesProper(p.attributes);
    AttributesProper(c.attributes);
    OnlyInFacts(c.attributes, p.attributes);
    OnlyInFacts(p.attributes, c.attributes);
    AddedMembers(c.attributes, OnlyIn(c.attributes, p.attributes), r);
    RemovedMembers(p.attributes, OnlyIn(p.attributes, c.attributes), r);
    ChangedSections(p, c, r);
  }

  lemma IndexMembers(p: EntityProjection, c: EntityProjection, r: Record)
    requires WellNamedProjection(p) && WellNamedProjection(c)
    ensures var s := SectionsOf(p, c);
            (r in s.indexAdded || r in s.indexRemoved || r in s.indexChanged || r in s.renamed) <==>
            Belongs(Some(p), Some(c), r) && (r.IndexAdded? || r.IndexRemoved? || r.IndexChanged? || r.KeyRename?)
  {
    AttributesProper(p.attributes);
    AttributesProper(c.attributes);
    OnlyInFacts(c.indexes, p.indexes);
    OnlyInFacts(p.indexes, c.indexes);
    AddedIndexMembers(c.indexes, OnlyIn(c.indexes, p.indexes), r);
    RemovedIndexMembers(OnlyIn(p.indexes, c.indexes), r);
    ChangedSections(p, c, r);
  }

  lemma ListedOfBoth(p: EntityProjection, c: EntityProjection, r: Record)
    requires WellNamedProjection(p) && WellNamedProjection(c)
    ensures r in Classified(Some(p), Some(c)) <==> Belongs(Some(p), Some(c), r)
  {
    var s := SectionsOf(p, c);
    Sectioned(p, c);
    ListedMembers(s, r);
    AttributeMembers(p, c, r);
    IndexMembers(p, c, r);
    NoneRemoved(p, c, r);
  }

  lemma NoneRemoved(p: EntityProjection, c: EntityProjection, r: Record)
    ensures r.EntityRemoved? ==> !Belongs(Some(p), Some(c), r)
  {
  }

  lemma BelongsToNew(entity: string, service: string, c: EntityProjection, r: Record)
    ensures Belongs(None, Some(c), r) <==> Belongs(Some(EntityProjection(entity, service, Nil, Nil)), Some(c), r)
  {
  }

  /** The list holds exactly the records that belong into it. */
  lemma ListedExactly(prev: Option<EntityProjection>, curr: Option<EntityProjection>, r: Record)
    requires prev.Some? ==> WellNamedProjection(prev.value)
    requires curr.Some? ==> WellNamedProjection(curr.value)
    ensures r in Classified(prev, curr) <==> Belongs(prev, curr, r)
  {
    if prev.Some? && curr.Some? {
      ListedOfBoth(prev.value, curr.value, r);
    } else if curr.Some? {
      NullIsEmpty("", "", curr.value);
      ListedOfBoth(EntityProjection("", "", Nil, Nil), curr.value, r);
      BelongsToNew("", "", curr.value, r);
    }
  }

  // ----- The order ------------------------------------------------------------------------------------

  function Rank(r: Record): nat {
    match r
    case EntityRemoved(_, _) => 0
    case AttributeAdded(_, _, _, _) => 1
    case AttributeRemoved(_, _) => 2
    case AttributeChanged(_, _) => 3
    case IndexAdded(_, _, _) => 4
    case IndexRemoved(_) => 5
    case IndexChanged(_, _) => 6
    case KeyRename(_, _, _, _) => 7
  }

  function NameOf(r: Record): string {
    if r.EntityRemoved? then r.entity else r.name
  }

  /** By kind, then by name. */
  predicate Precedes(a: Record, b: Record) {
    Rank(a) < Rank(b) || (Rank(a) == Rank(b) && Less(NameOf(a), NameOf(b)))
  }

  ghost predicate Ordered(list: seq<Record>) {
    forall i, j :: 0 <= i < j < |list| ==> Precedes(list[i], list[j])
  }

  /** An ordered list of records of the kinds from `low` to `high`. */
  ghost predicate OrderedWithin(list: seq<Record>, low: nat, high: nat) {
    Ordered(list) && forall r :: r in list ==> low <= Rank(r) <= high
  }

  lemma Behind(a: seq<Record>, b: seq<Record>, low: nat, mid: nat, high: nat)
    requires OrderedWithin(a, low, mid) && OrderedWithin(b, mid + 1, high) && low <= mid <= high
    ensures OrderedWithin(a + b, low, high)
  {
  }

  /** One record a name, or none, of one kind. */
  ghost predicate OfNames(list: seq<Record>, names: seq<string>, rank: nat) {
    OrderedWithin(list, rank, rank) && forall r :: r in list ==> NameOf(r) in names
  }

  lemma OneMoreRecord(list: seq<Record>, names: seq<string>, rank: nat, more: seq<Record>)
    requires names != [] && SortedNames(names) && OfNames(list, names[..|names| - 1], rank) && |more| <= 1
    requires more != [] ==> Rank(more[0]) == rank && NameOf(more[0]) == names[|names| - 1]
    ensures OfNames(list + more, names, rank)
  {
    if more != [] {
      forall i | 0 <= i < |list| ensures Precedes(list[i], more[0]) {
        assert NameOf(list[i]) in names[..|names| - 1];
      }
    }
  }

  lemma {:induction false} ChangedAttributesInOrder(p: Named<Attribute>, c: Named<Attribute>, names: seq<string>)
    requires SortedNames(names) && forall n :: n in names ==> n in Names(p) && n in Names(c)
    ensures OfNames(ChangedAttributes(p, c, names), names, 3)
  {
    if names != [] {
      var init, last := names[..|names| - 1], names[|names| - 1];
      ChangedAttributesInOrder(p, c, init);
      var changes := AttributeChanges(Get(p, last), Get(c, last));
      OneMoreRecord(ChangedAttributes(p, c, init), names, 3, if changes == [] then [] else [AttributeChanged(last, changes)]);
    }
  }

  lemma {:induction false} ChangedIndexesInOrder(p: Named<Index>, c: Named<Index>, names: seq<string>)
    requires SortedNames(names) && forall n :: n in names ==> n in Names(p) && n in Names(c)
    ensures OfNames(ChangedIndexes(p, c, names), names, 6)
  {
    if names != [] {
      var init, last := names[..|names| - 1], names[|names| - 1];
      ChangedIndexesInOrder(p, c, init);
      var changes := IndexChanges(Get(p, last), Get(c, last));
      LastIndexRecords(p, c, names, changes, RenameOf(changes));
      OneChange(last, changes, RenameOf(changes).Some?);
      OneMoreRecord(ChangedIndexes(p, c, init), names, 6, ChangeRecord(last, changes, RenameOf(changes).Some?));
    }
  }

  lemma OneChange(n: string, changes: seq<Change>, renamed: bool)
    ensures var more := ChangeRecord(n, changes, renamed);
            |more| <= 1 && (more != [] ==> Rank(more[0]) == 6 && NameOf(more[0]) == n)
  {
  }

  lemma {:induction false} RenamedInOrder(p: Named<Index>, c: Named<Index>, names: seq<string>)
    requires SortedNames(names) && forall n :: n in names ==> n in Names(p) && n in Names(c)
    ensures OfNames(RenamedKeys(p, c, names), names, 7)
  {
    if names != [] {
      var init, last := names[..|names| - 1], names[|names| - 1];
      RenamedInOrder(p, c, init);
      var changes := IndexChanges(Get(p, last), Get(c, last));
      LastIndexRecords(p, c, names, changes, RenameOf(changes));
      OneRename(last, RenameOf(changes));
      OneMoreRecord(RenamedKeys(p, c, init), names, 7, RenameRecord(last, RenameOf(changes)));
    }
  }

  lemma OneRename(n: string, rename: Option<Rename>)
    ensures var more := RenameRecord(n, rename);
            |more| <= 1 && (more != [] ==> Rank(more[0]) == 7 && NameOf(more[0]) == n)
  {
  }

  lemma AddedInOrder(c: Named<Attribute>, names: seq<string>)
    requires SortedNames(names) && forall n :: n in names ==> n in Names(c)
    ensures OrderedWithin(AddedAttributes(c, names), 1, 1) && OrderedWithin(RemovedAttributes(c, names), 2, 2)
  {
  }

  lemma AddedIndexesInOrder(c: Named<Index>, names: seq<string>)
    requires SortedNames(names) && forall n :: n in names ==> n in Names(c)
    ensures OrderedWithin(AddedIndexes(c, names), 4, 4) && OrderedWithin(RemovedIndexes(names), 5, 5)
  {
  }

  lemma SectionsInOrder(p: EntityProjection, c: EntityProjection)
    requires WellNamedProjection(p) && WellNamedProjection(c)
    ensures var s := SectionsOf(p, c);
            && OrderedWithin(s.added, 1, 1) && OrderedWithin(s.removed, 2, 2) && OrderedWithin(s.changed, 3, 3)
            && OrderedWithin(s.indexAdded, 4, 4) && OrderedWithin(s.indexRemoved, 5, 5)
            && OrderedWithin(s.indexChanged, 6, 6) && OrderedWithin(s.renamed, 7, 7)
  {
    AttributesProper(p.attributes);
    AttributesProper(c.attributes);
    OnlyInFacts(c.attributes, p.attributes);
    OnlyInFacts(p.attributes, c.attributes);
    OnlyInFacts(c.indexes, p.indexes);
    OnlyInFacts(p.indexes, c.indexes);
    AddedInOrder(c.attributes, OnlyIn(c.attributes, p.attributes));
    AddedInOrder(p.attributes, OnlyIn(p.attributes, c.attributes));
    ChangedAttributesInOrder(p.attributes, c.attributes, InBoth(c.attributes, p.attributes));
    AddedIndexesInOrder(c.indexes, OnlyIn(c.indexes, p.indexes));
    AddedIndexesInOrder(p.indexes, OnlyIn(p.indexes, c.indexes));
    ChangedIndexesInOrder(p.indexes, c.indexes, InBoth(c.indexes, p.indexes));
    RenamedInOrder(p.indexes, c.indexes, InBoth(c.indexes, p.indexes));
  }

  lemma InOrder(prev: Option<EntityProjection>, curr: Option<EntityProjection>)
    requires prev.Some? ==> WellNamedProjection(prev.value)
    requires curr.Some? ==> WellNamedProjection(curr.value)
    ensures Ordered(Classified(prev, curr))
  {
    if curr.Some? {
      var c := curr.value;
      var p := if prev.Some? then prev.value else EntityProjection("", "", Nil, Nil);
      NullIsEmpty("", "", c);
      Sectioned(p, c);
      SectionsInOrder(p, c);
      var s := SectionsOf(p, c);
      Behind(s.added, s.removed, 1, 1, 2);
      Behind(s.added + s.removed, s.changed, 1, 2, 3);
      Behind(s.indexAdded, s.indexRemoved, 4, 4, 5);
      Behind(s.indexAdded + s.indexRemoved, s.indexChanged, 4, 5, 6);
      Behind(s.indexAdded + s.indexRemoved + s.indexChanged, s.renamed, 4, 6, 7);
      Behind(s.added + s.removed + s.changed, s.indexAdded + s.indexRemoved + s.indexChanged + s.renamed, 1, 3, 7);
    }
  }

  // ----- Both together determine the list -----------------------------------------------------------

  lemma NotBefore(a: Record, b: Record)
    requires Precedes(a, b)
    ensures !Precedes(b, a) && a != b
  {
    LessTotal(NameOf(a), NameOf(b));
  }

  lemma TailMembers(a: seq<Record>, r: Record)
    requires a != [] && Ordered(a)
    ensures r in a[1..] <==> r in a && r != a[0]
  {
    if r in a && r != a[0] {
      var i :| 0 <= i < |a| && a[i] == r;
      assert a[1..][i - 1] == r;
    }
    if r in a[1..] {
      var i :| 0 <= i < |a| - 1 && a[1..][i] == r;
      NotBefore(a[0], a[i + 1]);
    }
  }

  lemma {:induction false} OrderedUnique(a: seq<Record>, b: seq<Record>)
    requires Ordered(a) && Ordered(b) && forall r :: r in a <==> r in b
    ensures a == b
  {
    if a != [] { assert a[0] in b; }
    if b != [] { assert b[0] in a; }
    if a != [] {
      if a[0] != b[0] {
        NotBefore(a[0], b[0]);
      }
      forall r ensures r in a[1..] <==> r in b[1..] {
        TailMembers(a, r);
        TailMembers(b, r);
      }
      OrderedUnique(a[1..], b[1..]);
    }
  }

  /** The classifier's list is the one list, ordered by kind and name, of the records that belong into it. */
  lemma ListExact(prev: Option<EntityProjection>, curr: Option<EntityProjection>, list: seq<Record>)
    requires prev.Some? ==> WellNamedProjection(prev.value)
    requires curr.Some? ==> WellNamedProjection(curr.value)
    ensures list == Classified(prev, curr) <==> Ordered(list) && forall r :: r in list <==> Belongs(prev, curr, r)
  {
    InOrder(prev, curr);
    forall r ensures r in Classified(prev, curr) <==> Belongs(prev, curr, r) { ListedExactly(prev, curr, r); }
    if Ordered(list) && forall r :: r in list <==> Belongs(prev, curr, r) {
      OrderedUnique(list, Classified(prev, curr));
    }
  }
}
