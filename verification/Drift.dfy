/** The drift classifier: what changed between two projections of an entity, as an ordered list. */
module Drift {
  import opened Wrappers
  import opened NamedLists
  import opened CanonicalJson
  import opened Projection

  datatype Change = Change(field: string, from: Option<Json>, to: Option<Json>)

  datatype KeyType = Pk | Sk

  datatype Record =
    | EntityRemoved(entity: string, service: string)
    | AttributeAdded(name: string, kind: Json, required: bool, warnNeedsDefault: bool)
    | AttributeRemoved(name: string, kind: Json)
    | AttributeChanged(name: string, changes: seq<Change>)
    | IndexAdded(name: string, pkComposite: seq<string>, skComposite: Option<seq<string>>)
    | IndexRemoved(name: string)
    | IndexChanged(name: string, changes: seq<Change>)
    | KeyRename(name: string, keyType: KeyType, from: string, to: string)

  // ----- Field by field ------------------------------------------------------------------------------

  const ATTRIBUTE_CHANGE_FIELDS: seq<string> :=
    ["enumArray", "field", "hidden", "items", "padding", "properties", "readOnly", "required", "template", "type"]

  const INDEX_CHANGE_FIELDS: seq<string> :=
    ["collection", "pk.casing", "pk.composite", "pk.field", "pk.postfix", "pk.prefix", "pk.template",
     "sk.casing", "sk.composite", "sk.field", "sk.postfix", "sk.prefix", "sk.template", "type"]

  function ReadAttributeField(a: Attribute, field: string): Option<Json> {
    Find(AttributeJson(a).fields, field)
  }

  /** `readIndexField`: a dotted field looks into the key, and an absent sort key has none. */
  function ReadIndexField(i: Index, field: string): Option<Json> {
    if field == "type" || field == "collection" then Find(IndexJson(i).fields, field)
    else if "pk." <= field then Find(KeyJson(i.pk).fields, field[3..])
    else if "sk." <= field then if i.sk.None? then None else Find(KeyJson(i.sk.value).fields, field[3..])
    else None
  }

  function AttributeValues(a: Attribute): (vs: seq<Option<Json>>)
    ensures |vs| == |ATTRIBUTE_CHANGE_FIELDS|
  {
    seq(|ATTRIBUTE_CHANGE_FIELDS|, k requires 0 <= k < |ATTRIBUTE_CHANGE_FIELDS| => ReadAttributeField(a, ATTRIBUTE_CHANGE_FIELDS[k]))
  }

  function IndexValues(i: Index): (vs: seq<Option<Json>>)
    ensures |vs| == |INDEX_CHANGE_FIELDS|
  {
    seq(|INDEX_CHANGE_FIELDS|, k requires 0 <= k < |INDEX_CHANGE_FIELDS| => ReadIndexField(i, INDEX_CHANGE_FIELDS[k]))
  }

  /** The fields whose values are not deeply equal, with both values. */
  function ChangesOf(fields: seq<string>, was: seq<Option<Json>>, now: seq<Option<Json>>): seq<Change>
    requires |fields| == |was| == |now|
  {
    if fields == [] then []
    else
      var n := |fields| - 1;
      ChangesOf(fields[..n], was[..n], now[..n]) + if DeepEqual(was[n], now[n]) then [] else [Change(fields[n], was[n], now[n])]
  }

  method CompareAttribute(prev: Attribute, curr: Attribute) returns (out: seq<Change>)
    ensures out == ChangesOf(ATTRIBUTE_CHANGE_FIELDS, AttributeValues(prev), AttributeValues(curr))
  {
    out := [];
    ghost var was, now := AttributeValues(prev), AttributeValues(curr);
    for k := 0 to |ATTRIBUTE_CHANGE_FIELDS|
      invariant out == ChangesOf(ATTRIBUTE_CHANGE_FIELDS[..k], was[..k], now[..k])
    {
      var field := ATTRIBUTE_CHANGE_FIELDS[k];
      var pVal, cVal := ReadAttributeField(prev, field), ReadAttributeField(curr, field);
      NextChange(ATTRIBUTE_CHANGE_FIELDS, was, now, k);
      if !DeepEqual(pVal, cVal) {
        out := out + [Change(field, pVal, cVal)];
      }
    }
    assert ATTRIBUTE_CHANGE_FIELDS[..|ATTRIBUTE_CHANGE_FIELDS|] == ATTRIBUTE_CHANGE_FIELDS && was[..|was|] == was && now[..|now|] == now;
  }

  method CompareIndex(prev: Index, curr: Index) returns (out: seq<Change>)
    ensures out == ChangesOf(INDEX_CHANGE_FIELDS, IndexValues(prev), IndexValues(curr))
  {
    out := [];
    ghost var was, now := IndexValues(prev), IndexValues(curr);
    for k := 0 to |INDEX_CHANGE_FIELDS|
      invariant out == ChangesOf(INDEX_CHANGE_FIELDS[..k], was[..k], now[..k])
    {
      var field := INDEX_CHANGE_FIELDS[k];
      var pVal, cVal := ReadIndexField(prev, field), ReadIndexField(curr, field);
      NextChange(INDEX_CHANGE_FIELDS, was, now, k);
      if pVal.Some? || cVal.Some? {
        if !DeepEqual(pVal, cVal) {
          out := out + [Change(field, pVal, cVal)];
        }
      }
    }
    assert INDEX_CHANGE_FIELDS[..|INDEX_CHANGE_FIELDS|] == INDEX_CHANGE_FIELDS && was[..|was|] == was && now[..|now|] == now;
  }

  lemma NextChange(fields: seq<string>, was: seq<Option<Json>>, now: seq<Option<Json>>, k: nat)
    requires k < |fields| == |was| == |now|
    ensures ChangesOf(fields[..k + 1], was[..k + 1], now[..k + 1])
            == ChangesOf(fields[..k], was[..k], now[..k]) + if DeepEqual(was[k], now[k]) then [] else [Change(fields[k], was[k], now[k])]
  {
    assert fields[..k + 1][..k] == fields[..k] && was[..k + 1][..k] == was[..k] && now[..k + 1][..k] == now[..k];
  }

  // ----- Key rename --------------------------------------------------------------------------------

  datatype Rename = Rename(keyType: KeyType, from: string, to: string)

  /** The positions at which two lists of one length differ. */
  function DiffersAt(a: seq<Json>, b: seq<Json>): seq<nat>
    requires |a| == |b|
  {
    if a == [] then []
    else
      var n := |a| - 1;
      DiffersAt(a[..n], b[..n]) + if a[n] == b[n] then [] else [n]
  }

  lemma {:induction false} DiffersAtFacts(a: seq<Json>, b: seq<Json>)
    requires |a| == |b|
    ensures forall i :: i in DiffersAt(a, b) <==> 0 <= i < |a| && a[i] != b[i]
  {
    if a != [] { DiffersAtFacts(a[..|a| - 1], b[..|a| - 1]); }
  }

  /** One change, of a composite list, of one name in it. */
  function RenameOf(changes: seq<Change>): Option<Rename> {
    if |changes| != 1 then None
    else
      var ch := changes[0];
      if ch.field != "pk.composite" && ch.field != "sk.composite" then None
      else if ch.from.None? || ch.to.None? || !ch.from.value.Arr? || !ch.to.value.Arr? then None
      else
        var from, to := ch.from.value.items, ch.to.value.items;
        if |from| != |to| then None
        else
          var at := DiffersAt(from, to);
          if |at| != 1 then None
          else
            DiffersAtFacts(from, to);
            assert at[0] in at;
            if !from[at[0]].Str? || !to[at[0]].Str? then None
            else Some(Rename(if ch.field == "pk.composite" then Pk else Sk, from[at[0]].text, to[at[0]].text))
  }

  method FindKeyRename(changes: seq<Change>) returns (r: Option<Rename>)
    ensures r == RenameOf(changes)
  {
    if |changes| != 1 { return None; }
    var change := changes[0];
    if change.field != "pk.composite" && change.field != "sk.composite" { return None; }
    if change.from.None? || change.to.None? || !change.from.value.Arr? || !change.to.value.Arr? { return None; }
    var from, to := change.from.value.items, change.to.value.items;
    if |from| != |to| || |from| == 0 { return None; }
    var diffIndex := OnlyDifference(from, to);
    if diffIndex == -1 { return None; }
    var fromVal, toVal := from[diffIndex], to[diffIndex];
    if !fromVal.Str? || !toVal.Str? { return None; }
    return Some(Rename(if change.field == "pk.composite" then Pk else Sk, fromVal.text, toVal.text));
  }

  /** The loop of `findKeyRename`: the one position at which the lists differ, or -1. */
  method OnlyDifference(from: seq<Json>, to: seq<Json>) returns (diffIndex: int)
    requires |from| == |to|
    ensures if |DiffersAt(from, to)| == 1 then 0 <= diffIndex < |from| && DiffersAt(from, to) == [diffIndex] else diffIndex == -1
  {
    diffIndex := -1;
    for i := 0 to |from|
      invariant -1 <= diffIndex < i
      invariant DiffersAt(from[..i], to[..i]) == if diffIndex == -1 then [] else [diffIndex]
    {
      assert from[..i + 1][..i] == from[..i] && to[..i + 1][..i] == to[..i];
      if from[i] != to[i] {
        if diffIndex != -1 {
          MoreDifferences(from, to, i + 1);
          return -1;
        }
        diffIndex := i;
      }
    }
    assert from[..|from|] == from && to[..|to|] == to;
  }

  lemma {:induction false} MoreDifferences(a: seq<Json>, b: seq<Json>, i: nat)
    requires i <= |a| == |b|
    ensures |DiffersAt(a, b)| >= |DiffersAt(a[..i], b[..i])|
    decreases |a|
  {
    if i == |a| {
      assert a[..i] == a && b[..i] == b;
    } else {
      var n := |a| - 1;
      MoreDifferences(a[..n], b[..n], i);
      assert a[..n][..i] == a[..i] && b[..n][..i] == b[..i];
    }
  }

  // ----- Names added, removed, common ---------------------------------------------------------------

  function Within(keys: seq<string>, others: set<string>, inside: bool): seq<string> {
    if keys == [] then []
    else
      var n := |keys| - 1;
      Within(keys[..n], others, inside) + if (keys[n] in others) == inside then [keys[n]] else []
  }

  /** The names of `l` that `others` has not, sorted. */
  function OnlyIn<T, U>(l: Named<T>, others: Named<U>): seq<string> {
    SortNames(Within(Keys(l), Names(others), false))
  }

  /** The names both have, sorted; listed from the first. */
  function InBoth<T, U>(l: Named<T>, others: Named<U>): seq<string> {
    SortNames(Within(Keys(l), Names(others), true))
  }

  method Partition<T, U>(prev: Named<T>, curr: Named<U>) returns (added: seq<string>, removed: seq<string>, common: seq<string>)
    ensures added == OnlyIn(curr, prev) && removed == OnlyIn(prev, curr) && common == InBoth(curr, prev)
  {
    var prevKeys, currKeys := Keys(prev), Keys(curr);
    added, removed, common := [], [], [];
    for i := 0 to |currKeys|
      invariant common == Within(currKeys[..i], Names(prev), true) && added == Within(currKeys[..i], Names(prev), false)
    {
      assert currKeys[..i + 1][..i] == currKeys[..i];
      if currKeys[i] in Names(prev) {
        common := common + [currKeys[i]];
      } else {
        added := added + [currKeys[i]];
      }
    }
    for i := 0 to |prevKeys|
      invariant removed == Within(prevKeys[..i], Names(curr), false)
    {
      assert prevKeys[..i + 1][..i] == prevKeys[..i];
      if prevKeys[i] !in Names(curr) {
        removed := removed + [prevKeys[i]];
      }
    }
    assert currKeys[..|currKeys|] == currKeys && prevKeys[..|prevKeys|] == prevKeys;
    added, removed, common := SortNames(added), SortNames(removed), SortNames(common);
  }

  lemma {:induction false} WithinFacts(keys: seq<string>, others: set<string>, inside: bool)
    requires forall i, j :: 0 <= i < j < |keys| ==> keys[i] != keys[j]
    ensures forall n :: n in Within(keys, others, inside) <==> n in keys && (n in others) == inside
    ensures forall i, j :: 0 <= i < j < |Within(keys, others, inside)| ==> Within(keys, others, inside)[i] != Within(keys, others, inside)[j]
  {
    if keys != [] {
      var n := |keys| - 1;
      WithinFacts(keys[..n], others, inside);
      assert forall k :: k in keys <==> k in keys[..n] || k == keys[n];
    }
  }

  lemma OnlyInFacts<T, U>(l: Named<T>, others: Named<U>)
    requires Distinct(l)
    ensures SortedNames(OnlyIn(l, others)) && forall n :: n in OnlyIn(l, others) <==> n in Names(l) && n !in Names(others)
    ensures SortedNames(InBoth(l, others)) && forall n :: n in InBoth(l, others) <==> n in Names(l) && n in Names(others)
  {
    DistinctKeys(l);
    KeysAreNames(l);
    WithinFacts(Keys(l), Names(others), false);
    WithinFacts(Keys(l), Names(others), true);
    SortNamesFacts(Within(Keys(l), Names(others), false));
    SortNamesFacts(Within(Keys(l), Names(others), true));
  }

  lemma SameCommon<T, U>(l: Named<T>, others: Named<U>)
    requires Distinct(l) && Distinct(others)
    ensures InBoth(l, others) == InBoth(others, l)
  {
    OnlyInFacts(l, others);
    OnlyInFacts(others, l);
    SortedNamesUnique(InBoth(l, others), InBoth(others, l));
  }

  // ----- The seven sections of the list --------------------------------------------------------------

  function AddedAttribute(name: string, a: Attribute): Record {
    AttributeAdded(name, OneOrManyJson(a.kind), a.required, a.required)
  }

  function AddedIndex(name: string, i: Index): Record {
    IndexAdded(name, i.pk.composite, if i.sk.Some? then Some(i.sk.value.composite) else None)
  }

  function AddedAttributes(c: Named<Attribute>, names: seq<string>): seq<Record>
    requires forall n :: n in names ==> n in Names(c)
  {
    seq(|names|, i requires 0 <= i < |names| => AddedAttribute(names[i], Get(c, names[i])))
  }

  function RemovedAttributes(p: Named<Attribute>, names: seq<string>): seq<Record>
    requires forall n :: n in names ==> n in Names(p)
  {
    seq(|names|, i requires 0 <= i < |names| => AttributeRemoved(names[i], OneOrManyJson(Get(p, names[i]).kind)))
  }

  function AttributeChanges(p: Attribute, c: Attribute): seq<Change> {
    ChangesOf(ATTRIBUTE_CHANGE_FIELDS, AttributeValues(p), AttributeValues(c))
  }

  function IndexChanges(p: Index, c: Index): seq<Change> {
    ChangesOf(INDEX_CHANGE_FIELDS, IndexValues(p), IndexValues(c))
  }

  function ChangedAttributes(p: Named<Attribute>, c: Named<Attribute>, names: seq<string>): seq<Record>
    requires forall n :: n in names ==> n in Names(p) && n in Names(c)
  {
    if names == [] then []
    else
      var n := names[|names| - 1];
      var changes := AttributeChanges(Get(p, n), Get(c, n));
      ChangedAttributes(p, c, names[..|names| - 1]) + if changes == [] then [] else [AttributeChanged(n, changes)]
  }

  function AddedIndexes(c: Named<Index>, names: seq<string>): seq<Record>
    requires forall n :: n in names ==> n in Names(c)
  {
    seq(|names|, i requires 0 <= i < |names| => AddedIndex(names[i], Get(c, names[i])))
  }

  function RemovedIndexes(names: seq<string>): seq<Record> {
    seq(|names|, i requires 0 <= i < |names| => IndexRemoved(names[i]))
  }

  /** A common index that changed shows up as changed or, when the change is a rename, as renamed. */
  function ChangedIndexes(p: Named<Index>, c: Named<Index>, names: seq<string>): seq<Record>
    requires forall n :: n in names ==> n in Names(p) && n in Names(c)
  {
    if names == [] then []
    else
      var n := names[|names| - 1];
      var changes := IndexChanges(Get(p, n), Get(c, n));
      ChangedIndexes(p, c, names[..|names| - 1]) +
      if changes == [] || RenameOf(changes).Some? then [] else [IndexChanged(n, changes)]
  }

  function RenamedKeys(p: Named<Index>, c: Named<Index>, names: seq<string>): seq<Record>
    requires forall n :: n in names ==> n in Names(p) && n in Names(c)
  {
    if names == [] then []
    else
      var n := names[|names| - 1];
      var rename := RenameOf(IndexChanges(Get(p, n), Get(c, n)));
      RenamedKeys(p, c, names[..|names| - 1]) +
      if rename.None? then [] else [KeyRename(n, rename.value.keyType, rename.value.from, rename.value.to)]
  }

  function AttributeDrift(p: Named<Attribute>, c: Named<Attribute>): seq<Record>
    requires Distinct(p) && Distinct(c)
  {
    OnlyInFacts(c, p);
    OnlyInFacts(p, c);
    AddedAttributes(c, OnlyIn(c, p)) + RemovedAttributes(p, OnlyIn(p, c)) + ChangedAttributes(p, c, InBoth(c, p))
  }

  function IndexDrift(p: Named<Index>, c: Named<Index>): seq<Record>
    requires Distinct(p) && Distinct(c)
  {
    OnlyInFacts(c, p);
    OnlyInFacts(p, c);
    AddedIndexes(c, OnlyIn(c, p)) + RemovedIndexes(OnlyIn(p, c)) + ChangedIndexes(p, c, InBoth(c, p)) + RenamedKeys(p, c, InBoth(c, p))
  }

  function DriftOf(p: EntityProjection, c: EntityProjection): seq<Record>
    requires WellNamedProjection(p) && WellNamedProjection(c)
  {
    AttributesProper(p.attributes);
    AttributesProper(c.attributes);
    AttributeDrift(p.attributes, c.attributes) + IndexDrift(p.indexes, c.indexes)
  }

  function GreenfieldOf(c: EntityProjection): seq<Record>
    requires WellNamedProjection(c)
  {
    AttributesProper(c.attributes);
    AllNames(c.attributes);
    AllNames(c.indexes);
    AddedAttributes(c.attributes, SortNames(Keys(c.attributes))) + AddedIndexes(c.indexes, SortNames(Keys(c.indexes)))
  }

  function Classified(prev: Option<EntityProjection>, curr: Option<EntityProjection>): seq<Record>
    requires prev.Some? ==> WellNamedProjection(prev.value)
    requires curr.Some? ==> WellNamedProjection(curr.value)
  {
    if prev.Some? && curr.Some? then DriftOf(prev.value, curr.value)
    else if prev.Some? then [EntityRemoved(prev.value.entity, prev.value.service)]
    else if curr.Some? then GreenfieldOf(curr.value)
    else []
  }

  // ----- The classifier --------------------------------------------------------------------------------

  method ClassifyDrift(prev: Option<EntityProjection>, curr: Option<EntityProjection>) returns (out: seq<Record>)
    requires prev.Some? ==> WellNamedProjection(prev.value)
    requires curr.Some? ==> WellNamedProjection(curr.value)
    ensures out == Classified(prev, curr)
  {
    if prev.Some? && curr.None? {
      return [EntityRemoved(prev.value.entity, prev.value.service)];
    }
    if prev.None? && curr.None? {
      return [];
    }
    if prev.None? {
      out := GreenfieldDrift(curr.value);
      return;
    }
    out := ComputeDrift(prev.value, curr.value);
  }

  method GreenfieldDrift(c: EntityProjection) returns (out: seq<Record>)
    requires WellNamedProjection(c)
    ensures out == GreenfieldOf(c)
  {
    AttributesProper(c.attributes);
    AllNames(c.attributes);
    AllNames(c.indexes);
    var attributes := ListAddedAttributes(c.attributes, SortNames(Keys(c.attributes)));
    var indexes := ListAddedIndexes(c.indexes, SortNames(Keys(c.indexes)));
    out := attributes + indexes;
  }

  method ListAddedAttributes(c: Named<Attribute>, names: seq<string>) returns (out: seq<Record>)
    requires forall n :: n in names ==> n in Names(c)
    ensures out == AddedAttributes(c, names)
  {
    out := [];
    for i := 0 to |names|
      invariant out == AddedAttributes(c, names[..i])
    {
      var attr := Get(c, names[i]);
      out := out + [AttributeAdded(names[i], OneOrManyJson(attr.kind), attr.required, attr.required)];
    }
    assert names[..|names|] == names;
  }

  method ListAddedIndexes(c: Named<Index>, names: seq<string>) returns (out: seq<Record>)
    requires forall n :: n in names ==> n in Names(c)
    ensures out == AddedIndexes(c, names)
  {
    out := [];
    for i := 0 to |names|
      invariant out == AddedIndexes(c, names[..i])
    {
      out := out + [AddedIndex(names[i], Get(c, names[i]))];
    }
    assert names[..|names|] == names;
  }

  method ComputeDrift(p: EntityProjection, c: EntityProjection) returns (out: seq<Record>)
    requires WellNamedProjection(p) && WellNamedProjection(c)
    ensures out == DriftOf(p, c)
  {
    AttributesProper(p.attributes);
    AttributesProper(c.attributes);
    var attributes := ComputeAttributeDrift(p.attributes, c.attributes);
    var indexes := ComputeIndexDrift(p.indexes, c.indexes);
    out := attributes + indexes;
  }

  method ListRemovedAttributes(p: Named<Attribute>, names: seq<string>) returns (out: seq<Record>)
    requires forall n :: n in names ==> n in Names(p)
    ensures out == RemovedAttributes(p, names)
  {
    out := [];
    for i := 0 to |names|
      invariant out == RemovedAttributes(p, names[..i])
    {
      out := out + [AttributeRemoved(names[i], OneOrManyJson(Get(p, names[i]).kind))];
    }
    assert names[..|names|] == names;
  }

  method ListChangedAttributes(p: Named<Attribute>, c: Named<Attribute>, names: seq<string>) returns (out: seq<Record>)
    requires forall n :: n in names ==> n in Names(p) && n in Names(c)
    ensures out == ChangedAttributes(p, c, names)
  {
    out := [];
    for i := 0 to |names|
      invariant out == ChangedAttributes(p, c, names[..i])
    {
      var changes := CompareAttribute(Get(p, names[i]), Get(c, names[i]));
      assert names[..i + 1][..i] == names[..i];
      if |changes| > 0 {
        out := out + [AttributeChanged(names[i], changes)];
      }
    }
    assert names[..|names|] == names;
  }

  method ComputeAttributeDrift(p: Named<Attribute>, c: Named<Attribute>) returns (out: seq<Record>)
    requires Distinct(p) && Distinct(c)
    ensures out == AttributeDrift(p, c)
  {
    OnlyInFacts(c, p);
    OnlyInFacts(p, c);
    var added, removed, common := Partition(p, c);
    var addedRecords := ListAddedAttributes(c, added);
    var removedRecords := ListRemovedAttributes(p, removed);
    var changedRecords := ListChangedAttributes(p, c, common);
    out := addedRecords + removedRecords + changedRecords;
  }

  method ListRemovedIndexes(names: seq<string>) returns (out: seq<Record>)
    ensures out == RemovedIndexes(names)
  {
    out := [];
    for i := 0 to |names|
      invariant out == RemovedIndexes(names[..i])
    {
      out := out + [IndexRemoved(names[i])];
    }
    assert names[..|names|] == names;
  }

  /** Common indexes: the changed ones, and those whose change collapses to a rename. */
  method ListChangedIndexes(p: Named<Index>, c: Named<Index>, names: seq<string>) returns (changed: seq<Record>, renamed: seq<Record>)
    requires forall n :: n in names ==> n in Names(p) && n in Names(c)
    ensures changed == ChangedIndexes(p, c, names) && renamed == RenamedKeys(p, c, names)
  {
    changed, renamed := [], [];
    for i := 0 to |names|
      invariant changed == ChangedIndexes(p, c, names[..i]) && renamed == RenamedKeys(p, c, names[..i])
    {
      var changes := CompareIndex(Get(p, names[i]), Get(c, names[i]));
      OneMoreIndex(p, c, names, i);
      if |changes| > 0 {
        var rename := FindKeyRename(changes);
        if rename.Some? {
          renamed := renamed + [KeyRename(names[i], rename.value.keyType, rename.value.from, rename.value.to)];
        } else {
          changed := changed + [IndexChanged(names[i], changes)];
        }
      }
    }
    assert names[..|names|] == names;
  }

  lemma OneMoreIndex(p: Named<Index>, c: Named<Index>, names: seq<string>, i: nat)
    requires i < |names| && forall n :: n in names ==> n in Names(p) && n in Names(c)
    ensures var changes := IndexChanges(Get(p, names[i]), Get(c, names[i]));
            var rename := RenameOf(changes);
            && ChangedIndexes(p, c, names[..i + 1]) == ChangedIndexes(p, c, names[..i]) +
                 (if changes == [] || rename.Some? then [] else [IndexChanged(names[i], changes)])
            && RenamedKeys(p, c, names[..i + 1]) == RenamedKeys(p, c, names[..i]) +
                 (if rename.None? then [] else [KeyRename(names[i], rename.value.keyType, rename.value.from, rename.value.to)])
  {
    assert names[..i + 1][..i] == names[..i];
  }

  method ComputeIndexDrift(p: Named<Index>, c: Named<Index>) returns (out: seq<Record>)
    requires Distinct(p) && Distinct(c)
    ensures out == IndexDrift(p, c)
  {
    OnlyInFacts(c, p);
    OnlyInFacts(p, c);
    var added, removed, common := Partition(p, c);
    var addedRecords := ListAddedIndexes(c, added);
    var removedRecords := ListRemovedIndexes(removed);
    var changedRecords, renamedRecords := ListChangedIndexes(p, c, common);
    out := addedRecords + removedRecords + changedRecords + renamedRecords;
  }
}
