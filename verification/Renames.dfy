/** When a changed index is reported as a renamed key: exactly when one name of one composite was replaced
    and nothing else. */
module Renames {
  import opened Wrappers
  import opened NamedLists
  import opened CanonicalJson
  import opened Projection
  import opened Drift
  import opened DriftLaws

  /** The index with another name at one place of a composite. */
  function Replaced(i: Index, keyType: KeyType, at: nat, to: string): Index
    requires Composite(i, keyType).Some? && at < |Composite(i, keyType).value|
  {
    if keyType.Pk? then i.(pk := i.pk.(composite := i.pk.composite[at := to]))
    else i.(sk := Some(i.sk.value.(composite := i.sk.value.composite[at := to])))
  }

  /** `c` is `p` with that one name replaced, up to the order of names in objects. */
  predicate OneNameReplaced(p: Index, c: Index, keyType: KeyType, at: nat, from: string, to: string) {
    var composite := Composite(p, keyType);
    && composite.Some? && at < |composite.value| && composite.value[at] == from != to
    && Canonical(IndexJson(Replaced(p, keyType, at, to))) == Canonical(IndexJson(c))
  }

  /** Where a composite is among the fourteen fields. */
  function CompositeAt(keyType: KeyType): nat {
    if keyType.Pk? then 2 else 8
  }

  function CompositeValue(i: Index, keyType: KeyType): Option<Json> {
    if Composite(i, keyType).Some? then Some(Strings(Composite(i, keyType).value)) else None
  }

  lemma CompositeAmongFields(i: Index, keyType: KeyType)
    ensures IndexValues(i)[CompositeAt(keyType)] == CompositeValue(i, keyType)
    ensures INDEX_CHANGE_FIELDS[CompositeAt(keyType)] == if keyType.Pk? then "pk.composite" else "sk.composite"
  {
    CompositeField(i, CompositeAt(keyType));
  }

  lemma SameOtherField(k: Key, composite: seq<string>, f: string)
    requires f != "composite"
    ensures Find(KeyJson(k.(composite := composite)).fields, f) == Find(KeyJson(k).fields, f)
  {
    var rest := KeyJson(k).fields.rest.rest;
    FindCons("composite", Strings(k.composite), rest, f);
    FindCons("composite", Strings(composite), rest, f);
    FindCons("field", Str(k.field), Cons("composite", Strings(k.composite), rest), f);
    FindCons("field", Str(k.field), Cons("composite", Strings(composite), rest), f);
  }

  lemma OtherKeyFields(k: Key, composite: seq<string>, j: nat)
    requires j < 6 && j != 1
    ensures KeyField(Some(k.(composite := composite)), KEY_FIELD_LIST[j]) == KeyField(Some(k), KEY_FIELD_LIST[j])
  {
    assert KEY_FIELD_LIST[j][0] != "composite"[0] || |KEY_FIELD_LIST[j]| != |"composite"|;
    SameOtherField(k, composite, KEY_FIELD_LIST[j]);
  }

  /** Nothing but that composite tells the two apart. */
  lemma OthersStay(i: Index, keyType: KeyType, at: nat, to: string, k: nat)
    requires Composite(i, keyType).Some? && at < |Composite(i, keyType).value| && k < 14 && k != CompositeAt(keyType)
    ensures IndexValues(Replaced(i, keyType, at, to))[k] == IndexValues(i)[k]
  {
    var i' := Replaced(i, keyType, at, to);
    if k == 0 {
      IndexFinds(i);
      IndexFinds(i');
    } else if k < 7 {
      KeyFieldSpelled(i, k - 1);
      KeyFieldSpelled(i', k - 1);
      if keyType.Pk? { OtherKeyFields(i.pk, i'.pk.composite, k - 1); }
    } else if k < 13 {
      KeyFieldSpelled(i, k - 7);
      KeyFieldSpelled(i', k - 7);
      if keyType.Sk? { OtherKeyFields(i.sk.value, i'.sk.value.composite, k - 7); }
    } else {
      IndexFinds(i);
      IndexFinds(i');
    }
  }

  lemma {:induction false} ChangeListed(fields: seq<string>, was: seq<Option<Json>>, now: seq<Option<Json>>, k: nat)
    requires |fields| == |was| == |now| && k < |fields| && !DeepEqual(was[k], now[k])
    ensures Change(fields[k], was[k], now[k]) in ChangesOf(fields, was, now)
  {
    var n := |fields| - 1;
    if k < n { ChangeListed(fields[..n], was[..n], now[..n], k); }
  }

  /** A single difference is a single change. */
  lemma {:induction false} OneDifference(fields: seq<string>, was: seq<Option<Json>>, now: seq<Option<Json>>, at: nat)
    requires |fields| == |was| == |now| && at < |fields|
    requires forall k :: 0 <= k < |fields| ==> (DeepEqual(was[k], now[k]) <==> k != at)
    ensures ChangesOf(fields, was, now) == [Change(fields[at], was[at], now[at])]
  {
    var n := |fields| - 1;
    if at == n {
      NoChanges(fields[..n], was[..n], now[..n]);
    } else {
      OneDifference(fields[..n], was[..n], now[..n], at);
    }
  }

  lemma {:induction false} DiffersOnce(a: seq<Json>, b: seq<Json>, at: nat)
    requires |a| == |b| && at < |a| && forall i :: 0 <= i < |a| ==> (a[i] == b[i] <==> i != at)
    ensures DiffersAt(a, b) == [at]
  {
    var n := |a| - 1;
    if at == n {
      DiffersNowhere(a[..n], b[..n]);
    } else {
      DiffersOnce(a[..n], b[..n], at);
    }
  }

  lemma {:induction false} DiffersNowhere(a: seq<Json>, b: seq<Json>)
    requires a == b
    ensures DiffersAt(a, b) == []
  {
    if a != [] { DiffersNowhere(a[..|a| - 1], b[..|a| - 1]); }
  }

  lemma SameIndex(p: Index, c: Index)
    ensures Canonical(IndexJson(p)) == Canonical(IndexJson(c)) <==> SameValues(IndexValues(p), IndexValues(c))
  {
    IndexChangesExact(p, c);
    NoChanges(INDEX_CHANGE_FIELDS, IndexValues(p), IndexValues(c));
  }

  lemma StringsEqual(a: seq<string>, b: Option<Json>)
    requires DeepEqual(Some(Strings(a)), b) && (b.Some? ==> b.value.Arr? && exists ss :: b.value == Strings(ss))
    ensures b == Some(Strings(a))
  {
    var ss :| b.value == Strings(ss);
    CanonicalStrings(a);
    CanonicalStrings(ss);
  }

  lemma CanonicalStrings(ss: seq<string>)
    ensures Canonical(Strings(ss)) == Strings(ss)
  {
    var items := Strings(ss).items;
    assert forall i :: 0 <= i < |items| ==> Canonical(items[i]) == items[i];
  }

  /** What a rename says has happened. */
  lemma RenamedIsReplaced(p: Index, c: Index, r: Rename)
    requires RenameOf(IndexChanges(p, c)) == Some(r)
    ensures exists at: nat :: OneNameReplaced(p, c, r.keyType, at, r.from, r.to)
  {
    RenameIsOneName(p, c);
    var was, now := Composite(p, r.keyType), Composite(c, r.keyType);
    var at: nat :| at < |was.value| && was.value[at] == r.from && now.value == was.value[at := r.to];
    var i := Replaced(p, r.keyType, at, r.to);
    CompositeAmongFields(i, r.keyType);
    CompositeAmongFields(c, r.keyType);
    forall k | 0 <= k < 14 ensures DeepEqual(IndexValues(i)[k], IndexValues(c)[k]) {
      if k != CompositeAt(r.keyType) {
        OthersStay(p, r.keyType, at, r.to, k);
        OnlyThere(p, c, r, k);
      }
    }
    SameIndex(i, c);
    assert OneNameReplaced(p, c, r.keyType, at, r.from, r.to);
  }

  lemma OnlyOneField(changes: seq<Change>, r: Rename, ch: Change)
    requires RenameOf(changes) == Some(r) && ch in changes
    ensures ch.field == if r.keyType.Pk? then "pk.composite" else "sk.composite"
  {
  }

  lemma OnlyThere(p: Index, c: Index, r: Rename, k: nat)
    requires RenameOf(IndexChanges(p, c)) == Some(r) && k < 14 && k != CompositeAt(r.keyType)
    ensures DeepEqual(IndexValues(p)[k], IndexValues(c)[k])
  {
    var was, now := IndexValues(p), IndexValues(c);
    if !DeepEqual(was[k], now[k]) {
      ChangeListed(INDEX_CHANGE_FIELDS, was, now, k);
      OnlyOneField(IndexChanges(p, c), r, Change(INDEX_CHANGE_FIELDS[k], was[k], now[k]));
      CompositeAmongFields(p, r.keyType);
      OnlyAt(k, CompositeAt(r.keyType));
    }
  }

  lemma ReplacedComposite(p: Index, c: Index, keyType: KeyType, at: nat, from: string, to: string)
    requires OneNameReplaced(p, c, keyType, at, from, to)
    ensures CompositeValue(c, keyType) == Some(Strings(Composite(p, keyType).value[at := to]))
    ensures forall k :: 0 <= k < 14 && k != CompositeAt(keyType) ==> DeepEqual(IndexValues(p)[k], IndexValues(c)[k])
  {
    var i := Replaced(p, keyType, at, to);
    SameIndex(i, c);
    forall k | 0 <= k < 14 && k != CompositeAt(keyType) ensures DeepEqual(IndexValues(p)[k], IndexValues(c)[k]) {
      OthersStay(p, keyType, at, to, k);
      assert DeepEqual(IndexValues(i)[k], IndexValues(c)[k]);
    }
    CompositeAmongFields(i, keyType);
    CompositeAmongFields(c, keyType);
    assert DeepEqual(IndexValues(i)[CompositeAt(keyType)], IndexValues(c)[CompositeAt(keyType)]);
    StringsEqual(Composite(p, keyType).value[at := to], CompositeValue(c, keyType));
  }

  lemma OneNameIsRename(was: seq<string>, at: nat, to: string, keyType: KeyType)
    requires at < |was| && was[at] != to
    ensures var field := if keyType.Pk? then "pk.composite" else "sk.composite";
            RenameOf([Change(field, Some(Strings(was)), Some(Strings(was[at := to])))]) == Some(Rename(keyType, was[at], to))
  {
    var from, now := Strings(was).items, Strings(was[at := to]).items;
    forall i | 0 <= i < |from| ensures from[i] == now[i] <==> i != at {
      assert from[i] == Str(was[i]) && now[i] == Str(was[at := to][i]);
    }
    DiffersOnce(from, now, at);
  }

  lemma ReplacedIsRenamed(p: Index, c: Index, keyType: KeyType, at: nat, from: string, to: string)
    requires OneNameReplaced(p, c, keyType, at, from, to)
    ensures RenameOf(IndexChanges(p, c)) == Some(Rename(keyType, from, to))
  {
    var was := Composite(p, keyType).value;
    var now := was[at := to];
    ReplacedComposite(p, c, keyType, at, from, to);
    CompositeAmongFields(p, keyType);
    CompositeAmongFields(c, keyType);
    CanonicalStrings(was);
    CanonicalStrings(now);
    StringsApart(was, now);
    assert was[at] != now[at];
    OneDifference(INDEX_CHANGE_FIELDS, IndexValues(p), IndexValues(c), CompositeAt(keyType));
    OneNameIsRename(was, at, to, keyType);
  }

  /** A key is reported as renamed exactly when one name of its composite was replaced and nothing else of
      the index has changed. */
  lemma RenameExactly(p: Index, c: Index, r: Rename)
    ensures RenameOf(IndexChanges(p, c)) == Some(r) <==> exists at: nat :: OneNameReplaced(p, c, r.keyType, at, r.from, r.to)
  {
    if RenameOf(IndexChanges(p, c)) == Some(r) { RenamedIsReplaced(p, c, r); }
    if at: nat :| OneNameReplaced(p, c, r.keyType, at, r.from, r.to) { ReplacedIsRenamed(p, c, r.keyType, at, r.from, r.to); }
  }
}
