/** What the drift list tells: nothing exactly when the shapes are the same, the mirror image when the
    arguments are swapped, and enough to patch the old shape to the new one. */
module DriftLaws {
  import opened Wrappers
  import opened NamedLists
  import opened CanonicalJson
  import opened Projection
  import opened Drift

  // ----- Lists of changes --------------------------------------------------------------------------

  lemma {:induction false} NoChanges(fields: seq<string>, was: seq<Option<Json>>, now: seq<Option<Json>>)
    requires |fields| == |was| == |now|
    ensures ChangesOf(fields, was, now) == [] <==> forall k :: 0 <= k < |fields| ==> DeepEqual(was[k], now[k])
  {
    if fields != [] {
      var n := |fields| - 1;
      NoChanges(fields[..n], was[..n], now[..n]);
      assert forall k :: 0 <= k < n ==> was[..n][k] == was[k] && now[..n][k] == now[k];
    }
  }

  function Swapped(changes: seq<Change>): seq<Change> {
    seq(|changes|, k requires 0 <= k < |changes| => Change(changes[k].field, changes[k].to, changes[k].from))
  }

  lemma {:induction false} ChangesSwap(fields: seq<string>, was: seq<Option<Json>>, now: seq<Option<Json>>)
    requires |fields| == |was| == |now|
    ensures ChangesOf(fields, now, was) == Swapped(ChangesOf(fields, was, now))
  {
    if fields != [] {
      var n := |fields| - 1;
      ChangesSwap(fields[..n], was[..n], now[..n]);
    }
  }

  /** The value a list of changes gives a field that had `value`. */
  function Patched(changes: seq<Change>, field: string, value: Option<Json>): Option<Json> {
    if changes == [] then value
    else if changes[|changes| - 1].field == field then changes[|changes| - 1].to
    else Patched(changes[..|changes| - 1], field, value)
  }

  ghost predicate DistinctNames(fields: seq<string>) {
    forall i, j :: 0 <= i < j < |fields| ==> fields[i] != fields[j]
  }

  lemma {:induction false} Unmentioned(fields: seq<string>, was: seq<Option<Json>>, now: seq<Option<Json>>, field: string, value: Option<Json>)
    requires |fields| == |was| == |now| && field !in fields
    ensures Patched(ChangesOf(fields, was, now), field, value) == value
  {
    if fields != [] {
      var n := |fields| - 1;
      assert fields[n] in fields;
      Unmentioned(fields[..n], was[..n], now[..n], field, value);
      var before, after := ChangesOf(fields[..n], was[..n], now[..n]), ChangesOf(fields, was, now);
      assert after != before ==> after[..|after| - 1] == before;
    }
  }

  /** Patching the old values by the changes gives values deeply equal to the new ones, in every field
      of the allowlist. */
  lemma {:induction false} ChangesPatch(fields: seq<string>, was: seq<Option<Json>>, now: seq<Option<Json>>, k: nat)
    requires |fields| == |was| == |now| && DistinctNames(fields) && k < |fields|
    ensures DeepEqual(Patched(ChangesOf(fields, was, now), fields[k], was[k]), now[k])
  {
    var n := |fields| - 1;
    var before, after := ChangesOf(fields[..n], was[..n], now[..n]), ChangesOf(fields, was, now);
    assert after != before ==> after[..|after| - 1] == before;
    if k == n {
      Unmentioned(fields[..n], was[..n], now[..n], fields[n], was[n]);
    } else {
      ChangesPatch(fields[..n], was[..n], now[..n], k);
    }
  }

  // ----- Exactness of the comparators ---------------------------------------------------------------

  ghost predicate AgreeIn(a: Named<Json>, b: Named<Json>, fields: set<string>) {
    forall f :: f in fields ==> DeepEqual(Find(a, f), Find(b, f))
  }

  /** Agreeing in every field of a list that covers both objects is being the same object. */
  lemma CoveredExact(a: Named<Json>, b: Named<Json>, fields: set<string>)
    requires Fits(a, fields) && Fits(b, fields)
    ensures AgreeIn(a, b, fields) <==> Canonical(Obj(a)) == Canonical(Obj(b))
  {
    CanonicalExact(Obj(a), Obj(b));
    SameObjects(a, b);
    if AgreeIn(a, b, fields) {
      forall n ensures n in Names(a) <==> n in Names(b) {
        if n in fields { assert DeepEqual(Find(a, n), Find(b, n)); }
      }
      forall n | n in Names(a) ensures Canonical(Get(a, n)) == Canonical(Get(b, n)) {
        assert DeepEqual(Find(a, n), Find(b, n));
      }
    }
  }

  lemma AttributeFieldsListed(f: string)
    ensures f in ATTRIBUTE_FIELDS <==> f in ATTRIBUTE_CHANGE_FIELDS
  {
  }

  lemma AttributeChangesExact(p: Attribute, c: Attribute)
    requires WellNamed(p) && WellNamed(c)
    ensures AttributeChanges(p, c) == [] <==> Canonical(AttributeJson(p)) == Canonical(AttributeJson(c))
  {
    AttributeProper(p);
    AttributeProper(c);
    var a, b := AttributeJson(p).fields, AttributeJson(c).fields;
    CoveredExact(a, b, ATTRIBUTE_FIELDS);
    NoChanges(ATTRIBUTE_CHANGE_FIELDS, AttributeValues(p), AttributeValues(c));
    if AttributeChanges(p, c) == [] {
      forall f | f in ATTRIBUTE_FIELDS ensures DeepEqual(Find(a, f), Find(b, f)) {
        AttributeFieldsListed(f);
        var k :| 0 <= k < |ATTRIBUTE_CHANGE_FIELDS| && ATTRIBUTE_CHANGE_FIELDS[k] == f;
        assert AttributeValues(p)[k] == Find(a, f) && AttributeValues(c)[k] == Find(b, f);
      }
    }
    if AgreeIn(a, b, ATTRIBUTE_FIELDS) {
      forall k | 0 <= k < |ATTRIBUTE_CHANGE_FIELDS| ensures DeepEqual(AttributeValues(p)[k], AttributeValues(c)[k]) {
        AttributeFieldsListed(ATTRIBUTE_CHANGE_FIELDS[k]);
      }
    }
  }

  const KEY_FIELD_LIST: seq<string> := ["casing", "composite", "field", "postfix", "prefix", "template"]

  lemma KeyFieldsListed(f: string)
    ensures f in KEY_FIELDS <==> f in KEY_FIELD_LIST
  {
  }

  /** Two sort keys, either of which may be absent. */
  predicate SameKeys(a: Option<Key>, b: Option<Key>) {
    a.Some? == b.Some? && (a.Some? ==> Canonical(KeyJson(a.value)) == Canonical(KeyJson(b.value)))
  }

  function KeyField(k: Option<Key>, f: string): Option<Json> {
    if k.None? then None else Find(KeyJson(k.value).fields, f)
  }

  lemma KeyExact(a: Option<Key>, b: Option<Key>)
    ensures SameKeyFields(a, b) <==> SameKeys(a, b)
  {
    if a.Some? && b.Some? {
      var x, y := KeyJson(a.value).fields, KeyJson(b.value).fields;
      KeyProper(a.value);
      KeyProper(b.value);
      CoveredExact(x, y, KEY_FIELDS);
      if SameKeyFields(a, b) {
        forall f | f in KEY_FIELDS ensures DeepEqual(Find(x, f), Find(y, f)) {
          KeyFieldsListed(f);
          var j :| 0 <= j < |KEY_FIELD_LIST| && KEY_FIELD_LIST[j] == f;
          assert DeepEqual(KeyField(a, KEY_FIELD_LIST[j]), KeyField(b, KEY_FIELD_LIST[j]));
        }
      }
      if AgreeIn(x, y, KEY_FIELDS) {
        forall j | 0 <= j < 6 ensures DeepEqual(KeyField(a, KEY_FIELD_LIST[j]), KeyField(b, KEY_FIELD_LIST[j])) {
          KeyFieldsListed(KEY_FIELD_LIST[j]);
        }
      }
    } else {
      assert KEY_FIELD_LIST[2] == "field";
      assert a.Some? ==> KeyField(a, "field").Some?;
      assert b.Some? ==> KeyField(b, "field").Some?;
    }
  }

  lemma IndexFinds(i: Index)
    ensures Find(IndexJson(i).fields, "type") == Some(Str(if i.clustered then "clustered" else "isolated"))
    ensures Find(IndexJson(i).fields, "pk") == Some(KeyJson(i.pk))
    ensures Find(IndexJson(i).fields, "sk") == if i.sk.Some? then Some(KeyJson(i.sk.value)) else None
    ensures Find(IndexJson(i).fields, "collection") == if i.collection.Some? then Some(OneOrManyJson(i.collection.value)) else None
  {
    var collection := if i.collection.Some? then Some(OneOrManyJson(i.collection.value)) else None;
    var sk := if i.sk.Some? then Some(KeyJson(i.sk.value)) else None;
    var f1 := Opt("collection", collection, Nil);
    var f2 := Opt("sk", sk, f1);
    assert IndexJson(i).fields == Cons("type", Str(if i.clustered then "clustered" else "isolated"), Cons("pk", KeyJson(i.pk), f2));
    forall m | m in {"pk", "sk", "collection"} ensures Find(IndexJson(i).fields, m) == if m == "pk" then Some(KeyJson(i.pk)) else Find(f2, m) {
      FindCons("type", Str(if i.clustered then "clustered" else "isolated"), Cons("pk", KeyJson(i.pk), f2), m);
      FindCons("pk", KeyJson(i.pk), f2, m);
    }
    FindOpt("sk", sk, f1, "sk");
    FindOpt("sk", sk, f1, "collection");
    FindOpt("collection", collection, Nil, "sk");
    FindOpt("collection", collection, Nil, "collection");
  }

  lemma FindCons(name: string, value: Json, rest: Named<Json>, m: string)
    ensures Find(Cons(name, value, rest), m) == if name == m then Some(value) else Find(rest, m)
  {
  }

  lemma FindOpt(name: string, value: Option<Json>, rest: Named<Json>, m: string)
    ensures Find(Opt(name, value, rest), m) == if name == m && value.Some? then value else Find(rest, m)
  {
  }

  lemma KeyFieldSpelled(i: Index, j: nat)
    requires j < 6
    ensures IndexValues(i)[1 + j] == KeyField(Some(i.pk), KEY_FIELD_LIST[j])
    ensures IndexValues(i)[7 + j] == KeyField(i.sk, KEY_FIELD_LIST[j])
  {
    FieldsSpelled(j);
    PkFieldRead(i, KEY_FIELD_LIST[j]);
    SkFieldRead(i, KEY_FIELD_LIST[j]);
  }

  lemma FieldsSpelled(j: nat)
    requires j < 6
    ensures INDEX_CHANGE_FIELDS[1 + j] == "pk." + KEY_FIELD_LIST[j] && INDEX_CHANGE_FIELDS[7 + j] == "sk." + KEY_FIELD_LIST[j]
  {
  }

  lemma PkFieldRead(i: Index, f: string)
    ensures ReadIndexField(i, "pk." + f) == KeyField(Some(i.pk), f)
  {
    DottedField("pk.", f);
    assert ("pk." + f)[0] != "type"[0] && ("pk." + f)[0] != "collection"[0];
  }

  lemma SkFieldRead(i: Index, f: string)
    ensures ReadIndexField(i, "sk." + f) == KeyField(i.sk, f)
  {
    DottedField("sk.", f);
    assert ("sk." + f)[0] != "type"[0] && ("sk." + f)[0] != "collection"[0] && ("sk." + f)[0] != "pk."[0];
  }

  lemma DottedField(side: string, f: string)
    requires side == "pk." || side == "sk."
    ensures (side + f)[3..] == f && side <= side + f && (side + f)[0] == side[0]
  {
  }

  ghost predicate SameValues(a: seq<Option<Json>>, b: seq<Option<Json>>) {
    |a| == |b| && forall k :: 0 <= k < |a| ==> DeepEqual(a[k], b[k])
  }

  /** The fourteen dotted fields cover an index: the two keys, the type and the collection. */
  lemma IndexValuesCover(p: Index, c: Index)
    ensures SameValues(IndexValues(p), IndexValues(c)) <==>
              && SameKeys(Some(p.pk), Some(c.pk)) && SameKeys(p.sk, c.sk)
              && DeepEqual(Find(IndexJson(p).fields, "type"), Find(IndexJson(c).fields, "type"))
              && DeepEqual(Find(IndexJson(p).fields, "collection"), Find(IndexJson(c).fields, "collection"))
  {
    KeyExact(Some(p.pk), Some(c.pk));
    KeyExact(p.sk, c.sk);
    KeyValues(p, c);
    var a, b := IndexValues(p), IndexValues(c);
    assert a[0] == Find(IndexJson(p).fields, "collection") && b[0] == Find(IndexJson(c).fields, "collection");
    assert a[13] == Find(IndexJson(p).fields, "type") && b[13] == Find(IndexJson(c).fields, "type");
  }

  ghost predicate SameRange(a: seq<Option<Json>>, b: seq<Option<Json>>, lo: nat, hi: nat)
    requires hi <= |a| == |b|
  {
    forall k :: lo <= k < hi ==> DeepEqual(a[k], b[k])
  }

  ghost predicate SameKeyFields(a: Option<Key>, b: Option<Key>) {
    forall j :: 0 <= j < 6 ==> DeepEqual(KeyField(a, KEY_FIELD_LIST[j]), KeyField(b, KEY_FIELD_LIST[j]))
  }

  lemma KeyValues(p: Index, c: Index)
    ensures SameRange(IndexValues(p), IndexValues(c), 1, 7) <==> SameKeyFields(Some(p.pk), Some(c.pk))
    ensures SameRange(IndexValues(p), IndexValues(c), 7, 13) <==> SameKeyFields(p.sk, c.sk)
    ensures SameValues(IndexValues(p), IndexValues(c)) <==>
              && SameRange(IndexValues(p), IndexValues(c), 1, 7) && SameRange(IndexValues(p), IndexValues(c), 7, 13)
              && DeepEqual(IndexValues(p)[0], IndexValues(c)[0]) && DeepEqual(IndexValues(p)[13], IndexValues(c)[13])
  {
    var a, b := IndexValues(p), IndexValues(c);
    forall k | 1 <= k < 7 ensures a[k] == KeyField(Some(p.pk), KEY_FIELD_LIST[k - 1]) && b[k] == KeyField(Some(c.pk), KEY_FIELD_LIST[k - 1]) {
      KeyFieldSpelled(p, k - 1);
      KeyFieldSpelled(c, k - 1);
    }
    forall k | 7 <= k < 13 ensures a[k] == KeyField(p.sk, KEY_FIELD_LIST[k - 7]) && b[k] == KeyField(c.sk, KEY_FIELD_LIST[k - 7]) {
      KeyFieldSpelled(p, k - 7);
      KeyFieldSpelled(c, k - 7);
    }
    if SameRange(a, b, 1, 7) {
      forall j | 0 <= j < 6 ensures DeepEqual(KeyField(Some(p.pk), KEY_FIELD_LIST[j]), KeyField(Some(c.pk), KEY_FIELD_LIST[j])) {
        assert DeepEqual(a[j + 1], b[j + 1]);
      }
    }
    if SameRange(a, b, 7, 13) {
      forall j | 0 <= j < 6 ensures DeepEqual(KeyField(p.sk, KEY_FIELD_LIST[j]), KeyField(c.sk, KEY_FIELD_LIST[j])) {
        assert DeepEqual(a[j + 7], b[j + 7]);
      }
    }
  }

  lemma IndexChangesExact(p: Index, c: Index)
    ensures IndexChanges(p, c) == [] <==> Canonical(IndexJson(p)) == Canonical(IndexJson(c))
  {
    IndexProper(p);
    IndexProper(c);
    IndexFinds(p);
    IndexFinds(c);
    var a, b := IndexJson(p).fields, IndexJson(c).fields;
    CoveredExact(a, b, INDEX_FIELDS);
    IndexValuesCover(p, c);
    NoChanges(INDEX_CHANGE_FIELDS, IndexValues(p), IndexValues(c));
    FourAgree(a, b);
  }

  lemma FourAgree(a: Named<Json>, b: Named<Json>)
    ensures AgreeIn(a, b, INDEX_FIELDS) <==>
              && DeepEqual(Find(a, "collection"), Find(b, "collection")) && DeepEqual(Find(a, "pk"), Find(b, "pk"))
              && DeepEqual(Find(a, "sk"), Find(b, "sk")) && DeepEqual(Find(a, "type"), Find(b, "type"))
  {
  }

  // ----- Drift is exact ------------------------------------------------------------------------------

  ghost predicate Unchanged(p: Named<Attribute>, c: Named<Attribute>, n: string) {
    n in Names(p) && n in Names(c) && AttributeChanges(Get(p, n), Get(c, n)) == []
  }

  lemma {:induction false} NoneChanged(p: Named<Attribute>, c: Named<Attribute>, names: seq<string>)
    requires forall n :: n in names ==> n in Names(p) && n in Names(c)
    ensures ChangedAttributes(p, c, names) == [] <==> forall n :: n in names ==> Unchanged(p, c, n)
  {
    if names != [] {
      var init, last := names[..|names| - 1], names[|names| - 1];
      NoneChanged(p, c, init);
      assert ChangedAttributes(p, c, names) == [] <==> ChangedAttributes(p, c, init) == [] && Unchanged(p, c, last);
      assert forall n :: n in names <==> n in init || n == last;
    }
  }

  lemma AttributeSections(p: Named<Attribute>, c: Named<Attribute>)
    requires Distinct(p) && Distinct(c)
    ensures forall n :: n in InBoth(c, p) ==> n in Names(p) && n in Names(c)
    ensures AttributeDrift(p, c) == [] <==> OnlyIn(c, p) == [] && OnlyIn(p, c) == [] && ChangedAttributes(p, c, InBoth(c, p)) == []
  {
    OnlyInFacts(c, p);
    OnlyInFacts(p, c);
    assert |AttributeDrift(p, c)| == |OnlyIn(c, p)| + |OnlyIn(p, c)| + |ChangedAttributes(p, c, InBoth(c, p))|;
  }

  lemma NoAttributeDrift(p: Named<Attribute>, c: Named<Attribute>)
    requires Distinct(p) && Distinct(c)
    ensures AttributeDrift(p, c) == [] <==> Names(p) == Names(c) && forall n :: n in Names(c) ==> Unchanged(p, c, n)
  {
    AttributeSections(p, c);
    NoneChanged(p, c, InBoth(c, p));
    InBothFacts(c, p);
    NoNamesLeft(c, p);
    NoNamesLeft(p, c);
  }

  lemma AttributeDriftExact(p: Named<Attribute>, c: Named<Attribute>)
    requires WellNamedAll(p) && WellNamedAll(c) && Distinct(p) && Distinct(c)
    ensures AttributeDrift(p, c) == [] <==> Canonical(Obj(AttributesJson(p))) == Canonical(Obj(AttributesJson(c)))
  {
    NoAttributeDrift(p, c);
    AttributesProper(p);
    AttributesProper(c);
    CanonicalExact(Obj(AttributesJson(p)), Obj(AttributesJson(c)));
    SameObjects(AttributesJson(p), AttributesJson(c));
    forall n | n in Names(p) && n in Names(c)
      ensures Unchanged(p, c, n) <==> Canonical(Get(AttributesJson(p), n)) == Canonical(Get(AttributesJson(c), n))
    {
      AttributeChangesExact(Get(p, n), Get(c, n));
    }
  }

  lemma InBothFacts<T, U>(l: Named<T>, others: Named<U>)
    requires Distinct(l)
    ensures forall n :: n in InBoth(l, others) <==> n in Names(l) && n in Names(others)
  {
    OnlyInFacts(l, others);
  }

  lemma NoNamesLeft<T, U>(l: Named<T>, others: Named<U>)
    requires Distinct(l)
    ensures OnlyIn(l, others) == [] <==> Names(l) <= Names(others)
  {
    OnlyInFacts(l, others);
    if OnlyIn(l, others) != [] { assert OnlyIn(l, others)[0] in OnlyIn(l, others); }
  }

  ghost predicate IndexUnchanged(p: Named<Index>, c: Named<Index>, n: string) {
    n in Names(p) && n in Names(c) && IndexChanges(Get(p, n), Get(c, n)) == []
  }

  lemma {:induction false} NoneChangedOrRenamed(p: Named<Index>, c: Named<Index>, names: seq<string>)
    requires forall n :: n in names ==> n in Names(p) && n in Names(c)
    ensures ChangedIndexes(p, c, names) == [] && RenamedKeys(p, c, names) == [] <==> forall n :: n in names ==> IndexUnchanged(p, c, n)
  {
    if names != [] {
      var init, last := names[..|names| - 1], names[|names| - 1];
      NoneChangedOrRenamed(p, c, init);
      assert ChangedIndexes(p, c, names) == [] && RenamedKeys(p, c, names) == [] <==>
             ChangedIndexes(p, c, init) == [] && RenamedKeys(p, c, init) == [] && IndexUnchanged(p, c, last);
      assert forall n :: n in names <==> n in init || n == last;
    }
  }

  lemma IndexSections(p: Named<Index>, c: Named<Index>)
    requires Distinct(p) && Distinct(c)
    ensures forall n :: n in InBoth(c, p) ==> n in Names(p) && n in Names(c)
    ensures IndexDrift(p, c) == [] <==>
              && OnlyIn(c, p) == [] && OnlyIn(p, c) == []
              && ChangedIndexes(p, c, InBoth(c, p)) == [] && RenamedKeys(p, c, InBoth(c, p)) == []
  {
    OnlyInFacts(c, p);
    OnlyInFacts(p, c);
    assert |IndexDrift(p, c)| == |OnlyIn(c, p)| + |OnlyIn(p, c)| + |ChangedIndexes(p, c, InBoth(c, p))| + |RenamedKeys(p, c, InBoth(c, p))|;
  }

  lemma NoIndexDrift(p: Named<Index>, c: Named<Index>)
    requires Distinct(p) && Distinct(c)
    ensures IndexDrift(p, c) == [] <==> Names(p) == Names(c) && forall n :: n in Names(c) ==> IndexUnchanged(p, c, n)
  {
    IndexSections(p, c);
    NoneChangedOrRenamed(p, c, InBoth(c, p));
    InBothFacts(c, p);
    NoNamesLeft(c, p);
    NoNamesLeft(p, c);
  }

  lemma IndexDriftExact(p: Named<Index>, c: Named<Index>)
    requires Distinct(p) && Distinct(c)
    ensures IndexDrift(p, c) == [] <==> Canonical(Obj(IndexesJson(p))) == Canonical(Obj(IndexesJson(c)))
  {
    NoIndexDrift(p, c);
    IndexesProper(p);
    IndexesProper(c);
    CanonicalExact(Obj(IndexesJson(p)), Obj(IndexesJson(c)));
    SameObjects(IndexesJson(p), IndexesJson(c));
    forall n | n in Names(p) && n in Names(c)
      ensures IndexUnchanged(p, c, n) <==> Canonical(Get(IndexesJson(p), n)) == Canonical(Get(IndexesJson(c), n))
    {
      IndexChangesExact(Get(p, n), Get(c, n));
    }
  }

  /** With the same entity and service there is no drift exactly when the projections have one
      canonical form, and so one fingerprint. */
  lemma DriftExact(p: EntityProjection, c: EntityProjection)
    requires WellNamedProjection(p) && WellNamedProjection(c) && p.entity == c.entity && p.service == c.service
    ensures Classified(Some(p), Some(c)) == [] <==> Canonical(ProjectionJson(p)) == Canonical(ProjectionJson(c))
  {
    AttributesProper(p.attributes);
    AttributesProper(c.attributes);
    AttributeDriftExact(p.attributes, c.attributes);
    IndexDriftExact(p.indexes, c.indexes);
    ProjectionProper(p);
    ProjectionProper(c);
    PartsDecide(p, c);
  }

  lemma PartsDecide(p: EntityProjection, c: EntityProjection)
    requires Proper(ProjectionJson(p)) && Proper(ProjectionJson(c)) && p.entity == c.entity && p.service == c.service
    ensures Canonical(ProjectionJson(p)) == Canonical(ProjectionJson(c)) <==>
              && Canonical(Obj(AttributesJson(p.attributes))) == Canonical(Obj(AttributesJson(c.attributes)))
              && Canonical(Obj(IndexesJson(p.indexes))) == Canonical(Obj(IndexesJson(c.indexes)))
  {
    var a, b := ProjectionJson(p).fields, ProjectionJson(c).fields;
    CanonicalExact(Obj(a), Obj(b));
    SameObjects(a, b);
    ProjectionParts(p);
    ProjectionParts(c);
    FourNames(a, b);
  }

  ghost predicate AgreeAt(a: Named<Json>, b: Named<Json>, n: string) {
    n in Names(a) && n in Names(b) && Canonical(Get(a, n)) == Canonical(Get(b, n))
  }

  lemma FourNames(a: Named<Json>, b: Named<Json>)
    requires Names(a) == Names(b) == {"entity", "service", "attributes", "indexes"}
    ensures (forall n :: n in Names(a) ==> Canonical(Get(a, n)) == Canonical(Get(b, n))) <==>
            AgreeAt(a, b, "entity") && AgreeAt(a, b, "service") && AgreeAt(a, b, "attributes") && AgreeAt(a, b, "indexes")
  {
  }

  lemma ProjectionParts(p: EntityProjection)
    ensures var l := ProjectionJson(p).fields;
            && Names(l) == {"entity", "service", "attributes", "indexes"}
            && Get(l, "entity") == Str(p.entity) && Get(l, "service") == Str(p.service)
            && Get(l, "attributes") == Obj(AttributesJson(p.attributes))
            && Get(l, "indexes") == Obj(IndexesJson(p.indexes))
  {
    var f1 := Cons("indexes", Obj(IndexesJson(p.indexes)), Nil);
    var f2 := Cons("attributes", Obj(AttributesJson(p.attributes)), f1);
    assert Names(f1) == {"indexes"} && Names(f2) == {"attributes", "indexes"};
    assert Get(f2, "indexes") == Obj(IndexesJson(p.indexes)) && Get(f2, "attributes") == Obj(AttributesJson(p.attributes));
    var f3 := Cons("service", Str(p.service), f2);
    assert Names(f3) == {"service", "attributes", "indexes"};
    assert Get(f3, "indexes") == Get(f2, "indexes") && Get(f3, "attributes") == Get(f2, "attributes");
  }

  // ----- Swapping the arguments ---------------------------------------------------------------------

  lemma {:induction false} DiffersAtSwap(a: seq<Json>, b: seq<Json>)
    requires |a| == |b|
    ensures DiffersAt(a, b) == DiffersAt(b, a)
  {
    if a != [] { DiffersAtSwap(a[..|a| - 1], b[..|a| - 1]); }
  }

  function Back(r: Option<Rename>): Option<Rename> {
    if r.None? then None else Some(Rename(r.value.keyType, r.value.to, r.value.from))
  }

  lemma RenameSwap(changes: seq<Change>)
    ensures RenameOf(Swapped(changes)) == Back(RenameOf(changes))
  {
    if |changes| == 1 {
      var ch := changes[0];
      if ch.from.Some? && ch.to.Some? && ch.from.value.Arr? && ch.to.value.Arr? && |ch.from.value.items| == |ch.to.value.items| {
        DiffersAtSwap(ch.from.value.items, ch.to.value.items);
      }
    }
  }

  /** A change record read backwards. */
  function Mirror(r: Record): Record {
    match r
    case AttributeChanged(n, changes) => AttributeChanged(n, Swapped(changes))
    case IndexChanged(n, changes) => IndexChanged(n, Swapped(changes))
    case KeyRename(n, keyType, from, to) => KeyRename(n, keyType, to, from)
    case _ => r
  }

  function MirrorAll(rs: seq<Record>): seq<Record> {
    seq(|rs|, k requires 0 <= k < |rs| => Mirror(rs[k]))
  }

  lemma {:induction false} ChangedAttributesSwap(p: Named<Attribute>, c: Named<Attribute>, names: seq<string>)
    requires forall n :: n in names ==> n in Names(p) && n in Names(c)
    ensures ChangedAttributes(c, p, names) == MirrorAll(ChangedAttributes(p, c, names))
  {
    if names != [] {
      var n := names[|names| - 1];
      ChangedAttributesSwap(p, c, names[..|names| - 1]);
      ChangesSwap(ATTRIBUTE_CHANGE_FIELDS, AttributeValues(Get(p, n)), AttributeValues(Get(c, n)));
      assert |AttributeChanges(Get(c, n), Get(p, n))| == |AttributeChanges(Get(p, n), Get(c, n))|;
    }
  }

  lemma IndexChangesSwap(p: Index, c: Index)
    ensures IndexChanges(c, p) == Swapped(IndexChanges(p, c))
    ensures IndexChanges(c, p) == [] <==> IndexChanges(p, c) == []
    ensures RenameOf(IndexChanges(c, p)) == Back(RenameOf(IndexChanges(p, c)))
  {
    ChangesSwap(INDEX_CHANGE_FIELDS, IndexValues(p), IndexValues(c));
    RenameSwap(IndexChanges(p, c));
    assert |IndexChanges(c, p)| == |IndexChanges(p, c)|;
  }

  function ChangeRecord(n: string, changes: seq<Change>, renamed: bool): seq<Record> {
    if changes == [] || renamed then [] else [IndexChanged(n, changes)]
  }

  lemma ChangeRecordSwap(n: string, changes: seq<Change>, renamed: bool)
    ensures ChangeRecord(n, Swapped(changes), renamed) == MirrorAll(ChangeRecord(n, changes, renamed))
  {
    assert |Swapped(changes)| == |changes|;
  }

  lemma {:induction false} ChangedIndexesSwap(p: Named<Index>, c: Named<Index>, names: seq<string>)
    requires forall n :: n in names ==> n in Names(p) && n in Names(c)
    ensures ChangedIndexes(c, p, names) == MirrorAll(ChangedIndexes(p, c, names))
  {
    if names != [] {
      var init, n := names[..|names| - 1], names[|names| - 1];
      ChangedIndexesSwap(p, c, init);
      var changes := IndexChanges(Get(p, n), Get(c, n));
      var renamed := RenameOf(changes).Some?;
      IndexChangesSwap(Get(p, n), Get(c, n));
      ChangeRecordSwap(n, changes, renamed);
      MirrorAppend(ChangedIndexes(p, c, init), ChangeRecord(n, changes, renamed));
    }
  }

  lemma {:induction false} RenamedKeysSwap(p: Named<Index>, c: Named<Index>, names: seq<string>)
    requires forall n :: n in names ==> n in Names(p) && n in Names(c)
    ensures RenamedKeys(c, p, names) == MirrorAll(RenamedKeys(p, c, names))
  {
    if names != [] {
      var n := names[|names| - 1];
      RenamedKeysSwap(p, c, names[..|names| - 1]);
      IndexChangesSwap(Get(p, n), Get(c, n));
      RenameRecordSwap(n, RenameOf(IndexChanges(Get(p, n), Get(c, n))));
      MirrorAppend(RenamedKeys(p, c, names[..|names| - 1]), RenameRecord(n, RenameOf(IndexChanges(Get(p, n), Get(c, n)))));
    }
  }

  function RenameRecord(n: string, r: Option<Rename>): seq<Record> {
    if r.None? then [] else [KeyRename(n, r.value.keyType, r.value.from, r.value.to)]
  }

  lemma RenameRecordSwap(n: string, r: Option<Rename>)
    ensures RenameRecord(n, Back(r)) == MirrorAll(RenameRecord(n, r))
  {
  }

  lemma MirrorAppend(a: seq<Record>, b: seq<Record>)
    ensures MirrorAll(a + b) == MirrorAll(a) + MirrorAll(b)
  {
  }

  /** What a removed record still tells of an added one. */
  function Forget(r: Record): Record {
    match r
    case AttributeAdded(n, kind, _, _) => AttributeRemoved(n, kind)
    case IndexAdded(n, _, _) => IndexRemoved(n)
    case _ => r
  }

  function ForgetAll(rs: seq<Record>): seq<Record> {
    seq(|rs|, k requires 0 <= k < |rs| => Forget(rs[k]))
  }

  /** The list by kind, in the order it is emitted. */
  datatype Sections = Sections(
    added: seq<Record>, removed: seq<Record>, changed: seq<Record>,
    indexAdded: seq<Record>, indexRemoved: seq<Record>, indexChanged: seq<Record>, renamed: seq<Record>)
  {
    function Listed(): seq<Record> {
      (added + removed + changed) + (indexAdded + indexRemoved + indexChanged + renamed)
    }
  }

  function SectionsOf(p: EntityProjection, c: EntityProjection): Sections
    requires WellNamedProjection(p) && WellNamedProjection(c)
  {
    AttributesProper(p.attributes);
    AttributesProper(c.attributes);
    OnlyInFacts(c.attributes, p.attributes);
    OnlyInFacts(p.attributes, c.attributes);
    OnlyInFacts(c.indexes, p.indexes);
    OnlyInFacts(p.indexes, c.indexes);
    Sections(
      AddedAttributes(c.attributes, OnlyIn(c.attributes, p.attributes)),
      RemovedAttributes(p.attributes, OnlyIn(p.attributes, c.attributes)),
      ChangedAttributes(p.attributes, c.attributes, InBoth(c.attributes, p.attributes)),
      AddedIndexes(c.indexes, OnlyIn(c.indexes, p.indexes)),
      RemovedIndexes(OnlyIn(p.indexes, c.indexes)),
      ChangedIndexes(p.indexes, c.indexes, InBoth(c.indexes, p.indexes)),
      RenamedKeys(p.indexes, c.indexes, InBoth(c.indexes, p.indexes)))
  }

  lemma AddedForgotten(l: Named<Attribute>, names: seq<string>)
    requires forall n :: n in names ==> n in Names(l)
    ensures ForgetAll(AddedAttributes(l, names)) == RemovedAttributes(l, names)
  {
  }

  lemma IndexesForgotten(l: Named<Index>, names: seq<string>)
    requires forall n :: n in names ==> n in Names(l)
    ensures ForgetAll(AddedIndexes(l, names)) == RemovedIndexes(names)
  {
  }

  /** Swapping the arguments: added and removed change places, and every change and rename is read
      backwards, in the same order. */
  lemma DriftSwap(p: EntityProjection, c: EntityProjection)
    requires WellNamedProjection(p) && WellNamedProjection(c)
    ensures Classified(Some(p), Some(c)) == SectionsOf(p, c).Listed()
    ensures var s, t := SectionsOf(p, c), SectionsOf(c, p);
            && s.removed == ForgetAll(t.added) && t.removed == ForgetAll(s.added)
            && t.changed == MirrorAll(s.changed)
            && s.indexRemoved == ForgetAll(t.indexAdded) && t.indexRemoved == ForgetAll(s.indexAdded)
            && t.indexChanged == MirrorAll(s.indexChanged) && t.renamed == MirrorAll(s.renamed)
  {
    AttributesProper(p.attributes);
    AttributesProper(c.attributes);
    AttributesSwap(p.attributes, c.attributes);
    IndexesSwap(p.indexes, c.indexes);
  }

  lemma AttributesSwap(p: Named<Attribute>, c: Named<Attribute>)
    requires Distinct(p) && Distinct(c)
    ensures forall n :: n in OnlyIn(c, p) ==> n in Names(c)
    ensures forall n :: n in OnlyIn(p, c) ==> n in Names(p)
    ensures forall n :: n in InBoth(c, p) ==> n in Names(p) && n in Names(c)
    ensures ForgetAll(AddedAttributes(c, OnlyIn(c, p))) == RemovedAttributes(c, OnlyIn(c, p))
    ensures ForgetAll(AddedAttributes(p, OnlyIn(p, c))) == RemovedAttributes(p, OnlyIn(p, c))
    ensures InBoth(p, c) == InBoth(c, p)
    ensures ChangedAttributes(c, p, InBoth(c, p)) == MirrorAll(ChangedAttributes(p, c, InBoth(c, p)))
  {
    OnlyInFacts(c, p);
    OnlyInFacts(p, c);
    AddedForgotten(c, OnlyIn(c, p));
    AddedForgotten(p, OnlyIn(p, c));
    SameCommon(c, p);
    ChangedAttributesSwap(p, c, InBoth(c, p));
  }

  lemma IndexesSwap(p: Named<Index>, c: Named<Index>)
    requires Distinct(p) && Distinct(c)
    ensures forall n :: n in OnlyIn(c, p) ==> n in Names(c)
    ensures forall n :: n in OnlyIn(p, c) ==> n in Names(p)
    ensures forall n :: n in InBoth(c, p) ==> n in Names(p) && n in Names(c)
    ensures ForgetAll(AddedIndexes(c, OnlyIn(c, p))) == RemovedIndexes(OnlyIn(c, p))
    ensures ForgetAll(AddedIndexes(p, OnlyIn(p, c))) == RemovedIndexes(OnlyIn(p, c))
    ensures InBoth(p, c) == InBoth(c, p)
    ensures ChangedIndexes(c, p, InBoth(c, p)) == MirrorAll(ChangedIndexes(p, c, InBoth(c, p)))
    ensures RenamedKeys(c, p, InBoth(c, p)) == MirrorAll(RenamedKeys(p, c, InBoth(c, p)))
  {
    OnlyInFacts(c, p);
    OnlyInFacts(p, c);
    IndexesForgotten(c, OnlyIn(c, p));
    IndexesForgotten(p, OnlyIn(p, c));
    SameCommon(c, p);
    ChangedIndexesSwap(p, c, InBoth(c, p));
    RenamedKeysSwap(p, c, InBoth(c, p));
  }

  // ----- Greenfield -----------------------------------------------------------------------------------

  lemma {:induction false} WithinNothing(keys: seq<string>)
    ensures Within(keys, {}, false) == keys && Within(keys, {}, true) == []
  {
    if keys != [] { WithinNothing(keys[..|keys| - 1]); }
  }

  lemma FromNothing<T, U>(c: Named<T>, nothing: Named<U>)
    requires nothing.Nil?
    ensures OnlyIn(c, nothing) == SortNames(Keys(c)) && InBoth(c, nothing) == [] && OnlyIn(nothing, c) == []
  {
    WithinNothing(Keys(c));
    assert Keys(nothing) == [];
  }

  lemma AttributesFromNothing(c: Named<Attribute>, nothing: Named<Attribute>)
    requires nothing.Nil? && Distinct(c)
    ensures forall n :: n in SortNames(Keys(c)) ==> n in Names(c)
    ensures AttributeDrift(nothing, c) == AddedAttributes(c, SortNames(Keys(c)))
  {
    AllNames(c);
    FromNothing(c, nothing);
  }

  lemma IndexesFromNothing(c: Named<Index>, nothing: Named<Index>)
    requires nothing.Nil? && Distinct(c)
    ensures forall n :: n in SortNames(Keys(c)) ==> n in Names(c)
    ensures IndexDrift(nothing, c) == AddedIndexes(c, SortNames(Keys(c)))
  {
    AllNames(c);
    FromNothing(c, nothing);
  }

  /** No previous projection is an empty one, of whatever entity and service. */
  lemma NullIsEmpty(entity: string, service: string, c: EntityProjection)
    requires WellNamedProjection(c)
    ensures Classified(None, Some(c)) == Classified(Some(EntityProjection(entity, service, Nil, Nil)), Some(c))
  {
    AttributesProper(c.attributes);
    AttributesFromNothing(c.attributes, Nil);
    IndexesFromNothing(c.indexes, Nil);
  }

  // ----- Patching -------------------------------------------------------------------------------------

  function PatchedValues(changes: seq<Change>, fields: seq<string>, was: seq<Option<Json>>): seq<Option<Json>>
    requires |fields| == |was|
  {
    seq(|fields|, k requires 0 <= k < |fields| => Patched(changes, fields[k], was[k]))
  }

  /** The changes of a common attribute, or index, take the old values to the new ones. */
  lemma ChangesTakeOldToNew(fields: seq<string>, was: seq<Option<Json>>, now: seq<Option<Json>>)
    requires |fields| == |was| == |now| && DistinctNames(fields)
    ensures SameValues(PatchedValues(ChangesOf(fields, was, now), fields, was), now)
  {
    forall k | 0 <= k < |fields| ensures DeepEqual(Patched(ChangesOf(fields, was, now), fields[k], was[k]), now[k]) {
      ChangesPatch(fields, was, now, k);
    }
  }

  lemma {:induction false} ChangeMembers(fields: seq<string>, was: seq<Option<Json>>, now: seq<Option<Json>>, ch: Change)
    requires |fields| == |was| == |now| && ch in ChangesOf(fields, was, now)
    ensures exists k :: 0 <= k < |fields| && ch == Change(fields[k], was[k], now[k])
  {
    var n := |fields| - 1;
    if ch in ChangesOf(fields[..n], was[..n], now[..n]) {
      ChangeMembers(fields[..n], was[..n], now[..n], ch);
      var k :| 0 <= k < n && ch == Change(fields[..n][k], was[..n][k], now[..n][k]);
      assert ch == Change(fields[k], was[k], now[k]);
    } else {
      assert ch == Change(fields[n], was[n], now[n]);
    }
  }

  function Composite(i: Index, keyType: KeyType): Option<seq<string>> {
    if keyType.Pk? then Some(i.pk.composite) else if i.sk.Some? then Some(i.sk.value.composite) else None
  }

  /** A rename is one name replaced in one composite, and it is the only change. */
  lemma RenameIsOneName(p: Index, c: Index)
    requires RenameOf(IndexChanges(p, c)).Some?
    ensures var r := RenameOf(IndexChanges(p, c)).value;
            var was, now := Composite(p, r.keyType), Composite(c, r.keyType);
            && was.Some? && now.Some? && r.from != r.to
            && exists i :: 0 <= i < |was.value| && was.value[i] == r.from && now.value == was.value[i := r.to]
  {
    var changes := IndexChanges(p, c);
    var r, ch := RenameOf(changes).value, changes[0];
    ChangeMembers(INDEX_CHANGE_FIELDS, IndexValues(p), IndexValues(c), ch);
    var k :| 0 <= k < 14 && ch == Change(INDEX_CHANGE_FIELDS[k], IndexValues(p)[k], IndexValues(c)[k]);
    CompositeField(p, k);
    CompositeField(c, k);
    OneNameDiffers(Composite(p, r.keyType).value, Composite(c, r.keyType).value);
  }

  lemma OneNameDiffers(was: seq<string>, now: seq<string>)
    requires |was| == |now| && |DiffersAt(Strings(was).items, Strings(now).items)| == 1
    ensures var i := DiffersAt(Strings(was).items, Strings(now).items)[0];
            i < |was| && was[i] != now[i] && now == was[i := now[i]]
  {
    var from, to := Strings(was).items, Strings(now).items;
    DiffersAtFacts(from, to);
    var at := DiffersAt(from, to);
    assert at[0] in at;
    forall i | 0 <= i < |was| && i != at[0] ensures was[i] == now[i] {
      assert i !in at;
      assert from[i] == Str(was[i]) && to[i] == Str(now[i]);
    }
  }

  lemma CompositeField(i: Index, k: nat)
    requires k < 14 && (INDEX_CHANGE_FIELDS[k] == "pk.composite" || INDEX_CHANGE_FIELDS[k] == "sk.composite")
    ensures var keyType := if INDEX_CHANGE_FIELDS[k] == "pk.composite" then Pk else Sk;
            var composite := Composite(i, keyType);
            IndexValues(i)[k] == if composite.Some? then Some(Strings(composite.value)) else None
  {
    assert INDEX_CHANGE_FIELDS[2] == "pk.composite" && INDEX_CHANGE_FIELDS[8] == "sk.composite";
    if INDEX_CHANGE_FIELDS[k] == "pk.composite" { OnlyAt(k, 2); } else { OnlyAt(k, 8); }
    KeyFieldSpelled(i, 1);
    CompositeFound(i.pk);
    if i.sk.Some? { CompositeFound(i.sk.value); }
  }

  lemma CompositeFound(k: Key)
    ensures Find(KeyJson(k).fields, "composite") == Some(Strings(k.composite))
  {
    var rest := KeyJson(k).fields.rest;
    FindCons("field", Str(k.field), rest, "composite");
    FindCons("composite", Strings(k.composite), rest.rest, "composite");
  }

  lemma OnlyAt(k: nat, at: nat)
    requires k < 14 && at < 14 && INDEX_CHANGE_FIELDS[k] == INDEX_CHANGE_FIELDS[at]
    ensures k == at
  {
    IndexFieldsDistinct();
  }

  lemma IndexFieldsDistinct()
    ensures DistinctNames(INDEX_CHANGE_FIELDS)
  {
  }
}
