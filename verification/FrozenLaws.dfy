/** What a frozen source determines: the value it reads as is the projection, and two projections print
    the same text exactly when they have the same canonical form. */
module FrozenLaws {
  import opened Wrappers
  import opened NamedLists
  import opened CanonicalJson
  import opened Projection
  import opened LiteralTokens
  import opened LiteralValues
  import opened ObjectLiteral
  import opened LiteralText
  import opened FrozenPrinter
  import opened FrozenReadBack
  import opened DriftLaws

  // ----- Fields of an attribute object ----------------------------------------------------------------

  /** The ten fields as the projection holds them; `items` and `properties` as given. */
  function FieldOf(a: Attribute, items: Option<Json>, properties: Option<Json>, f: string): Option<Json> {
    if f == "type" then Some(OneOrManyJson(a.kind))
    else if f == "required" then Some(Flag(a.required))
    else if f == "hidden" then Some(Flag(a.hidden))
    else if f == "readOnly" then Some(Flag(a.readOnly))
    else if f == "field" then Some(Str(a.field))
    else if f == "enumArray" then JsonOf(StringsFlat(a.enumArray))
    else if f == "template" then StrOpt(a.template)
    else if f == "items" then items
    else if f == "properties" then properties
    else None
  }

  function ItemsOf(a: Attribute): Option<Json> {
    if a.items.Some? then Some(ItemsJson(a.items.value)) else None
  }

  function PropertiesOf(a: Attribute): Option<Json> {
    if a.properties.Some? then Some(Obj(AttributesJson(a.properties.value))) else None
  }

  function PaddingOf(a: Attribute): Option<Json> {
    if a.padding.Some? then Some(PaddingJson(a.padding.value)) else None
  }

  lemma StoredOptional(a: Attribute, f: string)
    requires f != "padding"
    ensures f in {"enumArray", "template", "items", "properties"} ==> Find(OptionalFields(a), f) == FieldOf(a, ItemsOf(a), PropertiesOf(a), f)
    ensures f !in {"enumArray", "template", "items", "properties"} ==> Find(OptionalFields(a), f) == None
  {
    var padding := Opt("padding", PaddingOf(a), Nil);
    FindOpt("padding", PaddingOf(a), Nil, f);
    var template := Opt("template", StrOpt(a.template), padding);
    FindOpt("template", StrOpt(a.template), padding, f);
    var items := Opt("items", ItemsOf(a), template);
    FindOpt("items", ItemsOf(a), template, f);
    var properties := Opt("properties", PropertiesOf(a), items);
    FindOpt("properties", PropertiesOf(a), items, f);
    FindOpt("enumArray", JsonOf(StringsFlat(a.enumArray)), properties, f);
    assert OptionalFields(a) == Opt("enumArray", JsonOf(StringsFlat(a.enumArray)), properties);
  }

  lemma StoredPadding(a: Attribute)
    ensures Find(OptionalFields(a), "padding") == PaddingOf(a)
  {
    var padding := Opt("padding", PaddingOf(a), Nil);
    FindOpt("padding", PaddingOf(a), Nil, "padding");
    var template := Opt("template", StrOpt(a.template), padding);
    FindOpt("template", StrOpt(a.template), padding, "padding");
    var items := Opt("items", ItemsOf(a), template);
    FindOpt("items", ItemsOf(a), template, "padding");
    var properties := Opt("properties", PropertiesOf(a), items);
    FindOpt("properties", PropertiesOf(a), items, "padding");
    FindOpt("enumArray", JsonOf(StringsFlat(a.enumArray)), properties, "padding");
    assert OptionalFields(a) == Opt("enumArray", JsonOf(StringsFlat(a.enumArray)), properties);
  }

  /** Looking past the five fields every attribute starts with, in both orders. */
  lemma FindLocked(a: Attribute, rest: Named<Json>, f: string)
    ensures var l := Cons("type", OneOrManyJson(a.kind), Cons("required", Flag(a.required), Cons("hidden", Flag(a.hidden),
                     Cons("readOnly", Flag(a.readOnly), Cons("field", Str(a.field), rest)))));
            Find(l, f) == if f in {"type", "required", "hidden", "readOnly", "field"} then FieldOf(a, None, None, f) else Find(rest, f)
  {
    var f1 := Cons("field", Str(a.field), rest);
    FindCons("field", Str(a.field), rest, f);
    var f2 := Cons("readOnly", Flag(a.readOnly), f1);
    FindCons("readOnly", Flag(a.readOnly), f1, f);
    var f3 := Cons("hidden", Flag(a.hidden), f2);
    FindCons("hidden", Flag(a.hidden), f2, f);
    var f4 := Cons("required", Flag(a.required), f3);
    FindCons("required", Flag(a.required), f3, f);
    FindCons("type", OneOrManyJson(a.kind), f4, f);
  }

  lemma Stored(a: Attribute, f: string)
    ensures Find(AttributeJson(a).fields, f) == if f == "padding" then PaddingOf(a) else FieldOf(a, ItemsOf(a), PropertiesOf(a), f)
  {
    FindLocked(a, OptionalFields(a), f);
    if f == "padding" { StoredPadding(a); } else { StoredOptional(a, f); }
  }

  lemma PrintedFind(a: Attribute, f: string)
    ensures Find(PrintedAttribute(a), f) ==
            if f == "padding" then JsonOf(PaddingFlat(a.padding)) else FieldOf(a, PrintedItems(a), PrintedProperties(a), f)
  {
    FindLocked(a, PrintedOptional(a), f);
    var template := Opt("template", JsonOf(StrFlat(a.template)), Nil);
    FindOpt("template", JsonOf(StrFlat(a.template)), Nil, f);
    var properties := Opt("properties", PrintedProperties(a), template);
    FindOpt("properties", PrintedProperties(a), template, f);
    var padding := Opt("padding", JsonOf(PaddingFlat(a.padding)), properties);
    FindOpt("padding", JsonOf(PaddingFlat(a.padding)), properties, f);
    var items := Opt("items", PrintedItems(a), padding);
    FindOpt("items", PrintedItems(a), padding, f);
    FindOpt("enumArray", JsonOf(StringsFlat(a.enumArray)), items, f);
    assert PrintedOptional(a) == Opt("enumArray", JsonOf(StringsFlat(a.enumArray)), items);
  }

  // ----- Sorting does not show in the canonical form -----------------------------------------------

  lemma {:induction false} InsertProper(n: string, v: Json, l: Named<Json>)
    requires Proper(v) && ProperFields(l)
    ensures ProperFields(Insert(n, v, l))
  {
    if l.Cons? { InsertProper(n, v, l.rest); }
  }

  lemma {:induction false} SortProperFields(l: Named<Json>)
    requires ProperFields(l)
    ensures ProperFields(Sort(l))
  {
    if l.Cons? {
      SortProperFields(l.rest);
      InsertProper(l.name, l.value, Sort(l.rest));
    }
  }

  lemma SortCanonical(l: Named<Json>)
    requires Proper(Obj(l))
    ensures Proper(Obj(Sort(l))) && Canonical(Obj(Sort(l))) == Canonical(Obj(l))
  {
    SortFacts(l);
    SortedIsDistinct(Sort(l));
    SortProperFields(l);
    CanonicalExact(Obj(Sort(l)), Obj(l));
    SameObjects(Sort(l), l);
  }

  // ----- The printed value is the projection --------------------------------------------------------

  lemma PrintedPadding(p: Padding)
    ensures var v := FlatJson(PaddingFlat(Some(p)).value);
            Proper(v) && Canonical(v) == Canonical(PaddingJson(p))
  {
    PaddingProper(p);
    var none: Named<Flat>, end: Named<Json> := Nil, Nil;
    assert FlatFields(none) == end;
    var printed := Cons("char", Str(p.fill), Cons("length", Num(p.length), end));
    WithField("length", Num(p.length), end, {});
    WithField("char", Str(p.fill), Cons("length", Num(p.length), end), {"length"});
    assert FlatFields(Cons("length", FNum(p.length), none)) == Cons("length", Num(p.length), end);
    assert FlatFields(Cons("char", FStr(p.fill), Cons("length", FNum(p.length), none))) == printed;
    assert FlatJson(PaddingFlat(Some(p)).value) == Obj(printed);
    var stored := PaddingJson(p).fields;
    CanonicalExact(Obj(printed), Obj(stored));
    SameObjects(printed, stored);
    assert Names(printed) == {"char", "length"} && Names(stored) == {"char", "length"};
  }

  lemma PrintedOptionalFits(a: Attribute)
    requires PrintedItems(a).Some? ==> Proper(PrintedItems(a).value)
    requires PrintedProperties(a).Some? ==> Proper(PrintedProperties(a).value)
    requires JsonOf(PaddingFlat(a.padding)).Some? ==> Proper(JsonOf(PaddingFlat(a.padding)).value)
    requires JsonOf(StringsFlat(a.enumArray)).Some? ==> Proper(JsonOf(StringsFlat(a.enumArray)).value)
    ensures Fits(PrintedOptional(a), {"template", "properties", "padding", "items", "enumArray"})
  {
    var template := Opt("template", JsonOf(StrFlat(a.template)), Nil);
    WithOpt("template", JsonOf(StrFlat(a.template)), Nil, {});
    var properties := Opt("properties", PrintedProperties(a), template);
    WithOpt("properties", PrintedProperties(a), template, {"template"});
    var padding := Opt("padding", JsonOf(PaddingFlat(a.padding)), properties);
    WithOpt("padding", JsonOf(PaddingFlat(a.padding)), properties, {"template", "properties"});
    var items := Opt("items", PrintedItems(a), padding);
    WithOpt("items", PrintedItems(a), padding, {"template", "properties", "padding"});
    WithOpt("enumArray", JsonOf(StringsFlat(a.enumArray)), items, {"template", "properties", "padding", "items"});
  }

  lemma PrintedFits(a: Attribute)
    requires PrintedItems(a).Some? ==> Proper(PrintedItems(a).value)
    requires PrintedProperties(a).Some? ==> Proper(PrintedProperties(a).value)
    ensures Fits(PrintedAttribute(a), ATTRIBUTE_FIELDS)
  {
    if a.padding.Some? { PrintedPadding(a.padding.value); }
    if a.enumArray.Some? { StringsProper(a.enumArray.value); }
    PrintedOptionalFits(a);
    LockedFits(a, PrintedOptional(a));
  }

  lemma PrintedAgrees(a: Attribute, f: string)
    requires DeepEqual(PrintedItems(a), ItemsOf(a)) && DeepEqual(PrintedProperties(a), PropertiesOf(a))
    ensures DeepEqual(Find(PrintedAttribute(a), f), Find(AttributeJson(a).fields, f))
  {
    if a.padding.Some? { PrintedPadding(a.padding.value); }
    Stored(a, f);
    PrintedFind(a, f);
  }

  lemma {:induction false} PrintedIsStored(a: Attribute)
    requires WellNamed(a)
    ensures Fits(PrintedAttribute(a), ATTRIBUTE_FIELDS) && Canonical(Obj(PrintedAttribute(a))) == Canonical(AttributeJson(a))
    decreases a, 1
  {
    if a.items.Some? && a.items.value.Shaped? { PrintedIsStored(a.items.value.attribute); }
    if a.properties.Some? { EntriesAreStored(a.properties.value); }
    PrintedFits(a);
    FieldsAreStored(a);
  }

  lemma FieldsAreStored(a: Attribute)
    requires WellNamed(a) && Fits(PrintedAttribute(a), ATTRIBUTE_FIELDS)
    requires DeepEqual(PrintedItems(a), ItemsOf(a)) && DeepEqual(PrintedProperties(a), PropertiesOf(a))
    ensures Canonical(Obj(PrintedAttribute(a))) == Canonical(AttributeJson(a))
  {
    AttributeProper(a);
    forall f | f in ATTRIBUTE_FIELDS ensures DeepEqual(Find(PrintedAttribute(a), f), Find(AttributeJson(a).fields, f)) {
      PrintedAgrees(a, f);
    }
    CoveredExact(PrintedAttribute(a), AttributeJson(a).fields, ATTRIBUTE_FIELDS);
  }

  lemma {:induction false} EachEntryIsStored(l: Named<Attribute>)
    requires WellNamedAll(l)
    ensures Proper(Obj(PrintedEntries(l))) && Names(PrintedEntries(l)) == Names(l)
    ensures forall n :: n in Names(l) ==> Canonical(Get(PrintedEntries(l), n)) == Canonical(AttributeJson(Get(l, n)))
    decreases l, 0
  {
    if l.Cons? {
      PrintedIsStored(l.value);
      EachEntryIsStored(l.rest);
    }
  }

  lemma {:induction false} EntriesAreStored(l: Named<Attribute>)
    requires WellNamedAll(l)
    ensures Proper(Obj(Sort(PrintedEntries(l)))) && Canonical(Obj(Sort(PrintedEntries(l)))) == Canonical(Obj(AttributesJson(l)))
    decreases l, 1
  {
    EachEntryIsStored(l);
    SortCanonical(PrintedEntries(l));
    AttributesProper(l);
    CanonicalExact(Obj(PrintedEntries(l)), Obj(AttributesJson(l)));
    SameObjects(PrintedEntries(l), AttributesJson(l));
  }

  // ----- Keys and indexes ---------------------------------------------------------------------------

  function KeyFieldOf(k: Key, f: string): Option<Json> {
    if f == "field" then Some(Str(k.field))
    else if f == "composite" then Some(Strings(k.composite))
    else if f == "casing" then StrOpt(k.casing)
    else if f == "postfix" then StrOpt(k.postfix)
    else if f == "prefix" then StrOpt(k.prefix)
    else if f == "template" then StrOpt(k.template)
    else None
  }

  lemma StoredKey(k: Key, f: string)
    ensures Find(KeyJson(k).fields, f) == KeyFieldOf(k, f)
  {
    var postfix := Opt("postfix", StrOpt(k.postfix), Nil);
    FindOpt("postfix", StrOpt(k.postfix), Nil, f);
    var prefix := Opt("prefix", StrOpt(k.prefix), postfix);
    FindOpt("prefix", StrOpt(k.prefix), postfix, f);
    var template := Opt("template", StrOpt(k.template), prefix);
    FindOpt("template", StrOpt(k.template), prefix, f);
    var casing := Opt("casing", StrOpt(k.casing), template);
    FindOpt("casing", StrOpt(k.casing), template, f);
    FindCons("composite", Strings(k.composite), casing, f);
    FindCons("field", Str(k.field), Cons("composite", Strings(k.composite), casing), f);
  }

  function PrintedKey(k: Key): Named<Json> {
    Cons("field", Str(k.field), Cons("composite", Strings(k.composite),
    Opt("casing", StrOpt(k.casing), Opt("postfix", StrOpt(k.postfix),
    Opt("prefix", StrOpt(k.prefix), Opt("template", StrOpt(k.template), Nil))))))
  }

  lemma FlatOptional(name: string, s: Option<string>, rest: Named<Flat>)
    ensures FlatFields(OptFlat(name, StrFlat(s), rest)) == Opt(name, StrOpt(s), FlatFields(rest))
  {
  }

  lemma KeyFlatPrints(k: Key)
    ensures FlatJson(KeyFlat(k)) == Obj(PrintedKey(k))
  {
    var none: Named<Flat> := Nil;
    var template := OptFlat("template", StrFlat(k.template), none);
    FlatOptional("template", k.template, none);
    var prefix := OptFlat("prefix", StrFlat(k.prefix), template);
    FlatOptional("prefix", k.prefix, template);
    var postfix := OptFlat("postfix", StrFlat(k.postfix), prefix);
    FlatOptional("postfix", k.postfix, prefix);
    var casing := OptFlat("casing", StrFlat(k.casing), postfix);
    FlatOptional("casing", k.casing, postfix);
    var composite := Cons("composite", FStrings(k.composite), casing);
    assert FlatFields(composite) == Cons("composite", Strings(k.composite), FlatFields(casing));
    assert FlatFields(Cons("field", FStr(k.field), composite)) == Cons("field", Str(k.field), FlatFields(composite));
  }

  lemma PrintedKeyFind(k: Key, f: string)
    ensures Find(PrintedKey(k), f) == KeyFieldOf(k, f)
  {
    var template := Opt("template", StrOpt(k.template), Nil);
    FindOpt("template", StrOpt(k.template), Nil, f);
    var prefix := Opt("prefix", StrOpt(k.prefix), template);
    FindOpt("prefix", StrOpt(k.prefix), template, f);
    var postfix := Opt("postfix", StrOpt(k.postfix), prefix);
    FindOpt("postfix", StrOpt(k.postfix), prefix, f);
    var casing := Opt("casing", StrOpt(k.casing), postfix);
    FindOpt("casing", StrOpt(k.casing), postfix, f);
    FindCons("composite", Strings(k.composite), casing, f);
    FindCons("field", Str(k.field), Cons("composite", Strings(k.composite), casing), f);
  }

  lemma PrintedKeyFits(k: Key)
    ensures Fits(PrintedKey(k), KEY_FIELDS)
  {
    StringsProper(k.composite);
    var template := Opt("template", StrOpt(k.template), Nil);
    WithOpt("template", StrOpt(k.template), Nil, {});
    var prefix := Opt("prefix", StrOpt(k.prefix), template);
    WithOpt("prefix", StrOpt(k.prefix), template, {"template"});
    var postfix := Opt("postfix", StrOpt(k.postfix), prefix);
    WithOpt("postfix", StrOpt(k.postfix), prefix, {"template", "prefix"});
    var casing := Opt("casing", StrOpt(k.casing), postfix);
    WithOpt("casing", StrOpt(k.casing), postfix, {"template", "prefix", "postfix"});
    WithField("composite", Strings(k.composite), casing, {"template", "prefix", "postfix", "casing"});
    WithField("field", Str(k.field), Cons("composite", Strings(k.composite), casing), {"template", "prefix", "postfix", "casing", "composite"});
  }

  lemma PrintedKeyIsStored(k: Key)
    ensures Proper(FlatJson(KeyFlat(k))) && Canonical(FlatJson(KeyFlat(k))) == Canonical(KeyJson(k))
  {
    KeyFlatPrints(k);
    PrintedKeyFits(k);
    KeyProper(k);
    forall f | f in KEY_FIELDS ensures DeepEqual(Find(PrintedKey(k), f), Find(KeyJson(k).fields, f)) {
      StoredKey(k, f);
      PrintedKeyFind(k, f);
    }
    CoveredExact(PrintedKey(k), KeyJson(k).fields, KEY_FIELDS);
  }

  lemma PrintedIndexFind(i: Index, f: string)
    ensures Find(PrintedIndex(i), f) ==
            if f == "type" then Some(Str(if i.clustered then "clustered" else "isolated"))
            else if f == "pk" then Some(FlatJson(KeyFlat(i.pk)))
            else if f == "sk" && i.sk.Some? then Some(FlatJson(KeyFlat(i.sk.value)))
            else if f == "collection" && i.collection.Some? then Some(OneOrManyJson(i.collection.value))
            else None
  {
    var kind := Str(if i.clustered then "clustered" else "isolated");
    var collection := if i.collection.Some? then Some(OneOrManyJson(i.collection.value)) else None;
    var sk := if i.sk.Some? then Some(FlatJson(KeyFlat(i.sk.value))) else None;
    var f1 := Opt("collection", collection, Nil);
    FindOpt("collection", collection, Nil, f);
    FindOpt("sk", sk, f1, f);
    FindCons("pk", FlatJson(KeyFlat(i.pk)), Opt("sk", sk, f1), f);
    FindCons("type", kind, Cons("pk", FlatJson(KeyFlat(i.pk)), Opt("sk", sk, f1)), f);
  }

  lemma PrintedIndexFits(i: Index)
    ensures Fits(PrintedIndex(i), INDEX_FIELDS)
  {
    PrintedKeyIsStored(i.pk);
    if i.sk.Some? { PrintedKeyIsStored(i.sk.value); }
    if i.collection.Some? { OneOrManyProper(i.collection.value); }
    var kind := Str(if i.clustered then "clustered" else "isolated");
    var collection := if i.collection.Some? then Some(OneOrManyJson(i.collection.value)) else None;
    var sk := if i.sk.Some? then Some(FlatJson(KeyFlat(i.sk.value))) else None;
    var f1 := Opt("collection", collection, Nil);
    WithOpt("collection", collection, Nil, {});
    var f2 := Opt("sk", sk, f1);
    WithOpt("sk", sk, f1, {"collection"});
    WithField("pk", FlatJson(KeyFlat(i.pk)), f2, {"collection", "sk"});
    WithField("type", kind, Cons("pk", FlatJson(KeyFlat(i.pk)), f2), {"collection", "sk", "pk"});
  }

  lemma PrintedIndexIsStored(i: Index)
    ensures Proper(Obj(PrintedIndex(i))) && Canonical(Obj(PrintedIndex(i))) == Canonical(IndexJson(i))
  {
    PrintedIndexFits(i);
    IndexProper(i);
    IndexFinds(i);
    PrintedKeyIsStored(i.pk);
    if i.sk.Some? { PrintedKeyIsStored(i.sk.value); }
    forall f | f in INDEX_FIELDS ensures DeepEqual(Find(PrintedIndex(i), f), Find(IndexJson(i).fields, f)) {
      PrintedIndexFind(i, f);
    }
    CoveredExact(PrintedIndex(i), IndexJson(i).fields, INDEX_FIELDS);
  }

  lemma {:induction false} EachIndexIsStored(l: Named<Index>)
    requires Distinct(l)
    ensures Proper(Obj(PrintedIndexes(l))) && Names(PrintedIndexes(l)) == Names(l)
    ensures forall n :: n in Names(l) ==> Canonical(Get(PrintedIndexes(l), n)) == Canonical(IndexJson(Get(l, n)))
  {
    if l.Cons? {
      PrintedIndexIsStored(l.value);
      EachIndexIsStored(l.rest);
    }
  }

  lemma IndexesAreStored(l: Named<Index>)
    requires Distinct(l)
    ensures Proper(Obj(Sort(PrintedIndexes(l)))) && Canonical(Obj(Sort(PrintedIndexes(l)))) == Canonical(Obj(IndexesJson(l)))
  {
    EachIndexIsStored(l);
    SortCanonical(PrintedIndexes(l));
    IndexesProper(l);
    CanonicalExact(Obj(PrintedIndexes(l)), Obj(IndexesJson(l)));
    SameObjects(PrintedIndexes(l), IndexesJson(l));
  }

  // ----- Read-back ----------------------------------------------------------------------------------

  /** The entity as configured: model identity, version, and the projected shape. */
  function ModelJson(p: EntityProjection, version: string): Json {
    Obj(Cons("model", FlatJson(ModelFlat(p, version)),
        Cons("attributes", Obj(AttributesJson(p.attributes)),
        Cons("indexes", Obj(IndexesJson(p.indexes)), Nil))))
  }

  /** Objects of three fields agree exactly when the fields do. */
  lemma ThreeFields(n1: string, n2: string, n3: string, m: Json, a: Json, i: Json, m': Json, a': Json, i': Json)
    requires n1 != n2 && n2 != n3 && n1 != n3
    requires Proper(m) && Proper(a) && Proper(i) && Proper(m') && Proper(a') && Proper(i')
    ensures Canonical(Obj(Cons(n1, m, Cons(n2, a, Cons(n3, i, Nil))))) == Canonical(Obj(Cons(n1, m', Cons(n2, a', Cons(n3, i', Nil))))) <==>
            Canonical(m) == Canonical(m') && Canonical(a) == Canonical(a') && Canonical(i) == Canonical(i')
  {
    var x := ThreeOf(n1, n2, n3, m, a, i);
    var y := ThreeOf(n1, n2, n3, m', a', i');
    SameThree(x, y, n1, n2, n3);
    assert AgreeAt(x, y, n1) <==> Canonical(m) == Canonical(m');
    assert AgreeAt(x, y, n2) <==> Canonical(a) == Canonical(a');
    assert AgreeAt(x, y, n3) <==> Canonical(i) == Canonical(i');
  }

  lemma SameThree(x: Named<Json>, y: Named<Json>, n1: string, n2: string, n3: string)
    requires Proper(Obj(x)) && Proper(Obj(y)) && Names(x) == Names(y) == {n1, n2, n3}
    ensures Canonical(Obj(x)) == Canonical(Obj(y)) <==> AgreeAt(x, y, n1) && AgreeAt(x, y, n2) && AgreeAt(x, y, n3)
  {
    CanonicalExact(Obj(x), Obj(y));
    SameObjects(x, y);
    ThreeNames(x, y, n1, n2, n3);
  }

  lemma ThreeOf(n1: string, n2: string, n3: string, m: Json, a: Json, i: Json) returns (x: Named<Json>)
    requires n1 != n2 && n2 != n3 && n1 != n3 && Proper(m) && Proper(a) && Proper(i)
    ensures x == Cons(n1, m, Cons(n2, a, Cons(n3, i, Nil))) && Proper(Obj(x)) && Names(x) == {n1, n2, n3}
    ensures Get(x, n1) == m && Get(x, n2) == a && Get(x, n3) == i
  {
    var end: Named<Json> := Nil;
    var l3 := Cons(n3, i, end);
    var l2 := Cons(n2, a, l3);
    assert Names(end) == {} && Names(l3) == {n3} && Names(l2) == {n2, n3};
    assert Get(l3, n3) == i && Get(l2, n2) == a && Get(l2, n3) == i;
    WithField(n3, i, end, {});
    WithField(n2, a, l3, {n3});
    WithField(n1, m, l2, {n2, n3});
    x := Cons(n1, m, l2);
  }

  lemma ThreeNames(x: Named<Json>, y: Named<Json>, n1: string, n2: string, n3: string)
    requires Names(x) == Names(y) == {n1, n2, n3}
    ensures (forall n :: n in Names(x) ==> Canonical(Get(x, n)) == Canonical(Get(y, n))) <==>
            AgreeAt(x, y, n1) && AgreeAt(x, y, n2) && AgreeAt(x, y, n3)
  {
  }

  lemma ModelProper(p: EntityProjection, version: string)
    ensures FlatJson(ModelFlat(p, version)) == Obj(Cons("entity", Str(p.entity), Cons("service", Str(p.service), Cons("version", Str(version), Nil))))
    ensures Proper(FlatJson(ModelFlat(p, version)))
  {
    var none: Named<Flat>, end: Named<Json> := Nil, Nil;
    assert FlatFields(none) == end;
    var v := Cons("version", FStr(version), none);
    assert FlatFields(v) == Cons("version", Str(version), end);
    var w := Cons("service", FStr(p.service), v);
    assert FlatFields(w) == Cons("service", Str(p.service), FlatFields(v));
    assert FlatFields(Cons("entity", FStr(p.entity), w)) == Cons("entity", Str(p.entity), FlatFields(w));
    WithField("version", Str(version), end, {});
    WithField("service", Str(p.service), Cons("version", Str(version), end), {"version"});
    WithField("entity", Str(p.entity), Cons("service", Str(p.service), Cons("version", Str(version), end)), {"version", "service"});
  }

  /** The literal in the printed source reads as the entity that was printed: the same identity and
      version, and the same shape up to the order of names. */
  lemma ReadBack(p: EntityProjection, version: string)
    requires WellNamedProjection(p) && PrintableProjection(p) && OneLine(version)
    ensures Render(p, version) == Preamble(p.entity) + (Literal(p, version) + (");" + "\n"))
    ensures Read(Literal(p, version)).Some? && Canonical(Read(Literal(p, version)).value) == Canonical(ModelJson(p, version))
  {
    RenderFrames(p, version);
    LiteralReads(p, version);
    PrintedCanonical(p, version);
  }

  lemma PrintedCanonical(p: EntityProjection, version: string)
    requires WellNamedProjection(p)
    ensures Canonical(PrintedProjection(p, version)) == Canonical(ModelJson(p, version))
  {
    ModelProper(p, version);
    EntriesAreStored(p.attributes);
    IndexesAreStored(p.indexes);
    AttributesProper(p.attributes);
    IndexesProper(p.indexes);
    var m := FlatJson(ModelFlat(p, version));
    ThreeFields("model", "attributes", "indexes", m, Obj(Sort(PrintedEntries(p.attributes))), Obj(Sort(PrintedIndexes(p.indexes))),
                m, Obj(AttributesJson(p.attributes)), Obj(IndexesJson(p.indexes)));
  }

  // ----- One text for one canonical form ------------------------------------------------------------

  lemma OneOrManyApart(x: OneOrMany, y: OneOrMany)
    requires Canonical(OneOrManyJson(x)) == Canonical(OneOrManyJson(y))
    ensures x == y
  {
    if x.Many? && y.Many? {
      StringsApart(x.names, x.names);
      StringsApart(y.names, y.names);
      StringsApart(x.names, y.names);
    }
  }

  lemma PaddingApart(x: Padding, y: Padding)
    requires Canonical(PaddingJson(x)) == Canonical(PaddingJson(y))
    ensures x == y
  {
    PaddingProper(x);
    PaddingProper(y);
    CanonicalExact(PaddingJson(x), PaddingJson(y));
    SameObjects(PaddingJson(x).fields, PaddingJson(y).fields);
    PaddingGets(x);
    PaddingGets(y);
  }

  lemma PaddingGets(p: Padding)
    ensures var l := PaddingJson(p).fields;
            "length" in Names(l) && "char" in Names(l) && Get(l, "length") == Num(p.length) && Get(l, "char") == Str(p.fill)
  {
  }

  /** Two attributes with one canonical form: the same leaves, and nested shapes with one form each. */
  predicate SameShape(a: Attribute, b: Attribute) {
    && a.kind == b.kind && a.required == b.required && a.hidden == b.hidden && a.readOnly == b.readOnly
    && a.field == b.field && a.enumArray == b.enumArray && a.template == b.template && a.padding == b.padding
    && DeepEqual(ItemsOf(a), ItemsOf(b)) && DeepEqual(PropertiesOf(a), PropertiesOf(b))
  }

  ghost predicate AllAgree(a: Attribute, b: Attribute) {
    AgreeIn(AttributeJson(a).fields, AttributeJson(b).fields, ATTRIBUTE_FIELDS)
  }

  lemma StoredAgree(a: Attribute, b: Attribute, f: string)
    requires AllAgree(a, b) && f in ATTRIBUTE_FIELDS
    ensures f == "padding" ==> DeepEqual(PaddingOf(a), PaddingOf(b))
    ensures f != "padding" ==> DeepEqual(FieldOf(a, ItemsOf(a), PropertiesOf(a), f), FieldOf(b, ItemsOf(b), PropertiesOf(b), f))
  {
    Stored(a, f);
    Stored(b, f);
  }

  lemma SameLeaves(a: Attribute, b: Attribute)
    requires AllAgree(a, b)
    ensures a.required == b.required && a.hidden == b.hidden && a.readOnly == b.readOnly && a.field == b.field
    ensures a.kind == b.kind && a.template == b.template
  {
    StoredAgree(a, b, "type");
    OneOrManyApart(a.kind, b.kind);
    StoredAgree(a, b, "required");
    StoredAgree(a, b, "hidden");
    StoredAgree(a, b, "readOnly");
    StoredAgree(a, b, "field");
    StoredAgree(a, b, "template");
  }

  lemma SameNested(a: Attribute, b: Attribute)
    requires AllAgree(a, b)
    ensures a.enumArray == b.enumArray && a.padding == b.padding
    ensures DeepEqual(ItemsOf(a), ItemsOf(b)) && DeepEqual(PropertiesOf(a), PropertiesOf(b))
  {
    StoredAgree(a, b, "enumArray");
    if a.enumArray.Some? && b.enumArray.Some? {
      StringsApart(a.enumArray.value, a.enumArray.value);
      StringsApart(b.enumArray.value, b.enumArray.value);
      StringsApart(a.enumArray.value, b.enumArray.value);
    }
    StoredAgree(a, b, "padding");
    if a.padding.Some? && b.padding.Some? { PaddingApart(a.padding.value, b.padding.value); }
    StoredAgree(a, b, "items");
    StoredAgree(a, b, "properties");
  }

  lemma ShapeFromCanonical(a: Attribute, b: Attribute)
    requires WellNamed(a) && WellNamed(b) && Canonical(AttributeJson(a)) == Canonical(AttributeJson(b))
    ensures SameShape(a, b)
  {
    AttributeProper(a);
    AttributeProper(b);
    CoveredExact(AttributeJson(a).fields, AttributeJson(b).fields, ATTRIBUTE_FIELDS);
    SameLeaves(a, b);
    SameNested(a, b);
  }

  lemma {:induction false} SameBody(a: Attribute, b: Attribute, indent: string)
    requires WellNamed(a) && WellNamed(b) && Canonical(AttributeJson(a)) == Canonical(AttributeJson(b))
    ensures AttributeBodyLines(a, indent) == AttributeBodyLines(b, indent)
    ensures HasNestedShape(a) == HasNestedShape(b) && (!HasNestedShape(a) ==> AttributeFlat(a) == AttributeFlat(b))
    decreases a, 2
  {
    ShapeFromCanonical(a, b);
    SameItems(a, b, indent);
    SameProperties(a, b, indent);
    assert LockedLines(a, indent) == LockedLines(b, indent);
  }

  lemma {:induction false} SameItems(a: Attribute, b: Attribute, indent: string)
    requires WellNamed(a) && WellNamed(b) && DeepEqual(ItemsOf(a), ItemsOf(b))
    ensures ItemsLines(a, indent) == ItemsLines(b, indent) && PrimitiveFlat(a.items) == PrimitiveFlat(b.items)
    ensures a.items.Some? == b.items.Some? && (a.items.Some? ==> a.items.value.Shaped? == b.items.value.Shaped?)
    decreases a, 1
  {
    if a.items.Some? && b.items.Some? {
      ShapedPrintsObject(a.items.value);
      ShapedPrintsObject(b.items.value);
      if a.items.value.Shaped? {
        SameBody(a.items.value.attribute, b.items.value.attribute, indent + "  ");
      } else {
        assert a.items.value.name == b.items.value.name;
      }
    }
  }

  lemma ShapedPrintsObject(i: ItemShape)
    ensures Canonical(ItemsJson(i)).Obj? <==> i.Shaped?
  {
  }

  lemma {:induction false} SameProperties(a: Attribute, b: Attribute, indent: string)
    requires WellNamed(a) && WellNamed(b) && DeepEqual(PropertiesOf(a), PropertiesOf(b))
    ensures PropertiesLines(a, indent) == PropertiesLines(b, indent) && a.properties.Some? == b.properties.Some?
    decreases a, 1
  {
    if a.properties.Some? {
      SameEntryLines(a.properties.value, b.properties.value, indent + "  ");
    }
  }

  /** Objects with one canonical form have the same names, with one form each. */
  lemma EntriesFromCanonical(l: Named<Attribute>, k: Named<Attribute>)
    requires WellNamedAll(l) && WellNamedAll(k) && Canonical(Obj(AttributesJson(l))) == Canonical(Obj(AttributesJson(k)))
    ensures Names(l) == Names(k)
    ensures forall n :: n in Names(l) ==> Canonical(AttributeJson(Get(l, n))) == Canonical(AttributeJson(Get(k, n)))
  {
    AttributesProper(l);
    AttributesProper(k);
    CanonicalExact(Obj(AttributesJson(l)), Obj(AttributesJson(k)));
    SameObjects(AttributesJson(l), AttributesJson(k));
    forall n | n in Names(l) ensures Canonical(AttributeJson(Get(l, n))) == Canonical(AttributeJson(Get(k, n))) {
      assert Get(AttributesJson(l), n) == AttributeJson(Get(l, n)) && Get(AttributesJson(k), n) == AttributeJson(Get(k, n));
    }
  }

  lemma {:induction false} SameEntryLines(l: Named<Attribute>, k: Named<Attribute>, indent: string)
    requires WellNamedAll(l) && WellNamedAll(k) && Canonical(Obj(AttributesJson(l))) == Canonical(Obj(AttributesJson(k)))
    ensures Sort(EntryLines(l, indent)) == Sort(EntryLines(k, indent))
    decreases l, 1
  {
    EntriesFromCanonical(l, k);
    AttributesProper(l);
    AttributesProper(k);
    LinesUnder(l, indent);
    LinesUnder(k, indent);
    forall n | n in Names(l) ensures Get(EntryLines(l, indent), n) == Get(EntryLines(k, indent), n) {
      SameEntryAt(l, Get(k, n), n, indent);
    }
    SortExact(EntryLines(l, indent), EntryLines(k, indent));
  }

  lemma {:induction false} SameEntryAt(l: Named<Attribute>, other: Attribute, n: string, indent: string)
    requires WellNamedAll(l) && WellNamed(other) && n in Names(l)
    requires Canonical(AttributeJson(Get(l, n))) == Canonical(AttributeJson(other))
    ensures AttributeEntryLines(n, Get(l, n), indent) == AttributeEntryLines(n, other, indent)
    decreases l, 0
  {
    if l.name == n {
      SameBody(l.value, other, indent + "  ");
    } else {
      SameEntryAt(l.rest, other, n, indent);
    }
  }

  lemma KeyFromCanonical(x: Key, y: Key)
    requires Canonical(KeyJson(x)) == Canonical(KeyJson(y))
    ensures x == y
  {
    KeyProper(x);
    KeyProper(y);
    CoveredExact(KeyJson(x).fields, KeyJson(y).fields, KEY_FIELDS);
    forall f | f in KEY_FIELDS ensures DeepEqual(KeyFieldOf(x, f), KeyFieldOf(y, f)) {
      StoredKey(x, f);
      StoredKey(y, f);
    }
    assert DeepEqual(KeyFieldOf(x, "field"), KeyFieldOf(y, "field"));
    assert DeepEqual(KeyFieldOf(x, "composite"), KeyFieldOf(y, "composite"));
    assert DeepEqual(KeyFieldOf(x, "casing"), KeyFieldOf(y, "casing"));
    assert DeepEqual(KeyFieldOf(x, "postfix"), KeyFieldOf(y, "postfix"));
    assert DeepEqual(KeyFieldOf(x, "prefix"), KeyFieldOf(y, "prefix"));
    assert DeepEqual(KeyFieldOf(x, "template"), KeyFieldOf(y, "template"));
    StringsApart(x.composite, x.composite);
    StringsApart(y.composite, y.composite);
    StringsApart(x.composite, y.composite);
  }

  lemma IndexFromCanonical(x: Index, y: Index)
    requires Canonical(IndexJson(x)) == Canonical(IndexJson(y))
    ensures x == y
  {
    IndexProper(x);
    IndexProper(y);
    IndexFinds(x);
    IndexFinds(y);
    CoveredExact(IndexJson(x).fields, IndexJson(y).fields, INDEX_FIELDS);
    var a, b := IndexJson(x).fields, IndexJson(y).fields;
    assert DeepEqual(Find(a, "type"), Find(b, "type")) && DeepEqual(Find(a, "pk"), Find(b, "pk"));
    KeyFromCanonical(x.pk, y.pk);
    assert DeepEqual(Find(a, "sk"), Find(b, "sk"));
    if x.sk.Some? && y.sk.Some? { KeyFromCanonical(x.sk.value, y.sk.value); }
    assert DeepEqual(Find(a, "collection"), Find(b, "collection"));
    if x.collection.Some? && y.collection.Some? { OneOrManyApart(x.collection.value, y.collection.value); }
  }

  lemma SameIndexLines(l: Named<Index>, k: Named<Index>, indent: string)
    requires Distinct(l) && Distinct(k) && Canonical(Obj(IndexesJson(l))) == Canonical(Obj(IndexesJson(k)))
    ensures Sort(IndexEntryLines(l, indent)) == Sort(IndexEntryLines(k, indent))
  {
    IndexesProper(l);
    IndexesProper(k);
    CanonicalExact(Obj(IndexesJson(l)), Obj(IndexesJson(k)));
    SameObjects(IndexesJson(l), IndexesJson(k));
    IndexLinesUnder(l, indent);
    IndexLinesUnder(k, indent);
    forall n | n in Names(l) ensures Get(l, n) == Get(k, n) {
      assert Get(IndexesJson(l), n) == IndexJson(Get(l, n)) && Get(IndexesJson(k), n) == IndexJson(Get(k, n));
      IndexFromCanonical(Get(l, n), Get(k, n));
    }
    SortExact(IndexEntryLines(l, indent), IndexEntryLines(k, indent));
  }

  /** Everything a projection has besides its entity name decides the text, in any insertion order. */
  lemma SameText(p: EntityProjection, q: EntityProjection, version: string)
    requires WellNamedProjection(p) && WellNamedProjection(q)
    requires Canonical(ProjectionJson(p)) == Canonical(ProjectionJson(q)) && p.entity == q.entity && p.service == q.service
    ensures Render(p, version) == Render(q, version)
  {
    ProjectionProper(p);
    ProjectionProper(q);
    PartsDecide(p, q);
    AttributesProper(p.attributes);
    AttributesProper(q.attributes);
    SameEntryLines(p.attributes, q.attributes, "    ");
    SameIndexLines(p.indexes, q.indexes, "    ");
    assert ModelFlat(p, version) == ModelFlat(q, version);
  }

  lemma IdentityFromCanonical(p: EntityProjection, q: EntityProjection)
    requires WellNamedProjection(p) && WellNamedProjection(q) && Canonical(ProjectionJson(p)) == Canonical(ProjectionJson(q))
    ensures p.entity == q.entity && p.service == q.service
  {
    ProjectionProper(p);
    ProjectionProper(q);
    var a, b := ProjectionJson(p).fields, ProjectionJson(q).fields;
    CanonicalExact(Obj(a), Obj(b));
    SameObjects(a, b);
    ProjectionParts(p);
    ProjectionParts(q);
    assert Canonical(Get(a, "entity")) == Canonical(Get(b, "entity")) && Canonical(Get(a, "service")) == Canonical(Get(b, "service"));
  }

  lemma ModelFromCanonical(p: EntityProjection, q: EntityProjection, v: string, w: string)
    requires Canonical(FlatJson(ModelFlat(p, v))) == Canonical(FlatJson(ModelFlat(q, w)))
    ensures p.entity == q.entity && p.service == q.service && v == w
  {
    ModelProper(p, v);
    ModelProper(q, w);
    var a, b := FlatJson(ModelFlat(p, v)).fields, FlatJson(ModelFlat(q, w)).fields;
    CanonicalExact(Obj(a), Obj(b));
    SameObjects(a, b);
    ModelGets(p, v);
    ModelGets(q, w);
  }

  lemma ModelGets(p: EntityProjection, v: string)
    ensures var l := FlatJson(ModelFlat(p, v)).fields;
            && "entity" in Names(l) && "service" in Names(l) && "version" in Names(l)
            && Get(l, "entity") == Str(p.entity) && Get(l, "service") == Str(p.service) && Get(l, "version") == Str(v)
  {
    ModelProper(p, v);
    var end: Named<Json> := Nil;
    var l2 := Cons("version", Str(v), end);
    var l1 := Cons("service", Str(p.service), l2);
    FindCons("version", Str(v), end, "version");
    FindCons("service", Str(p.service), l2, "version");
    FindCons("service", Str(p.service), l2, "service");
    FindCons("entity", Str(p.entity), l1, "entity");
    FindCons("entity", Str(p.entity), l1, "service");
    FindCons("entity", Str(p.entity), l1, "version");
  }

  /** Of one entity, two projections under two versions print the same source exactly when the versions
      are the same and the projections have one canonical form. */
  lemma RenderExact(p: EntityProjection, v: string, q: EntityProjection, w: string)
    requires WellNamedProjection(p) && PrintableProjection(p) && OneLine(v)
    requires WellNamedProjection(q) && PrintableProjection(q) && OneLine(w)
    requires p.entity == q.entity
    ensures Render(p, v) == Render(q, w) <==> v == w && Canonical(ProjectionJson(p)) == Canonical(ProjectionJson(q))
  {
    if Render(p, v) == Render(q, w) {
      SameLiteral(p, v, q, w);
      LiteralReads(p, v);
      LiteralReads(q, w);
      PrintedCanonical(p, v);
      PrintedCanonical(q, w);
      ModelDecides(p, v, q, w);
    }
    if v == w && Canonical(ProjectionJson(p)) == Canonical(ProjectionJson(q)) {
      IdentityFromCanonical(p, q);
      SameText(p, q, v);
    }
  }

  lemma SameLiteral(p: EntityProjection, v: string, q: EntityProjection, w: string)
    requires p.entity == q.entity && Render(p, v) == Render(q, w)
    ensures Literal(p, v) == Literal(q, w)
  {
    RenderFrames(p, v);
    RenderFrames(q, w);
    Cancel(Preamble(p.entity), Literal(p, v), Literal(q, w), ");" + "\n");
  }

  lemma Cancel(a: string, x: string, y: string, b: string)
    requires a + (x + b) == a + (y + b)
    ensures x == y
  {
    assert (a + (x + b))[|a|..] == x + b && (a + (y + b))[|a|..] == y + b;
    assert |x + b| == |y + b|;
    assert (x + b)[..|x|] == x && (y + b)[..|y|] == y;
  }

  lemma ModelDecides(p: EntityProjection, v: string, q: EntityProjection, w: string)
    requires WellNamedProjection(p) && WellNamedProjection(q) && p.entity == q.entity
    requires Canonical(ModelJson(p, v)) == Canonical(ModelJson(q, w))
    ensures v == w && Canonical(ProjectionJson(p)) == Canonical(ProjectionJson(q))
  {
    ModelProper(p, v);
    ModelProper(q, w);
    AttributesProper(p.attributes);
    AttributesProper(q.attributes);
    IndexesProper(p.indexes);
    IndexesProper(q.indexes);
    ThreeFields("model", "attributes", "indexes",
                FlatJson(ModelFlat(p, v)), Obj(AttributesJson(p.attributes)), Obj(IndexesJson(p.indexes)),
                FlatJson(ModelFlat(q, w)), Obj(AttributesJson(q.attributes)), Obj(IndexesJson(q.indexes)));
    ModelFromCanonical(p, q, v, w);
    ProjectionProper(p);
    ProjectionProper(q);
    PartsDecide(p, q);
  }
}
