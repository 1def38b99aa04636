/** The closed allowlist of an entity's shape, and the JSON value it is stored and compared as. An
    optional field that is absent is a name the object does not have. */
module Projection {
  import opened Wrappers
  import opened NamedLists
  import opened CanonicalJson

  /** A name or a list of names: attribute types and collections come in both forms. */
  datatype OneOrMany = One(name: string) | Many(names: seq<string>)

  datatype Padding = Padding(length: nat, fill: string)

  datatype ItemShape = Primitive(name: string) | Shaped(attribute: Attribute)

  datatype Attribute = Attribute(
    kind: OneOrMany,
    required: bool,
    hidden: bool,
    readOnly: bool,
    field: string,
    enumArray: Option<seq<string>>,
    properties: Option<Named<Attribute>>,
    items: Option<ItemShape>,
    template: Option<string>,
    padding: Option<Padding>)

  datatype Key = Key(
    field: string,
    composite: seq<string>,
    casing: Option<string>,
    template: Option<string>,
    prefix: Option<string>,
    postfix: Option<string>)

  datatype Index = Index(clustered: bool, pk: Key, sk: Option<Key>, collection: Option<OneOrMany>)

  datatype EntityProjection = EntityProjection(
    entity: string,
    service: string,
    attributes: Named<Attribute>,
    indexes: Named<Index>)

  // ----- As JSON -------------------------------------------------------------------------------------

  function OneOrManyJson(x: OneOrMany): Json {
    if x.One? then Str(x.name) else Strings(x.names)
  }

  function PaddingJson(p: Padding): Json {
    Obj(Cons("length", Num(p.length), Cons("char", Str(p.fill), Nil)))
  }

  /** A field that may be absent. */
  function Opt(name: string, value: Option<Json>, rest: Named<Json>): Named<Json> {
    if value.Some? then Cons(name, value.value, rest) else rest
  }

  function StrOpt(s: Option<string>): Option<Json> {
    if s.Some? then Some(Str(s.value)) else None
  }

  function AttributeJson(a: Attribute): Json
    decreases a, 1
  {
    Obj(Cons("type", OneOrManyJson(a.kind),
        Cons("required", Flag(a.required),
        Cons("hidden", Flag(a.hidden),
        Cons("readOnly", Flag(a.readOnly),
        Cons("field", Str(a.field), OptionalFields(a)))))))
  }

  function OptionalFields(a: Attribute): Named<Json>
    decreases a, 0
  {
    Opt("enumArray", if a.enumArray.Some? then Some(Strings(a.enumArray.value)) else None,
    Opt("properties", if a.properties.Some? then Some(Obj(AttributesJson(a.properties.value))) else None,
    Opt("items", if a.items.Some? then Some(ItemsJson(a.items.value)) else None,
    Opt("template", StrOpt(a.template),
    Opt("padding", if a.padding.Some? then Some(PaddingJson(a.padding.value)) else None, Nil)))))
  }

  function ItemsJson(i: ItemShape): Json {
    if i.Primitive? then Str(i.name) else AttributeJson(i.attribute)
  }

  function AttributesJson(l: Named<Attribute>): Named<Json> {
    if l.Nil? then Nil else Cons(l.name, AttributeJson(l.value), AttributesJson(l.rest))
  }

  function KeyJson(k: Key): Json {
    Obj(Cons("field", Str(k.field),
        Cons("composite", Strings(k.composite),
        Opt("casing", StrOpt(k.casing),
        Opt("template", StrOpt(k.template),
        Opt("prefix", StrOpt(k.prefix),
        Opt("postfix", StrOpt(k.postfix), Nil)))))))
  }

  function IndexJson(i: Index): Json {
    Obj(Cons("type", Str(if i.clustered then "clustered" else "isolated"),
        Cons("pk", KeyJson(i.pk),
        Opt("sk", if i.sk.Some? then Some(KeyJson(i.sk.value)) else None,
        Opt("collection", if i.collection.Some? then Some(OneOrManyJson(i.collection.value)) else None, Nil)))))
  }

  function IndexesJson(l: Named<Index>): Named<Json> {
    if l.Nil? then Nil else Cons(l.name, IndexJson(l.value), IndexesJson(l.rest))
  }

  function ProjectionJson(p: EntityProjection): Json {
    Obj(Cons("entity", Str(p.entity),
        Cons("service", Str(p.service),
        Cons("attributes", Obj(AttributesJson(p.attributes)),
        Cons("indexes", Obj(IndexesJson(p.indexes)), Nil)))))
  }

  // ----- Projections are objects with each name once ---------------------------------------------

  predicate WellNamed(a: Attribute) {
    && (a.properties.Some? ==> WellNamedAll(a.properties.value))
    && (a.items.Some? ==> WellNamedItems(a.items.value))
  }

  predicate WellNamedItems(i: ItemShape) {
    i.Shaped? ==> WellNamed(i.attribute)
  }

  predicate WellNamedAll(l: Named<Attribute>) {
    l.Cons? ==> l.name !in Names(l.rest) && WellNamed(l.value) && WellNamedAll(l.rest)
  }

  predicate WellNamedProjection(p: EntityProjection) {
    WellNamedAll(p.attributes) && Distinct(p.indexes)
  }

  lemma StringsProper(ss: seq<string>)
    ensures Proper(Strings(ss))
  {
  }

  lemma OneOrManyProper(x: OneOrMany)
    ensures Proper(OneOrManyJson(x))
  {
    if x.Many? { StringsProper(x.names); }
  }

  /** An object whose names are all in `allowed`. */
  predicate Fits(l: Named<Json>, allowed: set<string>) {
    Proper(Obj(l)) && Names(l) <= allowed
  }

  lemma WithField(name: string, value: Json, rest: Named<Json>, allowed: set<string>)
    requires Fits(rest, allowed) && Proper(value) && name !in allowed
    ensures Fits(Cons(name, value, rest), allowed + {name})
  {
  }

  lemma WithOpt(name: string, value: Option<Json>, rest: Named<Json>, allowed: set<string>)
    requires Fits(rest, allowed) && (value.Some? ==> Proper(value.value)) && name !in allowed
    ensures Fits(Opt(name, value, rest), allowed + {name})
  {
  }

  const ATTRIBUTE_FIELDS: set<string> :=
    {"enumArray", "field", "hidden", "items", "padding", "properties", "readOnly", "required", "template", "type"}

  const KEY_FIELDS: set<string> := {"casing", "composite", "field", "postfix", "prefix", "template"}

  const INDEX_FIELDS: set<string> := {"collection", "pk", "sk", "type"}

  lemma PaddingProper(p: Padding)
    ensures Proper(PaddingJson(p))
  {
    WithField("char", Str(p.fill), Nil, {});
    WithField("length", Num(p.length), Cons("char", Str(p.fill), Nil), {"char"});
  }

  lemma OptionalFieldsFit(a: Attribute)
    requires a.properties.Some? ==> Proper(Obj(AttributesJson(a.properties.value)))
    requires a.items.Some? ==> Proper(ItemsJson(a.items.value))
    ensures Fits(OptionalFields(a), {"padding", "template", "items", "properties", "enumArray"})
  {
    if a.enumArray.Some? { StringsProper(a.enumArray.value); }
    if a.padding.Some? { PaddingProper(a.padding.value); }
    var padding := Opt("padding", if a.padding.Some? then Some(PaddingJson(a.padding.value)) else None, Nil);
    WithOpt("padding", if a.padding.Some? then Some(PaddingJson(a.padding.value)) else None, Nil, {});
    var template := Opt("template", StrOpt(a.template), padding);
    WithOpt("template", StrOpt(a.template), padding, {"padding"});
    var items := if a.items.Some? then Some(ItemsJson(a.items.value)) else None;
    WithOpt("items", items, template, {"padding", "template"});
    var properties := if a.properties.Some? then Some(Obj(AttributesJson(a.properties.value))) else None;
    WithOpt("properties", properties, Opt("items", items, template), {"padding", "template", "items"});
    WithOpt("enumArray", if a.enumArray.Some? then Some(Strings(a.enumArray.value)) else None,
            Opt("properties", properties, Opt("items", items, template)), {"padding", "template", "items", "properties"});
  }

  /** The five fields every attribute has, before whatever optional ones. */
  lemma LockedFits(a: Attribute, rest: Named<Json>)
    requires Fits(rest, {"template", "properties", "padding", "items", "enumArray"})
    ensures Fits(Cons("type", OneOrManyJson(a.kind), Cons("required", Flag(a.required), Cons("hidden", Flag(a.hidden),
                 Cons("readOnly", Flag(a.readOnly), Cons("field", Str(a.field), rest))))), ATTRIBUTE_FIELDS)
  {
    OneOrManyProper(a.kind);
    var names := {"template", "properties", "padding", "items", "enumArray"};
    var f1 := Cons("field", Str(a.field), rest);
    WithField("field", Str(a.field), rest, names);
    var f2 := Cons("readOnly", Flag(a.readOnly), f1);
    WithField("readOnly", Flag(a.readOnly), f1, names + {"field"});
    var f3 := Cons("hidden", Flag(a.hidden), f2);
    WithField("hidden", Flag(a.hidden), f2, names + {"field", "readOnly"});
    var f4 := Cons("required", Flag(a.required), f3);
    WithField("required", Flag(a.required), f3, names + {"field", "readOnly", "hidden"});
    WithField("type", OneOrManyJson(a.kind), f4, names + {"field", "readOnly", "hidden", "required"});
  }

  lemma AttributeFits(a: Attribute)
    requires a.properties.Some? ==> Proper(Obj(AttributesJson(a.properties.value)))
    requires a.items.Some? ==> Proper(ItemsJson(a.items.value))
    ensures Fits(AttributeJson(a).fields, ATTRIBUTE_FIELDS)
  {
    OptionalFieldsFit(a);
    LockedFits(a, OptionalFields(a));
  }

  lemma {:induction false} AttributeProper(a: Attribute)
    requires WellNamed(a)
    ensures Fits(AttributeJson(a).fields, ATTRIBUTE_FIELDS)
    decreases a, 1
  {
    if a.properties.Some? { AttributesProper(a.properties.value); }
    if a.items.Some? && a.items.value.Shaped? { AttributeProper(a.items.value.attribute); }
    AttributeFits(a);
  }

  lemma {:induction false} AttributesProper(l: Named<Attribute>)
    requires WellNamedAll(l)
    ensures Proper(Obj(AttributesJson(l))) && Names(AttributesJson(l)) == Names(l) && Distinct(l)
    ensures forall n :: n in Names(l) ==> Get(AttributesJson(l), n) == AttributeJson(Get(l, n)) && WellNamed(Get(l, n))
    decreases l, 0
  {
    if l.Cons? {
      AttributeProper(l.value);
      AttributesProper(l.rest);
    }
  }

  lemma KeyProper(k: Key)
    ensures Fits(KeyJson(k).fields, KEY_FIELDS)
  {
    StringsProper(k.composite);
    var f1 := Opt("postfix", StrOpt(k.postfix), Nil);
    WithOpt("postfix", StrOpt(k.postfix), Nil, {});
    var f2 := Opt("prefix", StrOpt(k.prefix), f1);
    WithOpt("prefix", StrOpt(k.prefix), f1, {"postfix"});
    var f3 := Opt("template", StrOpt(k.template), f2);
    WithOpt("template", StrOpt(k.template), f2, {"postfix", "prefix"});
    var f4 := Opt("casing", StrOpt(k.casing), f3);
    WithOpt("casing", StrOpt(k.casing), f3, {"postfix", "prefix", "template"});
    WithField("composite", Strings(k.composite), f4, {"postfix", "prefix", "template", "casing"});
    WithField("field", Str(k.field), Cons("composite", Strings(k.composite), f4), {"postfix", "prefix", "template", "casing", "composite"});
  }

  lemma IndexProper(i: Index)
    ensures Fits(IndexJson(i).fields, INDEX_FIELDS)
  {
    KeyProper(i.pk);
    if i.sk.Some? { KeyProper(i.sk.value); }
    var collection := if i.collection.Some? then Some(OneOrManyJson(i.collection.value)) else None;
    if i.collection.Some? { OneOrManyProper(i.collection.value); }
    var sk := if i.sk.Some? then Some(KeyJson(i.sk.value)) else None;
    var f1 := Opt("collection", collection, Nil);
    WithOpt("collection", collection, Nil, {});
    var f2 := Opt("sk", sk, f1);
    WithOpt("sk", sk, f1, {"collection"});
    WithField("pk", KeyJson(i.pk), f2, {"collection", "sk"});
    WithField("type", Str(if i.clustered then "clustered" else "isolated"), Cons("pk", KeyJson(i.pk), f2), {"collection", "sk", "pk"});
  }

  lemma {:induction false} IndexesProper(l: Named<Index>)
    requires Distinct(l)
    ensures Proper(Obj(IndexesJson(l))) && Names(IndexesJson(l)) == Names(l)
    ensures forall n :: n in Names(l) ==> Get(IndexesJson(l), n) == IndexJson(Get(l, n))
  {
    if l.Cons? {
      IndexProper(l.value);
      IndexesProper(l.rest);
    }
  }

  lemma ProjectionProper(p: EntityProjection)
    requires WellNamedProjection(p)
    ensures Proper(ProjectionJson(p))
  {
    AttributesProper(p.attributes);
    IndexesProper(p.indexes);
    var f1 := Cons("indexes", Obj(IndexesJson(p.indexes)), Nil);
    WithField("indexes", Obj(IndexesJson(p.indexes)), Nil, {});
    var f2 := Cons("attributes", Obj(AttributesJson(p.attributes)), f1);
    WithField("attributes", Obj(AttributesJson(p.attributes)), f1, {"indexes"});
    WithField("service", Str(p.service), f2, {"indexes", "attributes"});
    WithField("entity", Str(p.entity), Cons("service", Str(p.service), f2), {"indexes", "attributes", "service"});
  }
}
