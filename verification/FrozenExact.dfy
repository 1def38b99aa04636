/** When the printed literal reads back: exactly when names are property names and strings have no line
    terminators. The reader returns nothing else, so nothing else can come back. */
module FrozenExact {
  import opened Wrappers
  import opened NamedLists
  import opened CanonicalJson
  import opened Projection
  import opened LiteralTokens
  import opened LiteralValues
  import opened ObjectLiteral
  import opened LiteralText
  import opened FrozenPrinter
  import opened FrozenLaws

  // ----- What the reader can return -----------------------------------------------------------------

  predicate Readable(j: Json) {
    match j
    case Str(s) => OneLine(s)
    case Arr(items) => forall i :: 0 <= i < |items| ==> Readable(items[i])
    case Obj(fields) => ReadableFields(fields)
    case _ => true
  }

  predicate ReadableFields(l: Named<Json>) {
    l.Cons? ==> IsName(l.name) && Readable(l.value) && ReadableFields(l.rest)
  }

  predicate OneLineTokens(ts: seq<Token>) {
    forall i :: 0 <= i < |ts| && ts[i].Text? ==> OneLine(ts[i].text)
  }

  lemma {:induction false} StringsAreOneLine(s: string)
    requires ReadString(s).Some?
    ensures OneLine(ReadString(s).value.0)
    decreases |s|
  {
    if s[0] == '\\' {
      StringsAreOneLine(s[2..]);
    } else if s[0] != '\'' {
      StringsAreOneLine(s[1..]);
    }
  }

  lemma {:induction false} LexedIsOneLine(s: string)
    requires Lex(s).Some?
    ensures OneLineTokens(Lex(s).value)
    decreases |s|
  {
    if s == "" {
    } else if IsSpace(s[0]) || IsPunct(s[0]) {
      LexedIsOneLine(s[1..]);
    } else if s[0] == '\'' {
      var r := ReadString(s[1..]).value;
      StringsAreOneLine(s[1..]);
      LexedIsOneLine(r.1);
    } else {
      LexedIsOneLine(s[RunLength(s)..]);
    }
  }

  lemma {:induction false} ParsedIsReadable(ts: seq<Token>)
    requires OneLineTokens(ts) && ParseValue(ts).Some?
    ensures Readable(ParseValue(ts).value.0) && OneLineTokens(ParseValue(ts).value.1)
    decreases |ts|, 0
  {
    if ts[0] == Punct('[') {
      ParsedElements(ts[1..]);
    } else if ts[0] == Punct('{') {
      ParsedFields(ts[1..]);
    }
  }

  lemma {:induction false} ParsedElements(ts: seq<Token>)
    requires OneLineTokens(ts) && ParseElements(ts).Some?
    ensures forall i :: 0 <= i < |ParseElements(ts).value.0| ==> Readable(ParseElements(ts).value.0[i])
    ensures OneLineTokens(ParseElements(ts).value.1)
    decreases |ts|, 1
  {
    if !Starts(ts, ']') {
      ParsedIsReadable(ts);
      var v := ParseValue(ts).value;
      if Starts(v.1, ',') { ParsedElements(v.1[1..]); }
    }
  }

  lemma {:induction false} ParsedFields(ts: seq<Token>)
    requires OneLineTokens(ts) && ParseFields(ts).Some?
    ensures ReadableFields(ParseFields(ts).value.0) && OneLineTokens(ParseFields(ts).value.1)
    decreases |ts|, 1
  {
    if !Starts(ts, '}') {
      ParsedIsReadable(ts[2..]);
      GivenIsName(ts[0]);
      var v := ParseValue(ts[2..]).value;
      if Starts(v.1, ',') { ParsedFields(v.1[1..]); }
    }
  }

  /** Whatever text: a value that is read has property names for names and strings of one line. */
  lemma ReadIsReadable(text: string)
    requires Read(text).Some?
    ensures Readable(Read(text).value)
  {
    LexedIsOneLine(text);
    ParsedIsReadable(Lex(text).value);
  }

  // ----- The canonical form has the same names and strings -------------------------------------------

  lemma {:induction false} InsertReadable(name: string, value: Json, l: Named<Json>)
    ensures ReadableFields(Insert(name, value, l)) <==> IsName(name) && Readable(value) && ReadableFields(l)
  {
    if l.Cons? { InsertReadable(name, value, l.rest); }
  }

  lemma {:induction false} SortReadable(l: Named<Json>)
    ensures ReadableFields(Sort(l)) <==> ReadableFields(l)
  {
    if l.Cons? {
      SortReadable(l.rest);
      InsertReadable(l.name, l.value, Sort(l.rest));
    }
  }

  lemma {:induction false} CanonicalReadable(j: Json)
    ensures Readable(Canonical(j)) <==> Readable(j)
    decreases j, 1
  {
    match j
    case Arr(items) =>
      var cs := Canonical(j).items;
      forall i | 0 <= i < |items| ensures Readable(cs[i]) <==> Readable(items[i]) { CanonicalReadable(items[i]); }
    case Obj(fields) =>
      CanonicalFieldsReadable(fields);
      SortReadable(CanonicalFields(fields));
    case _ =>
  }

  lemma {:induction false} CanonicalFieldsReadable(l: Named<Json>)
    ensures ReadableFields(CanonicalFields(l)) <==> ReadableFields(l)
    decreases l, 0
  {
    if l.Cons? {
      CanonicalReadable(l.value);
      CanonicalFieldsReadable(l.rest);
    }
  }

  // ----- What a readable projection is ------------------------------------------------------------------

  lemma ConsReadable(name: string, value: Json, rest: Named<Json>)
    requires ReadableFields(Cons(name, value, rest))
    ensures Readable(value) && ReadableFields(rest)
  {
  }

  lemma OptReadable(name: string, value: Option<Json>, rest: Named<Json>)
    requires ReadableFields(Opt(name, value, rest))
    ensures (value.Some? ==> Readable(value.value)) && ReadableFields(rest)
  {
  }

  lemma StringsReadable(ss: seq<string>)
    requires Readable(Strings(ss))
    ensures OneLineAll(ss)
  {
    forall i | 0 <= i < |ss| ensures OneLine(ss[i]) { assert Strings(ss).items[i] == Str(ss[i]); }
  }

  lemma OneOrManyReadable(x: OneOrMany)
    requires Readable(OneOrManyJson(x))
    ensures OneLineOneOrMany(x)
  {
    if x.Many? { StringsReadable(x.names); }
  }

  lemma OptionalsReadable(a: Attribute)
    requires ReadableFields(OptionalFields(a))
    ensures (a.enumArray.Some? ==> OneLineAll(a.enumArray.value)) && OneLineOpt(a.template)
    ensures a.padding.Some? ==> OneLine(a.padding.value.fill)
    ensures a.items.Some? ==> Readable(ItemsJson(a.items.value))
    ensures a.properties.Some? ==> ReadableFields(AttributesJson(a.properties.value))
  {
    var padding := Opt("padding", PaddingOf(a), Nil);
    var template := Opt("template", StrOpt(a.template), padding);
    var items := Opt("items", ItemsOf(a), template);
    var properties := Opt("properties", PropertiesOf(a), items);
    OptReadable("enumArray", JsonOf(StringsFlat(a.enumArray)), properties);
    OptReadable("properties", PropertiesOf(a), items);
    OptReadable("items", ItemsOf(a), template);
    OptReadable("template", StrOpt(a.template), padding);
    OptReadable("padding", PaddingOf(a), Nil);
    if a.enumArray.Some? { StringsReadable(a.enumArray.value); }
    if a.padding.Some? { PaddingReadable(a.padding.value); }
  }

  lemma PaddingReadable(p: Padding)
    requires Readable(PaddingJson(p))
    ensures OneLine(p.fill)
  {
    ConsReadable("length", Num(p.length), Cons("char", Str(p.fill), Nil));
    ConsReadable("char", Str(p.fill), Nil);
  }

  lemma LockedReadable(a: Attribute, rest: Named<Json>)
    requires ReadableFields(Cons("type", OneOrManyJson(a.kind), Cons("required", Flag(a.required), Cons("hidden", Flag(a.hidden),
                            Cons("readOnly", Flag(a.readOnly), Cons("field", Str(a.field), rest))))))
    ensures Readable(OneOrManyJson(a.kind)) && OneLine(a.field) && ReadableFields(rest)
  {
    var f1 := Cons("field", Str(a.field), rest);
    var f2 := Cons("readOnly", Flag(a.readOnly), f1);
    var f3 := Cons("hidden", Flag(a.hidden), f2);
    ConsReadable("type", OneOrManyJson(a.kind), Cons("required", Flag(a.required), f3));
    ConsReadable("required", Flag(a.required), f3);
    ConsReadable("hidden", Flag(a.hidden), f2);
    ConsReadable("readOnly", Flag(a.readOnly), f1);
    ConsReadable("field", Str(a.field), rest);
  }

  lemma {:induction false} AttributeReadable(a: Attribute)
    requires Readable(AttributeJson(a))
    ensures Printable(a)
    decreases a, 1
  {
    LockedReadable(a, OptionalFields(a));
    OneOrManyReadable(a.kind);
    OptionalsReadable(a);
    if a.items.Some? && a.items.value.Shaped? { AttributeReadable(a.items.value.attribute); }
    if a.properties.Some? { AttributesReadable(a.properties.value); }
  }

  lemma {:induction false} AttributesReadable(l: Named<Attribute>)
    requires ReadableFields(AttributesJson(l))
    ensures PrintableAll(l)
    decreases l, 0
  {
    if l.Cons? {
      AttributeReadable(l.value);
      AttributesReadable(l.rest);
    }
  }

  lemma KeyReadable(k: Key)
    requires Readable(KeyJson(k))
    ensures PrintableKey(k)
  {
    var postfix := Opt("postfix", StrOpt(k.postfix), Nil);
    var prefix := Opt("prefix", StrOpt(k.prefix), postfix);
    var template := Opt("template", StrOpt(k.template), prefix);
    var casing := Opt("casing", StrOpt(k.casing), template);
    ConsReadable("field", Str(k.field), Cons("composite", Strings(k.composite), casing));
    ConsReadable("composite", Strings(k.composite), casing);
    StringsReadable(k.composite);
    OptReadable("casing", StrOpt(k.casing), template);
    OptReadable("template", StrOpt(k.template), prefix);
    OptReadable("prefix", StrOpt(k.prefix), postfix);
    OptReadable("postfix", StrOpt(k.postfix), Nil);
  }

  lemma IndexReadable(i: Index)
    requires Readable(IndexJson(i))
    ensures PrintableIndex(i)
  {
    var collection := if i.collection.Some? then Some(OneOrManyJson(i.collection.value)) else None;
    var sk := if i.sk.Some? then Some(KeyJson(i.sk.value)) else None;
    var end := Opt("collection", collection, Nil);
    ConsReadable("type", Str(if i.clustered then "clustered" else "isolated"), Cons("pk", KeyJson(i.pk), Opt("sk", sk, end)));
    ConsReadable("pk", KeyJson(i.pk), Opt("sk", sk, end));
    OptReadable("sk", sk, end);
    OptReadable("collection", collection, Nil);
    KeyReadable(i.pk);
    if i.sk.Some? { KeyReadable(i.sk.value); }
    if i.collection.Some? { OneOrManyReadable(i.collection.value); }
  }

  lemma {:induction false} IndexesReadable(l: Named<Index>)
    requires ReadableFields(IndexesJson(l))
    ensures PrintableIndexes(l)
  {
    if l.Cons? {
      IndexReadable(l.value);
      IndexesReadable(l.rest);
    }
  }

  lemma ModelReadable(p: EntityProjection, version: string)
    requires Readable(ModelJson(p, version))
    ensures PrintableProjection(p) && OneLine(version)
  {
    ModelProper(p, version);
    var indexes := Cons("indexes", Obj(IndexesJson(p.indexes)), Nil);
    var attributes := Cons("attributes", Obj(AttributesJson(p.attributes)), indexes);
    ConsReadable("model", FlatJson(ModelFlat(p, version)), attributes);
    ConsReadable("attributes", Obj(AttributesJson(p.attributes)), indexes);
    ConsReadable("indexes", Obj(IndexesJson(p.indexes)), Nil);
    var last := Cons("version", Str(version), Nil);
    ConsReadable("entity", Str(p.entity), Cons("service", Str(p.service), last));
    ConsReadable("service", Str(p.service), last);
    ConsReadable("version", Str(version), Nil);
    AttributesReadable(p.attributes);
    IndexesReadable(p.indexes);
  }

  // ----- Read-back is exact -----------------------------------------------------------------------------

  /** The literal of the printed source reads as the entity that was printed. */
  predicate ReadsBack(p: EntityProjection, version: string) {
    var r := Read(Literal(p, version));
    r.Some? && Canonical(r.value) == Canonical(ModelJson(p, version))
  }

  /** It does exactly when all names are property names as they stand and all strings have one line. */
  lemma ReadBackExactly(p: EntityProjection, version: string)
    requires WellNamedProjection(p)
    ensures ReadsBack(p, version) <==> PrintableProjection(p) && OneLine(version)
  {
    if PrintableProjection(p) && OneLine(version) { ReadBack(p, version); }
    if ReadsBack(p, version) {
      ReadIsReadable(Literal(p, version));
      CanonicalReadable(Read(Literal(p, version)).value);
      CanonicalReadable(ModelJson(p, version));
      ModelReadable(p, version);
    }
  }

  lemma {:induction false} PrintableNames(l: Named<Attribute>, name: string)
    requires PrintableAll(l) && name in Names(l)
    ensures IsName(name)
  {
    if l.name != name { PrintableNames(l.rest, name); }
  }

  /** An attribute called `first-name`, which nothing forbids, keeps the source from reading back. */
  lemma HyphenatedNameFails(p: EntityProjection, version: string)
    requires WellNamedProjection(p) && "first-name" in Names(p.attributes)
    ensures !ReadsBack(p, version)
  {
    ReadBackExactly(p, version);
    assert !IsNamePart("first-name"[5]);
    if PrintableProjection(p) { PrintableNames(p.attributes, "first-name"); }
  }
}
