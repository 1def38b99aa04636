/** Reading a frozen source back gives the projection it was printed from. */
module FrozenReadBack {
  import opened Wrappers
  import opened NamedLists
  import opened CanonicalJson
  import opened Projection
  import opened LiteralTokens
  import opened LiteralValues
  import opened ObjectLiteral
  import opened LiteralText
  import opened FrozenPrinter

  // ----- Lines ------------------------------------------------------------------------------------------

  lemma {:induction false} JoinAppend(a: seq<string>, b: seq<string>)
    ensures JoinLines(a + b) == JoinLines(a) + JoinLines(b)
  {
    if a == [] {
      assert a + b == b;
    } else {
      assert (a + b)[1..] == a[1..] + b;
      JoinAppend(a[1..], b);
      Assoc(a[0], "\n" + JoinLines(a[1..]), JoinLines(b));
      Assoc("\n", JoinLines(a[1..]), JoinLines(b));
    }
  }

  lemma JoinOne(line: string)
    ensures JoinLines([line]) == line + "\n"
  {
    assert [line][1..] == [] && "\n" + "" == "\n";
  }

  /** Lines that read as properties. */
  ghost predicate LinesRead(lines: seq<string>, fs: Named<Json>) {
    ReadsAsFields(JoinLines(lines), fs)
  }

  lemma LinesAppend(a: seq<string>, f: Named<Json>, b: seq<string>, g: Named<Json>)
    requires LinesRead(a, f) && LinesRead(b, g)
    ensures LinesRead(a + b, Append(f, g))
  {
    JoinAppend(a, b);
    FieldsAppend(JoinLines(a), f, JoinLines(b), g);
  }

  lemma LineAppend(line: string, name: string, v: Json, lines: seq<string>, fs: Named<Json>)
    requires LinesRead([line], Cons(name, v, Nil)) && LinesRead(lines, fs)
    ensures LinesRead([line] + lines, Cons(name, v, fs))
  {
    LinesAppend([line], Cons(name, v, Nil), lines, fs);
    AppendSingle(name, v, fs);
  }

  lemma AppendSingle(name: string, v: Json, fs: Named<Json>)
    ensures Append(Cons(name, v, Nil), fs) == Cons(name, v, fs)
  {
    assert Append(Nil, fs) == fs;
  }

  lemma NoLines()
    ensures LinesRead([], Nil)
  {
    BlankFields("");
  }

  lemma LineReads(indent: string, name: string, text: string, v: Json)
    requires Blank(indent) && IsName(name) && ReadsAs(text, v)
    ensures LinesRead([Line(indent, name, text)], Cons(name, v, Nil))
  {
    JoinOne(Line(indent, name, text));
    FieldText(name, text, v, "\n");
    BlankFields(indent);
    var field := (name + ": ") + (text + ("," + "\n"));
    FieldsAppend(indent, Nil, field, Cons(name, v, Nil));
    Assoc(indent, (name + ": ") + (text + ","), "\n");
    Assoc(name + ": ", text + ",", "\n");
    Assoc(text, ",", "\n");
  }

  lemma OptLineReads(indent: string, name: string, value: Option<Flat>)
    requires Blank(indent) && IsName(name) && (value.Some? ==> FlatReadable(value.value))
    ensures LinesRead(OptLine(indent, name, value), Opt(name, JsonOf(value), Nil))
  {
    if value.Some? {
      FlatReads(value.value);
      LineReads(indent, name, Emit(value.value), FlatJson(value.value));
    } else {
      NoLines();
    }
  }

  /** `name: {`, the properties on lines of their own, `},`. */
  lemma BlockReads(indent: string, name: string, body: seq<string>, fs: Named<Json>)
    requires Blank(indent) && IsName(name) && LinesRead(body, fs)
    ensures LinesRead(BlockLines(indent, name, body), Cons(name, Obj(fs), Nil))
  {
    BracesText("\n", JoinLines(body), fs, indent);
    var braces := ("{" + "\n") + (JoinLines(body) + (indent + "}"));
    FieldText(name, braces, Obj(fs), "\n");
    BlankFields(indent);
    FieldsAppend(indent, Nil, (name + ": ") + (braces + ("," + "\n")), Cons(name, Obj(fs), Nil));
    BlockText(indent, name, body);
  }

  lemma BlockText(indent: string, name: string, body: seq<string>)
    ensures JoinLines(BlockLines(indent, name, body)) ==
            indent + ((name + ": ") + ((("{" + "\n") + (JoinLines(body) + (indent + "}"))) + ("," + "\n")))
  {
    var open, close := indent + ((name + ": ") + "{"), indent + ("}" + ",");
    JoinAppend([open], body + [close]);
    JoinAppend(body, [close]);
    JoinOne(open);
    JoinOne(close);
    var inner := JoinLines(body);
    calc {
      JoinLines(BlockLines(indent, name, body));
      (open + "\n") + (inner + (close + "\n"));
      { Assoc(indent, (name + ": ") + "{", "\n"); Assoc(name + ": ", "{", "\n"); }
      (indent + ((name + ": ") + ("{" + "\n"))) + (inner + (close + "\n"));
      { Assoc(indent, "}" + ",", "\n"); Assoc("}", ",", "\n"); }
      (indent + ((name + ": ") + ("{" + "\n"))) + (inner + (indent + ("}" + ("," + "\n"))));
      { Assoc(indent, "}", "," + "\n"); Assoc(inner, indent + "}", "," + "\n"); }
      (indent + ((name + ": ") + ("{" + "\n"))) + ((inner + (indent + "}")) + ("," + "\n"));
      { Assoc(indent, (name + ": ") + ("{" + "\n"), (inner + (indent + "}")) + ("," + "\n")); }
      indent + (((name + ": ") + ("{" + "\n")) + ((inner + (indent + "}")) + ("," + "\n")));
      { Assoc(name + ": ", "{" + "\n", (inner + (indent + "}")) + ("," + "\n")); }
      indent + ((name + ": ") + (("{" + "\n") + ((inner + (indent + "}")) + ("," + "\n"))));
      { Assoc("{" + "\n", inner + (indent + "}"), "," + "\n"); }
      indent + ((name + ": ") + ((("{" + "\n") + (inner + (indent + "}"))) + ("," + "\n")));
    }
  }

  lemma LockedNames()
    ensures IsName("type") && IsName("required") && IsName("hidden") && IsName("readOnly") && IsName("field")
  {
  }

  lemma OptionalNames()
    ensures IsName("enumArray") && IsName("items") && IsName("padding") && IsName("properties") && IsName("template")
  {
  }

  lemma KeyNames()
    ensures IsName("char") && IsName("length") && IsName("composite") && IsName("casing") && IsName("postfix") && IsName("prefix")
  {
  }

  lemma IndexNames()
    ensures IsName("pk") && IsName("sk") && IsName("collection")
  {
  }

  lemma ModelNames()
    ensures IsName("model") && IsName("entity") && IsName("service") && IsName("version") && IsName("attributes") && IsName("indexes")
  {
  }

  lemma PlainNames()
    ensures IsName("type") && IsName("required") && IsName("hidden") && IsName("readOnly") && IsName("field")
    ensures IsName("enumArray") && IsName("items") && IsName("padding") && IsName("properties") && IsName("template")
    ensures IsName("char") && IsName("length") && IsName("composite") && IsName("casing") && IsName("postfix") && IsName("prefix")
    ensures IsName("pk") && IsName("sk") && IsName("collection")
    ensures IsName("model") && IsName("entity") && IsName("service") && IsName("version") && IsName("attributes") && IsName("indexes")
  {
    LockedNames();
    OptionalNames();
    KeyNames();
    IndexNames();
    ModelNames();
  }

  lemma Deeper(indent: string)
    requires Blank(indent)
    ensures Blank(indent + "  ")
  {
  }

  // ----- Attributes --------------------------------------------------------------------------------------

  lemma OneOrManyReads(x: OneOrMany)
    requires OneLineOneOrMany(x)
    ensures FlatReadable(OneOrManyFlat(x)) && FlatJson(OneOrManyFlat(x)) == OneOrManyJson(x)
  {
  }

  lemma LockedReads(a: Attribute, indent: string)
    requires Printable(a) && Blank(indent)
    ensures LinesRead(LockedLines(a, indent),
              Cons("type", OneOrManyJson(a.kind), Cons("required", Flag(a.required), Cons("hidden", Flag(a.hidden),
              Cons("readOnly", Flag(a.readOnly), Cons("field", Str(a.field), Nil))))))
  {
    PlainNames();
    OneOrManyReads(a.kind);
    FlatReads(OneOrManyFlat(a.kind));
    FlagReads(a.required);
    FlagReads(a.hidden);
    FlagReads(a.readOnly);
    QuoteCloses(a.field);
    var l := LockedLines(a, indent);
    LineReads(indent, "type", Emit(OneOrManyFlat(a.kind)), OneOrManyJson(a.kind));
    LineReads(indent, "required", FlagText(a.required), Flag(a.required));
    LineReads(indent, "hidden", FlagText(a.hidden), Flag(a.hidden));
    LineReads(indent, "readOnly", FlagText(a.readOnly), Flag(a.readOnly));
    LineReads(indent, "field", Quote(a.field), Str(a.field));
    var f4 := Cons("field", Str(a.field), Nil);
    var f3 := Cons("readOnly", Flag(a.readOnly), f4);
    LineAppend(l[3], "readOnly", Flag(a.readOnly), [l[4]], f4);
    var f2 := Cons("hidden", Flag(a.hidden), f3);
    LineAppend(l[2], "hidden", Flag(a.hidden), [l[3]] + [l[4]], f3);
    LineAppend(l[1], "required", Flag(a.required), [l[2]] + ([l[3]] + [l[4]]), f2);
    LineAppend(l[0], "type", OneOrManyJson(a.kind), [l[1]] + ([l[2]] + ([l[3]] + [l[4]])), Cons("required", Flag(a.required), f2));
    assert l == [l[0]] + ([l[1]] + ([l[2]] + ([l[3]] + [l[4]])));
  }

  lemma AppendOpt(name: string, value: Option<Json>, rest: Named<Json>)
    ensures Append(Opt(name, value, Nil), rest) == Opt(name, value, rest)
  {
  }

  lemma {:induction false} BodyReads(a: Attribute, indent: string)
    requires Printable(a) && WellNamed(a) && Blank(indent)
    ensures LinesRead(AttributeBodyLines(a, indent), PrintedAttribute(a))
    decreases a, 1
  {
    PlainNames();
    LockedReads(a, indent);
    OptLineReads(indent, "enumArray", StringsFlat(a.enumArray));
    ItemsRead(a, indent);
    PaddingReads(a, indent);
    PropertiesRead(a, indent);
    OptLineReads(indent, "template", StrFlat(a.template));
    var template := Opt("template", JsonOf(StrFlat(a.template)), Nil);
    LinesAppend(PropertiesLines(a, indent), Opt("properties", PrintedProperties(a), Nil), OptLine(indent, "template", StrFlat(a.template)), template);
    AppendOpt("properties", PrintedProperties(a), template);
    BodyReadsOptional(a, indent, template);
    AppendLocked(a);
  }

  lemma AppendLocked(a: Attribute)
    ensures Append(Cons("type", OneOrManyJson(a.kind), Cons("required", Flag(a.required), Cons("hidden", Flag(a.hidden),
              Cons("readOnly", Flag(a.readOnly), Cons("field", Str(a.field), Nil))))), PrintedOptional(a)) == PrintedAttribute(a)
  {
    var o := PrintedOptional(a);
    var f := Cons("field", Str(a.field), Nil);
    assert Append(f, o) == Cons("field", Str(a.field), o);
    var r := Cons("readOnly", Flag(a.readOnly), f);
    assert Append(r, o) == Cons("readOnly", Flag(a.readOnly), Append(f, o));
    var h := Cons("hidden", Flag(a.hidden), r);
    assert Append(h, o) == Cons("hidden", Flag(a.hidden), Append(r, o));
    var q := Cons("required", Flag(a.required), h);
    assert Append(q, o) == Cons("required", Flag(a.required), Append(h, o));
  }

  /** The optional lines, given those from the properties on. */
  lemma BodyReadsOptional(a: Attribute, indent: string, template: Named<Json>)
    requires LinesRead(OptLine(indent, "enumArray", StringsFlat(a.enumArray)), Opt("enumArray", JsonOf(StringsFlat(a.enumArray)), Nil))
    requires LinesRead(ItemsLines(a, indent), Opt("items", PrintedItems(a), Nil))
    requires LinesRead(OptLine(indent, "padding", PaddingFlat(a.padding)), Opt("padding", JsonOf(PaddingFlat(a.padding)), Nil))
    requires LinesRead(PropertiesLines(a, indent) + OptLine(indent, "template", StrFlat(a.template)), Opt("properties", PrintedProperties(a), template))
    requires template == Opt("template", JsonOf(StrFlat(a.template)), Nil)
    requires LinesRead(LockedLines(a, indent),
               Cons("type", OneOrManyJson(a.kind), Cons("required", Flag(a.required), Cons("hidden", Flag(a.hidden),
               Cons("readOnly", Flag(a.readOnly), Cons("field", Str(a.field), Nil))))))
    ensures LinesRead(AttributeBodyLines(a, indent),
              Append(Cons("type", OneOrManyJson(a.kind), Cons("required", Flag(a.required), Cons("hidden", Flag(a.hidden),
                     Cons("readOnly", Flag(a.readOnly), Cons("field", Str(a.field), Nil))))), PrintedOptional(a)))
  {
    var l1 := PropertiesLines(a, indent) + OptLine(indent, "template", StrFlat(a.template));
    var f1 := Opt("properties", PrintedProperties(a), template);
    var padding := OptLine(indent, "padding", PaddingFlat(a.padding));
    LinesAppend(padding, Opt("padding", JsonOf(PaddingFlat(a.padding)), Nil), l1, f1);
    AppendOpt("padding", JsonOf(PaddingFlat(a.padding)), f1);
    var f2 := Opt("padding", JsonOf(PaddingFlat(a.padding)), f1);
    LinesAppend(ItemsLines(a, indent), Opt("items", PrintedItems(a), Nil), padding + l1, f2);
    AppendOpt("items", PrintedItems(a), f2);
    var f3 := Opt("items", PrintedItems(a), f2);
    var enumArray := OptLine(indent, "enumArray", StringsFlat(a.enumArray));
    LinesAppend(enumArray, Opt("enumArray", JsonOf(StringsFlat(a.enumArray)), Nil), ItemsLines(a, indent) + (padding + l1), f3);
    AppendOpt("enumArray", JsonOf(StringsFlat(a.enumArray)), f3);
    LinesAppend(LockedLines(a, indent),
                Cons("type", OneOrManyJson(a.kind), Cons("required", Flag(a.required), Cons("hidden", Flag(a.hidden),
                Cons("readOnly", Flag(a.readOnly), Cons("field", Str(a.field), Nil))))),
                enumArray + (ItemsLines(a, indent) + (padding + l1)), PrintedOptional(a));
  }

  lemma PaddingReadable(p: Padding)
    requires OneLine(p.fill)
    ensures FlatReadable(PaddingFlat(Some(p)).value)
  {
    PlainNames();
    var none: Named<Flat> := Nil;
    assert FieldsReadable(none);
    FlatCons("length", FNum(p.length), none);
    FlatCons("char", FStr(p.fill), Cons("length", FNum(p.length), none));
  }

  lemma PaddingReads(a: Attribute, indent: string)
    requires Printable(a) && Blank(indent)
    ensures LinesRead(OptLine(indent, "padding", PaddingFlat(a.padding)), Opt("padding", JsonOf(PaddingFlat(a.padding)), Nil))
  {
    PlainNames();
    if a.padding.Some? {
      PaddingReadable(a.padding.value);
    }
    OptLineReads(indent, "padding", PaddingFlat(a.padding));
  }

  lemma {:induction false} ItemsRead(a: Attribute, indent: string)
    requires Printable(a) && WellNamed(a) && Blank(indent)
    ensures LinesRead(ItemsLines(a, indent), Opt("items", PrintedItems(a), Nil))
    decreases a, 0
  {
    PlainNames();
    if a.items.None? {
      NoLines();
    } else if a.items.value.Primitive? {
      QuoteCloses(a.items.value.name);
      LineReads(indent, "items", Quote(a.items.value.name), Str(a.items.value.name));
    } else {
      Deeper(indent);
      BodyReads(a.items.value.attribute, indent + "  ");
      BlockReads(indent, "items", AttributeBodyLines(a.items.value.attribute, indent + "  "), PrintedAttribute(a.items.value.attribute));
    }
  }

  lemma {:induction false} PropertiesRead(a: Attribute, indent: string)
    requires Printable(a) && WellNamed(a) && Blank(indent)
    ensures LinesRead(PropertiesLines(a, indent), Opt("properties", PrintedProperties(a), Nil))
    decreases a, 0
  {
    PlainNames();
    if a.properties.None? {
      NoLines();
    } else {
      var l := a.properties.value;
      Deeper(indent);
      EntriesRead(l, indent + "  ");
      SortedEntriesRead(EntryLines(l, indent + "  "), PrintedEntries(l));
      BlockReads(indent, "properties", Concat(Sort(EntryLines(l, indent + "  "))), Sort(PrintedEntries(l)));
    }
  }

  // ----- Lists of entries -----------------------------------------------------------------------------

  /** The same names in the same order; the lines under each name read as that name's property. */
  ghost predicate EntryReads(ls: Named<seq<string>>, fs: Named<Json>) {
    match ls
    case Nil => fs.Nil?
    case Cons(n, lines, rest) => fs.Cons? && fs.name == n && LinesRead(lines, Cons(n, fs.value, Nil)) && EntryReads(rest, fs.rest)
  }

  lemma {:induction false} EntriesRead(l: Named<Attribute>, indent: string)
    requires PrintableAll(l) && WellNamedAll(l) && Blank(indent)
    ensures EntryReads(EntryLines(l, indent), PrintedEntries(l))
    decreases l, 2
  {
    if l.Cons? {
      OneEntryReads(l.name, l.value, indent);
      EntriesRead(l.rest, indent);
    }
  }

  /** Whichever layout is chosen. */
  lemma {:induction false} OneEntryReads(name: string, a: Attribute, indent: string)
    requires IsName(name) && Printable(a) && WellNamed(a) && Blank(indent)
    ensures LinesRead(AttributeEntryLines(name, a, indent), Cons(name, Obj(PrintedAttribute(a)), Nil))
    decreases a, 2
  {
    if !HasNestedShape(a) && |Line(indent, name, InlineAttribute(a))| <= 80 {
      InlineReads(a);
      LineReads(indent, name, InlineAttribute(a), Obj(PrintedAttribute(a)));
    } else {
      Deeper(indent);
      BodyReads(a, indent + "  ");
      BlockReads(indent, name, AttributeBodyLines(a, indent + "  "), PrintedAttribute(a));
    }
  }

  lemma InlineReads(a: Attribute)
    requires Printable(a) && !HasNestedShape(a)
    ensures ReadsAs(InlineAttribute(a), Obj(PrintedAttribute(a)))
  {
    AttributeFlatReadable(a);
    FlatReads(FObj(AttributeFlat(a)));
  }

  lemma FlatCons(name: string, f: Flat, rest: Named<Flat>)
    requires IsName(name) && FlatReadable(f) && FieldsReadable(rest)
    ensures FieldsReadable(Cons(name, f, rest))
    ensures FlatFields(Cons(name, f, rest)) == Cons(name, FlatJson(f), FlatFields(rest))
  {
  }

  lemma FlatOpt(name: string, f: Option<Flat>, rest: Named<Flat>)
    requires IsName(name) && (f.Some? ==> FlatReadable(f.value)) && FieldsReadable(rest)
    ensures FieldsReadable(OptFlat(name, f, rest))
    ensures FlatFields(OptFlat(name, f, rest)) == Opt(name, JsonOf(f), FlatFields(rest))
  {
  }

  lemma SortedEntriesRead(ls: Named<seq<string>>, fs: Named<Json>)
    requires EntryReads(ls, fs)
    ensures LinesRead(Concat(Sort(ls)), Sort(fs))
  {
    SortReads(ls, fs);
    ConcatReads(Sort(ls), Sort(fs));
  }

  lemma {:induction false} SortReads(ls: Named<seq<string>>, fs: Named<Json>)
    requires EntryReads(ls, fs)
    ensures EntryReads(Sort(ls), Sort(fs))
  {
    if ls.Cons? {
      SortReads(ls.rest, fs.rest);
      InsertReads(ls.name, ls.value, fs.value, Sort(ls.rest), Sort(fs.rest));
    }
  }

  lemma {:induction false} InsertReads(n: string, lines: seq<string>, v: Json, ls: Named<seq<string>>, fs: Named<Json>)
    requires EntryReads(ls, fs) && LinesRead(lines, Cons(n, v, Nil))
    ensures EntryReads(Insert(n, lines, ls), Insert(n, v, fs))
  {
    if ls.Cons? && !Less(n, ls.name) {
      InsertReads(n, lines, v, ls.rest, fs.rest);
    }
  }

  lemma {:induction false} ConcatReads(ls: Named<seq<string>>, fs: Named<Json>)
    requires EntryReads(ls, fs)
    ensures LinesRead(Concat(ls), fs)
  {
    if ls.Nil? {
      NoLines();
    } else {
      ConcatReads(ls.rest, fs.rest);
      LinesAppend(ls.value, Cons(ls.name, fs.value, Nil), Concat(ls.rest), fs.rest);
      AppendSingle(ls.name, fs.value, fs.rest);
    }
  }

  /** The optional fields of the one-line form. */
  function OptionalFlat(a: Attribute): Named<Flat> {
    OptFlat("enumArray", StringsFlat(a.enumArray),
    OptFlat("items", PrimitiveFlat(a.items),
    OptFlat("padding", PaddingFlat(a.padding),
    OptFlat("template", StrFlat(a.template), Nil))))
  }

  lemma OptionalFlatReadable(a: Attribute)
    requires Printable(a)
    ensures FieldsReadable(OptionalFlat(a))
    ensures FlatFields(OptionalFlat(a)) ==
              Opt("enumArray", JsonOf(StringsFlat(a.enumArray)), Opt("items", JsonOf(PrimitiveFlat(a.items)),
              Opt("padding", JsonOf(PaddingFlat(a.padding)), Opt("template", JsonOf(StrFlat(a.template)), Nil))))
  {
    PlainNames();
    var none: Named<Flat> := Nil;
    var template := OptFlat("template", StrFlat(a.template), none);
    FlatOpt("template", StrFlat(a.template), none);
    if a.padding.Some? { PaddingReadable(a.padding.value); }
    var padding := OptFlat("padding", PaddingFlat(a.padding), template);
    FlatOpt("padding", PaddingFlat(a.padding), template);
    var items := OptFlat("items", PrimitiveFlat(a.items), padding);
    FlatOpt("items", PrimitiveFlat(a.items), padding);
    FlatOpt("enumArray", StringsFlat(a.enumArray), items);
  }

  lemma AttributeFlatReadable(a: Attribute)
    requires Printable(a) && !HasNestedShape(a)
    ensures FieldsReadable(AttributeFlat(a)) && FlatFields(AttributeFlat(a)) == PrintedAttribute(a)
  {
    OptionalFlatReadable(a);
    NotNested(a);
    LockedFlat(a, OptionalFlat(a));
  }

  lemma NotNested(a: Attribute)
    requires !HasNestedShape(a)
    ensures PrintedItems(a) == JsonOf(PrimitiveFlat(a.items)) && PrintedProperties(a) == None
    ensures PrintedOptional(a) ==
              Opt("enumArray", JsonOf(StringsFlat(a.enumArray)), Opt("items", JsonOf(PrimitiveFlat(a.items)),
              Opt("padding", JsonOf(PaddingFlat(a.padding)), Opt("template", JsonOf(StrFlat(a.template)), Nil))))
  {
  }

  lemma LockedFlat(a: Attribute, rest: Named<Flat>)
    requires Printable(a) && FieldsReadable(rest)
    ensures var l := Cons("type", OneOrManyFlat(a.kind), Cons("required", FFlag(a.required), Cons("hidden", FFlag(a.hidden),
                     Cons("readOnly", FFlag(a.readOnly), Cons("field", FStr(a.field), rest)))));
            && FieldsReadable(l)
            && FlatFields(l) == Cons("type", OneOrManyJson(a.kind), Cons("required", Flag(a.required), Cons("hidden", Flag(a.hidden),
                                Cons("readOnly", Flag(a.readOnly), Cons("field", Str(a.field), FlatFields(rest))))))
  {
    LockedNames();
    OneOrManyReads(a.kind);
    var field := Cons("field", FStr(a.field), rest);
    FlatCons("field", FStr(a.field), rest);
    var readOnly := Cons("readOnly", FFlag(a.readOnly), field);
    FlatCons("readOnly", FFlag(a.readOnly), field);
    var hidden := Cons("hidden", FFlag(a.hidden), readOnly);
    FlatCons("hidden", FFlag(a.hidden), readOnly);
    var required := Cons("required", FFlag(a.required), hidden);
    FlatCons("required", FFlag(a.required), hidden);
    FlatCons("type", OneOrManyFlat(a.kind), required);
  }

  // ----- Indexes and the whole literal ----------------------------------------------------------------

  lemma KeyFlatReadable(k: Key)
    requires PrintableKey(k)
    ensures FlatReadable(KeyFlat(k))
  {
    PlainNames();
    var none: Named<Flat> := Nil;
    var template := OptFlat("template", StrFlat(k.template), none);
    FlatOpt("template", StrFlat(k.template), none);
    var prefix := OptFlat("prefix", StrFlat(k.prefix), template);
    FlatOpt("prefix", StrFlat(k.prefix), template);
    var postfix := OptFlat("postfix", StrFlat(k.postfix), prefix);
    FlatOpt("postfix", StrFlat(k.postfix), prefix);
    var casing := OptFlat("casing", StrFlat(k.casing), postfix);
    FlatOpt("casing", StrFlat(k.casing), postfix);
    FlatCons("composite", FStrings(k.composite), casing);
    FlatCons("field", FStr(k.field), Cons("composite", FStrings(k.composite), casing));
  }

  lemma IndexBodyReads(i: Index, indent: string)
    requires PrintableIndex(i) && Blank(indent)
    ensures LinesRead(IndexBodyLines(i, indent), PrintedIndex(i))
  {
    PlainNames();
    var kind := if i.clustered then "clustered" else "isolated";
    QuoteCloses(kind);
    LineReads(indent, "type", Quote(kind), Str(kind));
    KeyFlatReadable(i.pk);
    FlatReads(KeyFlat(i.pk));
    LineReads(indent, "pk", Emit(KeyFlat(i.pk)), FlatJson(KeyFlat(i.pk)));
    if i.sk.Some? { KeyFlatReadable(i.sk.value); }
    var sk := if i.sk.Some? then Some(KeyFlat(i.sk.value)) else None;
    OptLineReads(indent, "sk", sk);
    if i.collection.Some? { OneOrManyReads(i.collection.value); }
    var collection := if i.collection.Some? then Some(OneOrManyFlat(i.collection.value)) else None;
    OptLineReads(indent, "collection", collection);
    var f1 := Opt("collection", JsonOf(collection), Nil);
    LinesAppend(OptLine(indent, "sk", sk), Opt("sk", JsonOf(sk), Nil), OptLine(indent, "collection", collection), f1);
    AppendOpt("sk", JsonOf(sk), f1);
    IndexBodyAssembled(i, indent, kind, OptLine(indent, "sk", sk) + OptLine(indent, "collection", collection), Opt("sk", JsonOf(sk), f1));
  }

  lemma IndexBodyAssembled(i: Index, indent: string, kind: string, rest: seq<string>, fs: Named<Json>)
    requires LinesRead([Line(indent, "type", Quote(kind))], Cons("type", Str(kind), Nil))
    requires LinesRead([Line(indent, "pk", Emit(KeyFlat(i.pk)))], Cons("pk", FlatJson(KeyFlat(i.pk)), Nil))
    requires LinesRead(rest, fs)
    ensures LinesRead([Line(indent, "type", Quote(kind)), Line(indent, "pk", Emit(KeyFlat(i.pk)))] + rest,
                      Cons("type", Str(kind), Cons("pk", FlatJson(KeyFlat(i.pk)), fs)))
  {
    var l0, l1 := Line(indent, "type", Quote(kind)), Line(indent, "pk", Emit(KeyFlat(i.pk)));
    LineAppend(l1, "pk", FlatJson(KeyFlat(i.pk)), rest, fs);
    LineAppend(l0, "type", Str(kind), [l1] + rest, Cons("pk", FlatJson(KeyFlat(i.pk)), fs));
    assert [l0, l1] + rest == [l0] + ([l1] + rest);
  }

  lemma {:induction false} IndexEntriesRead(l: Named<Index>, indent: string)
    requires PrintableIndexes(l) && Blank(indent)
    ensures EntryReads(IndexEntryLines(l, indent), PrintedIndexes(l))
  {
    if l.Cons? {
      Deeper(indent);
      IndexBodyReads(l.value, indent + "  ");
      BlockReads(indent, l.name, IndexBodyLines(l.value, indent + "  "), PrintedIndex(l.value));
      IndexEntriesRead(l.rest, indent);
    }
  }

  lemma ModelReads(p: EntityProjection, version: string)
    requires OneLine(p.entity) && OneLine(p.service) && OneLine(version)
    ensures ReadsAs(Emit(ModelFlat(p, version)), FlatJson(ModelFlat(p, version)))
  {
    PlainNames();
    var none: Named<Flat> := Nil;
    FlatCons("version", FStr(version), none);
    FlatCons("service", FStr(p.service), Cons("version", FStr(version), none));
    FlatCons("entity", FStr(p.entity), Cons("service", FStr(p.service), Cons("version", FStr(version), none)));
    FlatReads(ModelFlat(p, version));
  }

  lemma InnerReads(p: EntityProjection, version: string)
    requires WellNamedProjection(p) && PrintableProjection(p) && OneLine(version)
    ensures LinesRead(InnerLines(p, version), PrintedProjection(p, version).fields)
  {
    PlainNames();
    ModelReads(p, version);
    LineReads("  ", "model", Emit(ModelFlat(p, version)), FlatJson(ModelFlat(p, version)));
    EntriesRead(p.attributes, "    ");
    SortedEntriesRead(EntryLines(p.attributes, "    "), PrintedEntries(p.attributes));
    var attributes := BlockLines("  ", "attributes", Concat(Sort(EntryLines(p.attributes, "    "))));
    BlockReads("  ", "attributes", Concat(Sort(EntryLines(p.attributes, "    "))), Sort(PrintedEntries(p.attributes)));
    IndexEntriesRead(p.indexes, "    ");
    SortedEntriesRead(IndexEntryLines(p.indexes, "    "), PrintedIndexes(p.indexes));
    var indexes := BlockLines("  ", "indexes", Concat(Sort(IndexEntryLines(p.indexes, "    "))));
    BlockReads("  ", "indexes", Concat(Sort(IndexEntryLines(p.indexes, "    "))), Sort(PrintedIndexes(p.indexes)));
    var f1 := Cons("indexes", Obj(Sort(PrintedIndexes(p.indexes))), Nil);
    LinesAppend(attributes, Cons("attributes", Obj(Sort(PrintedEntries(p.attributes))), Nil), indexes, f1);
    AppendSingle("attributes", Obj(Sort(PrintedEntries(p.attributes))), f1);
    LineAppend(Line("  ", "model", Emit(ModelFlat(p, version))), "model", FlatJson(ModelFlat(p, version)), attributes + indexes,
               Cons("attributes", Obj(Sort(PrintedEntries(p.attributes))), f1));
  }

  /** The source is the literal between its preamble and `);`. */
  lemma RenderFrames(p: EntityProjection, version: string)
    ensures Render(p, version) == Preamble(p.entity) + (Literal(p, version) + (");" + "\n"))
  {
    var open, inner := "export const " + (p.entity + " = new Entity({"), InnerLines(p, version);
    JoinAppend(HEADER, [open] + (inner + ["});"]));
    JoinAppend([open], inner + ["});"]);
    JoinAppend(inner, ["});"]);
    JoinOne(open);
    JoinOne("});");
    var text, name, head := JoinLines(inner), p.entity, JoinLines(HEADER);
    assert " = new Entity({" == " = new Entity(" + "{" && "});" + "\n" == "}" + (");" + "\n") && "" + "}" == "}";
    calc {
      Render(p, version);
      head + ((open + "\n") + (text + ("});" + "\n")));
      { OpenSplits(name, text + ("}" + (");" + "\n"))); }
      head + (("export const " + (name + " = new Entity(")) + (("{" + "\n") + (text + ("}" + (");" + "\n")))));
      { Assoc(head, "export const " + (name + " = new Entity("), ("{" + "\n") + (text + ("}" + (");" + "\n")))); }
      Preamble(name) + (("{" + "\n") + (text + ("}" + (");" + "\n"))));
      { Assoc(text, "}", ");" + "\n"); Assoc("{" + "\n", text + "}", ");" + "\n"); }
      Preamble(name) + ((("{" + "\n") + (text + "}")) + (");" + "\n"));
    }
  }

  lemma OpenSplits(name: string, rest: string)
    ensures (("export const " + (name + " = new Entity({")) + "\n") + rest
            == ("export const " + (name + " = new Entity(")) + (("{" + "\n") + rest)
  {
    assert " = new Entity({" == " = new Entity(" + "{";
    Assoc(name, " = new Entity(", "{");
    Assoc("export const ", name + " = new Entity(", "{");
    Assoc("export const " + (name + " = new Entity("), "{", "\n");
    Assoc("export const " + (name + " = new Entity("), "{" + "\n", rest);
  }

  lemma LiteralReads(p: EntityProjection, version: string)
    requires WellNamedProjection(p) && PrintableProjection(p) && OneLine(version)
    ensures Read(Literal(p, version)) == Some(PrintedProjection(p, version))
  {
    InnerReads(p, version);
    BracesText("\n", JoinLines(InnerLines(p, version)), PrintedProjection(p, version).fields, "");
    ReadsAlone(Literal(p, version), PrintedProjection(p, version));
  }
}
