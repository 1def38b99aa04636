/** The frozen source of an entity: its projection printed as an object literal, one property a line,
    attributes on one line where they fit. */
module FrozenPrinter {
  import opened Wrappers
  import opened NamedLists
  import opened CanonicalJson
  import opened Projection
  import opened LiteralTokens
  import opened LiteralValues
  import opened ObjectLiteral
  import opened LiteralText

  // ----- One-line forms ------------------------------------------------------------------------------

  function OneOrManyFlat(x: OneOrMany): Flat {
    if x.One? then FStr(x.name) else FStrings(x.names)
  }

  function OptFlat(name: string, value: Option<Flat>, rest: Named<Flat>): Named<Flat> {
    if value.Some? then Cons(name, value.value, rest) else rest
  }

  function StrFlat(s: Option<string>): Option<Flat> {
    if s.Some? then Some(FStr(s.value)) else None
  }

  function StringsFlat(ss: Option<seq<string>>): Option<Flat> {
    if ss.Some? then Some(FStrings(ss.value)) else None
  }

  function PaddingFlat(p: Option<Padding>): Option<Flat> {
    if p.Some? then Some(FObj(Cons("char", FStr(p.value.fill), Cons("length", FNum(p.value.length), Nil)))) else None
  }

  function PrimitiveFlat(i: Option<ItemShape>): Option<Flat> {
    if i.Some? && i.value.Primitive? then Some(FStr(i.value.name)) else None
  }

  /** What `inlineAttribute` prints: nested shapes are not in it. */
  function AttributeFlat(a: Attribute): Named<Flat> {
    Cons("type", OneOrManyFlat(a.kind),
    Cons("required", FFlag(a.required),
    Cons("hidden", FFlag(a.hidden),
    Cons("readOnly", FFlag(a.readOnly),
    Cons("field", FStr(a.field),
    OptFlat("enumArray", StringsFlat(a.enumArray),
    OptFlat("items", PrimitiveFlat(a.items),
    OptFlat("padding", PaddingFlat(a.padding),
    OptFlat("template", StrFlat(a.template), Nil)))))))))
  }

  function KeyFlat(k: Key): Flat {
    FObj(Cons("field", FStr(k.field),
         Cons("composite", FStrings(k.composite),
         OptFlat("casing", StrFlat(k.casing),
         OptFlat("postfix", StrFlat(k.postfix),
         OptFlat("prefix", StrFlat(k.prefix),
         OptFlat("template", StrFlat(k.template), Nil)))))))
  }

  // ----- Lines ------------------------------------------------------------------------------------------

  function JoinLines(lines: seq<string>): string {
    if lines == [] then "" else lines[0] + ("\n" + JoinLines(lines[1..]))
  }

  function Line(indent: string, name: string, text: string): string {
    indent + ((name + ": ") + (text + ","))
  }

  function OptLine(indent: string, name: string, value: Option<Flat>): seq<string> {
    if value.Some? then [Line(indent, name, Emit(value.value))] else []
  }

  function BlockLines(indent: string, name: string, body: seq<string>): seq<string> {
    [indent + ((name + ": ") + "{")] + (body + [indent + ("}" + ",")])
  }

  predicate HasNestedShape(a: Attribute) {
    a.properties.Some? || (a.items.Some? && a.items.value.Shaped?)
  }

  function InlineAttribute(a: Attribute): string {
    Emit(FObj(AttributeFlat(a)))
  }

  function AttributeEntryLines(name: string, a: Attribute, indent: string): seq<string>
    decreases a, 2
  {
    if !HasNestedShape(a) && |Line(indent, name, InlineAttribute(a))| <= 80 then [Line(indent, name, InlineAttribute(a))]
    else BlockLines(indent, name, AttributeBodyLines(a, indent + "  "))
  }

  /** The five fields every attribute has. */
  function LockedLines(a: Attribute, indent: string): seq<string> {
    [Line(indent, "type", Emit(OneOrManyFlat(a.kind))),
     Line(indent, "required", FlagText(a.required)),
     Line(indent, "hidden", FlagText(a.hidden)),
     Line(indent, "readOnly", FlagText(a.readOnly)),
     Line(indent, "field", Quote(a.field))]
  }

  function AttributeBodyLines(a: Attribute, indent: string): seq<string>
    decreases a, 1
  {
    LockedLines(a, indent)
    + (OptLine(indent, "enumArray", StringsFlat(a.enumArray))
    + (ItemsLines(a, indent)
    + (OptLine(indent, "padding", PaddingFlat(a.padding))
    + (PropertiesLines(a, indent)
    + OptLine(indent, "template", StrFlat(a.template))))))
  }

  function ItemsLines(a: Attribute, indent: string): seq<string>
    decreases a, 0
  {
    if a.items.None? then []
    else if a.items.value.Primitive? then [Line(indent, "items", Quote(a.items.value.name))]
    else BlockLines(indent, "items", AttributeBodyLines(a.items.value.attribute, indent + "  "))
  }

  function PropertiesLines(a: Attribute, indent: string): seq<string>
    decreases a, 0
  {
    if a.properties.None? then []
    else BlockLines(indent, "properties", Concat(Sort(EntryLines(a.properties.value, indent + "  "))))
  }

  /** The lines of each entry, under its name. */
  function EntryLines(l: Named<Attribute>, indent: string): Named<seq<string>>
    decreases l
  {
    if l.Nil? then Nil else Cons(l.name, AttributeEntryLines(l.name, l.value, indent), EntryLines(l.rest, indent))
  }

  function Concat(l: Named<seq<string>>): seq<string> {
    if l.Nil? then [] else l.value + Concat(l.rest)
  }

  function IndexBodyLines(i: Index, indent: string): seq<string> {
    [Line(indent, "type", Quote(if i.clustered then "clustered" else "isolated")),
     Line(indent, "pk", Emit(KeyFlat(i.pk)))]
    + (OptLine(indent, "sk", if i.sk.Some? then Some(KeyFlat(i.sk.value)) else None)
    + OptLine(indent, "collection", if i.collection.Some? then Some(OneOrManyFlat(i.collection.value)) else None))
  }

  function IndexEntryLines(l: Named<Index>, indent: string): Named<seq<string>> {
    if l.Nil? then Nil
    else Cons(l.name, BlockLines(indent, l.name, IndexBodyLines(l.value, indent + "  ")), IndexEntryLines(l.rest, indent))
  }

  function ModelFlat(p: EntityProjection, version: string): Flat {
    FObj(Cons("entity", FStr(p.entity), Cons("service", FStr(p.service), Cons("version", FStr(version), Nil))))
  }

  /** What is between the braces of the literal. */
  function InnerLines(p: EntityProjection, version: string): seq<string> {
    [Line("  ", "model", Emit(ModelFlat(p, version)))]
    + (BlockLines("  ", "attributes", Concat(Sort(EntryLines(p.attributes, "    "))))
    + BlockLines("  ", "indexes", Concat(Sort(IndexEntryLines(p.indexes, "    ")))))
  }

  const HEADER: seq<string> := [
    "// AUTO-GENERATED by electrodb-migrations. DO NOT EDIT.",
    "// Editing this file invalidates the integrity hash and will fail `validate` (Phase 7).",
    "// Regenerate with `electrodb-migrations create --regenerate <id>` after rebases.",
    "import { Entity } from 'electrodb';",
    ""]

  /** The source up to the literal. */
  function Preamble(entity: string): string {
    JoinLines(HEADER) + ("export const " + (entity + " = new Entity("))
  }

  function Literal(p: EntityProjection, version: string): string {
    ("{" + "\n") + (JoinLines(InnerLines(p, version)) + ("" + "}"))
  }

  function Render(p: EntityProjection, version: string): string {
    JoinLines(HEADER + (["export const " + (p.entity + " = new Entity({")] + (InnerLines(p, version) + ["});"])))
  }

  // ----- What is printed, as JSON -------------------------------------------------------------------

  function PrintedAttribute(a: Attribute): Named<Json>
    decreases a, 2
  {
    Cons("type", OneOrManyJson(a.kind),
    Cons("required", Flag(a.required),
    Cons("hidden", Flag(a.hidden),
    Cons("readOnly", Flag(a.readOnly),
    Cons("field", Str(a.field), PrintedOptional(a))))))
  }

  function PrintedOptional(a: Attribute): Named<Json>
    decreases a, 1
  {
    Opt("enumArray", JsonOf(StringsFlat(a.enumArray)),
    Opt("items", PrintedItems(a),
    Opt("padding", JsonOf(PaddingFlat(a.padding)),
    Opt("properties", PrintedProperties(a),
    Opt("template", JsonOf(StrFlat(a.template)), Nil)))))
  }

  function JsonOf(f: Option<Flat>): Option<Json> {
    if f.Some? then Some(FlatJson(f.value)) else None
  }

  function PrintedItems(a: Attribute): Option<Json>
    decreases a, 0
  {
    if a.items.None? then None
    else if a.items.value.Primitive? then Some(Str(a.items.value.name))
    else Some(Obj(PrintedAttribute(a.items.value.attribute)))
  }

  function PrintedProperties(a: Attribute): Option<Json>
    decreases a, 0
  {
    if a.properties.None? then None else Some(Obj(Sort(PrintedEntries(a.properties.value))))
  }

  function PrintedEntries(l: Named<Attribute>): Named<Json>
    decreases l
  {
    if l.Nil? then Nil else Cons(l.name, Obj(PrintedAttribute(l.value)), PrintedEntries(l.rest))
  }

  function PrintedIndex(i: Index): Named<Json> {
    Cons("type", Str(if i.clustered then "clustered" else "isolated"),
    Cons("pk", FlatJson(KeyFlat(i.pk)),
    Opt("sk", if i.sk.Some? then Some(FlatJson(KeyFlat(i.sk.value))) else None,
    Opt("collection", if i.collection.Some? then Some(OneOrManyJson(i.collection.value)) else None, Nil))))
  }

  function PrintedIndexes(l: Named<Index>): Named<Json> {
    if l.Nil? then Nil else Cons(l.name, Obj(PrintedIndex(l.value)), PrintedIndexes(l.rest))
  }

  function PrintedProjection(p: EntityProjection, version: string): Json {
    Obj(Cons("model", FlatJson(ModelFlat(p, version)),
        Cons("attributes", Obj(Sort(PrintedEntries(p.attributes))),
        Cons("indexes", Obj(Sort(PrintedIndexes(p.indexes))), Nil))))
  }

  // ----- What can be read back ----------------------------------------------------------------------

  predicate OneLineOpt(s: Option<string>) { s.Some? ==> OneLine(s.value) }

  predicate OneLineAll(ss: seq<string>) { forall i :: 0 <= i < |ss| ==> OneLine(ss[i]) }

  predicate OneLineOneOrMany(x: OneOrMany) { if x.One? then OneLine(x.name) else OneLineAll(x.names) }

  /** Names are property names as they stand, strings have no line terminators. */
  predicate Printable(a: Attribute) {
    && OneLineOneOrMany(a.kind) && OneLine(a.field) && OneLineOpt(a.template)
    && (a.enumArray.Some? ==> OneLineAll(a.enumArray.value))
    && (a.padding.Some? ==> OneLine(a.padding.value.fill))
    && (a.items.Some? ==> PrintableItems(a.items.value))
    && (a.properties.Some? ==> PrintableAll(a.properties.value))
  }

  predicate PrintableItems(i: ItemShape) {
    if i.Primitive? then OneLine(i.name) else Printable(i.attribute)
  }

  predicate PrintableAll(l: Named<Attribute>) {
    l.Cons? ==> IsName(l.name) && Printable(l.value) && PrintableAll(l.rest)
  }

  predicate PrintableKey(k: Key) {
    && OneLine(k.field) && OneLineAll(k.composite) && OneLineOpt(k.casing)
    && OneLineOpt(k.postfix) && OneLineOpt(k.prefix) && OneLineOpt(k.template)
  }

  predicate PrintableIndex(i: Index) {
    && PrintableKey(i.pk) && (i.sk.Some? ==> PrintableKey(i.sk.value))
    && (i.collection.Some? ==> OneLineOneOrMany(i.collection.value))
  }

  predicate PrintableIndexes(l: Named<Index>) {
    l.Cons? ==> IsName(l.name) && PrintableIndex(l.value) && PrintableIndexes(l.rest)
  }

  predicate PrintableProjection(p: EntityProjection) {
    OneLine(p.entity) && OneLine(p.service) && PrintableAll(p.attributes) && PrintableIndexes(p.indexes)
  }

  // ----- Layout -----------------------------------------------------------------------------------------

  /** An attribute is on one line exactly when nothing is nested in it and that line has at most 80
      characters; otherwise its five fields at least have lines of their own. */
  lemma LayoutExactly(name: string, a: Attribute, indent: string)
    ensures var lines := AttributeEntryLines(name, a, indent);
            var line := indent + ((name + ": ") + (InlineAttribute(a) + ","));
            && (lines == [line] <==> a.properties.None? && (a.items.None? || a.items.value.Primitive?) && |line| <= 80)
            && (lines == [line] || |lines| >= 7)
  {
    assert |BlockLines(indent, name, AttributeBodyLines(a, indent + "  "))| == |AttributeBodyLines(a, indent + "  ")| + 2;
  }

  // ----- Entries keep their names ----------------------------------------------------------------

  lemma {:induction false} LinesUnder(l: Named<Attribute>, indent: string)
    ensures Names(EntryLines(l, indent)) == Names(l) && Keys(EntryLines(l, indent)) == Keys(l)
    ensures Distinct(l) ==> Distinct(EntryLines(l, indent))
    ensures forall n :: n in Names(l) ==> Get(EntryLines(l, indent), n) == AttributeEntryLines(n, Get(l, n), indent)
  {
    if l.Cons? { LinesUnder(l.rest, indent); }
  }

  lemma {:induction false} IndexLinesUnder(l: Named<Index>, indent: string)
    ensures Names(IndexEntryLines(l, indent)) == Names(l) && Keys(IndexEntryLines(l, indent)) == Keys(l)
    ensures Distinct(l) ==> Distinct(IndexEntryLines(l, indent))
    ensures forall n :: n in Names(l) ==>
              Get(IndexEntryLines(l, indent), n) == BlockLines(indent, n, IndexBodyLines(Get(l, n), indent + "  "))
  {
    if l.Cons? { IndexLinesUnder(l.rest, indent); }
  }
}
