/** The emitters as they run: lines pushed onto one array, names visited in sorted order. Each is proved
    to push exactly the lines the printer is specified by. */
module FrozenEmitter {
  import opened Wrappers
  import opened NamedLists
  import opened CanonicalJson
  import opened Projection
  import opened LiteralText
  import opened FrozenPrinter

  // ----- Sorted names visit the sorted list -------------------------------------------------------

  /** The values under some names, one after the other. */
  function Visit(l: Named<seq<string>>, names: seq<string>): seq<string>
    requires forall n :: n in names ==> n in Names(l)
  {
    if names == [] then [] else Visit(l, names[..|names| - 1]) + Get(l, names[|names| - 1])
  }

  lemma {:induction false} VisitAppend(l: Named<seq<string>>, a: seq<string>, b: seq<string>)
    requires forall n :: n in a + b ==> n in Names(l)
    ensures Visit(l, a + b) == Visit(l, a) + Visit(l, b)
  {
    if b == [] {
      assert a + b == a;
    } else {
      assert (a + b)[..|a + b| - 1] == a + b[..|b| - 1];
      assert forall n :: n in a + b[..|b| - 1] ==> n in a + b;
      VisitAppend(l, a, b[..|b| - 1]);
    }
  }

  lemma {:induction false} VisitSame(l: Named<seq<string>>, k: Named<seq<string>>, names: seq<string>)
    requires forall n :: n in names ==> n in Names(l) && n in Names(k) && Get(l, n) == Get(k, n)
    ensures Visit(l, names) == Visit(k, names)
  {
    if names != [] { VisitSame(l, k, names[..|names| - 1]); }
  }

  lemma {:induction false} VisitInOrder(l: Named<seq<string>>)
    requires Distinct(l)
    ensures forall n :: n in Keys(l) ==> n in Names(l)
    ensures Visit(l, Keys(l)) == Concat(l)
  {
    KeysAreNames(l);
    if l.Cons? {
      KeysAreNames(l.rest);
      VisitInOrder(l.rest);
      VisitAppend(l, [l.name], Keys(l.rest));
      VisitSame(l, l.rest, Keys(l.rest));
      assert Visit(l, [l.name]) == Visit(l, []) + l.value;
    }
  }

  /** Visiting the names in sorted order is reading the sorted list. */
  lemma VisitSorted(l: Named<seq<string>>)
    requires Distinct(l)
    ensures forall n :: n in SortNames(Keys(l)) ==> n in Names(l)
    ensures Visit(l, SortNames(Keys(l))) == Concat(Sort(l))
  {
    AllNames(l);
    SortFacts(l);
    SortedIsDistinct(Sort(l));
    KeysOfSort(l);
    VisitInOrder(Sort(l));
    VisitSame(l, Sort(l), SortNames(Keys(l)));
  }

  // ----- Nesting depth, for termination -----------------------------------------------------------

  function Weight(a: Attribute): nat {
    1 + (if a.properties.Some? then WeightAll(a.properties.value) else 0)
      + (if a.items.Some? && a.items.value.Shaped? then Weight(a.items.value.attribute) else 0)
  }

  function WeightAll(l: Named<Attribute>): nat {
    if l.Nil? then 0 else 1 + Weight(l.value) + WeightAll(l.rest)
  }

  lemma {:induction false} EntryIsLighter(l: Named<Attribute>, n: string)
    requires n in Names(l)
    ensures Weight(Get(l, n)) < WeightAll(l)
  {
    if l.name != n { EntryIsLighter(l.rest, n); }
  }

  // ----- One-line pieces ----------------------------------------------------------------------------

  /** `parts` gathered field by field, then joined. */
  method InlineAttributeText(attr: Attribute) returns (text: string)
    ensures text == InlineAttribute(attr)
  {
    var parts := LockedPartsOf(attr);
    parts := WithPart(parts, "enumArray", StringsFlat(attr.enumArray));
    parts := WithPart(parts, "items", PrimitiveFlat(attr.items));
    parts := WithPart(parts, "padding", PaddingFlat(attr.padding));
    parts := WithPart(parts, "template", StrFlat(attr.template));
    InlineParts(attr);
    text := "{ " + (Join(parts, ", ") + " }");
  }

  function LockedPartsOf(attr: Attribute): seq<string> {
    [("type" + ": ") + Emit(OneOrManyFlat(attr.kind)),
     ("required" + ": ") + FlagText(attr.required),
     ("hidden" + ": ") + FlagText(attr.hidden),
     ("readOnly" + ": ") + FlagText(attr.readOnly),
     ("field" + ": ") + Quote(attr.field)]
  }

  method WithPart(parts: seq<string>, name: string, f: Option<Flat>) returns (more: seq<string>)
    ensures more == parts + OptPart(name, f)
  {
    more := parts;
    if f.Some? { more := more + [(name + ": ") + Emit(f.value)]; }
  }

  function OptPart(name: string, f: Option<Flat>): seq<string> {
    if f.Some? then [(name + ": ") + Emit(f.value)] else []
  }

  lemma OptParts(name: string, f: Option<Flat>, rest: Named<Flat>)
    ensures Parts(OptFlat(name, f, rest)) == OptPart(name, f) + Parts(rest)
  {
  }

  lemma InlineParts(attr: Attribute)
    ensures Parts(AttributeFlat(attr)) ==
            (((LockedPartsOf(attr) + OptPart("enumArray", StringsFlat(attr.enumArray))) + OptPart("items", PrimitiveFlat(attr.items)))
             + OptPart("padding", PaddingFlat(attr.padding))) + OptPart("template", StrFlat(attr.template))
  {
    var none: Named<Flat> := Nil;
    var template := OptFlat("template", StrFlat(attr.template), none);
    OptParts("template", StrFlat(attr.template), none);
    assert Parts(none) == [] && Parts(template) == OptPart("template", StrFlat(attr.template));
    var padding := OptFlat("padding", PaddingFlat(attr.padding), template);
    OptParts("padding", PaddingFlat(attr.padding), template);
    var items := OptFlat("items", PrimitiveFlat(attr.items), padding);
    OptParts("items", PrimitiveFlat(attr.items), padding);
    var enumArray := OptFlat("enumArray", StringsFlat(attr.enumArray), items);
    OptParts("enumArray", StringsFlat(attr.enumArray), items);
    LockedParts(attr, enumArray);
    Five(LockedPartsOf(attr), OptPart("enumArray", StringsFlat(attr.enumArray)), OptPart("items", PrimitiveFlat(attr.items)),
         OptPart("padding", PaddingFlat(attr.padding)), OptPart("template", StrFlat(attr.template)));
  }

  lemma Five(a: seq<string>, b: seq<string>, c: seq<string>, d: seq<string>, e: seq<string>)
    ensures (((a + b) + c) + d) + e == a + (b + (c + (d + e)))
  {
  }

  lemma LockedParts(attr: Attribute, rest: Named<Flat>)
    ensures Parts(Cons("type", OneOrManyFlat(attr.kind), Cons("required", FFlag(attr.required), Cons("hidden", FFlag(attr.hidden),
                  Cons("readOnly", FFlag(attr.readOnly), Cons("field", FStr(attr.field), rest)))))) == LockedPartsOf(attr) + Parts(rest)
  {
    var locked := LockedPartsOf(attr);
    var f1 := Cons("field", FStr(attr.field), rest);
    assert Parts(f1) == [locked[4]] + Parts(rest);
    var f2 := Cons("readOnly", FFlag(attr.readOnly), f1);
    assert Parts(f2) == [locked[3]] + Parts(f1);
    var f3 := Cons("hidden", FFlag(attr.hidden), f2);
    assert Parts(f3) == [locked[2]] + Parts(f2);
    var f4 := Cons("required", FFlag(attr.required), f3);
    assert Parts(f4) == [locked[1]] + Parts(f3);
  }

  // ----- The emitters --------------------------------------------------------------------------------

  class LineBuffer {
    var lines: seq<string>

    constructor ()
      ensures lines == []
    {
      lines := [];
    }

    method Push(line: string)
      modifies this
      ensures lines == old(lines) + [line]
    {
      lines := lines + [line];
    }

    /** `name: {` on a line of its own. */
    method Open(indent: string, name: string)
      modifies this
      ensures lines == old(lines) + [indent + ((name + ": ") + "{")]
    {
      lines := lines + [indent + ((name + ": ") + "{")];
    }

    method Close(indent: string)
      modifies this
      ensures lines == old(lines) + [indent + ("}" + ",")]
    {
      lines := lines + [indent + ("}" + ",")];
    }

    method PushOpt(indent: string, name: string, value: Option<Flat>)
      modifies this
      ensures lines == old(lines) + OptLine(indent, name, value)
    {
      if value.Some? { Push(Line(indent, name, Emit(value.value))); }
    }
  }

  method EmitAttributeEntry(out: LineBuffer, name: string, attr: Attribute, indent: string)
    requires WellNamed(attr)
    modifies out
    ensures out.lines == old(out.lines) + AttributeEntryLines(name, attr, indent)
    decreases Weight(attr), 3
  {
    var inline := InlineAttributeText(attr);
    var oneLine := Line(indent, name, inline);
    if !HasNestedShape(attr) && |oneLine| <= 80 {
      out.Push(oneLine);
      return;
    }
    ghost var before := out.lines;
    out.Open(indent, name);
    EmitAttributeBody(out, attr, indent + "  ");
    out.Close(indent);
    BlockPushed(before, indent, name, AttributeBodyLines(attr, indent + "  "));
  }

  lemma BlockPushed(before: seq<string>, indent: string, name: string, body: seq<string>)
    ensures ((before + [indent + ((name + ": ") + "{")]) + body) + [indent + ("}" + ",")] == before + BlockLines(indent, name, body)
  {
  }

  lemma BodyPushed(before: seq<string>, attr: Attribute, indent: string)
    ensures (((((before + LockedLines(attr, indent)) + OptLine(indent, "enumArray", StringsFlat(attr.enumArray)))
               + ItemsLines(attr, indent)) + OptLine(indent, "padding", PaddingFlat(attr.padding)))
             + PropertiesLines(attr, indent)) + OptLine(indent, "template", StrFlat(attr.template))
            == before + AttributeBodyLines(attr, indent)
  {
    Six(before, LockedLines(attr, indent), OptLine(indent, "enumArray", StringsFlat(attr.enumArray)), ItemsLines(attr, indent),
        OptLine(indent, "padding", PaddingFlat(attr.padding)), PropertiesLines(attr, indent),
        OptLine(indent, "template", StrFlat(attr.template)));
  }

  lemma Six(z: seq<string>, a: seq<string>, b: seq<string>, c: seq<string>, d: seq<string>, e: seq<string>, f: seq<string>)
    ensures (((((z + a) + b) + c) + d) + e) + f == z + (a + (b + (c + (d + (e + f)))))
  {
  }

  method EmitAttributeBody(out: LineBuffer, attr: Attribute, indent: string)
    requires WellNamed(attr)
    modifies out
    ensures out.lines == old(out.lines) + AttributeBodyLines(attr, indent)
    decreases Weight(attr), 2
  {
    BodyPushed(out.lines, attr, indent);
    EmitLocked(out, attr, indent);
    out.PushOpt(indent, "enumArray", StringsFlat(attr.enumArray));
    EmitItems(out, attr, indent);
    out.PushOpt(indent, "padding", PaddingFlat(attr.padding));
    EmitProperties(out, attr, indent);
    out.PushOpt(indent, "template", StrFlat(attr.template));
  }

  method EmitLocked(out: LineBuffer, attr: Attribute, indent: string)
    modifies out
    ensures out.lines == old(out.lines) + LockedLines(attr, indent)
  {
    out.Push(Line(indent, "type", Emit(OneOrManyFlat(attr.kind))));
    out.Push(Line(indent, "required", FlagText(attr.required)));
    out.Push(Line(indent, "hidden", FlagText(attr.hidden)));
    out.Push(Line(indent, "readOnly", FlagText(attr.readOnly)));
    out.Push(Line(indent, "field", Quote(attr.field)));
  }

  method EmitItems(out: LineBuffer, attr: Attribute, indent: string)
    requires WellNamed(attr)
    modifies out
    ensures out.lines == old(out.lines) + ItemsLines(attr, indent)
    decreases Weight(attr), 1
  {
    if attr.items.Some? {
      if attr.items.value.Primitive? {
        out.Push(Line(indent, "items", Quote(attr.items.value.name)));
      } else {
        ghost var before := out.lines;
        out.Open(indent, "items");
        EmitAttributeBody(out, attr.items.value.attribute, indent + "  ");
        out.Close(indent);
        BlockPushed(before, indent, "items", AttributeBodyLines(attr.items.value.attribute, indent + "  "));
      }
    }
  }

  method EmitProperties(out: LineBuffer, attr: Attribute, indent: string)
    requires WellNamed(attr)
    modifies out
    ensures out.lines == old(out.lines) + PropertiesLines(attr, indent)
    decreases Weight(attr), 1
  {
    if attr.properties.Some? {
      ghost var before := out.lines;
      out.Open(indent, "properties");
      EmitEntries(out, attr.properties.value, indent + "  ");
      out.Close(indent);
      BlockPushed(before, indent, "properties", Concat(Sort(EntryLines(attr.properties.value, indent + "  "))));
    }
  }

  /** `for (const name of Object.keys(l).sort())`. */
  method EmitEntries(out: LineBuffer, l: Named<Attribute>, indent: string)
    requires WellNamedAll(l)
    modifies out
    ensures out.lines == old(out.lines) + Concat(Sort(EntryLines(l, indent)))
    decreases WeightAll(l), 4
  {
    var names := SortNames(Keys(l));
    ghost var all := EntryLines(l, indent);
    EntriesVisited(l, indent);
    ghost var start, done: seq<string> := out.lines, [];
    for i := 0 to |names|
      invariant out.lines == start + done && done == Visit(all, names[..i])
    {
      OneVisited(l, indent, names, i);
      EmitAttributeEntry(out, names[i], Get(l, names[i]), indent);
      Two(start, done, AttributeEntryLines(names[i], Get(l, names[i]), indent));
      done := done + AttributeEntryLines(names[i], Get(l, names[i]), indent);
    }
    assert names[..|names|] == names;
  }

  lemma EntriesVisited(l: Named<Attribute>, indent: string)
    requires WellNamedAll(l)
    ensures Names(EntryLines(l, indent)) == Names(l)
    ensures forall n :: n in SortNames(Keys(l)) ==> n in Names(l)
    ensures Visit(EntryLines(l, indent), SortNames(Keys(l))) == Concat(Sort(EntryLines(l, indent)))
  {
    AttributesProper(l);
    LinesUnder(l, indent);
    VisitSorted(EntryLines(l, indent));
  }

  lemma OneVisited(l: Named<Attribute>, indent: string, names: seq<string>, i: nat)
    requires WellNamedAll(l) && i < |names| && forall n :: n in names ==> n in Names(l)
    ensures names[i] in Names(l) && WellNamed(Get(l, names[i])) && Weight(Get(l, names[i])) < WeightAll(l)
    ensures Names(EntryLines(l, indent)) == Names(l)
    ensures Visit(EntryLines(l, indent), names[..i + 1])
            == Visit(EntryLines(l, indent), names[..i]) + AttributeEntryLines(names[i], Get(l, names[i]), indent)
  {
    assert names[i] in names && names[..i + 1][..i] == names[..i];
    AttributesProper(l);
    LinesUnder(l, indent);
    EntryIsLighter(l, names[i]);
  }

  method EmitIndexEntries(out: LineBuffer, l: Named<Index>, indent: string)
    requires Distinct(l)
    modifies out
    ensures out.lines == old(out.lines) + Concat(Sort(IndexEntryLines(l, indent)))
  {
    var names := SortNames(Keys(l));
    ghost var all := IndexEntryLines(l, indent);
    IndexLinesUnder(l, indent);
    VisitSorted(all);
    ghost var start, done: seq<string> := out.lines, [];
    for i := 0 to |names|
      invariant out.lines == start + done && done == Visit(all, names[..i])
    {
      OneIndexVisited(l, indent, names, i);
      ghost var block := EmitIndexEntry(out, names[i], Get(l, names[i]), indent);
      Two(start, done, block);
      done := done + block;
    }
    assert names[..|names|] == names;
  }

  lemma OneIndexVisited(l: Named<Index>, indent: string, names: seq<string>, i: nat)
    requires Distinct(l) && i < |names| && forall n :: n in names ==> n in Names(l)
    ensures names[i] in Names(l) && Names(IndexEntryLines(l, indent)) == Names(l)
    ensures Visit(IndexEntryLines(l, indent), names[..i + 1])
            == Visit(IndexEntryLines(l, indent), names[..i]) + BlockLines(indent, names[i], IndexBodyLines(Get(l, names[i]), indent + "  "))
  {
    assert names[i] in names && names[..i + 1][..i] == names[..i];
    IndexLinesUnder(l, indent);
  }

  lemma Two(z: seq<string>, a: seq<string>, b: seq<string>)
    ensures (z + a) + b == z + (a + b)
  {
  }

  method EmitIndexEntry(out: LineBuffer, name: string, idx: Index, indent: string) returns (ghost block: seq<string>)
    modifies out
    ensures block == BlockLines(indent, name, IndexBodyLines(idx, indent + "  "))
    ensures out.lines == old(out.lines) + block
  {
    block := BlockLines(indent, name, IndexBodyLines(idx, indent + "  "));
    ghost var before := out.lines;
    out.Open(indent, name);
    EmitIndexBody(out, idx, indent + "  ");
    out.Close(indent);
    BlockPushed(before, indent, name, IndexBodyLines(idx, indent + "  "));
  }

  method EmitIndexBody(out: LineBuffer, idx: Index, indent: string)
    modifies out
    ensures out.lines == old(out.lines) + IndexBodyLines(idx, indent)
  {
    out.Push(Line(indent, "type", Quote(if idx.clustered then "clustered" else "isolated")));
    out.Push(Line(indent, "pk", Emit(KeyFlat(idx.pk))));
    if idx.sk.Some? { out.Push(Line(indent, "sk", Emit(KeyFlat(idx.sk.value)))); }
    if idx.collection.Some? { out.Push(Line(indent, "collection", Emit(OneOrManyFlat(idx.collection.value)))); }
  }

  method EmitInner(out: LineBuffer, p: EntityProjection, version: string)
    requires WellNamedProjection(p)
    modifies out
    ensures out.lines == old(out.lines) + InnerLines(p, version)
  {
    ghost var start := out.lines;
    out.Push(Line("  ", "model", Emit(ModelFlat(p, version))));
    ghost var afterModel := out.lines;
    out.Open("  ", "attributes");
    EmitEntries(out, p.attributes, "    ");
    out.Close("  ");
    BlockPushed(afterModel, "  ", "attributes", Concat(Sort(EntryLines(p.attributes, "    "))));
    ghost var afterAttributes := out.lines;
    AttributesProper(p.attributes);
    out.Open("  ", "indexes");
    EmitIndexEntries(out, p.indexes, "    ");
    out.Close("  ");
    BlockPushed(afterAttributes, "  ", "indexes", Concat(Sort(IndexEntryLines(p.indexes, "    "))));
    Three(start, [Line("  ", "model", Emit(ModelFlat(p, version)))],
          BlockLines("  ", "attributes", Concat(Sort(EntryLines(p.attributes, "    ")))),
          BlockLines("  ", "indexes", Concat(Sort(IndexEntryLines(p.indexes, "    ")))));
  }

  lemma Three(z: seq<string>, a: seq<string>, b: seq<string>, c: seq<string>)
    ensures ((z + a) + b) + c == z + (a + (b + c))
  {
  }

  /** `renderFrozenEntitySource`. */
  method RenderFrozenEntitySource(p: EntityProjection, version: string) returns (source: string)
    requires WellNamedProjection(p)
    ensures source == Render(p, version)
  {
    var out := new LineBuffer();
    out.lines := HEADER;
    out.Push("export const " + (p.entity + " = new Entity({"));
    EmitInner(out, p, version);
    out.Push("});");
    Three(HEADER, ["export const " + (p.entity + " = new Entity({")], InnerLines(p, version), ["});"]);
    source := JoinLines(out.lines);
  }
}
