/** The one-line pieces of a frozen source: quoted strings, string lists, numbers, booleans and inline
    objects, and what a reader makes of them. */
module LiteralText {
  import opened Wrappers
  import opened NamedLists
  import opened CanonicalJson
  import opened LiteralTokens
  import opened LiteralValues
  import opened ObjectLiteral

  // ----- quote ---------------------------------------------------------------------------------------

  /** `s.replace(/c/g, sub)`. */
  function ReplaceAll(s: string, c: char, sub: string): string {
    if s == "" then "" else (if s[0] == c then sub else [s[0]]) + ReplaceAll(s[1..], c, sub)
  }

  function Escaped(s: string): string {
    ReplaceAll(ReplaceAll(s, '\\', "\\\\"), '\'', "\\'")
  }

  function Quote(s: string): string {
    "'" + (Escaped(s) + "'")
  }

  predicate OneLine(s: string) {
    forall i :: 0 <= i < |s| ==> !IsLineEnd(s[i])
  }

  lemma {:induction false} ReplaceAppend(a: string, b: string, c: char, sub: string)
    ensures ReplaceAll(a + b, c, sub) == ReplaceAll(a, c, sub) + ReplaceAll(b, c, sub)
  {
    if a == "" {
      assert a + b == b;
    } else {
      assert (a + b)[1..] == a[1..] + b;
      ReplaceAppend(a[1..], b, c, sub);
      var head := if a[0] == c then sub else [a[0]];
      assert head + (ReplaceAll(a[1..], c, sub) + ReplaceAll(b, c, sub)) == (head + ReplaceAll(a[1..], c, sub)) + ReplaceAll(b, c, sub);
    }
  }

  /** The two passes together escape each character on its own. */
  function Escape(c: char): string {
    if c == '\\' then "\\\\" else if c == '\'' then "\\'" else [c]
  }

  lemma EscapedHead(s: string)
    requires s != ""
    ensures Escaped(s) == Escape(s[0]) + Escaped(s[1..])
  {
    var first := if s[0] == '\\' then "\\\\" else [s[0]];
    ReplaceAppend(first, ReplaceAll(s[1..], '\\', "\\\\"), '\'', "\\'");
    assert ReplaceAll("", '\'', "\\'") == "";
    if s[0] == '\\' {
      assert first[1..] == "\\" && first[1..][1..] == "";
      assert ReplaceAll("\\", '\'', "\\'") == "\\" + "";
      assert ReplaceAll(first, '\'', "\\'") == "\\" + ("\\" + "");
    } else {
      assert first[1..] == "";
      assert ReplaceAll(first, '\'', "\\'") == Escape(s[0]) + "";
    }
  }

  lemma EscapeReads(c: char, more: string)
    ensures ReadString(Escape(c) + more) == if IsLineEnd(c) then None else Onto(c, ReadString(more))
  {
    assert (Escape(c) + more)[|Escape(c)|..] == more;
  }

  lemma ClosingQuote(rest: string)
    ensures Escaped("") + ("'" + rest) == "'" + rest && ReadString("'" + rest) == Some(("", rest))
  {
    assert ("'" + rest)[1..] == rest;
  }

  lemma Assoc(a: string, b: string, c: string)
    ensures (a + b) + c == a + (b + c)
  {
  }

  lemma {:induction false} EscapedReads(s: string, rest: string)
    requires OneLine(s)
    ensures ReadString(Escaped(s) + ("'" + rest)) == Some((s, rest))
  {
    if s == "" {
      ClosingQuote(rest);
    } else {
      EscapedHead(s);
      EscapedReads(s[1..], rest);
      EscapeReads(s[0], Escaped(s[1..]) + ("'" + rest));
      Assoc(Escape(s[0]), Escaped(s[1..]), "'" + rest);
      assert [s[0]] + s[1..] == s;
    }
  }

  lemma {:induction false} LineEndStops(s: string, rest: string)
    requires !OneLine(s)
    ensures ReadString(Escaped(s) + rest).None?
  {
    var more := Escaped(s[1..]) + rest;
    EscapedHead(s);
    EscapeReads(s[0], more);
    assert Escaped(s) + rest == Escape(s[0]) + more;
    if !IsLineEnd(s[0]) {
      LineEndStops(s[1..], rest);
    }
  }

  lemma QuoteCloses(s: string)
    requires OneLine(s)
    ensures Closed(Quote(s), [Text(s)]) && ReadsAs(Quote(s), Str(s))
  {
    forall rest: string ensures ClosedBefore(Quote(s), [Text(s)], rest) {
      EscapedReads(s, rest);
      assert (Quote(s) + rest)[1..] == Escaped(s) + ("'" + rest);
    }
    ClosedOpens(Quote(s), [Text(s)]);
    forall rest: seq<Token> ensures ValueBefore([Text(s)], Str(s), rest) {
      assert ([Text(s)] + rest)[1..] == rest;
    }
  }

  /** A quoted string reads back exactly when it contains no line terminator: those are not escaped. */
  lemma QuoteReadsExactly(s: string)
    ensures Read(Quote(s)) == Some(Str(s)) <==> OneLine(s)
  {
    if OneLine(s) {
      QuoteCloses(s);
      ReadsAlone(Quote(s), Str(s));
    } else {
      LineEndStops(s, "'");
      assert Quote(s)[1..] == Escaped(s) + "'";
    }
  }

  // ----- Numbers and booleans -----------------------------------------------------------------------

  lemma NumberReads(n: nat)
    ensures ReadsAs(Decimal(n), Num(n))
  {
    DecimalReads(n);
    NumeralOpens(Decimal(n));
    forall rest: seq<Token> ensures ValueBefore([Number(n)], Num(n), rest) {
      assert ([Number(n)] + rest)[1..] == rest;
    }
  }

  function FlagText(b: bool): string {
    if b then "true" else "false"
  }

  lemma FlagReads(b: bool)
    ensures ReadsAs(FlagText(b), Flag(b))
  {
    WordOpens(FlagText(b));
    forall rest: seq<Token> ensures ValueBefore([Word(FlagText(b))], Flag(b), rest) {
      assert ([Word(FlagText(b))] + rest)[1..] == rest;
    }
  }

  // ----- Lists of strings ----------------------------------------------------------------------------

  /** `parts.join(sep)`. */
  function Join(parts: seq<string>, sep: string): string {
    if parts == [] then ""
    else if |parts| == 1 then parts[0]
    else parts[0] + (sep + Join(parts[1..], sep))
  }

  function Quotes(items: seq<string>): seq<string> {
    seq(|items|, i requires 0 <= i < |items| => Quote(items[i]))
  }

  function EmitStringArray(items: seq<string>): string {
    if |items| == 0 then "[]" else "[" + (Join(Quotes(items), ", ") + "]")
  }

  function ElementTokens(items: seq<string>): seq<Token>
    requires items != []
  {
    [Text(items[0])] + if |items| == 1 then [Punct(']')] else [Punct(',')] + ElementTokens(items[1..])
  }

  lemma {:induction false} ElementsClose(items: seq<string>)
    requires items != [] && forall i :: 0 <= i < |items| ==> OneLine(items[i])
    ensures Closed(Join(Quotes(items), ", ") + "]", ElementTokens(items))
  {
    QuoteCloses(items[0]);
    PunctCloses(']');
    if |items| == 1 {
      ClosedThenClosed(Quote(items[0]), [Text(items[0])], "]", [Punct(']')]);
    } else {
      ElementsClose(items[1..]);
      assert Quotes(items)[1..] == Quotes(items[1..]);
      PunctCloses(',');
      BlankCloses(" ");
      ClosedThenClosed(",", [Punct(',')], " ", []);
      var more := Join(Quotes(items[1..]), ", ");
      assert "," + " " == ", " && [Punct(',')] + [] == [Punct(',')];
      ClosedThenClosed(", ", [Punct(',')], more + "]", ElementTokens(items[1..]));
      ClosedThenClosed(Quote(items[0]), [Text(items[0])], ", " + (more + "]"), [Punct(',')] + ElementTokens(items[1..]));
      assert Quote(items[0]) + (", " + (more + "]")) == Join(Quotes(items), ", ") + "]";
    }
  }

  lemma {:induction false} ElementsParse(items: seq<string>, rest: seq<Token>)
    requires items != []
    ensures ParseElements(ElementTokens(items) + rest) == Some((Strings(items).items, rest))
  {
    var ts := ElementTokens(items) + rest;
    assert ts[0] == Text(items[0]);
    if |items| == 1 {
      assert ts[1..] == [Punct(']')] + rest && ts[1..][1..] == rest;
      assert [Str(items[0])] == Strings(items).items;
    } else {
      ElementsParse(items[1..], rest);
      assert ts[1..] == [Punct(',')] + (ElementTokens(items[1..]) + rest);
      assert ts[1..][1..] == ElementTokens(items[1..]) + rest;
      assert [Str(items[0])] + Strings(items[1..]).items == Strings(items).items;
    }
  }

  lemma StringArrayReads(items: seq<string>)
    requires forall i :: 0 <= i < |items| ==> OneLine(items[i])
    ensures ReadsAs(EmitStringArray(items), Strings(items))
  {
    if items == [] {
      EmptyArrayReads();
    } else {
      var ts := [Punct('[')] + ElementTokens(items);
      PunctCloses('[');
      ElementsClose(items);
      ClosedThenClosed("[", [Punct('[')], Join(Quotes(items), ", ") + "]", ElementTokens(items));
      ClosedOpens(EmitStringArray(items), ts);
      forall rest: seq<Token> ensures ValueBefore(ts, Strings(items), rest) {
        ElementsParse(items, rest);
        assert (ts + rest)[1..] == ElementTokens(items) + rest;
      }
    }
  }

  lemma EmptyArrayReads()
    ensures ReadsAs("[]", Strings([]))
  {
    var ts := [Punct('['), Punct(']')];
    PunctCloses('[');
    PunctCloses(']');
    ClosedThenClosed("[", [Punct('[')], "]", [Punct(']')]);
    assert "[" + "]" == "[]" && [Punct('[')] + [Punct(']')] == ts;
    ClosedOpens("[]", ts);
    assert Strings([]).items == [];
    forall rest: seq<Token> ensures ValueBefore(ts, Strings([]), rest) {
      assert (ts + rest)[1..] == [Punct(']')] + rest && ([Punct(']')] + rest)[1..] == rest;
    }
  }

  // ----- One-line objects ---------------------------------------------------------------------------

  /** A value whose fields print on one line: scalars, lists of strings, objects of such. */
  datatype Flat = FStr(text: string) | FNum(number: nat) | FFlag(flag: bool) | FStrings(items: seq<string>) | FObj(fields: Named<Flat>)

  function FlatJson(f: Flat): Json {
    match f
    case FStr(s) => Str(s)
    case FNum(n) => Num(n)
    case FFlag(b) => Flag(b)
    case FStrings(items) => Strings(items)
    case FObj(fields) => Obj(FlatFields(fields))
  }

  function FlatFields(l: Named<Flat>): Named<Json> {
    if l.Nil? then Nil else Cons(l.name, FlatJson(l.value), FlatFields(l.rest))
  }

  function Emit(f: Flat): string {
    match f
    case FStr(s) => Quote(s)
    case FNum(n) => Decimal(n)
    case FFlag(b) => FlagText(b)
    case FStrings(items) => EmitStringArray(items)
    case FObj(fields) => "{ " + (Join(Parts(fields), ", ") + " }")
  }

  function Parts(l: Named<Flat>): seq<string> {
    if l.Nil? then [] else [(l.name + ": ") + Emit(l.value)] + Parts(l.rest)
  }

  /** Property names for names, no line terminators in strings, and no empty object. */
  predicate FlatReadable(f: Flat) {
    match f
    case FStr(s) => OneLine(s)
    case FStrings(items) => forall i :: 0 <= i < |items| ==> OneLine(items[i])
    case FObj(fields) => fields.Cons? && FieldsReadable(fields)
    case _ => true
  }

  predicate FieldsReadable(l: Named<Flat>) {
    l.Cons? ==> IsName(l.name) && FlatReadable(l.value) && FieldsReadable(l.rest)
  }

  /** The text of all properties but the last, each with its comma. */
  function Leading(l: Named<Flat>): string
    requires l.Cons?
  {
    if l.rest.Nil? then "" else ((l.name + ": ") + (Emit(l.value) + ("," + " "))) + Leading(l.rest)
  }

  function LastOf(l: Named<Flat>): (r: (string, Flat))
    requires l.Cons?
  {
    if l.rest.Nil? then (l.name, l.value) else LastOf(l.rest)
  }

  function InitOf(l: Named<Flat>): Named<Flat>
    requires l.Cons?
  {
    if l.rest.Nil? then Nil else Cons(l.name, l.value, InitOf(l.rest))
  }

  lemma {:induction false} JoinSplits(l: Named<Flat>, end: string)
    requires l.Cons?
    ensures Join(Parts(l), ", ") + end == Leading(l) + ((LastOf(l).0 + ": ") + (Emit(LastOf(l).1) + end))
    ensures FlatFields(l) == Append(FlatFields(InitOf(l)), Cons(LastOf(l).0, FlatJson(LastOf(l).1), Nil))
  {
    var parts := Parts(l);
    if l.rest.Nil? {
      assert Parts(l.rest) == [] && parts == [(l.name + ": ") + Emit(l.value)];
      assert "" + ((l.name + ": ") + (Emit(l.value) + end)) == ((l.name + ": ") + Emit(l.value)) + end;
    } else {
      JoinSplits(l.rest, end);
      assert parts[0] == (l.name + ": ") + Emit(l.value) && parts[1..] == Parts(l.rest) && |Parts(l.rest)| >= 1;
      Regroup(l.name + ": ", Emit(l.value), Join(Parts(l.rest), ", "), end);
      var tail := (LastOf(l).0 + ": ") + (Emit(LastOf(l).1) + end);
      var head := (l.name + ": ") + (Emit(l.value) + ("," + " "));
      assert head + (Leading(l.rest) + tail) == (head + Leading(l.rest)) + tail;
    }
  }

  lemma Regroup(name: string, value: string, more: string, end: string)
    ensures ((name + value) + (", " + more)) + end == (name + (value + ("," + " "))) + (more + end)
  {
    assert "," + " " == ", ";
  }

  lemma {:induction false} FlatReads(f: Flat)
    requires FlatReadable(f)
    ensures ReadsAs(Emit(f), FlatJson(f))
    decreases f, 1
  {
    match f
    case FStr(s) => QuoteCloses(s);
    case FNum(n) => NumberReads(n);
    case FFlag(b) => FlagReads(b);
    case FStrings(items) => StringArrayReads(items);
    case FObj(fields) =>
      LeadingReads(fields);
      JoinSplits(fields, " }");
      BracesNoComma(Leading(fields), FlatFields(InitOf(fields)), LastOf(fields).0, Emit(LastOf(fields).1), FlatJson(LastOf(fields).1));
  }

  lemma {:induction false} LeadingReads(l: Named<Flat>)
    requires l.Cons? && FieldsReadable(l)
    ensures ReadsAsFields(Leading(l), FlatFields(InitOf(l)))
    ensures IsName(LastOf(l).0) && ReadsAs(Emit(LastOf(l).1), FlatJson(LastOf(l).1))
    decreases l, 0
  {
    FlatReads(l.value);
    if l.rest.Nil? {
      BlankFields("");
    } else {
      LeadingReads(l.rest);
      FieldText(l.name, Emit(l.value), FlatJson(l.value), " ");
      FieldsAppend((l.name + ": ") + (Emit(l.value) + ("," + " ")), Cons(l.name, FlatJson(l.value), Nil),
                   Leading(l.rest), FlatFields(InitOf(l.rest)));
      assert Append(Cons(l.name, FlatJson(l.value), Nil), FlatFields(InitOf(l.rest))) == FlatFields(InitOf(l));
    }
  }
}
