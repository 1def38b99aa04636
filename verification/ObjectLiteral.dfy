/** A reader for the object literals of ECMA-262: string literals (section 12.9.4), object and array
    initialisers with optional trailing commas (sections 13.2.4 and 13.2.5), decimal integers and
    booleans. It rejects what it does not cover rather than guess: other escapes, elisions, quoted
    property names, numeric ones that are no plain integers, and `__proto__`, which in a literal is not a
    property. */
module ObjectLiteral {
  import opened Wrappers
  import opened NamedLists
  import opened CanonicalJson
  import opened LiteralTokens
  import opened LiteralValues

  /** The value of a whole text. */
  function Read(text: string): Option<Json> {
    var ts := Lex(text);
    if ts.None? then None
    else
      var r := ParseValue(ts.value);
      if r.Some? && r.value.1 == [] then Some(r.value.0) else None
  }

  // ----- Texts that read as values and as properties -----------------------------------------------

  ghost predicate ReadsAs(text: string, v: Json) {
    exists ts :: Open(text, ts) && IsValue(ts, v)
  }

  ghost predicate ReadsAsFields(text: string, fs: Named<Json>) {
    exists ts :: Closed(text, ts) && AreFields(ts, fs)
  }

  /** A text that reads as `v` in any context reads as `v` on its own. */
  lemma ReadsAlone(text: string, v: Json)
    requires ReadsAs(text, v)
    ensures Read(text) == Some(v)
  {
    var ts :| Open(text, ts) && IsValue(ts, v);
    assert text + "" == text && EndsName("") && ClosedBefore(text, ts, "");
    assert ts + [] == ts && ValueBefore(ts, v, []);
  }

  lemma FieldsAppend(a: string, f: Named<Json>, b: string, g: Named<Json>)
    requires ReadsAsFields(a, f) && ReadsAsFields(b, g)
    ensures ReadsAsFields(a + b, Append(f, g))
  {
    var ta :| Closed(a, ta) && AreFields(ta, f);
    var tb :| Closed(b, tb) && AreFields(tb, g);
    ClosedThenClosed(a, ta, b, tb);
    FieldsThenFields(ta, f, tb, g);
  }

  predicate Blank(s: string) {
    forall i :: 0 <= i < |s| ==> IsSpace(s[i])
  }

  lemma BlankFields(s: string)
    requires Blank(s)
    ensures ReadsAsFields(s, Nil)
  {
    BlankCloses(s);
    NoFields();
  }

  /** `name: ` before a value. */
  lemma NameColon(name: string)
    requires IsName(name)
    ensures Closed(name + ": ", [NameToken(name), Punct(':')])
  {
    NameOpens(name);
    PunctCloses(':');
    BlankCloses(" ");
    ClosedThenClosed(":", [Punct(':')], " ", []);
    assert ":" + " " == ": " && [Punct(':')] + [] == [Punct(':')];
    OpenThenClosed(name, [NameToken(name)], ": ", [Punct(':')]);
    assert [NameToken(name)] + [Punct(':')] == [NameToken(name), Punct(':')];
  }

  lemma FieldText(name: string, text: string, v: Json, after: string)
    requires IsName(name) && ReadsAs(text, v) && Blank(after)
    ensures ReadsAsFields((name + ": ") + (text + ("," + after)), Cons(name, v, Nil))
  {
    var ts :| Open(text, ts) && IsValue(ts, v);
    NameColon(name);
    PunctCloses(',');
    BlankCloses(after);
    ClosedThenClosed(",", [Punct(',')], after, []);
    assert [Punct(',')] + [] == [Punct(',')];
    OpenThenClosed(text, ts, "," + after, [Punct(',')]);
    ClosedThenClosed(name + ": ", [NameToken(name), Punct(':')], text + ("," + after), ts + [Punct(',')]);
    assert [NameToken(name), Punct(':')] + (ts + [Punct(',')]) == [NameToken(name), Punct(':')] + ts + [Punct(',')];
    OneField(name, ts, v);
  }

  /** Braces around properties, whatever blank space is inside. */
  lemma BracesText(before: string, body: string, fs: Named<Json>, after: string)
    requires ReadsAsFields(body, fs) && Blank(before) && Blank(after)
    ensures ReadsAs(("{" + before) + (body + (after + "}")), Obj(fs))
  {
    var ts :| Closed(body, ts) && AreFields(ts, fs);
    PunctCloses('{');
    PunctCloses('}');
    BlankCloses(before);
    BlankCloses(after);
    ClosedThenClosed("{", [Punct('{')], before, []);
    ClosedThenClosed(after, [], "}", [Punct('}')]);
    ClosedThenClosed(body, ts, after + "}", [] + [Punct('}')]);
    ClosedThenClosed("{" + before, [Punct('{')] + [], body + (after + "}"), ts + ([] + [Punct('}')]));
    assert ([Punct('{')] + []) + (ts + ([] + [Punct('}')])) == [Punct('{')] + ts + [Punct('}')];
    ObjectValue(ts, fs);
    ClosedOpens(("{" + before) + (body + (after + "}")), [Punct('{')] + ts + [Punct('}')]);
  }

  lemma ClosedOpens(s: string, ts: seq<Token>)
    requires Closed(s, ts)
    ensures Open(s, ts)
  {
    forall rest: string | EndsName(rest) ensures ClosedBefore(s, ts, rest) {}
  }

  /** The one-line object: no comma after the last property. */
  lemma BracesNoComma(body: string, fs: Named<Json>, name: string, text: string, v: Json)
    requires ReadsAsFields(body, fs) && IsName(name) && ReadsAs(text, v)
    ensures ReadsAs("{ " + (body + ((name + ": ") + (text + " }"))), Obj(Append(fs, Cons(name, v, Nil))))
  {
    var ts :| Closed(body, ts) && AreFields(ts, fs);
    var vs :| Open(text, vs) && IsValue(vs, v);
    PunctCloses('{');
    PunctCloses('}');
    BlankCloses(" ");
    ClosedThenClosed("{", [Punct('{')], " ", []);
    ClosedThenClosed(" ", [], "}", [Punct('}')]);
    assert "{" + " " == "{ " && " " + "}" == " }" && [Punct('{')] + [] == [Punct('{')] && [] + [Punct('}')] == [Punct('}')];
    OpenThenClosed(text, vs, " }", [Punct('}')]);
    NameColon(name);
    ClosedThenClosed(name + ": ", [NameToken(name), Punct(':')], text + " }", vs + [Punct('}')]);
    var last := (name + ": ") + (text + " }");
    ClosedThenClosed(body, ts, last, [NameToken(name), Punct(':')] + (vs + [Punct('}')]));
    ClosedThenClosed("{ ", [Punct('{')], body + last, ts + ([NameToken(name), Punct(':')] + (vs + [Punct('}')])));
    assert [Punct('{')] + (ts + ([NameToken(name), Punct(':')] + (vs + [Punct('}')])))
           == [Punct('{')] + ts + ([NameToken(name), Punct(':')] + vs) + [Punct('}')];
    ObjectValueNoComma(ts, fs, name, vs, v);
    ClosedOpens("{ " + (body + last), [Punct('{')] + ts + ([NameToken(name), Punct(':')] + vs) + [Punct('}')]);
  }
}
