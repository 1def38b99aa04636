/** The values a token sequence denotes: array and object initialisers with optional trailing commas
    (ECMA-262, sections 13.2.4 and 13.2.5). `__proto__` is no property name: in a literal it sets the
    prototype. */
module LiteralValues {
  import opened Wrappers
  import opened NamedLists
  import opened CanonicalJson
  import opened LiteralTokens

  // ----- Values --------------------------------------------------------------------------------------

  predicate Starts(ts: seq<Token>, c: char) {
    ts != [] && ts[0] == Punct(c)
  }

  function ParseValue(ts: seq<Token>): (r: Option<(Json, seq<Token>)>)
    ensures r.Some? ==> |r.value.1| < |ts|
    decreases |ts|, 0
  {
    if ts == [] then None
    else
      match ts[0]
      case Text(s) => Some((Str(s), ts[1..]))
      case Number(n) => Some((Num(n), ts[1..]))
      case Word(w) =>
        if w == "true" then Some((Flag(true), ts[1..]))
        else if w == "false" then Some((Flag(false), ts[1..]))
        else None
      case Punct(c) =>
        if c == '[' then
          var r := ParseElements(ts[1..]);
          if r.None? then None else Some((Arr(r.value.0), r.value.1))
        else if c == '{' then
          var r := ParseFields(ts[1..]);
          if r.None? then None else Some((Obj(r.value.0), r.value.1))
        else None
  }

  /** The elements up to and including the closing bracket. */
  function ParseElements(ts: seq<Token>): (r: Option<(seq<Json>, seq<Token>)>)
    ensures r.Some? ==> |r.value.1| < |ts|
    decreases |ts|, 1
  {
    if Starts(ts, ']') then Some(([], ts[1..]))
    else
      var v := ParseValue(ts);
      if v.None? then None
      else if Starts(v.value.1, ']') then Some(([v.value.0], v.value.1[1..]))
      else if Starts(v.value.1, ',') then
        var more := ParseElements(v.value.1[1..]);
        if more.None? then None else Some(([v.value.0] + more.value.0, more.value.1))
      else None
  }

  /** The properties up to and including the closing brace. */
  function ParseFields(ts: seq<Token>): (r: Option<(Named<Json>, seq<Token>)>)
    ensures r.Some? ==> |r.value.1| < |ts|
    decreases |ts|, 1
  {
    if Starts(ts, '}') then Some((Nil, ts[1..]))
    else if |ts| < 2 || PropertyName(ts[0]).None? || ts[1] != Punct(':') then None
    else
      var name := PropertyName(ts[0]).value;
      var v := ParseValue(ts[2..]);
      if v.None? then None
      else if Starts(v.value.1, '}') then Some((Cons(name, v.value.0, Nil), v.value.1[1..]))
      else if Starts(v.value.1, ',') then
        var more := ParseFields(v.value.1[1..]);
        if more.None? then None else Some((Cons(name, v.value.0, more.value.0), more.value.1))
      else None
  }

  // ----- Pieces of values --------------------------------------------------------------------------

  function Append(a: Named<Json>, b: Named<Json>): Named<Json> {
    if a.Nil? then b else Cons(a.name, a.value, Append(a.rest, b))
  }

  lemma {:induction false} AppendNil(a: Named<Json>)
    ensures Append(a, Nil) == a
  {
    if a.Cons? { AppendNil(a.rest); }
  }

  lemma {:induction false} AppendAssoc(a: Named<Json>, b: Named<Json>, c: Named<Json>)
    ensures Append(Append(a, b), c) == Append(a, Append(b, c))
  {
    if a.Cons? { AppendAssoc(a.rest, b, c); }
  }

  ghost predicate IsValue(ts: seq<Token>, v: Json) {
    forall rest: seq<Token> :: ValueBefore(ts, v, rest)
  }

  predicate ValueBefore(ts: seq<Token>, v: Json, rest: seq<Token>) {
    ParseValue(ts + rest) == Some((v, rest))
  }

  /** Tokens of whole properties, each with its comma: they come before whatever properties follow. */
  ghost predicate AreFields(ts: seq<Token>, fs: Named<Json>) {
    forall tail: seq<Token> :: FieldsBefore(ts, fs, tail)
  }

  predicate FieldsBefore(ts: seq<Token>, fs: Named<Json>, tail: seq<Token>) {
    var more := ParseFields(tail);
    more.Some? ==> ParseFields(ts + tail) == Some((Append(fs, more.value.0), more.value.1))
  }

  lemma FieldsThenFields(a: seq<Token>, f: Named<Json>, b: seq<Token>, g: Named<Json>)
    requires AreFields(a, f) && AreFields(b, g)
    ensures AreFields(a + b, Append(f, g))
  {
    forall tail: seq<Token> ensures FieldsBefore(a + b, Append(f, g), tail) {
      assert FieldsBefore(b, g, tail) && FieldsBefore(a, f, b + tail);
      assert (a + b) + tail == a + (b + tail);
      if ParseFields(tail).Some? { AppendAssoc(f, g, ParseFields(tail).value.0); }
    }
  }

  lemma NoFields()
    ensures AreFields([], Nil)
  {
    forall tail: seq<Token> ensures FieldsBefore([], Nil, tail) { assert [] + tail == tail; }
  }

  lemma OneField(name: string, ts: seq<Token>, v: Json)
    requires IsName(name) && IsValue(ts, v)
    ensures AreFields([NameToken(name), Punct(':')] + ts + [Punct(',')], Cons(name, v, Nil))
  {
    NamesItself(name);
    var piece := [NameToken(name), Punct(':')] + ts + [Punct(',')];
    forall tail: seq<Token> ensures FieldsBefore(piece, Cons(name, v, Nil), tail) {
      var rest := [Punct(',')] + tail;
      assert (piece + tail)[2..] == ts + rest && rest[1..] == tail;
      assert ValueBefore(ts, v, rest);
    }
  }

  /** The last property may come without a comma. */
  lemma LastField(name: string, ts: seq<Token>, v: Json, rest: seq<Token>)
    requires IsName(name) && IsValue(ts, v)
    ensures ParseFields([NameToken(name), Punct(':')] + ts + [Punct('}')] + rest) == Some((Cons(name, v, Nil), rest))
  {
    NamesItself(name);
    var piece := [NameToken(name), Punct(':')] + ts + [Punct('}')] + rest;
    var more := [Punct('}')] + rest;
    assert piece[2..] == ts + more && more[1..] == rest;
    assert ValueBefore(ts, v, more);
  }

  lemma ObjectValue(ts: seq<Token>, fs: Named<Json>)
    requires AreFields(ts, fs)
    ensures IsValue([Punct('{')] + ts + [Punct('}')], Obj(fs))
  {
    var piece := [Punct('{')] + ts + [Punct('}')];
    forall rest: seq<Token> ensures ValueBefore(piece, Obj(fs), rest) {
      var tail := [Punct('}')] + rest;
      assert (piece + rest)[1..] == ts + tail && tail[1..] == rest;
      assert FieldsBefore(ts, fs, tail);
      AppendNil(fs);
    }
  }

  lemma ObjectValueNoComma(ts: seq<Token>, fs: Named<Json>, name: string, vs: seq<Token>, v: Json)
    requires AreFields(ts, fs) && IsName(name) && IsValue(vs, v)
    ensures IsValue([Punct('{')] + ts + ([NameToken(name), Punct(':')] + vs) + [Punct('}')], Obj(Append(fs, Cons(name, v, Nil))))
  {
    var last := [NameToken(name), Punct(':')] + vs;
    var piece := [Punct('{')] + ts + last + [Punct('}')];
    forall rest: seq<Token> ensures ValueBefore(piece, Obj(Append(fs, Cons(name, v, Nil))), rest) {
      var tail := [NameToken(name), Punct(':')] + vs + [Punct('}')] + rest;
      assert (piece + rest)[1..] == ts + tail;
      LastField(name, vs, v, rest);
      assert FieldsBefore(ts, fs, tail);
    }
  }
}
