/** The tokens of an object literal (ECMA-262, sections 12.7 and 12.9): string literals with the escapes
    of backslash and quote, decimal integers, identifier names and punctuators. */
module LiteralTokens {
  import opened Wrappers

  datatype Token = Punct(c: char) | Text(text: string) | Word(word: string) | Number(number: nat)

  predicate IsSpace(c: char) { c == ' ' || c == '\n' || c == '\r' || c == '\t' }

  predicate IsPunct(c: char) { c == '{' || c == '}' || c == '[' || c == ']' || c == ':' || c == ',' }

  predicate IsDigit(c: char) { '0' <= c <= '9' }

  /** The characters of the Unicode properties ID_Start and ID_Continue beyond ASCII, whichever they are. */
  const UNICODE_START: set<char>

  const UNICODE_CONTINUE: set<char>

  predicate IsNameStart(c: char) {
    'a' <= c <= 'z' || 'A' <= c <= 'Z' || c == '_' || c == '$' || (c > '\U{7F}' && c in UNICODE_START)
  }

  predicate IsNamePart(c: char) {
    IsNameStart(c) || IsDigit(c) || (c > '\U{7F}' && c in UNICODE_CONTINUE)
  }

  predicate IsIdentifier(s: string) {
    s != "" && IsNameStart(s[0]) && forall i :: 0 <= i < |s| ==> IsNamePart(s[i])
  }

  /** Up to here a number prints as the decimal it was read from. */
  const MAX_SAFE_INTEGER: nat := 9007199254740991

  /** What is a property name as it stands, unquoted: an identifier name or a decimal integer. */
  predicate IsName(s: string) {
    (IsIdentifier(s) && s != "__proto__") || (IsNumeral(s) && DigitsValue(s) <= MAX_SAFE_INTEGER)
  }

  function NameToken(s: string): Token {
    if IsNumeral(s) then Number(DigitsValue(s)) else Word(s)
  }

  /** The name a token gives a property. */
  function PropertyName(t: Token): Option<string> {
    match t
    case Word(w) => if IsIdentifier(w) && w != "__proto__" then Some(w) else None
    case Number(n) => if n <= MAX_SAFE_INTEGER then Some(Decimal(n)) else None
    case _ => None
  }

  function DigitChar(d: nat): char
    requires d < 10
  {
    '0' + d as char
  }

  function Decimal(n: nat): string {
    if n < 10 then [DigitChar(n)] else Decimal(n / 10) + [DigitChar(n % 10)]
  }

  lemma {:induction false} DecimalReads(n: nat)
    ensures IsNumeral(Decimal(n)) && DigitsValue(Decimal(n)) == n && (n > 0 ==> Decimal(n)[0] != '0')
  {
    if n >= 10 {
      DecimalReads(n / 10);
      var init := Decimal(n / 10);
      assert Decimal(n)[..|Decimal(n)| - 1] == init && Decimal(n)[0] == init[0];
    } else {
      assert Decimal(n)[..0] == "";
    }
  }

  /** A numeral is the decimal of its value. */
  lemma {:induction false} NumeralIsDecimal(s: string)
    requires IsNumeral(s)
    ensures Decimal(DigitsValue(s)) == s && (s[0] != '0' ==> DigitsValue(s) > 0)
  {
    var init, last := s[..|s| - 1], s[|s| - 1];
    assert IsDigit(last) && s == init + [last];
    assert DigitChar(last as int - '0' as int) == last;
    if init == "" {
      assert DigitsValue(init) == 0;
    } else {
      NumeralIsDecimal(init);
      var v, d := DigitsValue(init), last as int - '0' as int;
      assert DigitsValue(s) == 10 * v + d && 0 <= d < 10 && v > 0;
      assert (10 * v + d) / 10 == v && (10 * v + d) % 10 == d;
    }
  }

  /** A property name is the name its token gives. */
  lemma NamesItself(s: string)
    requires IsName(s)
    ensures PropertyName(NameToken(s)) == Some(s)
  {
    if IsNumeral(s) { NumeralIsDecimal(s); }
  }

  lemma GivenIsName(t: Token)
    requires PropertyName(t).Some?
    ensures IsName(PropertyName(t).value)
  {
    if t.Number? { DecimalReads(t.number); }
  }

  predicate IsLineEnd(c: char) { c == '\n' || c == '\r' }

  /** A string literal after its opening quote: its value and what follows the closing quote. */
  function ReadString(s: string): (r: Option<(string, string)>)
    ensures r.Some? ==> |r.value.1| < |s|
  {
    if s == "" || IsLineEnd(s[0]) then None
    else if s[0] == '\'' then Some(("", s[1..]))
    else if s[0] == '\\' then
      if |s| < 2 || (s[1] != '\\' && s[1] != '\'') then None else Onto(s[1], ReadString(s[2..]))
    else Onto(s[0], ReadString(s[1..]))
  }

  function Onto(c: char, r: Option<(string, string)>): Option<(string, string)> {
    if r.None? then None else Some(([c] + r.value.0, r.value.1))
  }

  /** The length of the run of name characters `s` starts with. */
  function RunLength(s: string): (n: nat)
    ensures n <= |s|
  {
    if s == "" || !IsNamePart(s[0]) then 0 else 1 + RunLength(s[1..])
  }

  function DigitsValue(s: string): nat
    requires forall i :: 0 <= i < |s| ==> IsDigit(s[i])
  {
    if s == "" then 0
    else
      assert IsDigit(s[|s| - 1]);
      10 * DigitsValue(s[..|s| - 1]) + (s[|s| - 1] as int - '0' as int)
  }

  predicate IsNumeral(s: string) {
    s != "" && (forall i :: 0 <= i < |s| ==> IsDigit(s[i])) && (s[0] == '0' ==> |s| == 1)
  }

  function Glue(ts: seq<Token>, more: Option<seq<Token>>): Option<seq<Token>> {
    if more.None? then None else Some(ts + more.value)
  }

  function Lex(s: string): Option<seq<Token>>
    decreases |s|
  {
    if s == "" then Some([])
    else if IsSpace(s[0]) then Lex(s[1..])
    else if IsPunct(s[0]) then Glue([Punct(s[0])], Lex(s[1..]))
    else if s[0] == '\'' then
      var r := ReadString(s[1..]);
      if r.None? then None else Glue([Text(r.value.0)], Lex(r.value.1))
    else if IsNamePart(s[0]) then
      var n := RunLength(s);
      var run := s[..n];
      if IsNameStart(s[0]) then Glue([Word(run)], Lex(s[n..]))
      else if IsNumeral(run) then Glue([Number(DigitsValue(run))], Lex(s[n..]))
      else None
    else None
  }

  // ----- Pieces of text ----------------------------------------------------------------------------

  /** Whatever follows, the piece lexes to `ts`. */
  ghost predicate Closed(s: string, ts: seq<Token>) {
    forall rest: string :: ClosedBefore(s, ts, rest)
  }

  predicate ClosedBefore(s: string, ts: seq<Token>, rest: string) {
    Lex(s + rest) == Glue(ts, Lex(rest))
  }

  predicate EndsName(rest: string) {
    rest == "" || !IsNamePart(rest[0])
  }

  /** The same if what follows does not continue a name. */
  ghost predicate Open(s: string, ts: seq<Token>) {
    forall rest: string :: EndsName(rest) ==> ClosedBefore(s, ts, rest)
  }

  lemma ClosedThenClosed(a: string, ta: seq<Token>, b: string, tb: seq<Token>)
    requires Closed(a, ta) && Closed(b, tb)
    ensures Closed(a + b, ta + tb)
  {
    forall rest: string ensures ClosedBefore(a + b, ta + tb, rest) {
      assert ClosedBefore(a, ta, b + rest) && ClosedBefore(b, tb, rest);
      assert (a + b) + rest == a + (b + rest);
      if Lex(rest).Some? { assert (ta + tb) + Lex(rest).value == ta + (tb + Lex(rest).value); }
    }
  }

  lemma OpenThenClosed(a: string, ta: seq<Token>, b: string, tb: seq<Token>)
    requires Open(a, ta) && Closed(b, tb) && b != "" && EndsName(b)
    ensures Closed(a + b, ta + tb)
  {
    forall rest: string ensures ClosedBefore(a + b, ta + tb, rest) {
      assert EndsName(b + rest);
      assert ClosedBefore(a, ta, b + rest) && ClosedBefore(b, tb, rest);
      assert (a + b) + rest == a + (b + rest);
      if Lex(rest).Some? { assert (ta + tb) + Lex(rest).value == ta + (tb + Lex(rest).value); }
    }
  }

  lemma {:induction false} BlankCloses(s: string)
    requires forall i :: 0 <= i < |s| ==> IsSpace(s[i])
    ensures Closed(s, [])
  {
    if s == "" {
      forall rest: string ensures ClosedBefore(s, [], rest) {
        assert s + rest == rest;
        if Lex(rest).Some? { assert [] + Lex(rest).value == Lex(rest).value; }
      }
    } else {
      BlankCloses(s[1..]);
      forall rest: string ensures ClosedBefore(s, [], rest) {
        assert (s + rest)[1..] == s[1..] + rest;
        assert ClosedBefore(s[1..], [], rest);
      }
    }
  }

  lemma PunctCloses(c: char)
    requires IsPunct(c)
    ensures Closed([c], [Punct(c)])
  {
    forall rest: string ensures ClosedBefore([c], [Punct(c)], rest) { assert ([c] + rest)[1..] == rest; }
  }

  lemma {:induction false} RunEnds(s: string, rest: string)
    requires (forall i :: 0 <= i < |s| ==> IsNamePart(s[i])) && EndsName(rest)
    ensures RunLength(s + rest) == |s|
  {
    if s != "" {
      assert (s + rest)[1..] == s[1..] + rest;
      RunEnds(s[1..], rest);
    } else {
      assert s + rest == rest;
    }
  }

  lemma WordOpens(s: string)
    requires s != "" && IsNameStart(s[0]) && forall i :: 0 <= i < |s| ==> IsNamePart(s[i])
    ensures Open(s, [Word(s)])
  {
    forall rest: string | EndsName(rest) ensures ClosedBefore(s, [Word(s)], rest) {
      RunEnds(s, rest);
      assert (s + rest)[..|s|] == s && (s + rest)[|s|..] == rest;
    }
  }

  lemma NameOpens(s: string)
    requires IsName(s)
    ensures Open(s, [NameToken(s)])
  {
    if IsNumeral(s) { NumeralOpens(s); } else { WordOpens(s); }
  }

  lemma NumeralOpens(s: string)
    requires IsNumeral(s)
    ensures Open(s, [Number(DigitsValue(s))])
  {
    forall rest: string | EndsName(rest) ensures ClosedBefore(s, [Number(DigitsValue(s))], rest) {
      RunEnds(s, rest);
      assert (s + rest)[..|s|] == s && (s + rest)[|s|..] == rest;
    }
  }
}
