/** The edit distance behind the "did you mean" hint of `create`: a two-row dynamic program over
    two arrays that are swapped after every row, proved equal to the length of a shortest script of
    single-character edits. */
module Levenshtein {

  function Min(x: nat, y: nat): nat { if x <= y then x else y }

  function Cost(x: char, y: char): nat { if x == y then 0 else 1 }

  function Init(s: string): string
    requires s != []
  {
    s[..|s| - 1]
  }

  function Last(s: string): char
    requires s != []
  {
    s[|s| - 1]
  }

  /** The textbook recursion on the last characters. */
  function Distance(a: string, b: string): nat
    decreases |a| + |b|
  {
    if a == [] then |b|
    else if b == [] then |a|
    else Min(Min(Distance(a, Init(b)) + 1, Distance(Init(a), b) + 1),
             Distance(Init(a), Init(b)) + Cost(Last(a), Last(b)))
  }

  // ----- Edit scripts: the independent definition ---------------------------------------------

  datatype Edit = Insert(at: nat, c: char) | Delete(at: nat) | Replace(at: nat, c: char)

  predicate Applicable(e: Edit, s: string) {
    if e.Insert? then e.at <= |s| else e.at < |s|
  }

  function ApplyEdit(e: Edit, s: string): string
    requires Applicable(e, s)
  {
    match e
    case Insert(i, c) => s[..i] + [c] + s[i..]
    case Delete(i) => s[..i] + s[i + 1..]
    case Replace(i, c) => s[i := c]
  }

  /** `script` turns `a` into `b`, one edit after the other. */
  ghost predicate Turns(script: seq<Edit>, a: string, b: string) {
    if script == [] then a == b
    else Applicable(script[0], a) && Turns(script[1..], ApplyEdit(script[0], a), b)
  }

  lemma {:induction false} TurnsAppend(s: seq<Edit>, t: seq<Edit>, a: string, b: string, c: string)
    requires Turns(s, a, b) && Turns(t, b, c)
    ensures Turns(s + t, a, c)
  {
    if s == [] {
      assert s + t == t;
    } else {
      var a' := ApplyEdit(s[0], a);
      TurnsAppend(s[1..], t, a', b, c);
      assert (s + t)[0] == s[0] && (s + t)[1..] == s[1..] + t;
      assert Turns((s + t)[1..], a', c);
    }
  }

  /** Edits of a prefix leave a following character alone. */
  lemma {:induction false} TurnsUnderSuffix(s: seq<Edit>, a: string, b: string, x: char)
    requires Turns(s, a, b)
    ensures Turns(s, a + [x], b + [x])
  {
    if s != [] {
      assert ApplyEdit(s[0], a + [x]) == ApplyEdit(s[0], a) + [x];
      TurnsUnderSuffix(s[1..], ApplyEdit(s[0], a), b, x);
    }
  }

  lemma DistanceToEmpty(a: string)
    ensures Distance(a, []) == |a| && Distance([], a) == |a|
  {
  }

  lemma SingleEdit(e: Edit, a: string, b: string)
    requires Applicable(e, a) && ApplyEdit(e, a) == b
    ensures Turns([e], a, b)
  {
    assert [e][1..] == [];
  }

  lemma InitLast(a: string)
    requires a != []
    ensures Init(a) + [Last(a)] == a
  {
  }

  /** A first edit that deletes the last character. */
  lemma DeleteLastFirst(t: seq<Edit>, a: string, b: string)
    requires a != [] && Turns(t, Init(a), b)
    ensures Turns([Delete(|a| - 1)] + t, a, b)
  {
    SingleEdit(Delete(|a| - 1), a, Init(a));
    TurnsAppend([Delete(|a| - 1)], t, a, Init(a), b);
  }

  /** A last edit that turns `mid` into `b`. */
  lemma EditAtTheEnd(t: seq<Edit>, e: Edit, a: string, mid: string, b: string)
    requires Turns(t, a, mid) && Applicable(e, mid) && ApplyEdit(e, mid) == b
    ensures Turns(t + [e], a, b)
  {
    SingleEdit(e, mid, b);
    TurnsAppend(t, [e], a, mid, b);
  }

  lemma BothLasts(t: seq<Edit>, a: string, b: string) returns (s: seq<Edit>)
    requires a != [] && b != [] && Turns(t, Init(a), Init(b))
    ensures Turns(s, a, b) && |s| == |t| + Cost(Last(a), Last(b))
  {
    TurnsUnderSuffix(t, Init(a), Init(b), Last(a));
    InitLast(a);
    InitLast(b);
    if Last(a) == Last(b) {
      s := t;
    } else {
      var mid := Init(b) + [Last(a)];
      var e := Replace(|b| - 1, Last(b));
      assert ApplyEdit(e, mid) == b;
      s := t + [e];
      EditAtTheEnd(t, e, a, mid, b);
    }
  }

  /** A script of exactly `Distance(a, b)` edits exists. */
  lemma {:induction false} ScriptExists(a: string, b: string) returns (s: seq<Edit>)
    ensures Turns(s, a, b) && |s| == Distance(a, b)
    decreases |a| + |b|
  {
    if a == [] && b == [] {
      s := [];
    } else if b == [] || (a != [] && Distance(a, b) == Distance(Init(a), b) + 1) {
      var t := ScriptExists(Init(a), b);
      s := [Delete(|a| - 1)] + t;
      DeleteLastFirst(t, a, b);
      DistanceToEmpty(a);
    } else if a == [] || Distance(a, b) == Distance(a, Init(b)) + 1 {
      var t := ScriptExists(a, Init(b));
      var e := Insert(|b| - 1, Last(b));
      InitLast(b);
      assert ApplyEdit(e, Init(b)) == b;
      s := t + [e];
      EditAtTheEnd(t, e, a, Init(b), b);
    } else {
      var t := ScriptExists(Init(a), Init(b));
      s := BothLasts(t, a, b);
    }
  }

  lemma {:induction false} DropLast(a: string, b: string)
    requires a != []
    ensures Distance(Init(a), b) <= Distance(a, b) + 1
    decreases |b|
  {
    if b == [] {
      DistanceToEmpty(Init(a));
    } else {
      DropLast(a, Init(b));
      if Init(a) == [] { DistanceToEmpty(Init(b)); DistanceToEmpty(b); }
    }
  }

  lemma EditBeforeLast(e: Edit, a: string)
    requires a != [] && Applicable(e, Init(a))
    ensures Applicable(e, a)
    ensures ApplyEdit(e, a) == ApplyEdit(e, Init(a)) + [Last(a)]
  {
    InitLast(a);
    match e
    case Insert(i, _) => assert a[..i] == Init(a)[..i] && a[i..] == Init(a)[i..] + [Last(a)];
    case Delete(i) => assert a[..i] == Init(a)[..i] && a[i + 1..] == Init(a)[i + 1..] + [Last(a)];
    case Replace(_, _) =>
  }

  lemma {:induction false} ReplacedLast(a: string, x: char, b: string)
    requires a != []
    ensures Distance(a, b) <= Distance(Init(a) + [x], b) + 1
    decreases |b|
  {
    var a' := Init(a) + [x];
    assert Init(a') == Init(a) && Last(a') == x;
    if b != [] { ReplacedLast(a, x, Init(b)); }
  }

  /** Undoing one edit of the first string saves at most one. */
  lemma {:induction false} OneEditAtMostOne(e: Edit, a: string, b: string)
    requires Applicable(e, a)
    ensures Distance(a, b) <= Distance(ApplyEdit(e, a), b) + 1
    decreases |a| + |b|
  {
    var a' := ApplyEdit(e, a);
    if e.Insert? && e.at == |a| {
      assert Init(a') == a;
      DropLast(a', b);
    } else if e.Delete? && e.at == |a| - 1 {
      assert a' == Init(a);
      DistanceToEmpty(a);
      DistanceToEmpty(b);
    } else if e.Replace? && e.at == |a| - 1 {
      assert a' == Init(a) + [e.c];
      ReplacedLast(a, e.c, b);
    } else if b == [] {
      DistanceToEmpty(a);
      DistanceToEmpty(a');
    } else {
      EditInside(e, a, b);
    }
  }

  lemma {:induction false} EditInside(e: Edit, a: string, b: string)
    requires a != [] && b != [] && Applicable(e, Init(a))
    ensures Applicable(e, a) && Distance(a, b) <= Distance(ApplyEdit(e, a), b) + 1
    decreases |a| + |b|, 0
  {
    var p, q := Init(a), Init(b);
    var p' := ApplyEdit(e, p);
    var a' := p' + [Last(a)];
    EditBeforeLast(e, a);
    assert Init(a') == p' && Last(a') == Last(a);
    var viaInsert, viaDelete, viaBoth := Distance(a', q), Distance(p', b), Distance(p', q);
    assert Distance(a', b) == Min(Min(viaInsert + 1, viaDelete + 1), viaBoth + Cost(Last(a), Last(b)));
    assert Distance(a, q) <= viaInsert + 1 by { OneEditAtMostOne(e, a, q); }
    assert Distance(p, b) <= viaDelete + 1 by { OneEditAtMostOne(e, p, b); }
    assert Distance(p, q) <= viaBoth + 1 by { OneEditAtMostOne(e, p, q); }
  }

  /** No script is shorter. */
  lemma {:induction false} NoShorterScript(s: seq<Edit>, a: string, b: string)
    requires Turns(s, a, b)
    ensures Distance(a, b) <= |s|
  {
    if s == [] {
      DistanceToSelf(a);
    } else {
      NoShorterScript(s[1..], ApplyEdit(s[0], a), b);
      OneEditAtMostOne(s[0], a, b);
    }
  }

  lemma {:induction false} DistanceToSelf(a: string)
    ensures Distance(a, a) == 0
  {
    if a != [] { DistanceToSelf(Init(a)); }
  }

  /** `Distance` is the length of a shortest edit script: such a script exists, none is shorter. */
  lemma ShortestScript(a: string, b: string, n: nat)
    ensures n == Distance(a, b) <==>
            (exists s :: |s| == n && Turns(s, a, b)) && (forall s :: Turns(s, a, b) ==> n <= |s|)
  {
    var s := ScriptExists(a, b);
    forall t | Turns(t, a, b) ensures Distance(a, b) <= |t| { NoShorterScript(t, a, b); }
  }

  lemma Triangle(a: string, b: string, c: string)
    ensures Distance(a, c) <= Distance(a, b) + Distance(b, c)
  {
    var s := ScriptExists(a, b);
    var t := ScriptExists(b, c);
    TurnsAppend(s, t, a, b, c);
    NoShorterScript(s + t, a, c);
  }

  lemma {:induction false} Symmetric(a: string, b: string)
    ensures Distance(a, b) == Distance(b, a)
    decreases |a| + |b|
  {
    if a != [] && b != [] {
      Symmetric(a, Init(b));
      Symmetric(Init(a), b);
      Symmetric(Init(a), Init(b));
    }
  }

  lemma ZeroOnlyOnEqual(a: string, b: string)
    ensures Distance(a, b) == 0 <==> a == b
  {
    DistanceToSelf(a);
    if Distance(a, b) == 0 {
      var s := ScriptExists(a, b);
    }
  }

  // ----- The two-row program -------------------------------------------------------------------

  ghost predicate IsRowUpTo(row: seq<nat>, a: string, b: string, j: nat) {
    |row| == |b| + 1 && forall k :: 0 <= k < j && k <= |b| ==> row[k] == Distance(a, b[..k])
  }

  ghost predicate IsRow(row: seq<nat>, a: string, b: string) {
    IsRowUpTo(row, a, b, |b| + 1)
  }

  lemma Cell(a: string, b: string, j: nat, above: seq<nat>, row: seq<nat>)
    requires a != [] && 1 <= j <= |b|
    requires IsRow(above, Init(a), b) && IsRowUpTo(row, a, b, j)
    ensures Distance(a, b[..j]) ==
            Min(Min(row[j - 1] + 1, above[j] + 1), above[j - 1] + Cost(Last(a), b[j - 1]))
  {
    assert Init(b[..j]) == b[..j - 1];
  }

  /** The inner loop: the row of one more character of `a`, out of the row above. */
  method NextRow(a: string, b: string, prev: array<nat>, curr: array<nat>)
    requires a != [] && prev != curr && prev.Length == curr.Length == |b| + 1
    requires IsRow(prev[..], Init(a), b)
    modifies curr
    ensures IsRow(curr[..], a, b)
  {
    curr[0] := |a|;
    ghost var above := prev[..];
    for j := 1 to |b| + 1
      invariant prev[..] == above
      invariant IsRowUpTo(curr[..], a, b, j)
    {
      var cost := if a[|a| - 1] == b[j - 1] then 0 else 1;
      Cell(a, b, j, above, curr[..]);
      curr[j] := Min(Min(curr[j - 1] + 1, prev[j] + 1), prev[j - 1] + cost);
    }
  }

  method TwoRow(a: string, b: string) returns (d: nat)
    ensures d == Distance(a, b)
  {
    if a == b { DistanceToSelf(a); return 0; }
    if |a| == 0 { return |b|; }
    if |b| == 0 { return |a|; }
    var prev := new nat[|b| + 1](i => i);
    var curr := new nat[|b| + 1](_ => 0);
    assert IsRow(prev[..], a[..0], b);
    for i := 1 to |a| + 1
      invariant prev != curr && prev.Length == |b| + 1 == curr.Length
      invariant fresh(prev) && fresh(curr)
      invariant IsRow(prev[..], a[..i - 1], b)
    {
      assert Init(a[..i]) == a[..i - 1];
      NextRow(a[..i], b, prev, curr);
      prev, curr := curr, prev;
    }
    assert a[..|a|] == a && b[..|b|] == b;
    return prev[|b|];
  }
}
