/** Plain objects as the source iterates them: names with values in insertion order, and the sorting of
    names that makes iteration order irrelevant. */
module NamedLists {
  import opened Wrappers

  // ----- The order of strings --------------------------------------------------------------------

  /** `a < b` for strings, by code unit. */
  predicate Less(a: string, b: string) {
    if b == "" then false
    else if a == "" then true
    else a[0] < b[0] || (a[0] == b[0] && Less(a[1..], b[1..]))
  }

  lemma {:induction false} LessTotal(a: string, b: string)
    ensures (if Less(a, b) then 1 else 0) + (if Less(b, a) then 1 else 0) + (if a == b then 1 else 0) == 1
  {
    if a != "" && b != "" {
      LessTotal(a[1..], b[1..]);
      assert a == [a[0]] + a[1..] && b == [b[0]] + b[1..];
    }
  }

  lemma {:induction false} LessTransitive(a: string, b: string, c: string)
    requires Less(a, b) && Less(b, c)
    ensures Less(a, c)
  {
    if a != "" && a[0] == b[0] == c[0] {
      LessTransitive(a[1..], b[1..], c[1..]);
    }
  }

  /** The strings agree before `i`, and there `a` ends or has the smaller code unit. */
  predicate SmallerAt(a: string, b: string, i: nat) {
    i <= |a| && i < |b| && a[..i] == b[..i] && (i == |a| || a[i] < b[i])
  }

  /** The order decides at the first difference, and a proper prefix comes first. */
  lemma {:induction false} LessExactly(a: string, b: string)
    ensures Less(a, b) <==> exists i: nat :: SmallerAt(a, b, i)
  {
    if a == "" || b == "" {
      if b != "" { assert SmallerAt(a, b, 0); }
    } else if a[0] != b[0] {
      if a[0] < b[0] { assert SmallerAt(a, b, 0); }
      if i: nat :| SmallerAt(a, b, i) { SmallerAtLater(a, b, i); }
    } else {
      LessExactly(a[1..], b[1..]);
      if Less(a, b) {
        var i: nat :| SmallerAt(a[1..], b[1..], i);
        SmallerLater(a, b, i);
      }
      if i: nat :| SmallerAt(a, b, i) {
        SmallerLater(a, b, i - 1);
      }
    }
  }

  lemma SmallerAtLater(a: string, b: string, i: nat)
    requires a != "" && b != "" && SmallerAt(a, b, i)
    ensures i > 0 ==> a[0] == b[0]
  {
    if i > 0 { assert a[..i][0] == b[..i][0]; }
  }

  lemma SmallerLater(a: string, b: string, i: nat)
    requires a != "" && b != "" && a[0] == b[0]
    ensures SmallerAt(a, b, i + 1) <==> SmallerAt(a[1..], b[1..], i)
  {
    if i < |a| && i < |b| {
      assert a[..i + 1] == [a[0]] + a[1..][..i] && b[..i + 1] == [b[0]] + b[1..][..i];
    }
  }

  // ----- Named values ----------------------------------------------------------------------------

  datatype Named<+T> = Nil | Cons(name: string, value: T, rest: Named<T>)

  function Names<T>(l: Named<T>): set<string> {
    if l.Nil? then {} else {l.name} + Names(l.rest)
  }

  /** The names in insertion order. */
  function Keys<T>(l: Named<T>): seq<string> {
    if l.Nil? then [] else [l.name] + Keys(l.rest)
  }

  function Get<T>(l: Named<T>, name: string): T
    requires name in Names(l)
  {
    if l.name == name then l.value else Get(l.rest, name)
  }

  function Find<T>(l: Named<T>, name: string): Option<T> {
    if name in Names(l) then Some(Get(l, name)) else None
  }

  /** An object has each name once. */
  predicate Distinct<T>(l: Named<T>) {
    l.Cons? ==> l.name !in Names(l.rest) && Distinct(l.rest)
  }

  predicate Sorted<T>(l: Named<T>) {
    l.Cons? ==> (l.rest.Cons? ==> Less(l.name, l.rest.name)) && Sorted(l.rest)
  }

  function Insert<T>(name: string, value: T, l: Named<T>): Named<T> {
    if l.Nil? || Less(name, l.name) then Cons(name, value, l) else Cons(l.name, l.value, Insert(name, value, l.rest))
  }

  function Sort<T>(l: Named<T>): Named<T> {
    if l.Nil? then Nil else Insert(l.name, l.value, Sort(l.rest))
  }

  lemma {:induction false} InsertFacts<T>(name: string, value: T, l: Named<T>)
    requires Sorted(l) && name !in Names(l)
    ensures Sorted(Insert(name, value, l)) && Names(Insert(name, value, l)) == Names(l) + {name}
    ensures forall n :: n in Names(l) + {name} ==> Get(Insert(name, value, l), n) == if n == name then value else Get(l, n)
  {
    if l.Cons? {
      LessTotal(name, l.name);
      InsertFacts(name, value, l.rest);
    }
  }

  lemma {:induction false} KeysAreNames<T>(l: Named<T>)
    ensures forall n :: n in Keys(l) <==> n in Names(l)
  {
    if l.Cons? { KeysAreNames(l.rest); }
  }

  /** Sorting keeps every name with its value. */
  lemma {:induction false} SortFacts<T>(l: Named<T>)
    requires Distinct(l)
    ensures Sorted(Sort(l)) && Names(Sort(l)) == Names(l)
    ensures forall n :: n in Names(l) ==> Get(Sort(l), n) == Get(l, n)
  {
    if l.Cons? {
      SortFacts(l.rest);
      InsertFacts(l.name, l.value, Sort(l.rest));
    }
  }

  lemma {:induction false} HeadIsLeast<T>(l: Named<T>, n: string)
    requires Sorted(l) && l.Cons? && n in Names(l.rest)
    ensures Less(l.name, n)
  {
    if n != l.rest.name {
      HeadIsLeast(l.rest, n);
      LessTransitive(l.name, l.rest.name, n);
    }
  }

  lemma {:induction false} SortedIsDistinct<T>(l: Named<T>)
    requires Sorted(l)
    ensures Distinct(l)
  {
    if l.Cons? {
      SortedIsDistinct(l.rest);
      if l.name in Names(l.rest) {
        HeadIsLeast(l, l.name);
        LessTotal(l.name, l.name);
      }
    }
  }

  lemma NamesEmpty<T>(l: Named<T>)
    ensures Names(l) == {} <==> l.Nil?
  {
    if l.Cons? { assert l.name in Names(l); }
  }

  ghost predicate SameEntries<T>(a: Named<T>, b: Named<T>) {
    Names(a) == Names(b) && forall n :: n in Names(a) ==> Get(a, n) == Get(b, n)
  }

  /** A sorted list is determined by its entries. */
  lemma {:induction false} SortedUnique<T>(a: Named<T>, b: Named<T>)
    requires Sorted(a) && Sorted(b) && SameEntries(a, b)
    ensures a == b
  {
    NamesEmpty(a);
    NamesEmpty(b);
    if a.Cons? {
      assert a.name in Names(b);
      if b.name != a.name {
        assert b.name in Names(a);
        HeadIsLeast(a, b.name);
        HeadIsLeast(b, a.name);
        LessTotal(a.name, b.name);
      }
      SortedIsDistinct(a);
      SortedIsDistinct(b);
      assert Names(a.rest) == Names(a) - {a.name} && Names(b.rest) == Names(b) - {b.name};
      forall n | n in Names(a.rest) ensures Get(a.rest, n) == Get(b.rest, n) {
        assert Get(a, n) == Get(b, n);
      }
      SortedUnique(a.rest, b.rest);
    }
  }

  /** Two objects sort to the same list exactly when they have the same entries. */
  lemma SortExact<T>(a: Named<T>, b: Named<T>)
    requires Distinct(a) && Distinct(b)
    ensures Sort(a) == Sort(b) <==> SameEntries(a, b)
  {
    SortFacts(a);
    SortFacts(b);
    if Sort(a) == Sort(b) {
      forall n | n in Names(a) ensures Get(a, n) == Get(b, n) { assert Get(Sort(a), n) == Get(Sort(b), n); }
    }
    if SameEntries(a, b) {
      SortedUnique(Sort(a), Sort(b));
    }
  }

  // ----- Sorting a list of names -------------------------------------------------------------------

  function InsertName(name: string, names: seq<string>): seq<string> {
    if names == [] || Less(name, names[0]) then [name] + names else [names[0]] + InsertName(name, names[1..])
  }

  /** `names.sort()`. */
  function SortNames(names: seq<string>): seq<string> {
    if names == [] then [] else InsertName(names[|names| - 1], SortNames(names[..|names| - 1]))
  }

  predicate SortedNames(names: seq<string>) {
    forall i, j :: 0 <= i < j < |names| ==> Less(names[i], names[j])
  }

  lemma {:induction false} InsertNameKeeps(name: string, names: seq<string>)
    ensures multiset(InsertName(name, names)) == multiset(names) + multiset{name}
  {
    if names != [] && !Less(name, names[0]) {
      InsertNameKeeps(name, names[1..]);
      assert names == [names[0]] + names[1..];
    }
  }

  lemma {:induction false} InsertNameSorts(name: string, names: seq<string>)
    requires SortedNames(names) && name !in names
    ensures SortedNames(InsertName(name, names))
  {
    if names != [] {
      LessTotal(name, names[0]);
      if Less(name, names[0]) {
        forall j | 0 < j < |names| ensures Less(name, names[j]) { LessTransitive(name, names[0], names[j]); }
      } else {
        var rest := InsertName(name, names[1..]);
        InsertNameSorts(name, names[1..]);
        InsertNameKeeps(name, names[1..]);
        forall j | 0 <= j < |rest| ensures Less(names[0], rest[j]) {
          assert rest[j] in multiset(rest);
          assert rest[j] == name || rest[j] in names[1..];
        }
      }
    }
  }

  /** `sort` on distinct names: ascending, and the same names. */
  lemma {:induction false} SortNamesFacts(names: seq<string>)
    requires forall i, j :: 0 <= i < j < |names| ==> names[i] != names[j]
    ensures SortedNames(SortNames(names)) && multiset(SortNames(names)) == multiset(names)
    ensures forall n :: n in SortNames(names) <==> n in names
  {
    if names != [] {
      var init, last := names[..|names| - 1], names[|names| - 1];
      assert names == init + [last];
      SortNamesFacts(init);
      InsertNameKeeps(last, SortNames(init));
      InsertNameSorts(last, SortNames(init));
    }
    assert forall n :: n in SortNames(names) <==> n in multiset(SortNames(names));
    assert forall n :: n in names <==> n in multiset(names);
  }

  lemma {:induction false} DistinctKeys<T>(l: Named<T>)
    requires Distinct(l)
    ensures forall i, j :: 0 <= i < j < |Keys(l)| ==> Keys(l)[i] != Keys(l)[j]
  {
    if l.Cons? {
      DistinctKeys(l.rest);
      KeysAreNames(l.rest);
    }
  }

  lemma {:induction false} SortedNamesUnique(a: seq<string>, b: seq<string>)
    requires SortedNames(a) && SortedNames(b) && forall n :: n in a <==> n in b
    ensures a == b
  {
    if a != [] { assert a[0] in b; }
    if b != [] { assert b[0] in a; }
    if a != [] {
      SameHead(a, b);
      forall n ensures n in a[1..] <==> n in b[1..] {
        TailOf(a, n);
        TailOf(b, n);
      }
      SortedNamesUnique(a[1..], b[1..]);
    }
  }

  lemma SameHead(a: seq<string>, b: seq<string>)
    requires a != [] && b != [] && SortedNames(a) && SortedNames(b) && a[0] in b && b[0] in a
    ensures a[0] == b[0]
  {
    LessTotal(a[0], b[0]);
  }

  lemma TailOf(a: seq<string>, n: string)
    requires a != [] && SortedNames(a)
    ensures n in a[1..] <==> n in a && n != a[0]
  {
    LessTotal(a[0], a[0]);
    if n in a && n != a[0] {
      var i :| 0 <= i < |a| && a[i] == n;
      assert a[1..][i - 1] == n;
    }
  }

  lemma AllNames<T>(l: Named<T>)
    requires Distinct(l)
    ensures forall n :: n in SortNames(Keys(l)) ==> n in Names(l)
  {
    DistinctKeys(l);
    KeysAreNames(l);
    SortNamesFacts(Keys(l));
  }

  lemma {:induction false} KeysOfSorted<T>(l: Named<T>)
    requires Sorted(l)
    ensures SortedNames(Keys(l))
  {
    if l.Cons? {
      KeysOfSorted(l.rest);
      KeysAreNames(l.rest);
      forall j | 0 <= j < |Keys(l.rest)| ensures Less(l.name, Keys(l.rest)[j]) {
        assert Keys(l.rest)[j] in Keys(l.rest);
        HeadIsLeast(l, Keys(l.rest)[j]);
      }
    }
  }

  /** The names of the sorted object are the sorted names. */
  lemma KeysOfSort<T>(l: Named<T>)
    requires Distinct(l)
    ensures Keys(Sort(l)) == SortNames(Keys(l))
  {
    SortFacts(l);
    DistinctKeys(l);
    SortNamesFacts(Keys(l));
    KeysAreNames(l);
    KeysOfSorted(Sort(l));
    KeysAreNames(Sort(l));
    SortedNamesUnique(Keys(Sort(l)), SortNames(Keys(l)));
  }
}
