/** `canonicalize` as it runs: a new object filled name by name in sorted order. */
module Canonicalizer {
  import opened Wrappers
  import opened NamedLists
  import opened CanonicalJson

  /** `object[name] = value` for a name the object has not: it goes to the end. */
  function Assign<T>(l: Named<T>, name: string, value: T): Named<T> {
    if l.Nil? then Cons(name, value, Nil) else Cons(l.name, l.value, Assign(l.rest, name, value))
  }

  /** The entries of `l` under some names, in the order of the names. */
  function Listed<T>(l: Named<T>, names: seq<string>): Named<T>
    requires forall n :: n in names ==> n in Names(l)
  {
    if names == [] then Nil else Cons(names[0], Get(l, names[0]), Listed(l, names[1..]))
  }

  lemma {:induction false} ListedOneMore<T>(l: Named<T>, names: seq<string>, n: string)
    requires n in Names(l) && forall k :: k in names ==> k in Names(l)
    ensures Listed(l, names + [n]) == Assign(Listed(l, names), n, Get(l, n))
  {
    if names == [] {
      assert [] + [n] == [n] && [n][1..] == [];
    } else {
      assert (names + [n])[1..] == names[1..] + [n] && (names + [n])[0] == names[0];
      ListedOneMore(l, names[1..], n);
    }
  }

  lemma {:induction false} ListedSame<T>(l: Named<T>, k: Named<T>, names: seq<string>)
    requires forall n :: n in names ==> n in Names(l) && n in Names(k) && Get(l, n) == Get(k, n)
    ensures Listed(l, names) == Listed(k, names)
  {
    if names != [] { ListedSame(l, k, names[1..]); }
  }

  lemma {:induction false} ListedAll<T>(l: Named<T>)
    requires Distinct(l)
    ensures (forall n :: n in Keys(l) ==> n in Names(l)) && Listed(l, Keys(l)) == l
  {
    KeysAreNames(l);
    if l.Cons? {
      KeysAreNames(l.rest);
      ListedAll(l.rest);
      assert Keys(l)[1..] == Keys(l.rest);
      ListedSame(l, l.rest, Keys(l.rest));
    }
  }

  lemma ListedSorted<T>(l: Named<T>)
    requires Distinct(l)
    ensures (forall n :: n in SortNames(Keys(l)) ==> n in Names(l)) && Listed(l, SortNames(Keys(l))) == Sort(l)
  {
    AllNames(l);
    SortFacts(l);
    SortedIsDistinct(Sort(l));
    KeysOfSort(l);
    ListedAll(Sort(l));
    ListedSame(l, Sort(l), SortNames(Keys(l)));
  }

  function Size(j: Json): nat {
    match j
    case Arr(items) => 1 + SizeOfItems(items)
    case Obj(fields) => 1 + SizeOfFields(fields)
    case _ => 1
  }

  function SizeOfItems(items: seq<Json>): nat {
    if items == [] then 0 else Size(items[0]) + SizeOfItems(items[1..])
  }

  function SizeOfFields(l: Named<Json>): nat {
    if l.Nil? then 0 else Size(l.value) + SizeOfFields(l.rest)
  }

  lemma {:induction false} ItemIsSmaller(items: seq<Json>, i: nat)
    requires i < |items|
    ensures Size(items[i]) <= SizeOfItems(items)
  {
    if i > 0 { ItemIsSmaller(items[1..], i - 1); }
  }

  lemma {:induction false} FieldIsSmaller(l: Named<Json>, n: string)
    requires n in Names(l)
    ensures Size(Get(l, n)) <= SizeOfFields(l)
  {
    if l.name != n { FieldIsSmaller(l.rest, n); }
  }

  method Canonicalize(value: Json) returns (r: Json)
    requires Proper(value)
    ensures r == Canonical(value)
    decreases Size(value), 1
  {
    match value
    case Arr(items) => r := CanonicalizeItems(items);
    case Obj(fields) => r := CanonicalizeFields(fields);
    case _ => r := value;
  }

  method CanonicalizeItems(items: seq<Json>) returns (r: Json)
    requires Proper(Arr(items))
    ensures r == Canonical(Arr(items))
    decreases 1 + SizeOfItems(items), 0
  {
    var out: seq<Json> := [];
    for i := 0 to |items|
      invariant |out| == i && forall k :: 0 <= k < i ==> out[k] == Canonical(items[k])
    {
      ItemIsSmaller(items, i);
      var item := Canonicalize(items[i]);
      out := out + [item];
    }
    r := Arr(out);
  }

  method CanonicalizeFields(fields: Named<Json>) returns (r: Json)
    requires Proper(Obj(fields))
    ensures r == Canonical(Obj(fields))
    decreases 1 + SizeOfFields(fields), 0
  {
    ghost var all := CanonicalFields(fields);
    CanonicalFieldsKeeps(fields);
    SameKeys(fields);
    ListedSorted(all);
    var names := SortNames(Keys(fields));
    var sorted: Named<Json> := Nil;
    for i := 0 to |names|
      invariant sorted == Listed(all, names[..i])
    {
      var k := names[i];
      assert k in names;
      FieldIsSmaller(fields, k);
      ProperGet(fields, k);
      var v := Canonicalize(Get(fields, k));
      assert names[..i + 1] == names[..i] + [k];
      ListedOneMore(all, names[..i], k);
      sorted := Assign(sorted, k, v);
    }
    assert names[..|names|] == names;
    r := Obj(sorted);
  }

  lemma {:induction false} SameKeys(l: Named<Json>)
    ensures Keys(CanonicalFields(l)) == Keys(l)
  {
    if l.Cons? { SameKeys(l.rest); }
  }
}
