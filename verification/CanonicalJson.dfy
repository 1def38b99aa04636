/** JSON values and their canonical form. `canonicalJson` prints the canonical form, and printing tells
    JSON values apart, so comparing texts is comparing canonical forms; here the form stands for the
    text, and for the fingerprint that hashes it. */
module CanonicalJson {
  import opened Wrappers
  import opened NamedLists

  datatype Json = Str(text: string) | Num(number: nat) | Flag(flag: bool) | Arr(items: seq<Json>) | Obj(fields: Named<Json>)

  /** Every object of the value has each name once. */
  predicate Proper(j: Json) {
    match j
    case Arr(items) => forall i :: 0 <= i < |items| ==> Proper(items[i])
    case Obj(fields) => Distinct(fields) && ProperFields(fields)
    case _ => true
  }

  predicate ProperFields(l: Named<Json>) {
    l.Cons? ==> Proper(l.value) && ProperFields(l.rest)
  }

  /** `canonicalize`: names sorted at every level, arrays in their own order. */
  function Canonical(j: Json): Json {
    match j
    case Arr(items) => Arr(seq(|items|, i requires 0 <= i < |items| => Canonical(items[i])))
    case Obj(fields) => Obj(Sort(CanonicalFields(fields)))
    case _ => j
  }

  function CanonicalFields(l: Named<Json>): Named<Json> {
    if l.Nil? then Nil else Cons(l.name, Canonical(l.value), CanonicalFields(l.rest))
  }

  /** The same value when the order of names in objects does not count. */
  predicate Same(a: Json, b: Json)
    decreases a
  {
    match a
    case Arr(items) => b.Arr? && |items| == |b.items| && forall i :: 0 <= i < |items| ==> Same(items[i], b.items[i])
    case Obj(fields) => b.Obj? && Names(fields) == Names(b.fields) && SameFields(fields, b.fields)
    case _ => a == b
  }

  /** Every entry of `l` is the same in `others`. */
  predicate SameFields(l: Named<Json>, others: Named<Json>)
    decreases l
  {
    l.Cons? ==> l.name in Names(others) && Same(l.value, Get(others, l.name)) && SameFields(l.rest, others)
  }

  lemma {:induction false} CanonicalFieldsKeeps(l: Named<Json>)
    ensures Names(CanonicalFields(l)) == Names(l)
    ensures Distinct(l) ==> Distinct(CanonicalFields(l))
    ensures forall n :: n in Names(l) ==> Get(CanonicalFields(l), n) == Canonical(Get(l, n))
  {
    if l.Cons? { CanonicalFieldsKeeps(l.rest); }
  }

  lemma {:induction false} ProperGet(l: Named<Json>, n: string)
    requires ProperFields(l) && n in Names(l)
    ensures Proper(Get(l, n))
  {
    if l.name != n { ProperGet(l.rest, n); }
  }

  /** Canonical forms are equal exactly when the values differ in the order of names only. */
  lemma {:induction false} CanonicalExact(a: Json, b: Json)
    requires Proper(a) && Proper(b)
    ensures Canonical(a) == Canonical(b) <==> Same(a, b)
    decreases a, 1
  {
    match a
    case Arr(items) =>
      assert |Canonical(a).items| == |items| && (b.Arr? ==> |Canonical(b).items| == |b.items|);
      if b.Arr? && |items| == |b.items| {
        var ca, cb := Canonical(a).items, Canonical(b).items;
        forall i | 0 <= i < |items| ensures ca[i] == cb[i] <==> Same(items[i], b.items[i]) {
          CanonicalExact(items[i], b.items[i]);
        }
        if Same(a, b) { assert ca == cb; }
      }
    case Obj(fields) =>
      if b.Obj? {
        CanonicalFieldsKeeps(fields);
        CanonicalFieldsKeeps(b.fields);
        SortExact(CanonicalFields(fields), CanonicalFields(b.fields));
        if Names(fields) == Names(b.fields) {
          FieldsExact(fields, b.fields);
        }
      }
    case _ =>
  }

  lemma {:induction false} FieldsExact(l: Named<Json>, others: Named<Json>)
    requires ProperFields(l) && ProperFields(others) && Names(l) <= Names(others) && Distinct(l)
    ensures SameFields(l, others) <==> forall n :: n in Names(l) ==> Canonical(Get(l, n)) == Canonical(Get(others, n))
    decreases l, 0
  {
    if l.Cons? {
      ProperGet(others, l.name);
      CanonicalExact(l.value, Get(others, l.name));
      FieldsExact(l.rest, others);
      assert forall n :: n in Names(l.rest) ==> Get(l, n) == Get(l.rest, n);
    }
  }

  /** Objects are the same exactly when they agree name by name. */
  lemma SameObjects(a: Named<Json>, b: Named<Json>)
    requires Proper(Obj(a)) && Proper(Obj(b))
    ensures Same(Obj(a), Obj(b)) <==>
            Names(a) == Names(b) && forall n :: n in Names(a) ==> Canonical(Get(a, n)) == Canonical(Get(b, n))
  {
    if Names(a) == Names(b) { FieldsExact(a, b); }
  }

  // ----- deepEqual ----------------------------------------------------------------------------------

  /** `deepEqual`, with `None` for `undefined`. */
  predicate DeepEqual(a: Option<Json>, b: Option<Json>) {
    if a == b then true
    else if a.None? || b.None? then false
    else Canonical(a.value) == Canonical(b.value)
  }

  function Strings(ss: seq<string>): Json {
    Arr(seq(|ss|, i requires 0 <= i < |ss| => Str(ss[i])))
  }

  lemma StringsApart(a: seq<string>, b: seq<string>)
    ensures Strings(a) == Strings(b) <==> a == b
    ensures Canonical(Strings(a)) == Strings(a)
  {
    if Strings(a) == Strings(b) {
      forall i | 0 <= i < |a| ensures a[i] == b[i] { assert Strings(a).items[i] == Strings(b).items[i]; }
    }
  }
}
