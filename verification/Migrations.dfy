/** A migration as the flows use it, the domain key that ties its two versions together, and what
    each operation is to leave at every key of the table. */
module Migrations {
  import opened Wrappers
  import opened TableWrites
  import opened PhysicalTable

  /** What user code (`up`, `down`, a resolver) does with a record: throws, returns null or
      undefined, or returns a record. */
  datatype Outcome = Threw | Nothing | Produced(rec: Record)

  datatype TypeTableEntry =
    | TypeA(v1Original: Record, v2: Record, domainKey: string)
    | TypeB(v2: Record, domainKey: string)
    | TypeC(v1Original: Record, domainKey: string)

  datatype EntryKind = A | B | C

  /** What a resolver is called with: the domain key is not part of it. The bound `down` it also gets
      is a function of the migration. */
  datatype ResolverArgs = ResolverArgs(kind: EntryKind, v1Original: Option<Record>, v2: Option<Record>)

  /** The frozen entities are given by entity name, version and the composite attribute list of the
      primary key; `readsFrom` are the entities `up` reads, `accepts` is the schema check that
      `put(record).params()` performs. */
  datatype Migration = Migration(
    id: string,
    entity: string,
    fromVersion: nat,
    toVersion: nat,
    readsFrom: set<string>,
    composite: seq<string>,
    acceptsV1: Record -> bool,
    acceptsV2: Record -> bool,
    up: Record -> Outcome,
    down: Option<Record -> Outcome>,
    resolver: Option<ResolverArgs -> Outcome>)

  // ----- extractDomainKey ------------------------------------------------------------------------

  /** `String(record[f])`: a missing attribute prints as `undefined`. */
  function AttributeText(r: Record, f: string): string {
    if f in r then r[f] else "undefined"
  }

  /** `composite.map(f => f + '=' + value).join('&')`. */
  function ExtractDomainKey(composite: seq<string>, r: Record): string
    decreases |composite|, 0
  {
    if composite == [] then ""
    else (composite[0] + "=") + (AttributeText(r, composite[0]) + KeyTail(composite[1..], r))
  }

  function KeyTail(rest: seq<string>, r: Record): string
    decreases |rest|, 1
  {
    if rest == [] then "" else "&" + ExtractDomainKey(rest, r)
  }

  ghost predicate AgreeOn(composite: seq<string>, r: Record, s: Record) {
    forall f :: f in composite ==> AttributeText(r, f) == AttributeText(s, f)
  }

  ghost predicate Separable(composite: seq<string>, r: Record) {
    forall f :: f in composite ==> '&' !in AttributeText(r, f)
  }

  lemma SamePrefix(p: string, x: string, y: string)
    ensures p + x == p + y <==> x == y
  {
    assert (p + x)[|p|..] == x && (p + y)[|p|..] == y;
  }

  /** `x` up to its first '&' is fixed by `x + "&" + y`. */
  lemma SplitAtAmpersand(x: string, y: string, x': string, y': string)
    requires '&' !in x && '&' !in x'
    requires x + ("&" + y) == x' + ("&" + y')
    ensures x == x' && y == y'
  {
    var s := x + ("&" + y);
    assert s[|x|] == '&' && s[|x'|] == '&';
    assert forall n :: 0 <= n < |x| ==> s[n] == x[n] && s[n] != '&';
    assert forall n :: 0 <= n < |x'| ==> s[n] == x'[n] && s[n] != '&';
    assert x == s[..|x|] && x' == s[..|x'|];
    assert y == s[|x| + 1..] && y' == s[|x'| + 1..];
  }

  /** Without '&' in the values the key tells the composite values apart, whatever the names. */
  lemma {:induction false} DomainKeyInjective(composite: seq<string>, r: Record, s: Record)
    requires Separable(composite, r) && Separable(composite, s)
    ensures ExtractDomainKey(composite, r) == ExtractDomainKey(composite, s) <==> AgreeOn(composite, r, s)
  {
    if composite != [] {
      var f, rest := composite[0], composite[1..];
      var v, w := AttributeText(r, f), AttributeText(s, f);
      assert f in composite;
      assert forall g :: g in composite <==> g == f || g in rest;
      SamePrefix(f + "=", v + KeyTail(rest, r), w + KeyTail(rest, s));
      if rest == [] {
        assert v + "" == v && w + "" == w;
      } else {
        DomainKeyInjective(rest, r, s);
        if v + KeyTail(rest, r) == w + KeyTail(rest, s) {
          SplitAtAmpersand(v, ExtractDomainKey(rest, r), w, ExtractDomainKey(rest, s));
        }
      }
    }
  }

  /** Two records that differ in the first two composite attributes and share one key. */
  function Clash(composite: seq<string>, swapped: bool): Record
    requires |composite| >= 2
  {
    var inner := "&" + (composite[1] + "=");
    if swapped then map[composite[0] := "", composite[1] := inner]
    else map[composite[0] := inner, composite[1] := ""]
  }

  lemma {:induction false} SameTail(composite: seq<string>, r: Record, s: Record)
    requires AgreeOn(composite, r, s)
    ensures ExtractDomainKey(composite, r) == ExtractDomainKey(composite, s)
  {
    if composite != [] {
      assert composite[0] in composite && forall g :: g in composite[1..] ==> g in composite;
      SameTail(composite[1..], r, s);
    }
  }

  lemma Regroup(q: string, p: string, tail: string)
    requires q == "&" + p
    ensures q + ("&" + (p + ("" + tail))) == "" + ("&" + (p + (q + tail)))
  {
    assert "" + tail == tail;
    assert "&" + (p + tail) == q + tail;
    assert "&" + (p + (q + tail)) == q + (q + tail);
  }

  lemma ClashCollides(composite: seq<string>)
    requires |composite| >= 2 && NoDuplicates(composite)
    ensures !AgreeOn(composite, Clash(composite, false), Clash(composite, true))
    ensures ExtractDomainKey(composite, Clash(composite, false)) == ExtractDomainKey(composite, Clash(composite, true))
  {
    var f, g, rest := composite[0], composite[1], composite[2..];
    var r, s := Clash(composite, false), Clash(composite, true);
    assert composite[1..][1..] == rest && composite[1..][0] == g;
    assert f in composite && |AttributeText(r, f)| != |AttributeText(s, f)|;
    assert forall n :: 0 <= n < |rest| ==> rest[n] == composite[n + 2];
    assert AgreeOn(rest, r, s);
    SameTail(rest, r, s);
    var q := "&" + (g + "=");
    Regroup(q, g + "=", KeyTail(rest, r));
    assert AttributeText(r, f) == q && AttributeText(s, f) == "" && AttributeText(r, g) == "" && AttributeText(s, g) == q;
    TwoAttributes(composite, r);
    TwoAttributes(composite, s);
  }

  lemma TwoAttributes(composite: seq<string>, r: Record)
    requires |composite| >= 2
    ensures var f, g := composite[0], composite[1];
            ExtractDomainKey(composite, r) ==
            (f + "=") + (AttributeText(r, f) + ("&" + ((g + "=") + (AttributeText(r, g) + KeyTail(composite[2..], r)))))
  {
    var rest := composite[1..];
    assert rest[0] == composite[1] && rest[1..] == composite[2..];
    assert ExtractDomainKey(rest, r) == (rest[0] + "=") + (AttributeText(r, rest[0]) + KeyTail(rest[1..], r));
    assert KeyTail(rest, r) == "&" + ExtractDomainKey(rest, r);
  }

  ghost predicate NoDuplicates(names: seq<string>) {
    forall i, j :: 0 <= i < j < |names| ==> names[i] != names[j]
  }

  /** With unrestricted values the key is injective exactly for a single composite attribute (or
      none): from two attributes on, values that contain '&' collide. */
  lemma DomainKeyInjectiveIff(composite: seq<string>)
    requires NoDuplicates(composite)
    ensures |composite| <= 1 <==>
            forall r: Record, s: Record ::
              ExtractDomainKey(composite, r) == ExtractDomainKey(composite, s) ==> AgreeOn(composite, r, s)
  {
    if |composite| >= 2 {
      ClashCollides(composite);
    } else {
      forall r: Record, s: Record | ExtractDomainKey(composite, r) == ExtractDomainKey(composite, s)
        ensures AgreeOn(composite, r, s)
      {
        OneAttribute(composite, r, s);
      }
    }
  }

  lemma OneAttribute(composite: seq<string>, r: Record, s: Record)
    requires |composite| <= 1 && ExtractDomainKey(composite, r) == ExtractDomainKey(composite, s)
    ensures AgreeOn(composite, r, s)
  {
    if |composite| == 1 {
      var f := composite[0];
      assert composite[1..] == [] && composite == [f];
      SamePrefix(f + "=", AttributeText(r, f) + "", AttributeText(s, f) + "");
      assert AttributeText(r, f) + "" == AttributeText(r, f) && AttributeText(s, f) + "" == AttributeText(s, f);
    }
  }

  // ----- Keys of a migration ------------------------------------------------------------------

  function V1Key(m: Migration, dk: string): PK { PK(m.entity, m.fromVersion, dk) }

  function V2Key(m: Migration, dk: string): PK { PK(m.entity, m.toVersion, dk) }

  /** The key a record marshals to: the composite values decide it. */
  function KeyAt(m: Migration, version: nat, r: Record): PK {
    PK(m.entity, version, ExtractDomainKey(m.composite, r))
  }

  /** User code keeps the domain key, and the two versions differ. */
  ghost predicate WellFormed(m: Migration) {
    && m.fromVersion != m.toVersion
    && forall r: Record :: KeepsKey(m, r)
  }

  ghost predicate KeepsKey(m: Migration, r: Record) {
    && (m.up(r).Produced? ==> ExtractDomainKey(m.composite, m.up(r).rec) == ExtractDomainKey(m.composite, r))
    && (DownOf(m, r).Produced? ==> ExtractDomainKey(m.composite, DownOf(m, r).rec) == ExtractDomainKey(m.composite, r))
  }

  /** Records of the migration's versions sit under their own key. */
  ghost predicate Placed(m: Migration, t: Items) {
    forall k :: k in t && k.entity == m.entity && (k.version == m.fromVersion || k.version == m.toVersion) ==>
      k == KeyAt(m, k.version, t[k])
  }

  function DownOf(m: Migration, r: Record): Outcome {
    if m.down.Some? then m.down.value(r) else Outcome.Threw
  }

  /** Only the halves that are present are passed on. */
  function ArgsOf(e: TypeTableEntry): ResolverArgs {
    match e
    case TypeA(v1, v2, _) => ResolverArgs(A, Some(v1), Some(v2))
    case TypeB(v2, _) => ResolverArgs(B, None, Some(v2))
    case TypeC(v1, _) => ResolverArgs(C, Some(v1), None)
  }

  function Resolve(m: Migration, e: TypeTableEntry): Outcome {
    if m.resolver.Some? then m.resolver.value(ArgsOf(e)) else Outcome.Threw
  }

  /** The halves of a row carry the row's domain key. */
  predicate InPlace(m: Migration, e: TypeTableEntry) {
    && (!e.TypeB? ==> ExtractDomainKey(m.composite, e.v1Original) == e.domainKey)
    && (!e.TypeC? ==> ExtractDomainKey(m.composite, e.v2) == e.domainKey)
  }

  /** The resolver answers with a record of the domain key its arguments have. */
  ghost predicate ResolverKeepsKey(m: Migration) {
    forall e: TypeTableEntry :: InPlace(m, e) ==> ResolvesInPlace(m, e)
  }

  ghost predicate ResolvesInPlace(m: Migration, e: TypeTableEntry) {
    Resolve(m, e).Produced? ==> ExtractDomainKey(m.composite, Resolve(m, e).rec) == e.domainKey
  }

  /** What a resolver that makes nothing up can answer: nothing, one of the halves, or `down` of v2. */
  ghost predicate PicksFromRow(m: Migration, e: TypeTableEntry) {
    var answer := Resolve(m, e);
    answer.Produced? ==>
      || (!e.TypeB? && answer.rec == e.v1Original)
      || (!e.TypeC? && (answer.rec == e.v2 || answer == DownOf(m, e.v2)))
  }

  /** Every such resolver keeps the key. */
  lemma PickingKeepsKey(m: Migration)
    requires WellFormed(m) && forall e: TypeTableEntry :: PicksFromRow(m, e)
    ensures ResolverKeepsKey(m)
  {
    forall e: TypeTableEntry | InPlace(m, e) ensures ResolvesInPlace(m, e) {
      assert PicksFromRow(m, e);
      if !e.TypeC? { assert KeepsKey(m, e.v2); }
    }
  }

  lemma RowsInPlace(m: Migration, t: Items, dk: string)
    requires Placed(m, t) && EntryAt(m, t, dk).Some?
    ensures InPlace(m, EntryAt(m, t, dk).value)
  {
  }

  /** The row for what two versions hold under a domain key: A when both do, B when only v2 does, C when
      only v1 does. */
  function RowFor(v1: Option<Record>, v2: Option<Record>, dk: string): Option<TypeTableEntry> {
    if v1.Some? && v2.Some? then Some(TypeA(v1.value, v2.value, dk))
    else if v2.Some? then Some(TypeB(v2.value, dk))
    else if v1.Some? then Some(TypeC(v1.value, dk))
    else None
  }

  /** The row of the type table for a domain key. */
  function EntryAt(m: Migration, t: Items, dk: string): Option<TypeTableEntry> {
    RowFor(Lookup(t, V1Key(m, dk)), Lookup(t, V2Key(m, dk)), dk)
  }

  // ----- What an operation is to leave ----------------------------------------------------------

  datatype Operation = Apply | Finalize | CaseOne | Projected | FillOnly | Snapshot | Custom

  /** The record at `k` after a complete run of `op` from `t`. */
  function Target(op: Operation, m: Migration, t: Items, k: PK): Option<Record> {
    var v1, v2 := Lookup(t, V1Key(m, k.dk)), Lookup(t, V2Key(m, k.dk));
    if k == V1Key(m, k.dk) then
      match op
      case Finalize => None
      case Projected =>
        if v2.None? then None
        else if DownOf(m, v2.value).Produced? then Some(DownOf(m, v2.value).rec)
        else v1
      case FillOnly =>
        if v1.None? && v2.Some? && DownOf(m, v2.value).Produced? then Some(DownOf(m, v2.value).rec)
        else v1
      case Custom =>
        var e := EntryAt(m, t, k.dk);
        if e.None? then None
        else if Resolve(m, e.value).Produced? then Some(Resolve(m, e.value).rec)
        else None
      case _ => v1
    else if k == V2Key(m, k.dk) then
      match op
      case Apply => if v1.Some? && m.up(v1.value).Produced? then Some(m.up(v1.value).rec) else v2
      case CaseOne => None
      case Snapshot => if v1.Some? then v2 else None
      case _ => v2
    else Lookup(t, k)
  }

  ghost predicate Reaches(op: Operation, m: Migration, t0: Items, t: Items) {
    forall k: PK :: ReachesAt(op, m, t0, t, k)
  }

  ghost predicate ReachesAt(op: Operation, m: Migration, t0: Items, t: Items, k: PK) {
    Lookup(t, k) == Target(op, m, t0, k)
  }

  /** An interrupted run: every key is untouched or as planned. */
  ghost predicate PartWay(op: Operation, m: Migration, t0: Items, t: Items) {
    forall k: PK :: PartWayAt(op, m, t0, t, k)
  }

  ghost predicate PartWayAt(op: Operation, m: Migration, t0: Items, t: Items, k: PK) {
    Lookup(t, k) == Lookup(t0, k) || Lookup(t, k) == Target(op, m, t0, k)
  }

  /** User code stops the operation at `dk`: `up` throws on the v1 record, `down` on the v2 record, for
      fill-only where v1 has none, or the resolver, asked with what the versions hold, throws or answers
      outside the v1 schema. */
  predicate StopsAt(op: Operation, m: Migration, t: Items, dk: string) {
    var v1, v2 := Lookup(t, V1Key(m, dk)), Lookup(t, V2Key(m, dk));
    match op
    case Apply => v1.Some? && m.up(v1.value).Threw?
    case Projected => v2.Some? && (m.down.None? || m.down.value(v2.value).Threw?)
    case FillOnly => v2.Some? && v1.None? && (m.down.None? || m.down.value(v2.value).Threw?)
    case Custom =>
      && m.resolver.Some? && (v1.Some? || v2.Some?)
      && var answer := m.resolver.value(ResolverArgs(if v1.None? then B else if v2.None? then C else A, v1, v2));
         answer.Threw? || (answer.Produced? && !m.acceptsV1(answer.rec))
    case _ => false
  }

  ghost predicate UserStops(op: Operation, m: Migration, t: Items) {
    (op == Custom && m.resolver.None?) || exists dk: string :: StopsAt(op, m, t, dk)
  }

  /** The schema check of marshalling stops the operation at `dk`: what `up` or `down` makes of its record is
      outside the schema it is put with, or, where v2 records are deleted, the record itself. */
  predicate RejectsAt(op: Operation, m: Migration, t: Items, dk: string) {
    var v1, v2 := Lookup(t, V1Key(m, dk)), Lookup(t, V2Key(m, dk));
    match op
    case Apply => v1.Some? && m.up(v1.value).Produced? && !m.acceptsV2(m.up(v1.value).rec)
    case CaseOne => v2.Some? && !m.acceptsV2(v2.value)
    case Projected => v2.Some? && MadeOutside(m, v2.value)
    case FillOnly => v2.Some? && v1.None? && MadeOutside(m, v2.value)
    case Snapshot => v2.Some? && v1.None? && !m.acceptsV2(v2.value)
    case _ => false
  }

  predicate MadeOutside(m: Migration, v2: Record) {
    m.down.Some? && m.down.value(v2).Produced? && !m.acceptsV1(m.down.value(v2).rec)
  }

  ghost predicate SchemaStops(op: Operation, m: Migration, t: Items) {
    exists dk: string :: RejectsAt(op, m, t, dk)
  }

  /** The composite attribute list belongs to the entity. */
  predicate SharesKeys(m: Migration, other: Migration) {
    m.entity == other.entity ==> m.composite == other.composite
  }

  /** No operation, complete or not, puts a record under a key that is not its own, in no version of
      any migration. */
  lemma PlacedStays(op: Operation, m: Migration, other: Migration, t: Items, t': Items)
    requires WellFormed(m) && SharesKeys(m, other) && Placed(m, t) && Placed(other, t)
    requires PartWay(op, m, t, t') && (op == Custom ==> ResolverKeepsKey(m))
    ensures Placed(other, t')
  {
    forall k | k in t' && k.entity == other.entity && (k.version == other.fromVersion || k.version == other.toVersion)
      ensures k == KeyAt(other, k.version, t'[k])
    {
      assert PartWayAt(op, m, t, t', k);
      if Lookup(t', k) != Lookup(t, k) {
        TargetInPlace(op, m, t, k);
      }
    }
  }

  lemma TargetInPlace(op: Operation, m: Migration, t: Items, k: PK)
    requires WellFormed(m) && Placed(m, t) && (op == Custom ==> ResolverKeepsKey(m))
    requires Target(op, m, t, k).Some? && Target(op, m, t, k) != Lookup(t, k)
    ensures k.entity == m.entity && ExtractDomainKey(m.composite, Target(op, m, t, k).value) == k.dk
  {
    var v1, v2 := Lookup(t, V1Key(m, k.dk)), Lookup(t, V2Key(m, k.dk));
    if v1.Some? { assert KeepsKey(m, v1.value); }
    if v2.Some? { assert KeepsKey(m, v2.value); }
    var e := EntryAt(m, t, k.dk);
    if op == Custom && e.Some? {
      RowsInPlace(m, t, k.dk);
      assert ResolvesInPlace(m, e.value);
    }
  }

  lemma ReachedIsPartWay(op: Operation, m: Migration, t: Items, t': Items)
    requires Reaches(op, m, t, t')
    ensures PartWay(op, m, t, t')
  {
    forall k: PK ensures PartWayAt(op, m, t, t', k) { assert ReachesAt(op, m, t, t', k); }
  }

  /** The outcome of a complete run is unique. */
  lemma ReachesOne(op: Operation, m: Migration, t0: Items, a: Items, b: Items)
    requires Reaches(op, m, t0, a) && Reaches(op, m, t0, b)
    ensures a == b
  {
    forall k: PK ensures Lookup(a, k) == Lookup(b, k) {
      assert ReachesAt(op, m, t0, a, k) && ReachesAt(op, m, t0, b, k);
    }
    SameLookups(a, b);
  }

  /** Re-running an interrupted operation ends where one uninterrupted run ends. */
  lemma Converges(op: Operation, m: Migration, t0: Items, t: Items, t1: Items)
    requires m.fromVersion != m.toVersion && op != Custom
    requires PartWay(op, m, t0, t) && Reaches(op, m, t, t1)
    ensures Reaches(op, m, t0, t1)
  {
    forall k: PK ensures ReachesAt(op, m, t0, t1, k) {
      var a, b := V1Key(m, k.dk), V2Key(m, k.dk);
      assert ReachesAt(op, m, t, t1, k);
      assert PartWayAt(op, m, t0, t, a);
      assert PartWayAt(op, m, t0, t, b);
      assert PartWayAt(op, m, t0, t, k);
    }
  }

  /** Also when the re-run is itself interrupted, any number of times. */
  lemma InterruptedAgain(op: Operation, m: Migration, t0: Items, t: Items, t': Items)
    requires m.fromVersion != m.toVersion && op != Custom
    requires PartWay(op, m, t0, t) && PartWay(op, m, t, t')
    ensures PartWay(op, m, t0, t')
  {
    forall k: PK ensures PartWayAt(op, m, t0, t', k) {
      var a, b := V1Key(m, k.dk), V2Key(m, k.dk);
      assert PartWayAt(op, m, t, t', k);
      assert PartWayAt(op, m, t0, t, a);
      assert PartWayAt(op, m, t0, t, b);
      assert PartWayAt(op, m, t0, t, k);
    }
  }

  /** Every operation has a complete run from every table. */
  function Complete(op: Operation, m: Migration, t: Items): Items {
    var keys := t.Keys + (set k | k in t.Keys :: V1Key(m, k.dk)) + (set k | k in t.Keys :: V2Key(m, k.dk));
    map k | k in keys && Target(op, m, t, k).Some? :: Target(op, m, t, k).value
  }

  lemma CompleteReaches(op: Operation, m: Migration, t: Items)
    ensures Reaches(op, m, t, Complete(op, m, t))
  {
    forall k: PK ensures ReachesAt(op, m, t, Complete(op, m, t), k) {
      var a, b := V1Key(m, k.dk), V2Key(m, k.dk);
      if a in t { assert a.dk == k.dk && b == V2Key(m, a.dk); }
      if b in t { assert b.dk == k.dk && a == V1Key(m, b.dk); }
    }
  }

  // ----- Round trips --------------------------------------------------------------------------------

  ghost predicate NoVersion(t: Items, entity: string, version: nat) {
    forall dk: string :: PK(entity, version, dk) !in t
  }

  /** `down` undoes `up` on every v1 record of the table that `up` maps to something. */
  ghost predicate DownUndoesUp(m: Migration, t: Items) {
    forall k :: k in t && k == V1Key(m, k.dk) && m.up(t[k]).Produced? ==>
      DownOf(m, m.up(t[k]).rec) == Produced(t[k])
  }

  /** Apply then finalize leaves no v1 record, and v2 is exactly the image of `up`. */
  lemma ApplyThenFinalize(m: Migration, t: Items, applied: Items, done: Items)
    requires m.fromVersion != m.toVersion && NoVersion(t, m.entity, m.toVersion)
    requires Reaches(Apply, m, t, applied) && Reaches(Finalize, m, applied, done)
    ensures NoVersion(done, m.entity, m.fromVersion)
    ensures forall dk: string :: Lookup(done, V2Key(m, dk)) ==
              if V1Key(m, dk) in t && m.up(t[V1Key(m, dk)]).Produced? then Some(m.up(t[V1Key(m, dk)]).rec) else None
    ensures forall k: PK :: k != V1Key(m, k.dk) && k != V2Key(m, k.dk) ==> Lookup(done, k) == Lookup(t, k)
  {
    forall dk: string
      ensures V1Key(m, dk) !in done
      ensures Lookup(done, V2Key(m, dk)) ==
              if V1Key(m, dk) in t && m.up(t[V1Key(m, dk)]).Produced? then Some(m.up(t[V1Key(m, dk)]).rec) else None
    {
      var a, b := V1Key(m, dk), V2Key(m, dk);
      assert ReachesAt(Finalize, m, applied, done, a);
      assert ReachesAt(Finalize, m, applied, done, b);
      assert ReachesAt(Apply, m, t, applied, b);
      assert b !in t;
    }
    forall k: PK | k != V1Key(m, k.dk) && k != V2Key(m, k.dk) ensures Lookup(done, k) == Lookup(t, k) {
      assert ReachesAt(Finalize, m, applied, done, k);
      assert ReachesAt(Apply, m, t, applied, k);
    }
  }

  /** A projected rollback after finalize rebuilds exactly the v1 records whose `up` was not null. */
  lemma LifecycleRoundTrip(m: Migration, t: Items, applied: Items, done: Items, back: Items)
    requires m.fromVersion != m.toVersion && NoVersion(t, m.entity, m.toVersion)
    requires DownUndoesUp(m, t)
    requires Reaches(Apply, m, t, applied) && Reaches(Finalize, m, applied, done)
    requires Reaches(Projected, m, done, back)
    ensures forall dk: string :: Lookup(back, V1Key(m, dk)) ==
              if V1Key(m, dk) in t && m.up(t[V1Key(m, dk)]).Produced? then Lookup(t, V1Key(m, dk)) else None
  {
    ApplyThenFinalize(m, t, applied, done);
    forall dk: string
      ensures Lookup(back, V1Key(m, dk)) ==
              if V1Key(m, dk) in t && m.up(t[V1Key(m, dk)]).Produced? then Lookup(t, V1Key(m, dk)) else None
    {
      var a, b := V1Key(m, dk), V2Key(m, dk);
      assert ReachesAt(Projected, m, done, back, a);
      assert a !in done;
      assert Lookup(done, b) == if a in t && m.up(t[a]).Produced? then Some(m.up(t[a]).rec) else None;
    }
  }

  /** Apply from a table without v2 records, complete or interrupted anywhere, undone by case 1: the
      table is back. */
  lemma CaseOneUndoesApply(m: Migration, t: Items, applied: Items, back: Items)
    requires m.fromVersion != m.toVersion && NoVersion(t, m.entity, m.toVersion)
    requires PartWay(Apply, m, t, applied) && Reaches(CaseOne, m, applied, back)
    ensures back == t
  {
    forall k: PK ensures Lookup(back, k) == Lookup(t, k) {
      assert ReachesAt(CaseOne, m, applied, back, k);
      assert PartWayAt(Apply, m, t, applied, k);
      if k == V2Key(m, k.dk) { assert V2Key(m, k.dk) !in t; }
    }
    SameLookups(back, t);
  }
}
