/** What the operations leave, said over the table and the user's code alone: which keys an operation may
    touch, and what it makes of them. */
module Outcomes {
  import opened Wrappers
  import opened TableWrites
  import opened Migrations

  /** Nothing but the keys of this version of the migration's entity may have changed. */
  ghost predicate OnlyVersion(m: Migration, version: nat, t: Items, t': Items) {
    forall k: PK :: k.entity != m.entity || k.version != version ==> Lookup(t', k) == Lookup(t, k)
  }

  lemma TouchesOnly(op: Operation, m: Migration, t: Items, t': Items)
    requires m.fromVersion != m.toVersion && Reaches(op, m, t, t')
    ensures OnlyVersion(m, if op == Apply || op == CaseOne || op == Snapshot then m.toVersion else m.fromVersion, t, t')
  {
    var version := if op == Apply || op == CaseOne || op == Snapshot then m.toVersion else m.fromVersion;
    forall k: PK | k.entity != m.entity || k.version != version ensures Lookup(t', k) == Lookup(t, k) {
      assert ReachesAt(op, m, t, t', k);
    }
  }

  /** Apply puts what `up` makes of a v1 record in its v2 place; the rest of v2 stays. */
  lemma ApplyLeaves(m: Migration, t: Items, t': Items, dk: string)
    requires m.fromVersion != m.toVersion && Reaches(Apply, m, t, t')
    ensures Lookup(t', V2Key(m, dk)) ==
            if V1Key(m, dk) in t && m.up(t[V1Key(m, dk)]).Produced? then Some(m.up(t[V1Key(m, dk)]).rec) else Lookup(t, V2Key(m, dk))
  {
    assert ReachesAt(Apply, m, t, t', V2Key(m, dk));
  }

  /** Case 1 takes away v2, finalize takes away v1. */
  lemma CaseOneAndFinalizeLeave(m: Migration, t: Items, t': Items, dk: string)
    requires m.fromVersion != m.toVersion
    ensures Reaches(CaseOne, m, t, t') ==> V2Key(m, dk) !in t'
    ensures Reaches(Finalize, m, t, t') ==> V1Key(m, dk) !in t'
  {
    if Reaches(CaseOne, m, t, t') { assert ReachesAt(CaseOne, m, t, t', V2Key(m, dk)); }
    if Reaches(Finalize, m, t, t') { assert ReachesAt(Finalize, m, t, t', V1Key(m, dk)); }
  }

  /** Projected: v1 is what `down` makes of v2. A key without a v2 record loses its v1 record, one whose
      `down` answers nothing keeps it. */
  lemma ProjectedLeaves(m: Migration, t: Items, t': Items, dk: string)
    requires m.fromVersion != m.toVersion && m.down.Some? && Reaches(Projected, m, t, t') && !UserStops(Projected, m, t)
    ensures V2Key(m, dk) !in t ==> V1Key(m, dk) !in t'
    ensures V2Key(m, dk) in t ==>
              match m.down.value(t[V2Key(m, dk)])
              case Produced(rec) => Lookup(t', V1Key(m, dk)) == Some(rec)
              case Nothing => Lookup(t', V1Key(m, dk)) == Lookup(t, V1Key(m, dk))
              case Threw => false
  {
    assert ReachesAt(Projected, m, t, t', V1Key(m, dk)) && !StopsAt(Projected, m, t, dk);
  }

  /** Fill-only: a v1 record is never touched; a key without one gets what `down` makes of its v2 record. */
  lemma FillOnlyLeaves(m: Migration, t: Items, t': Items, dk: string)
    requires m.fromVersion != m.toVersion && m.down.Some? && Reaches(FillOnly, m, t, t') && !UserStops(FillOnly, m, t)
    ensures V1Key(m, dk) in t ==> Lookup(t', V1Key(m, dk)) == Lookup(t, V1Key(m, dk))
    ensures V1Key(m, dk) !in t && V2Key(m, dk) !in t ==> V1Key(m, dk) !in t'
    ensures V1Key(m, dk) !in t && V2Key(m, dk) in t ==>
              match m.down.value(t[V2Key(m, dk)])
              case Produced(rec) => Lookup(t', V1Key(m, dk)) == Some(rec)
              case Nothing => V1Key(m, dk) !in t'
              case Threw => false
  {
    assert ReachesAt(FillOnly, m, t, t', V1Key(m, dk)) && !StopsAt(FillOnly, m, t, dk);
  }

  /** Snapshot: v1 stays, and a v2 record stays exactly where v1 has one. */
  lemma SnapshotLeaves(m: Migration, t: Items, t': Items, dk: string)
    requires m.fromVersion != m.toVersion && Reaches(Snapshot, m, t, t')
    ensures Lookup(t', V2Key(m, dk)) == if V1Key(m, dk) in t then Lookup(t, V2Key(m, dk)) else None
  {
    assert ReachesAt(Snapshot, m, t, t', V2Key(m, dk));
  }

  /** Custom: v1 is what the resolver answered for what the key holds; the answer nothing takes it away. */
  lemma CustomLeaves(m: Migration, t: Items, t': Items, dk: string)
    requires m.fromVersion != m.toVersion && m.resolver.Some? && Reaches(Custom, m, t, t') && !UserStops(Custom, m, t)
    ensures V1Key(m, dk) !in t && V2Key(m, dk) !in t ==> V1Key(m, dk) !in t'
    ensures V1Key(m, dk) in t || V2Key(m, dk) in t ==>
              var kind := if V1Key(m, dk) !in t then B else if V2Key(m, dk) !in t then C else A;
              match m.resolver.value(ResolverArgs(kind, Lookup(t, V1Key(m, dk)), Lookup(t, V2Key(m, dk))))
              case Produced(rec) => Lookup(t', V1Key(m, dk)) == Some(rec)
              case Nothing => V1Key(m, dk) !in t'
              case Threw => false
  {
    assert ReachesAt(Custom, m, t, t', V1Key(m, dk)) && !StopsAt(Custom, m, t, dk);
  }

  // ----- The domain key, read the other way ---------------------------------------------------------

  /** `parts.join('&')`, from the end. */
  function Join(parts: seq<string>): string {
    if parts == [] then ""
    else if |parts| == 1 then parts[0]
    else Join(parts[..|parts| - 1]) + ("&" + parts[|parts| - 1])
  }

  lemma {:induction false} JoinFirst(parts: seq<string>)
    requires |parts| >= 2
    ensures Join(parts) == parts[0] + ("&" + Join(parts[1..]))
  {
    var init, last := parts[..|parts| - 1], parts[|parts| - 1];
    if |parts| == 2 {
      assert parts[1..] == [last] && init == [parts[0]];
    } else {
      JoinFirst(init);
      assert init[1..] == parts[1..][..|parts| - 2] && parts[1..][|parts| - 2] == last && init[0] == parts[0];
      assert Join(parts[1..]) == Join(init[1..]) + ("&" + last);
      assert (parts[0] + ("&" + Join(init[1..]))) + ("&" + last) == parts[0] + ("&" + (Join(init[1..]) + ("&" + last)));
    }
  }

  lemma Regrouped(a: string, b: string, c: string, d: string)
    ensures (a + b) + (c + d) == (a + (b + c)) + d
  {
  }

  /** One `name=value` an attribute, in the composite's order; a missing attribute prints as undefined. */
  lemma {:induction false} KeyIsJoined(composite: seq<string>, r: Record, parts: seq<string>)
    requires |parts| == |composite|
    requires forall i :: 0 <= i < |parts| ==> parts[i] == composite[i] + ("=" + if composite[i] in r then r[composite[i]] else "undefined")
    ensures ExtractDomainKey(composite, r) == Join(parts)
  {
    if composite != [] {
      var f, value := composite[0], AttributeText(r, composite[0]);
      KeyIsJoined(composite[1..], r, parts[1..]);
      if |parts| == 1 {
        Regrouped(f, "=", value, "");
        assert parts[0] + "" == parts[0];
      } else {
        JoinFirst(parts);
        Regrouped(f, "=", value, "&" + Join(parts[1..]));
      }
    }
  }
}
