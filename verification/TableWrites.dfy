/** Keyed records and the requests that write them. With one request per key, neither the order nor an
    interruption shows anywhere but in how many of the requests were applied. */
module TableWrites {
  import opened Wrappers

  /** A record in the domain shape ElectroDB hands out: attribute name to value. */
  type Record = map<string, string>

  /** The primary key of a record: entity and version stamp plus the domain key. Records of two
      versions of an entity never share a physical key. */
  datatype PK = PK(entity: string, version: nat, dk: string)

  type Items = map<PK, Record>

  datatype Request = Put(key: PK, rec: Record) | Delete(key: PK)

  function Lookup(t: Items, k: PK): Option<Record> {
    if k in t then Some(t[k]) else None
  }

  function Effect(q: Request): Option<Record> {
    if q.Put? then Some(q.rec) else None
  }

  function Exec(t: Items, q: Request): Items {
    if q.Put? then t[q.key := q.rec] else t - {q.key}
  }

  function ExecAll(t: Items, qs: seq<Request>): Items {
    if qs == [] then t else Exec(ExecAll(t, qs[..|qs| - 1]), qs[|qs| - 1])
  }

  /** How many of the requests are puts. */
  function PutCount(qs: seq<Request>): (n: nat)
    ensures n <= |qs|
  {
    if qs == [] then 0 else PutCount(qs[..|qs| - 1]) + if qs[|qs| - 1].Put? then 1 else 0
  }

  function DeleteCount(qs: seq<Request>): nat {
    |qs| - PutCount(qs)
  }

  lemma {:induction false} PutCountAppend(a: seq<Request>, b: seq<Request>)
    ensures PutCount(a + b) == PutCount(a) + PutCount(b)
  {
    if b == [] {
      assert a + b == a;
    } else {
      assert (a + b)[..|a + b| - 1] == a + b[..|b| - 1];
      PutCountAppend(a, b[..|b| - 1]);
    }
  }

  /** The requests without one occurrence of `q`. */
  lemma WithoutOne(qs: seq<Request>, q: Request) returns (rest: seq<Request>)
    requires q in qs
    ensures multiset(qs) == multiset(rest) + multiset{q} && |rest| == |qs| - 1
    ensures PutCount(qs) == PutCount(rest) + if q.Put? then 1 else 0
  {
    var i :| 0 <= i < |qs| && qs[i] == q;
    var x, y := qs[..i], qs[i + 1..];
    rest := x + y;
    assert qs == (x + [q]) + y;
    PutCountAppend(x + [q], y);
    PutCountAppend(x, [q]);
    PutCountAppend(x, y);
    assert [q][..0] == [];
  }

  /** It does not depend on their order. */
  lemma {:induction false} PutCountUnordered(a: seq<Request>, b: seq<Request>)
    requires multiset(a) == multiset(b)
    ensures PutCount(a) == PutCount(b) && |a| == |b|
    decreases |a|
  {
    if a == [] {
      assert |multiset(b)| == 0;
    } else {
      var q := a[0];
      assert q in multiset(b);
      var restA := WithoutOne(a, q);
      var restB := WithoutOne(b, q);
      assert multiset(restA) == multiset(a) - multiset{q} && multiset(restB) == multiset(b) - multiset{q};
      PutCountUnordered(restA, restB);
    }
  }

  /** No two different requests for one key. A repeated request is harmless. */
  ghost predicate Consistent(qs: seq<Request>) {
    forall p, q :: p in qs && q in qs && p.key == q.key ==> p == q
  }

  ghost predicate Mentions(qs: seq<Request>, k: PK) {
    exists q :: q in qs && q.key == k
  }

  /** Every key of `t` is as in `t0` or as in `t1`: what an interrupted run from `t0` to `t1` leaves. */
  ghost predicate Between(t0: Items, t: Items, t1: Items) {
    forall k: PK :: BetweenAt(t0, t, t1, k)
  }

  ghost predicate BetweenAt(t0: Items, t: Items, t1: Items, k: PK) {
    Lookup(t, k) == Lookup(t0, k) || Lookup(t, k) == Lookup(t1, k)
  }

  lemma SameLookups(a: Items, b: Items)
    requires forall k: PK :: Lookup(a, k) == Lookup(b, k)
    ensures a == b
  {
    forall k | k in a ensures k in b && a[k] == b[k] { assert Lookup(a, k) == Lookup(b, k); }
    forall k | k in b ensures k in a { assert Lookup(a, k) == Lookup(b, k); }
  }

  lemma {:induction false} ExecAllAppend(t: Items, a: seq<Request>, b: seq<Request>)
    ensures ExecAll(t, a + b) == ExecAll(ExecAll(t, a), b)
  {
    if b == [] {
      assert a + b == a;
    } else {
      assert (a + b)[..|a + b| - 1] == a + b[..|b| - 1];
      ExecAllAppend(t, a, b[..|b| - 1]);
    }
  }

  lemma {:induction false} ExecAllMisses(t: Items, qs: seq<Request>, k: PK)
    requires !Mentions(qs, k)
    ensures Lookup(ExecAll(t, qs), k) == Lookup(t, k)
  {
    if qs != [] {
      var rest, last := qs[..|qs| - 1], qs[|qs| - 1];
      assert last in qs && forall q :: q in rest ==> q in qs;
      ExecAllMisses(t, rest, k);
    }
  }

  lemma {:induction false} ExecAllHits(t: Items, qs: seq<Request>, q: Request)
    requires q in qs && Consistent(qs)
    ensures Lookup(ExecAll(t, qs), q.key) == Effect(q)
  {
    var rest, last := qs[..|qs| - 1], qs[|qs| - 1];
    assert qs == rest + [last];
    if last.key == q.key {
      assert last == q;
    } else {
      assert q in rest;
      ExecAllHits(t, rest, q);
    }
  }

  /** Throttling and retry order do not show in the final table. */
  lemma OrderIrrelevant(t: Items, a: seq<Request>, b: seq<Request>)
    requires multiset(a) == multiset(b) && Consistent(a)
    ensures ExecAll(t, a) == ExecAll(t, b)
  {
    assert forall q :: q in a <==> q in multiset(a);
    assert forall q :: q in b <==> q in multiset(b);
    forall k: PK ensures Lookup(ExecAll(t, a), k) == Lookup(ExecAll(t, b), k) {
      if Mentions(a, k) {
        var q :| q in a && q.key == k;
        ExecAllHits(t, a, q);
        ExecAllHits(t, b, q);
      } else {
        ExecAllMisses(t, a, k);
        ExecAllMisses(t, b, k);
      }
    }
    SameLookups(ExecAll(t, a), ExecAll(t, b));
  }

  /** Applying some of the requests leaves the table between its two ends. */
  lemma PartOfRequests(t: Items, some: seq<Request>, all: seq<Request>)
    requires multiset(some) <= multiset(all) && Consistent(all)
    ensures Between(t, ExecAll(t, some), ExecAll(t, all))
  {
    assert forall q :: q in some ==> q in multiset(some);
    assert forall q :: q in multiset(all) ==> q in all;
    forall k: PK
      ensures BetweenAt(t, ExecAll(t, some), ExecAll(t, all), k)
    {
      if Mentions(some, k) {
        var q :| q in some && q.key == k;
        ExecAllHits(t, some, q);
        ExecAllHits(t, all, q);
      } else {
        ExecAllMisses(t, some, k);
      }
    }
  }
}
