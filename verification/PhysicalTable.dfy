/** One DynamoDB table, as the runners see it: keyed records, batch writes that may leave requests
    unprocessed, and cursor scans. What DynamoDB is free to choose (which requests it throttles, in
    which order it applies the rest, where a page ends) is chosen by assign-such-that, so every
    contract above this module holds for every choice. */
module PhysicalTable {
  import opened Wrappers
  import opened TableWrites

  // ----- Scan order ----------------------------------------------------------------------------

  /** Positions in the table's scan order; distinct keys have distinct positions. */
  ghost predicate Injective(rank: PK -> real) {
    forall a: PK, b: PK :: Distinguished(rank, a, b)
  }

  ghost predicate Distinguished(rank: PK -> real, a: PK, b: PK) {
    rank(a) == rank(b) ==> a == b
  }

  lemma {:induction false} FirstExists(rank: PK -> real, ks: set<PK>)
    requires ks != {}
    ensures exists m :: m in ks && forall k :: k in ks ==> rank(m) <= rank(k)
  {
    var x :| x in ks;
    if ks == {x} {
      assert forall k :: k in ks ==> k == x;
    } else {
      FirstExists(rank, ks - {x});
      var m :| m in ks - {x} && forall k :: k in ks - {x} ==> rank(m) <= rank(k);
      var w := if rank(m) <= rank(x) then m else x;
      assert w in ks && forall k :: k in ks ==> rank(w) <= rank(k);
    }
  }

  /** The keys of `ks` in scan order. */
  function InOrder(rank: PK -> real, ks: set<PK>): seq<PK>
    requires Injective(rank)
  {
    if ks == {} then []
    else
      FirstExists(rank, ks);
      assert forall a, b :: a in ks && b in ks ==> Distinguished(rank, a, b);
      var m :| m in ks && forall k :: k in ks ==> rank(m) <= rank(k);
      [m] + InOrder(rank, ks - {m})
  }

  lemma {:induction false} InOrderLists(rank: PK -> real, ks: set<PK>)
    requires Injective(rank)
    ensures |InOrder(rank, ks)| == |ks|
    ensures forall k :: k in InOrder(rank, ks) <==> k in ks
    ensures forall i, j :: 0 <= i < j < |ks| ==> rank(InOrder(rank, ks)[i]) < rank(InOrder(rank, ks)[j])
  {
    if ks != {} {
      var s := InOrder(rank, ks);
      var m := s[0];
      assert m in ks && s[1..] == InOrder(rank, ks - {m});
      assert forall k :: k in ks ==> Distinguished(rank, m, k);
      InOrderLists(rank, ks - {m});
      assert s == [m] + s[1..];
      forall i, j | 0 <= i < j < |ks| ensures rank(s[i]) < rank(s[j]) {
        assert s[j] == s[1..][j - 1];
        if i == 0 {
          assert s[j] in s[1..];
        } else {
          assert s[i] == s[1..][i - 1];
        }
      }
    }
  }

  lemma TailMembers(rank: PK -> real, ks: set<PK>, s: seq<PK>)
    requires s != [] && forall k :: k in s <==> k in ks
    requires forall i, j :: 0 <= i < j < |s| ==> rank(s[i]) < rank(s[j])
    ensures forall k :: k in s[1..] <==> k in ks - {s[0]}
  {
    forall k ensures k in s[1..] <==> k in ks - {s[0]} {
      if k in s[1..] {
        var j :| 0 <= j < |s[1..]| && s[1..][j] == k;
        assert s[j + 1] == k && s[j + 1] in s;
      }
      if k in ks - {s[0]} {
        var j :| 0 <= j < |s| && s[j] == k;
        assert s[1..][j - 1] == k;
      }
    }
  }

  lemma {:induction false} InOrderUnique(rank: PK -> real, ks: set<PK>, s: seq<PK>)
    requires Injective(rank)
    requires forall k :: k in s <==> k in ks
    requires forall i, j :: 0 <= i < j < |s| ==> rank(s[i]) < rank(s[j])
    ensures s == InOrder(rank, ks)
  {
    if s != [] { assert s[0] in ks; }
    if ks != {} {
      SameFirst(rank, ks, s);
      TailMembers(rank, ks, s);
      InOrderUnique(rank, ks - {s[0]}, s[1..]);
    }
  }

  lemma SameFirst(rank: PK -> real, ks: set<PK>, s: seq<PK>)
    requires Injective(rank) && ks != {}
    requires forall k :: k in s <==> k in ks
    requires forall i, j :: 0 <= i < j < |s| ==> rank(s[i]) < rank(s[j])
    ensures s != [] && InOrder(rank, ks) == [s[0]] + InOrder(rank, ks - {s[0]})
  {
    var first := InOrder(rank, ks)[0];
    assert first in s && s[0] in ks;
    var i :| 0 <= i < |s| && s[i] == first;
    assert rank(first) <= rank(s[0]) && Distinguished(rank, first, s[0]);
  }

  /** Listing what lies before and what lies after lists the whole. */
  lemma InOrderSplit(rank: PK -> real, a: set<PK>, b: set<PK>)
    requires Injective(rank) && forall x, y :: x in a && y in b ==> rank(x) < rank(y)
    ensures InOrder(rank, a + b) == InOrder(rank, a) + InOrder(rank, b)
  {
    InOrderLists(rank, a);
    InOrderLists(rank, b);
    var s, t := InOrder(rank, a), InOrder(rank, b);
    forall i, j | 0 <= i < |s| && 0 <= j < |t| ensures rank(s[i]) < rank(t[j]) {
      assert s[i] in s && t[j] in t;
    }
    AscendingAppend(rank, s, t);
    InOrderUnique(rank, a + b, s + t);
  }

  lemma AscendingAppend(rank: PK -> real, s: seq<PK>, t: seq<PK>)
    requires forall i, j :: 0 <= i < j < |s| ==> rank(s[i]) < rank(s[j])
    requires forall i, j :: 0 <= i < j < |t| ==> rank(t[i]) < rank(t[j])
    requires forall i, j :: 0 <= i < |s| && 0 <= j < |t| ==> rank(s[i]) < rank(t[j])
    ensures forall i, j :: 0 <= i < j < |s + t| ==> rank((s + t)[i]) < rank((s + t)[j])
  {
  }

  predicate Ahead(rank: PK -> real, cursor: Option<PK>, k: PK) {
    cursor.None? || rank(cursor.value) < rank(k)
  }

  /** The keys a page read from `cursor` up to `next` evaluates. */
  function Window(rank: PK -> real, t: Items, cursor: Option<PK>, next: Option<PK>): set<PK> {
    set k | k in t && Ahead(rank, cursor, k) && (next.None? || !Ahead(rank, next, k))
  }

  function Matching(ks: set<PK>, entity: string, version: nat): set<PK> {
    set k | k in ks && k.entity == entity && k.version == version
  }

  function Records(t: Items, ks: seq<PK>): (rs: seq<Record>)
    requires forall k :: k in ks ==> k in t
  {
    seq(|ks|, i requires 0 <= i < |ks| => t[ks[i]])
  }

  datatype SendOutcome = Sent(unprocessed: seq<Request>) | Threw

  class Table {
    const rank: PK -> real
    var items: Items
    /** Every request DynamoDB has applied, in the order it did. */
    ghost var log: seq<Request>
    ghost var sends: nat
    /** DynamoDB has handed something back, or failed a request. */
    ghost var refused: bool

    ghost predicate Valid()
      reads this
    {
      Injective(rank)
    }

    constructor (rank: PK -> real, items: Items)
      requires Injective(rank)
      ensures Valid() && this.rank == rank && this.items == items && log == [] && sends == 0 && !refused
    {
      this.rank := rank;
      this.items := items;
      log := [];
      sends := 0;
      refused := false;
    }

    /** What DynamoDB applied since the log had length `n`. */
    ghost function Since(n: nat): seq<Request>
      reads this
      requires n <= |log|
    {
      log[n..]
    }

    /** `BatchWriteItem`: applies some of the batch in some order and returns the rest in some
        order, or fails after applying some of it. */
    method BatchWriteItem(batch: seq<Request>) returns (r: SendOutcome)
      requires Valid() && 1 <= |batch| <= 25
      modifies this
      ensures Valid() && old(log) <= log && sends == old(sends) + 1
      ensures items == ExecAll(old(items), Since(|old(log)|))
      ensures r.Sent? ==> multiset(Since(|old(log)|)) + multiset(r.unprocessed) == multiset(batch)
      ensures r.Threw? ==> multiset(Since(|old(log)|)) <= multiset(batch)
      ensures refused <==> old(refused) || r.Threw? || r.unprocessed != []
    {
      assert multiset(batch) + multiset([]) == multiset(batch);
      var done: seq<Request>, rest: seq<Request> :| multiset(done) + multiset(rest) == multiset(batch);
      var fails: bool :| true;
      items := ExecAll(items, done);
      log := log + done;
      sends := sends + 1;
      refused := refused || fails || rest != [];
      assert log[|old(log)|..] == done;
      r := if fails then Threw else Sent(rest);
    }

    /** `DeleteItem` on a full key: removes the record or fails without a change. */
    method DeleteItem(k: PK) returns (ok: bool)
      requires Valid()
      modifies this`items, this`refused
      ensures refused <==> old(refused) || !ok
      ensures items == if ok then old(items) - {k} else old(items)
    {
      ok :| true;
      if ok { items := items - {k}; } else { refused := true; }
    }

    /** One page of `scan.go({cursor, limit})` for the records stamped `(entity, version)`: evaluates
        between one and `limit` keys after the cursor in scan order, keeps the stamped ones, and
        hands back the last evaluated key, or no cursor, and that only at the end of the table. */
    method Scan(entity: string, version: nat, cursor: Option<PK>, limit: nat)
      returns (page: seq<Record>, next: Option<PK>)
      requires Valid() && limit >= 1
      ensures unchanged(this)
      ensures var w := Window(rank, items, cursor, next);
              && |w| <= limit
              && (next.Some? ==> next.value in w)
              && (forall k :: k in InOrder(rank, Matching(w, entity, version)) ==> k in items)
              && page == Records(items, InOrder(rank, Matching(w, entity, version)))
    {
      var ahead := set k | k in items && Ahead(rank, cursor, k);
      var keys := InOrder(rank, ahead);
      InOrderLists(rank, ahead);
      var n: nat :| n <= |keys| && n <= limit && (keys != [] ==> n >= 1);
      var last: bool :| last ==> n == |keys|;
      next := if n == 0 || last then None else Some(keys[n - 1]);
      var w := Window(rank, items, cursor, next);
      if next.Some? {
        TakenKeys(rank, keys, n, w, ahead);
      } else {
        assert w == ahead;
      }
      var hits := InOrder(rank, Matching(w, entity, version));
      InOrderLists(rank, Matching(w, entity, version));
      page := Records(items, hits);
    }
  }

  lemma TakenKeys(rank: PK -> real, keys: seq<PK>, n: nat, w: set<PK>, ahead: set<PK>)
    requires 1 <= n <= |keys|
    requires forall k :: k in keys <==> k in ahead
    requires forall i, j :: 0 <= i < j < |keys| ==> rank(keys[i]) < rank(keys[j])
    requires w == set k | k in ahead && rank(k) <= rank(keys[n - 1])
    ensures keys[n - 1] in w && |w| <= n
  {
    assert keys[n - 1] in keys;
    forall k | k in w ensures k in keys[..n] {
      var i :| 0 <= i < |keys| && keys[i] == k;
      assert i < n;
      assert keys[..n][i] == k;
    }
    ListBoundsSet(w, keys[..n]);
  }

  lemma {:induction false} ListBoundsSet(s: set<PK>, list: seq<PK>)
    requires forall k :: k in s ==> k in list
    ensures |s| <= |list|
  {
    if list != [] {
      var last := list[|list| - 1];
      ListBoundsSet(s - {last}, list[..|list| - 1]);
    }
  }
}
