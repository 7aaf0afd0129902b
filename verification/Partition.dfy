/** Which instance of a cluster owns which stock, and where a submitted order ends
    up. The hash is any function of the stock code. */
module Partition {
  import opened StableSort

  type Hash = string -> nat

  /** The hash modulo the size of the cluster. */
  function OwnerIndex(hash: Hash, stock: string, total: int): (i: int)
    ensures total >= 1 ==> 0 <= i < total && exists q: nat :: hash(stock) == q * total + i
    ensures total < 1 ==> i == 0
  {
    assert total >= 1 ==> hash(stock) == (hash(stock) / total) * total + hash(stock) % total;
    if total <= 0 then 0 else hash(stock) % total
  }

  // ------------------------------------------------- sorting of codes

  /** The order of strings by code point. */
  predicate StringLeq(a: string, b: string) {
    if a == [] then true
    else if b == [] then false
    else if a[0] != b[0] then a[0] < b[0]
    else StringLeq(a[1..], b[1..])
  }

  ghost predicate SortedStrings(s: seq<string>) {
    forall i, j :: 0 <= i < j < |s| ==> StringLeq(s[i], s[j])
  }

  lemma {:induction false} LeqTotal(a: string, b: string)
    ensures StringLeq(a, b) || StringLeq(b, a)
  {
    if a != [] && b != [] && a[0] == b[0] {
      LeqTotal(a[1..], b[1..]);
    }
  }

  lemma {:induction false} LeqTransitive(a: string, b: string, c: string)
    requires StringLeq(a, b) && StringLeq(b, c)
    ensures StringLeq(a, c)
  {
    if a != [] && b != [] && c != [] && a[0] == b[0] == c[0] {
      LeqTransitive(a[1..], b[1..], c[1..]);
    }
  }

  function InsertString(s: seq<string>, x: string): seq<string> {
    if s == [] || StringLeq(s[|s| - 1], x) then s + [x]
    else InsertString(s[..|s| - 1], x) + [s[|s| - 1]]
  }

  function SortStrings(s: seq<string>): seq<string> {
    if s == [] then [] else InsertString(SortStrings(s[..|s| - 1]), s[|s| - 1])
  }

  lemma {:induction false} InsertStringSorts(s: seq<string>, x: string)
    requires SortedStrings(s)
    ensures SortedStrings(InsertString(s, x))
  {
    if s != [] {
      var front, last := s[..|s| - 1], s[|s| - 1];
      if StringLeq(last, x) {
        forall i | 0 <= i < |s| ensures StringLeq(s[i], x) {
          if i < |s| - 1 {
            LeqTransitive(s[i], last, x);
          }
        }
      } else {
        LeqTotal(last, x);
        InsertStringSorts(front, x);
        var r := InsertString(front, x);
        forall i | 0 <= i < |r| ensures StringLeq(r[i], last) {
          InsertStringMember(front, x, r[i]);
          if r[i] != x {
            var j :| 0 <= j < |front| && front[j] == r[i];
            assert s[j] == front[j];
          }
        }
      }
    }
  }

  lemma {:induction false} InsertStringMember(s: seq<string>, x: string, y: string)
    requires y in InsertString(s, x)
    ensures y in s || y == x
  {
    if s != [] && !StringLeq(s[|s| - 1], x) && y != s[|s| - 1] {
      InsertStringMember(s[..|s| - 1], x, y);
    }
  }

  lemma {:induction false} InsertStringKeeps(s: seq<string>, x: string)
    ensures multiset(InsertString(s, x)) == multiset(s) + multiset{x}
  {
    if s != [] {
      assert s == s[..|s| - 1] + [s[|s| - 1]];
      InsertStringKeeps(s[..|s| - 1], x);
    }
  }

  lemma {:induction false} SortStringsSorts(s: seq<string>)
    ensures SortedStrings(SortStrings(s)) && multiset(SortStrings(s)) == multiset(s)
  {
    if s != [] {
      SortStringsSorts(s[..|s| - 1]);
      InsertStringSorts(SortStrings(s[..|s| - 1]), s[|s| - 1]);
      InsertStringKeeps(SortStrings(s[..|s| - 1]), s[|s| - 1]);
      assert s == s[..|s| - 1] + [s[|s| - 1]];
    }
  }

  // ------------------------------------------------------- ownership

  class Partitioner {
    const instanceIndex: int
    const totalInstances: int

    constructor (instanceIndex: int, totalInstances: int)
      requires 0 <= instanceIndex < totalInstances
      ensures this.instanceIndex == instanceIndex && this.totalInstances == totalInstances
    {
      this.instanceIndex, this.totalInstances := instanceIndex, totalInstances;
    }

    /** Refuses an empty cluster and an index outside it. */
    static method New(instanceIndex: int, totalInstances: int) returns (p: Partitioner?)
      ensures p != null <==> 0 <= instanceIndex < totalInstances
      ensures p != null ==> p.instanceIndex == instanceIndex && p.totalInstances == totalInstances
    {
      if totalInstances < 1 {
        return null;
      }
      if instanceIndex < 0 || instanceIndex >= totalInstances {
        return null;
      }
      p := new Partitioner(instanceIndex, totalInstances);
    }

    predicate OwnsStock(hash: Hash, stock: string) {
      OwnerIndex(hash, stock, totalInstances) == instanceIndex
    }

    method OwnedStocks(hash: Hash, all: seq<string>) returns (owned: seq<string>)
      ensures owned == OwnedBy(Ownership(hash, totalInstances), instanceIndex, all)
      ensures SortedStrings(owned)
    {
      owned := [];
      var i := 0;
      while i < |all|
        invariant 0 <= i <= |all|
        invariant owned == Filter(all[..i], Owns(Ownership(hash, totalInstances), instanceIndex))
      {
        assert all[..i + 1][..i] == all[..i];
        if OwnsStock(hash, all[i]) {
          owned := owned + [all[i]];
        }
        i := i + 1;
      }
      assert all[..|all|] == all;
      SortStringsSorts(owned);
      owned := SortStrings(owned);
    }
  }

  /** Who owns what, as one function of the stock. */
  function Ownership(hash: Hash, total: int): string -> int {
    (stock: string) => OwnerIndex(hash, stock, total)
  }

  function Owns(owner: string -> int, index: int): string -> bool {
    (stock: string) => owner(stock) == index
  }

  function OwnedBy(owner: string -> int, index: int, all: seq<string>): seq<string> {
    SortStrings(Filter(all, Owns(owner, index)))
  }

  /** The lists of the instances below n, one after the other. */
  function Join(list: nat -> seq<string>, n: nat): seq<string> {
    if n == 0 then [] else Join(list, n - 1) + list(n - 1)
  }

  function OwnedLists(owner: string -> int, all: seq<string>): nat -> seq<string> {
    (i: nat) => OwnedBy(owner, i, all)
  }

  lemma {:induction false} JoinCounts(list: nat -> seq<string>, n: nat, x: string, place: int, count: nat)
    requires forall i: nat :: multiset(list(i))[x] == if i == place then count else 0
    ensures multiset(Join(list, n))[x] == if 0 <= place < n then count else 0
  {
    if n > 0 {
      JoinCounts(list, n - 1, x, place, count);
    }
  }

  lemma {:induction false} FilterCounts(s: seq<string>, keep: string -> bool, x: string)
    ensures multiset(Filter(s, keep))[x] == if keep(x) then multiset(s)[x] else 0
  {
    if s != [] {
      FilterCounts(s[..|s| - 1], keep, x);
      assert s == s[..|s| - 1] + [s[|s| - 1]];
    }
  }

  lemma OwnedByCounts(owner: string -> int, index: int, all: seq<string>, stock: string)
    ensures multiset(OwnedBy(owner, index, all))[stock] == if owner(stock) == index then multiset(all)[stock] else 0
  {
    SortStringsSorts(Filter(all, Owns(owner, index)));
    FilterCounts(all, Owns(owner, index), stock);
  }

  /** For any hash and any cluster the instances' lists together are a permutation
      of the stocks. */
  lemma OwnershipPartitions(hash: Hash, total: nat, all: seq<string>)
    requires total >= 1
    ensures multiset(Join(OwnedLists(Ownership(hash, total), all), total)) == multiset(all)
  {
    var owner := Ownership(hash, total);
    var lists := OwnedLists(owner, all);
    forall stock ensures multiset(Join(lists, total))[stock] == multiset(all)[stock] {
      forall i: nat ensures multiset(lists(i))[stock] == if i == owner(stock) then multiset(all)[stock] else 0 {
        OwnedByCounts(owner, i, all, stock);
      }
      JoinCounts(lists, total, stock, owner(stock), multiset(all)[stock]);
    }
  }

  /** A listed stock is on the list of its owner and on no other. */
  lemma OwnedExactlyOnce(hash: Hash, index: int, total: int, all: seq<string>, stock: string)
    ensures stock in OwnedBy(Ownership(hash, total), index, all) <==> stock in all && index == OwnerIndex(hash, stock, total)
  {
    var kept := Filter(all, Owns(Ownership(hash, total), index));
    SortStringsSorts(kept);
    FilterMember(all, Owns(Ownership(hash, total), index), stock);
    assert stock in SortStrings(kept) <==> stock in multiset(SortStrings(kept));
  }

  // --------------------------------------------------------- routing

  datatype Destination = Local | Forward(subject: string)

  function Subject(stock: string): string {
    "engine.orders." + stock
  }

  /** Where instance `index` sends an order for this stock. */
  function Route(hash: Hash, index: int, total: int, stock: string): Destination {
    if OwnerIndex(hash, stock, total) == index then Local else Forward(Subject(stock))
  }

  /** Whether instance `index` listens on this subject: it does for its own stocks. */
  ghost predicate Listens(hash: Hash, index: int, total: int, all: seq<string>, subject: string) {
    exists stock :: stock in OwnedBy(Ownership(hash, total), index, all) && Subject(stock) == subject
  }

  lemma SubjectsDiffer(a: string, b: string)
    requires Subject(a) == Subject(b)
    ensures a == b
  {
    assert Subject(a)[14..] == a && Subject(b)[14..] == b;
  }

  /** An order for a listed stock, submitted anywhere, goes to the one instance
      whose engine has a matcher for it: directly, or over a subject on which that
      instance, and no other, listens. */
  lemma OrdersReachTheirMatcher(hash: Hash, total: int, all: seq<string>, stock: string, at: int, i: int)
    requires total >= 1 && stock in all && 0 <= at < total && 0 <= i < total
    ensures var owner := OwnerIndex(hash, stock, total);
      && (stock in OwnedBy(Ownership(hash, total), i, all) <==> i == owner)
      && (match Route(hash, at, total, stock)
          case Local => at == owner
          case Forward(subject) => at != owner && subject == "engine.orders." + stock && (Listens(hash, i, total, all, subject) <==> i == owner))
  {
    OwnedExactlyOnce(hash, i, total, all, stock);
    if Listens(hash, i, total, all, Subject(stock)) {
      var other :| other in OwnedBy(Ownership(hash, total), i, all) && Subject(other) == Subject(stock);
      SubjectsDiffer(other, stock);
    }
  }
}
