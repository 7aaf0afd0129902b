/** sort.SliceStable as the order book uses it: a sort on an integer key that
    keeps the original order of elements whose keys are equal. */
module StableSort {

  ghost predicate Sorted<T>(s: seq<T>, key: T -> int) {
    forall i, j :: 0 <= i < j < |s| ==> key(s[i]) <= key(s[j])
  }

  /** The elements of `s` that `keep` accepts, in order. */
  function Filter<T>(s: seq<T>, keep: T -> bool): seq<T> {
    if s == [] then []
    else
      var front := Filter(s[..|s| - 1], keep);
      if keep(s[|s| - 1]) then front + [s[|s| - 1]] else front
  }

  ghost function HasKey<T>(key: T -> int, k: int): T -> bool {
    x => key(x) == k
  }

  /** The elements whose key is `k`, in order. */
  ghost function WithKey<T>(s: seq<T>, key: T -> int, k: int): seq<T> {
    Filter(s, HasKey(key, k))
  }

  /** `x` goes in after every element of the sorted `s` whose key is not greater. */
  function Insert<T>(s: seq<T>, x: T, key: T -> int): seq<T> {
    if s == [] || key(s[|s| - 1]) <= key(x) then s + [x]
    else Insert(s[..|s| - 1], x, key) + [s[|s| - 1]]
  }

  function SliceStable<T>(s: seq<T>, key: T -> int): seq<T> {
    if s == [] then [] else Insert(SliceStable(s[..|s| - 1], key), s[|s| - 1], key)
  }

  /** The place `Insert` picks: everything before it has a key at most that of
      `x`, everything from it on a greater one. */
  lemma {:induction false} InsertSplits<T>(s: seq<T>, x: T, key: T -> int) returns (p: nat)
    requires Sorted(s, key)
    ensures p <= |s| && Insert(s, x, key) == s[..p] + [x] + s[p..]
    ensures forall i :: 0 <= i < p ==> key(s[i]) <= key(x)
    ensures forall i :: p <= i < |s| ==> key(x) < key(s[i])
  {
    if s == [] || key(s[|s| - 1]) <= key(x) {
      p := |s|;
    } else {
      var front := s[..|s| - 1];
      p := InsertSplits(front, x, key);
      assert s[..p] == front[..p] && s[p..] == front[p..] + [s[|s| - 1]];
    }
  }

  lemma {:induction false} InsertSorted<T>(s: seq<T>, x: T, key: T -> int)
    requires Sorted(s, key)
    ensures Sorted(Insert(s, x, key), key)
  {
    var p := InsertSplits(s, x, key);
  }

  lemma {:induction false} SliceStableSorted<T>(s: seq<T>, key: T -> int)
    ensures Sorted(SliceStable(s, key), key)
  {
    if s != [] {
      SliceStableSorted(s[..|s| - 1], key);
      InsertSorted(SliceStable(s[..|s| - 1], key), s[|s| - 1], key);
    }
  }

  lemma {:induction false} SortedIsFixed<T>(s: seq<T>, key: T -> int)
    requires Sorted(s, key)
    ensures SliceStable(s, key) == s
  {
    if s != [] {
      SortedIsFixed(s[..|s| - 1], key);
      assert s == s[..|s| - 1] + [s[|s| - 1]];
    }
  }

  /** Append-then-sort on a sorted slice is one insertion. */
  lemma {:induction false} AppendThenSort<T>(s: seq<T>, x: T, key: T -> int)
    requires Sorted(s, key)
    ensures SliceStable(s + [x], key) == Insert(s, x, key)
  {
    assert (s + [x])[..|s|] == s;
    SortedIsFixed(s, key);
  }

  lemma {:induction false} FilterMember<T>(s: seq<T>, keep: T -> bool, x: T)
    ensures x in Filter(s, keep) <==> x in s && keep(x)
  {
    if s != [] {
      FilterMember(s[..|s| - 1], keep, x);
      assert s == s[..|s| - 1] + [s[|s| - 1]];
    }
  }

  lemma {:induction false} FilterSorted<T>(s: seq<T>, keep: T -> bool, key: T -> int)
    requires Sorted(s, key)
    ensures Sorted(Filter(s, keep), key)
  {
    if s != [] {
      var front := s[..|s| - 1];
      FilterSorted(front, keep, key);
      var kept := Filter(front, keep);
      forall j | 0 <= j < |kept| ensures key(kept[j]) <= key(s[|s| - 1]) {
        FilterMember(front, keep, kept[j]);
        var x := kept[j];
        var i :| 0 <= i < |front| && front[i] == x;
      }
    }
  }

  /** Dropping elements commutes with inserting one. */
  lemma {:induction false} FilterInsert<T>(s: seq<T>, x: T, keep: T -> bool, key: T -> int)
    requires Sorted(s, key)
    ensures Filter(Insert(s, x, key), keep)
         == if keep(x) then Insert(Filter(s, keep), x, key) else Filter(s, keep)
  {
    var kept := Filter(s, keep);
    if s == [] || key(s[|s| - 1]) <= key(x) {
      assert (s + [x])[..|s|] == s;
      if kept != [] {
        FilterMember(s, keep, kept[|kept| - 1]);
        var i :| 0 <= i < |s| && s[i] == kept[|kept| - 1];
        assert key(s[i]) <= key(x);
      }
    } else {
      var front := s[..|s| - 1];
      var last := s[|s| - 1];
      FilterInsert(front, x, keep, key);
      var grown := Insert(front, x, key);
      assert (grown + [last])[..|grown|] == grown;
      if keep(last) && keep(x) {
        assert kept[..|kept| - 1] == Filter(front, keep);
      }
    }
  }

  /** Dropping elements commutes with sorting: sorting the survivors equals
      dropping the dead from the sorted whole. */
  lemma {:induction false} FilterSort<T>(s: seq<T>, keep: T -> bool, key: T -> int)
    ensures Filter(SliceStable(s, key), keep) == SliceStable(Filter(s, keep), key)
  {
    if s != [] {
      var front := s[..|s| - 1];
      var last := s[|s| - 1];
      FilterSort(front, keep, key);
      SliceStableSorted(front, key);
      FilterInsert(SliceStable(front, key), last, keep, key);
      if keep(last) {
        var kept := Filter(front, keep);
        assert (kept + [last])[..|kept|] == kept;
      }
    }
  }

  /** SliceStable is stable: for every key, the elements with that key come out
      in the order they went in. */
  lemma {:induction false} SliceStableIsStable<T>(s: seq<T>, key: T -> int, k: int)
    ensures WithKey(SliceStable(s, key), key, k) == WithKey(s, key, k)
  {
    var keep := HasKey(key, k);
    FilterSort(s, keep, key);
    var kept := Filter(s, keep);
    forall i, j | 0 <= i < j < |kept| ensures key(kept[i]) <= key(kept[j]) {
      FilterMember(s, keep, kept[i]);
      FilterMember(s, keep, kept[j]);
    }
    SortedIsFixed(kept, key);
  }

  /** A sorted sequence is settled by its elements key by key, so SliceStable is
      the only stable sort there is. */
  lemma {:induction false} StableSortUnique<T>(r: seq<T>, q: seq<T>, key: T -> int)
    requires Sorted(r, key) && Sorted(q, key)
    requires forall k :: WithKey(r, key, k) == WithKey(q, key, k)
    ensures r == q
    decreases |r|
  {
    if r == [] {
      if q != [] {
        SameLast(q, r, key);
      }
    } else {
      SameLast(r, q, key);
      SameLast(q, r, key);
      var r', q', last := r[..|r| - 1], q[..|q| - 1], r[|r| - 1];
      assert r == r' + [last] && q == q' + [last];
      forall k ensures WithKey(r', key, k) == WithKey(q', key, k) {
        assert WithKey(r, key, k) == WithKey(q, key, k);
        if key(last) == k {
          var all := WithKey(r, key, k);
          assert all[..|all| - 1] == WithKey(r', key, k);
          assert all[..|all| - 1] == WithKey(q', key, k);
        }
      }
      StableSortUnique(r', q', key);
    }
  }

  /** The last element of `r` has a key that occurs in `q`, and when it is also
      the greatest key there, both end in the same element. */
  lemma SameLast<T>(r: seq<T>, q: seq<T>, key: T -> int)
    requires Sorted(r, key) && Sorted(q, key) && r != []
    requires forall k :: WithKey(r, key, k) == WithKey(q, key, k)
    ensures q != [] && key(r[|r| - 1]) <= key(q[|q| - 1])
    ensures key(q[|q| - 1]) <= key(r[|r| - 1]) ==> r[|r| - 1] == q[|q| - 1]
  {
    var last := r[|r| - 1];
    var k := key(last);
    var same := WithKey(r, key, k);
    assert same == WithKey(q, key, k);
    assert same[|same| - 1] == last;
    FilterMember(q, HasKey(key, k), last);
    var i :| 0 <= i < |q| && q[i] == last;
  }

  lemma {:induction false} InsertMember<T>(s: seq<T>, x: T, key: T -> int, y: T)
    ensures y in Insert(s, x, key) <==> y in s || y == x
  {
    if s != [] && key(s[|s| - 1]) > key(x) {
      InsertMember(s[..|s| - 1], x, key, y);
      assert s == s[..|s| - 1] + [s[|s| - 1]];
    }
  }

  lemma {:induction false} SliceStableMember<T>(s: seq<T>, key: T -> int, y: T)
    ensures y in SliceStable(s, key) <==> y in s
  {
    if s != [] {
      SliceStableMember(s[..|s| - 1], key, y);
      InsertMember(SliceStable(s[..|s| - 1], key), s[|s| - 1], key, y);
      assert s == s[..|s| - 1] + [s[|s| - 1]];
    }
  }
}
