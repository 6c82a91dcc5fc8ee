/** `Array.prototype.sort((a, b) => key(a) - key(b))`: the runtime's sort is
    stable, so it is modelled by a stable insertion sort on an integer key. */
module Sorting {
  import opened Lists

  /** Keys ascend along `s`. */
  ghost predicate SortedBy<T>(s: seq<T>, key: T -> int) {
    forall i, j :: 0 <= i < j < |s| ==> key(s[i]) <= key(s[j])
  }

  /** Put `x` after the leading elements whose key is at most its own. */
  function Insert<T>(x: T, s: seq<T>, key: T -> int): (r: seq<T>)
    ensures |r| == |s| + 1
  {
    if s == [] then [x]
    else if key(x) < key(s[0]) then [x] + s
    else [s[0]] + Insert(x, s[1..], key)
  }

  /** The stable sort of `s` by `key`. */
  function SortBy<T>(s: seq<T>, key: T -> int): (r: seq<T>)
    ensures |r| == |s|
  {
    if s == [] then [] else Insert(s[|s| - 1], SortBy(s[..|s| - 1], key), key)
  }

  /** The test "has key `k`". */
  function HasKey<T>(key: T -> int, k: int): T -> bool {
    x => key(x) == k
  }

  lemma {:induction false} InsertMultiset<T>(x: T, s: seq<T>, key: T -> int)
    ensures multiset(Insert(x, s, key)) == multiset(s) + multiset{x}
  {
    if s != [] && key(x) >= key(s[0]) {
      InsertMultiset(x, s[1..], key);
      assert s == [s[0]] + s[1..];
    }
  }

  lemma {:induction false} InsertLowerBound<T>(x: T, s: seq<T>, key: T -> int, b: int)
    requires b <= key(x)
    requires forall i :: 0 <= i < |s| ==> b <= key(s[i])
    ensures forall j :: 0 <= j < |s| + 1 ==> b <= key(Insert(x, s, key)[j])
  {
    if s != [] && key(x) >= key(s[0]) {
      InsertLowerBound(x, s[1..], key, b);
    }
  }

  lemma {:induction false} InsertSorted<T>(x: T, s: seq<T>, key: T -> int)
    requires SortedBy(s, key)
    ensures SortedBy(Insert(x, s, key), key)
  {
    if s != [] && key(x) >= key(s[0]) {
      InsertSorted(x, s[1..], key);
      InsertLowerBound(x, s[1..], key, key(s[0]));
    }
  }

  /** Inserting in front of larger keys keeps the order of equal keys. */
  lemma InsertStableFront<T>(x: T, s: seq<T>, key: T -> int, k: int)
    requires SortedBy(s, key) && s != [] && key(x) < key(s[0])
    ensures Filter(Insert(x, s, key), HasKey(key, k))
         == Filter(s, HasKey(key, k)) + (if key(x) == k then [x] else [])
  {
    var p := HasKey(key, k);
    assert Insert(x, s, key) == [x] + s;
    FilterCons(x, s, p);
    if key(x) == k {
      assert forall i :: 0 <= i < |s| ==> key(s[0]) <= key(s[i]);
      FilterNone(s, p);
    }
  }

  /** Inserting into a sorted sequence puts `x` after every element of equal key. */
  lemma {:induction false} InsertStable<T>(x: T, s: seq<T>, key: T -> int, k: int)
    requires SortedBy(s, key)
    ensures Filter(Insert(x, s, key), HasKey(key, k))
         == Filter(s, HasKey(key, k)) + (if key(x) == k then [x] else [])
  {
    var p := HasKey(key, k);
    var tail := if key(x) == k then [x] else [];
    if s == [] {
      assert Insert(x, s, key) == [x] + [];
      FilterCons(x, [], p);
    } else if key(x) < key(s[0]) {
      InsertStableFront(x, s, key, k);
    } else {
      var head := if p(s[0]) then [s[0]] else [];
      var rest := Insert(x, s[1..], key);
      assert Insert(x, s, key) == [s[0]] + rest;
      assert s == [s[0]] + s[1..];
      FilterCons(s[0], rest, p);
      FilterCons(s[0], s[1..], p);
      InsertStable(x, s[1..], key, k);
      Associate(head, Filter(s[1..], p), tail);
    }
  }

  /** The sort is a permutation of its input. */
  lemma {:induction false} SortMultiset<T>(s: seq<T>, key: T -> int)
    ensures multiset(SortBy(s, key)) == multiset(s)
  {
    if s != [] {
      var init := s[..|s| - 1];
      SortMultiset(init, key);
      InsertMultiset(s[|s| - 1], SortBy(init, key), key);
      assert s == init + [s[|s| - 1]];
    }
  }

  /** The sort's output ascends by key. */
  lemma {:induction false} SortSorted<T>(s: seq<T>, key: T -> int)
    ensures SortedBy(SortBy(s, key), key)
  {
    if s != [] {
      SortSorted(s[..|s| - 1], key);
      InsertSorted(s[|s| - 1], SortBy(s[..|s| - 1], key), key);
    }
  }

  /** The sort is stable: the elements of any one key keep their relative order. */
  lemma {:induction false} SortStable<T>(s: seq<T>, key: T -> int, k: int)
    ensures Filter(SortBy(s, key), HasKey(key, k)) == Filter(s, HasKey(key, k))
  {
    if s != [] {
      var init, last := s[..|s| - 1], s[|s| - 1];
      var p := HasKey(key, k);
      var tail := if key(last) == k then [last] else [];
      assert SortBy(s, key) == Insert(last, SortBy(init, key), key);
      SortStable(init, key, k);
      SortSorted(init, key);
      InsertStable(last, SortBy(init, key), key, k);
      assert s == init + [last];
      FilterAppend(init, [last], p);
      assert [last] == [last] + [];
      FilterCons(last, [], p);
    }
  }

  /** A sequence that already ascends is left as it is. */
  lemma {:induction false} SortOfSorted<T>(s: seq<T>, key: T -> int)
    requires SortedBy(s, key)
    ensures SortBy(s, key) == s
  {
    if s != [] {
      var init, last := s[..|s| - 1], s[|s| - 1];
      SortOfSorted(init, key);
      InsertAtEnd(last, init, key);
      assert s == init + [last];
    }
  }

  lemma {:induction false} InsertAtEnd<T>(x: T, s: seq<T>, key: T -> int)
    requires forall i :: 0 <= i < |s| ==> key(s[i]) <= key(x)
    ensures Insert(x, s, key) == s + [x]
  {
    if s != [] {
      InsertAtEnd(x, s[1..], key);
      assert s == [s[0]] + s[1..];
    }
  }

  /** Inserting an element whose name no element of `s` has keeps names distinct. */
  lemma {:induction false} InsertDistinct<T>(x: T, s: seq<T>, key: T -> int, name: T -> string)
    requires DistinctKeys(s, name)
    requires forall i :: 0 <= i < |s| ==> name(s[i]) != name(x)
    ensures DistinctKeys(Insert(x, s, key), name)
  {
    if s != [] && key(x) >= key(s[0]) {
      var rest := Insert(x, s[1..], key);
      InsertDistinct(x, s[1..], key, name);
      InsertMultiset(x, s[1..], key);
      assert Insert(x, s, key) == [s[0]] + rest;
      forall k | 0 <= k < |rest| ensures name(rest[k]) != name(s[0]) {
        assert rest[k] in multiset(s[1..]) + multiset{x};
        if rest[k] != x {
          assert rest[k] in s[1..];
        }
      }
    }
  }

  /** Sorting keeps the names of a sequence distinct. */
  lemma {:induction false} SortDistinct<T>(s: seq<T>, key: T -> int, name: T -> string)
    requires DistinctKeys(s, name)
    ensures DistinctKeys(SortBy(s, key), name)
  {
    if s != [] {
      var init, last := s[..|s| - 1], s[|s| - 1];
      var sorted := SortBy(init, key);
      SortDistinct(init, key, name);
      SortMultiset(init, key);
      forall k | 0 <= k < |sorted| ensures name(sorted[k]) != name(last) {
        assert sorted[k] in multiset(init);
        var j :| 0 <= j < |init| && init[j] == sorted[k];
        assert s[j] == init[j];
      }
      InsertDistinct(last, sorted, key, name);
    }
  }
}
