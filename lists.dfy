/** The array operations every store is built from, over sequences:
    `findIndex`, `find`, index-assign of the first match, `splice` of the
    first match, `filter`, and the remove-then-insert move. Records are
    matched on a string key (their `id` or `name`). */
module Lists {
  import opened Common

  /** `i` is the index of the first element of `s` whose key is `id`. */
  ghost predicate IsFirstMatch<T>(s: seq<T>, key: T -> string, id: string, i: int) {
    0 <= i < |s| && key(s[i]) == id && forall j :: 0 <= j < i ==> key(s[j]) != id
  }

  /** No element of `s` has key `id`. */
  ghost predicate NoMatch<T>(s: seq<T>, key: T -> string, id: string) {
    forall j :: 0 <= j < |s| ==> key(s[j]) != id
  }

  /** The keys of `s` are pairwise distinct. */
  ghost predicate DistinctKeys<T>(s: seq<T>, key: T -> string) {
    forall i, j :: 0 <= i < j < |s| ==> key(s[i]) != key(s[j])
  }

  /** `Array.prototype.findIndex` on a key: the first match, or `None` for -1. */
  function FindIndex<T>(s: seq<T>, key: T -> string, id: string): (r: Option<nat>)
    ensures r.Some? ==> IsFirstMatch(s, key, id, r.value)
    ensures r.None? ==> NoMatch(s, key, id)
  {
    if s == [] then None
    else if key(s[0]) == id then Some(0)
    else match FindIndex(s[1..], key, id)
      case None => None
      case Some(k) => Some(k + 1)
  }

  /** `Array.prototype.find(...) ?? null` on a key. */
  function Find<T>(s: seq<T>, key: T -> string, id: string): (r: Option<T>)
    ensures r.None? <==> NoMatch(s, key, id)
    ensures r.Some? ==> exists i :: IsFirstMatch(s, key, id, i) && s[i] == r.value
  {
    match FindIndex(s, key, id)
    case None => None
    case Some(i) => Some(s[i])
  }

  /** When keys are distinct, looking up an element's key finds that element. */
  lemma FindDistinct<T>(s: seq<T>, key: T -> string, i: int)
    requires DistinctKeys(s, key) && 0 <= i < |s|
    ensures Find(s, key, key(s[i])) == Some(s[i])
  {
    var r := Find(s, key, key(s[i]));
    assert !NoMatch(s, key, key(s[i]));
    var k :| IsFirstMatch(s, key, key(s[i]), k) && s[k] == r.value;
    assert !(k < i) && !(i < k);
  }

  /** Replace the first element whose key is `id` by `f` of it; no match
      leaves `s` as it is. */
  function UpdateFirst<T>(s: seq<T>, key: T -> string, id: string, f: T -> T): (r: seq<T>)
    ensures |r| == |s|
    ensures NoMatch(s, key, id) ==> r == s
    ensures forall i :: IsFirstMatch(s, key, id, i) ==>
      r[i] == f(s[i]) && forall j :: 0 <= j < |s| && j != i ==> r[j] == s[j]
  {
    match FindIndex(s, key, id)
    case None => s
    case Some(i) => s[i := f(s[i])]
  }

  /** `s.splice(i, 1)` for an index of `s`. */
  function RemoveAt<T>(s: seq<T>, i: nat): (r: seq<T>)
    requires i < |s|
    ensures |r| == |s| - 1
    ensures forall j :: 0 <= j < i ==> r[j] == s[j]
    ensures forall j :: i <= j < |r| ==> r[j] == s[j + 1]
  {
    s[..i] + s[i + 1..]
  }

  /** Remove the first element whose key is `id`; no match leaves `s` as it is. */
  function RemoveFirst<T>(s: seq<T>, key: T -> string, id: string): (r: seq<T>)
    ensures NoMatch(s, key, id) ==> r == s
    ensures forall i :: IsFirstMatch(s, key, id, i) ==> r == RemoveAt(s, i)
  {
    match FindIndex(s, key, id)
    case None => s
    case Some(i) => RemoveAt(s, i)
  }

  /** Removing the first match takes exactly one occurrence of it out. */
  lemma RemoveFirstMultiset<T>(s: seq<T>, key: T -> string, id: string, i: int)
    requires IsFirstMatch(s, key, id, i)
    ensures |RemoveFirst(s, key, id)| == |s| - 1
    ensures multiset(RemoveFirst(s, key, id)) + multiset{s[i]} == multiset(s)
  {
    assert s == s[..i] + [s[i]] + s[i + 1..];
  }

  /** Removing the first match shortens by one exactly when there is a match. */
  lemma RemoveFirstLength<T>(s: seq<T>, key: T -> string, id: string)
    ensures !NoMatch(s, key, id) ==> |RemoveFirst(s, key, id)| == |s| - 1
    ensures NoMatch(s, key, id) ==> |RemoveFirst(s, key, id)| == |s|
  {
    var r := FindIndex(s, key, id);
    if r.Some? {
      RemoveFirstMultiset(s, key, id, r.value);
    }
  }

  /** An element appended under a fresh key is what a lookup of that key finds. */
  lemma {:induction false} FindAfterAppend<T>(s: seq<T>, key: T -> string, x: T)
    requires NoMatch(s, key, key(x))
    ensures Find(s + [x], key, key(x)) == Some(x)
  {
    var t := s + [x];
    forall k | 0 <= k < |s| ensures key(t[k]) != key(x) {
      assert t[k] == s[k];
    }
    assert IsFirstMatch(t, key, key(x), |s|);
  }

  /** With distinct keys, nothing keyed `id` is left after removing `id`. */
  lemma RemoveFirstThenNotFound<T>(s: seq<T>, key: T -> string, id: string)
    requires DistinctKeys(s, key)
    ensures Find(RemoveFirst(s, key, id), key, id) == None
  {
    var r := RemoveFirst(s, key, id);
    match FindIndex(s, key, id)
    case None =>
    case Some(i) =>
      forall j | 0 <= j < |r| ensures key(r[j]) != id {
        if j < i {
          assert r[j] == s[j];
        } else {
          assert r[j] == s[j + 1];
          assert key(s[i]) != key(s[j + 1]);
        }
      }
  }

  /** `Array.prototype.filter`. */
  function Filter<T>(s: seq<T>, p: T -> bool): (r: seq<T>)
    ensures |r| <= |s|
  {
    if s == [] then [] else (if p(s[0]) then [s[0]] else []) + Filter(s[1..], p)
  }

  /** The filter holds exactly the elements that pass. */
  lemma {:induction false} FilterMembers<T>(s: seq<T>, p: T -> bool)
    ensures forall i :: 0 <= i < |Filter(s, p)| ==> Filter(s, p)[i] in s && p(Filter(s, p)[i])
    ensures forall i :: 0 <= i < |s| && p(s[i]) ==> s[i] in Filter(s, p)
  {
    if s != [] {
      var head := if p(s[0]) then [s[0]] else [];
      var t := Filter(s[1..], p);
      FilterMembers(s[1..], p);
      assert Filter(s, p) == head + t;
      forall i | 0 <= i < |head + t| ensures (head + t)[i] in s && p((head + t)[i]) {
        if i < |head| {
          assert (head + t)[i] == s[0];
        } else {
          assert (head + t)[i] == t[i - |head|];
          assert t[i - |head|] in s[1..];
        }
      }
      forall i | 0 <= i < |s| && p(s[i]) ensures s[i] in head + t {
        if i > 0 {
          assert s[i] == s[1..][i - 1];
        }
      }
    }
  }

  lemma Associate<T>(x: seq<T>, y: seq<T>, z: seq<T>)
    ensures x + (y + z) == (x + y) + z
  {
  }

  /** One filtering step: the head is kept exactly when it passes. */
  lemma FilterCons<T>(x: T, s: seq<T>, p: T -> bool)
    ensures Filter([x] + s, p) == (if p(x) then [x] else []) + Filter(s, p)
  {
    assert ([x] + s)[0] == x;
    assert ([x] + s)[1..] == s;
  }

  /** Filtering a concatenation filters each part and keeps them in order. */
  lemma {:induction false} FilterAppend<T>(a: seq<T>, b: seq<T>, p: T -> bool)
    ensures Filter(a + b, p) == Filter(a, p) + Filter(b, p)
  {
    if a == [] {
      assert a + b == b;
    } else {
      var t := a[1..];
      assert a == [a[0]] + t;
      assert a + b == [a[0]] + (t + b);
      var head := if p(a[0]) then [a[0]] else [];
      FilterCons(a[0], t + b, p);
      FilterCons(a[0], t, p);
      FilterAppend(t, b, p);
      Associate(head, Filter(t, p), Filter(b, p));
    }
  }

  /** Filtering keeps exactly the satisfying occurrences, so the result is a
      sub-multiset of the input of the same satisfying part. */
  lemma {:induction false} FilterMultiset<T>(s: seq<T>, p: T -> bool)
    ensures multiset(Filter(s, p)) <= multiset(s)
    ensures forall x :: p(x) ==> multiset(Filter(s, p))[x] == multiset(s)[x]
  {
    if s != [] {
      FilterMultiset(s[1..], p);
      assert s == [s[0]] + s[1..];
    }
  }

  /** A filter that every element passes keeps the sequence as it is. */
  lemma {:induction false} FilterAll<T>(s: seq<T>, p: T -> bool)
    requires forall i :: 0 <= i < |s| ==> p(s[i])
    ensures Filter(s, p) == s
  {
    if s != [] {
      FilterAll(s[1..], p);
    }
  }

  /** A filter that no element passes gives the empty sequence. */
  lemma {:induction false} FilterNone<T>(s: seq<T>, p: T -> bool)
    requires forall i :: 0 <= i < |s| ==> !p(s[i])
    ensures Filter(s, p) == []
  {
    if s != [] {
      FilterNone(s[1..], p);
    }
  }

  /** `Array.prototype.splice(start, ...)`'s reading of `start` against a
      length: negative values count from the end, and the result is clamped
      to `[0, len]`. */
  function SpliceStart(start: int, len: nat): (k: nat)
    ensures k <= len
    ensures 0 <= start <= len ==> k == start
    ensures start > len ==> k == len
    ensures -(len as int) <= start < 0 ==> k == len + start
    ensures start < -(len as int) ==> k == 0
  {
    if start < 0 then (if len + start < 0 then 0 else len + start)
    else if start > len then len
    else start
  }

  /** `s.splice(from, 1)` then `s.splice(to, 0, item)`: move one element. */
  function Move<T>(s: seq<T>, from: nat, to: nat): (r: seq<T>)
    requires from < |s| && to < |s|
    ensures |r| == |s|
    ensures r[to] == s[from]
    ensures RemoveAt(r, to) == RemoveAt(s, from)
  {
    var rest := RemoveAt(s, from);
    assert rest == rest[..to] + rest[to..];
    rest[..to] + [s[from]] + rest[to..]
  }

  /** A move rearranges the elements without adding or losing any. */
  lemma MovePermutes<T>(s: seq<T>, from: nat, to: nat)
    requires from < |s| && to < |s|
    ensures multiset(Move(s, from, to)) == multiset(s)
  {
    var rest := RemoveAt(s, from);
    var before, after := rest[..to], rest[to..];
    assert Move(s, from, to) == before + [s[from]] + after;
    MultisetAround(before, s[from], after);
    assert before + after == rest;
    assert multiset(rest) == multiset(before) + multiset(after);
    assert s == s[..from] + [s[from]] + s[from + 1..];
    MultisetAround(s[..from], s[from], s[from + 1..]);
    assert rest == s[..from] + s[from + 1..];
    assert multiset(Move(s, from, to)) == multiset(rest) + multiset{s[from]};
    assert multiset(s) == multiset(rest) + multiset{s[from]};
  }

  /** The elements of `a`, `x`, `b` are those of `a`, `b` and `x`. */
  lemma MultisetAround<T>(a: seq<T>, x: T, b: seq<T>)
    ensures multiset(a + [x] + b) == multiset(a) + multiset{x} + multiset(b)
  {
  }

  /** Every element passed through `setOrder` with its position plus one. */
  function Renumber<T>(s: seq<T>, setOrder: (T, int) -> T): (r: seq<T>)
    ensures |r| == |s|
    ensures forall i :: 0 <= i < |s| ==> r[i] == setOrder(s[i], i + 1)
  {
    seq(|s|, i requires 0 <= i < |s| => setOrder(s[i], i + 1))
  }

  /** `moveCategory`/`moveTag`: `s.splice(from, 1)` then `s.splice(to, 0, item)`
      with both starts read as `splice` reads them, then every element's
      order set to its index plus one. `from` must name an element: otherwise
      the removed item is `undefined` and the renumbering throws. */
  function MoveAndRenumber<T>(s: seq<T>, from: int, to: int, setOrder: (T, int) -> T): (r: seq<T>)
    requires |s| > 0 && from < |s|
    ensures |r| == |s|
  {
    var f := SpliceStart(from, |s|);
    var t := SpliceStart(to, |s| - 1);
    Renumber(Move(s, f, t), setOrder)
  }

  /** The moved list is a rearrangement of the old one, with the moved item at
      the target index, every item numbered by its position. */
  lemma MoveAndRenumberShape<T>(s: seq<T>, from: int, to: int, setOrder: (T, int) -> T)
    requires |s| > 0 && from < |s|
    ensures var f, t := SpliceStart(from, |s|), SpliceStart(to, |s| - 1);
      var moved := Move(s, f, t);
      && multiset(moved) == multiset(s)
      && moved[t] == s[f]
      && MoveAndRenumber(s, from, to, setOrder)[t] == setOrder(s[f], t + 1)
      && (forall i :: 0 <= i < |s| ==> MoveAndRenumber(s, from, to, setOrder)[i] == setOrder(moved[i], i + 1))
  {
    MovePermutes(s, SpliceStart(from, |s|), SpliceStart(to, |s| - 1));
  }
}
