/** The merge behind `allCategories` and `allTags`: start from a copy of the
    defaults, let each custom entry in turn replace, in place, the first entry
    with the same name or else join at the end, then sort by `order`. */
module Overlays {
  import opened Common
  import opened Lists
  import opened Sorting

  /** One step of the merge loop for the entry `x`. */
  function Place<T>(combined: seq<T>, x: T, name: T -> string): (r: seq<T>)
    ensures |combined| <= |r| <= |combined| + 1
    ensures x in r
    ensures forall i :: 0 <= i < |combined| ==> name(r[i]) == name(combined[i]) && (r[i] == combined[i] || r[i] == x)
    ensures forall i :: |combined| <= i < |r| ==> r[i] == x
    ensures NoMatch(combined, name, name(x)) <==> |r| == |combined| + 1
    ensures DistinctKeys(combined, name) ==> DistinctKeys(r, name)
  {
    match FindIndex(combined, name, name(x))
    case None => combined + [x]
    case Some(i) =>
      assert combined[i := x][i] == x;
      combined[i := x]
  }

  /** The merge loop over all of `customs`. */
  function Overlay<T>(combined: seq<T>, customs: seq<T>, name: T -> string): (r: seq<T>)
    ensures |combined| <= |r| <= |combined| + |customs|
    decreases |customs|
  {
    if customs == [] then combined
    else Overlay(Place(combined, customs[0], name), customs[1..], name)
  }

  /** The names occurring in `s`. */
  function Names<T>(s: seq<T>, name: T -> string): set<string> {
    set i | 0 <= i < |s| :: name(s[i])
  }

  /** The names of `s`, in order. */
  function NameList<T>(s: seq<T>, name: T -> string): (r: seq<string>)
    ensures |r| == |s|
  {
    seq(|s|, i requires 0 <= i < |s| => name(s[i]))
  }

  /** The name list holds exactly the names, each once when they are distinct. */
  lemma NameListMembers<T>(s: seq<T>, name: T -> string)
    ensures forall x :: x in NameList(s, name) <==> x in Names(s, name)
    ensures DistinctKeys(s, name) ==> forall i, j :: 0 <= i < j < |s| ==> NameList(s, name)[i] != NameList(s, name)[j]
  {
    var r := NameList(s, name);
    forall x | x in Names(s, name) ensures x in r {
      var i :| 0 <= i < |s| && name(s[i]) == x;
      assert r[i] == x;
    }
  }

  /** The shape of the merge: the defaults keep their positions and names,
      each either kept or replaced by a custom entry, and whatever follows
      them is custom entries appended, at most one per custom entry. */
  lemma {:induction false} OverlayShape<T>(combined: seq<T>, customs: seq<T>, name: T -> string)
    ensures var r := Overlay(combined, customs, name);
      && |combined| <= |r| <= |combined| + |customs|
      && (forall i :: 0 <= i < |combined| ==> name(r[i]) == name(combined[i]) && (r[i] == combined[i] || r[i] in customs))
      && (forall i :: |combined| <= i < |r| ==> r[i] in customs)
    decreases |customs|
  {
    if customs != [] {
      var x := customs[0];
      var next := Place(combined, x, name);
      var r := Overlay(next, customs[1..], name);
      assert r == Overlay(combined, customs, name);
      OverlayShape(next, customs[1..], name);
      assert forall y :: y in customs[1..] ==> y in customs;
      forall i | 0 <= i < |combined|
        ensures name(r[i]) == name(combined[i]) && (r[i] == combined[i] || r[i] in customs)
      {
        assert name(r[i]) == name(next[i]);
      }
      forall i | |combined| <= i < |r| ensures r[i] in customs {
        if i < |next| {
          assert r[i] == next[i] || r[i] in customs[1..];
        }
      }
    }
  }

  /** A default whose name no custom entry has stays where it was. */
  lemma {:induction false} OverlayKeepsUnshadowed<T>(combined: seq<T>, customs: seq<T>, name: T -> string, i: int)
    requires 0 <= i < |combined| && NoMatch(customs, name, name(combined[i]))
    ensures Overlay(combined, customs, name)[i] == combined[i]
    decreases |customs|
  {
    OverlayShape(combined, customs, name);
    if customs != [] {
      var next := Place(combined, customs[0], name);
      assert name(next[i]) == name(combined[i]) != name(customs[0]);
      assert next[i] == combined[i];
      assert NoMatch(customs[1..], name, name(next[i])) by {
        assert forall j :: 0 <= j < |customs[1..]| ==> customs[1..][j] == customs[j + 1];
      }
      OverlayKeepsUnshadowed(next, customs[1..], name, i);
    }
  }

  /** Distinct names stay distinct through the merge. */
  lemma {:induction false} OverlayDistinct<T>(combined: seq<T>, customs: seq<T>, name: T -> string)
    requires DistinctKeys(combined, name)
    ensures DistinctKeys(Overlay(combined, customs, name), name)
    decreases |customs|
  {
    if customs != [] {
      OverlayDistinct(Place(combined, customs[0], name), customs[1..], name);
    }
  }

  /** The merge's names are the defaults' names and the custom names. */
  lemma {:induction false} OverlayNames<T>(combined: seq<T>, customs: seq<T>, name: T -> string)
    ensures Names(Overlay(combined, customs, name), name) == Names(combined, name) + Names(customs, name)
    decreases |customs|
  {
    if customs != [] {
      var x := customs[0];
      var next := Place(combined, x, name);
      OverlayNames(next, customs[1..], name);
      PlaceNames(combined, x, name);
      assert Names(customs, name) == {name(x)} + Names(customs[1..], name) by {
        forall n | n in Names(customs, name) ensures n in {name(x)} + Names(customs[1..], name) {
          var i :| 0 <= i < |customs| && name(customs[i]) == n;
          if i > 0 {
            assert customs[1..][i - 1] == customs[i];
          }
        }
        forall n | n in Names(customs[1..], name) ensures n in Names(customs, name) {
          var i :| 0 <= i < |customs[1..]| && name(customs[1..][i]) == n;
          assert customs[i + 1] == customs[1..][i];
        }
      }
    }
  }

  lemma PlaceNames<T>(combined: seq<T>, x: T, name: T -> string)
    ensures Names(Place(combined, x, name), name) == Names(combined, name) + {name(x)}
  {
    var r := Place(combined, x, name);
    forall n | n in Names(r, name) ensures n in Names(combined, name) + {name(x)} {
      var i :| 0 <= i < |r| && name(r[i]) == n;
      if i < |combined| {
        assert name(combined[i]) == n;
      }
    }
    forall n | n in Names(combined, name) ensures n in Names(r, name) {
      var i :| 0 <= i < |combined| && name(combined[i]) == n;
      assert name(r[i]) == n;
    }
    var k :| 0 <= k < |r| && r[k] == x;
    assert name(r[k]) == name(x);
  }

  /** Merging one more entry is one more step of the loop. */
  lemma {:induction false} OverlaySnoc<T>(combined: seq<T>, customs: seq<T>, x: T, name: T -> string)
    ensures Overlay(combined, customs + [x], name) == Place(Overlay(combined, customs, name), x, name)
    decreases |customs|
  {
    if customs == [] {
      assert [] + [x] == [x];
      assert [x][1..] == [];
    } else {
      assert (customs + [x])[0] == customs[0];
      assert (customs + [x])[1..] == customs[1..] + [x];
      OverlaySnoc(Place(combined, customs[0], name), customs[1..], x, name);
    }
  }

  /** Over defaults with distinct names, the last custom entry is what the
      merge holds under its name. */
  lemma LastCustomWins<T>(combined: seq<T>, customs: seq<T>, x: T, name: T -> string)
    requires DistinctKeys(combined, name)
    ensures Find(Overlay(combined, customs + [x], name), name, name(x)) == Some(x)
  {
    OverlaySnoc(combined, customs, x, name);
    OverlayDistinct(combined, customs, name);
    var r := Overlay(combined, customs + [x], name);
    OverlayDistinct(combined, customs + [x], name);
    var k :| 0 <= k < |r| && r[k] == x;
    FindDistinct(r, name, k);
  }

  /** The merged list: the merge loop over the defaults, sorted by `order`. */
  function Merged<T>(defaults: seq<T>, customs: seq<T>, name: T -> string, order: T -> int): seq<T> {
    SortBy(Overlay(defaults, customs, name), order)
  }

  /** What the merged list is: the merge loop's entries, each once, in
      ascending order; at least the defaults' count and at most that plus the
      customs' count; names distinct when the defaults' are. */
  lemma MergedProperties<T>(defaults: seq<T>, customs: seq<T>, name: T -> string, order: T -> int)
    ensures var r := Merged(defaults, customs, name, order);
      && multiset(r) == multiset(Overlay(defaults, customs, name))
      && SortedBy(r, order)
      && |defaults| <= |r| <= |defaults| + |customs|
      && (DistinctKeys(defaults, name) ==> DistinctKeys(r, name))
  {
    var o := Overlay(defaults, customs, name);
    SortMultiset(o, order);
    SortSorted(o, order);
    OverlayShape(defaults, customs, name);
    if DistinctKeys(defaults, name) {
      OverlayDistinct(defaults, customs, name);
      SortDistinct(o, order, name);
    }
  }

  /** The entries of the merged list and their names: the name of every
      entry comes from the defaults or the customs and every such name occurs;
      a default no custom entry shadows is listed. */
  lemma MergedMembers<T>(defaults: seq<T>, customs: seq<T>, name: T -> string, order: T -> int)
    ensures Names(Merged(defaults, customs, name, order), name) == Names(defaults, name) + Names(customs, name)
    ensures forall i :: 0 <= i < |defaults| && NoMatch(customs, name, name(defaults[i])) ==>
      defaults[i] in Merged(defaults, customs, name, order)
  {
    var o := Overlay(defaults, customs, name);
    var r := Merged(defaults, customs, name, order);
    SortMultiset(o, order);
    OverlayNames(defaults, customs, name);
    forall n | n in Names(r, name) ensures n in Names(o, name) {
      var i :| 0 <= i < |r| && name(r[i]) == n;
      assert r[i] in multiset(o);
      var j :| 0 <= j < |o| && o[j] == r[i];
    }
    forall n | n in Names(o, name) ensures n in Names(r, name) {
      var i :| 0 <= i < |o| && name(o[i]) == n;
      assert o[i] in multiset(r);
      var j :| 0 <= j < |r| && r[j] == o[i];
    }
    forall i | 0 <= i < |defaults| && NoMatch(customs, name, name(defaults[i]))
      ensures defaults[i] in r
    {
      OverlayShape(defaults, customs, name);
      OverlayKeepsUnshadowed(defaults, customs, name, i);
      assert o[i] in multiset(r);
    }
  }

  /** Over defaults with distinct names, a lookup of the last custom entry's
      name in the merged list finds that entry; a name neither the defaults
      nor the customs have is not found. */
  lemma MergedFind<T>(defaults: seq<T>, customs: seq<T>, x: T, n: string, name: T -> string, order: T -> int)
    requires DistinctKeys(defaults, name)
    ensures Find(Merged(defaults, customs + [x], name, order), name, name(x)) == Some(x)
    ensures NoMatch(defaults, name, n) && NoMatch(customs, name, n) ==>
      Find(Merged(defaults, customs, name, order), name, n) == None
  {
    var cs := customs + [x];
    var o := Overlay(defaults, cs, name);
    var r := Merged(defaults, cs, name, order);
    LastCustomWins(defaults, customs, x, name);
    MergedProperties(defaults, cs, name, order);
    SortMultiset(o, order);
    assert x in multiset(r);
    var k :| 0 <= k < |r| && r[k] == x;
    FindDistinct(r, name, k);
    if NoMatch(defaults, name, n) && NoMatch(customs, name, n) {
      MergedMembers(defaults, customs, name, order);
      var m := Merged(defaults, customs, name, order);
      assert n !in Names(defaults, name) && n !in Names(customs, name);
      forall i | 0 <= i < |m| ensures name(m[i]) != n {
        assert name(m[i]) in Names(m, name);
      }
    }
  }

  /** An entry whose name is new and whose order is at least every other
      entry's joins the merged list at the end. */
  lemma MergedAppendFresh<T>(defaults: seq<T>, customs: seq<T>, x: T, name: T -> string, order: T -> int)
    requires NoMatch(defaults, name, name(x)) && NoMatch(customs, name, name(x))
    requires forall i :: 0 <= i < |defaults| ==> order(defaults[i]) <= order(x)
    requires forall i :: 0 <= i < |customs| ==> order(customs[i]) <= order(x)
    ensures Merged(defaults, customs + [x], name, order) == Merged(defaults, customs, name, order) + [x]
  {
    var o := Overlay(defaults, customs, name);
    OverlaySnoc(defaults, customs, x, name);
    OverlayNames(defaults, customs, name);
    assert name(x) !in Names(defaults, name) + Names(customs, name);
    assert NoMatch(o, name, name(x)) by {
      forall i | 0 <= i < |o| ensures name(o[i]) != name(x) {
        assert name(o[i]) in Names(o, name);
      }
    }
    assert Place(o, x, name) == o + [x];
    OverlayShape(defaults, customs, name);
    var sorted := SortBy(o, order);
    assert (o + [x])[..|o|] == o;
    assert SortBy(o + [x], order) == Insert(x, sorted, order);
    SortMultiset(o, order);
    forall k | 0 <= k < |sorted| ensures order(sorted[k]) <= order(x) {
      assert sorted[k] in multiset(o);
      var j :| 0 <= j < |o| && o[j] == sorted[k];
      if j < |defaults| && o[j] == defaults[j] {
      } else {
        assert o[j] in customs;
      }
    }
    InsertAtEnd(x, sorted, order);
  }
}
