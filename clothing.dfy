/** The clothing store: the ordered list of clothing items, the selected item
    and the loading flag, with the getters as functions over the list and the
    actions as methods that update the store's fields. */
module ClothingStore {
  import opened Common
  import opened Types
  import opened Lists

  /** An item is active unless its status is `archived`; no status counts as active. */
  predicate IsActive(c: Clothing) {
    c.status != Some(Archived)
  }

  /** `totalCount`: the number of items held. */
  function TotalCount(list: seq<Clothing>): nat {
    |list|
  }

  /** `activeClothing`: the items that are not archived, in list order. */
  function ActiveClothing(list: seq<Clothing>): (r: seq<Clothing>)
    ensures |r| <= |list|
    ensures forall i :: 0 <= i < |r| ==> IsActive(r[i]) && r[i] in list
    ensures forall i :: 0 <= i < |list| && IsActive(list[i]) ==> list[i] in r
  {
    FilterMembers(list, IsActive);
    Filter(list, IsActive)
  }

  /** The active view is order preserving: it is determined item by item,
      an item being kept exactly when it is active. */
  lemma ActiveClothingIsOrderedSubsequence(a: seq<Clothing>, b: seq<Clothing>, c: Clothing)
    ensures ActiveClothing(a + b) == ActiveClothing(a) + ActiveClothing(b)
    ensures ActiveClothing([c]) == if IsActive(c) then [c] else []
    ensures ActiveClothing([]) == []
  {
    FilterAppend(a, b, IsActive);
    assert [c][1..] == [];
  }

  /** Every item occurs in the active view as often as in the list, or not at all. */
  lemma ActiveClothingCounts(list: seq<Clothing>, c: Clothing)
    ensures IsActive(c) ==> multiset(ActiveClothing(list))[c] == multiset(list)[c]
    ensures !IsActive(c) ==> multiset(ActiveClothing(list))[c] == 0
  {
    FilterMultiset(list, IsActive);
    assert multiset(ActiveClothing(list))[c] != 0 ==> c in ActiveClothing(list);
  }

  /** `getClothingById`: the first item with that id, or null. */
  function GetClothingById(list: seq<Clothing>, id: string): (r: Option<Clothing>)
    ensures r.None? <==> NoMatch(list, ClothingId, id)
    ensures r.Some? ==> exists i :: IsFirstMatch(list, ClothingId, id, i) && list[i] == r.value
  {
    Find(list, ClothingId, id)
  }

  /** What `updateClothing` does to the matching item: spread the updates over
      it, then stamp `updatedAt` with the current time. */
  function Touch(updates: ClothingPatch, now: string): Clothing -> Clothing {
    c => SpreadClothing(c, updates).(updatedAt := now)
  }

  /** Updating a present id: the first match takes every supplied field and
      keeps every other one, `updatedAt` becomes `now`, and nothing else in
      the list changes. */
  lemma UpdateClothingAtFirstMatch(list: seq<Clothing>, id: string, updates: ClothingPatch, now: string, i: int)
    requires IsFirstMatch(list, ClothingId, id, i)
    ensures var r := UpdateFirst(list, ClothingId, id, Touch(updates, now));
      && |r| == |list|
      && r[i].updatedAt == now
      && r[i].(updatedAt := list[i].updatedAt) == SpreadClothing(list[i], updates.(updatedAt := None))
      && (forall j :: 0 <= j < |list| && j != i ==> r[j] == list[j])
  {
  }

  /** An item added under a fresh id is found by that id; once deleted (ids
      being distinct) it is not found any more. */
  lemma AddThenDelete(list: seq<Clothing>, c: Clothing)
    requires DistinctKeys(list, ClothingId) && NoMatch(list, ClothingId, c.id)
    ensures GetClothingById(list + [c], c.id) == Some(c)
    ensures GetClothingById(RemoveFirst(list + [c], ClothingId, c.id), c.id) == None
  {
    FindAfterAppend(list, ClothingId, c);
    var t := list + [c];
    forall i, j | 0 <= i < j < |t| ensures ClothingId(t[i]) != ClothingId(t[j]) {
      if j == |list| {
        assert ClothingId(t[i]) == ClothingId(list[i]);
      } else {
        assert ClothingId(t[i]) == ClothingId(list[i]) && ClothingId(t[j]) == ClothingId(list[j]);
      }
    }
    RemoveFirstThenNotFound(t, ClothingId, c.id);
  }

  /** The count follows the actions: one more after an add, one fewer after
      deleting a present id, the same after an update. */
  lemma TotalCountTracksActions(list: seq<Clothing>, c: Clothing, id: string, updates: ClothingPatch, now: string)
    ensures TotalCount(list + [c]) == TotalCount(list) + 1
    ensures TotalCount(UpdateFirst(list, ClothingId, id, Touch(updates, now))) == TotalCount(list)
    ensures !NoMatch(list, ClothingId, id) ==> TotalCount(RemoveFirst(list, ClothingId, id)) == TotalCount(list) - 1
    ensures NoMatch(list, ClothingId, id) ==> TotalCount(RemoveFirst(list, ClothingId, id)) == TotalCount(list)
  {
    RemoveFirstLength(list, ClothingId, id);
  }

  class Store {
    var clothingList: seq<Clothing>
    var selectedId: Option<string>
    var isLoading: bool

    constructor ()
      ensures clothingList == [] && selectedId == None && !isLoading
    {
      clothingList := [];
      selectedId := None;
      isLoading := false;
    }

    /** `setClothingList`: replace the whole list. */
    method SetClothingList(list: seq<Clothing>)
      modifies this`clothingList
      ensures clothingList == list
    {
      clothingList := list;
    }

    /** `addClothing`: append at the end, with no check of the id. */
    method AddClothing(clothing: Clothing)
      modifies this`clothingList
      ensures clothingList == old(clothingList) + [clothing]
    {
      clothingList := clothingList + [clothing];
    }

    /** `updateClothing`: merge `updates` into the first item with that id and
      stamp it with `now`; an unknown id changes nothing. */
    method UpdateClothing(id: string, updates: ClothingPatch, now: string)
      modifies this`clothingList
      ensures clothingList == UpdateFirst(old(clothingList), ClothingId, id, Touch(updates, now))
    {
      var index := FindIndex(clothingList, ClothingId, id);
      if index.Some? {
        var i := index.value;
        var updated := SpreadClothing(clothingList[i], updates).(updatedAt := now);
        assert Touch(updates, now)(clothingList[i]) == updated;
        assert UpdateFirst(clothingList, ClothingId, id, Touch(updates, now)) == clothingList[i := updated];
        clothingList := clothingList[i := updated];
      }
    }

    /** `deleteClothing`: remove the first item with that id, if any. */
    method DeleteClothing(id: string)
      modifies this`clothingList
      ensures clothingList == RemoveFirst(old(clothingList), ClothingId, id)
    {
      var index := FindIndex(clothingList, ClothingId, id);
      if index.Some? {
        clothingList := RemoveAt(clothingList, index.value);
      }
    }

    /** `loadFromStorage`: raise the loading flag, take the stored list when
      there is one, swallow a host error, and always lower the flag again. */
    method LoadFromStorage(stored: StoredValue<seq<Clothing>>)
      modifies this`clothingList, this`isLoading
      ensures !isLoading
      ensures stored.Found? ==> clothingList == stored.value
      ensures !stored.Found? ==> clothingList == old(clothingList)
    {
      isLoading := true;
      match stored {
        case Found(value) =>
          clothingList := value;
        case Missing =>
        case HostThrew(_) =>
      }
      isLoading := false;
    }
  }
}
