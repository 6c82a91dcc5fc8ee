/** The outfit store: the ordered list of outfits, the selected outfit and the
    loading flag. Outfits refer to clothing ids loosely: nothing checks them. */
module OutfitStore {
  import opened Common
  import opened Types
  import opened Lists

  /** `totalOutfits`: the number of outfits held. */
  function TotalOutfits(list: seq<Outfit>): nat {
    |list|
  }

  /** `getOutfitById`: the first outfit with that id, or null. */
  function GetOutfitById(list: seq<Outfit>, id: string): (r: Option<Outfit>)
    ensures r.None? <==> NoMatch(list, OutfitId, id)
    ensures r.Some? ==> exists i :: IsFirstMatch(list, OutfitId, id, i) && list[i] == r.value
  {
    Find(list, OutfitId, id)
  }

  /** What `updateOutfit` does to the matching outfit: spread the updates over
      it, then stamp `updatedAt` with the current time. */
  function Touch(updates: OutfitPatch, now: string): Outfit -> Outfit {
    o => SpreadOutfit(o, updates).(updatedAt := now)
  }

  /** Updating a present id: the first match takes every supplied field and
      keeps every other one, `updatedAt` becomes `now`, and nothing else in
      the list changes. */
  lemma UpdateOutfitAtFirstMatch(list: seq<Outfit>, id: string, updates: OutfitPatch, now: string, i: int)
    requires IsFirstMatch(list, OutfitId, id, i)
    ensures var r := UpdateFirst(list, OutfitId, id, Touch(updates, now));
      && |r| == |list|
      && r[i].updatedAt == now
      && r[i].(updatedAt := list[i].updatedAt) == SpreadOutfit(list[i], updates.(updatedAt := None))
      && (forall j :: 0 <= j < |list| && j != i ==> r[j] == list[j])
  {
  }

  /** The count follows the actions: one more after an add, one fewer after
      deleting a present id, the same after an update. */
  lemma TotalOutfitsTracksActions(list: seq<Outfit>, o: Outfit, id: string, updates: OutfitPatch, now: string)
    ensures TotalOutfits(list + [o]) == TotalOutfits(list) + 1
    ensures TotalOutfits(UpdateFirst(list, OutfitId, id, Touch(updates, now))) == TotalOutfits(list)
    ensures !NoMatch(list, OutfitId, id) ==> TotalOutfits(RemoveFirst(list, OutfitId, id)) == TotalOutfits(list) - 1
    ensures NoMatch(list, OutfitId, id) ==> TotalOutfits(RemoveFirst(list, OutfitId, id)) == TotalOutfits(list)
  {
    RemoveFirstLength(list, OutfitId, id);
  }

  /** An outfit added under a fresh id is what a lookup of that id finds. */
  lemma AddThenGet(list: seq<Outfit>, o: Outfit)
    requires NoMatch(list, OutfitId, o.id)
    ensures GetOutfitById(list + [o], o.id) == Some(o)
  {
    FindAfterAppend(list, OutfitId, o);
  }

  class Store {
    var outfitList: seq<Outfit>
    var selectedId: Option<string>
    var isLoading: bool

    constructor ()
      ensures outfitList == [] && selectedId == None && !isLoading
    {
      outfitList := [];
      selectedId := None;
      isLoading := false;
    }

    /** `setOutfitList`: replace the whole list. */
    method SetOutfitList(list: seq<Outfit>)
      modifies this`outfitList
      ensures outfitList == list
    {
      outfitList := list;
    }

    /** `addOutfit`: append at the end. */
    method AddOutfit(outfit: Outfit)
      modifies this`outfitList
      ensures outfitList == old(outfitList) + [outfit]
    {
      outfitList := outfitList + [outfit];
    }

    /** `updateOutfit`: merge `updates` into the first outfit with that id and
      stamp it with `now`; an unknown id changes nothing. */
    method UpdateOutfit(id: string, updates: OutfitPatch, now: string)
      modifies this`outfitList
      ensures outfitList == UpdateFirst(old(outfitList), OutfitId, id, Touch(updates, now))
    {
      var index := FindIndex(outfitList, OutfitId, id);
      if index.Some? {
        var i := index.value;
        var updated := SpreadOutfit(outfitList[i], updates).(updatedAt := now);
        assert Touch(updates, now)(outfitList[i]) == updated;
        assert UpdateFirst(outfitList, OutfitId, id, Touch(updates, now)) == outfitList[i := updated];
        outfitList := outfitList[i := updated];
      }
    }

    /** `deleteOutfit`: remove the first outfit with that id, if any. */
    method DeleteOutfit(id: string)
      modifies this`outfitList
      ensures outfitList == RemoveFirst(old(outfitList), OutfitId, id)
    {
      var index := FindIndex(outfitList, OutfitId, id);
      if index.Some? {
        outfitList := RemoveAt(outfitList, index.value);
      }
    }

    /** `loadFromStorage`: raise the loading flag, take the stored list when
      there is one, swallow a host error, and always lower the flag again. */
    method LoadFromStorage(stored: StoredValue<seq<Outfit>>)
      modifies this`outfitList, this`isLoading
      ensures !isLoading
      ensures stored.Found? ==> outfitList == stored.value
      ensures !stored.Found? ==> outfitList == old(outfitList)
    {
      isLoading := true;
      match stored {
        case Found(value) =>
          outfitList := value;
        case Missing =>
        case HostThrew(_) =>
      }
      isLoading := false;
    }
  }
}
