# miniClothes stores, storage wrapper and cloud helper in Dafny

This project models the client-side state of the miniClothes wardrobe
mini-program and proves properties of that model. The program keeps four
stores: clothing items, outfits, calendar wear records, and settings. The
settings store holds custom categories and tags laid over built-in ones. Each
store reads its state from a synchronous key-value storage host. A small cloud
helper turns image URLs into storage paths, builds upload paths and requests,
classifies the host's upload and delete answers, and combines the results of
several concurrent uploads.

Module layout:

- `Common`: `Option`, the uniform `Result` (`{success, data}` or
  `{success, error}`), what one storage read yields (`StoredValue`), and
  JavaScript string truthiness.
- `Strings`: decimal rendering, `padStart`, `startsWith`/`endsWith`,
  `indexOf`, `includes`, `split(sep).pop()`.
- `Lists`: the array operations the stores use. These are `find`,
  `findIndex`, update-at-first-match, `splice` removal, `filter`, the
  two-`splice` move with JavaScript index normalisation, and the renumbering
  loop. All are generic over a key function.
- `Sorting`: `Array.prototype.sort` with an `a.order - b.order` comparator,
  as a stable insertion sort. It is proved to produce a permutation that is
  sorted and stable.
- `Types`: the entities (`Clothing`, `Outfit`, `CalendarWear`, `Category`,
  `Tag`) and their `Partial<T>` patches, with the object-spread merge.
- `ClothingStore`, `OutfitStore`, `CalendarStore`, `SettingsStore`: one class
  per store. Its fields are the store's state, and its actions are methods
  over `seq` fields. The getters are functions over the current lists.
- `Overlays`: the merge rule of `allCategories`/`allTags`. A custom entry
  replaces the first entry with the same name, or else is appended. The
  result is then sorted by `order`.
- `Storage`: the storage wrapper, as a class `Host` whose `map` field the
  wrapped calls update.
- `Uri`: `decodeURIComponent` for ASCII escapes, with its failure, and an
  encoder whose output decoding undoes. The encoder escapes `%`, `?`, `#`, the space
  and `\`.
- `Cloud`: `extractCloudPath`, the `uploadImage` path and request, response
  classification, `deleteImage`, and the `uploadMultipleImages` aggregation
  loop.

Inputs the program takes from its environment are parameters here. These are
the clock (`now` strings and timestamps), `Math.random()` (a draw in [0, 1)),
what a storage read returns, whether a storage call throws (`fault`), and how
each upload or delete settles.

Three behaviours of the code that are easy to misread:

- `uploadMultipleImages` reports the error of the failure that settled
  *last*, because every failure overwrites `errorMessage`
  (src/utils/cloud.ts:273-276).
- A file name without a dot has the whole name as its extension, because
  that is what `split('.').pop()` gives. `jpg` is used only when the last
  segment is empty.
- `settings` `loadFromStorage` reads the stored object's `customCategories`,
  `customTags` and `lastBackupTime`; `importData` reads `categories`, `tags`
  and `lastBackupTime`. Both are modelled with one snapshot type
  (`SettingsData`). A list field replaces the store's list whenever it is
  present, even when it is empty, because every array is truthy.

## Model

| member | source | states |
|---|---|---|
| `ClothingStore.ActiveClothing` | src/stores/clothing.ts:22-24 | every returned item is non-archived and comes from the list, and every non-archived item of the list is returned |
| `ClothingStore.ActiveClothingIsOrderedSubsequence` | src/stores/clothing.ts:22-24 | the filter distributes over concatenation and keeps one item exactly when it is not archived, so the result keeps list order |
| `ClothingStore.ActiveClothingCounts` | src/stores/clothing.ts:22-24 | each active item occurs as often in the result as in the list, and each archived item not at all |
| `ClothingStore.GetClothingById` | src/stores/clothing.ts:26-28 | `None` exactly when no item has the id, otherwise the first item with that id |
| `ClothingStore.TotalCount` | src/stores/clothing.ts:20 | `totalCount`, the list's length; how it follows the actions is stated by `TotalCountTracksActions` |
| `ClothingStore.UpdateClothingAtFirstMatch` | src/stores/clothing.ts:39-48 | only the first item with the id changes; it gets the patch's fields and the new `updatedAt`, and its id is unchanged when the patch keeps the id |
| `ClothingStore.AddThenDelete` | src/stores/clothing.ts:35-37 | with distinct ids, an added item is found by its id, and after deleting that id it is gone |
| `ClothingStore.TotalCountTracksActions` | src/stores/clothing.ts:20 | `totalCount` grows by one on add, stays the same on update, and shrinks by one on delete exactly when the id was present |
| `ClothingStore.Store.constructor` | src/stores/clothing.ts:15-17 | empty list, no selection, not loading |
| `ClothingStore.Store.SetClothingList` | src/stores/clothing.ts:31-33 | the list is replaced |
| `ClothingStore.Store.AddClothing` | src/stores/clothing.ts:35-37 | the item is appended |
| `ClothingStore.Store.UpdateClothing` | src/stores/clothing.ts:39-48 | the list is the old list with the first match patched and touched; a missing id changes nothing |
| `ClothingStore.Store.DeleteClothing` | src/stores/clothing.ts:50-55 | the first item with the id is removed; a missing id changes nothing |
| `ClothingStore.Store.LoadFromStorage` | src/stores/clothing.ts:57-69 | a stored list replaces the list; a missing value or a host error leaves it; loading ends false |
| `OutfitStore.GetOutfitById` | src/stores/outfit.ts:22-24 | `None` exactly when no outfit has the id, otherwise the first outfit with that id |
| `OutfitStore.TotalOutfits` | src/stores/outfit.ts:20 | `totalOutfits`, the list's length; how it follows the actions is stated by `TotalOutfitsTracksActions` |
| `OutfitStore.UpdateOutfitAtFirstMatch` | src/stores/outfit.ts:35-44 | only the first outfit with the id changes, to the patched outfit with the new `updatedAt` |
| `OutfitStore.TotalOutfitsTracksActions` | src/stores/outfit.ts:20 | the count grows by one on add, is kept by update, and drops by one on delete exactly when the id was present |
| `OutfitStore.AddThenGet` | src/stores/outfit.ts:31-33 | an outfit added under a fresh id is what the lookup returns |
| `OutfitStore.Store.constructor` | src/stores/outfit.ts:15-17 | empty list, no selection, not loading |
| `OutfitStore.Store.SetOutfitList` | src/stores/outfit.ts:27-29 | the list is replaced |
| `OutfitStore.Store.AddOutfit` | src/stores/outfit.ts:31-33 | the outfit is appended |
| `OutfitStore.Store.UpdateOutfit` | src/stores/outfit.ts:35-44 | the first match is patched and touched; nothing else changes |
| `OutfitStore.Store.DeleteOutfit` | src/stores/outfit.ts:46-51 | the first outfit with the id is removed; a missing id changes nothing |
| `OutfitStore.Store.LoadFromStorage` | src/stores/outfit.ts:53-65 | a stored list replaces the list, anything else leaves it; loading ends false |
| `CalendarStore.GetWearByDate` | src/stores/calendar.ts:20-22 | the result holds exactly the records of that date, and is empty when no record has it |
| `CalendarStore.GetWearByDateIsOrdered` | src/stores/calendar.ts:20-22 | the date filter distributes over concatenation, so the list order is kept |
| `CalendarStore.DatesOf` | src/stores/calendar.ts:30 | the set of dates holds exactly the records' dates and is no larger than the list |
| `CalendarStore.ClothingIdsOfMembers` | src/stores/calendar.ts:31-34 | an id is in the clothing set exactly when some record lists it |
| `CalendarStore.ClothingIdsOfSize` | src/stores/calendar.ts:31-34 | the clothing set is no larger than the number of clothing references |
| `CalendarStore.MonthPrefix` | src/stores/calendar.ts:25-26 | the `${year}-${monthStr}` prefix; its shape is stated by `MonthPrefixShape` |
| `CalendarStore.MonthPrefixShape` | src/stores/calendar.ts:25-26 | a month below ten is written with a leading zero, a two-digit month as it is |
| `CalendarStore.MonthRecords` | src/stores/calendar.ts:28 | a record is among the month's records exactly when it is in the list and its date starts with the month prefix |
| `CalendarStore.GetMonthlyStats` | src/stores/calendar.ts:24-41 | total wears is the number of records of the month, unique dates the number of distinct dates among them, and the clothing count the number of distinct ids they list; unique dates are at most the wears and at least one when there is a record; with no record everything is zero |
| `CalendarStore.EmptyMonth` | src/stores/calendar.ts:24-41 | a month no record starts with gives all-zero statistics |
| `CalendarStore.MonthPrefixPads` | src/stores/calendar.ts:25-26 | the month is padded to two digits: `2026-01`, `2025-12` |
| `CalendarStore.ExampleMonthRecords` | src/stores/calendar.ts:28 | the `startsWith` filter keeps three January records and drops one of February |
| `CalendarStore.MonthlyStatsExample` | src/stores/calendar.ts:24-41 | four records give 3 wears, 2 dates and 6 clothing items for January 2026; no records give zeros |
| `CalendarStore.Store.constructor` | src/stores/calendar.ts:15-17 | no records, the given current date, not loading |
| `CalendarStore.Store.SetWearRecords` | src/stores/calendar.ts:44-46 | the records are replaced |
| `CalendarStore.Store.AddWearRecord` | src/stores/calendar.ts:48-50 | the record is appended |
| `CalendarStore.Store.UpdateWearRecord` | src/stores/calendar.ts:52-60 | the first record with the id gets the patch, without a timestamp; nothing else changes |
| `CalendarStore.Store.DeleteWearRecord` | src/stores/calendar.ts:62-67 | the first record with the id is removed; a missing id changes nothing |
| `CalendarStore.Store.LoadFromStorage` | src/stores/calendar.ts:69-81 | a stored list replaces the records, anything else leaves them; loading ends false |
| `Types.SpreadClothingLaws` | src/stores/clothing.ts:42-46 | an empty patch changes nothing, a full patch gives its source, spreading twice is spreading once, and two spreads are one combined spread |
| `Types.SpreadOutfitLaws` | src/stores/outfit.ts:38-42 | an empty patch changes nothing, a full patch gives its source, and spreading is idempotent |
| `Types.SpreadWearLaws` | src/stores/calendar.ts:55-58 | an empty patch changes nothing, a full patch gives its source, and spreading is idempotent |
| `Lists.FindIndex` | src/stores/clothing.ts:40 | `findIndex` gives the first index with the id, or none when no element has it |
| `Lists.Find` | src/stores/clothing.ts:27 | `find` gives `None` exactly when no element matches, else the first match |
| `Lists.FindDistinct` | src/stores/settings.ts:72 | with distinct keys, looking up an element's key gives that element |
| `Lists.UpdateFirst` | src/stores/clothing.ts:40-47 | the length is kept; nothing changes without a match; at the first match only that element is replaced |
| `Lists.RemoveFirst` | src/stores/clothing.ts:50-55 | nothing changes without a match; otherwise the first match is cut out |
| `Lists.RemoveFirstMultiset` | src/stores/clothing.ts:50-55 | removal drops exactly one occurrence of the matched element |
| `Lists.FindAfterAppend` | src/stores/clothing.ts:35-37 | an element appended under a fresh key is found by it |
| `Lists.RemoveFirstLength` | src/stores/clothing.ts:50-55 | removal shortens the list by one with a match and keeps its length without |
| `Lists.RemoveFirstThenNotFound` | src/stores/clothing.ts:50-55 | with distinct keys, a removed key is no longer found |
| `Lists.Filter` | src/stores/clothing.ts:23 | the result is no longer than the input |
| `Lists.FilterMembers` | src/stores/clothing.ts:23 | an element is in the result exactly when it is in the input and passes |
| `Lists.FilterAppend` | src/stores/calendar.ts:21 | filtering distributes over concatenation |
| `Lists.FilterMultiset` | src/stores/calendar.ts:28 | the filter is a sub-multiset that keeps every passing element's count |
| `Lists.FilterAll` | src/stores/calendar.ts:28 | when everything passes, the filter is the identity |
| `Lists.FilterNone` | src/stores/calendar.ts:28 | when nothing passes, the filter is empty |
| `Lists.Move` | src/stores/settings.ts:106-107 | the moved element lands at the target, and removing it there leaves what removing it at the source leaves |
| `Lists.MovePermutes` | src/stores/settings.ts:106-107 | a move is a permutation |
| `Lists.MoveAndRenumber` | src/stores/settings.ts:105-111 | the two `splice` calls with JavaScript start normalisation, then the renumbering; it keeps the length, and `MoveAndRenumberShape` states the rest |
| `Lists.MoveAndRenumberShape` | src/stores/settings.ts:105-111 | move then renumber keeps the multiset, puts the source element at the normalised target, and numbers every position |
| `Sorting.InsertMultiset` | src/stores/settings.ts:51 | one insertion step adds exactly the inserted element |
| `Sorting.InsertSorted` | src/stores/settings.ts:51 | inserting into a sorted list keeps it sorted |
| `Sorting.InsertStable` | src/stores/settings.ts:51 | insertion keeps the order of equal keys, with the inserted element after its equals |
| `Sorting.SortMultiset` | src/stores/settings.ts:51 | the sort is a permutation |
| `Sorting.SortSorted` | src/stores/settings.ts:51 | the result is sorted by `order` |
| `Sorting.SortStable` | src/stores/settings.ts:51 | the sort is stable: the elements of each key keep their relative order |
| `Sorting.SortOfSorted` | src/stores/settings.ts:51 | sorting a sorted list changes nothing |
| `Sorting.InsertAtEnd` | src/stores/settings.ts:51 | an element with the greatest key ends up last |
| `Sorting.SortDistinct` | src/stores/settings.ts:51 | sorting keeps names distinct |
| `Overlays.Place` | src/stores/settings.ts:44-49 | one custom entry replaces the first entry of its name or is appended; names and positions are kept, and distinct names stay distinct |
| `Overlays.Overlay` | src/stores/settings.ts:42-50 | the combined list is at least the defaults and at most defaults plus customs in length |
| `Overlays.OverlayShape` | src/stores/settings.ts:42-50 | every position of a default keeps its name and holds the default or a custom, and everything after the defaults is a custom |
| `Overlays.OverlayKeepsUnshadowed` | src/stores/settings.ts:42-50 | a default whose name no custom uses stays where it was |
| `Overlays.OverlayDistinct` | src/stores/settings.ts:42-50 | distinct default names give distinct combined names |
| `Overlays.OverlayNames` | src/stores/settings.ts:42-50 | the combined names are the default names plus the custom names |
| `Overlays.PlaceNames` | src/stores/settings.ts:44-49 | placing one entry adds exactly its name |
| `Overlays.OverlaySnoc` | src/stores/settings.ts:43 | overlaying one more custom is one more placement, the `forEach` step |
| `Overlays.LastCustomWins` | src/stores/settings.ts:43-49 | the last custom of a name is what a lookup by that name finds |
| `Overlays.MergedProperties` | src/stores/settings.ts:41-52 | the merge is a permutation of the overlay, sorted by order, with bounded length and distinct names |
| `Overlays.MergedMembers` | src/stores/settings.ts:41-52 | the merged names are default and custom names, and every unshadowed default is listed |
| `Overlays.MergedFind` | src/stores/settings.ts:41-52 | the last custom of a name is found in the merge; a name neither list has is not |
| `Overlays.MergedAppendFresh` | src/stores/settings.ts:41-52 | a custom under a fresh name with the greatest order is appended at the end |
| `Overlays.NameListMembers` | src/stores/settings.ts:67 | the mapped names are the set of names, and distinct names map to a list without repeats |
| `SettingsStore.DefaultsDistinct` | src/stores/settings.ts:11-24 | the built-in categories and tags have distinct names |
| `SettingsStore.AllCategoriesProperties` | src/stores/settings.ts:41-52 | all categories are sorted by order, have distinct names, are a permutation of the overlay, and include every unshadowed built-in |
| `SettingsStore.AllTagsProperties` | src/stores/settings.ts:54-65 | all tags are sorted by order, have distinct names, are a permutation of the overlay, and include every unshadowed built-in |
| `SettingsStore.NoCustomCategories` | src/stores/settings.ts:41-65 | without customs, the merged lists are the built-in lists |
| `SettingsStore.CategoryNames` | src/stores/settings.ts:67 | `categoryNames`, the merged names in merged order; `CategoryNamesDistinct` states them |
| `SettingsStore.TagNames` | src/stores/settings.ts:69 | `tagNames`, the merged tag names; `TagNamesDistinct` states them |
| `SettingsStore.CategoryNamesDistinct` | src/stores/settings.ts:67 | the category names are one per category and without repeats |
| `SettingsStore.TagNamesDistinct` | src/stores/settings.ts:69 | the tag names are one per tag and without repeats |
| `SettingsStore.GetTagColor` | src/stores/settings.ts:71-74 | `getTagColor`: the first merged tag's colour or `#007aff`; `TagColorLookup` and `DefaultTagColors` state it |
| `SettingsStore.TagColorLookup` | src/stores/settings.ts:71-74 | a tag's own colour is found by its name after it is added last, and an unknown name gives `#007aff` |
| `SettingsStore.DefaultTagColors` | src/stores/settings.ts:18-24 | the built-in tags' colours are looked up, and an unknown tag gets the fallback |
| `SettingsStore.PaletteColor` | src/stores/settings.ts:116 | the colour `addTag` takes without one given; `PaletteCycles` states its cycle |
| `SettingsStore.PaletteCycles` | src/stores/settings.ts:116 | the default colour is a palette colour, cycles every ten tags, and starts with the first built-in colour |
| `SettingsStore.NewCategory` | src/stores/settings.ts:78-83 | the new category carries the given name and no icon, an id `cat-` followed by the digits of the clock reading, and an order above the built-ins and every existing custom |
| `SettingsStore.NewTag` | src/stores/settings.ts:115-122 | the new tag carries the given name, the given colour or else a palette colour, an id `tag-` followed by the clock reading's digits, and an order above the built-ins and the customs |
| `SettingsStore.AddedCategoryIsListed` | src/stores/settings.ts:77-86 | a category added under a fresh name is listed and found by its name |
| `SettingsStore.AddedTagIsListed` | src/stores/settings.ts:114-125 | a tag added under a fresh name is listed and found by its name |
| `SettingsStore.EditsKeepDefaults` | src/stores/settings.ts:88-103 | deleting a custom category, or updating one without renaming it, brings in no name: a built-in that no custom renamed over before the edit is still listed after it |
| `SettingsStore.MovedCategories` | src/stores/settings.ts:105-111 | after a move the categories are a permutation, the moved one sits at the target, and orders are positions plus one |
| `SettingsStore.MovedTags` | src/stores/settings.ts:144-150 | after a move the tags are a permutation, the moved one sits at the target, and orders are positions plus one |
| `SettingsStore.Store.constructor` | src/stores/settings.ts:35-38 | no customs, no backup time, not loading |
| `SettingsStore.Store.AllCategories` | src/stores/settings.ts:41-52 | the `forEach` loop and sort give the merged categories, sorted with distinct names |
| `SettingsStore.Store.AllTags` | src/stores/settings.ts:54-65 | the `forEach` loop and sort give the merged tags, sorted with distinct names |
| `SettingsStore.Store.AddCategory` | src/stores/settings.ts:77-86 | the new category has id `cat-<now>`, order customs + 4 + 1, and is appended and returned |
| `SettingsStore.Store.UpdateCategory` | src/stores/settings.ts:88-96 | the first custom with the id is patched; nothing else changes |
| `SettingsStore.Store.DeleteCategory` | src/stores/settings.ts:98-103 | the first custom with the id is removed |
| `SettingsStore.Store.MoveCategory` | src/stores/settings.ts:105-111 | the loop leaves the two-`splice` move renumbered from 1 |
| `SettingsStore.Store.AddTag` | src/stores/settings.ts:114-125 | the new tag has the given colour, else the palette colour at customs mod 10, and order customs + 5 + 1; it is appended and returned |
| `SettingsStore.Store.UpdateTag` | src/stores/settings.ts:127-135 | the first custom tag with the id is patched; nothing else changes |
| `SettingsStore.Store.DeleteTag` | src/stores/settings.ts:137-142 | the first custom tag with the id is removed |
| `SettingsStore.Store.MoveTag` | src/stores/settings.ts:144-150 | the loop leaves the two-`splice` move renumbered from 1 |
| `SettingsStore.Store.ClearCache` | src/stores/settings.ts:153-158 | the host store is emptied, and the customs and backup time reset; a host error changes nothing and is passed on |
| `SettingsStore.Store.ImportData` | src/stores/settings.ts:176-186 | lists that are present replace the customs, a non-empty backup time replaces the old one, and nothing else changes |
| `SettingsStore.Store.LoadFromStorage` | src/stores/settings.ts:197-217 | a stored snapshot is applied field by field like an import; anything else changes nothing; loading ends false |
| `Storage.ReadResult` | src/utils/storage.ts:16-21 | success exactly when the key holds something other than `""`, with that value; otherwise `Key "k" not found` |
| `Storage.SetThenGet` | src/utils/storage.ts:35-38 | a non-empty value that is set reads back |
| `Storage.StoredEmptyIsNotFound` | src/utils/storage.ts:18-20 | a stored `""` reads exactly like a missing key |
| `Storage.RemovedIsNotFound` | src/utils/storage.ts:51-54 | a removed key, and every key after clearing, reads as not found |
| `Storage.OtherKeysUnchanged` | src/utils/storage.ts:37 | setting or removing one key leaves every other key's read unchanged |
| `Storage.Host.GetItem` | src/utils/storage.ts:14-27 | a host error becomes its message; otherwise the read result of the current map |
| `Storage.Host.SetItem` | src/utils/storage.ts:35-44 | on success the key maps to the value; on a host error the map is unchanged and the error message returned |
| `Storage.Host.RemoveItem` | src/utils/storage.ts:51-60 | on success the key is gone, whether or not it was there; on a host error nothing changes |
| `Storage.Host.Clear` | src/utils/storage.ts:66-75 | on success the map is empty; on a host error nothing changes |
| `Strings.NatToString` | src/stores/settings.ts:78 | the decimal form is non-empty, all digits, and without a leading zero |
| `Strings.NatToStringRoundTrip` | src/stores/settings.ts:78 | reading the digits back gives the number |
| `Strings.NatToStringInjective` | src/stores/settings.ts:78 | different numbers have different decimal forms, so ids from different times differ |
| `Strings.PadStart` | src/stores/calendar.ts:25 | the result has the wanted width, ends with the input, and is filled in front |
| `Strings.IndexOfAny` | src/utils/cloud.ts:83 | the first index holding a stop character, or none when no character is one |
| `Strings.IndexOfSub` | src/utils/cloud.ts:81 | the first position where the pattern occurs, or none when it occurs nowhere |
| `Strings.TakeUntil` | src/utils/cloud.ts:83-84 | the longest prefix with no stop character |
| `Strings.LastSegment` | src/utils/cloud.ts:141 | the text after the last separator, or all of it |
| `Strings.LastSegmentAfter` | src/utils/cloud.ts:141 | the last segment of `before.seg` is `seg` |
| `Uri.PercentDecode` | src/utils/cloud.ts:86-90 | decoding never lengthens, and every failure is `URI malformed` |
| `Uri.DecodeEncode` | src/utils/cloud.ts:105-110 | decoding undoes encoding, for every string |
| `Uri.DecodePlain` | src/utils/cloud.ts:86-90 | a string without `%` decodes to itself |
| `Uri.DecodeOr` | src/utils/cloud.ts:86-90 | `decodeURIComponent` with the input kept on failure: never longer than the input, and the input itself when it holds no `%` |
| `Uri.DecodeMalformed` | src/utils/cloud.ts:86-90 | a bad escape makes decoding fail, and the fallback keeps the input |
| `Cloud.Pathname` | src/utils/cloud.ts:95-97 | a pathname the parser accepts never holds the query or fragment marks `?` and `#` |
| `Cloud.SpecialPath` | src/utils/cloud.ts:95-97 | a special URL's pathname, refused without a host, never holds `?` or `#` |
| `Cloud.ExtractCloudPath` | src/utils/cloud.ts:74-125 | `extractCloudPath` with its four branches; the lemmas below state what each gives |
| `Cloud.HostAndPath` | src/utils/cloud.ts:114 | a match of the host-and-path part captures at least one character |
| `Cloud.FallbackMatch` | src/utils/cloud.ts:114-117 | a match of the whole fallback pattern captures at least one character, so a match never yields `""` |
| `Cloud.BarePath` | src/utils/cloud.ts:81-91 | a string without `://` is reduced to the text before its first `?`, decoded |
| `Cloud.BareWholePath` | src/utils/cloud.ts:81-91 | a bare path without `:`, `?` or `%` is returned unchanged |
| `Cloud.SchemeBranch` | src/utils/cloud.ts:93-124 | a URL with a valid scheme gives its decoded pathname without the leading `/`, and the fallback pattern's result when the parser refuses it |
| `Cloud.PathnameOfPlain` | src/utils/cloud.ts:95-97 | with a scheme that is not special, after `//` the host is dropped and the path runs to the query |
| `Cloud.PathnameOfSpecial` | src/utils/cloud.ts:95-97 | with a special scheme, a non-empty host is dropped and the path runs to the query |
| `Cloud.SpecialExtraSlashes` | src/utils/cloud.ts:93-110 | with a special scheme, `scheme:///host` names the host and an empty path, so the result is `""` |
| `Cloud.SpecialMissingHost` | src/utils/cloud.ts:93-124 | with a special scheme, `scheme://` is refused by the parser and not matched by the fallback, so the result is `""` |
| `Cloud.SchemeUrlPath` | src/utils/cloud.ts:93-110 | `scheme://host/path?query` gives back the path, with host and query dropped and escapes decoded; a special scheme needs a non-empty host |
| `Cloud.FallbackBranch` | src/utils/cloud.ts:111-124 | a URL whose text before `:` is no scheme goes through the fallback pattern, and no match gives `""` |
| `Cloud.HostAndPathOf` | src/utils/cloud.ts:114 | the pattern captures the text between the host's `/` and the query |
| `Cloud.FallbackPath` | src/utils/cloud.ts:111-124 | the fallback also gives back the decoded path after the host |
| `Cloud.ExampleHttpsQuery` | src/utils/cloud.test.ts:257-275 | `https://example.com/path/to/abc-123.jpg?sign=xxx` gives `path/to/abc-123.jpg` |
| `Cloud.ExampleHttpsParameters` | src/utils/cloud.test.ts:217-235 | a query of several parameters is dropped |
| `Cloud.ExampleHttpsPlain` | src/utils/cloud.test.ts:177-195 | `https://example.com/abc-123.jpg` gives `abc-123.jpg` |
| `Cloud.ExampleCloudScheme` | src/utils/cloud.test.ts:277-295 | a `cloud://` environment id is dropped like a host |
| `Cloud.ExampleEscaped` | src/utils/cloud.test.ts:317-335 | `abc%20def.jpg` becomes `abc def.jpg` |
| `Cloud.ExampleBarePath` | src/utils/cloud.test.ts:297-315 | `clothing/abc-123.jpg` is its own path |
| `Cloud.ExampleSpecialSlashes` | src/utils/cloud.ts:93-124 | `https:///x` gives `""` because `x` is the host, and `https://` gives `""` |
| `Cloud.RandomSuffix` | src/utils/cloud.ts:140 | the suffix is the floor of draw times 10000, below 10000 |
| `Cloud.FileExtension` | src/utils/cloud.ts:141 | the extension is non-empty and dot-free: `jpg`, or a suffix of the name after a dot or the whole name |
| `Cloud.ExtensionAfterDot` | src/utils/cloud.ts:141 | `base.ext` has extension `ext` |
| `Cloud.ExtensionWholeName` | src/utils/cloud.ts:141 | a name without a dot is its own extension |
| `Cloud.ExtensionDefault` | src/utils/cloud.ts:141 | a name ending in a dot, or the empty name, gets `jpg` |
| `Cloud.CloudPathFor` | src/utils/cloud.ts:139-142 | the `clothing/${timestamp}-${random}.${ext}` path; `CloudPathShape` and `CloudPathInjective` state it |
| `Cloud.CloudPathInjective` | src/utils/cloud.ts:139-142 | the cloud path determines the timestamp, the random suffix and the extension |
| `Cloud.CloudPathShape` | src/utils/cloud.ts:139-142 | the cloud path starts with `clothing/` and ends with the extension |
| `Cloud.CloudPathExtracts` | src/utils/cloud.ts:142 | an uploaded cloud path, given to the extraction, comes back unchanged |
| `Cloud.UploadRequestShape` | src/utils/cloud.ts:153-157 | the request goes to `https://default.tcb.qcloud.la/upload` under the field `file`, uploads the temporary path when it is non-empty and the name otherwise, and stores under a `clothing/` path ending in the extension |
| `Cloud.ClassifyUpload` | src/utils/cloud.ts:158-183 | success exactly for status 200 and a non-empty `url`, with that URL; every error is non-empty; a failing response reports `message \|\| 'Upload failed'`, a host failure `errMsg \|\| 'Upload failed'`, a body without fields `Invalid response data`, the timer the timeout message |
| `Cloud.TimeoutMessageText` | src/utils/cloud.ts:145-150 | the timeout error is `Upload timeout after `, the timeout in milliseconds in decimal, then `ms` |
| `Cloud.UploadFailureMessages` | src/utils/cloud.ts:162-168 | for every failing response, whatever its status and `url`, the error is its non-empty message or `Upload failed`; a host failure reports its non-empty message or `Upload failed` |
| `Cloud.ClassifyDelete` | src/utils/cloud.ts:220-235 | success exactly when the first file status is 0; otherwise the first file's non-empty message or `Delete failed`, `Delete failed` without a file list, and the host's non-empty message or `Delete failed` on a host failure |
| `Cloud.DeleteImage` | src/utils/cloud.ts:208-239 | an empty extraction gives `Invalid URL` without asking the host; otherwise the host's answer decides |
| `Cloud.DeleteTargets` | src/utils/cloud.ts:211-215 | `deleteImage("")` fails with `Invalid URL`, and an uploaded cloud path is deleted as it is |
| `Cloud.LastFailure` | src/utils/cloud.ts:273-276 | the error left in `errorMessage` after the uploads settle in order is never empty; `LastFailureMeaning` states which one it is |
| `Cloud.LastFailureMeaning` | src/utils/cloud.ts:273-276 | none exactly when every settled upload succeeded; otherwise the error of a failure after which only successes settled |
| `Cloud.SettleUploads` | src/utils/cloud.ts:262-280 | the settling loop writes each settled upload's slot and leaves `hasError` and `errorMessage` as the last failure |
| `Cloud.Present` | src/utils/cloud.ts:288 | the filter holds exactly the present values, is no longer than the slots, and keeps all of them in order when none is missing |
| `Cloud.UploadMultipleImages` | src/utils/cloud.ts:253-289 | no files give `[]`; the result fails exactly when some upload failed, with the last failure's error; otherwise it lists each file's URL in file order |

## Left out

- Pinia and Vue reactivity (`ref`, `computed`) and the `persist` plugin
  settings are not modelled. Getters are functions over the current lists.
- The clock, `Math.random()` and `new Date().toISOString()` are parameters.
  `src/utils/date.ts` and the calendar's `getTodayDate` depend on the local
  time zone and are not part of this model. The calendar store receives
  today's date as a constructor argument.
- Console logging and `uni.showToast` after an import are left out. They
  have no effect on the state.
- `exportData` is left out. It only packages the current fields, and its
  error path cannot be reached.
- Timers, promises, progress callbacks and `Promise.all` are left out. Each
  upload's settling (success callback, failure callback or timer) is an
  input `UploadOutcome`. The order in which uploads settle is an input
  permutation.
- The storage host is a map. A stored value other than a list or snapshot
  (a truthy number, say) is not modelled as a store's content.
- JavaScript numbers are modelled as mathematical integers. Non-integer,
  `NaN` or overflowing orders, indices and timestamps are not modelled.
- `Uri.PercentDecode`: decodes only escapes of ASCII characters.
  `decodeURIComponent` also decodes valid multi-byte UTF-8 sequences such as
  `%E4%B8%8A`; the model treats those as malformed. In that case the
  extraction keeps the undecoded text.
- `Cloud.ExtractCloudPath`: follows the URL parser only through the rules
  the helper relies on. A scheme is a letter followed by letters, digits,
  `+`, `-` or `.`. For the special schemes `http`, `https`, `ws`, `wss` and
  `ftp` (in any case) every `/` or `\` after the colon is skipped, the host
  ends at `/`, `\`, `?` or `#` and must not be empty, and a `\` in the path
  reads as `/`. For other schemes the host follows `//` and ends at `/`, `?`
  or `#`. The path ends at `?` or `#`. The `file` scheme's own rules, host
  validation, stripping of tabs, newlines and surrounding spaces,
  dot-segment removal and percent-encoding of the pathname are not
  modelled. For example `http://[bad/x` is rejected by the parser; the model
  accepts it with the path `x`, which is also what the fallback pattern
  extracts, so the result agrees.
- `SettingsStore.Store.MoveCategory`: requires a non-empty list and an index
  `fromIndex` below its length. A negative index counts from the end, as
  `splice` reads it. For other indices the source inserts
  `undefined` and then throws a `TypeError` in the renumbering loop, after
  changing part of the list. That failure is not modelled.
- `SettingsStore.Store.MoveTag`: same requirement and reason as
  `MoveCategory`.
- The move actions renumber objects in place. An object shared with another
  list would see its new `order` there too. The model renumbers values, so
  this aliasing is not captured.
- Thrown values that are not `Error` objects are not modelled.
  `String(error)` is the message of such a value. Errors are modelled by
  their message strings.
- A synchronous throw inside `uploadImage` or `deleteImage` before the host
  is called is not modelled. An example is a file without a `name`.
- `uploadMultipleImages` keeps a result `null` only for a failed file, and
  failures make the whole result fail. So the `filter` keeps every slot on
  success. `Cloud.Present` models the filter itself.
