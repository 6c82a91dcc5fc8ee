/** The settings store: custom categories and custom tags laid over fixed
    defaults, the last backup time and the loading flag. */
module SettingsStore {
  import opened Common
  import opened Types
  import opened Lists
  import opened Sorting
  import opened Strings
  import opened Overlays
  import Storage

  const DEFAULT_CATEGORIES: seq<Category> := [
    Category("cat-1", "上装", None, 1),
    Category("cat-2", "下装", None, 2),
    Category("cat-3", "鞋子", None, 3),
    Category("cat-4", "配饰", None, 4)]

  const DEFAULT_TAGS: seq<Tag> := [
    Tag("tag-1", "日常", "#007aff", 1),
    Tag("tag-2", "工作", "#5856d6", 2),
    Tag("tag-3", "运动", "#ff9500", 3),
    Tag("tag-4", "正式", "#ff2d55", 4),
    Tag("tag-5", "休闲", "#34c759", 5)]

  /** The palette `addTag` cycles through when no colour is given. */
  const TAG_COLORS: seq<string> := [
    "#007aff", "#5856d6", "#ff9500", "#ff2d55", "#34c759", "#ffcc00", "#ff3b30",
    "#8e8e93", "#00c7be", "#af52de"]

  /** The colour `getTagColor` falls back to. */
  const FALLBACK_TAG_COLOR: string := "#007aff"

  lemma DefaultsDistinct()
    ensures DistinctKeys(DEFAULT_CATEGORIES, CategoryName)
    ensures DistinctKeys(DEFAULT_TAGS, TagName)
  {
  }

  /** `allCategories`: the defaults with the custom categories merged in by
      name, sorted by `order`. */
  function AllCategoriesOf(customs: seq<Category>): seq<Category> {
    Merged(DEFAULT_CATEGORIES, customs, CategoryName, CategoryOrder)
  }

  /** `allTags`: the defaults with the custom tags merged in by name, sorted
      by `order`. */
  function AllTagsOf(customs: seq<Tag>): seq<Tag> {
    Merged(DEFAULT_TAGS, customs, TagName, TagOrder)
  }

  /** The merged categories ascend by order, carry each name once, keep every
      default no custom category renames over, and number between four and four
      plus the customs. */
  lemma AllCategoriesProperties(customs: seq<Category>)
    ensures var r := AllCategoriesOf(customs);
      && SortedBy(r, CategoryOrder)
      && DistinctKeys(r, CategoryName)
      && |DEFAULT_CATEGORIES| <= |r| <= |DEFAULT_CATEGORIES| + |customs|
      && multiset(r) == multiset(Overlay(DEFAULT_CATEGORIES, customs, CategoryName))
      && Names(r, CategoryName) == Names(DEFAULT_CATEGORIES, CategoryName) + Names(customs, CategoryName)
      && (forall i :: 0 <= i < |DEFAULT_CATEGORIES| && NoMatch(customs, CategoryName, DEFAULT_CATEGORIES[i].name) ==>
            DEFAULT_CATEGORIES[i] in r)
  {
    DefaultsDistinct();
    MergedProperties(DEFAULT_CATEGORIES, customs, CategoryName, CategoryOrder);
    MergedMembers(DEFAULT_CATEGORIES, customs, CategoryName, CategoryOrder);
  }

  /** The same for the merged tags, with five defaults. */
  lemma AllTagsProperties(customs: seq<Tag>)
    ensures var r := AllTagsOf(customs);
      && SortedBy(r, TagOrder)
      && DistinctKeys(r, TagName)
      && |DEFAULT_TAGS| <= |r| <= |DEFAULT_TAGS| + |customs|
      && multiset(r) == multiset(Overlay(DEFAULT_TAGS, customs, TagName))
      && Names(r, TagName) == Names(DEFAULT_TAGS, TagName) + Names(customs, TagName)
      && (forall i :: 0 <= i < |DEFAULT_TAGS| && NoMatch(customs, TagName, DEFAULT_TAGS[i].name) ==>
            DEFAULT_TAGS[i] in r)
  {
    DefaultsDistinct();
    MergedProperties(DEFAULT_TAGS, customs, TagName, TagOrder);
    MergedMembers(DEFAULT_TAGS, customs, TagName, TagOrder);
  }

  /** With no custom category the merged list is the defaults as they are. */
  lemma NoCustomCategories()
    ensures AllCategoriesOf([]) == DEFAULT_CATEGORIES
    ensures AllTagsOf([]) == DEFAULT_TAGS
  {
    DefaultCategoriesSorted();
    DefaultTagsSorted();
    SortOfSorted(DEFAULT_CATEGORIES, CategoryOrder);
    SortOfSorted(DEFAULT_TAGS, TagOrder);
  }

  /** The defaults are numbered by position, so already in order. */
  lemma DefaultCategoriesSorted()
    ensures SortedBy(DEFAULT_CATEGORIES, CategoryOrder)
  {
    assert forall i :: 0 <= i < |DEFAULT_CATEGORIES| ==> CategoryOrder(DEFAULT_CATEGORIES[i]) == i + 1;
  }

  lemma DefaultTagsSorted()
    ensures SortedBy(DEFAULT_TAGS, TagOrder)
  {
    assert forall i :: 0 <= i < |DEFAULT_TAGS| ==> TagOrder(DEFAULT_TAGS[i]) == i + 1;
  }

  /** `categoryNames`: the merged list's names, in the merged order. */
  function CategoryNames(customs: seq<Category>): seq<string> {
    NameList(AllCategoriesOf(customs), CategoryName)
  }

  /** The names are distinct, one per merged entry, and they are the default
      and the custom names. */
  lemma CategoryNamesDistinct(customs: seq<Category>)
    ensures var r := CategoryNames(customs);
      && |r| == |AllCategoriesOf(customs)|
      && (forall i, j :: 0 <= i < j < |r| ==> r[i] != r[j])
      && (forall x :: x in r <==> x in Names(DEFAULT_CATEGORIES, CategoryName) + Names(customs, CategoryName))
  {
    DefaultsDistinct();
    MergedProperties(DEFAULT_CATEGORIES, customs, CategoryName, CategoryOrder);
    MergedMembers(DEFAULT_CATEGORIES, customs, CategoryName, CategoryOrder);
    NameListMembers(AllCategoriesOf(customs), CategoryName);
  }

  /** `tagNames`: the merged list's names, in the merged order. */
  function TagNames(customs: seq<Tag>): seq<string> {
    NameList(AllTagsOf(customs), TagName)
  }

  /** The names are distinct, one per merged entry, and they are the default
      and the custom names. */
  lemma TagNamesDistinct(customs: seq<Tag>)
    ensures var r := TagNames(customs);
      && |r| == |AllTagsOf(customs)|
      && (forall i, j :: 0 <= i < j < |r| ==> r[i] != r[j])
      && (forall x :: x in r <==> x in Names(DEFAULT_TAGS, TagName) + Names(customs, TagName))
  {
    DefaultsDistinct();
    MergedProperties(DEFAULT_TAGS, customs, TagName, TagOrder);
    MergedMembers(DEFAULT_TAGS, customs, TagName, TagOrder);
    NameListMembers(AllTagsOf(customs), TagName);
  }

  /** `getTagColor`: the colour of the first merged tag with that name, or the
      fallback colour. */
  function GetTagColor(customs: seq<Tag>, tagName: string): string {
    match Find(AllTagsOf(customs), TagName, tagName)
    case Some(t) => t.color
    case None => FALLBACK_TAG_COLOR
  }

  /** The latest custom tag decides its name's colour, defaults included; a
      name no tag has gets the fallback. */
  lemma TagColorLookup(customs: seq<Tag>, t: Tag, tagName: string)
    ensures GetTagColor(customs + [t], t.name) == t.color
    ensures NoMatch(DEFAULT_TAGS, TagName, tagName) && NoMatch(customs, TagName, tagName) ==>
      GetTagColor(customs, tagName) == FALLBACK_TAG_COLOR
  {
    DefaultsDistinct();
    MergedFind(DEFAULT_TAGS, customs, t, tagName, TagName, TagOrder);
  }

  /** Without custom tags each default name has its default colour. */
  lemma DefaultTagColors()
    ensures GetTagColor([], "日常") == "#007aff"
    ensures GetTagColor([], "工作") == "#5856d6"
    ensures GetTagColor([], "休闲") == "#34c759"
    ensures GetTagColor([], "旅行") == FALLBACK_TAG_COLOR
  {
    NoCustomCategories();
    DefaultsDistinct();
    FindDistinct(DEFAULT_TAGS, TagName, 0);
    FindDistinct(DEFAULT_TAGS, TagName, 1);
    FindDistinct(DEFAULT_TAGS, TagName, 4);
    assert NoMatch(DEFAULT_TAGS, TagName, "旅行");
  }

  /** The colour a new tag gets when none is given: the palette entry at the
      number of custom tags, cyclically. */
  function PaletteColor(count: nat): string {
    TAG_COLORS[count % |TAG_COLORS|]
  }

  /** The palette colour is one of the ten and repeats every ten tags, starting
      from the first default tag's colour. */
  lemma PaletteCycles(count: nat)
    ensures PaletteColor(count) in TAG_COLORS
    ensures PaletteColor(count + |TAG_COLORS|) == PaletteColor(count)
    ensures PaletteColor(0) == DEFAULT_TAGS[0].color
  {
    assert (count + 10) % 10 == count % 10;
  }

  /** The category `addCategory` creates when `count` custom categories exist
      and the clock reads `now` milliseconds. */
  function NewCategory(count: nat, name: string, now: nat): (c: Category)
    ensures c.name == name && c.icon.None?
    ensures |c.id| > 4 && c.id[..4] == "cat-" && AllDigits(c.id[4..]) && DigitsValue(c.id[4..]) == now
    ensures c.order > count + |DEFAULT_CATEGORIES|
  {
    NatToStringRoundTrip(now);
    assert ("cat-" + NatToString(now))[4..] == NatToString(now);
    Category("cat-" + NatToString(now), name, None, count + |DEFAULT_CATEGORIES| + 1)
  }

  /** The tag `addTag` creates when `count` custom tags exist. */
  function NewTag(count: nat, name: string, color: Option<string>, now: nat): (t: Tag)
    ensures t.name == name
    ensures color.Some? ==> t.color == color.value
    ensures color.None? ==> t.color in TAG_COLORS
    ensures |t.id| > 4 && t.id[..4] == "tag-" && AllDigits(t.id[4..]) && DigitsValue(t.id[4..]) == now
    ensures t.order > count + |DEFAULT_TAGS|
  {
    NatToStringRoundTrip(now);
    assert ("tag-" + NatToString(now))[4..] == NatToString(now);
    Tag("tag-" + NatToString(now), name, color.GetOr(PaletteColor(count)), count + |DEFAULT_TAGS| + 1)
  }

  /** The defaults are numbered from 1 up to their count. */
  lemma DefaultOrders()
    ensures forall i :: 0 <= i < |DEFAULT_CATEGORIES| ==> DEFAULT_CATEGORIES[i].order <= |DEFAULT_CATEGORIES|
    ensures forall i :: 0 <= i < |DEFAULT_TAGS| ==> DEFAULT_TAGS[i].order <= |DEFAULT_TAGS|
  {
  }

  /** A category added under a new name, after categories all numbered below
      it (as `addCategory` numbers them), is listed last; under any name it is
      what the merged list holds for that name. */
  lemma AddedCategoryIsListed(customs: seq<Category>, name: string, now: nat)
    ensures var c := NewCategory(|customs|, name, now);
      Find(AllCategoriesOf(customs + [c]), CategoryName, name) == Some(c)
    ensures var c := NewCategory(|customs|, name, now);
      NoMatch(DEFAULT_CATEGORIES, CategoryName, name) && NoMatch(customs, CategoryName, name) &&
      (forall i :: 0 <= i < |customs| ==> customs[i].order < c.order) ==>
      AllCategoriesOf(customs + [c]) == AllCategoriesOf(customs) + [c]
  {
    var c := NewCategory(|customs|, name, now);
    DefaultsDistinct();
    MergedFind(DEFAULT_CATEGORIES, customs, c, name, CategoryName, CategoryOrder);
    if NoMatch(DEFAULT_CATEGORIES, CategoryName, name) && NoMatch(customs, CategoryName, name) &&
      (forall i :: 0 <= i < |customs| ==> customs[i].order < c.order)
    {
      DefaultOrders();
      assert forall i :: 0 <= i < |DEFAULT_CATEGORIES| ==> CategoryOrder(DEFAULT_CATEGORIES[i]) <= c.order;
      MergedAppendFresh(DEFAULT_CATEGORIES, customs, c, CategoryName, CategoryOrder);
    }
  }

  /** The same for a tag added by `addTag`. */
  lemma AddedTagIsListed(customs: seq<Tag>, name: string, color: Option<string>, now: nat)
    ensures var t := NewTag(|customs|, name, color, now);
      Find(AllTagsOf(customs + [t]), TagName, name) == Some(t)
    ensures var t := NewTag(|customs|, name, color, now);
      NoMatch(DEFAULT_TAGS, TagName, name) && NoMatch(customs, TagName, name) &&
      (forall i :: 0 <= i < |customs| ==> customs[i].order < t.order) ==>
      AllTagsOf(customs + [t]) == AllTagsOf(customs) + [t]
  {
    var t := NewTag(|customs|, name, color, now);
    DefaultsDistinct();
    MergedFind(DEFAULT_TAGS, customs, t, name, TagName, TagOrder);
    if NoMatch(DEFAULT_TAGS, TagName, name) && NoMatch(customs, TagName, name) &&
      (forall i :: 0 <= i < |customs| ==> customs[i].order < t.order)
    {
      DefaultOrders();
      assert forall i :: 0 <= i < |DEFAULT_TAGS| ==> TagOrder(DEFAULT_TAGS[i]) <= t.order;
      MergedAppendFresh(DEFAULT_TAGS, customs, t, TagName, TagOrder);
    }
  }

  /** Deleting a custom category, or updating one without renaming it,
      brings in no new name: a default that no custom category renamed over
      before the edit is still listed after it. */
  lemma EditsKeepDefaults(customs: seq<Category>, id: string, updates: CategoryPatch, i: int)
    requires 0 <= i < |DEFAULT_CATEGORIES|
    requires NoMatch(customs, CategoryName, DEFAULT_CATEGORIES[i].name)
    ensures DEFAULT_CATEGORIES[i] in AllCategoriesOf(RemoveFirst(customs, CategoryId, id))
    ensures updates.name.None? ==>
      DEFAULT_CATEGORIES[i] in AllCategoriesOf(UpdateFirst(customs, CategoryId, id, (c: Category) => SpreadCategory(c, updates)))
  {
    var name := DEFAULT_CATEGORIES[i].name;
    var removed := RemoveFirst(customs, CategoryId, id);
    var index := FindIndex(customs, CategoryId, id);
    if index.Some? {
      var k := index.value;
      forall j | 0 <= j < |removed| ensures CategoryName(removed[j]) != name {
        if j < k { assert removed[j] == customs[j]; } else { assert removed[j] == customs[j + 1]; }
      }
    }
    AllCategoriesProperties(removed);
    if updates.name.None? {
      var f := (c: Category) => SpreadCategory(c, updates);
      var updated := UpdateFirst(customs, CategoryId, id, f);
      forall j | 0 <= j < |updated| ensures CategoryName(updated[j]) != name {
        if IsFirstMatch(customs, CategoryId, id, j) {
          assert updated[j] == f(customs[j]);
        } else if FindIndex(customs, CategoryId, id).Some? {
          assert updated[j] == customs[j];
        }
      }
      AllCategoriesProperties(updated);
    }
  }

  /** Set a category's order. */
  function CategoryWithOrder(c: Category, order: int): Category {
    c.(order := order)
  }

  /** Set a tag's order. */
  function TagWithOrder(t: Tag, order: int): Tag {
    t.(order := order)
  }

  /** After `moveCategory` every category is numbered by its position, the
      moved category sits at the target index, and apart from the numbers the
      list is a rearrangement of the old one. */
  lemma MovedCategories(customs: seq<Category>, from: int, to: int)
    requires |customs| > 0 && from < |customs|
    ensures var r := MoveAndRenumber(customs, from, to, CategoryWithOrder);
      var f, t := SpliceStart(from, |customs|), SpliceStart(to, |customs| - 1);
      && |r| == |customs|
      && (forall i :: 0 <= i < |r| ==> r[i].order == i + 1)
      && r[t] == customs[f].(order := t + 1)
      && multiset(Move(customs, f, t)) == multiset(customs)
      && (forall i :: 0 <= i < |r| ==> r[i] == Move(customs, f, t)[i].(order := i + 1))
  {
    MoveAndRenumberShape(customs, from, to, CategoryWithOrder);
  }

  /** The same for `moveTag`. */
  lemma MovedTags(customs: seq<Tag>, from: int, to: int)
    requires |customs| > 0 && from < |customs|
    ensures var r := MoveAndRenumber(customs, from, to, TagWithOrder);
      var f, t := SpliceStart(from, |customs|), SpliceStart(to, |customs| - 1);
      && |r| == |customs|
      && (forall i :: 0 <= i < |r| ==> r[i].order == i + 1)
      && r[t] == customs[f].(order := t + 1)
      && multiset(Move(customs, f, t)) == multiset(customs)
      && (forall i :: 0 <= i < |r| ==> r[i] == Move(customs, f, t)[i].(order := i + 1))
  {
    MoveAndRenumberShape(customs, from, to, TagWithOrder);
  }

  /** The fields `importData` takes from a backup and `loadFromStorage` from
      the persisted store: each list when present, the backup time when it is
      a non-empty string. */
  datatype SettingsData = SettingsData(
    categories: Option<seq<Category>>,
    tags: Option<seq<Tag>>,
    lastBackupTime: Option<string>)

  class Store {
    var customCategories: seq<Category>
    var customTags: seq<Tag>
    var lastBackupTime: Option<string>
    var isLoading: bool

    constructor ()
      ensures customCategories == [] && customTags == [] && lastBackupTime == None && !isLoading
    {
      customCategories := [];
      customTags := [];
      lastBackupTime := None;
      isLoading := false;
    }

    /** `allCategories`, as the source computes it: copy the defaults, merge
      each custom category in turn, sort. */
    method AllCategories() returns (r: seq<Category>)
      ensures r == AllCategoriesOf(customCategories)
      ensures SortedBy(r, CategoryOrder) && DistinctKeys(r, CategoryName)
    {
      var combined := DEFAULT_CATEGORIES;
      var i := 0;
      while i < |customCategories|
        invariant 0 <= i <= |customCategories|
        invariant Overlay(combined, customCategories[i..], CategoryName) == Overlay(DEFAULT_CATEGORIES, customCategories, CategoryName)
      {
        var custom := customCategories[i];
        assert customCategories[i..][1..] == customCategories[i + 1..];
        var existing := FindIndex(combined, CategoryName, custom.name);
        if existing.None? {
          combined := combined + [custom];
        } else {
          combined := combined[existing.value := custom];
        }
        i := i + 1;
      }
      r := SortBy(combined, CategoryOrder);
      AllCategoriesProperties(customCategories);
    }

    /** `allTags`, as the source computes it. */
    method AllTags() returns (r: seq<Tag>)
      ensures r == AllTagsOf(customTags)
      ensures SortedBy(r, TagOrder) && DistinctKeys(r, TagName)
    {
      var combined := DEFAULT_TAGS;
      var i := 0;
      while i < |customTags|
        invariant 0 <= i <= |customTags|
        invariant Overlay(combined, customTags[i..], TagName) == Overlay(DEFAULT_TAGS, customTags, TagName)
      {
        var custom := customTags[i];
        assert customTags[i..][1..] == customTags[i + 1..];
        var existing := FindIndex(combined, TagName, custom.name);
        if existing.None? {
          combined := combined + [custom];
        } else {
          combined := combined[existing.value := custom];
        }
        i := i + 1;
      }
      r := SortBy(combined, TagOrder);
      AllTagsProperties(customTags);
    }

    /** `addCategory`: append a category numbered after the defaults and the
      existing customs, its id taken from the clock. */
    method AddCategory(name: string, now: nat) returns (c: Category)
      modifies this`customCategories
      ensures c == NewCategory(|old(customCategories)|, name, now)
      ensures c.order == |old(customCategories)| + 5
      ensures customCategories == old(customCategories) + [c]
    {
      c := Category("cat-" + NatToString(now), name, None, |customCategories| + |DEFAULT_CATEGORIES| + 1);
      customCategories := customCategories + [c];
    }

    /** `updateCategory`: spread `updates` over the first custom category with
      that id; defaults are not searched, and an unknown id changes nothing. */
    method UpdateCategory(id: string, updates: CategoryPatch)
      modifies this`customCategories
      ensures customCategories == UpdateFirst(old(customCategories), CategoryId, id, (c: Category) => SpreadCategory(c, updates))
    {
      var index := FindIndex(customCategories, CategoryId, id);
      if index.Some? {
        var i := index.value;
        customCategories := customCategories[i := SpreadCategory(customCategories[i], updates)];
      }
    }

    /** `deleteCategory`: remove the first custom category with that id. */
    method DeleteCategory(id: string)
      modifies this`customCategories
      ensures customCategories == RemoveFirst(old(customCategories), CategoryId, id)
    {
      var index := FindIndex(customCategories, CategoryId, id);
      if index.Some? {
        customCategories := RemoveAt(customCategories, index.value);
      }
    }

    /** `moveCategory`: take out the category at `fromIndex`, insert it at
      `toIndex`, then number every custom category by its position. */
    method MoveCategory(fromIndex: int, toIndex: int)
      requires |customCategories| > 0 && fromIndex < |customCategories|
      modifies this`customCategories
      ensures customCategories == MoveAndRenumber(old(customCategories), fromIndex, toIndex, CategoryWithOrder)
    {
      var n := |customCategories|;
      var moved := Move(customCategories, SpliceStart(fromIndex, n), SpliceStart(toIndex, n - 1));
      var cs := moved;
      var i := 0;
      while i < |cs|
        invariant 0 <= i <= |cs| == |moved|
        invariant forall k :: 0 <= k < i ==> cs[k] == CategoryWithOrder(moved[k], k + 1)
        invariant forall k :: i <= k < |cs| ==> cs[k] == moved[k]
      {
        cs := cs[i := cs[i].(order := i + 1)];
        i := i + 1;
      }
      customCategories := cs;
    }

    /** `addTag`: append a tag numbered after the defaults and the existing
      customs, with the given colour or else the next palette colour. */
    method AddTag(name: string, color: Option<string>, now: nat) returns (t: Tag)
      modifies this`customTags
      ensures t == NewTag(|old(customTags)|, name, color, now)
      ensures t.order == |old(customTags)| + 6
      ensures t.color == if color.Some? then color.value else TAG_COLORS[|old(customTags)| % 10]
      ensures customTags == old(customTags) + [t]
    {
      var tagColor := if color.Some? then color.value else TAG_COLORS[|customTags| % |TAG_COLORS|];
      t := Tag("tag-" + NatToString(now), name, tagColor, |customTags| + |DEFAULT_TAGS| + 1);
      customTags := customTags + [t];
    }

    /** `updateTag`: spread `updates` over the first custom tag with that id. */
    method UpdateTag(id: string, updates: TagPatch)
      modifies this`customTags
      ensures customTags == UpdateFirst(old(customTags), TagId, id, (t: Tag) => SpreadTag(t, updates))
    {
      var index := FindIndex(customTags, TagId, id);
      if index.Some? {
        var i := index.value;
        customTags := customTags[i := SpreadTag(customTags[i], updates)];
      }
    }

    /** `deleteTag`: remove the first custom tag with that id. */
    method DeleteTag(id: string)
      modifies this`customTags
      ensures customTags == RemoveFirst(old(customTags), TagId, id)
    {
      var index := FindIndex(customTags, TagId, id);
      if index.Some? {
        customTags := RemoveAt(customTags, index.value);
      }
    }

    /** `moveTag`: the same move and renumbering over the custom tags. */
    method MoveTag(fromIndex: int, toIndex: int)
      requires |customTags| > 0 && fromIndex < |customTags|
      modifies this`customTags
      ensures customTags == MoveAndRenumber(old(customTags), fromIndex, toIndex, TagWithOrder)
    {
      var n := |customTags|;
      var moved := Move(customTags, SpliceStart(fromIndex, n), SpliceStart(toIndex, n - 1));
      var ts := moved;
      var i := 0;
      while i < |ts|
        invariant 0 <= i <= |ts| == |moved|
        invariant forall k :: 0 <= k < i ==> ts[k] == TagWithOrder(moved[k], k + 1)
        invariant forall k :: i <= k < |ts| ==> ts[k] == moved[k]
      {
        ts := ts[i := ts[i].(order := i + 1)];
        i := i + 1;
      }
      customTags := ts;
    }

    /** `clearCache`: empty the host store, then forget the backup time and
      both custom lists. When the host throws, the error propagates with
      nothing changed; `Err` carries it. */
    method ClearCache(host: Storage.Host, fault: Option<string>) returns (r: Result<()>)
      modifies host, this`customCategories, this`customTags, this`lastBackupTime
      ensures fault.Some? ==>
        && r == Err(fault.value) && host.items == old(host.items)
        && customCategories == old(customCategories) && customTags == old(customTags)
        && lastBackupTime == old(lastBackupTime)
      ensures fault.None? ==>
        && r == Ok(()) && host.items == map[]
        && customCategories == [] && customTags == [] && lastBackupTime == None
    {
      r := host.Clear(fault);
      if r.Err? {
        return;
      }
      lastBackupTime := None;
      customCategories := [];
      customTags := [];
    }

    /** `importData`: take each list that the backup has, and its backup time
      when that is a non-empty string; leave the rest alone. */
    method ImportData(data: SettingsData)
      modifies this`customCategories, this`customTags, this`lastBackupTime
      ensures customCategories == if data.categories.Some? then data.categories.value else old(customCategories)
      ensures customTags == if data.tags.Some? then data.tags.value else old(customTags)
      ensures lastBackupTime == if Truthy(data.lastBackupTime) then data.lastBackupTime else old(lastBackupTime)
    {
      if data.categories.Some? {
        customCategories := data.categories.value;
      }
      if data.tags.Some? {
        customTags := data.tags.value;
      }
      if Truthy(data.lastBackupTime) {
        lastBackupTime := data.lastBackupTime;
      }
    }

    /** `loadFromStorage`: raise the loading flag; when the host holds a
      persisted object, take its fields as `importData` does; swallow a host
      error; always lower the flag. */
    method LoadFromStorage(stored: StoredValue<SettingsData>)
      modifies this`customCategories, this`customTags, this`lastBackupTime, this`isLoading
      ensures !isLoading
      ensures customCategories == if stored.Found? && stored.value.categories.Some? then stored.value.categories.value else old(customCategories)
      ensures customTags == if stored.Found? && stored.value.tags.Some? then stored.value.tags.value else old(customTags)
      ensures lastBackupTime == if stored.Found? && Truthy(stored.value.lastBackupTime) then stored.value.lastBackupTime else old(lastBackupTime)
    {
      isLoading := true;
      match stored {
        case Found(value) =>
          ImportData(value);
        case Missing =>
        case HostThrew(_) =>
      }
      isLoading := false;
    }
  }
}
