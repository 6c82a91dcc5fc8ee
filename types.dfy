/** The records of the wardrobe: clothing items, outfits, calendar wear
    records, categories and tags, each with its `Partial<T>` patch and the
    object spread `{ ...record, ...patch }` that applies it.

    In a patch every field is either absent (`None`) or given (`Some`). An
    optional field of the record is itself an `Option`, so a patch may give
    it as `undefined` (`Some(None)`), which clears it, as spreading does. */
module Types {
  import opened Common

  /** A clothing item's lifecycle status; a missing status means active. */
  datatype Status = Active | Archived

  datatype Clothing = Clothing(
    id: string,
    name: string,
    brand: string,
    category: string,
    color: string,
    size: string,
    purchaseDate: Option<string>,
    price: Option<real>,
    images: seq<string>,
    tags: seq<string>,
    status: Option<Status>,
    createdAt: string,
    updatedAt: string)

  datatype ClothingPatch = ClothingPatch(
    id: Option<string>,
    name: Option<string>,
    brand: Option<string>,
    category: Option<string>,
    color: Option<string>,
    size: Option<string>,
    purchaseDate: Option<Option<string>>,
    price: Option<Option<real>>,
    images: Option<seq<string>>,
    tags: Option<seq<string>>,
    status: Option<Option<Status>>,
    createdAt: Option<string>,
    updatedAt: Option<string>)

  const NoClothingChange := ClothingPatch(None, None, None, None, None, None, None, None, None, None, None, None, None)

  /** `{ ...c, ...p }`. */
  function SpreadClothing(c: Clothing, p: ClothingPatch): Clothing {
    Clothing(
      p.id.GetOr(c.id), p.name.GetOr(c.name), p.brand.GetOr(c.brand),
      p.category.GetOr(c.category), p.color.GetOr(c.color), p.size.GetOr(c.size),
      p.purchaseDate.GetOr(c.purchaseDate), p.price.GetOr(c.price),
      p.images.GetOr(c.images), p.tags.GetOr(c.tags), p.status.GetOr(c.status),
      p.createdAt.GetOr(c.createdAt), p.updatedAt.GetOr(c.updatedAt))
  }

  /** `{ ...p, ...q }`: the later patch wins field by field. */
  function ThenClothing(p: ClothingPatch, q: ClothingPatch): ClothingPatch {
    ClothingPatch(
      if q.id.Some? then q.id else p.id,
      if q.name.Some? then q.name else p.name,
      if q.brand.Some? then q.brand else p.brand,
      if q.category.Some? then q.category else p.category,
      if q.color.Some? then q.color else p.color,
      if q.size.Some? then q.size else p.size,
      if q.purchaseDate.Some? then q.purchaseDate else p.purchaseDate,
      if q.price.Some? then q.price else p.price,
      if q.images.Some? then q.images else p.images,
      if q.tags.Some? then q.tags else p.tags,
      if q.status.Some? then q.status else p.status,
      if q.createdAt.Some? then q.createdAt else p.createdAt,
      if q.updatedAt.Some? then q.updatedAt else p.updatedAt)
  }

  /** The patch that gives every field of `d`. */
  function FullClothingPatch(d: Clothing): ClothingPatch {
    ClothingPatch(
      Some(d.id), Some(d.name), Some(d.brand), Some(d.category), Some(d.color), Some(d.size),
      Some(d.purchaseDate), Some(d.price), Some(d.images), Some(d.tags), Some(d.status),
      Some(d.createdAt), Some(d.updatedAt))
  }

  /** Spreading an empty patch changes nothing; spreading a full patch gives
      the patch's record; spreading twice is spreading once; two spreads in a
      row are one spread of the combined patch. */
  lemma SpreadClothingLaws(c: Clothing, d: Clothing, p: ClothingPatch, q: ClothingPatch)
    ensures SpreadClothing(c, NoClothingChange) == c
    ensures SpreadClothing(c, FullClothingPatch(d)) == d
    ensures SpreadClothing(SpreadClothing(c, p), p) == SpreadClothing(c, p)
    ensures SpreadClothing(SpreadClothing(c, p), q) == SpreadClothing(c, ThenClothing(p, q))
  {
  }

  datatype Outfit = Outfit(
    id: string,
    name: string,
    clothingIds: seq<string>,
    images: seq<string>,
    createdAt: string,
    updatedAt: string)

  datatype OutfitPatch = OutfitPatch(
    id: Option<string>,
    name: Option<string>,
    clothingIds: Option<seq<string>>,
    images: Option<seq<string>>,
    createdAt: Option<string>,
    updatedAt: Option<string>)

  const NoOutfitChange := OutfitPatch(None, None, None, None, None, None)

  /** `{ ...o, ...p }`. */
  function SpreadOutfit(o: Outfit, p: OutfitPatch): Outfit {
    Outfit(
      p.id.GetOr(o.id), p.name.GetOr(o.name), p.clothingIds.GetOr(o.clothingIds),
      p.images.GetOr(o.images), p.createdAt.GetOr(o.createdAt), p.updatedAt.GetOr(o.updatedAt))
  }

  function FullOutfitPatch(d: Outfit): OutfitPatch {
    OutfitPatch(Some(d.id), Some(d.name), Some(d.clothingIds), Some(d.images), Some(d.createdAt), Some(d.updatedAt))
  }

  lemma SpreadOutfitLaws(o: Outfit, d: Outfit, p: OutfitPatch)
    ensures SpreadOutfit(o, NoOutfitChange) == o
    ensures SpreadOutfit(o, FullOutfitPatch(d)) == d
    ensures SpreadOutfit(SpreadOutfit(o, p), p) == SpreadOutfit(o, p)
  {
  }

  datatype CalendarWear = CalendarWear(
    id: string,
    date: string,
    outfitId: Option<string>,
    clothingIds: seq<string>,
    createdAt: string)

  datatype CalendarWearPatch = CalendarWearPatch(
    id: Option<string>,
    date: Option<string>,
    outfitId: Option<Option<string>>,
    clothingIds: Option<seq<string>>,
    createdAt: Option<string>)

  const NoWearChange := CalendarWearPatch(None, None, None, None, None)

  /** `{ ...r, ...p }`. */
  function SpreadWear(r: CalendarWear, p: CalendarWearPatch): CalendarWear {
    CalendarWear(
      p.id.GetOr(r.id), p.date.GetOr(r.date), p.outfitId.GetOr(r.outfitId),
      p.clothingIds.GetOr(r.clothingIds), p.createdAt.GetOr(r.createdAt))
  }

  function FullWearPatch(d: CalendarWear): CalendarWearPatch {
    CalendarWearPatch(Some(d.id), Some(d.date), Some(d.outfitId), Some(d.clothingIds), Some(d.createdAt))
  }

  lemma SpreadWearLaws(r: CalendarWear, d: CalendarWear, p: CalendarWearPatch)
    ensures SpreadWear(r, NoWearChange) == r
    ensures SpreadWear(r, FullWearPatch(d)) == d
    ensures SpreadWear(SpreadWear(r, p), p) == SpreadWear(r, p)
  {
  }

  datatype Category = Category(id: string, name: string, icon: Option<string>, order: int)

  datatype CategoryPatch = CategoryPatch(
    id: Option<string>,
    name: Option<string>,
    icon: Option<Option<string>>,
    order: Option<int>)

  /** `{ ...c, ...p }`. */
  function SpreadCategory(c: Category, p: CategoryPatch): Category {
    Category(p.id.GetOr(c.id), p.name.GetOr(c.name), p.icon.GetOr(c.icon), p.order.GetOr(c.order))
  }

  datatype Tag = Tag(id: string, name: string, color: string, order: int)

  datatype TagPatch = TagPatch(
    id: Option<string>,
    name: Option<string>,
    color: Option<string>,
    order: Option<int>)

  /** `{ ...t, ...p }`. */
  function SpreadTag(t: Tag, p: TagPatch): Tag {
    Tag(p.id.GetOr(t.id), p.name.GetOr(t.name), p.color.GetOr(t.color), p.order.GetOr(t.order))
  }

  // Keys the stores match records on.
  function ClothingId(c: Clothing): string { c.id }
  function OutfitId(o: Outfit): string { o.id }
  function WearId(r: CalendarWear): string { r.id }
  function CategoryId(c: Category): string { c.id }
  function CategoryName(c: Category): string { c.name }
  function CategoryOrder(c: Category): int { c.order }
  function TagId(t: Tag): string { t.id }
  function TagName(t: Tag): string { t.name }
  function TagOrder(t: Tag): int { t.order }
}
