/**
 * The source records the product sync reads: one ItemUpdate per changed
 * plentymarkets variation, carrying the variation payload. Only the keys
 * the product mapping reads are modelled; a key the payload may lack or
 * hold null is an Option, and a list that may be missing or null is an
 * empty list (every loop over it then does nothing, as in the source).
 */
module Plenty {
  import opened Common

  datatype VariationCategory = VariationCategory(categoryId: PlentyId, position: int)

  /** A default category per client (plentyId), pointing at a category (branchId). */
  datatype DefaultCategory = DefaultCategory(plentyId: int, branchId: PlentyId)

  /** One value of a property: its own id and its value (a selection id for selection casts). */
  datatype PropertyValue = PropertyValue(id: int, value: Value)

  /** A selection of a selection-cast property. */
  datatype Selection = Selection(id: int, name: string)

  /**
   * A property assigned to the variation. `selectionIds` holds the
   * `selectionValues[*].selectionId` entries, `selections` the property's
   * possible selections (`property.selections`).
   */
  datatype VariationProperty = VariationProperty(
    propertyId: int,
    cast: string,
    values: seq<PropertyValue>,
    selections: seq<Selection>,
    selectionIds: seq<int>)

  /** An image as ImageHelper::getImages returns it. */
  datatype Image = Image(id: int, position: int)

  datatype SalesPrice = SalesPrice(salesPriceId: int, price: real)

  datatype StockEntry = StockEntry(
    variationId: PlentyId,
    warehouseId: int,
    stockPhysical: int,
    reservedStock: int,
    reservedBundle: int)

  datatype Barcode = Barcode(barcodeId: int, code: string)

  datatype Supplier = Supplier(itemNumber: Value)

  datatype Base = Base(
    isMain: Option<bool>,
    mainVariationId: Option<PlentyId>,
    vatId: Option<int>,
    availabilityId: Option<int>,
    manufacturerId: Option<int>,
    stock: seq<StockEntry>)

  datatype Variation = Variation(
    id: PlentyId,
    base: Base,
    categories: seq<VariationCategory>,
    defaultCategories: seq<DefaultCategory>,
    tags: seq<int>,
    attributeValueIds: seq<int>,
    properties: seq<VariationProperty>,
    images: seq<Image>,
    salesPrices: Option<seq<SalesPrice>>,
    unitId: Option<int>,
    marketIds: seq<int>,
    clientIds: seq<int>,
    barcodes: seq<Barcode>,
    suppliers: seq<Supplier>)

  datatype ItemUpdate = ItemUpdate(plentyId: PlentyId, variation: Variation, errorCount: int)

  /** The property casts Plenty uses for selection properties. */
  const CastSelection: string := "selection"
  const CastMultiSelection: string := "multiSelection"

  predicate IsSelectionCast(cast: string)
  {
    cast == CastSelection || cast == CastMultiSelection
  }

  /** `($value['base']['isMain'] ?? null) === false`: a non-main variant. */
  predicate IsVariant(v: Variation)
  {
    v.base.isMain == Some(false)
  }

  /** `($value['base']['isMain'] ?? null) === true`: a main variation. */
  predicate IsMainVariation(v: Variation)
  {
    v.base.isMain == Some(true)
  }
}
