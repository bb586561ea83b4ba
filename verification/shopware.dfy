/**
 * The target side of the product sync: the snapshot of an existing
 * Shopware product (with the associations the preload asks for), sales
 * channels, and the rows the mapping queues for deletion.
 */
module Shopware {
  import opened Common

  /** Defaults::CURRENCY, Shopware's system currency id. */
  const DefaultCurrency: SwId := Hex("b7d2554b0ce847cd82f3ac9bd1c0dfca")

  /** ProductVisibilityDefinition::VISIBILITY_ALL */
  const VisibilityAll: int := 30

  datatype ProductVisibility = ProductVisibility(id: SwId, salesChannelId: SwId)
  datatype ProductMedia = ProductMedia(id: SwId, mediaId: SwId)
  datatype MainCategory = MainCategory(id: SwId, salesChannelId: SwId)
  datatype ConfiguratorSetting = ConfiguratorSetting(id: SwId, optionId: SwId)

  /**
   * An existing product with its loaded associations. An association the
   * repository returns as null is an empty list: every closure skips its
   * loop in both cases.
   */
  datatype ExistingProduct = ExistingProduct(
    id: SwId,
    stock: int,
    categoryIds: seq<SwId>,
    tagIds: seq<SwId>,
    visibilities: seq<ProductVisibility>,
    propertyIds: seq<SwId>,
    optionIds: seq<SwId>,
    media: seq<ProductMedia>,
    mainCategories: seq<MainCategory>,
    configuratorSettings: seq<ConfiguratorSetting>)

  /**
   * A sales channel with its connector custom fields: the market id and the
   * client (plentyId) it stands for, absent when not set.
   */
  datatype SalesChannel = SalesChannel(id: SwId, marketId: Option<int>, plentyId: Option<int>)

  /** `!empty($customFields[...])` on an integer custom field. */
  predicate IsSet(x: Option<int>)
  {
    x.Some? && x.value != 0
  }

  datatype CategoryDelete = CategoryDelete(productId: SwId, categoryId: SwId)
  datatype TagDelete = TagDelete(productId: SwId, tagId: SwId)
  datatype VisibilityDelete = VisibilityDelete(id: SwId, productId: SwId, salesChannelId: SwId)
  datatype PropertyDelete = PropertyDelete(productId: SwId, optionId: SwId)
  datatype OptionDelete = OptionDelete(productId: SwId, optionId: SwId)
  datatype MediaDelete = MediaDelete(id: SwId, productId: SwId, mediaId: SwId)
  datatype MainCategoryDelete = MainCategoryDelete(id: SwId)
  datatype ConfiguratorSettingDelete = ConfiguratorSettingDelete(id: SwId, productId: SwId, optionId: SwId)

  /**
   * The connector's configuration predicates, which live in a service this
   * model does not include: whether a variation's markets (clients) are
   * allowed, optionally restricted to the given market (client) ids.
   */
  datatype ConnectorConfig = ConnectorConfig(
    marketAllowed: (seq<int>, Option<seq<int>>) -> bool,
    clientAllowed: (seq<int>, Option<seq<int>>) -> bool)
}
