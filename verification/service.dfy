/**
 * The product sync service as an object: the lookup tables the preload
 * fills, the delete queues the mapping closures append to, the configurator
 * queue of the parents, and the bookkeeping of the updates it vetoes. The
 * mapping engine that drives it (link loading, the field loop, writing the
 * upserts) belongs to the connector's base service and is not modelled; it
 * reads and writes the public fields `entityLinks`, `upserts`,
 * `linkUpserts` and `processed` directly.
 */
module ProductSync {
  import opened Common
  import opened Plenty
  import opened Shopware
  import opened Reconcile
  import opened ProductRelations
  import opened MediaAssignments
  import opened MainCategories
  import opened Configurator
  import opened FieldTransforms
  import opened Preload
  import opened DynamicProperties

  // ------------------------------------------------------------- delete queues

  /**
   * The rows queued for deletion. The main-category and tag queues live in
   * the data store; the others are fields of the service.
   */
  datatype DeleteQueues = DeleteQueues(
    media: seq<MediaDelete>,
    visibilities: seq<VisibilityDelete>,
    mainCategories: seq<MainCategoryDelete>,
    categories: seq<CategoryDelete>,
    properties: seq<PropertyDelete>,
    options: seq<OptionDelete>,
    tags: seq<TagDelete>,
    settings: seq<ConfiguratorSettingDelete>)

  const NoDeletes: DeleteQueues := DeleteQueues([], [], [], [], [], [], [], [])

  /** One delete call on a repository. */
  datatype DeleteRequest =
    | DeleteMedia(media: seq<MediaDelete>)
    | DeleteVisibilities(visibilities: seq<VisibilityDelete>)
    | DeleteMainCategories(mainCategories: seq<MainCategoryDelete>)
    | DeleteCategories(categories: seq<CategoryDelete>)
    | DeleteProperties(properties: seq<PropertyDelete>)
    | DeleteOptions(options: seq<OptionDelete>)
    | DeleteTags(tags: seq<TagDelete>)
    | DeleteSettings(settings: seq<ConfiguratorSettingDelete>)

  predicate NonEmptyRequest(r: DeleteRequest)
  {
    match r
    case DeleteMedia(s) => s != []
    case DeleteVisibilities(s) => s != []
    case DeleteMainCategories(s) => s != []
    case DeleteCategories(s) => s != []
    case DeleteProperties(s) => s != []
    case DeleteOptions(s) => s != []
    case DeleteTags(s) => s != []
    case DeleteSettings(s) => s != []
  }

  /** The delete calls of `runBeforeUpdates`, in its order, one per non-empty queue. */
  function DeleteRequests(d: DeleteQueues): seq<DeleteRequest>
  {
    (if d.media != [] then [DeleteMedia(d.media)] else [])
    + (if d.visibilities != [] then [DeleteVisibilities(d.visibilities)] else [])
    + (if d.mainCategories != [] then [DeleteMainCategories(d.mainCategories)] else [])
    + (if d.categories != [] then [DeleteCategories(d.categories)] else [])
    + (if d.properties != [] then [DeleteProperties(d.properties)] else [])
    + (if d.options != [] then [DeleteOptions(d.options)] else [])
    + (if d.tags != [] then [DeleteTags(d.tags)] else [])
    + (if d.settings != [] then [DeleteSettings(d.settings)] else [])
  }

  /**
   * Nothing is sent exactly when every queue is empty, no call is empty,
   * media deletions go first and configurator settings last.
   */
  lemma DeleteRequestsSpec(d: DeleteQueues)
    ensures DeleteRequests(d) == [] <==> d == NoDeletes
    ensures forall r | r in DeleteRequests(d) :: NonEmptyRequest(r)
    ensures d.media != [] ==> DeleteRequests(d)[0] == DeleteMedia(d.media)
    ensures d.settings != [] ==> DeleteRequests(d)[|DeleteRequests(d)| - 1] == DeleteSettings(d.settings)
  {
    if DeleteRequests(d) == [] {
      assert d.media == [] && d.visibilities == [] && d.mainCategories == [] && d.categories == [];
      assert d.properties == [] && d.options == [] && d.tags == [] && d.settings == [];
    }
    DeleteRequestsNonEmpty(d);
    if d.settings != [] {
      var rs := DeleteRequests(d);
      var front := rs[..|rs| - 1];
      assert rs == front + [DeleteSettings(d.settings)];
    }
  }

  lemma DeleteRequestsNonEmpty(d: DeleteQueues)
    ensures forall r | r in DeleteRequests(d) :: NonEmptyRequest(r)
  {
    forall r | r in DeleteRequests(d) ensures NonEmptyRequest(r) {
      match r
      case DeleteMedia(s) => assert s == d.media;
      case DeleteVisibilities(s) => assert s == d.visibilities;
      case DeleteMainCategories(s) => assert s == d.mainCategories;
      case DeleteCategories(s) => assert s == d.categories;
      case DeleteProperties(s) => assert s == d.properties;
      case DeleteOptions(s) => assert s == d.options;
      case DeleteTags(s) => assert s == d.tags;
      case DeleteSettings(s) => assert s == d.settings;
    }
  }

  /** The queues `execute` clears before a run, as written: the product-property queue is not among them. */
  function ResetQueuesAsWritten(d: DeleteQueues): DeleteQueues
  {
    d.(media := [], visibilities := [], categories := [], options := [], settings := [])
  }

  /** The queues cleared before a run, with the product-property queue cleared like its siblings. */
  function ResetQueues(d: DeleteQueues): DeleteQueues
  {
    ResetQueuesAsWritten(d).(properties := [])
  }

  /**
   * As written, property deletions queued in one run of a long-lived
   * service are sent again by the next run, even if that run maps nothing.
   */
  lemma StalePropertyDeletesResent(d: DeleteQueues)
    requires d.properties != []
    ensures DeleteProperties(d.properties) in DeleteRequests(ResetQueuesAsWritten(d))
  {
  }

  /** With the property queue cleared, a fresh run sends only what the data store still holds. */
  lemma ResetQueuesSendsOnlyStoreQueues(d: DeleteQueues)
    ensures forall r | r in DeleteRequests(ResetQueues(d)) :: r.DeleteMainCategories? || r.DeleteTags?
    ensures d.mainCategories == [] && d.tags == [] ==> DeleteRequests(ResetQueues(d)) == []
  {
    DeleteRequestsSpec(ResetQueues(d));
  }

  // ------------------------------------------------------------- preload data

  /**
   * What the preload reads from the stores: the link tables (given whole),
   * the connector's price-id settings, the currencies, the sales channels,
   * the product catalogue and the existing custom-field names with the
   * connector's custom field set, if there is one.
   */
  datatype Stores = Stores(
    tagLinks: map<int, SwId>,
    retailPriceId: Option<int>,
    listPriceId: Option<int>,
    currencies: seq<Currency>,
    taxLinks: map<int, TaxLink>,
    unitLinks: map<int, SwId>,
    availabilityLinks: map<int, SwId>,
    itemLinks: map<PlentyId, SwId>,
    manufacturerLinks: map<int, SwId>,
    categoryLinks: map<PlentyId, SwId>,
    attributeValueLinks: map<int, SwId>,
    propertyValueLinks: map<Value, SwId>,
    mediaLinks: map<string, SwId>,
    channels: seq<SalesChannel>,
    catalogue: map<SwId, ExistingProduct>,
    customFieldNames: seq<string>,
    customFieldSetId: Option<SwId>)

  /** `additionalData` and the data-store tables the closures read. */
  datatype AdditionalData = AdditionalData(
    tagLinks: map<int, SwId>,
    currencyPriceIds: seq<Entry<SwId, PriceIds>>,
    taxLinks: map<int, TaxLink>,
    unitLinks: map<int, SwId>,
    availabilityLinks: map<int, SwId>,
    productLinks: map<PlentyId, SwId>,
    manufacturerLinks: map<int, SwId>,
    categoryLinks: map<PlentyId, SwId>,
    attributeValueLinks: map<int, SwId>,
    propertyValueLinks: map<Value, SwId>,
    imageLinks: map<string, SwId>,
    channels: seq<SalesChannel>,
    withMarket: seq<SalesChannel>,
    withPlentyId: seq<SalesChannel>,
    existing: map<SwId, ExistingProduct>)

  const NoAdditionalData: AdditionalData :=
    AdditionalData(map[], [], map[], map[], map[], map[], map[], map[], map[], map[], map[], [], [], [], map[])

  // ----------------------------------------------------- closure payload rows

  /** A visibility payload row. */
  datatype VisibilityRow = VisibilityRow(salesChannelId: SwId, visibility: int)

  function VisibilityRows(ids: seq<SwId>): (r: seq<VisibilityRow>)
  {
    seq(|ids|, i requires 0 <= i < |ids| => VisibilityRow(ids[i], VisibilityAll))
  }

  function CategoryDeletes(productId: SwId, ids: seq<SwId>): seq<CategoryDelete>
  {
    seq(|ids|, i requires 0 <= i < |ids| => CategoryDelete(productId, ids[i]))
  }

  function TagDeletes(productId: SwId, ids: seq<SwId>): seq<TagDelete>
  {
    seq(|ids|, i requires 0 <= i < |ids| => TagDelete(productId, ids[i]))
  }

  function PropertyDeletes(productId: SwId, ids: seq<SwId>): seq<PropertyDelete>
  {
    seq(|ids|, i requires 0 <= i < |ids| => PropertyDelete(productId, ids[i]))
  }

  function OptionDeletes(productId: SwId, ids: seq<SwId>): seq<OptionDelete>
  {
    seq(|ids|, i requires 0 <= i < |ids| => OptionDelete(productId, ids[i]))
  }

  function VisibilityDeletes(productId: SwId, vs: seq<ProductVisibility>): seq<VisibilityDelete>
  {
    seq(|vs|, i requires 0 <= i < |vs| => VisibilityDelete(vs[i].id, productId, vs[i].salesChannelId))
  }

  function MediaDeletes(productId: SwId, ms: seq<ProductMedia>): seq<MediaDelete>
  {
    seq(|ms|, i requires 0 <= i < |ms| => MediaDelete(ms[i].id, productId, ms[i].mediaId))
  }

  function VisibilityChannelOf(pv: ProductVisibility): SwId { pv.salesChannelId }

  /** The upsert payload that disables a product under a marker name. */
  function Disabled(id: SwId, name: string): UpsertEntry
  {
    UpsertEntry(id, [Entry("name", Str(name)), Entry("active", Bool(false))], [])
  }

  const MissingParentName: string := "MISSING_PARENT"
  const DeletedProductName: string := "DELETED_PRODUCT"
  const MaxErrorCount: int := 100

  /**
   * `a` holds the tables of `preloadAdditionalData`, each restricted to the
   * ids the batch needs; the tag table is only reloaded when tag sync is
   * enabled.
   */
  predicate Preloaded(a: AdditionalData, us: seq<ItemUpdate>, s: Stores, syncTags: bool,
                      tagRestrictions: Option<seq<int>>, mediaKeys: MediaKeyConfig,
                      previousTagLinks: map<int, SwId>, entityLinks: map<PlentyId, SwId>)
  {
    && (a.tagLinks ==
       if syncTags then LoadMapping(Dedup(Gather(us, TagCandidates(tagRestrictions))), s.tagLinks)
       else previousTagLinks)
    && (a.currencyPriceIds == CurrencyFold([Entry(DefaultCurrency, PriceIds(
               if s.retailPriceId.Some? then s.retailPriceId.value else DefaultRetailPriceId,
               if s.listPriceId.Some? then s.listPriceId.value else DefaultListPriceId))], s.currencies))
    && (a.taxLinks == LoadMapping(Dedup(Gather(us, VatCandidates)), s.taxLinks))
    && (a.unitLinks == LoadMapping(Dedup(Gather(us, UnitCandidates)), s.unitLinks))
    && (a.availabilityLinks == LoadMapping(Dedup(Gather(us, AvailabilityCandidates)), s.availabilityLinks))
    && (a.productLinks == LoadMapping(Dedup(Gather(us, ParentCandidates)), s.itemLinks))
    && (a.manufacturerLinks == LoadMapping(Dedup(Gather(us, ManufacturerCandidates)), s.manufacturerLinks))
    && (a.categoryLinks == LoadMapping(Dedup(Gather(us, CategoryCandidates)), s.categoryLinks))
    && (a.attributeValueLinks == LoadMapping(Dedup(Gather(us, AttributeValueCandidates)), s.attributeValueLinks))
    && (a.propertyValueLinks == LoadMapping(Dedup(Gather(us, PropertyValueCandidates)), s.propertyValueLinks))
    && (a.imageLinks == LoadMapping(Dedup(Gather(us, MediaCandidates(mediaKeys))), s.mediaLinks))
    && (a.channels == s.channels)
    && (a.withMarket == WithMarket(s.channels) && a.withPlentyId == WithPlentyId(s.channels))
    && (a.existing == ExistingProducts(entityLinks, a.productLinks, s.catalogue))
  }

  /** The table loads of `preloadAdditionalData`. */
  method LoadAdditionalData(us: seq<ItemUpdate>, s: Stores, syncTags: bool, tagRestrictions: Option<seq<int>>,
                            mediaKeys: MediaKeyConfig, previousTagLinks: map<int, SwId>,
                            entityLinks: map<PlentyId, SwId>)
    returns (a: AdditionalData)
    ensures Preloaded(a, us, s, syncTags, tagRestrictions, mediaKeys, previousTagLinks, entityLinks)
  {
    var tagLinks := previousTagLinks;
    if syncTags {
      var tagIds := CollectDistinct(us, TagCandidates(tagRestrictions));
      tagLinks := LoadMapping(tagIds, s.tagLinks);
    }
    var prices := CurrencyPriceIds(s.retailPriceId, s.listPriceId, s.currencies);
    var taxIds := CollectDistinct(us, VatCandidates);
    var unitIds := CollectDistinct(us, UnitCandidates);
    var availabilityIds := CollectDistinct(us, AvailabilityCandidates);
    var parentIds := CollectDistinct(us, ParentCandidates);
    var productLinks := LoadMapping(parentIds, s.itemLinks);
    var manufacturerIds := CollectDistinct(us, ManufacturerCandidates);
    var categoryIds := CollectDistinct(us, CategoryCandidates);
    var attributeValueIds := CollectDistinct(us, AttributeValueCandidates);
    var propertyValueIds := CollectDistinct(us, PropertyValueCandidates);
    var mediaIds := CollectDistinct(us, MediaCandidates(mediaKeys));
    var withMarket, withPlentyId := PartitionSalesChannels(s.channels);
    a := AdditionalData(
      tagLinks, prices,
      LoadMapping(taxIds, s.taxLinks),
      LoadMapping(unitIds, s.unitLinks),
      LoadMapping(availabilityIds, s.availabilityLinks),
      productLinks,
      LoadMapping(manufacturerIds, s.manufacturerLinks),
      LoadMapping(categoryIds, s.categoryLinks),
      LoadMapping(attributeValueIds, s.attributeValueLinks),
      LoadMapping(propertyValueIds, s.propertyValueLinks),
      LoadMapping(mediaIds, s.mediaLinks),
      s.channels, withMarket, withPlentyId,
      ExistingProducts(entityLinks, productLinks, s.catalogue));
  }

  /** The assignments of the planned entries left over, each under its own relation id. */
  lemma RemainingAssignments(create: seq<Entry<SwId, MediaAssignment>>, remaining: seq<Entry<SwId, MediaAssignment>>)
    requires forall i | 0 <= i < |create| :: create[i].value.id == create[i].key
    requires forall e | e in remaining :: e in create
    ensures |EntryValues(remaining)| == |EntryKeys(remaining)|
    ensures forall i | 0 <= i < |remaining| :: EntryValues(remaining)[i].id == EntryKeys(remaining)[i]
    ensures forall a | a in EntryValues(remaining) :: a in EntryValues(create)
  {
    forall i | 0 <= i < |remaining| ensures EntryValues(remaining)[i].id == EntryKeys(remaining)[i] {
      assert remaining[i] in create;
    }
    forall a | a in EntryValues(remaining) ensures a in EntryValues(create) {
      var i :| 0 <= i < |remaining| && EntryValues(remaining)[i] == a;
      assert remaining[i] in create;
      var j :| 0 <= j < |create| && create[j] == remaining[i];
      assert EntryValues(create)[j] == a;
    }
  }

  /** The media closure on values: sort, plan, reconcile with the existing assignments. */
  method PlanMedia(images: seq<Image>, swId: SwId, allowed: Image -> bool, imageLinks: map<string, SwId>,
                   existing: seq<ProductMedia>, productId: SwId)
    returns (assignments: seq<MediaAssignment>, cover: Option<SwId>, removed: seq<MediaDelete>)
    ensures var st := MediaFold(SortByPosition(images), swId, allowed, imageLinks);
      var d := Walk(EntryKeys(st.create), existing, MediaIdOf);
      && cover == StoredCover(st)
      && |assignments| == |d.toCreate|
      && (forall i | 0 <= i < |assignments| :: assignments[i].id == d.toCreate[i])
      && (forall a | a in assignments :: a in EntryValues(st.create))
      && removed == MediaDeletes(productId, d.toDelete)
  {
    var sorted := SortByPosition(images);
    var st := MediaLoop(sorted, swId, allowed, imageLinks);
    MediaFoldKeys(sorted, swId, allowed, imageLinks);
    var remaining;
    remaining, removed := ExistingMediaWalk(st.create, existing, productId);
    RemainingAssignments(st.create, remaining);
    assignments := EntryValues(remaining);
    cover := if st.cover.Some? then st.cover else st.fallback;
  }

  /** The visibilities closure on values. */
  method PlanVisibilities(desired: seq<SwId>, p: Option<ExistingProduct>)
    returns (rows: seq<VisibilityRow>, removed: seq<VisibilityDelete>)
    ensures var d := Walk(desired, if p.Some? then p.value.visibilities else [], VisibilityChannelOf);
      && rows == VisibilityRows(d.toCreate)
      && removed == (if p.Some? then VisibilityDeletes(p.value.id, d.toDelete) else [])
  {
    var existing: seq<ProductVisibility> := if p.Some? then p.value.visibilities else [];
    var toCreate, toDelete := ReconcileLoop(desired, existing, VisibilityChannelOf);
    rows := VisibilityRows(toCreate);
    removed := if p.Some? then VisibilityDeletes(p.value.id, toDelete) else [];
  }

  /**
   * The outcome of `manipulateConvertedEntity` for one converted entity: a
   * variant whose parent is not linked, or an update whose market or client
   * is not allowed or that failed too often, is added to the processed
   * list, loses its pending link, and becomes a disabling payload when the
   * product exists (nothing otherwise); every other entity passes unchanged
   * and nothing else changes.
   */
  predicate Manipulated(config: ConnectorConfig, productLinks: map<PlentyId, SwId>,
                        existing: map<SwId, ExistingProduct>, entity: UpsertEntry, u: ItemUpdate,
                        processed0: seq<PlentyId>, linkUpserts0: seq<Entry<PlentyId, SwId>>,
                        processed: seq<PlentyId>, linkUpserts: seq<Entry<PlentyId, SwId>>,
                        r: Option<UpsertEntry>)
  {
    var missing := IsVariant(u.variation) && !ParentLinked(u.variation, productLinks);
    var vetoed := !config.marketAllowed(u.variation.marketIds, None)
                  || !config.clientAllowed(u.variation.clientIds, None)
                  || u.errorCount >= MaxErrorCount;
    if missing || vetoed then
      && processed == processed0 + [u.plentyId]
      && linkUpserts == Unset(linkUpserts0, u.plentyId)
      && !HasKey(linkUpserts, u.plentyId)
      && r == (if entity.id in existing
               then Some(Disabled(entity.id, if missing then MissingParentName else DeletedProductName))
               else None)
    else
      r == Some(entity) && processed == processed0 && linkUpserts == linkUpserts0
  }

  // ------------------------------------------------------------------ service

  class ProcessProductService {
    const config: ConnectorConfig
    /** The `syncTagsEnabled` setting. */
    const syncTagsEnabled: bool
    /** The image helper's `isImageAllowed` in the service's context. */
    const imageAllowed: Image -> bool
    const productMediaPrefix: string
    const propertyMediaPrefix: string

    var propertyRestrictions: Option<seq<int>>
    var tagRestrictions: Option<seq<int>>
    /** `plentyEntityId2SwId`: the engine's links of the updated variations. */
    var entityLinks: map<PlentyId, SwId>
    var additional: AdditionalData
    var dynamicProperties: DynamicTable
    /** The custom fields created by the preloads so far. */
    var createdCustomFields: seq<CustomFieldCreate>
    var deletes: DeleteQueues
    /** `productConfiguratorSettingsCreate` */
    var configuratorCreate: OptionQueue
    /** `swEntityUpsertData` */
    var upserts: Upserts
    /** `plentyEntityLinkUpsertData` */
    var linkUpserts: seq<Entry<PlentyId, SwId>>
    /** `processedPlentyEntityUpdatePlentyIds` */
    var processed: seq<PlentyId>
    /** The delete calls sent so far. */
    var requests: seq<DeleteRequest>

    /** The configurator queue has one entry per parent. */
    predicate Valid()
      reads this`configuratorCreate
    {
      NoDup(EntryKeys(configuratorCreate))
    }

    constructor (config: ConnectorConfig, syncTagsEnabled: bool, imageAllowed: Image -> bool,
                 productMediaPrefix: string, propertyMediaPrefix: string)
      ensures this.config == config && this.syncTagsEnabled == syncTagsEnabled
      ensures this.imageAllowed == imageAllowed
      ensures this.productMediaPrefix == productMediaPrefix && this.propertyMediaPrefix == propertyMediaPrefix
      ensures propertyRestrictions == None && tagRestrictions == None
      ensures entityLinks == map[] && additional == NoAdditionalData && dynamicProperties == []
      ensures createdCustomFields == [] && deletes == NoDeletes && configuratorCreate == []
      ensures upserts == [] && linkUpserts == [] && processed == [] && requests == []
      ensures Valid()
    {
      this.config := config;
      this.syncTagsEnabled := syncTagsEnabled;
      this.imageAllowed := imageAllowed;
      this.productMediaPrefix := productMediaPrefix;
      this.propertyMediaPrefix := propertyMediaPrefix;
      propertyRestrictions := None;
      tagRestrictions := None;
      entityLinks := map[];
      additional := NoAdditionalData;
      dynamicProperties := [];
      createdCustomFields := [];
      deletes := NoDeletes;
      configuratorCreate := [];
      upserts := [];
      linkUpserts := [];
      processed := [];
      requests := [];
    }

    /** `execute`: read the restrictions and clear the run's queues. */
    method BeginRun(propertyRestrictions: Option<seq<int>>, tagRestrictions: Option<seq<int>>)
      modifies this`propertyRestrictions, this`tagRestrictions, this`configuratorCreate, this`deletes
      ensures this.propertyRestrictions == propertyRestrictions && this.tagRestrictions == tagRestrictions
      ensures configuratorCreate == []
      ensures deletes == ResetQueues(old(deletes))
      ensures Valid()
    {
      this.propertyRestrictions := propertyRestrictions;
      this.tagRestrictions := tagRestrictions;
      configuratorCreate := [];
      deletes := deletes.(media := [], visibilities := [], categories := [], options := [], settings := [],
                          properties := []);
    }

    /** The key configuration of the media preload. */
    function MediaKeys(): MediaKeyConfig
      reads this`propertyRestrictions
    {
      MediaKeyConfig(productMediaPrefix, propertyMediaPrefix, imageAllowed, propertyRestrictions)
    }

    /**
     * `preloadAdditionalData`: every table restricted to the ids the batch
     * needs, in the source's order; a missing custom field set ends the
     * preload after the dynamic properties are known.
     */
    method PreloadAdditionalData(us: seq<ItemUpdate>, s: Stores) returns (outcome: CustomFieldOutcome)
      modifies this`additional, this`dynamicProperties, this`createdCustomFields
      ensures Preloaded(additional, us, s, syncTagsEnabled, tagRestrictions, MediaKeys(),
                        old(additional.tagLinks), entityLinks)
      ensures dynamicProperties == DynamicFold(propertyRestrictions, Gather(us, PropertiesOf))
      ensures dynamicProperties == [] ==> outcome == Planned([])
      ensures dynamicProperties != [] && s.customFieldSetId.None? ==> outcome == Failed(MissingCustomFieldSet)
      ensures dynamicProperties != [] && s.customFieldSetId.Some? ==>
        outcome == Planned(PlannedCreates(dynamicProperties, s.customFieldNames, s.customFieldSetId.value))
      ensures createdCustomFields == old(createdCustomFields) + (if outcome.Planned? then outcome.creates else [])
    {
      var a := LoadAdditionalData(us, s, syncTagsEnabled, tagRestrictions, MediaKeys(),
                                  additional.tagLinks, entityLinks);
      additional := a;
      dynamicProperties := DiscoverDynamicProperties(us, propertyRestrictions);
      outcome := SyncCustomFields(dynamicProperties, s.customFieldNames, s.customFieldSetId);
      if outcome.Planned? {
        createdCustomFields := createdCustomFields + outcome.creates;
      }
    }

    /** `getSwExistingProductByPlentyId` */
    function ExistingByPlentyId(plentyId: PlentyId): Option<ExistingProduct>
      reads this`entityLinks, this`additional
    {
      if plentyId in entityLinks && entityLinks[plentyId] in additional.existing
      then Some(additional.existing[entityLinks[plentyId]])
      else None
    }

    /** The existing product under the current mapping's target id (the data-store lookup). */
    function ExistingBySwId(swId: SwId): Option<ExistingProduct>
      reads this`additional
    {
      if swId in additional.existing then Some(additional.existing[swId]) else None
    }

    /**
     * `isPlentyEntityUpdateValid`: an update is skipped only when it is a
     * variant of another variation that is not linked, its markets and
     * clients are allowed, and it has not failed before.
     */
    function IsPlentyEntityUpdateValid(u: ItemUpdate): (r: bool)
      reads this`entityLinks
      ensures u.errorCount >= 1 ==> r
      ensures u.variation.base.mainVariationId.None? || u.variation.base.mainVariationId == Some(u.variation.id) ==> r
      ensures u.variation.base.mainVariationId.Some? && u.variation.base.mainVariationId.value in entityLinks ==> r
      ensures !config.marketAllowed(u.variation.marketIds, None) || !config.clientAllowed(u.variation.clientIds, None) ==> r
      ensures !r <==>
        && config.marketAllowed(u.variation.marketIds, None)
        && config.clientAllowed(u.variation.clientIds, None)
        && u.variation.base.mainVariationId.Some?
        && u.variation.base.mainVariationId.value != u.variation.id
        && u.variation.base.mainVariationId.value !in entityLinks
        && u.errorCount < 1
    {
      var main := u.variation.base.mainVariationId;
      !(&& config.marketAllowed(u.variation.marketIds, None)
        && config.clientAllowed(u.variation.clientIds, None)
        && main.Some?
        && main.value != u.variation.id
        && main.value !in entityLinks
        && u.errorCount < 1)
    }

    /**
     * The parentId closure: a variant with a linked parent gets the parent's
     * id and registers its own target id as a product link (first one
     * wins); everything else has no parent.
     */
    method MapParentId(v: Variation, swId: SwId) returns (parent: Option<SwId>)
      modifies this`additional
      ensures IsVariant(v) && ParentLinked(v, old(additional.productLinks)) ==>
        && parent == Some(old(additional.productLinks)[v.base.mainVariationId.value])
        && additional == old(additional).(productLinks :=
             if v.id in old(additional.productLinks) then old(additional.productLinks)
             else old(additional.productLinks)[v.id := swId])
      ensures !(IsVariant(v) && ParentLinked(v, old(additional.productLinks))) ==>
        parent == None && additional == old(additional)
      ensures IsVariant(v) && ParentLinked(v, old(additional.productLinks)) ==>
        v.id in additional.productLinks && ParentLinked(v, additional.productLinks)
    {
      var links := additional.productLinks;
      var main := v.base.mainVariationId;
      if v.base.isMain == Some(false) && (main.None? || main.value !in links) {
        return None;
      }
      if v.base.isMain == Some(false) && main.Some? {
        if v.id !in links {
          additional := additional.(productLinks := links[v.id := swId]);
        }
        return Some(additional.productLinks[main.value]);
      }
      return None;
    }

    /** The categories closure: desired target categories reconciled with the existing product's. */
    method MapCategories(v: Variation) returns (assignments: seq<SwId>)
      modifies this`deletes
      ensures var p := ExistingByPlentyId(v.id);
        var d := Walk(DesiredCategoryIds(v, additional.categoryLinks), if p.Some? then p.value.categoryIds else [], SameId);
        && assignments == d.toCreate
        && deletes == old(deletes).(categories := old(deletes.categories)
                                      + (if p.Some? then CategoryDeletes(p.value.id, d.toDelete) else []))
    {
      var p := ExistingByPlentyId(v.id);
      var desired := LookupLoop(v.categories, CategoryIdOf, additional.categoryLinks);
      var existing := if p.Some? then p.value.categoryIds else [];
      var toCreate, toDelete := ReconcileLoop(desired, existing, SameId);
      assignments := toCreate;
      if p.Some? {
        deletes := deletes.(categories := deletes.categories + CategoryDeletes(p.value.id, toDelete));
      }
    }

    /** The tags closure: nothing unless tag sync is enabled; the existing product is the current target's. */
    method MapTags(v: Variation, swId: SwId) returns (assignments: seq<SwId>)
      modifies this`deletes
      ensures !syncTagsEnabled ==> assignments == [] && deletes == old(deletes)
      ensures syncTagsEnabled ==>
        var p := ExistingBySwId(swId);
        var d := Walk(DesiredTagIds(v, additional.tagLinks), if p.Some? then p.value.tagIds else [], SameId);
        && assignments == d.toCreate
        && deletes == old(deletes).(tags := old(deletes.tags) + (if p.Some? then TagDeletes(p.value.id, d.toDelete) else []))
    {
      if !syncTagsEnabled {
        return [];
      }
      var p := ExistingBySwId(swId);
      var desired := LookupLoop(v.tags, IdOf, additional.tagLinks);
      var toCreate, toDelete := ReconcileLoop(desired, if p.Some? then p.value.tagIds else [], SameId);
      assignments := toCreate;
      if p.Some? {
        deletes := deletes.(tags := deletes.tags + TagDeletes(p.value.id, toDelete));
      }
    }

    /** The visibilities closure: one row with visibility "all" per channel still to add. */
    method MapVisibilities(v: Variation) returns (rows: seq<VisibilityRow>)
      modifies this`deletes
      ensures var p := ExistingByPlentyId(v.id);
        var desired := DesiredChannelIds(v, config, additional.channels, additional.withMarket, additional.withPlentyId);
        var d := Walk(desired, if p.Some? then p.value.visibilities else [], VisibilityChannelOf);
        && rows == VisibilityRows(d.toCreate)
        && deletes == old(deletes).(visibilities := old(deletes.visibilities)
                                      + (if p.Some? then VisibilityDeletes(p.value.id, d.toDelete) else []))
    {
      var p := ExistingByPlentyId(v.id);
      var desired := ChannelIdsLoop(v, config, additional.channels, additional.withMarket, additional.withPlentyId);
      var removed;
      rows, removed := PlanVisibilities(desired, p);
      deletes := deletes.(visibilities := deletes.visibilities + removed);
    }

    /** The properties closure: attribute values and selection values reconciled with the product's properties. */
    method MapProperties(v: Variation) returns (assignments: seq<SwId>)
      modifies this`deletes
      ensures var p := ExistingByPlentyId(v.id);
        var desired := DesiredPropertyIds(v, additional.attributeValueLinks, additional.propertyValueLinks);
        var d := Walk(desired, if p.Some? then p.value.propertyIds else [], SameId);
        && assignments == d.toCreate
        && deletes == old(deletes).(properties := old(deletes.properties)
                                      + (if p.Some? then PropertyDeletes(p.value.id, d.toDelete) else []))
    {
      var p := ExistingByPlentyId(v.id);
      var desired := PropertyIdsLoop(v, additional.attributeValueLinks, additional.propertyValueLinks);
      var existing := if p.Some? then p.value.propertyIds else [];
      var toCreate, toDelete := ReconcileLoop(desired, existing, SameId);
      assignments := toCreate;
      if p.Some? {
        deletes := deletes.(properties := deletes.properties + PropertyDeletes(p.value.id, toDelete));
      }
    }

    /** The options closure: linked attribute values reconciled with the product's options. */
    method MapOptions(v: Variation) returns (assignments: seq<SwId>)
      modifies this`deletes
      ensures var p := ExistingByPlentyId(v.id);
        var d := Walk(DesiredOptionIds(v, additional.attributeValueLinks), if p.Some? then p.value.optionIds else [], SameId);
        && assignments == d.toCreate
        && deletes == old(deletes).(options := old(deletes.options)
                                      + (if p.Some? then OptionDeletes(p.value.id, d.toDelete) else []))
    {
      var p := ExistingByPlentyId(v.id);
      var desired := LookupLoop(v.attributeValueIds, IdOf, additional.attributeValueLinks);
      var existing := if p.Some? then p.value.optionIds else [];
      var toCreate, toDelete := ReconcileLoop(desired, existing, SameId);
      assignments := toCreate;
      if p.Some? {
        deletes := deletes.(options := deletes.options + OptionDeletes(p.value.id, toDelete));
      }
    }

    /**
     * The media closure with the coverId closure: assignments of the sorted,
     * allowed, uploaded images that the product does not have yet, each
     * carrying its relation id; existing assignments that are not planned
     * are deleted; the cover is the image at position 0, else the first
     * planned one.
     */
    method MapMedia(v: Variation, swId: SwId) returns (assignments: seq<MediaAssignment>, cover: Option<SwId>)
      modifies this`deletes
      ensures var st := MediaFold(SortByPosition(v.images), swId, imageAllowed, additional.imageLinks);
        var p := ExistingByPlentyId(v.id);
        var d := Walk(EntryKeys(st.create), if p.Some? then p.value.media else [], MediaIdOf);
        && cover == StoredCover(st)
        && |assignments| == |d.toCreate|
        && (forall i | 0 <= i < |assignments| :: assignments[i].id == d.toCreate[i])
        && (forall a | a in assignments :: a in EntryValues(st.create))
        && deletes == old(deletes).(media := old(deletes.media)
                                      + (if p.Some? then MediaDeletes(p.value.id, d.toDelete) else []))
    {
      var p := ExistingByPlentyId(v.id);
      var removed;
      assignments, cover, removed := PlanMedia(v.images, swId, imageAllowed, additional.imageLinks,
                                               if p.Some? then p.value.media else [],
                                               if p.Some? then p.value.id else swId);
      if p.Some? {
        deletes := deletes.(media := deletes.media + removed);
      }
    }

    /** The mainCategories closure; the existing product is the current target's. */
    method MapMainCategories(v: Variation, swId: SwId) returns (rows: seq<MainCategoryRow>)
      modifies this`deletes
      ensures var p := ExistingBySwId(swId);
        var data := MainCategoryData(v, additional.categoryLinks, additional.channels,
                                     if p.Some? then p.value.mainCategories else []);
        && rows == data.rows
        && deletes == old(deletes).(mainCategories := old(deletes.mainCategories) + data.deletes)
      ensures forall i | 0 <= i < |rows| :: rows[i].UpdateRow? || rows[i].category.Some?
    {
      var p := ExistingBySwId(swId);
      var removed;
      rows, removed := MainCategoryPayload(v, additional.categoryLinks, additional.channels,
                                           if p.Some? then p.value.mainCategories else []);
      deletes := deletes.(mainCategories := deletes.mainCategories + removed);
    }

    /** `_delete_configurator_settings_in_product_parent`: a main variation that exists drops all its settings. */
    method QueueConfiguratorDeletes(v: Variation)
      modifies this`deletes
      ensures deletes == old(deletes).(settings := old(deletes.settings) + SettingDeletes(v, ExistingByPlentyId(v.id)))
    {
      var p := ExistingByPlentyId(v.id);
      if p.Some? && v.base.isMain == Some(true) {
        var product := p.value;
        var rows: seq<ConfiguratorSettingDelete> := [];
        for i := 0 to |product.configuratorSettings|
          invariant |rows| == i
          invariant forall j | 0 <= j < i :: rows[j] == ConfiguratorSettingDelete(
            product.configuratorSettings[j].id, product.id, product.configuratorSettings[j].optionId)
        {
          var setting := product.configuratorSettings[i];
          rows := rows + [ConfiguratorSettingDelete(setting.id, product.id, setting.optionId)];
        }
        deletes := deletes.(settings := deletes.settings + rows);
      }
    }

    /** `_add_configurator_settings_for_all_variants` */
    method QueueConfiguratorOptions(v: Variation)
      requires Valid()
      modifies this`configuratorCreate
      ensures Valid()
      ensures configuratorCreate ==
        QueueOptions(old(configuratorCreate), v, additional.attributeValueLinks, additional.productLinks)
    {
      var q := QueueVariantOptions(configuratorCreate, v, additional.attributeValueLinks, additional.productLinks);
      QueueOptionsNoDup(configuratorCreate, v, additional.attributeValueLinks, additional.productLinks);
      configuratorCreate := q;
    }

    /**
     * `manipulateConvertedEntity`: a variant whose parent is not linked, or
     * an update whose market or client is not allowed or that failed too
     * often, is marked processed, loses its pending link, and becomes a
     * disabling payload when the product exists (nothing otherwise); every
     * other entity passes unchanged.
     */
    method ManipulateConvertedEntity(entity: UpsertEntry, u: ItemUpdate) returns (r: Option<UpsertEntry>)
      modifies this`processed, this`linkUpserts
      ensures Manipulated(config, additional.productLinks, additional.existing, entity, u,
                          old(processed), old(linkUpserts), processed, linkUpserts, r)
    {
      var v := u.variation;
      var main := v.base.mainVariationId;
      var missing := v.base.isMain == Some(false) && (main.None? || main.value !in additional.productLinks);
      if missing
         || !config.marketAllowed(v.marketIds, None)
         || !config.clientAllowed(v.clientIds, None)
         || u.errorCount >= MaxErrorCount {
        processed := processed + [u.plentyId];
        UnsetGone(linkUpserts, u.plentyId);
        linkUpserts := Unset(linkUpserts, u.plentyId);
        if entity.id in additional.existing {
          return Some(Disabled(entity.id, if missing then MissingParentName else DeletedProductName));
        }
        return None;
      }
      return Some(entity);
    }

    /**
     * `runBeforeUpdates`: send the non-empty delete queues, then add the
     * queued configurator options to the parents' upserts. Every queued
     * parent ends with an entry whose settings are its earlier ones followed
     * by its queued options, without repetition and without the options the
     * existing product keeps (none when its settings were just deleted).
     */
    method RunBeforeUpdates()
      requires Valid()
      modifies this`requests, this`upserts
      ensures requests == old(requests) + DeleteRequests(deletes)
      ensures upserts == MergeAll(old(upserts), configuratorCreate,
                                  Dedup(Keys(deletes.settings, SettingProductIdOf)), additional.existing)
    {
      requests := requests + DeleteRequests(deletes);
      var deletedProducts := DeletedProducts(deletes.settings);
      var merged := MergeQueue(upserts, configuratorCreate, deletedProducts, additional.existing);
      upserts := merged;
    }
  }
}
