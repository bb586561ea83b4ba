# Plenty→Shopware product sync, modelled in Dafny

This project models the product sync of the LenzPlatform plentymarkets
connector and the deployment customization that extends it.

The connector reads item updates (variations) from plentymarkets and
turns each one into a Shopware product payload. Before mapping a batch it
preloads what the batch needs:

- the link tables (source id → Shopware id) for taxes, units,
  availabilities, parents, manufacturers, categories, tags, attribute
  values, property values and media;
- the price ids per currency;
- the sales-channel partitions;
- the existing products;
- the dynamic properties, which become product custom fields (and
  creates the custom fields they lack).

The field registry (`getMapping`) is a PHP list of mapping fields: a
static list, then the database overrides, the name field and one field
per dynamic property. The closures of the relation fields (categories,
tags, visibilities, properties, options, media) build the "desired"
target ids and reconcile them with the existing product's relations:
whatever is not desired is queued for deletion, and whatever already
exists is dropped from the create list. `mainCategories` resolves one
main category per sales channel. The configurator closures queue
deletes for a main variation's settings and, per parent, the options of
its variants. `runBeforeUpdates` sends the delete queues and merges the
queued options into the parents' upserts. `isPlentyEntityUpdateValid`
defers orphan variants. `manipulateConvertedEntity` disables or
suppresses products whose parent is missing, whose market or client is
not allowed, or that failed too often.

The customization subclass patches the inherited registry (four fields
replaced under their key, two removed and appended, three new fields
appended). It also provisions Shopware units from the selections of
property 45, creating a unit only for a selection that has none, and
maps `unitId` through them.

Module layout:

| module | file | what |
|---|---|---|
| `Common` | common.dfy | PHP arrays as key/value entry lists, dedup, filter, explode/implode |
| `Plenty` | plenty.dfy | the variation records of an item update |
| `Shopware` | shopware.dfy | Shopware ids, existing products, delete rows |
| `Reconcile` | reconcile.dfy | the create/delete walk shared by the relation closures |
| `FieldTransforms` | transforms.dfy | the value transforms, stock, prices |
| `Preload` | preload.dfy | the id collectors and link-table loads of the preload |
| `DynamicProperties` | dynprops.dfy | dynamic property discovery, custom-field planning, `_dynamicProperties` |
| `Registry` | registry.dfy | the field registry, database overrides, name and dynamic fields |
| `ProductRelations` | relations.dfy | the desired id lists of the relation closures |
| `MediaAssignments` | media.dfy | the media closure and the cover |
| `MainCategories` | maincategories.dfy | the `mainCategories` closure |
| `Configurator` | configurator.dfy | configurator deletes, the option queue and its merge |
| `ProductSync` | service.dfy | the service class with its queues and the gate |
| `Customization` | customization.dfy | the customized service: registry patches, units, delegation |


## Model

| member | source | states |
|---|---|---|
| FieldTransforms.TruncateMetaDescription | LenzPlatformPlentyConnector/src/Sync/DataSync/ProcessProductService.php:726-733 | The result is a prefix of the value, at most 255 bytes long, and equals the value exactly when the value already fits. |
| FieldTransforms.TruncateMetaDescriptionIdempotent | LenzPlatformPlentyConnector/src/Sync/DataSync/ProcessProductService.php:726-733 | Truncating an already truncated description changes nothing. |
| FieldTransforms.EmptyStringToNull | LenzPlatformPlentyConnector/src/Sync/DataSync/ProcessProductService.php:734-741 | The result is never the empty string; any other value passes unchanged. |
| FieldTransforms.ClampMinPurchase | LenzPlatformPlentyConnector/src/Sync/DataSync/ProcessProductService.php:831-837 | The minimum purchase is at least 1 and is unchanged exactly when it was already at least 1. |
| FieldTransforms.ClampMaxPurchase | LenzPlatformPlentyConnector/src/Sync/DataSync/ProcessProductService.php:838-844 | The maximum purchase is at least 1; a value below 1 becomes 100 and any other value is kept. |
| FieldTransforms.Ean | LenzPlatformPlentyConnector/src/Sync/DataSync/ProcessProductService.php:809-818 | Null exactly when no barcode has type 1; otherwise the code of the first barcode of type 1. |
| FieldTransforms.ManufacturerNumber | LenzPlatformPlentyConnector/src/Sync/DataSync/ProcessProductService.php:848-856 | Null exactly when every supplier item number is empty; otherwise the first non-empty one. |
| FieldTransforms.ManufacturerId | LenzPlatformPlentyConnector/src/Sync/DataSync/ProcessProductService.php:717-723 | A manufacturer id resolves exactly when it is present, not 0 and linked, and then to its link. |
| FieldTransforms.LinkOrNull | LenzPlatformPlentyConnector/src/Sync/DataSync/ProcessProductService.php:907-914 | The availability resolves exactly when it is present and linked, and then to its link. |
| FieldTransforms.TaxId | LenzPlatformPlentyConnector/src/Sync/DataSync/ProcessProductService.php:956-959 | The VAT id resolves exactly when it is present and linked, and then to the linked tax's id. |
| FieldTransforms.IsCloseout | LenzPlatformPlentyConnector/src/Sync/DataSync/ProcessProductService.php:1324-1336 | The integer 1 and true are closeouts. Null and every other integer are not. |
| FieldTransforms.IsCloseoutDecimal | LenzPlatformPlentyConnector/src/Sync/DataSync/ProcessProductService.php:1327-1334 | A string holding a decimal integer is a closeout exactly when that integer is 1. Leading whitespace is skipped and anything after the numeral is ignored, as `intval` does. |
| NumericStrings.DecimalStringToInt | LenzPlatformPlentyConnector/src/Sync/DataSync/ProcessProductService.php:1329 | `intval` gives back the integer that a decimal string spells, with leading whitespace and non-numeric trailing text ignored. |
| FieldTransforms.IsCloseoutExamples | LenzPlatformPlentyConnector/src/Sync/DataSync/ProcessProductService.php:1327-1334 | 1, "1", " 1" and true give true. 0, 2, null and "12" give false. |
| FieldTransforms.IsCloseoutNonNumeric | LenzPlatformPlentyConnector/src/Sync/DataSync/ProcessProductService.php:1327-1334 | "abc", "" and "." read as 0, so they are not closeouts. |
| FieldTransforms.IsCloseoutFractions | LenzPlatformPlentyConnector/src/Sync/DataSync/ProcessProductService.php:1327-1334 | A fraction is cut toward zero: "1.9" is a closeout and "0.5" is not. |
| FieldTransforms.IsCloseoutExponents | LenzPlatformPlentyConnector/src/Sync/DataSync/ProcessProductService.php:1327-1334 | The exponent counts: "10e-1" is a closeout and "1e1" (ten) is not. |
| FieldTransforms.NameAccessPaths | LenzPlatformPlentyConnector/src/Sync/DataSync/ProcessProductService.php:1415-1423 | Exactly one access path. The setting `variation.name` selects the base name, `item.name2` and `item.name3` select the first text's name2 and name3, and any other setting selects the first text's name. Each choice is stated both ways. |
| FieldTransforms.ProductName | LenzPlatformPlentyConnector/src/Sync/DataSync/ProcessProductService.php:1425-1441 | The next path is tried exactly when the base name is empty; a produced name is never empty, and a non-empty value is kept. |
| FieldTransforms.CustomFieldType | LenzPlatformPlentyConnector/src/Sync/DataSync/ProcessProductService.php:1741-1753 | float→float, int→int and file→media, each both ways; every other cast gives html. |
| FieldTransforms.RemoveSpaces | LenzPlatformPlentyConnector/src/Sync/DataSync/ProcessProductService.php:754 | The warehouse-ids setting without spaces has no space and is no longer than before. |
| FieldTransforms.StockSumConcat | LenzPlatformPlentyConnector/src/Sync/DataSync/ProcessProductService.php:762-777 | The stock sum of two entry lists in sequence is the sum of their sums. |
| FieldTransforms.StockSumIgnores | LenzPlatformPlentyConnector/src/Sync/DataSync/ProcessProductService.php:762-777 | Entries of other variations or of warehouses that are not allowed add nothing. |
| FieldTransforms.Stock | LenzPlatformPlentyConnector/src/Sync/DataSync/ProcessProductService.php:743-781 | An existing product keeps its stock; a new one gets the net stock of its own entries in the allowed warehouses. |
| FieldTransforms.LastWithIdSpec | LenzPlatformPlentyConnector/src/Sync/DataSync/ProcessProductService.php:1512-1530 | The price entry is absent exactly when no entry has the price id; otherwise it is the last entry with that id. |
| FieldTransforms.GetPriceByPriceId | LenzPlatformPlentyConnector/src/Sync/DataSync/ProcessProductService.php:1505-1555 | The loop and the fallback compute the price selection described by SelectPriceSpec, at the tax rate of the variation's VAT id. |
| FieldTransforms.TaxRateOf | LenzPlatformPlentyConnector/src/Sync/DataSync/ProcessProductService.php:1512 | The tax rate is the linked tax's rate. An unlinked VAT id gives 0, so its net price equals its gross price. |
| FieldTransforms.NetAddsBackToGross | LenzPlatformPlentyConnector/src/Sync/DataSync/ProcessProductService.php:1521 | The net price with the tax added back is the gross price. At a rate of 0 they are equal. |
| FieldTransforms.SelectPriceSpec | LenzPlatformPlentyConnector/src/Sync/DataSync/ProcessProductService.php:1505-1555 | No salesPrices key gives null. A matching entry gives its gross in the currency, with its net at the tax rate and a list price exactly when another entry has the list-price id. With no match, the default currency gets a zero linked price and any other currency gets null. |
| FieldTransforms.LastListPriceSpec | LenzPlatformPlentyConnector/src/Sync/DataSync/ProcessProductService.php:1517-1527 | A list price carries the list-price id and never the price id, so equal ids give no list price. |
| FieldTransforms.Prices | LenzPlatformPlentyConnector/src/Sync/DataSync/ProcessProductService.php:960-970 | The price loop keeps, in currency order, the non-null price of every configured currency, at the tax rate of the variation's VAT id. |
| FieldTransforms.PriceListHasDefault | LenzPlatformPlentyConnector/src/Sync/DataSync/ProcessProductService.php:960-970 | With sales prices present and the default currency configured, the price list has a default-currency price. |
| Preload.GatherMembership | LenzPlatformPlentyConnector/src/Sync/DataSync/ProcessProductService.php:188-413 | A candidate is collected exactly when some update of the batch contributes it. |
| Preload.DedupMembership | LenzPlatformPlentyConnector/src/Sync/DataSync/ProcessProductService.php:188-413 | `array_unique` keeps exactly the elements of its input. |
| Preload.CollectDistinct | LenzPlatformPlentyConnector/src/Sync/DataSync/ProcessProductService.php:245-302 | A collector loop returns the distinct candidates of the batch, in order of first occurrence. |
| Preload.AllowedTagsMembership | LenzPlatformPlentyConnector/src/Sync/DataSync/ProcessProductService.php:204-210 | A tag passes exactly when the variation has it and the restriction, if any, lists it. |
| Preload.SelectionValuesMembership | LenzPlatformPlentyConnector/src/Sync/DataSync/ProcessProductService.php:385-413 | A property value is collected exactly when it is a value of a selection or multi-selection property. |
| Preload.ImageKeysMembership | LenzPlatformPlentyConnector/src/Sync/DataSync/ProcessProductService.php:449-458 | A key comes from a variation's images exactly when it is the product-media key of one of its allowed images. |
| Preload.FilePropertyKeysMembership | LenzPlatformPlentyConnector/src/Sync/DataSync/ProcessProductService.php:460-481 | A key comes from a variation's properties exactly when it is the property-media key of a value of an allowed file property. |
| Preload.LoadMapping | LenzPlatformPlentyConnector/src/Sync/DataSync/ProcessProductService.php:260 | A loaded link table holds exactly the requested ids that have a link, each with its link. |
| Preload.TagIdsSpec | LenzPlatformPlentyConnector/src/Sync/DataSync/ProcessProductService.php:188-219 | The tag ids are distinct, and are exactly the batch's tags that the restriction allows. |
| Preload.ParentIdsSpec | LenzPlatformPlentyConnector/src/Sync/DataSync/ProcessProductService.php:304-321 | The parent ids are exactly the main variation ids that are set and differ from the variation's own id. |
| Preload.ManufacturerIdsSpec | LenzPlatformPlentyConnector/src/Sync/DataSync/ProcessProductService.php:324-341 | The manufacturer ids are exactly the present ones, and 0 is never among them. |
| Preload.PropertyValueIdsSpec | LenzPlatformPlentyConnector/src/Sync/DataSync/ProcessProductService.php:385-413 | The property values are exactly the values of the batch's selection-cast properties. |
| Preload.MediaKeysSpec | LenzPlatformPlentyConnector/src/Sync/DataSync/ProcessProductService.php:444-488 | The media keys are distinct. A key is among them exactly when it is the product-media key of an allowed image of the batch, or the property-media key of a value of an allowed file property. |
| Preload.CurrencyPriceIds | LenzPlatformPlentyConnector/src/Sync/DataSync/ProcessProductService.php:221-243 | The currency loop fills the table that CurrencyFoldSpec describes, starting from the configured or default ids of the default currency. |
| Preload.CurrencyFoldSpec | LenzPlatformPlentyConnector/src/Sync/DataSync/ProcessProductService.php:221-243 | The default currency stays first, and keeps the seeded ids unless a currency with its id has a price id. Another currency is in the table exactly when some currency with its id has a price id. |
| Preload.CurrencyFoldValue | LenzPlatformPlentyConnector/src/Sync/DataSync/ProcessProductService.php:229-242 | A currency's entry carries the price id and the list price id (null read as 0) of the last currency with that id and a price id. |
| Preload.CurrencyFoldKeeps | LenzPlatformPlentyConnector/src/Sync/DataSync/ProcessProductService.php:224-242 | An entry that no currency with a price id names keeps its seeded value. |
| Preload.PartitionSalesChannels | LenzPlatformPlentyConnector/src/Sync/DataSync/ProcessProductService.php:415-442 | One pass over the channels builds both partitions. |
| Preload.PartitionSpec | LenzPlatformPlentyConnector/src/Sync/DataSync/ProcessProductService.php:415-442 | A channel is in the market (client) partition exactly when its market (client) custom field is set and not 0. |
| Preload.ExistingProducts | LenzPlatformPlentyConnector/src/Sync/DataSync/ProcessProductService.php:490-515 | The existing products are exactly the catalogue products linked to an updated variation or to a parent. |
| DynamicProperties.DiscoverInUpdate | LenzPlatformPlentyConnector/src/Sync/DataSync/ProcessProductService.php:527-560 | The inner discovery loop extends the table by one update's properties. |
| DynamicProperties.DynamicFoldAppend | LenzPlatformPlentyConnector/src/Sync/DataSync/ProcessProductService.php:527-558 | Discovering one more property is one step applied to the table built so far. |
| DynamicProperties.DiscoverDynamicProperties | LenzPlatformPlentyConnector/src/Sync/DataSync/ProcessProductService.php:517-560 | The discovery loops compute the table that DynamicFoldSpec describes. |
| DynamicProperties.DynamicFoldSpec | LenzPlatformPlentyConnector/src/Sync/DataSync/ProcessProductService.php:530-558 | Each property id appears at most once. It appears exactly when an allowed occurrence has a supported cast, and carries the cast of the first such occurrence. |
| DynamicProperties.StripPrefix | LenzPlatformPlentyConnector/src/Sync/DataSync/ProcessProductService.php:574-579 | For a prefixed custom-field name, prefix plus result is the name. |
| DynamicProperties.FoundPropertyIdsMembership | LenzPlatformPlentyConnector/src/Sync/DataSync/ProcessProductService.php:568-580 | An id counts as existing exactly when a searched custom field with that name exists. |
| DynamicProperties.CustomFieldCreates | LenzPlatformPlentyConnector/src/Sync/DataSync/ProcessProductService.php:568-609 | The search and create loops plan the custom fields that CreatesFoldSpec describes. |
| DynamicProperties.SyncCustomFields | LenzPlatformPlentyConnector/src/Sync/DataSync/ProcessProductService.php:563-630 | An empty table plans nothing; otherwise a missing custom field set fails, and a present one plans the missing fields. |
| DynamicProperties.CreatesFoldSpec | LenzPlatformPlentyConnector/src/Sync/DataSync/ProcessProductService.php:582-609 | A field is planned exactly for the table's properties that have no custom field yet. Each field has the cast's type, label, position 10000+id and, for files, the media config. |
| DynamicProperties.SecondRunCreatesNothing | LenzPlatformPlentyConnector/src/Sync/DataSync/ProcessProductService.php:568-609 | Once the planned fields exist, planning again for the same table creates nothing. |
| DynamicProperties.DynamicPropertiesOf | LenzPlatformPlentyConnector/src/Sync/DataSync/ProcessProductService.php:662-686 | The loop builds the per-variation property index that FormattedFoldKeys and FormattedFoldLast describe. |
| DynamicProperties.FormatValues | LenzPlatformPlentyConnector/src/Sync/DataSync/ProcessProductService.php:670-682 | One formatted value per property value, carrying its id and value. |
| DynamicProperties.FormattedFoldKeys | LenzPlatformPlentyConnector/src/Sync/DataSync/ProcessProductService.php:662-686 | Every property id of the variation is a key exactly once, and nothing else is. |
| DynamicProperties.FormattedFoldLast | LenzPlatformPlentyConnector/src/Sync/DataSync/ProcessProductService.php:662-686 | A property id maps to its last property, with the value list of an `empty` cast replaced by one synthetic value. |
| Reconcile.RemoveFirst | LenzPlatformPlentyConnector/src/Sync/DataSync/ProcessProductService.php:943-946 | `array_search` + `unset` changes nothing for an absent key and otherwise removes one element. |
| Reconcile.RemoveFirstMultiset | LenzPlatformPlentyConnector/src/Sync/DataSync/ProcessProductService.php:943-946 | Removing the first occurrence removes exactly one copy of the key. |
| Reconcile.ReconcileLoop | LenzPlatformPlentyConnector/src/Sync/DataSync/ProcessProductService.php:934-949 | The closure loop ends in the state `Walk` describes, which `Reconcile.WalkCounts` shows is desired minus existing to create and existing minus desired to delete, counted with multiplicity. |
| Reconcile.WalkCounts | LenzPlatformPlentyConnector/src/Sync/DataSync/ProcessProductService.php:934-949 | As multisets: creates = desired − existing and deletions = existing − desired. |
| Reconcile.WalkConverges | LenzPlatformPlentyConnector/src/Sync/DataSync/ProcessProductService.php:934-949 | Existing minus deleted plus created is the desired multiset. |
| Reconcile.WalkIdle | LenzPlatformPlentyConnector/src/Sync/DataSync/ProcessProductService.php:934-949 | When the product already has exactly the desired relations, nothing is created or deleted. |
| Reconcile.WalkSubsets | LenzPlatformPlentyConnector/src/Sync/DataSync/ProcessProductService.php:934-949 | Every created key is desired, and every deletion is an existing relation. |
| Reconcile.DeletedExactlyUndesired | LenzPlatformPlentyConnector/src/Sync/DataSync/ProcessProductService.php:934-949 | With distinct existing keys, a relation is deleted exactly when its key is not desired. |
| Reconcile.IdWalkCounts | LenzPlatformPlentyConnector/src/Sync/DataSync/ProcessProductService.php:1001-1022 | For plain id lists, the created ids are desired minus existing and the deleted ids are existing minus desired. |
| Reconcile.UnsetKeys | LenzPlatformPlentyConnector/src/Sync/DataSync/ProcessProductService.php:1195-1210 | On an array with distinct keys, unset by key removes the key as RemoveFirst does. |
| Registry.AppendValid | LenzPlatformPlentyConnector/src/Sync/DataSync/ProcessProductService.php:1412 | `$mapping[] = …` keeps the keys distinct and below the next free key. |
| Registry.FromList | LenzPlatformPlentyConnector/src/Sync/DataSync/ProcessProductService.php:690-1301 | The static field list is a well-formed PHP list. |
| Registry.NamedDropName | LenzPlatformPlentyConnector/src/Sync/DataSync/ProcessProductService.php:1305-1311 | Removing a name removes all its fields and leaves every other name's fields in order. |
| Registry.RemoveField | LenzPlatformPlentyConnector/src/Sync/DataSync/ProcessProductService.php:1305-1311 | The removal loop unsets exactly the fields with the name, keeping the rest in order and the next free key. |
| Registry.DropNameValid | LenzPlatformPlentyConnector/src/Sync/DataSync/ProcessProductService.php:1305-1311 | The removal keeps the registry well formed. |
| Registry.DropNameOrder | LenzPlatformPlentyConnector/src/Sync/DataSync/ProcessProductService.php:1305-1311 | The removal keeps the field keys distinct. |
| Registry.DropNameSubset | LenzPlatformPlentyConnector/src/Sync/DataSync/ProcessProductService.php:1305-1311 | Every field left after the removal was in the registry and has another name. |
| Registry.OverrideField | LenzPlatformPlentyConnector/src/Sync/DataSync/ProcessProductService.php:1321-1412 | The appended field targets the configured name. |
| Registry.OverrideFieldSpec | LenzPlatformPlentyConnector/src/Sync/DataSync/ProcessProductService.php:1313-1412 | isCloseout is boolean, with the intval transform only from the stock limitation. mainCategories is an array read from `variation` with the main-category closure. Any other field keeps the comma-split, legacy-rewritten paths. |
| Registry.ExplodeNoSeparator | LenzPlatformPlentyConnector/src/Sync/DataSync/ProcessProductService.php:1412 | A path without a comma explodes to itself. |
| Registry.OverridesFoldValid | LenzPlatformPlentyConnector/src/Sync/DataSync/ProcessProductService.php:1304-1413 | Applying the database mappings keeps the registry well formed. |
| Registry.ApplyDbOverrides | LenzPlatformPlentyConnector/src/Sync/DataSync/ProcessProductService.php:1302-1413 | The override loop applies the database mappings in order. |
| Registry.LastOverrideSpec | LenzPlatformPlentyConnector/src/Sync/DataSync/ProcessProductService.php:1304-1413 | A name has no override exactly when no mapping targets it; otherwise its override is its last mapping. |
| Registry.OverridesFoldNamed | LenzPlatformPlentyConnector/src/Sync/DataSync/ProcessProductService.php:1304-1413 | A configured name ends with exactly one field, its last mapping's; every other name keeps its fields. |
| Registry.BuildMapping | LenzPlatformPlentyConnector/src/Sync/DataSync/ProcessProductService.php:1302-1500 | After the static list: the overrides, the name field, then the dynamic fields. |
| Registry.AppendedFields | LenzPlatformPlentyConnector/src/Sync/DataSync/ProcessProductService.php:1443-1500 | One dynamic field per table entry, in table order. |
| Registry.AppendDynamicSpec | LenzPlatformPlentyConnector/src/Sync/DataSync/ProcessProductService.php:1443-1500 | The dynamic fields follow the existing fields, one per property in table order. |
| ProductRelations.LookupsSound | LenzPlatformPlentyConnector/src/Sync/DataSync/ProcessProductService.php:918-930 | Every desired id is the link of some source element. |
| ProductRelations.LookupsComplete | LenzPlatformPlentyConnector/src/Sync/DataSync/ProcessProductService.php:918-930 | The link of every linked source element is desired. |
| ProductRelations.SelectionValueIdsComplete | LenzPlatformPlentyConnector/src/Sync/DataSync/ProcessProductService.php:1095-1110 | Every linked value of a selection property contributes its option. |
| ProductRelations.SelectionValueIdsSound | LenzPlatformPlentyConnector/src/Sync/DataSync/ProcessProductService.php:1095-1110 | Every contributed option is the link of a value of a selection property. |
| ProductRelations.VisibleChannelIds | LenzPlatformPlentyConnector/src/Sync/DataSync/ProcessProductService.php:1040-1062 | A channel id is kept exactly when its channel shows the variation by market and client. |
| ProductRelations.DesiredChannelIds | LenzPlatformPlentyConnector/src/Sync/DataSync/ProcessProductService.php:1026-1062 | With no market or client channels, every channel is desired; otherwise exactly the market channels that show the variation. |
| ProductRelations.LookupLoop | LenzPlatformPlentyConnector/src/Sync/DataSync/ProcessProductService.php:918-930 | The collecting loop gives the desired list of LookupsSound and LookupsComplete. |
| ProductRelations.SelectionValueLoop | LenzPlatformPlentyConnector/src/Sync/DataSync/ProcessProductService.php:1095-1110 | The nested loop gives the selection options of the SelectionValueIds lemmas. |
| ProductRelations.PropertyIdsLoop | LenzPlatformPlentyConnector/src/Sync/DataSync/ProcessProductService.php:1081-1110 | Attribute-value options, then selection-value options. |
| ProductRelations.ChannelIdsLoop | LenzPlatformPlentyConnector/src/Sync/DataSync/ProcessProductService.php:1026-1062 | The visibility loop gives the channel ids of DesiredChannelIds. |
| MediaAssignments.InsertSpec | LenzPlatformPlentyConnector/src/Sync/DataSync/ProcessProductService.php:1150-1153 | Inserting into a sorted image list keeps it sorted and adds exactly the image. |
| MediaAssignments.SortByPositionSpec | LenzPlatformPlentyConnector/src/Sync/DataSync/ProcessProductService.php:1150-1153 | The sort orders the images by position and is a permutation. |
| MediaAssignments.MediaFoldKeys | LenzPlatformPlentyConnector/src/Sync/DataSync/ProcessProductService.php:1155-1192 | The create entries are keyed by the distinct relation ids, in first-occurrence order, each carrying its key as id. The position counter counts the accepted images. |
| MediaAssignments.MediaFoldPositions | LenzPlatformPlentyConnector/src/Sync/DataSync/ProcessProductService.php:1155-1192 | With distinct relation ids, the n-th accepted image becomes entry n, at position n. |
| MediaAssignments.MediaFoldCover | LenzPlatformPlentyConnector/src/Sync/DataSync/ProcessProductService.php:1180-1191 | The cover is the relation id of the last accepted image at position 0, and none exactly when there is no such image. |
| MediaAssignments.MediaFoldFallback | LenzPlatformPlentyConnector/src/Sync/DataSync/ProcessProductService.php:1180-1191 | On sorted images the fallback is the first accepted image, the first with the lowest position, and none exactly when none is accepted. |
| MediaAssignments.AcceptedRelationIdsSorted | LenzPlatformPlentyConnector/src/Sync/DataSync/ProcessProductService.php:1150-1192 | On sorted images the accepted relation ids come in ascending source position. |
| MediaAssignments.MediaLoop | LenzPlatformPlentyConnector/src/Sync/DataSync/ProcessProductService.php:1155-1192 | The image loop computes the state that the MediaFold lemmas describe. |
| MediaAssignments.ExistingMediaWalk | LenzPlatformPlentyConnector/src/Sync/DataSync/ProcessProductService.php:1195-1210 | Keyed by assignment id, the existing walk is the reconciliation walk: the unplanned existing assignments are deleted, and the planned entries that already exist are dropped. |
| MainCategories.LowestMappedCategorySpec | LenzPlatformPlentyConnector/src/Sync/DataSync/ProcessProductService.php:1347-1360 | A lowest category exists exactly when some category is mapped. It has the minimal position, and ties keep the first. |
| MainCategories.DefaultCategoryByClientSpec | LenzPlatformPlentyConnector/src/Sync/DataSync/ProcessProductService.php:1362-1366 | A client has an entry exactly when it has a default category, and the entry is its last one resolved. |
| MainCategories.ChannelCategorySpec | LenzPlatformPlentyConnector/src/Sync/DataSync/ProcessProductService.php:1362-1374 | A channel's category is its client's mapped default branch, else the lowest mapped category. |
| MainCategories.ExistingFoldRemaining | LenzPlatformPlentyConnector/src/Sync/DataSync/ProcessProductService.php:1376-1397 | After the walk, a channel is pending exactly when it is mapped and no existing row names it. |
| MainCategories.ExistingStepOutcome | LenzPlatformPlentyConnector/src/Sync/DataSync/ProcessProductService.php:1376-1397 | Each existing row becomes exactly one of two things. It is an update keeping its id when its channel resolves and is not yet consumed; otherwise it is a deletion of its id. |
| MainCategories.ExistingFoldCounts | LenzPlatformPlentyConnector/src/Sync/DataSync/ProcessProductService.php:1376-1397 | Updates plus deletions number the existing rows, and the walk emits only updates as rows. |
| MainCategories.NewRowsAsWritten | LenzPlatformPlentyConnector/src/Sync/DataSync/ProcessProductService.php:1399-1405 | As written, one new row per pending channel, whatever its category. |
| MainCategories.NewRowsSpec | LenzPlatformPlentyConnector/src/Sync/DataSync/ProcessProductService.php:1399-1405 | Every intended new row has a category, and every pending channel with a category gets one. |
| MainCategories.MainCategoryNullRowAsWritten | LenzPlatformPlentyConnector/src/Sync/DataSync/ProcessProductService.php:1399-1405 | As written, a variation without categories yields a new row with a null category. |
| MainCategories.MainCategoryNullRowCorrected | LenzPlatformPlentyConnector/src/Sync/DataSync/ProcessProductService.php:1399-1405 | With the correction, the same input yields no row. |
| MainCategories.MainCategoryDataRowsHaveCategory | LenzPlatformPlentyConnector/src/Sync/DataSync/ProcessProductService.php:1340-1409 | With the correction, every row is an update or carries a category. |
| MainCategories.LowestLoop | LenzPlatformPlentyConnector/src/Sync/DataSync/ProcessProductService.php:1347-1360 | The category loop finds the lowest mapped category of LowestMappedCategorySpec. |
| MainCategories.DefaultsLoop | LenzPlatformPlentyConnector/src/Sync/DataSync/ProcessProductService.php:1362-1366 | The default-category loop fills the client map of DefaultCategoryByClientSpec. |
| MainCategories.ChannelsLoop | LenzPlatformPlentyConnector/src/Sync/DataSync/ProcessProductService.php:1368-1374 | The channel loop gives every channel the category of ChannelCategorySpec. |
| MainCategories.ExistingLoop | LenzPlatformPlentyConnector/src/Sync/DataSync/ProcessProductService.php:1376-1397 | The existing-row loop computes the walk of the Existing lemmas. |
| MainCategories.NewRowsLoop | LenzPlatformPlentyConnector/src/Sync/DataSync/ProcessProductService.php:1399-1405 | The new-row loop emits the intended rows of NewRowsSpec. It applies the correction of the first Findings row, so it skips a pending channel with a null category, which the source emits. |
| MainCategories.MainCategoryPayload | LenzPlatformPlentyConnector/src/Sync/DataSync/ProcessProductService.php:1340-1409 | The five loops in order give the payload and deletions with the correction of the first Findings row applied, and every row is an update or has a category. The as-written payload, with its null-category rows, is MainCategoryDataAsWritten. |
| Configurator.SettingDeletes | LenzPlatformPlentyConnector/src/Sync/DataSync/ProcessProductService.php:1258-1279 | An existing main variation queues a delete for each of its settings, with product and option; anything else queues none. |
| Configurator.QueueFoldSpec | LenzPlatformPlentyConnector/src/Sync/DataSync/ProcessProductService.php:1280-1299 | A linked parent's queue gains the linked attribute values in order, and other parents' queues are untouched. |
| Configurator.QueueOptionsSpec | LenzPlatformPlentyConnector/src/Sync/DataSync/ProcessProductService.php:1280-1299 | Only a variant with a linked parent queues options, under that parent only. |
| Configurator.QueueFoldNoDup | LenzPlatformPlentyConnector/src/Sync/DataSync/ProcessProductService.php:1280-1299 | Queueing keeps one entry per parent. |
| Configurator.QueueFoldUnlinked | LenzPlatformPlentyConnector/src/Sync/DataSync/ProcessProductService.php:1280-1299 | A variation without a main variation id, or whose main variation is unlinked, leaves the queue unchanged. |
| Configurator.QueueOptionsNoDup | LenzPlatformPlentyConnector/src/Sync/DataSync/ProcessProductService.php:1280-1299 | The queue keeps one entry per parent. |
| Configurator.WithoutMembership | LenzPlatformPlentyConnector/src/Sync/DataSync/ProcessProductService.php:1696-1705 | An option is added exactly when it is queued and not already present. |
| Configurator.WithoutNoDup | LenzPlatformPlentyConnector/src/Sync/DataSync/ProcessProductService.php:1696-1705 | Filtering a list of distinct options keeps it distinct. |
| Configurator.MergeParentSpec | LenzPlatformPlentyConnector/src/Sync/DataSync/ProcessProductService.php:1687-1712 | The parent gets an entry carrying its id. Its settings gain, in order and once each, exactly the queued options it does not have; every other entry is unchanged. |
| Configurator.EnsureEntrySpec | LenzPlatformPlentyConnector/src/Sync/DataSync/ProcessProductService.php:1690-1692 | A parent without an upsert gets an empty entry keyed by its id, and an existing entry is kept. Other keys are untouched. |
| Configurator.MergeOptionsSpec | LenzPlatformPlentyConnector/src/Sync/DataSync/ProcessProductService.php:1696-1705 | The parent's settings gain the queued options not in the baseline, in order, and other entries are untouched. |
| Configurator.MergeAllSpec | LenzPlatformPlentyConnector/src/Sync/DataSync/ProcessProductService.php:1687-1712 | Every queued parent's settings are its earlier ones followed by its deduplicated new options. A parent whose settings were deleted in this run counts as having none. |
| Configurator.MergeAllQueued | LenzPlatformPlentyConnector/src/Sync/DataSync/ProcessProductService.php:1687-1712 | The same for all queued parents at once, and every other entry is as it was. |
| Configurator.MergeAllOther | LenzPlatformPlentyConnector/src/Sync/DataSync/ProcessProductService.php:1687-1712 | A product that is not queued keeps its upsert entry, or stays without one. |
| Configurator.MergeAllKeyedById | LenzPlatformPlentyConnector/src/Sync/DataSync/ProcessProductService.php:1690-1692 | Every upsert entry keeps its own key as id. |
| Configurator.QueueVariantOptions | LenzPlatformPlentyConnector/src/Sync/DataSync/ProcessProductService.php:1280-1299 | The attribute-value loop queues as QueueOptionsSpec says. |
| Configurator.DeletedProducts | LenzPlatformPlentyConnector/src/Sync/DataSync/ProcessProductService.php:1677-1685 | The products whose settings were deleted, once each. |
| Configurator.DeletedProductsMembership | LenzPlatformPlentyConnector/src/Sync/DataSync/ProcessProductService.php:1677-1685 | A product counts as deleted exactly when some deleted setting belongs to it. |
| Configurator.CollectOptionIds | LenzPlatformPlentyConnector/src/Sync/DataSync/ProcessProductService.php:1693-1700 | The option ids of the existing product's settings. |
| Configurator.MergeParentLoop | LenzPlatformPlentyConnector/src/Sync/DataSync/ProcessProductService.php:1687-1712 | One iteration of the merge loop does what MergeParentSpec says. |
| Configurator.MergeQueue | LenzPlatformPlentyConnector/src/Sync/DataSync/ProcessProductService.php:1687-1712 | The merge loop does what MergeAllSpec says. |
| ProductSync.DeleteRequestsSpec | LenzPlatformPlentyConnector/src/Sync/DataSync/ProcessProductService.php:1638-1681 | Nothing is sent exactly when every queue is empty, and no call is empty. Media deletions go first and configurator settings last. |
| ProductSync.StalePropertyDeletesResent | LenzPlatformPlentyConnector/src/Sync/DataSync/ProcessProductService.php:76-87 | As written, property deletions of an earlier run are sent again. |
| ProductSync.ResetQueuesSendsOnlyStoreQueues | LenzPlatformPlentyConnector/src/Sync/DataSync/ProcessProductService.php:76-87 | With the correction, a fresh run sends only the data-store queues. |
| ProductSync.LoadAdditionalData | LenzPlatformPlentyConnector/src/Sync/DataSync/ProcessProductService.php:170-515 | Every table is restricted to the ids the batch needs, and the tag table is reloaded only when tag sync is on. |
| ProductSync.RemainingAssignments | LenzPlatformPlentyConnector/src/Sync/DataSync/ProcessProductService.php:1195-1212 | Each remaining assignment carries its relation id and is a planned assignment. |
| ProductSync.PlanMedia | LenzPlatformPlentyConnector/src/Sync/DataSync/ProcessProductService.php:1138-1215 | The media closure: sort, plan and reconcile; the cover is stored with the fallback. |
| ProductSync.PlanVisibilities | LenzPlatformPlentyConnector/src/Sync/DataSync/ProcessProductService.php:1063-1078 | One row per channel still to add; a deletion for each existing visibility not desired. |
| ProductSync.ProcessProductService.constructor | LenzPlatformPlentyConnector/src/Sync/DataSync/ProcessProductService.php:66-69 | The service starts with empty tables and queues. |
| ProductSync.ProcessProductService.BeginRun | LenzPlatformPlentyConnector/src/Sync/DataSync/ProcessProductService.php:76-87 | execute reads the restrictions and clears the run's queues. It applies the correction of the second Findings row: `productPropertyDelete` is cleared as well. |
| ProductSync.ProcessProductService.PreloadAdditionalData | LenzPlatformPlentyConnector/src/Sync/DataSync/ProcessProductService.php:170-185 | The tables are loaded and the dynamic properties discovered. An empty table plans nothing, a missing set fails, and otherwise the missing custom fields are created. |
| ProductSync.ProcessProductService.IsPlentyEntityUpdateValid | LenzPlatformPlentyConnector/src/Sync/DataSync/ProcessProductService.php:632-651 | An update is deferred exactly when its market and client are allowed, it is a variant of another variation, its parent is unlinked, and it has not failed before. |
| ProductSync.ProcessProductService.MapParentId | LenzPlatformPlentyConnector/src/Sync/DataSync/ProcessProductService.php:691-716 | A variant with a linked parent gets the parent's id and links itself (the first link wins); all else has no parent and changes nothing. |
| ProductSync.ProcessProductService.MapCategories | LenzPlatformPlentyConnector/src/Sync/DataSync/ProcessProductService.php:915-951 | The categories closure reconciles the desired categories with the product's, appending deletions for the product. |
| ProductSync.ProcessProductService.MapTags | LenzPlatformPlentyConnector/src/Sync/DataSync/ProcessProductService.php:980-1025 | Nothing without tag sync; otherwise it reconciles like categories, against the current target product. |
| ProductSync.ProcessProductService.MapVisibilities | LenzPlatformPlentyConnector/src/Sync/DataSync/ProcessProductService.php:1026-1080 | The visibilities closure: a row for every desired channel still missing, and deletions for the others. |
| ProductSync.ProcessProductService.MapProperties | LenzPlatformPlentyConnector/src/Sync/DataSync/ProcessProductService.php:1081-1137 | The properties closure reconciles attribute and selection values with the product's properties. |
| ProductSync.ProcessProductService.MapOptions | LenzPlatformPlentyConnector/src/Sync/DataSync/ProcessProductService.php:1216-1254 | The options closure reconciles linked attribute values with the product's options. |
| ProductSync.ProcessProductService.MapMedia | LenzPlatformPlentyConnector/src/Sync/DataSync/ProcessProductService.php:1138-1215 | The media and coverId closures: new assignments under their relation ids, deletions of unplanned ones, and the cover or its fallback. |
| ProductSync.ProcessProductService.MapMainCategories | LenzPlatformPlentyConnector/src/Sync/DataSync/ProcessProductService.php:1340-1409 | The rows and deletions of the main-category payload with the correction of the first Findings row applied: a pending channel whose category is null gets no row, where the source emits one. |
| ProductSync.ProcessProductService.QueueConfiguratorDeletes | LenzPlatformPlentyConnector/src/Sync/DataSync/ProcessProductService.php:1258-1279 | An existing main variation queues the deletion of all its settings. |
| ProductSync.ProcessProductService.QueueConfiguratorOptions | LenzPlatformPlentyConnector/src/Sync/DataSync/ProcessProductService.php:1280-1299 | A variant's options are queued under its parent, one entry per parent. |
| ProductSync.ProcessProductService.ManipulateConvertedEntity | LenzPlatformPlentyConnector/src/Sync/DataSync/ProcessProductService.php:1557-1610 | A variant with a missing parent, a disallowed market or client, or 100 failures is marked processed and loses its link. It becomes MISSING_PARENT or DELETED_PRODUCT when the product exists, and null otherwise; anything else passes unchanged. |
| ProductSync.ProcessProductService.RunBeforeUpdates | LenzPlatformPlentyConnector/src/Sync/DataSync/ProcessProductService.php:1636-1713 | The non-empty delete queues are sent in order, then the queued options are merged into the parents' upserts. |
| Customization.KeptSubset | shopware/custom/plugins/LenzPlatformPlentyConnectorCustomization/src/Sync/DataSync/ProcessProductService.php:130-184 | The fields the patch loop leaves alone are fields of the registry with no patch. |
| Customization.PatchedKeys | shopware/custom/plugins/LenzPlatformPlentyConnectorCustomization/src/Sync/DataSync/ProcessProductService.php:139-183 | A replaced field keeps its old key, and a moved field gets a fresh key past every old one. |
| Customization.PatchRegistry | shopware/custom/plugins/LenzPlatformPlentyConnectorCustomization/src/Sync/DataSync/ProcessProductService.php:130-184 | The patch loop over a snapshot leaves untouched fields in order, then the patched ones. Replacements keep their keys and moves take fresh keys. |
| Customization.CustomizeMapping | shopware/custom/plugins/LenzPlatformPlentyConnectorCustomization/src/Sync/DataSync/ProcessProductService.php:120-241 | After patching, the last three fields are product_item_id, the youtube ids and customSearchKeywords, in that order. |
| Customization.PatchRegistryNamed | shopware/custom/plugins/LenzPlatformPlentyConnectorCustomization/src/Sync/DataSync/ProcessProductService.php:139-183 | A patched name keeps as many fields as before, each replaced; an unpatched name keeps its fields. |
| Customization.PatchOfKeepsNames | shopware/custom/plugins/LenzPlatformPlentyConnectorCustomization/src/Sync/DataSync/ProcessProductService.php:139-183 | Every patch of the customization targets the field name it replaces. |
| Customization.NamedPatched | shopware/custom/plugins/LenzPlatformPlentyConnectorCustomization/src/Sync/DataSync/ProcessProductService.php:139-183 | The patched fields of a name are its replacement repeated once per original field, and none for an unpatched name. |
| Customization.NamedKept | shopware/custom/plugins/LenzPlatformPlentyConnectorCustomization/src/Sync/DataSync/ProcessProductService.php:130-184 | The fields left in place are exactly those of the unpatched names. |
| Customization.ReplacedKeepsKey | shopware/custom/plugins/LenzPlatformPlentyConnectorCustomization/src/Sync/DataSync/ProcessProductService.php:139-161 | A field replaced in place keeps its key. |
| Customization.SearchKeywordsRoundTrip | shopware/custom/plugins/LenzPlatformPlentyConnectorCustomization/src/Sync/DataSync/ProcessProductService.php:223-225 | Joining the search keywords with ", " gives back the meta keywords. |
| Common.ImplodeExplode | shopware/custom/plugins/LenzPlatformPlentyConnectorCustomization/src/Sync/DataSync/ProcessProductService.php:223-225 | Joining the pieces of an explode with the same non-empty separator gives back the string. |
| Customization.PropertySelectionsSpec | shopware/custom/plugins/LenzPlatformPlentyConnectorCustomization/src/Sync/DataSync/ProcessProductService.php:50-56 | A selected id is collected exactly when some property 45 has it as its first selection id (null for none). |
| Customization.BatchSelectionsSpec | shopware/custom/plugins/LenzPlatformPlentyConnectorCustomization/src/Sync/DataSync/ProcessProductService.php:45-57 | The searched ids are exactly the selected ids of the batch's unit properties. |
| Customization.CollectSelections | shopware/custom/plugins/LenzPlatformPlentyConnectorCustomization/src/Sync/DataSync/ProcessProductService.php:43-57 | The nested loop collects the ids of BatchSelectionsSpec. |
| Customization.UnitTableSpec | shopware/custom/plugins/LenzPlatformPlentyConnectorCustomization/src/Sync/DataSync/ProcessProductService.php:65-69 | The table has a selection id exactly when a found unit has it, and maps it to the last such unit. |
| Customization.ProvisionSelections | shopware/custom/plugins/LenzPlatformPlentyConnectorCustomization/src/Sync/DataSync/ProcessProductService.php:93-111 | The selection loop creates the units SelectionFoldSpec describes. |
| Customization.ProvisionUnits | shopware/custom/plugins/LenzPlatformPlentyConnectorCustomization/src/Sync/DataSync/ProcessProductService.php:73-113 | The create loop computes the provisioning of BatchFoldSpec. |
| Customization.CreateUnitSpec | shopware/custom/plugins/LenzPlatformPlentyConnectorCustomization/src/Sync/DataSync/ProcessProductService.php:98-110 | A new unit is recorded under its selection with the next random id, short code "-" and one translation per language; nothing is lost. |
| Customization.SelectionFoldNoMatch | shopware/custom/plugins/LenzPlatformPlentyConnectorCustomization/src/Sync/DataSync/ProcessProductService.php:93-97 | Selections other than the selected id create nothing. |
| Customization.SelectionFoldSpec | shopware/custom/plugins/LenzPlatformPlentyConnectorCustomization/src/Sync/DataSync/ProcessProductService.php:93-111 | With distinct selection ids, the invariant holds and the selected id gets a unit when it is among the selections. |
| Customization.PropertyStepSpec | shopware/custom/plugins/LenzPlatformPlentyConnectorCustomization/src/Sync/DataSync/ProcessProductService.php:78-112 | One property keeps the invariant. A unit property whose selected id is one of its selections leaves it with a unit. |
| Customization.PropertiesFoldSpec | shopware/custom/plugins/LenzPlatformPlentyConnectorCustomization/src/Sync/DataSync/ProcessProductService.php:78-112 | The same over one update's properties. |
| Customization.BatchFoldSpec | shopware/custom/plugins/LenzPlatformPlentyConnectorCustomization/src/Sync/DataSync/ProcessProductService.php:73-113 | Found units stay linked. A selection gets at most one created unit, and never one it already had. Every offered unit property of the batch ends up with a unit. |
| Customization.AllFoundCreatesNothing | shopware/custom/plugins/LenzPlatformPlentyConnectorCustomization/src/Sync/DataSync/ProcessProductService.php:85-87 | When the store already has a unit for every offered selection, no unit is created. |
| Customization.PropertiesFoundNothing | shopware/custom/plugins/LenzPlatformPlentyConnectorCustomization/src/Sync/DataSync/ProcessProductService.php:78-91 | The same for one update's properties. |
| Customization.UnitIdResolved | shopware/custom/plugins/LenzPlatformPlentyConnectorCustomization/src/Sync/DataSync/ProcessProductService.php:174-182 | After provisioning, an offered unit property's variation maps unitId to the found unit, or else to the unit created for its selection. |
| Customization.CustomizedProductService.constructor | shopware/custom/plugins/LenzPlatformPlentyConnectorCustomization/src/Sync/DataSync/ProcessProductService.php:25-29 | The customized service wraps the connector's service, with no units yet. |
| Customization.CustomizedProductService.PreloadUnitsByProperty | shopware/custom/plugins/LenzPlatformPlentyConnectorCustomization/src/Sync/DataSync/ProcessProductService.php:38-118 | The map is reset, filled from the search, then completed by the created units, which are handed to create. Every offered unit property ends up with a unit. |
| Customization.CustomizedProductService.PreloadAdditionalData | shopware/custom/plugins/LenzPlatformPlentyConnectorCustomization/src/Sync/DataSync/ProcessProductService.php:31-36 | The connector's preload runs, then the units; a failed preload leaves the units untouched. |
| Customization.CustomizedProductService.ManipulateConvertedEntity | shopware/custom/plugins/LenzPlatformPlentyConnectorCustomization/src/Sync/DataSync/ProcessProductService.php:243-250 | The result and the state change are exactly the connector's. |

## Left out

- Repository I/O: searches, creates and deletes become given tables and appended requests (`requests`, `createdUnits`, `createdCustomFields`).
- The mapping engine (`AbstractProcessService`, `MappingField`, `DataStore`, the access-path resolver) is not part of this model. Fields are data, and each closure is modelled as a separate function or method.
- Float arithmetic: prices are exact `real` values. `Net(gross, rate)` divides the gross by 1 + rate/100, with no double rounding. The purchase prices (rounding) and the weight (/1000) fields are left out.
- md5 and `Uuid::randomHex`: the relation id is an injective constructor of the product id, media id and position; a new UUID is the n-th draw of a counter.
- The config predicates `isVariationMarketAllowed` / `isVariationPlentyIdAllowed`, the image helper's `isImageAllowed`, the value converter (the unit name per language) and the store's language list are parameters. A sales channel carries one `plentyId`, which serves both the channel partition (`getCustomFields()`, ProcessProductService.php:425) and the main-category lookup (`getTranslation('customFields')`, ProcessProductService.php:1373). The model does not distinguish the translated custom fields from the untranslated ones.
- The debug single-variation fetch over HTTP, event dispatch and logging are left out.
- The wall-clock default of `last_updated_at` and the system-config lookups are parameters.
- The fields without a closure are carried as registry entries only. Their values are the engine's.
- Customization.PatchRegistry: PHP's `unset($mapping[$key]); $mapping[$key] = …` keeps the key but moves the entry to the end of the iteration order, and the model follows PHP. A replaced field therefore keeps its key but not its position.
- Customization.BatchFoldSpec: completeness is proved for properties whose selections have distinct ids. With a repeated selection id the source creates two units for one selection, and the model does not state what happens then.
- Customization.UnitIdResolved: states the case of a variation whose last property 45 is offered. A property without a selection value gives null; that case is shown only by the definition of `UnitIdFor`.
- A missing `properties` key of a variation is modelled as an empty property list, which the source's `continue` treats alike.
- Customization.CustomizedProductService.PreloadUnitsByProperty: the repository search order is the order of the given unit list.
- FieldTransforms.RemoveSpaces: states only that no space remains and the length does not grow, not which characters remain.
- FieldTransforms.SelectPriceSpec: the net price is stated through `Net`, which `NetAddsBackToGross` relates to the gross price.
- FieldTransforms.Net: at a tax rate of -100 the source divides by zero and PHP throws a DivisionByZeroError. The model returns 0 there and does not model the exception.
- FieldTransforms.TaxRateOf: an unlinked VAT id makes the source read a missing array entry. PHP warns and reads null, and the model takes the resulting rate of 0 without the warning.
- FieldTransforms.IsCloseout: `intval` is modelled with exact arithmetic, not with PHP's double. A string whose value rounds to 1 only as a double (such as "0.99999999999999999") is read as 0. A numeral that fits in 64 bits is exact in both, and one beyond that range saturates in both. A numeral beyond the double range, such as "1e400", gives 0 in PHP and the 64-bit bound here.
- FieldTransforms.WarehouseAllowed: the warehouse id is compared with the setting's parts as decimal text. PHP's loose `in_array` compares numerically, so a part such as "05" matches warehouse 5 in the source but not in the model.
- Registry.BuildMapping: the static field list of `getMapping` is the parameter `base`. Its fields are not built here. Only the closures that FieldTransforms models are stated.
- ProductSync.ProcessProductService.BeginRun: it clears `productPropertyDelete`, which the source's `execute` does not. This is the correction of the second Findings row. The as-written behaviour is stated by `StalePropertyDeletesResent`.
- ProductSync.ProcessProductService.MapMainCategories: it applies the correction of the first Findings row, so a pending sales channel whose category resolves to null gets no row. The source emits a row with a null `categoryId` there. `MainCategoryDataAsWritten` and `MainCategoryNullRowAsWritten` state the as-written behaviour.
- MainCategories.MainCategoryPayload: it computes the corrected `MainCategoryData` of the first Findings row, without the null-category rows of the source. `MainCategoryDataAsWritten` and `MainCategoryNullRowAsWritten` state the as-written behaviour.
- MainCategories.NewRowsLoop: it builds the corrected new rows of the first Findings row and skips a pending channel with a null category. `NewRowsAsWritten`, `MainCategoryDataAsWritten` and `MainCategoryNullRowAsWritten` state the as-written behaviour.
- MediaAssignments.ImageKey: the media preload requests keys made of the product-media prefix and the image id (ProcessProductService.php:457), while the image loop looks an image up by its bare id (ProcessProductService.php:1162). The model keeps both as written. The prefix constant belongs to `MediaLinkEntity`, and the keys of the loaded table come from `loadPlenty2SwMapping` in the base service. Neither is part of this model, so it cannot decide whether the two keys agree.

## Findings

| source | as written | input that shows it | evidently intended | confidence | as-written member | corrected member |
|---|---|---|---|---|---|---|
| LenzPlatformPlentyConnector/src/Sync/DataSync/ProcessProductService.php:1399-1405 | every pending sales channel gets a new main-category row, even when its category resolved to null | a variation with no mapped category and no default category, one sales channel, no existing main category | new rows only for channels that resolve to a category, as existing rows with a null category are deleted | medium, not executed | MainCategories.MainCategoryNullRowAsWritten | MainCategories.MainCategoryDataRowsHaveCategory |
| LenzPlatformPlentyConnector/src/Sync/DataSync/ProcessProductService.php:76-87 | `execute` clears every delete queue but `productPropertyDelete` | a long-lived service whose first run queued a property deletion, then a second run that maps nothing | the property queue cleared like its siblings | low, not executed | ProductSync.StalePropertyDeletesResent | ProductSync.ResetQueuesSendsOnlyStoreQueues |
