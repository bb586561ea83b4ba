/**
 * The "desired" lists of the relation fields of the product mapping: which
 * target ids a variation should be related to. Only source ids that have a
 * resolved target id (a link) contribute; the others are skipped.
 */
module ProductRelations {
  import opened Common
  import opened Plenty
  import opened Shopware

  /**
   * The target ids of the elements of xs whose key has a link, in order
   * (`if (!array_key_exists(key, table)) continue; $ids[] = table[key];`).
   */
  function Lookups<A, K>(xs: seq<A>, key: A -> K, table: map<K, SwId>): (r: seq<SwId>)
    ensures |r| <= |xs|
    decreases |xs|
  {
    if xs == [] then []
    else
      var prev := Lookups(xs[..|xs| - 1], key, table);
      var last := xs[|xs| - 1];
      if key(last) in table then prev + [table[key(last)]] else prev
  }

  /** Every looked-up id is the link of some element of xs. */
  lemma {:induction false} LookupsSound<A, K>(xs: seq<A>, key: A -> K, table: map<K, SwId>, i: int)
    requires 0 <= i < |Lookups(xs, key, table)|
    ensures exists j | 0 <= j < |xs| :: key(xs[j]) in table && table[key(xs[j])] == Lookups(xs, key, table)[i]
    decreases |xs|
  {
    var init := xs[..|xs| - 1];
    var prev := Lookups(init, key, table);
    if i < |prev| {
      LookupsSound(init, key, table, i);
      var j :| 0 <= j < |init| && key(init[j]) in table && table[key(init[j])] == prev[i];
      assert init[j] == xs[j];
    } else {
      assert key(xs[|xs| - 1]) in table;
    }
  }

  /** The link of every linked element of xs is looked up. */
  lemma {:induction false} LookupsComplete<A, K>(xs: seq<A>, key: A -> K, table: map<K, SwId>, j: int)
    requires 0 <= j < |xs| && key(xs[j]) in table
    ensures table[key(xs[j])] in Lookups(xs, key, table)
    decreases |xs|
  {
    var init := xs[..|xs| - 1];
    if j < |init| {
      assert init[j] == xs[j];
      LookupsComplete(init, key, table, j);
    }
  }

  function CategoryIdOf(c: VariationCategory): PlentyId { c.categoryId }
  function IdOf(i: int): int { i }
  function ValueOf(pv: PropertyValue): Value { pv.value }

  /** Categories closure: the linked target category of every variation category. */
  function DesiredCategoryIds(v: Variation, categoryLinks: map<PlentyId, SwId>): seq<SwId>
  {
    Lookups(v.categories, CategoryIdOf, categoryLinks)
  }

  /** Tags closure: the linked target tag of every variation tag. */
  function DesiredTagIds(v: Variation, tagLinks: map<int, SwId>): seq<SwId>
  {
    Lookups(v.tags, IdOf, tagLinks)
  }

  /** Options closure: the linked target option of every attribute value. */
  function DesiredOptionIds(v: Variation, attributeValueLinks: map<int, SwId>): seq<SwId>
  {
    Lookups(v.attributeValueIds, IdOf, attributeValueLinks)
  }

  /**
   * The linked target option of every value of every selection or
   * multi-selection property, property by property; other casts are skipped.
   */
  function SelectionValueIds(props: seq<VariationProperty>, propertyValueLinks: map<Value, SwId>): (r: seq<SwId>)
    decreases |props|
  {
    if props == [] then []
    else
      var p := props[|props| - 1];
      SelectionValueIds(props[..|props| - 1], propertyValueLinks)
        + (if IsSelectionCast(p.cast) then Lookups(p.values, ValueOf, propertyValueLinks) else [])
  }

  /** A linked value of a selection property contributes its target option. */
  lemma {:induction false} SelectionValueIdsComplete(props: seq<VariationProperty>, propertyValueLinks: map<Value, SwId>,
                                                      k: int, j: int)
    requires 0 <= k < |props| && IsSelectionCast(props[k].cast)
    requires 0 <= j < |props[k].values| && props[k].values[j].value in propertyValueLinks
    ensures propertyValueLinks[props[k].values[j].value] in SelectionValueIds(props, propertyValueLinks)
    decreases |props|
  {
    var init := props[..|props| - 1];
    if k < |init| {
      assert init[k] == props[k];
      SelectionValueIdsComplete(init, propertyValueLinks, k, j);
    } else {
      LookupsComplete(props[k].values, ValueOf, propertyValueLinks, j);
    }
  }

  /** Every contributed option is the link of a value of a selection property. */
  lemma {:induction false} SelectionValueIdsSound(props: seq<VariationProperty>, propertyValueLinks: map<Value, SwId>, i: int)
    requires 0 <= i < |SelectionValueIds(props, propertyValueLinks)|
    ensures exists k, j | 0 <= k < |props| && 0 <= j < |props[k].values| ::
      IsSelectionCast(props[k].cast) && props[k].values[j].value in propertyValueLinks
      && propertyValueLinks[props[k].values[j].value] == SelectionValueIds(props, propertyValueLinks)[i]
    decreases |props|
  {
    var init := props[..|props| - 1];
    var p := props[|props| - 1];
    var prev := SelectionValueIds(init, propertyValueLinks);
    if i < |prev| {
      SelectionValueIdsSound(init, propertyValueLinks, i);
      var k, j :| 0 <= k < |init| && 0 <= j < |init[k].values| &&
        IsSelectionCast(init[k].cast) && init[k].values[j].value in propertyValueLinks
        && propertyValueLinks[init[k].values[j].value] == prev[i];
      assert init[k] == props[k];
    } else {
      var own := Lookups(p.values, ValueOf, propertyValueLinks);
      assert IsSelectionCast(p.cast);
      assert SelectionValueIds(props, propertyValueLinks)[i] == own[i - |prev|];
      LookupsSound(p.values, ValueOf, propertyValueLinks, i - |prev|);
      var j :| 0 <= j < |p.values| && ValueOf(p.values[j]) in propertyValueLinks
        && propertyValueLinks[ValueOf(p.values[j])] == own[i - |prev|];
      assert props[|props| - 1].values[j].value == ValueOf(p.values[j]);
    }
  }

  /**
   * Properties closure: attribute values first, then the values of
   * selection properties, each resolved through its own link table.
   */
  function DesiredPropertyIds(v: Variation, attributeValueLinks: map<int, SwId>,
                              propertyValueLinks: map<Value, SwId>): seq<SwId>
  {
    Lookups(v.attributeValueIds, IdOf, attributeValueLinks)
      + SelectionValueIds(v.properties, propertyValueLinks)
  }

  function ChannelIdOf(c: SalesChannel): SwId { c.id }

  /**
   * Whether a sales channel with a market shows the variation: its market
   * and client custom fields are set and the configuration allows the
   * variation's markets and clients for them.
   */
  predicate VisibleIn(v: Variation, c: SalesChannel, config: ConnectorConfig)
  {
    && IsSet(c.marketId)
    && config.marketAllowed(v.marketIds, Some([c.marketId.value]))
    && IsSet(c.plentyId)
    && config.clientAllowed(v.clientIds, Some([c.plentyId.value]))
  }

  /** The ids of the channels of cs that show the variation, in order. */
  function VisibleChannelIds(v: Variation, config: ConnectorConfig, cs: seq<SalesChannel>): (r: seq<SwId>)
    ensures forall id | id in r :: exists c | c in cs :: c.id == id && VisibleIn(v, c, config)
    ensures forall c | c in cs && VisibleIn(v, c, config) :: c.id in r
    decreases |cs|
  {
    if cs == [] then []
    else
      var init := cs[..|cs| - 1];
      var c := cs[|cs| - 1];
      assert cs == init + [c];
      VisibleChannelIds(v, config, init) + (if VisibleIn(v, c, config) then [c.id] else [])
  }

  /**
   * Visibilities closure: every sales channel when no channel carries a
   * market or client, otherwise the channels with a market that show the
   * variation.
   */
  function DesiredChannelIds(v: Variation, config: ConnectorConfig, channels: seq<SalesChannel>,
                             withMarket: seq<SalesChannel>, withPlentyId: seq<SalesChannel>): (r: seq<SwId>)
    ensures |withMarket| == 0 && |withPlentyId| == 0 ==>
      forall c | c in channels :: c.id in r
    ensures !(|withMarket| == 0 && |withPlentyId| == 0) ==>
      forall id | id in r :: exists c | c in withMarket :: c.id == id && VisibleIn(v, c, config)
    ensures !(|withMarket| == 0 && |withPlentyId| == 0) ==>
      forall c | c in withMarket && VisibleIn(v, c, config) :: c.id in r
  {
    if |withMarket| == 0 && |withPlentyId| == 0 then ChannelIds(channels)
    else VisibleChannelIds(v, config, withMarket)
  }

  function ChannelIds(cs: seq<SalesChannel>): (r: seq<SwId>)
    ensures |r| == |cs|
    ensures forall i | 0 <= i < |cs| :: r[i] == cs[i].id
    decreases |cs|
  {
    if cs == [] then [] else ChannelIds(cs[..|cs| - 1]) + [cs[|cs| - 1].id]
  }

  /** The collecting loop `$ids[] = table[key]` for every element whose key is linked. */
  method LookupLoop<A, K>(xs: seq<A>, key: A -> K, table: map<K, SwId>) returns (r: seq<SwId>)
    ensures r == Lookups(xs, key, table)
  {
    r := [];
    for i := 0 to |xs|
      invariant r == Lookups(xs[..i], key, table)
    {
      assert xs[..i + 1][..i] == xs[..i];
      if key(xs[i]) in table {
        r := r + [table[key(xs[i])]];
      }
    }
    assert xs[..|xs|] == xs;
  }

  /** The nested loop over the selection properties and their values. */
  method SelectionValueLoop(props: seq<VariationProperty>, propertyValueLinks: map<Value, SwId>) returns (r: seq<SwId>)
    ensures r == SelectionValueIds(props, propertyValueLinks)
  {
    r := [];
    for i := 0 to |props|
      invariant r == SelectionValueIds(props[..i], propertyValueLinks)
    {
      assert props[..i + 1][..i] == props[..i];
      if IsSelectionCast(props[i].cast) {
        var ids := LookupLoop(props[i].values, ValueOf, propertyValueLinks);
        r := r + ids;
      }
    }
    assert props[..|props|] == props;
  }

  /** The properties closure's collection: attribute values, then selection values. */
  method PropertyIdsLoop(v: Variation, attributeValueLinks: map<int, SwId>, propertyValueLinks: map<Value, SwId>)
    returns (r: seq<SwId>)
    ensures r == DesiredPropertyIds(v, attributeValueLinks, propertyValueLinks)
  {
    var fromAttributes := LookupLoop(v.attributeValueIds, IdOf, attributeValueLinks);
    var fromProperties := SelectionValueLoop(v.properties, propertyValueLinks);
    r := fromAttributes + fromProperties;
  }

  /** The visibilities closure's collection of sales-channel ids. */
  method ChannelIdsLoop(v: Variation, config: ConnectorConfig, channels: seq<SalesChannel>,
                        withMarket: seq<SalesChannel>, withPlentyId: seq<SalesChannel>)
    returns (r: seq<SwId>)
    ensures r == DesiredChannelIds(v, config, channels, withMarket, withPlentyId)
  {
    if |withMarket| == 0 && |withPlentyId| == 0 {
      return ChannelIds(channels);
    }
    r := [];
    for i := 0 to |withMarket|
      invariant r == VisibleChannelIds(v, config, withMarket[..i])
    {
      assert withMarket[..i + 1][..i] == withMarket[..i];
      var c := withMarket[i];
      if IsSet(c.marketId) && config.marketAllowed(v.marketIds, Some([c.marketId.value]))
         && IsSet(c.plentyId) && config.clientAllowed(v.clientIds, Some([c.plentyId.value])) {
        r := r + [c.id];
      }
    }
    assert withMarket[..|withMarket|] == withMarket;
  }
}
