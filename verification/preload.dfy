/**
 * The preload of a batch of item updates: the distinct source ids each
 * lookup table needs, the link tables restricted to them, the price ids
 * per currency, the sales-channel partitions and the existing products.
 */
module Preload {
  import opened Common
  import opened Plenty
  import opened Shopware
  import opened FieldTransforms

  /** The candidates one update contributes to the concatenation a collector loop builds. */
  function Gather<T>(us: seq<ItemUpdate>, f: ItemUpdate -> seq<T>): seq<T>
    decreases |us|
  {
    if us == [] then [] else Gather(us[..|us| - 1], f) + f(us[|us| - 1])
  }

  lemma {:induction false} GatherMembership<T>(us: seq<ItemUpdate>, f: ItemUpdate -> seq<T>, x: T)
    ensures x in Gather(us, f) <==> exists i | 0 <= i < |us| :: x in f(us[i])
    decreases |us|
  {
    if us != [] {
      var init := us[..|us| - 1];
      GatherMembership(init, f, x);
      if x in Gather(init, f) {
        var i :| 0 <= i < |init| && x in f(init[i]);
        assert us[i] == init[i];
      }
      if exists i | 0 <= i < |us| :: x in f(us[i]) {
        var i :| 0 <= i < |us| && x in f(us[i]);
        if i < |init| {
          assert us[i] == init[i];
        }
      }
    }
  }

  lemma DedupMembership<T>(s: seq<T>, x: T)
    ensures x in Dedup(s) <==> x in s
  {
    var d := Dedup(s);
    if x in d {
      var i :| 0 <= i < |d| && d[i] == x;
    }
    if x in s {
      var i :| 0 <= i < |s| && s[i] == x;
    }
  }

  /**
   * A preload collector: the candidates of every update, in order, then
   * `array_values(array_unique(...))`.
   */
  method CollectDistinct<T(==)>(us: seq<ItemUpdate>, f: ItemUpdate -> seq<T>) returns (ids: seq<T>)
    ensures ids == Dedup(Gather(us, f))
  {
    var all: seq<T> := [];
    var i := 0;
    while i < |us|
      invariant 0 <= i <= |us|
      invariant all == Gather(us[..i], f)
    {
      assert us[..i + 1][..i] == us[..i];
      all := all + f(us[i]);
      i := i + 1;
    }
    assert us[..i] == us;
    ids := Dedup(all);
  }

  /** Whether a restriction list (absent: no restriction) allows an id. */
  predicate AllowedBy(restrictions: Option<seq<int>>, id: int)
  {
    restrictions.None? || id in restrictions.value
  }

  function AllowedTags(tags: seq<int>, restrictions: Option<seq<int>>): seq<int>
    decreases |tags|
  {
    if tags == [] then []
    else
      var t := tags[|tags| - 1];
      AllowedTags(tags[..|tags| - 1], restrictions) + (if AllowedBy(restrictions, t) then [t] else [])
  }

  lemma {:induction false} AllowedTagsMembership(tags: seq<int>, restrictions: Option<seq<int>>, x: int)
    ensures x in AllowedTags(tags, restrictions) <==> x in tags && AllowedBy(restrictions, x)
    decreases |tags|
  {
    if tags != [] {
      AllowedTagsMembership(tags[..|tags| - 1], restrictions, x);
      assert tags == tags[..|tags| - 1] + [tags[|tags| - 1]];
    }
  }

  /** Tags: the variation's tags that the tag restriction allows. */
  function TagCandidates(restrictions: Option<seq<int>>): ItemUpdate -> seq<int>
  {
    (u: ItemUpdate) => AllowedTags(u.variation.tags, restrictions)
  }

  /** Taxes: the VAT id when it is not null. */
  function VatCandidates(u: ItemUpdate): seq<int>
  {
    if u.variation.base.vatId.Some? then [u.variation.base.vatId.value] else []
  }

  /** Units: the unit id when the variation has a unit. */
  function UnitCandidates(u: ItemUpdate): seq<int>
  {
    if u.variation.unitId.Some? then [u.variation.unitId.value] else []
  }

  /** Availabilities: the availability id when it is not null. */
  function AvailabilityCandidates(u: ItemUpdate): seq<int>
  {
    if u.variation.base.availabilityId.Some? then [u.variation.base.availabilityId.value] else []
  }

  /** Parent products: the main variation id when it is set and is not the variation itself. */
  function ParentCandidates(u: ItemUpdate): seq<PlentyId>
  {
    var m := u.variation.base.mainVariationId;
    if m.Some? && m.value != u.variation.id then [m.value] else []
  }

  /**
   * Manufacturers: the manufacturer id when present and not 0. A null id,
   * which the source also sends to the search, loads nothing, and it is
   * not modelled as a candidate.
   */
  function ManufacturerCandidates(u: ItemUpdate): seq<int>
  {
    var m := u.variation.base.manufacturerId;
    if m.Some? && m.value != 0 then [m.value] else []
  }

  function CategoryIds(cats: seq<VariationCategory>): (r: seq<PlentyId>)
    ensures |r| == |cats|
    ensures forall i | 0 <= i < |cats| :: r[i] == cats[i].categoryId
  {
    seq(|cats|, i requires 0 <= i < |cats| => cats[i].categoryId)
  }

  /** Categories: every category of the variation. */
  function CategoryCandidates(u: ItemUpdate): seq<PlentyId>
  {
    CategoryIds(u.variation.categories)
  }

  /** Attribute values: every attribute value of the variation. */
  function AttributeValueCandidates(u: ItemUpdate): seq<int>
  {
    u.variation.attributeValueIds
  }

  function ValuesOf(values: seq<PropertyValue>): (r: seq<Value>)
    ensures |r| == |values|
    ensures forall i | 0 <= i < |values| :: r[i] == values[i].value
  {
    seq(|values|, i requires 0 <= i < |values| => values[i].value)
  }

  /** The values of the selection-cast properties, property by property. */
  function SelectionValues(props: seq<VariationProperty>): seq<Value>
    decreases |props|
  {
    if props == [] then []
    else
      var p := props[|props| - 1];
      SelectionValues(props[..|props| - 1]) + (if IsSelectionCast(p.cast) then ValuesOf(p.values) else [])
  }

  /** Property values: the values of selection and multi-selection properties only. */
  function PropertyValueCandidates(u: ItemUpdate): seq<Value>
  {
    SelectionValues(u.variation.properties)
  }

  lemma SelectionValuesMembership(props: seq<VariationProperty>, x: Value)
    ensures x in SelectionValues(props) <==>
      exists k, j | 0 <= k < |props| && 0 <= j < |props[k].values| ::
        IsSelectionCast(props[k].cast) && props[k].values[j].value == x
  {
    if x in SelectionValues(props) {
      var k, j := SelectionValuesSound(props, x);
    }
    if exists k, j | 0 <= k < |props| && 0 <= j < |props[k].values| ::
         IsSelectionCast(props[k].cast) && props[k].values[j].value == x {
      var k, j :| 0 <= k < |props| && 0 <= j < |props[k].values|
                  && IsSelectionCast(props[k].cast) && props[k].values[j].value == x;
      SelectionValuesComplete(props, x, k, j);
    }
  }

  /** A collected value comes from some value `j` of some selection property `k`. */
  lemma {:induction false} SelectionValuesSound(props: seq<VariationProperty>, x: Value) returns (k: int, j: int)
    requires x in SelectionValues(props)
    ensures 0 <= k < |props| && 0 <= j < |props[k].values|
    ensures IsSelectionCast(props[k].cast) && props[k].values[j].value == x
    decreases |props|
  {
    var init := props[..|props| - 1];
    var p := props[|props| - 1];
    if x in SelectionValues(init) {
      k, j := SelectionValuesSound(init, x);
      assert props[k] == init[k];
    } else {
      assert IsSelectionCast(p.cast) && x in ValuesOf(p.values);
      j :| 0 <= j < |p.values| && ValuesOf(p.values)[j] == x;
      k := |props| - 1;
    }
  }

  lemma {:induction false} SelectionValuesComplete(props: seq<VariationProperty>, x: Value, k: int, j: int)
    requires 0 <= k < |props| && 0 <= j < |props[k].values|
    requires IsSelectionCast(props[k].cast) && props[k].values[j].value == x
    ensures x in SelectionValues(props)
    decreases |props|
  {
    var init := props[..|props| - 1];
    if k < |init| {
      assert init[k] == props[k];
      SelectionValuesComplete(init, x, k, j);
    } else {
      assert ValuesOf(props[k].values)[j] == x;
    }
  }

  /** The concatenation of f over xs, in order. */
  function ConcatMap<S, T>(xs: seq<S>, f: S -> seq<T>): seq<T>
    decreases |xs|
  {
    if |xs| == 0 then [] else ConcatMap(xs[..|xs| - 1], f) + f(xs[|xs| - 1])
  }

  lemma {:induction false} ConcatMapMembership<S, T>(xs: seq<S>, f: S -> seq<T>, x: T)
    ensures x in ConcatMap(xs, f) <==> exists i | 0 <= i < |xs| :: x in f(xs[i])
    decreases |xs|
  {
    if |xs| > 0 {
      var init := xs[..|xs| - 1];
      ConcatMapMembership(init, f, x);
      if x in ConcatMap(init, f) {
        var i :| 0 <= i < |init| && x in f(init[i]);
        assert xs[i] == init[i];
      }
      if exists i | 0 <= i < |xs| :: x in f(xs[i]) {
        var i :| 0 <= i < |xs| && x in f(xs[i]);
        if i < |init| {
          assert xs[i] == init[i];
        }
      }
    }
  }

  /** The keys of the media link table an update needs. */
  datatype MediaKeyConfig = MediaKeyConfig(
    productMediaPrefix: string,
    propertyMediaPrefix: string,
    allowed: Image -> bool,
    propertyRestrictions: Option<seq<int>>)

  /** A media link key: the prefix followed by the id in decimal. */
  function PrefixedKey(prefix: string, id: int): string
  {
    prefix + DecimalString(id)
  }

  function ImageKeys(images: seq<Image>, c: MediaKeyConfig): seq<string>
    decreases |images|
  {
    if images == [] then []
    else
      var img := images[|images| - 1];
      ImageKeys(images[..|images| - 1], c)
        + (if c.allowed(img) then [PrefixedKey(c.productMediaPrefix, img.id)] else [])
  }

  function PropertyValueKeys(values: seq<PropertyValue>, prefix: string): (r: seq<string>)
    ensures |r| == |values|
    ensures forall i | 0 <= i < |values| :: r[i] == PrefixedKey(prefix, values[i].id)
  {
    seq(|values|, i requires 0 <= i < |values| => PrefixedKey(prefix, values[i].id))
  }

  /** The keys of one property's values, when it is an allowed file property. */
  function PropertyKeys(p: VariationProperty, c: MediaKeyConfig): seq<string>
  {
    if AllowedBy(c.propertyRestrictions, p.propertyId) && p.cast == "file"
    then PropertyValueKeys(p.values, c.propertyMediaPrefix) else []
  }

  function FilePropertyKeys(props: seq<VariationProperty>, c: MediaKeyConfig): seq<string>
  {
    ConcatMap(props, (p: VariationProperty) => PropertyKeys(p, c))
  }

  /** Media: allowed images under the product-media prefix, then values of allowed file properties. */
  function MediaCandidates(c: MediaKeyConfig): ItemUpdate -> seq<string>
  {
    (u: ItemUpdate) => ImageKeys(u.variation.images, c) + FilePropertyKeys(u.variation.properties, c)
  }

  /** key is the product-media key of an allowed image. */
  predicate ImageKeyOf(images: seq<Image>, c: MediaKeyConfig, key: string)
  {
    exists k | 0 <= k < |images| :: c.allowed(images[k]) && key == PrefixedKey(c.productMediaPrefix, images[k].id)
  }

  /** A file property the restriction allows. */
  predicate IsMediaProperty(p: VariationProperty, c: MediaKeyConfig)
  {
    AllowedBy(c.propertyRestrictions, p.propertyId) && p.cast == "file"
  }

  /** key is the property-media key of a value of an allowed file property. */
  predicate FileKeyOf(props: seq<VariationProperty>, c: MediaKeyConfig, key: string)
  {
    exists k, j | 0 <= k < |props| && 0 <= j < |props[k].values| ::
      IsMediaProperty(props[k], c) && key == PrefixedKey(c.propertyMediaPrefix, props[k].values[j].id)
  }

  /** An image's key is collected exactly when the image is allowed. */
  lemma ImageKeysMembership(images: seq<Image>, c: MediaKeyConfig, key: string)
    ensures key in ImageKeys(images, c) <==> ImageKeyOf(images, c, key)
  {
    if key in ImageKeys(images, c) {
      var k := ImageKeysSound(images, c, key);
    }
    if ImageKeyOf(images, c, key) {
      var k :| 0 <= k < |images| && c.allowed(images[k]) && key == PrefixedKey(c.productMediaPrefix, images[k].id);
      ImageKeysComplete(images, c, k);
    }
  }

  lemma {:induction false} ImageKeysComplete(images: seq<Image>, c: MediaKeyConfig, k: int)
    requires 0 <= k < |images| && c.allowed(images[k])
    ensures PrefixedKey(c.productMediaPrefix, images[k].id) in ImageKeys(images, c)
    decreases |images|
  {
    if k < |images| - 1 {
      assert images[..|images| - 1][k] == images[k];
      ImageKeysComplete(images[..|images| - 1], c, k);
    }
  }

  lemma {:induction false} ImageKeysSound(images: seq<Image>, c: MediaKeyConfig, key: string) returns (k: int)
    requires key in ImageKeys(images, c)
    ensures 0 <= k < |images| && c.allowed(images[k]) && key == PrefixedKey(c.productMediaPrefix, images[k].id)
    decreases |images|
  {
    var n := |images| - 1;
    var init := images[..n];
    if key in ImageKeys(init, c) {
      k := ImageKeysSound(init, c, key);
      assert init[k] == images[k];
    } else {
      k := n;
    }
  }

  /** A value's key is collected exactly when its property is an allowed file property. */
  lemma FilePropertyKeysMembership(props: seq<VariationProperty>, c: MediaKeyConfig, key: string)
    ensures key in FilePropertyKeys(props, c) <==> FileKeyOf(props, c, key)
  {
    var f := (p: VariationProperty) => PropertyKeys(p, c);
    ConcatMapMembership(props, f, key);
    if key in FilePropertyKeys(props, c) {
      var k :| 0 <= k < |props| && key in f(props[k]);
      var keys := PropertyKeys(props[k], c);
      var j :| 0 <= j < |keys| && keys[j] == key;
      assert IsMediaProperty(props[k], c) && key == PrefixedKey(c.propertyMediaPrefix, props[k].values[j].id);
    }
    if FileKeyOf(props, c, key) {
      var k, j :| 0 <= k < |props| && 0 <= j < |props[k].values| && IsMediaProperty(props[k], c)
        && key == PrefixedKey(c.propertyMediaPrefix, props[k].values[j].id);
      assert PropertyKeys(props[k], c)[j] == key;
      assert key in f(props[k]);
    }
  }

  /**
   * `loadPlenty2SwMapping`: the link table restricted to the requested
   * source ids (the link repository is given as the whole table).
   */
  function LoadMapping<K(!new), V>(ids: seq<K>, table: map<K, V>): (r: map<K, V>)
    ensures forall k :: k in r <==> k in ids && k in table
    ensures forall k | k in r :: r[k] == table[k]
  {
    map k | k in table.Keys && k in ids :: table[k]
  }

  /** The distinct tag ids: exactly the tags of the batch that the restriction allows. */
  lemma TagIdsSpec(us: seq<ItemUpdate>, restrictions: Option<seq<int>>, x: int)
    ensures NoDup(Dedup(Gather(us, TagCandidates(restrictions))))
    ensures x in Dedup(Gather(us, TagCandidates(restrictions))) <==>
      AllowedBy(restrictions, x) && exists i | 0 <= i < |us| :: x in us[i].variation.tags
  {
    var f := TagCandidates(restrictions);
    DedupMembership(Gather(us, f), x);
    GatherMembership(us, f, x);
    forall i | 0 <= i < |us| ensures x in f(us[i]) <==> x in us[i].variation.tags && AllowedBy(restrictions, x) {
      AllowedTagsMembership(us[i].variation.tags, restrictions, x);
    }
  }

  /** The distinct parent ids: main variation ids that are set and differ from the variation's own id. */
  lemma ParentIdsSpec(us: seq<ItemUpdate>, x: PlentyId)
    ensures x in Dedup(Gather(us, ParentCandidates)) <==>
      exists i | 0 <= i < |us| :: us[i].variation.base.mainVariationId == Some(x) && x != us[i].variation.id
  {
    DedupMembership(Gather(us, ParentCandidates), x);
    GatherMembership(us, ParentCandidates, x);
  }

  /** The distinct manufacturer ids: present and never 0. */
  lemma ManufacturerIdsSpec(us: seq<ItemUpdate>, x: int)
    ensures x in Dedup(Gather(us, ManufacturerCandidates)) <==>
      x != 0 && exists i | 0 <= i < |us| :: us[i].variation.base.manufacturerId == Some(x)
  {
    DedupMembership(Gather(us, ManufacturerCandidates), x);
    GatherMembership(us, ManufacturerCandidates, x);
    assert forall i | 0 <= i < |us| ::
      x in ManufacturerCandidates(us[i]) <==> x != 0 && us[i].variation.base.manufacturerId == Some(x);
  }

  /** The distinct property values: exactly the values of selection-cast properties. */
  lemma PropertyValueIdsSpec(us: seq<ItemUpdate>, x: Value)
    ensures x in Dedup(Gather(us, PropertyValueCandidates)) <==>
      exists i | 0 <= i < |us| :: exists k, j | 0 <= k < |us[i].variation.properties|
                                   && 0 <= j < |us[i].variation.properties[k].values| ::
        IsSelectionCast(us[i].variation.properties[k].cast) && us[i].variation.properties[k].values[j].value == x
  {
    DedupMembership(Gather(us, PropertyValueCandidates), x);
    GatherMembership(us, PropertyValueCandidates, x);
    forall i | 0 <= i < |us|
      ensures x in PropertyValueCandidates(us[i]) <==>
        exists k, j | 0 <= k < |us[i].variation.properties| && 0 <= j < |us[i].variation.properties[k].values| ::
          IsSelectionCast(us[i].variation.properties[k].cast) && us[i].variation.properties[k].values[j].value == x
    {
      SelectionValuesMembership(us[i].variation.properties, x);
    }
  }

  /**
   * The distinct media keys: exactly the product-media keys of the allowed
   * images and the property-media keys of the values of allowed file
   * properties, each once.
   */
  lemma MediaKeysSpec(us: seq<ItemUpdate>, c: MediaKeyConfig, key: string)
    ensures NoDup(Dedup(Gather(us, MediaCandidates(c))))
    ensures key in Dedup(Gather(us, MediaCandidates(c))) <==>
      exists i | 0 <= i < |us| ::
        ImageKeyOf(us[i].variation.images, c, key) || FileKeyOf(us[i].variation.properties, c, key)
  {
    var f := MediaCandidates(c);
    DedupMembership(Gather(us, f), key);
    GatherMembership(us, f, key);
    forall i | 0 <= i < |us|
      ensures key in f(us[i]) <==>
        ImageKeyOf(us[i].variation.images, c, key) || FileKeyOf(us[i].variation.properties, c, key)
    {
      ImageKeysMembership(us[i].variation.images, c, key);
      FilePropertyKeysMembership(us[i].variation.properties, c, key);
    }
  }

  // ------------------------------------------------------------ currencies

  /** A currency with its connector custom fields (price id, list price id). */
  datatype Currency = Currency(id: SwId, priceId: Option<int>, listPriceId: Option<int>)

  /** `(int)` on an optional custom field: null is 0. */
  function IntOrZero(x: Option<int>): int
  {
    if x.Some? then x.value else 0
  }

  function CurrencyStep(table: seq<Entry<SwId, PriceIds>>, c: Currency): seq<Entry<SwId, PriceIds>>
  {
    if c.priceId.None? then table else Put(table, c.id, PriceIds(c.priceId.value, IntOrZero(c.listPriceId)))
  }

  /** The default retail and suggested-retail price ids when the configuration has none. */
  const DefaultRetailPriceId: int := 1
  const DefaultListPriceId: int := 2

  function CurrencyFold(table: seq<Entry<SwId, PriceIds>>, cs: seq<Currency>): seq<Entry<SwId, PriceIds>>
    decreases |cs|
  {
    if cs == [] then table else CurrencyStep(CurrencyFold(table, cs[..|cs| - 1]), cs[|cs| - 1])
  }

  /** `swCurrency2PriceIds`: the configured ids for the default currency, then every currency with a price id. */
  method CurrencyPriceIds(retailPriceId: Option<int>, listPriceId: Option<int>, currencies: seq<Currency>)
    returns (table: seq<Entry<SwId, PriceIds>>)
    ensures table == CurrencyFold([Entry(DefaultCurrency, PriceIds(
                        if retailPriceId.Some? then retailPriceId.value else DefaultRetailPriceId,
                        if listPriceId.Some? then listPriceId.value else DefaultListPriceId))], currencies)
  {
    table := [Entry(DefaultCurrency, PriceIds(
                if retailPriceId.Some? then retailPriceId.value else DefaultRetailPriceId,
                if listPriceId.Some? then listPriceId.value else DefaultListPriceId))];
    ghost var t0 := table;
    var i := 0;
    while i < |currencies|
      invariant 0 <= i <= |currencies|
      invariant table == CurrencyFold(t0, currencies[..i])
    {
      assert currencies[..i + 1][..i] == currencies[..i];
      var c := currencies[i];
      if c.priceId.Some? {
        table := Put(table, c.id, PriceIds(c.priceId.value, IntOrZero(c.listPriceId)));
      }
      i := i + 1;
    }
    assert currencies[..i] == currencies;
  }

  /**
   * The default currency stays first in the table and keeps the seeded
   * ids unless a currency with its id has a price id; any other currency
   * is in the table exactly when some currency with that id has a price
   * id, and then carries the ids of the last such currency
   * (CurrencyFoldValue).
   */
  lemma CurrencyFoldSpec(defaults: PriceIds, cs: seq<Currency>, id: SwId)
    ensures var t := CurrencyFold([Entry(DefaultCurrency, defaults)], cs);
      && t != [] && t[0].key == DefaultCurrency
      && (id != DefaultCurrency ==>
            (HasKey(t, id) <==> exists i | 0 <= i < |cs| :: cs[i].id == id && cs[i].priceId.Some?))
      && (id == DefaultCurrency && (forall i | 0 <= i < |cs| :: !(cs[i].id == id && cs[i].priceId.Some?)) ==>
            HasKey(t, id) && Get(t, id) == defaults)
  {
    CurrencyFoldHead(defaults, cs);
    if id != DefaultCurrency {
      CurrencyFoldHas(defaults, cs, id);
    } else if forall i | 0 <= i < |cs| :: !(cs[i].id == id && cs[i].priceId.Some?) {
      CurrencyFoldKeeps([Entry(DefaultCurrency, defaults)], cs, id);
    }
  }

  /** The entry of a currency carries the ids of the last currency with that id and a price id. */
  lemma {:induction false} CurrencyFoldValue(table: seq<Entry<SwId, PriceIds>>, cs: seq<Currency>, i: int)
    requires 0 <= i < |cs| && cs[i].priceId.Some?
    requires forall j | i < j < |cs| :: !(cs[j].id == cs[i].id && cs[j].priceId.Some?)
    ensures HasKey(CurrencyFold(table, cs), cs[i].id)
    ensures Get(CurrencyFold(table, cs), cs[i].id) == PriceIds(cs[i].priceId.value, IntOrZero(cs[i].listPriceId))
    decreases |cs|
  {
    var n := |cs| - 1;
    var init := cs[..n];
    var c := cs[n];
    var prev := CurrencyFold(table, init);
    if i == n {
      PutGet(prev, c.id, PriceIds(c.priceId.value, IntOrZero(c.listPriceId)));
    } else {
      assert init[i] == cs[i];
      forall j | i < j < |init| ensures !(init[j].id == init[i].id && init[j].priceId.Some?) {
        assert init[j] == cs[j];
      }
      CurrencyFoldValue(table, init, i);
      if c.priceId.Some? {
        PutOther(prev, c.id, PriceIds(c.priceId.value, IntOrZero(c.listPriceId)), cs[i].id);
      }
    }
  }

  /** An entry that no currency with a price id names keeps its seed value. */
  lemma {:induction false} CurrencyFoldKeeps(table: seq<Entry<SwId, PriceIds>>, cs: seq<Currency>, id: SwId)
    requires HasKey(table, id)
    requires forall i | 0 <= i < |cs| :: !(cs[i].id == id && cs[i].priceId.Some?)
    ensures HasKey(CurrencyFold(table, cs), id) && Get(CurrencyFold(table, cs), id) == Get(table, id)
    decreases |cs|
  {
    if cs != [] {
      var n := |cs| - 1;
      var init := cs[..n];
      var c := cs[n];
      forall j | 0 <= j < |init| ensures !(init[j].id == id && init[j].priceId.Some?) {
        assert init[j] == cs[j];
      }
      CurrencyFoldKeeps(table, init, id);
      if c.priceId.Some? {
        PutOther(CurrencyFold(table, init), c.id, PriceIds(c.priceId.value, IntOrZero(c.listPriceId)), id);
      }
    }
  }

  /** The default currency stays the first entry. */
  lemma {:induction false} CurrencyFoldHead(defaults: PriceIds, cs: seq<Currency>)
    ensures var t := CurrencyFold([Entry(DefaultCurrency, defaults)], cs);
      t != [] && t[0].key == DefaultCurrency
    decreases |cs|
  {
    if cs != [] {
      CurrencyFoldHead(defaults, cs[..|cs| - 1]);
    }
  }

  /** Another currency has an entry exactly when some currency with that id has a price id. */
  lemma {:induction false} CurrencyFoldHas(defaults: PriceIds, cs: seq<Currency>, id: SwId)
    requires id != DefaultCurrency
    ensures HasKey(CurrencyFold([Entry(DefaultCurrency, defaults)], cs), id)
        <==> exists i | 0 <= i < |cs| :: cs[i].id == id && cs[i].priceId.Some?
    decreases |cs|
  {
    if cs != [] {
      var init := cs[..|cs| - 1];
      var c := cs[|cs| - 1];
      CurrencyFoldHas(defaults, init, id);
      var prev := CurrencyFold([Entry(DefaultCurrency, defaults)], init);
      if c.priceId.Some? {
        var v := PriceIds(c.priceId.value, IntOrZero(c.listPriceId));
        if id == c.id {
          PutGet(prev, c.id, v);
        } else {
          PutOther(prev, c.id, v, id);
        }
      }
      if exists i | 0 <= i < |init| :: init[i].id == id && init[i].priceId.Some? {
        var i :| 0 <= i < |init| && init[i].id == id && init[i].priceId.Some?;
        assert cs[i] == init[i];
      }
      if exists i | 0 <= i < |cs| :: cs[i].id == id && cs[i].priceId.Some? {
        var i :| 0 <= i < |cs| && cs[i].id == id && cs[i].priceId.Some?;
        if i < |init| {
          assert init[i] == cs[i];
        }
      }
    }
  }

  // ---------------------------------------------------------- sales channels

  function WithMarket(channels: seq<SalesChannel>): seq<SalesChannel>
    decreases |channels|
  {
    if channels == [] then []
    else
      var c := channels[|channels| - 1];
      WithMarket(channels[..|channels| - 1]) + (if IsSet(c.marketId) then [c] else [])
  }

  function WithPlentyId(channels: seq<SalesChannel>): seq<SalesChannel>
    decreases |channels|
  {
    if channels == [] then []
    else
      var c := channels[|channels| - 1];
      WithPlentyId(channels[..|channels| - 1]) + (if IsSet(c.plentyId) then [c] else [])
  }

  /** The two partitions of the sales channels, built in one pass. */
  method PartitionSalesChannels(channels: seq<SalesChannel>)
    returns (withMarket: seq<SalesChannel>, withPlentyId: seq<SalesChannel>)
    ensures withMarket == WithMarket(channels)
    ensures withPlentyId == WithPlentyId(channels)
  {
    withMarket := [];
    withPlentyId := [];
    var i := 0;
    while i < |channels|
      invariant 0 <= i <= |channels|
      invariant withMarket == WithMarket(channels[..i])
      invariant withPlentyId == WithPlentyId(channels[..i])
    {
      assert channels[..i + 1][..i] == channels[..i];
      var c := channels[i];
      if IsSet(c.marketId) {
        withMarket := withMarket + [c];
      }
      if IsSet(c.plentyId) {
        withPlentyId := withPlentyId + [c];
      }
      i := i + 1;
    }
    assert channels[..i] == channels;
  }

  /** A channel is in a partition exactly when its custom field is set (present and not 0). */
  lemma {:induction false} PartitionSpec(channels: seq<SalesChannel>, c: SalesChannel)
    ensures c in WithMarket(channels) <==> c in channels && IsSet(c.marketId)
    ensures c in WithPlentyId(channels) <==> c in channels && IsSet(c.plentyId)
    decreases |channels|
  {
    if channels != [] {
      PartitionSpec(channels[..|channels| - 1], c);
      assert channels == channels[..|channels| - 1] + [channels[|channels| - 1]];
    }
  }

  // ------------------------------------------------------- existing products

  /**
   * The existing products: those of the target catalogue whose id is the
   * link of an updated variation or of a parent.
   */
  function ExistingProducts(entityLinks: map<PlentyId, SwId>, productLinks: map<PlentyId, SwId>,
                            catalogue: map<SwId, ExistingProduct>): (r: map<SwId, ExistingProduct>)
    ensures forall id :: id in r <==> id in catalogue && (id in entityLinks.Values || id in productLinks.Values)
    ensures forall id | id in r :: r[id] == catalogue[id]
  {
    map id | id in catalogue.Keys && (id in entityLinks.Values || id in productLinks.Values) :: catalogue[id]
  }
}
