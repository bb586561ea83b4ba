/**
 * Dynamic properties: the plentymarkets properties that become product
 * custom fields. The preload picks, per property id, the first allowed
 * occurrence with a supported cast; it then plans a custom field for
 * every such property that has none yet. The per-variation view
 * (`_dynamicProperties`) indexes a variation's properties by id.
 */
module DynamicProperties {
  import opened Common
  import opened Plenty
  import opened FieldTransforms
  import opened Preload

  /** The casts that get a custom field. */
  const SupportedCasts: seq<string> :=
    ["string", "shortText", "empty", "float", "int", "longText", "file", "text", "html", "date"]

  /** Property id to cast, in order of discovery. */
  type DynamicTable = seq<Entry<int, string>>

  function PropertiesOf(u: ItemUpdate): seq<VariationProperty>
  {
    u.variation.properties
  }

  /** One property of the batch, in order: skipped when not allowed or already known, kept when its cast is supported. */
  function DynamicStep(d: DynamicTable, restrictions: Option<seq<int>>, p: VariationProperty): DynamicTable
  {
    if !AllowedBy(restrictions, p.propertyId) then d
    else if HasKey(d, p.propertyId) then d
    else if p.cast in SupportedCasts then Put(d, p.propertyId, p.cast)
    else d
  }

  function DynamicFold(restrictions: Option<seq<int>>, ps: seq<VariationProperty>): DynamicTable
    decreases |ps|
  {
    if ps == [] then [] else DynamicStep(DynamicFold(restrictions, ps[..|ps| - 1]), restrictions, ps[|ps| - 1])
  }

  lemma PrefixSnoc<T>(before: seq<T>, s: seq<T>, j: int)
    requires 0 <= j < |s|
    ensures before + s[..j + 1] == (before + s[..j]) + [s[j]]
  {
    assert s[..j + 1] == s[..j] + [s[j]];
  }

  lemma DynamicFoldAppend(restrictions: Option<seq<int>>, ps: seq<VariationProperty>, p: VariationProperty)
    ensures DynamicFold(restrictions, ps + [p]) == DynamicStep(DynamicFold(restrictions, ps), restrictions, p)
  {
    assert (ps + [p])[..|ps|] == ps;
  }

  /** The inner loop of the discovery: one update's properties, in order. */
  method DiscoverInUpdate(d0: DynamicTable, restrictions: Option<seq<int>>, ghost before: seq<VariationProperty>,
                          props: seq<VariationProperty>) returns (d: DynamicTable)
    requires d0 == DynamicFold(restrictions, before)
    ensures d == DynamicFold(restrictions, before + props)
  {
    d := d0;
    assert before + props[..0] == before;
    var j := 0;
    while j < |props|
      invariant 0 <= j <= |props|
      invariant d == DynamicFold(restrictions, before + props[..j])
    {
      var p := props[j];
      ghost var prev := d;
      PrefixSnoc(before, props, j);
      DynamicFoldAppend(restrictions, before + props[..j], p);
      if AllowedBy(restrictions, p.propertyId) && !HasKey(d, p.propertyId) && p.cast in SupportedCasts {
        d := Put(d, p.propertyId, p.cast);
      }
      assert d == DynamicStep(prev, restrictions, p);
      j := j + 1;
    }
    assert props[..j] == props;
  }

  /** `preloadDynamicPropertyGroups`, first half: the dynamic property table of a batch. */
  method DiscoverDynamicProperties(us: seq<ItemUpdate>, restrictions: Option<seq<int>>) returns (d: DynamicTable)
    ensures d == DynamicFold(restrictions, Gather(us, PropertiesOf))
  {
    d := [];
    var i := 0;
    while i < |us|
      invariant 0 <= i <= |us|
      invariant d == DynamicFold(restrictions, Gather(us[..i], PropertiesOf))
    {
      assert us[..i + 1][..i] == us[..i];
      assert Gather(us[..i + 1], PropertiesOf) == Gather(us[..i], PropertiesOf) + PropertiesOf(us[i]);
      d := DiscoverInUpdate(d, restrictions, Gather(us[..i], PropertiesOf), us[i].variation.properties);
      i := i + 1;
    }
    assert us[..i] == us;
  }

  /** A property occurrence that may enter the table under id k. */
  predicate Qualifies(restrictions: Option<seq<int>>, p: VariationProperty, k: int)
  {
    p.propertyId == k && AllowedBy(restrictions, k) && p.cast in SupportedCasts
  }

  /**
   * Each property id is in the table at most once; it is there exactly
   * when some occurrence qualifies, and it carries the cast of the FIRST
   * qualifying occurrence (later ones are ignored).
   */
  lemma {:induction false} DynamicFoldSpec(restrictions: Option<seq<int>>, ps: seq<VariationProperty>, k: int)
    ensures NoDup(EntryKeys(DynamicFold(restrictions, ps)))
    ensures HasKey(DynamicFold(restrictions, ps), k) <==> exists i | 0 <= i < |ps| :: Qualifies(restrictions, ps[i], k)
    ensures HasKey(DynamicFold(restrictions, ps), k) ==>
      exists i | 0 <= i < |ps| :: Qualifies(restrictions, ps[i], k)
        && Get(DynamicFold(restrictions, ps), k) == ps[i].cast
        && forall j | 0 <= j < i :: !Qualifies(restrictions, ps[j], k)
    decreases |ps|
  {
    if ps != [] {
      var init := ps[..|ps| - 1];
      var p := ps[|ps| - 1];
      var prev := DynamicFold(restrictions, init);
      DynamicFoldSpec(restrictions, init, k);
      forall i | 0 <= i < |init| ensures init[i] == ps[i] { }
      if AllowedBy(restrictions, p.propertyId) && !HasKey(prev, p.propertyId) && p.cast in SupportedCasts {
        PutKeys(prev, p.propertyId, p.cast);
        if k == p.propertyId {
          PutGet(prev, k, p.cast);
          assert Qualifies(restrictions, ps[|ps| - 1], k);
        } else {
          PutOther(prev, p.propertyId, p.cast, k);
        }
      }
      if exists i | 0 <= i < |ps| :: Qualifies(restrictions, ps[i], k) {
        var i :| 0 <= i < |ps| && Qualifies(restrictions, ps[i], k);
        if i < |init| {
          assert Qualifies(restrictions, init[i], k);
        }
      }
    }
  }

  // ------------------------------------------------------------ custom fields

  const CustomFieldPropertyPrefix: string := "lenz_platform_plenty_connector_product_property"
  const MissingCustomFieldSet: string := "Could not find custom field set."
  const CustomFieldPositionOffset: int := 10000

  /** The extra configuration of a media custom field. */
  datatype MediaFieldConfig = MediaFieldConfig(customFieldType: string, componentName: string)

  datatype CustomFieldCreate = CustomFieldCreate(
    name: string,
    fieldType: string,
    labelEnGb: string,
    labelDeDe: string,
    position: int,
    active: bool,
    customFieldSetId: SwId,
    allowCustomerWrite: bool,
    allowCartExpose: bool,
    media: Option<MediaFieldConfig>)

  function CustomFieldName(propertyId: int): string
  {
    CustomFieldPropertyPrefix + DecimalString(propertyId)
  }

  /** The custom field planned for a property with the given cast. */
  function CustomFieldFor(propertyId: int, cast: string, setId: SwId): CustomFieldCreate
  {
    CustomFieldCreate(
      CustomFieldName(propertyId),
      CustomFieldType(cast),
      "Property " + DecimalString(propertyId),
      "Eigenschaft " + DecimalString(propertyId),
      CustomFieldPositionOffset + propertyId,
      true,
      setId,
      false,
      false,
      if cast == "file" then Some(MediaFieldConfig("media", "sw-media-field")) else None)
  }

  /** `str_replace` of the prefix, for names that start with it (the only names the search returns). */
  function StripPrefix(name: string): (r: string)
    ensures CustomFieldPropertyPrefix <= name ==> CustomFieldPropertyPrefix + r == name
  {
    if CustomFieldPropertyPrefix <= name then name[|CustomFieldPropertyPrefix|..] else name
  }

  function SearchNames(d: DynamicTable): (r: seq<string>)
    ensures |r| == |d|
    ensures forall i | 0 <= i < |d| :: r[i] == CustomFieldName(d[i].key)
  {
    seq(|d|, i requires 0 <= i < |d| => CustomFieldName(d[i].key))
  }

  /** The property ids of the existing custom fields whose name is one of the searched names. */
  function FoundPropertyIds(names: seq<string>, searched: seq<string>): seq<string>
    decreases |names|
  {
    if names == [] then []
    else
      var n := names[|names| - 1];
      FoundPropertyIds(names[..|names| - 1], searched) + (if n in searched then [StripPrefix(n)] else [])
  }

  lemma {:induction false} FoundPropertyIdsMembership(names: seq<string>, searched: seq<string>, x: string)
    ensures x in FoundPropertyIds(names, searched) <==>
      exists n | n in names :: n in searched && StripPrefix(n) == x
    decreases |names|
  {
    if names != [] {
      var init := names[..|names| - 1];
      FoundPropertyIdsMembership(init, searched, x);
      assert names == init + [names[|names| - 1]];
    }
  }

  function CreatesFold(d: DynamicTable, existing: seq<string>, setId: SwId): seq<CustomFieldCreate>
    decreases |d|
  {
    if d == [] then []
    else
      var e := d[|d| - 1];
      CreatesFold(d[..|d| - 1], existing, setId)
        + (if DecimalString(e.key) in existing then [] else [CustomFieldFor(e.key, e.value, setId)])
  }

  /** The custom fields a table calls for, given the names of all custom fields that exist. */
  function PlannedCreates(d: DynamicTable, fieldNames: seq<string>, setId: SwId): seq<CustomFieldCreate>
  {
    CreatesFold(d, FoundPropertyIds(fieldNames, SearchNames(d)), setId)
  }

  /** The two loops of the custom field half: existing ids, then the fields to create. */
  method CustomFieldCreates(d: DynamicTable, fieldNames: seq<string>, setId: SwId)
    returns (creates: seq<CustomFieldCreate>)
    ensures creates == PlannedCreates(d, fieldNames, setId)
  {
    var searched := SearchNames(d);
    var existing: seq<string> := [];
    var i := 0;
    while i < |fieldNames|
      invariant 0 <= i <= |fieldNames|
      invariant existing == FoundPropertyIds(fieldNames[..i], searched)
    {
      assert fieldNames[..i + 1][..i] == fieldNames[..i];
      if fieldNames[i] in searched {
        existing := existing + [StripPrefix(fieldNames[i])];
      }
      i := i + 1;
    }
    assert fieldNames[..i] == fieldNames;
    creates := [];
    var j := 0;
    while j < |d|
      invariant 0 <= j <= |d|
      invariant creates == CreatesFold(d[..j], existing, setId)
    {
      assert d[..j + 1][..j] == d[..j];
      if DecimalString(d[j].key) !in existing {
        creates := creates + [CustomFieldFor(d[j].key, d[j].value, setId)];
      }
      j := j + 1;
    }
    assert d[..j] == d;
  }

  /** The outcome of the custom field half of the preload. */
  datatype CustomFieldOutcome = Planned(creates: seq<CustomFieldCreate>) | Failed(message: string)

  /**
   * An empty table asks nothing of the store; otherwise a missing custom
   * field set aborts the preload, and a present one yields the planned fields.
   */
  method SyncCustomFields(d: DynamicTable, fieldNames: seq<string>, setId: Option<SwId>)
    returns (r: CustomFieldOutcome)
    ensures d == [] ==> r == Planned([])
    ensures d != [] && setId.None? ==> r == Failed(MissingCustomFieldSet)
    ensures d != [] && setId.Some? ==> r == Planned(PlannedCreates(d, fieldNames, setId.value))
  {
    if d == [] {
      return Planned([]);
    }
    if setId.None? {
      return Failed(MissingCustomFieldSet);
    }
    var creates := CustomFieldCreates(d, fieldNames, setId.value);
    r := Planned(creates);
  }

  /** A field is planned exactly for the table's properties whose id is not among the existing ones. */
  lemma CreatesFoldSpec(d: DynamicTable, existing: seq<string>, setId: SwId, c: CustomFieldCreate)
    ensures c in CreatesFold(d, existing, setId) <==> exists i | 0 <= i < |d| :: Plans(d[i], existing, setId, c)
  {
    if c in CreatesFold(d, existing, setId) {
      CreatesFoldSound(d, existing, setId, c);
    }
    if exists i | 0 <= i < |d| :: Plans(d[i], existing, setId, c) {
      var i :| 0 <= i < |d| && Plans(d[i], existing, setId, c);
      CreatesFoldComplete(d, existing, setId, i);
    }
  }

  lemma {:induction false} CreatesFoldSound(d: DynamicTable, existing: seq<string>, setId: SwId, c: CustomFieldCreate)
    requires c in CreatesFold(d, existing, setId)
    ensures exists i | 0 <= i < |d| :: Plans(d[i], existing, setId, c)
    decreases |d|
  {
    var init := d[..|d| - 1];
    var e := d[|d| - 1];
    if c in CreatesFold(init, existing, setId) {
      CreatesFoldSound(init, existing, setId, c);
      var i :| 0 <= i < |init| && Plans(init[i], existing, setId, c);
      assert init[i] == d[i];
    } else {
      assert Plans(d[|d| - 1], existing, setId, c);
    }
  }

  lemma {:induction false} CreatesFoldComplete(d: DynamicTable, existing: seq<string>, setId: SwId, i: int)
    requires 0 <= i < |d| && DecimalString(d[i].key) !in existing
    ensures CustomFieldFor(d[i].key, d[i].value, setId) in CreatesFold(d, existing, setId)
    decreases |d|
  {
    var init := d[..|d| - 1];
    if i < |init| {
      assert init[i] == d[i];
      CreatesFoldComplete(init, existing, setId, i);
    }
  }

  /** The custom field planned for a table entry whose field does not exist yet. */
  predicate Plans(e: Entry<int, string>, existing: seq<string>, setId: SwId, c: CustomFieldCreate)
  {
    DecimalString(e.key) !in existing && c == CustomFieldFor(e.key, e.value, setId)
  }

  function NamesOf(cs: seq<CustomFieldCreate>): (r: seq<string>)
    ensures |r| == |cs|
    ensures forall i | 0 <= i < |cs| :: r[i] == cs[i].name
  {
    seq(|cs|, i requires 0 <= i < |cs| => cs[i].name)
  }

  /**
   * Once the planned fields exist, planning again for the same table
   * creates nothing.
   */
  lemma SecondRunCreatesNothing(d: DynamicTable, fieldNames: seq<string>, setId: SwId, c: CustomFieldCreate)
    ensures c !in PlannedCreates(d, fieldNames + NamesOf(PlannedCreates(d, fieldNames, setId)), setId)
  {
    var searched := SearchNames(d);
    var first := PlannedCreates(d, fieldNames, setId);
    var names2 := fieldNames + NamesOf(first);
    var existing1 := FoundPropertyIds(fieldNames, searched);
    var existing2 := FoundPropertyIds(names2, searched);
    CreatesFoldSpec(d, existing2, setId, c);
    forall i | 0 <= i < |d| ensures DecimalString(d[i].key) in existing2 {
      var x := DecimalString(d[i].key);
      var n := CustomFieldName(d[i].key);
      assert n == searched[i];
      assert StripPrefix(n) == x by {
        assert CustomFieldPropertyPrefix <= n;
        assert CustomFieldPropertyPrefix + StripPrefix(n) == CustomFieldPropertyPrefix + x;
      }
      FoundPropertyIdsMembership(fieldNames, searched, x);
      FoundPropertyIdsMembership(names2, searched, x);
      if x !in existing1 {
        var f := CustomFieldFor(d[i].key, d[i].value, setId);
        CreatesFoldSpec(d, existing1, setId, f);
        var k :| 0 <= k < |first| && first[k] == f;
        assert NamesOf(first)[k] == n;
        assert n in names2;
      } else {
        var m :| m in fieldNames && m in searched && StripPrefix(m) == x;
        assert m in names2;
      }
    }
  }

  // ------------------------------------------------------ per-variation view

  /** A property value as the mapping sees it; an `empty` property gets one synthetic value. */
  datatype FormattedValue = FormattedValue(id: Option<int>, value: Value, lang: Option<string>)

  datatype FormattedProperty = FormattedProperty(
    propertyId: int,
    cast: string,
    values: seq<FormattedValue>,
    selectionIds: seq<int>)

  function FormatValues(values: seq<PropertyValue>): (r: seq<FormattedValue>)
    ensures |r| == |values|
    ensures forall i | 0 <= i < |values| :: r[i] == FormattedValue(Some(values[i].id), values[i].value, None)
  {
    seq(|values|, i requires 0 <= i < |values| => FormattedValue(Some(values[i].id), values[i].value, None))
  }

  /** The value list an `empty` property gets in place of its own. */
  const EmptyCastValues: seq<FormattedValue> := [FormattedValue(None, Bool(true), Some("de"))]

  function Format(p: VariationProperty): FormattedProperty
  {
    FormattedProperty(p.propertyId, p.cast,
      if p.cast == "empty" then EmptyCastValues else FormatValues(p.values),
      p.selectionIds)
  }

  function FormattedFold(ps: seq<VariationProperty>): seq<Entry<int, FormattedProperty>>
    decreases |ps|
  {
    if ps == [] then [] else
      var p := ps[|ps| - 1];
      Put(FormattedFold(ps[..|ps| - 1]), p.propertyId, Format(p))
  }

  /** `getDynamicProperties`: the variation's properties by id. */
  method DynamicPropertiesOf(v: Variation) returns (r: seq<Entry<int, FormattedProperty>>)
    ensures r == FormattedFold(v.properties)
  {
    r := [];
    var ps := v.properties;
    var i := 0;
    while i < |ps|
      invariant 0 <= i <= |ps|
      invariant r == FormattedFold(ps[..i])
    {
      assert ps[..i + 1][..i] == ps[..i];
      r := Put(r, ps[i].propertyId, Format(ps[i]));
      i := i + 1;
    }
    assert ps[..i] == ps;
  }

  /** Every property id of the variation is a key, exactly once. */
  lemma {:induction false} FormattedFoldKeys(ps: seq<VariationProperty>, k: int)
    ensures NoDup(EntryKeys(FormattedFold(ps)))
    ensures HasKey(FormattedFold(ps), k) <==> exists i | 0 <= i < |ps| :: ps[i].propertyId == k
    decreases |ps|
  {
    if ps != [] {
      var init := ps[..|ps| - 1];
      var p := ps[|ps| - 1];
      var prev := FormattedFold(init);
      FormattedFoldKeys(init, k);
      PutKeys(prev, p.propertyId, Format(p));
      if k == p.propertyId {
        PutGet(prev, k, Format(p));
      } else {
        PutOther(prev, p.propertyId, Format(p), k);
      }
      if exists i | 0 <= i < |ps| :: ps[i].propertyId == k {
        var i :| 0 <= i < |ps| && ps[i].propertyId == k;
        if i < |init| {
          assert init[i].propertyId == k;
        }
      }
      if exists i | 0 <= i < |init| :: init[i].propertyId == k {
        var i :| 0 <= i < |init| && init[i].propertyId == k;
        assert ps[i].propertyId == k;
      }
    }
  }

  /**
   * Under a property id is the LAST property with that id, with the value
   * list of an `empty` cast replaced by the single synthetic `true` value.
   */
  lemma {:induction false} FormattedFoldLast(ps: seq<VariationProperty>, i: int)
    requires 0 <= i < |ps|
    requires forall j | i < j < |ps| :: ps[j].propertyId != ps[i].propertyId
    ensures HasKey(FormattedFold(ps), ps[i].propertyId)
    ensures Get(FormattedFold(ps), ps[i].propertyId) == Format(ps[i])
    decreases |ps|
  {
    var init := ps[..|ps| - 1];
    var p := ps[|ps| - 1];
    var k := ps[i].propertyId;
    if i == |ps| - 1 {
      PutGet(FormattedFold(init), k, Format(p));
    } else {
      assert init[i] == ps[i];
      forall j | i < j < |init| ensures init[j].propertyId != k {
        assert init[j] == ps[j];
      }
      FormattedFoldLast(init, i);
      PutOther(FormattedFold(init), p.propertyId, Format(p), k);
    }
  }
}
