/**
 * The product field registry that `getMapping` assembles: a PHP list of
 * mapping fields (an ordered array with integer keys and a next free
 * key). The engine that evaluates the fields is not modelled; a field is
 * data, and its closure is named by a transform tag whose behaviour is
 * modelled by the function of the same concern elsewhere.
 */
module Registry {
  import opened Common
  import opened Reconcile
  import opened FieldTransforms
  import opened DynamicProperties

  datatype FieldType = TypeString | TypeBoolean | TypeArray | TypeInt | TypeFloat

  /** Which closure, if any, a field carries. */
  datatype Transform =
    | NoTransform
    | CloseoutFromStockLimitation                 // intval($value) === 1
    | MainCategoryRows                            // the main-category resolver
    | ProductNameTransform                        // FieldTransforms.ProductName
    | DynamicMedia(propertyId: int)               // property media link lookup
    | DynamicCast(castTo: FieldType)              // (string) / (float) / (int) cast
    | SplitOn(separator: string)                  // explode($separator, $value)
    | UnitByProperty                              // the customization's unit lookup

  datatype MappingField = MappingField(
    swFieldName: string,
    fieldType: FieldType,
    accessPaths: seq<string>,
    transform: Transform,
    translated: bool,
    defaultValue: Option<string>,
    unsetNullValue: bool)

  /** A field with the constructor's defaults: not translated, no default, null not unset. */
  function Field(name: string, fieldType: FieldType, paths: seq<string>, transform: Transform): MappingField
  {
    MappingField(name, fieldType, paths, transform, false, None, false)
  }

  /** A PHP list: entries in iteration order and the key the next `[]=` uses. */
  datatype Registry = Registry(entries: seq<Entry<int, MappingField>>, nextFree: int)

  predicate Valid(r: Registry)
  {
    && NoDup(EntryKeys(r.entries))
    && forall i | 0 <= i < |r.entries| :: r.entries[i].key < r.nextFree
  }

  /** `$mapping[] = $field`: the next free key, larger than every key, so the field goes last. */
  function Append(r: Registry, f: MappingField): Registry
  {
    Registry(r.entries + [Entry(r.nextFree, f)], r.nextFree + 1)
  }

  lemma AppendValid(r: Registry, f: MappingField)
    requires Valid(r)
    ensures Valid(Append(r, f))
  {
    var ks := EntryKeys(r.entries);
    assert EntryKeys(Append(r, f).entries) == ks + [r.nextFree];
    assert r.nextFree !in ks;
    forall i, j | 0 <= i < j < |ks + [r.nextFree]| ensures (ks + [r.nextFree])[i] != (ks + [r.nextFree])[j] {
    }
  }

  function ListEntries(fields: seq<MappingField>): (r: seq<Entry<int, MappingField>>)
    ensures |r| == |fields|
    ensures forall i | 0 <= i < |fields| :: r[i] == Entry(i, fields[i])
  {
    seq(|fields|, i requires 0 <= i < |fields| => Entry(i, fields[i]))
  }

  /** An array literal: keys 0, 1, 2, ... */
  function FromList(fields: seq<MappingField>): (r: Registry)
    ensures Valid(r)
  {
    var r := Registry(ListEntries(fields), |fields|);
    assert forall i | 0 <= i < |fields| :: EntryKeys(r.entries)[i] == i;
    r
  }

  /** The entries whose field has another name, in order. */
  function DropName(es: seq<Entry<int, MappingField>>, name: string): seq<Entry<int, MappingField>>
    decreases |es|
  {
    if es == [] then []
    else
      var e := es[|es| - 1];
      DropName(es[..|es| - 1], name) + (if e.value.swFieldName == name then [] else [e])
  }

  /** The fields with a given name, in order. */
  function Named(es: seq<Entry<int, MappingField>>, name: string): seq<MappingField>
    decreases |es|
  {
    if es == [] then []
    else
      var e := es[|es| - 1];
      Named(es[..|es| - 1], name) + (if e.value.swFieldName == name then [e.value] else [])
  }

  lemma {:induction false} DropNameSubset(es: seq<Entry<int, MappingField>>, name: string, e: Entry<int, MappingField>)
    requires e in DropName(es, name)
    ensures e in es && e.value.swFieldName != name
    decreases |es|
  {
    var init := es[..|es| - 1];
    if e in DropName(init, name) {
      DropNameSubset(init, name, e);
    }
  }

  lemma {:induction false} NamedConcat(a: seq<Entry<int, MappingField>>, b: seq<Entry<int, MappingField>>, name: string)
    ensures Named(a + b, name) == Named(a, name) + Named(b, name)
    decreases |b|
  {
    if b == [] {
      assert a + b == a;
    } else {
      var init := b[..|b| - 1];
      assert (a + b)[..|a + b| - 1] == a + init;
      NamedConcat(a, init, name);
    }
  }

  /** Dropping a name removes exactly its fields and leaves every other name's fields alone. */
  lemma {:induction false} NamedDropName(es: seq<Entry<int, MappingField>>, dropped: string, name: string)
    ensures Named(DropName(es, dropped), name) == if name == dropped then [] else Named(es, name)
    decreases |es|
  {
    if es != [] {
      var init := es[..|es| - 1];
      var e := es[|es| - 1];
      NamedDropName(init, dropped, name);
      NamedConcat(DropName(init, dropped), if e.value.swFieldName == dropped then [] else [e], name);
      if e.value.swFieldName != dropped {
        assert [e][..0] == [];
        assert Named([e], name) == if e.value.swFieldName == name then [e.value] else [];
      }
    }
  }

  lemma {:induction false} UnsetConcat<V>(a: seq<Entry<int, V>>, b: seq<Entry<int, V>>, k: int)
    ensures Unset(a + b, k) == Unset(a, k) + Unset(b, k)
    decreases |a|
  {
    if a != [] {
      assert (a + b)[0] == a[0];
      assert (a + b)[1..] == a[1..] + b;
      UnsetConcat(a[1..], b, k);
    } else {
      assert a + b == b;
    }
  }

  /** Unsetting the key of an entry whose key occurs nowhere else removes just that entry. */
  lemma UnsetSingle<V>(a: seq<Entry<int, V>>, e: Entry<int, V>, b: seq<Entry<int, V>>)
    requires !HasKey(a, e.key) && !HasKey(b, e.key)
    ensures Unset(a + [e] + b, e.key) == a + b
  {
    UnsetConcat(a + [e], b, e.key);
    UnsetConcat(a, [e], e.key);
    UnsetAbsent(a, e.key);
    UnsetAbsent(b, e.key);
    assert [e][1..] == [];
  }

  /** In a list with distinct keys, the key of entry i occurs neither in the kept prefix nor after i. */
  lemma KeyOnlyAt(snapshot: seq<Entry<int, MappingField>>, i: int, name: string)
    requires NoDup(EntryKeys(snapshot)) && 0 <= i < |snapshot|
    ensures !HasKey(DropName(snapshot[..i], name), snapshot[i].key)
    ensures !HasKey(snapshot[i + 1..], snapshot[i].key)
  {
    var k := snapshot[i].key;
    var ks := EntryKeys(snapshot);
    var kept := DropName(snapshot[..i], name);
    var rest := snapshot[i + 1..];
    forall m | 0 <= m < |kept| ensures EntryKeys(kept)[m] != k {
      DropNameSubset(snapshot[..i], name, kept[m]);
      var n :| 0 <= n < i && snapshot[..i][n] == kept[m];
      assert ks[n] != ks[i];
    }
    forall m | 0 <= m < |rest| ensures EntryKeys(rest)[m] != k {
      assert ks[i + 1 + m] != ks[i];
    }
    HasKeyIff(kept, k);
    HasKeyIff(rest, k);
  }

  lemma DropNameStep(snapshot: seq<Entry<int, MappingField>>, i: int, name: string)
    requires 0 <= i < |snapshot|
    ensures DropName(snapshot[..i + 1], name) ==
      DropName(snapshot[..i], name) + (if snapshot[i].value.swFieldName == name then [] else [snapshot[i]])
  {
    assert snapshot[..i + 1][..i] == snapshot[..i];
  }

  /** One iteration of the removal loop keeps its invariant. */
  lemma RemoveStep(snapshot: seq<Entry<int, MappingField>>, i: int, name: string)
    requires 0 <= i < |snapshot|
    requires !HasKey(DropName(snapshot[..i], name), snapshot[i].key)
    requires !HasKey(snapshot[i + 1..], snapshot[i].key)
    ensures var current := DropName(snapshot[..i], name) + snapshot[i..];
      (if snapshot[i].value.swFieldName == name then Unset(current, snapshot[i].key) else current)
        == DropName(snapshot[..i + 1], name) + snapshot[i + 1..]
  {
    var mid := snapshot[i..];
    assert mid[0] == snapshot[i] && mid[1..] == snapshot[i + 1..];
    DropNameStep(snapshot, i, name);
    if snapshot[i].value.swFieldName == name {
      UnsetHead(DropName(snapshot[..i], name), mid);
    } else {
      KeepHead(DropName(snapshot[..i], name), mid);
    }
  }

  lemma KeepHead<V>(kept: seq<Entry<int, V>>, mid: seq<Entry<int, V>>)
    requires mid != []
    ensures kept + mid == kept + [mid[0]] + mid[1..]
  {
    assert mid == [mid[0]] + mid[1..];
  }

  lemma UnsetHead<V>(kept: seq<Entry<int, V>>, mid: seq<Entry<int, V>>)
    requires mid != []
    requires !HasKey(kept, mid[0].key) && !HasKey(mid[1..], mid[0].key)
    ensures Unset(kept + mid, mid[0].key) == kept + [] + mid[1..]
  {
    KeepHead(kept, mid);
    UnsetSingle(kept, mid[0], mid[1..]);
    assert kept + [] == kept;
  }

  /** The removal loop: unset every field (of a snapshot) whose target name is the given one. */
  method RemoveField(r: Registry, name: string) returns (r': Registry)
    requires Valid(r)
    ensures r' == Registry(DropName(r.entries, name), r.nextFree)
  {
    var snapshot := r.entries;
    var current := snapshot;
    var i := 0;
    assert snapshot[..0] == [];
    while i < |snapshot|
      invariant 0 <= i <= |snapshot|
      invariant current == DropName(snapshot[..i], name) + snapshot[i..]
    {
      KeyOnlyAt(snapshot, i, name);
      RemoveStep(snapshot, i, name);
      if snapshot[i].value.swFieldName == name {
        current := Unset(current, snapshot[i].key);
      }
      i := i + 1;
    }
    assert snapshot[..i] == snapshot;
    r' := Registry(current, r.nextFree);
  }

  lemma {:induction false} DropNameValid(r: Registry, name: string)
    requires Valid(r)
    ensures Valid(Registry(DropName(r.entries, name), r.nextFree))
  {
    var d := DropName(r.entries, name);
    var ks := EntryKeys(r.entries);
    forall i | 0 <= i < |d| ensures d[i].key < r.nextFree && exists j | 0 <= j < |r.entries| :: r.entries[j] == d[i] {
      DropNameSubset(r.entries, name, d[i]);
    }
    DropNameOrder(r.entries, name);
  }

  /** DropName keeps distinct keys distinct. */
  lemma {:induction false} DropNameOrder(es: seq<Entry<int, MappingField>>, name: string)
    requires NoDup(EntryKeys(es))
    ensures NoDup(EntryKeys(DropName(es, name)))
    decreases |es|
  {
    if es != [] {
      var init := es[..|es| - 1];
      var e := es[|es| - 1];
      assert EntryKeys(init) == EntryKeys(es)[..|es| - 1];
      DropNameOrder(init, name);
      if e.value.swFieldName != name {
        var d := DropName(init, name);
        var ks := EntryKeys(d + [e]);
        forall i, j | 0 <= i < j < |ks| ensures ks[i] != ks[j] {
          if j == |ks| - 1 {
            DropNameSubset(init, name, d[i]);
            var n :| 0 <= n < |init| && init[n] == d[i];
            assert EntryKeys(es)[n] == ks[i];
            assert EntryKeys(es)[|es| - 1] == ks[j];
          } else {
            assert ks[i] == EntryKeys(d)[i] && ks[j] == EntryKeys(d)[j];
          }
        }
      }
    }
  }

  // ------------------------------------------------------------ DB overrides

  /** A mapping configured in the database: target field and comma-separated source paths. */
  datatype DbMappingField = DbMappingField(swField: string, plentyField: string)

  /** The legacy access paths that moved under `variation.base`. */
  function RewriteLegacyPath(path: string): (r: string)
  {
    if path == "variation.stockLimitation" then "variation.base.stockLimitation"
    else if path == "variation.isUnavailableIfNetStockIsNotPositive" then "variation.base.isUnavailableIfNetStockIsNotPositive"
    else path
  }

  /** The field a database mapping becomes. */
  function OverrideField(d: DbMappingField): (f: MappingField)
    ensures f.swFieldName == d.swField
  {
    var path := RewriteLegacyPath(d.plentyField);
    if d.swField == "isCloseout" then
      Field(d.swField, TypeBoolean, Explode(",", path),
        if path == "variation.base.stockLimitation" then CloseoutFromStockLimitation else NoTransform)
    else if d.swField == "mainCategories" then
      Field(d.swField, TypeArray, Explode(",", "variation"), MainCategoryRows)
    else
      Field(d.swField, TypeString, Explode(",", path), NoTransform)
  }

  /**
   * isCloseout is a boolean, converted by intval only when read from the
   * stock limitation; mainCategories is an array computed from the whole
   * variation; any other field is a string. Outside mainCategories, the
   * access paths are the configured (legacy-rewritten) list, split on
   * commas and nothing lost.
   */
  lemma OverrideFieldSpec(d: DbMappingField)
    ensures var f := OverrideField(d);
      && (f.fieldType == TypeBoolean <==> d.swField == "isCloseout")
      && (f.fieldType == TypeArray <==> d.swField == "mainCategories")
      && (f.transform == CloseoutFromStockLimitation <==>
            d.swField == "isCloseout"
            && (d.plentyField == "variation.stockLimitation" || d.plentyField == "variation.base.stockLimitation"))
      && (d.swField == "mainCategories" ==> f.accessPaths == ["variation"] && f.transform == MainCategoryRows)
      && (d.swField != "mainCategories" ==> Implode(",", f.accessPaths) == RewriteLegacyPath(d.plentyField))
      && !f.translated && f.defaultValue.None?
  {
    ImplodeExplode(",", RewriteLegacyPath(d.plentyField));
    var v := "variation";
    assert Explode(",", v) == [v] by {
      assert forall i | 0 <= i < |v| :: v[i] != ',';
      ExplodeNoSeparator(v);
    }
  }

  lemma {:induction false} ExplodeNoSeparator(s: string)
    requires forall i | 0 <= i < |s| :: s[i] != ','
    ensures Explode(",", s) == [s]
    decreases |s|
  {
    if |s| >= 1 {
      assert s[..1] == [s[0]];
      assert s[..1] != ",";
      ExplodeNoSeparator(s[1..]);
      assert s == [s[0]] + s[1..];
    }
  }

  /** One database mapping: remove every field with its name, then append its field. */
  function OverrideStep(r: Registry, d: DbMappingField): Registry
  {
    Append(Registry(DropName(r.entries, d.swField), r.nextFree), OverrideField(d))
  }

  function OverridesFold(r: Registry, ds: seq<DbMappingField>): Registry
    decreases |ds|
  {
    if ds == [] then r else OverrideStep(OverridesFold(r, ds[..|ds| - 1]), ds[|ds| - 1])
  }

  lemma {:induction false} OverridesFoldValid(r: Registry, ds: seq<DbMappingField>)
    requires Valid(r)
    ensures Valid(OverridesFold(r, ds))
    decreases |ds|
  {
    if ds != [] {
      var prev := OverridesFold(r, ds[..|ds| - 1]);
      OverridesFoldValid(r, ds[..|ds| - 1]);
      DropNameValid(prev, ds[|ds| - 1].swField);
      AppendValid(Registry(DropName(prev.entries, ds[|ds| - 1].swField), prev.nextFree), OverrideField(ds[|ds| - 1]));
    }
  }

  /** The database mappings applied in order. */
  method ApplyDbOverrides(r: Registry, ds: seq<DbMappingField>) returns (r': Registry)
    requires Valid(r)
    ensures r' == OverridesFold(r, ds)
  {
    r' := r;
    var i := 0;
    while i < |ds|
      invariant 0 <= i <= |ds|
      invariant r' == OverridesFold(r, ds[..i])
    {
      assert ds[..i + 1][..i] == ds[..i];
      OverridesFoldValid(r, ds[..i]);
      var removed := RemoveField(r', ds[i].swField);
      r' := Append(removed, OverrideField(ds[i]));
      i := i + 1;
    }
    assert ds[..i] == ds;
  }

  /** The last database mapping for a target name. */
  function LastOverride(ds: seq<DbMappingField>, name: string): Option<DbMappingField>
    decreases |ds|
  {
    if ds == [] then None
    else if ds[|ds| - 1].swField == name then Some(ds[|ds| - 1])
    else LastOverride(ds[..|ds| - 1], name)
  }

  /** None exactly when no mapping targets the name; otherwise the mapping at the last index that does. */
  lemma {:induction false} LastOverrideSpec(ds: seq<DbMappingField>, name: string)
    ensures LastOverride(ds, name).None? <==> forall i | 0 <= i < |ds| :: ds[i].swField != name
    ensures LastOverride(ds, name).Some? ==>
      exists i | 0 <= i < |ds| :: (ds[i] == LastOverride(ds, name).value && ds[i].swField == name
        && forall j | i < j < |ds| :: ds[j].swField != name)
    decreases |ds|
  {
    if ds != [] && ds[|ds| - 1].swField != name {
      var init := ds[..|ds| - 1];
      LastOverrideSpec(init, name);
      forall i | 0 <= i < |init| ensures init[i] == ds[i] { }
      if LastOverride(init, name).Some? {
        var i :| 0 <= i < |init| && (init[i] == LastOverride(init, name).value && init[i].swField == name
          && forall j | i < j < |init| :: init[j].swField != name);
        assert ds[i] == init[i];
      }
    }
  }

  /**
   * The override rule: a name the database configures ends up with
   * exactly one field, the one of its last database mapping; every other
   * name keeps its fields, in order.
   */
  lemma {:induction false} OverridesFoldNamed(r: Registry, ds: seq<DbMappingField>, name: string)
    ensures Named(OverridesFold(r, ds).entries, name) ==
      if LastOverride(ds, name).Some? then [OverrideField(LastOverride(ds, name).value)] else Named(r.entries, name)
    decreases |ds|
  {
    if ds != [] {
      var init := ds[..|ds| - 1];
      var d := ds[|ds| - 1];
      var prev := OverridesFold(r, init);
      OverridesFoldNamed(r, init, name);
      var dropped := DropName(prev.entries, d.swField);
      NamedDropName(prev.entries, d.swField, name);
      var e := Entry(prev.nextFree, OverrideField(d));
      assert OverridesFold(r, ds).entries == dropped + [e];
      assert (dropped + [e])[..|dropped|] == dropped;
    }
  }

  // ------------------------------------------------------- name and dynamic

  /** The name field: translated, default '-', paths by the name setting. */
  function NameField(setting: Option<string>): MappingField
  {
    MappingField("name", TypeString, NameAccessPaths(setting), ProductNameTransform, true, Some("-"), false)
  }

  /** The custom field of a dynamic property: media lookup for files, a cast otherwise. */
  function DynamicField(propertyId: int, cast: string): (f: MappingField)
  {
    var fieldType := if cast == "float" then TypeFloat else if cast == "int" then TypeInt else TypeString;
    var name := "customFields." + CustomFieldName(propertyId);
    if cast == "file" then
      MappingField(name, fieldType, ["_dynamicProperties." + DecimalString(propertyId) + ".values"],
        DynamicMedia(propertyId), true, None, false)
    else
      MappingField(name, fieldType, ["_dynamicProperties." + DecimalString(propertyId) + ".values.0.value"],
        DynamicCast(fieldType), true, None, false)
  }

  function AppendDynamic(r: Registry, d: DynamicTable): Registry
    decreases |d|
  {
    if d == [] then r else Append(AppendDynamic(r, d[..|d| - 1]), DynamicField(d[|d| - 1].key, d[|d| - 1].value))
  }

  /**
   * `getMapping` after the static list: the database overrides, the name
   * field, then one field per dynamic property.
   */
  method BuildMapping(base: seq<MappingField>, ds: seq<DbMappingField>, nameSetting: Option<string>, d: DynamicTable)
    returns (r: Registry)
    ensures r == AppendDynamic(Append(OverridesFold(FromList(base), ds), NameField(nameSetting)), d)
  {
    r := ApplyDbOverrides(FromList(base), ds);
    r := Append(r, NameField(nameSetting));
    ghost var r0 := r;
    var i := 0;
    while i < |d|
      invariant 0 <= i <= |d|
      invariant r == AppendDynamic(r0, d[..i])
    {
      assert d[..i + 1][..i] == d[..i];
      r := Append(r, DynamicField(d[i].key, d[i].value));
      i := i + 1;
    }
    assert d[..i] == d;
  }

  function AppendedFields(d: DynamicTable): (fs: seq<MappingField>)
    ensures |fs| == |d|
    ensures forall i | 0 <= i < |d| :: fs[i] == DynamicField(d[i].key, d[i].value)
  {
    seq(|d|, i requires 0 <= i < |d| => DynamicField(d[i].key, d[i].value))
  }

  /** The dynamic fields follow the registry they are appended to, one per property and in table order. */
  lemma {:induction false} AppendDynamicSpec(r: Registry, d: DynamicTable)
    ensures EntryValues(AppendDynamic(r, d).entries) == EntryValues(r.entries) + AppendedFields(d)
    ensures AppendDynamic(r, d).nextFree == r.nextFree + |d|
    decreases |d|
  {
    if d != [] {
      var init := d[..|d| - 1];
      AppendDynamicSpec(r, init);
      var prev := AppendDynamic(r, init);
      var f := DynamicField(d[|d| - 1].key, d[|d| - 1].value);
      EntryValuesSnoc(prev.entries, Entry(prev.nextFree, f));
      AppendedFieldsSnoc(d);
    }
  }

  lemma AppendedFieldsSnoc(d: DynamicTable)
    requires d != []
    ensures AppendedFields(d) == AppendedFields(d[..|d| - 1]) + [DynamicField(d[|d| - 1].key, d[|d| - 1].value)]
  {
    var a := AppendedFields(d);
    var front := AppendedFields(d[..|d| - 1]);
    var b := front + [DynamicField(d[|d| - 1].key, d[|d| - 1].value)];
    forall i | 0 <= i < |a| ensures a[i] == b[i] {
      if i < |d| - 1 {
        assert b[i] == front[i];
      }
    }
  }
}
