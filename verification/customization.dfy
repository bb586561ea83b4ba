/**
 * The deployment's customization of the product sync: patches to the
 * inherited field registry, units provisioned from the selections of
 * property 45, the `unitId` and search-keyword transforms, and the
 * delegation of `manipulateConvertedEntity` to the connector.
 */
module Customization {
  import opened Common
  import opened Plenty
  import opened Shopware
  import opened Reconcile
  import opened FieldTransforms
  import opened Preload
  import opened Registry
  import opened ProductSync
  import opened DynamicProperties
  import opened Configurator

  // ------------------------------------------------------- registry patches

  /** What the patch loop does with a field of the inherited registry. */
  datatype Patch =
    | Keep
    | ReplaceInPlace(field: MappingField)   // unset($mapping[$key]); $mapping[$key] = field
    | MoveToEnd(field: MappingField)        // unset($mapping[$key]); $mapping[] = field

  const UnitPropertyId: int := 45

  /** The patch for a target field name. */
  function PatchOf(name: string): Patch
  {
    if name == "productNumber" then
      ReplaceInPlace(Field("productNumber", TypeString, ["variation.id"], NoTransform))
    else if name == "manufacturerNumber" then
      ReplaceInPlace(Field("manufacturerNumber", TypeString, ["variation.base.number"], NoTransform))
    else if name == "metaTitle" then
      ReplaceInPlace(Field("metaTitle", TypeString, ["variation.base.texts.0.name3"], NoTransform))
    else if name == "keywords" then
      ReplaceInPlace(Field("keywords", TypeString, ["variation.base.texts.0.metaKeywords"], NoTransform))
    else if name == "purchaseUnit" then
      MoveToEnd(Field("purchaseUnit", TypeString, ["_dynamicProperties.14.value"], NoTransform))
    else if name == "unitId" then
      MoveToEnd(Field("unitId", TypeString, ["_dynamicProperties.45"], UnitByProperty))
    else Keep
  }

  /** A patch table whose replacements keep the name they replace. */
  ghost predicate KeepsNames(patch: string -> Patch)
  {
    forall name :: !patch(name).Keep? ==> patch(name).field.swFieldName == name
  }

  /** Every patch of the customization keeps the field's target name. */
  lemma PatchOfKeepsNames()
    ensures KeepsNames(PatchOf)
  {
  }

  /** The entries the patch loop leaves where they are, in order. */
  function Kept(patch: string -> Patch, es: seq<Entry<int, MappingField>>): seq<Entry<int, MappingField>>
    decreases |es|
  {
    if es == [] then []
    else
      var e := es[|es| - 1];
      Kept(patch, es[..|es| - 1]) + (if patch(e.value.swFieldName).Keep? then [e] else [])
  }

  /** The kept entries are entries of the registry that no patch applies to. */
  lemma {:induction false} KeptSubset(patch: string -> Patch, es: seq<Entry<int, MappingField>>, e: Entry<int, MappingField>)
    requires e in Kept(patch, es)
    ensures e in es && patch(e.value.swFieldName).Keep?
    decreases |es|
  {
    var init := es[..|es| - 1];
    if e in Kept(patch, init) {
      KeptSubset(patch, init, e);
    }
  }

  /** How many entries the patch loop moves to a new key. */
  function Moves(patch: string -> Patch, es: seq<Entry<int, MappingField>>): nat
    decreases |es|
  {
    if es == [] then 0
    else Moves(patch, es[..|es| - 1]) + (if patch(es[|es| - 1].value.swFieldName).MoveToEnd? then 1 else 0)
  }

  /** What the patch loop appends for one original: nothing, its replacement, or the moved field under `movedKey`. */
  function PatchEntry(patch: string -> Patch, e: Entry<int, MappingField>, movedKey: int): seq<Entry<int, MappingField>>
  {
    match patch(e.value.swFieldName)
    case Keep => []
    case ReplaceInPlace(f) => [Entry(e.key, f)]
    case MoveToEnd(f) => [Entry(movedKey, f)]
  }

  /**
   * The entries the patch loop puts at the end of the iteration order, in
   * the order it meets their originals: a replacement under the original's
   * key, a moved field under the next free key.
   */
  function Patched(patch: string -> Patch, es: seq<Entry<int, MappingField>>, nextFree: int): seq<Entry<int, MappingField>>
    decreases |es|
  {
    if es == [] then []
    else
      var init := es[..|es| - 1];
      Patched(patch, init, nextFree) + PatchEntry(patch, es[|es| - 1], nextFree + Moves(patch, init))
  }

  /** A patched entry has the key of an original or a key from the next free one on. */
  lemma {:induction false} PatchedKeys(patch: string -> Patch, es: seq<Entry<int, MappingField>>, nextFree: int, t: Entry<int, MappingField>)
    requires t in Patched(patch, es, nextFree)
    ensures (exists j | 0 <= j < |es| :: es[j].key == t.key) || nextFree <= t.key < nextFree + Moves(patch, es)
    decreases |es|
  {
    var init := es[..|es| - 1];
    var e := es[|es| - 1];
    if t in Patched(patch, init, nextFree) {
      PatchedKeys(patch, init, nextFree, t);
      if exists j | 0 <= j < |init| :: init[j].key == t.key {
        var j :| 0 <= j < |init| && init[j].key == t.key;
        assert es[j] == init[j];
      }
    } else if patch(e.value.swFieldName).ReplaceInPlace? {
      assert es[|es| - 1].key == t.key;
    }
  }

  /** The patch loop's state before entry i: kept prefix, untouched rest, patched prefix. */
  function PatchState(patch: string -> Patch, snapshot: seq<Entry<int, MappingField>>, i: int, nextFree: int): Registry
    requires 0 <= i <= |snapshot|
  {
    Registry(Kept(patch, snapshot[..i]) + snapshot[i..] + Patched(patch, snapshot[..i], nextFree), nextFree + Moves(patch, snapshot[..i]))
  }

  /** The key of snapshot entry i occurs neither among the kept prefix nor after it. */
  lemma KeyOnlyOnce(patch: string -> Patch, snapshot: seq<Entry<int, MappingField>>, i: int, nextFree: int)
    requires Valid(Registry(snapshot, nextFree)) && 0 <= i < |snapshot|
    ensures !HasKey(Kept(patch, snapshot[..i]), snapshot[i].key)
    ensures !HasKey(snapshot[i + 1..] + Patched(patch, snapshot[..i], nextFree), snapshot[i].key)
  {
    var k := snapshot[i].key;
    var prefix := snapshot[..i];
    var kept := Kept(patch, prefix);
    var after := snapshot[i + 1..] + Patched(patch, prefix, nextFree);
    var ks := EntryKeys(snapshot);
    assert ks[i] == k;
    forall m | 0 <= m < |kept| ensures EntryKeys(kept)[m] != k {
      KeptSubset(patch, prefix, kept[m]);
      var n :| 0 <= n < i && prefix[n] == kept[m];
      assert ks[n] == kept[m].key;
    }
    HasKeyIff(kept, k);
    forall m | 0 <= m < |after| ensures EntryKeys(after)[m] != k {
      var t := after[m];
      if m < |snapshot| - i - 1 {
        assert t == snapshot[i + 1 + m];
        assert ks[i + 1 + m] == t.key;
      } else {
        assert t in Patched(patch, prefix, nextFree);
        PatchedKeys(patch, prefix, nextFree, t);
        if exists j | 0 <= j < |prefix| :: prefix[j].key == t.key {
          var j :| 0 <= j < |prefix| && prefix[j].key == t.key;
          assert ks[j] == t.key;
        } else {
          assert k < nextFree;
        }
      }
    }
    HasKeyIff(after, k);
  }

  /** Unsetting the key of an entry spliced between parts that lack it removes just that entry. */
  lemma UnsetSpliced<V>(kept: seq<Entry<int, V>>, e: Entry<int, V>, rest: seq<Entry<int, V>>, patched: seq<Entry<int, V>>)
    requires !HasKey(kept, e.key) && !HasKey(rest + patched, e.key)
    ensures Unset(kept + ([e] + rest) + patched, e.key) == kept + (rest + patched)
    ensures !HasKey(kept + (rest + patched), e.key)
  {
    assert kept + ([e] + rest) + patched == kept + [e] + (rest + patched);
    UnsetSingle(kept, e, rest + patched);
    HasKeyConcat(kept, rest + patched, e.key);
  }

  /** The loop state's entries, re-split around a kept entry. */
  lemma KeepSpliced<V>(kept: seq<Entry<int, V>>, mid: seq<Entry<int, V>>, patched: seq<Entry<int, V>>)
    requires mid != []
    ensures kept + mid + patched == kept + [mid[0]] + mid[1..] + (patched + [])
  {
    assert mid == [mid[0]] + mid[1..];
  }

  /** Unset, then assign again under the same key: the entry leaves its place for the end. */
  lemma ReplaceSpliced<V>(kept: seq<Entry<int, V>>, mid: seq<Entry<int, V>>, patched: seq<Entry<int, V>>, f: V)
    requires mid != []
    requires !HasKey(kept, mid[0].key) && !HasKey(mid[1..] + patched, mid[0].key)
    ensures Put(Unset(kept + mid + patched, mid[0].key), mid[0].key, f) == kept + [] + mid[1..] + (patched + [Entry(mid[0].key, f)])
  {
    assert mid == [mid[0]] + mid[1..];
    UnsetSpliced(kept, mid[0], mid[1..], patched);
    PutAbsent(kept + (mid[1..] + patched), mid[0].key, f);
  }

  /** Unset, then append under a new key. */
  lemma MoveSpliced<V>(kept: seq<Entry<int, V>>, mid: seq<Entry<int, V>>, patched: seq<Entry<int, V>>, key: int, f: V)
    requires mid != []
    requires !HasKey(kept, mid[0].key) && !HasKey(mid[1..] + patched, mid[0].key)
    ensures Unset(kept + mid + patched, mid[0].key) + [Entry(key, f)] == kept + [] + mid[1..] + (patched + [Entry(key, f)])
  {
    assert mid == [mid[0]] + mid[1..];
    UnsetSpliced(kept, mid[0], mid[1..], patched);
  }

  /** The three parts of the loop state after entry i, from those before it. */
  lemma PatchStateNext(patch: string -> Patch, snapshot: seq<Entry<int, MappingField>>, i: int, nextFree: int)
    requires 0 <= i < |snapshot|
    ensures var e := snapshot[i];
      Kept(patch, snapshot[..i + 1]) == Kept(patch, snapshot[..i]) + (if patch(e.value.swFieldName).Keep? then [e] else [])
    ensures Patched(patch, snapshot[..i + 1], nextFree) ==
      Patched(patch, snapshot[..i], nextFree) + PatchEntry(patch, snapshot[i], nextFree + Moves(patch, snapshot[..i]))
    ensures Moves(patch, snapshot[..i + 1]) ==
      Moves(patch, snapshot[..i]) + (if patch(snapshot[i].value.swFieldName).MoveToEnd? then 1 else 0)
  {
    assert snapshot[..i + 1][..i] == snapshot[..i];
    assert snapshot[..i + 1][i] == snapshot[i];
  }

  /** A kept entry leaves the loop state as it is. */
  lemma PatchStepKeep(patch: string -> Patch, snapshot: seq<Entry<int, MappingField>>, i: int, nextFree: int)
    requires 0 <= i < |snapshot| && patch(snapshot[i].value.swFieldName).Keep?
    ensures PatchState(patch, snapshot, i + 1, nextFree) == PatchState(patch, snapshot, i, nextFree)
  {
    var e := snapshot[i];
    PatchStateNext(patch, snapshot, i, nextFree);
    assert PatchEntry(patch, e, nextFree + Moves(patch, snapshot[..i])) == [];
    assert snapshot[i..][1..] == snapshot[i + 1..];
    KeepSpliced(Kept(patch, snapshot[..i]), snapshot[i..], Patched(patch, snapshot[..i], nextFree));
  }

  /** A replaced entry: unset, then assigned again under its key. */
  lemma PatchStepReplace(patch: string -> Patch, snapshot: seq<Entry<int, MappingField>>, i: int, nextFree: int)
    requires 0 <= i < |snapshot|
    requires patch(snapshot[i].value.swFieldName).ReplaceInPlace?
    requires !HasKey(Kept(patch, snapshot[..i]), snapshot[i].key)
    requires !HasKey(snapshot[i + 1..] + Patched(patch, snapshot[..i], nextFree), snapshot[i].key)
    ensures var cur := PatchState(patch, snapshot, i, nextFree);
      var e := snapshot[i];
      PatchState(patch, snapshot, i + 1, nextFree) ==
        Registry(Put(Unset(cur.entries, e.key), e.key, patch(e.value.swFieldName).field), cur.nextFree)
  {
    var e := snapshot[i];
    var f := patch(e.value.swFieldName).field;
    var kept := Kept(patch, snapshot[..i]);
    var patched := Patched(patch, snapshot[..i], nextFree);
    var after := kept + [] + snapshot[i + 1..] + (patched + [Entry(e.key, f)]);
    var cur := PatchState(patch, snapshot, i, nextFree);
    var nxt := PatchState(patch, snapshot, i + 1, nextFree);
    PatchStateNext(patch, snapshot, i, nextFree);
    assert nxt.entries == after && nxt.nextFree == cur.nextFree by {
      assert PatchEntry(patch, e, nextFree + Moves(patch, snapshot[..i])) == [Entry(e.key, f)];
    }
    assert snapshot[i..][1..] == snapshot[i + 1..];
    ReplaceSpliced(kept, snapshot[i..], patched, f);
  }

  /** A moved entry: unset, then appended under the next free key. */
  lemma PatchStepMove(patch: string -> Patch, snapshot: seq<Entry<int, MappingField>>, i: int, nextFree: int)
    requires 0 <= i < |snapshot|
    requires patch(snapshot[i].value.swFieldName).MoveToEnd?
    requires !HasKey(Kept(patch, snapshot[..i]), snapshot[i].key)
    requires !HasKey(snapshot[i + 1..] + Patched(patch, snapshot[..i], nextFree), snapshot[i].key)
    ensures var cur := PatchState(patch, snapshot, i, nextFree);
      var e := snapshot[i];
      PatchState(patch, snapshot, i + 1, nextFree) ==
        Append(Registry(Unset(cur.entries, e.key), cur.nextFree), patch(e.value.swFieldName).field)
  {
    var e := snapshot[i];
    var f := patch(e.value.swFieldName).field;
    var key := nextFree + Moves(patch, snapshot[..i]);
    PatchStateNext(patch, snapshot, i, nextFree);
    assert PatchEntry(patch, e, key) == [Entry(key, f)];
    assert snapshot[i..][1..] == snapshot[i + 1..];
    MoveSpliced(Kept(patch, snapshot[..i]), snapshot[i..], Patched(patch, snapshot[..i], nextFree), key, f);
    var cur := PatchState(patch, snapshot, i, nextFree);
    var nxt := PatchState(patch, snapshot, i + 1, nextFree);
    assert cur.nextFree == key && nxt.nextFree == key + 1;
    assert nxt.entries == Unset(cur.entries, e.key) + [Entry(key, f)];
  }

  /**
   * The patch loop of the customized `getMapping`, over a snapshot of the
   * registry as PHP's foreach iterates: the kept fields stay in order under
   * their keys, then come the patched fields in the order of their
   * originals, a replacement under its original's key, a moved field under
   * a fresh key.
   */
  method PatchRegistry(r: Registry) returns (r': Registry)
    requires Valid(r)
    ensures r' == Registry(Kept(PatchOf, r.entries) + Patched(PatchOf, r.entries, r.nextFree), r.nextFree + Moves(PatchOf, r.entries))
  {
    var snapshot := r.entries;
    r' := r;
    assert snapshot[..0] == [] && snapshot[0..] == snapshot;
    for i := 0 to |snapshot|
      invariant r' == PatchState(PatchOf, snapshot, i, r.nextFree)
    {
      var e := snapshot[i];
      KeyOnlyOnce(PatchOf, snapshot, i, r.nextFree);
      match PatchOf(e.value.swFieldName)
      case Keep =>
        PatchStepKeep(PatchOf, snapshot, i, r.nextFree);
      case ReplaceInPlace(f) =>
        PatchStepReplace(PatchOf, snapshot, i, r.nextFree);
        r' := Registry(Put(Unset(r'.entries, e.key), e.key, f), r'.nextFree);
      case MoveToEnd(f) =>
        PatchStepMove(PatchOf, snapshot, i, r.nextFree);
        r' := Append(Registry(Unset(r'.entries, e.key), r'.nextFree), f);
    }
    PatchStateDone(PatchOf, snapshot, r.nextFree);
  }

  /** After the last entry the loop state is the kept entries followed by the patched ones. */
  lemma PatchStateDone(patch: string -> Patch, snapshot: seq<Entry<int, MappingField>>, nextFree: int)
    ensures PatchState(patch, snapshot, |snapshot|, nextFree) ==
      Registry(Kept(patch, snapshot) + Patched(patch, snapshot, nextFree), nextFree + Moves(patch, snapshot))
  {
    assert snapshot[..|snapshot|] == snapshot;
    var kept := Kept(patch, snapshot);
    assert snapshot[|snapshot|..] == [];
    assert kept + [] == kept;
  }

  /** `customFields.product_item_id`: the item id. */
  const ProductItemIdField: MappingField := Field("customFields.product_item_id", TypeString, ["variation.base.itemId"], NoTransform)

  /** `customFields.zenit_gravity_youtube_ids`: the first value of property 288, translated. */
  const YoutubeIdsField: MappingField :=
    MappingField("customFields.zenit_gravity_youtube_ids", TypeString, ["_dynamicProperties.288.values.0.value"],
                 NoTransform, true, None, false)

  /** `customSearchKeywords`: the meta keywords split on ", ", translated. */
  const SearchKeywordsField: MappingField :=
    MappingField("customSearchKeywords", TypeArray, ["variation.base.texts.0.metaKeywords"],
                 SplitOn(KeywordSeparator), true, None, false)

  const KeywordSeparator: string := ", "

  /** The customized `getMapping` on the connector's registry: patch, then append three fields. */
  method CustomizeMapping(r: Registry) returns (r': Registry)
    requires Valid(r)
    ensures r' == Append(Append(Append(
      Registry(Kept(PatchOf, r.entries) + Patched(PatchOf, r.entries, r.nextFree), r.nextFree + Moves(PatchOf, r.entries)),
      ProductItemIdField), YoutubeIdsField), SearchKeywordsField)
    ensures var n := |r'.entries|;
      n >= 3 && EntryValues(r'.entries)[n - 3..] == [ProductItemIdField, YoutubeIdsField, SearchKeywordsField]
  {
    r' := PatchRegistry(r);
    ghost var patched := r';
    r' := Append(r', ProductItemIdField);
    r' := Append(r', YoutubeIdsField);
    r' := Append(r', SearchKeywordsField);
    var n := |r'.entries|;
    assert EntryValues(r'.entries)[n - 3..] == [ProductItemIdField, YoutubeIdsField, SearchKeywordsField];
  }

  /** n copies of a field. */
  function Repeat(f: MappingField, n: nat): (r: seq<MappingField>)
    ensures |r| == n && forall i | 0 <= i < n :: r[i] == f
  {
    if n == 0 then [] else Repeat(f, n - 1) + [f]
  }

  lemma {:induction false} NamedKept(patch: string -> Patch, es: seq<Entry<int, MappingField>>, name: string)
    ensures Named(Kept(patch, es), name) == if patch(name).Keep? then Named(es, name) else []
    decreases |es|
  {
    if es != [] {
      var e := es[|es| - 1];
      NamedKept(patch, es[..|es| - 1], name);
      NamedConcat(Kept(patch, es[..|es| - 1]), if patch(e.value.swFieldName).Keep? then [e] else [], name);
      assert [e][..0] == [];
    }
  }

  lemma NamedPatchEntry(patch: string -> Patch, e: Entry<int, MappingField>, movedKey: int, name: string)
    requires KeepsNames(patch)
    ensures Named(PatchEntry(patch, e, movedKey), name) ==
      if patch(name).Keep? || e.value.swFieldName != name then [] else [patch(name).field]
  {
    var p := PatchEntry(patch, e, movedKey);
    if p != [] {
      assert p[..0] == [];
    }
  }

  /** The fields of one name among the patched entries: one replacement per original of a patched name. */
  lemma {:induction false} NamedPatched(patch: string -> Patch, es: seq<Entry<int, MappingField>>, nextFree: int, name: string)
    requires KeepsNames(patch)
    ensures Named(Patched(patch, es, nextFree), name) ==
      if patch(name).Keep? then [] else Repeat(patch(name).field, |Named(es, name)|)
    decreases |es|
  {
    if es != [] {
      var init := es[..|es| - 1];
      var e := es[|es| - 1];
      var head := Patched(patch, init, nextFree);
      var tail := PatchEntry(patch, e, nextFree + Moves(patch, init));
      assert Patched(patch, es, nextFree) == head + tail;
      NamedPatched(patch, init, nextFree, name);
      NamedConcat(head, tail, name);
      NamedPatchEntry(patch, e, nextFree + Moves(patch, init), name);
      if !patch(name).Keep? {
        assert Named(es, name) == Named(init, name) + (if e.value.swFieldName == name then [e.value] else []);
        NamedReplaced(patch(name).field, Named(init, name), Named(es, name), e.value, name,
                      Named(head, name), Named(tail, name));
      }
    }
  }

  /** One step of NamedPatched for a replaced name, on plain sequences. */
  lemma NamedReplaced(f: MappingField, initNamed: seq<MappingField>, allNamed: seq<MappingField>, v: MappingField,
                      name: string, before: seq<MappingField>, added: seq<MappingField>)
    requires allNamed == initNamed + (if v.swFieldName == name then [v] else [])
    requires before == Repeat(f, |initNamed|)
    requires added == if v.swFieldName != name then [] else [f]
    ensures before + added == Repeat(f, |allNamed|)
  {
    if v.swFieldName == name {
      assert Repeat(f, |initNamed| + 1) == Repeat(f, |initNamed|) + [f];
    } else {
      assert before + added == before;
    }
  }

  /**
   * The patch rule per name: a name the customization does not patch keeps
   * its fields in order; a patched name has as many fields as before, each
   * the replacement.
   */
  lemma PatchRegistryNamed(r: Registry, name: string)
    ensures var es := Kept(PatchOf, r.entries) + Patched(PatchOf, r.entries, r.nextFree);
      Named(es, name) ==
        if PatchOf(name).Keep? then Named(r.entries, name)
        else Repeat(PatchOf(name).field, |Named(r.entries, name)|)
  {
    PatchOfKeepsNames();
    NamedKept(PatchOf, r.entries, name);
    NamedPatched(PatchOf, r.entries, r.nextFree, name);
    NamedConcat(Kept(PatchOf, r.entries), Patched(PatchOf, r.entries, r.nextFree), name);
  }

  /** A field replaced in place keeps its key. */
  lemma {:induction false} ReplacedKeepsKey(patch: string -> Patch, es: seq<Entry<int, MappingField>>, nextFree: int, i: int)
    requires 0 <= i < |es| && patch(es[i].value.swFieldName).ReplaceInPlace?
    ensures Entry(es[i].key, patch(es[i].value.swFieldName).field) in Patched(patch, es, nextFree)
    decreases |es|
  {
    var init := es[..|es| - 1];
    if i < |es| - 1 {
      assert init[i] == es[i];
      ReplacedKeepsKey(patch, init, nextFree, i);
    }
  }

  /** `explode(', ', $value)` of the search keywords. */
  function SearchKeywords(value: string): (r: seq<string>)
    ensures |r| >= 1
  {
    Explode(KeywordSeparator, value)
  }

  /** The search keywords joined with the separator give back the meta keywords. */
  lemma SearchKeywordsRoundTrip(value: string)
    ensures Implode(KeywordSeparator, SearchKeywords(value)) == value
  {
    ImplodeExplode(KeywordSeparator, value);
  }

  // ------------------------------------------------------ unit provisioning

  /** A unit in the store, with the selection id its custom field holds. */
  datatype Unit = Unit(id: SwId, selectionId: int)

  /**
   * A unit to create: short code `-` and, per language, a translation
   * holding the selection id in its custom field and the selection's name.
   */
  datatype UnitCreate = UnitCreate(id: SwId, shortCode: string, selectionId: int, names: seq<Entry<SwId, string>>)

  /**
   * What the create loop reads: the units the search found, by selection
   * id; the number of random ids drawn before the loop; the store's
   * languages; and a selection's name in a language (the value converter
   * on `names.0.name`).
   */
  datatype UnitContext = UnitContext(
    found: map<int, SwId>,
    drawn: nat,
    languages: seq<SwId>,
    unitName: (Selection, SwId) -> string)

  /** The unit ids by selection id and the units to create, as the loop goes. */
  datatype Provision = Provision(links: map<int, SwId>, creates: seq<UnitCreate>)

  /** `selectionValues[0].selectionId`, null when the property has no selection value. */
  function FirstSelectionId(p: VariationProperty): Option<int>
  {
    if p.selectionIds == [] then None else Some(p.selectionIds[0])
  }

  /** The selected ids of the unit properties in a property list (first loop, inner part). */
  function PropertySelections(ps: seq<VariationProperty>): seq<Option<int>>
    decreases |ps|
  {
    if ps == [] then [] else
      var p := ps[|ps| - 1];
      PropertySelections(ps[..|ps| - 1]) + (if p.propertyId == UnitPropertyId then [FirstSelectionId(p)] else [])
  }

  /** The selected ids of the unit properties of the whole batch, in order. */
  function BatchSelections(us: seq<ItemUpdate>): seq<Option<int>>
    decreases |us|
  {
    if us == [] then [] else BatchSelections(us[..|us| - 1]) + PropertySelections(us[|us| - 1].variation.properties)
  }

  lemma {:induction false} PropertySelectionsSpec(ps: seq<VariationProperty>, o: Option<int>)
    ensures o in PropertySelections(ps) <==>
      exists k | 0 <= k < |ps| :: ps[k].propertyId == UnitPropertyId && FirstSelectionId(ps[k]) == o
    decreases |ps|
  {
    if ps != [] {
      var init := ps[..|ps| - 1];
      PropertySelectionsSpec(init, o);
      if exists k | 0 <= k < |init| :: init[k].propertyId == UnitPropertyId && FirstSelectionId(init[k]) == o {
        var k :| 0 <= k < |init| && init[k].propertyId == UnitPropertyId && FirstSelectionId(init[k]) == o;
        assert ps[k] == init[k];
      }
      if exists k | 0 <= k < |ps| :: ps[k].propertyId == UnitPropertyId && FirstSelectionId(ps[k]) == o {
        var k :| 0 <= k < |ps| && ps[k].propertyId == UnitPropertyId && FirstSelectionId(ps[k]) == o;
        if k < |init| {
          assert init[k] == ps[k];
        }
      }
    }
  }

  /** The ids searched for are exactly the selected ids of the batch's unit properties. */
  lemma BatchSelectionsSpec(us: seq<ItemUpdate>, o: Option<int>)
    ensures o in BatchSelections(us) <==>
      exists i | 0 <= i < |us| :: o in PropertySelections(us[i].variation.properties)
  {
    BatchSelectionsSound(us, o);
    if exists i | 0 <= i < |us| :: o in PropertySelections(us[i].variation.properties) {
      var i :| 0 <= i < |us| && o in PropertySelections(us[i].variation.properties);
      BatchSelectionsComplete(us, o, i);
    }
  }

  lemma {:induction false} BatchSelectionsSound(us: seq<ItemUpdate>, o: Option<int>)
    ensures o in BatchSelections(us) ==>
      exists i | 0 <= i < |us| :: o in PropertySelections(us[i].variation.properties)
    decreases |us|
  {
    if us != [] && o in BatchSelections(us) {
      var init := us[..|us| - 1];
      if o in BatchSelections(init) {
        BatchSelectionsSound(init, o);
        var i :| 0 <= i < |init| && o in PropertySelections(init[i].variation.properties);
        assert us[i] == init[i];
      } else {
        assert o in PropertySelections(us[|us| - 1].variation.properties);
      }
    }
  }

  lemma {:induction false} BatchSelectionsComplete(us: seq<ItemUpdate>, o: Option<int>, i: int)
    requires 0 <= i < |us| && o in PropertySelections(us[i].variation.properties)
    ensures o in BatchSelections(us)
    decreases |us|
  {
    var init := us[..|us| - 1];
    if i < |init| {
      assert init[i] == us[i];
      BatchSelectionsComplete(init, o, i);
    }
  }

  /** The first loop: collect the selected id of every unit property of the batch. */
  method CollectSelections(us: seq<ItemUpdate>) returns (ids: seq<Option<int>>)
    ensures ids == BatchSelections(us)
  {
    ids := [];
    for i := 0 to |us|
      invariant ids == BatchSelections(us[..i])
    {
      assert us[..i + 1][..i] == us[..i];
      var ps := us[i].variation.properties;
      ghost var before := ids;
      for j := 0 to |ps|
        invariant ids == before + PropertySelections(ps[..j])
      {
        assert ps[..j + 1][..j] == ps[..j];
        if ps[j].propertyId != UnitPropertyId {
          continue;
        }
        ids := ids + [FirstSelectionId(ps[j])];
      }
      assert ps[..|ps|] == ps;
    }
    assert us[..|us|] == us;
  }

  /** The repository search: the units whose selection id is among the selected ones. */
  function UnitSearch(units: seq<Unit>, selected: seq<Option<int>>): seq<Unit>
  {
    Filter(units, (u: Unit) => Some(u.selectionId) in selected)
  }

  /** The units found, by selection id; a later unit with the same id wins. */
  function UnitTable(found: seq<Unit>): map<int, SwId>
    decreases |found|
  {
    if found == [] then map[] else
      var u := found[|found| - 1];
      UnitTable(found[..|found| - 1])[u.selectionId := u.id]
  }

  /** The table holds a selection id iff a found unit has it, and maps it to the last such unit. */
  lemma {:induction false} UnitTableSpec(found: seq<Unit>, x: int)
    ensures x in UnitTable(found) <==> exists i | 0 <= i < |found| :: found[i].selectionId == x
    ensures x in UnitTable(found) ==>
      exists i | 0 <= i < |found| :: found[i].selectionId == x && UnitTable(found)[x] == found[i].id
        && forall j | i < j < |found| :: found[j].selectionId != x
    decreases |found|
  {
    if found != [] {
      var init := found[..|found| - 1];
      var n := |found| - 1;
      UnitTableSpec(init, x);
      if found[n].selectionId != x {
        if x in UnitTable(init) {
          var i :| 0 <= i < |init| && init[i].selectionId == x && UnitTable(init)[x] == init[i].id
            && forall j | i < j < |init| :: init[j].selectionId != x;
          assert found[i] == init[i];
          forall j | i < j < |found| ensures found[j].selectionId != x {
            if j < n {
              assert found[j] == init[j];
            }
          }
        }
        if exists i | 0 <= i < |found| :: found[i].selectionId == x {
          var i :| 0 <= i < |found| && found[i].selectionId == x;
          assert init[i] == found[i];
        }
      }
    }
  }

  /** The translations of a new unit: one per language. */
  function UnitTranslations(s: Selection, ctx: UnitContext): seq<Entry<SwId, string>>
  {
    seq(|ctx.languages|, i requires 0 <= i < |ctx.languages| => Entry(ctx.languages[i], ctx.unitName(s, ctx.languages[i])))
  }

  /** A unit for selection `s` under the next random id, recorded under `x`. */
  function CreateUnit(st: Provision, s: Selection, x: int, ctx: UnitContext): Provision
  {
    var id := RandomHex(ctx.drawn + |st.creates|);
    Provision(st.links[x := id], st.creates + [UnitCreate(id, "-", x, UnitTranslations(s, ctx))])
  }

  /** The innermost loop: a unit for each selection whose id is the selected one. */
  function SelectionFold(st: Provision, sels: seq<Selection>, x: Option<int>, ctx: UnitContext): Provision
    decreases |sels|
  {
    if sels == [] then st else
      var prev := SelectionFold(st, sels[..|sels| - 1], x, ctx);
      var s := sels[|sels| - 1];
      if Some(s.id) != x then prev else CreateUnit(prev, s, s.id, ctx)
  }

  /** One property: only a unit property whose selected id has no unit yet creates one. */
  function PropertyStep(st: Provision, p: VariationProperty, ctx: UnitContext): Provision
  {
    if p.propertyId != UnitPropertyId then st
    else
      var x := FirstSelectionId(p);
      if x.Some? && (x.value in ctx.found || x.value in st.links) then st
      else SelectionFold(st, p.selections, x, ctx)
  }

  function PropertiesFold(st: Provision, ps: seq<VariationProperty>, ctx: UnitContext): Provision
    decreases |ps|
  {
    if ps == [] then st else PropertyStep(PropertiesFold(st, ps[..|ps| - 1], ctx), ps[|ps| - 1], ctx)
  }

  /** The second loop over the whole batch. */
  function BatchFold(st: Provision, us: seq<ItemUpdate>, ctx: UnitContext): Provision
    decreases |us|
  {
    if us == [] then st else PropertiesFold(BatchFold(st, us[..|us| - 1], ctx), us[|us| - 1].variation.properties, ctx)
  }

  method ProvisionSelections(st: Provision, sels: seq<Selection>, x: Option<int>, ctx: UnitContext)
    returns (st': Provision)
    ensures st' == SelectionFold(st, sels, x, ctx)
  {
    st' := st;
    for k := 0 to |sels|
      invariant st' == SelectionFold(st, sels[..k], x, ctx)
    {
      assert sels[..k + 1][..k] == sels[..k];
      var s := sels[k];
      if Some(s.id) != x {
        continue;
      }
      var id := RandomHex(ctx.drawn + |st'.creates|);
      st' := Provision(st'.links[s.id := id], st'.creates + [UnitCreate(id, "-", s.id, UnitTranslations(s, ctx))]);
    }
    assert sels[..|sels|] == sels;
  }

  /** The create loop over the batch's unit properties. */
  method ProvisionUnits(st: Provision, us: seq<ItemUpdate>, ctx: UnitContext) returns (st': Provision)
    ensures st' == BatchFold(st, us, ctx)
  {
    st' := st;
    for i := 0 to |us|
      invariant st' == BatchFold(st, us[..i], ctx)
    {
      assert us[..i + 1][..i] == us[..i];
      var ps := us[i].variation.properties;
      ghost var before := st';
      for j := 0 to |ps|
        invariant st' == PropertiesFold(before, ps[..j], ctx)
      {
        assert ps[..j + 1][..j] == ps[..j];
        var p := ps[j];
        if p.propertyId != UnitPropertyId {
          continue;
        }
        var x := FirstSelectionId(p);
        if x.Some? && x.value in ctx.found {
          continue;
        }
        if x.Some? && x.value in st'.links {
          continue;
        }
        st' := ProvisionSelections(st', p.selections, x, ctx);
      }
      assert ps[..|ps|] == ps;
    }
    assert us[..|us|] == us;
  }

  // ------------------------------------------------ what provisioning keeps

  /** The selections of a property have distinct ids. */
  predicate DistinctIds(sels: seq<Selection>)
  {
    forall i, j | 0 <= i < j < |sels| :: sels[i].id != sels[j].id
  }

  /** Every property of the batch has selections with distinct ids. */
  ghost predicate DistinctSelections(us: seq<ItemUpdate>)
  {
    forall i, p | 0 <= i < |us| && p in us[i].variation.properties :: DistinctIds(p.selections)
  }

  /** A unit property whose selected id is one of its own selections. */
  predicate Offered(p: VariationProperty)
  {
    p.propertyId == UnitPropertyId && FirstSelectionId(p).Some? &&
    exists k | 0 <= k < |p.selections| :: p.selections[k].id == FirstSelectionId(p).value
  }

  /**
   * The provisioning invariant: the found units are kept; each created unit
   * is for a selection the store did not have, is recorded in the map, has
   * the next random id, short code `-` and one translation per language,
   * and is the only one for its selection; and every
   * selection in the map was found or created.
   */
  ghost predicate ProvisionInv(st: Provision, ctx: UnitContext)
  {
    && (forall x | x in ctx.found :: x in st.links && st.links[x] == ctx.found[x])
    && (forall i | 0 <= i < |st.creates| :: Recorded(st.creates[i], i, st.links, ctx))
    && (forall i, j | 0 <= i < j < |st.creates| :: st.creates[i].selectionId != st.creates[j].selectionId)
    && (forall x | x in st.links :: x in ctx.found || exists i | 0 <= i < |st.creates| :: st.creates[i].selectionId == x)
  }

  /** The `i`-th created unit, as the invariant describes it. */
  ghost predicate Recorded(c: UnitCreate, i: int, links: map<int, SwId>, ctx: UnitContext)
  {
    && c.selectionId !in ctx.found
    && c.selectionId in links
    && links[c.selectionId] == c.id
    && 0 <= i && c.id == RandomHex(ctx.drawn + i)
    && c.shortCode == "-"
    && EntryKeys(c.names) == ctx.languages
  }

  /** The loop only adds: recorded ids keep their unit, created units stay. */
  ghost predicate Grows(st: Provision, st': Provision)
  {
    && (forall x | x in st.links :: x in st'.links && st'.links[x] == st.links[x])
    && st.creates <= st'.creates
  }

  lemma CreateUnitSpec(st: Provision, s: Selection, x: int, ctx: UnitContext)
    requires ProvisionInv(st, ctx)
    requires x !in st.links
    ensures ProvisionInv(CreateUnit(st, s, x, ctx), ctx)
    ensures Grows(st, CreateUnit(st, s, x, ctx))
    ensures x in CreateUnit(st, s, x, ctx).links
  {
    CreateUnitKeeps(st, s, x, ctx);
    CreateUnitRecords(st, s, x, ctx);
    RecordedLinked(st, ctx);
    CreateUnitDistinct(st, s, x, ctx);
    CreateUnitCovers(st, s, x, ctx);
  }

  /** Every recorded create's selection is linked. */
  lemma RecordedLinked(st: Provision, ctx: UnitContext)
    requires forall i | 0 <= i < |st.creates| :: Recorded(st.creates[i], i, st.links, ctx)
    ensures forall i | 0 <= i < |st.creates| :: st.creates[i].selectionId in st.links
  {
    forall i | 0 <= i < |st.creates| ensures st.creates[i].selectionId in st.links {
      assert Recorded(st.creates[i], i, st.links, ctx);
    }
  }

  /** A new unit keeps every existing link, the found ones included. */
  lemma CreateUnitKeeps(st: Provision, s: Selection, x: int, ctx: UnitContext)
    requires forall y | y in ctx.found :: y in st.links && st.links[y] == ctx.found[y]
    requires x !in st.links
    ensures forall y | y in ctx.found :: y in CreateUnit(st, s, x, ctx).links && CreateUnit(st, s, x, ctx).links[y] == ctx.found[y]
    ensures Grows(st, CreateUnit(st, s, x, ctx))
    ensures x in CreateUnit(st, s, x, ctx).links
  {
    var r := CreateUnit(st, s, x, ctx);
    assert st.creates <= r.creates;
    forall y | y in st.links ensures y in r.links && r.links[y] == st.links[y] {
      assert y != x;
    }
  }

  /** The new create is recorded and the earlier ones stay recorded. */
  lemma CreateUnitRecords(st: Provision, s: Selection, x: int, ctx: UnitContext)
    requires forall y | y in ctx.found :: y in st.links
    requires forall i | 0 <= i < |st.creates| :: Recorded(st.creates[i], i, st.links, ctx)
    requires x !in st.links
    ensures forall i | 0 <= i < |CreateUnit(st, s, x, ctx).creates| ::
      Recorded(CreateUnit(st, s, x, ctx).creates[i], i, CreateUnit(st, s, x, ctx).links, ctx)
  {
    var r := CreateUnit(st, s, x, ctx);
    var n := |st.creates|;
    assert Recorded(r.creates[n], n, r.links, ctx) by {
      assert EntryKeys(r.creates[n].names) == ctx.languages;
    }
    forall i | 0 <= i < n ensures Recorded(r.creates[i], i, r.links, ctx) {
      assert r.creates[i] == st.creates[i];
      assert Recorded(st.creates[i], i, st.links, ctx);
    }
  }

  /** The new create's selection differs from every earlier one. */
  lemma CreateUnitDistinct(st: Provision, s: Selection, x: int, ctx: UnitContext)
    requires forall i | 0 <= i < |st.creates| :: st.creates[i].selectionId in st.links
    requires forall i, j | 0 <= i < j < |st.creates| :: st.creates[i].selectionId != st.creates[j].selectionId
    requires x !in st.links
    ensures forall i, j | 0 <= i < j < |CreateUnit(st, s, x, ctx).creates| ::
      CreateUnit(st, s, x, ctx).creates[i].selectionId != CreateUnit(st, s, x, ctx).creates[j].selectionId
  {
    var r := CreateUnit(st, s, x, ctx);
    var n := |st.creates|;
    forall i, j | 0 <= i < j < |r.creates| ensures r.creates[i].selectionId != r.creates[j].selectionId {
      assert r.creates[i] == st.creates[i];
      if j < n {
        assert r.creates[j] == st.creates[j];
      }
    }
  }

  /** Every recorded selection is found or created. */
  lemma CreateUnitCovers(st: Provision, s: Selection, x: int, ctx: UnitContext)
    requires forall y | y in st.links :: y in ctx.found || exists i | 0 <= i < |st.creates| :: st.creates[i].selectionId == y
    ensures forall y | y in CreateUnit(st, s, x, ctx).links ::
      y in ctx.found || exists i | 0 <= i < |CreateUnit(st, s, x, ctx).creates| :: CreateUnit(st, s, x, ctx).creates[i].selectionId == y
  {
    var r := CreateUnit(st, s, x, ctx);
    var n := |st.creates|;
    forall y | y in r.links
      ensures y in ctx.found || exists i | 0 <= i < |r.creates| :: r.creates[i].selectionId == y
    {
      if y == x {
        assert r.creates[n].selectionId == y;
      } else if y !in ctx.found {
        var i :| 0 <= i < n && st.creates[i].selectionId == y;
        assert r.creates[i].selectionId == y;
      }
    }
  }

  /** A selection list without the selected id leaves the state alone. */
  lemma {:induction false} SelectionFoldNoMatch(st: Provision, sels: seq<Selection>, x: Option<int>, ctx: UnitContext)
    requires forall k | 0 <= k < |sels| :: Some(sels[k].id) != x
    ensures SelectionFold(st, sels, x, ctx) == st
    decreases |sels|
  {
    if sels != [] {
      SelectionFoldNoMatch(st, sels[..|sels| - 1], x, ctx);
    }
  }

  /** With distinct selection ids, the innermost loop creates at most one unit, for the selected id. */
  lemma {:induction false} SelectionFoldSpec(st: Provision, sels: seq<Selection>, x: int, ctx: UnitContext)
    requires ProvisionInv(st, ctx)
    requires x !in st.links
    requires DistinctIds(sels)
    ensures ProvisionInv(SelectionFold(st, sels, Some(x), ctx), ctx)
    ensures Grows(st, SelectionFold(st, sels, Some(x), ctx))
    ensures (exists k | 0 <= k < |sels| :: sels[k].id == x) ==> x in SelectionFold(st, sels, Some(x), ctx).links
    decreases |sels|
  {
    if sels != [] {
      var init := sels[..|sels| - 1];
      var s := sels[|sels| - 1];
      if s.id != x {
        SelectionFoldSpec(st, init, x, ctx);
        if exists k | 0 <= k < |sels| :: sels[k].id == x {
          var k :| 0 <= k < |sels| && sels[k].id == x;
          assert init[k] == sels[k];
        }
      } else {
        forall k | 0 <= k < |init| ensures Some(init[k].id) != Some(x) {
          assert init[k] == sels[k];
        }
        SelectionFoldNoMatch(st, init, Some(x), ctx);
        CreateUnitSpec(st, s, x, ctx);
      }
    }
  }

  lemma PropertyStepSpec(st: Provision, p: VariationProperty, ctx: UnitContext)
    requires ProvisionInv(st, ctx)
    requires DistinctIds(p.selections)
    ensures ProvisionInv(PropertyStep(st, p, ctx), ctx)
    ensures Grows(st, PropertyStep(st, p, ctx))
    ensures Offered(p) ==> FirstSelectionId(p).value in PropertyStep(st, p, ctx).links
  {
    var x := FirstSelectionId(p);
    if p.propertyId == UnitPropertyId {
      if x.None? {
        SelectionFoldNoMatch(st, p.selections, x, ctx);
      } else if x.value !in ctx.found && x.value !in st.links {
        SelectionFoldSpec(st, p.selections, x.value, ctx);
      }
    }
  }

  lemma {:induction false} PropertiesFoldSpec(st: Provision, ps: seq<VariationProperty>, ctx: UnitContext)
    requires ProvisionInv(st, ctx)
    requires forall p | p in ps :: DistinctIds(p.selections)
    ensures ProvisionInv(PropertiesFold(st, ps, ctx), ctx)
    ensures Grows(st, PropertiesFold(st, ps, ctx))
    ensures forall p | p in ps && Offered(p) :: FirstSelectionId(p).value in PropertiesFold(st, ps, ctx).links
    decreases |ps|
  {
    if ps != [] {
      var init := ps[..|ps| - 1];
      var p := ps[|ps| - 1];
      var prev := PropertiesFold(st, init, ctx);
      PropertiesFoldSpec(st, init, ctx);
      PropertyStepSpec(prev, p, ctx);
      assert ps == init + [p];
    }
  }

  /**
   * Over the whole batch, from the found units and no creates: the
   * invariant holds at the end, and every unit property whose selected id
   * is one of its selections ends up with a unit.
   */
  lemma {:induction false} BatchFoldSpec(st: Provision, us: seq<ItemUpdate>, ctx: UnitContext)
    requires ProvisionInv(st, ctx)
    requires DistinctSelections(us)
    ensures ProvisionInv(BatchFold(st, us, ctx), ctx)
    ensures Grows(st, BatchFold(st, us, ctx))
    ensures forall i, p | 0 <= i < |us| && p in us[i].variation.properties && Offered(p) ::
      FirstSelectionId(p).value in BatchFold(st, us, ctx).links
    decreases |us|
  {
    if us != [] {
      var init := us[..|us| - 1];
      var u := us[|us| - 1];
      var prev := BatchFold(st, init, ctx);
      assert DistinctSelections(init) by {
        forall i, p | 0 <= i < |init| && p in init[i].variation.properties ensures DistinctIds(p.selections) {
          assert us[i] == init[i];
        }
      }
      BatchFoldSpec(st, init, ctx);
      PropertiesFoldSpec(prev, u.variation.properties, ctx);
      forall i, p | 0 <= i < |us| && p in us[i].variation.properties && Offered(p)
        ensures FirstSelectionId(p).value in BatchFold(st, us, ctx).links
      {
        if i < |init| {
          assert init[i] == us[i];
        }
      }
    }
  }

  /**
   * When the store already has a unit for the selected id of every unit
   * property of the batch, the create loop changes nothing: a second run
   * over the same batch creates no unit.
   */
  lemma {:induction false} AllFoundCreatesNothing(st: Provision, us: seq<ItemUpdate>, ctx: UnitContext)
    requires forall i, p | 0 <= i < |us| && p in us[i].variation.properties && Offered(p) ::
      FirstSelectionId(p).value in ctx.found
    ensures BatchFold(st, us, ctx) == st
    decreases |us|
  {
    if us != [] {
      var init := us[..|us| - 1];
      forall i, p | 0 <= i < |init| && p in init[i].variation.properties && Offered(p)
        ensures FirstSelectionId(p).value in ctx.found
      {
        assert init[i] == us[i];
      }
      AllFoundCreatesNothing(st, init, ctx);
      PropertiesFoundNothing(st, us[|us| - 1].variation.properties, ctx);
    }
  }

  lemma {:induction false} PropertiesFoundNothing(st: Provision, ps: seq<VariationProperty>, ctx: UnitContext)
    requires forall p | p in ps && Offered(p) :: FirstSelectionId(p).value in ctx.found
    ensures PropertiesFold(st, ps, ctx) == st
    decreases |ps|
  {
    if ps != [] {
      var init := ps[..|ps| - 1];
      var p := ps[|ps| - 1];
      assert forall q | q in init :: q in ps;
      PropertiesFoundNothing(st, init, ctx);
      var x := FirstSelectionId(p);
      if p.propertyId == UnitPropertyId && !(x.Some? && (x.value in ctx.found || x.value in st.links)) {
        assert !Offered(p);
        SelectionFoldNoMatch(st, p.selections, x, ctx);
      }
    }
  }

  // --------------------------------------------------------- unitId transform

  /** `_dynamicProperties.45` of a variation: its last property with that id, if any. */
  function UnitProperty(v: Variation): Option<FormattedProperty>
  {
    var t := FormattedFold(v.properties);
    if HasKey(t, UnitPropertyId) then Some(Get(t, UnitPropertyId)) else None
  }

  /** The `unitId` transform: the unit recorded for the first selected id, else null. */
  function UnitIdFor(value: Option<FormattedProperty>, unitLinks: map<int, SwId>): Option<SwId>
  {
    if value.Some? && value.value.selectionIds != [] && value.value.selectionIds[0] in unitLinks
    then Some(unitLinks[value.value.selectionIds[0]])
    else None
  }

  /**
   * After provisioning a batch, a variation whose last unit property is
   * offered gets a `unitId`: the found unit when the store had one for the
   * selected id, otherwise the unit created for it.
   */
  lemma UnitIdResolved(us: seq<ItemUpdate>, ctx: UnitContext, i: int, k: int)
    requires DistinctSelections(us)
    requires 0 <= i < |us| && 0 <= k < |us[i].variation.properties|
    requires Offered(us[i].variation.properties[k])
    requires forall j | k < j < |us[i].variation.properties| ::
      us[i].variation.properties[j].propertyId != UnitPropertyId
    ensures var st := BatchFold(Provision(ctx.found, []), us, ctx);
            var x := FirstSelectionId(us[i].variation.properties[k]).value;
            && x in st.links
            && UnitIdFor(UnitProperty(us[i].variation), st.links) == Some(st.links[x])
            && (x in ctx.found ==> st.links[x] == ctx.found[x])
            && (x !in ctx.found ==> exists c | c in st.creates :: c.selectionId == x && c.id == st.links[x])
  {
    var ps := us[i].variation.properties;
    BatchFoldSpec(Provision(ctx.found, []), us, ctx);
    FormattedFoldLast(ps, k);
    assert ps[k] in us[i].variation.properties;
  }

  // -------------------------------------------------- the customized service

  /**
   * The state after `preloadAdditionalDataUnitsByProperty`: the search
   * finds the stored units of the batch's selected ids, and the create
   * loop starts from them with the next free random ids.
   */
  ghost predicate UnitsProvisioned(us: seq<ItemUpdate>, units: seq<Unit>, languages: seq<SwId>,
                                   unitName: (Selection, SwId) -> string, drawn0: nat, created0: seq<UnitCreate>,
                                   links: map<int, SwId>, created: seq<UnitCreate>, drawn: nat)
  {
    var found := UnitTable(UnitSearch(units, BatchSelections(us)));
    var st := BatchFold(Provision(found, []), us, UnitContext(found, drawn0, languages, unitName));
    && links == st.links
    && created == created0 + st.creates
    && drawn == drawn0 + |st.creates|
  }

  /**
   * The deployment's product sync: the connector's service (`base`, which
   * the PHP class extends) and the unit map the `unitId` transform reads.
   */
  class CustomizedProductService {
    const base: ProcessProductService
    /** `customizationUnitId2SwId`: unit id by property selection id. */
    var unitLinks: map<int, SwId>
    /** The units handed to the unit repository's create, over all runs. */
    var createdUnits: seq<UnitCreate>
    /** How many ids Uuid::randomHex has handed out. */
    var uuidsDrawn: nat

    constructor (base: ProcessProductService)
      ensures this.base == base
      ensures unitLinks == map[] && createdUnits == [] && uuidsDrawn == 0
    {
      this.base := base;
      unitLinks := map[];
      createdUnits := [];
      uuidsDrawn := 0;
    }

    /**
     * `preloadAdditionalDataUnitsByProperty`: look up the units of the
     * batch's selected ids and create one for each selected id that has
     * none. With distinct selection ids per property, every unit property
     * whose selected id is one of its selections ends up with a unit.
     */
    method PreloadUnitsByProperty(us: seq<ItemUpdate>, units: seq<Unit>, languages: seq<SwId>,
                                  unitName: (Selection, SwId) -> string)
      modifies this`unitLinks, this`createdUnits, this`uuidsDrawn
      ensures UnitsProvisioned(us, units, languages, unitName, old(uuidsDrawn), old(createdUnits),
                               unitLinks, createdUnits, uuidsDrawn)
      ensures DistinctSelections(us) ==>
        forall i, p | 0 <= i < |us| && p in us[i].variation.properties && Offered(p) ::
          FirstSelectionId(p).value in unitLinks
    {
      unitLinks := map[];
      var selected := CollectSelections(us);
      var found := UnitSearch(units, selected);
      var table: map<int, SwId> := map[];
      for i := 0 to |found|
        invariant table == UnitTable(found[..i]) && unitLinks == table
        invariant uuidsDrawn == old(uuidsDrawn) && createdUnits == old(createdUnits)
      {
        assert found[..i + 1][..i] == found[..i];
        table := table[found[i].selectionId := found[i].id];
        unitLinks := unitLinks[found[i].selectionId := found[i].id];
      }
      assert found[..|found|] == found;
      var ctx := UnitContext(table, uuidsDrawn, languages, unitName);
      var st := ProvisionUnits(Provision(unitLinks, []), us, ctx);
      if DistinctSelections(us) {
        BatchFoldSpec(Provision(table, []), us, ctx);
      }
      unitLinks := st.links;
      uuidsDrawn := uuidsDrawn + |st.creates|;
      if st.creates != [] {
        createdUnits := createdUnits + st.creates;
      }
    }

    /**
     * `preloadAdditionalData`: the connector's preload, then the units; a
     * preload that fails for want of the custom field set stops before
     * the units.
     */
    method PreloadAdditionalData(us: seq<ItemUpdate>, s: Stores, units: seq<Unit>, languages: seq<SwId>,
                                 unitName: (Selection, SwId) -> string)
      returns (outcome: CustomFieldOutcome)
      modifies base`additional, base`dynamicProperties, base`createdCustomFields
      modifies this`unitLinks, this`createdUnits, this`uuidsDrawn
      ensures Preloaded(base.additional, us, s, base.syncTagsEnabled, base.tagRestrictions, base.MediaKeys(),
                        old(base.additional.tagLinks), base.entityLinks)
      ensures base.dynamicProperties == DynamicFold(base.propertyRestrictions, Gather(us, PropertiesOf))
      ensures outcome.Failed? ==> outcome == Failed(MissingCustomFieldSet)
      ensures outcome.Failed? ==>
        unitLinks == old(unitLinks) && createdUnits == old(createdUnits) && uuidsDrawn == old(uuidsDrawn)
      ensures outcome.Planned? ==>
        UnitsProvisioned(us, units, languages, unitName, old(uuidsDrawn), old(createdUnits),
                         unitLinks, createdUnits, uuidsDrawn)
    {
      outcome := base.PreloadAdditionalData(us, s);
      if outcome.Failed? {
        return;
      }
      PreloadUnitsByProperty(us, units, languages, unitName);
    }

    /** `manipulateConvertedEntity`: the connector's, unchanged. */
    method ManipulateConvertedEntity(entity: UpsertEntry, u: ItemUpdate) returns (r: Option<UpsertEntry>)
      modifies base`processed, base`linkUpserts
      ensures Manipulated(base.config, base.additional.productLinks, base.additional.existing, entity, u,
                          old(base.processed), old(base.linkUpserts), base.processed, base.linkUpserts, r)
    {
      r := base.ManipulateConvertedEntity(entity, u);
    }
  }
}
