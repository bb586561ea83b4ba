/**
 * Configurator settings of parent products. A main variation that exists
 * queues the deletion of all its settings; a variant queues its linked
 * options under its linked parent; before the upserts are written, the
 * queued options are merged into the parents' upsert entries.
 */
module Configurator {
  import opened Common
  import opened Plenty
  import opened Shopware
  import opened ProductRelations
  import opened Reconcile

  /** `$productConfiguratorSettingsCreate`: parent id => queued option ids, in order. */
  type OptionQueue = seq<Entry<SwId, seq<SwId>>>

  /** The options queued for a parent so far (none when it has no entry). */
  function Queued(q: OptionQueue, parent: SwId): seq<SwId>
  {
    if HasKey(q, parent) then Get(q, parent) else []
  }

  /** `$productConfiguratorSettingsCreate[$parent][] = $option` */
  function Enqueue(q: OptionQueue, parent: SwId, option: SwId): OptionQueue
  {
    Put(q, parent, Queued(q, parent) + [option])
  }

  /** The delete rows of the settings of a main variation that exists; none otherwise. */
  function SettingDeletes(v: Variation, existing: Option<ExistingProduct>): (r: seq<ConfiguratorSettingDelete>)
    ensures !(existing.Some? && IsMainVariation(v)) ==> r == []
    ensures existing.Some? && IsMainVariation(v) ==>
      && |r| == |existing.value.configuratorSettings|
      && forall i | 0 <= i < |r| ::
           r[i] == ConfiguratorSettingDelete(existing.value.configuratorSettings[i].id, existing.value.id,
                                             existing.value.configuratorSettings[i].optionId)
  {
    if existing.Some? && IsMainVariation(v) then
      var p := existing.value;
      seq(|p.configuratorSettings|, i requires 0 <= i < |p.configuratorSettings| =>
        ConfiguratorSettingDelete(p.configuratorSettings[i].id, p.id, p.configuratorSettings[i].optionId))
    else []
  }

  /** The loop over a variant's attribute values. */
  function QueueFold(q: OptionQueue, attributeValueIds: seq<int>, mainVariationId: Option<PlentyId>,
                     attributeValueLinks: map<int, SwId>, productLinks: map<PlentyId, SwId>): OptionQueue
    decreases |attributeValueIds|
  {
    if attributeValueIds == [] then q
    else
      var prev := QueueFold(q, attributeValueIds[..|attributeValueIds| - 1], mainVariationId,
                            attributeValueLinks, productLinks);
      var a := attributeValueIds[|attributeValueIds| - 1];
      if a !in attributeValueLinks || mainVariationId.None? || mainVariationId.value !in productLinks then prev
      else Enqueue(prev, productLinks[mainVariationId.value], attributeValueLinks[a])
  }

  /** `_add_configurator_settings_for_all_variants`: only variants queue options. */
  function QueueOptions(q: OptionQueue, v: Variation, attributeValueLinks: map<int, SwId>,
                        productLinks: map<PlentyId, SwId>): OptionQueue
  {
    if IsVariant(v) then QueueFold(q, v.attributeValueIds, v.base.mainVariationId, attributeValueLinks, productLinks)
    else q
  }

  predicate ParentLinked(v: Variation, productLinks: map<PlentyId, SwId>)
  {
    v.base.mainVariationId.Some? && v.base.mainVariationId.value in productLinks
  }

  lemma QueueFoldSpec(q: OptionQueue, attributeValueIds: seq<int>, mainVariationId: Option<PlentyId>,
                      attributeValueLinks: map<int, SwId>, productLinks: map<PlentyId, SwId>,
                      k: SwId)
    ensures var r := QueueFold(q, attributeValueIds, mainVariationId, attributeValueLinks, productLinks);
      if mainVariationId.Some? && mainVariationId.value in productLinks && k == productLinks[mainVariationId.value]
      then Queued(r, k) == Queued(q, k) + Lookups(attributeValueIds, IdOf, attributeValueLinks)
      else HasKey(r, k) == HasKey(q, k) && Queued(r, k) == Queued(q, k)
  {
    if mainVariationId.Some? && mainVariationId.value in productLinks && k == productLinks[mainVariationId.value] {
      QueueFoldParent(q, attributeValueIds, mainVariationId.value, attributeValueLinks, productLinks);
    } else {
      QueueFoldOther(q, attributeValueIds, mainVariationId, attributeValueLinks, productLinks, k);
    }
  }

  /** The main variation's parent queue gains the linked attribute values in order. */
  lemma {:induction false} QueueFoldParent(q: OptionQueue, attributeValueIds: seq<int>, main: PlentyId,
                                           attributeValueLinks: map<int, SwId>, productLinks: map<PlentyId, SwId>)
    requires main in productLinks
    ensures Queued(QueueFold(q, attributeValueIds, Some(main), attributeValueLinks, productLinks), productLinks[main])
         == Queued(q, productLinks[main]) + Lookups(attributeValueIds, IdOf, attributeValueLinks)
    decreases |attributeValueIds|
  {
    if attributeValueIds != [] {
      var init := attributeValueIds[..|attributeValueIds| - 1];
      var a := attributeValueIds[|attributeValueIds| - 1];
      var parent := productLinks[main];
      QueueFoldParent(q, init, main, attributeValueLinks, productLinks);
      var prev := QueueFold(q, init, Some(main), attributeValueLinks, productLinks);
      var looked := Lookups(init, IdOf, attributeValueLinks);
      if a in attributeValueLinks {
        PutGet(prev, parent, Queued(prev, parent) + [attributeValueLinks[a]]);
        assert Queued(q, parent) + looked + [attributeValueLinks[a]]
            == Queued(q, parent) + (looked + [attributeValueLinks[a]]);
      }
    }
  }

  /** Every other queue keeps its presence and its contents. */
  lemma {:induction false} QueueFoldOther(q: OptionQueue, attributeValueIds: seq<int>, mainVariationId: Option<PlentyId>,
                                          attributeValueLinks: map<int, SwId>, productLinks: map<PlentyId, SwId>,
                                          k: SwId)
    requires !(mainVariationId.Some? && mainVariationId.value in productLinks && k == productLinks[mainVariationId.value])
    ensures var r := QueueFold(q, attributeValueIds, mainVariationId, attributeValueLinks, productLinks);
      HasKey(r, k) == HasKey(q, k) && Queued(r, k) == Queued(q, k)
    decreases |attributeValueIds|
  {
    if attributeValueIds != [] {
      var init := attributeValueIds[..|attributeValueIds| - 1];
      var a := attributeValueIds[|attributeValueIds| - 1];
      QueueFoldOther(q, init, mainVariationId, attributeValueLinks, productLinks, k);
      var prev := QueueFold(q, init, mainVariationId, attributeValueLinks, productLinks);
      if a in attributeValueLinks && mainVariationId.Some? && mainVariationId.value in productLinks {
        var parent := productLinks[mainVariationId.value];
        PutOther(prev, parent, Queued(prev, parent) + [attributeValueLinks[a]], k);
      }
    }
  }

  /**
   * A variant whose parent is linked appends the links of its linked
   * attribute values, in order, to its parent's queue and touches no other
   * parent; a main variation, or a variant whose parent is not linked,
   * queues nothing.
   */
  lemma QueueOptionsSpec(q: OptionQueue, v: Variation, attributeValueLinks: map<int, SwId>,
                         productLinks: map<PlentyId, SwId>, k: SwId)
    ensures !(IsVariant(v) && ParentLinked(v, productLinks)) ==>
      QueueOptions(q, v, attributeValueLinks, productLinks) == q
    ensures IsVariant(v) && ParentLinked(v, productLinks) ==>
      var r := QueueOptions(q, v, attributeValueLinks, productLinks);
      if k == productLinks[v.base.mainVariationId.value]
      then Queued(r, k) == Queued(q, k) + DesiredOptionIds(v, attributeValueLinks)
      else HasKey(r, k) == HasKey(q, k) && Queued(r, k) == Queued(q, k)
  {
    if IsVariant(v) {
      if ParentLinked(v, productLinks) {
        QueueFoldSpec(q, v.attributeValueIds, v.base.mainVariationId, attributeValueLinks, productLinks, k);
      } else {
        QueueFoldUnlinked(q, v.attributeValueIds, v.base.mainVariationId, attributeValueLinks, productLinks);
      }
    }
  }

  lemma {:induction false} QueueFoldUnlinked(q: OptionQueue, attributeValueIds: seq<int>, mainVariationId: Option<PlentyId>,
                                             attributeValueLinks: map<int, SwId>, productLinks: map<PlentyId, SwId>)
    requires mainVariationId.None? || mainVariationId.value !in productLinks
    ensures QueueFold(q, attributeValueIds, mainVariationId, attributeValueLinks, productLinks) == q
    decreases |attributeValueIds|
  {
    if attributeValueIds != [] {
      QueueFoldUnlinked(q, attributeValueIds[..|attributeValueIds| - 1], mainVariationId, attributeValueLinks, productLinks);
    }
  }

  /** Queueing keeps one queue entry per parent. */
  lemma {:induction false} QueueFoldNoDup(q: OptionQueue, attributeValueIds: seq<int>, mainVariationId: Option<PlentyId>,
                                          attributeValueLinks: map<int, SwId>, productLinks: map<PlentyId, SwId>)
    requires NoDup(EntryKeys(q))
    ensures NoDup(EntryKeys(QueueFold(q, attributeValueIds, mainVariationId, attributeValueLinks, productLinks)))
    decreases |attributeValueIds|
  {
    if attributeValueIds != [] {
      var init := attributeValueIds[..|attributeValueIds| - 1];
      var a := attributeValueIds[|attributeValueIds| - 1];
      QueueFoldNoDup(q, init, mainVariationId, attributeValueLinks, productLinks);
      var prev := QueueFold(q, init, mainVariationId, attributeValueLinks, productLinks);
      if !(a !in attributeValueLinks || mainVariationId.None? || mainVariationId.value !in productLinks) {
        var parent := productLinks[mainVariationId.value];
        PutKeys(prev, parent, Queued(prev, parent) + [attributeValueLinks[a]]);
      }
    }
  }

  lemma QueueOptionsNoDup(q: OptionQueue, v: Variation, attributeValueLinks: map<int, SwId>,
                          productLinks: map<PlentyId, SwId>)
    requires NoDup(EntryKeys(q))
    ensures NoDup(EntryKeys(QueueOptions(q, v, attributeValueLinks, productLinks)))
  {
    if IsVariant(v) {
      QueueFoldNoDup(q, v.attributeValueIds, v.base.mainVariationId, attributeValueLinks, productLinks);
    }
  }

  /** An entry of `$swEntityUpsertData`: the product id, the mapped fields, the configurator settings to add. */
  datatype UpsertEntry = UpsertEntry(id: SwId, fields: seq<Entry<string, Value>>, configuratorSettings: seq<SwId>)

  type Upserts = seq<Entry<SwId, UpsertEntry>>

  /** Every upsert entry carries its own key as id. */
  predicate KeyedById(u: Upserts)
  {
    forall i | 0 <= i < |u| :: u[i].value.id == u[i].key
  }

  function SettingProductIdOf(d: ConfiguratorSettingDelete): SwId { d.productId }

  /** The option ids of an existing product's configurator settings. */
  function ExistingOptionIds(p: ExistingProduct): (r: seq<SwId>)
    ensures |r| == |p.configuratorSettings|
    ensures forall i | 0 <= i < |r| :: r[i] == p.configuratorSettings[i].optionId
  {
    seq(|p.configuratorSettings|, i requires 0 <= i < |p.configuratorSettings| => p.configuratorSettings[i].optionId)
  }

  /**
   * The options a parent already has: those of the existing product,
   * unless its settings were deleted in this run (then none).
   */
  function Baseline(parent: SwId, deletedProducts: seq<SwId>, existing: map<SwId, ExistingProduct>): seq<SwId>
  {
    if parent !in deletedProducts && parent in existing then ExistingOptionIds(existing[parent]) else []
  }

  /** The elements of s that are not in excluded, in order. */
  function Without(s: seq<SwId>, excluded: seq<SwId>): seq<SwId>
    decreases |s|
  {
    if s == [] then []
    else Without(s[..|s| - 1], excluded) + (if s[|s| - 1] in excluded then [] else [s[|s| - 1]])
  }

  lemma {:induction false} WithoutMembership(s: seq<SwId>, excluded: seq<SwId>, x: SwId)
    ensures x in Without(s, excluded) <==> x in s && x !in excluded
    decreases |s|
  {
    if s != [] {
      WithoutMembership(s[..|s| - 1], excluded, x);
      assert s == s[..|s| - 1] + [s[|s| - 1]];
    }
  }

  lemma {:induction false} WithoutNoDup(s: seq<SwId>, excluded: seq<SwId>)
    requires NoDup(s)
    ensures NoDup(Without(s, excluded))
    decreases |s|
  {
    if s != [] {
      var init := s[..|s| - 1];
      assert NoDup(init) by {
        forall i, j | 0 <= i < j < |init| ensures init[i] != init[j] {
          assert init[i] == s[i] && init[j] == s[j];
        }
      }
      WithoutNoDup(init, excluded);
      var w := Without(init, excluded);
      if s[|s| - 1] !in excluded {
        assert s[|s| - 1] !in w by {
          WithoutMembership(init, excluded, s[|s| - 1]);
          forall m | 0 <= m < |init| ensures init[m] != s[|s| - 1] {
            assert init[m] == s[m];
          }
        }
        var r := w + [s[|s| - 1]];
        forall i, j | 0 <= i < j < |r| ensures r[i] != r[j] {
          if j < |w| {
            assert r[i] == w[i] && r[j] == w[j];
          } else {
            assert r[i] == w[i];
          }
        }
      }
    }
  }

  /** `if (!array_key_exists($swId, ...)) $upsert[$swId]['id'] = $swId;` */
  function EnsureEntry(u: Upserts, parent: SwId): (r: Upserts)
    ensures HasKey(r, parent)
  {
    if HasKey(u, parent) then u
    else
      PutGet(u, parent, UpsertEntry(parent, [], []));
      Put(u, parent, UpsertEntry(parent, [], []))
  }

  /** `$upsert[$swId]['configuratorSettings'][] = ['optionId' => $option]` */
  function AppendSetting(u: Upserts, parent: SwId, option: SwId): (r: Upserts)
    requires HasKey(u, parent)
    ensures HasKey(r, parent)
  {
    var e := Get(u, parent);
    PutGet(u, parent, e.(configuratorSettings := e.configuratorSettings + [option]));
    Put(u, parent, e.(configuratorSettings := e.configuratorSettings + [option]))
  }

  /** The loop over a parent's deduplicated options. */
  function MergeOptions(u: Upserts, parent: SwId, options: seq<SwId>, baseline: seq<SwId>): (r: Upserts)
    requires HasKey(u, parent)
    ensures HasKey(r, parent)
    decreases |options|
  {
    if options == [] then u
    else
      var prev := MergeOptions(u, parent, options[..|options| - 1], baseline);
      var o := options[|options| - 1];
      if o in baseline then prev else AppendSetting(prev, parent, o)
  }

  /** One iteration of the merge loop: the entry for a parent and its new settings. */
  function MergeParent(u: Upserts, parent: SwId, queued: seq<SwId>, deletedProducts: seq<SwId>,
                       existing: map<SwId, ExistingProduct>): (r: Upserts)
    ensures HasKey(r, parent)
  {
    MergeOptions(EnsureEntry(u, parent), parent, Dedup(queued), Baseline(parent, deletedProducts, existing))
  }

  /** The merge loop over the whole queue. */
  function MergeAll(u: Upserts, q: OptionQueue, deletedProducts: seq<SwId>, existing: map<SwId, ExistingProduct>): Upserts
    decreases |q|
  {
    if q == [] then u
    else MergeParent(MergeAll(u, q[..|q| - 1], deletedProducts, existing),
                     q[|q| - 1].key, q[|q| - 1].value, deletedProducts, existing)
  }

  lemma {:induction false} MergeOptionsSpec(u: Upserts, parent: SwId, options: seq<SwId>, baseline: seq<SwId>, k: SwId)
    requires HasKey(u, parent)
    ensures var r := MergeOptions(u, parent, options, baseline);
      && Get(r, parent) == Get(u, parent).(configuratorSettings := Get(u, parent).configuratorSettings + Without(options, baseline))
      && (k != parent ==> HasKey(r, k) == HasKey(u, k) && (HasKey(u, k) ==> Get(r, k) == Get(u, k)))
    decreases |options|
  {
    if options != [] {
      var init := options[..|options| - 1];
      var o := options[|options| - 1];
      MergeOptionsSpec(u, parent, init, baseline, k);
      var prev := MergeOptions(u, parent, init, baseline);
      if o !in baseline {
        var e := Get(prev, parent);
        PutGet(prev, parent, e.(configuratorSettings := e.configuratorSettings + [o]));
        if k != parent {
          PutOther(prev, parent, e.(configuratorSettings := e.configuratorSettings + [o]), k);
        }
      }
    }
  }

  lemma EnsureEntrySpec(u: Upserts, parent: SwId, k: SwId)
    ensures Get(EnsureEntry(u, parent), parent) == if HasKey(u, parent) then Get(u, parent) else UpsertEntry(parent, [], [])
    ensures k != parent ==>
      HasKey(EnsureEntry(u, parent), k) == HasKey(u, k) && (HasKey(u, k) ==> Get(EnsureEntry(u, parent), k) == Get(u, k))
  {
    if !HasKey(u, parent) {
      PutGet(u, parent, UpsertEntry(parent, [], []));
      if k != parent {
        PutOther(u, parent, UpsertEntry(parent, [], []), k);
      }
    }
  }

  /**
   * After a parent's merge step the parent has an upsert entry (a new one
   * carries the parent's id); its settings gain, in order and without
   * repetition, exactly the queued options the parent does not already
   * have; every other entry is unchanged.
   */
  lemma MergeParentSpec(u: Upserts, parent: SwId, queued: seq<SwId>, deletedProducts: seq<SwId>,
                        existing: map<SwId, ExistingProduct>, k: SwId)
    ensures var r := MergeParent(u, parent, queued, deletedProducts, existing);
      var prior := if HasKey(u, parent) then Get(u, parent) else UpsertEntry(parent, [], []);
      var added := Without(Dedup(queued), Baseline(parent, deletedProducts, existing));
      && Get(r, parent) == prior.(configuratorSettings := prior.configuratorSettings + added)
      && NoDup(added)
      && (forall o :: o in added <==> o in queued && o !in Baseline(parent, deletedProducts, existing))
      && (k != parent ==> HasKey(r, k) == HasKey(u, k) && (HasKey(u, k) ==> Get(r, k) == Get(u, k)))
  {
    var base := Baseline(parent, deletedProducts, existing);
    EnsureEntrySpec(u, parent, k);
    MergeOptionsSpec(EnsureEntry(u, parent), parent, Dedup(queued), base, k);
    WithoutNoDup(Dedup(queued), base);
    forall o ensures o in Without(Dedup(queued), base) <==> o in queued && o !in base {
      WithoutMembership(Dedup(queued), base, o);
    }
  }

  /**
   * After the merge every queued parent has an entry whose settings are its
   * earlier ones followed by its new options, and every other entry is as
   * it was.
   */
  lemma MergeAllQueued(u: Upserts, q: OptionQueue, deletedProducts: seq<SwId>, existing: map<SwId, ExistingProduct>)
    requires NoDup(EntryKeys(q))
    ensures forall j | 0 <= j < |q| ::
      var parent := q[j].key;
      var prior := if HasKey(u, parent) then Get(u, parent) else UpsertEntry(parent, [], []);
      && HasKey(MergeAll(u, q, deletedProducts, existing), parent)
      && Get(MergeAll(u, q, deletedProducts, existing), parent) == prior.(configuratorSettings :=
           prior.configuratorSettings + Without(Dedup(q[j].value), Baseline(parent, deletedProducts, existing)))
    ensures forall k | k !in EntryKeys(q) ::
      && HasKey(MergeAll(u, q, deletedProducts, existing), k) == HasKey(u, k)
      && (HasKey(u, k) ==> Get(MergeAll(u, q, deletedProducts, existing), k) == Get(u, k))
  {
    forall j | 0 <= j < |q|
      ensures var parent := q[j].key;
        var prior := if HasKey(u, parent) then Get(u, parent) else UpsertEntry(parent, [], []);
        && HasKey(MergeAll(u, q, deletedProducts, existing), parent)
        && Get(MergeAll(u, q, deletedProducts, existing), parent) == prior.(configuratorSettings :=
             prior.configuratorSettings + Without(Dedup(q[j].value), Baseline(parent, deletedProducts, existing)))
    {
      MergeAllSpec(u, q, deletedProducts, existing, j);
    }
    forall k | k !in EntryKeys(q)
      ensures && HasKey(MergeAll(u, q, deletedProducts, existing), k) == HasKey(u, k)
              && (HasKey(u, k) ==> Get(MergeAll(u, q, deletedProducts, existing), k) == Get(u, k))
    {
      MergeAllOther(u, q, deletedProducts, existing, k);
    }
  }

  lemma {:induction false} MergeAllOther(u: Upserts, q: OptionQueue, deletedProducts: seq<SwId>,
                                         existing: map<SwId, ExistingProduct>, k: SwId)
    requires k !in EntryKeys(q)
    ensures HasKey(MergeAll(u, q, deletedProducts, existing), k) == HasKey(u, k)
    ensures HasKey(u, k) ==> Get(MergeAll(u, q, deletedProducts, existing), k) == Get(u, k)
    decreases |q|
  {
    if q != [] {
      var init := q[..|q| - 1];
      assert EntryKeys(q)[..|init|] == EntryKeys(init);
      assert k != q[|q| - 1].key by {
        assert EntryKeys(q)[|q| - 1] == q[|q| - 1].key;
      }
      MergeAllOther(u, init, deletedProducts, existing, k);
      MergeParentSpec(MergeAll(u, init, deletedProducts, existing), q[|q| - 1].key, q[|q| - 1].value,
                      deletedProducts, existing, k);
    }
  }

  /**
   * Merging a queue (whose parents are distinct, as the queue's keys are)
   * leaves every queued parent with an entry whose settings are its prior
   * settings followed by its queued options, deduplicated, minus the
   * options it already has.
   */
  lemma {:induction false} MergeAllSpec(u: Upserts, q: OptionQueue, deletedProducts: seq<SwId>,
                                        existing: map<SwId, ExistingProduct>, j: int)
    requires NoDup(EntryKeys(q))
    requires 0 <= j < |q|
    ensures var r := MergeAll(u, q, deletedProducts, existing);
      var parent := q[j].key;
      var prior := if HasKey(u, parent) then Get(u, parent) else UpsertEntry(parent, [], []);
      && HasKey(r, parent)
      && Get(r, parent) == prior.(configuratorSettings := prior.configuratorSettings
                                    + Without(Dedup(q[j].value), Baseline(parent, deletedProducts, existing)))
    decreases |q|
  {
    var init := q[..|q| - 1];
    var last := q[|q| - 1];
    var prev := MergeAll(u, init, deletedProducts, existing);
    var base := Baseline(last.key, deletedProducts, existing);
    if j < |init| {
      DistinctKeysInit(q);
      DistinctKeysDiffer(q, j, |q| - 1);
      assert init[j] == q[j];
      MergeAllSpec(u, init, deletedProducts, existing, j);
      EnsureEntrySpec(prev, last.key, q[j].key);
      MergeOptionsSpec(EnsureEntry(prev, last.key), last.key, Dedup(last.value), base, q[j].key);
    } else {
      DistinctKeysLast(q);
      MergeAllOther(u, init, deletedProducts, existing, last.key);
      EnsureEntrySpec(prev, last.key, last.key);
      MergeOptionsSpec(EnsureEntry(prev, last.key), last.key, Dedup(last.value), base, last.key);
    }
  }

  /** The merge keeps every entry keyed by its own id. */
  lemma {:induction false} MergeAllKeyedById(u: Upserts, q: OptionQueue, deletedProducts: seq<SwId>,
                                             existing: map<SwId, ExistingProduct>)
    requires KeyedById(u)
    ensures KeyedById(MergeAll(u, q, deletedProducts, existing))
    decreases |q|
  {
    if q != [] {
      var init := q[..|q| - 1];
      MergeAllKeyedById(u, init, deletedProducts, existing);
      var prev := MergeAll(u, init, deletedProducts, existing);
      var parent := q[|q| - 1].key;
      var e := EnsureEntry(prev, parent);
      EnsureEntryKeyedById(prev, parent);
      MergeOptionsKeyedById(e, parent, Dedup(q[|q| - 1].value), Baseline(parent, deletedProducts, existing));
    }
  }

  lemma EnsureEntryKeyedById(u: Upserts, parent: SwId)
    requires KeyedById(u)
    ensures KeyedById(EnsureEntry(u, parent))
  {
    if !HasKey(u, parent) {
      PutKeyedById(u, parent, UpsertEntry(parent, [], []));
    }
  }

  lemma {:induction false} MergeOptionsKeyedById(u: Upserts, parent: SwId, options: seq<SwId>, baseline: seq<SwId>)
    requires HasKey(u, parent) && KeyedById(u)
    ensures KeyedById(MergeOptions(u, parent, options, baseline))
    decreases |options|
  {
    if options != [] {
      var init := options[..|options| - 1];
      MergeOptionsKeyedById(u, parent, init, baseline);
      var prev := MergeOptions(u, parent, init, baseline);
      var o := options[|options| - 1];
      if o !in baseline {
        var e := Get(prev, parent);
        GetKeyedById(prev, parent);
        PutKeyedById(prev, parent, e.(configuratorSettings := e.configuratorSettings + [o]));
      }
    }
  }

  lemma {:induction false} GetKeyedById(u: Upserts, k: SwId)
    requires KeyedById(u) && HasKey(u, k)
    ensures Get(u, k).id == k
    decreases |u|
  {
    if u[0].key != k {
      GetKeyedById(u[1..], k);
    }
  }

  lemma {:induction false} PutKeyedById(u: Upserts, k: SwId, e: UpsertEntry)
    requires KeyedById(u) && e.id == k
    ensures KeyedById(Put(u, k, e))
    decreases |u|
  {
    if u != [] && u[0].key != k {
      PutKeyedById(u[1..], k, e);
      var p := Put(u[1..], k, e);
      assert Put(u, k, e) == [u[0]] + p;
    }
  }

  /** `_add_configurator_settings_for_all_variants`: the loop over a variant's attribute values. */
  method QueueVariantOptions(q: OptionQueue, v: Variation, attributeValueLinks: map<int, SwId>,
                             productLinks: map<PlentyId, SwId>)
    returns (r: OptionQueue)
    ensures r == QueueOptions(q, v, attributeValueLinks, productLinks)
  {
    r := q;
    if v.base.isMain == Some(false) {
      var values := v.attributeValueIds;
      var main := v.base.mainVariationId;
      for i := 0 to |values|
        invariant r == QueueFold(q, values[..i], main, attributeValueLinks, productLinks)
      {
        assert values[..i + 1][..i] == values[..i];
        if values[i] in attributeValueLinks && main.Some? && main.value in productLinks {
          var parent := productLinks[main.value];
          r := Put(r, parent, Queued(r, parent) + [attributeValueLinks[values[i]]]);
        }
      }
      assert values[..|values|] == values;
    }
  }

  /** The product ids of the deleted settings, without repetition. */
  method DeletedProducts(deletes: seq<ConfiguratorSettingDelete>) returns (ids: seq<SwId>)
    ensures ids == Dedup(Keys(deletes, SettingProductIdOf))
  {
    var collected: seq<SwId> := [];
    for i := 0 to |deletes|
      invariant collected == Keys(deletes[..i], SettingProductIdOf)
    {
      assert deletes[..i + 1][..i] == deletes[..i];
      collected := collected + [deletes[i].productId];
    }
    assert deletes[..|deletes|] == deletes;
    ids := Dedup(collected);
  }

  /** A product counts as deleted exactly when some deleted setting belongs to it. */
  lemma DeletedProductsMembership(deletes: seq<ConfiguratorSettingDelete>, p: SwId)
    ensures p in Dedup(Keys(deletes, SettingProductIdOf)) <==> exists d | d in deletes :: d.productId == p
  {
    var ks := Keys(deletes, SettingProductIdOf);
    var ids := Dedup(ks);
    if p in ids {
      var k :| 0 <= k < |ids| && ids[k] == p;
      var j :| 0 <= j < |ks| && ks[j] == p;
      assert deletes[j] in deletes;
    }
    if exists d | d in deletes :: d.productId == p {
      var d :| d in deletes && d.productId == p;
      var j :| 0 <= j < |deletes| && deletes[j] == d;
      assert ks[j] == p;
    }
  }

  /** The option ids of an existing product, collected by a loop over its settings. */
  method CollectOptionIds(p: ExistingProduct) returns (ids: seq<SwId>)
    ensures ids == ExistingOptionIds(p)
  {
    ids := [];
    for i := 0 to |p.configuratorSettings|
      invariant ids == ExistingOptionIds(p)[..i]
    {
      ids := ids + [p.configuratorSettings[i].optionId];
    }
  }

  /** One iteration of the merge loop of `runBeforeUpdates`. */
  method MergeParentLoop(u: Upserts, parent: SwId, queued: seq<SwId>, deletedProducts: seq<SwId>,
                         existing: map<SwId, ExistingProduct>)
    returns (r: Upserts)
    ensures r == MergeParent(u, parent, queued, deletedProducts, existing)
  {
    var options := Dedup(queued);
    r := u;
    if !HasKey(r, parent) {
      r := Put(r, parent, UpsertEntry(parent, [], []));
    }
    assert r == EnsureEntry(u, parent);
    var baseline: seq<SwId> := [];
    if parent !in deletedProducts && parent in existing {
      baseline := CollectOptionIds(existing[parent]);
    }
    assert baseline == Baseline(parent, deletedProducts, existing);
    for i := 0 to |options|
      invariant r == MergeOptions(EnsureEntry(u, parent), parent, options[..i], baseline)
    {
      assert options[..i + 1][..i] == options[..i];
      if options[i] !in baseline {
        var e := Get(r, parent);
        r := Put(r, parent, e.(configuratorSettings := e.configuratorSettings + [options[i]]));
      }
    }
    assert options[..|options|] == options;
  }

  /** The merge loop of `runBeforeUpdates` over the whole queue. */
  method MergeQueue(u: Upserts, q: OptionQueue, deletedProducts: seq<SwId>, existing: map<SwId, ExistingProduct>)
    returns (r: Upserts)
    ensures r == MergeAll(u, q, deletedProducts, existing)
  {
    r := u;
    for i := 0 to |q|
      invariant r == MergeAll(u, q[..i], deletedProducts, existing)
    {
      assert q[..i + 1][..i] == q[..i];
      r := MergeParentLoop(r, q[i].key, q[i].value, deletedProducts, existing);
    }
    assert q[..|q|] == q;
  }
}
