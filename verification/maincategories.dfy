/**
 * The mainCategories field, added when the database mapping names it: one
 * main category per sales channel. A channel takes the category its client
 * (plentyId) has as default category, else the variation's mapped category
 * with the lowest position. Existing main-category rows are updated in
 * place or deleted; channels without a row get a new one.
 */
module MainCategories {
  import opened Common
  import opened Plenty
  import opened Shopware

  /** The loop variables `$categoryIdWithLowestPosition` and `$position`. */
  datatype LowestState = LowestState(category: Option<SwId>, position: int)

  predicate Mapped(c: VariationCategory, categoryLinks: map<PlentyId, SwId>)
  {
    c.categoryId in categoryLinks
  }

  function LowestFold(cats: seq<VariationCategory>, categoryLinks: map<PlentyId, SwId>): LowestState
    decreases |cats|
  {
    if cats == [] then LowestState(None, 0)
    else
      var st := LowestFold(cats[..|cats| - 1], categoryLinks);
      var c := cats[|cats| - 1];
      if Mapped(c, categoryLinks) && (st.category.None? || c.position < st.position)
      then LowestState(Some(categoryLinks[c.categoryId]), c.position)
      else st
  }

  /** The mapped category with the lowest position (the first of equal lowest positions). */
  function LowestMappedCategory(cats: seq<VariationCategory>, categoryLinks: map<PlentyId, SwId>): Option<SwId>
  {
    LowestFold(cats, categoryLinks).category
  }

  /**
   * There is a lowest category exactly when some category is mapped; it is
   * the link of a mapped category k whose position no mapped category
   * undercuts, and every mapped category before k has a strictly larger
   * position (ties keep the first).
   */
  lemma {:induction false} LowestMappedCategorySpec(cats: seq<VariationCategory>, categoryLinks: map<PlentyId, SwId>)
    ensures var st := LowestFold(cats, categoryLinks);
      && (st.category.None? <==> forall i | 0 <= i < |cats| :: !Mapped(cats[i], categoryLinks))
      && (st.category.Some? ==>
            exists k | 0 <= k < |cats| ::
              && Mapped(cats[k], categoryLinks)
              && st.category == Some(categoryLinks[cats[k].categoryId])
              && st.position == cats[k].position
              && (forall i | 0 <= i < |cats| && Mapped(cats[i], categoryLinks) :: cats[k].position <= cats[i].position)
              && (forall i | 0 <= i < k && Mapped(cats[i], categoryLinks) :: cats[k].position < cats[i].position))
    decreases |cats|
  {
    if cats != [] {
      var init := cats[..|cats| - 1];
      var n := |cats| - 1;
      assert forall i | 0 <= i < |init| :: init[i] == cats[i];
      LowestMappedCategorySpec(init, categoryLinks);
      var prev := LowestFold(init, categoryLinks);
      var st := LowestFold(cats, categoryLinks);
      if prev.category.Some? {
        var k :| 0 <= k < |init|
              && Mapped(init[k], categoryLinks)
              && prev.category == Some(categoryLinks[init[k].categoryId])
              && prev.position == init[k].position
              && (forall i | 0 <= i < |init| && Mapped(init[i], categoryLinks) :: init[k].position <= init[i].position)
              && (forall i | 0 <= i < k && Mapped(init[i], categoryLinks) :: init[k].position < init[i].position);
        if st == prev {
          assert cats[k] == init[k];
          assert forall i | 0 <= i < |cats| && Mapped(cats[i], categoryLinks) :: cats[k].position <= cats[i].position by {
            forall i | 0 <= i < |cats| && Mapped(cats[i], categoryLinks)
              ensures cats[k].position <= cats[i].position
            {
              if i < n {
                assert cats[i] == init[i];
              }
            }
          }
        } else {
          forall i | 0 <= i < n && Mapped(cats[i], categoryLinks)
            ensures cats[n].position < cats[i].position
          {
            assert cats[i] == init[i];
          }
        }
      } else {
        assert forall i | 0 <= i < n :: !Mapped(cats[i], categoryLinks);
      }
    }
  }

  /** What a default category resolves to: its mapped branch, else the lowest category. */
  function ResolveDefault(d: DefaultCategory, categoryLinks: map<PlentyId, SwId>, lowest: Option<SwId>): Option<SwId>
  {
    if d.branchId in categoryLinks then Some(categoryLinks[d.branchId]) else lowest
  }

  /** `$mandante2SwCategoryId`: client id => category, the last default category per client wins. */
  function DefaultCategoryByClient(defaults: seq<DefaultCategory>, categoryLinks: map<PlentyId, SwId>,
                                   lowest: Option<SwId>): seq<Entry<int, Option<SwId>>>
    decreases |defaults|
  {
    if defaults == [] then []
    else
      var d := defaults[|defaults| - 1];
      Put(DefaultCategoryByClient(defaults[..|defaults| - 1], categoryLinks, lowest), d.plentyId,
          ResolveDefault(d, categoryLinks, lowest))
  }

  /** The last default category of a client, if any. */
  function LastDefault(defaults: seq<DefaultCategory>, plentyId: int): Option<DefaultCategory>
    decreases |defaults|
  {
    if defaults == [] then None
    else if defaults[|defaults| - 1].plentyId == plentyId then Some(defaults[|defaults| - 1])
    else LastDefault(defaults[..|defaults| - 1], plentyId)
  }

  /** A client has an entry exactly when it has a default category, and the entry is its last one, resolved. */
  lemma {:induction false} DefaultCategoryByClientSpec(defaults: seq<DefaultCategory>, categoryLinks: map<PlentyId, SwId>,
                                                       lowest: Option<SwId>, plentyId: int)
    ensures var m := DefaultCategoryByClient(defaults, categoryLinks, lowest);
      && (HasKey(m, plentyId) <==> LastDefault(defaults, plentyId).Some?)
      && (HasKey(m, plentyId) ==>
            Get(m, plentyId) == ResolveDefault(LastDefault(defaults, plentyId).value, categoryLinks, lowest))
    decreases |defaults|
  {
    if defaults != [] {
      var d := defaults[|defaults| - 1];
      var prev := DefaultCategoryByClient(defaults[..|defaults| - 1], categoryLinks, lowest);
      DefaultCategoryByClientSpec(defaults[..|defaults| - 1], categoryLinks, lowest, plentyId);
      PutGet(prev, d.plentyId, ResolveDefault(d, categoryLinks, lowest));
      if d.plentyId != plentyId {
        PutOther(prev, d.plentyId, ResolveDefault(d, categoryLinks, lowest), plentyId);
      }
    }
  }

  /**
   * `$mandante2SwCategoryId[$plentyId] ?? $categoryIdWithLowestPosition`:
   * a channel without a client, a client without an entry, or an entry
   * holding null all fall back to the lowest category.
   */
  function ChannelCategory(c: SalesChannel, byClient: seq<Entry<int, Option<SwId>>>, lowest: Option<SwId>): Option<SwId>
  {
    if c.plentyId.Some? && HasKey(byClient, c.plentyId.value) && Get(byClient, c.plentyId.value).Some?
    then Get(byClient, c.plentyId.value)
    else lowest
  }

  /**
   * A channel's category is the mapped branch of its client's last default
   * category; otherwise it is the lowest mapped category of the variation.
   */
  lemma ChannelCategorySpec(c: SalesChannel, defaults: seq<DefaultCategory>, categoryLinks: map<PlentyId, SwId>,
                            lowest: Option<SwId>)
    ensures ChannelCategory(c, DefaultCategoryByClient(defaults, categoryLinks, lowest), lowest)
         == if c.plentyId.Some? && LastDefault(defaults, c.plentyId.value).Some?
               && LastDefault(defaults, c.plentyId.value).value.branchId in categoryLinks
            then Some(categoryLinks[LastDefault(defaults, c.plentyId.value).value.branchId])
            else lowest
  {
    if c.plentyId.Some? {
      DefaultCategoryByClientSpec(defaults, categoryLinks, lowest, c.plentyId.value);
    }
  }

  /** `$salesChannelId2SwCategoryId`: every sales channel with its category. */
  function CategoryByChannel(channels: seq<SalesChannel>, byClient: seq<Entry<int, Option<SwId>>>,
                             lowest: Option<SwId>): seq<Entry<SwId, Option<SwId>>>
    decreases |channels|
  {
    if channels == [] then []
    else
      var c := channels[|channels| - 1];
      Put(CategoryByChannel(channels[..|channels| - 1], byClient, lowest), c.id, ChannelCategory(c, byClient, lowest))
  }

  /** A main-category payload row: an update of an existing row, or a new row for a channel. */
  datatype MainCategoryRow =
    | UpdateRow(id: SwId, categoryId: SwId)
    | NewRow(category: Option<SwId>, salesChannelId: SwId)

  /** The loop over the existing main categories: rows so far, deletions so far, channels not yet consumed. */
  datatype ExistingWalk = ExistingWalk(
    rows: seq<MainCategoryRow>,
    deletes: seq<MainCategoryDelete>,
    remaining: seq<Entry<SwId, Option<SwId>>>)

  /** Whether a channel still resolves to a category in the channel map. */
  predicate Resolves(remaining: seq<Entry<SwId, Option<SwId>>>, channel: SwId)
  {
    HasKey(remaining, channel) && Get(remaining, channel).Some?
  }

  function ExistingStep(w: ExistingWalk, mc: MainCategory): ExistingWalk
  {
    if !Resolves(w.remaining, mc.salesChannelId) then
      ExistingWalk(w.rows, w.deletes + [MainCategoryDelete(mc.id)], Unset(w.remaining, mc.salesChannelId))
    else
      ExistingWalk(w.rows + [UpdateRow(mc.id, Get(w.remaining, mc.salesChannelId).value)], w.deletes,
                   Unset(w.remaining, mc.salesChannelId))
  }

  function ExistingFold(existing: seq<MainCategory>, byChannel: seq<Entry<SwId, Option<SwId>>>): ExistingWalk
    decreases |existing|
  {
    if existing == [] then ExistingWalk([], [], byChannel)
    else ExistingStep(ExistingFold(existing[..|existing| - 1], byChannel), existing[|existing| - 1])
  }

  function ChannelIdsOf(existing: seq<MainCategory>): (r: seq<SwId>)
    ensures |r| == |existing|
    ensures forall i | 0 <= i < |existing| :: r[i] == existing[i].salesChannelId
    decreases |existing|
  {
    if existing == [] then [] else ChannelIdsOf(existing[..|existing| - 1]) + [existing[|existing| - 1].salesChannelId]
  }

  /**
   * After the walk, a channel is still pending exactly when it is in the
   * channel map and no existing row names it; its category is unchanged.
   */
  lemma {:induction false} ExistingFoldRemaining(existing: seq<MainCategory>, byChannel: seq<Entry<SwId, Option<SwId>>>,
                                                 channel: SwId)
    ensures var w := ExistingFold(existing, byChannel);
      && (HasKey(w.remaining, channel) <==> HasKey(byChannel, channel) && channel !in ChannelIdsOf(existing))
      && (HasKey(w.remaining, channel) ==> Get(w.remaining, channel) == Get(byChannel, channel))
    decreases |existing|
  {
    if existing != [] {
      var init := existing[..|existing| - 1];
      var mc := existing[|existing| - 1];
      ExistingFoldRemaining(init, byChannel, channel);
      var prev := ExistingFold(init, byChannel);
      assert ChannelIdsOf(existing) == ChannelIdsOf(init) + [mc.salesChannelId];
      if mc.salesChannelId == channel {
        UnsetGone(prev.remaining, channel);
      } else {
        UnsetOther(prev.remaining, mc.salesChannelId, channel);
      }
    }
  }

  /**
   * Each existing row becomes exactly one thing: an update that keeps its
   * id and takes the channel's category when the channel resolves and no
   * earlier row consumed it, a deletion of its id otherwise.
   */
  lemma ExistingStepOutcome(existing: seq<MainCategory>, byChannel: seq<Entry<SwId, Option<SwId>>>, j: int)
    requires 0 <= j < |existing|
    ensures var before := ExistingFold(existing[..j], byChannel);
      var after := ExistingFold(existing[..j + 1], byChannel);
      var ch := existing[j].salesChannelId;
      if HasKey(byChannel, ch) && Get(byChannel, ch).Some? && ch !in ChannelIdsOf(existing[..j]) then
        && after.rows == before.rows + [UpdateRow(existing[j].id, Get(byChannel, ch).value)]
        && after.deletes == before.deletes
      else
        && after.rows == before.rows
        && after.deletes == before.deletes + [MainCategoryDelete(existing[j].id)]
  {
    assert existing[..j + 1][..j] == existing[..j];
    ExistingFoldRemaining(existing[..j], byChannel, existing[j].salesChannelId);
  }

  /** The walk emits one update or one deletion per existing row, and only updates as rows. */
  lemma {:induction false} ExistingFoldCounts(existing: seq<MainCategory>, byChannel: seq<Entry<SwId, Option<SwId>>>)
    ensures var w := ExistingFold(existing, byChannel);
      && |w.rows| + |w.deletes| == |existing|
      && forall i | 0 <= i < |w.rows| :: w.rows[i].UpdateRow?
    decreases |existing|
  {
    if existing != [] {
      ExistingFoldCounts(existing[..|existing| - 1], byChannel);
    }
  }

  /** New rows as the code emits them: one per pending channel, even when its category is null. */
  function NewRowsAsWritten(remaining: seq<Entry<SwId, Option<SwId>>>): (r: seq<MainCategoryRow>)
    ensures |r| == |remaining|
    ensures forall i | 0 <= i < |r| :: r[i] == NewRow(remaining[i].value, remaining[i].key)
    decreases |remaining|
  {
    if remaining == [] then []
    else
      var e := remaining[|remaining| - 1];
      NewRowsAsWritten(remaining[..|remaining| - 1]) + [NewRow(e.value, e.key)]
  }

  /** New rows as intended: one per pending channel that resolves to a category. */
  function NewRows(remaining: seq<Entry<SwId, Option<SwId>>>): (r: seq<MainCategoryRow>)
    decreases |remaining|
  {
    if remaining == [] then []
    else
      var e := remaining[|remaining| - 1];
      NewRows(remaining[..|remaining| - 1]) + (if e.value.Some? then [NewRow(e.value, e.key)] else [])
  }

  /** Every intended new row carries a category, and every pending channel with a category gets one. */
  lemma {:induction false} NewRowsSpec(remaining: seq<Entry<SwId, Option<SwId>>>)
    ensures forall i | 0 <= i < |NewRows(remaining)| ::
      NewRows(remaining)[i].NewRow? && NewRows(remaining)[i].category.Some?
    ensures forall i | 0 <= i < |remaining| && remaining[i].value.Some? ::
      NewRow(remaining[i].value, remaining[i].key) in NewRows(remaining)
    decreases |remaining|
  {
    if remaining != [] {
      var init := remaining[..|remaining| - 1];
      NewRowsSpec(init);
      assert forall i | 0 <= i < |init| :: init[i] == remaining[i];
    }
  }

  /** The payload of the closure as written. */
  function MainCategoryDataAsWritten(v: Variation, categoryLinks: map<PlentyId, SwId>, channels: seq<SalesChannel>,
                                     existing: seq<MainCategory>): ExistingWalk
  {
    var lowest := LowestMappedCategory(v.categories, categoryLinks);
    var byClient := DefaultCategoryByClient(v.defaultCategories, categoryLinks, lowest);
    var w := ExistingFold(existing, CategoryByChannel(channels, byClient, lowest));
    ExistingWalk(w.rows + NewRowsAsWritten(w.remaining), w.deletes, w.remaining)
  }

  /** The payload with new rows only for channels that resolve to a category. */
  function MainCategoryData(v: Variation, categoryLinks: map<PlentyId, SwId>, channels: seq<SalesChannel>,
                            existing: seq<MainCategory>): ExistingWalk
  {
    var lowest := LowestMappedCategory(v.categories, categoryLinks);
    var byClient := DefaultCategoryByClient(v.defaultCategories, categoryLinks, lowest);
    var w := ExistingFold(existing, CategoryByChannel(channels, byClient, lowest));
    ExistingWalk(w.rows + NewRows(w.remaining), w.deletes, w.remaining)
  }

  /**
   * As written, a variation with no mapped category and no default
   * category, synced to one sales channel without an existing main
   * category, produces a new main-category row whose category is null.
   */
  lemma MainCategoryNullRowAsWritten(v: Variation, channel: SalesChannel)
    requires v.categories == [] && v.defaultCategories == []
    ensures MainCategoryDataAsWritten(v, map[], [channel], []).rows == [NewRow(None, channel.id)]
  {
    assert CategoryByChannel([channel], [], None) == [Entry(channel.id, None)];
  }

  /** With the corrected emission, the same input produces no row. */
  lemma MainCategoryNullRowCorrected(v: Variation, channel: SalesChannel)
    requires v.categories == [] && v.defaultCategories == []
    ensures MainCategoryData(v, map[], [channel], []).rows == []
  {
    var pending := [Entry(channel.id, None)];
    assert CategoryByChannel([channel], [], None) == pending;
    assert pending[..0] == [];
    assert NewRows(pending) == [];
  }

  /** With the corrected emission, every row carries a category. */
  lemma {:induction false} MainCategoryDataRowsHaveCategory(v: Variation, categoryLinks: map<PlentyId, SwId>,
                                                            channels: seq<SalesChannel>, existing: seq<MainCategory>)
    ensures var rows := MainCategoryData(v, categoryLinks, channels, existing).rows;
      forall i | 0 <= i < |rows| :: rows[i].UpdateRow? || rows[i].category.Some?
  {
    var lowest := LowestMappedCategory(v.categories, categoryLinks);
    var byClient := DefaultCategoryByClient(v.defaultCategories, categoryLinks, lowest);
    var w := ExistingFold(existing, CategoryByChannel(channels, byClient, lowest));
    ExistingFoldCounts(existing, CategoryByChannel(channels, byClient, lowest));
    NewRowsSpec(w.remaining);
    var rows := w.rows + NewRows(w.remaining);
    assert forall i | |w.rows| <= i < |rows| :: rows[i] == NewRows(w.remaining)[i - |w.rows|];
  }

  /** The loop over the variation's categories. */
  method LowestLoop(cats: seq<VariationCategory>, categoryLinks: map<PlentyId, SwId>) returns (lowest: Option<SwId>)
    ensures lowest == LowestMappedCategory(cats, categoryLinks)
  {
    lowest := None;
    var position := 0;
    for i := 0 to |cats|
      invariant LowestState(lowest, position) == LowestFold(cats[..i], categoryLinks)
    {
      assert cats[..i + 1][..i] == cats[..i];
      var c := cats[i];
      if c.categoryId in categoryLinks && (lowest == None || c.position < position) {
        lowest := Some(categoryLinks[c.categoryId]);
        position := c.position;
      }
    }
    assert cats[..|cats|] == cats;
  }

  /** The loop over the default categories, filling the client map. */
  method DefaultsLoop(defaults: seq<DefaultCategory>, categoryLinks: map<PlentyId, SwId>, lowest: Option<SwId>)
    returns (byClient: seq<Entry<int, Option<SwId>>>)
    ensures byClient == DefaultCategoryByClient(defaults, categoryLinks, lowest)
  {
    byClient := [];
    for i := 0 to |defaults|
      invariant byClient == DefaultCategoryByClient(defaults[..i], categoryLinks, lowest)
    {
      assert defaults[..i + 1][..i] == defaults[..i];
      var d := defaults[i];
      var category := if d.branchId in categoryLinks then Some(categoryLinks[d.branchId]) else lowest;
      byClient := Put(byClient, d.plentyId, category);
    }
    assert defaults[..|defaults|] == defaults;
  }

  /** The loop over the sales channels, filling the channel map. */
  method ChannelsLoop(channels: seq<SalesChannel>, byClient: seq<Entry<int, Option<SwId>>>, lowest: Option<SwId>)
    returns (byChannel: seq<Entry<SwId, Option<SwId>>>)
    ensures byChannel == CategoryByChannel(channels, byClient, lowest)
  {
    byChannel := [];
    for i := 0 to |channels|
      invariant byChannel == CategoryByChannel(channels[..i], byClient, lowest)
    {
      assert channels[..i + 1][..i] == channels[..i];
      var c := channels[i];
      var category := lowest;
      if c.plentyId.Some? && HasKey(byClient, c.plentyId.value) && Get(byClient, c.plentyId.value).Some? {
        category := Get(byClient, c.plentyId.value);
      }
      byChannel := Put(byChannel, c.id, category);
    }
    assert channels[..|channels|] == channels;
  }

  /** The loop over the existing main categories: update, or delete, and consume the channel. */
  method ExistingLoop(existing: seq<MainCategory>, byChannel: seq<Entry<SwId, Option<SwId>>>)
    returns (w: ExistingWalk)
    ensures w == ExistingFold(existing, byChannel)
  {
    var rows: seq<MainCategoryRow> := [];
    var deletes: seq<MainCategoryDelete> := [];
    var remaining := byChannel;
    for i := 0 to |existing|
      invariant ExistingWalk(rows, deletes, remaining) == ExistingFold(existing[..i], byChannel)
    {
      assert existing[..i + 1][..i] == existing[..i];
      var mc := existing[i];
      if !(HasKey(remaining, mc.salesChannelId) && Get(remaining, mc.salesChannelId).Some?) {
        deletes := deletes + [MainCategoryDelete(mc.id)];
      } else {
        rows := rows + [UpdateRow(mc.id, Get(remaining, mc.salesChannelId).value)];
      }
      remaining := Unset(remaining, mc.salesChannelId);
    }
    assert existing[..|existing|] == existing;
    w := ExistingWalk(rows, deletes, remaining);
  }

  /** The loop over the pending channels, emitting a new row for each that resolves to a category. */
  method NewRowsLoop(remaining: seq<Entry<SwId, Option<SwId>>>) returns (rows: seq<MainCategoryRow>)
    ensures rows == NewRows(remaining)
  {
    rows := [];
    for i := 0 to |remaining|
      invariant rows == NewRows(remaining[..i])
    {
      assert remaining[..i + 1][..i] == remaining[..i];
      if remaining[i].value.Some? {
        rows := rows + [NewRow(remaining[i].value, remaining[i].key)];
      }
    }
    assert remaining[..|remaining|] == remaining;
  }

  /**
   * The mainCategories closure: the rows of the payload and the main
   * categories queued for deletion, computed by the five loops in order.
   */
  method MainCategoryPayload(v: Variation, categoryLinks: map<PlentyId, SwId>, channels: seq<SalesChannel>,
                             existing: seq<MainCategory>)
    returns (rows: seq<MainCategoryRow>, deletes: seq<MainCategoryDelete>)
    ensures rows == MainCategoryData(v, categoryLinks, channels, existing).rows
    ensures deletes == MainCategoryData(v, categoryLinks, channels, existing).deletes
    ensures forall i | 0 <= i < |rows| :: rows[i].UpdateRow? || rows[i].category.Some?
  {
    var lowest := LowestLoop(v.categories, categoryLinks);
    var byClient := DefaultsLoop(v.defaultCategories, categoryLinks, lowest);
    var byChannel := ChannelsLoop(channels, byClient, lowest);
    var w := ExistingLoop(existing, byChannel);
    var added := NewRowsLoop(w.remaining);
    rows := w.rows + added;
    deletes := w.deletes;
    MainCategoryDataRowsHaveCategory(v, categoryLinks, channels, existing);
  }
}
