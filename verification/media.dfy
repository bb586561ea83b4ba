/**
 * The media field of the product mapping: the variation's images, sorted by
 * position, become product-media assignments keyed by a relation id derived
 * from (product id, media id, source position); the cover is chosen on the
 * way.
 */
module MediaAssignments {
  import opened Common
  import opened Plenty
  import opened Shopware
  import opened Reconcile

  predicate SortedByPosition(s: seq<Image>)
  {
    forall i, j | 0 <= i < j < |s| :: s[i].position <= s[j].position
  }

  /** Insert x after every element whose position is not larger (keeps equal positions in order). */
  function Insert(s: seq<Image>, x: Image): (r: seq<Image>)
    decreases |s|
  {
    if s == [] then [x]
    else if x.position < s[0].position then [x] + s
    else [s[0]] + Insert(s[1..], x)
  }

  /** usort by `$a['position'] <=> $b['position']` (stable, as PHP 8's sort is). */
  function SortByPosition(s: seq<Image>): (r: seq<Image>)
    decreases |s|
  {
    if s == [] then [] else Insert(SortByPosition(s[..|s| - 1]), s[|s| - 1])
  }

  lemma {:induction false} InsertMultiset(s: seq<Image>, x: Image)
    ensures multiset(Insert(s, x)) == multiset(s) + multiset{x}
    decreases |s|
  {
    if s != [] && x.position >= s[0].position {
      assert s == [s[0]] + s[1..];
      InsertMultiset(s[1..], x);
    }
  }

  /** Every element of Insert(s, x) is x or an element of s. */
  lemma InsertElements(s: seq<Image>, x: Image, i: int)
    requires 0 <= i < |Insert(s, x)|
    ensures Insert(s, x)[i] == x || Insert(s, x)[i] in s
  {
    InsertMultiset(s, x);
    assert Insert(s, x)[i] in multiset(Insert(s, x));
  }

  lemma {:induction false} InsertSpec(s: seq<Image>, x: Image)
    requires SortedByPosition(s)
    ensures SortedByPosition(Insert(s, x))
    ensures multiset(Insert(s, x)) == multiset(s) + multiset{x}
    decreases |s|
  {
    InsertMultiset(s, x);
    if s != [] && x.position >= s[0].position {
      var tail := s[1..];
      assert SortedByPosition(tail) by {
        forall i, j | 0 <= i < j < |tail|
          ensures tail[i].position <= tail[j].position
        {
          assert tail[i] == s[i + 1] && tail[j] == s[j + 1];
        }
      }
      InsertSpec(tail, x);
      var t := Insert(tail, x);
      forall m | 0 <= m < |t|
        ensures s[0].position <= t[m].position
      {
        InsertElements(tail, x, m);
        if t[m] != x {
          var q :| 0 <= q < |tail| && tail[q] == t[m];
          assert s[q + 1] == t[m];
        }
      }
      var r := [s[0]] + t;
      assert r == Insert(s, x);
      forall i, j | 0 <= i < j < |r|
        ensures r[i].position <= r[j].position
      {
        assert r[j] == t[j - 1];
        if i > 0 {
          assert r[i] == t[i - 1];
        }
      }
    } else if s != [] {
      var r := [x] + s;
      forall i, j | 0 <= i < j < |r|
        ensures r[i].position <= r[j].position
      {
        assert r[j] == s[j - 1];
        if i > 0 {
          assert r[i] == s[i - 1];
        }
      }
    }
  }

  /** The sort orders by position and keeps every image exactly as often as it was given. */
  lemma {:induction false} SortByPositionSpec(s: seq<Image>)
    ensures SortedByPosition(SortByPosition(s))
    ensures multiset(SortByPosition(s)) == multiset(s)
    decreases |s|
  {
    if s != [] {
      SortByPositionSpec(s[..|s| - 1]);
      InsertSpec(SortByPosition(s[..|s| - 1]), s[|s| - 1]);
      assert s == s[..|s| - 1] + [s[|s| - 1]];
    }
  }

  /** One create entry: `['id' => relationId, 'media' => ['id' => mediaId], 'position' => n]`. */
  datatype MediaAssignment = MediaAssignment(id: SwId, mediaId: SwId, position: int)

  /**
   * The variables of the image loop: the create entries keyed by relation
   * id, the next position, the cover, and the fallback cover with its
   * source position.
   */
  datatype MediaState = MediaState(
    create: seq<Entry<SwId, MediaAssignment>>,
    newPosition: int,
    cover: Option<SwId>,
    fallback: Option<SwId>,
    fallbackPosition: int)

  const InitialMediaState := MediaState([], 0, None, None, 0)

  /**
   * The key under which an image's media id is looked up: the bare image id
   * (`array_key_exists($itemImage['id'], ...)`).
   */
  function ImageKey(img: Image): string
  {
    DecimalString(img.id)
  }

  /** An image is used when it is allowed and its media has been uploaded (is linked). */
  predicate Accepted(img: Image, allowed: Image -> bool, imageLinks: map<string, SwId>)
  {
    allowed(img) && ImageKey(img) in imageLinks
  }

  /** generateProductMediaRelationId: md5 of product id, media id and source position. */
  function RelationId(productId: SwId, img: Image, imageLinks: map<string, SwId>): SwId
    requires ImageKey(img) in imageLinks
  {
    MediaRelationId(productId, imageLinks[ImageKey(img)], img.position)
  }

  /** One iteration of the image loop. */
  function MediaStep(st: MediaState, img: Image, productId: SwId, allowed: Image -> bool,
                     imageLinks: map<string, SwId>): MediaState
  {
    if !Accepted(img, allowed, imageLinks) then st
    else
      var rel := RelationId(productId, img, imageLinks);
      var takeFallback := st.fallback == None || st.fallbackPosition > img.position;
      MediaState(
        Put(st.create, rel, MediaAssignment(rel, imageLinks[ImageKey(img)], st.newPosition)),
        st.newPosition + 1,
        if img.position == 0 then Some(rel) else st.cover,
        if takeFallback then Some(rel) else st.fallback,
        if takeFallback then img.position else st.fallbackPosition)
  }

  /** The loop over (already sorted) images. */
  function MediaFold(images: seq<Image>, productId: SwId, allowed: Image -> bool,
                     imageLinks: map<string, SwId>): MediaState
    decreases |images|
  {
    if images == [] then InitialMediaState
    else MediaStep(MediaFold(images[..|images| - 1], productId, allowed, imageLinks),
                   images[|images| - 1], productId, allowed, imageLinks)
  }

  /** The relation ids of the accepted images, in order. */
  function AcceptedRelationIds(images: seq<Image>, productId: SwId, allowed: Image -> bool,
                               imageLinks: map<string, SwId>): (r: seq<SwId>)
    ensures |r| <= |images|
    decreases |images|
  {
    if images == [] then []
    else
      var prev := AcceptedRelationIds(images[..|images| - 1], productId, allowed, imageLinks);
      var img := images[|images| - 1];
      if Accepted(img, allowed, imageLinks) then prev + [RelationId(productId, img, imageLinks)] else prev
  }

  /**
   * The create entries are keyed by the distinct relation ids in order of
   * first occurrence (a repeated relation id overwrites its entry in
   * place); every entry carries its own key as id; the position counter
   * counts the accepted images.
   */
  lemma {:induction false} MediaFoldKeys(images: seq<Image>, productId: SwId, allowed: Image -> bool,
                                         imageLinks: map<string, SwId>)
    ensures var st := MediaFold(images, productId, allowed, imageLinks);
      && EntryKeys(st.create) == Dedup(AcceptedRelationIds(images, productId, allowed, imageLinks))
      && st.newPosition == |AcceptedRelationIds(images, productId, allowed, imageLinks)|
      && (forall i | 0 <= i < |st.create| :: st.create[i].value.id == st.create[i].key)
    decreases |images|
  {
    if images != [] {
      var init := images[..|images| - 1];
      var img := images[|images| - 1];
      MediaFoldKeys(init, productId, allowed, imageLinks);
      var prev := MediaFold(init, productId, allowed, imageLinks);
      var rels := AcceptedRelationIds(init, productId, allowed, imageLinks);
      if Accepted(img, allowed, imageLinks) {
        var rel := RelationId(productId, img, imageLinks);
        var allRels := rels + [rel];
        assert allRels[..|allRels| - 1] == rels;
        var v := MediaAssignment(rel, imageLinks[ImageKey(img)], prev.newPosition);
        PutKeys(prev.create, rel, v);
        HasKeyIff(prev.create, rel);
        PutIds(prev.create, rel, v);
      }
    }
  }

  /** Put keeps "every entry's id is its key" when the new value's id is its key. */
  lemma {:induction false} PutIds(a: seq<Entry<SwId, MediaAssignment>>, k: SwId, v: MediaAssignment)
    requires forall i | 0 <= i < |a| :: a[i].value.id == a[i].key
    requires v.id == k
    ensures forall i | 0 <= i < |Put(a, k, v)| :: Put(a, k, v)[i].value.id == Put(a, k, v)[i].key
    decreases |a|
  {
    if a != [] && a[0].key != k {
      PutIds(a[1..], k, v);
      var r := Put(a, k, v);
      assert r == [a[0]] + Put(a[1..], k, v);
      assert forall i | 1 <= i < |r| :: r[i] == Put(a[1..], k, v)[i - 1];
    }
  }

  /**
   * When the accepted images yield distinct relation ids, the n-th accepted
   * image becomes the n-th entry, with new position n: positions run
   * 0, 1, 2, ... in the order of the (sorted) images.
   */
  lemma {:induction false} MediaFoldPositions(images: seq<Image>, productId: SwId, allowed: Image -> bool,
                                              imageLinks: map<string, SwId>)
    requires NoDup(AcceptedRelationIds(images, productId, allowed, imageLinks))
    ensures var st := MediaFold(images, productId, allowed, imageLinks);
      Numbered(st.create, AcceptedRelationIds(images, productId, allowed, imageLinks))
    decreases |images|
  {
    if images != [] {
      var init := images[..|images| - 1];
      var img := images[|images| - 1];
      var rels := AcceptedRelationIds(init, productId, allowed, imageLinks);
      var all := AcceptedRelationIds(images, productId, allowed, imageLinks);
      var prev := MediaFold(init, productId, allowed, imageLinks);
      if Accepted(img, allowed, imageLinks) {
        var rel := RelationId(productId, img, imageLinks);
        assert all == rels + [rel];
        NoDupPrefix(all, |rels|);
        NoDupLast(all);
        assert all[..|rels|] == rels;
        MediaFoldPositions(init, productId, allowed, imageLinks);
        MediaFoldKeys(init, productId, allowed, imageLinks);
        assert EntryKeys(prev.create) == rels;
        HasKeyIff(prev.create, rel);
        var e := Entry(rel, MediaAssignment(rel, imageLinks[ImageKey(img)], prev.newPosition));
        PutAbsent(prev.create, rel, e.value);
        NumberedAppend(prev.create, rels, e);
      } else {
        MediaFoldPositions(init, productId, allowed, imageLinks);
      }
    }
  }

  /** Entry `i` of `create` is keyed by `rels[i]` and sits at position `i`. */
  ghost predicate Numbered(create: seq<Entry<SwId, MediaAssignment>>, rels: seq<SwId>)
  {
    && |create| == |rels|
    && (forall i | 0 <= i < |rels| :: create[i].key == rels[i] && create[i].value.position == i)
  }

  lemma NumberedAppend(create: seq<Entry<SwId, MediaAssignment>>, rels: seq<SwId>, e: Entry<SwId, MediaAssignment>)
    requires Numbered(create, rels)
    requires e.value.position == |rels|
    ensures Numbered(create + [e], rels + [e.key])
  {
  }

  /**
   * The cover is the relation id of the LAST accepted image at position 0,
   * and there is none when no accepted image sits at position 0.
   */
  lemma MediaFoldCover(images: seq<Image>, productId: SwId, allowed: Image -> bool,
                       imageLinks: map<string, SwId>)
    ensures var st := MediaFold(images, productId, allowed, imageLinks);
      && (st.cover.None? <==>
            forall i | 0 <= i < |images| :: !(Accepted(images[i], allowed, imageLinks) && images[i].position == 0))
      && (st.cover.Some? ==>
            exists k | 0 <= k < |images| ::
              && Accepted(images[k], allowed, imageLinks) && images[k].position == 0
              && st.cover == Some(RelationId(productId, images[k], imageLinks))
              && forall i | k < i < |images| :: !(Accepted(images[i], allowed, imageLinks) && images[i].position == 0))
  {
    MediaFoldCoverNone(images, productId, allowed, imageLinks);
    MediaFoldCoverSome(images, productId, allowed, imageLinks);
  }

  /** An accepted image at position 0 among `images`. */
  predicate CoverCandidate(images: seq<Image>, i: int, allowed: Image -> bool, imageLinks: map<string, SwId>)
    requires 0 <= i < |images|
  {
    Accepted(images[i], allowed, imageLinks) && images[i].position == 0
  }

  lemma {:induction false} MediaFoldCoverNone(images: seq<Image>, productId: SwId, allowed: Image -> bool,
                                              imageLinks: map<string, SwId>)
    ensures MediaFold(images, productId, allowed, imageLinks).cover.None? <==>
      forall i | 0 <= i < |images| :: !CoverCandidate(images, i, allowed, imageLinks)
    decreases |images|
  {
    if images != [] {
      var init := images[..|images| - 1];
      var n := |images| - 1;
      MediaFoldCoverNone(init, productId, allowed, imageLinks);
      assert forall i | 0 <= i < |init| :: CoverCandidate(init, i, allowed, imageLinks) == CoverCandidate(images, i, allowed, imageLinks);
      var prev := MediaFold(init, productId, allowed, imageLinks);
      if !CoverCandidate(images, n, allowed, imageLinks) {
        assert MediaFold(images, productId, allowed, imageLinks).cover == prev.cover;
      }
    }
  }

  lemma {:induction false} MediaFoldCoverSome(images: seq<Image>, productId: SwId, allowed: Image -> bool,
                                              imageLinks: map<string, SwId>)
    ensures var st := MediaFold(images, productId, allowed, imageLinks);
      st.cover.Some? ==>
        exists k | 0 <= k < |images| ::
          && CoverCandidate(images, k, allowed, imageLinks)
          && st.cover == Some(RelationId(productId, images[k], imageLinks))
          && forall i | k < i < |images| :: !CoverCandidate(images, i, allowed, imageLinks)
    decreases |images|
  {
    if images != [] {
      var init := images[..|images| - 1];
      var n := |images| - 1;
      var st := MediaFold(images, productId, allowed, imageLinks);
      if CoverCandidate(images, n, allowed, imageLinks) {
        assert st.cover == Some(RelationId(productId, images[n], imageLinks));
      } else if st.cover.Some? {
        MediaFoldCoverSome(init, productId, allowed, imageLinks);
        var k :| 0 <= k < |init| && CoverCandidate(init, k, allowed, imageLinks)
          && st.cover == Some(RelationId(productId, init[k], imageLinks))
          && forall i | k < i < |init| :: !CoverCandidate(init, i, allowed, imageLinks);
        assert images[k] == init[k];
        forall i | k < i < |images| ensures !CoverCandidate(images, i, allowed, imageLinks) {
          if i < n {
            assert images[i] == init[i];
            assert !CoverCandidate(init, i, allowed, imageLinks);
          }
        }
        assert CoverCandidate(images, k, allowed, imageLinks);
      }
    }
  }

  /**
   * The fallback cover: on images sorted by position it is the relation id
   * of the first accepted image (the first with the lowest position), and
   * there is none when no image is accepted.
   */
  lemma MediaFoldFallback(images: seq<Image>, productId: SwId, allowed: Image -> bool,
                          imageLinks: map<string, SwId>)
    requires SortedByPosition(images)
    ensures var st := MediaFold(images, productId, allowed, imageLinks);
      && (st.fallback.None? <==> forall i | 0 <= i < |images| :: !Accepted(images[i], allowed, imageLinks))
      && (st.fallback.Some? ==>
            exists k | 0 <= k < |images| ::
              && Accepted(images[k], allowed, imageLinks)
              && (forall i | 0 <= i < k :: !Accepted(images[i], allowed, imageLinks))
              && st.fallback == Some(RelationId(productId, images[k], imageLinks))
              && st.fallbackPosition == images[k].position)
  {
    MediaFoldFallbackNone(images, productId, allowed, imageLinks);
    MediaFoldFallbackSome(images, productId, allowed, imageLinks);
  }

  lemma {:induction false} MediaFoldFallbackNone(images: seq<Image>, productId: SwId, allowed: Image -> bool,
                                                 imageLinks: map<string, SwId>)
    ensures MediaFold(images, productId, allowed, imageLinks).fallback.None? <==>
      forall i | 0 <= i < |images| :: !Accepted(images[i], allowed, imageLinks)
    decreases |images|
  {
    if images != [] {
      var init := images[..|images| - 1];
      MediaFoldFallbackNone(init, productId, allowed, imageLinks);
      assert forall i | 0 <= i < |init| :: init[i] == images[i];
    }
  }

  /** Image `k` is the first accepted one. */
  predicate FirstAccepted(images: seq<Image>, k: int, allowed: Image -> bool, imageLinks: map<string, SwId>)
  {
    && 0 <= k < |images|
    && Accepted(images[k], allowed, imageLinks)
    && (forall i | 0 <= i < k :: !Accepted(images[i], allowed, imageLinks))
  }

  lemma {:induction false} MediaFoldFallbackSome(images: seq<Image>, productId: SwId, allowed: Image -> bool,
                                                 imageLinks: map<string, SwId>)
    requires SortedByPosition(images)
    ensures var st := MediaFold(images, productId, allowed, imageLinks);
      st.fallback.Some? ==>
        exists k | FirstAccepted(images, k, allowed, imageLinks) ::
          && st.fallback == Some(RelationId(productId, images[k], imageLinks))
          && st.fallbackPosition == images[k].position
    decreases |images|
  {
    if images != [] {
      var init := images[..|images| - 1];
      var n := |images| - 1;
      assert forall i | 0 <= i < |init| :: init[i] == images[i];
      assert SortedByPosition(init);
      var prev := MediaFold(init, productId, allowed, imageLinks);
      if prev.fallback.Some? {
        MediaFoldFallbackSome(init, productId, allowed, imageLinks);
        var k :| FirstAccepted(init, k, allowed, imageLinks)
          && prev.fallback == Some(RelationId(productId, init[k], imageLinks))
          && prev.fallbackPosition == init[k].position;
        assert images[k] == init[k];
        assert images[k].position <= images[n].position;
        assert FirstAccepted(images, k, allowed, imageLinks);
      } else if Accepted(images[n], allowed, imageLinks) {
        MediaFoldFallbackNone(init, productId, allowed, imageLinks);
        assert FirstAccepted(images, n, allowed, imageLinks);
      }
    }
  }

  /** `$coverId ?? $fallbackCoverId`: the cover stored for the coverId field. */
  function StoredCover(st: MediaState): Option<SwId>
  {
    if st.cover.Some? then st.cover else st.fallback
  }

  /**
   * On images sorted by position, the relation ids of the accepted images
   * come in ascending source position.
   */
  lemma {:induction false} AcceptedRelationIdsSorted(images: seq<Image>, productId: SwId, allowed: Image -> bool,
                                                     imageLinks: map<string, SwId>)
    requires SortedByPosition(images)
    ensures forall i | 0 <= i < |AcceptedRelationIds(images, productId, allowed, imageLinks)| ::
      AcceptedRelationIds(images, productId, allowed, imageLinks)[i].MediaRelationId?
    ensures forall i, j | 0 <= i < j < |AcceptedRelationIds(images, productId, allowed, imageLinks)| ::
      AcceptedRelationIds(images, productId, allowed, imageLinks)[i].position
        <= AcceptedRelationIds(images, productId, allowed, imageLinks)[j].position
    ensures images != [] ==>
      forall i | 0 <= i < |AcceptedRelationIds(images, productId, allowed, imageLinks)| ::
        AcceptedRelationIds(images, productId, allowed, imageLinks)[i].position <= images[|images| - 1].position
    decreases |images|
  {
    if images != [] {
      var init := images[..|images| - 1];
      var n := |images| - 1;
      assert forall i | 0 <= i < |init| :: init[i] == images[i];
      assert SortedByPosition(init);
      AcceptedRelationIdsSorted(init, productId, allowed, imageLinks);
      var prev := AcceptedRelationIds(init, productId, allowed, imageLinks);
      var rels := AcceptedRelationIds(images, productId, allowed, imageLinks);
      assert rels == if Accepted(images[n], allowed, imageLinks)
        then prev + [RelationId(productId, images[n], imageLinks)] else prev;
      if init != [] {
        assert images[n - 1].position <= images[n].position;
      }
      forall i | 0 <= i < |prev|
        ensures rels[i] == prev[i] && rels[i].MediaRelationId?
        ensures rels[i].position <= images[n].position
      {
      }
    }
  }

  /**
   * The image loop of the media field, over the images already sorted by
   * position: each allowed and uploaded image yields an assignment at the
   * next position, and the cover and fallback cover are tracked on the way.
   */
  method MediaLoop(images: seq<Image>, productId: SwId, allowed: Image -> bool,
                   imageLinks: map<string, SwId>)
    returns (st: MediaState)
    ensures st == MediaFold(images, productId, allowed, imageLinks)
  {
    var create: seq<Entry<SwId, MediaAssignment>> := [];
    var newPosition := 0;
    var cover: Option<SwId> := None;
    var fallback: Option<SwId> := None;
    var fallbackPosition := 0;
    for i := 0 to |images|
      invariant MediaState(create, newPosition, cover, fallback, fallbackPosition)
        == MediaFold(images[..i], productId, allowed, imageLinks)
    {
      assert images[..i + 1][..i] == images[..i];
      var img := images[i];
      if allowed(img) && ImageKey(img) in imageLinks {
        var rel := MediaRelationId(productId, imageLinks[ImageKey(img)], img.position);
        create := Put(create, rel, MediaAssignment(rel, imageLinks[ImageKey(img)], newPosition));
        newPosition := newPosition + 1;
        if fallback == None || fallbackPosition > img.position {
          fallback := Some(rel);
          fallbackPosition := img.position;
        }
        if img.position == 0 {
          cover := Some(rel);
        }
      }
    }
    assert images[..|images|] == images;
    st := MediaState(create, newPosition, cover, fallback, fallbackPosition);
  }

  function MediaIdOf(m: ProductMedia): SwId { m.id }

  lemma {:induction false} UnsetSubset<K, V>(a: seq<Entry<K, V>>, k: K)
    ensures forall e | e in Unset(a, k) :: e in a
    decreases |a|
  {
    if a != [] {
      UnsetSubset(a[1..], k);
    }
  }

  /**
   * The second half of the media field: every existing assignment whose id
   * is not planned is queued for deletion, and every planned one that
   * already exists is dropped from the create list. Keyed by assignment id,
   * this is exactly the reconciliation walk of the planned ids against the
   * existing assignments.
   */
  method ExistingMediaWalk(create: seq<Entry<SwId, MediaAssignment>>, existing: seq<ProductMedia>,
                           productId: SwId)
    returns (remaining: seq<Entry<SwId, MediaAssignment>>, deletes: seq<MediaDelete>)
    requires NoDup(EntryKeys(create))
    ensures EntryKeys(remaining) == Walk(EntryKeys(create), existing, MediaIdOf).toCreate
    ensures |deletes| == |Walk(EntryKeys(create), existing, MediaIdOf).toDelete|
    ensures forall j | 0 <= j < |deletes| ::
      var m := Walk(EntryKeys(create), existing, MediaIdOf).toDelete[j];
      deletes[j] == MediaDelete(m.id, productId, m.mediaId)
    ensures forall e | e in remaining :: e in create
  {
    remaining := create;
    deletes := [];
    ghost var gone: seq<ProductMedia> := [];
    for i := 0 to |existing|
      invariant EntryKeys(remaining) == Walk(EntryKeys(create), existing[..i], MediaIdOf).toCreate
      invariant gone == Walk(EntryKeys(create), existing[..i], MediaIdOf).toDelete
      invariant NoDup(EntryKeys(remaining))
      invariant |deletes| == |gone|
      invariant forall j | 0 <= j < |deletes| :: deletes[j] == MediaDelete(gone[j].id, productId, gone[j].mediaId)
      invariant forall e | e in remaining :: e in create
    {
      assert existing[..i + 1][..i] == existing[..i];
      var m := existing[i];
      HasKeyIff(remaining, m.id);
      if !HasKey(remaining, m.id) {
        deletes := deletes + [MediaDelete(m.id, productId, m.mediaId)];
        gone := gone + [m];
      }
      UnsetKeys(remaining, m.id);
      UnsetNoDup(remaining, m.id);
      UnsetSubset(remaining, m.id);
      remaining := Unset(remaining, m.id);
    }
    assert existing[..|existing|] == existing;
  }
}
