/**
 * The reconciliation rule shared by the relation fields of the product
 * mapping (categories, tags, visibilities, properties, options, media).
 *
 * A closure first builds the list of target ids the product should be
 * related to ("desired"). It then walks the relations the existing product
 * already has. An existing relation whose key is not in the CURRENT create
 * list is queued for deletion; if the key is in the create list, its first
 * occurrence is removed from that list (array_search + unset). Whatever
 * remains in the create list is written.
 */
module Reconcile {
  import opened Common

  /** What one closure produces: the keys still to create, the existing relations to delete. */
  datatype Diff<K, R> = Diff(toCreate: seq<K>, toDelete: seq<R>)

  /** The key of every element of s, in order. */
  function Keys<R, K>(s: seq<R>, key: R -> K): (ks: seq<K>)
    ensures |ks| == |s|
    ensures forall i | 0 <= i < |s| :: ks[i] == key(s[i])
    decreases |s|
  {
    if s == [] then [] else Keys(s[..|s| - 1], key) + [key(s[|s| - 1])]
  }

  lemma {:induction false} KeysConcat<R, K>(a: seq<R>, b: seq<R>, key: R -> K)
    ensures Keys(a + b, key) == Keys(a, key) + Keys(b, key)
  {
    var l := Keys(a + b, key);
    var r := Keys(a, key) + Keys(b, key);
    assert |l| == |r|;
    forall i | 0 <= i < |l|
      ensures l[i] == r[i]
    {
      if i < |a| {
        assert (a + b)[i] == a[i];
      } else {
        assert (a + b)[i] == b[i - |a|];
      }
    }
  }

  /** `array_search` + `unset`: drop the first occurrence of x, keep the order of the rest. */
  function RemoveFirst<K(==)>(s: seq<K>, x: K): (r: seq<K>)
    ensures x !in s ==> r == s
    ensures x in s ==> |r| == |s| - 1
    decreases |s|
  {
    if s == [] then []
    else if s[0] == x then s[1..]
    else [s[0]] + RemoveFirst(s[1..], x)
  }

  lemma {:induction false} RemoveFirstMultiset<K>(s: seq<K>, x: K)
    ensures multiset(RemoveFirst(s, x)) == multiset(s) - multiset{x}
    decreases |s|
  {
    if s == [] {
    } else if s[0] == x {
      assert s == [s[0]] + s[1..];
    } else {
      RemoveFirstMultiset(s[1..], x);
      assert s == [s[0]] + s[1..];
    }
  }

  /**
   * The state of a closure after it has walked `existing` in order,
   * starting from the create list `desired`.
   */
  function Walk<K(==), R>(desired: seq<K>, existing: seq<R>, key: R -> K): (d: Diff<K, R>)
    decreases |existing|
  {
    if existing == [] then Diff(desired, [])
    else
      var prev := Walk(desired, existing[..|existing| - 1], key);
      var x := existing[|existing| - 1];
      Diff(RemoveFirst(prev.toCreate, key(x)),
           prev.toDelete + (if key(x) in prev.toCreate then [] else [x]))
  }

  /**
   * The loop of a reconciliation closure. Its result is the state Walk
   * describes; what that state means is proved in the lemmas below.
   */
  method ReconcileLoop<K(==), R>(desired: seq<K>, existing: seq<R>, key: R -> K)
    returns (toCreate: seq<K>, toDelete: seq<R>)
    ensures Diff(toCreate, toDelete) == Walk(desired, existing, key)
  {
    toCreate := desired;
    toDelete := [];
    var i := 0;
    while i < |existing|
      invariant 0 <= i <= |existing|
      invariant Diff(toCreate, toDelete) == Walk(desired, existing[..i], key)
    {
      var x := existing[i];
      if key(x) !in toCreate {
        toDelete := toDelete + [x];
      }
      toCreate := RemoveFirst(toCreate, key(x));
      assert existing[..i + 1][..i] == existing[..i];
      i := i + 1;
    }
    assert existing[..i] == existing;
  }

  /**
   * The create list is desired minus existing (one occurrence removed per
   * existing key); the deletions are existing minus desired.
   */
  lemma {:induction false} WalkCounts<K, R>(desired: seq<K>, existing: seq<R>, key: R -> K)
    ensures multiset(Walk(desired, existing, key).toCreate)
         == multiset(desired) - multiset(Keys(existing, key))
    ensures multiset(Keys(Walk(desired, existing, key).toDelete, key))
         == multiset(Keys(existing, key)) - multiset(desired)
    decreases |existing|
  {
    if existing != [] {
      var e' := existing[..|existing| - 1];
      var x := existing[|existing| - 1];
      WalkCounts(desired, e', key);
      var prev := Walk(desired, e', key);
      assert Keys(existing, key) == Keys(e', key) + [key(x)];
      RemoveFirstMultiset(prev.toCreate, key(x));
      var added := if key(x) in prev.toCreate then [] else [x];
      KeysConcat(prev.toDelete, added, key);
      assert multiset(Keys(added, key)) == if key(x) in prev.toCreate then multiset{} else multiset{key(x)};
      MultisetStep(multiset(desired), multiset(Keys(e', key)), multiset(prev.toCreate),
                   multiset(Keys(prev.toDelete, key)), key(x));
    }
  }

  /** One step of the walk, on counts: c = A - B and d = B - A are kept for B + {x}. */
  lemma MultisetStep<K>(A: multiset<K>, B: multiset<K>, c: multiset<K>, d: multiset<K>, x: K)
    requires c == A - B && d == B - A
    ensures c - multiset{x} == A - (B + multiset{x})
    ensures (if x in c then d else d + multiset{x}) == (B + multiset{x}) - A
  {
    forall y
      ensures (c - multiset{x})[y] == (A - (B + multiset{x}))[y]
    {
    }
    forall y
      ensures (if x in c then d else d + multiset{x})[y] == ((B + multiset{x}) - A)[y]
    {
    }
  }

  /**
   * Applying the result converges: the existing keys, without the deleted
   * ones and with the created ones, are the desired keys (as a multiset).
   */
  lemma {:induction false} WalkConverges<K, R>(desired: seq<K>, existing: seq<R>, key: R -> K)
    ensures var d := Walk(desired, existing, key);
      multiset(Keys(existing, key)) - multiset(Keys(d.toDelete, key)) + multiset(d.toCreate)
      == multiset(desired)
  {
    WalkCounts(desired, existing, key);
    var d := Walk(desired, existing, key);
    MultisetConverge(multiset(desired), multiset(Keys(existing, key)),
                     multiset(d.toCreate), multiset(Keys(d.toDelete, key)));
  }

  /** B - (B - A) + (A - B) == A, on counts. */
  lemma MultisetConverge<K>(A: multiset<K>, B: multiset<K>, c: multiset<K>, d: multiset<K>)
    requires c == A - B && d == B - A
    ensures B - d + c == A
  {
    forall y
      ensures (B - d + c)[y] == A[y]
    {
    }
  }

  /** When the product already has exactly the desired relations, nothing is created or deleted. */
  lemma {:induction false} WalkIdle<K, R>(desired: seq<K>, existing: seq<R>, key: R -> K)
    requires multiset(Keys(existing, key)) == multiset(desired)
    ensures Walk(desired, existing, key).toCreate == []
    ensures Walk(desired, existing, key).toDelete == []
  {
    WalkCounts(desired, existing, key);
    var d := Walk(desired, existing, key);
    assert multiset(d.toCreate) == multiset{};
    assert multiset(Keys(d.toDelete, key)) == multiset{};
    assert |Keys(d.toDelete, key)| == |d.toDelete|;
  }

  /** Every created key is desired and every deletion is an existing relation. */
  lemma {:induction false} WalkSubsets<K, R>(desired: seq<K>, existing: seq<R>, key: R -> K)
    ensures forall k | k in Walk(desired, existing, key).toCreate :: k in desired
    ensures forall r | r in Walk(desired, existing, key).toDelete :: r in existing
    decreases |existing|
  {
    if existing != [] {
      var e' := existing[..|existing| - 1];
      WalkSubsets(desired, e', key);
      var prev := Walk(desired, e', key);
      RemoveFirstMultiset(prev.toCreate, key(existing[|existing| - 1]));
      forall k | k in Walk(desired, existing, key).toCreate
        ensures k in desired
      {
        assert k in multiset(Walk(desired, existing, key).toCreate);
        assert k in multiset(prev.toCreate);
      }
    }
  }

  /**
   * When the existing relations have distinct keys, an existing relation is
   * deleted exactly when its key is not desired.
   */
  lemma {:induction false} DeletedExactlyUndesired<K, R>(desired: seq<K>, existing: seq<R>, key: R -> K, j: int)
    requires NoDup(Keys(existing, key))
    requires 0 <= j < |existing|
    ensures existing[j] in Walk(desired, existing, key).toDelete <==> key(existing[j]) !in desired
  {
    WalkCounts(desired, existing, key);
    WalkSubsets(desired, existing, key);
    DeletionsByKey(desired, existing, Walk(desired, existing, key).toDelete, key, j);
  }

  /** The same, for any deletion list drawn from `existing` whose keys count existing minus desired. */
  lemma DeletionsByKey<K, R>(desired: seq<K>, existing: seq<R>, deleted: seq<R>, key: R -> K, j: int)
    requires NoDup(Keys(existing, key))
    requires 0 <= j < |existing|
    requires forall r | r in deleted :: r in existing
    requires multiset(Keys(deleted, key)) == multiset(Keys(existing, key)) - multiset(desired)
    ensures existing[j] in deleted <==> key(existing[j]) !in desired
  {
    var k := key(existing[j]);
    NoDupCountOne(Keys(existing, key), j);
    CountOneDifference(multiset(desired), multiset(Keys(existing, key)), multiset(Keys(deleted, key)), k);
    if existing[j] in deleted {
      KeyOfMember(deleted, key, existing[j]);
    }
    if k !in desired {
      var r := MemberOfKey(deleted, key, k);
      var m :| 0 <= m < |existing| && existing[m] == r;
      SameKeySame(existing, key, m, j);
    }
  }

  /** A key counted once in B is in B - A exactly when A lacks it. */
  lemma CountOneDifference<K>(A: multiset<K>, B: multiset<K>, D: multiset<K>, k: K)
    requires D == B - A
    requires B[k] == 1
    ensures k in D <==> k !in A
  {
  }

  lemma KeyOfMember<R, K>(s: seq<R>, key: R -> K, r: R)
    requires r in s
    ensures key(r) in Keys(s, key)
  {
    var m :| 0 <= m < |s| && s[m] == r;
    assert Keys(s, key)[m] == key(r);
  }

  lemma MemberOfKey<R, K>(s: seq<R>, key: R -> K, k: K) returns (r: R)
    requires k in Keys(s, key)
    ensures r in s && key(r) == k
  {
    var m :| 0 <= m < |s| && Keys(s, key)[m] == k;
    r := s[m];
  }

  /** With distinct keys, the key determines the position. */
  lemma SameKeySame<R, K>(s: seq<R>, key: R -> K, m: int, j: int)
    requires NoDup(Keys(s, key))
    requires 0 <= j < |s| && 0 <= m < |s|
    requires key(s[m]) == key(s[j])
    ensures m == j
  {
    var ks := Keys(s, key);
    assert ks[m] == ks[j];
    NoDupIndex(ks, m, j);
  }

  lemma NoDupIndex<T>(s: seq<T>, a: int, b: int)
    requires NoDup(s)
    requires 0 <= a < |s| && 0 <= b < |s| && s[a] == s[b]
    ensures a == b
  {
  }

  lemma {:induction false} NoDupCountOne<K>(s: seq<K>, j: int)
    requires NoDup(s)
    requires 0 <= j < |s|
    ensures multiset(s)[s[j]] == 1
  {
    assert s == s[..j] + [s[j]] + s[j + 1..];
    forall m | 0 <= m < j
      ensures s[..j][m] != s[j]
    {
    }
    var tail := s[j + 1..];
    forall m | 0 <= m < |tail|
      ensures tail[m] != s[j]
    {
      assert tail[m] == s[j + 1 + m];
    }
    assert s[j] !in s[..j];
    assert s[j] !in s[j + 1..];
    assert multiset(s[..j])[s[j]] == 0;
    assert multiset(s[j + 1..])[s[j]] == 0;
  }

  /** The identity key, for relations that are plain id lists. */
  function SameId(x: SwId): SwId { x }

  /**
   * For plain id lists (categories, tags, properties, options): the created
   * ids are desired minus existing, the deleted ids existing minus desired.
   */
  lemma IdWalkCounts(desired: seq<SwId>, existing: seq<SwId>)
    ensures multiset(Walk(desired, existing, SameId).toCreate) == multiset(desired) - multiset(existing)
    ensures multiset(Walk(desired, existing, SameId).toDelete) == multiset(existing) - multiset(desired)
  {
    WalkCounts(desired, existing, SameId);
    IdKeys(existing);
    IdKeys(Walk(desired, existing, SameId).toDelete);
  }

  lemma IdKeys(s: seq<SwId>)
    ensures Keys(s, SameId) == s
  {
  }

  /**
   * On a PHP array with distinct keys, unset by key removes that key from
   * the key list exactly as RemoveFirst does.
   */
  lemma {:induction false} UnsetKeys<K, V>(a: seq<Entry<K, V>>, k: K)
    requires NoDup(EntryKeys(a))
    ensures EntryKeys(Unset(a, k)) == RemoveFirst(EntryKeys(a), k)
    decreases |a|
  {
    if a != [] {
      assert EntryKeys(a) == [a[0].key] + EntryKeys(a[1..]);
      NoDupTail(EntryKeys(a));
      assert EntryKeys(a)[1..] == EntryKeys(a[1..]);
      if a[0].key == k {
        HasKeyIff(a[1..], k);
        UnsetGone(a[1..], k);
        UnsetAbsent(a[1..], k);
      } else {
        UnsetKeys(a[1..], k);
        assert Unset(a, k) == [a[0]] + Unset(a[1..], k);
        assert EntryKeys(Unset(a, k)) == [a[0].key] + EntryKeys(Unset(a[1..], k));
      }
    }
  }

  lemma {:induction false} UnsetAbsent<K, V>(a: seq<Entry<K, V>>, k: K)
    requires !HasKey(a, k)
    ensures Unset(a, k) == a
    decreases |a|
  {
    if a != [] {
      UnsetAbsent(a[1..], k);
    }
  }
}
