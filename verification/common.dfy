/**
 * Shared vocabulary of the product sync model: optional values, the two id
 * spaces (Plenty ids and Shopware ids), scalar payload values and a few
 * sequence helpers that stand for PHP array built-ins.
 */
module Common {

  datatype Option<+T> = None | Some(value: T)

  /** Ids of the source system (plentymarkets) are integers. */
  type PlentyId = int

  /**
   * Ids of the target system (Shopware). Ids read from the target are hex
   * strings. The connector invents two other kinds of id, kept apart so
   * that the model can say what makes them distinct:
   *  - MediaRelationId(p, m, pos) stands for md5(p . '_' . m . '_' . pos),
   *    the product-media relation id, modelled as injective in its inputs;
   *  - RandomHex(n) stands for the n-th value drawn from Uuid::randomHex.
   */
  datatype SwId =
    | Hex(hex: string)
    | MediaRelationId(productId: SwId, mediaId: SwId, position: int)
    | RandomHex(serial: nat)

  /** Scalar values found in the source payload. */
  datatype Value = Null | Bool(b: bool) | Int(i: int) | Str(s: string)

  predicate NoDup<T(==)>(s: seq<T>)
  {
    forall i, j | 0 <= i < j < |s| :: s[i] != s[j]
  }

  /** PHP's empty() on a scalar: null, false, 0, '' and '0' are empty. */
  predicate IsEmptyValue(v: Value)
  {
    match v
    case Null => true
    case Bool(b) => !b
    case Int(i) => i == 0
    case Str(s) => s == "" || s == "0"
  }

  /**
   * array_values(array_unique(s)): the first occurrence of every element,
   * in order of first occurrence.
   */
  function Dedup<T(==)>(s: seq<T>): (r: seq<T>)
    ensures NoDup(r)
    ensures forall i | 0 <= i < |r| :: r[i] in s
    ensures forall i | 0 <= i < |s| :: s[i] in r
    ensures |r| <= |s|
    decreases |s|
  {
    if s == [] then []
    else
      var d := Dedup(s[..|s| - 1]);
      assert s == s[..|s| - 1] + [s[|s| - 1]];
      if s[|s| - 1] in d then d else d + [s[|s| - 1]]
  }

  /** The elements of s that satisfy p, in order. */
  function Filter<T>(s: seq<T>, p: T -> bool): (r: seq<T>)
    decreases |s|
  {
    if s == [] then [] else Filter(s[..|s| - 1], p) + (if p(s[|s| - 1]) then [s[|s| - 1]] else [])
  }

  lemma {:induction false} FilterMembership<T>(s: seq<T>, p: T -> bool)
    ensures forall i | 0 <= i < |Filter(s, p)| :: Filter(s, p)[i] in s && p(Filter(s, p)[i])
    ensures forall i | 0 <= i < |s| && p(s[i]) :: s[i] in Filter(s, p)
    ensures |Filter(s, p)| <= |s|
    decreases |s|
  {
    if s != [] {
      FilterMembership(s[..|s| - 1], p);
      assert s == s[..|s| - 1] + [s[|s| - 1]];
    }
  }

  lemma {:induction false} FilterConcat<T>(a: seq<T>, b: seq<T>, p: T -> bool)
    ensures Filter(a + b, p) == Filter(a, p) + Filter(b, p)
    decreases |b|
  {
    if b == [] {
      assert a + b == a;
    } else {
      FilterConcat(a, b[..|b| - 1], p);
      assert (a + b)[..|a + b| - 1] == a + b[..|b| - 1];
    }
  }

  function DigitChar(d: nat): char
    requires d < 10
  {
    "0123456789"[d]
  }

  function DigitString(n: nat): (s: string)
    ensures |s| >= 1
    decreases n
  {
    if n < 10 then [DigitChar(n)] else DigitString(n / 10) + [DigitChar(n % 10)]
  }

  /** PHP's string conversion of an integer (decimal, leading '-' when negative). */
  function DecimalString(i: int): string
  {
    if i < 0 then "-" + DigitString(-i) else DigitString(i)
  }

  /**
   * PHP's explode(sep, s) for a non-empty separator: s cut at every
   * left-most, non-overlapping occurrence of sep.
   */
  function Explode(sep: string, s: string): (parts: seq<string>)
    requires |sep| > 0
    ensures |parts| >= 1
    decreases |s|
  {
    if |s| < |sep| then [s]
    else if s[..|sep|] == sep then [""] + Explode(sep, s[|sep|..])
    else
      var rest := Explode(sep, s[1..]);
      [[s[0]] + rest[0]] + rest[1..]
  }

  /** PHP's implode(sep, parts). */
  function Implode(sep: string, parts: seq<string>): string
    requires |parts| >= 1
    decreases |parts|
  {
    if |parts| == 1 then parts[0] else parts[0] + sep + Implode(sep, parts[1..])
  }

  /** Joining the pieces of explode with the same separator gives the input back. */
  lemma {:induction false} ImplodeExplode(sep: string, s: string)
    requires |sep| > 0
    ensures Implode(sep, Explode(sep, s)) == s
    decreases |s|
  {
    if |s| < |sep| {
    } else if s[..|sep|] == sep {
      ImplodeExplode(sep, s[|sep|..]);
      var rest := Explode(sep, s[|sep|..]);
      assert Explode(sep, s) == [""] + rest;
      assert ([""] + rest)[1..] == rest;
      assert s == sep + s[|sep|..];
    } else {
      ImplodeExplode(sep, s[1..]);
      var rest := Explode(sep, s[1..]);
      var parts := [[s[0]] + rest[0]] + rest[1..];
      assert Explode(sep, s) == parts;
      if |rest| == 1 {
        assert Implode(sep, parts) == [s[0]] + rest[0];
      } else {
        assert parts[1..] == rest[1..];
        assert Implode(sep, parts) == [s[0]] + rest[0] + sep + Implode(sep, rest[1..]);
        assert Implode(sep, rest) == rest[0] + sep + Implode(sep, rest[1..]);
      }
      assert s == [s[0]] + s[1..];
    }
  }

  /**
   * A PHP array with explicit keys, in iteration order. PHP keeps the
   * insertion order of keys; assigning to an existing key keeps its place,
   * assigning to a new key appends it.
   */
  datatype Entry<K, V> = Entry(key: K, value: V)

  function EntryKeys<K, V>(a: seq<Entry<K, V>>): (ks: seq<K>)
    ensures |ks| == |a|
    ensures forall i | 0 <= i < |a| :: ks[i] == a[i].key
    decreases |a|
  {
    if a == [] then [] else [a[0].key] + EntryKeys(a[1..])
  }

  function EntryValues<K, V>(a: seq<Entry<K, V>>): (vs: seq<V>)
    ensures |vs| == |a|
    ensures forall i | 0 <= i < |a| :: vs[i] == a[i].value
    decreases |a|
  {
    if a == [] then [] else [a[0].value] + EntryValues(a[1..])
  }

  lemma EntryValuesSnoc<K, V>(a: seq<Entry<K, V>>, e: Entry<K, V>)
    ensures EntryValues(a + [e]) == EntryValues(a) + [e.value]
  {
    var l := EntryValues(a + [e]);
    var r := EntryValues(a) + [e.value];
    forall i | 0 <= i < |l| ensures l[i] == r[i] {
      if i < |a| {
        assert r[i] == EntryValues(a)[i];
      }
    }
  }

  /** array_key_exists */
  predicate HasKey<K(==), V>(a: seq<Entry<K, V>>, k: K)
    decreases |a|
  {
    a != [] && (a[0].key == k || HasKey(a[1..], k))
  }

  lemma {:induction false} HasKeyIff<K, V>(a: seq<Entry<K, V>>, k: K)
    ensures HasKey(a, k) <==> k in EntryKeys(a)
    decreases |a|
  {
    if a != [] {
      HasKeyIff(a[1..], k);
      assert EntryKeys(a) == [a[0].key] + EntryKeys(a[1..]);
    }
  }

  /** $a[$k] for a key that is present (the first entry with that key). */
  function Get<K(==), V>(a: seq<Entry<K, V>>, k: K): V
    requires HasKey(a, k)
    decreases |a|
  {
    if a[0].key == k then a[0].value else Get(a[1..], k)
  }

  /** $a[$k] = $v: overwrite in place when the key exists, append otherwise. */
  function Put<K(==), V>(a: seq<Entry<K, V>>, k: K, v: V): (r: seq<Entry<K, V>>)
    decreases |a|
  {
    if a == [] then [Entry(k, v)]
    else if a[0].key == k then [Entry(k, v)] + a[1..]
    else [a[0]] + Put(a[1..], k, v)
  }

  /** unset($a[$k]) */
  function Unset<K(==), V>(a: seq<Entry<K, V>>, k: K): (r: seq<Entry<K, V>>)
    decreases |a|
  {
    if a == [] then []
    else if a[0].key == k then Unset(a[1..], k)
    else [a[0]] + Unset(a[1..], k)
  }

  lemma NoDupTail<T>(s: seq<T>)
    requires NoDup(s) && s != []
    ensures NoDup(s[1..]) && s[0] !in s[1..]
  {
    forall i, j | 0 <= i < j < |s[1..]|
      ensures s[1..][i] != s[1..][j]
    {
      assert s[1..][i] == s[i + 1] && s[1..][j] == s[j + 1];
    }
    var t := s[1..];
    forall m | 0 <= m < |t|
      ensures t[m] != s[0]
    {
      assert t[m] == s[m + 1];
    }
  }

  lemma NoDupPrefix<T>(s: seq<T>, n: int)
    requires NoDup(s) && 0 <= n <= |s|
    ensures NoDup(s[..n])
  {
  }

  /** In a list without duplicates, the last element is not among the others. */
  lemma NoDupLast<T>(s: seq<T>)
    requires NoDup(s) && s != []
    ensures s[|s| - 1] !in s[..|s| - 1]
  {
  }

  lemma EntryKeysPrefix<K, V>(a: seq<Entry<K, V>>, n: int)
    requires 0 <= n <= |a|
    ensures EntryKeys(a[..n]) == EntryKeys(a)[..n]
  {
  }

  /** Distinct keys stay distinct without the last entry. */
  lemma DistinctKeysInit<K, V>(a: seq<Entry<K, V>>)
    requires NoDup(EntryKeys(a))
    requires a != []
    ensures NoDup(EntryKeys(a[..|a| - 1]))
  {
    EntryKeysPrefix(a, |a| - 1);
    NoDupPrefix(EntryKeys(a), |a| - 1);
  }

  lemma DistinctKeysDiffer<K, V>(a: seq<Entry<K, V>>, i: int, j: int)
    requires NoDup(EntryKeys(a))
    requires 0 <= i < j < |a|
    ensures a[i].key != a[j].key
  {
    var ks := EntryKeys(a);
    assert ks[i] == a[i].key && ks[j] == a[j].key;
  }

  lemma DistinctKeysLast<K, V>(a: seq<Entry<K, V>>)
    requires NoDup(EntryKeys(a))
    requires a != []
    ensures a[|a| - 1].key !in EntryKeys(a[..|a| - 1])
  {
    var ks := EntryKeys(a);
    var n := |a| - 1;
    EntryKeysPrefix(a, n);
    NoDupLast(ks);
    assert ks[n] == a[n].key;
  }

  lemma NoDupCons<T>(x: T, s: seq<T>)
    requires NoDup(s) && x !in s
    ensures NoDup([x] + s)
  {
    var r := [x] + s;
    forall i, j | 0 <= i < j < |r|
      ensures r[i] != r[j]
    {
      assert r[j] == s[j - 1];
      if i > 0 {
        assert r[i] == s[i - 1];
      }
    }
  }

  /**
   * Assigning a key keeps an existing key in its place, appends a new key,
   * and keeps the keys distinct.
   */
  lemma PutKeys<K, V>(a: seq<Entry<K, V>>, k: K, v: V)
    ensures HasKey(a, k) ==> EntryKeys(Put(a, k, v)) == EntryKeys(a)
    ensures !HasKey(a, k) ==> EntryKeys(Put(a, k, v)) == EntryKeys(a) + [k]
    ensures NoDup(EntryKeys(a)) ==> NoDup(EntryKeys(Put(a, k, v)))
  {
    PutKeysShape(a, k, v);
    if NoDup(EntryKeys(a)) {
      if HasKey(a, k) {
        assert EntryKeys(Put(a, k, v)) == EntryKeys(a);
      } else {
        HasKeyIff(a, k);
        NoDupSnoc(EntryKeys(a), k);
      }
    }
  }

  /** $a[$k] = $v keeps the key order and appends a new key at the end. */
  lemma {:induction false} PutKeysShape<K, V>(a: seq<Entry<K, V>>, k: K, v: V)
    ensures HasKey(a, k) ==> EntryKeys(Put(a, k, v)) == EntryKeys(a)
    ensures !HasKey(a, k) ==> EntryKeys(Put(a, k, v)) == EntryKeys(a) + [k]
    decreases |a|
  {
    if a != [] && a[0].key != k {
      PutKeysShape(a[1..], k, v);
      var p := Put(a[1..], k, v);
      assert Put(a, k, v) == [a[0]] + p;
      assert EntryKeys(Put(a, k, v)) == [a[0].key] + EntryKeys(p);
      assert EntryKeys(a) == [a[0].key] + EntryKeys(a[1..]);
    } else if a != [] {
      assert EntryKeys(Put(a, k, v)) == [k] + EntryKeys(a[1..]);
      assert EntryKeys(a) == [k] + EntryKeys(a[1..]);
    }
  }

  lemma NoDupSnoc<T>(s: seq<T>, x: T)
    requires NoDup(s) && x !in s
    ensures NoDup(s + [x])
  {
    var t := s + [x];
    forall i, j | 0 <= i < j < |t| ensures t[i] != t[j] {
      if j < |s| {
        assert t[i] == s[i] && t[j] == s[j];
      } else {
        assert t[i] == s[i];
      }
    }
  }

  lemma {:induction false} HasKeyConcat<K, V>(a: seq<Entry<K, V>>, b: seq<Entry<K, V>>, k: K)
    ensures HasKey(a + b, k) <==> HasKey(a, k) || HasKey(b, k)
    decreases |a|
  {
    if a != [] {
      HasKeyConcat(a[1..], b, k);
      assert (a + b)[1..] == a[1..] + b;
    } else {
      assert a + b == b;
    }
  }

  /** Assigning a key that is not there appends it. */
  lemma {:induction false} PutAbsent<K, V>(a: seq<Entry<K, V>>, k: K, v: V)
    requires !HasKey(a, k)
    ensures Put(a, k, v) == a + [Entry(k, v)]
    decreases |a|
  {
    if a != [] {
      PutAbsent(a[1..], k, v);
      assert a == [a[0]] + a[1..];
    }
  }

  /** After $a[$k] = $v, $a[$k] reads v. */
  lemma {:induction false} PutGet<K, V>(a: seq<Entry<K, V>>, k: K, v: V)
    ensures HasKey(Put(a, k, v), k) && Get(Put(a, k, v), k) == v
    decreases |a|
  {
    if a != [] && a[0].key != k {
      PutGet(a[1..], k, v);
      assert Put(a, k, v)[1..] == Put(a[1..], k, v);
    }
  }

  /** After $a[$k] = $v, every other key reads what it did. */
  lemma {:induction false} PutOther<K, V>(a: seq<Entry<K, V>>, k: K, v: V, k': K)
    requires k' != k
    ensures HasKey(Put(a, k, v), k') == HasKey(a, k')
    ensures HasKey(a, k') ==> Get(Put(a, k, v), k') == Get(a, k')
    decreases |a|
  {
    if a == [] {
      assert Put(a, k, v)[1..] == [];
    } else if a[0].key == k {
      assert Put(a, k, v)[1..] == a[1..];
    } else {
      PutOther(a[1..], k, v, k');
      assert Put(a, k, v)[1..] == Put(a[1..], k, v);
    }
  }

  /** After unset, the key is gone. */
  lemma {:induction false} UnsetGone<K, V>(a: seq<Entry<K, V>>, k: K)
    ensures !HasKey(Unset(a, k), k)
    decreases |a|
  {
    if a != [] {
      UnsetGone(a[1..], k);
      if a[0].key != k {
        assert Unset(a, k)[1..] == Unset(a[1..], k);
      }
    }
  }

  /** After unset, every other key reads what it did. */
  lemma {:induction false} UnsetOther<K, V>(a: seq<Entry<K, V>>, k: K, k': K)
    requires k' != k
    ensures HasKey(Unset(a, k), k') == HasKey(a, k')
    ensures HasKey(a, k') ==> Get(Unset(a, k), k') == Get(a, k')
    decreases |a|
  {
    if a != [] {
      UnsetOther(a[1..], k, k');
      if a[0].key != k {
        assert Unset(a, k)[1..] == Unset(a[1..], k);
      }
    }
  }

  /** Unset keeps the remaining keys distinct. */
  lemma {:induction false} UnsetNoDup<K, V>(a: seq<Entry<K, V>>, k: K)
    requires NoDup(EntryKeys(a))
    ensures NoDup(EntryKeys(Unset(a, k)))
    decreases |a|
  {
    if a != [] {
      var ks := EntryKeys(a);
      assert ks == [a[0].key] + EntryKeys(a[1..]);
      NoDupTail(ks);
      assert ks[1..] == EntryKeys(a[1..]);
      UnsetNoDup(a[1..], k);
      if a[0].key != k {
        var u := Unset(a[1..], k);
        assert Unset(a, k) == [a[0]] + u;
        assert EntryKeys(Unset(a, k)) == [a[0].key] + EntryKeys(u);
        HasKeyIff(a[1..], a[0].key);
        UnsetOther(a[1..], k, a[0].key);
        HasKeyIff(u, a[0].key);
        NoDupCons(a[0].key, EntryKeys(u));
      }
    }
  }
}
