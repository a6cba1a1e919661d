/**
 * Reference-counted inverted indexes: key -> user -> number of registrations of that user that
 * carry the key. The registry keeps one such table per dimension family (groups, namespaces,
 * attributes); keys carry their dimension, so one table stands for all of them here.
 */
module RefIndex {

  type UserId = string

  datatype Dimension = Group | Namespace | UserType | Role | ClientType | Department
  datatype Key = Key(app: string, dimension: Dimension, value: string)

  type Index = map<Key, map<UserId, int>>

  function Refs(idx: Index, k: Key): map<UserId, int> {
    if k in idx then idx[k] else map[]
  }

  function Count(idx: Index, k: Key, u: UserId): int {
    if u in Refs(idx, k) then Refs(idx, k)[u] else 0
  }

  /** No empty bucket and no zero count. */
  ghost predicate Canonical(idx: Index) {
    forall k :: k in idx ==> idx[k] != map[] && forall u :: u in idx[k] ==> idx[k][u] > 0
  }

  /** One turn of the addTo... loops. */
  function Increment(idx: Index, k: Key, u: UserId): Index {
    idx[k := Refs(idx, k)[u := Count(idx, k, u) + 1]]
  }

  /** One turn of the removeFrom... loops: drop the user at one, drop the bucket when empty. */
  function Decrement(idx: Index, k: Key, u: UserId): Index {
    if k !in idx then idx
    else
      var refs := if Count(idx, k, u) <= 1 then idx[k] - {u} else idx[k][u := idx[k][u] - 1];
      if refs == map[] then idx - {k} else idx[k := refs]
  }

  function IncrementAll(idx: Index, keys: seq<Key>, u: UserId): Index {
    if keys == [] then idx
    else Increment(IncrementAll(idx, keys[..|keys| - 1], u), keys[|keys| - 1], u)
  }

  function DecrementAll(idx: Index, keys: seq<Key>, u: UserId): Index {
    if keys == [] then idx
    else Decrement(DecrementAll(idx, keys[..|keys| - 1], u), keys[|keys| - 1], u)
  }

  lemma IncrementCounts(idx: Index, k: Key, u: UserId)
    requires Canonical(idx)
    ensures Canonical(Increment(idx, k, u))
    ensures forall k', u' ::
        Count(Increment(idx, k, u), k', u') == Count(idx, k', u') + if k' == k && u' == u then 1 else 0
  {
  }

  lemma DecrementCounts(idx: Index, k: Key, u: UserId)
    requires Canonical(idx) && Count(idx, k, u) > 0
    ensures Canonical(Decrement(idx, k, u))
    ensures forall k', u' ::
        Count(Decrement(idx, k, u), k', u') == Count(idx, k', u') - if k' == k && u' == u then 1 else 0
  {
  }

  /** The loop adds each key's multiplicity to the one user and leaves all other counts alone. */
  lemma {:induction false} IncrementAllCounts(idx: Index, keys: seq<Key>, u: UserId)
    requires Canonical(idx)
    ensures Canonical(IncrementAll(idx, keys, u))
    ensures forall k, u' ::
        Count(IncrementAll(idx, keys, u), k, u') == Count(idx, k, u') + if u' == u then multiset(keys)[k] else 0
    decreases |keys|
  {
    if keys != [] {
      var init, last := keys[..|keys| - 1], keys[|keys| - 1];
      IncrementAllCounts(idx, init, u);
      IncrementCounts(IncrementAll(idx, init, u), last, u);
      assert keys == init + [last];
      assert multiset(keys) == multiset(init) + multiset{last};
    }
  }

  /** The loop takes each key's multiplicity away again, provided it was counted. */
  lemma {:induction false} DecrementAllCounts(idx: Index, keys: seq<Key>, u: UserId)
    requires Canonical(idx) && forall k :: multiset(keys)[k] <= Count(idx, k, u)
    ensures Canonical(DecrementAll(idx, keys, u))
    ensures forall k, u' ::
        Count(DecrementAll(idx, keys, u), k, u') == Count(idx, k, u') - if u' == u then multiset(keys)[k] else 0
    decreases |keys|
  {
    if keys != [] {
      var init, last := keys[..|keys| - 1], keys[|keys| - 1];
      assert keys == init + [last];
      assert multiset(keys) == multiset(init) + multiset{last};
      forall k ensures multiset(init)[k] <= Count(idx, k, u) {
        assert multiset(keys)[k] <= Count(idx, k, u);
      }
      DecrementAllCounts(idx, init, u);
      assert multiset(keys)[last] <= Count(idx, last, u);
      DecrementCounts(DecrementAll(idx, init, u), last, u);
    }
  }

  /** A canonical table is determined by its counts. */
  lemma CountsDetermine(a: Index, b: Index)
    requires Canonical(a) && Canonical(b)
    requires forall k, u :: Count(a, k, u) == Count(b, k, u)
    ensures a == b
  {
    forall k ensures Refs(a, k) == Refs(b, k) {
      forall u ensures u in Refs(a, k) <==> u in Refs(b, k) {
        assert Count(a, k, u) == Count(b, k, u);
      }
      forall u | u in Refs(a, k) ensures Refs(a, k)[u] == Refs(b, k)[u] {
        assert Count(a, k, u) == Count(b, k, u);
      }
    }
    forall k ensures k in a <==> k in b {
      assert Refs(a, k) == Refs(b, k);
    }
    assert a.Keys == b.Keys;
    forall k | k in a ensures a[k] == b[k] {
      assert Refs(a, k) == Refs(b, k);
    }
  }
}
