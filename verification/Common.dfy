/** Values shared by every component: optional results and uuids. */
module Common {

  datatype Option<+T> = None | Some(value: T)

  /** A 128-bit uuid, used only for equality; the zero uuid is the Go library's `uuid.Nil`. */
  type Uuid = nat
  const NIL_UUID: Uuid := 0
}

/** A map from keys to non-empty sets, the shape of every index in the realtime package. */
module SetIndex {

  predicate Linked<K, V>(index: map<K, set<V>>, k: K, v: V) {
    k in index && v in index[k]
  }

  predicate NoEmptySet<K, V>(index: map<K, set<V>>) {
    forall k :: k in index ==> index[k] != {}
  }

  function Lookup<K, V>(index: map<K, set<V>>, k: K): set<V> {
    if k in index then index[k] else {}
  }

  /** Adds v under k, creating the set when it is missing. */
  function Link<K, V>(index: map<K, set<V>>, k: K, v: V): map<K, set<V>> {
    index[k := Lookup(index, k) + {v}]
  }

  /** Removes v from under k and drops the set once it is empty. */
  function Unlink<K, V>(index: map<K, set<V>>, k: K, v: V): map<K, set<V>> {
    if k !in index then index
    else if index[k] - {v} == {} then index - {k}
    else index[k := index[k] - {v}]
  }

  /** Adds v under every key of ks. */
  function LinkAll<K, V>(index: map<K, set<V>>, ks: set<K>, v: V): map<K, set<V>> {
    map k | k in index.Keys + ks :: Lookup(index, k) + if k in ks then {v} else {}
  }

  /** Removes v from under every key of ks, keeping no empty set. */
  function UnlinkAll<K, V>(index: map<K, set<V>>, ks: set<K>, v: V): map<K, set<V>> {
    map k | k in index && (k in ks ==> index[k] - {v} != {}) :: if k in ks then index[k] - {v} else index[k]
  }

  lemma LinkAllLinks<K, V>(index: map<K, set<V>>, ks: set<K>, v: V)
    ensures forall k, w :: Linked(LinkAll(index, ks, v), k, w) <==> Linked(index, k, w) || (k in ks && w == v)
    ensures NoEmptySet(index) ==> NoEmptySet(LinkAll(index, ks, v))
  {
  }

  lemma UnlinkAllLinks<K, V>(index: map<K, set<V>>, ks: set<K>, v: V)
    ensures forall k, w :: Linked(UnlinkAll(index, ks, v), k, w) <==> Linked(index, k, w) && !(k in ks && w == v)
    ensures NoEmptySet(index) ==> NoEmptySet(UnlinkAll(index, ks, v))
  {
    forall k, w | Linked(index, k, w) && !(k in ks && w == v)
      ensures Linked(UnlinkAll(index, ks, v), k, w)
    {
      if k in ks {
        assert w in index[k] - {v};
      }
    }
  }

  /** One link and one unlink are the special cases for a single key. */
  lemma SingleKey<K, V>(index: map<K, set<V>>, k: K, v: V)
    ensures Link(index, k, v) == LinkAll(index, {k}, v)
    ensures Unlink(index, k, v) == UnlinkAll(index, {k}, v)
  {
    forall j | j in index && j != k
      ensures LinkAll(index, {k}, v)[j] == Link(index, k, v)[j]
    {
      assert Lookup(index, j) + {} == index[j];
    }
    assert Link(index, k, v).Keys == LinkAll(index, {k}, v).Keys;
    assert Unlink(index, k, v).Keys == UnlinkAll(index, {k}, v).Keys;
  }

  /** Linking under two sets of keys, one after the other, links under their union. */
  lemma LinkTwice<K, V>(index: map<K, set<V>>, ks: set<K>, more: set<K>, v: V)
    ensures LinkAll(LinkAll(index, ks, v), more, v) == LinkAll(index, ks + more, v)
  {
    var l, r := LinkAll(LinkAll(index, ks, v), more, v), LinkAll(index, ks + more, v);
    forall k | k in r
      ensures l[k] == r[k]
    {
      assert Lookup(LinkAll(index, ks, v), k) == Lookup(index, k) + if k in ks then {v} else {};
    }
    assert l.Keys == r.Keys;
  }

  /** Unlinking from two sets of keys, one after the other, unlinks from their union. */
  lemma UnlinkTwice<K, V>(index: map<K, set<V>>, ks: set<K>, more: set<K>, v: V)
    ensures UnlinkAll(UnlinkAll(index, ks, v), more, v) == UnlinkAll(index, ks + more, v)
  {
    var l, r := UnlinkAll(UnlinkAll(index, ks, v), more, v), UnlinkAll(index, ks + more, v);
    forall k | k in index
      ensures (k in l <==> k in r) && (k in r ==> l[k] == r[k])
    {
      assert (index[k] - {v}) - {v} == index[k] - {v};
    }
    assert l.Keys == r.Keys;
  }
}
