/** A map that holds, under the slot of each identifier of a set, that identifier's key and nothing else. */
module KeyedStore {
  ghost predicate Exact<I(!new), K>(m: map<string, K>, ids: iset<I>, slot: I -> string, key: I -> K) {
    && (forall id :: id in ids ==> slot(id) in m && m[slot(id)] == key(id))
    && (forall k :: k in m ==> exists id :: id in ids && k == slot(id))
  }

  ghost predicate InjectiveOn<I(!new)>(ids: iset<I>, slot: I -> string) {
    forall a, b :: a in ids && b in ids && slot(a) == slot(b) ==> a == b
  }

  lemma Put<I(!new), K>(m: map<string, K>, ids: iset<I>, slot: I -> string, key: I -> K, id: I)
    requires Exact(m, ids, slot, key) && InjectiveOn(ids + iset{id}, slot)
    ensures Exact(m[slot(id) := key(id)], ids + iset{id}, slot, key)
  {
    var m' := m[slot(id) := key(id)];
    forall x | x in ids + iset{id} ensures slot(x) in m' && m'[slot(x)] == key(x) {
      if slot(x) == slot(id) {
        assert x == id;
      }
    }
    forall k | k in m' ensures exists x :: x in ids + iset{id} && k == slot(x) {
      if k == slot(id) {
        assert id in ids + iset{id};
      } else {
        var x :| x in ids && k == slot(x);
        assert x in ids + iset{id};
      }
    }
  }

  lemma Take<I(!new), K>(m: map<string, K>, ids: iset<I>, slot: I -> string, key: I -> K, id: I)
    requires Exact(m, ids, slot, key) && InjectiveOn(ids, slot) && id in ids
    ensures Exact(m - {slot(id)}, ids - iset{id}, slot, key)
  {
    forall k | k in m - {slot(id)} ensures exists x :: x in ids - iset{id} && k == slot(x) {
      var x :| x in ids && k == slot(x);
      assert x in ids - iset{id};
    }
  }

  /** Other naming functions that agree on the set describe the same map. */
  lemma Same<I(!new), K>(
    m: map<string, K>, ids: iset<I>, slot: I -> string, key: I -> K, slot': I -> string, key': I -> K)
    requires Exact(m, ids, slot, key)
    requires forall id :: id in ids ==> slot'(id) == slot(id) && key'(id) == key(id)
    ensures Exact(m, ids, slot', key')
  {
    forall k | k in m ensures exists x :: x in ids && k == slot'(x) {
      var x :| x in ids && k == slot(x);
      assert k == slot'(x);
    }
  }

  lemma Absent<I(!new), K>(m: map<string, K>, ids: iset<I>, slot: I -> string, key: I -> K, id: I)
    requires Exact(m, ids, slot, key) && InjectiveOn(ids + iset{id}, slot) && id !in ids
    ensures slot(id) !in m
  {
  }
}
