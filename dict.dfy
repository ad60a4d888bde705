/** Python's built-in `dict`, as far as this program uses it: the keys are kept in
    insertion order, assigning to a key that is already present replaces its value and
    keeps its position, and assigning to a new key appends it at the end. Both the
    demand map (`dict(zip(...))`) and the variable maps `x` and `y` are such dicts. */
module PyDict {

  datatype Dict<K(==), V> = Dict(keys: seq<K>, entries: map<K, V>) {
    /** Every key is listed once, and exactly the keys that have an entry are listed. */
    ghost predicate Valid() {
      && (forall i, j :: 0 <= i < j < |keys| ==> keys[i] != keys[j])
      && (forall k | k in entries :: k in keys)
      && (forall i | 0 <= i < |keys| :: keys[i] in entries)
    }
  }

  /** `{}` */
  function Empty<K(==), V>(): (d: Dict<K, V>)
    ensures d.Valid() && d.keys == [] && d.entries == map[]
  {
    Dict([], map[])
  }

  /** `d[k] = v` */
  function Put<K(==), V>(d: Dict<K, V>, k: K, v: V): (r: Dict<K, V>)
    requires d.Valid()
    ensures r.Valid()
    ensures k in r.entries && r.entries[k] == v
    ensures forall k' | k' in d.entries :: k' in r.entries
    ensures forall k' | k' in r.entries && k' != k :: k' in d.entries
    ensures forall k' :: k' != k && k' in d.entries ==> r.entries[k'] == d.entries[k']
    // an existing key keeps its place; a new key goes last
    ensures |d.keys| <= |r.keys| && r.keys[..|d.keys|] == d.keys
    ensures k in d.entries ==> r.keys == d.keys
    ensures k !in d.entries ==> r.keys == d.keys + [k]
  {
    Dict(if k in d.entries then d.keys else d.keys + [k], d.entries[k := v])
  }

  /** The keys of the pairs, in order, repeats included. */
  function KeysOf<K, V>(ps: seq<(K, V)>): seq<K> {
    seq(|ps|, i requires 0 <= i < |ps| => ps[i].0)
  }

  /** The set of keys that some pair names. */
  function KeySet<K(==), V>(ps: seq<(K, V)>): set<K> {
    set i | 0 <= i < |ps| :: ps[i].0
  }

  lemma KeySetSnoc<K, V>(ps: seq<(K, V)>)
    requires ps != []
    ensures KeySet(ps) == KeySet(ps[..|ps| - 1]) + {ps[|ps| - 1].0}
  {
    var init := ps[..|ps| - 1];
    forall k | k in KeySet(ps) ensures k in KeySet(init) + {ps[|ps| - 1].0} {
      var i :| 0 <= i < |ps| && ps[i].0 == k;
      if i < |init| { assert init[i] == ps[i]; }
    }
    forall k | k in KeySet(init) ensures k in KeySet(ps) {
      var i :| 0 <= i < |init| && init[i].0 == k;
      assert ps[i] == init[i];
    }
  }

  /** `dict(ps)` for a sequence of key/value pairs: the pairs are assigned in order. */
  function FromPairs<K(==), V>(ps: seq<(K, V)>): (d: Dict<K, V>)
    ensures d.Valid()
    ensures d.entries.Keys == KeySet(ps)
  {
    if ps == [] then Empty() else
      KeySetSnoc(ps);
      Put(FromPairs(ps[..|ps| - 1]), ps[|ps| - 1].0, ps[|ps| - 1].1)
  }

  /** Last write wins: a key takes the value of the last pair that names it. */
  lemma {:induction false} FromPairsLastWins<K, V>(ps: seq<(K, V)>, i: nat)
    requires i < |ps|
    requires forall j :: i < j < |ps| ==> ps[j].0 != ps[i].0
    ensures ps[i].0 in FromPairs(ps).entries
    ensures FromPairs(ps).entries[ps[i].0] == ps[i].1
  {
    if i < |ps| - 1 {
      FromPairsLastWins(ps[..|ps| - 1], i);
    }
  }

  /** The position of the last pair that names `k`. */
  function LastIndex<K(==), V>(ps: seq<(K, V)>, k: K): (i: nat)
    requires k in KeySet(ps)
    ensures i < |ps| && ps[i].0 == k
    ensures forall j :: i < j < |ps| ==> ps[j].0 != k
  {
    KeySetSnoc(ps);
    if ps[|ps| - 1].0 == k then |ps| - 1 else LastIndex(ps[..|ps| - 1], k)
  }

  /** Every value in the dict is the value of the last pair with that key. */
  lemma FromPairsValueOrigin<K, V>(ps: seq<(K, V)>, k: K)
    requires k in FromPairs(ps).entries
    ensures k in KeySet(ps) && FromPairs(ps).entries[k] == ps[LastIndex(ps, k)].1
  {
    FromPairsLastWins(ps, LastIndex(ps, k));
  }

  /** No key is named by two pairs. */
  ghost predicate DistinctKeys<K, V>(ps: seq<(K, V)>) {
    forall i, j :: 0 <= i < j < |ps| ==> ps[i].0 != ps[j].0
  }

  /** When no key repeats, the dict lists the keys exactly in the order of the pairs. */
  lemma {:induction false} FromDistinctPairsKeys<K, V>(ps: seq<(K, V)>)
    requires DistinctKeys(ps)
    ensures FromPairs(ps).keys == KeysOf(ps)
  {
    if ps != [] {
      var init := ps[..|ps| - 1];
      DistinctKeysPrefix(ps);
      FromDistinctPairsKeys(init);
      LastKeyIsNew(ps);
      KeysOfSnoc(ps);
    }
  }

  lemma DistinctKeysPrefix<K, V>(ps: seq<(K, V)>)
    requires ps != [] && DistinctKeys(ps)
    ensures DistinctKeys(ps[..|ps| - 1])
  {
    var init := ps[..|ps| - 1];
    forall i, j | 0 <= i < j < |init| ensures init[i].0 != init[j].0 {
      assert init[i] == ps[i] && init[j] == ps[j];
    }
  }

  lemma LastKeyIsNew<K, V>(ps: seq<(K, V)>)
    requires ps != [] && DistinctKeys(ps)
    ensures ps[|ps| - 1].0 !in FromPairs(ps[..|ps| - 1]).entries
    ensures FromPairs(ps).keys == FromPairs(ps[..|ps| - 1]).keys + [ps[|ps| - 1].0]
  {
    var init := ps[..|ps| - 1];
    var k := ps[|ps| - 1].0;
    forall i | 0 <= i < |init| ensures init[i].0 != k {
      assert init[i] == ps[i];
    }
  }

  lemma KeysOfSnoc<K, V>(ps: seq<(K, V)>)
    requires ps != []
    ensures KeysOf(ps) == KeysOf(ps[..|ps| - 1]) + [ps[|ps| - 1].0]
  {
    var init := ps[..|ps| - 1];
    forall i | 0 <= i < |ps| ensures KeysOf(ps)[i] == (KeysOf(init) + [ps[|ps| - 1].0])[i] {
      if i < |init| {
        assert init[i] == ps[i];
      }
    }
  }

  /** The position of the first pair that names `k`. */
  function FirstIndex<K(==), V>(ps: seq<(K, V)>, k: K): (i: nat)
    requires k in KeySet(ps)
    ensures i < |ps| && ps[i].0 == k
    ensures forall j :: 0 <= j < i ==> ps[j].0 != k
  {
    var init := ps[..|ps| - 1];
    KeySetSnoc(ps);
    if k in KeySet(init) then FirstIndex(init, k) else |ps| - 1
  }

  /** The keys come out in the order in which each first appears among the pairs. */
  lemma {:induction false} FromPairsFirstOccurrenceOrder<K, V>(ps: seq<(K, V)>, a: nat, b: nat)
    requires a < b < |FromPairs(ps).keys|
    ensures FromPairs(ps).keys[a] in KeySet(ps) && FromPairs(ps).keys[b] in KeySet(ps)
    ensures FirstIndex(ps, FromPairs(ps).keys[a]) < FirstIndex(ps, FromPairs(ps).keys[b])
  {
    var init := ps[..|ps| - 1];
    var d := FromPairs(init);
    var r := FromPairs(ps);
    KeySetSnoc(ps);
    assert r.keys[..|d.keys|] == d.keys;
    assert r.keys[a] == d.keys[a] && d.keys[a] in d.entries;
    if b < |d.keys| {
      FromPairsFirstOccurrenceOrder(init, a, b);
      assert r.keys[b] == d.keys[b];
    } else {
      // position b holds the last pair's key, which no earlier pair names
      assert r.keys[b] == ps[|ps| - 1].0 && ps[|ps| - 1].0 !in d.entries;
    }
  }
}
