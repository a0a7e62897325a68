/**
 * The JavaScript `Map` that `saveRecords` builds: string keys remembered in the
 * order of their first insertion, each with its latest value.
 */
module InsertionMap {

  datatype OrderedMap<V> = OrderedMap(keys: seq<string>, entries: map<string, V>)

  /** The keys are listed once each, and exactly the keys that have an entry are listed. */
  ghost predicate Valid<V>(m: OrderedMap<V>) {
    (forall i, j :: 0 <= i < j < |m.keys| ==> m.keys[i] != m.keys[j])
    && (forall k :: k in m.entries <==> k in m.keys)
  }

  function Empty<V>(): (m: OrderedMap<V>)
    ensures Valid(m)
  {
    OrderedMap([], map[])
  }

  /** `map.set(k, v)`: a new key goes last; a known key keeps its place and takes the new value. */
  function Set<V>(m: OrderedMap<V>, k: string, v: V): OrderedMap<V> {
    OrderedMap(if k in m.entries then m.keys else m.keys + [k], m.entries[k := v])
  }

  /** Setting each pair in turn, first to last (`new Map(pairs)`, or a `forEach` of `set`). */
  function SetAll<V>(m: OrderedMap<V>, kvs: seq<(string, V)>): OrderedMap<V>
    decreases |kvs|
  {
    if kvs == [] then m
    else
      var last := kvs[|kvs| - 1];
      Set(SetAll(m, kvs[..|kvs| - 1]), last.0, last.1)
  }

  /** `Array.from(map.values())`: the values in key order. */
  function Values<V>(m: OrderedMap<V>): (vs: seq<V>)
    requires Valid(m)
    ensures |vs| == |m.keys|
    ensures forall i :: 0 <= i < |vs| ==> vs[i] == m.entries[m.keys[i]]
  {
    seq(|m.keys|, i requires 0 <= i < |m.keys| => m.entries[m.keys[i]])
  }

  function KeysOf<V>(kvs: seq<(string, V)>): (ks: seq<string>)
    ensures |ks| == |kvs|
    ensures forall i :: 0 <= i < |kvs| ==> ks[i] == kvs[i].0
  {
    seq(|kvs|, i requires 0 <= i < |kvs| => kvs[i].0)
  }

  /** The position of the first occurrence of `k`. */
  function FirstIndex(ks: seq<string>, k: string): (i: nat)
    requires k in ks
    ensures i < |ks| && ks[i] == k
    ensures forall j :: 0 <= j < i ==> ks[j] != k
  {
    if ks[0] == k then 0 else 1 + FirstIndex(ks[1..], k)
  }

  /** The value paired with the last occurrence of `k`: an independent statement of "last write wins". */
  function LastValue<V>(kvs: seq<(string, V)>, k: string): V
    requires k in KeysOf(kvs)
    decreases |kvs|
  {
    var last := kvs[|kvs| - 1];
    if last.0 == k then last.1
    else
      assert KeysOf(kvs) == KeysOf(kvs[..|kvs| - 1]) + [last.0];
      LastValue(kvs[..|kvs| - 1], k)
  }

  lemma FirstIndexOfPrefix(ks: seq<string>, more: seq<string>, k: string)
    requires k in ks
    ensures FirstIndex(ks + more, k) == FirstIndex(ks, k)
  {
    var i1, i2 := FirstIndex(ks + more, k), FirstIndex(ks, k);
    assert (ks + more)[i2] == k;
  }

  lemma FirstIndexAfterPrefix(ks: seq<string>, k: string)
    requires k !in ks
    ensures FirstIndex(ks + [k], k) == |ks|
  {
  }

  /** Setting a key keeps the map well formed, keeps the old keys in place and adds the key once. */
  lemma SetKeys<V>(m: OrderedMap<V>, k: string, v: V)
    requires Valid(m)
    ensures var r := Set(m, k, v);
      && Valid(r)
      && |m.keys| <= |r.keys| && r.keys[..|m.keys|] == m.keys
      && (forall x :: x in r.keys <==> x in m.keys || x == k)
  {
  }

  /**
   * Setting pairs keeps the old keys first and in place and adds each new key once;
   * the keys past the old ones are exactly the new keys.
   */
  lemma {:induction false} SetAllKeys<V>(m: OrderedMap<V>, kvs: seq<(string, V)>)
    requires Valid(m)
    ensures var r := SetAll(m, kvs);
      && Valid(r)
      && |m.keys| <= |r.keys| && r.keys[..|m.keys|] == m.keys
      && (forall k :: k in r.keys <==> k in m.keys || k in KeysOf(kvs))
    decreases |kvs|
  {
    if kvs != [] {
      var init := kvs[..|kvs| - 1];
      var last := kvs[|kvs| - 1];
      SetAllKeys(m, init);
      var r0 := SetAll(m, init);
      SetKeys(r0, last.0, last.1);
      assert KeysOf(kvs) == KeysOf(init) + [last.0];
      var r := SetAll(m, kvs);
      assert r.keys[..|r0.keys|] == r0.keys;
      assert r.keys[..|m.keys|] == r.keys[..|r0.keys|][..|m.keys|];
    }
  }

  /** In a well-formed map whose keys start with `old`, a key past that prefix is not an old key. */
  lemma PastPrefixIsNew<V>(r: OrderedMap<V>, prior: seq<string>, i: int)
    requires Valid(r) && |prior| <= i < |r.keys| && r.keys[..|prior|] == prior
    ensures r.keys[i] !in prior
  {
  }

  /** The new keys are ordered by the first appearance of each among the pairs. */
  lemma {:induction false} SetAllNewKeyOrder<V>(m: OrderedMap<V>, kvs: seq<(string, V)>)
    requires Valid(m)
    ensures var r := SetAll(m, kvs);
      forall i, j :: |m.keys| <= i < j < |r.keys| ==>
        r.keys[i] in KeysOf(kvs) && r.keys[j] in KeysOf(kvs) &&
        FirstIndex(KeysOf(kvs), r.keys[i]) < FirstIndex(KeysOf(kvs), r.keys[j])
    decreases |kvs|
  {
    if kvs != [] {
      var init := kvs[..|kvs| - 1];
      var last := kvs[|kvs| - 1];
      SetAllNewKeyOrder(m, init);
      SetAllKeys(m, init);
      SetAllKeys(m, kvs);
      var r0 := SetAll(m, init);
      var r := SetAll(m, kvs);
      var ks0, ks := KeysOf(init), KeysOf(kvs);
      assert ks == ks0 + [last.0];
      forall i | |m.keys| <= i < |r0.keys|
        ensures r0.keys[i] in ks0 && FirstIndex(ks, r0.keys[i]) == FirstIndex(ks0, r0.keys[i])
      {
        PastPrefixIsNew(r0, m.keys, i);
        FirstIndexOfPrefix(ks0, [last.0], r0.keys[i]);
      }
      if last.0 !in r0.entries {
        FirstIndexAfterPrefix(ks0, last.0);
      }
      forall i, j | |m.keys| <= i < j < |r.keys|
        ensures r.keys[i] in ks && r.keys[j] in ks
        ensures FirstIndex(ks, r.keys[i]) < FirstIndex(ks, r.keys[j])
      {
        if last.0 in r0.entries {
          assert r.keys == r0.keys;
        } else {
          assert r.keys == r0.keys + [last.0];
          if j == |r0.keys| {
            assert FirstIndex(ks, r.keys[j]) == |ks0|;
          }
        }
      }
    }
  }

  /** Each key pairs with the value of its last write; keys never written keep their old entry. */
  lemma {:induction false} SetAllEntries<V>(m: OrderedMap<V>, kvs: seq<(string, V)>, k: string)
    ensures var r := SetAll(m, kvs);
      && (k in KeysOf(kvs) ==> k in r.entries && r.entries[k] == LastValue(kvs, k))
      && (k !in KeysOf(kvs) ==>
            (k in r.entries <==> k in m.entries) && (k in m.entries ==> r.entries[k] == m.entries[k]))
    decreases |kvs|
  {
    if kvs != [] {
      var init := kvs[..|kvs| - 1];
      assert KeysOf(kvs) == KeysOf(init) + [kvs[|kvs| - 1].0];
      SetAllEntries(m, init, k);
    }
  }
}
