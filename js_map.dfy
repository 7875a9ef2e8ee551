/**
 * A JavaScript `Map` with string keys: a lookup table that remembers the order in which its
 * keys were first inserted. `set` on a key already present replaces the value in place.
 */
module JsMap {
  import opened Wrappers
  import opened Seqs

  datatype OrderedMap<V> = OrderedMap(keys: seq<string>, entries: map<string, V>) {

    ghost predicate Valid() {
      && NoDuplicates(keys)
      && (forall k :: k in entries <==> k in keys)
    }

    /** `map.size`. */
    function Size(): (r: nat) {
      |keys|
    }

    /** `map.get(k)`. */
    function Get(k: string): (r: Option<V>)
      ensures r.Some? <==> k in entries
    {
      if k in entries then Some(entries[k]) else None
    }

    /** `map.set(k, v)`: last write wins, every other key keeps its value, a new key goes last. */
    function Set(k: string, v: V): (m: OrderedMap<V>)
      requires Valid()
      ensures m.Valid()
      ensures m.Get(k) == Some(v)
      ensures forall k' :: k' != k ==> m.Get(k') == Get(k')
      ensures m.keys == if k in entries then keys else keys + [k]
    {
      OrderedMap(if k in entries then keys else keys + [k], entries[k := v])
    }

    /** `Array.from(map.values())`: the values in key-insertion order. */
    function Values(): (vs: seq<V>)
      requires Valid()
      ensures |vs| == |keys|
      ensures forall i :: 0 <= i < |keys| ==> vs[i] == entries[keys[i]]
    {
      seq(|keys|, i requires 0 <= i < |keys| => entries[keys[i]])
    }
  }

  function Empty<V>(): (m: OrderedMap<V>)
    ensures m.Valid() && m.Size() == 0
  {
    OrderedMap([], map[])
  }

  /** Overwriting a present key changes its value in place in the values array. */
  lemma SetPresentValues<V>(m: OrderedMap<V>, i: nat, v: V)
    requires m.Valid() && i < |m.keys|
    ensures m.Set(m.keys[i], v).Values() == m.Values()[i := v]
  {
    var k := m.keys[i];
    var m' := m.Set(k, v);
    forall j | 0 <= j < |m.keys|
      ensures m'.Values()[j] == m.Values()[i := v][j]
    {
      if j != i {
        assert m.keys[j] != k;
      }
    }
  }

  /** Setting a new key appends its value to the values array. */
  lemma SetAbsentValues<V>(m: OrderedMap<V>, k: string, v: V)
    requires m.Valid() && k !in m.entries
    ensures m.Set(k, v).Values() == m.Values() + [v]
  {
  }

  /** Position of a present key in the insertion order. */
  lemma KeyPosition<V>(m: OrderedMap<V>, k: string) returns (i: nat)
    requires m.Valid() && k in m.entries
    ensures i < |m.keys| && m.keys[i] == k
  {
    i := FirstIndex(m.keys, k);
  }
}
