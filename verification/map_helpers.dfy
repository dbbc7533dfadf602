/**
  The map helpers of util/map.go. A Go map is a reference to a hash table:
  `GetMapKeys` only reads it and is given its contents as a `map` value,
  while `GetOrFill` writes into the caller's table and so receives it as a
  `GoMap` object. Go's map iteration order is unspecified; the loop below
  picks each next key arbitrarily.
*/
module MapHelpers {

  /** A Go map value: a reference to a table that callees may update in place. */
  class GoMap<K(==), V> {
    var entries: map<K, V>

    constructor (entries: map<K, V>)
      ensures this.entries == entries
    {
      this.entries := entries;
    }
  }

  /**
    The keys written into a new slice of length `len(inputMap)` through the
    counter `idx`: every key exactly once, in iteration order.
  */
  method GetMapKeys<K(0), V>(inputMap: map<K, V>) returns (result: array<K>)
    ensures fresh(result)
    ensures result.Length == |inputMap|
    ensures multiset(result[..]) == multiset(inputMap.Keys)
  {
    result := new K[|inputMap|];
    var idx := 0;
    var rest := inputMap.Keys;
    while rest != {}
      invariant rest <= inputMap.Keys
      invariant idx + |rest| == |inputMap|
      invariant multiset(result[..idx]) + multiset(rest) == multiset(inputMap.Keys)
      decreases rest
    {
      var key :| key in rest;
      result[idx] := key;
      assert result[..idx + 1] == result[..idx] + [key];
      idx := idx + 1;
      rest := rest - {key};
    }
    assert result[..] == result[..idx];
  }

  /**
    The map after `GetOrFill(m, key)`: unchanged when `key` is present,
    otherwise extended with `key` bound to the zero value.
  */
  function Filled<K, V>(m: map<K, V>, key: K, zero: V): (r: map<K, V>)
    ensures key in r
    ensures key in m ==> r == m
    ensures key !in m ==> r[key] == zero
    ensures r.Keys == m.Keys + {key}
    ensures forall k | k in m && k != key :: r[k] == m[k]
  {
    if key in m then m else m[key := zero]
  }

  /** A second `GetOrFill` of the same key changes nothing and returns the same value. */
  lemma FilledIdempotent<K, V>(m: map<K, V>, key: K, zero: V)
    ensures Filled(Filled(m, key, zero), key, zero) == Filled(m, key, zero)
  {
  }

  /**
    The stored value for a present key; otherwise the zero value, which is
    also inserted under `key`. `zero` stands for the value `*new(T2)`, Go's
    zero value of the map's value type, which Dafny cannot name for a type
    parameter. A nil Go map is `null`: it holds no key, so the insertion
    panics ("assignment to entry in nil map"); `panicked` reports that, and
    `result` then carries no meaning.
  */
  method GetOrFill<K, V>(inputMap: GoMap?<K, V>, key: K, zero: V) returns (result: V, panicked: bool)
    modifies inputMap
    ensures panicked <==> inputMap == null
    ensures inputMap != null ==> inputMap.entries == Filled(old(inputMap.entries), key, zero)
    ensures inputMap != null && key in old(inputMap.entries) ==> result == old(inputMap.entries)[key]
    ensures inputMap != null && key !in old(inputMap.entries) ==> result == zero
    ensures inputMap != null ==> result == inputMap.entries[key]
  {
    if inputMap == null {
      return zero, true;
    }
    panicked := false;
    var ok := key in inputMap.entries;
    if ok {
      result := inputMap.entries[key];
    } else {
      result := zero;
      inputMap.entries := inputMap.entries[key := result];
    }
  }
}
