/**
  The mutex-guarded string-keyed map of go-tools/util/thread_safe_map.go.

  Every method of the Go type takes the single lock for its whole body and
  releases it on return (also on a panic, through `defer`), so each method is
  modelled here as one atomic step on the `internalMap` field. The pure
  functions `Stored`, `Updated`, `Appended` and `Deleted` give the store after
  each mutating operation; the class methods are proved to compute exactly
  them, and the lemmas below relate them to each other and to sequences of
  operations (one sequence per possible order in which callers take the lock).
*/
module ThreadSafeMap {

  /** A Go value held behind `interface{}`; `List` is a `[]interface{}`. */
  datatype Value = Nil | Bool(b: bool) | Int(i: int) | Str(s: string) | List(items: seq<Value>)

  /** How `AddListItem` ends: the Go code panics when the stored value is not a list. */
  datatype AddOutcome = Done | NotAList

  datatype Option<T> = None | Some(value: T)

  type Store = map<string, Value>

  /** `m` and `m'` agree on every key other than `key` (presence and value). */
  ghost predicate SameElsewhere(m: Store, m': Store, key: string)
  {
    forall k :: k != key ==> (k in m <==> k in m') && (k in m ==> m[k] == m'[k])
  }

  /** What the Go expression `m[key]` yields: the stored value, or nil when absent. */
  function ValueOrNil(m: Store, key: string): Value
  {
    if key in m then m[key] else Nil
  }

  /** The list a key holds before an append: its items, or empty when absent. */
  function Prior(m: Store, key: string): seq<Value>
    requires key in m ==> m[key].List?
  {
    if key in m then m[key].items else []
  }

  lemma RemoveOneKey(m: Store, key: string)
    ensures key in m ==> |m - {key}| == |m| - 1
  {
  }

  lemma AddOneKey(m: Store, key: string, v: Value)
    ensures key !in m ==> |m[key := v]| == |m| + 1
  {
  }

  // ---------------------------------------------------------------------
  // The store after each mutating operation
  // ---------------------------------------------------------------------

  /** The store after `Set(key, value)`: last write wins, nothing else moves. */
  function Stored(m: Store, key: string, value: Value): (r: Store)
    ensures key in r && r[key] == value
    ensures SameElsewhere(m, r, key)
    ensures |r| == if key in m then |m| else |m| + 1
  {
    AddOneKey(m, key, value);
    m[key := value]
  }

  /** The store after `Update(key, value, fn)`: `fn` sees the old value, or nil when absent. */
  function Updated(m: Store, key: string, value: Value, fn: (Value, Value) -> Value): (r: Store)
    ensures key in r
    ensures key in m ==> r[key] == fn(m[key], value)
    ensures key !in m ==> r[key] == fn(Nil, value)
    ensures SameElsewhere(m, r, key)
  {
    Stored(m, key, fn(ValueOrNil(m, key), value))
  }

  /**
    The store after `AddListItem(key, value)`, or None when the Go code panics:
    the key is present and its value (possibly nil) is not a list.
  */
  function Appended(m: Store, key: string, value: Value): (r: Option<Store>)
    ensures r.None? <==> key in m && !m[key].List?
    ensures r.Some? ==> key in r.value && SameElsewhere(m, r.value, key)
    ensures r.Some? && key in m ==> r.value[key] == List(m[key].items + [value])
    ensures r.Some? && key !in m ==> r.value[key] == List([value])
  {
    if key in m then
      if m[key].List? then Some(Stored(m, key, List(m[key].items + [value]))) else None
    else
      Some(Stored(m, key, List([value])))
  }

  /** The store after `Delete(key)`: the key is gone, nothing else moves. */
  function Deleted(m: Store, key: string): (r: Store)
    ensures key !in r
    ensures SameElsewhere(m, r, key)
    ensures |r| == if key in m then |m| - 1 else |m|
  {
    RemoveOneKey(m, key);
    m - {key}
  }

  // ---------------------------------------------------------------------
  // Single-operation laws
  // ---------------------------------------------------------------------

  /** Setting the same value twice leaves the same store as setting it once. */
  lemma SetIdempotent(m: Store, key: string, value: Value)
    ensures Stored(Stored(m, key, value), key, value) == Stored(m, key, value)
  {
  }

  /** Deleting an absent key is a no-op, so deleting twice equals deleting once. */
  lemma DeleteIdempotent(m: Store, key: string)
    ensures key !in m ==> Deleted(m, key) == m
    ensures Deleted(Deleted(m, key), key) == Deleted(m, key)
  {
  }

  /** Set then Delete of a key that was absent gives back the original store. */
  lemma DeleteUndoesSet(m: Store, key: string, value: Value)
    requires key !in m
    ensures Deleted(Stored(m, key, value), key) == m
  {
  }

  // ---------------------------------------------------------------------
  // Sequences of operations on one key (one per order of lock acquisition)
  // ---------------------------------------------------------------------

  /** The store after `Set(key, vs[0])`, ..., `Set(key, vs[|vs|-1])` in that order. */
  function SetAll(m: Store, key: string, vs: seq<Value>): Store
    decreases |vs|
  {
    if vs == [] then m else SetAll(Stored(m, key, vs[0]), key, vs[1..])
  }

  /**
    Whatever the order in which the writers took the lock, the key ends up
    holding the value of the last of them, which is one of the written values,
    and the other keys are untouched.
  */
  lemma {:induction false} LastSetWins(m: Store, key: string, vs: seq<Value>)
    requires vs != []
    ensures key in SetAll(m, key, vs)
    ensures SetAll(m, key, vs)[key] == vs[|vs| - 1]
    ensures SetAll(m, key, vs)[key] in vs
    ensures SameElsewhere(m, SetAll(m, key, vs), key)
    decreases |vs|
  {
    if |vs| > 1 {
      LastSetWins(Stored(m, key, vs[0]), key, vs[1..]);
      assert vs[1..][|vs[1..]| - 1] == vs[|vs| - 1];
    }
  }

  /** The store after `n` calls of `Update(key, value, fn)`. */
  function UpdateAll(m: Store, key: string, value: Value, fn: (Value, Value) -> Value, n: nat): Store
  {
    if n == 0 then m else Updated(UpdateAll(m, key, value, fn, n - 1), key, value, fn)
  }

  /** A combine function a caller may pass to `Update`: integer addition, reading nil as 0. */
  function AddInts(current: Value, delta: Value): Value
  {
    Int((if current.Int? then current.i else 0) + (if delta.Int? then delta.i else 0))
  }

  /**
    Because `Update` is one critical section, `n` calls of
    `Update(key, Int(1), AddInts)` on an absent key leave exactly `Int(n)`:
    no increment is lost, whatever the order of the callers.
  */
  lemma {:induction false} UpdatesAccumulate(m: Store, key: string, n: nat)
    requires key !in m
    ensures n > 0 ==> key in UpdateAll(m, key, Int(1), AddInts, n)
    ensures n > 0 ==> UpdateAll(m, key, Int(1), AddInts, n)[key] == Int(n)
    ensures SameElsewhere(m, UpdateAll(m, key, Int(1), AddInts, n), key)
  {
    if n > 0 {
      UpdatesAccumulate(m, key, n - 1);
    }
  }

  /** The store after `AddListItem(key, vs[0])`, ..., in order; None once one of them panics. */
  function AppendAll(m: Store, key: string, vs: seq<Value>): Option<Store>
    decreases |vs|
  {
    if vs == [] then Some(m)
    else
      match Appended(m, key, vs[0])
      case None => None
      case Some(m') => AppendAll(m', key, vs[1..])
  }

  /**
    Appending `vs` one item at a time to an absent key or a list `L` leaves
    `L + vs`: items are kept in the order the calls took the lock, none is lost
    and none is duplicated.
  */
  lemma {:induction false} AppendsAccumulate(m: Store, key: string, vs: seq<Value>)
    requires key in m ==> m[key].List?
    ensures vs != [] ==> AppendAll(m, key, vs) == Some(Stored(m, key, List(Prior(m, key) + vs)))
    ensures vs == [] ==> AppendAll(m, key, vs) == Some(m)
    decreases |vs|
  {
    if vs != [] {
      var m1 := Stored(m, key, List(Prior(m, key) + [vs[0]]));
      assert key !in m ==> Prior(m, key) + [vs[0]] == [vs[0]];
      assert Appended(m, key, vs[0]) == Some(m1);
      assert AppendAll(m, key, vs) == AppendAll(m1, key, vs[1..]);
      AppendsAccumulate(m1, key, vs[1..]);
      if vs[1..] == [] {
        assert vs == [vs[0]];
      } else {
        assert Prior(m1, key) + vs[1..] == Prior(m, key) + vs;
        assert m1[key := List(Prior(m, key) + vs)] == m[key := List(Prior(m, key) + vs)];
      }
    }
  }

  /** `n` appends of `x` to an absent key leave a list of exactly `n` copies of `x`. */
  lemma AppendsOfOneItem(m: Store, key: string, x: Value, n: nat)
    requires key !in m && n > 0
    ensures AppendAll(m, key, seq(n, _ => x)).Some?
    ensures var r := AppendAll(m, key, seq(n, _ => x)).value;
      key in r && r[key].List? && |r[key].items| == n && forall i :: 0 <= i < n ==> r[key].items[i] == x
  {
    AppendsAccumulate(m, key, seq(n, _ => x));
  }

  /** Once the key holds a non-list, every further append panics and nothing is stored. */
  lemma AppendToNonListFails(m: Store, key: string, vs: seq<Value>)
    requires key in m && !m[key].List? && vs != []
    ensures AppendAll(m, key, vs) == None
  {
  }

  // ---------------------------------------------------------------------
  // Enumeration
  // ---------------------------------------------------------------------

  /** A sequence whose multiset is a set's lists that set, once per element. */
  lemma EnumeratesSet<K>(s: seq<K>, keys: set<K>)
    requires multiset(s) == multiset(keys)
    ensures |s| == |keys|
    ensures forall x :: x in s <==> x in keys
    ensures forall i, j :: 0 <= i < j < |s| ==> s[i] != s[j]
  {
    assert |multiset(s)| == |s|;
    forall i, j | 0 <= i < j < |s| ensures s[i] != s[j] {
      var x := s[i];
      assert s == s[..j] + s[j..];
      assert multiset(s)[x] == multiset(s[..j])[x] + multiset(s[j..])[x];
      assert x in s[..j];
      assert multiset(keys)[x] <= 1;
    }
    forall x ensures x in s <==> x in keys {
      assert x in s <==> x in multiset(s);
    }
  }

  lemma RemoveOneItem(m: Store, key: string)
    requires key in m
    ensures (m - {key}).Items == m.Items - {(key, m[key])}
  {
    forall p | p in m.Items ensures p in (m - {key}).Items || p == (key, m[key]) {
      assert p.0 in m && m[p.0] == p.1;
      if p.0 != key {
        assert p.0 in m - {key};
      }
    }
  }

  // ---------------------------------------------------------------------
  // The map object
  // ---------------------------------------------------------------------

  class ThreadSafeMapImpl {
    var internalMap: Store

    /** `NewThreadSafeMap`: a fresh, empty map. */
    constructor ()
      ensures internalMap == map[]
    {
      internalMap := map[];
    }

    method Get(key: string) returns (val: Value, ok: bool)
      ensures ok <==> key in internalMap
      ensures ok ==> val == internalMap[key]
      ensures !ok ==> val == Nil
    {
      ok := key in internalMap;
      val := if ok then internalMap[key] else Nil;
    }

    method Set(key: string, value: Value)
      modifies this
      ensures internalMap == Stored(old(internalMap), key, value)
    {
      internalMap := internalMap[key := value];
    }

    method Update(key: string, value: Value, fn: (Value, Value) -> Value)
      modifies this
      ensures internalMap == Updated(old(internalMap), key, value, fn)
    {
      var current := if key in internalMap then internalMap[key] else Nil;
      internalMap := internalMap[key := fn(current, value)];
    }

    /** On `NotAList` the Go code has panicked before writing, so the map is unchanged. */
    method AddListItem(key: string, value: Value) returns (outcome: AddOutcome)
      modifies this
      ensures outcome == NotAList <==> Appended(old(internalMap), key, value).None?
      ensures outcome == NotAList ==> internalMap == old(internalMap)
      ensures outcome == Done ==> internalMap == Appended(old(internalMap), key, value).value
    {
      if key in internalMap {
        var internalList := internalMap[key];
        if !internalList.List? {
          return NotAList;
        }
        internalMap := internalMap[key := List(internalList.items + [value])];
        return Done;
      }
      internalMap := internalMap[key := List([value])];
      outcome := Done;
    }

    method Delete(key: string)
      modifies this
      ensures internalMap == Deleted(old(internalMap), key)
    {
      internalMap := internalMap - {key};
    }

    method Len() returns (n: nat)
      ensures n == |internalMap|
    {
      n := |internalMap|;
    }

    /** Each stored key exactly once, in an unspecified (Go map iteration) order. */
    method Keys() returns (keys: seq<string>)
      ensures multiset(keys) == multiset(internalMap.Keys)
      ensures |keys| == |internalMap|
    {
      keys := [];
      var rest := internalMap.Keys;
      while rest != {}
        invariant rest <= internalMap.Keys
        invariant multiset(keys) + multiset(rest) == multiset(internalMap.Keys)
        decreases rest
      {
        var k :| k in rest;
        keys := keys + [k];
        rest := rest - {k};
      }
      EnumeratesSet(keys, internalMap.Keys);
    }

    /**
      Every stored value, once per key holding it: `values` follows `order`,
      one enumeration of the keys in an unspecified (Go map iteration) order.
    */
    method Values() returns (values: seq<Value>, ghost order: seq<string>)
      ensures multiset(order) == multiset(internalMap.Keys)
      ensures |values| == |order| == |internalMap|
      ensures forall i :: 0 <= i < |order| ==> order[i] in internalMap && values[i] == internalMap[order[i]]
      ensures forall i :: 0 <= i < |values| ==> values[i] in internalMap.Values
      ensures forall v :: v in internalMap.Values ==> v in values
    {
      values, order := [], [];
      var rest := internalMap.Keys;
      while rest != {}
        invariant rest <= internalMap.Keys
        invariant multiset(order) + multiset(rest) == multiset(internalMap.Keys)
        invariant |values| == |order|
        invariant forall i :: 0 <= i < |order| ==> order[i] in internalMap && values[i] == internalMap[order[i]]
        decreases rest
      {
        var k :| k in rest;
        values, order := values + [internalMap[k]], order + [k];
        rest := rest - {k};
      }
      EnumeratesSet(order, internalMap.Keys);
      forall v | v in internalMap.Values ensures v in values {
        var k :| k in internalMap && internalMap[k] == v;
        assert k in order;
        var i :| 0 <= i < |order| && order[i] == k;
        assert values[i] == v;
      }
    }

    /**
      The pairs `(key, value)` the visitor is called with, in call order: each
      stored entry exactly once. The method has no `modifies` clause, so the
      map is unchanged; the visitor's own effects are outside the model.
    */
    method ForEach() returns (visits: seq<(string, Value)>)
      ensures multiset(visits) == multiset(internalMap.Items)
      ensures |visits| == |internalMap|
    {
      visits := [];
      var rest := internalMap;
      while rest != map[]
        invariant forall k :: k in rest ==> k in internalMap && rest[k] == internalMap[k]
        invariant multiset(visits) + multiset(rest.Items) == multiset(internalMap.Items)
        decreases |rest|
      {
        var k :| k in rest;
        RemoveOneItem(rest, k);
        RemoveOneKey(rest, k);
        visits := visits + [(k, rest[k])];
        rest := rest - {k};
      }
      assert |multiset(internalMap.Items)| == |internalMap.Items|;
      assert |internalMap.Items| == |internalMap|;
    }
  }

  // ---------------------------------------------------------------------
  // Scenarios from the Go tests, as clients of the class
  // ---------------------------------------------------------------------

  /** A new map: `Get` reports absence as `(nil, false)`; after a `Set` it reports the value. */
  method GetScenario() returns (missing: Value, missingOk: bool, found: Value, foundOk: bool, n: nat)
    ensures missing == Nil && !missingOk
    ensures found == Str("value") && foundOk
    ensures n == 1
  {
    var m := new ThreadSafeMapImpl();
    missing, missingOk := m.Get("key");
    m.Set("key", Str("value"));
    found, foundOk := m.Get("key");
    n := m.Len();
  }

  /** Appending to a key holding `["value"]` gives `["value", "value"]`. */
  method AddListItemScenario() returns (outcome: AddOutcome, val: Value, ok: bool)
    ensures outcome == Done
    ensures ok && val == List([Str("value"), Str("value")])
  {
    var m := new ThreadSafeMapImpl();
    m.Set("key", List([Str("value")]));
    outcome := m.AddListItem("key", Str("value"));
    val, ok := m.Get("key");
  }

  /** Appending to a key holding a number fails and leaves the number in place. */
  method AddListItemMismatchScenario() returns (outcome: AddOutcome, val: Value)
    ensures outcome == NotAList && val == Int(42)
  {
    var m := new ThreadSafeMapImpl();
    m.Set("n", Int(42));
    outcome := m.AddListItem("n", Int(5));
    var ok;
    val, ok := m.Get("n");
  }
}
