# go-tools utilities in Dafny

A model of the parts of the `go-tools` helper library that carry logic:

- `ThreadSafeMap` (go-tools/util/thread_safe_map.go): a `map[string]interface{}`
  guarded by one mutex, with `Get`, `Set`, `Update` (read-modify-write through a
  caller's combine function), `AddListItem` (append to a per-key list),
  `Delete`, `Len`, `Keys`, `Values` and `ForEach`. Every Go method holds the
  lock for its whole body, so each is one atomic step here: a method of the
  class `ThreadSafeMapImpl` on its field `internalMap: map<string, Value>`.
  `Value` is a tagged variant standing for `interface{}`: nil, a bool, an
  int, a string or a `[]interface{}` list. The pure functions `Stored`,
  `Updated`, `Appended` and `Deleted` give the map after each mutating
  operation. The lemmas about sequences of operations (`LastSetWins`,
  `UpdatesAccumulate`, `AppendsAccumulate`) cover every order in which
  concurrent callers can take the lock. That is how the model states "no
  lost update" and "append order is lock order".
- The slice helpers `ForEach`, `Filter`, `Map`, `Find`, `Copy` (slice.go),
  as methods with index-carrying loops.
- The map helpers `GetMapKeys` and `GetOrFill` (util/map.go). A Go map is a
  reference, so `GetOrFill`, which writes into the caller's map, takes a
  `GoMap` object.
- `Max` and `Min` of math.go at type `int`, as the accumulator loops they are.
- `Ptr`, `GetPtrValOrDefault`, `GetPtrValOrZero`, `Last` (generics.go). A
  Go pointer is a `Cell<T>` reference and nil is `null`.

Go map iteration order is unspecified. The enumerating loops (`Keys`,
`Values`, `ForEach`, `GetMapKeys`) pick each next key arbitrarily. Their
results are specified up to order, as multisets.

Go's zero value of a type parameter has no Dafny expression. `Find`,
`GetOrFill`, `GetPtrValOrZero` and `Last` therefore take it as an explicit
parameter `zero`. In the thread-safe map the zero value is `Nil`, and in
`Max`/`Min` it is `0`.

`AddListItem` on a key holding a non-list panics in Go (the type assertion
on line 54, which also fails for a stored nil). The lock is released by
`defer` and nothing has been written yet. The model returns `NotAList` and
leaves the map unchanged.

## Model

| member | source | states |
|---|---|---|
| ThreadSafeMap.ThreadSafeMapImpl.constructor | go-tools/util/thread_safe_map.go:22-26 | a new map is empty |
| ThreadSafeMap.ThreadSafeMapImpl.Get | go-tools/util/thread_safe_map.go:28-34 | found exactly when the key is stored; then the stored value, otherwise nil |
| ThreadSafeMap.Stored | go-tools/util/thread_safe_map.go:35-40 | after Set the key holds the new value, every other key keeps its presence and value, and the size grows only for a new key |
| ThreadSafeMap.ThreadSafeMapImpl.Set | go-tools/util/thread_safe_map.go:35-40 | the new map is `Stored` of the old one |
| ThreadSafeMap.SetIdempotent | go-tools/util/thread_safe_map.go:35-40 | setting the same value twice equals setting it once |
| ThreadSafeMap.LastSetWins | go-tools/util/thread_safe_map.go:35-40 | after any order of Sets on one key, the key holds the last written value, which is one of the written values; other keys are untouched |
| ThreadSafeMap.Updated | go-tools/util/thread_safe_map.go:42-47 | after Update the key is present and holds `fn(old, value)`, with nil for `old` when the key was absent; other keys are unchanged |
| ThreadSafeMap.ThreadSafeMapImpl.Update | go-tools/util/thread_safe_map.go:42-47 | the new map is `Updated` of the old one |
| ThreadSafeMap.UpdatesAccumulate | go-tools/util/thread_safe_map.go:42-47 | n updates adding 1 to an absent key leave exactly n, so no increment is lost; other keys are untouched |
| ThreadSafeMap.Appended | go-tools/util/thread_safe_map.go:49-58 | fails exactly when the key holds a non-list; otherwise an absent key gets `[value]` and a list `L` becomes `L + [value]`, with other keys unchanged |
| ThreadSafeMap.ThreadSafeMapImpl.AddListItem | go-tools/util/thread_safe_map.go:49-58 | reports `NotAList` exactly when `Appended` fails, and then leaves the map unchanged; otherwise the new map is `Appended` of the old one |
| ThreadSafeMap.AppendsAccumulate | go-tools/util/thread_safe_map.go:49-58 | appending `vs` item by item to an absent key or list `L` leaves `L + vs`, in call order, none lost or duplicated |
| ThreadSafeMap.AppendsOfOneItem | go-tools/util/thread_safe_map.go:49-58 | n appends of `x` to an absent key leave a list of exactly n copies of `x` |
| ThreadSafeMap.AppendToNonListFails | go-tools/util/thread_safe_map.go:53-54 | once a key holds a non-list, any further appends fail |
| ThreadSafeMap.Deleted | go-tools/util/thread_safe_map.go:60-65 | after Delete the key is absent, other keys are unchanged, and the size drops only if the key was present |
| ThreadSafeMap.ThreadSafeMapImpl.Delete | go-tools/util/thread_safe_map.go:60-65 | the new map is `Deleted` of the old one |
| ThreadSafeMap.DeleteIdempotent | go-tools/util/thread_safe_map.go:60-65 | deleting an absent key is a no-op; deleting twice equals deleting once |
| ThreadSafeMap.DeleteUndoesSet | go-tools/util/thread_safe_map.go:35-65 | Set of a new key followed by Delete of it restores the map |
| ThreadSafeMap.ThreadSafeMapImpl.Len | go-tools/util/thread_safe_map.go:67-72 | the number of stored keys |
| ThreadSafeMap.ThreadSafeMapImpl.Keys | go-tools/util/thread_safe_map.go:74-83 | a permutation of the stored key set; its length equals `Len` |
| ThreadSafeMap.EnumeratesSet | go-tools/util/thread_safe_map.go:74-83 | a sequence with the multiset of a set has that set's size, lists exactly its elements and has no duplicates |
| ThreadSafeMap.ThreadSafeMapImpl.Values | go-tools/util/thread_safe_map.go:85-94 | one value per stored key: position i holds the value of the i-th key of an enumeration of the key set; every element is a stored value and every stored value appears; length equals `Len` |
| ThreadSafeMap.ThreadSafeMapImpl.ForEach | go-tools/util/thread_safe_map.go:96-103 | the visitor is called once per stored (key, value) pair, the calls are a permutation of the entries, and the map is unchanged |
| ThreadSafeMap.GetScenario | thread_safe_map_test.go:10-36 | on a new map Get gives `(nil, false)`; after a Set it gives the value, and Len is 1 |
| ThreadSafeMap.AddListItemScenario | thread_safe_map_test.go:260-268 | appending to a key holding `["value"]` succeeds and gives `["value", "value"]` |
| ThreadSafeMap.AddListItemMismatchScenario | go-tools/util/thread_safe_map.go:53-54 | appending to a key holding 42 fails and leaves 42 stored |
| Slices.ForEach | slice.go:3-7 | the visitor is called once per index, in increasing order, with `(s[i], i)` |
| Slices.Filtered | slice.go:9-18 | the kept elements of a prefix are never more than the prefix |
| Slices.FilteredSelects | slice.go:9-18 | the filter result is `s[idx[0]], s[idx[1]], ...` for a strictly increasing `idx` that holds exactly the indices where `fn` holds |
| Slices.Filter | slice.go:9-18 | the result is `Filtered` of the whole input and never longer than it |
| Slices.Map | slice.go:20-27 | same length, and `d[i] == fn(s[i], i)` at every index |
| Slices.Find | slice.go:29-38 | found exactly when some element satisfies `fn`; then the element at the smallest such index; otherwise the zero value |
| Slices.Copy | slice.go:40-47 | a fresh array of the same length, equal element by element |
| MapHelpers.GetMapKeys | util/map.go:3-12 | a fresh array of length `len(inputMap)` holding every key exactly once |
| MapHelpers.Filled | util/map.go:14-22 | afterwards the key is present; a present key leaves the map unchanged; an absent key gets the zero value; other keys are unchanged |
| MapHelpers.FilledIdempotent | util/map.go:14-22 | a second GetOrFill of the same key changes nothing |
| MapHelpers.GetOrFill | util/map.go:14-22 | on a nil map it panics; otherwise the map becomes `Filled` of the old one, and the result is the stored value for a present key, otherwise the zero value, now stored under the key |
| MathHelpers.Max | math.go:42-51 | the result is at least 0 and at least every argument, and it is 0 or one of the arguments (0 for no arguments) |
| MathHelpers.Min | math.go:53-62 | the result is at most 0 and at most every argument, and it is 0 or one of the arguments (0 for no arguments) |
| MathHelpers.MinOfPositives | math.go:53-62 | on all-positive arguments Min returns 0, which is none of them |
| MathHelpers.MaxOfNegatives | math.go:42-51 | on all-negative arguments Max returns 0, which is none of them |
| MathHelpers.MinCorrected | math.go:53-62 | with the accumulator started at the first argument: the true minimum, or 0 for no arguments |
| MathHelpers.MaxCorrected | math.go:42-51 | with the accumulator started at the first argument: the true maximum, or 0 for no arguments |
| MathHelpers.MinTestCase | util/math_test.go:57-62 | `Min(1, 5, 3)` is 0 as written and 1 when corrected |
| MathHelpers.MaxTestCase | util/math_test.go:43-44 | `Max(1, 5, 3)` is 5 as written and when corrected |
| Generics.Cell.constructor | generics.go:3-6 | a new cell holds the given value |
| Generics.Ptr | generics.go:3-6 | a freshly allocated cell holding `t` |
| Generics.PtrRoundTrip | generics_test.go:28-29 | dereferencing `Ptr(t)` gives back `t` |
| Generics.PtrAllocatesAnew | generics.go:3-6 | two calls of Ptr never return the same cell |
| Generics.GetPtrValOrDefault | generics.go:8-13 | the default for nil, otherwise the pointee |
| Generics.GetPtrValOrZero | generics.go:15-18 | the zero value for nil, otherwise the pointee |
| Generics.Last | generics.go:20-26 | the zero value for an empty slice, otherwise the last element |
| Generics.LastOfAppend | generics.go:20-26 | the last element of `s + [x]` is `x` |
| MapHelpers.GoMap.constructor | util/map.go:14 | a map reference holds the given entries |

## Left out

- ThreadSafeMap.Appended: lists are modelled as values, not as Go slices with a backing array and a capacity. Go's `append` at go-tools/util/thread_safe_map.go:54 writes into the backing array in place when it has spare capacity. That array may be shared with another stored list or with a caller's slice, for example after `Set("b", l)` and `Set("c", l)` with one slice `l`, or after `Set("c", x)` where `x` came from `Get("a")`. An append under one key can then change what another key holds. The proved frame ("other keys unchanged") holds in Go only when no other stored list and no caller slice shares the key's backing array.
- ThreadSafeMap.ThreadSafeMapImpl.AddListItem: it inherits the same limit. Its result equals `Appended`, so the same sharing caveat applies to its frame on other keys.
- ThreadSafeMap.ThreadSafeMapImpl.constructor: only maps made by `NewThreadSafeMap` are modelled. The zero value `ThreadSafeMapImpl{}` has a nil `internalMap`. On it `Set`, `Update` and `AddListItem` panic at their map writes (go-tools/util/thread_safe_map.go:39, 46 and 57), while `Get`, `Len`, `Keys`, `Values`, `ForEach` and `Delete` behave as on an empty map. The class cannot reach that state.
- MapHelpers.GetOrFill: a nil map is `null` and is modelled as a panic, reported through `panicked` (util/map.go:19). The model does not say what a recovering caller would observe beyond that.
- MapHelpers.GetOrFill: map keys are assumed to equal themselves and to be hashable. The key type is any `comparable` (util/map.go:14), but a NaN float key never matches itself in Go: each call misses it at util/map.go:15, returns zero and adds another entry at util/map.go:19. An interface key whose dynamic type is unhashable (a slice, say) makes the lookup at util/map.go:15 panic. Neither is modelled.
- MapHelpers.Filled: it assumes the same reflexive, hashable keys. For a NaN key the key is not found after the fill in Go, and the map grows by one entry instead.
- MapHelpers.FilledIdempotent: it holds only for keys equal to themselves. In Go a second `GetOrFill` of a NaN key adds yet another entry.
- Generics.Ptr: freshness holds only for types of non-zero size. Go allows pointers to distinct zero-size variables to be equal, and the gc runtime gives every zero-size heap object (for example `struct{}`) one shared address, so `Ptr` at generics.go:3-6 may return a pointer equal to an earlier one.
- Generics.PtrAllocatesAnew: it holds only for types of non-zero size. For a zero-size `T`, two `Ptr` results may compare equal in Go.
- Locking: the `sync.RWMutex` (only ever `Lock`ed) is not modelled. Each method is one atomic step. Interleavings appear only as the orders covered by the sequence lemmas.
- The deadlock when a `ForEach` visitor calls back into the same map is not modelled.
- ThreadSafeMap.ThreadSafeMapImpl.ForEach: the visitor's own side effects are outside the model. The method returns the log of the `(key, value)` pairs it was called with.
- Slices.ForEach: the same holds for the slice visitor. The method returns the log of its `(value, idx)` arguments.
- Values that `interface{}` can hold beyond nil, bool, int, string and `[]interface{}` (structs, maps, typed nil slices) are not modelled. `AddListItem` treats every non-list case alike.
- Combine functions and predicates passed to `Update`, `Filter`, `Map` and `Find` are pure Dafny functions. Callbacks with side effects or panics are not modelled.
- The zero value of a type parameter is passed as `zero` by the caller. The model does not check that callers pass Go's actual zero value.
- `Average`, `Sum` and `StdDev` (math.go:8-40) and the float instantiation of `Max`/`Min` (math.go:42-62, called with floats at util/math_test.go:47) are left out: floating point and `math.Sqrt`.
- web.go (HTTP through resty, JSON), logger/logger.go (zap and lumberjack, file creation), ctx/ctx.go (`time.Now`, printing), goroutine.go (errgroup and `recover`), go-tools/env/env.go (`.env` file and process environment) and util/time.go (`time.Date`) are left out: I/O, concurrency and library calls.
- The tests call `GetOrFill` with a third default argument (util/map_test.go:35 and 41). util/map.go:14 has no such parameter. The model follows the code, which stores the zero value.
- Go's `int` width is not modelled. `Max`/`Min` only compare, so no overflow arises. The `AddInts` combine function in the sequence lemma adds without bound.

## Findings

| source | as written | input that shows it | evidently intended | confidence | as-written member | corrected member |
|---|---|---|---|---|---|---|
| math.go:53-62 | `minValue` starts at the zero value 0, so any non-negative argument loses to it | `Min(1, 5, 3)` returns 0 | the smallest argument, 1, which util/math_test.go:58 expects | high, not executed | MathHelpers.MinOfPositives | MathHelpers.MinCorrected |
| math.go:42-51 | `maxValue` starts at the zero value 0, so any non-positive argument loses to it | `Max(-3, -1)` returns 0 | the largest argument, -1 | medium (no test covers negative inputs), not executed | MathHelpers.MaxOfNegatives | MathHelpers.MaxCorrected |
