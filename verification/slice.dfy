/**
  The generic slice helpers of slice.go. Each Go function walks its input
  slice with an index-carrying `for range` loop; here the input slice is a
  `seq` (none of them writes to it) and a slice built with `append` is a `seq`
  the loop extends. `Copy` allocates and fills a new backing array, so both of
  its slices are arrays. Callbacks take the element and its index, as in Go.
*/
module Slices {

  /**
    `ForEach` calls its visitor once per element. The visitor returns nothing
    and acts only through side effects, which are outside the model; what is
    kept is the log of its calls: the arguments `(value, idx)` of each call,
    in call order.
  */
  method ForEach<T>(inputSlice: seq<T>) returns (calls: seq<(T, int)>)
    ensures |calls| == |inputSlice|
    ensures forall i :: 0 <= i < |calls| ==> calls[i] == (inputSlice[i], i)
  {
    calls := [];
    for idx := 0 to |inputSlice|
      invariant |calls| == idx
      invariant forall i :: 0 <= i < idx ==> calls[i] == (inputSlice[i], i)
    {
      calls := calls + [(inputSlice[idx], idx)];
    }
  }

  /** The elements of `s[..n]` that `fn` keeps, in their original order. */
  function Filtered<T>(s: seq<T>, fn: (T, int) -> bool, n: nat): (r: seq<T>)
    requires n <= |s|
    ensures |r| <= n
  {
    if n == 0 then []
    else Filtered(s, fn, n - 1) + (if fn(s[n - 1], n - 1) then [s[n - 1]] else [])
  }

  /** The indices below `n` at which `fn` holds, in increasing order. */
  function KeptIndices<T>(s: seq<T>, fn: (T, int) -> bool, n: nat): seq<nat>
    requires n <= |s|
  {
    if n == 0 then []
    else KeptIndices(s, fn, n - 1) + (if fn(s[n - 1], n - 1) then [n - 1] else [])
  }

  /**
    `Filtered` selects exactly the elements `s[i]` with `fn(s[i], i)`: its
    j-th element is `s[idx[j]]` for a strictly increasing list `idx` of
    indices, and an index is in `idx` exactly when `fn` holds there.
  */
  lemma {:induction false} FilteredSelects<T>(s: seq<T>, fn: (T, int) -> bool, n: nat)
    requires n <= |s|
    ensures |Filtered(s, fn, n)| == |KeptIndices(s, fn, n)|
    ensures forall j :: 0 <= j < |KeptIndices(s, fn, n)| ==>
      KeptIndices(s, fn, n)[j] < n && Filtered(s, fn, n)[j] == s[KeptIndices(s, fn, n)[j]]
    ensures forall j, k :: 0 <= j < k < |KeptIndices(s, fn, n)| ==>
      KeptIndices(s, fn, n)[j] < KeptIndices(s, fn, n)[k]
    ensures forall i :: 0 <= i < n ==> (fn(s[i], i) <==> i in KeptIndices(s, fn, n))
  {
    if n > 0 {
      FilteredSelects(s, fn, n - 1);
    }
  }

  method Filter<T>(inputSlice: seq<T>, fn: (T, int) -> bool) returns (d: seq<T>)
    ensures d == Filtered(inputSlice, fn, |inputSlice|)
    ensures |d| <= |inputSlice|
  {
    d := [];
    for idx := 0 to |inputSlice|
      invariant d == Filtered(inputSlice, fn, idx)
    {
      if fn(inputSlice[idx], idx) {
        d := d + [inputSlice[idx]];
      }
    }
  }

  method Map<T1, T2>(inputSlice: seq<T1>, fn: (T1, int) -> T2) returns (d: seq<T2>)
    ensures |d| == |inputSlice|
    ensures forall i :: 0 <= i < |d| ==> d[i] == fn(inputSlice[i], i)
  {
    d := [];
    for idx := 0 to |inputSlice|
      invariant |d| == idx
      invariant forall i :: 0 <= i < idx ==> d[i] == fn(inputSlice[i], i)
    {
      d := d + [fn(inputSlice[idx], idx)];
    }
  }

  /**
    The first element accepted by `fn`, or `(zero, false)` when there is none.
    `zero` stands for Go's zero value of `T` (`var notFound T`), which Dafny
    cannot name for a type parameter.
  */
  method Find<T>(inputSlice: seq<T>, fn: (T, int) -> bool, zero: T) returns (value: T, found: bool)
    ensures found <==> exists i :: 0 <= i < |inputSlice| && fn(inputSlice[i], i)
    ensures found ==> exists i :: 0 <= i < |inputSlice| && fn(inputSlice[i], i) && value == inputSlice[i]
                                  && forall j :: 0 <= j < i ==> !fn(inputSlice[j], j)
    ensures !found ==> value == zero
  {
    for idx := 0 to |inputSlice|
      invariant forall j :: 0 <= j < idx ==> !fn(inputSlice[j], j)
    {
      if fn(inputSlice[idx], idx) {
        return inputSlice[idx], true;
      }
    }
    return zero, false;
  }

  /** A new backing array holding the same elements; the input is only read. */
  method Copy<T(0)>(inputSlice: array<T>) returns (d: array<T>)
    ensures fresh(d)
    ensures d.Length == inputSlice.Length
    ensures d[..] == inputSlice[..]
  {
    d := new T[inputSlice.Length];
    for idx := 0 to inputSlice.Length
      invariant d[..idx] == inputSlice[..idx]
    {
      d[idx] := inputSlice[idx];
    }
    assert d[..] == d[..inputSlice.Length];
  }
}
