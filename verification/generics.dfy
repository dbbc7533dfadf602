/**
  The pointer and slice helpers of generics.go. A Go pointer `*T` is a
  `Cell<T>` reference, nil is `null`. Go's zero value of a type parameter
  cannot be named in Dafny, so the helpers that return it take it as the
  parameter `zero`.
*/
module Generics {

  /** A heap cell holding one `T`: what `&temp` points to. */
  class Cell<T> {
    var value: T

    constructor (value: T)
      ensures this.value == value
    {
      this.value := value;
    }
  }

  /** `Ptr(t)`: a freshly allocated cell holding a copy of `t`. */
  method Ptr<T>(t: T) returns (p: Cell<T>)
    ensures fresh(p)
    ensures p.value == t
  {
    var temp := t;
    p := new Cell(temp);
  }

  function GetPtrValOrDefault<T>(t: Cell?<T>, defaultValue: T): (r: T)
    reads t
    ensures t == null ==> r == defaultValue
    ensures t != null ==> r == t.value
  {
    if t == null then defaultValue else t.value
  }

  function GetPtrValOrZero<T>(t: Cell?<T>, zero: T): (r: T)
    reads t
    ensures t == null ==> r == zero
    ensures t != null ==> r == t.value
  {
    GetPtrValOrDefault(t, zero)
  }

  function Last<T>(s: seq<T>, zero: T): (r: T)
    ensures |s| == 0 ==> r == zero
    ensures |s| > 0 ==> r == s[|s| - 1]
  {
    if |s| == 0 then zero else s[|s| - 1]
  }

  /** `Last` undoes an append: the last element of `s + [x]` is `x`. */
  lemma LastOfAppend<T>(s: seq<T>, x: T, zero: T)
    ensures Last(s + [x], zero) == x
  {
  }

  /** Dereferencing `Ptr(t)` gives back `t`, whatever the default. */
  method PtrRoundTrip<T>(t: T, defaultValue: T) returns (r: T)
    ensures r == t
  {
    var p := Ptr(t);
    r := GetPtrValOrDefault(p, defaultValue);
  }

  /** Two calls of `Ptr` on the same value never return the same cell. */
  method PtrAllocatesAnew<T>(t: T) returns (same: bool)
    ensures !same
  {
    var p := Ptr(t);
    var q := Ptr(t);
    same := p == q;
  }
}
