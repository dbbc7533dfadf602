/**
  `Max` and `Min` of math.go, instantiated at Go's `int` (modelled as an
  unbounded `int`: they only compare, so no overflow arises). Both are
  accumulator loops whose accumulator starts at the zero value of the type,
  not at the first argument, so the zero value takes part in the comparison.
*/
module MathHelpers {

  /** The larger of 0 and the largest argument; 0 when there are no arguments. */
  method Max(values: seq<int>) returns (maxValue: int)
    ensures maxValue >= 0
    ensures forall i :: 0 <= i < |values| ==> values[i] <= maxValue
    ensures maxValue == 0 || maxValue in values
  {
    maxValue := 0;
    for idx := 0 to |values|
      invariant maxValue >= 0
      invariant forall i :: 0 <= i < idx ==> values[i] <= maxValue
      invariant maxValue == 0 || maxValue in values[..idx]
    {
      if values[idx] > maxValue {
        maxValue := values[idx];
      }
    }
    assert values[..|values|] == values;
  }

  /** The smaller of 0 and the smallest argument; 0 when there are no arguments. */
  method Min(values: seq<int>) returns (minValue: int)
    ensures minValue <= 0
    ensures forall i :: 0 <= i < |values| ==> minValue <= values[i]
    ensures minValue == 0 || minValue in values
  {
    minValue := 0;
    for idx := 0 to |values|
      invariant minValue <= 0
      invariant forall i :: 0 <= i < idx ==> minValue <= values[i]
      invariant minValue == 0 || minValue in values[..idx]
    {
      if values[idx] < minValue {
        minValue := values[idx];
      }
    }
    assert values[..|values|] == values;
  }

  /**
    On arguments that are all positive, `Min` returns 0, which is not one of
    them: `Min(1, 5, 3)` is 0, not the 1 that util/math_test.go expects.
  */
  method MinOfPositives(values: seq<int>) returns (m: int)
    requires values != []
    requires forall i :: 0 <= i < |values| ==> values[i] > 0
    ensures m == 0 && m !in values
  {
    m := Min(values);
  }

  /** On arguments that are all negative, `Max` returns 0, which is not one of them. */
  method MaxOfNegatives(values: seq<int>) returns (m: int)
    requires values != []
    requires forall i :: 0 <= i < |values| ==> values[i] < 0
    ensures m == 0 && m !in values
  {
    m := Max(values);
  }

  /**
    The minimum as the tests expect it: the accumulator starts at the first
    argument; with no arguments the result is still the zero value.
  */
  method MinCorrected(values: seq<int>) returns (minValue: int)
    ensures values == [] ==> minValue == 0
    ensures values != [] ==> minValue in values
    ensures forall i :: 0 <= i < |values| ==> minValue <= values[i]
  {
    if values == [] {
      return 0;
    }
    minValue := values[0];
    for idx := 1 to |values|
      invariant minValue in values[..idx]
      invariant forall i :: 0 <= i < idx ==> minValue <= values[i]
    {
      if values[idx] < minValue {
        minValue := values[idx];
      }
    }
    assert values[..|values|] == values;
  }

  /** The maximum with the accumulator started at the first argument. */
  method MaxCorrected(values: seq<int>) returns (maxValue: int)
    ensures values == [] ==> maxValue == 0
    ensures values != [] ==> maxValue in values
    ensures forall i :: 0 <= i < |values| ==> values[i] <= maxValue
  {
    if values == [] {
      return 0;
    }
    maxValue := values[0];
    for idx := 1 to |values|
      invariant maxValue in values[..idx]
      invariant forall i :: 0 <= i < idx ==> values[i] <= maxValue
    {
      if values[idx] > maxValue {
        maxValue := values[idx];
      }
    }
    assert values[..|values|] == values;
  }

  /** The test case `Min(1, 5, 3)`: 0 as written, 1 once corrected. */
  method MinTestCase() returns (asWritten: int, corrected: int)
    ensures asWritten == 0 && corrected == 1
  {
    var values := [1, 5, 3];
    assert values[0] == 1 && values[1] == 5 && values[2] == 3;
    asWritten := Min(values);
    corrected := MinCorrected(values);
  }

  /** The test case `Max(1, 5, 3)`: 5 both as written and corrected. */
  method MaxTestCase() returns (asWritten: int, corrected: int)
    ensures asWritten == 5 && corrected == 5
  {
    var values := [1, 5, 3];
    assert values[0] == 1 && values[1] == 5 && values[2] == 3;
    asWritten := Max(values);
    corrected := MaxCorrected(values);
  }
}
