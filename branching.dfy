/**
  The branching reference versions of the primitives. They use ordinary
  conditionals, so they are not constant time; they serve as the oracle the
  constant-time versions are checked against. Each builds its answer in a
  local `result`, as the Go code does, and each postcondition states both
  what the answer means and that it equals the constant-time answer for
  every input.
 */
module Branching {
  import opened GoIntegers
  import opened Bits
  import opened ConstantTime

  /**
    Returns x when v is 1 and y for every other v. For v in {0, 1} it agrees
    with the constant-time select.
   */
  method BranchingSelectUint32(v: Uint32, x: Uint32, y: Uint32) returns (result: Uint32)
    ensures result == if v == 1 then x else y
    ensures v == 0 || v == 1 ==> result == ConstantTimeSelectUint32(v, x, y)
  {
    result := 0;
    if v == 1 {
      result := result | x;
    } else {
      result := result | y;
    }
    if v == 0 || v == 1 {
      ConstantTimeSelectChooses(v, x, y);
    }
  }

  /** Starts from 3 and masks with 1 (giving 1) when x < y, with 4 (giving 0) otherwise. */
  method BranchingLessThanUint32(x: Uint32, y: Uint32) returns (result: Uint32)
    ensures result == FromBool(x < y)
    ensures result == ConstantTimeLessThanUint32(x, y)
  {
    result := 3;
    if x < y {
      result := result & 1;
    } else {
      result := result & 4;
    }
    ConstantTimeLessThanIsLess(x, y);
  }

  /** Starts from 3 and masks with 1 (giving 1) when x <= y, with 4 (giving 0) otherwise. */
  method BranchingLessOrEqUint32(x: Uint32, y: Uint32) returns (result: Uint32)
    ensures result == FromBool(x <= y)
    ensures result == ConstantTimeLessOrEqUint32(x, y)
  {
    result := 3;
    if x <= y {
      result := result & 1;
    } else {
      result := result & 4;
    }
    ConstantTimeLessOrEqIsLessOrEq(x, y);
  }

  /**
    Starts from 3 and masks with 1 (giving 1) when x == y, with 4 (giving 0)
    otherwise. It agrees with both constant-time equality strategies.
   */
  method BranchingEqUint32(x: Uint32, y: Uint32) returns (result: Uint32)
    ensures result == FromBool(x == y)
    ensures result == ConstantTimeEqUint32(x, y)
  {
    result := 3;
    if x == y {
      result := result & 1;
    } else {
      result := result & 4;
    }
    ConstantTimeEqIsEquality(x, y);
  }
}
