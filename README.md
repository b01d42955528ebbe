# constant-time-go in Dafny

A model of `constant_time.go`, a Go library of branch-free primitives on
`uint32` operands for security-sensitive code. Comparisons return a
boolean-as-integer (exactly 1 for true, 0 for false), so their results can
be combined with bitwise operators. The library has:

- a constant-time set: select, unsigned less-than, unsigned less-or-equal,
  and equality computed two ways (a bit fold, and the sign bit of a
  widened difference);
- a branching set: the same operations written with `if`, used as a
  reference oracle.

Go `uint32` is `bv32`. Go `int64` is its 64-bit two's-complement bit
pattern, a `bv64`. `int64(x)` is zero extension, signed subtraction is
`bv64` subtraction (both wrap the same way), and `>>` on a signed value
is an arithmetic shift (`GoIntegers.ShiftRightArith`). The
single-expression Go functions are Dafny functions, with lemmas stating
what they mean. The Go functions that build their answer by reassigning a
local (`z &= …`, `result &= …`) are straight-line Dafny methods. Each
method's postcondition states what the answer means. For a branching
method it also states that the answer equals the constant-time one: for
all inputs for the comparisons, and for select for every selector of 0
or 1 (the constant-time select is undefined for other selectors).

Files:

- `go_integers.dfy`: Go's `int64`/`uint32` conversions and arithmetic shift, and the no-overflow facts about the widened difference.
- `bits.dfy`: the boolean-as-integer convention, and the conjunction of the low bits of a word.
- `constant_time.dfy`: the constant-time primitives and their correctness lemmas.
- `branching.dfy`: the branching oracles.
- `laws.dfy`: ordering laws and the rows of the library's test tables.

## Model

| member | source | states |
|---|---|---|
| `ConstantTime.ConstantTimeSelectChooses` | constant_time.go:15-17 | for a selector of 0 or 1, select returns x when the selector is 1 and y when it is 0, for every x and y |
| `ConstantTime.ConstantTimeLessThanIsLess` | constant_time.go:19-22 | the less-than result is 1 exactly when x < y as unsigned numbers, and 0 otherwise |
| `ConstantTime.ConstantTimeLessOrEqIsLessOrEq` | constant_time.go:24-27 | the less-or-equal result is 1 exactly when x <= y as unsigned numbers, and 0 otherwise |
| `ConstantTime.ConstantTimeEqIsEquality` | constant_time.go:41-45 | the widened-difference equality result is 1 exactly when x == y, and 0 otherwise |
| `ConstantTime.ConstantTimeEqUint32Alternate` | constant_time.go:29-39 | after the five shift-and-AND folds, bit 0 is the AND of all 32 bits of the complement of x ^ y; the result is 1 exactly when x == y; it equals the widened-difference equality result for all inputs |
| `Branching.BranchingSelectUint32` | constant_time.go:47-55 | returns x when the selector is 1 and y for any other selector; for a selector of 0 or 1 it equals the constant-time select |
| `Branching.BranchingLessThanUint32` | constant_time.go:57-65 | 3 & 1 gives 1 when x < y and 3 & 4 gives 0 otherwise; equals the constant-time less-than for all inputs |
| `Branching.BranchingLessOrEqUint32` | constant_time.go:67-75 | 1 when x <= y and 0 otherwise; equals the constant-time less-or-equal for all inputs |
| `Branching.BranchingEqUint32` | constant_time.go:77-85 | 1 when x == y and 0 otherwise; equals the constant-time equality for all inputs (and so the fold version too) |
| `GoIntegers.ShiftRightArith` | constant_time.go:21 | Go's signed `>>` keeps the sign of its operand |
| `GoIntegers.SignSpread` | constant_time.go:21 | an arithmetic shift right by 63 gives all ones for a negative value and zero otherwise, so `& 1` keeps exactly the sign bit |
| `GoIntegers.ToUint32OfWidened` | constant_time.go:20-21 | `uint32(int64(x)) == x`, and `int64(x)` of a `uint32` is never negative |
| `GoIntegers.WidenedDifferenceSign` | constant_time.go:20-21 | `int64(x) - int64(y)` is negative exactly when x < y |
| `GoIntegers.WidenedDifferenceMinusOneSign` | constant_time.go:25-26 | `int64(x) - int64(y) - 1` is negative exactly when x <= y |
| `GoIntegers.WidenedDifferenceLow` | constant_time.go:20 | the low 32 bits of the widened difference are the wrapped 32-bit difference |
| `GoIntegers.WidenedDifferenceRange` | constant_time.go:20 | the widened difference lies between -(2^32-1) and 2^32-1 (no `int64` overflow), so its high half is all zeros or all ones |
| `GoIntegers.WidenedDifferenceExact` | constant_time.go:20 | the widened difference is the exact two's-complement difference: low half x - y wrapped, high half the borrow of x < y spread over 32 bits |
| `GoIntegers.WidenedDifferenceZero` | constant_time.go:43 | the widened difference is zero exactly when x == y |
| `GoIntegers.PredecessorXorSign` | constant_time.go:44 | for a difference that cannot overflow, `(d-1) ^ d` has its sign bit set exactly when d is zero |
| `GoIntegers.NarrowDifferenceLosesSign` | constant_time.go:20 | without widening the trick fails: for 0 < 0x8000_0001 the 32-bit wrapped difference has a clear sign bit, while the widened one is negative |
| `Bits.FromBool` | constant_time.go:7-9 | the boolean-as-integer value is exactly 0 or 1, and it is non-zero exactly when the boolean holds |
| `Bits.FromBoolLogic` | constant_time.go:7-9 | boolean-as-integer values combine with `&`, `\|` and `^ 1` as the logical and, or and not |
| `Bits.LowBitsSetMask` | constant_time.go:31-38 | the conjunction of the k lowest bits of z holds exactly when z covers the k-bit low mask |
| `Bits.AllBitsSetIffOnes` | constant_time.go:31-38 | all 32 bits of z are set exactly when z is 0xFFFF_FFFF |
| `ConstantTimeLaws.EqSymmetric` | constant_time.go:41-45 | equality does not depend on operand order |
| `ConstantTimeLaws.LessThanAsymmetric` | constant_time.go:19-22 | less-than(x, y) & less-than(y, x) is 0 |
| `ConstantTimeLaws.LessOrEqTotal` | constant_time.go:24-27 | less-or-equal(x, y) \| less-or-equal(y, x) is 1 |
| `ConstantTimeLaws.SelectExtremes` | constant_time.go:15-17 | select with operands 0 and 0xFFFF_FFFF, and with equal operands, returns the chosen operand |
| `ConstantTimeLaws.LessThanTable` | constant_time_test.go:14-18 | the less-than rows: (0,1)→1, (2,2)→0, (2^31,2^31)→0, (17,2^31)→1, and (2^32,0)→0, where Go's `2^32` is the exclusive-or 34 |
| `ConstantTimeLaws.LessOrEqTable` | constant_time_test.go:38-42 | the less-or-equal rows: (0,1)→1, (2,2)→1, (2^31,2^31)→1, (17,2^31)→1, (34,0)→0 |
| `ConstantTimeLaws.EqTable` | constant_time_test.go:62-66 | the equality rows: (0,1)→0, (2,2)→1, (2^31,2^31)→1, (17,2^31)→0, (34,0)→0 |

## Left out

- Constant execution time itself (no data-dependent branches, no timing dependence on the operands): timing cannot be stated in Dafny. The model states functional correctness only.
- The benchmarks, `randUint32s` and the `t.Errorf` test drivers in constant_time_test.go: they are a timing harness built on `math/rand` and `testing`. Only the test tables' rows are kept, as lemmas.
- `notMSB` (constant_time.go:4): it is computed but never used.
- ConstantTime.ConstantTimeSelectUint32: it requires a selector of 0 or 1. The source documents any other selector as undefined behaviour. For such selectors the Go code returns a bitwise mix of x and y, while the branching version returns y, so the two do not agree there.
- GoIntegers.ShiftRightArith: Go's signed `>>` is modelled as a sign-filling shift on the bit pattern. Its agreement with floor division by 2^k is not stated, because the model relates `int64` bit patterns to mathematical integers only through their bits.
- GoIntegers.WidenedDifferenceRange: the range [-(2^32-1), 2^32-1] is stated on the two's-complement bit pattern, not as an integer inequality.
