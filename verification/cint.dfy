/**
 The pieces of C integer semantics the watch application relies on: the
 32-bit `int` range and the remainder operator, which in C truncates toward
 zero (Dafny's `%` is Euclidean and never negative).
 */
module CInt {

  const Int32Min: int := -0x8000_0000
  const Int32Max: int := 0x7FFF_FFFF

  /** True iff `x` fits in a C `int` (and a 32-bit `time_t`). */
  predicate Int32(x: int) {
    Int32Min <= x <= Int32Max
  }

  /** The mathematical absolute value. */
  function Abs(x: int): (r: nat)
    ensures r == x || r == -x
  {
    if x < 0 then -x else x
  }

  /**
   C's `a % 60`: the remainder carries the sign of the dividend, so -30 % 60
   is -30 in C where Dafny's -30 % 60 is 30. Sixty is the only divisor the
   application uses.
   */
  function CRem60(a: int): (r: int)
    ensures (a - r) % 60 == 0
    ensures a >= 0 ==> 0 <= r < 60
    ensures a < 0 ==> -60 < r <= 0
  {
    if a >= 0 then a % 60 else -((-a) % 60)
  }

  /** A remainder of zero means the same thing under both conventions. */
  lemma CRem60ZeroIff(a: int)
    ensures CRem60(a) == 0 <==> a % 60 == 0
  {
  }
}
