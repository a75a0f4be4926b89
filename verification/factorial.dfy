/** The naive iterative factorial used by the Poisson mass formula. */
module Factorial {

  /** n! by its recurrence; every argument at or below 1 gives 1, as the
      iterative version does for 0, 1 and negative inputs. */
  function Fact(n: int): (r: nat)
    ensures r >= 1
    decreases n
  {
    if n <= 1 then 1 else n * Fact(n - 1)
  }

  /** Multiplies 2, 3, ..., num into an accumulator that starts at 1. */
  method Factorial(num: int) returns (rval: int)
    ensures rval == Fact(num)
    ensures rval >= 1
    ensures num <= 1 ==> rval == 1
    ensures num >= 2 ==> rval == num * Fact(num - 1)
  {
    rval := 1;
    var i := 2;
    while i <= num
      invariant 2 <= i
      invariant i <= num + 1 || i == 2
      invariant rval == Fact(i - 1)
    {
      rval := rval * i;
      i := i + 1;
    }
  }
}
