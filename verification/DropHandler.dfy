/** The drop handler: it counts a bus's dropped events and warns when the count is a power of two. */
module DropHandler {

  /** `bits.OnesCount64`. */
  function OnesCount(n: nat): nat {
    if n == 0 then 0 else n % 2 + OnesCount(n / 2)
  }

  /** The largest `k` with `2^k <= n`. */
  function Log2(n: nat): nat
    requires n >= 1
  {
    if n == 1 then 0 else 1 + Log2(n / 2)
  }

  function Pow2(k: nat): nat {
    if k == 0 then 1 else 2 * Pow2(k - 1)
  }

  lemma {:induction false} Log2IsFloor(n: nat)
    requires n >= 1
    ensures Pow2(Log2(n)) <= n < Pow2(Log2(n) + 1)
  {
    if n > 1 {
      Log2IsFloor(n / 2);
    }
  }

  lemma {:induction false} SomeBitIsSet(n: nat)
    requires n >= 1
    ensures OnesCount(n) >= 1
  {
    if n > 1 {
      SomeBitIsSet(n / 2);
    }
  }

  /** One set bit is a power of two. */
  lemma {:induction false} OneBitIsPowerOfTwo(n: nat)
    requires n >= 1
    ensures OnesCount(n) == 1 <==> n == Pow2(Log2(n))
  {
    if n > 1 {
      OneBitIsPowerOfTwo(n / 2);
      SomeBitIsSet(n / 2);
    }
  }

  lemma {:induction false} Log2Step(n: nat)
    requires n >= 1
    ensures Log2(n + 1) == Log2(n) + if OnesCount(n + 1) == 1 then 1 else 0
  {
    if n > 1 {
      SomeBitIsSet(n / 2);
      if n % 2 == 1 {
        assert (n + 1) / 2 == n / 2 + 1 && (n + 1) % 2 == 0;
        Log2Step(n / 2);
      } else {
        assert (n + 1) / 2 == n / 2 && (n + 1) % 2 == 1;
      }
    }
  }

  const MAX_INT64: nat := 0x7FFF_FFFF_FFFF_FFFF

  /** The handler of one bus; `warnings` stands for the log lines. */
  class Handler {
    var count: nat
    var warnings: nat

    constructor ()
      ensures Valid() && count == 0 && warnings == 0
    {
      count, warnings := 0, 0;
    }

    /** After `n >= 1` drops there have been `floor(log2 n) + 1` warnings. */
    predicate Valid()
      reads this
    {
      warnings == if count == 0 then 0 else Log2(count) + 1
    }

    method OnDrop() returns (warned: bool)
      requires Valid() && count < MAX_INT64
      modifies this
      ensures Valid() && count == old(count) + 1
      ensures warned <==> count == Pow2(Log2(count))
      ensures warnings == old(warnings) + if warned then 1 else 0
    {
      count := count + 1;
      OneBitIsPowerOfTwo(count);
      if count > 1 {
        Log2Step(count - 1);
      }
      warned := OnesCount(count) == 1;
      if warned {
        warnings := warnings + 1;
      }
    }
  }

  /** The warnings of `n` drops in a row, from the first. */
  function Warnings(n: nat): nat {
    if n == 0 then 0 else Warnings(n - 1) + if OnesCount(n) == 1 then 1 else 0
  }

  lemma {:induction false} WarningsAreLogarithmic(n: nat)
    requires n >= 1
    ensures Warnings(n) == Log2(n) + 1
    ensures Pow2(Warnings(n) - 1) <= n < Pow2(Warnings(n))
  {
    Log2IsFloor(n);
    if n > 1 {
      WarningsAreLogarithmic(n - 1);
      Log2Step(n - 1);
    } else {
      assert Warnings(0) == 0;
    }
  }
}
