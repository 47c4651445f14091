/**
 * The random manager every factory and room draws from. Its generator is not part
 * of this model: each draw is an arbitrary value in the requested range, which is
 * all that the callers rely on.
 */
module Random {

  class RandomManager {
    /** How many values have been drawn so far. */
    var draws: nat

    constructor ()
      ensures draws == 0
    {
      draws := 0;
    }

    /** A real in [0, 1[. */
    method Get() returns (r: real)
      modifies this
      ensures 0.0 <= r < 1.0
      ensures draws == old(draws) + 1
    {
      r :| 0.0 <= r < 1.0;
      draws := draws + 1;
    }

    /** A real between `lo` and `hi`. */
    method GetBetween(lo: real, hi: real) returns (r: real)
      requires lo <= hi
      modifies this
      ensures lo <= r <= hi
      ensures draws == old(draws) + 1
    {
      r := lo;
      draws := draws + 1;
    }

    /** An integer in [min, max[. */
    method GetInt(min: int, max: int) returns (r: int)
      requires min < max
      modifies this
      ensures min <= r < max
      ensures draws == old(draws) + 1
    {
      r :| min <= r < max;
      draws := draws + 1;
    }

    /** The position of the element chosen from a sequence of length `n`. */
    method GetIndex(n: nat) returns (i: nat)
      requires 0 < n
      modifies this
      ensures i < n
      ensures draws == old(draws) + 1
    {
      i :| i < n;
      draws := draws + 1;
    }
  }
}
