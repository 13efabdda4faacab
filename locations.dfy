/**
 * Branch locations: the predictors that keep one entry per branch location pick it
 * as `branch.address % numberOfLocations`, an unsigned remainder.
 */
module Locations {
  import opened Bits

  /** `address % numberOfLocations` on non-negative operands. */
  function BranchIndex(address: nat, numberOfLocations: nat): (i: nat)
    requires numberOfLocations >= 1
    ensures i < numberOfLocations
  {
    address % numberOfLocations
  }

  /** Addresses below the number of locations each have a location of their own. */
  lemma BranchIndexOfSmall(address: nat, n: nat)
    requires n >= 1 && address < n
    ensures BranchIndex(address, n) == address
  {
  }

  /** Addresses `n` apart share a location. */
  lemma BranchIndexPeriodic(a: nat, n: nat)
    requires n >= 1
    ensures BranchIndex(a, n) == BranchIndex(a + n, n)
  {
    var q, r := a / n, a % n;
    assert a + n == (q + 1) * n + r;
    DivModUnique(a + n, n, q + 1, r);
  }

  /** The remainder of a division is the only one below the divisor. */
  lemma DivModUnique(x: nat, n: nat, q: int, r: int)
    requires n >= 1 && 0 <= r < n && x == q * n + r
    ensures x % n == r
  {
    var k := q - x / n;
    assert k * n == x % n - r by {
      assert x == (x / n) * n + x % n;
      assert q * n - (x / n) * n == k * n;
    }
    if k >= 1 {
      MulLe(1, k, n);
    } else if k <= -1 {
      MulLe(1, -k, n);
    }
  }
}
