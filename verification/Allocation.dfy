/** bdrv_is_allocated (block.c). */
module Allocation {

  /** Whether a sector is allocated in the image itself, and a number of following sectors in the same
      state: at least one, at most nb, never past the end. How many is the driver's affair; `look`
      bounds it. */
  method IsAllocated(present: nat -> bool, total: nat, sector: nat, nb: nat, look: nat) returns (ret: bool, n: nat)
    requires nb > 0
    ensures sector >= total ==> !ret && n == 0
    ensures sector < total ==> 1 <= n <= nb && sector + n <= total
    ensures forall x :: sector <= x < sector + n ==> present(x) == ret
  {
    if sector >= total {
      return false, 0;
    }
    ret, n := present(sector), 1;
    var limit := if total - sector < nb then total - sector else nb;
    while n < limit && n < look && present(sector + n) == ret
      invariant 1 <= n <= limit
      invariant forall x :: sector <= x < sector + n ==> present(x) == ret
    {
      n := n + 1;
    }
  }
}
