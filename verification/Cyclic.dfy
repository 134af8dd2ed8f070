/** Positions on a ring of `n` slots, as the linear-probing loops walk them. */
module Cyclic {

  /** The slot after `i`, wrapping round at the end of the table. */
  function Next(i: nat, n: nat): (r: nat)
    requires i < n
    ensures r < n && r == (i + 1) % n
  {
    NextMod(i, n);
    if i + 1 == n then 0 else i + 1
  }

  lemma NextMod(i: nat, n: nat)
    requires i < n
    ensures (i + 1) % n == if i + 1 == n then 0 else i + 1
  {
    if i + 1 == n {
      assert n % n == 0;
    }
  }

  /** How many steps of `Next` lead from `a` to `b`. */
  function Gap(a: int, b: int, n: int): int {
    if a <= b then b - a else b + n - a
  }

  /** `home` lies in the cyclic interval that starts after `hole` and ends at `i`. */
  predicate After(hole: nat, home: nat, i: nat, n: nat) {
    0 < Gap(hole, home, n) <= Gap(hole, i, n)
  }
}
