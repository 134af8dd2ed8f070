/** The sizes a table goes through and the load at which it is rebuilt. */
module HashSizes {
  const MIN_SIZE := 10
  const MIN_LOAD := 150
  const MAX_LOAD := 800

  function Pow2(k: nat): nat {
    if k == 0 then 1 else 2 * Pow2(k - 1)
  }

  /** The sizes that doubling from the smallest one can give. */
  ghost predicate SizeOk(n: nat) {
    exists k: nat :: n == 13 * Pow2(k) - 3
  }

  /** The load that makes a table grow, with the split division that avoids overflow. */
  function Upper(n: nat): nat {
    n / 1024 * MAX_LOAD + (n % 1024 * MAX_LOAD) / 1024
  }

  /** The load below which a table shrinks. */
  function Lower(n: nat): nat {
    n / 1024 * MIN_LOAD
  }

  function Grown(n: nat): nat {
    2 * n + 3
  }

  function Shrunk(n: nat): nat
    requires n >= 3
  {
    (n - 3) / 2
  }

  /** The size the table is rebuilt with; its present size if it is not rebuilt. */
  function Target(n: nat, used: int): (r: nat)
    requires n >= 3
  {
    if used >= Upper(n) then Grown(n)
    else if used >= Lower(n) || n == MIN_SIZE then n
    else Shrunk(n)
  }

  /** A rebuild is due: the table is 800/1024 full, or it is not of the smallest size and about 150/1024
      full or less. */
  predicate Due(n: nat, used: int) {
    used >= 800 * n / 1024 || (n != 10 && used < n / 1024 * 150)
  }

  /** The size that a table which is due for a rebuild gets, if there is memory. */
  function SizeAfter(n: nat, used: int, alloc: bool): nat {
    if !alloc || !Due(n, used) then n
    else if used >= 800 * n / 1024 then 2 * n + 3
    else if n < 3 then 0 else (n - 3) / 2
  }

  lemma TargetDue(n: nat, used: int)
    requires n >= 3
    ensures Target(n, used) == SizeAfter(n, used, true) && (Target(n, used) != n <==> Due(n, used))
  {
    UpperIsFloor(n);
  }

  lemma UpperIsFloor(n: nat)
    ensures Upper(n) == 800 * n / 1024
    ensures n > 0 ==> Upper(n) < n
  {
    assert n == n / 1024 * 1024 + n % 1024;
  }

  lemma SizeMin(n: nat)
    requires SizeOk(n)
    ensures n >= MIN_SIZE
    ensures SizeOk(Grown(n)) && Shrunk(Grown(n)) == n
    ensures n != MIN_SIZE ==> n >= 23 && SizeOk(Shrunk(n)) && Grown(Shrunk(n)) == n
  {
    var k: nat :| n == 13 * Pow2(k) - 3;
    assert Grown(n) == 13 * Pow2(k + 1) - 3;
    PowPositive(k);
    if n != MIN_SIZE {
      assert k > 0;
      PowPositive(k - 1);
      assert Shrunk(n) == 13 * Pow2(k - 1) - 3;
    }
  }

  lemma {:induction false} PowPositive(k: nat)
    ensures Pow2(k) >= 1
  {
    if k > 0 { PowPositive(k - 1); }
  }

  /** Rebuilding always leaves room for one more entry. */
  lemma TargetHasRoom(n: nat, used: int)
    requires SizeOk(n) && used <= Upper(n)
    ensures SizeOk(Target(n, used)) && used < Upper(Target(n, used)) < Target(n, used)
  {
    SizeMin(n);
    UpperIsFloor(n);
    UpperIsFloor(Grown(n));
    UpperIsFloor(Shrunk(n));
  }
}
