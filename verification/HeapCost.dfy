/**
 The cost of keeping the heap's array: over a whole run the elements moved by reallocations are linear in
 the number of calls, and as long as memory is there the array is at most eight times too large.
 */
module HeapCost {
  import opened HeapSpec
  import opened HeapRuns

  /** Elements moved by the reallocation, if there was one, on the way from `st` to `st'`. */
  function Moved<K, D>(st: Store<K, D>, st': Store<K, D>): nat {
    if st.cap == st'.cap then 0 else |st'.h.s|
  }

  /** Moves paid for in advance, by the calls that drove the size away from half of the array. */
  function Credit(size: nat, cap: nat): nat {
    (if 2 * size > cap then 2 * size - cap else 0) + (if cap / 2 > size then cap / 2 - size else 0)
  }

  function CreditOf<K, D>(st: Store<K, D>): nat {
    Credit(|st.h.s|, st.cap)
  }

  /** A reallocation is paid for by credit, all but a constant. */
  lemma ResizePaid(size: nat, cap: nat, alloc: bool)
    requires MIN_ARRAY <= cap && size <= cap
    ensures var cap' := CapAfter(size, cap, alloc);
      (if cap' == cap then 0 else size) + Credit(size, cap') <= Credit(size, cap) + 1
  {
  }

  lemma CreditMoves(size: nat, cap: nat)
    ensures Credit(size + 1, cap) <= Credit(size, cap) + 2 && Credit(size, cap) <= Credit(size + 1, cap) + 1
  {
  }

  lemma CallPaid<K(!new), D(!new)>(le: (K, K) -> bool, st: Store<K, D>, c: Call<K, D>)
    requires |st.h.s| < st.cap && MIN_ARRAY <= st.cap
    ensures var st' := Exec(le, st, c).0; Moved(st, st') + CreditOf(st') <= CreditOf(st) + 3
  {
    hide Insert, ChangeKey, ExtractMin, Delete, Credit, CapAfter, Resized, ResizeFails, Due;
    var n := |st.h.s|;
    match c.cmd
    case CmdInsert(_, _) =>
      CapDue(n + 1, st.cap, c.alloc);
      ResizePaid(n + 1, st.cap, c.alloc);
      CreditMoves(n, st.cap);
    case CmdChange(_, _) =>
    case CmdExtract =>
      if n > 0 {
        CapDue(n - 1, st.cap, c.alloc);
        ResizePaid(n - 1, st.cap, c.alloc);
        CreditMoves(n - 1, st.cap);
      }
    case CmdDelete(pos) =>
      if pos < n {
        CapDue(n - 1, st.cap, c.alloc);
        ResizePaid(n - 1, st.cap, c.alloc);
        CreditMoves(n - 1, st.cap);
      }
  }

  function TotalMoved<K, D>(sts: seq<Store<K, D>>, k: nat): nat
    requires k < |sts|
  {
    if k == 0 then 0 else TotalMoved(sts, k - 1) + Moved(sts[k - 1], sts[k])
  }

  /** Over every run, whatever reallocations fail, at most three elements are moved for each call. */
  lemma {:induction false} RunIsLinear<K(!new), D(!new)>(
    le: (K, K) -> bool, sts: seq<Store<K, D>>, calls: seq<Call<K, D>>, replies: seq<Reply<K, D>>, k: nat)
    requires TotalOrder(le) && HeapRun(le, sts, calls, replies) && k <= |calls|
    ensures TotalMoved(sts, k) + CreditOf(sts[k]) <= 3 * k + 5
  {
    if k > 0 {
      RunIsLinear(le, sts, calls, replies, k - 1);
      RunGood(le, sts, calls, replies, k - 1);
      assert (sts[k], replies[k - 1]) == Exec(le, sts[k - 1], calls[k - 1]);
      hide Exec, Moved, CreditOf, BagStep, TotalOrder;
      CallPaid(le, sts[k - 1], calls[k - 1]);
    }
  }

  /** The array is of the smallest size or at least an eighth full. */
  predicate Compact(size: nat, cap: nat) {
    cap == 10 || cap <= 8 * size
  }

  lemma CallCompact<K(!new), D(!new)>(le: (K, K) -> bool, st: Store<K, D>, c: Call<K, D>)
    requires |st.h.s| < st.cap && MIN_ARRAY <= st.cap && c.alloc && Compact(|st.h.s|, st.cap)
    ensures var st' := Exec(le, st, c).0; Compact(|st'.h.s|, st'.cap)
  {
    hide Insert, ChangeKey, ExtractMin, Delete, Resized, ResizeFails;
    var n := |st.h.s|;
    CapDue(n + 1, st.cap, c.alloc);
    if n > 0 {
      CapDue(n - 1, st.cap, c.alloc);
    }
  }

  /** As long as every reallocation succeeds, the array stays compact. */
  lemma {:induction false} RunCompact<K(!new), D(!new)>(
    le: (K, K) -> bool, sts: seq<Store<K, D>>, calls: seq<Call<K, D>>, replies: seq<Reply<K, D>>, k: nat)
    requires TotalOrder(le) && HeapRun(le, sts, calls, replies) && k <= |calls|
    requires forall i :: 0 <= i < |calls| ==> calls[i].alloc
    ensures Compact(|sts[k].h.s|, sts[k].cap)
  {
    if k > 0 {
      RunCompact(le, sts, calls, replies, k - 1);
      RunGood(le, sts, calls, replies, k - 1);
      assert (sts[k], replies[k - 1]) == Exec(le, sts[k - 1], calls[k - 1]);
      hide Exec, Compact, BagStep, TotalOrder;
      CallCompact(le, sts[k - 1], calls[k - 1]);
    }
  }
}
