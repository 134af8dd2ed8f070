/**
 Runs of the heap: the elements, the recorded positions and the size of the array, over any sequence of
 insertions, key changes, extractions and deletions. Whether a reallocation succeeds is a parameter.
 */
module HeapRuns {
  import opened HeapSpec

  const MIN_ARRAY := 10
  const SHRINK := 8

  datatype Outcome = Ok | OutOfMemory | Underflow | DoesNotExist

  datatype Store<+K, !D> = Store(h: Heap<K, D>, cap: nat)

  datatype Cmd<+K, +D> =
    | CmdInsert(e: Elem<K, D>, key: K)
    | CmdChange(pos: nat, key: K)
    | CmdExtract
    | CmdDelete(pos: nat)

  datatype Call<+K, +D> = Call(cmd: Cmd<K, D>, alloc: bool)

  datatype Reply<+K, +D> = Done(rc: Outcome) | Took(e: Elem<K, D>)

  /** The size of the array that `size` elements are to have: a full array grows, one that is at most an
      eighth full shrinks. */
  function NewCap(size: nat, cap: nat): (r: nat) {
    if size == cap then Max(2 * size)
    else if size > cap / SHRINK then cap
    else Max(cap / (SHRINK / 2))
  }

  function Max(n: nat): nat {
    if n < MIN_ARRAY then MIN_ARRAY else n
  }

  predicate ResizeFails(size: nat, cap: nat, alloc: bool) {
    NewCap(size, cap) != cap && !alloc
  }

  function Resized(size: nat, cap: nat, alloc: bool): nat {
    if alloc then NewCap(size, cap) else cap
  }

  /** There is room for the elements and, after a successful resize, for one more. */
  lemma CapFits(size: nat, cap: nat)
    requires MIN_ARRAY <= cap && size <= cap
    ensures MIN_ARRAY <= NewCap(size, cap) && size < NewCap(size, cap)
  {
  }

  /** A reallocation is due: the array is full, or it is not of the smallest size and at most an eighth
      full. */
  predicate Due(size: nat, cap: nat) {
    size == cap || (cap > 10 && size <= cap / 8)
  }

  /** The size of the array afterwards: it doubles, or shrinks to a quarter. */
  function CapAfter(size: nat, cap: nat, alloc: bool): nat {
    if !alloc || !Due(size, cap) then cap
    else if size == cap then 2 * cap
    else if cap < 40 then 10 else cap / 4
  }

  lemma CapDue(size: nat, cap: nat, alloc: bool)
    requires MIN_ARRAY <= cap
    ensures ResizeFails(size, cap, alloc) <==> Due(size, cap) && !alloc
    ensures Resized(size, cap, alloc) == CapAfter(size, cap, alloc)
  {
  }

  function Exec<K, D>(le: (K, K) -> bool, st: Store<K, D>, c: Call<K, D>): (r: (Store<K, D>, Reply<K, D>)) {
    var n := |st.h.s|;
    match c.cmd
    case CmdInsert(e, key) =>
      if ResizeFails(n + 1, st.cap, c.alloc) then (st, Done(OutOfMemory))
      else (Store(Insert(le, st.h, e, key), Resized(n + 1, st.cap, c.alloc)), Done(Ok))
    case CmdChange(pos, key) =>
      if pos >= n then (st, Done(DoesNotExist)) else (st.(h := ChangeKey(le, st.h, pos, key)), Done(Ok))
    case CmdExtract =>
      if n == 0 then (st, Done(Underflow))
      else (Store(ExtractMin(le, st.h), Resized(n - 1, st.cap, c.alloc)), Took(st.h.s[0]))
    case CmdDelete(pos) =>
      if pos >= n then (st, Done(DoesNotExist))
      else (Store(Delete(le, st.h, pos), Resized(n - 1, st.cap, c.alloc)), Done(Ok))
  }

  /** Ordered, every position but possibly the root's recorded right, and room for one more element. */
  ghost predicate Good<K, D>(le: (K, K) -> bool, st: Store<K, D>) {
    Ordered(le, st.h.s) && PlacedBut(st.h, 0) && |st.h.s| < st.cap && MIN_ARRAY <= st.cap
  }

  /** What a caller answers for: an element is inserted once, and a deletion is one that keeps the order. */
  ghost predicate Fitting<K, D>(le: (K, K) -> bool, h: Heap<K, D>, c: Cmd<K, D>) {
    match c
    case CmdInsert(e, _) => Fresh(h, e.id)
    case CmdDelete(pos) =>
      pos < |h.s| ==> pos == 0 || pos == |h.s| - 1 || le(h.s[Parent(pos)].key, h.s[|h.s| - 1].key)
    case _ => true
  }

  /** What a call replies and does to the bag of elements, and to the size of the array. */
  ghost predicate BagStep<K(!new), D(!new)>(
    le: (K, K) -> bool, s: seq<Elem<K, D>>, cap: nat, c: Call<K, D>, r: Reply<K, D>, s': seq<Elem<K, D>>, cap': nat)
  {
    match c.cmd
    case CmdInsert(e, key) =>
      if Due(|s| + 1, cap) && !c.alloc then r == Done(OutOfMemory) && s' == s && cap' == cap
      else
        && r == Done(Ok) && multiset(s') == multiset(s) + multiset{e.(key := key)}
        && cap' == CapAfter(|s| + 1, cap, c.alloc)
    case CmdChange(pos, key) =>
      && cap' == cap
      && if pos >= |s| then r == Done(DoesNotExist) && s' == s
         else r == Done(Ok) && multiset(s') == multiset(s) - multiset{s[pos]} + multiset{s[pos].(key := key)}
    case CmdExtract =>
      if s == [] then r == Done(Underflow) && s' == s && cap' == cap
      else
        && r.Took? && multiset(s) == multiset(s') + multiset{r.e} && cap' == CapAfter(|s| - 1, cap, c.alloc)
        && forall x :: x in s ==> le(r.e.key, x.key)
    case CmdDelete(pos) =>
      if pos >= |s| then r == Done(DoesNotExist) && s' == s && cap' == cap
      else r == Done(Ok) && multiset(s) == multiset(s') + multiset{s[pos]} && cap' == CapAfter(|s| - 1, cap, c.alloc)
  }

  lemma StepBag<K(!new), D(!new)>(le: (K, K) -> bool, st: Store<K, D>, c: Call<K, D>)
    requires TotalOrder(le) && Good(le, st)
    ensures var (st', r) := Exec(le, st, c); BagStep(le, st.h.s, st.cap, c, r, st'.h.s, st'.cap)
  {
    hide Insert, ChangeKey, ExtractMin, Delete, PlacedBut, NewCap, OrderedBut, Due, CapAfter, ResizeFails, Resized;
    var n := |st.h.s|;
    match c.cmd
    case CmdInsert(e, key) =>
      CapDue(n + 1, st.cap, c.alloc);
      InsertAdds(le, st.h, e, key);
    case CmdChange(pos, key) => if pos < n { ChangeKeyKeeps(le, st.h, pos, key); }
    case CmdExtract =>
      if st.h.s != [] {
        CapDue(n - 1, st.cap, c.alloc);
        ExtractMinTakes(le, st.h);
        RootBefore(le, st.h.s, st.h.s);
      }
    case CmdDelete(pos) =>
      if pos < n {
        CapDue(n - 1, st.cap, c.alloc);
        DeleteTakes(le, st.h, pos);
      }
  }

  /** Every call keeps order, positions and room. */
  lemma StepGood<K(!new), D(!new)>(le: (K, K) -> bool, st: Store<K, D>, c: Call<K, D>)
    requires TotalOrder(le) && Good(le, st) && Fitting(le, st.h, c.cmd)
    ensures Good(le, Exec(le, st, c).0)
  {
    hide Insert, ChangeKey, ExtractMin, Delete, PlacedBut, NewCap, OrderedBut, TotalOrder;
    var n := |st.h.s|;
    match c.cmd
    case CmdInsert(e, key) =>
      CapFits(n + 1, st.cap);
      InsertOrders(le, st.h, e, key);
      InsertPlaces(le, st.h, e, key, 0);
    case CmdChange(pos, key) =>
      if pos < n {
        OrderedBridged(le, st.h.s, pos);
        ChangeKeyOrders(le, st.h, pos, key);
        ChangeKeyPlaces(le, st.h, pos, key, 0);
      }
    case CmdExtract =>
      if n > 0 {
        CapFits(n - 1, st.cap);
        ExtractMinOrders(le, st.h);
        ExtractMinPlaces(le, st.h);
      }
    case CmdDelete(pos) =>
      if pos < n {
        CapFits(n - 1, st.cap);
        DeleteOrders(le, st.h, pos);
        DeletePlaces(le, st.h, pos, 0);
      }
  }

  ghost predicate HeapRun<K(!new), D(!new)>(le: (K, K) -> bool, sts: seq<Store<K, D>>, calls: seq<Call<K, D>>, replies: seq<Reply<K, D>>) {
    && |sts| == |calls| + 1 && |replies| == |calls| && sts[0].h.s == [] && sts[0].cap == MIN_ARRAY
    && forall i :: 0 <= i < |calls| ==> Fitting(le, sts[i].h, calls[i].cmd) && (sts[i + 1], replies[i]) == Exec(le, sts[i], calls[i])
  }

  /** At every point of every run from an empty heap, whatever reallocations fail: the heap is ordered,
      every position but possibly the root's is recorded right, the size is below the capacity, and every
      reply and every change of the contents is that of a bag with least elements taken out. */
  lemma {:induction false} RunGood<K(!new), D(!new)>(
    le: (K, K) -> bool, sts: seq<Store<K, D>>, calls: seq<Call<K, D>>, replies: seq<Reply<K, D>>, k: nat)
    requires TotalOrder(le) && HeapRun(le, sts, calls, replies) && k <= |calls|
    ensures Good(le, sts[k])
    ensures k < |calls| ==> BagStep(le, sts[k].h.s, sts[k].cap, calls[k], replies[k], sts[k + 1].h.s, sts[k + 1].cap)
  {
    hide Exec, BagStep, TotalOrder;
    if k > 0 {
      RunGood(le, sts, calls, replies, k - 1);
      assert (sts[k], replies[k - 1]) == Exec(le, sts[k - 1], calls[k - 1]) && Fitting(le, sts[k - 1].h, calls[k - 1].cmd);
      hide Good, Fitting;
      StepGood(le, sts[k - 1], calls[k - 1]);
    }
    if k < |calls| {
      assert (sts[k + 1], replies[k]) == Exec(le, sts[k], calls[k]);
      StepBag(le, sts[k], calls[k]);
    }
  }
}
