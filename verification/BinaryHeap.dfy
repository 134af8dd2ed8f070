/**
 The indexed binary heap as the C macros define it: an array that sifting changes in place and that
 is reallocated as the heap grows and shrinks. `at` holds what the position callback was last told.
 Whether a reallocation succeeds is a parameter.
 */
module BinaryHeap {
  import opened HeapSpec
  import opened HeapRuns

  class BinaryHeap<K(0,!new), D(0,==,!new)> {
    const le: (K, K) -> bool
    var table: array<Elem<K, D>>
    var size: nat
    var maxsize: nat
    var at: map<D, nat>

    /** There is always room for one more element. */
    ghost predicate Roomy()
      reads this
    {
      MIN_ARRAY <= maxsize == table.Length && size < maxsize
    }

    ghost function View(): (h: Heap<K, D>)
      requires size <= table.Length
      reads this, table
    {
      Heap(table[..size], at)
    }

    /** The heap as a value, with the size of its array. */
    ghost function State(): (st: Store<K, D>)
      requires size <= table.Length
      reads this, table
    {
      Store(View(), maxsize)
    }

    constructor (le: (K, K) -> bool)
      ensures this.le == le && fresh(table) && size == maxsize == table.Length == 0 && at == map[]
    {
      this.le := le;
      size, maxsize, at := 0, 0, map[];
      table := new Elem<K, D>[0];
    }

    /** An empty heap with the smallest array. If that cannot be had the heap is not usable. */
    method Reinit(alloc: bool) returns (rc: Outcome)
      modifies this
      ensures rc == if alloc then Ok else OutOfMemory
      ensures rc == Ok ==> Roomy() && fresh(table) && State() == Store(Heap([], old(at)), MIN_ARRAY)
    {
      size, maxsize := 0, 0;
      if !alloc {
        return OutOfMemory;
      }
      maxsize := MIN_ARRAY;
      table := new Elem<K, D>[MIN_ARRAY];
      rc := Ok;
    }

    /** Grow a full array, shrink one that is at most an eighth full. Failure leaves all as it was. */
    method Resize(alloc: bool) returns (failed: bool)
      requires MIN_ARRAY <= maxsize == table.Length && size <= maxsize
      modifies this`table, this`maxsize
      ensures size <= maxsize == table.Length && View() == old(View()) && (table == old(table) || fresh(table))
      ensures failed == ResizeFails(size, old(maxsize), alloc) && (failed ==> table == old(table))
      ensures maxsize == Resized(size, old(maxsize), alloc)
      ensures MIN_ARRAY <= maxsize && (!failed || old(size < maxsize) ==> size < maxsize)
    {
      CapFits(size, maxsize);
      var newsize: nat;
      if size == maxsize {
        newsize := 2 * size;
      } else if size > maxsize / SHRINK {
        return false;
      } else {
        newsize := maxsize / (SHRINK / 2);
      }
      if newsize < MIN_ARRAY {
        newsize := MIN_ARRAY;
      }
      if maxsize == newsize {
        return false;
      }
      if !alloc {
        return true;
      }
      table := Copied(newsize);
      maxsize := newsize;
      failed := false;
    }

    /** A new array of `n` slots that starts with the elements of the heap. */
    method Copied(n: nat) returns (t: array<Elem<K, D>>)
      requires size <= table.Length && size <= n
      ensures fresh(t) && t.Length == n && t[..size] == table[..size]
    {
      t := new Elem<K, D>[n];
      for i := 0 to size
        invariant forall j :: 0 <= j < i ==> t[j] == table[j]
      {
        t[i] := table[i];
      }
    }

    method Ex(i: nat, j: nat)
      requires size <= table.Length && i < size && j < size
      modifies table, this`at
      ensures View() == Exchange(old(View()), i, j)
    {
      table[i], table[j] := table[j], table[i];
      at := at[table[i].id := i];
      at := at[table[j].id := j];
      assert table[..size] == Exchange(old(View()), i, j).s;
    }

    method Sink(i: nat)
      requires size <= table.Length
      modifies table, this`at
      ensures View() == Heapify(le, old(View()), i)
      decreases size - i
    {
      var l, r := Left(i), Right(i);
      var smallest := if l < size && !le(table[i].key, table[l].key) then l else i;
      if r < size && !le(table[smallest].key, table[r].key) {
        smallest := r;
      }
      if smallest != i {
        Ex(i, smallest);
        Sink(smallest);
      }
    }

    method Rise(pos: nat)
      requires pos < size <= table.Length
      modifies table, this`at
      ensures View() == SiftUp(le, old(View()), pos)
    {
      var i: nat := pos;
      while i > 0 && !le(table[Parent(i)].key, table[i].key)
        invariant i < size
        invariant SiftUp(le, View(), i) == SiftUp(le, old(View()), pos)
        decreases i
      {
        Ex(i, Parent(i));
        i := Parent(i);
      }
    }

    method Minimal() returns (rc: Outcome, e: Elem<K, D>)
      requires Roomy()
      ensures rc == if size == 0 then Underflow else Ok
      ensures rc == Ok && TotalOrder(le) && Ordered(le, View().s) ==>
                e in View().s && forall x :: x in View().s ==> le(e.key, x.key)
    {
      e := table[0];
      if size == 0 {
        return Underflow, e;
      }
      if TotalOrder(le) && Ordered(le, View().s) {
        RootBefore(le, View().s, View().s);
      }
      assert View().s[0] == e;
      rc := Ok;
    }

    /** Remove a least element. */
    method ExtractMin(alloc: bool) returns (rc: Outcome, e: Elem<K, D>)
      requires Roomy()
      modifies this`table, this`size, this`maxsize, this`at, table
      ensures Roomy() && (table == old(table) || fresh(table))
      ensures (State(), if rc == Ok then Took(e) else Done(rc)) == Exec(le, old(State()), Call(CmdExtract, alloc))
      ensures TotalOrder(le) && old(Good(le, State())) ==> Good(le, State())
      ensures TotalOrder(le) && old(Good(le, State())) && rc == Ok ==>
                multiset(old(View().s)) == multiset(View().s) + multiset{e} && forall x :: x in old(View().s) ==> le(e.key, x.key)
    {
      hide Exec, Good, TotalOrder;
      ghost var st := State();
      rc, e := TakeRoot(alloc);
      if TotalOrder(le) && Good(le, st) {
        StepGood(le, st, Call(CmdExtract, alloc));
        StepBag(le, st, Call(CmdExtract, alloc));
      }
    }

    method TakeRoot(alloc: bool) returns (rc: Outcome, e: Elem<K, D>)
      requires Roomy()
      modifies this`table, this`size, this`maxsize, this`at, table
      ensures Roomy() && (table == old(table) || fresh(table))
      ensures (State(), if rc == Ok then Took(e) else Done(rc)) == Exec(le, old(State()), Call(CmdExtract, alloc))
      ensures rc == if old(size) == 0 then Underflow else Ok
    {
      hide Heapify, NewCap;
      ghost var s := View().s;
      e := table[0];
      if size == 0 {
        return Underflow, e;
      }
      table[0] := table[size - 1];
      size := size - 1;
      assert table[..size] == s[0 := s[size]][..size];
      Sink(0);
      var _ := Resize(alloc);
      rc := Ok;
    }

    /** Give the element at `pos` a new key, smaller or larger. */
    method ChangeKey(pos: nat, key: K) returns (rc: Outcome)
      requires size <= table.Length
      modifies table, this`at
      ensures View() == if pos < size then HeapSpec.ChangeKey(le, old(View()), pos, key) else old(View())
      ensures rc == if pos < size then Ok else DoesNotExist
      ensures TotalOrder(le) && old(Good(le, State())) ==> Good(le, State())
      ensures old(Placed(View())) ==> Placed(View())
    {
      hide Heapify, SiftUp, OrderedBut, PlacedBut, TotalOrder;
      ghost var st := State();
      if TotalOrder(le) && Good(le, st) {
        StepGood(le, st, Call(CmdChange(pos, key), true));
      }
      if pos >= size {
        return DoesNotExist;
      }
      if Placed(st.h) {
        ChangeKeyPlaces(le, st.h, pos, key, -1);
      }
      table[pos] := table[pos].(key := key);
      assert table[..size] == st.h.s[pos := st.h.s[pos].(key := key)];
      Sink(pos);
      Rise(pos);
      rc := Ok;
    }

    method Delete(pos: nat, alloc: bool) returns (rc: Outcome)
      requires Roomy()
      modifies this`table, this`size, this`maxsize, this`at, table
      ensures Roomy() && (table == old(table) || fresh(table))
      ensures (State(), Done(rc)) == Exec(le, old(State()), Call(CmdDelete(pos), alloc))
      ensures TotalOrder(le) && old(Good(le, State())) && Fitting(le, old(View()), CmdDelete(pos)) ==> Good(le, State())
    {
      hide Heapify, Exchange, OrderedBut, PlacedBut, TotalOrder, NewCap;
      ghost var st := State();
      if TotalOrder(le) && Good(le, st) && Fitting(le, st.h, CmdDelete(pos)) {
        StepGood(le, st, Call(CmdDelete(pos), alloc));
      }
      if pos >= size {
        return DoesNotExist;
      }
      Ex(pos, size - 1);
      size := size - 1;
      assert View() == Vacated(st.h, pos);
      Sink(pos);
      var _ := Resize(alloc);
      rc := Ok;
    }

    method Insert(e: Elem<K, D>, key: K, alloc: bool) returns (rc: Outcome)
      requires Roomy()
      modifies this`table, this`size, this`maxsize, this`at, table
      ensures Roomy() && (table == old(table) || fresh(table))
      ensures (State(), Done(rc)) == Exec(le, old(State()), Call(CmdInsert(e, key), alloc))
      ensures TotalOrder(le) && old(Good(le, State())) && Fresh(old(View()), e.id) ==> Good(le, State())
    {
      hide HeapSpec.ChangeKey, Good, TotalOrder, NewCap;
      ghost var st := State();
      if TotalOrder(le) && Good(le, st) && Fresh(st.h, e.id) {
        StepGood(le, st, Call(CmdInsert(e, key), alloc));
      }
      var failed := Append(e, alloc);
      if failed {
        return OutOfMemory;
      }
      rc := ChangeKey(size - 1, key);
    }

    /** Put an element after the last one, if there is room or room can be made. */
    method Append(e: Elem<K, D>, alloc: bool) returns (failed: bool)
      requires Roomy()
      modifies this`table, this`size, this`maxsize, this`at, table
      ensures Roomy() && (table == old(table) || fresh(table))
      ensures failed == ResizeFails(old(size) + 1, old(maxsize), alloc)
      ensures failed ==> State() == old(State())
      ensures !failed ==> View() == Heap(old(View().s) + [e], old(at)[e.id := old(size)]) && maxsize == Resized(old(size) + 1, old(maxsize), alloc)
    {
      hide NewCap;
      ghost var s := View().s;
      size := size + 1;
      failed := Resize(alloc);
      if failed {
        size := size - 1;
        return;
      }
      table[size - 1] := e;
      at := at[e.id := size - 1];
      assert table[..size] == s + [e];
    }
  }
}
