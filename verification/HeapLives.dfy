/**
 What becomes of a heap over a run of the pool: who may touch it, when it is deleted, and that whoever
 gets it from the pool finds the contents with which it was checkpointed.
 */
module HeapLives {
  import opened HeapPool

  // One step

  /** The client that takes a step, if it is not one of those anybody may take. */
  predicate Acts(st: Step, c: nat) {
    !st.SetMax? && !st.Clear? && st.c == c
  }

  /** A step of anybody else touches neither a client nor its heap. */
  lemma OthersUntouched(s: Pool, st: Step, d: nat, id: nat)
    requires Inv(s) && Exec(s, st).Some? && Has(s, d, id) && !Acts(st, d)
    ensures var s' := Exec(s, st).value;
      && Has(s', d, id) && s'.clients[d] == s.clients[d]
      && (id in s'.heaps <==> id in s.heaps) && (id in s.heaps ==> s'.heaps[id] == s.heaps[id])
  {
    assert id !in s.pool;
    if !st.SetMax? && !st.Clear? && !s.clients[st.c].Idle? {
      assert Has(s, st.c, s.clients[st.c].id);
    }
  }

  /** What a client does to its heap, it finds there: what it made it with or worked on it, and after a
      restoration what it had checkpointed. */
  lemma OwnShows(s: Pool, st: Step, id: nat)
    requires Exec(s, st).Some? && !st.SetMax? && !st.Clear? && Has(s, st.c, id)
    ensures var h := Exec(s, st).value.heaps;
      && (st.New? ==> id in h && h[id] == Heap(Uninitialized, st.contents, h[id].snapshot))
      && (st.Work? ==> id in s.heaps && id in h && s.heaps[id].status != Clean && h[id] == s.heaps[id].(contents := st.contents))
      && (st.Initialize? ==> id in s.heaps && id in h && h[id].contents == s.heaps[id].contents && h[id].status == Clean)
      && (st.Touch? ==> id in s.heaps && id in h && s.heaps[id].status == Clean && h[id] == s.heaps[id].(status := Dirty))
      && (st.Restore? ==> id in s.heaps && id in h && s.heaps[id].status == Dirty && h[id].status == Clean)
  {
  }

  /** Clearing the pool deletes exactly the heaps in it. */
  lemma ClearEmpties(s: Pool)
    requires Inv(s)
    ensures var s' := Exec(s, Clear).value;
      && s'.pool == [] && s'.clients == s.clients && s'.max == s.max
      && s'.heaps.Keys == s.heaps.Keys - (set id | id in s.pool)
      && (forall c: nat, id: nat :: Has(s, c, id) && id in s.heaps ==> id in s'.heaps && s'.heaps[id] == s.heaps[id])
  {
    forall c: nat, id: nat | Has(s, c, id) && id in s.heaps
      ensures id in Exec(s, Clear).value.heaps && Exec(s, Clear).value.heaps[id] == s.heaps[id]
    {
      OthersUntouched(s, Clear, c, id);
    }
  }

  /** Before there is an array the limit is changed; later the array is, unless memory is not there: a
      new one keeps as many pooled heaps as it has places, and just the others are deleted. */
  lemma LimitChanges(s: Pool, i: nat, alloc: bool)
    requires Inv(s)
    ensures var s' := Exec(s, SetMax(i, alloc)).value; var n := if |s.pool| < i then |s.pool| else i;
      if !s.built || i == s.max then s' == s.(max := i)
      else if !alloc then s' == s
      else
        && s'.pool == s.pool[..n] && s'.capacity == i && s'.max == s.max && s'.clients == s.clients
        && s'.heaps.Keys == s.heaps.Keys - (set id | id in s.pool[n..])
        && forall id :: id in s'.heaps ==> s'.heaps[id] == s.heaps[id]
  {
    assert s.pool[..|s.pool|] == s.pool;
  }

  /** A heap that is in the pool is not made anew. */
  lemma GetReuses(s: Pool, st: Step)
    requires st.Get? && Exec(s, st).Some?
    ensures var s' := Exec(s, st).value;
      && s'.heaps == s.heaps
      && if s.pool == [] then s'.pool == [] && s'.clients[st.c] == GotId(s.next)
         else s'.clients[st.c].Using? && s.pool == s'.pool + [s'.clients[st.c].id]
  {
    if s.pool != [] {
      assert s.pool == s.pool[..|s.pool| - 1] + [s.pool[|s.pool| - 1]];
    }
  }

  /** A heap for which the pool has room is not deleted, and the others are, by the client that has it. */
  lemma ReleaseOrDrop(s: Pool, st: Step)
    requires (st.Release? || st.Drop?) && Exec(s, st).Some?
    ensures var s' := Exec(s, st).value; var id := s.clients[st.c].id;
      if st.Drop? then s'.heaps.Keys == s.heaps.Keys - {id} && s'.pool == s.pool && s'.clients[st.c].Idle?
      else
        && s'.heaps == s.heaps
        && if |s.pool| < s.max && (s.built || st.alloc) then s'.clients[st.c].Idle? && s'.pool == s.pool + [id]
           else s'.clients[st.c] == Dropping(id) && s'.pool == s.pool
  {
  }

  // Whole runs

  ghost predicate SafeRun(ss: seq<Pool>, sts: seq<Step>) {
    PoolRun(ss, sts) && forall k :: 0 <= k < |sts| ==> Safe(ss[k], sts[k])
  }

  /** Step `i` checkpoints heap `id` with contents `v`. */
  ghost predicate Checkpoints(ss: seq<Pool>, sts: seq<Step>, i: int, id: nat, v: int)
    requires |ss| == |sts| + 1
  {
    && 0 <= i < |sts| && sts[i].Initialize? && Has(ss[i], sts[i].c, id)
    && id in ss[i].heaps && ss[i].heaps[id].contents == v
  }

  /** Step `j` hands out heap `id` from the pool. */
  ghost predicate HandsOut(ss: seq<Pool>, sts: seq<Step>, j: int, id: nat)
    requires |ss| == |sts| + 1
  {
    0 <= j < |sts| && sts[j].Get? && sts[j].c in ss[j + 1].clients && ss[j + 1].clients[sts[j].c] == Using(id)
  }

  /** The number is in use, and a heap with it has been checkpointed with contents `v`. */
  ghost predicate Marked(s: Pool, id: nat, v: int) {
    Spent(s, id) && (id in s.heaps ==> s.heaps[id].status != Uninitialized && s.heaps[id].snapshot == v)
  }

  lemma StaysMarked(s: Pool, st: Step, id: nat, v: int)
    requires Inv(s) && Exec(s, st).Some? && Marked(s, id, v)
    ensures Marked(Exec(s, st).value, id, v)
  {
    StaysSpent(s, st, id);
    hide Spent, Inv;
    var s' := Exec(s, st).value;
    if id in s'.heaps && !(id in s.heaps && s'.heaps[id] == s.heaps[id]) && !s.clients[st.c].Idle? {
      var x := s.clients[st.c].id;
      assert Has(s, st.c, x);
      if x == id {
        NotMade(s, st.c, id);
      }
    }
  }

  lemma NotMade(s: Pool, c: nat, id: nat)
    requires Spent(s, id) && Has(s, c, id)
    ensures !s.clients[c].GotId?
  {
  }

  lemma {:induction false} MarkedOnward(ss: seq<Pool>, sts: seq<Step>, i: nat, j: nat, id: nat, v: int)
    requires SafeRun(ss, sts) && i <= j <= |sts| && Marked(ss[i], id, v)
    ensures Marked(ss[j], id, v)
    decreases j - i
  {
    if i < j {
      RunInv(ss, sts, i);
      assert Exec(ss[i], sts[i]) == Some(ss[i + 1]);
      hide Exec, Marked, Inv, Safe;
      StaysMarked(ss[i], sts[i], id, v);
      MarkedOnward(ss, sts, i + 1, j, id, v);
    }
  }

  lemma CheckpointMarks(s: Pool, st: Step, id: nat)
    requires Inv(s) && st.Initialize? && Exec(s, st).Some? && Has(s, st.c, id) && id in s.heaps
    ensures Marked(Exec(s, st).value, id, s.heaps[id].contents)
  {
    var s' := Exec(s, st).value;
    forall c: nat | Has(s', c, id) ensures !s'.clients[c].GotId? {
      assert Has(s, c, id);
    }
  }

  /** Whatever the clients do between, a heap that is handed out from the pool has the contents with
      which it was checkpointed. */
  lemma CheckpointKept(ss: seq<Pool>, sts: seq<Step>, i: nat, j: nat, id: nat, v: int)
    requires SafeRun(ss, sts) && i < j && Checkpoints(ss, sts, i, id, v) && HandsOut(ss, sts, j, id)
    ensures id in ss[j + 1].heaps && ss[j + 1].heaps[id].contents == v && ss[j + 1].heaps[id].status == Clean
  {
    RunInv(ss, sts, i);
    assert Exec(ss[i], sts[i]) == Some(ss[i + 1]);
    CheckpointMarks(ss[i], sts[i], id);
    MarkedOnward(ss, sts, i + 1, j + 1, id, v);
    PoolProtocol(ss, sts, j);
  }

  /** Every checkpointed heap was checkpointed by one of the steps before, with the contents it would be
      restored to. */
  lemma {:induction false} Origin(ss: seq<Pool>, sts: seq<Step>, k: nat, id: nat) returns (i: nat)
    requires PoolRun(ss, sts) && k <= |sts| && id in ss[k].heaps && ss[k].heaps[id].status != Uninitialized
    ensures i < k && Checkpoints(ss, sts, i, id, ss[k].heaps[id].snapshot)
    decreases k
  {
    hide Exec;
    if k > 0 {
      var s, s' := ss[k - 1], ss[k];
      assert Exec(s, sts[k - 1]) == Some(s');
      if id in s.heaps && s.heaps[id].status != Uninitialized && s.heaps[id].snapshot == s'.heaps[id].snapshot {
        i := Origin(ss, sts, k - 1, id);
      } else {
        MadeOrMarked(s, sts[k - 1], id);
        i := k - 1;
      }
    }
  }

  lemma MadeOrMarked(s: Pool, st: Step, id: nat)
    requires Exec(s, st).Some?
    requires var s' := Exec(s, st).value;
      && id in s'.heaps && s'.heaps[id].status != Uninitialized
      && !(id in s.heaps && s.heaps[id].status != Uninitialized && s.heaps[id].snapshot == s'.heaps[id].snapshot)
    ensures st.Initialize? && Has(s, st.c, id) && id in s.heaps && s.heaps[id].contents == Exec(s, st).value.heaps[id].snapshot
  {
  }

  /** Every heap that is handed out from the pool was checkpointed by an earlier step of the run, and has
      the contents it had then. */
  lemma EveryHandOut(ss: seq<Pool>, sts: seq<Step>, j: nat, id: nat) returns (i: nat, v: int)
    requires SafeRun(ss, sts) && HandsOut(ss, sts, j, id)
    ensures i < j && Checkpoints(ss, sts, i, id, v) && id in ss[j + 1].heaps && ss[j + 1].heaps[id].contents == v
  {
    PoolProtocol(ss, sts, j);
    v := ss[j + 1].heaps[id].snapshot;
    i := Origin(ss, sts, j + 1, id);
  }

  /** As long as nobody changes the limit, at most six heaps are kept. */
  lemma {:induction false} SixByDefault(ss: seq<Pool>, sts: seq<Step>, k: nat)
    requires PoolRun(ss, sts) && k <= |sts| && forall i :: 0 <= i < |sts| ==> !sts[i].SetMax?
    ensures ss[k].max == 6 && |ss[k].pool| <= 6
  {
    if k > 0 {
      SixByDefault(ss, sts, k - 1);
      assert Exec(ss[k - 1], sts[k - 1]) == Some(ss[k]);
    }
  }
}
