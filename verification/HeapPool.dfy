/**
 The pool of checkpointed heaps, shared by any number of clients. What a client does under the pool's
 lock is one step; what it does outside the lock, others may do things between. A heap's contents are
 abstract here: `RegionCopy` shows that restoring gives back what was checkpointed.
 */
module HeapPool {
  datatype Option<+T> = None | Some(value: T)

  const INITIAL_MAX := 6

  datatype Status = Uninitialized | Clean | Dirty

  datatype Heap = Heap(status: Status, contents: int, snapshot: int)

  /** Where a client is: without a heap, with the number for a new heap, using a heap, having restored
      a heap that it is about to release, about to delete a heap. */
  datatype Client = Idle | GotId(id: nat) | Using(id: nat) | Restored(id: nat) | Dropping(id: nat)

  /** `pool` is the used part of the pool array, `capacity` the size of that array once it is there,
      `max` the limit that releasing compares with, `next` the next heap number. */
  datatype Pool = Pool(pool: seq<nat>, built: bool, capacity: nat, max: nat, next: nat,
                       heaps: map<nat, Heap>, clients: map<nat, Client>)

  datatype Step =
    | Get(c: nat)
    | New(c: nat, contents: int)
    | Initialize(c: nat)
    | Touch(c: nat)
    | Work(c: nat, contents: int)
    | Discard(c: nat)
    | Restore(c: nat)
    | Release(c: nat, alloc: bool)
    | Drop(c: nat)
    | SetMax(i: nat, alloc: bool)
    | Clear

  function Become(s: Pool, c: nat, x: Client): Pool {
    s.(clients := s.clients[c := x])
  }

  function Without(heaps: map<nat, Heap>, ids: seq<nat>): map<nat, Heap> {
    map h | h in heaps && h !in ids :: heaps[h]
  }

  /** The pool array is replaced, and the heaps that do not fit the new one are deleted. The limit is
      not assigned. */
  function Replace(s: Pool, i: nat): Pool {
    if |s.pool| <= i then s.(capacity := i)
    else s.(capacity := i, pool := s.pool[..i], heaps := Without(s.heaps, s.pool[i..]))
  }

  /** One step; `None` if it is not the client's turn for it, or if the code would stop with an error. */
  function Exec(s: Pool, st: Step): (r: Option<Pool>) {
    match st
    case SetMax(i, alloc) =>
      Some(if s.max == i then s else if !s.built then s.(max := i) else if !alloc then s else Replace(s, i))
    case Clear => Some(s.(pool := [], heaps := Without(s.heaps, s.pool)))
    case _ => if st.c !in s.clients then None else ClientStep(s, st, s.clients[st.c])
  }

  function ClientStep(s: Pool, st: Step, x: Client): (r: Option<Pool>)
    requires !st.SetMax? && !st.Clear?
  {
    var c := st.c;
    if x.Idle? then
      if !st.Get? then None
      else if s.pool != [] then
        var n := |s.pool| - 1;
        Some(Become(s.(pool := s.pool[..n]), c, Using(s.pool[n])))
      else Some(Become(s.(next := s.next + 1), c, GotId(s.next)))
    else if x.GotId? then
      if !st.New? then None
      else Some(Become(s.(heaps := s.heaps[x.id := Heap(Uninitialized, st.contents, 0)]), c, Using(x.id)))
    else if x.id !in s.heaps then None
    else
      var h := s.heaps[x.id];
      match x
      case Using(id) =>
        (match st
         case Initialize(_) =>
           if h.status == Uninitialized then Some(s.(heaps := s.heaps[id := Heap(Clean, h.contents, h.contents)])) else None
         case Touch(_) => if h.status == Clean then Some(s.(heaps := s.heaps[id := h.(status := Dirty)])) else None
         case Work(_, x) => if h.status != Clean then Some(s.(heaps := s.heaps[id := h.(contents := x)])) else None
         case Discard(_) => Some(Become(s, c, Dropping(id)))
         case Restore(_) =>
           if h.status == Dirty
           then Some(Become(s.(heaps := s.heaps[id := Heap(Clean, h.snapshot, h.snapshot)]), c, Restored(id)))
           else None
         case _ => None)
      case Restored(id) =>
        if !st.Release? then None
        else if |s.pool| >= s.max then Some(Become(s, c, Dropping(id)))
        else if !s.built && !st.alloc then Some(Become(s, c, Dropping(id)))
        else
          var s1 := if s.built then s else s.(built := true, capacity := s.max);
          Some(Become(s1.(pool := s1.pool + [id]), c, Idle))
      case Dropping(id) => if st.Drop? then Some(Become(s.(heaps := Without(s.heaps, [id])), c, Idle)) else None
      case _ => None
  }

  // What every step keeps

  /** The heap number a client has, if any. */
  predicate Has(s: Pool, c: nat, id: nat) {
    c in s.clients && !s.clients[c].Idle? && s.clients[c].id == id
  }

  ghost predicate PoolOk(s: Pool) {
    && (forall i, j :: 0 <= i < j < |s.pool| ==> s.pool[i] != s.pool[j])
    && (forall id :: id in s.pool ==> id in s.heaps && s.heaps[id].status == Clean)
    && (forall c: nat, id: nat :: Has(s, c, id) ==> id !in s.pool)
  }

  /** The pool is within its limit, and the array is large enough for the limit. */
  ghost predicate Fits(s: Pool) {
    if s.built then |s.pool| <= s.max <= s.capacity else s.pool == []
  }

  ghost predicate ClientsOk(s: Pool) {
    && (forall c: nat, d: nat, id: nat :: Has(s, c, id) && Has(s, d, id) ==> c == d)
    && (forall c: nat, id: nat :: Has(s, c, id) ==> id < s.next && (id in s.heaps <==> !s.clients[c].GotId?))
    && (forall c: nat, id: nat :: Has(s, c, id) && s.clients[c].Restored? ==> s.heaps[id].status == Clean)
  }

  /** A clean heap is as it was checkpointed, and every heap is in the pool or with a client. */
  ghost predicate HeapsOk(s: Pool) {
    && (forall id :: id in s.heaps ==> id < s.next)
    && (forall id :: id in s.heaps && s.heaps[id].status == Clean ==> s.heaps[id].contents == s.heaps[id].snapshot)
    && (forall id :: id in s.heaps ==> id in s.pool || exists c: nat :: Has(s, c, id))
  }

  ghost predicate Inv(s: Pool) {
    PoolOk(s) && ClientsOk(s) && HeapsOk(s) && Fits(s)
  }

  /** The limit and the array part company when the array is replaced by one smaller than the limit. */
  predicate Safe(s: Pool, st: Step) {
    st.SetMax? && s.built && st.alloc ==> s.max <= st.i
  }

  function Start(clients: set<nat>): Pool {
    Pool([], false, 0, INITIAL_MAX, 0, map[], map c | c in clients :: Idle)
  }

  lemma StartInv(clients: set<nat>)
    ensures Inv(Start(clients))
  {
    forall c: nat, id: nat ensures !Has(Start(clients), c, id) {
    }
  }

  /** A client moves on: who has what afterwards. */
  lemma HasAfter(s: Pool, s': Pool, c: nat, x: Client, d: nat, y: nat)
    requires s'.clients == s.clients[c := x]
    ensures Has(s', d, y) <==> if d == c then !x.Idle? && x.id == y else Has(s, d, y)
  {
  }

  ghost predicate Someone(s: Pool, id: nat) {
    exists c: nat :: Has(s, c, id)
  }

  lemma StillSomeone(s: Pool, s': Pool, c: nat, x: Client, id: nat)
    requires s'.clients == s.clients[c := x] && Someone(s, id) && !Has(s, c, id)
    ensures Someone(s', id)
  {
    var d: nat :| Has(s, d, id);
    HasAfter(s, s', c, x, d, id);
  }

  lemma NowSomeone(s: Pool, s': Pool, c: nat, x: Client)
    requires s'.clients == s.clients[c := x] && !x.Idle?
    ensures Someone(s', x.id)
  {
    HasAfter(s, s', c, x, c, x.id);
  }

  /** A client takes the last heap of the pool. */
  ghost predicate Takes(s: Pool, s': Pool, c: nat) {
    && c in s.clients && s.clients[c].Idle? && s.pool != []
    && var n := |s.pool| - 1; s' == s.(pool := s.pool[..n], clients := s.clients[c := Using(s.pool[n])])
  }

  lemma TakesPool(s: Pool, s': Pool, c: nat)
    requires PoolOk(s) && Takes(s, s', c)
    ensures PoolOk(s') && forall x :: x in s'.pool ==> x in s.pool
  {
    forall d: nat, y: nat | Has(s', d, y) ensures y !in s'.pool {
      HasAfter(s, s', c, s'.clients[c], d, y);
    }
  }

  lemma TakesClients(s: Pool, s': Pool, c: nat)
    requires PoolOk(s) && ClientsOk(s) && HeapsOk(s) && Takes(s, s', c)
    ensures ClientsOk(s')
  {
    var id := s.pool[|s.pool| - 1];
    forall d: nat, y: nat ensures Has(s', d, y) <==> if d == c then y == id else Has(s, d, y) {
      HasAfter(s, s', c, s'.clients[c], d, y);
    }
    assert id in s.pool;
  }

  lemma TakesHeaps(s: Pool, s': Pool, c: nat)
    requires HeapsOk(s) && Takes(s, s', c)
    ensures HeapsOk(s')
  {
    var n := |s.pool| - 1;
    assert s.pool == s.pool[..n] + [s.pool[n]];
    NowSomeone(s, s', c, s'.clients[c]);
    forall x | x in s'.heaps && x !in s'.pool ensures Someone(s', x) {
      if x != s.pool[n] {
        assert Someone(s, x);
        StillSomeone(s, s', c, s'.clients[c], x);
      }
    }
  }

  /** A client gets the number for a new heap. */
  lemma NumberInv(s: Pool, c: nat)
    requires Inv(s) && c in s.clients && s.clients[c].Idle? && s.pool == []
    ensures Inv(s.(next := s.next + 1, clients := s.clients[c := GotId(s.next)]))
  {
    var s' := s.(next := s.next + 1, clients := s.clients[c := GotId(s.next)]);
    forall d: nat, y: nat ensures Has(s', d, y) <==> if d == c then y == s.next else Has(s, d, y) {
      HasAfter(s, s', c, s'.clients[c], d, y);
    }
    forall x | x in s'.heaps ensures Someone(s', x) {
      assert Someone(s, x);
      StillSomeone(s, s', c, s'.clients[c], x);
    }
  }

  lemma GetInv(s: Pool, st: Step)
    requires Inv(s) && st.Get? && Exec(s, st).Some?
    ensures Inv(Exec(s, st).value)
  {
    hide PoolOk, ClientsOk, HeapsOk;
    if s.pool != [] {
      var s' := Exec(s, st).value;
      TakesPool(s, s', st.c);
      TakesClients(s, s', st.c);
      TakesHeaps(s, s', st.c);
    } else {
      NumberInv(s, st.c);
    }
  }

  /** What a client does to its own heap: the heap and where the client is with it change. */
  lemma OwnShape(s: Pool, st: Step) returns (id: nat, h: Heap, x: Client)
    requires Exec(s, st).Some?
    requires st.New? || st.Initialize? || st.Touch? || st.Work? || st.Discard? || st.Restore?
    ensures Has(s, st.c, id) && !x.Idle? && !x.GotId? && x.id == id
    ensures Exec(s, st).value == s.(heaps := s.heaps[id := h], clients := s.clients[st.c := x])
    ensures (x.Restored? ==> h.status == Clean)
    ensures (id in s.heaps && h == s.heaps[id]) || (h.status == Clean ==> h.contents == h.snapshot)
  {
    var s' := Exec(s, st).value;
    id := s.clients[st.c].id;
    h, x := s'.heaps[id], s'.clients[st.c];
    assert s'.heaps == s.heaps[id := h] && s'.clients == s.clients[st.c := x];
  }

  lemma OwnKeeps(s: Pool, c: nat, id: nat, h: Heap, x: Client)
    requires Inv(s) && Has(s, c, id) && !x.Idle? && !x.GotId? && x.id == id
    requires (x.Restored? ==> h.status == Clean)
    requires (id in s.heaps && h == s.heaps[id]) || (h.status == Clean ==> h.contents == h.snapshot)
    ensures Inv(s.(heaps := s.heaps[id := h], clients := s.clients[c := x]))
  {
    var s' := s.(heaps := s.heaps[id := h], clients := s.clients[c := x]);
    assert forall d: nat, y: nat :: Has(s', d, y) <==> Has(s, d, y);
    forall y | y in s'.heaps ensures y in s'.pool || exists d: nat :: Has(s', d, y) {
      if y == id {
        assert Has(s', c, y);
      } else if y !in s.pool {
        var d: nat :| Has(s, d, y);
        assert Has(s', d, y);
      }
    }
  }

  lemma OwnInv(s: Pool, st: Step)
    requires Inv(s) && Exec(s, st).Some?
    requires st.New? || st.Initialize? || st.Touch? || st.Work? || st.Discard? || st.Restore?
    ensures Inv(Exec(s, st).value)
  {
    hide Inv, Exec, Has;
    var id, h, x := OwnShape(s, st);
    OwnKeeps(s, st.c, id, h, x);
  }

  /** A client puts its restored heap in the pool. */
  ghost predicate Puts(s: Pool, s': Pool, c: nat) {
    && c in s.clients && s.clients[c].Restored? && s.clients[c].id in s.heaps
    && s' == s.(built := true, capacity := s'.capacity, pool := s.pool + [s.clients[c].id], clients := s.clients[c := Idle])
  }

  lemma PutsPool(s: Pool, s': Pool, c: nat)
    requires PoolOk(s) && ClientsOk(s) && Puts(s, s', c)
    ensures PoolOk(s')
  {
    var id := s.clients[c].id;
    assert Has(s, c, id);
    forall d: nat, y: nat | Has(s', d, y) ensures y !in s'.pool {
      HasAfter(s, s', c, Idle, d, y);
    }
  }

  lemma PutsClients(s: Pool, s': Pool, c: nat)
    requires ClientsOk(s) && Puts(s, s', c)
    ensures ClientsOk(s')
  {
    forall d: nat, y: nat ensures Has(s', d, y) <==> d != c && Has(s, d, y) {
      HasAfter(s, s', c, Idle, d, y);
    }
  }

  lemma PutsHeaps(s: Pool, s': Pool, c: nat)
    requires HeapsOk(s) && Puts(s, s', c)
    ensures HeapsOk(s')
  {
    var id := s.clients[c].id;
    forall x | x in s'.heaps && x !in s'.pool ensures Someone(s', x) {
      assert x !in s.pool && x != id by { assert s'.pool[|s.pool|] == id; }
      assert Someone(s, x);
      StillSomeone(s, s', c, Idle, x);
    }
  }

  lemma ReleaseInv(s: Pool, st: Step)
    requires Inv(s) && Exec(s, st).Some? && st.Release?
    ensures Inv(Exec(s, st).value)
  {
    hide PoolOk, ClientsOk, HeapsOk;
    var s' := Exec(s, st).value;
    var id := s.clients[st.c].id;
    if s'.clients[st.c].Idle? {
      PutsPool(s, s', st.c);
      PutsClients(s, s', st.c);
      PutsHeaps(s, s', st.c);
    } else {
      assert s'.clients[st.c] == Dropping(id) && s.heaps[id := s.heaps[id]] == s.heaps;
      OwnKeeps(s, st.c, id, s.heaps[id], Dropping(id));
    }
  }

  lemma DropInv(s: Pool, st: Step)
    requires Inv(s) && Exec(s, st).Some? && st.Drop?
    ensures Inv(Exec(s, st).value)
  {
    var s' := Exec(s, st).value;
    var id := s.clients[st.c].id;
    assert Has(s, st.c, id);
    assert forall c: nat, x: nat :: Has(s', c, x) ==> Has(s, c, x) && c != st.c;
    forall x | x in s'.heaps ensures x in s'.pool || exists c: nat :: Has(s', c, x) {
      if x !in s.pool {
        var c: nat :| Has(s, c, x);
        assert Has(s', c, x);
      }
    }
  }

  /** Taking the heaps from place `i` on out of the pool and deleting them. */
  ghost predicate Truncated(s: Pool, s': Pool, i: nat)
    requires i <= |s.pool|
  {
    s' == s.(pool := s.pool[..i], heaps := Without(s.heaps, s.pool[i..]), capacity := s'.capacity)
  }

  lemma TruncatePool(s: Pool, s': Pool, i: nat)
    requires PoolOk(s) && i <= |s.pool| && Truncated(s, s', i)
    ensures PoolOk(s')
  {
    forall x | x in s'.pool ensures x in s.pool && x in s'.heaps && s'.heaps[x] == s.heaps[x] {
      var j :| 0 <= j < i && s.pool[j] == x;
      assert x !in s.pool[i..];
    }
    forall c: nat, x: nat | Has(s', c, x) ensures x !in s'.pool {
      assert Has(s, c, x);
    }
  }

  lemma TruncateClients(s: Pool, s': Pool, i: nat)
    requires PoolOk(s) && ClientsOk(s) && i <= |s.pool| && Truncated(s, s', i)
    ensures ClientsOk(s')
  {
    forall c: nat, x: nat | Has(s', c, x) ensures Has(s, c, x) && x !in s.pool[i..] {
      assert Has(s, c, x);
      assert x !in s.pool;
    }
  }

  lemma TruncateHeaps(s: Pool, s': Pool, i: nat)
    requires HeapsOk(s) && i <= |s.pool| && Truncated(s, s', i)
    ensures HeapsOk(s')
  {
    assert s.pool == s.pool[..i] + s.pool[i..];
    forall x | x in s'.heaps ensures x in s'.pool || exists c: nat :: Has(s', c, x) {
      if x !in s.pool {
        var c: nat :| Has(s, c, x);
        assert Has(s', c, x);
      }
    }
  }

  lemma TruncateInv(s: Pool, s': Pool, i: nat)
    requires PoolOk(s) && ClientsOk(s) && HeapsOk(s) && i <= |s.pool| && Truncated(s, s', i)
    ensures PoolOk(s') && ClientsOk(s') && HeapsOk(s')
  {
    hide PoolOk, ClientsOk, HeapsOk;
    TruncatePool(s, s', i);
    TruncateClients(s, s', i);
    TruncateHeaps(s, s', i);
  }

  lemma SharedInv(s: Pool, st: Step)
    requires Inv(s) && (st.SetMax? || st.Clear?) && Safe(s, st)
    ensures Inv(Exec(s, st).value)
  {
    var s' := Exec(s, st).value;
    assert forall c: nat, x: nat :: Has(s', c, x) <==> Has(s, c, x);
    if st.Clear? {
      assert s.pool[0..] == s.pool;
      TruncateInv(s, s', 0);
    } else {
      forall x | x in s'.heaps && x !in s'.pool ensures exists c: nat :: Has(s', c, x) {
        var c: nat :| Has(s, c, x);
        assert Has(s', c, x);
      }
    }
  }

  lemma StepInv(s: Pool, st: Step)
    requires Inv(s) && Safe(s, st) && Exec(s, st).Some?
    ensures Inv(Exec(s, st).value)
  {
    match st
    case Get(_) => GetInv(s, st);
    case Release(_, _) => ReleaseInv(s, st);
    case Drop(_) => DropInv(s, st);
    case SetMax(_, _) => SharedInv(s, st);
    case Clear => SharedInv(s, st);
    case _ => OwnInv(s, st);
  }

  /** A replacement of the array that is not safe leaves it smaller than the limit, and a safe one, like
      every other step, keeps everything in order. */
  lemma SetMaxExactly(s: Pool, i: nat, alloc: bool)
    requires Inv(s)
    ensures Inv(Exec(s, SetMax(i, alloc)).value) <==> Safe(s, SetMax(i, alloc))
  {
    if Safe(s, SetMax(i, alloc)) {
      SharedInv(s, SetMax(i, alloc));
    }
  }

  /** If the limit were assigned with the array, every change of it would keep everything in order. */
  lemma AssignedLimit(s: Pool, i: nat)
    requires Inv(s) && s.built
    ensures Inv(Replace(s, i).(max := i))
  {
    var s1 := Replace(s, i);
    var s' := s1.(max := i);
    if |s.pool| > i {
      TruncateInv(s, s1, i);
    } else {
      assert s.pool[..|s.pool|] == s.pool && Without(s.heaps, s.pool[|s.pool|..]) == s.heaps;
      TruncateInv(s, s1, |s.pool|);
    }
    SameBut(s1, s');
  }

  lemma SameBut(s: Pool, s': Pool)
    requires s' == s.(max := s'.max) && PoolOk(s) && ClientsOk(s) && HeapsOk(s)
    ensures PoolOk(s') && ClientsOk(s') && HeapsOk(s')
  {
    assert forall c: nat, x: nat :: Has(s', c, x) <==> Has(s, c, x);
    forall x | x in s'.heaps && x !in s'.pool ensures exists c: nat :: Has(s', c, x) {
      var c: nat :| Has(s, c, x);
      assert Has(s', c, x);
    }
  }

  // Runs

  /** A run of any clients' steps in any order, from the start. */
  ghost predicate PoolRun(ss: seq<Pool>, sts: seq<Step>) {
    && |ss| == |sts| + 1 && ss[0] == Start(ss[0].clients.Keys)
    && forall i :: 0 <= i < |sts| ==> Exec(ss[i], sts[i]) == Some(ss[i + 1])
  }

  lemma {:induction false} RunInv(ss: seq<Pool>, sts: seq<Step>, i: nat)
    requires PoolRun(ss, sts) && i <= |sts|
    requires forall j :: 0 <= j < |sts| ==> Safe(ss[j], sts[j])
    ensures Inv(ss[i])
  {
    if i == 0 {
      StartInv(ss[0].clients.Keys);
    } else {
      RunInv(ss, sts, i - 1);
      assert Exec(ss[i - 1], sts[i - 1]) == Some(ss[i]);
      hide Exec, Inv, Safe;
      StepInv(ss[i - 1], sts[i - 1]);
    }
  }

  predicate AsCheckpointed(s: Pool, id: nat) {
    id in s.heaps && s.heaps[id].status == Clean && s.heaps[id].contents == s.heaps[id].snapshot
  }

  /** Whatever the other clients do, a client that asks for a heap gets one nobody else has, and it is
      either new or exactly as it was checkpointed. A heap is released only after it was in use and has
      been restored, and the place it is released to is inside the array. */
  lemma PoolProtocol(ss: seq<Pool>, sts: seq<Step>, i: nat)
    requires PoolRun(ss, sts) && i < |sts|
    requires forall j :: 0 <= j < |sts| ==> Safe(ss[j], sts[j])
    ensures var s, s' := ss[i], ss[i + 1];
      && (sts[i].Get? ==>
            var x := s'.clients[sts[i].c];
            && (forall d: nat :: Has(s', d, x.id) ==> d == sts[i].c)
            && (x.GotId? ==> x.id !in s'.heaps)
            && (x.Using? ==> AsCheckpointed(s', x.id)))
      && (sts[i].Release? && s'.clients[sts[i].c].Idle? ==>
            var id := s.clients[sts[i].c].id;
            && s'.pool == s.pool + [id] && |s.pool| < s'.capacity
            && AsCheckpointed(s', id))
  {
    RunInv(ss, sts, i);
    RunInv(ss, sts, i + 1);
    var s', st := ss[i + 1], sts[i];
    assert Exec(ss[i], st) == Some(s');
    if st.Get? {
      assert Has(s', st.c, s'.clients[st.c].id);
    } else if st.Release? {
      assert Has(ss[i], st.c, ss[i].clients[st.c].id);
    }
  }

  /** The numbers that have been given to a heap. */
  ghost predicate Spent(s: Pool, id: nat) {
    id < s.next && forall c: nat :: Has(s, c, id) ==> !s.clients[c].GotId?
  }

  lemma StaysSpent(s: Pool, st: Step, id: nat)
    requires Inv(s) && Exec(s, st).Some? && Spent(s, id)
    ensures Spent(Exec(s, st).value, id)
  {
    var s' := Exec(s, st).value;
    forall c: nat | Has(s', c, id) ensures !s'.clients[c].GotId? {
      assert s'.clients[c] == s.clients[c] ==> Has(s, c, id);
    }
  }

  lemma {:induction false} SpentOnward(ss: seq<Pool>, sts: seq<Step>, i: nat, j: nat, id: nat)
    requires PoolRun(ss, sts) && i <= j <= |sts| && Spent(ss[i], id)
    requires forall k :: 0 <= k < |sts| ==> Safe(ss[k], sts[k])
    ensures Spent(ss[j], id)
    decreases j - i
  {
    if i < j {
      RunInv(ss, sts, i);
      assert Exec(ss[i], sts[i]) == Some(ss[i + 1]);
      StaysSpent(ss[i], sts[i], id);
      SpentOnward(ss, sts, i + 1, j, id);
    }
  }

  /** No two heaps of a run ever have the same number. */
  lemma IdsNeverRepeat(ss: seq<Pool>, sts: seq<Step>, i: nat, j: nat)
    requires PoolRun(ss, sts) && i < j < |sts| && sts[i].New? && sts[j].New?
    requires forall k :: 0 <= k < |sts| ==> Safe(ss[k], sts[k])
    ensures sts[i].c in ss[i].clients && sts[j].c in ss[j].clients
    ensures ss[i].clients[sts[i].c].GotId? && ss[j].clients[sts[j].c].GotId?
    ensures ss[i].clients[sts[i].c].id != ss[j].clients[sts[j].c].id
  {
    RunInv(ss, sts, i);
    RunInv(ss, sts, i + 1);
    assert Exec(ss[i], sts[i]) == Some(ss[i + 1]) && Exec(ss[j], sts[j]) == Some(ss[j + 1]);
    var id := ss[i].clients[sts[i].c].id;
    assert Has(ss[i + 1], sts[i].c, id) && Spent(ss[i + 1], id);
    SpentOnward(ss, sts, i + 1, j, id);
    assert Has(ss[j], sts[j].c, ss[j].clients[sts[j].c].id);
  }

  // What an unsafe change of the limit leads to

  function After(s: Pool, sts: seq<Step>): (r: Option<Pool>)
    decreases |sts|
  {
    if sts == [] then Some(s)
    else
      var x := Exec(s, sts[0]);
      if x.None? then None else After(x.value, sts[1..])
  }

  function Releases(cs: seq<nat>): (sts: seq<Step>)
    ensures |sts| == |cs|
  {
    seq(|cs|, i requires 0 <= i < |cs| => Release(cs[i], true))
  }

  /** Clients, all different, that are about to release a heap. */
  ghost predicate Ready(s: Pool, cs: seq<nat>) {
    && (forall i, j :: 0 <= i < j < |cs| ==> cs[i] != cs[j])
    && forall i :: 0 <= i < |cs| ==> cs[i] in s.clients && s.clients[cs[i]].Restored? && s.clients[cs[i]].id in s.heaps
  }

  lemma ReleaseOne(s: Pool, cs: seq<nat>)
    requires s.built && |s.pool| < s.max && cs != [] && Ready(s, cs)
    ensures var x := Exec(s, Release(cs[0], true));
      && x.Some? && Ready(x.value, cs[1..]) && x.value.built
      && |x.value.pool| == |s.pool| + 1 && x.value.max == s.max && x.value.capacity == s.capacity
  {
    var s' := Exec(s, Release(cs[0], true)).value;
    forall i | 0 <= i < |cs[1..]| ensures s'.clients[cs[1..][i]] == s.clients[cs[i + 1]] {
      assert cs[i + 1] != cs[0];
    }
  }

  /** As long as the limit is not reached, every one of them puts its heap in the pool. */
  lemma {:induction false} AllRelease(s: Pool, cs: seq<nat>)
    requires s.built && |s.pool| + |cs| <= s.max && Ready(s, cs)
    ensures var x := After(s, Releases(cs));
      x.Some? && |x.value.pool| == |s.pool| + |cs| && x.value.capacity == s.capacity
    decreases |cs|
  {
    if cs != [] {
      hide Ready, Exec;
      ReleaseOne(s, cs);
      AllRelease(Exec(s, Release(cs[0], true)).value, cs[1..]);
      assert Releases(cs)[1..] == Releases(cs[1..]);
    }
  }

  /** After every unsafe change of the limit, the array is overrun as soon as one client more than it has
      free places has released its heap, though the limit is not exceeded. */
  lemma Overruns(s: Pool, i: nat, cs: seq<nat>)
    requires Inv(s) && !Safe(s, SetMax(i, true)) && Ready(s, cs)
    requires |cs| == (if |s.pool| < i then i - |s.pool| else 0) + 1
    ensures var x := After(s, [SetMax(i, true)] + Releases(cs));
      x.Some? && x.value.capacity < |x.value.pool| <= x.value.max
  {
    var s1, sts := Exec(s, SetMax(i, true)).value, [SetMax(i, true)] + Releases(cs);
    StaysReady(s, i, cs);
    AllRelease(s1, cs);
    assert sts[1..] == Releases(cs);
    AfterMax(s1, Releases(cs));
  }

  lemma StaysReady(s: Pool, i: nat, cs: seq<nat>)
    requires Inv(s) && Ready(s, cs)
    ensures Ready(Exec(s, SetMax(i, true)).value, cs)
  {
    var s' := Exec(s, SetMax(i, true)).value;
    forall k | 0 <= k < |cs| ensures s.clients[cs[k]].id in s'.heaps {
      assert Has(s, cs[k], s.clients[cs[k]].id);
    }
  }

  lemma {:induction false} AfterMax(s: Pool, sts: seq<Step>)
    requires After(s, sts).Some? && forall k :: 0 <= k < |sts| ==> sts[k].Release?
    ensures After(s, sts).value.max == s.max
    decreases |sts|
  {
    if sts != [] {
      AfterMax(Exec(s, sts[0]).value, sts[1..]);
    }
  }

  // A run from the start in which it happens

  /** What a client does to have a restored heap, when the pool is empty. */
  function Use(c: nat, contents: int): seq<Step> {
    [Get(c), New(c, contents), Initialize(c), Touch(c), Restore(c)]
  }

  lemma AfterOne(s: Pool, st: Step, rest: seq<Step>, s1: Pool)
    requires Exec(s, st) == Some(s1)
    ensures After(s, [st] + rest) == After(s1, rest)
  {
    hide Exec;
    assert ([st] + rest)[1..] == rest;
  }

  lemma AfterNone(s: Pool)
    ensures After(s, []) == Some(s)
  {
  }

  lemma GetNumber(s: Pool, c: nat)
    requires s.pool == [] && c in s.clients && s.clients[c].Idle?
    ensures Exec(s, Get(c)) == Some(Become(s.(next := s.next + 1), c, GotId(s.next)))
  {
  }

  /** A client with a heap number, and the steps that make the heap, checkpoint it, use it and restore it. */
  lemma OwnSteps(s: Pool, c: nat, id: nat, x: int)
    requires c in s.clients && s.clients[c] == GotId(id)
    ensures var s2 := Become(s.(heaps := s.heaps[id := Heap(Uninitialized, x, 0)]), c, Using(id));
      var s3 := s2.(heaps := s2.heaps[id := Heap(Clean, x, x)]);
      var s4 := s3.(heaps := s3.heaps[id := Heap(Dirty, x, x)]);
      && Exec(s, New(c, x)) == Some(s2) && Exec(s2, Initialize(c)) == Some(s3) && Exec(s3, Touch(c)) == Some(s4)
      && Exec(s4, Restore(c)) == Some(Become(s4.(heaps := s4.heaps[id := Heap(Clean, x, x)]), c, Restored(id)))
  {
  }

  lemma Uses(s: Pool, c: nat, x: int)
    requires s.pool == [] && c in s.clients && s.clients[c].Idle?
    ensures After(s, Use(c, x)) == Some(s.(next := s.next + 1, heaps := s.heaps[s.next := Heap(Clean, x, x)],
                                           clients := s.clients[c := Restored(s.next)]))
  {
    hide Exec, After;
    var id := s.next;
    var s1 := Become(s.(next := id + 1), c, GotId(id));
    GetNumber(s, c);
    OwnSteps(s1, c, id, x);
    var s2 := Become(s1.(heaps := s1.heaps[id := Heap(Uninitialized, x, 0)]), c, Using(id));
    var s3 := s2.(heaps := s2.heaps[id := Heap(Clean, x, x)]);
    var s4 := s3.(heaps := s3.heaps[id := Heap(Dirty, x, x)]);
    var s5 := Become(s4.(heaps := s4.heaps[id := Heap(Clean, x, x)]), c, Restored(id));
    AfterNone(s5);
    AfterOne(s4, Restore(c), [], s5);
    AfterOne(s3, Touch(c), [Restore(c)], s4);
    AfterOne(s2, Initialize(c), [Touch(c), Restore(c)], s3);
    AfterOne(s1, New(c, x), [Initialize(c), Touch(c), Restore(c)], s2);
    AfterOne(s, Get(c), [New(c, x), Initialize(c), Touch(c), Restore(c)], s1);
    assert [Restore(c)] + [] == [Restore(c)] && [Touch(c)] + [Restore(c)] == [Touch(c), Restore(c)];
    assert [Initialize(c)] + [Touch(c), Restore(c)] == [Initialize(c), Touch(c), Restore(c)];
    assert [New(c, x)] + [Initialize(c), Touch(c), Restore(c)] == [New(c, x), Initialize(c), Touch(c), Restore(c)];
    assert [Get(c)] + [New(c, x), Initialize(c), Touch(c), Restore(c)] == Use(c, x);
    assert s5.heaps == s.heaps[id := Heap(Clean, x, x)] && s5.clients == s.clients[c := Restored(id)];
  }

  lemma {:induction false} AfterBoth(s: Pool, a: seq<Step>, b: seq<Step>)
    requires After(s, a).Some?
    ensures After(s, a + b) == After(After(s, a).value, b)
    decreases |a|
  {
    hide Exec;
    if a == [] {
      assert a + b == b;
    } else {
      assert (a + b)[1..] == a[1..] + b;
      AfterBoth(Exec(s, a[0]).value, a[1..], b);
    }
  }

  /** The states that steps lead through. */
  lemma {:induction false} Through(s: Pool, sts: seq<Step>) returns (ss: seq<Pool>)
    requires After(s, sts).Some?
    ensures |ss| == |sts| + 1 && ss[0] == s && ss[|sts|] == After(s, sts).value
    ensures forall i :: 0 <= i < |sts| ==> Exec(ss[i], sts[i]) == Some(ss[i + 1])
    decreases |sts|
  {
    hide Exec;
    if sts == [] {
      ss := [s];
    } else {
      var rest := Through(Exec(s, sts[0]).value, sts[1..]);
      ss := [s] + rest;
      forall i | 0 <= i < |sts| ensures Exec(ss[i], sts[i]) == Some(ss[i + 1]) {
        if i > 0 {
          assert Exec(rest[i - 1], sts[1..][i - 1]) == Some(rest[i]);
        }
      }
    }
  }

  /** Two clients use a heap each, one releases its heap, the array is replaced by one of a single place,
      and the other releases its heap. */
  lemma OverrunHappens() returns (ss: seq<Pool>, sts: seq<Step>)
    ensures PoolRun(ss, sts) && ss[|sts|].capacity < |ss[|sts|].pool|
  {
    hide Exec, After, Use, Start;
    var s0 := Start({0, 1});
    var a, b, c := Use(0, 10), Use(1, 20), [Release(0, true), SetMax(1, true), Release(1, true)];
    var s2 := BothUse();
    LastThree(s2);
    AfterBoth(s0, a + b, c);
    sts := a + b + c;
    ss := Through(s0, sts);
    StartClients();
  }

  lemma StartClients()
    ensures Start({0, 1}).clients.Keys == {0, 1}
  {
  }

  lemma BothUse() returns (s: Pool)
    ensures After(Start({0, 1}), Use(0, 10) + Use(1, 20)) == Some(s)
    ensures s.pool == [] && !s.built && s.max == INITIAL_MAX && 0 in s.clients && 1 in s.clients
    ensures s.clients[0].Restored? && s.clients[1].Restored?
    ensures s.clients[0].id in s.heaps && s.clients[1].id in s.heaps
  {
    hide Exec, After, Use;
    var s0 := Start({0, 1});
    Uses(s0, 0, 10);
    var s1 := After(s0, Use(0, 10)).value;
    Uses(s1, 1, 20);
    s := After(s1, Use(1, 20)).value;
    AfterBoth(s0, Use(0, 10), Use(1, 20));
  }

  lemma LastThree(s: Pool)
    requires s.pool == [] && !s.built && s.max == INITIAL_MAX && 0 in s.clients && 1 in s.clients
    requires s.clients[0].Restored? && s.clients[1].Restored?
    requires s.clients[0].id in s.heaps && s.clients[1].id in s.heaps
    ensures var x := After(s, [Release(0, true), SetMax(1, true), Release(1, true)]);
      x.Some? && x.value.capacity < |x.value.pool|
  {
    var s1 := Exec(s, Release(0, true)).value;
    var s2 := Exec(s1, SetMax(1, true)).value;
    var s3 := Exec(s2, Release(1, true)).value;
    assert s1.pool == [s.clients[0].id] && s2 == s1.(capacity := 1) && |s3.pool| == 2 && s3.capacity == 1;
    assert Exec(s, Release(0, true)).Some? && Exec(s1, SetMax(1, true)).Some? && Exec(s2, Release(1, true)).Some?;
    hide Exec, After;
    AfterNone(s3);
    AfterOne(s2, Release(1, true), [], s3);
    AfterOne(s1, SetMax(1, true), [Release(1, true)], s2);
    AfterOne(s, Release(0, true), [SetMax(1, true), Release(1, true)], s1);
    assert [Release(1, true)] + [] == [Release(1, true)];
    assert [SetMax(1, true)] + [Release(1, true)] == [SetMax(1, true), Release(1, true)];
    assert [Release(0, true)] + [SetMax(1, true), Release(1, true)] == [Release(0, true), SetMax(1, true), Release(1, true)];
  }
}
