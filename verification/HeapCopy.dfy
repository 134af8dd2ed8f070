/**
 Checkpointing a heap: several regions that share one free list, and the low end of the stack. Each
 region is copied and restored by itself; restoring one leaves the others alone, so restoring all of
 them, whatever was done to any of them in the meantime, gives the whole heap back.
 */
module HeapCopy {
  import opened RegionCopy

  /** How many words of the stack below the stack pointer are copied. */
  const LOW_STACK := 6

  datatype Part = Part(r: Region, ps: seq<nat>, ls: seq<nat>)

  datatype Whole = Whole(m: Mem, parts: seq<Part>, fs: seq<nat>, stack: seq<int>)

  /** One region of the heap. */
  function One(w: Whole, i: nat): State
    requires i < |w.parts|
  {
    State(w.m, w.parts[i].r, w.parts[i].ps, w.parts[i].ls, w.fs)
  }

  /** The heap with a region of it changed. */
  function With(w: Whole, i: nat, s: State): Whole
    requires i < |w.parts|
  {
    w.(m := s.m, parts := w.parts[i := Part(s.r, s.ps, s.ls)], fs := s.fs)
  }

  predicate Disjoint(a: seq<nat>, b: seq<nat>) {
    forall x :: x in a ==> x !in b
  }

  /** No two regions have a page or a large object in common. */
  ghost predicate Apart(w: Whole) {
    forall i, j :: 0 <= i < |w.parts| && 0 <= j < |w.parts| && i != j ==>
      Disjoint(w.parts[i].ps, w.parts[j].ps) && Disjoint(w.parts[i].ls, w.parts[j].ls)
  }

  ghost predicate AllOk(w: Whole, k: nat) {
    Apart(w) && forall i :: 0 <= i < |w.parts| ==> Ok(One(w, i), k)
  }

  // A change of one region leaves the others alone

  /** What is not in the region, nor on the free list, is as it was; what is new in it comes from there or
      from outside the memory. */
  ghost predicate Elsewhere(s: State, s': State) {
    && (forall p :: p in s.m.pages && p !in s.ps && p !in s.fs ==> p in s'.m.pages && s'.m.pages[p] == s.m.pages[p])
    && (forall l :: l in s.m.lobjs && l !in s.ls ==> l in s'.m.lobjs && s'.m.lobjs[l] == s.m.lobjs[l])
    && (forall p :: p in s'.ps || p in s'.fs ==> p in s.ps || p in s.fs || p !in s.m.pages)
    && forall l :: l in s'.ls ==> l in s.ls || l !in s.m.lobjs
  }

  lemma OpElsewhere(s: State, op: Op, k: nat)
    requires Ok(s, k) && Allowed(s, op, k)
    ensures Elsewhere(s, Apply(s, op, k))
  {
    if op.Grow? {
      GrowElsewhere(s, op, k);
    } else if op.Sbrk? {
      SbrkElsewhere(s, op, k);
    }
  }

  lemma SbrkElsewhere(s: State, op: Op, k: nat)
    requires Ok(s, k) && Allowed(s, op, k) && op.Sbrk?
    ensures Elsewhere(s, Apply(s, op, k))
  {
    forall p | p in [op.q] + s.fs ensures p in s.fs || p == op.q {
    }
  }

  lemma GrowElsewhere(s: State, op: Op, k: nat)
    requires Ok(s, k) && Allowed(s, op, k) && op.Grow?
    ensures Elsewhere(s, Apply(s, op, k))
  {
    var q := s.fs[0];
    assert q in s.fs && s.r.b in s.ps;
    assert forall p :: p in s.ps + [q] ==> p in s.ps || p == q;
    assert forall p :: p in s.fs[1..] ==> p in s.fs;
  }

  lemma Listed(s: State, k: nat)
    requires Ok(s, k)
    ensures (forall p :: p in s.ps ==> p in s.m.pages && p !in s.fs) && forall l :: l in s.ls ==> l in s.m.lobjs
  {
    PagesListed(s, k);
    LobjsListed(s, k);
    forall p | p in s.ps ensures p !in s.fs {
      var i :| 0 <= i < |s.ps| && s.ps[i] == p;
      assert (s.ps + s.fs)[i] == p;
      forall j | 0 <= j < |s.fs| ensures s.fs[j] != p {
        assert (s.ps + s.fs)[|s.ps| + j] == s.fs[j];
      }
    }
  }

  lemma DistinctJoin(a: seq<nat>, b: seq<nat>)
    requires Distinct(a) && Distinct(b) && Disjoint(a, b)
    ensures Distinct(a + b)
  {
    forall i, j | 0 <= i < j < |a + b| ensures (a + b)[i] != (a + b)[j] {
      if i < |a| <= j {
        assert a[i] in a && b[j - |a|] in b;
      }
    }
  }

  lemma DistinctHalves(a: seq<nat>, b: seq<nat>)
    requires Distinct(a + b)
    ensures Distinct(a) && Distinct(b)
  {
    assert forall i :: 0 <= i < |a| ==> (a + b)[i] == a[i];
    assert forall i :: 0 <= i < |b| ==> (a + b)[|a| + i] == b[i];
  }

  /** Another region, with pages and large objects of its own, is still in order. */
  lemma OtherOk(s: State, s': State, t: State, k: nat)
    requires Ok(s, k) && Ok(s', k) && Ok(t, k) && t.m == s.m && t.fs == s.fs && Elsewhere(s, s')
    requires Disjoint(t.ps, s.ps) && Disjoint(t.ls, s.ls)
    ensures Ok(t.(m := s'.m, fs := s'.fs), k) && Disjoint(t.ps, s'.ps) && Disjoint(t.ls, s'.ls)
    ensures SamePages(t.m, s'.m, t.ps) && SameLobjs(t.m, s'.m, t.ls)
  {
    Listed(t, k);
    DistinctHalves(t.ps, t.fs);
    DistinctHalves(s'.ps, s'.fs);
    DistinctJoin(t.ps, s'.fs);
    hide Elsewhere, Disjoint;
    RestoredHolds(t, s'.m, s'.fs, k);
  }

  lemma WithOk(w: Whole, i: nat, s': State, k: nat)
    requires AllOk(w, k) && i < |w.parts| && Ok(s', k) && Elsewhere(One(w, i), s')
    ensures AllOk(With(w, i, s'), k)
    ensures forall j :: 0 <= j < |w.parts| && j != i ==>
      SamePages(w.m, s'.m, w.parts[j].ps) && SameLobjs(w.m, s'.m, w.parts[j].ls)
  {
    var w' := With(w, i, s');
    hide Ok, Elsewhere, Disjoint, SamePages, SameLobjs;
    forall j | 0 <= j < |w.parts| && j != i
      ensures Ok(One(w', j), k) && Disjoint(w.parts[j].ps, s'.ps) && Disjoint(w.parts[j].ls, s'.ls)
      ensures SamePages(w.m, s'.m, w.parts[j].ps) && SameLobjs(w.m, s'.m, w.parts[j].ls)
    {
      OtherOk(One(w, i), s', One(w, j), k);
    }
    Swapped(w, w', i);
  }

  lemma Swapped(w: Whole, w': Whole, i: nat)
    requires Apart(w) && i < |w.parts| == |w'.parts| && w'.parts == w.parts[i := w'.parts[i]]
    requires forall j :: 0 <= j < |w.parts| && j != i ==>
      Disjoint(w.parts[j].ps, w'.parts[i].ps) && Disjoint(w.parts[j].ls, w'.parts[i].ls)
    ensures Apart(w')
  {
    forall a, b | 0 <= a < |w.parts| && 0 <= b < |w.parts| && a != b
      ensures Disjoint(w'.parts[a].ps, w'.parts[b].ps) && Disjoint(w'.parts[a].ls, w'.parts[b].ls)
    {
      if a == i {
        assert Disjoint(w.parts[b].ps, w'.parts[i].ps) && Disjoint(w.parts[b].ls, w'.parts[i].ls);
      } else if b != i {
        assert Disjoint(w.parts[a].ps, w.parts[b].ps) && Disjoint(w.parts[a].ls, w.parts[b].ls);
      }
    }
  }

  // What a request does to the heap

  datatype Act = InRegion(i: nat, op: Op) | OnStack(j: nat, v: int)

  ghost predicate Permitted(w: Whole, a: Act, sp: nat, k: nat) {
    match a
    case InRegion(i, op) => i < |w.parts| && Allowed(One(w, i), op, k)
    case OnStack(j, _) => sp - LOW_STACK <= j < |w.stack|
  }

  ghost function Do(w: Whole, a: Act, sp: nat, k: nat): Whole
    requires AllOk(w, k) && Permitted(w, a, sp, k)
  {
    match a
    case InRegion(i, op) => With(w, i, Apply(One(w, i), op, k))
    case OnStack(j, v) => w.(stack := w.stack[j := v])
  }

  /** What has become of the heap: every region has more pages after its old ones and more large objects
      before its old ones, and the stack is as it was below the words that are copied. */
  ghost predicate SinceAll(w0: Whole, w: Whole, sp: nat, k: nat) {
    && AllOk(w0, k) && AllOk(w, k) && |w.parts| == |w0.parts| && |w.stack| == |w0.stack|
    && LOW_STACK <= sp <= |w.stack| && w.stack[..sp - LOW_STACK] == w0.stack[..sp - LOW_STACK]
    && forall i :: 0 <= i < |w.parts| ==> Since(One(w0, i), One(w, i), k)
  }

  lemma ActKeeps(w0: Whole, w: Whole, a: Act, sp: nat, k: nat)
    requires SinceAll(w0, w, sp, k) && Permitted(w, a, sp, k)
    ensures SinceAll(w0, Do(w, a, sp, k), sp, k)
  {
    if a.InRegion? {
      var i := a.i;
      var s' := Apply(One(w, i), a.op, k);
      OpKeeps(One(w0, i), One(w, i), a.op, k);
      OpElsewhere(One(w, i), a.op, k);
      hide Elsewhere, Apply, Allowed, Ok, Apart, Since;
      SinceOk(One(w0, i), s', k);
      WithOk(w, i, s', k);
      var w' := With(w, i, s');
      forall j | 0 <= j < |w.parts| && j != i ensures Since(One(w0, j), One(w', j), k) {
        assert Since(One(w0, j), One(w, j), k) && Ok(One(w', j), k);
        SinceOther(One(w0, j), One(w, j), One(w', j), k);
      }
    } else {
      var w' := w.(stack := w.stack[a.j := a.v]);
      SameRegions(w, w', k);
      forall j | 0 <= j < |w.parts| ensures Since(One(w0, j), One(w', j), k) {
        assert One(w', j) == One(w, j) && Since(One(w0, j), One(w, j), k);
      }
    }
  }

  lemma SinceOk(s0: State, s: State, k: nat)
    requires Since(s0, s, k)
    ensures Ok(s, k)
  {
  }

  lemma SameRegions(w: Whole, w': Whole, k: nat)
    requires AllOk(w, k) && w' == w.(stack := w'.stack)
    ensures AllOk(w', k)
  {
    forall i | 0 <= i < |w.parts| ensures Ok(One(w', i), k) {
      assert One(w', i) == One(w, i);
    }
  }

  // Restoring

  /** A region restored from its checkpoint, with the pages added since on the free list. */
  ghost function Restoration(s0: State, s: State, k: nat): State
    requires Since(s0, s, k)
  {
    var (m, r) := Restored(s0, s, k);
    State(m, r, s0.ps, s0.ls, s.ps[|s0.ps|..] + s.fs)
  }

  ghost function RestoreOne(w0: Whole, w: Whole, i: nat, k: nat): Whole
    requires i < |w0.parts| == |w.parts| && Since(One(w0, i), One(w, i), k)
  {
    With(w, i, Restoration(One(w0, i), One(w, i), k))
  }

  /** The first `i` regions are as they were. */
  ghost predicate Back(w0: Whole, w: Whole, i: nat)
    requires i <= |w0.parts| == |w.parts|
  {
    forall j :: 0 <= j < i ==>
      w.parts[j] == w0.parts[j] && SamePages(w0.m, w.m, w0.parts[j].ps) && SameLobjs(w0.m, w.m, w0.parts[j].ls)
  }

  lemma RestorationBack(s0: State, s: State, k: nat)
    requires Since(s0, s, k)
    ensures var t := Restoration(s0, s, k);
      Ok(t, k) && t.r == s0.r && SamePages(s0.m, t.m, s0.ps) && SameLobjs(s0.m, t.m, s0.ls) && t.m.pages.Keys == s.m.pages.Keys
  {
    hide Restored, Holds, SamePages, SameLobjs;
    RestoresAll(s0, s, k);
  }

  /** Restoring a region touches no page and no large object of another one. */
  lemma RestoreElsewhere(s0: State, s: State, k: nat)
    requires Since(s0, s, k)
    ensures Elsewhere(s, Restoration(s0, s, k))
  {
    RestoredShape(s0, s, k);
    hide Restored, Reshaped, Since;
    LobjsElsewhere(s0, s, k);
    PagesElsewhere(s0, s, Restored(s0, s, k).0, k);
    ListsElsewhere(s0, s, k);
  }

  lemma ListsElsewhere(s0: State, s: State, k: nat)
    requires Since(s0, s, k)
    ensures (forall p :: p in s0.ps ==> p in s.ps) && (forall l :: l in s0.ls ==> l in s.ls)
    ensures |s0.ps| <= |s.ps| && forall p :: p in s.ps[|s0.ps|..] + s.fs ==> p in s.ps || p in s.fs
  {
    hide Ok;
    forall l | l in s0.ls ensures l in s.ls {
      assert l in s.ls[|s.ls| - |s0.ls|..];
    }
  }

  lemma PagesElsewhere(s0: State, s: State, m: Mem, k: nat)
    requires Since(s0, s, k) && Reshaped(s0, s, m)
    ensures forall p :: p in s.m.pages && p !in s.ps ==> p in m.pages && m.pages[p] == s.m.pages[p]
  {
    Layout(s0, s, k);
    hide Since, Distinct;
    assert forall p :: p in s0.ps ==> p in s.ps[..|s0.ps|];
  }

  lemma LobjsElsewhere(s0: State, s: State, k: nat)
    requires Since(s0, s, k)
    ensures forall l :: l in s.m.lobjs && l !in s.ls ==> l in Restored(s0, s, k).0.lobjs && Restored(s0, s, k).0.lobjs[l] == s.m.lobjs[l]
  {
    LobjsListed(s, k);
    LobjsListed(s0, k);
    hide PutValues, WriteBack;
    var d := |s.ls| - |s0.ls|;
    assert forall l :: l in s.ls[..d] ==> l in s.ls;
    assert forall l :: l in s.ls[d..] ==> l in s.ls;
  }

  lemma OneBack(w0: Whole, w: Whole, sp: nat, i: nat, k: nat)
    requires SinceAll(w0, w, sp, k) && i < |w.parts| && Back(w0, w, i)
    ensures var w' := RestoreOne(w0, w, i, k);
      && SinceAll(w0, w', sp, k) && Back(w0, w', i + 1) && w'.m.pages.Keys == w.m.pages.Keys
      && w'.stack == w.stack
  {
    hide Restoration, Elsewhere, Ok, Apart, SamePages, SameLobjs, Since;
    var s0, s := One(w0, i), One(w, i);
    SinceAt(w0, w, sp, i, k);
    RestorationBack(s0, s, k);
    RestoreElsewhere(s0, s, k);
    var s' := Restoration(s0, s, k);
    var w' := RestoreOne(w0, w, i, k);
    RestorationLists(s0, s, k);
    WithOk(w, i, s', k);
    SinceItself(s0, s', k);
    forall j | 0 <= j < |w.parts| ensures Since(One(w0, j), One(w', j), k) {
      if j != i {
        assert Since(One(w0, j), One(w, j), k) && Ok(One(w', j), k);
        SinceOther(One(w0, j), One(w, j), One(w', j), k);
      }
    }
    BackMore(w0, w, w', i);
  }

  lemma RestorationLists(s0: State, s: State, k: nat)
    requires Since(s0, s, k)
    ensures var t := Restoration(s0, s, k); t.ps == s0.ps && t.ls == s0.ls
  {
    hide Restored, Since;
  }

  lemma SinceItself(s0: State, t: State, k: nat)
    requires Ok(s0, k) && Ok(t, k) && t.ps == s0.ps && t.ls == s0.ls
    ensures Since(s0, t, k)
  {
    hide Ok;
  }

  lemma SinceOther(s0: State, s: State, t: State, k: nat)
    requires Since(s0, s, k) && Ok(t, k) && t.ps == s.ps && t.ls == s.ls
    ensures Since(s0, t, k)
  {
    hide Ok;
  }

  lemma BackMore(w0: Whole, w: Whole, w': Whole, i: nat)
    requires i < |w0.parts| == |w.parts| == |w'.parts| && Back(w0, w, i)
    requires w'.parts == w.parts[i := w0.parts[i]] && SamePages(w0.m, w'.m, w0.parts[i].ps) && SameLobjs(w0.m, w'.m, w0.parts[i].ls)
    requires forall j :: 0 <= j < |w.parts| && j != i ==>
      SamePages(w.m, w'.m, w.parts[j].ps) && SameLobjs(w.m, w'.m, w.parts[j].ls)
    ensures Back(w0, w', i + 1)
  {
    forall j | 0 <= j < i
      ensures w'.parts[j] == w0.parts[j] && SamePages(w0.m, w'.m, w0.parts[j].ps) && SameLobjs(w0.m, w'.m, w0.parts[j].ls)
    {
      assert w.parts[j] == w0.parts[j] && SamePages(w.m, w'.m, w.parts[j].ps) && SameLobjs(w.m, w'.m, w.parts[j].ls);
    }
  }

  ghost function RestoreFrom(w0: Whole, w: Whole, sp: nat, i: nat, k: nat): Whole
    requires SinceAll(w0, w, sp, k) && i <= |w.parts| && Back(w0, w, i)
    decreases |w.parts| - i
  {
    if i == |w.parts| then w
    else
      OneBack(w0, w, sp, i, k);
      RestoreFrom(w0, RestoreOne(w0, w, i, k), sp, i + 1, k)
  }

  /** The copied words of the stack, put back. */
  function RestoreStack(low: seq<int>, stack: seq<int>, sp: nat): seq<int>
    requires LOW_STACK <= sp <= |stack| && |low| == LOW_STACK
  {
    stack[..sp - LOW_STACK] + low + stack[sp..]
  }

  ghost function RestoreHeap(w0: Whole, w: Whole, sp: nat, k: nat): Whole
    requires SinceAll(w0, w, sp, k)
  {
    AllBack(w0, w, sp, 0, k);
    var w' := RestoreFrom(w0, w, sp, 0, k);
    w'.(stack := RestoreStack(w0.stack[sp - LOW_STACK..sp], w'.stack, sp))
  }

  lemma {:induction false} AllBack(w0: Whole, w: Whole, sp: nat, i: nat, k: nat)
    requires SinceAll(w0, w, sp, k) && i <= |w.parts| && Back(w0, w, i)
    ensures var w' := RestoreFrom(w0, w, sp, i, k);
      SinceAll(w0, w', sp, k) && Back(w0, w', |w.parts|) && w'.m.pages.Keys == w.m.pages.Keys && w'.stack == w.stack
    decreases |w.parts| - i
  {
    hide SinceAll, Back, RestoreOne;
    SinceCounts(w0, w, sp, k);
    if i < |w.parts| {
      SinceAt(w0, w, sp, i, k);
      OneBack(w0, w, sp, i, k);
      var w1 := RestoreOne(w0, w, i, k);
      SinceCounts(w0, w1, sp, k);
      AllBack(w0, w1, sp, i + 1, k);
    }
  }

  lemma SinceAt(w0: Whole, w: Whole, sp: nat, i: nat, k: nat)
    requires SinceAll(w0, w, sp, k) && i < |w.parts|
    ensures |w.parts| == |w0.parts| && Since(One(w0, i), One(w, i), k) && Ok(One(w0, i), k)
  {
    hide Ok;
  }

  lemma SinceCounts(w0: Whole, w: Whole, sp: nat, k: nat)
    requires SinceAll(w0, w, sp, k)
    ensures |w.parts| == |w0.parts|
  {
  }

  ghost predicate ActRun(ws: seq<Whole>, acts: seq<Act>, sp: nat, k: nat) {
    && |ws| == |acts| + 1 && AllOk(ws[0], k) && LOW_STACK <= sp <= |ws[0].stack|
    && forall i :: 0 <= i < |acts| ==> AllOk(ws[i], k) && Permitted(ws[i], acts[i], sp, k) && ws[i + 1] == Do(ws[i], acts[i], sp, k)
  }

  lemma {:induction false} RunSinceAll(ws: seq<Whole>, acts: seq<Act>, sp: nat, k: nat, i: nat)
    requires ActRun(ws, acts, sp, k) && i < |ws|
    ensures SinceAll(ws[0], ws[i], sp, k)
  {
    if i == 0 {
      forall j | 0 <= j < |ws[0].parts| ensures Since(One(ws[0], j), One(ws[0], j), k) {
        assert Ok(One(ws[0], j), k);
      }
    } else {
      RunSinceAll(ws, acts, sp, k, i - 1);
      assert ws[i] == Do(ws[i - 1], acts[i - 1], sp, k);
      hide SinceAll, Do, Permitted, AllOk;
      ActKeeps(ws[0], ws[i - 1], acts[i - 1], sp, k);
    }
  }

  /** After a checkpoint of the heap and any run of operations on any of its regions and of writes to the
      copied end of the stack or above it, restoring gives back every descriptor, page, large object and
      the stack, with the regions and the free list in order and no page lost. */
  lemma HeapRoundTrip(ws: seq<Whole>, acts: seq<Act>, sp: nat, k: nat)
    requires ActRun(ws, acts, sp, k)
    ensures var w0, w := ws[0], ws[|acts|];
      && SinceAll(w0, w, sp, k)
      && var w' := RestoreHeap(w0, w, sp, k);
         && AllOk(w', k) && |w'.parts| == |w0.parts| && Back(w0, w', |w0.parts|) && w'.m.pages.Keys == w.m.pages.Keys
         && |w'.stack| == |w0.stack| && w'.stack[..sp] == w0.stack[..sp]
  {
    hide AllOk, Back, SinceAll, RestoreFrom;
    RunSinceAll(ws, acts, sp, k, |acts|);
    HeapBack(ws[0], ws[|acts|], sp, k);
  }

  lemma HeapBack(w0: Whole, w: Whole, sp: nat, k: nat)
    requires SinceAll(w0, w, sp, k)
    ensures var w' := RestoreHeap(w0, w, sp, k);
      && AllOk(w', k) && |w'.parts| == |w0.parts| && Back(w0, w', |w0.parts|) && w'.m.pages.Keys == w.m.pages.Keys
      && |w'.stack| == |w0.stack| && LOW_STACK <= sp <= |w0.stack| && w'.stack[..sp] == w0.stack[..sp]
  {
    hide AllOk, RestoreFrom, Since, SamePages, SameLobjs;
    AllBack(w0, w, sp, 0, k);
    var w1 := RestoreFrom(w0, w, sp, 0, k);
    SameRegions(w1, RestoreHeap(w0, w, sp, k), k);
    StackBack(w0.stack, w.stack, sp);
  }

  lemma StackBack(stack0: seq<int>, stack: seq<int>, sp: nat)
    requires 6 <= sp <= |stack| == |stack0| && stack[..sp - 6] == stack0[..sp - 6]
    ensures var r := RestoreStack(stack0[sp - LOW_STACK..sp], stack, sp); |r| == |stack0| && r[..sp] == stack0[..sp]
  {
    assert stack0[..sp] == stack0[..sp - LOW_STACK] + stack0[sp - LOW_STACK..sp];
  }
}
