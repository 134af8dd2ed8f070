/**
 The cached-hash table as the C code keeps it, and its runs. Its erase is the literal one; a run in
 which every erase meets only harmless hashes is a run of the plain table, and so of a finite map.
 */
module PolyTable {
  import opened HashSpec
  import opened HashSizes
  import opened HashOps
  import opened HashMap
  import opened HashLoops
  import opened PolyHash

  /** One call; `reduced` says whether erase reduces the stored hashes, as it is meant to, or not, as it is
      written. */
  function PolyExec<K(!new), V(!new)>(o: Keys<K>, h: Handle<Cached<K, V>>, c: Call<K, V>, reduced: bool)
    : (r: (Handle<Cached<K, V>>, Reply<V>))
    requires h.Live? ==> |h.s.slots| >= MIN_SIZE
  {
    match c.cmd
    case CmdReinit =>
      if c.alloc || (h.Live? && c.retry) then (Live(Empty()), Done(Ok)) else (Null, Done(OutOfMemory))
    case CmdFind(key) =>
      if h.Null? then (h, NotCalled) else
      var x := h.s.slots[Find(h.s, QuickHit(o, o.hash(key), key), o.hash(key))];
      (h, if x.Used? then Found(x.e.value) else Done(DoesNotExist))
    case CmdInsert(e) =>
      if h.Null? then (h, NotCalled) else
      var k := o.hash(e.key);
      var (s, rc) := Insert(h.s, Stored(), QuickHit(o, k, e.key), Cached(e.key, e.value, k), c.alloc);
      (Live(s), Done(rc))
    case CmdUpdate(e) =>
      if h.Null? then (h, NotCalled) else
      var k := o.hash(e.key);
      var (s, rc) := Update(h.s, Stored(), QuickHit(o, k, e.key), Cached(e.key, e.value, k), c.alloc);
      (Live(s), Done(rc))
    case CmdErase(key) =>
      if h.Null? then (h, NotCalled) else
      var hit := QuickHit<K, V>(o, o.hash(key), key);
      var (s, rc) := if reduced then Erase(h.s, Stored(), hit, o.hash(key), c.alloc) else EraseLiteral(h.s, hit, o.hash(key), c.alloc);
      (Live(s), Done(rc))
  }

  /** The cached hashes are right and every entry can be reached. */
  ghost predicate PolyOk<K(!new), V(!new)>(o: Keys<K>, h: Handle<Cached<K, V>>) {
    h.Live? ==> Valid(h.s, Stored()) && Fresh(o, h.s.slots)
  }

  function StripHandle<K, V>(h: Handle<Cached<K, V>>): Handle<Entry<K, V>> {
    if h.Null? then Null else Live(StripState(h.s))
  }

  /** An erase is safe when it reduces the hashes, or no stored hash is one that the missing reduction
      misplaces. */
  ghost predicate SafeCall<K(!new), V(!new)>(h: Handle<Cached<K, V>>, c: Call<K, V>, reduced: bool) {
    c.cmd.CmdErase? && h.Live? ==> reduced || AllHarmless(h.s.slots)
  }

  ghost predicate StepAgrees<K(!new), V(!new)>(o: Keys<K>, h: Handle<Cached<K, V>>, c: Call<K, V>, reduced: bool)
    requires PolyOk(o, h)
  {
    var (h', r) := PolyExec(o, h, c, reduced);
    PolyOk(o, h') && (StripHandle(h'), r) == Exec(o, StripHandle(h), c)
  }

  /** Every call, an erase only if it is safe, is the same call of the plain table. */
  lemma PolyStep<K(!new), V(!new)>(o: Keys<K>, h: Handle<Cached<K, V>>, c: Call<K, V>, reduced: bool)
    requires Lawful(o) && PolyOk(o, h) && SafeCall(h, c, reduced)
    ensures StepAgrees(o, h, c, reduced)
  {
    if h.Live? && !c.cmd.CmdReinit? {
      match c.cmd
      case CmdFind(_) => FindStep(o, h, c, reduced);
      case CmdInsert(_) => InsertStep(o, h, c, reduced);
      case CmdUpdate(_) => UpdateStep(o, h, c, reduced);
      case CmdErase(_) => EraseStep(o, h, c, reduced);
    } else {
      EmptyOk<K, V>(o);
    }
  }

  lemma FindStep<K(!new), V(!new)>(o: Keys<K>, h: Handle<Cached<K, V>>, c: Call<K, V>, reduced: bool)
    requires Lawful(o) && PolyOk(o, h) && h.Live? && c.cmd.CmdFind?
    ensures StepAgrees(o, h, c, reduced)
  {
    FindStrips(o, h.s, c.cmd.key);
  }

  lemma EraseStep<K(!new), V(!new)>(o: Keys<K>, h: Handle<Cached<K, V>>, c: Call<K, V>, reduced: bool)
    requires Lawful(o) && PolyOk(o, h) && h.Live? && c.cmd.CmdErase? && SafeCall(h, c, reduced)
    ensures StepAgrees(o, h, c, reduced)
  {
    hide Erase, EraseLiteral, Reachable, Bag, SizeOk, Upper, Strip;
    var k := o.hash(c.cmd.key);
    var hit := QuickHit<K, V>(o, k, c.cmd.key);
    if !reduced {
      LiteralAgrees(h.s, hit, k, c.alloc);
    }
    EraseStrips(o, h.s, c.cmd.key, c.alloc);
    EraseMeaning(h.s, Stored(), hit, k, c.alloc);
  }

  lemma InsertStep<K(!new), V(!new)>(o: Keys<K>, h: Handle<Cached<K, V>>, c: Call<K, V>, reduced: bool)
    requires Lawful(o) && PolyOk(o, h) && h.Live? && c.cmd.CmdInsert?
    ensures StepAgrees(o, h, c, reduced)
  {
    hide Insert, Update, Reachable, Bag, SizeOk, Upper, Strip;
    var x := Cached(c.cmd.e.key, c.cmd.e.value, o.hash(c.cmd.e.key));
    WriteStrips(o, h.s, x, c.alloc);
    InsertMeaning(h.s, Stored(), QuickHit(o, x.hashval, x.key), x, c.alloc);
  }

  lemma UpdateStep<K(!new), V(!new)>(o: Keys<K>, h: Handle<Cached<K, V>>, c: Call<K, V>, reduced: bool)
    requires Lawful(o) && PolyOk(o, h) && h.Live? && c.cmd.CmdUpdate?
    ensures StepAgrees(o, h, c, reduced)
  {
    hide Insert, Update, Reachable, Bag, SizeOk, Upper, Strip;
    var x := Cached(c.cmd.e.key, c.cmd.e.value, o.hash(c.cmd.e.key));
    WriteStrips(o, h.s, x, c.alloc);
    UpdateMeaning(h.s, Stored(), QuickHit(o, x.hashval, x.key), x, c.alloc);
  }

  lemma EmptyOk<K(!new), V(!new)>(o: Keys<K>)
    ensures PolyOk<K, V>(o, Live(Empty())) && StripHandle<K, V>(Live(Empty())) == Live(Empty())
  {
    BlankBag<Cached<K, V>>(MIN_SIZE);
    assert MIN_SIZE == 13 * Pow2(0) - 3;
    assert Strip<K, V>(Blank(MIN_SIZE)) == Blank(MIN_SIZE);
  }

  ghost predicate PolyRun<K(!new), V(!new)>(
    o: Keys<K>, hs: seq<Handle<Cached<K, V>>>, calls: seq<Call<K, V>>, replies: seq<Reply<V>>, reduced: bool)
  {
    && |hs| == |calls| + 1 && |replies| == |calls|
    && forall i :: 0 <= i < |calls| ==>
         (hs[i].Live? ==> |hs[i].s.slots| >= MIN_SIZE) && (hs[i + 1], replies[i]) == PolyExec(o, hs[i], calls[i], reduced)
  }

  lemma {:induction false} PolyPrefix<K(!new), V(!new)>(
    o: Keys<K>, hs: seq<Handle<Cached<K, V>>>, calls: seq<Call<K, V>>, replies: seq<Reply<V>>, reduced: bool, k: nat)
    requires Lawful(o) && PolyRun(o, hs, calls, replies, reduced) && hs[0] == Live(Empty()) && k <= |calls|
    requires forall i :: 0 <= i < |calls| ==> SafeCall(hs[i], calls[i], reduced)
    ensures PolyOk(o, hs[k])
  {
    if k == 0 {
      EmptyOk<K, V>(o);
    } else {
      PolyPrefix(o, hs, calls, replies, reduced, k - 1);
      PolyStep(o, hs[k - 1], calls[k - 1], reduced);
    }
  }

  /** The cached-hash table refines the plain one over every run whose erases are safe. */
  lemma PolyRunRefines<K(!new), V(!new)>(
    o: Keys<K>, hs: seq<Handle<Cached<K, V>>>, calls: seq<Call<K, V>>, replies: seq<Reply<V>>, reduced: bool)
    returns (plain: seq<Handle<Entry<K, V>>>)
    requires Lawful(o) && PolyRun(o, hs, calls, replies, reduced) && hs[0] == Live(Empty())
    requires forall i :: 0 <= i < |calls| ==> SafeCall(hs[i], calls[i], reduced)
    ensures TableRun(o, plain, calls, replies) && plain[0] == Live(Empty())
    ensures forall i :: 0 <= i < |hs| ==> plain[i] == StripHandle(hs[i])
  {
    plain := seq(|hs|, i requires 0 <= i < |hs| => StripHandle(hs[i]));
    EmptyOk<K, V>(o);
    forall i | 0 <= i < |calls|
      ensures (plain[i].Live? ==> |plain[i].s.slots| >= MIN_SIZE) && (plain[i + 1], replies[i]) == Exec(o, plain[i], calls[i])
    {
      PolyPrefix(o, hs, calls, replies, reduced, i);
      PolyStep(o, hs[i], calls[i], reduced);
    }
  }

  /** With the hashes reduced, every run whatsoever is a run of a finite map with the same replies. */
  lemma ReducedRunRefines<K(!new), V(!new)>(
    o: Keys<K>, hs: seq<Handle<Cached<K, V>>>, calls: seq<Call<K, V>>, replies: seq<Reply<V>>, k: nat)
    returns (ms: seq<Model<K, V>>)
    requires Lawful(o) && PolyRun(o, hs, calls, replies, true) && hs[0] == Live(Empty()) && k <= |calls|
    ensures MapRun(o, ms, calls, replies, k) && ms[0] == Kept(map[], MIN_SIZE) && Matches(o, StripHandle(hs[k]), ms[k])
  {
    var plain := PolyRunRefines(o, hs, calls, replies, true);
    ms := RunRefines(o, plain, calls, replies, k);
  }

  class PolyTable<K(!new), V(!new)> {
    const keys: Keys<K>
    var table: array?<Slot<Cached<K, V>>>
    var size: nat
    var used: int

    ghost function Contents(): Handle<Cached<K, V>>
      reads this, table
    {
      if table == null then Null else Live(State(table[..], used))
    }

    ghost predicate Ready()
      reads this, table
    {
      table != null && size == table.Length && Sized(State(table[..], used))
    }

    lemma FreeOne() returns (q: nat)
      requires Ready()
      ensures q < table.Length && table[q].Free?
    {
      UpperIsFloor(size);
      q := FreeSlot(table[..]);
    }

    constructor (keys: Keys<K>, alloc: bool)
      ensures this.keys == keys && (table == null || fresh(table))
      ensures Contents() == if alloc then Live(Empty()) else Null
      ensures alloc ==> Ready()
    {
      this.keys := keys;
      table, size, used := null, 0, 0;
      new;
      var r := Reinit(alloc, false);
    }

    method Reinit(alloc: bool, retry: bool) returns (r: Reply<V>)
      requires table == null || Ready()
      modifies this
      ensures table == null || (fresh(table) && Ready())
      ensures (Contents(), r) == PolyExec(keys, old(Contents()), Call(CmdReinit, alloc, retry), false)
    {
      if alloc || (table != null && retry) {
        table := Cleared(MIN_SIZE);
        size, used := MIN_SIZE, 0;
        BlankBag<Cached<K, V>>(MIN_SIZE);
        assert MIN_SIZE == 13 * Pow2(0) - 3;
        r := Done(Ok);
      } else {
        table := null;
        r := Done(OutOfMemory);
      }
    }

    method Find(key: K) returns (r: Reply<V>)
      requires Ready()
      ensures (Contents(), r) == PolyExec(keys, Contents(), Call(CmdFind(key), true, true), false)
    {
      ghost var q := FreeOne();
      var h := keys.hash(key);
      var p := ProbeLoop(table, QuickHit(keys, h, key), h % size, q);
      r := if table[p].Used? then Found(table[p].e.value) else Done(DoesNotExist);
    }

    method Insert(key: K, value: V, alloc: bool) returns (r: Reply<V>)
      requires Ready()
      modifies this, table
      ensures Ready() && (table == old(table) || fresh(table))
      ensures (Contents(), r) == PolyExec(keys, old(Contents()), Call(CmdInsert(Entry(key, value)), alloc, true), false)
    {
      var x := Cached(key, value, keys.hash(key));
      WriteSized(State(table[..], used), Stored(), QuickHit(keys, x.hashval, key), x, alloc);
      var rc := InsertSlot(x, alloc);
      r := Done(rc);
    }

    method Update(key: K, value: V, alloc: bool) returns (r: Reply<V>)
      requires Ready()
      modifies this, table
      ensures Ready() && (table == old(table) || fresh(table))
      ensures (Contents(), r) == PolyExec(keys, old(Contents()), Call(CmdUpdate(Entry(key, value)), alloc, true), false)
    {
      var x := Cached(key, value, keys.hash(key));
      WriteSized(State(table[..], used), Stored(), QuickHit(keys, x.hashval, key), x, alloc);
      var rc := UpdateSlot(x, alloc);
      r := Done(rc);
    }

    method InsertSlot(x: Cached<K, V>, alloc: bool) returns (rc: Outcome)
      requires Ready()
      modifies this`table, this`size, this`used, table
      ensures table != null && size == table.Length && (table == old(table) || fresh(table))
      ensures (State(table[..], used), rc)
           == HashOps.Insert(old(State(table[..], used)), Stored(), QuickHit(keys, x.hashval, x.key), x, alloc)
    {
      hide Probe, Refill, Reachable, Bag, SizeOk, Upper, Target, Shift, HashOps.Rehash;
      RehashKeeps(State(table[..], used), Stored<K, V>(), alloc);
      var failed := Rehash(alloc);
      if failed {
        return OutOfMemory;
      }
      ghost var q := FreeOne();
      var p := ProbeLoop(table, QuickHit(keys, x.hashval, x.key), x.hashval % size, q);
      if table[p].Used? {
        return AlreadyExists;
      }
      table[p] := Used(x);
      used := used + 1;
      rc := Ok;
    }

    method UpdateSlot(x: Cached<K, V>, alloc: bool) returns (rc: Outcome)
      requires Ready()
      modifies this`table, this`size, this`used, table
      ensures table != null && size == table.Length && (table == old(table) || fresh(table))
      ensures (State(table[..], used), rc)
           == HashOps.Update(old(State(table[..], used)), Stored(), QuickHit(keys, x.hashval, x.key), x, alloc)
    {
      hide Probe, Refill, Reachable, Bag, SizeOk, Upper, Target, Shift, HashOps.Rehash;
      RehashKeeps(State(table[..], used), Stored<K, V>(), alloc);
      var failed := Rehash(alloc);
      if failed {
        return OutOfMemory;
      }
      ghost var q := FreeOne();
      var p := ProbeLoop(table, QuickHit(keys, x.hashval, x.key), x.hashval % size, q);
      if table[p].Free? {
        table[p] := Used(x);
        used := used + 1;
      } else {
        // the cached hash stays: the comparison found it equal
        table[p] := Used(Cached(x.key, x.value, table[p].e.hashval));
      }
      rc := Ok;
    }

    /** Erase, up to the rebuild that follows it. */
    method EraseSlot(key: K) returns (erased: bool)
      requires Ready()
      modifies this`used, table
      ensures table[..] == old(
        var n := table.Length; var h := keys.hash(key);
        var p := HashOps.Find(State(table[..], used), QuickHit<K, V>(keys, h, key), h);
        if table[p].Free? then table[..] else Shift(table[..][p := Free], Stored<K, V>(), p, Cyclic.Next(p, n), n))
      ensures erased == old(table[HashOps.Find(State(table[..], used), QuickHit<K, V>(keys, keys.hash(key), key), keys.hash(key))].Used?)
      ensures used == if erased then old(used) - 1 else old(used)
    {
      ghost var q := FreeOne();
      var h := keys.hash(key);
      var p := ProbeLoop(table, QuickHit(keys, h, key), h % size, q);
      if table[p].Free? {
        return false;
      }
      ShiftLoop(table, Stored(), p, q);
      used := used - 1;
      erased := true;
    }

    method Rehash(alloc: bool) returns (failed: bool)
      requires Ready()
      modifies this`table, this`size
      ensures table != null && size == table.Length && (table == old(table) || fresh(table))
      ensures (State(table[..], used), !failed) == HashOps.Rehash(old(State(table[..], used)), Stored(), alloc)
    {
      var rebuild, newsize := NewSize(size, used);
      if !rebuild {
        return false;
      }
      if !alloc {
        return true;
      }
      TargetHasRoom(size, used);
      table := RefillLoop(table, Stored(), newsize);
      size := newsize;
      failed := false;
    }

    method Erase(key: K, alloc: bool) returns (r: Reply<V>)
      requires Ready()
      modifies this, table
      ensures Ready() && (table == old(table) || fresh(table))
      ensures (Contents(), r) == PolyExec(keys, old(Contents()), Call(CmdErase(key), alloc, true), false)
    {
      hide Probe, Refill, Bag, SizeOk, Upper, Target, Shift, HashOps.Rehash, HashOps.Find;
      ghost var s := State(table[..], used);
      LiteralSized(s, QuickHit(keys, keys.hash(key), key), keys.hash(key), alloc);
      var erased := EraseSlot(key);
      if !erased {
        return Done(DoesNotExist);
      }
      var _ := Rehash(alloc);
      r := Done(Ok);
    }
  }

  /** Even when it misplaces entries the literal erase keeps their count right. */
  lemma LiteralSized<K(!new), V(!new)>(s: State<Cached<K, V>>, hit: Cached<K, V> -> bool, h: nat, alloc: bool)
    requires Sized(s)
    ensures var n := |s.slots|; var p := Find(s, hit, h);
      s.slots[p].Used? ==> Sized(State(Shift(s.slots[p := Free], Stored(), p, Cyclic.Next(p, n), n), s.used - 1))
    ensures Sized(EraseLiteral(s, hit, h, alloc).0)
  {
    hide Shift, Find, Rehash, Upper, SizeOk;
    var n := |s.slots|;
    var p := Find(s, hit, h);
    if s.slots[p].Used? {
      UpperIsFloor(n);
      var q := FreeSlot(s.slots);
      ShiftPermutes(s.slots[p := Free], Stored(), p, Cyclic.Next(p, n), n, q);
      BagWrite(s.slots, p, Free);
      assert s.slots[p] in Bag(s.slots);
      RehashKeeps(State(Shift(s.slots[p := Free], Stored(), p, Cyclic.Next(p, n), n), s.used - 1), Stored(), alloc);
    }
  }
}
