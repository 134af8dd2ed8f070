/**
 The hash table as a finite map whose keys are taken modulo the client's equality.
 */
module HashMap {
  import opened HashSpec
  import opened HashSizes
  import opened HashOps

  /** The two functions a client supplies. */
  datatype Keys<!K> = Keys(hash: K -> nat, equal: (K, K) -> bool)

  datatype Entry<+K, +V> = Entry(key: K, value: V)

  /** What a client owes: `equal` is an equivalence and equal keys hash alike. */
  ghost predicate Lawful<K(!new)>(o: Keys<K>) {
    && (forall a :: o.equal(a, a))
    && (forall a, b :: o.equal(a, b) ==> o.equal(b, a) && o.hash(a) == o.hash(b))
    && (forall a, b, c :: o.equal(a, b) && o.equal(b, c) ==> o.equal(a, c))
  }

  function HashOf<K(!new), V(!new)>(o: Keys<K>): (f: Entry<K, V> -> nat)
    ensures forall e :: f(e) == o.hash(e.key)
  {
    (e: Entry<K, V>) => o.hash(e.key)
  }

  function HasKey<K(!new), V(!new)>(o: Keys<K>, key: K): (f: Entry<K, V> -> bool)
    ensures forall e :: f(e) == o.equal(e.key, key)
  {
    (e: Entry<K, V>) => o.equal(e.key, key)
  }

  // The finite map

  /** No two keys of the map are equal to the client. */
  ghost predicate Normal<K, V>(o: Keys<K>, m: map<K, V>) {
    forall a, b :: a in m && b in m && o.equal(a, b) ==> a == b
  }

  /** The keys of the map that are equal to `key`: at most one in a normal map. */
  ghost function Same<K, V>(o: Keys<K>, m: map<K, V>, key: K): set<K> {
    set k | k in m && o.equal(k, key)
  }

  /** The table holds exactly the pairs of the map, each of them once. */
  ghost predicate Holds<K(!new), V(!new)>(t: seq<Slot<Entry<K, V>>>, m: map<K, V>) {
    forall e :: Bag(t)[Used(e)] == if e.key in m && m[e.key] == e.value then 1 else 0
  }

  ghost predicate Represents<K(!new), V(!new)>(o: Keys<K>, s: State<Entry<K, V>>, m: map<K, V>) {
    Valid(s, HashOf(o)) && Holds(s.slots, m) && Normal(o, m)
  }

  lemma RepresentsSized<K(!new), V(!new)>(o: Keys<K>, s: State<Entry<K, V>>, m: map<K, V>)
    requires Represents(o, s, m)
    ensures |s.slots| >= MIN_SIZE && s.used == |m|
  {
    SlotsOfSize(m);
    assert forall x :: Bag(s.slots)[x] == multiset(SlotsOf(m))[x] by {
      forall x ensures Bag(s.slots)[x] == multiset(SlotsOf(m))[x] {
        if x.Used? {
          assert x == Used(x.e);
        }
      }
    }
    assert Bag(s.slots) == multiset(SlotsOf(m));
  }

  /** The pairs of a map, as slots. */
  ghost function SlotsOf<K, V>(m: map<K, V>): set<Slot<Entry<K, V>>> {
    set k | k in m :: Used(Entry(k, m[k]))
  }

  lemma {:induction false} SlotsOfSize<K, V>(m: map<K, V>)
    ensures |SlotsOf(m)| == |m|
    decreases |m|
  {
    if m != map[] {
      var k :| k in m;
      var rest := m - {k};
      SlotsOfSize(rest);
      assert forall j :: j in rest <==> j in m && j != k;
      forall x | x in SlotsOf(m) ensures x in SlotsOf(rest) + {Used(Entry(k, m[k]))} {
        var j :| j in m && x == Used(Entry(j, m[j]));
        assert j != k ==> j in rest && rest[j] == m[j];
      }
      forall x | x in SlotsOf(rest) ensures x in SlotsOf(m) {
        var j :| j in rest && x == Used(Entry(j, rest[j]));
        assert j in m && m[j] == rest[j];
      }
      assert SlotsOf(m) == SlotsOf(rest) + {Used(Entry(k, m[k]))};
      assert m.Keys == rest.Keys + {k};
      assert |m| == |m.Keys| && |rest| == |rest.Keys|;
    }
  }

  lemma HitInMap<K(!new), V(!new)>(o: Keys<K>, s: State<Entry<K, V>>, m: map<K, V>, key: K)
    requires Represents(o, s, m)
    ensures (exists x :: x in Bag(s.slots) && HasKey<K, V>(o, key)(x.e)) <==> Same(o, m, key) != {}
  {
    if k :| k in Same(o, m, key) {
      assert Used(Entry(k, m[k])) in Bag(s.slots);
    }
    if x :| x in Bag(s.slots) && HasKey<K, V>(o, key)(x.e) {
      assert x == Used(x.e);
      assert x.e.key in Same(o, m, key);
    }
  }

  lemma FindRefines<K(!new), V(!new)>(o: Keys<K>, s: State<Entry<K, V>>, m: map<K, V>, key: K)
    requires Lawful(o) && Represents(o, s, m)
    ensures var x := s.slots[Find(s, HasKey(o, key), o.hash(key))];
      && (x.Free? <==> Same(o, m, key) == {})
      && (x.Used? ==> Same(o, m, key) == {x.e.key} && m[x.e.key] == x.e.value)
  {
    FindMeaning(s, HashOf(o), HasKey(o, key), o.hash(key));
    HitInMap(o, s, m, key);
    var x := s.slots[Find(s, HasKey(o, key), o.hash(key))];
    if x.Used? {
      assert x in Bag(s.slots);
      assert x == Used(x.e);
      forall k | k in Same(o, m, key) ensures k == x.e.key {
        assert o.equal(key, k);
      }
    }
  }

  lemma EraseRefines<K(!new), V(!new)>(o: Keys<K>, s: State<Entry<K, V>>, m: map<K, V>, key: K, alloc: bool)
    requires Lawful(o) && Represents(o, s, m)
    ensures var (s', rc) := Erase(s, HashOf(o), HasKey(o, key), o.hash(key), alloc);
      && Represents(o, s', m - Same(o, m, key))
      && rc == (if Same(o, m, key) == {} then DoesNotExist else Ok)
  {
    hide Erase, Find, Reachable, SizeAfter;
    FindRefines(o, s, m, key);
    EraseMeaning(s, HashOf(o), HasKey(o, key), o.hash(key), alloc);
    assert Same(o, m, key) == {} ==> m - Same(o, m, key) == m;
  }

  lemma EraseSize<K(!new), V(!new)>(o: Keys<K>, s: State<Entry<K, V>>, m: map<K, V>, key: K, alloc: bool)
    requires Lawful(o) && Represents(o, s, m)
    ensures |Erase(s, HashOf(o), HasKey(o, key), o.hash(key), alloc).0.slots|
         == if Same(o, m, key) == {} then |s.slots| else SizeAfter(|s.slots|, |m| - 1, alloc)
  {
    RepresentsSized(o, s, m);
    RepresentsValid(o, s, m);
    hide Erase, Find, Reachable, SizeAfter, Represents, Valid, Bag;
    FindRefines(o, s, m, key);
    EraseMeaning(s, HashOf(o), HasKey(o, key), o.hash(key), alloc);
  }

  lemma RepresentsValid<K(!new), V(!new)>(o: Keys<K>, s: State<Entry<K, V>>, m: map<K, V>)
    requires Represents(o, s, m)
    ensures Valid(s, HashOf(o))
  {
  }

  lemma InsertRefines<K(!new), V(!new)>(o: Keys<K>, s: State<Entry<K, V>>, m: map<K, V>, e: Entry<K, V>, alloc: bool)
    requires Lawful(o) && Represents(o, s, m)
    ensures var (s', rc) := Insert(s, HashOf(o), HasKey(o, e.key), e, alloc);
      && |s'.slots| == SizeAfter(|s.slots|, |m|, alloc)
      && (rc == OutOfMemory <==> Due(|s.slots|, |m|) && !alloc)
      && (rc != OutOfMemory ==> rc == if Same(o, m, e.key) == {} then Ok else AlreadyExists)
      && Represents(o, s', if rc == Ok then m[e.key := e.value] else m)
  {
    hide SizeAfter, Due, Insert;
    RepresentsSized(o, s, m);
    InsertMeaning(s, HashOf(o), HasKey(o, e.key), e, alloc);
    HitInMap(o, s, m, e.key);
    var (s', rc) := Insert(s, HashOf(o), HasKey(o, e.key), e, alloc);
    if rc == Ok {
      assert e.key in m ==> e.key in Same(o, m, e.key);
      forall k | k in m ensures !o.equal(k, e.key) && !o.equal(e.key, k) {
        assert k !in Same(o, m, e.key);
      }
    }
  }

  /** The map after an update: the new pair replaces whatever pair had an equal key. */
  ghost function Updated<K, V>(o: Keys<K>, m: map<K, V>, e: Entry<K, V>): map<K, V> {
    (m - Same(o, m, e.key))[e.key := e.value]
  }

  lemma UpdateRefines<K(!new), V(!new)>(o: Keys<K>, s: State<Entry<K, V>>, m: map<K, V>, e: Entry<K, V>, alloc: bool)
    requires Lawful(o) && Represents(o, s, m)
    ensures var (s', rc) := Update(s, HashOf(o), HasKey(o, e.key), e, alloc);
      && |s'.slots| == SizeAfter(|s.slots|, |m|, alloc)
      && (rc == OutOfMemory <==> Due(|s.slots|, |m|) && !alloc)
      && (rc != OutOfMemory ==> rc == Ok)
      && Represents(o, s', if rc == Ok then Updated(o, m, e) else m)
  {
    hide SizeAfter, Due, Update;
    RepresentsSized(o, s, m);
    UpdateMeaning(s, HashOf(o), HasKey(o, e.key), e, alloc);
    HitInMap(o, s, m, e.key);
    var (s', rc) := Update(s, HashOf(o), HasKey(o, e.key), e, alloc);
    if rc == Ok {
      var x :| && Bag(s'.slots) == Bag(s.slots) - multiset{x} + multiset{Used(e)}
               && if x.Used? then x in Bag(s.slots) && HasKey<K, V>(o, e.key)(x.e)
                  else !exists y :: y in Bag(s.slots) && HasKey<K, V>(o, e.key)(y.e);
      UpdateHolds(o, s.slots, s'.slots, m, e, x);
    }
  }

  lemma UpdateHolds<K(!new), V(!new)>(o: Keys<K>, t: seq<Slot<Entry<K, V>>>, t': seq<Slot<Entry<K, V>>>, m: map<K, V>,
                                      e: Entry<K, V>, x: Slot<Entry<K, V>>)
    requires Lawful(o) && Holds(t, m) && Normal(o, m)
    requires Bag(t') == Bag(t) - multiset{x} + multiset{Used(e)}
    requires if x.Used? then x in Bag(t) && o.equal(x.e.key, e.key) else Same(o, m, e.key) == {}
    ensures Holds(t', Updated(o, m, e)) && Normal(o, Updated(o, m, e))
  {
    var m' := Updated(o, m, e);
    if x.Used? {
      assert x == Used(x.e);
      forall k | k in Same(o, m, e.key) ensures k == x.e.key {
        assert o.equal(e.key, k);
      }
      assert Same(o, m, e.key) == {x.e.key};
    }
    assert e.key in m ==> e.key in Same(o, m, e.key);
    assert Normal(o, m') by {
      forall k | k in m' && k != e.key ensures !o.equal(k, e.key) && !o.equal(e.key, k) {
        assert k !in Same(o, m, e.key);
      }
    }
  }

  // Runs

  /** The table pointer is null after a failed `hashreinit`. */
  datatype Handle<+E> = Null | Live(s: State<E>)

  datatype Cmd<K, V> = CmdFind(key: K) | CmdInsert(e: Entry<K, V>) | CmdUpdate(e: Entry<K, V>) | CmdErase(key: K) | CmdReinit

  /** A command, with the outcomes of the allocations it may make, in order. */
  datatype Call<K, V> = Call(cmd: Cmd<K, V>, alloc: bool, retry: bool)

  /** `NotCalled` marks a command that a client may not issue because the table is null. */
  datatype Reply<V> = Done(rc: Outcome) | Found(value: V) | NotCalled

  function Exec<K(!new), V(!new)>(o: Keys<K>, h: Handle<Entry<K, V>>, c: Call<K, V>): (r: (Handle<Entry<K, V>>, Reply<V>))
    requires h.Live? ==> |h.s.slots| >= MIN_SIZE
  {
    match c.cmd
    case CmdReinit => Reinit(h, c.alloc, c.retry)
    case CmdFind(key) =>
      if h.Null? then (h, NotCalled) else
      var x := h.s.slots[Find(h.s, HasKey(o, key), o.hash(key))];
      (h, if x.Used? then Found(x.e.value) else Done(DoesNotExist))
    case CmdInsert(e) =>
      if h.Null? then (h, NotCalled) else
      var (s, rc) := Insert(h.s, HashOf(o), HasKey(o, e.key), e, c.alloc);
      (Live(s), Done(rc))
    case CmdUpdate(e) =>
      if h.Null? then (h, NotCalled) else
      var (s, rc) := Update(h.s, HashOf(o), HasKey(o, e.key), e, c.alloc);
      (Live(s), Done(rc))
    case CmdErase(key) =>
      if h.Null? then (h, NotCalled) else
      var (s, rc) := Erase(h.s, HashOf(o), HasKey(o, key), o.hash(key), c.alloc);
      (Live(s), Done(rc))
  }

  /** A live table is reallocated, and failing that freed and allocated anew. */
  function Reinit<K(!new), V(!new)>(h: Handle<Entry<K, V>>, alloc: bool, retry: bool): (r: (Handle<Entry<K, V>>, Reply<V>)) {
    if alloc || (h.Live? && retry) then (Live(Empty()), Done(Ok)) else (Null, Done(OutOfMemory))
  }

  /** A finite map, and the number of slots of the table for it. */
  datatype Model<K, V> = Lost | Kept(m: map<K, V>, size: nat)

  /** What a finite map answers to a command. `OutOfMemory` it answers if and only if an allocation is
      due that fails, and then nothing changes, except that a failed reset loses the table. */
  ghost predicate MapStep<K(!new), V(!new)>(o: Keys<K>, a: Model<K, V>, c: Call<K, V>, r: Reply<V>, a': Model<K, V>) {
    if c.cmd.CmdReinit? then
      if c.alloc || (a.Kept? && c.retry) then r == Done(Ok) && a' == Kept(map[], MIN_SIZE) else r == Done(OutOfMemory) && a' == Lost
    else if a.Lost? then r == NotCalled && a' == a
    else match c.cmd
      case CmdFind(key) =>
        && a' == a
        && if Same(o, a.m, key) == {} then r == Done(DoesNotExist)
           else exists k :: Same(o, a.m, key) == {k} && r == Found(a.m[k])
      case CmdInsert(e) =>
        if Due(a.size, |a.m|) && !c.alloc then r == Done(OutOfMemory) && a' == a
        else
          var n := SizeAfter(a.size, |a.m|, c.alloc);
          if Same(o, a.m, e.key) == {} then r == Done(Ok) && a' == Kept(a.m[e.key := e.value], n)
          else r == Done(AlreadyExists) && a' == Kept(a.m, n)
      case CmdUpdate(e) =>
        if Due(a.size, |a.m|) && !c.alloc then r == Done(OutOfMemory) && a' == a
        else r == Done(Ok) && a' == Kept(Updated(o, a.m, e), SizeAfter(a.size, |a.m|, c.alloc))
      case CmdErase(key) =>
        if Same(o, a.m, key) == {} then r == Done(DoesNotExist) && a' == a
        else r == Done(Ok) && a' == Kept(a.m - Same(o, a.m, key), SizeAfter(a.size, |a.m| - 1, c.alloc))
  }

  ghost predicate Matches<K(!new), V(!new)>(o: Keys<K>, h: Handle<Entry<K, V>>, a: Model<K, V>) {
    if h.Null? then a.Lost? else a.Kept? && Represents(o, h.s, a.m) && |h.s.slots| == a.size
  }

  lemma EmptyRepresents<K(!new), V(!new)>(o: Keys<K>)
    ensures Represents<K, V>(o, Empty(), map[])
  {
    BlankBag<Entry<K, V>>(MIN_SIZE);
    assert MIN_SIZE == 13 * Pow2(0) - 3;
  }

  lemma InsertStep<K(!new), V(!new)>(o: Keys<K>, s: State<Entry<K, V>>, a: Model<K, V>, c: Call<K, V>) returns (a': Model<K, V>)
    requires Lawful(o) && Matches(o, Live(s), a) && |s.slots| >= MIN_SIZE && c.cmd.CmdInsert?
    ensures var (h', r) := Exec(o, Live(s), c); Matches(o, h', a') && MapStep(o, a, c, r, a')
  {
    hide Insert, Represents, Same, Lawful, Due, SizeAfter;
    var e := c.cmd.e;
    InsertRefines(o, s, a.m, e, c.alloc);
    NotRebuilt(a.size, |a.m|, c.alloc);
    var rc, n := Insert(s, HashOf(o), HasKey(o, e.key), e, c.alloc).1, SizeAfter(a.size, |a.m|, c.alloc);
    a' := if rc == Ok then Kept(a.m[e.key := e.value], n) else Kept(a.m, n);
  }

  lemma UpdateStep<K(!new), V(!new)>(o: Keys<K>, s: State<Entry<K, V>>, a: Model<K, V>, c: Call<K, V>) returns (a': Model<K, V>)
    requires Lawful(o) && Matches(o, Live(s), a) && |s.slots| >= MIN_SIZE && c.cmd.CmdUpdate?
    ensures var (h', r) := Exec(o, Live(s), c); Matches(o, h', a') && MapStep(o, a, c, r, a')
  {
    hide Update, Represents, Same, Updated, Lawful, Due, SizeAfter;
    var e := c.cmd.e;
    UpdateRefines(o, s, a.m, e, c.alloc);
    NotRebuilt(a.size, |a.m|, c.alloc);
    var rc := Update(s, HashOf(o), HasKey(o, e.key), e, c.alloc).1;
    a' := if rc == Ok then Kept(Updated(o, a.m, e), SizeAfter(a.size, |a.m|, c.alloc)) else a;
  }

  lemma EraseStep<K(!new), V(!new)>(o: Keys<K>, s: State<Entry<K, V>>, a: Model<K, V>, c: Call<K, V>) returns (a': Model<K, V>)
    requires Lawful(o) && Matches(o, Live(s), a) && |s.slots| >= MIN_SIZE && c.cmd.CmdErase?
    ensures var (h', r) := Exec(o, Live(s), c); Matches(o, h', a') && MapStep(o, a, c, r, a')
  {
    hide Erase, Represents, Same, Lawful, Due, SizeAfter;
    var key := c.cmd.key;
    EraseRefines(o, s, a.m, key, c.alloc);
    EraseSize(o, s, a.m, key, c.alloc);
    if Same(o, a.m, key) == {} {
      assert a.m - Same(o, a.m, key) == a.m;
      a' := a;
    } else {
      a' := Kept(a.m - Same(o, a.m, key), SizeAfter(a.size, |a.m| - 1, c.alloc));
    }
  }

  lemma FindStep<K(!new), V(!new)>(o: Keys<K>, s: State<Entry<K, V>>, a: Model<K, V>, c: Call<K, V>)
    requires Lawful(o) && Matches(o, Live(s), a) && |s.slots| >= MIN_SIZE && c.cmd.CmdFind?
    ensures var (h', r) := Exec(o, Live(s), c); Matches(o, h', a) && MapStep(o, a, c, r, a)
  {
    hide Represents, Same, Lawful, Find;
    FindRefines(o, s, a.m, c.cmd.key);
  }

  lemma ReinitStep<K(!new), V(!new)>(o: Keys<K>, h: Handle<Entry<K, V>>, a: Model<K, V>, c: Call<K, V>) returns (a': Model<K, V>)
    requires Matches(o, h, a) && (h.Live? ==> |h.s.slots| >= MIN_SIZE) && c.cmd.CmdReinit?
    ensures var (h', r) := Exec(o, h, c); Matches(o, h', a') && MapStep(o, a, c, r, a')
  {
    hide Represents;
    EmptyRepresents<K, V>(o);
    a' := if c.alloc || (h.Live? && c.retry) then Kept(map[], MIN_SIZE) else Lost;
  }

  lemma StepRefines<K(!new), V(!new)>(o: Keys<K>, h: Handle<Entry<K, V>>, a: Model<K, V>, c: Call<K, V>) returns (a': Model<K, V>)
    requires Lawful(o) && Matches(o, h, a)
    ensures var (h', r) := Exec(o, h, c); Matches(o, h', a') && MapStep(o, a, c, r, a')
  {
    if h.Live? {
      RepresentsSized(o, h.s, a.m);
    }
    if c.cmd.CmdReinit? {
      a' := ReinitStep(o, h, a, c);
    } else if h.Null? {
      a' := a;
    } else {
      hide Exec, Matches, MapStep, Lawful;
      match c.cmd
      case CmdFind(_) =>
        FindStep(o, h.s, a, c);
        a' := a;
      case CmdInsert(_) => a' := InsertStep(o, h.s, a, c);
      case CmdUpdate(_) => a' := UpdateStep(o, h.s, a, c);
      case CmdErase(_) => a' := EraseStep(o, h.s, a, c);
    }
  }

  /** A run from a state: the state after each call with the reply the call gave. */
  ghost predicate TableRun<K(!new), V(!new)>(o: Keys<K>, hs: seq<Handle<Entry<K, V>>>, calls: seq<Call<K, V>>, replies: seq<Reply<V>>) {
    && |hs| == |calls| + 1 && |replies| == |calls|
    && forall i :: 0 <= i < |calls| ==>
         (hs[i].Live? ==> |hs[i].s.slots| >= MIN_SIZE) && (hs[i + 1], replies[i]) == Exec(o, hs[i], calls[i])
  }

  /** A run of the finite map, as far as its first `k` calls. */
  ghost predicate MapRun<K(!new), V(!new)>(o: Keys<K>, ms: seq<Model<K, V>>, calls: seq<Call<K, V>>, replies: seq<Reply<V>>, k: nat)
    requires k <= |calls| == |replies|
  {
    |ms| == k + 1 && forall i :: 0 <= i < k ==> MapStep(o, ms[i], calls[i], replies[i], ms[i + 1])
  }

  lemma MapRunExtends<K(!new), V(!new)>(
    o: Keys<K>, ms: seq<Model<K, V>>, calls: seq<Call<K, V>>, replies: seq<Reply<V>>, k: nat, a: Model<K, V>)
    requires k < |calls| == |replies| && MapRun(o, ms, calls, replies, k) && MapStep(o, ms[k], calls[k], replies[k], a)
    ensures MapRun(o, ms + [a], calls, replies, k + 1)
  {
    var ms' := ms + [a];
    forall i | 0 <= i < k + 1 ensures MapStep(o, ms'[i], calls[i], replies[i], ms'[i + 1]) {
      assert ms'[i] == ms[i] && ms'[i + 1] == if i < k then ms[i + 1] else a;
    }
  }

  /** Every run of the table is a run of the finite map with the same replies, whatever allocations
      fail, and at every point of it the table is valid and holds exactly the map. */
  lemma {:induction false} RunRefines<K(!new), V(!new)>(
    o: Keys<K>, hs: seq<Handle<Entry<K, V>>>, calls: seq<Call<K, V>>, replies: seq<Reply<V>>, k: nat)
    returns (ms: seq<Model<K, V>>)
    requires Lawful(o) && TableRun(o, hs, calls, replies) && hs[0] == Live(Empty()) && k <= |calls|
    ensures MapRun(o, ms, calls, replies, k) && ms[0] == Kept(map[], MIN_SIZE)
    ensures Matches(o, hs[k], ms[k])
  {
    if k == 0 {
      EmptyRepresents<K, V>(o);
      ms := [Kept(map[], MIN_SIZE)];
    } else {
      ms := RunRefines(o, hs, calls, replies, k - 1);
      var a := StepRefines(o, hs[k - 1], ms[k - 1], calls[k - 1]);
      assert (hs[k], replies[k - 1]) == Exec(o, hs[k - 1], calls[k - 1]);
      MapRunExtends(o, ms, calls, replies, k - 1, a);
      ms := ms + [a];
    }
  }
}
