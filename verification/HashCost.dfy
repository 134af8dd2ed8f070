/**
 The cost of rebuilding. A rebuild clears every slot of the new table and scans every slot of the
 old one; over a whole run this work is linear in the number of calls.
 */
module HashCost {
  import opened HashSpec
  import opened HashSizes
  import opened HashOps
  import opened HashMap

  /** Slots visited by rebuilding (or resetting) the table on the way from `h` to `h'`. */
  function Cost<E>(h: Handle<E>, h': Handle<E>, reset: bool): nat {
    if h'.Null? then 0
    else if reset then |h'.s.slots|
    else if h.Null? || |h.s.slots| == |h'.s.slots| then 0
    else |h.s.slots| + |h'.s.slots|
  }

  /** Work paid for in advance: by the calls that drove the load away from where the last
      rebuild left it. */
  function Credit(n: nat, used: int): (c: nat) {
    (if used > n * 25 / 64 then 9 * (used - n * 25 / 64) else 0)
    + (if used < n / 1024 * 300 then 21 * (n / 1024 * 300 - used) else 0)
  }

  function CreditOf<E>(h: Handle<E>): nat {
    if h.Null? then 0 else Credit(|h.s.slots|, h.s.used)
  }

  /** A rebuild is paid for by credit, all but a constant. */
  lemma RehashPaid(n: nat, used: int)
    requires SizeOk(n) && 0 <= used <= Upper(n)
    ensures var n' := Target(n, used);
      n' != n ==> n + n' + Credit(n', used) <= Credit(n, used) + 21
  {
    SizeMin(n);
    UpperIsFloor(n);
    var n' := Target(n, used);
    if used >= Upper(n) {
      GrowPaid(n);
    } else if n' != n {
      ShrinkPaid(n, used);
    }
  }

  lemma GrowPaid(n: nat)
    requires n >= MIN_SIZE
    ensures var used := 800 * n / 1024;
      n + Grown(n) + Credit(Grown(n), used) <= Credit(n, used) + 21
  {
    var used := 800 * n / 1024;
    var g := Grown(n);
    assert used <= g * 25 / 64;
    assert g / 1024 * 300 <= used + 300;
    assert g >= 1024 ==> g / 1024 * 300 <= used;
  }

  lemma ShrinkPaid(n: nat, used: int)
    requires n >= MIN_SIZE && 0 <= used < Lower(n)
    ensures n + Shrunk(n) + Credit(Shrunk(n), used) <= Credit(n, used)
  {
    var q := n / 1024;
    assert q >= 1 && n <= 1024 * q + 1023;
    assert Shrunk(n) / 1024 * 2 <= q;
  }

  /** What the accounting needs to know of a table. */
  ghost predicate Loaded<E>(s: State<E>) {
    SizeOk(|s.slots|) && |s.slots| >= MIN_SIZE && 0 <= s.used <= Upper(|s.slots|)
  }

  lemma CreditMoves(n: nat, used: int)
    ensures Credit(n, used + 1) <= Credit(n, used) + 9
    ensures Credit(n, used - 1) <= Credit(n, used) + 21
  {
  }

  lemma RebuildPaid<E(!new)>(s: State<E>, hash: E -> nat, alloc: bool)
    requires Loaded(s)
    ensures var s' := Rehash(s, hash, alloc).0;
      && s'.used == s.used
      && Cost(Live(s), Live(s'), false) + Credit(|s'.slots|, s'.used) <= Credit(|s.slots|, s.used) + 21
  {
    RehashPaid(|s.slots|, s.used);
    TargetHasRoom(|s.slots|, s.used);
    SizeMin(Target(|s.slots|, s.used));
  }

  lemma WriteAfterRebuild<E>(s: State<E>, s1: State<E>, s': State<E>)
    requires Cost(Live(s), Live(s1), false) + Credit(|s1.slots|, s1.used) <= Credit(|s.slots|, s.used) + 21
    requires |s'.slots| == |s1.slots| && s1.used <= s'.used <= s1.used + 1
    ensures Cost(Live(s), Live(s'), false) + Credit(|s'.slots|, s'.used) <= Credit(|s.slots|, s.used) + 42
  {
    CreditMoves(|s1.slots|, s1.used);
  }

  lemma WritePaid<E(!new)>(s: State<E>, hash: E -> nat, hit: E -> bool, e: E, alloc: bool)
    requires Loaded(s)
    ensures var s' := Insert(s, hash, hit, e, alloc).0;
      Cost(Live(s), Live(s'), false) + Credit(|s'.slots|, s'.used) <= Credit(|s.slots|, s.used) + 42
    ensures var s' := Update(s, hash, hit, e, alloc).0;
      Cost(Live(s), Live(s'), false) + Credit(|s'.slots|, s'.used) <= Credit(|s.slots|, s.used) + 42
  {
    RebuildPaid(s, hash, alloc);
    var s1 := Rehash(s, hash, alloc).0;
    WriteAfterRebuild(s, s1, Insert(s, hash, hit, e, alloc).0);
    WriteAfterRebuild(s, s1, Update(s, hash, hit, e, alloc).0);
  }

  lemma ErasePaid<E(!new)>(s: State<E>, hash: E -> nat, hit: E -> bool, h: nat, alloc: bool)
    requires Loaded(s)
    requires s.slots[Find(s, hit, h)].Used? ==> s.used > 0
    ensures var s' := Erase(s, hash, hit, h, alloc).0;
      Cost(Live(s), Live(s'), false) + Credit(|s'.slots|, s'.used) <= Credit(|s.slots|, s.used) + 42
  {
    hide Shift, Find, Home, Rehash, Credit, Upper;
    var n := |s.slots|;
    var p := Find(s, hit, h);
    if s.slots[p].Used? {
      var t := Shift(s.slots[p := Free], Home(hash, n), p, Cyclic.Next(p, n), n);
      RebuildPaid(State(t, s.used - 1), hash, alloc);
      CreditMoves(n, s.used);
    }
  }

  lemma ValidLoaded<E(!new)>(s: State<E>, hash: E -> nat, p: nat)
    requires Valid(s, hash) && p < |s.slots|
    ensures Loaded(s) && (s.slots[p].Used? ==> s.used > 0)
  {
    if s.slots[p].Used? {
      assert s.slots[p] in Bag(s.slots);
    }
  }

  /** One call does at most 42 slots of rebuilding more than the credit it uses up. */
  lemma CallPaid<K(!new), V(!new)>(o: Keys<K>, h: Handle<Entry<K, V>>, c: Call<K, V>)
    requires h.Live? ==> Valid(h.s, HashOf(o))
    ensures var h' := Exec(o, h, c).0;
      Cost(h, h', c.cmd.CmdReinit?) + CreditOf(h') <= CreditOf(h) + 42
  {
    if h.Live? && !c.cmd.CmdReinit? {
      match c.cmd
      case CmdFind(_) =>
      case CmdErase(key) =>
        ValidLoaded(h.s, HashOf(o), Find(h.s, HasKey(o, key), o.hash(key)));
        ErasePaid(h.s, HashOf(o), HasKey(o, key), o.hash(key), c.alloc);
      case CmdInsert(e) =>
        ValidLoaded(h.s, HashOf(o), 0);
        WritePaid(h.s, HashOf(o), HasKey(o, e.key), e, c.alloc);
      case CmdUpdate(e) =>
        ValidLoaded(h.s, HashOf(o), 0);
        WritePaid(h.s, HashOf(o), HasKey(o, e.key), e, c.alloc);
    }
  }

  function TotalCost<K, V>(hs: seq<Handle<Entry<K, V>>>, calls: seq<Call<K, V>>, k: nat): nat
    requires k <= |calls| && |hs| == |calls| + 1
  {
    if k == 0 then 0
    else TotalCost(hs, calls, k - 1) + Cost(hs[k - 1], hs[k], calls[k - 1].cmd.CmdReinit?)
  }

  /** Over every run from a new table, whatever allocations fail, rebuilding visits at most 42 slots
      for each call made. */
  lemma MatchesValid<K(!new), V(!new)>(o: Keys<K>, h: Handle<Entry<K, V>>, a: Model<K, V>)
    requires Matches(o, h, a)
    ensures h.Live? ==> Valid(h.s, HashOf(o))
  {
  }

  lemma NoCredit<E>()
    ensures CreditOf(Live(Empty<E>())) == 0
  {
  }

  lemma {:induction false} RunIsLinear<K(!new), V(!new)>(
    o: Keys<K>, hs: seq<Handle<Entry<K, V>>>, calls: seq<Call<K, V>>, replies: seq<Reply<V>>, k: nat)
    requires Lawful(o) && TableRun(o, hs, calls, replies) && hs[0] == Live(Empty()) && k <= |calls|
    ensures TotalCost(hs, calls, k) + CreditOf(hs[k]) <= 42 * k
  {
    hide Exec, Cost, CreditOf, Lawful, Matches, MapRun, Valid;
    if k == 0 {
      NoCredit<Entry<K, V>>();
    } else {
      RunIsLinear(o, hs, calls, replies, k - 1);
      var ms := RunRefines(o, hs, calls, replies, k - 1);
      MatchesValid(o, hs[k - 1], ms[k - 1]);
      CallPaid(o, hs[k - 1], calls[k - 1]);
      assert (hs[k], replies[k - 1]) == Exec(o, hs[k - 1], calls[k - 1]);
    }
  }
}
