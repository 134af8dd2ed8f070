/**
 How far apart rebuilds are. When allocations succeed, a table that has just been rebuilt is far from
 both of its load limits, so that many calls are made before it is rebuilt again.
 */
module HashPace {
  import opened HashSpec
  import opened HashSizes
  import opened HashOps
  import opened HashMap
  import opened HashCost

  /** The load is within its limits; only the smallest table may be below the lower one. */
  ghost predicate Settled(n: nat, used: int) {
    SizeOk(n) && n >= MIN_SIZE && 0 <= used <= Upper(n) && (n == MIN_SIZE || Lower(n) <= used)
  }

  /** What a call does to the size and the load: nothing, or a rebuild and then perhaps one more entry,
      or one entry less and then a rebuild. */
  ghost predicate Moves(n: nat, used: int, n': nat, used': int)
    requires n >= 3
  {
    || (n' == n && used' == used)
    || (n' == Target(n, used) && used <= used' <= used + 1)
    || (n' == Target(n, used - 1) && used' == used - 1 && used > 0)
  }

  /** From load `used`, a load at which the table is rebuilt is at least `n / 14 - 1` entries away. */
  ghost predicate Slack(n: nat, used: int)
    requires n >= 3
  {
    forall u: int :: 0 <= u <= Upper(n) && Target(n, u) != n ==> n <= 14 * (u - used + 1) || n <= 14 * (used - u + 1)
  }

  lemma GrownSlack(n: nat)
    requires n >= MIN_SIZE
    ensures var used, m := Upper(n), Grown(n);
      used + 1 <= Upper(m) && Lower(m) <= used && Slack(m, used) && Slack(m, used + 1)
  {
    var used, m := Upper(n), Grown(n);
    UpperIsFloor(n);
    UpperIsFloor(m);
    assert m / 1024 * 1024 <= m;
  }

  lemma ShrunkSlack(n: nat)
    requires n >= 23 && Lower(n) > 0
    ensures var used, m := Lower(n) - 1, Shrunk(n);
      used <= Upper(m) && Lower(m) <= used && Slack(m, used)
  {
    var q, m := n / 1024, Shrunk(n);
    UpperIsFloor(m);
    assert q >= 1 && 1024 * q <= n <= 1024 * q + 1023;
    assert m / 1024 * 2 <= q;
  }

  /** A call leaves the table settled, and with slack if it was rebuilt. */
  lemma MovesSettled(n: nat, used: int, n': nat, used': int)
    requires Settled(n, used) && Moves(n, used, n', used') && (n' == n ==> used' <= Upper(n))
    ensures Settled(n', used') && (n' != n ==> Slack(n', used'))
  {
    SizeMin(n);
    if n' == Grown(n) {
      GrownSlack(n);
    } else if n' != n {
      ShrunkSlack(n);
    }
  }

  // Runs

  ghost predicate SettledTable<E>(h: Handle<E>) {
    h.Live? && Settled(|h.s.slots|, h.s.used)
  }

  lemma CallMoves<K(!new), V(!new)>(o: Keys<K>, h: Handle<Entry<K, V>>, c: Call<K, V>)
    requires h.Live? && Valid(h.s, HashOf(o)) && c.alloc && !c.cmd.CmdReinit?
    ensures var h' := Exec(o, h, c).0;
      h'.Live? && Moves(|h.s.slots|, h.s.used, |h'.s.slots|, h'.s.used)
  {
    hide Find, Shift, Refill, Reachable, Bag, SizeOk, Upper;
    match c.cmd
    case CmdFind(_) =>
    case CmdErase(key) =>
      ValidLoaded(h.s, HashOf(o), Find(h.s, HasKey(o, key), o.hash(key)));
    case CmdInsert(_) =>
    case CmdUpdate(_) =>
  }

  lemma CallSettled<K(!new), V(!new)>(o: Keys<K>, h: Handle<Entry<K, V>>, c: Call<K, V>)
    requires SettledTable(h) && Valid(h.s, HashOf(o)) && c.alloc
    requires var h' := Exec(o, h, c).0; h'.Live? ==> Valid(h'.s, HashOf(o))
    ensures var h' := Exec(o, h, c).0;
      SettledTable(h') && (|h'.s.slots| != |h.s.slots| && !c.cmd.CmdReinit? ==> Slack(|h'.s.slots|, h'.s.used))
  {
    var h' := Exec(o, h, c).0;
    if !c.cmd.CmdReinit? {
      CallMoves(o, h, c);
      hide Exec, Upper, Reachable, Bag, Slack, Moves;
      MovesSettled(|h.s.slots|, h.s.used, |h'.s.slots|, h'.s.used);
    } else {
      assert MIN_SIZE == 13 * Pow2(0) - 3;
    }
  }

  /** A run in which every allocation succeeds. */
  ghost predicate Supplied<K(!new), V(!new)>(
    o: Keys<K>, hs: seq<Handle<Entry<K, V>>>, calls: seq<Call<K, V>>, replies: seq<Reply<V>>)
  {
    Lawful(o) && TableRun(o, hs, calls, replies) && hs[0] == Live(Empty()) && forall i :: 0 <= i < |calls| ==> calls[i].alloc
  }

  lemma RunValid<K(!new), V(!new)>(
    o: Keys<K>, hs: seq<Handle<Entry<K, V>>>, calls: seq<Call<K, V>>, replies: seq<Reply<V>>, k: nat)
    requires Supplied(o, hs, calls, replies) && k < |hs|
    ensures |hs| == |calls| + 1 && (hs[k].Live? ==> Valid(hs[k].s, HashOf(o)))
  {
    hide Valid, MapStep;
    var ms := RunRefines(o, hs, calls, replies, k);
  }

  lemma RunStep<K(!new), V(!new)>(
    o: Keys<K>, hs: seq<Handle<Entry<K, V>>>, calls: seq<Call<K, V>>, replies: seq<Reply<V>>, k: nat)
    requires Supplied(o, hs, calls, replies) && k < |calls|
    ensures |hs| == |calls| + 1 && calls[k].alloc && (hs[k].Live? ==> |hs[k].s.slots| >= MIN_SIZE)
    ensures hs[k + 1] == Exec(o, hs[k], calls[k]).0
  {
    hide Exec;
    assert (hs[k + 1], replies[k]) == Exec(o, hs[k], calls[k]);
  }

  lemma EmptySettled<E(!new)>()
    ensures SettledTable<E>(Live(Empty()))
  {
    assert MIN_SIZE == 13 * Pow2(0) - 3;
  }

  /** The call rebuilt the table. */
  predicate Rebuilds<K, V>(h: Handle<Entry<K, V>>, h': Handle<Entry<K, V>>, c: Call<K, V>) {
    h.Live? && h'.Live? && |h.s.slots| != |h'.s.slots| && !c.cmd.CmdReinit?
  }

  lemma {:induction false} RunSettled<K(!new), V(!new)>(
    o: Keys<K>, hs: seq<Handle<Entry<K, V>>>, calls: seq<Call<K, V>>, replies: seq<Reply<V>>, k: nat)
    requires Supplied(o, hs, calls, replies) && k < |hs|
    ensures |hs| == |calls| + 1 && SettledTable(hs[k]) && |hs[k].s.slots| >= MIN_SIZE
    ensures k > 0 && Rebuilds(hs[k - 1], hs[k], calls[k - 1]) ==> Slack(|hs[k].s.slots|, hs[k].s.used)
  {
    hide Exec, Valid, TableRun, Slack, Empty;
    RunValid(o, hs, calls, replies, k);
    if k == 0 {
      EmptySettled<Entry<K, V>>();
    } else {
      RunSettled(o, hs, calls, replies, k - 1);
      RunValid(o, hs, calls, replies, k - 1);
      RunStep(o, hs, calls, replies, k - 1);
      CallSettled(o, hs[k - 1], calls[k - 1]);
    }
  }

  /** How many of the calls from the one numbered `i` up to `j` change the load: inserts of new keys and
      erases of keys that are there. */
  function Writes<E>(hs: seq<Handle<E>>, i: nat, j: nat): (w: nat)
    requires i <= j < |hs|
    decreases j - i
  {
    if i == j then 0
    else Writes(hs, i, j - 1) + if hs[j - 1].Live? && hs[j].Live? && hs[j - 1].s.used == hs[j].s.used then 0 else 1
  }

  /** The load has moved by no more than the number of calls that changed it. */
  lemma {:induction false} Drift<K(!new), V(!new)>(
    o: Keys<K>, hs: seq<Handle<Entry<K, V>>>, calls: seq<Call<K, V>>, replies: seq<Reply<V>>, i: nat, j: nat)
    requires Supplied(o, hs, calls, replies) && i <= j < |hs| && hs[i].Live?
    requires forall t :: i <= t <= j ==> hs[t].Live? && |hs[t].s.slots| == |hs[i].s.slots|
    requires |hs| == |calls| + 1 && forall t :: i <= t < j ==> !calls[t].cmd.CmdReinit?
    ensures hs[i].s.used - Writes(hs, i, j) <= hs[j].s.used <= hs[i].s.used + Writes(hs, i, j)
  {
    hide Exec, Valid, TableRun;
    if i < j {
      Drift(o, hs, calls, replies, i, j - 1);
      RunValid(o, hs, calls, replies, j - 1);
      RunStep(o, hs, calls, replies, j - 1);
      CallMoves(o, hs[j - 1], calls[j - 1]);
    }
  }

  /** Between two rebuilds of a table of `n` slots at least `n / 14 - 2` calls insert a key or erase one. */
  lemma RebuildsApart<K(!new), V(!new)>(
    o: Keys<K>, hs: seq<Handle<Entry<K, V>>>, calls: seq<Call<K, V>>, replies: seq<Reply<V>>, i: nat, j: nat)
    requires Supplied(o, hs, calls, replies) && |hs| == |calls| + 1 && i < j < |calls|
    requires Rebuilds(hs[i], hs[i + 1], calls[i]) && Rebuilds(hs[j], hs[j + 1], calls[j])
    requires forall t :: i < t <= j ==> hs[t].Live? && |hs[t].s.slots| == |hs[i + 1].s.slots|
    requires forall t :: i < t < j ==> !calls[t].cmd.CmdReinit?
    ensures |hs[j].s.slots| <= 14 * (Writes(hs, i + 1, j) + 2)
  {
    hide Exec, Valid, TableRun, Supplied, Writes;
    RunSettled(o, hs, calls, replies, i + 1);
    RunSettled(o, hs, calls, replies, j);
    Drift(o, hs, calls, replies, i + 1, j);
    RunValid(o, hs, calls, replies, j);
    RunStep(o, hs, calls, replies, j);
    CallMoves(o, hs[j], calls[j]);
    Trigger(|hs[j].s.slots|, hs[j].s.used, |hs[j + 1].s.slots|, hs[j + 1].s.used, hs[i + 1].s.used);
  }

  /** A rebuild of a table with slack comes only after the load has moved far. */
  lemma Trigger(n: nat, used: int, n': nat, used': int, before: int)
    requires Settled(n, used) && Moves(n, used, n', used') && n' != n && Slack(n, before)
    ensures n <= 14 * (used - before + 1) || n <= 14 * (before - used + 2)
  {
    if n' == Target(n, used) {
      assert 0 <= used <= Upper(n);
    } else {
      assert 0 <= used - 1 <= Upper(n);
    }
  }
}
