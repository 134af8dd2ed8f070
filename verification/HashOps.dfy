/**
 The table operations on values. A state is the slots and the count of used ones; `hash` gives the
 hash of an entry, `hit` says whether an entry has the key searched for, `alloc` says whether
 the allocation of a new table succeeds.
 */
module HashOps {
  import opened Cyclic
  import opened HashSpec
  import opened HashSizes

  datatype State<+E> = State(slots: seq<Slot<E>>, used: int)

  datatype Outcome = Ok | DoesNotExist | AlreadyExists | OutOfMemory

  /** The home slot of an entry in a table of `n` slots. */
  function Home<E(!new)>(hash: E -> nat, n: nat): (home: E -> nat)
    requires n > 0
    ensures InRange(home, n)
    ensures forall e :: home(e) == hash(e) % n
  {
    e => hash(e) % n
  }

  function Never<E>(e: E): bool {
    false
  }

  /** The entries in the table, with their multiplicities. */
  ghost function Bag<E>(t: seq<Slot<E>>): multiset<Slot<E>> {
    multiset(t)[Free := 0]
  }

  /** The size is a legal one, the count is right and the load is within its bound. */
  ghost predicate Sized<E(!new)>(s: State<E>) {
    && SizeOk(|s.slots|) && |s.slots| >= MIN_SIZE
    && s.used == |Bag(s.slots)| <= Upper(|s.slots|)
  }

  ghost predicate Valid<E(!new)>(s: State<E>, hash: E -> nat) {
    Sized(s) && Reachable(s.slots, Home(hash, |s.slots|))
  }

  function Blank<E>(n: nat): (t: seq<Slot<E>>)
    ensures |t| == n && forall i :: 0 <= i < n ==> t[i] == Free
  {
    seq(n, _ => Free)
  }

  function Empty<E>(): State<E> {
    State(Blank(MIN_SIZE), 0)
  }

  /** Put an entry in the first free slot from its home on. */
  function Place<E>(t: seq<Slot<E>>, home: E -> nat, e: E): (r: seq<Slot<E>>)
    requires home(e) < |t|
    ensures |r| == |t|
  {
    t[Probe(t, Never, home(e), |t|) := Used(e)]
  }

  /** Place the entries of the first `i` slots of `src`, in slot order. */
  function Refill<E(!new)>(src: seq<Slot<E>>, i: nat, hash: E -> nat, n: nat): (t: seq<Slot<E>>)
    requires i <= |src| && n > 0
    ensures |t| == n
  {
    if i == 0 then Blank(n)
    else
      var t := Refill(src, i - 1, hash, n);
      if src[i - 1].Used? then Place(t, Home(hash, n), src[i - 1].e) else t
  }

  function Rehash<E(!new)>(s: State<E>, hash: E -> nat, alloc: bool): (r: (State<E>, bool))
    requires |s.slots| >= MIN_SIZE
  {
    var n := Target(|s.slots|, s.used);
    if n == |s.slots| then (s, true)
    else if !alloc then (s, false)
    else (State(Refill(s.slots, |s.slots|, hash, n), s.used), true)
  }

  function Find<E>(s: State<E>, hit: E -> bool, h: nat): (r: nat)
    requires |s.slots| > 0
    ensures r < |s.slots|
  {
    Probe(s.slots, hit, h % |s.slots|, |s.slots|)
  }

  function Erase<E(!new)>(s: State<E>, hash: E -> nat, hit: E -> bool, h: nat, alloc: bool): (r: (State<E>, Outcome))
    requires |s.slots| >= MIN_SIZE
  {
    var n := |s.slots|;
    var p := Find(s, hit, h);
    if s.slots[p].Free? then (s, DoesNotExist)
    else
      var t := Shift(s.slots[p := Free], Home(hash, n), p, Next(p, n), n);
      (Rehash(State(t, s.used - 1), hash, alloc).0, Ok)
  }

  function Insert<E(!new)>(s: State<E>, hash: E -> nat, hit: E -> bool, e: E, alloc: bool): (r: (State<E>, Outcome))
    requires |s.slots| >= MIN_SIZE
  {
    var (s1, ok) := Rehash(s, hash, alloc);
    if !ok then (s1, OutOfMemory)
    else
      var p := Find(s1, hit, hash(e));
      if s1.slots[p].Used? then (s1, AlreadyExists)
      else (State(s1.slots[p := Used(e)], s1.used + 1), Ok)
  }

  function Update<E(!new)>(s: State<E>, hash: E -> nat, hit: E -> bool, e: E, alloc: bool): (r: (State<E>, Outcome))
    requires |s.slots| >= MIN_SIZE
  {
    var (s1, ok) := Rehash(s, hash, alloc);
    if !ok then (s1, OutOfMemory)
    else
      var p := Find(s1, hit, hash(e));
      (State(s1.slots[p := Used(e)], if s1.slots[p].Used? then s1.used else s1.used + 1), Ok)
  }

  /** A table below its load limit has a free slot. */
  lemma FreeSlot<E>(t: seq<Slot<E>>) returns (q: nat)
    requires |Bag(t)| < |t|
    ensures q < |t| && t[q].Free?
  {
    assert multiset(t) == Bag(t)[Free := multiset(t)[Free]];
    assert |multiset(t)| == |Bag(t)| + multiset(t)[Free];
    assert Free in multiset(t);
    q :| q < |t| && t[q] == Free;
  }

  lemma BagWrite<E>(t: seq<Slot<E>>, p: nat, x: Slot<E>)
    requires p < |t|
    ensures Bag(t[p := x]) == Bag(t) - multiset{t[p]} + (if x.Used? then multiset{x} else multiset{})
  {
    assert multiset(t[p := x]) == multiset(t) - multiset{t[p]} + multiset{x};
  }

  lemma PlaceKeeps<E(!new)>(t: seq<Slot<E>>, home: E -> nat, e: E)
    requires InRange(home, |t|) && Reachable(t, home) && |Bag(t)| < |t|
    ensures Reachable(Place(t, home, e), home) && Bag(Place(t, home, e)) == Bag(t) + multiset{Used(e)}
  {
    var q := FreeSlot(t);
    ProbeStops(t, Never, home(e), |t|, q);
    var p := Probe(t, Never, home(e), |t|);
    WriteKeepsReachable(t, home, e, p);
    BagWrite(t, p, Used(e));
  }

  lemma {:induction false} RefillKeeps<E(!new)>(src: seq<Slot<E>>, i: nat, hash: E -> nat, n: nat)
    requires i <= |src| && n > 0 && |Bag(src)| <= n
    ensures var t := Refill(src, i, hash, n);
      Reachable(t, Home(hash, n)) && Bag(t) == Bag(src[..i])
  {
    if i == 0 {
      BlankBag<E>(n);
    } else {
      RefillKeeps(src, i - 1, hash, n);
      BagPrefix(src, i);
      var t := Refill(src, i - 1, hash, n);
      if src[i - 1].Used? {
        PlaceKeeps(t, Home(hash, n), src[i - 1].e);
      }
    }
  }

  lemma BlankBag<E>(n: nat)
    ensures Bag(Blank<E>(n)) == multiset{}
  {
    assert forall x :: x in multiset(Blank<E>(n)) ==> x == Free;
  }

  lemma BagPrefix<E>(src: seq<Slot<E>>, i: nat)
    requires 0 < i <= |src|
    ensures Bag(src[..i]) == Bag(src[..i - 1]) + (if src[i - 1].Used? then multiset{src[i - 1]} else multiset{})
    ensures |Bag(src[..i])| <= |Bag(src)|
  {
    assert src[..i] == src[..i - 1] + [src[i - 1]];
    assert src == src[..i] + src[i..];
    assert Bag(src) == Bag(src[..i]) + Bag(src[i..]);
  }

  lemma NotRebuilt(n: nat, used: int, alloc: bool)
    ensures !Due(n, used) || !alloc ==> SizeAfter(n, used, alloc) == n
  {
  }

  /** Rebuilding changes neither the entries nor their number, and a table that was rebuilt, or
      did not need to be, can take one more entry. A rebuilt table is valid even if the one before
      was not. */
  lemma RehashKeeps<E(!new)>(s: State<E>, hash: E -> nat, alloc: bool)
    requires Sized(s)
    ensures var (s', ok) := Rehash(s, hash, alloc);
      && Sized(s') && s'.used == s.used && Bag(s'.slots) == Bag(s.slots)
      && (Valid(s, hash) || s' != s ==> Valid(s', hash))
      && (ok ==> s'.used < Upper(|s'.slots|) < |s'.slots|)
      && (!ok <==> Due(|s.slots|, s.used) && !alloc)
      && |s'.slots| == SizeAfter(|s.slots|, s.used, alloc) && (|s'.slots| == |s.slots| ==> s' == s)
  {
    hide Refill, Bag, Reachable, Upper, Due, SizeAfter;
    TargetDue(|s.slots|, s.used);
    NotRebuilt(|s.slots|, s.used, alloc);
    var n := Target(|s.slots|, s.used);
    TargetHasRoom(|s.slots|, s.used);
    SizeMin(n);
    RefillKeeps(s.slots, |s.slots|, hash, n);
    assert s.slots[..|s.slots|] == s.slots;
  }

  /** `Find` decides whether some entry is a hit, and finds one if there is. */
  lemma FindMeaning<E(!new)>(s: State<E>, hash: E -> nat, hit: E -> bool, h: nat)
    requires Valid(s, hash)
    requires forall e :: hit(e) ==> hash(e) == h
    ensures var n := |s.slots|; var r := Find(s, hit, h);
      && AllUsedUpTo(s.slots, h % n, r)
      && (s.slots[r].Used? ==> hit(s.slots[r].e))
      && (s.slots[r].Used? <==> exists x :: x in Bag(s.slots) && hit(x.e))
  {
    var n := |s.slots|;
    UpperIsFloor(n);
    var q := FreeSlot(s.slots);
    SearchComplete(s.slots, Home(hash, n), hit, h % n, q);
    var r := Find(s, hit, h);
    if s.slots[r].Used? {
      assert s.slots[r] in Bag(s.slots) && hit(s.slots[r].e);
    } else {
      forall x | x in Bag(s.slots) ensures !hit(x.e) {
        var j :| 0 <= j < n && s.slots[j] == x;
      }
    }
  }

  /** The table between the shift and the rebuild that follows it. */
  lemma ErasedValid<E(!new)>(s: State<E>, hash: E -> nat, p: nat)
    requires Valid(s, hash) && p < |s.slots| && s.slots[p].Used?
    ensures var n := |s.slots|; var t := Shift(s.slots[p := Free], Home(hash, n), p, Next(p, n), n);
      && Valid(State(t, s.used - 1), hash)
      && Bag(t) == Bag(s.slots) - multiset{s.slots[p]}
  {
    var n := |s.slots|;
    UpperIsFloor(n);
    var q := FreeSlot(s.slots);
    EraseAt(s.slots, Home(hash, n), p, q);
    assert s.slots[p] in Bag(s.slots);
  }

  lemma EraseMeaning<E(!new)>(s: State<E>, hash: E -> nat, hit: E -> bool, h: nat, alloc: bool)
    requires Valid(s, hash)
    requires forall e :: hit(e) ==> hash(e) == h
    ensures var (s', rc) := Erase(s, hash, hit, h, alloc); var x := s.slots[Find(s, hit, h)];
      && Valid(s', hash)
      && rc == (if x.Used? then Ok else DoesNotExist)
      && Bag(s'.slots) == (if x.Used? then Bag(s.slots) - multiset{x} else Bag(s.slots))
      && |s'.slots| == (if x.Used? then SizeAfter(|s.slots|, s.used - 1, alloc) else |s.slots|)
  {
    var n := |s.slots|;
    var p := Find(s, hit, h);
    if s.slots[p].Used? {
      ErasedValid(s, hash, p);
      var t := Shift(s.slots[p := Free], Home(hash, n), p, Next(p, n), n);
      RehashKeeps(State(t, s.used - 1), hash, alloc);
    }
  }

  lemma WriteMeaning<E(!new)>(s: State<E>, hash: E -> nat, hit: E -> bool, e: E)
    requires Valid(s, hash) && s.used < Upper(|s.slots|)
    requires forall x :: hit(x) ==> hash(x) == hash(e)
    ensures var p := Find(s, hit, hash(e)); var x := s.slots[p];
      var s' := State(s.slots[p := Used(e)], if x.Used? then s.used else s.used + 1);
      && Valid(s', hash)
      && Bag(s'.slots) == Bag(s.slots) - multiset{x} + multiset{Used(e)}
  {
    var n := |s.slots|;
    var p := Find(s, hit, hash(e));
    FindMeaning(s, hash, hit, hash(e));
    WriteKeepsReachable(s.slots, Home(hash, n), e, p);
    BagWrite(s.slots, p, Used(e));
    assert s.slots[p].Used? ==> s.slots[p] in Bag(s.slots);
  }

  lemma InsertMeaning<E(!new)>(s: State<E>, hash: E -> nat, hit: E -> bool, e: E, alloc: bool)
    requires Valid(s, hash)
    requires forall x :: hit(x) ==> hash(x) == hash(e)
    ensures var (s', rc) := Insert(s, hash, hit, e, alloc);
      && Valid(s', hash) && |s'.slots| == SizeAfter(|s.slots|, s.used, alloc)
      && (rc == OutOfMemory <==> Due(|s.slots|, s.used) && !alloc)
      && (rc == OutOfMemory ==> s' == s)
      && (rc == Ok ==> Bag(s'.slots) == Bag(s.slots) + multiset{Used(e)})
      && (rc == AlreadyExists ==> Bag(s'.slots) == Bag(s.slots))
      && (rc != OutOfMemory ==> rc == if exists x :: x in Bag(s.slots) && hit(x.e) then AlreadyExists else Ok)
  {
    RehashKeeps(s, hash, alloc);
    var (s1, ok) := Rehash(s, hash, alloc);
    FindMeaning(s1, hash, hit, hash(e));
    if ok {
      WriteMeaning(s1, hash, hit, e);
    }
  }

  lemma UpdateMeaning<E(!new)>(s: State<E>, hash: E -> nat, hit: E -> bool, e: E, alloc: bool)
    requires Valid(s, hash)
    requires forall x :: hit(x) ==> hash(x) == hash(e)
    ensures var (s', rc) := Update(s, hash, hit, e, alloc);
      && Valid(s', hash) && |s'.slots| == SizeAfter(|s.slots|, s.used, alloc)
      && (rc == OutOfMemory <==> Due(|s.slots|, s.used) && !alloc)
      && (rc == OutOfMemory ==> s' == s)
      && (rc != OutOfMemory ==> rc == Ok && exists x ::
            && Bag(s'.slots) == Bag(s.slots) - multiset{x} + multiset{Used(e)}
            && if x.Used? then x in Bag(s.slots) && hit(x.e) else !exists y :: y in Bag(s.slots) && hit(y.e))
  {
    RehashKeeps(s, hash, alloc);
    var (s1, ok) := Rehash(s, hash, alloc);
    FindMeaning(s1, hash, hit, hash(e));
    if ok {
      WriteMeaning(s1, hash, hit, e);
      var x := s1.slots[Find(s1, hit, hash(e))];
      assert x.Used? ==> x in Bag(s1.slots);
    }
  }

  /** Writing keeps the count and the load right, whether or not the entries can be reached. */
  lemma WriteSized<E(!new)>(s: State<E>, hash: E -> nat, hit: E -> bool, e: E, alloc: bool)
    requires Sized(s)
    ensures Sized(Insert(s, hash, hit, e, alloc).0) && Sized(Update(s, hash, hit, e, alloc).0)
  {
    RehashKeeps(s, hash, alloc);
    var (s1, ok) := Rehash(s, hash, alloc);
    if ok {
      var p := Find(s1, hit, hash(e));
      BagWrite(s1.slots, p, Used(e));
      assert s1.slots[p].Used? ==> s1.slots[p] in Bag(s1.slots);
    }
  }
}
