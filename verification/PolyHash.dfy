/**
 The table that keeps each key's hash beside it. Searches compare the cached hash before they compare
 keys, and rebuilding reads the cached hash instead of hashing again. Forgetting the cached hashes
 turns every operation into the operation of the plain table.
 */
module PolyHash {
  import opened Cyclic
  import opened HashSpec
  import opened HashSizes
  import opened HashOps
  import opened HashMap

  datatype Cached<+K, +V> = Cached(key: K, value: V, hashval: nat)

  function Stored<K(!new), V(!new)>(): (f: Cached<K, V> -> nat)
    ensures forall e :: f(e) == e.hashval
  {
    (e: Cached<K, V>) => e.hashval
  }

  /** The hash-first comparison. */
  function QuickHit<K(!new), V(!new)>(o: Keys<K>, h: nat, key: K): (f: Cached<K, V> -> bool)
    ensures forall e :: f(e) == (e.hashval == h && o.equal(e.key, key))
  {
    (e: Cached<K, V>) => e.hashval == h && o.equal(e.key, key)
  }

  /** Every cached hash is the hash of its key. */
  ghost predicate Fresh<K, V>(o: Keys<K>, t: seq<Slot<Cached<K, V>>>) {
    forall i :: 0 <= i < |t| && t[i].Used? ==> t[i].e.hashval == o.hash(t[i].e.key)
  }

  function Plain<K, V>(x: Slot<Cached<K, V>>): Slot<Entry<K, V>> {
    if x.Free? then Free else Used(Entry(x.e.key, x.e.value))
  }

  /** The table with the cached hashes forgotten. */
  function Strip<K, V>(t: seq<Slot<Cached<K, V>>>): (r: seq<Slot<Entry<K, V>>>)
    ensures |r| == |t| && forall i :: 0 <= i < |t| ==> r[i] == Plain(t[i])
  {
    seq(|t|, i requires 0 <= i < |t| => Plain(t[i]))
  }

  function StripState<K, V>(s: State<Cached<K, V>>): State<Entry<K, V>> {
    State(Strip(s.slots), s.used)
  }

  /** Comparing the cached hash first decides the same as comparing the keys. */
  lemma {:induction false} ProbeStrips<K(!new), V(!new)>(
    o: Keys<K>, t: seq<Slot<Cached<K, V>>>, hit: Cached<K, V> -> bool, hit': Entry<K, V> -> bool, i: nat, left: nat)
    requires i < |t|
    requires forall j :: 0 <= j < |t| && t[j].Used? ==> hit(t[j].e) == hit'(Plain(t[j]).e)
    ensures Probe(t, hit, i, left) == Probe(Strip(t), hit', i, left)
    decreases left
  {
    if left > 0 {
      ProbeStrips(o, t, hit, hit', Next(i, |t|), left - 1);
    }
  }

  lemma {:induction false} ShiftStrips<K(!new), V(!new)>(
    o: Keys<K>, t: seq<Slot<Cached<K, V>>>, home: Cached<K, V> -> nat, home': Entry<K, V> -> nat, hole: nat, i: nat, left: nat)
    requires hole < |t| && i < |t| && t[hole].Free? && Fresh(o, t)
    requires forall e: Cached<K, V> :: e.hashval == o.hash(e.key) ==> home(e) == home'(Entry(e.key, e.value))
    ensures Strip(Shift(t, home, hole, i, left)) == Shift(Strip(t), home', hole, i, left)
    ensures Fresh(o, Shift(t, home, hole, i, left))
    decreases left
  {
    if left > 0 && t[i].Used? {
      if Stays(hole, home(t[i].e), i) {
        ShiftStrips(o, t, home, home', hole, Next(i, |t|), left - 1);
      } else {
        var t' := t[hole := t[i]][i := Free];
        assert Strip(t') == Strip(t)[hole := Strip(t)[i]][i := Free];
        ShiftStrips(o, t', home, home', i, Next(i, |t|), left - 1);
      }
    }
  }

  lemma {:induction false} RefillStrips<K(!new), V(!new)>(o: Keys<K>, src: seq<Slot<Cached<K, V>>>, i: nat, n: nat)
    requires i <= |src| && n > 0 && Fresh(o, src)
    ensures Strip(Refill(src, i, Stored(), n)) == Refill(Strip(src), i, HashOf(o), n)
    ensures Fresh(o, Refill(src, i, Stored(), n))
  {
    if i > 0 {
      RefillStrips(o, src, i - 1, n);
      if src[i - 1].Used? {
        var t := Refill(src, i - 1, Stored(), n);
        var e := src[i - 1].e;
        ProbeStrips(o, t, Never, Never, e.hashval % n, n);
        var p := Probe(t, Never, e.hashval % n, n);
        assert Strip(t[p := Used(e)]) == Strip(t)[p := Plain(Used(e))];
      }
    }
  }

  lemma RehashStrips<K(!new), V(!new)>(o: Keys<K>, s: State<Cached<K, V>>, alloc: bool)
    requires |s.slots| >= MIN_SIZE && Fresh(o, s.slots)
    ensures var (s', ok) := Rehash(s, Stored(), alloc);
      Fresh(o, s'.slots) && (StripState(s'), ok) == Rehash(StripState(s), HashOf(o), alloc)
  {
    var n := Target(|s.slots|, s.used);
    if n > 0 {
      RefillStrips(o, s.slots, |s.slots|, n);
    }
  }

  lemma FindStrips<K(!new), V(!new)>(o: Keys<K>, s: State<Cached<K, V>>, key: K)
    requires Lawful(o) && |s.slots| > 0 && Fresh(o, s.slots)
    ensures Find(s, QuickHit(o, o.hash(key), key), o.hash(key)) == Find(StripState(s), HasKey(o, key), o.hash(key))
  {
    var n := |s.slots|;
    ProbeStrips(o, s.slots, QuickHit(o, o.hash(key), key), HasKey(o, key), o.hash(key) % n, n);
  }

  lemma ErasedStrips<K(!new), V(!new)>(o: Keys<K>, t: seq<Slot<Cached<K, V>>>, p: nat)
    requires p < |t| && Fresh(o, t)
    ensures var n := |t|;
      var t1 := Shift(t[p := Free], Home(Stored(), n), p, Next(p, n), n);
      Fresh(o, t1) && Strip(t1) == Shift(Strip(t)[p := Free], Home(HashOf(o), n), p, Next(p, n), n)
  {
    var n := |t|;
    assert Strip(t[p := Free]) == Strip(t)[p := Free];
    ShiftStrips(o, t[p := Free], Home(Stored(), n), Home(HashOf(o), n), p, Next(p, n), n);
  }

  lemma EraseStrips<K(!new), V(!new)>(o: Keys<K>, s: State<Cached<K, V>>, key: K, alloc: bool)
    requires Lawful(o) && |s.slots| >= MIN_SIZE && Fresh(o, s.slots)
    ensures var (s', rc) := Erase(s, Stored(), QuickHit(o, o.hash(key), key), o.hash(key), alloc);
      && Fresh(o, s'.slots)
      && (StripState(s'), rc) == Erase(StripState(s), HashOf(o), HasKey(o, key), o.hash(key), alloc)
  {
    FindStrips(o, s, key);
    var n := |s.slots|;
    var p := Find(s, QuickHit(o, o.hash(key), key), o.hash(key));
    if s.slots[p].Used? {
      ErasedStrips(o, s.slots, p);
      RehashStrips(o, State(Shift(s.slots[p := Free], Home(Stored(), n), p, Next(p, n), n), s.used - 1), alloc);
    }
  }

  lemma WriteStrips<K(!new), V(!new)>(o: Keys<K>, s: State<Cached<K, V>>, e: Cached<K, V>, alloc: bool)
    requires Lawful(o) && |s.slots| >= MIN_SIZE && Fresh(o, s.slots) && e.hashval == o.hash(e.key)
    ensures var (s', rc) := Insert(s, Stored(), QuickHit(o, e.hashval, e.key), e, alloc);
      && Fresh(o, s'.slots)
      && (StripState(s'), rc) == Insert(StripState(s), HashOf(o), HasKey(o, e.key), Entry(e.key, e.value), alloc)
    ensures var (s', rc) := Update(s, Stored(), QuickHit(o, e.hashval, e.key), e, alloc);
      && Fresh(o, s'.slots)
      && (StripState(s'), rc) == Update(StripState(s), HashOf(o), HasKey(o, e.key), Entry(e.key, e.value), alloc)
  {
    RehashStrips(o, s, alloc);
    var (s1, ok) := Rehash(s, Stored(), alloc);
    if ok {
      FindStrips(o, s1, e.key);
      var p := Find(s1, QuickHit(o, e.hashval, e.key), e.hashval);
      assert Strip(s1.slots[p := Used(e)]) == Strip(s1.slots)[p := Plain(Used(e))];
    }
  }

  // The literal erase, whose three-way test compares the cached hash without reducing it

  function EraseLiteral<K(!new), V(!new)>(s: State<Cached<K, V>>, hit: Cached<K, V> -> bool, h: nat, alloc: bool)
    : (r: (State<Cached<K, V>>, Outcome))
    requires |s.slots| >= MIN_SIZE
  {
    var n := |s.slots|;
    var p := Find(s, hit, h);
    if s.slots[p].Free? then (s, DoesNotExist)
    else
      var t := Shift(s.slots[p := Free], Stored(), p, Next(p, n), n);
      (Rehash(State(t, s.used - 1), Stored(), alloc).0, Ok)
  }

  /** The hashes for which the missing reduction makes no difference in a table of `n` slots. */
  predicate Harmless(v: nat, n: nat)
    requires n > 0
  {
    v < n || v % n == 0
  }

  ghost predicate AllHarmless<K, V>(t: seq<Slot<Cached<K, V>>>) {
    forall i :: 0 <= i < |t| && t[i].Used? ==> Harmless(t[i].e.hashval, |t|)
  }

  /** For a harmless hash the test decides the same, reduced or not, and for no other hash. */
  lemma LiteralTest(v: nat, n: nat)
    requires n > 0
    ensures Harmless(v, n) <==>
            forall hole: nat, i: nat :: hole < n && i < n && hole != i ==> Stays(hole, v, i) == Stays(hole, v % n, i)
  {
    if !Harmless(v, n) {
      var h := v % n;
      assert Stays(h - 1, v, h) != Stays(h - 1, h, h);
    }
  }

  lemma {:induction false} ShiftLiteral<K(!new), V(!new)>(t: seq<Slot<Cached<K, V>>>, hole: nat, i: nat, left: nat, q: nat)
    requires Ahead(hole, i, q, left, |t|) && t[q].Free? && t[hole].Free? && AllHarmless(t)
    ensures Shift(t, Stored(), hole, i, left) == Shift(t, Home(Stored(), |t|), hole, i, left)
    decreases left
  {
    if t[i].Used? {
      AheadSteps(hole, i, q, left, |t|);
      LiteralTest(t[i].e.hashval, |t|);
      if Stays(hole, t[i].e.hashval, i) {
        ShiftLiteral(t, hole, Next(i, |t|), left - 1, q);
      } else {
        ShiftLiteral(t[hole := t[i]][i := Free], i, Next(i, |t|), left - 1, q);
      }
    }
  }

  /** While every stored hash is harmless, the literal erase is the reduced one. */
  lemma LiteralAgrees<K(!new), V(!new)>(s: State<Cached<K, V>>, hit: Cached<K, V> -> bool, h: nat, alloc: bool)
    requires Valid(s, Stored()) && AllHarmless(s.slots)
    ensures EraseLiteral(s, hit, h, alloc) == Erase(s, Stored(), hit, h, alloc)
  {
    var n := |s.slots|;
    var p := Find(s, hit, h);
    if s.slots[p].Used? {
      UpperIsFloor(n);
      var q := FreeSlot(s.slots);
      ShiftLiteral(s.slots[p := Free], p, Next(p, n), n, q);
    }
  }

  /** Number keys that are their own hashes. */
  function Numbers(): Keys<nat> {
    Keys((k: nat) => k, (a: nat, b: nat) => a == b)
  }

  /** The entry of such a key. */
  function Own(k: nat): Slot<Cached<nat, nat>> {
    Used(Cached(k, 0, k))
  }

  /** A table of two neighbours, the second of hash `v`, both in their home slots. */
  function Pair(v: nat, n: nat): (s: State<Cached<nat, nat>>)
    requires n > 0 && !Harmless(v, n)
    ensures |s.slots| == n
  {
    var h := v % n;
    State(Blank(n)[h - 1 := Own(h - 1)][h := Own(v)], 2)
  }

  lemma NotHarmless(v: nat, n: nat)
    requires n > 0 && !Harmless(v, n)
    ensures 0 < v % n < n
  {
  }

  lemma PairBag(v: nat, n: nat)
    requires n > 0 && !Harmless(v, n)
    ensures Bag(Pair(v, n).slots) == multiset{Own(v % n - 1), Own(v)}
  {
    var h := v % n;
    hide Bag, Harmless;
    NotHarmless(v, n);
    var b := Blank<Cached<nat, nat>>(n);
    BlankBag<Cached<nat, nat>>(n);
    BagWrite(b, h - 1, Own(h - 1));
    BagWrite(b[h - 1 := Own(h - 1)], h, Own(v));
  }

  lemma PairReachable(v: nat, n: nat)
    requires n > 0 && !Harmless(v, n)
    ensures Reachable(Pair(v, n).slots, Home(Stored(), n))
  {
    var h := v % n;
    var t := Pair(v, n).slots;
    var home := Home(Stored<nat, nat>(), n);
    Small(h - 1, n);
    InHomes(t, home);
  }

  /** A table whose entries are all in their home slots. */
  lemma InHomes<E(!new)>(t: seq<Slot<E>>, home: E -> nat)
    requires forall j :: 0 <= j < |t| && t[j].Used? ==> home(t[j].e) == j
    ensures Reachable(t, home)
  {
    forall j | 0 <= j < |t| ensures ReachesBut(t, home, j, -1) {
    }
  }

  lemma PairValid(v: nat, n: nat)
    requires n >= MIN_SIZE && SizeOk(n) && !Harmless(v, n)
    ensures Valid(Pair(v, n), Stored())
  {
    PairBag(v, n);
    PairReachable(v, n);
    assert Upper(n) >= 2 by { UpperIsFloor(n); }
  }

  /** The literal test moves the second entry into the slot before its home. */
  function Misplaced(v: nat, n: nat): (t: seq<Slot<Cached<nat, nat>>>)
    requires n > 0 && !Harmless(v, n)
    ensures |t| == n
  {
    Blank(n)[v % n - 1 := Own(v)]
  }

  lemma PairShifts(v: nat, n: nat)
    requires n >= MIN_SIZE && !Harmless(v, n)
    ensures var h := v % n;
      Shift(Pair(v, n).slots[h - 1 := Free], Stored(), h - 1, Next(h - 1, n), n) == Misplaced(v, n)
  {
    var h := v % n;
    var t0 := Pair(v, n).slots[h - 1 := Free];
    assert !Stays(h - 1, v, h);
    assert t0[h - 1 := t0[h]][h := Free] == Misplaced(v, n);
    assert Misplaced(v, n)[Next(h, n)].Free?;
    assert Shift(Misplaced(v, n), Stored(), h, Next(h, n), n - 1) == Misplaced(v, n);
  }

  lemma FindOwn(t: seq<Slot<Cached<nat, nat>>>, k: nat)
    requires |t| > 0 && (t[k % |t|] == Own(k) || t[k % |t|].Free?)
    ensures Find(State(t, 0), QuickHit(Numbers(), k, k), k) == k % |t|
  {
  }

  /** For every other hash there is a table of two entries from which the literal erase of one
      makes the other impossible to find, though it is still stored. */
  lemma LiteralLoses(v: nat, n: nat)
    requires n >= MIN_SIZE && SizeOk(n) && !Harmless(v, n)
    ensures var o := Numbers(); var h := v % n;
      && Valid(Pair(v, n), Stored()) && Fresh(o, Pair(v, n).slots)
      && var s' := EraseLiteral(Pair(v, n), QuickHit(o, h - 1, h - 1), h - 1, false).0;
         s'.slots == Misplaced(v, n) && s'.slots[h - 1] == Own(v) && s'.slots[Find(s', QuickHit(o, v, v), v)].Free?
  {
    PairValid(v, n);
    PairFresh(v, n);
    PairErased(v, n);
    MisplacedAt(v, n);
    hide EraseLiteral, Pair, Find, Valid, Fresh, Misplaced;
    FindMisplaced(v, n, State(Misplaced(v, n), 1));
  }

  lemma PairFresh(v: nat, n: nat)
    requires n > 0 && !Harmless(v, n)
    ensures Fresh(Numbers(), Pair(v, n).slots)
  {
  }

  lemma MisplacedAt(v: nat, n: nat)
    requires n > 0 && !Harmless(v, n)
    ensures Misplaced(v, n)[v % n - 1] == Own(v) && Misplaced(v, n)[v % n].Free?
  {
  }

  /** Nothing can be found under the hash value it was stored with, once the slot there is free. */
  lemma FindMisplaced(v: nat, n: nat, s: State<Cached<nat, nat>>)
    requires n > 0 && !Harmless(v, n) && s.slots == Misplaced(v, n)
    ensures s.slots[Find(s, QuickHit(Numbers(), v, v), v)].Free?
  {
    MisplacedAt(v, n);
    hide Misplaced;
    assert Find(s, QuickHit(Numbers(), v, v), v) == v % n;
  }

  lemma PairErased(v: nat, n: nat)
    requires n >= MIN_SIZE && SizeOk(n) && !Harmless(v, n)
    ensures var h := v % n;
      EraseLiteral(Pair(v, n), QuickHit(Numbers(), h - 1, h - 1), h - 1, false).0 == State(Misplaced(v, n), 1)
  {
    hide Shift, Misplaced;
    var h := v % n;
    Small(h - 1, n);
    FindOwn(Pair(v, n).slots, h - 1);
    PairShifts(v, n);
  }

  lemma Small(k: nat, n: nat)
    requires k < n
    ensures k % n == k
  {
  }

  /** A table of `n` slots whose hashes are `v` or below `n`. */
  ghost predicate HashesBelowOr(s: State<Cached<nat, nat>>, n: nat, v: nat) {
    && |s.slots| == n && Valid(s, Stored()) && Fresh(Numbers(), s.slots)
    && forall i :: 0 <= i < n && s.slots[i].Used? ==> s.slots[i].e.hashval < n || s.slots[i].e.hashval == v
  }

  ghost predicate ErasesAgree(s: State<Cached<nat, nat>>, key: nat)
    requires |s.slots| >= MIN_SIZE
  {
    var hit := QuickHit<nat, nat>(Numbers(), key, key);
    EraseLiteral(s, hit, key, false) == Erase(s, Stored(), hit, key, false)
  }

  lemma InBag<E>(t: seq<Slot<E>>, i: nat)
    requires i < |t| && t[i].Used?
    ensures t[i] in Bag(t)
  {
    assert t[i] in multiset(t);
  }

  lemma PairHashes(v: nat, n: nat)
    requires n >= MIN_SIZE && SizeOk(n) && !Harmless(v, n)
    ensures HashesBelowOr(Pair(v, n), n, v)
  {
    PairValid(v, n);
    hide Valid;
  }

  lemma LiteralDiffers(v: nat, n: nat)
    requires n >= MIN_SIZE && SizeOk(n) && !Harmless(v, n)
    ensures HashesBelowOr(Pair(v, n), n, v) && !ErasesAgree(Pair(v, n), v % n - 1)
  {
    hide Erase, EraseLiteral, Shift, Valid, Bag, SizeOk, Find, Pair, Misplaced, HashesBelowOr, Fresh;
    var s, key := Pair(v, n), v % n - 1;
    var hit := QuickHit<nat, nat>(Numbers(), key, key);
    PairHashes(v, n);
    LiteralLoses(v, n);
    EraseMeaning(s, Stored(), hit, key, false);
    var s' := Erase(s, Stored(), hit, key, false).0;
    if s' == EraseLiteral(s, hit, key, false).0 {
      InBag(s'.slots, key);
      FindMeaning(s', Stored(), QuickHit(Numbers(), v, v), v);
    }
  }

  /** In a table of `n` slots whose other hashes are below `n`, a key of hash `v` can be stored
      without the literal erase going wrong exactly when `v` is harmless. */
  lemma LiteralExactly(v: nat, n: nat)
    requires n >= MIN_SIZE && SizeOk(n)
    ensures Harmless(v, n) <==>
            forall s: State<Cached<nat, nat>>, key: nat :: HashesBelowOr(s, n, v) ==> ErasesAgree(s, key)
  {
    if Harmless(v, n) {
      forall s: State<Cached<nat, nat>>, key: nat | HashesBelowOr(s, n, v) ensures ErasesAgree(s, key) {
        LiteralAgrees(s, QuickHit(Numbers(), key, key), key, false);
      }
    } else {
      LiteralDiffers(v, n);
    }
  }
}
