/**
 Linear probing on a table value: the slot searches, the backward shift that fills the
 hole an erased entry leaves, and the reinsertion of every entry into a fresh table.
 An entry is of any type `E`; `home` gives the slot an entry is first tried in.
 */
module HashSpec {
  import opened Cyclic

  datatype Slot<+E> = Free | Used(e: E)

  ghost predicate InRange<E(!new)>(home: E -> nat, n: nat) {
    forall e: E :: home(e) < n
  }

  /** No free slot other than `hole` lies between the entry of slot `j` and its home. */
  ghost predicate ReachesBut<E>(t: seq<Slot<E>>, home: E -> nat, j: nat, hole: int)
    requires j < |t|
  {
    t[j].Used? ==>
      var h := home(t[j].e);
      forall m :: 0 <= m < |t| && m != hole && Gap(h, m, |t|) < Gap(h, j, |t|) ==> t[m].Used?
  }

  /** The probe invariant: no free slot lies between an entry and its home. */
  ghost predicate Reachable<E>(t: seq<Slot<E>>, home: E -> nat) {
    forall j :: 0 <= j < |t| ==> ReachesBut(t, home, j, -1)
  }

  /** The first slot from `i` on that is free or whose entry satisfies `hit`. */
  function Probe<E>(t: seq<Slot<E>>, hit: E -> bool, i: nat, left: nat): (r: nat)
    requires i < |t|
    ensures r < |t|
    decreases left
  {
    if left == 0 || t[i].Free? || hit(t[i].e) then i else Probe(t, hit, Next(i, |t|), left - 1)
  }

  lemma {:induction false} ProbeStops<E>(t: seq<Slot<E>>, hit: E -> bool, i: nat, left: nat, q: nat)
    requires i < |t| && q < |t| && t[q].Free? && Gap(i, q, |t|) <= left
    ensures var r := Probe(t, hit, i, left);
      && (t[r].Free? || hit(t[r].e))
      && Gap(i, r, |t|) <= Gap(i, q, |t|)
      && forall m :: 0 <= m < |t| && Gap(i, m, |t|) < Gap(i, r, |t|) ==> t[m].Used? && !hit(t[m].e)
    decreases left
  {
    if left == 0 || t[i].Free? || hit(t[i].e) {
    } else {
      ProbeStops(t, hit, Next(i, |t|), left - 1, q);
    }
  }

  /** The three-way comparison of the erase loop: leave the entry of slot `i` where it is. */
  predicate Stays(hole: nat, home: nat, i: nat) {
    hole < home <= i || home <= i < hole || i < hole < home
  }

  lemma StaysMeaning(hole: nat, home: nat, i: nat, n: nat)
    requires hole < n && home < n && i < n && i != hole
    ensures Stays(hole, home, i) <==> After(hole, home, i, n)
  {
  }

  function Shift<E>(t: seq<Slot<E>>, home: E -> nat, hole: nat, i: nat, left: nat): (r: seq<Slot<E>>)
    requires hole < |t| && i < |t|
    ensures |r| == |t|
    decreases left
  {
    if left == 0 || t[i].Free? then t
    else if Stays(hole, home(t[i].e), i) then Shift(t, home, hole, Next(i, |t|), left - 1)
    else Shift(t[hole := t[i]][i := Free], home, i, Next(i, |t|), left - 1)
  }

  /** What the shift loop keeps: with slot `hole` vacated, `hole` is the only free slot an entry
      may have to cross, and no entry strictly between `hole` and `i` has to. */
  ghost predicate Shifting<E>(t: seq<Slot<E>>, home: E -> nat, hole: nat, i: nat)
  {
    && hole < |t| && i < |t| && t[hole].Free?
    && (forall j :: 0 <= j < |t| ==> ReachesBut(t, home, j, hole))
    && (forall j :: 0 <= j < |t| && 0 < Gap(hole, j, |t|) < Gap(hole, i, |t|) ==>
          t[j].Used? && After(hole, home(t[j].e), j, |t|))
  }

  lemma ShiftDone<E(!new)>(t: seq<Slot<E>>, home: E -> nat, hole: nat, i: nat)
    requires Shifting(t, home, hole, i) && InRange(home, |t|) && i != hole && t[i].Free?
    ensures Reachable(t, home)
  {
    forall j | 0 <= j < |t| ensures ReachesBut(t, home, j, -1) {
      if t[j].Used? {
        assert ReachesBut(t, home, j, hole);
        var h := home(t[j].e);
        assert Gap(h, hole, |t|) >= Gap(h, j, |t|);
      }
    }
  }

  lemma ShiftKeeps<E(!new)>(t: seq<Slot<E>>, home: E -> nat, hole: nat, i: nat)
    requires Shifting(t, home, hole, i) && InRange(home, |t|) && i != hole && t[i].Used?
    requires Stays(hole, home(t[i].e), i)
    ensures Shifting(t, home, hole, Next(i, |t|))
  {
    StaysMeaning(hole, home(t[i].e), i, |t|);
  }

  lemma ShiftMoves<E(!new)>(t: seq<Slot<E>>, home: E -> nat, hole: nat, i: nat)
    requires Shifting(t, home, hole, i) && InRange(home, |t|) && i != hole && t[i].Used?
    requires !Stays(hole, home(t[i].e), i)
    ensures Shifting(t[hole := t[i]][i := Free], home, i, Next(i, |t|))
  {
    StaysMeaning(hole, home(t[i].e), i, |t|);
    var t' := t[hole := t[i]][i := Free];
    forall j | 0 <= j < |t| ensures ReachesBut(t', home, j, i) {
      if j == hole {
        assert ReachesBut(t, home, i, hole);
      } else {
        assert ReachesBut(t, home, j, hole);
      }
    }
  }

  /** The scan at `i` has not yet passed the free slot `q`, which is not the hole. */
  predicate Ahead(hole: nat, i: nat, q: nat, left: nat, n: nat) {
    && hole < n && i < n && q < n && q != hole && i != hole
    && Gap(i, q, n) <= left && Gap(hole, i, n) <= Gap(hole, q, n)
  }

  lemma AheadSteps(hole: nat, i: nat, q: nat, left: nat, n: nat)
    requires Ahead(hole, i, q, left, n) && q != i
    ensures left > 0 && Ahead(hole, Next(i, n), q, left - 1, n) && Ahead(i, Next(i, n), q, left - 1, n)
  {
  }

  lemma {:induction false} ShiftReachable<E(!new)>(t: seq<Slot<E>>, home: E -> nat, hole: nat, i: nat, left: nat, q: nat)
    requires Shifting(t, home, hole, i) && InRange(home, |t|)
    requires Ahead(hole, i, q, left, |t|) && t[q].Free?
    ensures Reachable(Shift(t, home, hole, i, left), home)
    decreases left
  {
    hide Shifting, Reachable, Stays, InRange, Gap, Next;
    if t[i].Free? {
      ShiftDone(t, home, hole, i);
    } else {
      AheadSteps(hole, i, q, left, |t|);
      if Stays(hole, home(t[i].e), i) {
        ShiftKeeps(t, home, hole, i);
        ShiftReachable(t, home, hole, Next(i, |t|), left - 1, q);
      } else {
        ShiftMoves(t, home, hole, i);
        ShiftReachable(t[hole := t[i]][i := Free], home, i, Next(i, |t|), left - 1, q);
      }
    }
  }

  lemma MovePermutes<E>(t: seq<Slot<E>>, hole: nat, i: nat)
    requires hole < |t| && i < |t| && i != hole && t[hole].Free?
    ensures SameSlots(t[hole := t[i]][i := Free], t)
  {
    var t1 := t[hole := t[i]];
    assert multiset(t1) == multiset(t) - multiset{t[hole]} + multiset{t[i]};
    assert multiset(t1[i := Free]) == multiset(t1) - multiset{t1[i]} + multiset{Free};
    assert t[hole] in multiset(t);
  }

  /** The shift loses, duplicates and changes nothing. */
  lemma ShiftPermutes<E(!new)>(t: seq<Slot<E>>, home: E -> nat, hole: nat, i: nat, left: nat, q: nat)
    requires Ahead(hole, i, q, left, |t|) && t[q].Free? && t[hole].Free?
    ensures multiset(Shift(t, home, hole, i, left)) == multiset(t)
  {
    hide Shift;
    ShiftSame(t, home, hole, i, left, q);
  }

  ghost predicate SameSlots<E>(a: seq<Slot<E>>, b: seq<Slot<E>>) {
    multiset(a) == multiset(b)
  }

  lemma SameThrough<E>(a: seq<Slot<E>>, b: seq<Slot<E>>, c: seq<Slot<E>>)
    requires SameSlots(a, b) && SameSlots(b, c)
    ensures SameSlots(a, c)
  {
  }

  lemma SameSelf<E>(a: seq<Slot<E>>)
    ensures SameSlots(a, a)
  {
  }

  lemma {:induction false} ShiftSame<E(!new)>(t: seq<Slot<E>>, home: E -> nat, hole: nat, i: nat, left: nat, q: nat)
    requires Ahead(hole, i, q, left, |t|) && t[q].Free? && t[hole].Free?
    ensures SameSlots(Shift(t, home, hole, i, left), t)
    decreases left
  {
    hide Stays, Gap, Next, SameSlots;
    if t[i].Free? {
      SameSelf(t);
    } else {
      AheadSteps(hole, i, q, left, |t|);
      if Stays(hole, home(t[i].e), i) {
        ShiftSame(t, home, hole, Next(i, |t|), left - 1, q);
      } else {
        var t' := t[hole := t[i]][i := Free];
        MovePermutes(t, hole, i);
        ShiftSame(t', home, i, Next(i, |t|), left - 1, q);
        SameThrough(Shift(t', home, i, Next(i, |t|), left - 1), t', t);
      }
    }
  }

  /** `r` is where a search from `i` ends: everything passed on the way is used. */
  ghost predicate AllUsedUpTo<E>(t: seq<Slot<E>>, i: nat, r: nat) {
    forall m :: 0 <= m < |t| && Gap(i, m, |t|) < Gap(i, r, |t|) ==> t[m].Used?
  }

  /** Writing an entry into a slot its own search can end at keeps the probe invariant. */
  lemma WriteKeepsReachable<E(!new)>(t: seq<Slot<E>>, home: E -> nat, e: E, r: nat)
    requires r < |t| && InRange(home, |t|) && Reachable(t, home) && AllUsedUpTo(t, home(e), r)
    ensures Reachable(t[r := Used(e)], home)
  {
    var t' := t[r := Used(e)];
    forall j | 0 <= j < |t| ensures ReachesBut(t', home, j, -1) {
      assert ReachesBut(t, home, j, -1);
    }
  }

  /** A search for `hit` that ends in a free slot proves that no entry satisfies `hit`. */
  lemma SearchComplete<E(!new)>(t: seq<Slot<E>>, home: E -> nat, hit: E -> bool, h: nat, q: nat)
    requires h < |t| && q < |t| && t[q].Free? && Reachable(t, home)
    requires forall e :: hit(e) ==> home(e) == h
    ensures var r := Probe(t, hit, h, |t|);
      && AllUsedUpTo(t, h, r)
      && if t[r].Free? then (forall j :: 0 <= j < |t| && t[j].Used? ==> !hit(t[j].e)) else hit(t[r].e)
  {
    ProbeStops(t, hit, h, |t|, q);
    var r := Probe(t, hit, h, |t|);
    forall j | 0 <= j < |t| && t[j].Used? && t[r].Free? ensures !hit(t[j].e) {
      assert ReachesBut(t, home, j, -1);
    }
  }

  /** The entry is gone, the others are all still there and can all still be found. */
  lemma EraseAt<E(!new)>(t: seq<Slot<E>>, home: E -> nat, p: nat, q: nat)
    requires p < |t| && q < |t| && t[p].Used? && t[q].Free?
    requires Reachable(t, home) && InRange(home, |t|)
    ensures var t' := Shift(t[p := Free], home, p, Next(p, |t|), |t|);
      && Reachable(t', home)
      && multiset(t') == multiset(t) - multiset{t[p]} + multiset{Free}
  {
    var t0 := t[p := Free];
    forall j | 0 <= j < |t| ensures ReachesBut(t0, home, j, p) {
      assert ReachesBut(t, home, j, -1);
    }
    ShiftReachable(t0, home, p, Next(p, |t|), |t|, q);
    ShiftPermutes(t0, home, p, Next(p, |t|), |t|, q);
  }
}
