/**
 The indexed binary heap on values: the elements in array order, and the position last recorded for
 each element. Sifting, extraction, key change and deletion as the C code does them.
 */
module HeapSpec {

  /** `id` is what positions are recorded for; `key` is what the order compares. */
  datatype Elem<+K, +D> = Elem(id: D, key: K)

  datatype Heap<+K, !D> = Heap(s: seq<Elem<K, D>>, at: map<D, nat>)

  /** The comparison is a total preorder. */
  ghost predicate TotalOrder<K(!new)>(le: (K, K) -> bool) {
    && (forall a, b :: le(a, b) || le(b, a))
    && (forall a, b, c :: le(a, b) && le(b, c) ==> le(a, c))
  }

  function Left(i: nat): nat { (i + 1) * 2 - 1 }

  function Right(i: nat): nat { (i + 1) * 2 }

  function Parent(i: nat): int { (i + 1) / 2 - 1 }

  // What the operations compute

  /** Exchange two elements and record both new positions. */
  function Exchange<K, D>(h: Heap<K, D>, i: nat, j: nat): (r: Heap<K, D>)
    requires i < |h.s| && j < |h.s|
    ensures |r.s| == |h.s|
  {
    Heap(h.s[i := h.s[j]][j := h.s[i]], h.at[h.s[j].id := i][h.s[i].id := j])
  }

  /** The position, among `i` and its children, of the smallest element. */
  function Smallest<K, D>(le: (K, K) -> bool, s: seq<Elem<K, D>>, i: nat): (r: nat)
    ensures r == i || (r < |s| && (r == Left(i) || r == Right(i)))
    ensures i >= |s| ==> r == i
  {
    var m := if Left(i) < |s| && !le(s[i].key, s[Left(i)].key) then Left(i) else i;
    if Right(i) < |s| && !le(s[m].key, s[Right(i)].key) then Right(i) else m
  }

  function Heapify<K, D>(le: (K, K) -> bool, h: Heap<K, D>, i: nat): (r: Heap<K, D>)
    ensures |r.s| == |h.s|
    decreases |h.s| - i
  {
    var m := Smallest(le, h.s, i);
    if m == i then h else Heapify(le, Exchange(h, i, m), m)
  }

  function SiftUp<K, D>(le: (K, K) -> bool, h: Heap<K, D>, i: nat): (r: Heap<K, D>)
    requires i < |h.s|
    ensures |r.s| == |h.s|
    decreases i
  {
    if i > 0 && !le(h.s[Parent(i)].key, h.s[i].key) then SiftUp(le, Exchange(h, i, Parent(i)), Parent(i)) else h
  }

  function ChangeKey<K, D>(le: (K, K) -> bool, h: Heap<K, D>, i: nat, key: K): (r: Heap<K, D>)
    requires i < |h.s|
    ensures |r.s| == |h.s|
  {
    SiftUp(le, Heapify(le, h.(s := h.s[i := h.s[i].(key := key)]), i), i)
  }

  function Insert<K, D>(le: (K, K) -> bool, h: Heap<K, D>, e: Elem<K, D>, key: K): (r: Heap<K, D>)
    ensures |r.s| == |h.s| + 1
  {
    ChangeKey(le, Heap(h.s + [e], h.at[e.id := |h.s|]), |h.s|, key)
  }

  function ExtractMin<K, D>(le: (K, K) -> bool, h: Heap<K, D>): (r: Heap<K, D>)
    requires |h.s| > 0
    ensures |r.s| == |h.s| - 1
  {
    var n := |h.s| - 1;
    Heapify(le, h.(s := h.s[0 := h.s[n]][..n]), 0)
  }

  /** The heap that deletion sifts down in: the last element in place of the one at `i`. */
  function Vacated<K, D>(h: Heap<K, D>, i: nat): (r: Heap<K, D>)
    requires i < |h.s|
    ensures |r.s| == |h.s| - 1
  {
    var h1 := Exchange(h, i, |h.s| - 1);
    h1.(s := h1.s[..|h.s| - 1])
  }

  function Delete<K, D>(le: (K, K) -> bool, h: Heap<K, D>, i: nat): (r: Heap<K, D>)
    requires i < |h.s|
    ensures |r.s| == |h.s| - 1
  {
    Heapify(le, Vacated(h, i), i)
  }

  // Heap order

  ghost predicate Edge<K, D>(le: (K, K) -> bool, s: seq<Elem<K, D>>, c: nat)
    requires 0 < c < |s|
  {
    le(s[Parent(c)].key, s[c].key)
  }

  /** Heap order, except below `down` and into `up`. */
  ghost predicate OrderedBut<K, D>(le: (K, K) -> bool, s: seq<Elem<K, D>>, down: int, up: int) {
    forall c :: 0 < c < |s| && Parent(c) != down && c != up ==> Edge(le, s, c)
  }

  ghost predicate Ordered<K, D>(le: (K, K) -> bool, s: seq<Elem<K, D>>) {
    OrderedBut(le, s, -1, -1)
  }

  /** The parent of `i` is no larger than the children of `i`. */
  ghost predicate Bridged<K, D>(le: (K, K) -> bool, s: seq<Elem<K, D>>, i: nat) {
    forall c :: 0 < c < |s| && Parent(c) == i && 0 < i ==> le(s[Parent(i)].key, s[c].key)
  }

  lemma SmallestIsLeast<K(!new), D>(le: (K, K) -> bool, s: seq<Elem<K, D>>, i: nat)
    requires TotalOrder(le) && i < |s|
    ensures var m := Smallest(le, s, i);
      && (forall c :: 0 < c < |s| && Parent(c) == i ==> le(s[m].key, s[c].key))
      && le(s[m].key, s[i].key) && (m != i ==> Parent(m) == i && i < m && !le(s[i].key, s[m].key))
  {
    forall c | 0 < c < |s| && Parent(c) == i ensures le(s[Smallest(le, s, i)].key, s[c].key) {
      assert c == Left(i) || c == Right(i);
    }
  }

  lemma {:induction false} HeapifyOrders<K(!new), D>(le: (K, K) -> bool, h: Heap<K, D>, i: nat, up: int)
    requires TotalOrder(le) && i < |h.s| && up <= i
    requires OrderedBut(le, h.s, i, up) && Bridged(le, h.s, i)
    ensures var s' := Heapify(le, h, i).s;
      && OrderedBut(le, s', -1, up)
      && (forall j :: 0 <= j < i ==> s'[j] == h.s[j])
      && (s' == h.s || exists c :: i < c < |s'| && Parent(c) == i && s'[i] == h.s[c])
    decreases |h.s| - i
  {
    SmallestIsLeast(le, h.s, i);
    hide Smallest;
    var m := Smallest(le, h.s, i);
    if m != i {
      var h1 := Exchange(h, i, m);
      SunkOnce(le, h, i, up);
      HeapifyOrders(le, h1, m, up);
      assert Heapify(le, h, i).s[i] == h.s[m];
    }
  }

  /** An element exchanged with its smallest child: only the child's place is still out of order. */
  lemma SunkOnce<K(!new), D>(le: (K, K) -> bool, h: Heap<K, D>, i: nat, up: int)
    requires TotalOrder(le) && i < |h.s| && up <= i && OrderedBut(le, h.s, i, up) && Bridged(le, h.s, i)
    requires Smallest(le, h.s, i) != i
    ensures var m := Smallest(le, h.s, i); var s' := Exchange(h, i, m).s; OrderedBut(le, s', m, up) && Bridged(le, s', m)
  {
    SmallestIsLeast(le, h.s, i);
    var m := Smallest(le, h.s, i);
    hide Smallest;
    var s' := Exchange(h, i, m).s;
    forall c | 0 < c < |s'| && Parent(c) != m && c != up ensures Edge(le, s', c) {
      assert c != i ==> Parent(c) == i || Edge(le, h.s, c);
      if c == i { assert Edge(le, h.s, i); }
    }
    forall c | 0 < c < |s'| && Parent(c) == m ensures le(s'[i].key, s'[c].key) {
      assert Edge(le, h.s, c);
    }
  }

  lemma {:induction false} SiftUpOrders<K(!new), D>(le: (K, K) -> bool, h: Heap<K, D>, i: nat)
    requires TotalOrder(le) && i < |h.s|
    requires OrderedBut(le, h.s, -1, i) && Bridged(le, h.s, i)
    ensures Ordered(le, SiftUp(le, h, i).s)
    decreases i
  {
    var p := Parent(i);
    if i > 0 && !le(h.s[p].key, h.s[i].key) {
      var h1 := Exchange(h, i, p);
      assert OrderedBut(le, h1.s, -1, p) by {
        forall c | 0 < c < |h1.s| && c != p ensures Edge(le, h1.s, c) {
          assert c != i ==> Edge(le, h.s, c);
        }
      }
      assert Bridged(le, h1.s, p) by {
        forall c | 0 < c < |h1.s| && Parent(c) == p && 0 < p ensures le(h1.s[Parent(p)].key, h1.s[c].key) {
          assert Edge(le, h.s, p) && (c != i ==> Edge(le, h.s, c));
        }
      }
      SiftUpOrders(le, h1, p);
    }
  }

  /** From a heap in order everywhere but around `i`, changing the key at `i` to anything restores
      order. */
  lemma ChangeKeyOrders<K(!new), D>(le: (K, K) -> bool, h: Heap<K, D>, i: nat, key: K)
    requires TotalOrder(le) && i < |h.s| && OrderedBut(le, h.s, i, i) && Bridged(le, h.s, i)
    ensures Ordered(le, ChangeKey(le, h, i, key).s)
  {
    var h1 := h.(s := h.s[i := h.s[i].(key := key)]);
    forall c | 0 < c < |h1.s| && Parent(c) != i && c != i ensures Edge(le, h1.s, c) {
      assert Edge(le, h.s, c);
    }
    HeapifyOrders(le, h1, i, i);
    var s2 := Heapify(le, h1, i).s;
    forall c | 0 < c < |s2| && Parent(c) == i && 0 < i ensures le(s2[Parent(i)].key, s2[c].key) {
      assert Edge(le, s2, c);
    }
    SiftUpOrders(le, Heapify(le, h1, i), i);
  }

  lemma OrderedBridged<K(!new), D>(le: (K, K) -> bool, s: seq<Elem<K, D>>, i: nat)
    requires TotalOrder(le) && i < |s| && Ordered(le, s)
    ensures Bridged(le, s, i) && OrderedBut(le, s, i, i)
  {
    forall c | 0 < c < |s| && Parent(c) == i && 0 < i ensures le(s[Parent(i)].key, s[c].key) {
      assert Edge(le, s, c) && Edge(le, s, i);
    }
  }

  lemma InsertOrders<K(!new), D>(le: (K, K) -> bool, h: Heap<K, D>, e: Elem<K, D>, key: K)
    requires TotalOrder(le) && Ordered(le, h.s)
    ensures Ordered(le, Insert(le, h, e, key).s)
  {
    var s := h.s + [e];
    forall c | 0 < c < |s| && Parent(c) != |h.s| && c != |h.s| ensures Edge(le, s, c) {
      assert Edge(le, h.s, c);
    }
    ChangeKeyOrders(le, Heap(s, h.at[e.id := |h.s|]), |h.s|, key);
  }

  lemma ExtractMinOrders<K(!new), D>(le: (K, K) -> bool, h: Heap<K, D>)
    requires TotalOrder(le) && |h.s| > 0 && Ordered(le, h.s)
    ensures Ordered(le, ExtractMin(le, h).s)
  {
    var n := |h.s| - 1;
    var s := h.s[0 := h.s[n]][..n];
    forall c | 0 < c < |s| && Parent(c) != 0 ensures Edge(le, s, c) {
      assert Edge(le, h.s, c);
    }
    if n > 0 {
      HeapifyOrders(le, h.(s := s), 0, -1);
    }
  }

  /** The root of an ordered heap is a least element. */
  lemma {:induction false} RootIsLeast<K(!new), D>(le: (K, K) -> bool, s: seq<Elem<K, D>>, i: nat)
    requires TotalOrder(le) && Ordered(le, s) && i < |s|
    ensures le(s[0].key, s[i].key)
  {
    if i > 0 {
      assert Edge(le, s, i);
      RootIsLeast(le, s, Parent(i));
    }
  }

  lemma VacatedOrder<K(!new), D>(le: (K, K) -> bool, h: Heap<K, D>, i: nat)
    requires TotalOrder(le) && i < |h.s| && Ordered(le, h.s)
    ensures OrderedBut(le, Vacated(h, i).s, i, i) && Bridged(le, Vacated(h, i).s, i)
  {
    var s := Vacated(h, i).s;
    OrderedBridged(le, h.s, i);
    forall c | 0 < c < |s| && Parent(c) != i && c != i ensures Edge(le, s, c) {
      assert Edge(le, h.s, c);
    }
  }

  lemma DeleteInOrder<K(!new), D>(le: (K, K) -> bool, h: Heap<K, D>, i: nat)
    requires TotalOrder(le) && i < |h.s| - 1 && Ordered(le, h.s)
    requires i == 0 || le(h.s[Parent(i)].key, h.s[|h.s| - 1].key)
    ensures Ordered(le, Delete(le, h, i).s)
  {
    VacatedOrder(le, h, i);
    HeapifyOrders(le, Vacated(h, i), i, i);
    var s' := Delete(le, h, i).s;
    if i > 0 {
      assert Edge(le, s', i);
    }
  }

  lemma DeleteOutOfOrder<K(!new), D>(le: (K, K) -> bool, h: Heap<K, D>, i: nat)
    requires TotalOrder(le) && 0 < i < |h.s| - 1 && Ordered(le, h.s)
    requires !le(h.s[Parent(i)].key, h.s[|h.s| - 1].key)
    ensures !Ordered(le, Delete(le, h, i).s)
  {
    VacatedOrder(le, h, i);
    var s := Vacated(h, i).s;
    SmallestIsLeast(le, s, i);
    assert Smallest(le, s, i) == i;
    assert !Edge(le, s, i);
  }

  lemma DeleteLast<K(!new), D>(le: (K, K) -> bool, h: Heap<K, D>)
    requires 0 < |h.s| && Ordered(le, h.s)
    ensures Ordered(le, Delete(le, h, |h.s| - 1).s)
  {
    var s := Vacated(h, |h.s| - 1).s;
    forall c | 0 < c < |s| ensures Edge(le, s, c) {
      assert Edge(le, h.s, c);
    }
  }

  /** Deletion only sifts down, so it keeps order exactly when the last element, which takes the
      place of the deleted one, is not smaller than its new parent. */
  lemma DeleteOrders<K(!new), D>(le: (K, K) -> bool, h: Heap<K, D>, i: nat)
    requires TotalOrder(le) && i < |h.s| && Ordered(le, h.s)
    ensures Ordered(le, Delete(le, h, i).s)
       <==> i == 0 || i == |h.s| - 1 || le(h.s[Parent(i)].key, h.s[|h.s| - 1].key)
  {
    if i == |h.s| - 1 {
      DeleteLast(le, h);
    } else if i == 0 || le(h.s[Parent(i)].key, h.s[|h.s| - 1].key) {
      DeleteInOrder(le, h, i);
    } else {
      DeleteOutOfOrder(le, h, i);
    }
  }

  function AtMost(a: int, b: int): bool { a <= b }

  function Keyed(keys: seq<int>): seq<Elem<int, nat>> {
    seq(|keys|, i requires 0 <= i < |keys| => Elem(i, keys[i]))
  }

  /** An ordered heap from which a deletion leaves an element above a larger one. */
  lemma DeleteFails()
    ensures var s := Keyed([0, 10, 1, 11, 12, 2]);
      Ordered(AtMost, s) && !Ordered(AtMost, Delete(AtMost, Heap(s, map[]), 3).s)
  {
    var s := Keyed([0, 10, 1, 11, 12, 2]);
    assert Edge(AtMost, s, 1) && Edge(AtMost, s, 2) && Edge(AtMost, s, 3) && Edge(AtMost, s, 4) && Edge(AtMost, s, 5);
    forall c | 0 < c < |s| ensures Edge(AtMost, s, c) {
      assert c == 1 || c == 2 || c == 3 || c == 4 || c == 5;
    }
    DeleteOutOfOrder(AtMost, Heap(s, map[]), 3);
  }

  // Contents

  lemma ExchangeKeeps<K, D>(h: Heap<K, D>, i: nat, j: nat)
    requires i < |h.s| && j < |h.s|
    ensures multiset(Exchange(h, i, j).s) == multiset(h.s)
  {
    var s1 := h.s[i := h.s[j]];
    assert multiset(s1) == multiset(h.s) - multiset{h.s[i]} + multiset{h.s[j]};
    if i != j {
      assert multiset(s1[j := h.s[i]]) == multiset(s1) - multiset{s1[j]} + multiset{h.s[i]};
      assert h.s[i] in multiset(h.s);
    }
  }

  lemma {:induction false} HeapifyKeeps<K, D>(le: (K, K) -> bool, h: Heap<K, D>, i: nat)
    ensures multiset(Heapify(le, h, i).s) == multiset(h.s)
    decreases |h.s| - i
  {
    var m := Smallest(le, h.s, i);
    if m != i {
      ExchangeKeeps(h, i, m);
      HeapifyKeeps(le, Exchange(h, i, m), m);
    }
  }

  lemma {:induction false} SiftUpKeeps<K, D>(le: (K, K) -> bool, h: Heap<K, D>, i: nat)
    requires i < |h.s|
    ensures multiset(SiftUp(le, h, i).s) == multiset(h.s)
    decreases i
  {
    if i > 0 && !le(h.s[Parent(i)].key, h.s[i].key) {
      ExchangeKeeps(h, i, Parent(i));
      SiftUpKeeps(le, Exchange(h, i, Parent(i)), Parent(i));
    }
  }

  /** Changing a key changes that element and no other. */
  lemma ChangeKeyKeeps<K, D>(le: (K, K) -> bool, h: Heap<K, D>, i: nat, key: K)
    requires i < |h.s|
    ensures multiset(ChangeKey(le, h, i, key).s) == multiset(h.s) - multiset{h.s[i]} + multiset{h.s[i].(key := key)}
  {
    var h1 := h.(s := h.s[i := h.s[i].(key := key)]);
    HeapifyKeeps(le, h1, i);
    SiftUpKeeps(le, Heapify(le, h1, i), i);
  }

  lemma InsertAdds<K, D>(le: (K, K) -> bool, h: Heap<K, D>, e: Elem<K, D>, key: K)
    ensures multiset(Insert(le, h, e, key).s) == multiset(h.s) + multiset{e.(key := key)}
  {
    ChangeKeyKeeps(le, Heap(h.s + [e], h.at[e.id := |h.s|]), |h.s|, key);
    assert (h.s + [e])[|h.s|] == e;
  }

  lemma ExtractMinTakes<K, D>(le: (K, K) -> bool, h: Heap<K, D>)
    requires |h.s| > 0
    ensures multiset(h.s) == multiset(ExtractMin(le, h).s) + multiset{h.s[0]}
  {
    hide Heapify;
    LastToFirst(h.s);
    HeapifyKeeps(le, h.(s := h.s[0 := h.s[|h.s| - 1]][..|h.s| - 1]), 0);
  }

  lemma LastToFirst<E>(s: seq<E>)
    requires |s| > 0
    ensures multiset(s) == multiset(s[0 := s[|s| - 1]][..|s| - 1]) + multiset{s[0]}
  {
    var n := |s| - 1;
    if n == 0 {
      assert s == [s[0]];
    } else {
      assert s == [s[0]] + s[1..n] + [s[n]];
      assert s[0 := s[n]][..n] == [s[n]] + s[1..n];
    }
  }

  lemma DeleteTakes<K, D>(le: (K, K) -> bool, h: Heap<K, D>, i: nat)
    requires i < |h.s|
    ensures multiset(h.s) == multiset(Delete(le, h, i).s) + multiset{h.s[i]}
  {
    var n := |h.s| - 1;
    var h1 := Exchange(h, i, n);
    ExchangeKeeps(h, i, n);
    assert h1.s == h1.s[..n] + [h.s[i]];
    HeapifyKeeps(le, h1.(s := h1.s[..n]), i);
  }

  /** All elements, by repeated extraction. */
  function Drain<K, D>(le: (K, K) -> bool, h: Heap<K, D>): (r: seq<Elem<K, D>>)
    decreases |h.s|
  {
    if |h.s| == 0 then [] else [h.s[0]] + Drain(le, ExtractMin(le, h))
  }

  ghost predicate Sorted<K, D>(le: (K, K) -> bool, s: seq<Elem<K, D>>) {
    forall i, j :: 0 <= i < j < |s| ==> le(s[i].key, s[j].key)
  }

  lemma RootBefore<K(!new), D>(le: (K, K) -> bool, s: seq<Elem<K, D>>, r: seq<Elem<K, D>>)
    requires TotalOrder(le) && Ordered(le, s) && |s| > 0 && multiset(r) <= multiset(s)
    ensures forall j :: 0 <= j < |r| ==> le(s[0].key, r[j].key)
  {
    forall j | 0 <= j < |r| ensures le(s[0].key, r[j].key) {
      assert r[j] in multiset(r);
      var k :| 0 <= k < |s| && s[k] == r[j];
      RootIsLeast(le, s, k);
    }
  }

  lemma {:induction false} DrainPermutes<K, D>(le: (K, K) -> bool, h: Heap<K, D>)
    ensures multiset(Drain(le, h)) == multiset(h.s)
    decreases |h.s|
  {
    if |h.s| > 0 {
      ExtractMinTakes(le, h);
      DrainPermutes(le, ExtractMin(le, h));
    }
  }

  /** Repeated extraction sorts. */
  lemma {:induction false} DrainSorts<K(!new), D>(le: (K, K) -> bool, h: Heap<K, D>)
    requires TotalOrder(le) && Ordered(le, h.s)
    ensures Sorted(le, Drain(le, h)) && multiset(Drain(le, h)) == multiset(h.s)
    decreases |h.s|
  {
    DrainPermutes(le, h);
    if |h.s| > 0 {
      var h1 := ExtractMin(le, h);
      ExtractMinOrders(le, h);
      DrainSorts(le, h1);
      ExtractMinTakes(le, h);
      RootBefore(le, h.s, Drain(le, h1));
      SortedCons(le, h.s[0], Drain(le, h1));
    }
  }

  lemma SortedCons<K, D>(le: (K, K) -> bool, x: Elem<K, D>, r: seq<Elem<K, D>>)
    requires Sorted(le, r) && forall j :: 0 <= j < |r| ==> le(x.key, r[j].key)
    ensures Sorted(le, [x] + r)
  {
  }

  // Recorded positions

  ghost predicate Distinct<K, D>(s: seq<Elem<K, D>>) {
    forall i, j :: 0 <= i < j < |s| ==> s[i].id != s[j].id
  }

  /** Every element but the one at `x` has its index recorded as its position. */
  ghost predicate PlacedBut<K, D>(h: Heap<K, D>, x: int) {
    Distinct(h.s) && forall i :: 0 <= i < |h.s| && i != x ==> h.s[i].id in h.at && h.at[h.s[i].id] == i
  }

  ghost predicate Placed<K, D>(h: Heap<K, D>) {
    PlacedBut(h, -1)
  }

  /** Whichever one record is wrong, the others stay right, and an exchange makes it right too. */
  lemma ExchangePlaces<K, D>(h: Heap<K, D>, i: nat, j: nat, x: int)
    requires i < |h.s| && j < |h.s| && PlacedBut(h, x)
    ensures PlacedBut(Exchange(h, i, j), x)
    ensures x == i || x == j ==> Placed(Exchange(h, i, j))
  {
    var h1 := Exchange(h, i, j);
    forall a | 0 <= a < |h1.s| && (a != x || x == i || x == j) ensures h1.s[a].id in h1.at && h1.at[h1.s[a].id] == a {
      if a != i && a != j {
        assert h1.s[a] == h.s[a] && h.s[a].id != h.s[i].id && h.s[a].id != h.s[j].id;
      }
    }
  }

  lemma {:induction false} HeapifyPlaces<K, D>(le: (K, K) -> bool, h: Heap<K, D>, i: nat, x: int)
    requires PlacedBut(h, x)
    ensures PlacedBut(Heapify(le, h, i), x)
    decreases |h.s| - i
  {
    hide PlacedBut, Smallest;
    var m := Smallest(le, h.s, i);
    if m != i {
      ExchangePlaces(h, i, m, x);
      HeapifyPlaces(le, Exchange(h, i, m), m, x);
    }
  }

  /** Sifting an element records it right; left where it is, its record is left as it was. */
  lemma HeapifyRecords<K, D>(le: (K, K) -> bool, h: Heap<K, D>, i: nat)
    requires PlacedBut(h, i)
    ensures if Smallest(le, h.s, i) == i then Heapify(le, h, i) == h else Placed(Heapify(le, h, i))
  {
    hide PlacedBut, Smallest;
    var m := Smallest(le, h.s, i);
    if m != i {
      ExchangePlaces(h, i, m, i);
      HeapifyPlaces(le, Exchange(h, i, m), m, -1);
    }
  }

  lemma {:induction false} SiftUpPlaces<K, D>(le: (K, K) -> bool, h: Heap<K, D>, i: nat, x: int)
    requires i < |h.s| && PlacedBut(h, x)
    ensures PlacedBut(SiftUp(le, h, i), x)
    decreases i
  {
    hide PlacedBut;
    if i > 0 && !le(h.s[Parent(i)].key, h.s[i].key) {
      ExchangePlaces(h, i, Parent(i), x);
      SiftUpPlaces(le, Exchange(h, i, Parent(i)), Parent(i), x);
    }
  }

  lemma RekeyPlaces<K, D>(h: Heap<K, D>, i: nat, key: K, x: int)
    requires i < |h.s| && PlacedBut(h, x)
    ensures PlacedBut(h.(s := h.s[i := h.s[i].(key := key)]), x)
  {
  }

  lemma ChangeKeyPlaces<K, D>(le: (K, K) -> bool, h: Heap<K, D>, i: nat, key: K, x: int)
    requires i < |h.s| && PlacedBut(h, x)
    ensures PlacedBut(ChangeKey(le, h, i, key), x)
  {
    hide PlacedBut, Heapify, SiftUp;
    var h1 := h.(s := h.s[i := h.s[i].(key := key)]);
    RekeyPlaces(h, i, key, x);
    HeapifyPlaces(le, h1, i, x);
    SiftUpPlaces(le, Heapify(le, h1, i), i, x);
  }

  /** The element is not in the heap yet. */
  ghost predicate Fresh<K, D>(h: Heap<K, D>, id: D) {
    forall i :: 0 <= i < |h.s| ==> h.s[i].id != id
  }

  lemma AppendPlaces<K, D>(h: Heap<K, D>, e: Elem<K, D>, x: int)
    requires PlacedBut(h, x) && Fresh(h, e.id)
    ensures PlacedBut(Heap(h.s + [e], h.at[e.id := |h.s|]), x)
  {
  }

  lemma InsertPlaces<K, D>(le: (K, K) -> bool, h: Heap<K, D>, e: Elem<K, D>, key: K, x: int)
    requires PlacedBut(h, x) && Fresh(h, e.id)
    ensures PlacedBut(Insert(le, h, e, key), x)
  {
    hide PlacedBut, ChangeKey;
    AppendPlaces(h, e, x);
    ChangeKeyPlaces(le, Heap(h.s + [e], h.at[e.id := |h.s|]), |h.s|, key, x);
  }

  lemma DropLastPlaces<K, D>(h: Heap<K, D>, x: int)
    requires PlacedBut(h, x) && |h.s| > 0
    ensures PlacedBut(h.(s := h.s[..|h.s| - 1]), x)
  {
  }

  lemma DeletePlaces<K, D>(le: (K, K) -> bool, h: Heap<K, D>, i: nat, x: int)
    requires i < |h.s| && PlacedBut(h, x)
    ensures PlacedBut(Delete(le, h, i), x)
  {
    hide PlacedBut, Heapify;
    ExchangePlaces(h, i, |h.s| - 1, x);
    DropLastPlaces(Exchange(h, i, |h.s| - 1), x);
    HeapifyPlaces(le, Vacated(h, i), i, x);
  }

  /** Extraction moves the last element to the root without recording it. Its record is right
      afterwards exactly when the element then sinks; all other records are right. */
  lemma ExtractMinPlaces<K, D>(le: (K, K) -> bool, h: Heap<K, D>)
    requires |h.s| > 0 && PlacedBut(h, 0)
    ensures PlacedBut(ExtractMin(le, h), 0)
    ensures var n := |h.s| - 1;
      Placed(ExtractMin(le, h)) <==> n == 0 || Smallest(le, h.s[0 := h.s[n]][..n], 0) != 0
  {
    hide Heapify, Smallest;
    var n := |h.s| - 1;
    var h1 := h.(s := h.s[0 := h.s[n]][..n]);
    LastToRoot(h);
    HeapifyPlaces(le, h1, 0, 0);
    HeapifyRecords(le, h1, 0);
  }

  /** The last element in place of the root: its record is wrong, unless it was the root. */
  lemma LastToRoot<K, D>(h: Heap<K, D>)
    requires |h.s| > 0 && PlacedBut(h, 0)
    ensures var n := |h.s| - 1; var h1 := h.(s := h.s[0 := h.s[n]][..n]);
      PlacedBut(h1, 0) && (Placed(h1) <==> n == 0)
  {
    var n := |h.s| - 1;
    var h1 := h.(s := h.s[0 := h.s[n]][..n]);
    forall i, j | 0 <= i < j < n ensures h1.s[i].id != h1.s[j].id {
      assert h.s[j].id != h.s[n].id;
    }
    if n > 0 {
      assert h.at[h.s[n].id] == n && h1.s[0] == h.s[n];
    }
  }

  /** A heap of two: after the extraction of one, the other has a wrong position on record. */
  lemma ExtractMinFails()
    ensures var h := Heap(Keyed([0, 1]), map[0 := 0, 1 := 1]);
      Placed(h) && ExtractMin(AtMost, h).s[0].id == 1 && ExtractMin(AtMost, h).at[1] == 1
  {
    var h := Heap(Keyed([0, 1]), map[0 := 0, 1 := 1]);
    var h1 := h.(s := h.s[0 := h.s[1]][..1]);
    assert Smallest(AtMost, h1.s, 0) == 0;
  }
}
