/**
 The loops of the two hash tables, on an array of slots that they change in place. Both tables run
 the same loops; they differ in what an entry is, where its hash comes from and how it is compared.
 */
module HashLoops {
  import opened Cyclic
  import opened HashSpec
  import opened HashSizes
  import opened HashOps

  /** The probe loop that finding, erasing, updating, inserting and rebuilding all run. The ghost
      free slot `q` is why it ends. */
  method ProbeLoop<E>(t: array<Slot<E>>, hit: E -> bool, start: nat, ghost q: nat) returns (p: nat)
    requires start < t.Length && q < t.Length && t[q].Free?
    ensures p == Probe(t[..], hit, start, t.Length) && p < t.Length
    ensures t[p].Free? || hit(t[p].e)
  {
    p := start;
    ghost var left := t.Length;
    ProbeStops(t[..], hit, start, left, q);
    while t[p].Used? && !hit(t[p].e)
      invariant p < t.Length && Gap(p, q, t.Length) <= left
      invariant Probe(t[..], hit, p, left) == Probe(t[..], hit, start, t.Length)
      decreases Gap(p, q, t.Length)
    {
      p := Next(p, t.Length);
      left := left - 1;
    }
  }

  /** Fill the hole at `p` by moving later entries back; `home` is what the three-way test compares.
      The slot of the hole keeps its old contents until the end. */
  method ShiftLoop<E>(t: array<Slot<E>>, home: E -> nat, p: nat, ghost q: nat)
    requires p < t.Length && q < t.Length && q != p && t[q].Free?
    modifies t
    ensures t[..] == Shift(old(t[..])[p := Free], home, p, Next(p, t.Length), t.Length)
  {
    hide Stays;
    var hole, i := p, Next(p, t.Length);
    ghost var left: nat := t.Length;
    while t[i].Used?
      invariant Ahead(hole, i, q, left, t.Length) && t[q].Free?
      invariant Shift(t[..][hole := Free], home, hole, i, left)
             == Shift(old(t[..])[p := Free], home, p, Next(p, t.Length), t.Length)
      decreases left
    {
      AheadSteps(hole, i, q, left, t.Length);
      if !Stays(hole, home(t[i].e), i) {
        ghost var t0 := t[..][hole := Free];
        t[hole] := t[i];
        assert t[..][i := Free] == t0[hole := t0[i]][i := Free];
        hole := i;
      }
      i := Next(i, t.Length);
      left := left - 1;
    }
    t[hole] := Free;
  }

  /** A new table, of whatever the allocator left in it, with every slot marked free. */
  method Cleared<E>(n: nat) returns (t: array<Slot<E>>)
    ensures fresh(t) && t[..] == Blank(n)
  {
    t := new Slot<E>[n];
    for i := 0 to n
      invariant forall j :: 0 <= j < i ==> t[j] == Free
    {
      t[i] := Free;
    }
  }

  /** Place every entry of `src` in a new table, in slot order. */
  method RefillLoop<E(!new)>(src: array<Slot<E>>, hash: E -> nat, n: nat) returns (t: array<Slot<E>>)
    requires n > 0 && |Bag(src[..])| <= n
    ensures fresh(t) && t[..] == Refill(src[..], src.Length, hash, n)
  {
    t := Cleared(n);
    for i := 0 to src.Length
      invariant t[..] == Refill(src[..], i, hash, n)
    {
      if src[i].Used? {
        ghost var q := RoomFor(src[..], i, hash, n, t[..]);
        var p := ProbeLoop(t, Never, hash(src[i].e) % n, q);
        t[p] := src[i];
      }
    }
  }

  lemma RoomFor<E(!new)>(src: seq<Slot<E>>, i: nat, hash: E -> nat, n: nat, t: seq<Slot<E>>) returns (q: nat)
    requires i < |src| && src[i].Used?
    requires n > 0 && |Bag(src)| <= n && t == Refill(src, i, hash, n)
    ensures q < |t| && t[q].Free?
  {
    RefillKeeps(src, i, hash, n);
    BagPrefix(src, i + 1);
    assert |Bag(src[..i + 1])| == |Bag(src[..i])| + 1;
    q := FreeSlot(t);
  }

  /** Decide by the load whether to rebuild, and into what size. */
  method NewSize(size: nat, used: int) returns (rebuild: bool, newsize: nat)
    requires size >= MIN_SIZE
    ensures newsize == Target(size, used) && rebuild == (newsize != size)
  {
    if used >= size / 1024 * MAX_LOAD + (size % 1024 * MAX_LOAD) / 1024 {
      return true, 2 * size + 3;
    }
    if used >= size / 1024 * MIN_LOAD || size == MIN_SIZE {
      return false, size;
    }
    return true, (size - 3) / 2;
  }
}
