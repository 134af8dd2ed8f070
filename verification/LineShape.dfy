/**
 The shape of the tree of lines: no chunk is ever empty, except for the one leaf of a document without
 lines; what is split has at least half of what it may have; what has become small is a single leaf.
 */
module LineShape {
  import opened LineTree
  import opened LineRuns

  /** No chunk below this one is empty. */
  predicate Dense(c: Chunk)
    decreases c
  {
    c.Branch? ==> DenseAll(c.children)
  }

  predicate DenseAll(cs: seq<Chunk>)
    decreases cs
  {
    forall i :: 0 <= i < |cs| ==> |Flat(cs[i])| > 0 && Dense(cs[i])
  }

  lemma DenseParts(a: seq<Chunk>, b: seq<Chunk>)
    ensures DenseAll(a + b) <==> DenseAll(a) && DenseAll(b)
  {
    hide Dense, Flat;
    if DenseAll(a + b) {
      forall i | 0 <= i < |a| ensures |Flat(a[i])| > 0 && Dense(a[i]) {
        assert (a + b)[i] == a[i];
      }
      forall i | 0 <= i < |b| ensures |Flat(b[i])| > 0 && Dense(b[i]) {
        assert (a + b)[|a| + i] == b[i];
      }
    }
  }

  lemma DenseOne(c: Chunk)
    ensures DenseAll([c]) <==> |Flat(c)| > 0 && Dense(c)
  {
    assert [c][0] == c;
  }

  /** A branch of chunks that are not empty is not empty. */
  lemma DenseBranch(b: Chunk)
    requires b.Branch? && DenseAll(b.children) && b.children != []
    ensures |Flat(b)| > 0 && Dense(b)
  {
    assert |Flat(b.children[0])| > 0;
  }

  // Splitting

  /** Leaves of 25 to 50 lines. */
  predicate HalfFullLeaves(cs: seq<Chunk>) {
    forall i :: 0 <= i < |cs| ==> cs[i].Leaf? && 25 <= |cs[i].lines| <= 50
  }

  /** Branches of 5 to 10 children. */
  predicate HalfFullBranches(cs: seq<Chunk>) {
    forall i :: 0 <= i < |cs| ==> cs[i].Branch? && 5 <= |cs[i].children| <= 10
  }

  lemma {:induction false} SplitLeafFills(l: Chunk, next: nat)
    requires l.Leaf? && |l.lines| > 25
    ensures var cs := SplitLeaf(l, next).0; HalfFullLeaves(cs) && cs[0].id == l.id && (|l.lines| <= 50 <==> |cs| == 1)
    decreases |l.lines|
  {
    hide HeightOf;
    var n := |l.lines|;
    if n > MAX_LINES {
      var leaf := Leaf(next, l.lines[n - SPILL_LINES..], HeightOf(l.lines[n - SPILL_LINES..]));
      SplitLeafFills(l.(lines := l.lines[..n - SPILL_LINES], height := l.height - leaf.height), next + 1);
    }
  }

  lemma {:induction false} SplitBranchFills(b: Chunk, next: nat)
    requires b.Branch? && |b.children| > 5
    ensures var cs := SplitBranch(b, next).0; HalfFullBranches(cs) && cs[0].id == b.id && (|b.children| <= 10 <==> |cs| == 1)
    decreases |b.children|
  {
    hide SumSizes, SumHeights;
    var n := |b.children|;
    if n > MAX_CHILDREN {
      var spilled := b.children[n - SPILL_CHILDREN..];
      var sibling := Branch(next, spilled, SumSizes(spilled), SumHeights(spilled));
      SplitBranchFills(b.(children := b.children[..n - SPILL_CHILDREN], size := b.size - sibling.size, height := b.height - sibling.height), next + 1);
    }
  }

  lemma {:induction false} SpillRootFills(r: Chunk, next: nat)
    requires r.Branch? && |r.children| > 10
    ensures var r' := SpillRoot(r, next).0; HalfFullBranches(r'.children) && |r'.children| > 1
    decreases |r.children|
  {
    hide SumSizes, SumHeights, SplitBranch;
    var n := |r.children|;
    var keep, spilled := r.children[..n - SPILL_CHILDREN], r.children[n - SPILL_CHILDREN..];
    var sibling := Branch(next, spilled, SumSizes(spilled), SumHeights(spilled));
    var copy := Branch(next + 1, keep, SumSizes(keep), SumHeights(keep));
    SplitBranchFills(copy, next + 2);
    var (cs, next') := SplitBranch(copy, next + 2);
    if |cs| + 1 > MAX_CHILDREN {
      SpillRootFills(r.(children := cs + [sibling]), next');
    }
  }

  lemma SplitLeafDense(l: Chunk, next: nat)
    requires l.Leaf? && l.lines != []
    ensures DenseAll(SplitLeaf(l, next).0)
  {
    hide SplitLeaf;
    if |l.lines| > 25 {
      SplitLeafFills(l, next);
    } else {
      NotSplit(l, next);
    }
  }

  lemma NotSplit(l: Chunk, next: nat)
    requires l.Leaf? && |l.lines| <= 50
    ensures SplitLeaf(l, next).0 == [l]
  {
  }

  lemma {:induction false} SplitBranchDense(b: Chunk, next: nat)
    requires b.Branch? && DenseAll(b.children) && b.children != []
    ensures DenseAll(SplitBranch(b, next).0)
    decreases |b.children|
  {
    hide Dense, DenseAll, Flat, SumSizes, SumHeights;
    var n := |b.children|;
    if n <= MAX_CHILDREN {
      DenseBranch(b);
      DenseOne(b);
    } else {
      var keep, spilled := b.children[..n - SPILL_CHILDREN], b.children[n - SPILL_CHILDREN..];
      assert keep + spilled == b.children;
      DenseParts(keep, spilled);
      var sibling := Branch(next, spilled, SumSizes(spilled), SumHeights(spilled));
      var b' := b.(children := keep, size := b.size - sibling.size, height := b.height - sibling.height);
      SplitBranchDense(b', next + 1);
      DenseBranch(sibling);
      DenseOne(sibling);
      DenseParts(SplitBranch(b', next + 1).0, [sibling]);
    }
  }

  // Insertion

  lemma {:induction false} InsertDense(c: Chunk, at: nat, added: seq<Line>, next: nat)
    requires Exact(c) && Bounded(c) && Dense(c) && at <= |Flat(c)| && |Flat(c)| + |added| > 0
    ensures DenseAll(Insert(c, at, added, HeightOf(added), next).0)
    decreases c
  {
    hide Exact, Bounded, Flat, FlatAll, SplitBranch, SplitLeaf, Insert, Find, ExactAll, BoundedAll, HeightOf, DenseAll;
    if c.Leaf? {
      LeafOf(c);
      LeafInserts(c, at, added, HeightOf(added), next);
      SplitLeafDense(Leaf(c.id, c.lines[..at] + added + c.lines[at..], c.height + HeightOf(added)), next);
    } else {
      FlatOf(c);
      OfBranch(c);
      FindPlace(c.children, at);
      var (i, at') := Find(c.children, at);
      ChildOf(c, i);
      ChildDense(c.children, i);
      InsertDense(c.children[i], at', added, next);
      var (cs, next') := Insert(c.children[i], at', added, HeightOf(added), next);
      RowDense(c.children, i, cs);
      InsertUnfold(c, at, added, HeightOf(added), next);
      SplitBranchDense(Branch(c.id, c.children[..i] + cs + c.children[i + 1..], c.size + |added|, c.height + HeightOf(added)), next');
    }
  }

  lemma LeafInserts(c: Chunk, at: nat, added: seq<Line>, h: int, next: nat)
    requires c.Leaf? && at <= |c.lines|
    ensures Insert(c, at, added, h, next) == SplitLeaf(Leaf(c.id, c.lines[..at] + added + c.lines[at..], c.height + h), next)
  {
    hide SplitLeaf;
  }

  lemma ChildDense(cs: seq<Chunk>, i: nat)
    requires DenseAll(cs) && i < |cs|
    ensures |Flat(cs[i])| > 0 && Dense(cs[i])
  {
  }

  /** A chunk of a row is replaced by others that are not empty. */
  lemma RowDense(row: seq<Chunk>, i: nat, cs: seq<Chunk>)
    requires DenseAll(row) && i < |row| && DenseAll(cs) && cs != []
    ensures var r := row[..i] + cs + row[i + 1..]; r != [] && DenseAll(r)
  {
    hide DenseAll;
    assert row == row[..i] + ([row[i]] + row[i + 1..]);
    DenseParts(row[..i], [row[i]] + row[i + 1..]);
    DenseParts([row[i]], row[i + 1..]);
    DenseParts(row[..i] + cs, row[i + 1..]);
    DenseParts(row[..i], cs);
  }

  lemma {:induction false} SpillRootDense(r: Chunk, next: nat)
    requires r.Branch? && DenseAll(r.children)
    ensures DenseAll(SpillRoot(r, next).0.children)
    decreases |r.children|
  {
    hide Dense, DenseAll, Flat, SumSizes, SumHeights, SplitBranch;
    var n := |r.children|;
    if n > MAX_CHILDREN {
      var keep, spilled := r.children[..n - SPILL_CHILDREN], r.children[n - SPILL_CHILDREN..];
      assert keep + spilled == r.children;
      DenseParts(keep, spilled);
      var sibling := Branch(next, spilled, SumSizes(spilled), SumHeights(spilled));
      var copy := Branch(next + 1, keep, SumSizes(keep), SumHeights(keep));
      SplitBranchDense(copy, next + 2);
      DenseBranch(sibling);
      DenseOne(sibling);
      var (cs, next') := SplitBranch(copy, next + 2);
      DenseParts(cs, [sibling]);
      SpillRootDense(r.(children := cs + [sibling]), next');
    }
  }

  // Removal

  /** A branch that is left with fewer than 25 lines is left with a single leaf, and no other is. */
  lemma RemoveCollapses(c: Chunk, at: nat, n: nat, next: nat)
    requires c.Branch? && Exact(c) && Bounded(c) && at + n <= |Flat(c)|
    ensures var c' := Remove(c, at, n, next).0;
      && c'.Branch?
      && if |Flat(c')| < 25 then |c'.children| == 1 && c'.children[0].Leaf?
         else c'.children == RemoveFrom(c.children, at, n, next).0
  {
    RemoveCuts(c, at, n, next);
    var c' := Remove(c, at, n, next).0;
    assert c'.size == |Flat(c')| == |Flat(c)| - n && c.size == |Flat(c)|;
    hide Exact, Flat, Bounded, RemoveFrom, FlatAll, HeightOf;
  }

  lemma {:induction false} RemoveDense(c: Chunk, at: nat, n: nat, next: nat)
    requires Exact(c) && Bounded(c) && Dense(c) && at + n <= |Flat(c)|
    ensures var c' := Remove(c, at, n, next).0; n < |Flat(c)| ==> Dense(c')
    decreases c
  {
    if c.Branch? && n < |Flat(c)| {
      RemoveCuts(c, at, n, next);
      hide Exact, ExactAll, Bounded, BoundedAll, Flat, FlatAll, RemoveFrom, HeightOf, Removed, DenseAll;
      FlatOf(c);
      OfBranch(c);
      RemoveFromDense(c.children, at, n, next);
      RemovedFlat(c, at, n, next);
      var c' := Remove(c, at, n, next).0;
      if |c'.children| == 1 && c'.children[0].Leaf? {
        LoneLeaf(c');
      }
    }
  }

  lemma RemovedFlat(c: Chunk, at: nat, n: nat, next: nat)
    requires at + n <= |Flat(c)| && Removed(c, at, n, Remove(c, at, n, next).0)
    ensures |Flat(Remove(c, at, n, next).0)| == |Flat(c)| - n
  {
    hide Remove, Exact, Bounded;
  }

  lemma LoneLeaf(c: Chunk)
    requires c.Branch? && |c.children| == 1 && c.children[0].Leaf? && |Flat(c)| > 0
    ensures DenseAll(c.children)
  {
    assert c.children[1..] == [] && FlatAll(c.children[1..]) == [];
    assert Flat(c) == Flat(c.children[0]) + [];
    assert |Flat(c.children[0])| > 0 && Dense(c.children[0]);
    assert forall i :: 0 <= i < |c.children| ==> c.children[i] == c.children[0];
  }

  lemma {:induction false} RemoveFromDense(cs: seq<Chunk>, at: nat, n: nat, next: nat)
    requires ExactAll(cs) && BoundedAll(cs) && DenseAll(cs) && at + n <= |FlatAll(cs)|
    ensures DenseAll(RemoveFrom(cs, at, n, next).0)
    decreases cs
  {
    hide *;
    if cs == [] {
      RemoveFromNone(at, n, next);
      NoneDense();
    } else {
      var c, sz := cs[0], ChunkSize(cs[0]);
      Uncons(cs);
      UnconsDense(cs);
      RemoveFromUnfold(cs, at, n, next);
      if at < sz {
        var rm: nat := if n < sz - at then n else sz - at;
        RemoveDense(c, at, rm, next);
        RemoveCuts(c, at, rm, next);
        RemovedFlat(c, at, rm, next);
        var (c', next1) := Remove(c, at, rm, next);
        DenseOne(c');
        NoneDense();
        var first := if sz == rm then [] else [c'];
        if n == rm {
          DenseParts(first, cs[1..]);
        } else {
          RemoveFromDense(cs[1..], 0, n - rm, next1);
          DenseParts(first, RemoveFrom(cs[1..], 0, n - rm, next1).0);
        }
      } else {
        RemoveFromDense(cs[1..], at - sz, n, next);
        DenseOne(c);
        DenseParts([c], RemoveFrom(cs[1..], at - sz, n, next).0);
      }
    }
  }

  lemma NoneDense()
    ensures DenseAll([])
  {
  }

  lemma UnconsDense(cs: seq<Chunk>)
    requires cs != [] && DenseAll(cs)
    ensures |Flat(cs[0])| > 0 && Dense(cs[0]) && DenseAll(cs[1..])
  {
  }

  // Runs

  /** No chunk is empty, or the document is, and then it is one empty leaf. */
  predicate Shaped(r: Chunk) {
    r.Branch? && (DenseAll(r.children) || (|r.children| == 1 && r.children[0].Leaf? && r.children[0].lines == []))
  }

  lemma RootInserts(r: Chunk, at: nat, added: seq<Line>, next: nat)
    requires RootOk(r) && Shaped(r) && at <= |Flat(r)| && |Flat(r)| + |added| > 0
    ensures Shaped(InsertRoot(r, at, added, next).0)
  {
    hide Exact, Bounded, Flat, FlatAll, Insert, Find, ExactAll, BoundedAll, HeightOf, Dense, DenseAll, SpillRoot;
    FlatOf(r);
    OfBranch(r);
    FindPlace(r.children, at);
    var (i, at') := Find(r.children, at);
    ChildOf(r, i);
    var (cs, next') := Insert(r.children[i], at', added, HeightOf(added), next);
    if DenseAll(r.children) {
      ChildDense(r.children, i);
      InsertDense(r.children[i], at', added, next);
      RowDense(r.children, i, cs);
    } else {
      LoneLeafDense(r);
      InsertDense(r.children[i], at', added, next);
      assert r.children[..i] + cs + r.children[i + 1..] == cs;
    }
    SpillRootDense(Branch(r.id, r.children[..i] + cs + r.children[i + 1..], r.size + |added|, r.height + HeightOf(added)), next');
  }

  lemma LoneLeafDense(r: Chunk)
    requires r.Branch? && |r.children| == 1 && r.children[0].Leaf?
    ensures Dense(r.children[0]) && Flat(r) == Flat(r.children[0])
  {
    assert r.children[1..] == [] && FlatAll(r.children[1..]) == [];
  }

  lemma RootRemoves(r: Chunk, at: nat, n: nat, next: nat)
    requires RootOk(r) && Bounded(r) && Shaped(r) && at + n <= |Flat(r)|
    ensures Shaped(Remove(r, at, n, next).0)
  {
    hide Exact, Bounded, Flat, FlatAll, HeightOf, DenseAll, Remove, Removed;
    RemoveCollapses(r, at, n, next);
    RemoveCuts(r, at, n, next);
    RemovedFlat(r, at, n, next);
    var r' := Remove(r, at, n, next).0;
    if |Flat(r')| < 25 {
      LoneLeafDense(r');
      LeafOf(r'.children[0]);
      if |Flat(r')| > 0 {
        LoneLeaf(r');
      }
    } else {
      NotLone(r);
      RemoveDense(r, at, n, next);
    }
  }

  lemma NotLone(r: Chunk)
    requires Shaped(r) && |Flat(r)| > 0
    ensures DenseAll(r.children) && Dense(r)
  {
    if |r.children| == 1 && r.children[0].Leaf? {
      LoneLeafDense(r);
      LoneLeaf(r);
    }
  }

  lemma StepShaped(t: Tree, op: Op)
    requires Ok(t) && Shaped(t.root) && Legal(op, |Flat(t.root)|) && (op.Add? ==> op.items != [])
    ensures Shaped(Step(t, op).root)
  {
    hide Shaped, Flat, Bounded, RootOk, InsertRoot, Remove;
    RootHasChildren(t.root);
    match op
    case Add(at, items) => RootInserts(t.root, at, NewLines(items, t.next), t.next + |items|);
    case Del(at, n) => RootRemoves(t.root, at, n, t.next);
  }

  lemma RootHasChildren(r: Chunk)
    requires RootOk(r)
    ensures r.Branch? && r.children != []
  {
    hide Exact, BoundedAll;
  }

  /** Over every run of insertions and removals no chunk is empty, unless the document is. */
  lemma {:induction false} RunShaped(t: Tree, ops: seq<Op>)
    requires Ok(t) && Shaped(t.root) && LegalRun(ops, Items(Flat(t.root)))
    requires forall i :: 0 <= i < |ops| && ops[i].Add? ==> ops[i].items != []
    ensures Shaped(Run(t, ops).root)
    decreases |ops|
  {
    hide Ok, Step, Flat, Items, Shaped;
    if ops != [] {
      StepRefines(t, ops[0]);
      StepShaped(t, ops[0]);
      RunShaped(Step(t, ops[0]), ops[1..]);
    }
  }

  lemma NewShaped()
    ensures Shaped(New().root)
  {
    DenseOne(New().root.children[0]);
  }
}
