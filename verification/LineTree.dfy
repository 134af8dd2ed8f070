/**
 The tree of lines: leaves hold lines, branches hold chunks, and every chunk caches how many lines and
 how much height it holds. Insertion and removal as the chunks do them, with the cached numbers changed
 by the amounts the code changes them by. `id` stands for the identity of an object.
 */
module LineTree {
  datatype Line = Line(id: nat, text: string, height: int)

  datatype Chunk =
    | Leaf(id: nat, lines: seq<Line>, height: int)
    | Branch(id: nat, children: seq<Chunk>, size: int, height: int)

  const MAX_LINES := 50
  const SPILL_LINES := 25
  const MAX_CHILDREN := 10
  const SPILL_CHILDREN := 5
  const COLLAPSE := 25

  // What a chunk holds

  function Flat(c: Chunk): (ls: seq<Line>) {
    match c
    case Leaf(_, lines, _) => lines
    case Branch(_, children, _, _) => FlatAll(children)
  }

  function FlatAll(cs: seq<Chunk>): (ls: seq<Line>) {
    if cs == [] then [] else Flat(cs[0]) + FlatAll(cs[1..])
  }

  function HeightOf(ls: seq<Line>): int {
    if ls == [] then 0 else ls[0].height + HeightOf(ls[1..])
  }

  /** The cached number of lines. */
  function ChunkSize(c: Chunk): int {
    if c.Leaf? then |c.lines| else c.size
  }

  function SumSizes(cs: seq<Chunk>): int {
    if cs == [] then 0 else ChunkSize(cs[0]) + SumSizes(cs[1..])
  }

  function SumHeights(cs: seq<Chunk>): int {
    if cs == [] then 0 else cs[0].height + SumHeights(cs[1..])
  }

  /** Every cached number is right. */
  predicate Exact(c: Chunk) {
    && ChunkSize(c) == |Flat(c)| && c.height == HeightOf(Flat(c))
    && (c.Branch? ==> ExactAll(c.children))
  }

  predicate ExactAll(cs: seq<Chunk>) {
    forall i :: 0 <= i < |cs| ==> Exact(cs[i])
  }

  /** No leaf has more than 50 lines and no branch more than 10 children, or none. */
  predicate Bounded(c: Chunk) {
    match c
    case Leaf(_, lines, _) => |lines| <= MAX_LINES
    case Branch(_, children, _, _) => 1 <= |children| <= MAX_CHILDREN && BoundedAll(children)
  }

  predicate BoundedAll(cs: seq<Chunk>) {
    forall i :: 0 <= i < |cs| ==> Bounded(cs[i])
  }

  lemma {:induction false} FlatSplit(a: seq<Chunk>, b: seq<Chunk>)
    ensures FlatAll(a + b) == FlatAll(a) + FlatAll(b)
  {
    if a == [] {
      assert a + b == b;
    } else {
      assert (a + b)[1..] == a[1..] + b;
      FlatSplit(a[1..], b);
    }
  }

  lemma {:induction false} HeightSplit(a: seq<Line>, b: seq<Line>)
    ensures HeightOf(a + b) == HeightOf(a) + HeightOf(b)
  {
    if a == [] {
      assert a + b == b;
    } else {
      assert (a + b)[1..] == a[1..] + b;
      HeightSplit(a[1..], b);
    }
  }

  /** The sums that a branch is made with are the right ones. */
  lemma {:induction false} SumsExact(cs: seq<Chunk>)
    requires ExactAll(cs)
    ensures SumSizes(cs) == |FlatAll(cs)| && SumHeights(cs) == HeightOf(FlatAll(cs))
  {
    if cs != [] {
      assert Exact(cs[0]);
      SumsExact(cs[1..]);
      HeightSplit(Flat(cs[0]), FlatAll(cs[1..]));
    }
  }

  // The definitions, a step at a time

  lemma OfBranch(b: Chunk)
    requires b.Branch? && Exact(b)
    ensures Flat(b) == FlatAll(b.children) && ExactAll(b.children) && b.size == |Flat(b)| && b.height == HeightOf(Flat(b))
  {
  }

  lemma ToBranch(b: Chunk)
    requires b.Branch? && ExactAll(b.children) && b.size == |FlatAll(b.children)| && b.height == HeightOf(FlatAll(b.children))
    ensures Exact(b) && Flat(b) == FlatAll(b.children)
  {
  }

  lemma FlatOf(b: Chunk)
    requires b.Branch?
    ensures Flat(b) == FlatAll(b.children)
    ensures 1 <= |b.children| <= MAX_CHILDREN && BoundedAll(b.children) <==> Bounded(b)
  {
  }

  lemma Rows(a: seq<Chunk>, b: seq<Chunk>)
    ensures FlatAll(a + b) == FlatAll(a) + FlatAll(b)
    ensures ExactAll(a + b) <==> ExactAll(a) && ExactAll(b)
    ensures BoundedAll(a + b) <==> BoundedAll(a) && BoundedAll(b)
  {
    FlatSplit(a, b);
    hide FlatAll, Exact, Bounded;
    assert forall i :: 0 <= i < |a| ==> (a + b)[i] == a[i];
    assert forall i :: 0 <= i < |b| ==> (a + b)[|a| + i] == b[i];
  }

  lemma Lone(c: Chunk)
    ensures FlatAll([c]) == Flat(c) && (ExactAll([c]) <==> Exact(c)) && (BoundedAll([c]) <==> Bounded(c))
  {
    hide Flat, Exact, Bounded;
    assert [c][1..] == [] && [c][0] == c;
  }

  // Spilling

  /** Move the last 25 lines of a leaf that has more than 50 to a new leaf, and again. */
  function SplitLeaf(l: Chunk, next: nat): (r: (seq<Chunk>, nat))
    requires l.Leaf?
    ensures r.0 != []
    decreases |l.lines|
  {
    var n := |l.lines|;
    if n <= MAX_LINES then ([l], next)
    else
      var spilled := l.lines[n - SPILL_LINES..];
      var leaf := Leaf(next, spilled, HeightOf(spilled));
      var (cs, next') := SplitLeaf(l.(lines := l.lines[..n - SPILL_LINES], height := l.height - leaf.height), next + 1);
      (cs + [leaf], next')
  }

  /** Move the last 5 children of a branch that has more than 10 to a new branch, and again. */
  function SplitBranch(b: Chunk, next: nat): (r: (seq<Chunk>, nat))
    requires b.Branch?
    ensures r.0 != [] && r.0[0].Branch?
    ensures |b.children| <= MAX_CHILDREN ==> |r.0| == 1
    ensures |b.children| > MAX_CHILDREN ==> 5 * |r.0| < |b.children|
    decreases |b.children|
  {
    var n := |b.children|;
    if n <= MAX_CHILDREN then ([b], next)
    else
      var spilled := b.children[n - SPILL_CHILDREN..];
      var sibling := Branch(next, spilled, SumSizes(spilled), SumHeights(spilled));
      var b' := b.(children := b.children[..n - SPILL_CHILDREN], size := b.size - sibling.size, height := b.height - sibling.height);
      var (cs, next') := SplitBranch(b', next + 1);
      (cs + [sibling], next')
  }

  lemma LeafOf(l: Chunk)
    requires l.Leaf?
    ensures Flat(l) == l.lines && (Exact(l) <==> l.height == HeightOf(l.lines)) && (Bounded(l) <==> |l.lines| <= MAX_LINES)
  {
  }

  lemma {:induction false} SplitLeafKeeps(l: Chunk, next: nat)
    requires l.Leaf? && Exact(l)
    ensures var cs := SplitLeaf(l, next).0;
      FlatAll(cs) == l.lines && ExactAll(cs) && BoundedAll(cs)
    decreases |l.lines|
  {
    hide Exact, Flat, FlatAll, ExactAll, BoundedAll, Bounded, HeightOf;
    var n := |l.lines|;
    LeafOf(l);
    if n <= MAX_LINES {
      Lone(l);
    } else {
      var keep, spilled := l.lines[..n - SPILL_LINES], l.lines[n - SPILL_LINES..];
      var leaf := Leaf(next, spilled, HeightOf(spilled));
      assert keep + spilled == l.lines;
      HeightSplit(keep, spilled);
      var l' := l.(lines := keep, height := l.height - leaf.height);
      LeafOf(l');
      LeafOf(leaf);
      SplitLeafKeeps(l', next + 1);
      Append(SplitLeaf(l', next + 1).0, leaf);
    }
  }

  /** A new branch over chunks that are right is right. */
  lemma NewBranch(id: nat, cs: seq<Chunk>)
    requires ExactAll(cs)
    ensures Exact(Branch(id, cs, SumSizes(cs), SumHeights(cs)))
  {
    SumsExact(cs);
  }

  /** Moving the last children of a branch to a new one. */
  lemma SpillOnce(b: Chunk, k: nat, id: nat)
    requires b.Branch? && Exact(b) && BoundedAll(b.children) && k < |b.children| <= k + MAX_CHILDREN
    ensures var keep, spilled := b.children[..k], b.children[k..];
      var sibling := Branch(id, spilled, SumSizes(spilled), SumHeights(spilled));
      var b' := b.(children := keep, size := b.size - sibling.size, height := b.height - sibling.height);
      && Exact(sibling) && Bounded(sibling) && Flat(b) == FlatAll(keep) + Flat(sibling)
      && Exact(b') && Flat(b') == FlatAll(keep) && ExactAll(keep) && BoundedAll(keep)
  {
    hide *;
    var keep, spilled := b.children[..k], b.children[k..];
    var sibling := Branch(id, spilled, SumSizes(spilled), SumHeights(spilled));
    assert keep + spilled == b.children;
    OfBranch(b);
    Rows(keep, spilled);
    HeightSplit(FlatAll(keep), FlatAll(spilled));
    SumsExact(spilled);
    ToBranch(sibling);
    FlatOf(sibling);
    ToBranch(b.(children := keep, size := b.size - sibling.size, height := b.height - sibling.height));
  }

  lemma Append(cs: seq<Chunk>, c: Chunk)
    ensures FlatAll(cs + [c]) == FlatAll(cs) + Flat(c)
    ensures ExactAll(cs) && Exact(c) ==> ExactAll(cs + [c])
    ensures BoundedAll(cs) && Bounded(c) ==> BoundedAll(cs + [c])
  {
    hide *;
    Rows(cs, [c]);
    Lone(c);
  }

  lemma SplitBranchUnfold(b: Chunk, next: nat)
    requires b.Branch?
    ensures var k := |b.children| - SPILL_CHILDREN;
      if |b.children| <= MAX_CHILDREN then SplitBranch(b, next) == ([b], next)
      else
        var spilled := b.children[k..];
        var sibling := Branch(next, spilled, SumSizes(spilled), SumHeights(spilled));
        var b' := b.(children := b.children[..k], size := b.size - sibling.size, height := b.height - sibling.height);
        SplitBranch(b, next) == (SplitBranch(b', next + 1).0 + [sibling], SplitBranch(b', next + 1).1)
  {
    hide SumSizes, SumHeights;
  }

  lemma {:induction false} SplitBranchKeeps(b: Chunk, next: nat)
    requires b.Branch? && Exact(b) && b.children != [] && BoundedAll(b.children)
    ensures var cs := SplitBranch(b, next).0;
      FlatAll(cs) == Flat(b) && ExactAll(cs) && BoundedAll(cs)
    decreases |b.children|
  {
    hide Exact, Flat, FlatAll, ExactAll, BoundedAll, Bounded, SumSizes, SumHeights, SplitBranch;
    var n := |b.children|;
    SplitBranchUnfold(b, next);
    if n <= MAX_CHILDREN {
      Lone(b);
      FlatOf(b);
    } else {
      var keep, spilled := b.children[..n - SPILL_CHILDREN], b.children[n - SPILL_CHILDREN..];
      var sibling := Branch(next, spilled, SumSizes(spilled), SumHeights(spilled));
      var b' := b.(children := keep, size := b.size - sibling.size, height := b.height - sibling.height);
      SpillOnce(b, n - SPILL_CHILDREN, next);
      SplitBranchKeeps(b', next + 1);
      Append(SplitBranch(b', next + 1).0, sibling);
    }
  }

  // Insertion

  /** Which child a line inserted at `at` goes to, and at what place in it. (Past the end, where nothing
      is ever inserted, the last.) */
  function Find(cs: seq<Chunk>, at: nat): (r: (nat, nat))
    requires cs != []
    ensures r.0 < |cs|
  {
    if at <= ChunkSize(cs[0]) || |cs| == 1 then (0, at)
    else
      var (i, at') := Find(cs[1..], at - ChunkSize(cs[0]));
      (i + 1, at')
  }

  /** Insert lines of total height `h` into a chunk below the root. A chunk that grows too large is
      replaced by several. */
  function Insert(c: Chunk, at: nat, added: seq<Line>, h: int, next: nat): (r: (seq<Chunk>, nat))
    ensures r.0 != []
    decreases c
  {
    match c
    case Leaf(id, lines, height) =>
      var k := if at > |lines| then |lines| else at;
      SplitLeaf(Leaf(id, lines[..k] + added + lines[k..], height + h), next)
    case Branch(id, children, size, height) =>
      if children == [] then ([c.(size := size + |added|, height := height + h)], next)
      else
        var (i, at') := Find(children, at);
        var (cs, next') := Insert(children[i], at', added, h, next);
        SplitBranch(Branch(id, children[..i] + cs + children[i + 1..], size + |added|, height + h), next')
  }

  /** A root that has too many children keeps its identity and gets a copy of itself, and what that
      spills, as children. */
  function SpillRoot(r: Chunk, next: nat): (x: (Chunk, nat))
    requires r.Branch?
    ensures x.0.Branch?
    decreases |r.children|
  {
    var n := |r.children|;
    if n <= MAX_CHILDREN then (r, next)
    else
      var keep, spilled := r.children[..n - SPILL_CHILDREN], r.children[n - SPILL_CHILDREN..];
      var sibling := Branch(next, spilled, SumSizes(spilled), SumHeights(spilled));
      var copy := Branch(next + 1, keep, SumSizes(keep), SumHeights(keep));
      var (cs, next') := SplitBranch(copy, next + 2);
      SpillRoot(r.(children := cs + [sibling]), next')
  }

  function InsertRoot(r: Chunk, at: nat, added: seq<Line>, next: nat): (x: (Chunk, nat))
    requires r.Branch? && r.children != []
    ensures x.0.Branch?
  {
    var h := HeightOf(added);
    var (i, at') := Find(r.children, at);
    var (cs, next') := Insert(r.children[i], at', added, h, next);
    SpillRoot(Branch(r.id, r.children[..i] + cs + r.children[i + 1..], r.size + |added|, r.height + h), next')
  }

  function Spliced(ls: seq<Line>, at: nat, added: seq<Line>): seq<Line>
    requires at <= |ls|
  {
    ls[..at] + added + ls[at..]
  }

  lemma {:induction false} FindPlace(cs: seq<Chunk>, at: nat)
    requires cs != [] && ExactAll(cs) && at <= |FlatAll(cs)|
    ensures var (i, at') := Find(cs, at);
      0 <= at' <= |Flat(cs[i])| && at == |FlatAll(cs[..i])| + at' && (i > 0 ==> at' > 0)
  {
    assert ChunkSize(cs[0]) == |Flat(cs[0])| by { assert Exact(cs[0]); }
    assert FlatAll(cs) == Flat(cs[0]) + FlatAll(cs[1..]);
    hide Exact, Flat, FlatAll, ChunkSize;
    if at <= ChunkSize(cs[0]) || |cs| == 1 {
      NoneFlat(cs[..0]);
      if |cs| == 1 { NoneFlat(cs[1..]); }
    } else {
      var (i, at') := Find(cs[1..], at - ChunkSize(cs[0]));
      FindPlace(cs[1..], at - ChunkSize(cs[0]));
      FirstFlat(cs, i);
    }
  }

  lemma NoneFlat(cs: seq<Chunk>)
    requires cs == []
    ensures FlatAll(cs) == []
  {
  }

  lemma FirstFlat(cs: seq<Chunk>, i: nat)
    requires i < |cs|
    ensures FlatAll(cs[..i + 1]) == Flat(cs[0]) + FlatAll(cs[1..][..i])
  {
    assert cs[..i + 1][0] == cs[0] && cs[..i + 1][1..] == cs[1..][..i];
  }

  /** Inserting in one part of a sequence inserts in the whole. */
  lemma SplicedInside(a: seq<Line>, b: seq<Line>, c: seq<Line>, at: nat, added: seq<Line>)
    requires at <= |b|
    ensures Spliced(a + b + c, |a| + at, added) == a + Spliced(b, at, added) + c
  {
    assert (a + b + c)[..|a| + at] == a + b[..at];
    assert (a + b + c)[|a| + at..] == b[at..] + c;
  }

  lemma SplicedHeight(ls: seq<Line>, at: nat, added: seq<Line>)
    requires at <= |ls|
    ensures HeightOf(Spliced(ls, at, added)) == HeightOf(ls) + HeightOf(added)
  {
    hide HeightOf;
    HeightSplit(ls[..at] + added, ls[at..]);
    HeightSplit(ls[..at], added);
    HeightSplit(ls[..at], ls[at..]);
    assert ls[..at] + ls[at..] == ls;
  }

  lemma ReplacedRow(row: seq<Chunk>, i: nat, cs: seq<Chunk>)
    requires i < |row| && ExactAll(row) && BoundedAll(row) && ExactAll(cs) && BoundedAll(cs)
    ensures var x, y := row[..i], row[i + 1..];
      && FlatAll(row) == FlatAll(x) + Flat(row[i]) + FlatAll(y)
      && FlatAll(x + cs + y) == FlatAll(x) + FlatAll(cs) + FlatAll(y) && ExactAll(x + cs + y) && BoundedAll(x + cs + y)
  {
    hide *;
    var x, c, y := row[..i], row[i], row[i + 1..];
    assert row == x + [c] + y;
    Rows(x + [c], y);
    Rows(x, [c]);
    Lone(c);
    Rows(x + cs, y);
    Rows(x, cs);
  }

  /** The children of a branch in one of which something has been inserted. */
  lemma ReplacedChild(b: Chunk, i: nat, at: nat, cs: seq<Chunk>, added: seq<Line>)
    requires b.Branch? && Exact(b) && BoundedAll(b.children) && i < |b.children|
    requires at <= |Flat(b.children[i])| && FlatAll(cs) == Spliced(Flat(b.children[i]), at, added)
    requires ExactAll(cs) && BoundedAll(cs)
    ensures var front := |FlatAll(b.children[..i])|;
      var b' := Branch(b.id, b.children[..i] + cs + b.children[i + 1..], b.size + |added|, b.height + HeightOf(added));
      && front + at <= |Flat(b)| && Flat(b') == Spliced(Flat(b), front + at, added)
      && Exact(b') && BoundedAll(b'.children)
  {
    hide *;
    var x, c, y := b.children[..i], b.children[i], b.children[i + 1..];
    OfBranch(b);
    ReplacedRow(b.children, i, cs);
    SplicedInside(FlatAll(x), Flat(c), FlatAll(y), at, added);
    SplicedHeight(Flat(b), |FlatAll(x)| + at, added);
    SplicedLength(Flat(b), |FlatAll(x)| + at, added);
    ToBranch(Branch(b.id, x + cs + y, b.size + |added|, b.height + HeightOf(added)));
  }

  lemma SplicedLength(ls: seq<Line>, at: nat, added: seq<Line>)
    requires at <= |ls|
    ensures |Spliced(ls, at, added)| == |ls| + |added|
  {
  }

  lemma InsertLeaf(c: Chunk, at: nat, added: seq<Line>, next: nat)
    requires c.Leaf? && Exact(c) && at <= |c.lines|
    ensures var cs := Insert(c, at, added, HeightOf(added), next).0;
      FlatAll(cs) == Spliced(Flat(c), at, added) && ExactAll(cs) && BoundedAll(cs)
  {
    hide HeightOf, SplitLeaf, BoundedAll, FlatAll, ExactAll;
    SplicedHeight(c.lines, at, added);
    SplitLeafKeeps(Leaf(c.id, Spliced(c.lines, at, added), c.height + HeightOf(added)), next);
  }

  lemma InsertBranch(c: Chunk, i: nat, at: nat, cs: seq<Chunk>, added: seq<Line>, next: nat)
    requires c.Branch? && Exact(c) && BoundedAll(c.children) && i < |c.children|
    requires at <= |Flat(c.children[i])| && FlatAll(cs) == Spliced(Flat(c.children[i]), at, added)
    requires ExactAll(cs) && BoundedAll(cs) && cs != []
    ensures var front := |FlatAll(c.children[..i])|;
      var b := Branch(c.id, c.children[..i] + cs + c.children[i + 1..], c.size + |added|, c.height + HeightOf(added));
      var r := SplitBranch(b, next).0;
      front + at <= |Flat(c)| && FlatAll(r) == Spliced(Flat(c), front + at, added) && ExactAll(r) && BoundedAll(r)
  {
    hide *;
    ReplacedChild(c, i, at, cs, added);
    SplitBranchKeeps(Branch(c.id, c.children[..i] + cs + c.children[i + 1..], c.size + |added|, c.height + HeightOf(added)), next);
  }

  lemma InsertUnfold(c: Chunk, at: nat, added: seq<Line>, h: int, next: nat)
    requires c.Branch? && c.children != []
    ensures var (i, at') := Find(c.children, at); var (cs, next') := Insert(c.children[i], at', added, h, next);
      Insert(c, at, added, h, next) == SplitBranch(Branch(c.id, c.children[..i] + cs + c.children[i + 1..], c.size + |added|, c.height + h), next')
  {
    hide Find, SplitBranch;
  }

  /** A child of a branch that is right is right. */
  lemma ChildOf(b: Chunk, i: nat)
    requires b.Branch? && Exact(b) && i < |b.children| && BoundedAll(b.children)
    ensures Exact(b.children[i]) && Bounded(b.children[i])
  {
  }

  /** Insertion below the root puts the lines where they belong, and every chunk it leaves has right
      numbers and is not too large. */
  lemma {:induction false} InsertSplices(c: Chunk, at: nat, added: seq<Line>, next: nat)
    requires Exact(c) && Bounded(c) && at <= |Flat(c)|
    ensures var cs := Insert(c, at, added, HeightOf(added), next).0;
      cs != [] && FlatAll(cs) == Spliced(Flat(c), at, added) && ExactAll(cs) && BoundedAll(cs)
    decreases c
  {
    hide Exact, Bounded, Flat, FlatAll, SplitBranch, Insert, Find, ExactAll, BoundedAll, HeightOf, Spliced;
    if c.Leaf? {
      LeafOf(c);
      InsertLeaf(c, at, added, next);
    } else {
      FlatOf(c);
      OfBranch(c);
      FindPlace(c.children, at);
      var (i, at') := Find(c.children, at);
      ChildOf(c, i);
      InsertSplices(c.children[i], at', added, next);
      var (cs, next') := Insert(c.children[i], at', added, HeightOf(added), next);
      InsertBranch(c, i, at', cs, added, next');
      InsertUnfold(c, at, added, HeightOf(added), next);
    }
  }

  /** The root, which may for a while have too many children. */
  ghost predicate RootOk(r: Chunk) {
    r.Branch? && Exact(r) && r.children != [] && BoundedAll(r.children)
  }

  lemma {:induction false} SpillRootKeeps(r: Chunk, next: nat)
    requires RootOk(r)
    ensures var r' := SpillRoot(r, next).0;
      r'.id == r.id && Flat(r') == Flat(r) && RootOk(r') && Bounded(r')
    decreases |r.children|
  {
    hide Exact, Flat, FlatAll, ExactAll, BoundedAll, Bounded, SumSizes, SumHeights, SplitBranch, HeightOf;
    var n := |r.children|;
    if n > MAX_CHILDREN {
      var keep, spilled := r.children[..n - SPILL_CHILDREN], r.children[n - SPILL_CHILDREN..];
      var sibling := Branch(next, spilled, SumSizes(spilled), SumHeights(spilled));
      var copy := Branch(next + 1, keep, SumSizes(keep), SumHeights(keep));
      SpillOnce(r, n - SPILL_CHILDREN, next);
      NewBranch(next + 1, keep);
      SplitBranchKeeps(copy, next + 2);
      FlatOf(copy);
      var (cs, next') := SplitBranch(copy, next + 2);
      Append(cs, sibling);
      SpillRootStep(r, cs + [sibling]);
      SpillRootKeeps(r.(children := cs + [sibling]), next');
    } else {
      FlatOf(r);
    }
  }

  lemma SpillRootStep(r: Chunk, cs: seq<Chunk>)
    requires r.Branch? && Exact(r) && FlatAll(cs) == Flat(r) && ExactAll(cs)
    ensures Flat(r.(children := cs)) == Flat(r) && Exact(r.(children := cs))
  {
    hide *;
    OfBranch(r);
    ToBranch(r.(children := cs));
  }

  /** The root before it is split. */
  lemma InsertBelow(r: Chunk, at: nat, added: seq<Line>, next: nat) returns (r1: Chunk, next1: nat)
    requires RootOk(r) && at <= |Flat(r)|
    ensures RootOk(r1) && r1.id == r.id && Flat(r1) == Spliced(Flat(r), at, added)
    ensures InsertRoot(r, at, added, next) == SpillRoot(r1, next1)
  {
    hide Find, Insert, FlatAll, Flat, Exact, ExactAll, Bounded, SpillRoot, Spliced, HeightOf;
    FlatOf(r);
    OfBranch(r);
    FindPlace(r.children, at);
    var (i, at') := Find(r.children, at);
    ChildOf(r, i);
    InsertSplices(r.children[i], at', added, next);
    var (cs, next') := Insert(r.children[i], at', added, HeightOf(added), next);
    ReplacedChild(r, i, at', cs, added);
    r1, next1 := Branch(r.id, r.children[..i] + cs + r.children[i + 1..], r.size + |added|, r.height + HeightOf(added)), next';
  }

  /** Inserting in the document. */
  lemma InsertRootSplices(r: Chunk, at: nat, added: seq<Line>, next: nat)
    requires RootOk(r) && at <= |Flat(r)|
    ensures var r' := InsertRoot(r, at, added, next).0;
      r'.id == r.id && Flat(r') == Spliced(Flat(r), at, added) && RootOk(r') && Bounded(r')
  {
    hide *;
    var r1, next1 := InsertBelow(r, at, added, next);
    SpillRootKeeps(r1, next1);
  }

  // Removal

  function Min(a: int, b: int): int { if a < b then a else b }

  /** Remove `n` lines at `at` from a chunk. A branch left with fewer than 25 lines gets them all in a
      single leaf. */
  function Remove(c: Chunk, at: nat, n: nat, next: nat): (r: (Chunk, nat))
    requires c.Leaf? ==> at + n <= |c.lines|
    ensures r.0.Leaf? <==> c.Leaf?
    decreases c
  {
    match c
    case Leaf(id, lines, height) =>
      (Leaf(id, lines[..at] + lines[at + n..], height - HeightOf(lines[at..at + n])), next)
    case Branch(id, children, size, height) =>
      var (cs, less, next') := RemoveFrom(children, at, n, next);
      if size - n < COLLAPSE && (|cs| != 1 || cs[0].Branch?) then
        var lines := FlatAll(cs);
        (Branch(id, [Leaf(next', lines, HeightOf(lines))], size - n, height - less), next' + 1)
      else (Branch(id, cs, size - n, height - less), next')
  }

  /** Remove lines from a row of chunks; also by how much their height goes down. Chunks that lose all
      their lines go. */
  function RemoveFrom(cs: seq<Chunk>, at: nat, n: nat, next: nat): (r: (seq<Chunk>, int, nat))
    ensures |r.0| <= |cs|
    decreases cs
  {
    if cs == [] then ([], 0, next)
    else
      var c, sz := cs[0], ChunkSize(cs[0]);
      if at < sz then
        var rm: nat := Min(n, sz - at);
        var (c', next1) := Remove(c, at, rm, next);
        var (rest, less, next2) := if n == rm then (cs[1..], 0, next1) else RemoveFrom(cs[1..], 0, n - rm, next1);
        ((if sz == rm then [] else [c']) + rest, c.height - c'.height + less, next2)
      else
        var (rest, less, next1) := RemoveFrom(cs[1..], if sz < 0 then at else at - sz, n, next);
        ([c] + rest, less, next1)
  }

  function Cut(ls: seq<Line>, at: nat, n: nat): seq<Line>
    requires at + n <= |ls|
  {
    ls[..at] + ls[at + n..]
  }

  lemma CutHeight(ls: seq<Line>, at: nat, n: nat)
    requires at + n <= |ls|
    ensures HeightOf(Cut(ls, at, n)) == HeightOf(ls) - HeightOf(ls[at..at + n])
  {
    hide HeightOf;
    HeightSplit(ls[..at], ls[at + n..]);
    HeightSplit(ls[..at], ls[at..]);
    HeightSplit(ls[at..at + n], ls[at + n..]);
    assert ls[..at] + ls[at..] == ls && ls[at..at + n] + ls[at + n..] == ls[at..];
  }

  /** What removal is to do to a chunk, and to a row of chunks. */
  ghost predicate Removed(c: Chunk, at: nat, n: nat, c': Chunk)
    requires at + n <= |Flat(c)|
  {
    Flat(c') == Cut(Flat(c), at, n) && Exact(c') && Bounded(c')
  }

  ghost predicate RemovedAll(cs: seq<Chunk>, at: nat, n: nat, cs': seq<Chunk>, less: int)
    requires at + n <= |FlatAll(cs)|
  {
    && FlatAll(cs') == Cut(FlatAll(cs), at, n) && ExactAll(cs') && BoundedAll(cs')
    && less == HeightOf(FlatAll(cs)) - HeightOf(FlatAll(cs'))
  }

  lemma RemoveLeaf(c: Chunk, at: nat, n: nat, next: nat)
    requires c.Leaf? && Exact(c) && Bounded(c) && at + n <= |c.lines|
    ensures Removed(c, at, n, Remove(c, at, n, next).0)
  {
    CutHeight(c.lines, at, n);
  }

  /** A branch some of whose lines have been removed from its children, collapsed if it is small. */
  lemma RemoveBranch(c: Chunk, at: nat, n: nat, cs: seq<Chunk>, less: int, id: nat)
    requires c.Branch? && Exact(c) && Bounded(c) && at + n <= |Flat(c)|
    requires RemovedAll(c.children, at, n, cs, less) && |cs| <= |c.children|
    ensures var lines := FlatAll(cs);
      if c.size - n < COLLAPSE && (|cs| != 1 || cs[0].Branch?)
      then Removed(c, at, n, Branch(c.id, [Leaf(id, lines, HeightOf(lines))], c.size - n, c.height - less))
      else Removed(c, at, n, Branch(c.id, cs, c.size - n, c.height - less))
  {
    assert |FlatAll(cs)| == c.size - n && HeightOf(FlatAll(cs)) == c.height - less;
    if c.size - n < COLLAPSE && (|cs| != 1 || cs[0].Branch?) {
      Collapsed(c.id, id, FlatAll(cs));
    } else {
      assert cs == [] ==> |FlatAll(cs)| == 0;
    }
  }

  /** A branch over a single leaf. */
  lemma Collapsed(id: nat, leafId: nat, lines: seq<Line>)
    requires |lines| <= MAX_LINES
    ensures var b := Branch(id, [Leaf(leafId, lines, HeightOf(lines))], |lines|, HeightOf(lines));
      Flat(b) == lines && Exact(b) && Bounded(b)
  {
    var leaf := Leaf(leafId, lines, HeightOf(lines));
    assert FlatAll([leaf]) == lines;
  }

  lemma Cons(c: Chunk, cs: seq<Chunk>)
    ensures FlatAll([c] + cs) == Flat(c) + FlatAll(cs)
    ensures ExactAll(cs) && Exact(c) ==> ExactAll([c] + cs)
    ensures BoundedAll(cs) && Bounded(c) ==> BoundedAll([c] + cs)
  {
    assert ([c] + cs)[1..] == cs;
  }

  lemma Uncons(cs: seq<Chunk>)
    requires cs != [] && ExactAll(cs) && BoundedAll(cs)
    ensures FlatAll(cs) == Flat(cs[0]) + FlatAll(cs[1..]) && ExactAll(cs[1..]) && BoundedAll(cs[1..])
    ensures Exact(cs[0]) && Bounded(cs[0]) && ChunkSize(cs[0]) == |Flat(cs[0])| && cs[0].height == HeightOf(Flat(cs[0]))
    ensures cs[0].Leaf? ==> ChunkSize(cs[0]) == |cs[0].lines|
  {
  }

  lemma CutFirst(a: seq<Line>, b: seq<Line>, at: nat, n: nat)
    requires at + n <= |a|
    ensures Cut(a + b, at, n) == Cut(a, at, n) + b
  {
  }

  lemma CutSecond(a: seq<Line>, b: seq<Line>, at: nat, n: nat)
    requires at >= |a| && at + n <= |a| + |b|
    ensures Cut(a + b, at, n) == a + Cut(b, at - |a|, n)
  {
  }

  lemma CutBoth(a: seq<Line>, b: seq<Line>, at: nat, n: nat)
    requires at <= |a| <= at + n <= |a| + |b|
    ensures Cut(a + b, at, n) == Cut(a, at, |a| - at) + Cut(b, 0, n - (|a| - at))
  {
  }

  lemma {:induction false} RemoveCuts(c: Chunk, at: nat, n: nat, next: nat)
    requires Exact(c) && Bounded(c) && at + n <= |Flat(c)|
    ensures Removed(c, at, n, Remove(c, at, n, next).0)
    decreases c
  {
    hide RemovedAll, Removed, Exact, ExactAll, Bounded, BoundedAll, Flat, FlatAll, HeightOf;
    if c.Leaf? {
      LeafOf(c);
      RemoveLeaf(c, at, n, next);
    } else {
      FlatOf(c);
      OfBranch(c);
      RemoveFromCuts(c.children, at, n, next);
      var (cs, less, next') := RemoveFrom(c.children, at, n, next);
      RemoveBranch(c, at, n, cs, less, next');
    }
  }

  lemma {:induction false} RemoveFromCuts(cs: seq<Chunk>, at: nat, n: nat, next: nat)
    requires ExactAll(cs) && BoundedAll(cs) && at + n <= |FlatAll(cs)|
    ensures var (cs', less, _) := RemoveFrom(cs, at, n, next); RemovedAll(cs, at, n, cs', less)
    decreases cs
  {
    hide *;
    if cs == [] {
      RemoveFromNone(at, n, next);
    } else {
      var c, sz := cs[0], ChunkSize(cs[0]);
      Uncons(cs);
      RemoveFromUnfold(cs, at, n, next);
      if at < sz {
        var rm: nat := if n < sz - at then n else sz - at;
        RemoveCuts(c, at, rm, next);
        var (c', next1) := Remove(c, at, rm, next);
        if n == rm {
          RemovedHere(cs, at, n, c');
        } else {
          RemoveFromCuts(cs[1..], 0, n - rm, next1);
          var (rest, less, _) := RemoveFrom(cs[1..], 0, n - rm, next1);
          RemovedAcross(cs, at, n, c', rest, less);
        }
      } else {
        RemoveFromCuts(cs[1..], at - sz, n, next);
        var (rest, less, _) := RemoveFrom(cs[1..], at - sz, n, next);
        RemovedLater(cs, at, n, rest, less);
      }
    }
  }

  lemma RemoveFromNone(at: nat, n: nat, next: nat)
    requires at + n <= |FlatAll([])|
    ensures var (cs', less, _) := RemoveFrom([], at, n, next); RemovedAll([], at, n, cs', less)
  {
  }

  lemma RemoveFromUnfold(cs: seq<Chunk>, at: nat, n: nat, next: nat)
    requires cs != [] && ChunkSize(cs[0]) >= 0
    ensures var c, sz := cs[0], ChunkSize(cs[0]);
      if at >= sz then
        var (rest, less, next') := RemoveFrom(cs[1..], at - sz, n, next);
        RemoveFrom(cs, at, n, next) == ([c] + rest, less, next')
      else
        var rm: nat := if n < sz - at then n else sz - at;
        var (c', next1) := Remove(c, at, rm, next);
        var first, low := if sz == rm then [] else [c'], c.height - c'.height;
        if n == rm then RemoveFrom(cs, at, n, next) == (first + cs[1..], low, next1)
        else
          var (rest, less, next2) := RemoveFrom(cs[1..], 0, n - rm, next1);
          RemoveFrom(cs, at, n, next) == (first + rest, low + less, next2)
  {
    hide Remove;
  }

  /** All the lines removed are in the first chunk. */
  lemma RemovedHere(cs: seq<Chunk>, at: nat, n: nat, c': Chunk)
    requires cs != [] && ExactAll(cs) && BoundedAll(cs) && at + n <= |Flat(cs[0])| && Removed(cs[0], at, n, c')
    ensures var cs' := (if |Flat(cs[0])| == n then [] else [c']) + cs[1..];
      at + n <= |FlatAll(cs)| && RemovedAll(cs, at, n, cs', cs[0].height - c'.height)
  {
    var a, b := Flat(cs[0]), FlatAll(cs[1..]);
    var a' := Flat(c');
    Uncons(cs);
    assert Exact(c') ==> c'.height == HeightOf(a');
    hide Exact, Bounded, ExactAll, BoundedAll, FlatAll, Flat, HeightOf;
    Cons(c', cs[1..]);
    CutFirst(a, b, at, n);
    HeightSplit(a, b);
    HeightSplit(a', b);
    if |a| == n {
      assert a' == [] && [] + cs[1..] == cs[1..] && a' + b == b;
    }
  }

  /** Some are at the end of the first chunk and the rest in the next ones. */
  lemma RemovedAcross(cs: seq<Chunk>, at: nat, n: nat, c': Chunk, rest: seq<Chunk>, less: int)
    requires cs != [] && ExactAll(cs) && BoundedAll(cs) && at < |Flat(cs[0])| && at + n <= |FlatAll(cs)|
    requires var rm := |Flat(cs[0])| - at;
      rm < n && Removed(cs[0], at, rm, c') && n - rm <= |FlatAll(cs[1..])| && RemovedAll(cs[1..], 0, n - rm, rest, less)
    ensures var cs' := (if at == 0 then [] else [c']) + rest;
      RemovedAll(cs, at, n, cs', cs[0].height - c'.height + less)
  {
    hide Exact, Bounded, ExactAll, BoundedAll, FlatAll, Flat, HeightOf, Cut, ChunkSize;
    var a, b := Flat(cs[0]), FlatAll(cs[1..]);
    var a', b' := Flat(c'), FlatAll(rest);
    Uncons(cs);
    Heights(c');
    CutLength(a, at, |a| - at);
    Cons(c', rest);
    CutBoth(a, b, at, n);
    HeightSplit(a, b);
    HeightSplit(a', b');
    if at == 0 {
      assert a' == [] && [] + rest == rest && a' + b' == b';
    }
  }

  lemma Heights(c: Chunk)
    requires Exact(c)
    ensures c.height == HeightOf(Flat(c))
  {
  }

  lemma CutLength(ls: seq<Line>, at: nat, n: nat)
    requires at + n <= |ls|
    ensures |Cut(ls, at, n)| == |ls| - n
  {
  }

  /** None are in the first chunk. */
  lemma RemovedLater(cs: seq<Chunk>, at: nat, n: nat, rest: seq<Chunk>, less: int)
    requires cs != [] && ExactAll(cs) && BoundedAll(cs) && |Flat(cs[0])| <= at && at + n <= |FlatAll(cs)|
    requires at - |Flat(cs[0])| + n <= |FlatAll(cs[1..])| && RemovedAll(cs[1..], at - |Flat(cs[0])|, n, rest, less)
    ensures RemovedAll(cs, at, n, [cs[0]] + rest, less)
  {
    var a, b := Flat(cs[0]), FlatAll(cs[1..]);
    Uncons(cs);
    hide Exact, Bounded, ExactAll, BoundedAll, FlatAll, Flat, HeightOf, Cut;
    Cons(cs[0], rest);
    CutSecond(a, b, at, n);
    HeightSplit(a, b);
    HeightSplit(a, FlatAll(rest));
  }
}
