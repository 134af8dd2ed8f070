/**
 Runs of insertions and removals, from the new document on: the tree stays right, and holds what a plain
 sequence would hold.
 */
module LineRuns {
  import opened LineTree
  import opened LineLinks
  import opened LineUnlinks

  /** A tree, the parent links, and the next identity not in use. */
  datatype Tree = Tree(root: Chunk, par: Par, next: nat)

  /** What a line holds: its text and its height. */
  type Item = (string, int)

  datatype Op =
    | Add(at: nat, items: seq<Item>)
    | Del(at: nat, n: nat)

  ghost predicate Ok(t: Tree) {
    RootOk(t.root) && Bounded(t.root) && TreeOk(t.par, t.root, t.next)
  }

  function Items(ls: seq<Line>): (r: seq<Item>)
    ensures |r| == |ls|
  {
    seq(|ls|, i requires 0 <= i < |ls| => (ls[i].text, ls[i].height))
  }

  function NewLines(items: seq<Item>, next: nat): (ls: seq<Line>)
    ensures Items(ls) == items
  {
    seq(|items|, i requires 0 <= i < |items| => Line(next + i, items[i].0, items[i].1))
  }

  // On the plain sequence

  predicate Legal(op: Op, n: nat) {
    match op
    case Add(at, _) => at <= n
    case Del(at, k) => at + k <= n
  }

  function Plain(op: Op, s: seq<Item>): seq<Item>
    requires Legal(op, |s|)
  {
    match op
    case Add(at, items) => s[..at] + items + s[at..]
    case Del(at, k) => s[..at] + s[at + k..]
  }

  predicate LegalRun(ops: seq<Op>, s: seq<Item>) {
    ops == [] || (Legal(ops[0], |s|) && LegalRun(ops[1..], Plain(ops[0], s)))
  }

  function PlainRun(ops: seq<Op>, s: seq<Item>): seq<Item>
    requires LegalRun(ops, s)
  {
    if ops == [] then s else PlainRun(ops[1..], Plain(ops[0], s))
  }

  // On the tree

  function Step(t: Tree, op: Op): Tree {
    if t.root.Leaf? || t.root.children == [] then t
    else match op
    case Add(at, items) =>
      var added, next := NewLines(items, t.next), t.next + |items|;
      var (r, next') := InsertRoot(t.root, at, added, next);
      Tree(r, InsertRootPar(t.root, at, added, next, t.par), next')
    case Del(at, n) =>
      var (r, next') := Remove(t.root, at, n, t.next);
      Tree(r, RemovePar(t.root, at, n, t.next, t.par), next')
  }

  lemma NewLinesFresh(items: seq<Item>, next: nat, t: Tree)
    requires TreeOk(t.par, t.root, next)
    ensures var ls, next' := NewLines(items, next), next + |items|;
      DistinctLines(ls) && LineIds(ls) !! Ids(t.root) && Below(LineIds(ls), next') && TreeOk(t.par, t.root, next')
  {
    hide Ids, Unique, Linked;
    var ls := NewLines(items, next);
    forall x | x in LineIds(ls) ensures next <= x < next + |items| {
      var i :| 0 <= i < |ls| && ls[i].id == x;
    }
  }

  lemma AddStep(t: Tree, at: nat, items: seq<Item>)
    requires Ok(t) && at <= |Flat(t.root)|
    ensures var t' := Step(t, Add(at, items));
      Ok(t') && t'.root.id == t.root.id && Items(Flat(t'.root)) == Plain(Add(at, items), Items(Flat(t.root)))
  {
    hide Ids, Unique, Linked, Bounded, Exact, BoundedAll, Flat, InsertRoot, InsertRootPar, NewLines, DistinctLines, LineIds;
    var added, next := NewLines(items, t.next), t.next + |items|;
    NewLinesFresh(items, t.next, t);
    InsertRootSplices(t.root, at, added, next);
    InsertRootLinks(t.root, at, added, next, t.par);
    assert Items(Spliced(Flat(t.root), at, added)) == Items(Flat(t.root))[..at] + Items(added) + Items(Flat(t.root))[at..];
  }

  lemma DelStep(t: Tree, at: nat, n: nat)
    requires Ok(t) && at + n <= |Flat(t.root)|
    ensures var t' := Step(t, Del(at, n));
      && Ok(t') && t'.root.id == t.root.id && Items(Flat(t'.root)) == Plain(Del(at, n), Items(Flat(t.root)))
      && Gone(t'.par, Flat(t.root)[at..at + n])
  {
    RemoveCuts(t.root, at, n, t.next);
    hide Ids, Unique, Linked, Bounded, Flat, RemovePar;
    RemoveRootLinks(t.root, at, n, t.next, t.par);
    assert Items(Cut(Flat(t.root), at, n)) == Items(Flat(t.root))[..at] + Items(Flat(t.root))[at + n..];
  }

  lemma StepRefines(t: Tree, op: Op)
    requires Ok(t) && Legal(op, |Flat(t.root)|)
    ensures var t' := Step(t, op); Ok(t') && Items(Flat(t'.root)) == Plain(op, Items(Flat(t.root)))
  {
    hide Ok, Step, Flat, Items;
    match op
    case Add(at, items) => AddStep(t, at, items);
    case Del(at, n) => DelStep(t, at, n);
  }

  function Run(t: Tree, ops: seq<Op>): Tree
    decreases |ops|
  {
    if ops == [] then t else Run(Step(t, ops[0]), ops[1..])
  }

  /** Whatever is inserted and removed: the lines are those of a plain sequence, every cached size and
      height is right, every parent link is right, and no leaf or branch is too large. */
  lemma {:induction false} RunRefines(t: Tree, ops: seq<Op>)
    requires Ok(t) && LegalRun(ops, Items(Flat(t.root)))
    ensures Ok(Run(t, ops)) && Items(Flat(Run(t, ops).root)) == PlainRun(ops, Items(Flat(t.root)))
    decreases |ops|
  {
    hide Ok, Step, Flat, Items;
    if ops != [] {
      StepRefines(t, ops[0]);
      RunRefines(Step(t, ops[0]), ops[1..]);
    }
  }

  /** A new document: one leaf with one empty line. */
  function New(): (t: Tree) {
    Tree(Branch(2, [Leaf(1, [Line(0, "", 1)], 1)], 1, 1), map[0 := 1, 1 := 2], 3)
  }

  lemma NewOk()
    ensures Ok(New()) && Flat(New().root) == [Line(0, "", 1)]
  {
    var line := Line(0, "", 1);
    var leaf := Leaf(1, [line], 1);
    LeafOf(leaf);
    assert HeightOf([line]) == 1;
    Lone(leaf);
    ToBranch(New().root);
    One(New().par, leaf, 2);
    BranchIs(New().par, New().root);
    LeafIs(leaf);
    assert LineIds([line]) == {0} by { assert [line][0].id in LineIds([line]); }
  }
}
