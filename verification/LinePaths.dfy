/**
 Ways down the tree of lines, as the numbers of the children taken, and what the parent links say along
 them. `Heap` finds a chunk by its identity, as following a reference does.
 */
module LinePaths {
  import opened LineTree
  import opened LineLinks
  import opened LineUnlinks

  ghost predicate Leads(c: Chunk, path: seq<nat>)
    decreases path
  {
    path == [] || (c.Branch? && path[0] < |c.children| && Leads(c.children[path[0]], path[1..]))
  }

  ghost function At(c: Chunk, path: seq<nat>): Chunk
    decreases path
  {
    if path == [] || c.Leaf? || path[0] >= |c.children| then c else At(c.children[path[0]], path[1..])
  }

  /** A way down to the leaf that holds line `i`. */
  lemma {:induction false} PathTo(c: Chunk, i: nat) returns (path: seq<nat>, k: nat)
    requires i < |Flat(c)|
    ensures Leads(c, path) && At(c, path).Leaf? && k < |At(c, path).lines| && At(c, path).lines[k] == Flat(c)[i]
    decreases c
  {
    if c.Leaf? {
      path, k := [], i;
    } else {
      var j, i' := ChildOfLine(c.children, i);
      var rest;
      rest, k := PathTo(c.children[j], i');
      path := [j] + rest;
      assert path[1..] == rest;
    }
  }

  lemma {:induction false} ChildOfLine(cs: seq<Chunk>, i: nat) returns (j: nat, i': nat)
    requires i < |FlatAll(cs)|
    ensures j < |cs| && i' < |Flat(cs[j])| && Flat(cs[j])[i'] == FlatAll(cs)[i]
  {
    if i < |Flat(cs[0])| {
      j, i' := 0, i;
    } else {
      j, i' := ChildOfLine(cs[1..], i - |Flat(cs[0])|);
      j := j + 1;
    }
  }

  // What is true on the way

  ghost predicate Good(par: Par, c: Chunk) {
    Exact(c) && Unique(c) && Linked(par, c)
  }

  lemma GoodChild(par: Par, c: Chunk, i: nat)
    requires c.Branch? && i < |c.children| && Good(par, c)
    ensures Good(par, c.children[i]) && Child(par, c.children[i].id, c.id) && Ids(c.children[i]) <= Ids(c) - {c.id}
  {
    OfBranch(c);
    assert Exact(c.children[i]);
    BranchIs(par, c);
    hide Exact, Unique, Linked, Ids, UniqueAll, LinkedAll, IdsAll;
    TakeOut(par, c.children, i, c.id);
  }

  lemma {:induction false} GoodAt(par: Par, c: Chunk, path: seq<nat>)
    requires Leads(c, path) && Good(par, c)
    ensures Good(par, At(c, path)) && Ids(At(c, path)) <= Ids(c) && At(c, path).id in Ids(c)
    decreases path
  {
    if path != [] {
      GoodChild(par, c, path[0]);
      hide Good, Ids;
      GoodAt(par, c.children[path[0]], path[1..]);
    }
  }

  /** The last step of a way. */
  lemma {:induction false} AtLast(c: Chunk, path: seq<nat>)
    requires path != [] && Leads(c, path)
    ensures var front, i := path[..|path| - 1], path[|path| - 1];
      Leads(c, front) && At(c, front).Branch? && i < |At(c, front).children| && At(c, path) == At(c, front).children[i]
    decreases path
  {
    if |path| == 1 {
      assert path[1..] == [];
    } else {
      AtLast(c.children[path[0]], path[1..]);
      assert path[1..][..|path| - 2] == path[..|path| - 1][1..];
    }
  }

  // Following references

  function Heap(c: Chunk): (m: map<nat, Chunk>)
    decreases c
  {
    match c
    case Leaf(id, _, _) => map[id := c]
    case Branch(id, children, _, _) => HeapAll(children)[id := c]
  }

  function HeapAll(cs: seq<Chunk>): (m: map<nat, Chunk>)
    decreases cs
  {
    if cs == [] then map[] else Heap(cs[0]) + HeapAll(cs[1..])
  }

  lemma {:induction false} HeapIds(c: Chunk)
    ensures Heap(c).Keys <= Ids(c)
    decreases c
  {
    if c.Branch? {
      HeapAllIds(c.children);
    }
  }

  lemma {:induction false} HeapAllIds(cs: seq<Chunk>)
    ensures HeapAll(cs).Keys <= IdsAll(cs)
    decreases cs
  {
    if cs != [] {
      HeapIds(cs[0]);
      HeapAllIds(cs[1..]);
    }
  }

  predicate Refers(m: map<nat, Chunk>, c: Chunk) {
    c.id in m && m[c.id] == c
  }

  lemma {:induction false} HeapRow(cs: seq<Chunk>, i: nat, d: Chunk)
    requires i < |cs| && UniqueAll(cs) && Refers(Heap(cs[i]), d)
    ensures Refers(HeapAll(cs), d)
    decreases cs
  {
    HeapIds(cs[0]);
    HeapAllIds(cs[1..]);
    if i > 0 {
      HeapRow(cs[1..], i - 1, d);
    }
  }

  /** In a tree without repeated objects, the identity of a chunk leads to it. */
  lemma {:induction false} HeapAt(c: Chunk, path: seq<nat>)
    requires Leads(c, path) && Unique(c)
    ensures Refers(Heap(c), At(c, path))
    decreases path
  {
    if path != [] {
      UniqueChild(c.children, path[0]);
      HeapAt(c.children[path[0]], path[1..]);
      HeapRow(c.children, path[0], At(c, path));
      HeapAllIds(c.children);
    }
  }

  lemma {:induction false} UniqueChild(cs: seq<Chunk>, i: nat)
    requires i < |cs| && UniqueAll(cs)
    ensures Unique(cs[i])
  {
    if i > 0 {
      UniqueChild(cs[1..], i - 1);
    }
  }

  /** One step up: the parent of a chunk on the way is the chunk before it. */
  lemma StepUp(par: Par, r: Chunk, path: seq<nat>)
    requires Leads(r, path) && Good(par, r) && path != []
    ensures var front, i, c := path[..|path| - 1], path[|path| - 1], At(r, path);
      && Leads(r, front) && At(r, front).Branch? && i < |At(r, front).children| && c == At(r, front).children[i]
      && Child(par, c.id, At(r, front).id) && Refers(Heap(r), At(r, front)) && Good(par, At(r, front))
  {
    hide *;
    AtLast(r, path);
    var front := path[..|path| - 1];
    GoodAt(par, r, front);
    GoodChild(par, At(r, front), path[|path| - 1]);
    GoodIsUnique(par, r);
    HeapAt(r, front);
  }

  lemma GoodIsUnique(par: Par, c: Chunk)
    requires Good(par, c)
    ensures Unique(c)
  {
  }

  /** The leaf at the end of the way to a line is the parent of the line. */
  lemma StepToLeaf(par: Par, r: Chunk, path: seq<nat>, k: nat)
    requires Leads(r, path) && Good(par, r) && At(r, path).Leaf? && k < |At(r, path).lines|
    ensures var leaf := At(r, path);
      Child(par, leaf.lines[k].id, leaf.id) && Refers(Heap(r), leaf) && DistinctLines(leaf.lines) && Good(par, leaf)
  {
    GoodAt(par, r, path);
    HeapAt(r, path);
  }
}
