/**
 The parent links of lines and chunks, written where the code writes them, and right after every
 insertion. `par` maps an object to its parent; an object without a parent is not in it.
 */
module LineLinks {
  import opened LineTree

  type Par = map<nat, nat>

  function LineIds(ls: seq<Line>): set<nat> {
    set i | 0 <= i < |ls| :: ls[i].id
  }

  function Ids(c: Chunk): set<nat> {
    match c
    case Leaf(id, lines, _) => {id} + LineIds(lines)
    case Branch(id, children, _, _) => {id} + IdsAll(children)
  }

  function IdsAll(cs: seq<Chunk>): set<nat> {
    if cs == [] then {} else Ids(cs[0]) + IdsAll(cs[1..])
  }

  predicate DistinctLines(ls: seq<Line>) {
    forall i, j :: 0 <= i < j < |ls| ==> ls[i].id != ls[j].id
  }

  /** No two objects of the tree are the same. */
  predicate Unique(c: Chunk) {
    match c
    case Leaf(id, lines, _) => id !in LineIds(lines) && DistinctLines(lines)
    case Branch(id, children, _, _) => id !in IdsAll(children) && UniqueAll(children)
  }

  predicate UniqueAll(cs: seq<Chunk>) {
    cs == [] || (Unique(cs[0]) && UniqueAll(cs[1..]) && Ids(cs[0]) !! IdsAll(cs[1..]))
  }

  predicate Child(par: Par, x: nat, p: nat) {
    x in par && par[x] == p
  }

  /** Every object below a chunk has its parent right. */
  predicate Linked(par: Par, c: Chunk) {
    match c
    case Leaf(id, lines, _) => forall i :: 0 <= i < |lines| ==> Child(par, lines[i].id, id)
    case Branch(id, children, _, _) => LinkedAll(par, children, id)
  }

  /** The chunks of a row have parent `p`, and every object below them has its parent right. */
  predicate LinkedAll(par: Par, cs: seq<Chunk>, p: nat) {
    cs == [] || (Child(par, cs[0].id, p) && Linked(par, cs[0]) && LinkedAll(par, cs[1..], p))
  }

  /** The two agree about the objects below `next` that are not in `w`. */
  ghost predicate AgreeBut(par: Par, par': Par, w: set<nat>, next: nat) {
    forall x: nat :: x !in w && x < next ==> (x in par <==> x in par') && (x in par ==> par'[x] == par[x])
  }

  ghost predicate Below(s: set<nat>, next: nat) {
    forall x :: x in s ==> x < next
  }

  lemma {:induction false} IdsSplit(a: seq<Chunk>, b: seq<Chunk>)
    ensures IdsAll(a + b) == IdsAll(a) + IdsAll(b)
  {
    if a == [] {
      assert a + b == b;
    } else {
      assert (a + b)[1..] == a[1..] + b;
      IdsSplit(a[1..], b);
    }
  }

  lemma {:induction false} UniqueSplit(a: seq<Chunk>, b: seq<Chunk>)
    ensures UniqueAll(a + b) <==> UniqueAll(a) && UniqueAll(b) && IdsAll(a) !! IdsAll(b)
  {
    if a == [] {
      assert a + b == b;
    } else {
      assert (a + b)[1..] == a[1..] + b;
      IdsSplit(a[1..], b);
      UniqueSplit(a[1..], b);
    }
  }

  lemma {:induction false} LinkedSplit(par: Par, a: seq<Chunk>, b: seq<Chunk>, p: nat)
    ensures LinkedAll(par, a + b, p) <==> LinkedAll(par, a, p) && LinkedAll(par, b, p)
  {
    if a == [] {
      assert a + b == b;
    } else {
      assert (a + b)[1..] == a[1..] + b;
      LinkedSplit(par, a[1..], b, p);
    }
  }

  /** Writing elsewhere changes nothing here. */
  lemma {:induction false} LinkedFrame(par: Par, par': Par, c: Chunk, w: set<nat>, next: nat)
    requires Linked(par, c) && AgreeBut(par, par', w, next) && Unique(c) && w !! Ids(c) - {c.id} && Below(Ids(c), next)
    ensures Linked(par', c)
    decreases c
  {
    match c
    case Leaf(id, lines, _) =>
      forall i | 0 <= i < |lines| ensures Child(par', lines[i].id, id) {
        assert Child(par, lines[i].id, id) && lines[i].id in LineIds(lines);
      }
    case Branch(id, children, _, _) =>
      LinkedAllFrame(par, par', children, id, w, next);
  }

  lemma {:induction false} LinkedAllFrame(par: Par, par': Par, cs: seq<Chunk>, p: nat, w: set<nat>, next: nat)
    requires LinkedAll(par, cs, p) && AgreeBut(par, par', w, next) && UniqueAll(cs) && w !! IdsAll(cs) && Below(IdsAll(cs), next)
    ensures LinkedAll(par', cs, p)
    decreases cs
  {
    if cs != [] {
      assert cs[0].id in Ids(cs[0]);
      LinkedFrame(par, par', cs[0], w, next);
      LinkedAllFrame(par, par', cs[1..], p, w, next);
    }
  }

  // The writes

  /** Give each line, or each chunk, the parent `p`. */
  function SetLines(par: Par, ls: seq<Line>, p: nat): Par {
    map x | x in par.Keys + LineIds(ls) :: if x in LineIds(ls) then p else par[x]
  }

  function TopIds(cs: seq<Chunk>): set<nat> {
    set i | 0 <= i < |cs| :: cs[i].id
  }

  function SetChunks(par: Par, cs: seq<Chunk>, p: nat): Par {
    map x | x in par.Keys + TopIds(cs) :: if x in TopIds(cs) then p else par[x]
  }

  function SplitLeafPar(l: Chunk, next: nat, owner: nat, par: Par): Par
    requires l.Leaf?
    decreases |l.lines|
  {
    var n := |l.lines|;
    if n <= MAX_LINES then par
    else
      var spilled := l.lines[n - SPILL_LINES..];
      var l' := l.(lines := l.lines[..n - SPILL_LINES], height := l.height - HeightOf(spilled));
      SplitLeafPar(l', next + 1, owner, SetLines(par, spilled, next)[next := owner])
  }

  function SplitBranchPar(b: Chunk, next: nat, owner: nat, par: Par): Par
    requires b.Branch?
    decreases |b.children|
  {
    var n := |b.children|;
    if n <= MAX_CHILDREN then par
    else
      var spilled := b.children[n - SPILL_CHILDREN..];
      var b' := b.(children := b.children[..n - SPILL_CHILDREN],
                   size := b.size - SumSizes(spilled), height := b.height - SumHeights(spilled));
      SplitBranchPar(b', next + 1, owner, SetChunks(par, spilled, next)[next := owner])
  }

  /** Chunks that have taken the place of something with the objects `ids`: they hold those and new
      ones, and all links are right. */
  ghost predicate Placed(par: Par, cs: seq<Chunk>, owner: nat, ids: set<nat>, next: nat, next': nat) {
    && next <= next' && LinkedAll(par, cs, owner) && UniqueAll(cs)
    && ids <= IdsAll(cs) && Below(IdsAll(cs), next') && forall x :: x in IdsAll(cs) ==> x in ids || next <= x
  }

  lemma LineIdsJoin(a: seq<Line>, b: seq<Line>)
    ensures LineIds(a + b) == LineIds(a) + LineIds(b)
  {
    var s := a + b;
    forall x | x in LineIds(a) ensures x in LineIds(s) {
      var i :| 0 <= i < |a| && a[i].id == x;
      assert s[i].id == x;
    }
    forall x | x in LineIds(b) ensures x in LineIds(s) {
      var i :| 0 <= i < |b| && b[i].id == x;
      assert s[|a| + i].id == x;
    }
  }

  lemma LineIdsSplit(a: seq<Line>, b: seq<Line>)
    ensures LineIds(a + b) == LineIds(a) + LineIds(b)
    ensures DistinctLines(a + b) <==> DistinctLines(a) && DistinctLines(b) && LineIds(a) !! LineIds(b)
  {
    LineIdsJoin(a, b);
    var s := a + b;
    assert forall i :: 0 <= i < |a| ==> s[i] == a[i];
    assert forall i :: 0 <= i < |b| ==> s[|a| + i] == b[i];
    if LineIds(a) !! LineIds(b) {
      assert forall i :: 0 <= i < |a| ==> a[i].id in LineIds(a);
      assert forall i :: 0 <= i < |b| ==> b[i].id in LineIds(b);
    } else {
      var x :| x in LineIds(a) && x in LineIds(b);
      var i :| 0 <= i < |a| && a[i].id == x;
      var j :| 0 <= j < |b| && b[j].id == x;
      assert s[i].id == s[|a| + j].id;
    }
  }

  lemma LeafIs(l: Chunk)
    requires l.Leaf?
    ensures Ids(l) == {l.id} + LineIds(l.lines) && (Unique(l) <==> l.id !in LineIds(l.lines) && DistinctLines(l.lines))
  {
  }

  lemma BranchIs(par: Par, b: Chunk)
    requires b.Branch?
    ensures Ids(b) == {b.id} + IdsAll(b.children) && (Unique(b) <==> b.id !in IdsAll(b.children) && UniqueAll(b.children))
    ensures Linked(par, b) <==> LinkedAll(par, b.children, b.id)
  {
  }

  lemma One(par: Par, c: Chunk, owner: nat)
    ensures IdsAll([c]) == Ids(c) && (UniqueAll([c]) <==> Unique(c))
    ensures LinkedAll(par, [c], owner) <==> Child(par, c.id, owner) && Linked(par, c)
  {
  }

  /** A leaf and the writes of its construction. */
  lemma NewLeaf(par: Par, ls: seq<Line>, id: nat, owner: nat, h: int)
    requires DistinctLines(ls) && Below(LineIds(ls), id)
    ensures var par' := SetLines(par, ls, id)[id := owner]; var leaf := Leaf(id, ls, h);
      Child(par', id, owner) && Linked(par', leaf) && Unique(leaf) && AgreeBut(par, par', LineIds(ls), id)
  {
  }

  lemma NotSplit(c: Chunk, next: nat, owner: nat, par: Par)
    requires Unique(c) && Linked(par, c) && Child(par, c.id, owner) && Below(Ids(c), next)
    ensures Placed(par, [c], owner, Ids(c), next, next) && forall w :: AgreeBut(par, par, w, next)
  {
    One(par, c, owner);
  }

  /** The first new leaf, and what is left of the old one. */
  lemma SpillLines(l: Chunk, k: nat, next: nat, owner: nat, par: Par)
    requires l.Leaf? && Unique(l) && Linked(par, l) && Child(par, l.id, owner) && Below(Ids(l), next) && k <= |l.lines|
    ensures var keep, spilled := l.lines[..k], l.lines[k..];
      var leaf, par1 := Leaf(next, spilled, HeightOf(spilled)), SetLines(par, spilled, next)[next := owner];
      var l' := l.(lines := keep, height := l.height - leaf.height);
      && Child(par1, next, owner) && Linked(par1, leaf) && Unique(leaf) && Below(Ids(leaf), next + 1)
      && Unique(l') && Linked(par1, l') && Child(par1, l.id, owner) && Below(Ids(l'), next) && Below(Ids(l'), next + 1)
      && Ids(l) == Ids(l') + (Ids(leaf) - {next}) && Ids(l') !! Ids(leaf)
      && LineIds(l.lines) == LineIds(spilled) + LineIds(keep) && LineIds(keep) <= Ids(l')
      && AgreeBut(par, par1, LineIds(spilled), next)
  {
    hide Ids, Unique, LineIds, DistinctLines, SetLines, HeightOf, Linked, AgreeBut;
    var keep, spilled := l.lines[..k], l.lines[k..];
    assert l.lines == keep + spilled;
    LineIdsSplit(keep, spilled);
    LeafIs(l);
    LeafIs(Leaf(next, spilled, HeightOf(spilled)));
    var l' := l.(lines := keep, height := l.height - HeightOf(spilled));
    LeafIs(l');
    NewLeaf(par, spilled, next, owner, HeightOf(spilled));
    SplitLeafRest(l, l', par, SetLines(par, spilled, next)[next := owner], spilled, owner, next);
  }

  lemma {:induction false} SplitLeafLinks(l: Chunk, next: nat, owner: nat, par: Par)
    requires l.Leaf? && Unique(l) && Linked(par, l) && Child(par, l.id, owner) && Below(Ids(l), next)
    ensures var (cs, next') := SplitLeaf(l, next); var par' := SplitLeafPar(l, next, owner, par);
      Placed(par', cs, owner, Ids(l), next, next') && AgreeBut(par, par', LineIds(l.lines), next)
    decreases |l.lines|
  {
    hide Linked, Unique, LinkedAll, UniqueAll, IdsAll, Ids, Placed, AgreeBut, LineIds, SetLines, DistinctLines, Below;
    var n := |l.lines|;
    if n <= MAX_LINES {
      NotSplit(l, next, owner, par);
    } else {
      var k := n - SPILL_LINES;
      SpillLines(l, k, next, owner, par);
      var spilled := l.lines[k..];
      var leaf, par1 := Leaf(next, spilled, HeightOf(spilled)), SetLines(par, spilled, next)[next := owner];
      var l' := l.(lines := l.lines[..k], height := l.height - leaf.height);
      SplitLeafLinks(l', next + 1, owner, par1);
      var (cs, next') := SplitLeaf(l', next + 1);
      var par2 := SplitLeafPar(l', next + 1, owner, par1);
      AgreeOn(par, par1, par2, LineIds(spilled), LineIds(l'.lines), next, next + 1);
      AddPlaced(par1, par2, cs, leaf, owner, Ids(l'), LineIds(l'.lines), next, next');
    }
  }

  lemma AgreeOn(par: Par, par1: Par, par2: Par, w1: set<nat>, w2: set<nat>, next: nat, next1: nat)
    requires next <= next1 && AgreeBut(par, par1, w1, next) && AgreeBut(par1, par2, w2, next1)
    ensures AgreeBut(par, par2, w1 + w2, next)
  {
  }

  /** What is left of a leaf is still linked. */
  lemma SplitLeafRest(l: Chunk, l': Chunk, par: Par, par1: Par, spilled: seq<Line>, owner: nat, next: nat)
    requires l.Leaf? && l'.Leaf? && l'.id == l.id && l.lines == l'.lines + spilled
    requires Unique(l) && Linked(par, l) && Child(par, l.id, owner) && Below(Ids(l), next)
    requires AgreeBut(par, par1, LineIds(spilled), next)
    ensures Unique(l') && Linked(par1, l') && Child(par1, l.id, owner) && Below(Ids(l'), next)
    ensures Ids(l) == Ids(l') + LineIds(spilled) && Ids(l') !! LineIds(spilled)
  {
    LineIdsSplit(l'.lines, spilled);
    assert Linked(par, l') by {
      forall i | 0 <= i < |l'.lines| ensures Child(par, l'.lines[i].id, l.id) {
        assert l'.lines[i] == l.lines[i];
      }
    }
    LinkedFrame(par, par1, l', LineIds(spilled), next);
  }

  /** Chunks made later, by writes to `w`, in front of one made before. */
  lemma AddPlaced(par1: Par, par2: Par, cs: seq<Chunk>, c: Chunk, owner: nat, ids: set<nat>, w: set<nat>, next: nat, next': nat)
    requires Placed(par2, cs, owner, ids, next + 1, next') && AgreeBut(par1, par2, w, next + 1)
    requires c.id == next && Child(par1, c.id, owner) && Linked(par1, c) && Unique(c)
    requires Below(ids, next) && Below(Ids(c), next + 1) && ids !! Ids(c) && w <= ids
    ensures Placed(par2, cs + [c], owner, ids + (Ids(c) - {next}), next, next')
  {
    assert c.id in Ids(c);
    LinkedFrame(par1, par2, c, w, next + 1);
    One(par2, c, owner);
    IdsSplit(cs, [c]);
    UniqueSplit(cs, [c]);
    LinkedSplit(par2, cs, [c], owner);
  }

  // Branches

  lemma {:induction false} TopsIn(cs: seq<Chunk>)
    ensures TopIds(cs) <= IdsAll(cs)
  {
    if cs != [] {
      TopsIn(cs[1..]);
      forall x | x in TopIds(cs) ensures x in IdsAll(cs) {
        var i :| 0 <= i < |cs| && cs[i].id == x;
        assert i > 0 ==> cs[i] == cs[1..][i - 1] && x in TopIds(cs[1..]);
      }
    }
  }

  lemma TopsCons(cs: seq<Chunk>)
    requires cs != []
    ensures TopIds(cs) == {cs[0].id} + TopIds(cs[1..])
  {
    forall x | x in TopIds(cs) ensures x in {cs[0].id} + TopIds(cs[1..]) {
      var i :| 0 <= i < |cs| && cs[i].id == x;
      assert i > 0 ==> cs[i] == cs[1..][i - 1];
    }
    forall x | x in TopIds(cs[1..]) ensures x in TopIds(cs) {
      var i :| 0 <= i < |cs| - 1 && cs[1..][i].id == x;
      assert cs[i + 1] == cs[1..][i];
    }
    assert cs[0].id in TopIds(cs);
  }

  /** Chunks given a new parent: what is below them is not touched. */
  lemma {:induction false} Reparented(par: Par, par': Par, cs: seq<Chunk>, p: nat, p': nat, w: set<nat>, next: nat)
    requires LinkedAll(par, cs, p) && UniqueAll(cs) && Below(IdsAll(cs), next) && AgreeBut(par, par', w, next)
    requires w * IdsAll(cs) <= TopIds(cs) && forall x :: x in TopIds(cs) ==> Child(par', x, p')
    ensures LinkedAll(par', cs, p')
    decreases cs
  {
    if cs != [] {
      TopsCons(cs);
      TopsIn(cs[1..]);
      assert w !! Ids(cs[0]) - {cs[0].id};
      LinkedFrame(par, par', cs[0], w, next);
      assert cs[0].id in Ids(cs[0]);
      Reparented(par, par', cs[1..], p, p', w, next);
    }
  }

  /** A branch and the writes of its construction. */
  lemma NewBranchLinks(par: Par, cs: seq<Chunk>, p: nat, id: nat, owner: nat, size: int, h: int)
    requires LinkedAll(par, cs, p) && UniqueAll(cs) && Below(IdsAll(cs), id)
    ensures var par' := SetChunks(par, cs, id)[id := owner]; var b := Branch(id, cs, size, h);
      && Child(par', id, owner) && Linked(par', b) && Unique(b) && Below(Ids(b), id + 1)
      && AgreeBut(par, par', TopIds(cs), id)
  {
    TopsIn(cs);
    Reparented(par, SetChunks(par, cs, id)[id := owner], cs, p, id, TopIds(cs), id);
  }

  lemma SpillChildren(b: Chunk, k: nat, next: nat, owner: nat, par: Par)
    requires b.Branch? && Unique(b) && Linked(par, b) && Child(par, b.id, owner) && Below(Ids(b), next) && k <= |b.children|
    ensures var keep, spilled := b.children[..k], b.children[k..];
      var sibling := Branch(next, spilled, SumSizes(spilled), SumHeights(spilled));
      var par1 := SetChunks(par, spilled, next)[next := owner];
      var b' := b.(children := keep, size := b.size - sibling.size, height := b.height - sibling.height);
      && Child(par1, next, owner) && Linked(par1, sibling) && Unique(sibling) && Below(Ids(sibling), next + 1)
      && Unique(b') && Linked(par1, b') && Child(par1, b.id, owner) && Below(Ids(b'), next) && Below(Ids(b'), next + 1)
      && Ids(b) == Ids(b') + (Ids(sibling) - {next}) && Ids(b') !! Ids(sibling)
      && TopIds(spilled) <= IdsAll(b.children) && IdsAll(keep) <= IdsAll(b.children) && IdsAll(keep) <= Ids(b')
      && AgreeBut(par, par1, TopIds(spilled), next)
  {
    var keep, spilled := b.children[..k], b.children[k..];
    assert b.children == keep + spilled;
    IdsSplit(keep, spilled);
    UniqueSplit(keep, spilled);
    LinkedSplit(par, keep, spilled, b.id);
    NewBranchLinks(par, spilled, b.id, next, owner, SumSizes(spilled), SumHeights(spilled));
    TopsIn(spilled);
    LinkedAllFrame(par, SetChunks(par, spilled, next)[next := owner], keep, b.id, TopIds(spilled), next);
    assert b.id !in TopIds(spilled);
  }

  lemma AgreeMore(par: Par, par': Par, w: set<nat>, w': set<nat>, next: nat)
    requires AgreeBut(par, par', w, next) && w <= w'
    ensures AgreeBut(par, par', w', next)
  {
  }

  lemma {:induction false} SplitBranchLinks(b: Chunk, next: nat, owner: nat, par: Par)
    requires b.Branch? && Unique(b) && Linked(par, b) && Child(par, b.id, owner) && Below(Ids(b), next)
    ensures var (cs, next') := SplitBranch(b, next); var par' := SplitBranchPar(b, next, owner, par);
      Placed(par', cs, owner, Ids(b), next, next') && AgreeBut(par, par', IdsAll(b.children), next)
    decreases |b.children|
  {
    hide Linked, Unique, LinkedAll, UniqueAll, IdsAll, Ids, Placed, AgreeBut, TopIds, SetChunks, Below;
    var n := |b.children|;
    if n <= MAX_CHILDREN {
      NotSplit(b, next, owner, par);
    } else {
      var k := n - SPILL_CHILDREN;
      SpillChildren(b, k, next, owner, par);
      var keep, spilled := b.children[..k], b.children[k..];
      var sibling := Branch(next, spilled, SumSizes(spilled), SumHeights(spilled));
      var par1 := SetChunks(par, spilled, next)[next := owner];
      var b' := b.(children := keep, size := b.size - sibling.size, height := b.height - sibling.height);
      SplitBranchLinks(b', next + 1, owner, par1);
      var (cs, next') := SplitBranch(b', next + 1);
      var par2 := SplitBranchPar(b', next + 1, owner, par1);
      AgreeOn(par, par1, par2, TopIds(spilled), IdsAll(keep), next, next + 1);
      AgreeMore(par, par2, TopIds(spilled) + IdsAll(keep), IdsAll(b.children), next);
      AddPlaced(par1, par2, cs, sibling, owner, Ids(b'), IdsAll(keep), next, next');
    }
  }

  // Insertion

  function InsertPar(c: Chunk, at: nat, added: seq<Line>, h: int, next: nat, owner: nat, par: Par): Par
    decreases c
  {
    match c
    case Leaf(id, lines, height) =>
      var k := if at > |lines| then |lines| else at;
      SplitLeafPar(Leaf(id, lines[..k] + added + lines[k..], height + h), next, owner, SetLines(par, added, id))
    case Branch(id, children, size, height) =>
      if children == [] then par
      else
        var (i, at') := Find(children, at);
        var (cs, next') := Insert(children[i], at', added, h, next);
        var par' := InsertPar(children[i], at', added, h, next, id, par);
        SplitBranchPar(Branch(id, children[..i] + cs + children[i + 1..], size + |added|, height + h), next', owner, par')
  }

  /** A leaf with lines added, before it is split. */
  lemma LeafGrows(c: Chunk, k: nat, added: seq<Line>, h: int, owner: nat, par: Par, next: nat)
    requires c.Leaf? && k <= |c.lines| && Unique(c) && Linked(par, c) && Child(par, c.id, owner) && Below(Ids(c), next)
    requires DistinctLines(added) && LineIds(added) !! Ids(c) && Below(LineIds(added), next)
    ensures var c' := Leaf(c.id, c.lines[..k] + added + c.lines[k..], h); var par' := SetLines(par, added, c.id);
      && Unique(c') && Linked(par', c') && Child(par', c.id, owner) && Below(Ids(c'), next)
      && Ids(c') == Ids(c) + LineIds(added) && LineIds(c'.lines) == LineIds(c.lines) + LineIds(added)
      && AgreeBut(par, par', LineIds(added), next)
  {
    var a, b := c.lines[..k], c.lines[k..];
    assert c.lines == a + b;
    LineIdsSplit(a, b);
    LineIdsSplit(a + added, b);
    LineIdsSplit(a, added);
    var par' := SetLines(par, added, c.id);
    var ls := a + added + b;
    forall i | 0 <= i < |ls| ensures Child(par', ls[i].id, c.id) {
      if i < |a| {
        assert ls[i] == c.lines[i] && Child(par, c.lines[i].id, c.id);
      } else if i < |a| + |added| {
        assert ls[i] == added[i - |a|] && ls[i].id in LineIds(added);
      } else {
        assert ls[i] == c.lines[i - |added|] && Child(par, c.lines[i - |added|].id, c.id);
      }
    }
  }

  /** One child taken out of a row. */
  lemma TakeOut(par: Par, cs: seq<Chunk>, i: nat, p: nat)
    requires i < |cs| && UniqueAll(cs) && LinkedAll(par, cs, p)
    ensures var a, c, b := cs[..i], cs[i], cs[i + 1..];
      && IdsAll(cs) == IdsAll(a) + Ids(c) + IdsAll(b)
      && UniqueAll(a) && Unique(c) && UniqueAll(b) && IdsAll(a) !! Ids(c) && IdsAll(a) !! IdsAll(b) && Ids(c) !! IdsAll(b)
      && LinkedAll(par, a, p) && Child(par, c.id, p) && Linked(par, c) && LinkedAll(par, b, p)
  {
    var a, c, b := cs[..i], cs[i], cs[i + 1..];
    assert cs == a + ([c] + b) && ([c] + b)[1..] == b;
    hide Ids, Unique, Linked;
    IdsSplit(a, [c] + b);
    UniqueSplit(a, [c] + b);
    LinkedSplit(par, a, [c] + b, p);
  }

  /** Chunks put in its place. */
  lemma PutIn(par: Par, a: seq<Chunk>, cs: seq<Chunk>, b: seq<Chunk>, p: nat)
    requires UniqueAll(a) && UniqueAll(cs) && UniqueAll(b)
    requires IdsAll(a) !! IdsAll(cs) && IdsAll(a) !! IdsAll(b) && IdsAll(cs) !! IdsAll(b)
    requires LinkedAll(par, a, p) && LinkedAll(par, cs, p) && LinkedAll(par, b, p)
    ensures var all := a + cs + b;
      UniqueAll(all) && LinkedAll(par, all, p) && IdsAll(all) == IdsAll(a) + IdsAll(cs) + IdsAll(b)
  {
    hide IdsAll, UniqueAll, LinkedAll;
    IdsSplit(a + cs, b);
    IdsSplit(a, cs);
    UniqueSplit(a + cs, b);
    UniqueSplit(a, cs);
    LinkedSplit(par, a + cs, b, p);
    LinkedSplit(par, a, cs, p);
  }

  /** A branch one of whose children has been replaced by several, before it is split. */
  lemma BranchGrows(c: Chunk, i: nat, cs: seq<Chunk>, extra: set<nat>, owner: nat, par: Par, par': Par, next: nat, next': nat, size: int, h: int)
    requires c.Branch? && i < |c.children| && Unique(c) && Linked(par, c) && Child(par, c.id, owner) && Below(Ids(c), next)
    requires extra !! Ids(c) && Below(extra, next)
    requires Placed(par', cs, c.id, Ids(c.children[i]) + extra, next, next')
    requires AgreeBut(par, par', (Ids(c.children[i]) - {c.children[i].id}) + extra, next)
    ensures var b := Branch(c.id, c.children[..i] + cs + c.children[i + 1..], size, h);
      && Unique(b) && Linked(par', b) && Child(par', c.id, owner) && Below(Ids(b), next')
      && Ids(c) + extra <= Ids(b) && (forall x :: x in Ids(b) ==> x in Ids(c) + extra || next <= x)
      && AgreeBut(par, par', IdsAll(c.children) + extra, next)
  {
    assert Ids(c) == {c.id} + IdsAll(c.children);
    TakeOut(par, c.children, i, c.id);
    hide IdsAll, UniqueAll, LinkedAll, Placed;
    ChildrenGrow(c.children, c.id, i, cs, extra, par, par', next, next');
  }

  /** Insertion below the root leaves every parent link right. */
  lemma {:induction false} InsertLinks(c: Chunk, at: nat, added: seq<Line>, h: int, next: nat, owner: nat, par: Par)
    requires Unique(c) && Linked(par, c) && Child(par, c.id, owner) && Below(Ids(c), next)
    requires DistinctLines(added) && LineIds(added) !! Ids(c) && Below(LineIds(added), next) && Bounded(c)
    ensures var (cs, next') := Insert(c, at, added, h, next); var par' := InsertPar(c, at, added, h, next, owner, par);
      && Placed(par', cs, owner, Ids(c) + LineIds(added), next, next')
      && AgreeBut(par, par', (Ids(c) - {c.id}) + LineIds(added), next)
    decreases c
  {
    match c
    case Leaf(id, lines, height) =>
      InsertLeafLinks(c, at, added, h, next, owner, par);
    case Branch(id, children, size, height) =>
      var (i, at') := Find(children, at);
      ChildOfBranch(c, i, par);
      InsertLinks(children[i], at', added, h, next, id, par);
      InsertBranchLinks(c, i, at', at, added, h, next, owner, par);
  }

  lemma ChildOfBranch(c: Chunk, i: nat, par: Par)
    requires c.Branch? && i < |c.children| && Unique(c) && Linked(par, c) && Bounded(c)
    ensures var d := c.children[i]; Unique(d) && Linked(par, d) && Child(par, d.id, c.id) && Ids(d) <= Ids(c) && Bounded(d)
  {
    ChildOfRoot(c, i, par);
  }

  lemma InsertLeafLinks(c: Chunk, at: nat, added: seq<Line>, h: int, next: nat, owner: nat, par: Par)
    requires c.Leaf? && Unique(c) && Linked(par, c) && Child(par, c.id, owner) && Below(Ids(c), next)
    requires DistinctLines(added) && LineIds(added) !! Ids(c) && Below(LineIds(added), next)
    ensures var (cs, next') := Insert(c, at, added, h, next); var par' := InsertPar(c, at, added, h, next, owner, par);
      && Placed(par', cs, owner, Ids(c) + LineIds(added), next, next')
      && AgreeBut(par, par', (Ids(c) - {c.id}) + LineIds(added), next)
  {
    hide Linked, Unique, LinkedAll, UniqueAll, IdsAll, Ids, Placed, AgreeBut, LineIds, SetLines, DistinctLines, Below, SplitLeaf, SplitLeafPar, Insert, InsertPar;
    var k := if at > |c.lines| then |c.lines| else at;
    var c' := Leaf(c.id, c.lines[..k] + added + c.lines[k..], c.height + h);
    var par1 := SetLines(par, added, c.id);
    InsertLeafUnfold(c, at, added, h, next, owner, par);
    LeafGrows(c, k, added, c.height + h, owner, par, next);
    LeafIs(c);
    SplitLeafLinks(c', next, owner, par1);
    var par2 := SplitLeafPar(c', next, owner, par1);
    AgreeOn(par, par1, par2, LineIds(added), LineIds(c'.lines), next, next);
    assert LineIds(added) + LineIds(c'.lines) == (Ids(c) - {c.id}) + LineIds(added);
  }

  lemma InsertLeafUnfold(c: Chunk, at: nat, added: seq<Line>, h: int, next: nat, owner: nat, par: Par)
    requires c.Leaf?
    ensures var k := if at > |c.lines| then |c.lines| else at;
      var c' := Leaf(c.id, c.lines[..k] + added + c.lines[k..], c.height + h);
      && Insert(c, at, added, h, next) == SplitLeaf(c', next)
      && InsertPar(c, at, added, h, next, owner, par) == SplitLeafPar(c', next, owner, SetLines(par, added, c.id))
  {
    hide SplitLeaf, SplitLeafPar, SetLines;
  }

  lemma InsertBranchLinks(c: Chunk, i: nat, at': nat, at: nat, added: seq<Line>, h: int, next: nat, owner: nat, par: Par)
    requires c.Branch? && c.children != [] && Find(c.children, at) == (i, at')
    requires Unique(c) && Linked(par, c) && Child(par, c.id, owner) && Below(Ids(c), next)
    requires LineIds(added) !! Ids(c) && Below(LineIds(added), next)
    requires var (cs, next') := Insert(c.children[i], at', added, h, next);
      var par' := InsertPar(c.children[i], at', added, h, next, c.id, par);
      && Placed(par', cs, c.id, Ids(c.children[i]) + LineIds(added), next, next')
      && AgreeBut(par, par', (Ids(c.children[i]) - {c.children[i].id}) + LineIds(added), next)
    ensures var (cs, next') := Insert(c, at, added, h, next); var par' := InsertPar(c, at, added, h, next, owner, par);
      && Placed(par', cs, owner, Ids(c) + LineIds(added), next, next')
      && AgreeBut(par, par', (Ids(c) - {c.id}) + LineIds(added), next)
  {
    hide Ids, IdsAll, Unique, UniqueAll, Linked, LinkedAll, Insert, InsertPar, SplitBranch, SplitBranchPar, Find, LineIds, AgreeBut, Below;
    var (cs, next1) := Insert(c.children[i], at', added, h, next);
    var par1 := InsertPar(c.children[i], at', added, h, next, c.id, par);
    var b := Branch(c.id, c.children[..i] + cs + c.children[i + 1..], c.size + |added|, c.height + h);
    InsertUnfold(c, at, added, h, next);
    InsertParUnfold(c, at, added, h, next, owner, par);
    BranchGrows(c, i, cs, LineIds(added), owner, par, par1, next, next1, b.size, b.height);
    GrownSplits(c, b, LineIds(added), owner, par, par1, next, next1);
  }

  lemma InsertParUnfold(c: Chunk, at: nat, added: seq<Line>, h: int, next: nat, owner: nat, par: Par)
    requires c.Branch? && c.children != []
    ensures var (i, at') := Find(c.children, at); var (cs, next') := Insert(c.children[i], at', added, h, next);
      var b := Branch(c.id, c.children[..i] + cs + c.children[i + 1..], c.size + |added|, c.height + h);
      InsertPar(c, at, added, h, next, owner, par) == SplitBranchPar(b, next', owner, InsertPar(c.children[i], at', added, h, next, c.id, par))
  {
    hide Find, Insert, SplitBranchPar;
  }

  lemma GrownSplits(c: Chunk, b: Chunk, extra: set<nat>, owner: nat, par: Par, par1: Par, next: nat, next1: nat)
    requires c.Branch? && b.Branch? && b.id == c.id && next <= next1 && Unique(c)
    requires Unique(b) && Linked(par1, b) && Child(par1, c.id, owner) && Below(Ids(b), next1)
    requires Ids(c) + extra <= Ids(b) && (forall x :: x in Ids(b) ==> x in Ids(c) + extra || next <= x)
    requires AgreeBut(par, par1, IdsAll(c.children) + extra, next)
    ensures var (cs, next') := SplitBranch(b, next1); var par' := SplitBranchPar(b, next1, owner, par1);
      Placed(par', cs, owner, Ids(c) + extra, next, next') && AgreeBut(par, par', (Ids(c) - {c.id}) + extra, next)
  {
    SplitBranchLinks(b, next1, owner, par1);
    var (cs, next') := SplitBranch(b, next1);
    var par' := SplitBranchPar(b, next1, owner, par1);
    assert Ids(c) - {c.id} == IdsAll(c.children) && Ids(b) - {b.id} == IdsAll(b.children);
    hide Ids, IdsAll, Unique, UniqueAll, Linked, LinkedAll, SplitBranch, SplitBranchPar, AgreeBut, Placed;
    PlacedFrom(par', cs, owner, Ids(b), Ids(c) + extra, next, next1, next');
    AgreeThen(par, par1, par', IdsAll(c.children) + extra, IdsAll(b.children), next, next1);
  }

  lemma PlacedFrom(par: Par, cs: seq<Chunk>, owner: nat, all: set<nat>, ids: set<nat>, next: nat, next1: nat, next': nat)
    requires Placed(par, cs, owner, all, next1, next') && next <= next1
    requires ids <= all && forall x :: x in all ==> x in ids || next <= x
    ensures Placed(par, cs, owner, ids, next, next')
  {
    hide IdsAll, UniqueAll, LinkedAll;
  }

  /** What changes in the second step is old only where the first one may change things. */
  lemma AgreeThen(par: Par, par1: Par, par2: Par, w: set<nat>, w1: set<nat>, next: nat, next1: nat)
    requires AgreeBut(par, par1, w, next) && AgreeBut(par1, par2, w1, next1) && next <= next1
    requires forall x :: x in w1 ==> x in w || next <= x
    ensures AgreeBut(par, par2, w, next)
  {
  }

  // The root

  function SpillRootPar(r: Chunk, next: nat, par: Par): Par
    requires r.Branch?
    decreases |r.children|
  {
    var n := |r.children|;
    if n <= MAX_CHILDREN then par
    else
      var keep, spilled := r.children[..n - SPILL_CHILDREN], r.children[n - SPILL_CHILDREN..];
      var sibling := Branch(next, spilled, SumSizes(spilled), SumHeights(spilled));
      var copy := Branch(next + 1, keep, SumSizes(keep), SumHeights(keep));
      var par1 := SetChunks(par, spilled, next)[next := r.id];
      var par2 := SetChunks(par1, keep, next + 1)[next + 1 := r.id];
      var (cs, next') := SplitBranch(copy, next + 2);
      SpillRootPar(r.(children := cs + [sibling]), next', SplitBranchPar(copy, next + 2, r.id, par2))
  }

  function InsertRootPar(r: Chunk, at: nat, added: seq<Line>, next: nat, par: Par): Par
    requires r.Branch? && r.children != []
  {
    var h := HeightOf(added);
    var (i, at') := Find(r.children, at);
    var (cs, next') := Insert(r.children[i], at', added, h, next);
    var par' := InsertPar(r.children[i], at', added, h, next, r.id, par);
    SpillRootPar(Branch(r.id, r.children[..i] + cs + r.children[i + 1..], r.size + |added|, r.height + h), next', par')
  }

  /** The whole tree: no object twice, all parents right, all identities used up. */
  ghost predicate TreeOk(par: Par, r: Chunk, next: nat) {
    r.Branch? && Unique(r) && Linked(par, r) && Below(Ids(r), next) && r.id !in par
  }

  /** A new branch and a copy of the root hold between them all that the root held. */
  ghost predicate Halves(r: Chunk, copy: Chunk, sibling: Chunk, par: Par, next: nat) {
    && copy.Branch? && copy.id == next + 1 && sibling.id == next && r.id < next
    && Child(par, next, r.id) && Linked(par, sibling) && Unique(sibling) && Below(Ids(sibling), next + 1)
    && Child(par, next + 1, r.id) && Linked(par, copy) && Unique(copy) && Below(Ids(copy), next + 2)
    && Ids(copy) !! Ids(sibling) && Ids(r) == {r.id} + (Ids(copy) - {next + 1}) + (Ids(sibling) - {next})
    && r.id !in Ids(copy) + Ids(sibling) && r.id !in par
  }

  lemma RootSplits(r: Chunk, k: nat, next: nat, par: Par)
    requires TreeOk(par, r, next) && k <= |r.children|
    ensures var keep, spilled := r.children[..k], r.children[k..];
      var sibling := Branch(next, spilled, SumSizes(spilled), SumHeights(spilled));
      var copy := Branch(next + 1, keep, SumSizes(keep), SumHeights(keep));
      Halves(r, copy, sibling, SetChunks(SetChunks(par, spilled, next)[next := r.id], keep, next + 1)[next + 1 := r.id], next)
  {
    hide Ids, IdsAll, Unique, UniqueAll, Linked, LinkedAll, SetChunks, TopIds, SumSizes, SumHeights;
    var keep, spilled := r.children[..k], r.children[k..];
    assert r.children == keep + spilled;
    IdsSplit(keep, spilled);
    UniqueSplit(keep, spilled);
    LinkedSplit(par, keep, spilled, r.id);
    BranchIs(par, r);
    TopsIn(keep);
    TopsIn(spilled);
    var sibling := Branch(next, spilled, SumSizes(spilled), SumHeights(spilled));
    var par1 := SetChunks(par, spilled, next)[next := r.id];
    var par2 := SetChunks(par1, keep, next + 1)[next + 1 := r.id];
    NewBranchLinks(par, spilled, r.id, next, r.id, sibling.size, sibling.height);
    BranchIs(par1, sibling);
    LinkedAllFrame(par, par1, keep, r.id, TopIds(spilled), next);
    NewBranchLinks(par1, keep, r.id, next + 1, r.id, SumSizes(keep), SumHeights(keep));
    BranchIs(par2, Branch(next + 1, keep, SumSizes(keep), SumHeights(keep)));
    LinkedFrame(par1, par2, sibling, TopIds(keep), next + 1);
  }

  /** The root with the pieces of its copy, and the sibling, as children. */
  lemma RootRejoins(r: Chunk, cs: seq<Chunk>, copy: Chunk, sibling: Chunk, par2: Par, par3: Par, next: nat, next': nat)
    requires r.Branch? && Halves(r, copy, sibling, par2, next)
    requires Placed(par3, cs, r.id, Ids(copy), next + 2, next') && AgreeBut(par2, par3, IdsAll(copy.children), next + 2)
    ensures Grown(par3, r, r.(children := cs + [sibling]), next, next')
  {
    assert IdsAll(copy.children) <= Ids(copy) && sibling.id in Ids(sibling);
    LinkedFrame(par2, par3, sibling, IdsAll(copy.children), next + 2);
    One(par3, sibling, r.id);
    IdsSplit(cs, [sibling]);
    UniqueSplit(cs, [sibling]);
    LinkedSplit(par3, cs, [sibling], r.id);
  }

  /** The new tree holds all that the old one held, and otherwise new objects. */
  ghost predicate Grown(par: Par, r: Chunk, r': Chunk, next: nat, next': nat) {
    next <= next' && TreeOk(par, r', next') && Ids(r) <= Ids(r') && forall x :: x in Ids(r') ==> x in Ids(r) || next <= x
  }

  /** The root gets one more level: its new children, the next identity, and the parents. */
  function Deepen(r: Chunk, next: nat, par: Par): (x: (Chunk, nat, Par))
    requires r.Branch? && |r.children| > MAX_CHILDREN
    ensures x.0.Branch? && |x.0.children| < |r.children|
  {
    var n := |r.children|;
    var keep, spilled := r.children[..n - SPILL_CHILDREN], r.children[n - SPILL_CHILDREN..];
    var sibling := Branch(next, spilled, SumSizes(spilled), SumHeights(spilled));
    var copy := Branch(next + 1, keep, SumSizes(keep), SumHeights(keep));
    var par2 := SetChunks(SetChunks(par, spilled, next)[next := r.id], keep, next + 1)[next + 1 := r.id];
    var (cs, next') := SplitBranch(copy, next + 2);
    (r.(children := cs + [sibling]), next', SplitBranchPar(copy, next + 2, r.id, par2))
  }

  lemma DeepenLinks(r: Chunk, next: nat, par: Par)
    requires TreeOk(par, r, next) && |r.children| > MAX_CHILDREN
    ensures var (r', next', par') := Deepen(r, next, par); Grown(par', r, r', next, next')
  {
    hide Ids, IdsAll, Unique, UniqueAll, Linked, LinkedAll, SetChunks, SplitBranch, SplitBranchPar, Halves, Grown, Placed, AgreeBut, SumSizes, SumHeights;
    var k := |r.children| - SPILL_CHILDREN;
    RootSplits(r, k, next, par);
    var keep, spilled := r.children[..k], r.children[k..];
    var sibling := Branch(next, spilled, SumSizes(spilled), SumHeights(spilled));
    var copy := Branch(next + 1, keep, SumSizes(keep), SumHeights(keep));
    var par2 := SetChunks(SetChunks(par, spilled, next)[next := r.id], keep, next + 1)[next + 1 := r.id];
    CopySplits(r, copy, sibling, par2, next);
  }

  lemma CopySplits(r: Chunk, copy: Chunk, sibling: Chunk, par: Par, next: nat)
    requires r.Branch? && Halves(r, copy, sibling, par, next)
    ensures var (cs, next') := SplitBranch(copy, next + 2);
      Grown(SplitBranchPar(copy, next + 2, r.id, par), r, r.(children := cs + [sibling]), next, next')
  {
    hide Ids, IdsAll, Unique, UniqueAll, Linked, LinkedAll, SplitBranch, SplitBranchPar;
    SplitBranchLinks(copy, next + 2, r.id, par);
    var (cs, next') := SplitBranch(copy, next + 2);
    RootRejoins(r, cs, copy, sibling, par, SplitBranchPar(copy, next + 2, r.id, par), next, next');
  }

  lemma SpillRootUnfold(r: Chunk, next: nat, par: Par)
    requires r.Branch?
    ensures if |r.children| <= MAX_CHILDREN then SpillRoot(r, next) == (r, next) && SpillRootPar(r, next, par) == par
            else var (r1, next1, par1) := Deepen(r, next, par);
              SpillRoot(r, next) == SpillRoot(r1, next1) && SpillRootPar(r, next, par) == SpillRootPar(r1, next1, par1)
  {
    hide SplitBranch, SplitBranchPar, SetChunks, SumSizes, SumHeights;
  }

  lemma {:induction false} SpillRootLinks(r: Chunk, next: nat, par: Par)
    requires TreeOk(par, r, next)
    ensures var (r', next') := SpillRoot(r, next); Grown(SpillRootPar(r, next, par), r, r', next, next')
    decreases |r.children|
  {
    hide Ids, Unique, Linked, SpillRoot, SpillRootPar, Deepen, Below;
    SpillRootUnfold(r, next, par);
    if |r.children| > MAX_CHILDREN {
      DeepenLinks(r, next, par);
      var (r1, next1, par1) := Deepen(r, next, par);
      SpillRootLinks(r1, next1, par1);
    }
  }

  lemma InsertRootUnfold(r: Chunk, at: nat, added: seq<Line>, next: nat, par: Par)
    requires r.Branch? && r.children != []
    ensures var h := HeightOf(added); var (i, at') := Find(r.children, at); var d := r.children[i];
      var (cs, next1) := Insert(d, at', added, h, next); var par1 := InsertPar(d, at', added, h, next, r.id, par);
      var r1 := Branch(r.id, r.children[..i] + cs + r.children[i + 1..], r.size + |added|, r.height + h);
      InsertRoot(r, at, added, next) == SpillRoot(r1, next1) && InsertRootPar(r, at, added, next, par) == SpillRootPar(r1, next1, par1)
  {
    hide Find, Insert, InsertPar, SpillRoot, SpillRootPar, HeightOf;
  }

  /** The root with a child replaced, before it is split. */
  lemma InsertBelowLinks(r: Chunk, at: nat, added: seq<Line>, next: nat, par: Par) returns (r1: Chunk, next1: nat, par1: Par)
    requires TreeOk(par, r, next) && RootOk(r)
    requires DistinctLines(added) && LineIds(added) !! Ids(r) && Below(LineIds(added), next)
    ensures next <= next1 && TreeOk(par1, r1, next1) && Ids(r) + LineIds(added) <= Ids(r1)
    ensures InsertRoot(r, at, added, next) == SpillRoot(r1, next1) && InsertRootPar(r, at, added, next, par) == SpillRootPar(r1, next1, par1)
  {
    hide Ids, IdsAll, Unique, UniqueAll, Linked, LinkedAll, Insert, InsertPar, InsertRoot, InsertRootPar, SpillRoot, SpillRootPar, LineIds, DistinctLines, Bounded, Find, Exact, ExactAll, BoundedAll, HeightOf;
    var h := HeightOf(added);
    var (i, at') := Find(r.children, at);
    var d := r.children[i];
    ChildOfRoot(r, i, par);
    InsertLinks(d, at', added, h, next, r.id, par);
    var (cs, next') := Insert(d, at', added, h, next);
    par1, next1 := InsertPar(d, at', added, h, next, r.id, par), next';
    RootGrows(r, i, cs, LineIds(added), par, par1, next, next1, r.size + |added|, r.height + h);
    InsertRootUnfold(r, at, added, next, par);
    r1 := Branch(r.id, r.children[..i] + cs + r.children[i + 1..], r.size + |added|, r.height + h);
  }

  lemma ChildOfRoot(r: Chunk, i: nat, par: Par)
    requires r.Branch? && i < |r.children| && Unique(r) && Linked(par, r) && BoundedAll(r.children)
    ensures var d := r.children[i]; Unique(d) && Linked(par, d) && Child(par, d.id, r.id) && Ids(d) <= Ids(r) && Bounded(d)
  {
    TakeOut(par, r.children, i, r.id);
  }

  /** Inserting in the document leaves every parent link right. */
  lemma InsertRootLinks(r: Chunk, at: nat, added: seq<Line>, next: nat, par: Par)
    requires TreeOk(par, r, next) && RootOk(r)
    requires DistinctLines(added) && LineIds(added) !! Ids(r) && Below(LineIds(added), next)
    ensures var (r', next') := InsertRoot(r, at, added, next); var par' := InsertRootPar(r, at, added, next, par);
      next <= next' && TreeOk(par', r', next') && Ids(r) + LineIds(added) <= Ids(r')
  {
    hide Ids, LineIds, DistinctLines, Below, RootOk, SpillRoot, SpillRootPar, InsertRoot, InsertRootPar, Unique, Linked;
    var r1, next1, par1 := InsertBelowLinks(r, at, added, next, par);
    SpillRootLinks(r1, next1, par1);
  }

  lemma RootGrows(r: Chunk, i: nat, cs: seq<Chunk>, extra: set<nat>, par: Par, par': Par, next: nat, next': nat, size: int, h: int)
    requires TreeOk(par, r, next) && i < |r.children| && extra !! Ids(r) && Below(extra, next)
    requires Placed(par', cs, r.id, Ids(r.children[i]) + extra, next, next')
    requires AgreeBut(par, par', (Ids(r.children[i]) - {r.children[i].id}) + extra, next)
    ensures var b := Branch(r.id, r.children[..i] + cs + r.children[i + 1..], size, h);
      TreeOk(par', b, next') && Ids(r) + extra <= Ids(b)
  {
    assert Ids(r) == {r.id} + IdsAll(r.children);
    TakeOut(par, r.children, i, r.id);
    hide IdsAll, UniqueAll, LinkedAll, Placed;
    ChildrenGrow(r.children, r.id, i, cs, extra, par, par', next, next');
  }

  /** A child is replaced by what has become of it. */
  lemma ChildrenGrow(all: seq<Chunk>, id: nat, i: nat, cs: seq<Chunk>, extra: set<nat>, par: Par, par': Par, next: nat, next': nat)
    requires i < |all| && UniqueAll(all) && LinkedAll(par, all, id) && Below(IdsAll(all), next)
    requires extra !! IdsAll(all) && Below(extra, next)
    requires Placed(par', cs, id, Ids(all[i]) + extra, next, next')
    requires AgreeBut(par, par', (Ids(all[i]) - {all[i].id}) + extra, next)
    ensures var all' := all[..i] + cs + all[i + 1..];
      && next <= next' && UniqueAll(all') && LinkedAll(par', all', id) && Below(IdsAll(all'), next')
      && IdsAll(all) + extra <= IdsAll(all') && (forall x :: x in IdsAll(all') ==> x in IdsAll(all) + extra || next <= x)
  {
    var a, d, z := all[..i], all[i], all[i + 1..];
    TakeOut(par, all, i, id);
    var w := (Ids(d) - {d.id}) + extra;
    hide Ids, IdsAll, UniqueAll, LinkedAll, Linked, Unique;
    LinkedAllFrame(par, par', a, id, w, next);
    LinkedAllFrame(par, par', z, id, w, next);
    PutIn(par', a, cs, z, id);
  }
}
