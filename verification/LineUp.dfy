/**
 From a line up to the document through the parent links: the number of a line, the height above it, and
 a change of its height.
 */
module LineUp {
  import opened LineTree
  import opened LineLinks
  import opened LineUnlinks
  import opened LinePaths
  import opened LineLookup

  /** Where in its leaf a line is. */
  method IndexOf(ls: seq<Line>, id: nat) returns (i: nat)
    requires id in LineIds(ls)
    ensures i < |ls| && ls[i].id == id
  {
    i := 0;
    while ls[i].id != id
      invariant i < |ls| && forall j :: 0 <= j < i ==> ls[j].id != id
      decreases |ls| - i
    {
      i := i + 1;
    }
  }

  /** Where a child is, and how many lines and how much height are in the children before it. */
  method Before(cs: seq<Chunk>, id: nat) returns (i: nat, size: int, height: int)
    requires id in TopIds(cs) && ExactAll(cs)
    ensures i < |cs| && cs[i].id == id && size == |FlatAll(cs[..i])| && height == HeightOf(FlatAll(cs[..i]))
  {
    i, size, height := 0, 0, 0;
    while cs[i].id != id
      invariant i < |cs| && forall j :: 0 <= j < i ==> cs[j].id != id
      invariant size == |FlatAll(cs[..i])| && height == HeightOf(FlatAll(cs[..i]))
      decreases |cs| - i
    {
      ChildrenUpTo(cs, i);
      HeightSplit(FlatAll(cs[..i]), Flat(cs[i]));
      assert Exact(cs[i]);
      size, height := size + ChunkSize(cs[i]), height + cs[i].height;
      i := i + 1;
    }
  }

  /** Line `no` of a child is line `front + no` of the parent. */
  lemma Lifted(p: Chunk, i: nat, no: nat)
    requires p.Branch? && i < |p.children| && no < |Flat(p.children[i])|
    ensures var front := FlatAll(p.children[..i]);
      && |front| + no < |Flat(p)| && Flat(p)[|front| + no] == Flat(p.children[i])[no]
      && HeightOf(Flat(p)[..|front| + no]) == HeightOf(front) + HeightOf(Flat(p.children[i])[..no])
  {
    var front, here := FlatAll(p.children[..i]), Flat(p.children[i]);
    FlatOf(p);
    ChildPlace(p.children, i);
    assert Flat(p)[..|front| + no] == front + here[..no];
    HeightSplit(front, here[..no]);
  }

  lemma TopOf(cs: seq<Chunk>, i: nat)
    requires i < |cs|
    ensures cs[i].id in TopIds(cs)
  {
  }

  /** Two children of a branch are not the same object. */
  lemma {:induction false} TopsDiffer(cs: seq<Chunk>, i: nat, j: nat)
    requires i < j < |cs| && UniqueAll(cs)
    ensures cs[i].id != cs[j].id
    decreases cs
  {
    if i > 0 {
      TopsDiffer(cs[1..], i - 1, j - 1);
    } else {
      TopsIn(cs[1..]);
      assert cs[0].id in Ids(cs[0]) && cs[j] == cs[1..][j - 1] && cs[j].id in TopIds(cs[1..]);
    }
  }

  lemma SameTop(cs: seq<Chunk>, i: nat, j: nat)
    requires i < |cs| && j < |cs| && UniqueAll(cs) && cs[i].id == cs[j].id
    ensures i == j
  {
    if i < j {
      TopsDiffer(cs, i, j);
    } else if j < i {
      TopsDiffer(cs, j, i);
    }
  }

  /** The document, all of whose links and numbers are right. */
  ghost predicate Whole(par: Par, r: Chunk) {
    Good(par, r) && r.Branch? && r.id !in par
  }

  /** The only number of a line of the document. */
  ghost predicate Numbered(r: Chunk, line: nat, no: nat) {
    && no < |Flat(r)| && Flat(r)[no].id == line
    && forall i :: 0 <= i < |Flat(r)| && Flat(r)[i].id == line ==> i == no
  }

  lemma NumberUnique(r: Chunk, line: nat, no: nat)
    requires Unique(r) && no < |Flat(r)| && Flat(r)[no].id == line
    ensures Numbered(r, line, no)
  {
    FlatIds(r);
  }

  /** The way down to a line. */
  lemma PathToLine(par: Par, r: Chunk, line: nat) returns (path: seq<nat>, k: nat)
    requires Whole(par, r) && line in LineIds(Flat(r))
    ensures Leads(r, path) && At(r, path).Leaf? && k < |At(r, path).lines| && At(r, path).lines[k].id == line
    ensures Child(par, line, At(r, path).id) && Refers(Heap(r), At(r, path)) && Good(par, At(r, path))
    ensures line in LineIds(At(r, path).lines)
  {
    var i :| 0 <= i < |Flat(r)| && Flat(r)[i].id == line;
    path, k := PathTo(r, i);
    StepToLeaf(par, r, path, k);
  }

  /** A chunk without a parent is the document. */
  lemma TopIsRoot(par: Par, r: Chunk, path: seq<nat>)
    requires Whole(par, r) && Leads(r, path)
    ensures At(r, path).id !in par <==> path == []
  {
    if path != [] {
      StepUp(par, r, path);
    }
  }

  /** The number of a line; nothing for a line that is in no document. */
  method LineNo(r: Chunk, par: Par, line: nat) returns (found: bool, no: nat)
    requires Whole(par, r) && (line in LineIds(Flat(r)) || line !in par)
    ensures found <==> line in LineIds(Flat(r))
    ensures found ==> Numbered(r, line, no)
  {
    if line !in par {
      if line in LineIds(Flat(r)) {
        var path, k := PathToLine(par, r, line);
      }
      return false, 0;
    }
    ghost var path, k := PathToLine(par, r, line);
    var heap := Heap(r);
    var cur := heap[par[line]];
    no := IndexOf(cur.lines, line);
    TopIsRoot(par, r, path);
    while cur.id in par
      invariant Leads(r, path) && cur == At(r, path) && (cur.id !in par <==> path == [])
      invariant no < |Flat(cur)| && Flat(cur)[no].id == line
      decreases |path|
    {
      StepUp(par, r, path);
      var chunk := heap[par[cur.id]];
      ghost var j := path[|path| - 1];
      TopOf(chunk.children, j);
      var i, size, _ := Before(chunk.children, cur.id);
      SameTop(chunk.children, i, j);
      Lifted(chunk, i, no);
      no := no + size;
      cur, path := chunk, path[..|path| - 1];
      TopIsRoot(par, r, path);
    }
    NumberUnique(r, line, no);
    found := true;
  }

  /** The height of the lines of a leaf before a line. */
  method HeightInLeaf(ls: seq<Line>, line: nat) returns (h: int, ghost no: nat)
    requires line in LineIds(ls)
    ensures no < |ls| && ls[no].id == line && h == HeightOf(ls[..no])
  {
    h := 0;
    var i: nat := 0;
    while ls[i].id != line
      invariant i < |ls| && h == HeightOf(ls[..i]) && forall j :: 0 <= j < i ==> ls[j].id != line
      decreases |ls| - i
    {
      assert ls[..i + 1] == ls[..i] + [ls[i]];
      HeightSplit(ls[..i], [ls[i]]);
      h := h + ls[i].height;
      i := i + 1;
    }
    no := i;
  }

  /** The height above a line of the document. */
  method HeightAtLine(r: Chunk, par: Par, line: nat) returns (h: int)
    requires Whole(par, r) && line in LineIds(Flat(r))
    ensures forall no: nat :: Numbered(r, line, no) ==> h == HeightOf(Flat(r)[..no])
  {
    ghost var path, k := PathToLine(par, r, line);
    var heap := Heap(r);
    var chunk := heap[par[line]];
    ghost var no: nat;
    h, no := HeightInLeaf(chunk.lines, line);
    TopIsRoot(par, r, path);
    while chunk.id in par
      invariant Leads(r, path) && chunk == At(r, path) && (chunk.id !in par <==> path == [])
      invariant no < |Flat(chunk)| && Flat(chunk)[no].id == line && h == HeightOf(Flat(chunk)[..no])
      decreases |path|
    {
      StepUp(par, r, path);
      var p := heap[par[chunk.id]];
      ghost var j := path[|path| - 1];
      TopOf(p.children, j);
      var i, size, above := Before(p.children, chunk.id);
      SameTop(p.children, i, j);
      Lifted(p, i, no);
      h, no := above + h, size + no;
      chunk, path := p, path[..|path| - 1];
      TopIsRoot(par, r, path);
    }
  }

  // A change of height

  function RaiseLines(ls: seq<Line>, s: set<nat>, d: int): (r: seq<Line>)
    ensures |r| == |ls|
  {
    seq(|ls|, i requires 0 <= i < |ls| => if ls[i].id in s then ls[i].(height := ls[i].height + d) else ls[i])
  }

  /** The objects of `s` get `d` more height. */
  function Raise(c: Chunk, s: set<nat>, d: int): (r: Chunk)
    ensures r.id == c.id && (r.Leaf? <==> c.Leaf?)
    decreases c
  {
    var h := if c.id in s then c.height + d else c.height;
    match c
    case Leaf(id, lines, _) => Leaf(id, RaiseLines(lines, s, d), h)
    case Branch(id, children, size, _) => Branch(id, RaiseAll(children, s, d), size, h)
  }

  function RaiseAll(cs: seq<Chunk>, s: set<nat>, d: int): (r: seq<Chunk>)
    ensures |r| == |cs|
    decreases cs
  {
    if cs == [] then [] else [Raise(cs[0], s, d)] + RaiseAll(cs[1..], s, d)
  }

  /** Identities, and so links and bounds, stay. */
  lemma {:induction false} RaiseKeeps(c: Chunk, s: set<nat>, d: int, par: Par)
    ensures var c' := Raise(c, s, d);
      && Ids(c') == Ids(c) && (Unique(c') <==> Unique(c)) && (Linked(par, c') <==> Linked(par, c)) && (Bounded(c') <==> Bounded(c))
      && Flat(c') == RaiseLines(Flat(c), s, d)
    decreases c
  {
    match c
    case Leaf(id, lines, _) =>
      var ls := RaiseLines(lines, s, d);
      assert forall i :: 0 <= i < |ls| ==> ls[i].id == lines[i].id;
      SameIds(lines, ls);
    case Branch(id, children, _, _) =>
      RaiseAllKeeps(children, s, d, par, id);
  }

  lemma SameIds(a: seq<Line>, b: seq<Line>)
    requires |a| == |b| && forall i :: 0 <= i < |a| ==> b[i].id == a[i].id
    ensures LineIds(a) == LineIds(b)
  {
    forall x | x in LineIds(a) ensures x in LineIds(b) {
      var i :| 0 <= i < |a| && a[i].id == x;
      assert b[i].id == x;
    }
    forall x | x in LineIds(b) ensures x in LineIds(a) {
      var i :| 0 <= i < |b| && b[i].id == x;
      assert a[i].id == x;
    }
  }

  lemma {:induction false} RaiseAllKeeps(cs: seq<Chunk>, s: set<nat>, d: int, par: Par, p: nat)
    ensures var cs' := RaiseAll(cs, s, d);
      && IdsAll(cs') == IdsAll(cs) && (UniqueAll(cs') <==> UniqueAll(cs)) && (LinkedAll(par, cs', p) <==> LinkedAll(par, cs, p))
      && (BoundedAll(cs') <==> BoundedAll(cs)) && FlatAll(cs') == RaiseLines(FlatAll(cs), s, d)
    decreases cs
  {
    hide Ids, Unique, Linked, Bounded, Flat, IdsAll, UniqueAll, LinkedAll, BoundedAll, FlatAll, Raise, RaiseLines;
    if cs == [] {
      RaiseNone(s, d, par, p);
    } else {
      var c', rest := Raise(cs[0], s, d), RaiseAll(cs[1..], s, d);
      RaiseKeeps(cs[0], s, d, par);
      RaiseAllKeeps(cs[1..], s, d, par, p);
      assert cs == [cs[0]] + cs[1..];
      First(cs[0], cs[1..], par, p);
      First(c', rest, par, p);
      RaiseLinesSplit(Flat(cs[0]), FlatAll(cs[1..]), s, d);
    }
  }

  lemma RaiseNone(s: set<nat>, d: int, par: Par, p: nat)
    ensures FlatAll([]) == RaiseLines(FlatAll([]), s, d)
  {
  }

  lemma RaiseLinesSplit(a: seq<Line>, b: seq<Line>, s: set<nat>, d: int)
    ensures RaiseLines(a + b, s, d) == RaiseLines(a, s, d) + RaiseLines(b, s, d)
  {
  }

  lemma First(c: Chunk, cs: seq<Chunk>, par: Par, p: nat)
    ensures var all := [c] + cs;
      && IdsAll(all) == Ids(c) + IdsAll(cs) && (UniqueAll(all) <==> Unique(c) && UniqueAll(cs) && Ids(c) !! IdsAll(cs))
      && (LinkedAll(par, all, p) <==> Child(par, c.id, p) && Linked(par, c) && LinkedAll(par, cs, p))
      && (BoundedAll(all) <==> Bounded(c) && BoundedAll(cs)) && FlatAll(all) == Flat(c) + FlatAll(cs)
  {
    assert ([c] + cs)[1..] == cs;
    hide Ids, Unique, Linked, Bounded, Flat;
    Rows([c], cs);
    Lone(c);
  }

  /** A tree without any of the objects stays as it is. */
  lemma {:induction false} RaiseNothing(c: Chunk, s: set<nat>, d: int)
    requires s !! Ids(c)
    ensures Raise(c, s, d) == c
    decreases c
  {
    match c
    case Leaf(id, lines, _) =>
      forall i | 0 <= i < |lines| ensures lines[i].id !in s {
        assert lines[i].id in LineIds(lines);
      }
      assert RaiseLines(lines, s, d) == lines;
    case Branch(id, children, _, _) =>
      RaiseAllNothing(children, s, d);
  }

  lemma {:induction false} RaiseAllNothing(cs: seq<Chunk>, s: set<nat>, d: int)
    requires s !! IdsAll(cs)
    ensures RaiseAll(cs, s, d) == cs
    decreases cs
  {
    if cs != [] {
      RaiseNothing(cs[0], s, d);
      RaiseAllNothing(cs[1..], s, d);
    }
  }

  /** Raising one object after others is raising them all. */
  lemma {:induction false} RaiseMore(c: Chunk, s: set<nat>, x: nat, d: int)
    requires x !in s
    ensures Raise(Raise(c, s, d), {x}, d) == Raise(c, s + {x}, d)
    decreases c
  {
    match c
    case Leaf(id, lines, _) =>
      assert RaiseLines(RaiseLines(lines, s, d), {x}, d) == RaiseLines(lines, s + {x}, d);
    case Branch(id, children, _, _) =>
      RaiseAllMore(children, s, x, d);
  }

  lemma {:induction false} RaiseAllMore(cs: seq<Chunk>, s: set<nat>, x: nat, d: int)
    requires x !in s
    ensures RaiseAll(RaiseAll(cs, s, d), {x}, d) == RaiseAll(cs, s + {x}, d)
    decreases cs
  {
    if cs != [] {
      RaiseMore(cs[0], s, x, d);
      RaiseAllMore(cs[1..], s, x, d);
      assert RaiseAll(cs, s, d)[1..] == RaiseAll(cs[1..], s, d);
    }
  }

  lemma {:induction false} RaiseSplit(a: seq<Chunk>, b: seq<Chunk>, s: set<nat>, d: int)
    ensures RaiseAll(a + b, s, d) == RaiseAll(a, s, d) + RaiseAll(b, s, d)
  {
    if a == [] {
      assert a + b == b;
    } else {
      assert (a + b)[1..] == a[1..] + b;
      RaiseSplit(a[1..], b, s, d);
    }
  }

  /** The chunks on a way, from the one `j` steps down. */
  ghost function OnWay(c: Chunk, path: seq<nat>, j: nat): set<nat> {
    set i | j <= i <= |path| :: At(c, path[..i]).id
  }

  /** The first of them, and those below. */
  lemma OnWayDown(c: Chunk, path: seq<nat>, j: nat)
    requires Leads(c, path) && path != []
    ensures var x := c.children[path[0]];
      OnWay(c, path, j + 1) == OnWay(x, path[1..], j) && OnWay(c, path, 0) == {c.id} + OnWay(x, path[1..], 0)
  {
    var x, rest := c.children[path[0]], path[1..];
    forall i | 0 <= i <= |rest| ensures At(c, path[..i + 1]) == At(x, rest[..i]) {
      assert path[..i + 1][1..] == rest[..i];
    }
    forall y | y in OnWay(c, path, j + 1) ensures y in OnWay(x, rest, j) {
      var i :| j + 1 <= i <= |path| && At(c, path[..i]).id == y;
      assert At(x, rest[..i - 1]).id == y;
    }
    forall y | y in OnWay(x, rest, j) ensures y in OnWay(c, path, j + 1) {
      var i :| j <= i <= |rest| && At(x, rest[..i]).id == y;
      assert At(c, path[..i + 1]).id == y;
    }
    forall y | y in OnWay(c, path, 0) ensures y in {c.id} + OnWay(x, rest, 0) {
      var i :| 0 <= i <= |path| && At(c, path[..i]).id == y;
      if i > 0 { assert At(x, rest[..i - 1]).id == y; } else { assert path[..0] == []; }
    }
    forall y | y in OnWay(x, rest, 0) ensures y in OnWay(c, path, 0) {
      var i :| 0 <= i <= |rest| && At(x, rest[..i]).id == y;
      assert At(c, path[..i + 1]).id == y;
    }
    assert At(c, path[..0]).id == c.id;
  }

  lemma {:induction false} OnWayIn(par: Par, c: Chunk, path: seq<nat>)
    requires Leads(c, path) && Good(par, c)
    ensures OnWay(c, path, 0) <= Ids(c) && forall i :: 0 <= i <= |path| ==> Leads(c, path[..i])
    decreases path
  {
    if path != [] {
      var x, rest := c.children[path[0]], path[1..];
      GoodChild(par, c, path[0]);
      OnWayIn(par, x, rest);
      OnWayDown(c, path, 0);
      forall i | 0 < i <= |path| ensures Leads(c, path[..i]) {
        assert path[..i][1..] == rest[..i - 1];
      }
    } else {
      assert path[..0] == [];
    }
  }

  /** A chunk on the way is none of those below it, nor the line. */
  lemma {:induction false} OnWayFresh(par: Par, c: Chunk, path: seq<nat>, j: nat, k: nat)
    requires Good(par, c) && Leads(c, path) && At(c, path).Leaf? && k < |At(c, path).lines| && j <= |path|
    ensures At(c, path[..j]).id !in OnWay(c, path, j + 1) + {At(c, path).lines[k].id}
    decreases path
  {
    if path == [] {
      assert c.lines[k].id in LineIds(c.lines);
    } else {
      var x, rest := c.children[path[0]], path[1..];
      GoodChild(par, c, path[0]);
      GoodAt(par, x, rest);
      OnWayDown(c, path, j);
      OnWayIn(par, x, rest);
      LineOf(At(c, path), k);
      hide Good, Ids, OnWay;
      if j > 0 {
        OnWayFresh(par, x, rest, j - 1, k);
        assert path[..j][1..] == rest[..j - 1];
        OnWayDown(c, path, j);
      } else {
        assert path[..0] == [];
      }
    }
  }

  /** One line of several is raised. */
  lemma {:induction false} OneLineRaised(ls: seq<Line>, k: nat, s: set<nat>, d: int)
    requires k < |ls| && DistinctLines(ls) && s * LineIds(ls) == {ls[k].id}
    ensures RaiseLines(ls, s, d) == ls[k := ls[k].(height := ls[k].height + d)]
    ensures HeightOf(RaiseLines(ls, s, d)) == HeightOf(ls) + d
  {
    forall i | 0 <= i < |ls| ensures ls[i].id in s <==> i == k {
      assert ls[i].id in LineIds(ls) && (ls[i].id in s ==> ls[i].id in s * LineIds(ls)) && ls[k].id in s * LineIds(ls);
    }
    var l' := ls[k].(height := ls[k].height + d);
    assert RaiseLines(ls, s, d) == ls[..k] + [l'] + ls[k + 1..];
    assert ls == ls[..k] + [ls[k]] + ls[k + 1..];
    HeightSplit(ls[..k] + [l'], ls[k + 1..]);
    HeightSplit(ls[..k], [l']);
    HeightSplit(ls[..k] + [ls[k]], ls[k + 1..]);
    HeightSplit(ls[..k], [ls[k]]);
  }

  /** Raising a line and the chunks on the way to it leaves every cached height right. */
  lemma {:induction false} RaiseExact(par: Par, c: Chunk, path: seq<nat>, k: nat, s: set<nat>, d: int)
    requires Good(par, c) && Leads(c, path) && At(c, path).Leaf? && k < |At(c, path).lines|
    requires s * Ids(c) == OnWay(c, path, 0) + {At(c, path).lines[k].id}
    ensures Exact(Raise(c, s, d)) && Raise(c, s, d).height == c.height + d
    decreases path
  {
    hide Good, Ids, IdsAll, UniqueAll, LinkedAll, Exact, Raise, RaiseAll, OnWay, Linked, Unique;
    if path == [] {
      RaiseLeaf(par, c, k, s, d);
    } else {
      WayBelow(par, c, path, k, s);
      RaiseExact(par, c.children[path[0]], path[1..], k, s, d);
      RaiseBranch(par, c, path[0], s, d);
    }
  }

  lemma RaiseLeaf(par: Par, c: Chunk, k: nat, s: set<nat>, d: int)
    requires Good(par, c) && c.Leaf? && k < |c.lines| && s * Ids(c) == OnWay(c, [], 0) + {c.lines[k].id}
    ensures Exact(Raise(c, s, d)) && Raise(c, s, d).height == c.height + d
  {
    var none: seq<nat> := [];
    assert none[..0] == none && OnWay(c, none, 0) == {c.id};
    assert c.id in s * Ids(c);
    LineOf(c, k);
    LeafIs(c);
    assert s * LineIds(c.lines) == {c.lines[k].id};
    OneLineRaised(c.lines, k, s, d);
  }

  /** The part of the way that is in a child, and no part of it in the others. */
  lemma WayBelow(par: Par, c: Chunk, path: seq<nat>, k: nat, s: set<nat>)
    requires Good(par, c) && Leads(c, path) && path != [] && At(c, path).Leaf? && k < |At(c, path).lines|
    requires s * Ids(c) == OnWay(c, path, 0) + {At(c, path).lines[k].id}
    ensures var i := path[0]; var x := c.children[i];
      && s * Ids(x) == OnWay(x, path[1..], 0) + {At(x, path[1..]).lines[k].id} && c.id in s
      && s !! IdsAll(c.children[..i]) && s !! IdsAll(c.children[i + 1..])
      && Good(par, x) && At(x, path[1..]) == At(c, path)
  {
    var i, line := path[0], At(c, path).lines[k].id;
    var a, x, b := c.children[..i], c.children[i], c.children[i + 1..];
    assert At(x, path[1..]) == At(c, path);
    GoodChild(par, c, i);
    GoodAt(par, x, path[1..]);
    OnWayIn(par, x, path[1..]);
    OnWayDown(c, path, 0);
    BranchIs(par, c);
    TakeOut(par, c.children, i, c.id);
    LineOf(At(c, path), k);
    hide Good, Ids, IdsAll, UniqueAll, LinkedAll, OnWay, At, Leads;
    assert c.id in s * Ids(c);
    WaySets(s, Ids(c), c.id, IdsAll(a), Ids(x), IdsAll(b), OnWay(x, path[1..], 0) + {line});
    assert OnWay(c, path, 0) + {line} == {c.id} + (OnWay(x, path[1..], 0) + {line});
  }

  lemma WaySets(s: set<nat>, all: set<nat>, id: nat, a: set<nat>, x: set<nat>, b: set<nat>, way: set<nat>)
    requires all == {id} + (a + x + b) && id !in x && a !! x && a !! b && x !! b && way <= x && id !in a && id !in b
    ensures s * all == {id} + way ==> s * x == way && s !! a && s !! b
  {
    if s * all == {id} + way {
      forall y | y in a + b ensures y !in s {
        assert y !in {id} + way && (y in s ==> y in s * all);
      }
      forall y | y in s * x ensures y in way { assert y in s * all; }
      forall y | y in way ensures y in s * x { assert y in s * all; }
    }
  }

  lemma LineOf(l: Chunk, k: nat)
    requires l.Leaf? && k < |l.lines|
    ensures l.lines[k].id in Ids(l)
  {
    assert l.lines[k].id in LineIds(l.lines);
  }

  lemma RaiseBranch(par: Par, c: Chunk, i: nat, s: set<nat>, d: int)
    requires c.Branch? && i < |c.children| && Good(par, c) && c.id in s
    requires s !! IdsAll(c.children[..i]) && s !! IdsAll(c.children[i + 1..])
    requires var x := c.children[i]; Exact(Raise(x, s, d)) && Raise(x, s, d).height == x.height + d
    ensures Exact(Raise(c, s, d)) && Raise(c, s, d).height == c.height + d
  {
    hide *;
    var a, x, b := c.children[..i], c.children[i], c.children[i + 1..];
    var x' := Raise(x, s, d);
    GoodChild(par, c, i);
    GoodSums(par, c);
    GoodSums(par, x);
    Heights(x');
    RaiseKeeps(x, s, d, map[]);
    RaiseRow(c, i, s, d);
    ReplacedRowExact(c.children, i, x');
    HeightThree(FlatAll(a), Flat(x), Flat(x'), FlatAll(b));
    ToBranch(Branch(c.id, a + [x'] + b, c.size, c.height + d));
  }

  lemma GoodSums(par: Par, c: Chunk)
    requires Good(par, c)
    ensures c.height == HeightOf(Flat(c)) && (c.Branch? ==> ExactAll(c.children) && c.size == |Flat(c)| && Flat(c) == FlatAll(c.children))
  {
  }

  lemma RaiseRow(c: Chunk, i: nat, s: set<nat>, d: int)
    requires c.Branch? && i < |c.children| && c.id in s
    requires s !! IdsAll(c.children[..i]) && s !! IdsAll(c.children[i + 1..])
    ensures Raise(c, s, d) == Branch(c.id, c.children[..i] + [Raise(c.children[i], s, d)] + c.children[i + 1..], c.size, c.height + d)
  {
    var a, x, b := c.children[..i], c.children[i], c.children[i + 1..];
    assert c.children == a + [x] + b;
    assert RaiseAll([x], s, d) == [Raise(x, s, d)];
    RaiseAllNothing(a, s, d);
    RaiseAllNothing(b, s, d);
    RaiseSplit(a + [x], b, s, d);
    RaiseSplit(a, [x], s, d);
  }

  lemma ReplacedRowExact(row: seq<Chunk>, i: nat, x': Chunk)
    requires i < |row| && ExactAll(row) && Exact(x')
    ensures var a, b := row[..i], row[i + 1..];
      && FlatAll(row) == FlatAll(a) + Flat(row[i]) + FlatAll(b)
      && FlatAll(a + [x'] + b) == FlatAll(a) + Flat(x') + FlatAll(b) && ExactAll(a + [x'] + b)
  {
    hide *;
    var a, x, b := row[..i], row[i], row[i + 1..];
    assert row == a + [x] + b;
    Rows(a + [x], b);
    Rows(a, [x]);
    Lone(x);
    Rows(a + [x'], b);
    Rows(a, [x']);
    Lone(x');
  }

  lemma HeightThree(a: seq<Line>, x: seq<Line>, x': seq<Line>, b: seq<Line>)
    ensures HeightOf(a + x' + b) - HeightOf(a + x + b) == HeightOf(x') - HeightOf(x)
  {
    HeightSplit(a + x', b);
    HeightSplit(a, x');
    HeightSplit(a + x, b);
    HeightSplit(a, x);
  }

  lemma OnWayNext(c: Chunk, path: seq<nat>, j: nat)
    requires j <= |path|
    ensures OnWay(c, path, j) == {At(c, path[..j]).id} + OnWay(c, path, j + 1)
  {
  }

  /** Where the walk up is: the next chunk to raise, if any, is `left - 1` steps down. */
  ghost predicate Above(par: Par, r: Chunk, path: seq<nat>, left: nat, n: nat)
    requires left <= |path| + 1
  {
    (n in par <==> left > 0) && (left > 0 ==> par[n] == At(r, path[..left - 1]).id)
  }

  lemma AboveNext(par: Par, r: Chunk, path: seq<nat>, left: nat)
    requires Whole(par, r) && Leads(r, path) && left <= |path|
    ensures Above(par, r, path, left, At(r, path[..left]).id)
  {
    hide Good, Leads, At, Heap;
    OnWayIn(par, r, path);
    TopIsRoot(par, r, path[..left]);
    if left > 0 {
      StepUp(par, r, path[..left]);
      assert path[..left][..left - 1] == path[..left - 1];
    }
  }

  /** When the walk has come to the top, the document is right and one line is higher. */
  lemma WholeRaised(par: Par, r: Chunk, path: seq<nat>, k: nat, no: nat, d: int)
    requires Whole(par, r) && Leads(r, path) && At(r, path).Leaf? && k < |At(r, path).lines|
    requires no < |Flat(r)| && Flat(r)[no].id == At(r, path).lines[k].id
    ensures var line := Flat(r)[no]; var r' := Raise(r, OnWay(r, path, 0) + {line.id}, d);
      && Whole(par, r') && Ids(r') == Ids(r) && (Bounded(r') <==> Bounded(r))
      && Flat(r') == Flat(r)[no := line.(height := line.height + d)] && Numbered(r, line.id, no)
  {
    var line := Flat(r)[no];
    var s := OnWay(r, path, 0) + {line.id};
    RaiseKeeps(r, s, d, par);
    NumberUnique(r, line.id, no);
    FlatIds(r);
    OnWayIn(par, r, path);
    GoodAt(par, r, path);
    LineOf(At(r, path), k);
    hide Ids, Unique, Linked, Exact, At, Leads, Bounded, Flat;
    assert s * Ids(r) == s;
    RaiseExact(par, r, path, k, s, d);
    forall x | x in s * LineIds(Flat(r)) ensures x == line.id {
      if x != line.id {
        ChunkNoLine(par, r, path, x);
      }
    }
    assert line.id in LineIds(Flat(r));
    assert s * LineIds(Flat(r)) == {line.id};
    OneLineRaised(Flat(r), no, s, d);
  }

  /** No chunk is a line. */
  lemma {:induction false} ChunkNoLine(par: Par, c: Chunk, path: seq<nat>, x: nat)
    requires Good(par, c) && Leads(c, path) && x in OnWay(c, path, 0)
    ensures x !in LineIds(Flat(c))
    decreases path
  {
    FlatIds(c);
    if path != [] && x != c.id {
      var i, d := path[0], c.children[path[0]];
      var a, b := c.children[..i], c.children[i + 1..];
      OnWayDown(c, path, 0);
      GoodChild(par, c, i);
      OnWayIn(par, d, path[1..]);
      ChunkNoLine(par, d, path[1..], x);
      TakeOut(par, c.children, i, c.id);
      FlatAllIds(a);
      FlatAllIds(b);
      FlatOf(c);
      ChildPlace(c.children, i);
      LineIdsJoin(FlatAll(a) + Flat(d), FlatAll(b));
      LineIdsJoin(FlatAll(a), Flat(d));
    } else if path == [] {
      assert path[..0] == path && OnWay(c, path, 0) == {c.id};
    }
  }

  /** Changing the height of a line: the line and every chunk above it are raised, one after the other. */
  method UpdateLineHeight(r: Chunk, par: Par, line: Line, height: int) returns (r': Chunk)
    requires Whole(par, r) && line in Flat(r)
    ensures Whole(par, r') && r'.id == r.id && Ids(r') == Ids(r) && (Bounded(r') <==> Bounded(r))
    ensures forall no: nat :: Numbered(r, line.id, no) ==> Flat(r') == Flat(r)[no := line.(height := height)]
  {
    var diff := height - line.height;
    r' := r;
    ghost var no: nat :| no < |Flat(r)| && Flat(r)[no] == line;
    if diff == 0 {
      NumberUnique(r, line.id, no);
      assert Flat(r)[no := line] == Flat(r);
      return;
    }
    assert line.id in LineIds(Flat(r));
    ghost var path, k := PathToLine(par, r, line.id);
    var n := line.id;
    r' := Raise(r, {n}, diff);
    ghost var left: nat, s := |path| + 1, {n};
    assert path[..|path|] == path && OnWay(r, path, left) == {};
    while n in par
      invariant left <= |path| + 1 && s == OnWay(r, path, left) + {line.id} && r' == Raise(r, s, diff)
      invariant Above(par, r, path, left, n)
      decreases left
    {
      n := par[n];
      left := left - 1;
      OnWayFresh(par, r, path, left, k);
      RaiseMore(r, s, n, diff);
      OnWayNext(r, path, left);
      r', s := Raise(r', {n}, diff), s + {n};
      AboveNext(par, r, path, left);
    }
    WholeRaised(par, r, path, k, no, diff);
  }
}
