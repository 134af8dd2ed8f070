/**
 The parent links after a removal: lines that go lose their parent, chunks that stay keep theirs, and
 the lines of a branch that has been collapsed have the new leaf as parent.
 */
module LineUnlinks {
  import opened LineTree
  import opened LineLinks

  function RemovePar(c: Chunk, at: nat, n: nat, next: nat, par: Par): Par
    requires c.Leaf? ==> at + n <= |c.lines|
    decreases c
  {
    match c
    case Leaf(id, lines, _) => par - LineIds(lines[at..at + n])
    case Branch(id, children, size, _) =>
      var (cs, _, next') := RemoveFrom(children, at, n, next);
      var par' := RemoveFromPar(children, at, n, next, par);
      if size - n < COLLAPSE && (|cs| != 1 || cs[0].Branch?) then SetLines(par', FlatAll(cs), next')[next' := id]
      else par'
  }

  function RemoveFromPar(cs: seq<Chunk>, at: nat, n: nat, next: nat, par: Par): Par
    decreases cs
  {
    if cs == [] then par
    else
      var c, sz := cs[0], ChunkSize(cs[0]);
      if at < sz then
        var rm: nat := Min(n, sz - at);
        var next1 := Remove(c, at, rm, next).1;
        var par1 := Dropped(RemovePar(c, at, rm, next, par), c, sz == rm);
        if n == rm then par1 else RemoveFromPar(cs[1..], 0, n - rm, next1, par1)
      else RemoveFromPar(cs[1..], if sz < 0 then at else at - sz, n, next, par)
  }

  /** A child that has lost all its lines loses its parent. */
  function Dropped(par: Par, c: Chunk, drop: bool): Par {
    if drop then par - {c.id} else par
  }

  ghost predicate Gone(par: Par, ls: seq<Line>) {
    forall i :: 0 <= i < |ls| ==> ls[i].id !in par
  }

  /** Everything in `s` is from `t` or new. */
  ghost predicate From(s: set<nat>, t: set<nat>, next: nat) {
    forall x :: x in s ==> x in t || next <= x
  }

  /** A row of chunks whose links are right. */
  ghost predicate Row(par: Par, cs: seq<Chunk>, p: nat, next: nat) {
    UniqueAll(cs) && LinkedAll(par, cs, p) && Below(IdsAll(cs), next)
  }

  /** What removal is to leave of the links of a chunk, and of a row of chunks. */
  ghost predicate Left(par: Par, c: Chunk, par': Par, c': Chunk, at: nat, n: nat, next: nat, next': nat)
    requires at + n <= |Flat(c)|
  {
    && next <= next' && c'.id == c.id && Unique(c') && Linked(par', c') && Below(Ids(c'), next')
    && From(Ids(c'), Ids(c), next) && AgreeBut(par, par', Ids(c) - {c.id}, next) && Gone(par', Flat(c)[at..at + n])
  }

  ghost predicate LeftAll(par: Par, cs: seq<Chunk>, par': Par, cs': seq<Chunk>, p: nat, at: nat, n: nat, next: nat, next': nat)
    requires at + n <= |FlatAll(cs)|
  {
    && next <= next' && Row(par', cs', p, next')
    && From(IdsAll(cs'), IdsAll(cs), next) && AgreeBut(par, par', IdsAll(cs), next) && Gone(par', FlatAll(cs)[at..at + n])
  }

  /** The lines of a tree are among its objects, and differ. */
  lemma {:induction false} FlatIds(c: Chunk)
    requires Unique(c)
    ensures LineIds(Flat(c)) <= Ids(c) - {c.id} && DistinctLines(Flat(c))
    decreases c
  {
    if c.Branch? {
      FlatAllIds(c.children);
    }
  }

  lemma {:induction false} FlatAllIds(cs: seq<Chunk>)
    requires UniqueAll(cs)
    ensures LineIds(FlatAll(cs)) <= IdsAll(cs) && DistinctLines(FlatAll(cs))
    decreases cs
  {
    if cs != [] {
      FlatIds(cs[0]);
      FlatAllIds(cs[1..]);
      LineIdsSplit(Flat(cs[0]), FlatAll(cs[1..]));
    }
  }

  /** The lines that go differ from those that stay. */
  lemma CutIds(ls: seq<Line>, at: nat, n: nat)
    requires DistinctLines(ls) && at + n <= |ls|
    ensures var cut := Cut(ls, at, n);
      DistinctLines(cut) && LineIds(cut) <= LineIds(ls) && LineIds(ls[at..at + n]) <= LineIds(ls) && LineIds(cut) !! LineIds(ls[at..at + n])
  {
    var a, b, c := ls[..at], ls[at..at + n], ls[at + n..];
    assert ls == a + (b + c);
    LineIdsSplit(a, b + c);
    LineIdsSplit(b, c);
    LineIdsSplit(a, c);
  }

  lemma GoneIds(par: Par, ls: seq<Line>)
    ensures Gone(par, ls) <==> LineIds(ls) !! par.Keys
  {
    if LineIds(ls) !! par.Keys {
      assert forall i :: 0 <= i < |ls| ==> ls[i].id in LineIds(ls);
    }
  }

  lemma LeafLeft(c: Chunk, at: nat, n: nat, next: nat, par: Par)
    requires c.Leaf? && Unique(c) && Linked(par, c) && Below(Ids(c), next) && at + n <= |c.lines|
    ensures Left(par, c, RemovePar(c, at, n, next, par), Remove(c, at, n, next).0, at, n, next, next)
  {
    CutIds(c.lines, at, n);
    var cut, par' := Cut(c.lines, at, n), RemovePar(c, at, n, next, par);
    GoneIds(par', c.lines[at..at + n]);
    forall i | 0 <= i < |cut| ensures Child(par', cut[i].id, c.id) {
      assert cut[i] == c.lines[if i < at then i else i + n] && cut[i].id in LineIds(cut);
    }
  }

  /** A branch over what removal has left of its children, collapsed or not. */
  lemma BranchLeft(c: Chunk, at: nat, n: nat, cs: seq<Chunk>, par: Par, par1: Par, next: nat, next1: nat, size: int, h: int)
    requires c.Branch? && Unique(c) && Below(Ids(c), next) && at + n <= |Flat(c)|
    requires LeftAll(par, c.children, par1, cs, c.id, at, n, next, next1)
    ensures Left(par, c, par1, Branch(c.id, cs, size, h), at, n, next, next1)
  {
    assert Ids(c) == {c.id} + IdsAll(c.children) && Ids(c) - {c.id} == IdsAll(c.children);
  }

  lemma CollapsedLinks(id: nat, ids: set<nat>, lines: seq<Line>, gone: seq<Line>, par: Par, par1: Par, next: nat, next1: nat, size: int, h: int)
    requires id < next <= next1 && id !in ids && Below(ids, next) && AgreeBut(par, par1, ids, next) && Gone(par1, gone)
    requires DistinctLines(lines) && Below(LineIds(lines), next1) && From(LineIds(lines), ids, next)
    requires LineIds(gone) <= ids && LineIds(gone) !! LineIds(lines)
    ensures var b, par2 := Branch(id, [Leaf(next1, lines, HeightOf(lines))], size, h), SetLines(par1, lines, next1)[next1 := id];
      && Unique(b) && Linked(par2, b) && Below(Ids(b), next1 + 1) && From(Ids(b), {id} + ids, next) && AgreeBut(par, par2, ids, next)
      && Gone(par2, gone)
  {
    var leaf, par2 := Leaf(next1, lines, HeightOf(lines)), SetLines(par1, lines, next1)[next1 := id];
    NewLeaf(par1, lines, next1, id, HeightOf(lines));
    One(par2, leaf, id);
    GoneIds(par1, gone);
    GoneIds(par2, gone);
  }

  lemma BranchCollapsed(c: Chunk, at: nat, n: nat, cs: seq<Chunk>, par: Par, par1: Par, next: nat, next1: nat, size: int, h: int)
    requires c.Branch? && Unique(c) && Below(Ids(c), next) && at + n <= |Flat(c)|
    requires LeftAll(par, c.children, par1, cs, c.id, at, n, next, next1) && FlatAll(cs) == Cut(Flat(c), at, n)
    ensures var lines := FlatAll(cs);
      Left(par, c, SetLines(par1, lines, next1)[next1 := c.id], Branch(c.id, [Leaf(next1, lines, HeightOf(lines))], size, h), at, n, next, next1 + 1)
  {
    hide Flat, FlatAll, HeightOf, SetLines, Unique, UniqueAll, Linked, LinkedAll, Ids, IdsAll, DistinctLines, LineIds, Cut, Gone, AgreeBut;
    BranchIs(par, c);
    assert Ids(c) - {c.id} == IdsAll(c.children);
    FlatIds(c);
    FlatAllIds(cs);
    FlatOf(c);
    CutIds(Flat(c), at, n);
    CollapsedLinks(c.id, IdsAll(c.children), FlatAll(cs), Flat(c)[at..at + n], par, par1, next, next1, size, h);
  }

  lemma Untouched(par: Par, cs: seq<Chunk>, p: nat, next: nat)
    requires Row(par, cs, p, next)
    ensures LeftAll(par, cs, par, cs, p, 0, 0, next, next)
  {
  }

  /** Removing from the first chunk of a row leaves the links of the others. */
  lemma AfterFirst(par: Par, cs: seq<Chunk>, par1: Par, c': Chunk, p: nat, at: nat, rm: nat, next: nat, next1: nat, drop: bool)
    requires cs != [] && Row(par, cs, p, next)
    requires at + rm <= |Flat(cs[0])| && Left(par, cs[0], par1, c', at, rm, next, next1)
    ensures Row(Dropped(par1, cs[0], drop), cs[1..], p, next1)
    ensures AgreeBut(par, Dropped(par1, cs[0], drop), Ids(cs[0]), next)
  {
    assert cs[0].id in Ids(cs[0]);
    LinkedAllFrame(par, Dropped(par1, cs[0], drop), cs[1..], p, Ids(cs[0]), next);
  }

  /** What is left of the first chunk, in front of what is left of the others. */
  lemma RowLeft(par: Par, cs: seq<Chunk>, par1: Par, c': Chunk, par3: Par, rest: seq<Chunk>, p: nat, at: nat, rm: nat, n: nat,
                next: nat, next1: nat, next2: nat, drop: bool)
    requires cs != [] && Row(par, cs, p, next)
    requires at + rm <= |Flat(cs[0])| && Left(par, cs[0], par1, c', at, rm, next, next1)
    requires rm <= n && n - rm <= |FlatAll(cs[1..])| && (rm < n ==> at + rm == |Flat(cs[0])|)
    requires LeftAll(Dropped(par1, cs[0], drop), cs[1..], par3, rest, p, 0, n - rm, next1, next2)
    ensures at + n <= |FlatAll(cs)| && LeftAll(par, cs, par3, (if drop then [] else [c']) + rest, p, at, n, next, next2)
  {
    var c, par2 := cs[0], Dropped(par1, cs[0], drop);
    AfterFirst(par, cs, par1, c', p, at, rm, next, next1, drop);
    RowGone(cs, par1, par2, par3, at, rm, n, next, next1);
    assert AgreeBut(par, par3, IdsAll(cs), next);
    if drop {
      assert [] + rest == rest;
    } else {
      FirstStays(par, cs, par1, c', par3, p, next, next1);
      assert ([c'] + rest)[1..] == rest;
    }
  }

  lemma FirstStays(par: Par, cs: seq<Chunk>, par1: Par, c': Chunk, par3: Par, p: nat, next: nat, next1: nat)
    requires cs != [] && Row(par, cs, p, next) && next <= next1
    requires c'.id == cs[0].id && Unique(c') && Linked(par1, c') && Below(Ids(c'), next1) && From(Ids(c'), Ids(cs[0]), next)
    requires AgreeBut(par, par1, Ids(cs[0]) - {cs[0].id}, next) && AgreeBut(par1, par3, IdsAll(cs[1..]), next1)
    ensures Child(par3, c'.id, p) && Linked(par3, c') && Ids(c') !! IdsAll(cs[1..])
  {
    assert c'.id in Ids(cs[0]);
    LinkedFrame(par1, par3, c', IdsAll(cs[1..]), next1);
  }

  lemma RowGone(cs: seq<Chunk>, par1: Par, par2: Par, par3: Par, at: nat, rm: nat, n: nat, next: nat, next1: nat)
    requires cs != [] && UniqueAll(cs) && Below(IdsAll(cs), next) && next <= next1
    requires at + rm <= |Flat(cs[0])| && rm <= n && n - rm <= |FlatAll(cs[1..])| && (rm < n ==> at + rm == |Flat(cs[0])|)
    requires Gone(par1, Flat(cs[0])[at..at + rm]) && par2.Keys <= par1.Keys
    requires AgreeBut(par2, par3, IdsAll(cs[1..]), next1) && Gone(par3, FlatAll(cs[1..])[0..n - rm])
    ensures at + n <= |FlatAll(cs)| && Gone(par3, FlatAll(cs)[at..at + n])
  {
    var a, b := Flat(cs[0]), FlatAll(cs[1..]);
    assert FlatAll(cs) == a + b;
    FlatIds(cs[0]);
    hide Flat, FlatAll, Ids, Unique, UniqueAll;
    var ls: seq<Line> := (a + b)[at..at + n];
    forall i | 0 <= i < n ensures ls[i].id !in par3 {
      if i < rm {
        assert ls[i] == a[at..at + rm][i] && a[at + i].id in LineIds(a);
      } else {
        assert ls[i] == b[0..n - rm][i - rm];
      }
    }
  }

  lemma FlatFirst(cs: seq<Chunk>)
    requires cs != []
    ensures FlatAll(cs) == Flat(cs[0]) + FlatAll(cs[1..])
  {
  }

  lemma SliceLater(a: seq<Line>, b: seq<Line>, at: nat, n: nat)
    requires |a| <= at && at + n <= |a| + |b|
    ensures (a + b)[at..at + n] == b[at - |a|..at - |a| + n]
  {
  }

  lemma RowLater(par: Par, cs: seq<Chunk>, par': Par, rest: seq<Chunk>, p: nat, at: nat, n: nat, next: nat, next': nat)
    requires cs != [] && Row(par, cs, p, next)
    requires |Flat(cs[0])| <= at && at + n <= |FlatAll(cs)|
    requires at - |Flat(cs[0])| + n <= |FlatAll(cs[1..])| && LeftAll(par, cs[1..], par', rest, p, at - |Flat(cs[0])|, n, next, next')
    ensures LeftAll(par, cs, par', [cs[0]] + rest, p, at, n, next, next')
  {
    hide Flat, FlatAll, AgreeBut, Gone, From, Row, IdsAll;
    FlatFirst(cs);
    SliceLater(Flat(cs[0]), FlatAll(cs[1..]), at, n);
    FirstKept(par, cs, par', rest, p, next, next');
  }

  /** A row whose first chunk stays as it is. */
  lemma FirstKept(par: Par, cs: seq<Chunk>, par': Par, rest: seq<Chunk>, p: nat, next: nat, next': nat)
    requires cs != [] && Row(par, cs, p, next) && next <= next' && Row(par', rest, p, next')
    requires From(IdsAll(rest), IdsAll(cs[1..]), next) && AgreeBut(par, par', IdsAll(cs[1..]), next)
    ensures Row(par', [cs[0]] + rest, p, next')
    ensures From(IdsAll([cs[0]] + rest), IdsAll(cs), next) && AgreeBut(par, par', IdsAll(cs), next)
  {
    assert cs[0].id in Ids(cs[0]) && ([cs[0]] + rest)[1..] == rest;
    LinkedFrame(par, par', cs[0], IdsAll(cs[1..]), next);
    hide Ids, Unique, Linked;
  }

  /** Removal leaves every parent link right, and takes the parents of the lines removed. */
  /** What holds of the children of a branch. */
  lemma OfChildren(c: Chunk, next: nat, par: Par)
    requires c.Branch? && Exact(c) && Bounded(c) && Unique(c) && Linked(par, c) && Below(Ids(c), next)
    ensures ExactAll(c.children) && BoundedAll(c.children) && Row(par, c.children, c.id, next)
  {
  }

  lemma CutIs(cs: seq<Chunk>, at: nat, n: nat, cs': seq<Chunk>, less: int)
    requires at + n <= |FlatAll(cs)| && RemovedAll(cs, at, n, cs', less)
    ensures FlatAll(cs') == Cut(FlatAll(cs), at, n)
  {
  }

  lemma {:induction false} RemoveLinks(c: Chunk, at: nat, n: nat, next: nat, par: Par)
    requires Exact(c) && Bounded(c) && at + n <= |Flat(c)|
    requires Unique(c) && Linked(par, c) && Below(Ids(c), next)
    ensures var (c', next') := Remove(c, at, n, next); Left(par, c, RemovePar(c, at, n, next, par), c', at, n, next, next')
    decreases c
  {
    hide LeftAll, Left, Exact, ExactAll, Bounded, BoundedAll, Flat, FlatAll, RemoveFrom, RemoveFromPar, Unique, Linked, Ids, Below, RemovedAll, Row, Cut, HeightOf;
    if c.Leaf? {
      LeafOf(c);
      LeafLeft(c, at, n, next, par);
    } else {
      FlatOf(c);
      OfChildren(c, next, par);
      RemoveFromLinks(c.children, at, n, next, par, c.id);
      RemoveFromCuts(c.children, at, n, next);
      var (cs, less, next1) := RemoveFrom(c.children, at, n, next);
      var par1 := RemoveFromPar(c.children, at, n, next, par);
      CutIs(c.children, at, n, cs, less);
      if c.size - n < COLLAPSE && (|cs| != 1 || cs[0].Branch?) {
        BranchCollapsed(c, at, n, cs, par, par1, next, next1, c.size - n, c.height - less);
      } else {
        BranchLeft(c, at, n, cs, par, par1, next, next1, c.size - n, c.height - less);
      }
    }
  }

  lemma {:induction false} RemoveFromLinks(cs: seq<Chunk>, at: nat, n: nat, next: nat, par: Par, p: nat)
    requires ExactAll(cs) && BoundedAll(cs) && at + n <= |FlatAll(cs)|
    requires Row(par, cs, p, next)
    ensures var (cs', _, next') := RemoveFrom(cs, at, n, next); LeftAll(par, cs, RemoveFromPar(cs, at, n, next, par), cs', p, at, n, next, next')
    decreases cs
  {
    hide *;
    if cs == [] {
      RowEmpty(at, n, next, par, p);
    } else {
      var c, sz := cs[0], ChunkSize(cs[0]);
      Uncons(cs);
      UnconsLinks(cs, par, p, next);
      RemoveFromUnfold(cs, at, n, next);
      RowUnfold(cs, at, n, next, par);
      if at < sz {
        var rm: nat := if n < sz - at then n else sz - at;
        RemoveLinks(c, at, rm, next, par);
        var (c', next1) := Remove(c, at, rm, next);
        var par1 := RemovePar(c, at, rm, next, par);
        var par2 := Dropped(par1, c, sz == rm);
        AfterFirst(par, cs, par1, c', p, at, rm, next, next1, sz == rm);
        if n == rm {
          Untouched(par2, cs[1..], p, next1);
          RowLeft(par, cs, par1, c', par2, cs[1..], p, at, rm, n, next, next1, next1, sz == rm);
        } else {
          RemoveFromLinks(cs[1..], 0, n - rm, next1, par2, p);
          var (rest, less, next2) := RemoveFrom(cs[1..], 0, n - rm, next1);
          RowLeft(par, cs, par1, c', RemoveFromPar(cs[1..], 0, n - rm, next1, par2), rest, p, at, rm, n, next, next1, next2, sz == rm);
        }
      } else {
        RemoveFromLinks(cs[1..], at - sz, n, next, par, p);
        var (rest, less, next') := RemoveFrom(cs[1..], at - sz, n, next);
        RowLater(par, cs, RemoveFromPar(cs[1..], at - sz, n, next, par), rest, p, at, n, next, next');
      }
    }
  }

  lemma RowEmpty(at: nat, n: nat, next: nat, par: Par, p: nat)
    requires at + n <= |FlatAll([])|
    ensures var (cs', _, next') := RemoveFrom([], at, n, next); LeftAll(par, [], RemoveFromPar([], at, n, next, par), cs', p, at, n, next, next')
  {
  }

  lemma RowUnfold(cs: seq<Chunk>, at: nat, n: nat, next: nat, par: Par)
    requires cs != [] && ChunkSize(cs[0]) >= 0
    ensures var c, sz := cs[0], ChunkSize(cs[0]);
      if at >= sz then RemoveFromPar(cs, at, n, next, par) == RemoveFromPar(cs[1..], at - sz, n, next, par)
      else
        var rm: nat := if n < sz - at then n else sz - at;
        var next1 := Remove(c, at, rm, next).1;
        var par2 := Dropped(RemovePar(c, at, rm, next, par), c, sz == rm);
        RemoveFromPar(cs, at, n, next, par) == if n == rm then par2 else RemoveFromPar(cs[1..], 0, n - rm, next1, par2)
  {
    hide Remove, RemovePar, Dropped;
  }

  lemma UnconsLinks(cs: seq<Chunk>, par: Par, p: nat, next: nat)
    requires cs != [] && Row(par, cs, p, next)
    ensures Unique(cs[0]) && Linked(par, cs[0]) && Below(Ids(cs[0]), next) && Row(par, cs[1..], p, next)
  {
  }

  /** Removing from the document: the lines that are left have their parents, the others have none. */
  lemma RemoveRootLinks(r: Chunk, at: nat, n: nat, next: nat, par: Par)
    requires TreeOk(par, r, next) && RootOk(r) && Bounded(r) && at + n <= |Flat(r)|
    ensures var (r', next') := Remove(r, at, n, next); var par' := RemovePar(r, at, n, next, par);
      next <= next' && TreeOk(par', r', next') && From(Ids(r'), Ids(r), next) && Gone(par', Flat(r)[at..at + n])
  {
    hide Exact, Bounded, Flat, Unique, Linked, Remove, RemovePar;
    RemoveLinks(r, at, n, next, par);
    assert r.id in Ids(r);
  }

  /** All lines of a chunk of a row, and it has some, are among the `n` from line `at` of the row on. */
  predicate Emptied(cs: seq<Chunk>, i: nat, at: nat, n: nat)
    requires i < |cs|
  {
    at <= |FlatAll(cs[..i])| && |FlatAll(cs[..i])| + |Flat(cs[i])| <= at + n && |Flat(cs[i])| > 0
  }

  lemma EmptiedFirst(cs: seq<Chunk>, at: nat, n: nat)
    requires cs != [] && Emptied(cs, 0, at, n)
    ensures at == 0 && 0 < |Flat(cs[0])| <= n
  {
    assert cs[..0] == [];
  }

  lemma EmptiedLater(cs: seq<Chunk>, i: nat, at: nat, n: nat)
    requires 0 < i < |cs| && Emptied(cs, i, at, n)
    ensures var sz := |Flat(cs[0])|;
      if at < sz then sz - at < n && Emptied(cs[1..], i - 1, 0, n - (sz - at)) else Emptied(cs[1..], i - 1, at - sz, n)
  {
    assert cs[..i][0] == cs[0] && cs[..i][1..] == cs[1..][..i - 1];
    assert FlatAll(cs[..i]) == Flat(cs[0]) + FlatAll(cs[1..][..i - 1]);
    hide Flat, FlatAll;
  }

  /** A chunk that loses all its lines loses its parent. */
  lemma {:induction false} EmptiedLoses(cs: seq<Chunk>, at: nat, n: nat, next: nat, par: Par, p: nat, i: nat)
    requires ExactAll(cs) && BoundedAll(cs) && at + n <= |FlatAll(cs)| && Row(par, cs, p, next)
    requires i < |cs| && Emptied(cs, i, at, n)
    ensures cs[i].id !in RemoveFromPar(cs, at, n, next, par)
    decreases cs
  {
    hide *;
    var c, sz := cs[0], ChunkSize(cs[0]);
    Uncons(cs);
    UnconsLinks(cs, par, p, next);
    RowUnfold(cs, at, n, next, par);
    if i == 0 {
      EmptiedFirst(cs, at, n);
    } else {
      EmptiedLater(cs, i, at, n);
    }
    if at < sz {
      var rm: nat := sz - at;
      RemoveLinks(c, at, rm, next, par);
      var (c', next1) := Remove(c, at, rm, next);
      var par1 := RemovePar(c, at, rm, next, par);
      var par2 := Dropped(par1, c, sz == rm);
      AfterFirst(par, cs, par1, c', p, at, rm, next, next1, sz == rm);
      if i > 0 {
        EmptiedLoses(cs[1..], 0, n - rm, next1, par2, p, i - 1);
      } else if n > rm {
        RemoveFromLinks(cs[1..], 0, n - rm, next1, par2, p);
        FirstStaysGone(cs, par, p, next, par1, c', at, rm, next1, RemoveFromPar(cs[1..], 0, n - rm, next1, par2), RemoveFrom(cs[1..], 0, n - rm, next1), n);
      } else {
        NowDropped(par1, c);
      }
    } else {
      EmptiedLoses(cs[1..], at - sz, n, next, par, p, i - 1);
    }
  }

  lemma NowDropped(par: Par, c: Chunk)
    ensures c.id !in Dropped(par, c, true)
  {
  }

  lemma FirstStaysGone(cs: seq<Chunk>, par: Par, p: nat, next: nat, par1: Par, c': Chunk, at: nat, rm: nat, next1: nat,
                       par3: Par, rest: (seq<Chunk>, int, nat), n: nat)
    requires cs != [] && Row(par, cs, p, next) && at + rm <= |Flat(cs[0])| && Left(par, cs[0], par1, c', at, rm, next, next1)
    requires rm < n && n - rm <= |FlatAll(cs[1..])|
    requires LeftAll(Dropped(par1, cs[0], true), cs[1..], par3, rest.0, p, 0, n - rm, next1, rest.2)
    ensures cs[0].id !in par3
  {
    hide Flat, FlatAll, Unique, Linked, LinkedAll, Gone, From;
    assert cs[0].id in Ids(cs[0]);
    assert cs[0].id !in IdsAll(cs[1..]);
    NowDropped(par1, cs[0]);
  }
}
