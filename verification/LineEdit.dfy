/**
 Giving a line of the tree another text: nothing else changes.
 */
module LineEdit {
  import opened LineTree
  import opened LineLinks
  import opened LineUnlinks
  import opened LinePaths
  import opened LineUp

  function RetextLines(ls: seq<Line>, x: nat, t: string): (r: seq<Line>)
    ensures |r| == |ls|
  {
    seq(|ls|, i requires 0 <= i < |ls| => if ls[i].id == x then ls[i].(text := t) else ls[i])
  }

  function Retext(c: Chunk, x: nat, t: string): (r: Chunk)
    ensures r.id == c.id && (r.Leaf? <==> c.Leaf?)
    decreases c
  {
    match c
    case Leaf(id, lines, h) => Leaf(id, RetextLines(lines, x, t), h)
    case Branch(id, children, size, h) => Branch(id, RetextAll(children, x, t), size, h)
  }

  function RetextAll(cs: seq<Chunk>, x: nat, t: string): (r: seq<Chunk>)
    ensures |r| == |cs|
    decreases cs
  {
    if cs == [] then [] else [Retext(cs[0], x, t)] + RetextAll(cs[1..], x, t)
  }

  lemma {:induction false} RetextHeight(ls: seq<Line>, x: nat, t: string)
    ensures HeightOf(RetextLines(ls, x, t)) == HeightOf(ls)
  {
    if ls != [] {
      RetextHeight(ls[1..], x, t);
      assert RetextLines(ls, x, t)[1..] == RetextLines(ls[1..], x, t);
    }
  }

  lemma {:induction false} RetextKeeps(c: Chunk, x: nat, t: string, par: Par)
    requires Exact(c)
    ensures var c' := Retext(c, x, t);
      && Ids(c') == Ids(c) && (Unique(c') <==> Unique(c)) && (Linked(par, c') <==> Linked(par, c)) && (Bounded(c') <==> Bounded(c))
      && Flat(c') == RetextLines(Flat(c), x, t) && Exact(c') && ChunkSize(c') == ChunkSize(c) && c'.height == c.height
    decreases c
  {
    RetextHeight(Flat(c), x, t);
    match c
    case Leaf(id, lines, _) =>
      SameIds(lines, RetextLines(lines, x, t));
    case Branch(id, children, _, _) =>
      RetextAllKeeps(children, x, t, par, id);
  }

  lemma {:induction false} RetextAllKeeps(cs: seq<Chunk>, x: nat, t: string, par: Par, p: nat)
    requires ExactAll(cs)
    ensures var cs' := RetextAll(cs, x, t);
      && IdsAll(cs') == IdsAll(cs) && (UniqueAll(cs') <==> UniqueAll(cs)) && (LinkedAll(par, cs', p) <==> LinkedAll(par, cs, p))
      && (BoundedAll(cs') <==> BoundedAll(cs)) && FlatAll(cs') == RetextLines(FlatAll(cs), x, t) && ExactAll(cs')
    decreases cs
  {
    hide Ids, Unique, Linked, Bounded, Flat, IdsAll, UniqueAll, LinkedAll, BoundedAll, FlatAll, Exact, ExactAll, Retext, RetextLines;
    if cs == [] {
      RetextNone(x, t);
    } else {
      var c', rest := Retext(cs[0], x, t), RetextAll(cs[1..], x, t);
      assert cs == [cs[0]] + cs[1..];
      Rows([cs[0]], cs[1..]);
      Lone(cs[0]);
      RetextKeeps(cs[0], x, t, par);
      RetextAllKeeps(cs[1..], x, t, par, p);
      First(cs[0], cs[1..], par, p);
      First(c', rest, par, p);
      Rows([c'], rest);
      Lone(c');
      RetextLinesSplit(Flat(cs[0]), FlatAll(cs[1..]), x, t);
    }
  }

  lemma RetextNone(x: nat, t: string)
    ensures FlatAll([]) == RetextLines(FlatAll([]), x, t)
  {
  }

  lemma RetextLinesSplit(a: seq<Line>, b: seq<Line>, x: nat, t: string)
    ensures RetextLines(a + b, x, t) == RetextLines(a, x, t) + RetextLines(b, x, t)
  {
  }

  /** In the document just the one line changes. */
  lemma RetextWhole(par: Par, r: Chunk, no: nat, t: string)
    requires Whole(par, r) && no < |Flat(r)|
    ensures var line := Flat(r)[no]; var r' := Retext(r, line.id, t);
      && Whole(par, r') && Ids(r') == Ids(r) && (Bounded(r') <==> Bounded(r)) && Flat(r') == Flat(r)[no := line.(text := t)]
  {
    var line := Flat(r)[no];
    NumberUnique(r, line.id, no);
    RetextKeeps(r, line.id, t, par);
  }
}
