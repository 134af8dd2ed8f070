/**
 Finding lines from the top of the tree down: by number through the cached sizes, by vertical position
 through the cached heights.
 */
module LineLookup {
  import opened LineTree

  lemma ChildrenUpTo(cs: seq<Chunk>, i: nat)
    requires i < |cs|
    ensures FlatAll(cs[..i + 1]) == FlatAll(cs[..i]) + Flat(cs[i])
  {
    hide *;
    assert cs[..i + 1] == cs[..i] + [cs[i]];
    Append(cs[..i], cs[i]);
  }

  /** A child, and what the children before it hold. */
  lemma ChildPlace(cs: seq<Chunk>, i: nat)
    requires i < |cs|
    ensures FlatAll(cs) == FlatAll(cs[..i]) + Flat(cs[i]) + FlatAll(cs[i + 1..])
    ensures FlatAll(cs[..i + 1]) == FlatAll(cs[..i]) + Flat(cs[i])
  {
    hide *;
    ChildrenUpTo(cs, i);
    var a, b := cs[..i + 1], cs[i + 1..];
    assert cs == a + b;
    FlatSplit(a, b);
  }

  /** The child that holds line `n` of a row of chunks, and the number of the line in it. */
  method ChildWithLine(cs: seq<Chunk>, n: nat) returns (i: nat, k: nat)
    requires ExactAll(cs) && n < |FlatAll(cs)|
    ensures i < |cs| && k < |Flat(cs[i])| && Flat(cs[i])[k] == FlatAll(cs)[n]
  {
    i, k := 0, n;
    while ChunkSize(cs[i]) <= k
      invariant i < |cs| && n == |FlatAll(cs[..i])| + k
      decreases |cs| - i
    {
      assert Exact(cs[i]);
      ChildPlace(cs, i);
      assert cs[..|cs|] == cs;
      k := k - ChunkSize(cs[i]);
      i := i + 1;
    }
    assert Exact(cs[i]);
    ChildPlace(cs, i);
  }

  /** The line with a number, or nothing if there is no such line. */
  method GetLine(root: Chunk, n: int) returns (found: bool, line: Line)
    requires RootOk(root)
    ensures found <==> 0 <= n < |Flat(root)|
    ensures found ==> line == Flat(root)[n]
  {
    line := Line(0, "", 0);
    if n < 0 || n >= root.size {
      return false, line;
    }
    var chunk, k: nat := root, n;
    while chunk.Branch?
      invariant Exact(chunk) && k < |Flat(chunk)| && Flat(chunk)[k] == Flat(root)[n]
      decreases chunk
    {
      var i, k' := ChildWithLine(chunk.children, k);
      assert Exact(chunk.children[i]);
      chunk, k := chunk.children[i], k';
    }
    return true, chunk.lines[k];
  }

  /** `n` lines from line `at` on, through the chunks that hold them. */
  method IterN(c: Chunk, at: nat, n: nat) returns (out: seq<Line>)
    requires Exact(c) && at + n <= |Flat(c)|
    ensures out == Flat(c)[at..at + n]
    decreases c
  {
    if c.Leaf? {
      out := [];
      for i := at to at + n
        invariant out == c.lines[at..i]
      {
        out := out + [c.lines[i]];
      }
    } else {
      OfBranch(c);
      out := IterAll(c.children, at, n);
    }
  }

  method IterAll(cs: seq<Chunk>, at: nat, n: nat) returns (out: seq<Line>)
    requires ExactAll(cs) && at + n <= |FlatAll(cs)|
    ensures out == FlatAll(cs)[at..at + n]
    decreases cs
  {
    hide Exact, Flat, FlatAll, ChunkSize, Left;
    out := [];
    var i, a: nat, left: nat := 0, at, n;
    ghost var all := FlatAll(cs)[at..at + n];
    assert cs[0..] == cs;
    LeftAll(FlatAll(cs), at, n);
    while i < |cs|
      invariant i <= |cs| && Left(out, FlatAll(cs[i..]), a, left, all)
    {
      RowFrom(cs, i);
      ghost var here, rest := Flat(cs[i]), FlatAll(cs[i + 1..]);
      var sz: nat := ChunkSize(cs[i]);
      if a < sz {
        var used := if left < sz - a then left else sz - a;
        var part := IterN(cs[i], a, used);
        LeftTakes(out, here, rest, a, used, left, all);
        out := out + part;
        left := left - used;
        if left == 0 {
          LeftNone(out, rest, 0, left, all);
          break;
        }
        a := 0;
      } else {
        LeftSkips(out, here, rest, a, left, all);
        a := a - sz;
      }
      i := i + 1;
    }
    if i == |cs| && out != all {
      NoRow(cs);
      LeftNone(out, FlatAll(cs[i..]), a, left, all);
    }
  }

  lemma NoRow(cs: seq<Chunk>)
    ensures FlatAll(cs[|cs|..]) == []
  {
  }

  lemma NoLine(h: int)
    ensures LineAt([], h) == 0
  {
  }

  /** The line at a height in a row of chunks is in the first one, or after it. */
  lemma HeightFrom(cs: seq<Chunk>, i: nat, h: int)
    requires i < |cs| && ExactAll(cs) && Tall(FlatAll(cs[i..]))
    ensures Tall(FlatAll(cs[i + 1..])) && ChunkSize(cs[i]) >= 0
    ensures LineAt(FlatAll(cs[i..]), h)
      == if h < cs[i].height then LineAt(Flat(cs[i]), h) else ChunkSize(cs[i]) + LineAt(FlatAll(cs[i + 1..]), h - cs[i].height)
  {
    RowFrom(cs, i);
    ExactHeight(cs[i]);
    hide Exact, Flat, FlatAll, ChunkSize, Tall, LineAt, HeightOf;
    var here, rest := Flat(cs[i]), FlatAll(cs[i + 1..]);
    assert [] + here + rest == here + rest;
    TallParts([], here, rest);
    LineAtParts(here, rest, h);
  }

  lemma ExactHeight(c: Chunk)
    requires Exact(c)
    ensures c.height == HeightOf(Flat(c))
  {
  }

  lemma RowFrom(cs: seq<Chunk>, i: nat)
    requires i < |cs| && ExactAll(cs)
    ensures FlatAll(cs[i..]) == Flat(cs[i]) + FlatAll(cs[i + 1..]) && Exact(cs[i]) && ChunkSize(cs[i]) == |Flat(cs[i])|
  {
    assert cs[i..][0] == cs[i] && cs[i..][1..] == cs[i + 1..];
    assert Exact(cs[i]);
  }

  /** What has been gathered, with the `left` lines from index `a` on of a row, is all that is wanted. */
  ghost predicate Left(out: seq<Line>, row: seq<Line>, a: nat, left: nat, all: seq<Line>) {
    a + left <= |row| && out + row[a..a + left] == all
  }

  lemma LeftAll(row: seq<Line>, a: nat, left: nat)
    requires a + left <= |row|
    ensures Left([], row, a, left, row[a..a + left])
  {
  }

  lemma LeftTakes(out: seq<Line>, here: seq<Line>, rest: seq<Line>, a: nat, used: nat, left: nat, all: seq<Line>)
    requires Left(out, here + rest, a, left, all)
    requires a + used <= |here| && used <= left && (used < left ==> a + used == |here|)
    ensures Left(out + here[a..a + used], rest, 0, left - used, all)
  {
    CutAcross(here, rest, a, used, left);
    var part, more := here[a..a + used], rest[0..left - used];
    assert out + (part + more) == (out + part) + more;
  }

  lemma LeftSkips(out: seq<Line>, here: seq<Line>, rest: seq<Line>, a: nat, left: nat, all: seq<Line>)
    requires Left(out, here + rest, a, left, all) && |here| <= a
    ensures Left(out, rest, a - |here|, left, all)
  {
    assert (here + rest)[a..a + left] == rest[a - |here|..a - |here| + left];
  }

  lemma LeftNone(out: seq<Line>, row: seq<Line>, a: nat, left: nat, all: seq<Line>)
    requires Left(out, row, a, left, all) && (left == 0 || row == [])
    ensures out == all
  {
  }

  lemma CutAcross(a: seq<Line>, b: seq<Line>, at: nat, used: nat, n: nat)
    requires at + used <= |a| && used <= n && at + n <= |a| + |b| && (used < n ==> at + used == |a|)
    ensures (a + b)[at..at + n] == a[at..at + used] + b[0..n - used]
  {
  }

  // By height

  /** Every line has some height or none. */
  predicate Tall(ls: seq<Line>) {
    forall i :: 0 <= i < |ls| ==> ls[i].height >= 0
  }

  /** The line that vertical position `h` falls into: lines above it end at or before `h`. */
  function LineAt(ls: seq<Line>, h: int): (n: nat)
    ensures n <= |ls|
  {
    if ls == [] || h < ls[0].height then 0 else 1 + LineAt(ls[1..], h - ls[0].height)
  }

  /** What that means in terms of the height above each line. */
  lemma {:induction false} LineAtMeans(ls: seq<Line>, h: int)
    requires Tall(ls)
    ensures var n := LineAt(ls, h);
      (n > 0 ==> HeightOf(ls[..n]) <= h) && (n < |ls| ==> h < HeightOf(ls[..n + 1]))
  {
    if ls != [] && h >= ls[0].height {
      LineAtMeans(ls[1..], h - ls[0].height);
      var n := LineAt(ls[1..], h - ls[0].height);
      assert ls[..n + 1][1..] == ls[1..][..n];
      if n + 2 <= |ls| {
        assert ls[..n + 2][1..] == ls[1..][..n + 1];
      }
      assert n == 0 ==> ls[1..][..n] == [];
    } else if ls != [] {
      assert ls[..1] == [ls[0]] && [ls[0]][1..] == [];
    }
  }

  lemma {:induction false} TallHeight(ls: seq<Line>)
    requires Tall(ls)
    ensures HeightOf(ls) >= 0
  {
    if ls != [] {
      TallHeight(ls[1..]);
    }
  }

  /** Looking in the first part is enough if the position is above its end, and useless if not. */
  lemma {:induction false} LineAtParts(a: seq<Line>, b: seq<Line>, h: int)
    requires Tall(a + b)
    ensures LineAt(a + b, h) == if h < HeightOf(a) then LineAt(a, h) else |a| + LineAt(b, h - HeightOf(a))
  {
    if a == [] {
      assert a + b == b;
    } else {
      assert (a + b)[0] == a[0] && (a + b)[1..] == a[1..] + b;
      assert Tall(a[1..]) by {
        assert forall i :: 0 <= i < |a[1..]| ==> a[1..][i] == (a + b)[i + 1];
      }
      TallHeight(a[1..]);
      if h >= a[0].height {
        assert Tall(a[1..] + b) by {
          assert forall i :: 0 <= i < |a[1..] + b| ==> (a[1..] + b)[i] == (a + b)[i + 1];
        }
        LineAtParts(a[1..], b, h - a[0].height);
      }
    }
  }

  /** The number of the line at a vertical position, through the cached heights. */
  method LineAtHeight(root: Chunk, height: int) returns (n: nat)
    requires RootOk(root) && Tall(Flat(root))
    ensures n == LineAt(Flat(root), height)
  {
    var chunk, h := root, height;
    n := 0;
    while chunk.Branch?
      invariant Exact(chunk) && Tall(Flat(chunk))
      invariant n + LineAt(Flat(chunk), h) == LineAt(Flat(root), height)
      decreases chunk
    {
      var i, lines, h' := ChildAtHeight(chunk.children, h);
      n := n + lines;
      if i == |chunk.children| {
        return;
      }
      assert Exact(chunk.children[i]);
      ChildPlace(chunk.children, i);
      TallParts(FlatAll(chunk.children[..i]), Flat(chunk.children[i]), FlatAll(chunk.children[i + 1..]));
      chunk, h := chunk.children[i], h';
    }
    var k := LineInLeaf(chunk.lines, h);
    n := n + k;
  }

  lemma TallParts(a: seq<Line>, b: seq<Line>, c: seq<Line>)
    requires Tall(a + b + c)
    ensures Tall(a) && Tall(b) && Tall(c) && Tall(b + c)
  {
    assert forall i :: 0 <= i < |a| ==> a[i] == (a + b + c)[i];
    assert forall i :: 0 <= i < |b + c| ==> (b + c)[i] == (a + b + c)[|a| + i];
    assert forall i :: 0 <= i < |b| ==> b[i] == (b + c)[i];
    assert forall i :: 0 <= i < |c| ==> c[i] == (b + c)[|b| + i];
  }

  /** The child that a vertical position falls into, how many lines are in the children above it, and
      the position in it; the number of children if it falls into none. */
  method ChildAtHeight(cs: seq<Chunk>, height: int) returns (i: nat, lines: nat, h: int)
    requires ExactAll(cs) && Tall(FlatAll(cs))
    ensures i <= |cs|
    ensures i == |cs| ==> lines == LineAt(FlatAll(cs), height)
    ensures i < |cs| ==> lines + LineAt(Flat(cs[i]), h) == LineAt(FlatAll(cs), height)
  {
    hide Exact, Flat, FlatAll, ChunkSize, Tall, LineAt;
    i, lines, h := 0, 0, height;
    assert cs[0..] == cs;
    while i < |cs| && cs[i].height <= h
      invariant i <= |cs| && Tall(FlatAll(cs[i..]))
      invariant lines + LineAt(FlatAll(cs[i..]), h) == LineAt(FlatAll(cs), height)
    {
      HeightFrom(cs, i, h);
      h := h - cs[i].height;
      lines := lines + ChunkSize(cs[i]);
      i := i + 1;
    }
    if i < |cs| {
      HeightFrom(cs, i, h);
    } else {
      NoRow(cs);
      NoLine(h);
    }
  }

  method LineInLeaf(ls: seq<Line>, height: int) returns (i: nat)
    ensures i == LineAt(ls, height)
  {
    var h := height;
    i := 0;
    assert ls[0..] == ls;
    while i < |ls| && ls[i].height <= h
      invariant i <= |ls| && i + LineAt(ls[i..], h) == LineAt(ls, height)
    {
      assert ls[i..][1..] == ls[i + 1..];
      h := h - ls[i].height;
      i := i + 1;
    }
  }
}
