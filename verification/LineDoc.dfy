/**
 A document: its tree of lines, the parent links, and the five ways in which a change is carried out on
 them, all of which come to one splice of the text.
 */
module LineDoc {
  import opened LineTree
  import opened LineLinks
  import opened LineUnlinks
  import opened LinePaths
  import opened LineLookup
  import opened LineUp
  import opened LineEdit
  import opened DocText
  import LineRuns

  function TextOf(ls: seq<Line>): (ts: seq<string>)
    ensures |ts| == |ls|
  {
    seq(|ls|, i requires 0 <= i < |ls| => ls[i].text)
  }

  /** The lines before `f` and those from `k` on are the same lines, unchanged. */
  predicate Around(a: seq<Line>, b: seq<Line>, f: nat, k: nat) {
    f <= k <= |a| && f <= |b| && |a| - k <= |b| - f && b[..f] == a[..f] && b[|b| - (|a| - k)..] == a[k..]
  }

  // What the branches come to

  /** Whole lines are replaced: the last line stays as it is. */
  predicate WholeLines(c: Change)
    requires c.text != []
  {
    c.from.ch == 0 && c.to.ch == 0 && Last(c.text) == ""
  }

  lemma SpliceWholeLines(ts: seq<string>, c: Change)
    requires Fits(ts, c) && WholeLines(c)
    ensures Splice(ts, c) == ts[..c.from.line] + c.text[..|c.text| - 1] + ts[c.to.line..]
  {
    var l := ts[c.to.line];
    assert "" + c.text[0] == c.text[0] && "" + l == l && l[0..] == l;
    assert ts[c.to.line..] == [l] + ts[c.to.line + 1..];
    if |c.text| > 1 {
      assert c.text[..|c.text| - 1] == [c.text[0]] + c.text[1..|c.text| - 1];
    }
  }

  lemma SpliceOneLine(ts: seq<string>, c: Change)
    requires Fits(ts, c) && c.from.line == c.to.line
    ensures var f, first, n := c.from.line, ts[c.from.line], |c.text|;
      Splice(ts, c) ==
      if n == 1 then ts[f := first[..c.from.ch] + c.text[0] + first[c.to.ch..]]
      else
        var one := ts[f := first[..c.from.ch] + c.text[0]];
        one[..f + 1] + (c.text[1..n - 1] + [Last(c.text) + first[c.to.ch..]]) + one[f + 1..]
  {
  }

  /** The first and the last line of a range are replaced, and the lines between them by others. */
  function AcrossTexts(ts: seq<string>, f: nat, t: nat, first: string, last: string, m: seq<string>): seq<string>
    requires f < t < |ts|
  {
    ts[..f] + [first] + m + [last] + ts[t + 1..]
  }

  function AcrossResult(ls: seq<Line>, f: nat, t: nat, x: Line, y: Line, added: seq<Line>): seq<Line>
    requires f < t < |ls|
  {
    Spliced(Cut(ls[f := x][t := y], f + 1, t - f - 1), f + 1, added)
  }

  lemma SpliceManyLines(ts: seq<string>, c: Change)
    requires Fits(ts, c) && c.from.line < c.to.line
    ensures var f, t, n := c.from.line, c.to.line, |c.text|;
      var pre, suf := ts[f][..c.from.ch], ts[t][c.to.ch..];
      Splice(ts, c) ==
      if n == 1 then
        var one := ts[f := pre + c.text[0] + suf];
        one[..f + 1] + one[t + 1..]
      else AcrossTexts(ts, f, t, pre + c.text[0], Last(c.text) + suf, c.text[1..n - 1])
  {
  }

  lemma SpliceNew(text: seq<string>)
    requires text != []
    ensures Splice([""], Change(Pos(0, 0), Pos(0, 0), text)) == text
  {
    assert ""[..0] == "" && ""[0..] == "" && [""][..0] == [] && [""][1..] == [];
    assert "" + text[0] == text[0] && Last(text) + "" == Last(text);
  }

  // The same for the lines

  /** The lines `f` to `t` are cut, what was line `t` is `x`, and `added` is put before it. */
  function WholeLinesResult(ls: seq<Line>, f: nat, t: nat, x: Line, added: seq<Line>): (r: seq<Line>)
    requires f <= t < |ls|
  {
    Spliced(Cut(ls[t := x], f, t - f), f, added)
  }

  lemma WholeLinesEdit(ls: seq<Line>, f: nat, t: nat, x: Line, added: seq<Line>)
    requires f <= t < |ls| && x.text == ls[t].text
    ensures var r := WholeLinesResult(ls, f, t, x, added);
      && TextOf(r) == TextOf(ls)[..f] + TextOf(added) + TextOf(ls)[t..]
      && Around(ls, r, f, t + 1) && f + |added| < |r| && r[f + |added|] == x
  {
    var r := WholeLinesResult(ls, f, t, x, added);
    WholeParts(ls, f, t, x, added);
    TextsBefore(ls[..f], added, [x], ls[t + 1..]);
    TextParts(ls, f);
    TextParts(ls, t);
    hide WholeLinesResult, TextOf;
    assert r[..f] == ls[..f] && r[|r| - (|ls| - (t + 1))..] == ls[t + 1..];
    TextFrom(ls, t, x);
    assert TextOf(ls)[..f] + TextOf(added) + (TextOf([x]) + TextOf(ls[t + 1..]))
        == TextOf(ls)[..f] + TextOf(added) + TextOf([x]) + TextOf(ls[t + 1..]);
  }

  lemma WholeParts(ls: seq<Line>, f: nat, t: nat, x: Line, added: seq<Line>)
    requires f <= t < |ls|
    ensures WholeLinesResult(ls, f, t, x, added) == ls[..f] + added + [x] + ls[t + 1..]
  {
    var l1 := ls[t := x];
    assert Cut(l1, f, t - f) == ls[..f] + ([x] + ls[t + 1..]);
  }

  lemma TextsBefore(a: seq<Line>, m: seq<Line>, y: seq<Line>, b: seq<Line>)
    ensures TextOf(a + m + y + b) == TextOf(a) + TextOf(m) + TextOf(y) + TextOf(b)
  {
  }

  lemma TextFrom(ls: seq<Line>, t: nat, x: Line)
    requires t < |ls| && x.text == ls[t].text
    ensures TextOf(ls[t..]) == TextOf([x]) + TextOf(ls[t + 1..])
  {
  }

  lemma InLineEdit(ls: seq<Line>, f: nat, x: Line, added: seq<Line>)
    requires f < |ls|
    ensures var r := Spliced(ls[f := x], f + 1, added);
      && TextOf(r) == TextOf(ls)[f := x.text][..f + 1] + TextOf(added) + TextOf(ls)[f := x.text][f + 1..]
      && Around(ls, r, f, f + 1) && r[f] == x
  {
    var r := Spliced(ls[f := x], f + 1, added);
    assert r == ls[..f] + [x] + added + ls[f + 1..];
    assert r[..f] == ls[..f] && r[|r| - (|ls| - (f + 1))..] == ls[f + 1..];
  }

  lemma CutEdit(ls: seq<Line>, f: nat, t: nat, x: Line)
    requires f < t < |ls|
    ensures var r := Cut(ls[f := x], f + 1, t - f);
      && TextOf(r) == TextOf(ls)[f := x.text][..f + 1] + TextOf(ls)[f := x.text][t + 1..]
      && Around(ls, r, f, t + 1) && r[f] == x
  {
    var r := Cut(ls[f := x], f + 1, t - f);
    assert r == ls[..f] + [x] + ls[t + 1..];
    assert r[..f] == ls[..f] && r[|r| - (|ls| - (t + 1))..] == ls[t + 1..];
  }

  lemma AcrossEdit(ls: seq<Line>, f: nat, t: nat, x: Line, y: Line, added: seq<Line>)
    requires f < t < |ls|
    ensures var r := AcrossResult(ls, f, t, x, y, added);
      && TextOf(r) == AcrossTexts(TextOf(ls), f, t, x.text, y.text, TextOf(added))
      && Around(ls, r, f, t + 1) && r[f] == x
  {
    Across(ls, f, t, x, y, added);
    TextsAround(ls[..f], x, added, y, ls[t + 1..]);
    TextParts(ls, f);
    TextParts(ls, t + 1);
    hide TextOf, AcrossResult;
    var r := AcrossResult(ls, f, t, x, y, added);
    assert r[..f] == ls[..f] && r[|r| - (|ls| - (t + 1))..] == ls[t + 1..];
  }

  lemma Across(s: seq<Line>, f: nat, t: nat, x: Line, y: Line, added: seq<Line>)
    requires f < t < |s|
    ensures AcrossResult(s, f, t, x, y, added) == s[..f] + [x] + added + [y] + s[t + 1..]
  {
    var cut := Cut(s[f := x][t := y], f + 1, t - f - 1);
    assert cut[..f + 1] == s[..f] + [x] && cut[f + 1..] == [y] + s[t + 1..];
  }

  lemma TextParts(ls: seq<Line>, n: nat)
    requires n <= |ls|
    ensures TextOf(ls[..n]) == TextOf(ls)[..n] && TextOf(ls[n..]) == TextOf(ls)[n..]
  {
  }

  lemma TextsAround(a: seq<Line>, x: Line, m: seq<Line>, y: Line, b: seq<Line>)
    ensures TextOf(a + [x] + m + [y] + b) == TextOf(a) + [x.text] + TextOf(m) + [y.text] + TextOf(b)
  {
  }

  /** With nothing added, the text of one line changes. */
  lemma NoText(ls: seq<Line>, f: nat, text: string)
    requires f < |ls|
    ensures TextOf([]) == [] && TextOf(ls)[f := text][..f + 1] + [] + TextOf(ls)[f := text][f + 1..] == TextOf(ls)[f := text]
  {
  }

  lemma TextAt(ls: seq<Line>, i: nat)
    requires i < |ls|
    ensures TextOf(ls)[i] == ls[i].text
  {
  }

  lemma NoEdit(ls: seq<Line>, at: nat)
    requires at <= |ls|
    ensures Cut(ls, at, 0) == ls && Spliced(ls, at, []) == ls
  {
  }

  // The heights of the lines that a change brings in

  /** The `n` lines from line `f` on have the heights estimated for their texts. */
  ghost predicate Estimated(ls: seq<Line>, f: nat, n: nat, est: string -> int) {
    f + n <= |ls| && forall i :: f <= i < f + n ==> ls[i].height == est(ls[i].text)
  }

  lemma MiddleEstimated(a: seq<Line>, m: seq<Line>, b: seq<Line>, est: string -> int)
    requires Estimated(m, 0, |m|, est)
    ensures Estimated(a + m + b, |a|, |m|, est)
  {
    forall i | |a| <= i < |a| + |m| ensures (a + m + b)[i].height == est((a + m + b)[i].text) {
      assert (a + m + b)[i] == m[i - |a|];
    }
  }

  lemma BothEstimated(a: seq<Line>, b: seq<Line>, est: string -> int)
    requires Estimated(a, 0, |a|, est) && Estimated(b, 0, |b|, est)
    ensures Estimated(a + b, 0, |a| + |b|, est)
  {
  }

  lemma OneEstimated(id: nat, text: string, est: string -> int)
    ensures Estimated([Line(id, text, est(text))], 0, 1, est) && Estimated([], 0, 0, est)
  {
  }

  lemma WholeEstimated(ls: seq<Line>, f: nat, t: nat, x: Line, added: seq<Line>, est: string -> int)
    requires f <= t < |ls| && Estimated([x], 0, 1, est) && Estimated(added, 0, |added|, est)
    ensures Estimated(WholeLinesResult(ls, f, t, x, added), f, |added| + 1, est)
  {
    hide Estimated, WholeLinesResult;
    BothEstimated(added, [x], est);
    MiddleEstimated(ls[..f], added + [x], ls[t + 1..], est);
    WholeParts(ls, f, t, x, added);
    assert ls[..f] + (added + [x]) + ls[t + 1..] == ls[..f] + added + [x] + ls[t + 1..];
  }

  lemma InLineEstimated(ls: seq<Line>, f: nat, x: Line, added: seq<Line>, est: string -> int)
    requires f < |ls| && Estimated([x], 0, 1, est) && Estimated(added, 0, |added|, est)
    ensures Estimated(Spliced(ls[f := x], f + 1, added), f, |added| + 1, est)
  {
    hide Estimated;
    BothEstimated([x], added, est);
    MiddleEstimated(ls[..f], [x] + added, ls[f + 1..], est);
    assert Spliced(ls[f := x], f + 1, added) == ls[..f] + ([x] + added) + ls[f + 1..];
  }

  lemma CutEstimated(ls: seq<Line>, f: nat, t: nat, x: Line, est: string -> int)
    requires f < t < |ls| && Estimated([x], 0, 1, est)
    ensures Estimated(Cut(ls[f := x], f + 1, t - f), f, 1, est)
  {
    hide Estimated;
    MiddleEstimated(ls[..f], [x], ls[t + 1..], est);
    assert Cut(ls[f := x], f + 1, t - f) == ls[..f] + [x] + ls[t + 1..];
  }

  lemma AcrossEstimated(ls: seq<Line>, f: nat, t: nat, x: Line, y: Line, added: seq<Line>, est: string -> int)
    requires f < t < |ls| && Estimated([x], 0, 1, est) && Estimated([y], 0, 1, est) && Estimated(added, 0, |added|, est)
    ensures Estimated(AcrossResult(ls, f, t, x, y, added), f, |added| + 2, est)
  {
    hide Estimated, AcrossResult;
    BothEstimated([x], added, est);
    BothEstimated([x] + added, [y], est);
    MiddleEstimated(ls[..f], [x] + added + [y], ls[t + 1..], est);
    Across(ls, f, t, x, y, added);
    assert ls[..f] + ([x] + added + [y]) + ls[t + 1..] == ls[..f] + [x] + added + [y] + ls[t + 1..];
  }

  class LineDoc {
    var root: Chunk
    var par: Par
    var next: nat

    ghost predicate Valid()
      reads this
    {
      RootOk(root) && Bounded(root) && TreeOk(par, root, next)
    }

    function Lines(): (ls: seq<Line>)
      reads this
    {
      Flat(root)
    }

    function Texts(): (ts: seq<string>)
      reads this
    {
      TextOf(Lines())
    }

    /** A document with the given lines. */
    constructor (text: seq<string>, wholeLines: bool)
      requires text != []
      ensures Valid() && Texts() == text && forall i :: 0 <= i < |Lines()| ==> Lines()[i].height == 1
    {
      root, par, next := LineRuns.New().root, LineRuns.New().par, LineRuns.New().next;
      new;
      LineRuns.NewOk();
      var start := Change(Pos(0, 0), Pos(0, 0), text);
      assert Texts() == [""];
      UpdateDoc(start, wholeLines, (s: string) => 1);
      SpliceNew(text);
    }

    /** Lines that are not in the document yet. */
    ghost predicate Fresh(ls: seq<Line>)
      reads this
    {
      DistinctLines(ls) && LineIds(ls) !! Ids(root) && Below(LineIds(ls), next)
    }

    lemma NoneFresh()
      ensures Fresh([])
    {
    }

    method InsertLines(at: nat, added: seq<Line>)
      requires Valid() && at <= |Lines()| && Fresh(added)
      modifies this
      ensures Valid() && Lines() == Spliced(old(Lines()), at, added)
    {
      InsertRootSplices(root, at, added, next);
      InsertRootLinks(root, at, added, next, par);
      par := InsertRootPar(root, at, added, next, par);
      var (r, n) := InsertRoot(root, at, added, next);
      root, next := r, n;
    }

    method RemoveLines(at: nat, n: nat, ghost pending: seq<Line>)
      requires Valid() && at + n <= |Lines()| && Fresh(pending)
      modifies this
      ensures Valid() && Lines() == Cut(old(Lines()), at, n) && Gone(par, old(Lines())[at..at + n]) && Fresh(pending)
    {
      RemoveCuts(root, at, n, next);
      RemoveRootLinks(root, at, n, next, par);
      par := RemovePar(root, at, n, next, par);
      var (r, m) := Remove(root, at, n, next);
      root, next := r, m;
    }

    /** A line gets a new text, and the height estimated for it. */
    method UpdateLine(line: Line, text: string, est: string -> int, ghost no: nat, ghost pending: seq<Line>)
      requires Valid() && no < |Lines()| && Lines()[no] == line && Fresh(pending)
      modifies this`root
      ensures Valid() && Fresh(pending) && Lines() == old(Lines())[no := Line(line.id, text, est(text))]
    {
      RetextWhole(par, root, no, text);
      var r := Retext(root, line.id, text);
      var line' := line.(text := text);
      assert Flat(r)[no] == line';
      NumberUnique(r, line.id, no);
      root := UpdateLineHeight(r, par, line', est(text));
    }

    /** New lines with the given texts, not yet in the document. */
    method NewLines(ts: seq<string>, est: string -> int) returns (added: seq<Line>)
      requires Valid()
      modifies this`next
      ensures Valid() && Fresh(added) && TextOf(added) == ts && Estimated(added, 0, |added|, est)
    {
      added := [];
      var i := 0;
      while i < |ts|
        invariant i <= |ts| && next >= old(next) && Fresh(added) && TextOf(added) == ts[..i] && Estimated(added, 0, |added|, est)
        invariant Below(Ids(root), old(next)) && forall j :: 0 <= j < |added| ==> old(next) <= added[j].id < next
      {
        assert ts[..i + 1] == ts[..i] + [ts[i]];
        added := added + [Line(next, ts[i], est(ts[i]))];
        next := next + 1;
        i := i + 1;
      }
      assert ts[..i] == ts;
    }

    /** Whole lines are replaced: the line after them stays the line after the new ones. */
    method ReplaceWholeLines(c: Change, lastLine: Line, est: string -> int)
      requires Valid() && Fits(Texts(), c) && WholeLines(c) && lastLine == Lines()[c.to.line]
      modifies this
      ensures Valid() && Texts() == Splice(old(Texts()), c)
      ensures Around(old(Lines()), Lines(), c.from.line, c.to.line + 1)
      ensures Lines()[c.from.line + |c.text| - 1].id == lastLine.id
      ensures Estimated(Lines(), c.from.line, |c.text|, est)
    {
      hide RootOk, Bounded, TreeOk, Flat, Ids, DistinctLines, Below, LineIds, Splice, TextOf, Spliced, Cut, Around, Estimated;
      var f: nat, t: nat := c.from.line, c.to.line;
      SpliceWholeLines(Texts(), c);
      var added := NewLines(c.text[..|c.text| - 1], est);
      ghost var ls, x := Lines(), Line(lastLine.id, lastLine.text, est(lastLine.text));
      WholeLinesEdit(ls, f, t, x, added);
      OneEstimated(lastLine.id, lastLine.text, est);
      WholeEstimated(ls, f, t, x, added, est);
      UpdateLine(lastLine, lastLine.text, est, t, added);
      NoEdit(Lines(), f);
      CutLength(Lines(), f, t - f);
      if t != f {
        RemoveLines(f, t - f, added);
      }
      NoEdit(Lines(), f);
      if added != [] {
        InsertLines(f, added);
      }
    }

    /** The change is within one line. */
    method ReplaceInLine(c: Change, line: Line, est: string -> int)
      requires Valid() && Fits(Texts(), c) && c.from.line == c.to.line && line == Lines()[c.from.line]
      modifies this
      ensures Valid() && Texts() == Splice(old(Texts()), c)
      ensures Around(old(Lines()), Lines(), c.from.line, c.to.line + 1)
      ensures Lines()[c.from.line].id == line.id
      ensures Estimated(Lines(), c.from.line, |c.text|, est)
    {
      hide RootOk, Bounded, TreeOk, Flat, Ids, DistinctLines, Below, LineIds, Splice, TextOf, Spliced, Cut, Around, Estimated;
      var f: nat, n := c.from.line, |c.text|;
      SpliceOneLine(Texts(), c);
      TextAt(Lines(), f);
      NoneFresh();
      ghost var ls := Lines();
      if n == 1 {
        var text := line.text[..c.from.ch] + c.text[0] + line.text[c.to.ch..];
        InLineEdit(ls, f, Line(line.id, text, est(text)), []);
        OneEstimated(line.id, text, est);
        InLineEstimated(ls, f, Line(line.id, text, est(text)), [], est);
        UpdateLine(line, text, est, f, []);
        NoEdit(Lines(), f + 1);
        NoText(ls, f, text);
      } else {
        var text := line.text[..c.from.ch] + c.text[0];
        var added := NewLines(c.text[1..n - 1] + [Last(c.text) + line.text[c.to.ch..]], est);
        InLineEdit(ls, f, Line(line.id, text, est(text)), added);
        OneEstimated(line.id, text, est);
        InLineEstimated(ls, f, Line(line.id, text, est(text)), added, est);
        UpdateLine(line, text, est, f, added);
        InsertLines(f + 1, added);
      }
    }

    /** Text across lines is replaced by text without a line break. */
    method JoinLines(c: Change, firstLine: Line, lastLine: Line, est: string -> int)
      requires Valid() && Fits(Texts(), c) && c.from.line < c.to.line && |c.text| == 1
      requires firstLine == Lines()[c.from.line] && lastLine == Lines()[c.to.line]
      modifies this
      ensures Valid() && Texts() == Splice(old(Texts()), c)
      ensures Around(old(Lines()), Lines(), c.from.line, c.to.line + 1)
      ensures Lines()[c.from.line].id == firstLine.id
      ensures Estimated(Lines(), c.from.line, |c.text|, est)
    {
      hide RootOk, Bounded, TreeOk, Flat, Ids, DistinctLines, Below, LineIds, Splice, TextOf, Spliced, Cut, Around, Estimated;
      var f: nat, t: nat, n := c.from.line, c.to.line, |c.text|;
      SpliceManyLines(Texts(), c);
      TextAt(Lines(), f);
      TextAt(Lines(), t);
      NoneFresh();
      ghost var ls := Lines();
      var text := firstLine.text[..c.from.ch] + c.text[0] + lastLine.text[c.to.ch..];
      CutEdit(ls, f, t, Line(firstLine.id, text, est(text)));
      OneEstimated(firstLine.id, text, est);
      CutEstimated(ls, f, t, Line(firstLine.id, text, est(text)), est);
      UpdateLine(firstLine, text, est, f, []);
      RemoveLines(f + 1, t - f, []);
    }

    /** Text across lines is replaced by text across lines. */
    method ReplaceAcrossLines(c: Change, firstLine: Line, lastLine: Line, est: string -> int)
      requires Valid() && Fits(Texts(), c) && c.from.line < c.to.line && |c.text| > 1
      requires firstLine == Lines()[c.from.line] && lastLine == Lines()[c.to.line]
      modifies this
      ensures Valid() && Texts() == Splice(old(Texts()), c)
      ensures Around(old(Lines()), Lines(), c.from.line, c.to.line + 1)
      ensures Lines()[c.from.line].id == firstLine.id
      ensures Estimated(Lines(), c.from.line, |c.text|, est)
    {
      hide RootOk, Bounded, TreeOk, Flat, Ids, DistinctLines, Below, LineIds, Splice, TextOf, Spliced, Cut, Around, AcrossTexts, Estimated;
      var f: nat, t: nat, n := c.from.line, c.to.line, |c.text|;
      SpliceManyLines(Texts(), c);
      TextAt(Lines(), f);
      TextAt(Lines(), t);
      NoneFresh();
      ghost var ls := Lines();
      var text, lastText := firstLine.text[..c.from.ch] + c.text[0], Last(c.text) + lastLine.text[c.to.ch..];
      UpdateLine(firstLine, text, est, f, []);
      UpdateLine(lastLine, lastText, est, t, []);
      var added := NewLines(c.text[1..n - 1], est);
      ghost var x, y := Line(firstLine.id, text, est(text)), Line(lastLine.id, lastText, est(lastText));
      AcrossEdit(ls, f, t, x, y, added);
      OneEstimated(firstLine.id, text, est);
      OneEstimated(lastLine.id, lastText, est);
      AcrossEstimated(ls, f, t, x, y, added, est);
      ReplaceBetween(f, t, added);
    }

    /** Replace the lines between two others. */
    method ReplaceBetween(f: nat, t: nat, added: seq<Line>)
      requires Valid() && f < t < |Lines()| && Fresh(added)
      modifies this
      ensures Valid() && Lines() == Spliced(Cut(old(Lines()), f + 1, t - f - 1), f + 1, added)
    {
      hide RootOk, Bounded, TreeOk, Flat, Ids, DistinctLines, Below, LineIds, TextOf, Spliced, Cut;
      NoEdit(Lines(), f + 1);
      CutLength(Lines(), f + 1, t - f - 1);
      if t - f > 1 {
        RemoveLines(f + 1, t - f - 1, added);
      }
      InsertLines(f + 1, added);
    }

    /** Carry out a change. `wholeLines` is the option to treat the replacement of whole lines specially. */
    method UpdateDoc(c: Change, wholeLines: bool, est: string -> int)
      requires Valid() && Fits(Texts(), c)
      modifies this
      ensures Valid() && Texts() == Splice(old(Texts()), c)
      ensures Around(old(Lines()), Lines(), c.from.line, c.to.line + 1)
      ensures if wholeLines && WholeLines(c) then Lines()[c.from.line + |c.text| - 1].id == old(Lines())[c.to.line].id
              else Lines()[c.from.line].id == old(Lines())[c.from.line].id
      ensures Estimated(Lines(), c.from.line, |c.text|, est)
    {
      var _, firstLine := GetLine(root, c.from.line);
      var _, lastLine := GetLine(root, c.to.line);
      if wholeLines && WholeLines(c) {
        ReplaceWholeLines(c, lastLine, est);
      } else if firstLine.id == lastLine.id {
        NumberUnique(root, firstLine.id, c.from.line);
        ReplaceInLine(c, firstLine, est);
      } else if |c.text| == 1 {
        JoinLines(c, firstLine, lastLine, est);
      } else {
        ReplaceAcrossLines(c, firstLine, lastLine, est);
      }
    }
  }
}
