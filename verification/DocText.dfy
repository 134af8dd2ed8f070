/**
 The text of a document and what a change does to it. A document is a nonempty sequence of lines; a
 change replaces the text between two positions by a nonempty sequence of strings, the line breaks
 being those between them.
 */
module DocText {
  datatype Pos = Pos(line: int, ch: int)

  datatype Change = Change(from: Pos, to: Pos, text: seq<string>)

  predicate Le(a: Pos, b: Pos) {
    a.line < b.line || (a.line == b.line && a.ch <= b.ch)
  }

  predicate InDoc(lines: seq<string>, p: Pos) {
    0 <= p.line < |lines| && 0 <= p.ch <= |lines[p.line]|
  }

  predicate Fits(lines: seq<string>, c: Change) {
    InDoc(lines, c.from) && InDoc(lines, c.to) && Le(c.from, c.to) && c.text != []
  }

  function Last(text: seq<string>): string
    requires text != []
  {
    text[|text| - 1]
  }

  /** `text` with `pre` before its first and `suf` after its last string. */
  function Glue(pre: string, text: seq<string>, suf: string): (r: seq<string>)
    requires text != []
    ensures |r| == |text|
  {
    if |text| == 1 then [pre + text[0] + suf]
    else [pre + text[0]] + text[1..|text| - 1] + [Last(text) + suf]
  }

  /** The document with the text between the two positions replaced. */
  function Splice(lines: seq<string>, c: Change): (r: seq<string>)
    requires Fits(lines, c)
    ensures r != []
  {
    lines[..c.from.line]
    + Glue(lines[c.from.line][..c.from.ch], c.text, lines[c.to.line][c.to.ch..])
    + lines[c.to.line + 1..]
  }

  /** The text between two positions. */
  function GetBetween(lines: seq<string>, s: Pos, e: Pos): (r: seq<string>)
    requires InDoc(lines, s) && InDoc(lines, e) && Le(s, e)
    ensures r != []
  {
    if s.line == e.line then [lines[s.line][s.ch..e.ch]]
    else [lines[s.line][s.ch..]] + lines[s.line + 1..e.line] + [lines[e.line][..e.ch]]
  }

  /** Where the new text of a change ends in the new document. */
  function ChangeEnd(c: Change): Pos
    requires c.text != []
  {
    Pos(c.from.line + |c.text| - 1, |Last(c.text)| + if |c.text| == 1 then c.from.ch else 0)
  }

  /** The change that takes a change back. */
  function Inverse(lines: seq<string>, c: Change): Change
    requires Fits(lines, c)
  {
    Change(c.from, ChangeEnd(c), GetBetween(lines, c.from, c.to))
  }

  // The splice on the joined text

  /** All lines in one string, a line break after each but the last. */
  function Join(lines: seq<string>): string
    requires lines != []
  {
    if |lines| == 1 then lines[0] else lines[0] + "\n" + Join(lines[1..])
  }

  /** How much of the joined text is before a position. */
  function Offset(lines: seq<string>, p: Pos): (n: nat)
    requires InDoc(lines, p)
    decreases |lines|
  {
    if p.line == 0 then p.ch else |lines[0]| + 1 + Offset(lines[1..], Pos(p.line - 1, p.ch))
  }

  lemma {:induction false} JoinAt(lines: seq<string>, p: Pos)
    requires InDoc(lines, p)
    ensures var n := Offset(lines, p); var l := lines[p.line];
      && n <= |Join(lines)|
      && Join(lines)[..n] == Join(lines[..p.line] + [l[..p.ch]])
      && Join(lines)[n..] == Join([l[p.ch..]] + lines[p.line + 1..])
    decreases |lines|
  {
    if p.line == 0 {
      var l := lines[0];
      assert lines[..0] + [l[..p.ch]] == [l[..p.ch]];
      if |lines| == 1 {
        assert [l[p.ch..]] + lines[1..] == [l[p.ch..]];
      } else {
        var rest := [l[p.ch..]] + lines[1..];
        assert rest[1..] == lines[1..];
        assert (l + "\n" + Join(lines[1..]))[p.ch..] == l[p.ch..] + "\n" + Join(lines[1..]);
      }
    } else {
      var q, tail := Pos(p.line - 1, p.ch), lines[1..];
      JoinAt(tail, q);
      var head := lines[0] + "\n";
      var n := Offset(tail, q);
      var front := lines[..p.line] + [lines[p.line][..p.ch]];
      assert front[1..] == tail[..q.line] + [tail[q.line][..q.ch]];
      assert Join(front) == head + Join(front[1..]);
      assert Join(lines) == head + Join(tail);
      assert (head + Join(tail))[..|head| + n] == head + Join(tail)[..n];
      assert (head + Join(tail))[|head| + n..] == Join(tail)[n..];
      assert tail[q.line + 1..] == lines[p.line + 1..];
    }
  }

  /** Joining two sequences whose neighbouring ends make up one line. */
  lemma {:induction false} JoinGlue(a: seq<string>, b: seq<string>)
    requires a != [] && b != []
    ensures Join(a) + Join(b) == Join(a[..|a| - 1] + [Last(a) + b[0]] + b[1..])
    decreases |a|
  {
    var all := a[..|a| - 1] + [Last(a) + b[0]] + b[1..];
    if |a| == 1 {
      GlueFirst(a[0], b);
      assert all == [a[0] + b[0]] + b[1..];
    } else {
      JoinGlue(a[1..], b);
      var rest := a[1..][..|a| - 2] + [Last(a[1..]) + b[0]] + b[1..];
      assert all[0] == a[0] && all[1..] == rest;
      JoinMore(a);
      JoinMore(all);
      hide Join;
      Shifted(a[0] + "\n", Join(a[1..]), Join(b), "");
      assert Join(a[1..]) + Join(b) + "" == Join(a[1..]) + Join(b);
    }
  }

  lemma JoinMore(a: seq<string>)
    requires |a| > 1
    ensures Join(a) == a[0] + "\n" + Join(a[1..])
  {
  }

  lemma GlueFirst(s: string, b: seq<string>)
    requires b != []
    ensures s + Join(b) == Join([s + b[0]] + b[1..])
  {
    var all := [s + b[0]] + b[1..];
    if |b| > 1 {
      assert all[1..] == b[1..];
      JoinMore(b);
      JoinMore(all);
      hide Join;
      Shifted(s, b[0], "\n", Join(b[1..]));
    }
  }

  lemma Shifted(a: string, b: string, c: string, d: string)
    ensures a + (b + c + d) == (a + b) + c + d
  {
  }

  lemma JoinThree(front: seq<string>, pre: string, text: seq<string>, suf: string, back: seq<string>)
    requires text != []
    ensures Join(front + [pre]) + Join(text) + Join([suf] + back) == Join(front + Glue(pre, text, suf) + back)
  {
    var a, b := front + [pre], [suf] + back;
    JoinGlue(a, text);
    assert a[..|a| - 1] == front && b[1..] == back;
    var ab := front + [pre + text[0]] + text[1..];
    assert Join(a) + Join(text) == Join(ab);
    JoinGlue(ab, b);
    GlueMiddle(front, pre, text, suf);
    assert ab[..|ab| - 1] + [Last(ab) + b[0]] + b[1..] == front + Glue(pre, text, suf) + back;
  }

  /** The new document is the text before the change, the new text, and the text after it. */
  lemma SpliceJoins(lines: seq<string>, c: Change)
    requires Fits(lines, c)
    ensures Offset(lines, c.from) <= |Join(lines)| && Offset(lines, c.to) <= |Join(lines)|
    ensures Join(Splice(lines, c))
         == Join(lines)[..Offset(lines, c.from)] + Join(c.text) + Join(lines)[Offset(lines, c.to)..]
  {
    JoinAt(lines, c.from);
    JoinAt(lines, c.to);
    JoinThree(lines[..c.from.line], lines[c.from.line][..c.from.ch], c.text, lines[c.to.line][c.to.ch..], lines[c.to.line + 1..]);
  }

  lemma GlueMiddle(front: seq<string>, pre: string, text: seq<string>, suf: string)
    requires text != []
    ensures var ab := front + [pre + text[0]] + text[1..];
      ab[..|ab| - 1] + [Last(ab) + suf] == front + Glue(pre, text, suf)
  {
    var head := front + [pre + text[0]];
    var ab := head + text[1..];
    if |text| == 1 {
      assert ab == head;
    } else {
      AllButLast(head, text[1..]);
      assert text[1..][..|text| - 2] == text[1..|text| - 1];
      Regroup(front, [pre + text[0]], text[1..|text| - 1], [Last(text) + suf]);
    }
  }

  lemma AllButLast(a: seq<string>, b: seq<string>)
    requires b != []
    ensures (a + b)[..|a + b| - 1] == a + b[..|b| - 1] && Last(a + b) == Last(b)
  {
  }

  lemma Regroup(a: seq<string>, b: seq<string>, c: seq<string>, d: seq<string>)
    ensures a + b + c + d == a + (b + c + d)
  {
  }

  // Taking a change back

  /** A document is what is before a range, the range, and what is after it. */
  lemma GlueBetween(lines: seq<string>, s: Pos, e: Pos)
    requires InDoc(lines, s) && InDoc(lines, e) && Le(s, e)
    ensures lines == lines[..s.line] + Glue(lines[s.line][..s.ch], GetBetween(lines, s, e), lines[e.line][e.ch..]) + lines[e.line + 1..]
  {
    var pre, suf, mid := lines[s.line][..s.ch], lines[e.line][e.ch..], GetBetween(lines, s, e);
    if s.line == e.line {
      assert pre + mid[0] + suf == lines[s.line];
    } else {
      assert pre + mid[0] == lines[s.line] && Last(mid) + suf == lines[e.line];
      assert mid[1..|mid| - 1] == lines[s.line + 1..e.line];
      Range(lines, s.line, e.line);
    }
  }

  lemma Range(lines: seq<string>, i: nat, j: nat)
    requires i < j < |lines|
    ensures lines == lines[..i] + ([lines[i]] + lines[i + 1..j] + [lines[j]]) + lines[j + 1..]
  {
  }

  /** The parts of a document into which a text has been glued. */
  lemma GlueParts(a: seq<string>, pre: string, text: seq<string>, suf: string, b: seq<string>)
    requires text != []
    ensures var r := a + Glue(pre, text, suf) + b;
      var s, e := Pos(|a|, |pre|), Pos(|a| + |text| - 1, |Last(text)| + if |text| == 1 then |pre| else 0);
      && InDoc(r, s) && InDoc(r, e) && Le(s, e)
      && r[..s.line] == a && r[e.line + 1..] == b
      && r[s.line][..s.ch] == pre && r[e.line][e.ch..] == suf
      && GetBetween(r, s, e) == text
  {
    var g := Glue(pre, text, suf);
    GlueEnds(pre, text, suf);
    ThreeParts(a, g, b);
    if |text| > 1 {
      Within(a, g, b, 1, |text| - 1);
    }
    hide Glue, GetBetween, InDoc, Le;
    PartsOf(a + g + b, |a|, pre, text, suf);
  }

  /** What the lines in which a text has been glued say about it. */
  lemma PartsOf(r: seq<string>, n: nat, pre: string, text: seq<string>, suf: string)
    requires text != [] && n + |text| <= |r|
    requires if |text| == 1 then r[n] == pre + text[0] + suf
      else r[n] == pre + text[0] && r[n + |text| - 1] == Last(text) + suf && r[n + 1..n + |text| - 1] == text[1..|text| - 1]
    ensures var s, e := Pos(n, |pre|), Pos(n + |text| - 1, |Last(text)| + if |text| == 1 then |pre| else 0);
      && InDoc(r, s) && InDoc(r, e) && Le(s, e)
      && r[s.line][..s.ch] == pre && r[e.line][e.ch..] == suf && GetBetween(r, s, e) == text
  {
    if |text| > 1 {
      assert text == [text[0]] + text[1..|text| - 1] + [Last(text)];
    }
  }

  lemma GlueEnds(pre: string, text: seq<string>, suf: string)
    requires text != []
    ensures var g := Glue(pre, text, suf);
      if |text| == 1 then g[0] == pre + text[0] + suf
      else g[0] == pre + text[0] && g[|text| - 1] == Last(text) + suf && g[1..|text| - 1] == text[1..|text| - 1]
  {
  }

  lemma ThreeParts(a: seq<string>, g: seq<string>, b: seq<string>)
    ensures var r := a + g + b;
      && r[..|a|] == a && r[|a| + |g|..] == b
      && forall i :: 0 <= i < |g| ==> r[|a| + i] == g[i]
  {
  }

  lemma Within(a: seq<string>, g: seq<string>, b: seq<string>, i: nat, j: nat)
    requires i <= j <= |g|
    ensures (a + g + b)[|a| + i..|a| + j] == g[i..j]
  {
  }

  /** The new text lies between the start of the change and its end. */
  lemma NewTextLies(lines: seq<string>, c: Change)
    requires Fits(lines, c)
    ensures var r := Splice(lines, c);
      InDoc(r, c.from) && InDoc(r, ChangeEnd(c)) && Le(c.from, ChangeEnd(c)) && GetBetween(r, c.from, ChangeEnd(c)) == c.text
  {
    hide Glue, GetBetween, InDoc, Le;
    Inside(lines, c);
    GlueParts(lines[..c.from.line], lines[c.from.line][..c.from.ch], c.text, lines[c.to.line][c.to.ch..], lines[c.to.line + 1..]);
  }

  lemma Inside(lines: seq<string>, c: Change)
    requires Fits(lines, c)
    ensures 0 <= c.from.line < |lines| && 0 <= c.from.ch <= |lines[c.from.line]|
    ensures 0 <= c.to.line < |lines| && 0 <= c.to.ch <= |lines[c.to.line]|
  {
  }

  /** The text that a change brought in can be replaced by any other. */
  lemma SpliceAgain(lines: seq<string>, c: Change, text: seq<string>)
    requires Fits(lines, c) && text != []
    ensures Fits(Splice(lines, c), Change(c.from, ChangeEnd(c), text))
    ensures Splice(Splice(lines, c), Change(c.from, ChangeEnd(c), text)) == Splice(lines, c.(text := text))
  {
    var a, b := lines[..c.from.line], lines[c.to.line + 1..];
    var pre, suf := lines[c.from.line][..c.from.ch], lines[c.to.line][c.to.ch..];
    GlueParts(a, pre, c.text, suf, b);
    var r := a + Glue(pre, c.text, suf) + b;
    assert Splice(lines, c) == r;
    assert Splice(r, Change(c.from, ChangeEnd(c), text)) == a + Glue(pre, text, suf) + b;
  }

  lemma InverseUndoes(lines: seq<string>, c: Change)
    requires Fits(lines, c)
    ensures Fits(Splice(lines, c), Inverse(lines, c)) && Splice(Splice(lines, c), Inverse(lines, c)) == lines
  {
    SpliceAgain(lines, c, GetBetween(lines, c.from, c.to));
    GlueBetween(lines, c.from, c.to);
  }
}
