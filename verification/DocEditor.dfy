/**
 An edited document: the lines, the selection and the undo history, changed in place. Every method does
 to them what the step of the history says.
 */
module DocEditor {
  import opened DocText
  import opened DocHistory
  import opened LineDoc
  import opened UndoRedo
  import opened UndoEdits
  import LineLookup
  import LineTree
  import LineLinks

  function Top(st: seq<Entry>): Entry
    requires st != []
  {
    st[|st| - 1]
  }

  function Pop(st: seq<Entry>): seq<Entry>
    requires st != []
  {
    st[..|st| - 1]
  }

  method ClearSelectionEvents(st: seq<Entry>) returns (r: seq<Entry>)
    ensures r == ClearSels(st)
  {
    r := st;
    while r != [] && Top(r).Sel?
      invariant ClearSels(r) == ClearSels(st)
      decreases |r|
    {
      r := Pop(r);
    }
  }

  /** Drop the oldest entries of a stack that has become too large. */
  method Forget(st: seq<Entry>, depth: nat) returns (r: seq<Entry>)
    requires depth >= 1
    ensures r == Trim(st, depth)
  {
    r := st;
    while |r| > depth
      invariant Trim(r, depth) == Trim(st, depth)
      decreases |r|
    {
      ghost var before := r;
      r := r[1..];
      if r[0].Event? {
        r := r[1..];
        assert r == before[2..];
      }
    }
  }

  /** Move the selections on top of one stack to the other. */
  method MoveSelections(source: seq<Entry>, dest: seq<Entry>, sel: int) returns (s: seq<Entry>, d: seq<Entry>, selAfter: int)
    ensures (s, d, selAfter) == MoveSels(source, dest, sel)
  {
    s, d, selAfter := source, dest, sel;
    while s != [] && Top(s).Sel?
      invariant MoveSels(s, d, selAfter) == MoveSels(source, dest, sel)
      decreases |s|
    {
      selAfter := Top(s).sel;
      s, d := Pop(s), PushSel(selAfter, d);
    }
  }

  /** The text between two positions, collected from the lines of the tree one by one. */
  method GetText(root: LineTree.Chunk, start: Pos, end: Pos) returns (out: seq<string>)
    requires LineTree.Exact(root)
    requires var ts := TextOf(LineTree.Flat(root)); InDoc(ts, start) && InDoc(ts, end) && Le(start, end)
    ensures out == GetBetween(TextOf(LineTree.Flat(root)), start, end)
  {
    hide LineTree.Exact, LineTree.Flat, GetBetween;
    ghost var ts := TextOf(LineTree.Flat(root));
    var lines := LineLookup.IterN(root, start.line, end.line + 1 - start.line);
    out := [];
    var n := start.line;
    while n <= end.line
      invariant start.line <= n <= end.line + 1 && |out| == n - start.line
      invariant forall i :: 0 <= i < |out| ==> out[i] == Part(ts, start, end, start.line + i)
    {
      var text := lines[n - start.line].text;
      assert text == ts[n];
      if n == end.line {
        text := text[..end.ch];
      }
      if n == start.line {
        text := text[start.ch..];
      }
      out := out + [text];
      n := n + 1;
    }
    PartsBetween(ts, start, end, out);
  }

  lemma PartsBetween(ts: seq<string>, start: Pos, end: Pos, out: seq<string>)
    requires InDoc(ts, start) && InDoc(ts, end) && Le(start, end) && |out| == end.line - start.line + 1
    requires forall i :: 0 <= i < |out| ==> out[i] == Part(ts, start, end, start.line + i)
    ensures out == GetBetween(ts, start, end)
  {
    hide GetBetween, Part;
    PartBetween(ts, start, end, start.line);
    forall i | 0 <= i < |out| ensures out[i] == GetBetween(ts, start, end)[i] {
      PartBetween(ts, start, end, start.line + i);
    }
  }

  function Part(lines: seq<string>, start: Pos, end: Pos, n: int): string
    requires InDoc(lines, start) && InDoc(lines, end) && Le(start, end) && start.line <= n <= end.line
  {
    var text := if n == end.line then lines[n][..end.ch] else lines[n];
    if n == start.line then text[start.ch..] else text
  }

  lemma PartBetween(lines: seq<string>, start: Pos, end: Pos, n: int)
    requires InDoc(lines, start) && InDoc(lines, end) && Le(start, end) && start.line <= n <= end.line
    ensures |GetBetween(lines, start, end)| == end.line - start.line + 1
    ensures GetBetween(lines, start, end)[n - start.line] == Part(lines, start, end, n)
  {
    if start.line == end.line {
      assert lines[n][..end.ch][start.ch..] == lines[n][start.ch..end.ch];
    }
  }

  /** The last event of a sound history is not empty. */
  lemma TopNotEmpty(doc: Text, st: seq<Entry>, d: seq<Entry>)
    requires Chain(doc, Events(st)) && Events(d) == Events(st) && EventOnTop(d)
    ensures Top(d).e.changes != [] && Applies(doc, Top(d).e.changes)
  {
    PopEvent(d);
  }

  lemma MovedSame(source: seq<Entry>, dest: seq<Entry>, sel: int)
    ensures var (s, d, _) := MoveSels(source, dest, sel); Events(s) == Events(source) && (s == [] || EventOnTop(s))
  {
  }

  /** Below the event that is taken off there is a selection. */
  lemma SelectionBelow(source: seq<Entry>, dest: seq<Entry>, sel: int)
    requires Layered(source) && Layered(dest) && MoveSels(source, dest, sel).0 != []
    ensures var s := MoveSels(source, dest, sel).0; |s| > 1 && s[|s| - 2].Sel?
  {
    MoveLayered(source, dest, sel);
    PopLayered(MoveSels(source, dest, sel).0);
  }

  lemma LastIsSame(st: seq<Entry>, force: bool)
    ensures var (d, found) := LastEvent(st, force); Events(d) == Events(st) && (found ==> EventOnTop(d))
  {
  }

  /** One of the changes of an event applied. */
  lemma ApplyOne(doc: Text, cs: seq<Change>, i: nat)
    requires i < |cs| && Applies(doc, cs[..i + 1])
    ensures Fits(doc, cs[i]) && Applies(Splice(doc, cs[i]), cs[..i])
    ensures ApplyAll(doc, cs[..i + 1]) == ApplyAll(Splice(doc, cs[i]), cs[..i])
    ensures Invert(doc, cs[..i + 1]) == [Inverse(doc, cs[i])] + Invert(Splice(doc, cs[i]), cs[..i])
  {
    hide Fits, Splice, Inverse;
    assert cs[..i + 1][..i] == cs[..i];
  }

  lemma ApplyNone(doc: Text, cs: seq<Change>)
    ensures ApplyAll(doc, cs[..0]) == doc && Invert(doc, cs[..0]) == []
  {
  }

  /** Every line has the height estimated for its text, or that of the lines the document began with. */
  ghost predicate Sized(ls: seq<LineTree.Line>, est: string -> int) {
    forall i :: 0 <= i < |ls| ==> ls[i].height == est(ls[i].text) || ls[i].height == 1
  }

  lemma SizedKept(ls: seq<LineTree.Line>, ls': seq<LineTree.Line>, f: nat, k: nat, n: nat, est: string -> int)
    requires Sized(ls, est) && Around(ls, ls', f, k) && Estimated(ls', f, n, est) && |ls'| == |ls| - (k - f) + n
    ensures Sized(ls', est)
  {
    forall i | 0 <= i < |ls'| ensures ls'[i].height == est(ls'[i].text) || ls'[i].height == 1 {
      if i < f {
        assert ls'[i] == ls'[..f][i] == ls[..f][i] == ls[i];
      } else if i >= f + n {
        assert ls'[i] == ls'[f + n..][i - f - n] == ls[k..][i - f - n] == ls[k + (i - f - n)];
      }
    }
  }

  lemma SpliceLength(doc: Text, c: Change)
    requires Fits(doc, c)
    ensures |Splice(doc, c)| == |doc| - (c.to.line + 1 - c.from.line) + |c.text| && 0 <= c.from.line <= c.to.line
  {
  }

  class Editor {
    const doc: LineDoc
    const wholeLines: bool
    const est: string -> int
    var sel: int
    var done: seq<Entry>
    var undone: seq<Entry>
    var generation: nat
    var maxGeneration: nat
    var lastOp: int

    ghost function State(): (h: Hist)
      reads this, doc
    {
      Hist(doc.Texts(), sel, done, undone, generation, maxGeneration, lastOp)
    }

    ghost predicate Valid()
      reads this, doc
    {
      doc.Valid() && Sized(doc.Lines(), est) && Sound(View(State())) && InOrder(State())
    }

    constructor (text: seq<string>, wholeLines: bool, est: string -> int)
      requires text != []
      ensures Valid() && fresh(doc) && State() == Hist(text, 0, [], [], 1, 1, -1)
    {
      doc := new LineDoc(text, wholeLines);
      this.wholeLines, this.est := wholeLines, est;
      sel, done, undone, generation, maxGeneration, lastOp := 0, [], [], 1, 1, -1;
    }

    /** The change that takes a change back. */
    method HistoryChange(c: Change) returns (r: Change)
      requires doc.Valid() && Fits(doc.Texts(), c)
      ensures r == Inverse(doc.Texts(), c)
    {
      hide LineTree.Bounded, LineTree.Exact, LineTree.Flat, LineLinks.TreeOk, TextOf, GetBetween;
      var text := GetText(doc.root, c.from, c.to);
      r := Change(c.from, ChangeEnd(c), text);
    }

    /** Is there an event that a change can be merged into? Selections in the way are popped. */
    method LastChangeEvent(force: bool) returns (found: bool)
      modifies this`done
      ensures (done, found) == LastEvent(old(done), force)
    {
      if force {
        done := ClearSelectionEvents(done);
        return done != [];
      } else if done != [] && Top(done).Event? {
        return true;
      } else if |done| > 1 && done[|done| - 2].Event? {
        done := Pop(done);
        return true;
      }
      return false;
    }

    /** Add a change to those of an event. */
    method MergeChange(cs: seq<Change>, c: Change) returns (r: seq<Change>)
      requires doc.Valid() && Fits(doc.Texts(), c) && cs != []
      ensures r == Merged(doc.Texts(), cs, c)
    {
      hide LineTree.RootOk, LineTree.Bounded, LineTree.Flat, LineLinks.TreeOk, Inverse, TextOf, InDoc, Le;
      var last := cs[|cs| - 1];
      if c.from == c.to && c.from == last.to {
        r := cs[..|cs| - 1] + [last.(to := ChangeEnd(c))];
      } else {
        var inverse := HistoryChange(c);
        r := cs + [inverse];
      }
    }

    /** Register a change as an event of its own, after a selection. */
    method AddEvent(c: Change, depth: nat)
      requires doc.Valid() && Fits(doc.Texts(), c) && depth >= 1
      modifies this`done
      ensures var d := old(done); var d1 := if d == [] || Top(d).Event? then PushSel(sel, d) else d;
        done == Trim(d1 + [Event(Ev([Inverse(doc.Texts(), c)], generation))], depth)
    {
      hide LineTree.RootOk, LineTree.Bounded, LineTree.Flat, LineLinks.TreeOk, TextOf, Inverse, Trim, Fits, PushSel;
      if done == [] || Top(done).Event? {
        done := PushSel(sel, done);
      }
      var inverse := HistoryChange(c);
      done := Forget(done + [Event(Ev([inverse], generation))], depth);
    }

    /** Register a change, in the last event if it belongs there. */
    method AddChangeToHistory(c: Change, selAfter: int, op: int, similar: bool, depth: nat)
      requires Valid() && Fits(doc.Texts(), c) && depth >= 1
      modifies this`done, this`undone, this`generation, this`maxGeneration, this`lastOp
      ensures done == DoneAfterEdit(old(State()), Edit(c, selAfter, op, similar, depth)) + [Sel(selAfter)]
      ensures undone == [] && generation == maxGeneration == old(maxGeneration) + 1 && lastOp == op
    {
      hide LineTree.RootOk, LineTree.Bounded, LineTree.Flat, LineLinks.TreeOk, TextOf, Applies, ApplyAll, Inverse, ChangeEnd, LastEvent, Trim, Events, Fits, PushSel, Chain, Merged, InOrder;
      undone := [];
      var found, same := false, op >= 0 && lastOp == op;
      if same || similar {
        found := LastChangeEvent(same);
      }
      if found {
        LastIsSame(old(done), same);
        TopNotEmpty(doc.Texts(), old(done), done);
        var changes := MergeChange(Top(done).e.changes, c);
        done := Pop(done) + [Event(Top(done).e.(changes := changes))];
      } else {
        AddEvent(c, depth);
      }
      done := done + [Sel(selAfter)];
      maxGeneration := maxGeneration + 1;
      generation := maxGeneration;
      lastOp := op;
    }

    /** An edit: register it and carry it out, unless it changes nothing. */
    method MakeChange(c: Change, selAfter: int, op: int, similar: bool, depth: nat)
      requires Valid() && Fits(doc.Texts(), c) && depth >= 1
      modifies this, doc
      ensures Valid() && State() == Exec(old(State()), Edit(c, selAfter, op, similar, depth))
      ensures if NoChange(c) then doc.Lines() == old(doc.Lines())
              else Estimated(doc.Lines(), c.from.line, |c.text|, est) && Around(old(doc.Lines()), doc.Lines(), c.from.line, c.to.line + 1)
      ensures NoChange(c) ||
              (if wholeLines && WholeLines(c) then doc.Lines()[c.from.line + |c.text| - 1].id == old(doc.Lines())[c.to.line].id
               else doc.Lines()[c.from.line].id == old(doc.Lines())[c.from.line].id)
    {
      hide LineTree.RootOk, LineTree.Bounded, LineTree.Flat, LineLinks.TreeOk, TextOf, Fits, Splice, Around, WholeLines, DoneAfterEdit, Chain, Events, InOrder, Sized, Estimated;
      ghost var h, edit := State(), Edit(c, selAfter, op, similar, depth);
      if c.text == [""] && c.from == c.to {
        return;
      }
      AddChangeToHistory(c, selAfter, op, similar, depth);
      SpliceLength(doc.Texts(), c);
      ghost var ls := doc.Lines();
      doc.UpdateDoc(c, wholeLines, est);
      SizedKept(ls, doc.Lines(), c.from.line, c.to.line + 1, |c.text|, est);
      sel := selAfter;
      EditSound(h, edit);
      StepInOrder(h, edit);
    }

    /** Apply the changes of an event, last first; also the changes that take them back. */
    method ApplyChanges(cs: seq<Change>) returns (anti: seq<Change>)
      requires doc.Valid() && Sized(doc.Lines(), est) && Applies(doc.Texts(), cs)
      modifies doc
      ensures doc.Valid() && Sized(doc.Lines(), est)
      ensures doc.Texts() == ApplyAll(old(doc.Texts()), cs) && anti == Invert(old(doc.Texts()), cs)
    {
      hide LineTree.RootOk, LineTree.Bounded, LineTree.Flat, LineLinks.TreeOk, TextOf, Applies, ApplyAll, Invert, Inverse, Fits, Splice, Around, WholeLines, Sized, Estimated;
      anti := [];
      var i := |cs|;
      assert cs[..i] == cs;
      while i > 0
        invariant 0 <= i <= |cs| && doc.Valid() && Sized(doc.Lines(), est) && Applies(doc.Texts(), cs[..i])
        invariant ApplyAll(doc.Texts(), cs[..i]) == ApplyAll(old(doc.Texts()), cs)
        invariant anti + Invert(doc.Texts(), cs[..i]) == Invert(old(doc.Texts()), cs)
      {
        i := i - 1;
        ApplyOne(doc.Texts(), cs, i);
        var inverse := HistoryChange(cs[i]);
        anti := anti + [inverse];
        SpliceLength(doc.Texts(), cs[i]);
        ghost var ls := doc.Lines();
        doc.UpdateDoc(cs[i], wholeLines, est);
        SizedKept(ls, doc.Lines(), cs[i].from.line, cs[i].to.line + 1, |cs[i].text|, est);
      }
      ApplyNone(doc.Texts(), cs);
    }

    /** Undo or redo one event; nothing happens if there is none. */
    method MakeChangeFromHistory(undo: bool)
      requires Valid()
      modifies this, doc
      ensures Valid() && State() == Exec(old(State()), if undo then Undo else Redo)
    {
      hide LineTree.RootOk, LineTree.Bounded, LineTree.Flat, LineLinks.TreeOk, TextOf, Chain, Events, Applies, ApplyAll, Invert, MoveSels, PushSel, Layered;
      ghost var h := State();
      var source, dest := if undo then done else undone, if undo then undone else done;
      var s, d, selAfter := MoveSelections(source, dest, sel);
      UndoSound(h);
      StepInOrder(h, if undo then Undo else Redo);
      if s == [] {
        return;
      }
      var e := Top(s).e;
      MovedSame(source, dest, sel);
      TopNotEmpty(doc.Texts(), source, s);
      var anti := ApplyChanges(e.changes);
      d := PushSel(selAfter, d) + [Event(Ev(anti, generation))];
      generation := e.generation;
      SelectionBelow(source, dest, sel);
      s := Pop(s);
      sel := Top(s).sel;
      if undo {
        done, undone := s, d;
      } else {
        undone, done := s, d;
      }
    }

    /** The selection changes, in a new entry or in place of the last one. When that was an event the
        event is lost, and what is left need not apply to the text. */
    method AddSelection(s: int, op: int, similar: bool, clearRedo: bool)
      requires Valid()
      modifies this
      ensures doc.Valid() && InOrder(State()) && State() == Exec(old(State()), SetSel(s, op, similar, clearRedo))
      ensures Safe(old(State()), SetSel(s, op, similar, clearRedo)) ==> Valid()
    {
      hide LineTree.RootOk, LineTree.Bounded, LineTree.Flat, LineLinks.TreeOk, TextOf, Chain, Events, ClearSels, PushSel, InOrder;
      ghost var h, step := State(), SetSel(s, op, similar, clearRedo);
      if (op >= 0 && lastOp == op) || similar {
        if done != [] {
          done := done[|done| - 1 := Sel(s)];
        }
      } else {
        done := PushSel(s, done);
      }
      if clearRedo {
        undone := ClearSelectionEvents(undone);
      }
      sel := s;
      lastOp := op;
      StepInOrder(h, step);
      if Safe(h, step) {
        SetSelView(h, step);
      }
    }
  }

  lemma EditSound(h: Hist, op: Op)
    requires Sound(View(h)) && op.Edit? && Fits(h.doc, op.c)
    ensures Sound(View(Exec(h, op)))
  {
    if !NoChange(op.c) {
      var n := EditView(h, op);
      EditedTexts(View(h), View(Exec(h, op)), op.c, n);
    }
  }

  lemma UndoSound(h: Hist)
    requires Sound(View(h))
    ensures Sound(View(Exec(h, Undo))) && Sound(View(Exec(h, Redo)))
  {
    hide Exec, View, Back;
    UndoView(h);
    BackSound(View(h));
    BackSound(Mirror(View(h)));
  }
}
