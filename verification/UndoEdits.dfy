/**
 What an edit leaves to be undone, and the selections that go with the texts: undoing an edit gives back
 the text and the selection from before it.
 */
module UndoEdits {
  import opened DocText
  import opened DocHistory
  import opened UndoRedo

  // Selections

  /** Below every event there is the selection from before it. */
  ghost predicate Layered(st: seq<Entry>) {
    forall k :: 0 <= k < |st| && st[k].Event? ==> k > 0 && st[k - 1].Sel?
  }

  /** The selection recorded last, when nothing has been recorded since, is the one in force. */
  predicate Pending(h: Hist) {
    TopSel(h.done, h.sel) == h.sel
  }

  ghost predicate InOrder(h: Hist) {
    Layered(h.done) && Layered(h.undone) && Pending(h)
  }

  lemma PushSelLayered(s: int, st: seq<Entry>)
    requires Layered(st)
    ensures Layered(PushSel(s, st)) && PushSel(s, st) != [] && TopSel(PushSel(s, st), 0) == s && !EventOnTop(PushSel(s, st))
  {
    hide Events;
  }

  /** A selection that is already on top is not recorded again. */
  lemma PushSelOnce(s: int, st: seq<Entry>)
    ensures PushSel(s, PushSel(s, st)) == PushSel(s, st) && |st| <= |PushSel(s, st)| <= |st| + 1
  {
    hide Events;
  }

  lemma PushEventLayered(e: Ev, st: seq<Entry>)
    requires Layered(st) && st != [] && !EventOnTop(st)
    ensures Layered(PushEvent(e, st))
  {
  }

  lemma PopLayered(st: seq<Entry>)
    requires Layered(st) && st != []
    ensures Layered(st[..|st| - 1]) && (EventOnTop(st) ==> st[..|st| - 1] != [] && !EventOnTop(st[..|st| - 1]))
  {
  }

  lemma {:induction false} ClearLayered(st: seq<Entry>)
    requires Layered(st)
    ensures Layered(ClearSels(st))
  {
    if st != [] && !EventOnTop(st) {
      ClearLayered(st[..|st| - 1]);
    }
  }

  lemma {:induction false} MoveLayered(source: seq<Entry>, dest: seq<Entry>, sel: int)
    requires Layered(source) && Layered(dest)
    ensures var (s, d, _) := MoveSels(source, dest, sel); Layered(s) && Layered(d)
    decreases |source|
  {
    if source != [] && !EventOnTop(source) {
      var s := source[|source| - 1].sel;
      PushSelLayered(s, dest);
      MoveLayered(source[..|source| - 1], PushSel(s, dest), s);
    }
  }

  /** The oldest entries are dropped so that there still is a selection below every event. */
  lemma {:induction false} TrimLayered(st: seq<Entry>, depth: nat)
    requires Layered(st)
    ensures Layered(Trim(st, depth))
    decreases |st|
  {
    if |st| > depth {
      var k := if |st| > 1 && st[1].Event? then 2 else 1;
      assert Layered(st[k..]);
      TrimLayered(st[k..], depth);
    }
  }

  lemma RevertInOrder(h: Hist, source: seq<Entry>, dest: seq<Entry>)
    requires Layered(source) && Layered(dest)
    ensures var (h', s, d) := Revert(h, source, dest);
      Layered(s) && Layered(d) && ((s == source && d == dest && h' == h) || (s != [] && s[|s| - 1] == Sel(h'.sel) && EventOnTop(d)))
  {
    hide Applies, ApplyAll, Invert, Layered, Events;
    MoveLayered(source, dest, h.sel);
    var (s, d, sel) := MoveSels(source, dest, h.sel);
    if s != [] && Applies(h.doc, s[|s| - 1].e.changes) {
      PopLayered(s);
      PushSelLayered(sel, d);
      PushEventLayered(Ev(Invert(h.doc, s[|s| - 1].e.changes), h.generation), PushSel(sel, d));
    }
  }

  lemma LastEventLayered(st: seq<Entry>, force: bool)
    requires Layered(st)
    ensures var (d, found) := LastEvent(st, force); Layered(d) && (found ==> EventOnTop(d))
  {
    ClearLayered(st);
  }

  lemma EditLayered(h: Hist, op: Op)
    requires op.Edit? && Fits(h.doc, op.c) && Layered(h.done)
    ensures Layered(DoneAfterEdit(h, op))
  {
    hide Layered, Inverse, Merged, Fits, LastEvent, Trim, Events;
    LastEventLayered(h.done, SameOp(h, op.op));
    var (d, found) := if SameOp(h, op.op) || op.similar then LastEvent(h.done, SameOp(h, op.op)) else (h.done, false);
    if found && d[|d| - 1].e.changes != [] {
      PopLayered(d);
      var cur := d[|d| - 1].e;
      PushEventLayered(cur.(changes := Merged(h.doc, cur.changes, op.c)), d[..|d| - 1]);
    } else {
      var d1 := if d == [] || d[|d| - 1].Event? then PushSel(h.sel, d) else d;
      PushSelLayered(h.sel, d);
      PushEventLayered(Ev([Inverse(h.doc, op.c)], h.generation), d1);
      TrimLayered(PushEvent(Ev([Inverse(h.doc, op.c)], h.generation), d1), op.depth);
    }
  }

  /** Every operation, also a selection that replaces an event, keeps a selection below every event. */
  lemma StepInOrder(h: Hist, op: Op)
    requires InOrder(h) && (op.Edit? ==> Fits(h.doc, op.c))
    ensures InOrder(Exec(h, op))
  {
    hide Events, DoneAfterEdit, Revert, Fits, Splice, ClearSels, Layered;
    match op
    case Edit(c, selAfter, _, _, _) =>
      if !NoChange(c) {
        EditLayered(h, op);
        AddSelLayered(DoneAfterEdit(h, op), selAfter);
      }
    case Undo => RevertInOrder(h, h.done, h.undone);
    case Redo => RevertInOrder(h, h.undone, h.done);
    case SetSel(s, _, _, _) =>
      SetTopLayered(s, h.done);
      PushSelLayered(s, h.done);
      ClearLayered(h.undone);
  }

  lemma AddSelLayered(st: seq<Entry>, s: int)
    requires Layered(st)
    ensures Layered(st + [Sel(s)]) && Layered([])
  {
  }

  lemma SetTopLayered(s: int, st: seq<Entry>)
    requires Layered(st)
    ensures Layered(SetTop(s, st))
  {
  }

  lemma {:induction false} RunInOrder(hs: seq<Hist>, ops: seq<Op>, k: nat)
    requires HistRun(hs, ops) && k <= |ops|
    ensures InOrder(hs[k])
  {
    if k > 0 {
      RunInOrder(hs, ops, k - 1);
      assert hs[k] == Exec(hs[k - 1], ops[k - 1]);
      hide Exec, InOrder;
      StepInOrder(hs[k - 1], ops[k - 1]);
    }
  }

  // Undoing an edit

  lemma {:induction false} MovesToEvent(source: seq<Entry>, dest: seq<Entry>, sel: int)
    ensures MoveSels(source, dest, sel).0 == ClearSels(source)
    decreases |source|
  {
    if source != [] && !EventOnTop(source) {
      var s := source[|source| - 1].sel;
      MovesToEvent(source[..|source| - 1], PushSel(s, dest), s);
    }
  }

  lemma FoundTop(st: seq<Entry>, force: bool)
    requires LastEvent(st, force).1
    ensures LastEvent(st, force).0 == ClearSels(st)
  {
  }

  /** An undo sets the selection that lies below the event. */
  lemma UndoSets(h: Hist)
    requires Chain(h.doc, Events(h.done)) && Events(h.done) != []
    ensures var s := ClearSels(h.done); EventOnTop(s) && Exec(h, Undo).sel == TopSel(s[..|s| - 1], h.sel)
  {
    MovesToEvent(h.done, h.undone, h.sel);
    NoEvents(0);
    var s := ClearSels(h.done);
    PopEvent(s);
    hide Applies, ApplyAll, Invert, Events;
  }

  lemma ClearOne(st: seq<Entry>, s: int)
    requires EventOnTop(st)
    ensures ClearSels(st + [Sel(s)]) == st
  {
    assert (st + [Sel(s)])[..|st|] == st;
  }

  /** What lies on top of the stack after an edit: an event, and below it the selection from before. */
  lemma DoneTop(h: Hist, op: Op)
    requires op.Edit? && Fits(h.doc, op.c) && Layered(h.done) && Pending(h) && Chain(h.doc, Events(h.done))
    ensures var d := DoneAfterEdit(h, op);
      if Mergeable(h, op) then
        var s := ClearSels(h.done); EventOnTop(s) && EventOnTop(d) && d[..|d| - 1] == s[..|s| - 1]
      else
        op.depth >= 2 ==> |d| > 1 && EventOnTop(d) && d[|d| - 2] == Sel(h.sel)
  {
    hide Inverse, Merged, Fits, LastEvent, Trim, Events, Mergeable, Chain, Layered, PushSel, ClearSels;
    FoundExactly(h, op);
    var (d, found) := if SameOp(h, op.op) || op.similar then LastEvent(h.done, SameOp(h, op.op)) else (h.done, false);
    if found {
      FoundTop(h.done, SameOp(h, op.op));
      TopChanges(h, d);
    } else {
      if SameOp(h, op.op) {
        NotFound(h.done);
      }
      LastEventLayered(h.done, SameOp(h, op.op));
      if op.depth >= 2 {
        NewTop(d, h.sel, Ev([Inverse(h.doc, op.c)], h.generation), op.depth);
      }
    }
  }

  lemma NewTop(d: seq<Entry>, sel: int, e: Ev, depth: nat)
    requires Layered(d) && TopSel(d, sel) == sel && depth >= 2
    ensures var d1 := if d == [] || d[|d| - 1].Event? then PushSel(sel, d) else d; var r := Trim(PushEvent(e, d1), depth);
      |r| > 1 && EventOnTop(r) && r[|r| - 2] == Sel(sel)
  {
    hide Trim, Events, Layered;
    var d1 := if d == [] || d[|d| - 1].Event? then PushSel(sel, d) else d;
    PushSelLayered(sel, d);
    PushEventLayered(e, d1);
    var st := PushEvent(e, d1);
    TrimLayered(st, depth);
    TrimSize(st, depth);
    PopLayered(Trim(st, depth));
  }

  lemma NotFound(st: seq<Entry>)
    requires !LastEvent(st, true).1
    ensures LastEvent(st, true).0 == []
  {
  }

  lemma TopChanges(h: Hist, d: seq<Entry>)
    requires Chain(h.doc, Events(h.done)) && Events(d) == Events(h.done) && EventOnTop(d)
    ensures d[|d| - 1].e.changes != []
  {
    PopEvent(d);
  }

  /** The selection one undo after an edit leads to. */
  lemma EditUndoneSel(h: Hist, edit: Op)
    requires Sound(View(h)) && InOrder(h) && edit.Edit? && Fits(h.doc, edit.c) && !NoChange(edit.c)
    requires Mergeable(h, edit) || edit.depth >= 2
    ensures Exec(Exec(h, edit), Undo).sel == if Mergeable(h, edit) then Exec(h, Undo).sel else h.sel
  {
    hide Exec, Events, DoneAfterEdit, Chain, Mergeable, Fits, NoChange, ClearSels, Edited, Layered, Texts;
    var h1 := Exec(h, edit);
    var n := EditView(h, edit);
    EditedTexts(View(h), View(h1), edit.c, n);
    EditTo(h, edit);
    DoneTop(h, edit);
    var d := DoneAfterEdit(h, edit);
    ClearOne(d, edit.selAfter);
    EventsOf(d, edit.selAfter);
    UndoSets(h1);
    if Mergeable(h, edit) {
      MergeableEvents(h, edit);
      UndoSets(h);
      SelBelow(h.done);
    }
  }

  lemma EventsOf(d: seq<Entry>, s: int)
    requires EventOnTop(d)
    ensures Events(d + [Sel(s)]) != []
  {
    EventsSplit(d, [Sel(s)]);
    PopEvent(d);
  }

  lemma MergeableEvents(h: Hist, op: Op)
    requires op.Edit? && Mergeable(h, op)
    ensures Events(h.done) != []
  {
  }

  lemma SelBelow(st: seq<Entry>)
    requires Layered(st) && EventOnTop(ClearSels(st))
    ensures var s := ClearSels(st); |s| > 1 && s[|s| - 2].Sel?
  {
    ClearLayered(st);
  }

  lemma EditUndoneText(h: Hist, edit: Op)
    requires Sound(View(h)) && edit.Edit? && Fits(h.doc, edit.c) && !NoChange(edit.c)
    requires Mergeable(h, edit) || edit.depth >= 2
    ensures var a, b := View(h), View(Exec(Exec(h, edit), Undo));
      if Mergeable(h, edit) then b.doc == Back(a).doc && b.generation == Back(a).generation && b.past == Back(a).past
      else b.doc == a.doc && b.generation == a.generation && |b.past| <= |a.past| && b.past == a.past[|a.past| - |b.past|..]
  {
    hide Exec, Events, Chain, Mergeable, Fits, NoChange, Edited, Back;
    var n := EditView(h, edit);
    UndoView(Exec(h, edit));
    if n == 0 {
      JoinedBack(View(h), View(Exec(h, edit)), edit.c);
    } else {
      AddedBack(View(h), View(Exec(h, edit)), edit.c, n);
    }
  }

  lemma JoinedBack(a: Abs, b: Abs, c: Change)
    requires Fits(a.doc, c) && Sound(a) && Edited(a, b, c, 0)
    ensures Back(b).doc == Back(a).doc && Back(b).generation == Back(a).generation && Back(b).past == Back(a).past
  {
    hide Back, Chain, Fits, Texts, Splice, Merged;
    EditedTexts(a, b, c, 0);
    BackTexts(b);
    BackFuture(b);
    BackTexts(a);
    BackFuture(a);
    assert b.past[..|b.past| - 1] == a.past[..|a.past| - 1];
  }

  lemma AddedBack(a: Abs, b: Abs, c: Change, n: nat)
    requires Fits(a.doc, c) && Sound(a) && n > 0 && Edited(a, b, c, n) && b.past != []
    ensures var r := Back(b);
      r.doc == a.doc && r.generation == a.generation && |r.past| <= |a.past| && r.past == a.past[|a.past| - |r.past|..]
  {
    hide Back, Chain, Fits, Texts, Splice, Inverse;
    EditedTexts(a, b, c, n);
    BackTexts(b);
    BackFuture(b);
    assert b.past[|b.past| - 1].generation == a.generation;
    assert b.past[..|b.past| - 1] == a.past[n - 1..];
  }

  /** One undo after an edit. If the edit became part of an event, it leads where one undo led before the
      edit. If not, it leads to the text, the selection and the generation from before the edit, provided
      the undo depth leaves room for the event, and to no other events than there were. */
  lemma EditUndone(h: Hist, edit: Op)
    requires Sound(View(h)) && InOrder(h) && edit.Edit? && Fits(h.doc, edit.c) && !NoChange(edit.c)
    requires Mergeable(h, edit) || edit.depth >= 2
    ensures var h2 := Exec(Exec(h, edit), Undo);
      if Mergeable(h, edit) then
        var h1 := Exec(h, Undo);
        h2.doc == h1.doc && h2.sel == h1.sel && h2.generation == h1.generation && Events(h2.done) == Events(h1.done)
      else
        && h2.doc == h.doc && h2.sel == h.sel && h2.generation == h.generation
        && |Events(h2.done)| <= |Events(h.done)|
        && Events(h2.done) == Events(h.done)[|Events(h.done)| - |Events(h2.done)|..]
  {
    hide Exec, Back, InOrder, Sound, Fits, Mergeable, NoChange, Events;
    EditUndoneText(h, edit);
    EditUndoneSel(h, edit);
    UndoView(h);
  }

  /** With an undo depth of 1 an edit that is an event of its own cannot be undone, nor can any before it. */
  lemma DepthOne(h: Hist, edit: Op)
    requires Chain(h.doc, Events(h.done)) && InOrder(h) && edit.Edit? && Fits(h.doc, edit.c) && !NoChange(edit.c)
    requires !Mergeable(h, edit) && edit.depth == 1
    ensures Events(Exec(h, edit).done) == []
  {
    hide Inverse, Merged, Fits, LastEvent, Trim, Events, Mergeable, Chain, Layered, NoChange, Splice;
    FoundExactly(h, edit);
    LastEventLayered(h.done, SameOp(h, edit.op));
    var (d, found) := if SameOp(h, edit.op) || edit.similar then LastEvent(h.done, SameOp(h, edit.op)) else (h.done, false);
    var d1 := if d == [] || d[|d| - 1].Event? then PushSel(h.sel, d) else d;
    PushSelLayered(h.sel, d);
    PushEventLayered(Ev([Inverse(h.doc, edit.c)], h.generation), d1);
    NothingLeft(PushEvent(Ev([Inverse(h.doc, edit.c)], h.generation), d1));
    EditTo(h, edit);
    assert [] + [Sel(edit.selAfter)] == [Sel(edit.selAfter)];
    NoEvents(edit.selAfter);
  }

  lemma {:induction false} NothingLeft(st: seq<Entry>)
    requires Layered(st) && EventOnTop(st)
    ensures Trim(st, 1) == []
    decreases |st|
  {
    if |st| > 2 {
      var k := if st[1].Event? then 2 else 1;
      NothingLeft(st[k..]);
    } else {
      assert st[2..] == [];
    }
  }

  // Undoing many edits

  /** Steps `i` to `j` of a run are edits that become events of their own, and there is room for these. */
  ghost predicate Separate(hs: seq<Hist>, ops: seq<Op>, i: nat, j: nat) {
    && HistRun(hs, ops) && i <= j <= |ops|
    && forall t :: i <= t < j ==> ops[t].Edit? && !NoChange(ops[t].c) && !Mergeable(hs[t], ops[t]) && |hs[t].done| + 2 <= ops[t].depth
  }

  /** They add the texts from before each of them to those that can be undone to. */
  lemma {:induction false} SeparateTexts(hs: seq<Hist>, ops: seq<Op>, i: nat, j: nat)
    requires Separate(hs, ops, i, j)
    ensures Sound(View(hs[i])) && Sound(View(hs[j]))
    ensures var a, b := View(hs[i]), View(hs[j]);
      && |b.past| == |a.past| + j - i
      && forall t :: i <= t < j ==> Texts(b.doc, b.past)[|a.past| + t - i] == hs[t].doc
    decreases j - i
  {
    hide Exec, Events, Chain, Texts, Mergeable, NoChange, Fits, Known, Had, Fresh;
    var _ := RunSound(hs, ops, i);
    var _ := RunSound(hs, ops, j);
    if i < j {
      SeparateTexts(hs, ops, i, j - 1);
      var a, b, c := View(hs[i]), View(hs[j - 1]), View(hs[j]);
      SeparateStep(hs, ops, i, j - 1);
      forall t | i <= t < j ensures Texts(c.doc, c.past)[|a.past| + t - i] == hs[t].doc {
        assert Texts(c.doc, c.past)[|a.past| + t - i] == (Texts(b.doc, b.past) + [b.doc])[|a.past| + t - i];
      }
    }
  }

  lemma RunSound(hs: seq<Hist>, ops: seq<Op>, k: nat) returns (g: map<nat, Text>)
    requires HistRun(hs, ops) && k <= |ops|
    ensures Sound(View(hs[k]))
  {
    g := RunKnown(hs, ops, k);
  }

  lemma SeparateStep(hs: seq<Hist>, ops: seq<Op>, i: nat, t: nat)
    requires Separate(hs, ops, i, t + 1) && i <= t && Sound(View(hs[t]))
    ensures var b, c := View(hs[t]), View(hs[t + 1]);
      Sound(c) && Texts(c.doc, c.past) == Texts(b.doc, b.past) + [b.doc]
  {
    hide Exec, Events, Chain, Texts, Mergeable, NoChange, Fits, Edited;
    assert hs[t + 1] == Exec(hs[t], ops[t]) && Safe(hs[t], ops[t]);
    var n := EditView(hs[t], ops[t]);
    EditedTexts(View(hs[t]), View(hs[t + 1]), ops[t].c, n);
    var b := View(hs[t]);
    assert (Texts(b.doc, b.past) + [b.doc])[0..] == Texts(b.doc, b.past) + [b.doc];
  }

  /** As many undos as there were such edits give back the text from before them, one by one. */
  lemma EditsUndone(hs: seq<Hist>, ops: seq<Op>, i: nat, j: nat, k: nat)
    requires Separate(hs, ops, i, j) && k <= j - i
    ensures Undos(hs[j], k).doc == hs[j - k].doc
  {
    hide Exec, Events, Chain, Texts, Mergeable, NoChange, Undos, Redos;
    SeparateTexts(hs, ops, i, j);
    UndoRedoAt(hs[j], k);
  }

  // Redoing

  lemma {:induction false} ClearPrefix(st: seq<Entry>)
    ensures var s := ClearSels(st); |s| <= |st| && s == st[..|s|] && (s != st ==> st[|s|].Sel?)
    decreases |st|
  {
    hide Events;
    if st != [] && !EventOnTop(st) {
      ClearPrefix(st[..|st| - 1]);
    }
  }

  /** The selection that was recorded first after the last event, or else the one in force. */
  ghost function FirstAfter(st: seq<Entry>, sel: int): int {
    ClearPrefix(st);
    var s := ClearSels(st);
    if s == st then sel else st[|s|].sel
  }

  lemma {:induction false} MovedLast(source: seq<Entry>, dest: seq<Entry>, sel: int)
    ensures MoveSels(source, dest, sel).2 == FirstAfter(source, sel)
    decreases |source|
  {
    hide Events, PushSel;
    if source != [] && !EventOnTop(source) {
      var rest, s := source[..|source| - 1], source[|source| - 1].sel;
      MovedLast(rest, PushSel(s, dest), s);
      ClearPrefix(rest);
    }
  }

  /** What an undo leaves to be redone. */
  lemma UndoLeaves(h: Hist)
    requires Chain(h.doc, Events(h.done)) && Events(h.done) != [] && Layered(h.undone) && Layered(h.done)
    ensures var u := Exec(h, Undo).undone; EventOnTop(u) && TopSel(u[..|u| - 1], 0) == FirstAfter(h.done, h.sel)
  {
    hide Applies, ApplyAll, Invert, Events, FirstAfter, Layered, Chain;
    MovesToEvent(h.done, h.undone, h.sel);
    MovedLast(h.done, h.undone, h.sel);
    MoveLayered(h.done, h.undone, h.sel);
    var (s, d, sel) := MoveSels(h.done, h.undone, h.sel);
    ClearHasEvent(h.done);
    PopEvent(s);
    ChainTop(h.doc, Events(h.done));
    PushSelLayered(sel, d);
  }

  lemma ClearHasEvent(st: seq<Entry>)
    requires Events(st) != []
    ensures EventOnTop(ClearSels(st)) && Events(ClearSels(st)) == Events(st)
  {
    NoEvents(0);
  }

  /** A redo sets the selection that lies below the event. */
  lemma RedoSets(h: Hist)
    requires Chain(h.doc, Events(h.undone)) && EventOnTop(h.undone)
    ensures Exec(h, Redo).sel == TopSel(h.undone[..|h.undone| - 1], h.sel)
  {
    hide Applies, ApplyAll, Invert, Events, Chain;
    PopEvent(h.undone);
    ChainTop(h.doc, Events(h.undone));
  }

  /** Redoing what was undone gives back the selection that was set first after the event. */
  lemma UndoRedoSel(h: Hist)
    requires Sound(View(h)) && InOrder(h) && Events(h.done) != []
    ensures Exec(Exec(h, Undo), Redo).sel == FirstAfter(h.done, h.sel)
  {
    hide Exec, Events, Chain, FirstAfter, Layered;
    UndoLeaves(h);
    UndoGives(h);
    RedoSets(Exec(h, Undo));
    StepInOrder(h, Undo);
    var u := Exec(h, Undo).undone;
    PopLayered(u);
  }

  /** An undo moves every selection after the event to the other stack, on top of what is there. */
  lemma {:induction false} MovedKept(source: seq<Entry>, dest: seq<Entry>, sel: int)
    ensures var (s, d, _) := MoveSels(source, dest, sel);
      && |s| <= |source| && s == source[..|s|] && |dest| <= |d| && d[..|dest|] == dest
      && forall k :: |s| <= k < |source| ==> source[k].Sel? && source[k] in d
    decreases |source|
  {
    hide Events;
    if source != [] && !EventOnTop(source) {
      var n := |source| - 1;
      var d1 := PushSel(source[n].sel, dest);
      MovedKept(source[..n], d1, source[n].sel);
      var (s, d, _) := MoveSels(source[..n], d1, source[n].sel);
      assert d1[|d1| - 1] == source[n] && d[..|d1|] == d1;
      assert d[..|dest|] == d1[..|dest|] == dest;
      assert source[n] == d[..|d1|][|d1| - 1];
    }
  }

  // Operations

  /** Two edits of one operation are undone together. */
  lemma SameOpTogether(h: Hist, e1: Op, e2: Op)
    requires Sound(View(h)) && InOrder(h) && e1.Edit? && e2.Edit? && e1.op == e2.op >= 0
    requires Fits(h.doc, e1.c) && !NoChange(e1.c) && (Mergeable(h, e1) || e1.depth >= 2)
    requires Fits(Exec(h, e1).doc, e2.c) && !NoChange(e2.c)
    ensures var h2, h1 := Exec(Exec(Exec(h, e1), e2), Undo), Exec(Exec(h, e1), Undo);
      h2.doc == h1.doc && h2.sel == h1.sel && h2.generation == h1.generation
  {
    hide Exec, Events, InOrder, Fits, NoChange, Edited, Mergeable, Chain;
    var h1 := Exec(h, e1);
    var n := EditView(h, e1);
    EditedTexts(View(h), View(h1), e1.c, n);
    EditTo(h, e1);
    if Mergeable(h, e1) {
      JoinedEvents(View(h), View(h1), e1.c);
    }
    SameOpMerges(h1, e2);
    StepInOrder(h, e1);
    EditUndone(h1, e2);
  }

  lemma JoinedEvents(a: Abs, b: Abs, c: Change)
    requires Fits(a.doc, c) && Edited(a, b, c, 0)
    ensures b.past != []
  {
  }

  lemma SameOpMerges(h: Hist, op: Op)
    requires op.Edit? && op.op >= 0 && h.lastOp == op.op && Events(h.done) != []
    ensures Mergeable(h, op)
  {
  }

  /** An edit belongs with the event before a selection of the same operation. */
  lemma SelectThenEdit(h: Hist, select: Op, edit: Op)
    requires select.SetSel? && edit.Edit? && select.op == edit.op >= 0 && Safe(h, select) && Events(h.done) != []
    ensures Mergeable(Exec(h, select), edit)
  {
    SetSelView(h, select);
    SameOpMerges(Exec(h, select), edit);
  }

  /** A selection that is set is the last thing recorded, unless it was to replace what is not there; and
      the selections that could still be redone are dropped if so wished, but no event. */
  lemma SelectRecords(h: Hist, op: Op)
    requires op.SetSel?
    ensures var h' := Exec(h, op);
      && h'.sel == op.s && h'.doc == h.doc && h'.generation == h.generation
      && (h'.done == [] || h'.done[|h'.done| - 1] == Sel(op.s)) && (h'.done == [] ==> h.done == [] && (SameOp(h, op.op) || op.similar))
      && Events(h'.undone) == Events(h.undone)
      && (if op.clearRedo then h'.undone == [] || EventOnTop(h'.undone) else h'.undone == h.undone)
  {
    hide Events;
  }
}
