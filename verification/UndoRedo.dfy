/**
 What undo and redo do to the text, over every run of edits, undos, redos and selections. The history
 is looked at without its selections: a text with the events that lead back from it and the events that
 lead forward again.
 */
module UndoRedo {
  import opened DocText
  import opened DocHistory

  datatype Abs = Abs(doc: Text, past: seq<Ev>, future: seq<Ev>, generation: nat, max: nat)

  function View(h: Hist): Abs {
    Abs(h.doc, Events(h.done), Events(h.undone), h.generation, h.maxGeneration)
  }

  /** Each event applies to the text that the events after it lead back to. */
  predicate Chain(doc: Text, es: seq<Ev>)
    decreases |es|
  {
    es == [] ||
    (var cs := es[|es| - 1].changes; cs != [] && Applies(doc, cs) && Chain(ApplyAll(doc, cs), es[..|es| - 1]))
  }

  /** The texts that the events lead back to. */
  function Texts(doc: Text, es: seq<Ev>): (ts: seq<Text>)
    requires Chain(doc, es)
    ensures |ts| == |es|
    decreases |es|
  {
    if es == [] then []
    else
      var t := ApplyAll(doc, es[|es| - 1].changes);
      Texts(t, es[..|es| - 1]) + [t]
  }

  ghost predicate Sound(a: Abs) {
    Chain(a.doc, a.past) && Chain(a.doc, a.future)
  }

  /** Go back by one event. */
  function Back(a: Abs): Abs {
    if a.past == [] || !Applies(a.doc, a.past[|a.past| - 1].changes) then a
    else
      var e := a.past[|a.past| - 1];
      Abs(ApplyAll(a.doc, e.changes), a.past[..|a.past| - 1], a.future + [Ev(Invert(a.doc, e.changes), a.generation)],
          e.generation, a.max)
  }

  function Mirror(a: Abs): Abs {
    a.(past := a.future, future := a.past)
  }

  /** Go forward by one event: the same, with the stacks exchanged. */
  function Forth(a: Abs): Abs {
    Mirror(Back(Mirror(a)))
  }

  lemma PopEvent(st: seq<Entry>)
    requires EventOnTop(st)
    ensures Events(st) == Events(st[..|st| - 1]) + [st[|st| - 1].e]
  {
  }

  lemma RevertView(h: Hist, source: seq<Entry>, dest: seq<Entry>)
    ensures var (h', s, d) := Revert(h, source, dest);
      var a := Back(Abs(h.doc, Events(source), Events(dest), h.generation, h.maxGeneration));
      Abs(h'.doc, Events(s), Events(d), h'.generation, h'.maxGeneration) == a
  {
    var (s, d, sel) := MoveSels(source, dest, h.sel);
    if s != [] {
      PopEvent(s);
    }
  }

  lemma UndoView(h: Hist)
    ensures View(Exec(h, Undo)) == Back(View(h))
    ensures View(Exec(h, Redo)) == Forth(View(h))
  {
    RevertView(h, h.done, h.undone);
    RevertView(h, h.undone, h.done);
  }

  lemma BackSound(a: Abs)
    requires Sound(a)
    ensures Sound(Back(a))
  {
    if a.past != [] {
      var e := a.past[|a.past| - 1];
      InvertUndoes(a.doc, e.changes);
      assert Back(a).future[..|a.future|] == a.future;
    }
  }

  lemma BackOf(a: Abs, rest: seq<Ev>, e: Ev)
    requires a.past == rest + [e] && Applies(a.doc, e.changes)
    ensures Back(a) == Abs(ApplyAll(a.doc, e.changes), rest, a.future + [Ev(Invert(a.doc, e.changes), a.generation)],
                           e.generation, a.max)
  {
    assert a.past[..|a.past| - 1] == rest;
  }

  lemma ForthOf(a: Abs, rest: seq<Ev>, e: Ev)
    requires a.future == rest + [e] && Applies(a.doc, e.changes)
    ensures Forth(a) == Abs(ApplyAll(a.doc, e.changes), a.past + [Ev(Invert(a.doc, e.changes), a.generation)], rest,
                            e.generation, a.max)
  {
    BackOf(Mirror(a), rest, e);
  }

  lemma ChainTop(doc: Text, es: seq<Ev>)
    requires Chain(doc, es) && es != []
    ensures var cs := es[|es| - 1].changes; cs != [] && Applies(doc, cs) && Chain(ApplyAll(doc, cs), es[..|es| - 1])
  {
  }

  /** Going forward undoes going back, events and generation included. */
  lemma BackForth(a: Abs)
    requires Chain(a.doc, a.past) && a.past != []
    ensures Forth(Back(a)) == a
  {
    hide Chain, Applies, ApplyAll, Invert, Back, Forth;
    var rest, e := a.past[..|a.past| - 1], a.past[|a.past| - 1];
    assert a.past == rest + [e];
    ChainTop(a.doc, a.past);
    BackOf(a, rest, e);
    InvertUndoes(a.doc, e.changes);
    InvertTwice(a.doc, e.changes);
    ForthOf(Back(a), a.future, Ev(Invert(a.doc, e.changes), a.generation));
  }

  /** A step done `k` times. */
  function Times<A>(f: A -> A, a: A, k: nat): A {
    if k == 0 then a else f(Times(f, a, k - 1))
  }

  lemma {:induction false} TimesOnce<A>(f: A -> A, a: A, k: nat)
    ensures Times(f, f(a), k) == f(Times(f, a, k))
  {
    if k > 0 {
      TimesOnce(f, a, k - 1);
    }
  }

  lemma {:induction false} TimesInverse<A>(f: A -> A, g: A -> A, a: A, k: nat)
    requires forall j :: 0 <= j < k ==> g(f(Times(f, a, j))) == Times(f, a, j)
    ensures Times(g, Times(f, a, k), k) == a
  {
    if k > 0 {
      var b := Times(f, a, k - 1);
      TimesOnce(g, f(b), k - 1);
      assert g(f(b)) == b;
      TimesInverse(f, g, a, k - 1);
    }
  }

  /** One event back: the text before it, and the texts before the older ones. */
  lemma BackTexts(a: Abs)
    requires Chain(a.doc, a.past) && a.past != []
    ensures var b, n := Back(a), |a.past| - 1;
      && b.past == a.past[..n] && Chain(b.doc, b.past)
      && b.doc == Texts(a.doc, a.past)[n] && Texts(b.doc, b.past) == Texts(a.doc, a.past)[..n]
  {
  }

  /** `b` is `a` with only the first `n` events of the past still to go back by. */
  ghost predicate BackAt(a: Abs, b: Abs, n: nat) {
    && Chain(a.doc, a.past) && n <= |a.past| && b.past == a.past[..n] && Chain(b.doc, b.past)
    && b.doc == (Texts(a.doc, a.past) + [a.doc])[n] && Texts(b.doc, b.past) == Texts(a.doc, a.past)[..n]
  }

  lemma BackAtNext(a: Abs, b: Abs, n: nat)
    requires BackAt(a, b, n) && n > 0
    ensures BackAt(a, Back(b), n - 1)
  {
    hide Back, Chain, Texts;
    BackTexts(b);
    assert a.past[..n][..n - 1] == a.past[..n - 1];
    assert Texts(a.doc, a.past)[..n][..n - 1] == Texts(a.doc, a.past)[..n - 1];
  }

  lemma BackAtSelf(a: Abs)
    requires Chain(a.doc, a.past)
    ensures BackAt(a, a, |a.past|)
  {
    assert a.past[..|a.past|] == a.past;
    assert Texts(a.doc, a.past)[..|a.past|] == Texts(a.doc, a.past);
  }

  /** Back by `k` events is the text before the last `k` of them. */
  lemma {:induction false} BackByTexts(a: Abs, k: nat)
    requires Chain(a.doc, a.past) && k <= |a.past|
    ensures BackAt(a, Times(Back, a, k), |a.past| - k)
  {
    hide *;
    if k == 0 {
      BackAtSelf(a);
      assert Times(Back, a, 0) == a by { TimesZero(Back, a); }
    } else {
      BackByTexts(a, k - 1);
      var b := Times(Back, a, k - 1);
      BackAtNext(a, b, |a.past| - k + 1);
      assert Times(Back, a, k) == Back(b) by { TimesMore(Back, a, k); }
    }
  }

  lemma TimesZero<A>(f: A -> A, a: A)
    ensures Times(f, a, 0) == a
  {
  }

  lemma TimesMore<A>(f: A -> A, a: A, k: nat)
    requires k > 0
    ensures Times(f, a, k) == f(Times(f, a, k - 1))
  {
  }

  /** Back by any number of events and forth again by as many is nothing at all. */
  lemma BackForthBy(a: Abs, k: nat)
    requires Chain(a.doc, a.past) && k <= |a.past|
    ensures Times(Forth, Times(Back, a, k), k) == a
  {
    forall j | 0 <= j < k ensures Forth(Back(Times(Back, a, j))) == Times(Back, a, j) {
      BackByTexts(a, j);
      BackForth(Times(Back, a, j));
    }
    TimesInverse(Back, Forth, a, k);
  }

  // Edits

  /** A merged change is taken back with the event it was merged into. */
  lemma MergedUndoes(doc: Text, cs: seq<Change>, c: Change)
    requires Fits(doc, c) && cs != [] && Applies(doc, cs)
    ensures Applies(Splice(doc, c), Merged(doc, cs, c))
    ensures ApplyAll(Splice(doc, c), Merged(doc, cs, c)) == ApplyAll(doc, cs)
    ensures |Merged(doc, cs, c)| == if c.from == c.to == cs[|cs| - 1].to then |cs| else |cs| + 1
  {
    var last, rest, r := cs[|cs| - 1], cs[..|cs| - 1], Merged(doc, cs, c);
    if c.from == c.to && c.from == last.to {
      MergeInsertion(doc, last, c);
      assert r[|r| - 1] == last.(to := ChangeEnd(c)) && r[..|r| - 1] == rest;
    } else {
      InverseUndoes(doc, c);
      assert r[|r| - 1] == Inverse(doc, c) && r[..|r| - 1] == cs;
    }
  }

  /** The events that are left when the oldest `n` are forgotten lead back to the same texts. */
  lemma {:induction false} ForgetOldest(doc: Text, es: seq<Ev>, n: nat)
    requires Chain(doc, es) && n <= |es|
    ensures Chain(doc, es[n..]) && Texts(doc, es[n..]) == Texts(doc, es)[n..]
    decreases |es|
  {
    hide Applies, ApplyAll;
    var m := |es| - 1;
    if n <= m {
      var t := ApplyAll(doc, es[m].changes);
      ForgetOldest(t, es[..m], n);
      assert es[n..][m - n] == es[m] && es[n..][..m - n] == es[..m][n..];
      assert Texts(doc, es)[n..] == Texts(t, es[..m])[n..] + [t];
    }
  }

  lemma PushChain(doc: Text, es: seq<Ev>, e: Ev)
    requires e.changes != [] && Applies(doc, e.changes) && Chain(ApplyAll(doc, e.changes), es)
    ensures Chain(doc, es + [e])
    ensures Texts(doc, es + [e]) == Texts(ApplyAll(doc, e.changes), es) + [ApplyAll(doc, e.changes)]
  {
    assert (es + [e])[..|es|] == es;
  }

  /** An edit either joins the newest event or becomes the newest event, and then old ones may go. */
  ghost predicate Edited(a: Abs, b: Abs, c: Change, n: nat)
    requires Fits(a.doc, c)
  {
    && b.doc == Splice(a.doc, c) && b.future == [] && b.generation == b.max == a.max + 1
    && if n == 0 then Joined(a, b, c) else
         var es := a.past + [Ev([Inverse(a.doc, c)], a.generation)]; n - 1 <= |es| && b.past == es[n - 1..]
  }

  ghost predicate Joined(a: Abs, b: Abs, c: Change)
    requires Fits(a.doc, c)
  {
    var m := |a.past| - 1;
    m >= 0 && a.past[m].changes != [] && b.past == a.past[..m] + [a.past[m].(changes := Merged(a.doc, a.past[m].changes, c))]
  }

  /** There is an event that the edit belongs to: any, if its operation is still going on, and otherwise
      one with at most one selection after it. */
  predicate Mergeable(h: Hist, op: Op)
    requires op.Edit?
  {
    && Events(h.done) != []
    && (SameOp(h, op.op) || (op.similar && (EventOnTop(h.done) || (|h.done| > 1 && h.done[|h.done| - 2].Event?))))
  }

  lemma FoundExactly(h: Hist, op: Op)
    requires op.Edit?
    ensures var (d, found) := if SameOp(h, op.op) || op.similar then LastEvent(h.done, SameOp(h, op.op)) else (h.done, false);
      && (found <==> Mergeable(h, op)) && |d| <= |h.done| && Events(d) == Events(h.done) && (found ==> EventOnTop(d))
      && (!found && !SameOp(h, op.op) ==> d == h.done)
  {
    ClearSelsSize(h.done);
    NoEvents(0);
    if |h.done| > 1 && h.done[|h.done| - 2].Event? && h.done[|h.done| - 1].Sel? {
      PopEvent(h.done[..|h.done| - 1]);
    }
  }

  lemma ClearSelsSize(st: seq<Entry>)
    ensures |ClearSels(st)| <= |st|
  {
  }

  lemma DoneView(h: Hist, op: Op) returns (n: nat)
    requires op.Edit? && Fits(h.doc, op.c) && Chain(h.doc, Events(h.done))
    ensures n == 0 <==> Mergeable(h, op)
    ensures n > 0 && op.depth >= 2 ==> Events(DoneAfterEdit(h, op)) != []
    ensures n > 0 && |h.done| + 2 <= op.depth ==> n == 1
    ensures var past, past' := Events(h.done), Events(DoneAfterEdit(h, op));
      if n == 0 then
        var m := |past| - 1;
        m >= 0 && past[m].changes != [] && past' == past[..m] + [past[m].(changes := Merged(h.doc, past[m].changes, op.c))]
      else
        var es := past + [Ev([Inverse(h.doc, op.c)], h.generation)]; n - 1 <= |es| && past' == es[n - 1..]
  {
    hide Applies, ApplyAll, Inverse, Merged, Trim, Events, Fits, LastEvent, Mergeable, PushSel, Chain;
    FoundExactly(h, op);
    var (d, found) := if SameOp(h, op.op) || op.similar then LastEvent(h.done, SameOp(h, op.op)) else (h.done, false);
    if found {
      PopEvent(d);
      ChainTop(h.doc, Events(h.done));
      n := 0;
    } else {
      n := NewEvent(d, h.sel, Ev([Inverse(h.doc, op.c)], h.generation), op.depth);
    }
  }

  /** An event goes on a stack, above a selection, and old ones may go. */
  lemma NewEvent(d: seq<Entry>, sel: int, e: Ev, depth: nat) returns (n: nat)
    ensures var d1 := if d == [] || d[|d| - 1].Event? then PushSel(sel, d) else d; var es := Events(d) + [e];
      var past := Events(Trim(PushEvent(e, d1), depth));
      && 1 <= n <= |es| + 1 && past == es[n - 1..]
      && (depth >= 2 ==> past != []) && (|d| + 2 <= depth ==> n == 1)
  {
    hide Trim, Events;
    var d1 := if d == [] || d[|d| - 1].Event? then PushSel(sel, d) else d;
    var st := PushEvent(e, d1);
    TrimKeepsNewest(st, depth);
    TrimSize(st, depth);
    if depth >= 2 {
      PopEvent(Trim(st, depth));
    }
    n := |Events(st)| - |Events(Trim(st, depth))| + 1;
  }

  lemma EditView(h: Hist, op: Op) returns (n: nat)
    requires op.Edit? && Fits(h.doc, op.c) && !NoChange(op.c) && Chain(h.doc, Events(h.done))
    ensures Edited(View(h), View(Exec(h, op)), op.c, n)
    ensures n == 0 <==> Mergeable(h, op)
    ensures n > 0 && op.depth >= 2 ==> Events(Exec(h, op).done) != []
    ensures n > 0 && |h.done| + 2 <= op.depth ==> n == 1
  {
    hide Exec, Events, DoneAfterEdit, Splice, Inverse, Merged, Fits, Chain, NoChange, Mergeable;
    n := DoneView(h, op);
    EventsSplit(DoneAfterEdit(h, op), [Sel(op.selAfter)]);
    NoEvents(op.selAfter);
    EditTo(h, op);
  }

  lemma NoEvents(s: int)
    ensures Events([Sel(s)]) == [] && Events([]) == []
  {
    assert [Sel(s)][..0] == [];
  }

  lemma EditTo(h: Hist, op: Op)
    requires op.Edit? && Fits(h.doc, op.c) && !NoChange(op.c)
    ensures var h' := Exec(h, op);
      && h'.doc == Splice(h.doc, op.c) && h'.undone == [] && h'.done == DoneAfterEdit(h, op) + [Sel(op.selAfter)]
      && h'.generation == h'.maxGeneration == h.maxGeneration + 1 && h'.lastOp == op.op
  {
    hide Splice, DoneAfterEdit;
  }

  /** Undoing an edit, with all that was merged with it, leads to the text before it. */
  lemma EditedTexts(a: Abs, b: Abs, c: Change, n: nat)
    requires Fits(a.doc, c) && Sound(a) && Edited(a, b, c, n)
    ensures Sound(b)
    ensures Texts(b.doc, b.past) == if n == 0 then Texts(a.doc, a.past) else (Texts(a.doc, a.past) + [a.doc])[n - 1..]
  {
    var m := |a.past| - 1;
    if n == 0 {
      var e := a.past[m];
      MergedUndoes(a.doc, e.changes, c);
      PushChain(b.doc, a.past[..m], e.(changes := Merged(a.doc, e.changes, c)));
    } else {
      var e := Ev([Inverse(a.doc, c)], a.generation);
      InverseUndoes(a.doc, c);
      assert e.changes[..0] == [] && ApplyAll(b.doc, e.changes) == a.doc;
      PushChain(b.doc, a.past, e);
      ForgetOldest(b.doc, a.past + [e], n - 1);
    }
  }

  // Generations

  /** The generation of every event is that of the text it leads to. */
  ghost predicate Named(g: map<nat, Text>, doc: Text, es: seq<Ev>)
    requires Chain(doc, es)
  {
    forall i :: 0 <= i < |es| ==> es[i].generation in g && g[es[i].generation] == Texts(doc, es)[i]
  }

  /** `g` tells the text of every generation that is in use, and no generation above `max` is. */
  ghost predicate Known(g: map<nat, Text>, a: Abs) {
    && Sound(a) && a.generation in g && g[a.generation] == a.doc
    && Named(g, a.doc, a.past) && Named(g, a.doc, a.future)
    && forall x :: x in g ==> x <= a.max
  }

  lemma BackKnown(g: map<nat, Text>, a: Abs)
    requires Known(g, a)
    ensures Known(g, Back(a))
  {
    hide Back, Chain, Texts;
    if a.past == [] {
      BackNothing(a);
    } else {
      BackSound(a);
      BackTexts(a);
      BackFuture(a);
      var b := Back(a);
      forall i | 0 <= i < |b.past| ensures b.past[i].generation in g && g[b.past[i].generation] == Texts(b.doc, b.past)[i] {
        assert b.past[i] == a.past[i];
      }
      forall i | 0 <= i < |b.future| ensures b.future[i].generation in g && g[b.future[i].generation] == Texts(b.doc, b.future)[i] {
        assert i < |a.future| ==> b.future[i] == a.future[i];
      }
    }
  }

  lemma BackNothing(a: Abs)
    requires a.past == []
    ensures Back(a) == a
  {
  }

  lemma InvertNonempty(doc: Text, cs: seq<Change>)
    requires Applies(doc, cs) && cs != []
    ensures Invert(doc, cs) != []
  {
  }

  lemma BackFuture(a: Abs)
    requires Sound(a) && a.past != []
    ensures var b := Back(a);
      && Chain(b.doc, b.future) && Texts(b.doc, b.future) == Texts(a.doc, a.future) + [a.doc]
      && |b.future| == |a.future| + 1 && b.future[..|a.future|] == a.future && b.future[|a.future|].generation == a.generation
      && b.generation == a.past[|a.past| - 1].generation && b.max == a.max
  {
    hide Chain, Texts, Applies, ApplyAll, Invert, Back;
    var rest, e := a.past[..|a.past| - 1], a.past[|a.past| - 1];
    assert a.past == rest + [e];
    ChainTop(a.doc, a.past);
    InvertNonempty(a.doc, e.changes);
    BackOf(a, rest, e);
    InvertUndoes(a.doc, e.changes);
    var back := Ev(Invert(a.doc, e.changes), a.generation);
    PushChain(ApplyAll(a.doc, e.changes), a.future, back);
    FutureTop(a.future, back);
  }

  lemma FutureTop(es: seq<Ev>, e: Ev)
    ensures var f := es + [e]; |f| == |es| + 1 && f[..|es|] == es && f[|es|] == e
  {
  }

  lemma ForthKnown(g: map<nat, Text>, a: Abs)
    requires Known(g, a)
    ensures Known(g, Forth(a))
  {
    BackKnown(g, Mirror(a));
  }

  lemma EditKnown(g: map<nat, Text>, a: Abs, b: Abs, c: Change, n: nat)
    requires Known(g, a) && Fits(a.doc, c) && Edited(a, b, c, n)
    ensures b.max !in g && Known(g[b.max := b.doc], b)
  {
    hide Splice, Inverse, Merged, Chain, Texts, Fits;
    EditedTexts(a, b, c, n);
    var g' := g[b.max := b.doc];
    forall i | 0 <= i < |b.past| ensures b.past[i].generation in g' && g'[b.past[i].generation] == Texts(b.doc, b.past)[i] {
      if n == 0 {
        assert b.past[i].generation == a.past[i].generation;
      } else {
        assert b.past[i] == (a.past + [Ev([Inverse(a.doc, c)], a.generation)])[i + n - 1];
      }
    }
  }

  // Runs

  /** Edits are within the text, some undo depth is allowed, and setting a selection in place of the top
      entry does not hit an event. */
  predicate Safe(h: Hist, op: Op) {
    match op
    case Edit(c, _, _, _, depth) => Fits(h.doc, c) && depth >= 1
    case SetSel(_, id, similar, _) => SameOp(h, id) || similar ==> !EventOnTop(h.done)
    case _ => true
  }

  lemma SetSelView(h: Hist, op: Op)
    requires op.SetSel? && Safe(h, op)
    ensures View(Exec(h, op)) == View(h)
  {
    if (SameOp(h, op.op) || op.similar) && h.done != [] {
      var n := |h.done| - 1;
      assert SetTop(op.s, h.done)[..n] == h.done[..n];
    }
  }

  /** A selection set in place of an event loses it: that many fewer events can be undone. */
  lemma SetSelExactly(h: Hist, op: Op)
    requires op.SetSel?
    ensures |Events(Exec(h, op).done)| == |Events(h.done)| <==> Safe(h, op)
  {
    hide Exec;
    if Safe(h, op) {
      SetSelView(h, op);
    } else {
      SetSelLoses(h, op);
    }
  }

  /** After a redo there is an event on top, so a selection set in its place there does lose it. */
  lemma RedoLeavesEvent(h: Hist)
    requires Chain(h.doc, Events(h.undone)) && Events(h.undone) != []
    ensures EventOnTop(Exec(h, Redo).done)
  {
    var (s, d, sel) := MoveSels(h.undone, h.done, h.sel);
    assert s != [] by { NoEvents(0); }
    PopEvent(s);
  }

  /** So after any edit, an undo and a redo in one operation, a selection in that operation loses an event. */
  lemma SelectAfterRedo(h: Hist, edit: Op, s: int, clearRedo: bool)
    requires Sound(View(h)) && edit.Edit? && edit.op >= 0 && Safe(h, edit) && !NoChange(edit.c)
    requires Events(Exec(h, edit).done) != []
    ensures var h3 := Exec(Exec(Exec(h, edit), Undo), Redo);
      |Events(Exec(h3, SetSel(s, edit.op, false, clearRedo)).done)| < |Events(h3.done)|
  {
    hide Exec, Events, Chain, NoChange, Fits, Edited, Mergeable, Texts;
    var h1 := Exec(h, edit);
    var n := EditView(h, edit);
    EditedTexts(View(h), View(h1), edit.c, n);
    EditTo(h, edit);
    UndoGives(h1);
    var h2 := Exec(h1, Undo);
    RedoLeavesEvent(h2);
    RevertsInOp(h1);
    RevertsInOp(h2);
    SetSelLoses(Exec(h2, Redo), SetSel(s, edit.op, false, clearRedo));
  }

  lemma RevertsInOp(h: Hist)
    ensures Exec(h, Undo).lastOp == h.lastOp && Exec(h, Redo).lastOp == h.lastOp
  {
    hide MoveSels, Applies, ApplyAll, Invert;
  }

  /** After an undo there is something to redo. */
  lemma UndoGives(h: Hist)
    requires Sound(View(h)) && Events(h.done) != []
    ensures var h' := Exec(h, Undo); Chain(h'.doc, Events(h'.undone)) && Events(h'.undone) != []
  {
    hide Exec, Events, Chain, Texts;
    UndoView(h);
    BackFuture(View(h));
  }

  lemma SetSelLoses(h: Hist, op: Op)
    requires op.SetSel? && !Safe(h, op)
    ensures |Events(Exec(h, op).done)| < |Events(h.done)|
  {
    var n := |h.done| - 1;
    assert SetTop(op.s, h.done)[..n] == h.done[..n];
  }

  /** At most the one generation is new. */
  ghost predicate Extends(g: map<nat, Text>, g': map<nat, Text>, x: nat) {
    (forall y :: y in g ==> y in g' && g'[y] == g[y]) && forall y :: y in g' ==> y in g || y == x
  }

  lemma NoEdit(h: Hist, op: Op)
    requires op.Edit? && Fits(h.doc, op.c) && NoChange(op.c)
    ensures Exec(h, op) == h
  {
  }

  lemma EditStep(g: map<nat, Text>, h: Hist, op: Op) returns (g': map<nat, Text>)
    requires Known(g, View(h)) && Safe(h, op) && op.Edit?
    ensures Known(g', View(Exec(h, op))) && Extends(g, g', Exec(h, op).generation)
  {
    hide Splice, Known, Exec, Edited, Chain, Events, Mergeable, Fits;
    KnownText(g, h);
    if NoChange(op.c) {
      NoEdit(h, op);
      g' := g;
    } else {
      var b := View(Exec(h, op));
      EditTo(h, op);
      var n := EditView(h, op);
      EditKnown(g, View(h), b, op.c, n);
      g' := g[b.max := b.doc];
    }
  }

  lemma StepKnown(g: map<nat, Text>, h: Hist, op: Op) returns (g': map<nat, Text>)
    requires Known(g, View(h)) && Safe(h, op)
    ensures Known(g', View(Exec(h, op))) && Extends(g, g', Exec(h, op).generation)
  {
    hide Known, View, Exec, Back, Forth;
    g' := g;
    match op
    case Edit(_, _, _, _, _) =>
      g' := EditStep(g, h, op);
    case Undo =>
      UndoView(h);
      BackKnown(g, View(h));
    case Redo =>
      UndoView(h);
      ForthKnown(g, View(h));
    case SetSel(_, _, _, _) =>
      SetSelView(h, op);
  }

  /** A document with nothing to undo or redo. */
  predicate Fresh(h: Hist) {
    h.done == [] && h.undone == [] && h.generation == h.maxGeneration >= 1
  }

  ghost predicate HistRun(hs: seq<Hist>, ops: seq<Op>) {
    && |hs| == |ops| + 1 && Fresh(hs[0])
    && forall i :: 0 <= i < |ops| ==> Safe(hs[i], ops[i]) && hs[i + 1] == Exec(hs[i], ops[i])
  }

  /** `g` tells the texts of the generations that the document has had, and of no others. */
  ghost predicate Had(g: map<nat, Text>, hs: seq<Hist>, k: nat) {
    && k < |hs|
    && (forall i :: 0 <= i <= k ==> hs[i].generation in g && g[hs[i].generation] == hs[i].doc)
    && forall x :: x in g ==> exists i :: 0 <= i <= k && hs[i].generation == x
  }

  lemma HadMore(g: map<nat, Text>, g': map<nat, Text>, hs: seq<Hist>, k: nat)
    requires Had(g, hs, k) && k + 1 < |hs| && Extends(g, g', hs[k + 1].generation)
    requires hs[k + 1].generation in g' && g'[hs[k + 1].generation] == hs[k + 1].doc
    ensures Had(g', hs, k + 1)
  {
    forall x | x in g' ensures exists i :: 0 <= i <= k + 1 && hs[i].generation == x {
      if x in g {
        var i :| 0 <= i <= k && hs[i].generation == x;
        assert hs[i].generation == x;
      } else {
        assert hs[k + 1].generation == x;
      }
    }
  }

  /** Over every run there is one assignment of texts to generations. */
  lemma {:induction false} RunKnown(hs: seq<Hist>, ops: seq<Op>, k: nat) returns (g: map<nat, Text>)
    requires HistRun(hs, ops) && k <= |ops|
    ensures Known(g, View(hs[k])) && Had(g, hs, k)
  {
    if k == 0 {
      g := map[hs[0].generation := hs[0].doc];
      assert hs[0].generation in g;
    } else {
      var g0 := RunKnown(hs, ops, k - 1);
      assert hs[k] == Exec(hs[k - 1], ops[k - 1]);
      hide Exec, Had, Extends, Sound, Named;
      g := StepKnown(g0, hs[k - 1], ops[k - 1]);
      HadMore(g0, g, hs, k - 1);
    }
  }

  /** At any two points of any run at which the generation is the same, the text is the same. */
  lemma SameGenerationSameText(hs: seq<Hist>, ops: seq<Op>, i: nat, j: nat)
    requires HistRun(hs, ops) && i < |hs| && j < |hs| && hs[i].generation == hs[j].generation
    ensures hs[i].doc == hs[j].doc
  {
    var g := RunKnown(hs, ops, |ops|);
  }

  /** Undo or redo `k` times. */
  function Undos(h: Hist, k: nat): Hist {
    if k == 0 then h else Exec(Undos(h, k - 1), Undo)
  }

  function Redos(h: Hist, k: nat): Hist {
    if k == 0 then h else Exec(Redos(h, k - 1), Redo)
  }

  lemma {:induction false} UndosView(h: Hist, k: nat)
    ensures View(Undos(h, k)) == Times(Back, View(h), k)
    ensures View(Redos(h, k)) == Times(Forth, View(h), k)
  {
    hide Back, Forth, View, Exec;
    if k > 0 {
      UndosView(h, k - 1);
      UndoView(Undos(h, k - 1));
      UndoView(Redos(h, k - 1));
    }
  }

  lemma {:induction false} UndosKnown(g: map<nat, Text>, h: Hist, k: nat)
    requires Known(g, View(h))
    ensures Known(g, View(Undos(h, k)))
  {
    hide Known, View, Exec, Back;
    if k > 0 {
      UndosKnown(g, h, k - 1);
      UndoView(Undos(h, k - 1));
      BackKnown(g, View(Undos(h, k - 1)));
    }
  }

  /** The point of the run at which the document had the generation. */
  lemma PointOf(g: map<nat, Text>, hs: seq<Hist>, i: nat, x: nat) returns (j: nat)
    requires Had(g, hs, i) && x in g
    ensures j <= i && hs[j].generation == x && hs[j].doc == g[x]
  {
    j :| 0 <= j <= i && hs[j].generation == x;
  }

  lemma KnownText(g: map<nat, Text>, h: Hist)
    requires Known(g, View(h))
    ensures h.generation in g && g[h.generation] == h.doc && Chain(h.doc, Events(h.done))
  {
  }

  /** At every point of every run: undoing `k` events gives a text that the document had earlier in the
      run, with the generation it had then, namely the text before the last `k` events; and redoing `k`
      gives back the text, the events and the generation. */
  lemma UndoRedoRun(hs: seq<Hist>, ops: seq<Op>, i: nat, k: nat)
    requires HistRun(hs, ops) && i < |hs| && k <= |Events(hs[i].done)|
    ensures exists j :: 0 <= j <= i && hs[j].doc == Undos(hs[i], k).doc && hs[j].generation == Undos(hs[i], k).generation
    ensures var a := View(hs[i]);
      && Chain(a.doc, a.past)
      && Undos(hs[i], k).doc == (Texts(a.doc, a.past) + [a.doc])[|a.past| - k]
      && View(Redos(Undos(hs[i], k), k)) == a
  {
    hide Chain, Texts, Events, Known, Had, Undos, Redos, Exec, Fresh;
    var g := RunKnown(hs, ops, i);
    KnownText(g, hs[i]);
    UndosKnown(g, hs[i], k);
    KnownText(g, Undos(hs[i], k));
    var j := PointOf(g, hs, i, Undos(hs[i], k).generation);
    UndoRedoAt(hs[i], k);
  }

  lemma UndoRedoAt(h: Hist, k: nat)
    requires Chain(h.doc, Events(h.done)) && k <= |Events(h.done)|
    ensures var a := View(h);
      && Undos(h, k).doc == (Texts(a.doc, a.past) + [a.doc])[|a.past| - k]
      && View(Redos(Undos(h, k), k)) == a
  {
    var a := View(h);
    hide Back, Forth, Exec, Undos, Redos, Chain, Texts, Times;
    UndosView(h, k);
    UndosView(Undos(h, k), k);
    BackByTexts(a, k);
    BackForthBy(a, k);
  }
}
