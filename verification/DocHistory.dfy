/**
 The undo history of a document. Events and selections lie on two stacks; an event holds the changes
 that take an edit back, to be applied from the last to the first, and the generation of the text that
 doing so leads to. An edit or a selection may be merged with what was recorded before when it belongs
 to the same operation, or when it is similar; the latter depends on origins and clocks, so here it is a
 parameter: everything holds whatever is taken to be similar.
 */
module DocHistory {
  import opened DocText

  type Text = seq<string>

  /** Selections are opaque: all the history does is compare them. */
  datatype Entry = Sel(sel: int) | Event(e: Ev)

  datatype Ev = Ev(changes: seq<Change>, generation: nat)

  /** `lastOp` is the number of the operation that recorded last, negative if there is none. */
  datatype Hist = Hist(doc: Text, sel: int, done: seq<Entry>, undone: seq<Entry>, generation: nat, maxGeneration: nat, lastOp: int)

  datatype Op =
    | Edit(c: Change, selAfter: int, op: int, similar: bool, depth: nat)
    | Undo
    | Redo
    | SetSel(s: int, op: int, similar: bool, clearRedo: bool)

  // Applying and inverting the changes of an event

  predicate Applies(doc: Text, cs: seq<Change>)
    decreases |cs|
  {
    cs == [] || (Fits(doc, cs[|cs| - 1]) && Applies(Splice(doc, cs[|cs| - 1]), cs[..|cs| - 1]))
  }

  function ApplyAll(doc: Text, cs: seq<Change>): (r: Text)
    requires Applies(doc, cs)
    decreases |cs|
  {
    if cs == [] then doc else ApplyAll(Splice(doc, cs[|cs| - 1]), cs[..|cs| - 1])
  }

  /** The inverses of the changes, in the order in which the changes are applied. */
  function Invert(doc: Text, cs: seq<Change>): (r: seq<Change>)
    requires Applies(doc, cs)
    ensures |r| == |cs|
    decreases |cs|
  {
    if cs == [] then []
    else [Inverse(doc, cs[|cs| - 1])] + Invert(Splice(doc, cs[|cs| - 1]), cs[..|cs| - 1])
  }

  /** A change is applied to what the later ones of the list lead to. */
  lemma {:induction false} ApplyFirst(doc: Text, c: Change, cs: seq<Change>)
    requires Applies(doc, cs) && Fits(ApplyAll(doc, cs), c)
    ensures Applies(doc, [c] + cs) && ApplyAll(doc, [c] + cs) == Splice(ApplyAll(doc, cs), c)
    decreases |cs|
  {
    var all := [c] + cs;
    if cs == [] {
      assert all == [c] && all[..0] == [];
    } else {
      assert all[|all| - 1] == cs[|cs| - 1] && all[..|all| - 1] == [c] + cs[..|cs| - 1];
      ApplyFirst(Splice(doc, cs[|cs| - 1]), c, cs[..|cs| - 1]);
    }
  }

  /** The inverses lead back. */
  lemma {:induction false} InvertUndoes(doc: Text, cs: seq<Change>)
    requires Applies(doc, cs)
    ensures var r := ApplyAll(doc, cs); Applies(r, Invert(doc, cs)) && ApplyAll(r, Invert(doc, cs)) == doc
    decreases |cs|
  {
    if cs != [] {
      var c, rest := cs[|cs| - 1], cs[..|cs| - 1];
      var doc1 := Splice(doc, c);
      InvertUndoes(doc1, rest);
      InverseUndoes(doc, c);
      ApplyFirst(ApplyAll(doc, cs), Inverse(doc, c), Invert(doc1, rest));
    }
  }

  /** The inverse of the inverse is the change itself. */
  lemma InverseTwice(doc: Text, c: Change)
    requires Fits(doc, c)
    ensures Fits(Splice(doc, c), Inverse(doc, c)) && Inverse(Splice(doc, c), Inverse(doc, c)) == c
  {
    InverseUndoes(doc, c);
    NewTextLies(doc, c);
  }

  lemma {:induction false} InvertFirst(doc: Text, c: Change, cs: seq<Change>)
    requires Applies(doc, cs) && Fits(ApplyAll(doc, cs), c)
    ensures Applies(doc, [c] + cs) && Invert(doc, [c] + cs) == Invert(doc, cs) + [Inverse(ApplyAll(doc, cs), c)]
    decreases |cs|
  {
    hide Fits, Inverse, Splice;
    ApplyFirst(doc, c, cs);
    var all := [c] + cs;
    if cs == [] {
      assert all == [c] && all[..0] == [];
    } else {
      assert all[|all| - 1] == cs[|cs| - 1] && all[..|all| - 1] == [c] + cs[..|cs| - 1];
      InvertFirst(Splice(doc, cs[|cs| - 1]), c, cs[..|cs| - 1]);
    }
  }

  /** The first change to be applied, what it leads to, and its inverse. */
  lemma Unfold(doc: Text, cs: seq<Change>) returns (c: Change, rest: seq<Change>, doc1: Text, inv: Change)
    requires Applies(doc, cs) && cs != []
    ensures cs == rest + [c] && Applies(doc1, rest) && ApplyAll(doc, cs) == ApplyAll(doc1, rest)
    ensures Invert(doc, cs) == [inv] + Invert(doc1, rest)
    ensures Fits(doc1, inv) && Inverse(doc1, inv) == c && Splice(doc1, inv) == doc
  {
    hide Fits, Inverse, Splice;
    c, rest := cs[|cs| - 1], cs[..|cs| - 1];
    doc1, inv := Splice(doc, c), Inverse(doc, c);
    InverseUndoes(doc, c);
    InverseTwice(doc, c);
  }

  lemma {:induction false} InvertTwice(doc: Text, cs: seq<Change>)
    requires Applies(doc, cs)
    ensures var r := ApplyAll(doc, cs);
      Applies(r, Invert(doc, cs)) && Invert(r, Invert(doc, cs)) == cs
    decreases |cs|
  {
    if cs != [] {
      var c, rest, doc1, inv := Unfold(doc, cs);
      InvertUndoes(doc1, rest);
      InvertTwice(doc1, rest);
      InvertFirst(ApplyAll(doc1, rest), inv, Invert(doc1, rest));
    }
  }

  /** Typing on: an insertion at the end of a change that is to be taken back is taken back with it when
      the end is moved behind the insertion. */
  lemma MergeInsertion(doc: Text, last: Change, c: Change)
    requires Fits(doc, last) && Fits(doc, c) && c.from == c.to == last.to
    ensures var last' := last.(to := ChangeEnd(c));
      Fits(Splice(doc, c), last') && Splice(Splice(doc, c), last') == Splice(doc, last)
  {
    hide Glue, GetBetween;
    var s, e := last.from, last.to;
    var a, b := doc[..e.line], doc[e.line + 1..];
    var pre, suf := doc[e.line][..e.ch], doc[e.line][e.ch..];
    GlueParts(a, pre, c.text, suf, b);
    var r := Splice(doc, c);
    assert r == a + Glue(pre, c.text, suf) + b;
    NewTextLies(doc, c);
    if s.line < e.line {
      assert r[s.line] == doc[s.line];
    } else {
      assert r[s.line][..s.ch] == r[s.line][..e.ch][..s.ch] == doc[s.line][..s.ch];
    }
    assert r[..s.line] == r[..e.line][..s.line] == doc[..s.line];
  }

  // The stacks, whose tops are at their ends

  predicate EventOnTop(st: seq<Entry>) {
    st != [] && st[|st| - 1].Event?
  }

  /** The events of a stack, without the selections. */
  function Events(st: seq<Entry>): (es: seq<Ev>) {
    if st == [] then []
    else if st[|st| - 1].Event? then Events(st[..|st| - 1]) + [st[|st| - 1].e]
    else Events(st[..|st| - 1])
  }

  function PushSel(s: int, st: seq<Entry>): (r: seq<Entry>)
    ensures Events(r) == Events(st)
  {
    if st != [] && st[|st| - 1] == Sel(s) then st
    else
      assert (st + [Sel(s)])[..|st|] == st;
      st + [Sel(s)]
  }

  function PushEvent(e: Ev, st: seq<Entry>): (r: seq<Entry>)
    ensures Events(r) == Events(st) + [e] && EventOnTop(r)
  {
    assert (st + [Event(e)])[..|st|] == st;
    st + [Event(e)]
  }

  function ClearSels(st: seq<Entry>): (r: seq<Entry>)
    ensures Events(r) == Events(st) && (r == [] || EventOnTop(r))
  {
    if st == [] || st[|st| - 1].Event? then st else ClearSels(st[..|st| - 1])
  }

  /** Find the event to merge with; selections in the way are popped. */
  function LastEvent(st: seq<Entry>, force: bool): (r: (seq<Entry>, bool))
    ensures Events(r.0) == Events(st) && (r.1 ==> EventOnTop(r.0))
  {
    if force then
      var d := ClearSels(st);
      (d, d != [])
    else if EventOnTop(st) then (st, true)
    else if |st| > 1 && st[|st| - 2].Event? then (st[..|st| - 1], true)
    else (st, false)
  }

  /** Drop the oldest entries until there are at most `depth`, never leaving an event at the bottom. */
  function Trim(st: seq<Entry>, depth: nat): (r: seq<Entry>)
    decreases |st|
  {
    if |st| <= depth then st
    else if |st| > 1 && st[1].Event? then Trim(st[2..], depth)
    else Trim(st[1..], depth)
  }

  lemma {:induction false} EventsSplit(a: seq<Entry>, b: seq<Entry>)
    ensures Events(a + b) == Events(a) + Events(b)
    decreases |b|
  {
    if b == [] {
      assert a + b == a;
    } else {
      assert (a + b)[..|a + b| - 1] == a + b[..|b| - 1];
      EventsSplit(a, b[..|b| - 1]);
    }
  }

  /** What is left is the newest. */
  lemma {:induction false} TrimKeepsNewest(st: seq<Entry>, depth: nat)
    ensures var n := |Events(Trim(st, depth))|; n <= |Events(st)| && Events(Trim(st, depth)) == Events(st)[|Events(st)| - n..]
    decreases |st|
  {
    if |st| > depth {
      var k := if |st| > 1 && st[1].Event? then 2 else 1;
      assert st == st[..k] + st[k..];
      EventsSplit(st[..k], st[k..]);
      TrimKeepsNewest(st[k..], depth);
    }
  }

  /** A stack within the limit is kept whole, and of a larger one all but at most one of the entries
      that there is room for. */
  lemma {:induction false} TrimSize(st: seq<Entry>, depth: nat)
    ensures var r := Trim(st, depth);
      && |r| <= |st| && r == st[|st| - |r|..]
      && if |st| <= depth then r == st else depth - 1 <= |r| <= depth
    decreases |st|
  {
    if |st| > depth {
      var k := if |st| > 1 && st[1].Event? then 2 else 1;
      TrimSize(st[k..], depth);
      var r := Trim(st[k..], depth);
      assert st[k..][|st| - k - |r|..] == st[|st| - |r|..];
    }
  }

  // The operations

  /** The operation that recorded last is still going on. */
  predicate SameOp(h: Hist, op: int) {
    op >= 0 && h.lastOp == op
  }

  predicate NoChange(c: Change) {
    c.text == [""] && c.from == c.to
  }

  /** Add a change to an event: an insertion where the last change ends extends that one. */
  function Merged(doc: Text, cs: seq<Change>, c: Change): (r: seq<Change>)
    requires Fits(doc, c) && cs != []
  {
    var last := cs[|cs| - 1];
    if c.from == c.to && c.from == last.to then cs[..|cs| - 1] + [last.(to := ChangeEnd(c))]
    else cs + [Inverse(doc, c)]
  }

  function DoneAfterEdit(h: Hist, op: Op): seq<Entry>
    requires op.Edit? && Fits(h.doc, op.c)
  {
    var (d, found) := if SameOp(h, op.op) || op.similar then LastEvent(h.done, SameOp(h, op.op)) else (h.done, false);
    if found && d[|d| - 1].e.changes != [] then
      var cur := d[|d| - 1].e;
      PushEvent(cur.(changes := Merged(h.doc, cur.changes, op.c)), d[..|d| - 1])
    else
      var d1 := if d == [] || d[|d| - 1].Event? then PushSel(h.sel, d) else d;
      Trim(PushEvent(Ev([Inverse(h.doc, op.c)], h.generation), d1), op.depth)
  }

  /** Move the selections on top of one stack to the other; also the last one moved. */
  function MoveSels(source: seq<Entry>, dest: seq<Entry>, sel: int): (r: (seq<Entry>, seq<Entry>, int))
    ensures Events(r.0) == Events(source) && Events(r.1) == Events(dest)
    ensures r.0 == [] || EventOnTop(r.0)
    decreases |source|
  {
    if source == [] || source[|source| - 1].Event? then (source, dest, sel)
    else
      var s := source[|source| - 1].sel;
      MoveSels(source[..|source| - 1], PushSel(s, dest), s)
  }

  /** The selection on top of a stack, if there is one there. */
  function TopSel(st: seq<Entry>, sel: int): int {
    if st != [] && st[|st| - 1].Sel? then st[|st| - 1].sel else sel
  }

  /** Take the top event off `source`, put the event that takes it back on `dest`. The selection becomes
      the one that was recorded before the event. */
  function Revert(h: Hist, source: seq<Entry>, dest: seq<Entry>): (r: (Hist, seq<Entry>, seq<Entry>))
  {
    var (s, d, sel) := MoveSels(source, dest, h.sel);
    if s == [] || !Applies(h.doc, s[|s| - 1].e.changes) then (h, source, dest)
    else
      var e := s[|s| - 1].e;
      (h.(doc := ApplyAll(h.doc, e.changes), sel := TopSel(s[..|s| - 1], h.sel), generation := e.generation),
       s[..|s| - 1], PushEvent(Ev(Invert(h.doc, e.changes), h.generation), PushSel(sel, d)))
  }

  function SetTop(s: int, st: seq<Entry>): seq<Entry> {
    if st == [] then st else st[|st| - 1 := Sel(s)]
  }

  function Exec(h: Hist, op: Op): (r: Hist)
    requires op.Edit? ==> Fits(h.doc, op.c)
  {
    match op
    case Edit(c, selAfter, _, _, _) =>
      if NoChange(c) then h
      else Hist(Splice(h.doc, c), selAfter, DoneAfterEdit(h, op) + [Sel(selAfter)], [], h.maxGeneration + 1, h.maxGeneration + 1, op.op)
    case Undo =>
      var (h', done, undone) := Revert(h, h.done, h.undone);
      h'.(done := done, undone := undone)
    case Redo =>
      var (h', undone, done) := Revert(h, h.undone, h.done);
      h'.(done := done, undone := undone)
    case SetSel(s, id, similar, clearRedo) =>
      h.(sel := s,
         done := if SameOp(h, id) || similar then SetTop(s, h.done) else PushSel(s, h.done),
         undone := if clearRedo then ClearSels(h.undone) else h.undone,
         lastOp := id)
  }
}
