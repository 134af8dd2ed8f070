/**
 Checkpointing a region: its pages and large objects are copied out, the program then writes to them
 and adds to them, and restoring gives the region back as it was. Memory is a map from addresses to
 pages and to large objects; address 0 is the null pointer.
 */
module RegionCopy {
  datatype Page = Page(n: nat, words: seq<int>)

  datatype Lobj = Lobj(next: nat, value: seq<int>)

  /** A region descriptor: the allocation pointer, the newest page (whose end is the border pointer),
      the oldest page, the newest large object. */
  datatype Region = Region(a: int, b: nat, fp: nat, lobjs: nat)

  datatype Mem = Mem(pages: map<nat, Page>, lobjs: map<nat, Lobj>, freelist: nat)

  /** The flat copy of the pages, each behind its address and the last followed by a zero, and the
      values of the large objects, newest first. */
  datatype Copy = Copy(a: int, b: nat, pages: seq<int>, lobjs: seq<seq<int>>)

  // Linked lists in memory

  predicate Distinct(s: seq<nat>) {
    forall i, j :: 0 <= i < j < |s| ==> s[i] != s[j]
  }

  /** The element of a list at index `i`, or a null pointer at its end. */
  function At(s: seq<nat>, i: nat): nat {
    if i < |s| then s[i] else 0
  }

  predicate PageLink(pages: map<nat, Page>, ps: seq<nat>, i: nat, k: nat)
    requires i < |ps|
  {
    ps[i] != 0 && ps[i] in pages && |pages[ps[i]].words| == k && pages[ps[i]].n == At(ps, i + 1)
  }

  /** The pages `ps`, of `k` words each, linked from `p` to a null pointer. */
  predicate PageList(pages: map<nat, Page>, p: nat, ps: seq<nat>, k: nat) {
    p == At(ps, 0) && forall i :: 0 <= i < |ps| ==> PageLink(pages, ps, i, k)
  }

  predicate LobjLink(lobjs: map<nat, Lobj>, ls: seq<nat>, i: nat)
    requires i < |ls|
  {
    ls[i] != 0 && ls[i] in lobjs && lobjs[ls[i]].next == At(ls, i + 1)
  }

  predicate LobjList(lobjs: map<nat, Lobj>, p: nat, ls: seq<nat>) {
    p == At(ls, 0) && forall i :: 0 <= i < |ls| ==> LobjLink(lobjs, ls, i)
  }

  /** The region consists of the pages `ps` and the large objects `ls`; the pages `fs` are free. */
  ghost predicate Holds(m: Mem, r: Region, ps: seq<nat>, ls: seq<nat>, fs: seq<nat>, k: nat) {
    && PageList(m.pages, r.fp, ps, k) && ps != [] && r.b == ps[|ps| - 1]
    && PageList(m.pages, m.freelist, fs, k) && Distinct(ps + fs)
    && LobjList(m.lobjs, r.lobjs, ls) && Distinct(ls)
  }

  // Copying and restoring

  function FlatPages(pages: map<nat, Page>, ps: seq<nat>): (flat: seq<int>)
    requires forall p :: p in ps ==> p in pages
  {
    if ps == [] then [0] else [ps[0]] + pages[ps[0]].words + FlatPages(pages, ps[1..])
  }

  function Values(lobjs: map<nat, Lobj>, ls: seq<nat>): (vs: seq<seq<int>>)
    requires forall l :: l in ls ==> l in lobjs
    ensures |vs| == |ls|
  {
    if ls == [] then [] else [lobjs[ls[0]].value] + Values(lobjs, ls[1..])
  }

  /** Read the flat copy back: an address, that page's `k` words, and so on up to a zero where an
      address should be. Also the last page read. */
  function WriteBack(pages: map<nat, Page>, flat: seq<int>, last: nat, k: nat): (r: (map<nat, Page>, nat))
    decreases |flat|
  {
    if |flat| < k + 1 || flat[0] <= 0 || flat[0] !in pages then (pages, last)
    else
      var p: nat := flat[0];
      WriteBack(pages[p := pages[p].(words := flat[1..k + 1])], flat[k + 1..], p, k)
  }

  /** Cut the page list after page `p` and put what follows, which ends with page `b`, on the free
      list. */
  function CutAfter(m: Mem, p: nat, b: nat): (m': Mem)
    requires p in m.pages && b in m.pages
  {
    var rest := m.pages[p].n;
    var m1 := if rest == 0 then m else Mem(m.pages[b := m.pages[b].(n := m.freelist)], m.lobjs, rest);
    m1.(pages := m1.pages[p := m1.pages[p].(n := 0)])
  }

  /** Put the copied values back into the large objects `ls`. */
  function PutValues(lobjs: map<nat, Lobj>, ls: seq<nat>, vs: seq<seq<int>>): (r: map<nat, Lobj>)
    requires |ls| == |vs| && forall l :: l in ls ==> l in lobjs
    ensures r.Keys == lobjs.Keys
    ensures forall l :: l in lobjs ==> r[l].next == lobjs[l].next && (l !in ls ==> r[l] == lobjs[l])
  {
    if ls == [] then lobjs
    else PutValues(lobjs[ls[0] := lobjs[ls[0]].(value := vs[0])], ls[1..], vs[1..])
  }

  function CopyRegion(m: Mem, r: Region, ps: seq<nat>, ls: seq<nat>): (c: Copy)
    requires (forall p :: p in ps ==> p in m.pages) && forall l :: l in ls ==> l in m.lobjs
  {
    Copy(r.a, r.b, FlatPages(m.pages, ps), Values(m.lobjs, ls))
  }

  /** Reading back what was copied gives every copied page its words again and touches no other page,
      whatever the words are: a zero among them is never taken for the end. */
  lemma {:induction false} WriteBackRestores(was: map<nat, Page>, now: map<nat, Page>, ps: seq<nat>, last: nat, k: nat)
    requires Distinct(ps)
    requires forall p :: p in ps ==> p > 0 && p in was && |was[p].words| == k && p in now
    ensures var (r, l) := WriteBack(now, FlatPages(was, ps), last, k);
      && r.Keys == now.Keys && l == (if ps == [] then last else ps[|ps| - 1])
      && (forall p :: p in now ==> r[p] == if p in ps then now[p].(words := was[p].words) else now[p])
  {
    if ps == [] {
    } else {
      var p, rest := ps[0], ps[1..];
      var flat := FlatPages(was, ps);
      assert flat[1..k + 1] == was[p].words && flat[k + 1..] == FlatPages(was, rest);
      var now1 := now[p := now[p].(words := was[p].words)];
      assert forall x :: x in rest ==> x in ps && x != p;
      WriteBackRestores(was, now1, rest, p, k);
      assert forall x :: x in ps <==> x == p || x in rest;
    }
  }

  /** Free the large objects added since, the first of the list, and put the values back. */
  /** The large objects that are left when some are freed. */
  function Kept(lobjs: map<nat, Lobj>, gone: seq<nat>): map<nat, Lobj> {
    map l | l in lobjs && l !in gone :: lobjs[l]
  }

  function RestoreLobjs(lobjs: map<nat, Lobj>, ls: seq<nat>, vs: seq<seq<int>>): map<nat, Lobj>
    requires |vs| <= |ls| && Distinct(ls) && forall l :: l in ls ==> l in lobjs
  {
    var drop := |ls| - |vs|;
    assert ls == ls[..drop] + ls[drop..];
    DistinctParts(ls[..drop], ls[drop..]);
    PutValues(Kept(lobjs, ls[..drop]), ls[drop..], vs)
  }

  function Restore(m: Mem, r: Region, c: Copy, ls: seq<nat>, k: nat): (x: (Mem, Region))
    requires |c.lobjs| <= |ls| && forall l :: l in ls ==> l in m.lobjs
    requires Distinct(ls)
    requires var (pages, last) := WriteBack(m.pages, c.pages, 0, k); last in pages && r.b in pages
  {
    var (pages, last) := WriteBack(m.pages, c.pages, 0, k);
    var m1 := CutAfter(m.(pages := pages), last, r.b);
    (m1.(lobjs := RestoreLobjs(m.lobjs, ls, c.lobjs)), Region(c.a, c.b, r.fp, At(ls, |ls| - |c.lobjs|)))
  }

  lemma {:induction false} PutValuesRestores(was: map<nat, Lobj>, now: map<nat, Lobj>, ls: seq<nat>)
    requires Distinct(ls) && forall l :: l in ls ==> l in was && l in now
    ensures var r := PutValues(now, ls, Values(was, ls));
      forall l :: l in ls ==> r[l].value == was[l].value
  {
    if ls != [] {
      var l, rest := ls[0], ls[1..];
      assert forall x :: x in rest ==> x in ls && x != l;
      PutValuesRestores(was, now[l := now[l].(value := was[l].value)], rest);
      assert forall x :: x in ls <==> x == l || x in rest;
    }
  }

  // What a program does to a region between checkpoint and restoration

  /** A region and the lists it consists of. */
  datatype State = State(m: Mem, r: Region, ps: seq<nat>, ls: seq<nat>, fs: seq<nat>)

  datatype Op =
    | WriteWord(p: nat, i: nat, v: int)
    | MoveA(a: int)
    | Sbrk(q: nat, words: seq<int>)
    | Grow(a: int)
    | NewLobj(l: nat, value: seq<int>)
    | WriteLobj(l: nat, value: seq<int>)

  ghost predicate Ok(s: State, k: nat) {
    Holds(s.m, s.r, s.ps, s.ls, s.fs, k)
  }

  ghost predicate Allowed(s: State, op: Op, k: nat) {
    match op
    case WriteWord(p, i, _) => p in s.ps && i < k
    case MoveA(_) => true
    case Sbrk(q, words) => q != 0 && q !in s.m.pages && |words| == k
    case Grow(_) => s.fs != []
    case NewLobj(l, _) => l != 0 && l !in s.m.lobjs
    case WriteLobj(l, v) => l in s.ls && l in s.m.lobjs && |v| == |s.m.lobjs[l].value|
  }

  /** Write a word of a page, move the allocation pointer, get a page from the system, take a page from
      the free list, add a large object, write to a large object. */
  ghost function Apply(s: State, op: Op, k: nat): State
    requires Ok(s, k) && Allowed(s, op, k)
  {
    var m, r := s.m, s.r;
    match op
    case WriteWord(p, i, v) =>
      assert exists j :: 0 <= j < |s.ps| && s.ps[j] == p && PageLink(m.pages, s.ps, j, k);
      s.(m := m.(pages := m.pages[p := m.pages[p].(words := m.pages[p].words[i := v])]))
    case MoveA(a) => s.(r := r.(a := a))
    case Sbrk(q, words) => s.(m := m.(pages := m.pages[q := Page(m.freelist, words)], freelist := q), fs := [q] + s.fs)
    case Grow(a) =>
      var q := s.fs[0];
      assert PageLink(m.pages, s.fs, 0, k) && PageLink(m.pages, s.ps, |s.ps| - 1, k);
      var pages := m.pages[q := m.pages[q].(n := 0)];
      State(m.(pages := pages[r.b := pages[r.b].(n := q)], freelist := m.pages[q].n), r.(a := a, b := q),
            s.ps + [q], s.ls, s.fs[1..])
    case NewLobj(l, v) =>
      s.(m := m.(lobjs := m.lobjs[l := Lobj(r.lobjs, v)]), r := r.(lobjs := l), ls := [l] + s.ls)
    case WriteLobj(l, v) => s.(m := m.(lobjs := m.lobjs[l := m.lobjs[l].(value := v)]))
  }

  /** What has become of a region: more pages after the old ones, more large objects before the old
      ones. */
  ghost predicate Since(s0: State, s: State, k: nat) {
    && Ok(s0, k) && Ok(s, k) && s0.ps <= s.ps
    && |s0.ls| <= |s.ls| && s.ls[|s.ls| - |s0.ls|..] == s0.ls
  }

  lemma WordKeeps(s: State, op: Op, k: nat)
    requires Ok(s, k) && Allowed(s, op, k) && (op.WriteWord? || op.MoveA?)
    ensures Ok(Apply(s, op, k), k)
  {
    var s' := Apply(s, op, k);
    forall i | 0 <= i < |s.ps| ensures PageLink(s'.m.pages, s.ps, i, k) {
      assert PageLink(s.m.pages, s.ps, i, k);
    }
    forall i | 0 <= i < |s.fs| ensures PageLink(s'.m.pages, s.fs, i, k) {
      assert PageLink(s.m.pages, s.fs, i, k);
    }
  }

  lemma SbrkKeeps(s: State, op: Op, k: nat)
    requires Ok(s, k) && Allowed(s, op, k) && op.Sbrk?
    ensures Ok(Apply(s, op, k), k)
  {
    var s' := Apply(s, op, k);
    forall i | 0 <= i < |s.ps| ensures PageLink(s'.m.pages, s.ps, i, k) {
      assert PageLink(s.m.pages, s.ps, i, k);
    }
    forall i | 0 <= i < |s'.fs| ensures PageLink(s'.m.pages, s'.fs, i, k) {
      assert i > 0 ==> PageLink(s.m.pages, s.fs, i - 1, k);
      assert At(s'.fs, i + 1) == At(s.fs, i);
    }
    forall x | x in s.ps + s.fs ensures x != op.q {
      var i :| 0 <= i < |s.ps + s.fs| && (s.ps + s.fs)[i] == x;
      assert if i < |s.ps| then PageLink(s.m.pages, s.ps, i, k) else PageLink(s.m.pages, s.fs, i - |s.ps|, k);
    }
    DistinctInsert(s.ps, s.fs, op.q);
  }

  lemma DistinctInsert(a: seq<nat>, b: seq<nat>, q: nat)
    requires Distinct(a + b) && q !in a + b
    ensures Distinct(a + ([q] + b))
  {
    var s, t := a + b, a + ([q] + b);
    forall i, j | 0 <= i < j < |t| ensures t[i] != t[j] {
      var i', j' := if i <= |a| then i else i - 1, if j <= |a| then j else j - 1;
      assert i == |a| || t[i] == s[i'];
      assert j == |a| || t[j] == s[j'];
      assert i != |a| ==> s[i'] in s;
      assert j != |a| ==> s[j'] in s;
    }
  }

  lemma GrowKeeps(s: State, op: Op, k: nat)
    requires Ok(s, k) && Allowed(s, op, k) && op.Grow?
    ensures Ok(Apply(s, op, k), k)
  {
    var s' := Apply(s, op, k);
    var q := s.fs[0];
    var all := s.ps + s.fs;
    assert s'.ps + s'.fs == all;
    assert all[|s.ps|] == q && all[|s.ps| - 1] == s.r.b;
    forall i | 0 <= i < |s'.ps| ensures PageLink(s'.m.pages, s'.ps, i, k) {
      assert s'.ps[i] == all[i];
      assert if i < |s.ps| then PageLink(s.m.pages, s.ps, i, k) else PageLink(s.m.pages, s.fs, 0, k);
    }
    forall i | 0 <= i < |s'.fs| ensures PageLink(s'.m.pages, s'.fs, i, k) {
      assert s'.fs[i] == all[|s.ps| + 1 + i];
      assert PageLink(s.m.pages, s.fs, i + 1, k);
    }
    assert PageLink(s.m.pages, s.fs, 0, k);
  }

  lemma LobjKeeps(s: State, op: Op, k: nat)
    requires Ok(s, k) && Allowed(s, op, k) && (op.NewLobj? || op.WriteLobj?)
    ensures Ok(Apply(s, op, k), k)
  {
    var s' := Apply(s, op, k);
    if op.NewLobj? {
      LobjAdded(s.m.lobjs, s.r.lobjs, s.ls, op.l, op.value);
    } else {
      LobjWritten(s.m.lobjs, s.r.lobjs, s.ls, op.l, op.value);
    }
  }

  lemma LobjWritten(lobjs: map<nat, Lobj>, p: nat, ls: seq<nat>, l: nat, v: seq<int>)
    requires LobjList(lobjs, p, ls) && l in lobjs
    ensures LobjList(lobjs[l := lobjs[l].(value := v)], p, ls)
  {
    var lobjs' := lobjs[l := lobjs[l].(value := v)];
    forall i | 0 <= i < |ls| ensures LobjLink(lobjs', ls, i) {
      assert LobjLink(lobjs, ls, i);
    }
  }

  lemma LobjAdded(lobjs: map<nat, Lobj>, p: nat, ls: seq<nat>, l: nat, v: seq<int>)
    requires LobjList(lobjs, p, ls) && Distinct(ls) && l != 0 && l !in lobjs
    ensures LobjList(lobjs[l := Lobj(p, v)], l, [l] + ls) && Distinct([l] + ls)
  {
    var lobjs', ls' := lobjs[l := Lobj(p, v)], [l] + ls;
    forall i | 0 <= i < |ls'| ensures LobjLink(lobjs', ls', i) {
      assert i > 0 ==> LobjLink(lobjs, ls, i - 1) && ls'[i] == ls[i - 1] && At(ls', i + 1) == At(ls, i);
    }
    forall i | 0 <= i < |ls| ensures ls[i] != l {
      assert LobjLink(lobjs, ls, i);
    }
  }

  /** Every operation keeps the old pages first and the old large objects last. */
  lemma OpKeeps(s0: State, s: State, op: Op, k: nat)
    requires Since(s0, s, k) && Allowed(s, op, k)
    ensures Since(s0, Apply(s, op, k), k)
  {
    match op
    case WriteWord(_, _, _) => WordKeeps(s, op, k);
    case MoveA(_) => WordKeeps(s, op, k);
    case Sbrk(_, _) => SbrkKeeps(s, op, k);
    case Grow(_) => GrowKeeps(s, op, k);
    case NewLobj(_, _) => LobjKeeps(s, op, k);
    case WriteLobj(_, _) => LobjKeeps(s, op, k);
  }

  ghost predicate WordsShown(m: Mem, op: Op, m': Mem) {
    forall p :: p in m.pages ==>
      && p in m'.pages && |m'.pages[p].words| == |m.pages[p].words|
      && forall i :: 0 <= i < |m.pages[p].words| ==>
           m'.pages[p].words[i] == if op.WriteWord? && p == op.p && i == op.i then op.v else m.pages[p].words[i]
  }

  ghost predicate LobjsShown(m: Mem, op: Op, m': Mem) {
    forall l :: l in m.lobjs ==>
      l in m'.lobjs && m'.lobjs[l].value == if op.WriteLobj? && l == op.l then op.value else m.lobjs[l].value
  }

  /** What a program sees of an operation: where it writes it reads what it wrote, a page comes from the
      free list with whatever is in it, a new large object comes before the others, and nothing else of
      the region changes. */
  lemma OpShows(s: State, op: Op, k: nat)
    requires Ok(s, k) && Allowed(s, op, k)
    ensures var s' := Apply(s, op, k);
      && WordsShown(s.m, op, s'.m) && LobjsShown(s.m, op, s'.m)
      && s'.ps == (if op.Grow? then s.ps + [s.fs[0]] else s.ps)
      && s'.ls == (if op.NewLobj? then [op.l] + s.ls else s.ls)
      && s'.ps + s'.fs == (if op.Sbrk? then s.ps + [op.q] + s.fs else s.ps + s.fs)
      && (op.NewLobj? ==> op.l in s'.m.lobjs && s'.m.lobjs[op.l].value == op.value)
      && (op.Sbrk? ==> op.q in s'.m.pages && s'.m.pages[op.q].words == op.words)
      && s'.r.a == if op.MoveA? || op.Grow? then op.a else s.r.a
  {
    if op.WriteWord? {
      var j :| 0 <= j < |s.ps| && s.ps[j] == op.p;
      PageAt(s, k, j);
    } else if op.Grow? {
      FreeAt(s, k, 0);
      PageAt(s, k, |s.ps| - 1);
    }
  }

  /** A run of operations. */
  ghost predicate OpRun(ss: seq<State>, ops: seq<Op>, k: nat) {
    && |ss| == |ops| + 1 && Ok(ss[0], k)
    && forall i :: 0 <= i < |ops| ==> Ok(ss[i], k) && Allowed(ss[i], ops[i], k) && ss[i + 1] == Apply(ss[i], ops[i], k)
  }

  lemma {:induction false} RunSince(ss: seq<State>, ops: seq<Op>, k: nat, i: nat)
    requires OpRun(ss, ops, k) && i < |ss|
    ensures Since(ss[0], ss[i], k)
  {
    if i > 0 {
      RunSince(ss, ops, k, i - 1);
      OpKeeps(ss[0], ss[i - 1], ops[i - 1], k);
    }
  }

  // The round trip

  lemma PagesRestored(s0: State, s: State, k: nat)
    requires Since(s0, s, k)
    requires forall p :: p in s0.ps ==> p in s0.m.pages
    ensures var (pages, last) := WriteBack(s.m.pages, FlatPages(s0.m.pages, s0.ps), 0, k);
      && pages.Keys == s.m.pages.Keys && last == s0.r.b && last in pages && s.r.b in pages
      && forall p :: p in s.m.pages ==>
           pages[p] == if p in s0.ps then s.m.pages[p].(words := s0.m.pages[p].words) else s.m.pages[p]
  {
    forall p | p in s0.ps ensures p > 0 && |s0.m.pages[p].words| == k && p in s.m.pages {
      var i :| 0 <= i < |s0.ps| && s0.ps[i] == p;
      assert PageLink(s0.m.pages, s0.ps, i, k) && PageLink(s.m.pages, s.ps, i, k);
    }
    assert Distinct(s0.ps) by {
      assert forall i :: 0 <= i < |s0.ps| ==> s0.ps[i] == (s0.ps + s0.fs)[i];
    }
    WriteBackRestores(s0.m.pages, s.m.pages, s0.ps, 0, k);
    assert PageLink(s.m.pages, s.ps, |s.ps| - 1, k);
  }

  lemma LobjsListed(s: State, k: nat)
    requires Ok(s, k)
    ensures forall l :: l in s.ls ==> l in s.m.lobjs
  {
    forall l | l in s.ls ensures l in s.m.lobjs {
      var i :| 0 <= i < |s.ls| && s.ls[i] == l;
      assert LobjLink(s.m.lobjs, s.ls, i);
    }
  }

  lemma PagesListed(s: State, k: nat)
    requires Ok(s, k)
    ensures forall p :: p in s.ps ==> p in s.m.pages
  {
    forall p | p in s.ps ensures p in s.m.pages {
      var i :| 0 <= i < |s.ps| && s.ps[i] == p;
      assert PageLink(s.m.pages, s.ps, i, k);
    }
  }

  /** The checkpoint of a region. */
  ghost function Checkpoint(s: State, k: nat): (c: Copy)
    requires Ok(s, k)
    ensures |c.lobjs| == |s.ls|
  {
    LobjsListed(s, k);
    PagesListed(s, k);
    CopyRegion(s.m, s.r, s.ps, s.ls)
  }

  ghost function Restored(s0: State, s: State, k: nat): (x: (Mem, Region))
    requires Since(s0, s, k)
  {
    LobjsListed(s, k);
    PagesListed(s0, k);
    PagesRestored(s0, s, k);
    Restore(s.m, s.r, Checkpoint(s0, k), s.ls, k)
  }

  ghost predicate SamePages(m0: Mem, m: Mem, ps: seq<nat>) {
    forall p :: p in ps ==> p in m0.pages && p in m.pages && m.pages[p] == m0.pages[p]
  }

  ghost predicate SameLobjs(m0: Mem, m: Mem, ls: seq<nat>) {
    forall l :: l in ls ==> l in m0.lobjs && l in m.lobjs && m.lobjs[l] == m0.lobjs[l]
  }

  function Elements(s: seq<nat>): set<nat> {
    set x | x in s
  }

  /** The lists of a region and what has become of them. */
  lemma Layout(s0: State, s: State, k: nat)
    requires Since(s0, s, k)
    ensures 0 < |s0.ps| <= |s.ps| && s.ps[..|s0.ps|] == s0.ps && Distinct(s.ps + s.fs)
    ensures s0.r.b == s0.ps[|s0.ps| - 1] == s.ps[|s0.ps| - 1] && s.r.b == s.ps[|s.ps| - 1] && s.m.freelist == At(s.fs, 0)
  {
    hide PageLink, LobjList, Distinct;
  }

  lemma PageAt(s: State, k: nat, i: nat)
    requires Ok(s, k) && i < |s.ps|
    ensures PageLink(s.m.pages, s.ps, i, k)
  {
  }

  lemma FreeAt(s: State, k: nat, i: nat)
    requires Ok(s, k) && i < |s.fs|
    ensures PageLink(s.m.pages, s.fs, i, k)
  {
  }

  lemma Differ(all: seq<nat>, i: nat, j: nat)
    requires Distinct(all) && i < j < |all|
    ensures all[i] != all[j]
  {
  }

  /** Of the pages of the region and the free list, the first ones are the old ones. */
  lemma OldOrNot(s0: State, s: State, k: nat, i: nat)
    requires Since(s0, s, k) && i < |s.ps| + |s.fs|
    ensures (s.ps + s.fs)[i] in s0.ps <==> i < |s0.ps|
  {
    Layout(s0, s, k);
    hide Since, Distinct;
    var n, all := |s0.ps|, s.ps + s.fs;
    assert forall j :: 0 <= j < n ==> s.ps[..n][j] == s0.ps[j] == all[j];
    if i >= n {
      forall j | 0 <= j < n ensures s0.ps[j] != all[i] {
        Differ(all, j, i);
      }
    }
  }

  lemma CutShape(m: Mem, p: nat, b: nat)
    requires p in m.pages && b in m.pages && (m.pages[p].n == 0 <==> p == b)
    ensures var c := CutAfter(m, p, b);
      && c.pages.Keys == m.pages.Keys
      && c.freelist == (if p == b then m.freelist else m.pages[p].n)
      && forall q :: q in m.pages ==>
           c.pages[q] == m.pages[q].(n := if q == p then 0 else if q == b then m.freelist else m.pages[q].n)
  {
  }

  /** The memory after the pages have been read back. */
  ghost function ReadBack(s0: State, s: State, k: nat): (m: Mem)
    requires Since(s0, s, k)
  {
    PagesListed(s0, k);
    s.m.(pages := WriteBack(s.m.pages, FlatPages(s0.m.pages, s0.ps), 0, k).0)
  }

  lemma ReadBackShape(s0: State, s: State, k: nat)
    requires Since(s0, s, k)
    ensures var m := ReadBack(s0, s, k);
      && m.pages.Keys == s.m.pages.Keys && s0.r.b in m.pages && s.r.b in m.pages
      && (m.pages[s0.r.b].n == 0 <==> s0.r.b == s.r.b)
      && (forall p :: p in s0.ps ==> p in s0.m.pages)
      && forall p :: p in m.pages ==>
           m.pages[p] == if p in s0.ps then s.m.pages[p].(words := s0.m.pages[p].words) else s.m.pages[p]
  {
    SinceOks(s0, s, k);
    hide Since, Ok, WriteBack, FlatPages;
    PagesListed(s0, k);
    PagesRestored(s0, s, k);
    LastOld(s0, s, k);
  }

  /** The last old page is linked to nothing if and only if it is still the last one. */
  lemma LastOld(s0: State, s: State, k: nat)
    requires Since(s0, s, k)
    ensures s0.r.b in s.m.pages && s.r.b in s.m.pages && (s.m.pages[s0.r.b].n == 0 <==> s0.r.b == s.r.b)
  {
    Layout(s0, s, k);
    var n, all := |s0.ps|, s.ps + s.fs;
    PageAt(s, k, n - 1);
    PageAt(s, k, |s.ps| - 1);
    if n < |s.ps| {
      PageAt(s, k, n);
      assert all[n - 1] == s0.r.b && all[|s.ps| - 1] == s.r.b;
      Differ(all, n - 1, |s.ps| - 1);
    }
  }

  lemma RestoredIsCut(s0: State, s: State, k: nat)
    requires Since(s0, s, k) && s0.r.b in ReadBack(s0, s, k).pages && s.r.b in ReadBack(s0, s, k).pages
    ensures var c := CutAfter(ReadBack(s0, s, k), s0.r.b, s.r.b);
      Restored(s0, s, k).0.pages == c.pages && Restored(s0, s, k).0.freelist == c.freelist
  {
    PagesListed(s0, k);
    PagesRestored(s0, s, k);
  }

  /** What restoration leaves in memory, page by page. */
  ghost predicate Reshaped(s0: State, s: State, m: Mem) {
    && m.pages.Keys == s.m.pages.Keys && s0.r.b in s.m.pages
    && m.freelist == (if s.r.b != s0.r.b then s.m.pages[s0.r.b].n else s.m.freelist)
    && (forall p :: p in s0.ps ==> p in s0.m.pages)
    && forall p :: p in m.pages ==>
         && m.pages[p].words == (if p in s0.ps then s0.m.pages[p].words else s.m.pages[p].words)
         && m.pages[p].n == if p == s0.r.b then 0 else if p == s.r.b then s.m.freelist else s.m.pages[p].n
  }

  lemma RestoredShape(s0: State, s: State, k: nat)
    requires Since(s0, s, k)
    ensures Reshaped(s0, s, Restored(s0, s, k).0)
  {
    ReadBackShape(s0, s, k);
    CutShape(ReadBack(s0, s, k), s0.r.b, s.r.b);
    RestoredIsCut(s0, s, k);
  }

  /** The old pages are again as they were, words and links. */
  lemma RestoredPages(s0: State, s: State, m: Mem, k: nat)
    requires Since(s0, s, k) && Reshaped(s0, s, m)
    ensures SamePages(s0.m, m, s0.ps)
  {
    hide Since, Reshaped;
    forall p | p in s0.ps ensures p in s0.m.pages && p in m.pages && m.pages[p] == s0.m.pages[p] {
      var i :| 0 <= i < |s0.ps| && s0.ps[i] == p;
      OldPage(s0, s, m, k, i);
    }
  }

  lemma OldPage(s0: State, s: State, m: Mem, k: nat, i: nat)
    requires Since(s0, s, k) && Reshaped(s0, s, m) && i < |s0.ps|
    ensures var p := s0.ps[i]; p in s0.m.pages && p in m.pages && m.pages[p] == s0.m.pages[p]
  {
    Layout(s0, s, k);
    PageAt(s0, k, i);
    PageAt(s, k, i);
    hide Since, Distinct;
    var n, all, p := |s0.ps|, s.ps + s.fs, s0.ps[i];
    assert s.ps[..n][i] == p && all[i] == p && p in s0.ps;
    if i < n - 1 {
      assert s.ps[i + 1] == s.ps[..n][i + 1] == s0.ps[i + 1];
      assert all[n - 1] == s0.r.b && all[|s.ps| - 1] == s.r.b;
      Differ(all, i, n - 1);
      Differ(all, i, |s.ps| - 1);
    }
  }

  /** Page `i` of the region and free list after restoration, if it is not an old one. */
  lemma FreedLink(s0: State, s: State, m: Mem, k: nat, i: nat)
    requires Since(s0, s, k) && Reshaped(s0, s, m) && |s0.ps| <= i < |s.ps| + |s.fs|
    ensures var all := s.ps + s.fs;
      all[i] != 0 && all[i] in m.pages && |m.pages[all[i]].words| == k && m.pages[all[i]].n == At(all, i + 1)
  {
    Layout(s0, s, k);
    OldOrNot(s0, s, k, i);
    SinceOks(s0, s, k);
    hide Since, Distinct, Ok;
    var n, all := |s0.ps|, s.ps + s.fs;
    assert all[n - 1] == s0.r.b && all[|s.ps| - 1] == s.r.b;
    Differ(all, n - 1, i);
    FreeBefore(s, k, i);
    if i < |s.ps| - 1 {
      Differ(all, i, |s.ps| - 1);
    } else if i > |s.ps| - 1 {
      Differ(all, |s.ps| - 1, i);
    }
  }

  /** Every page of the region and the free list is linked to the next one, but for the region's last. */
  lemma FreeBefore(s: State, k: nat, i: nat)
    requires Ok(s, k) && i < |s.ps| + |s.fs|
    ensures var all := s.ps + s.fs;
      && all[i] != 0 && all[i] in s.m.pages && |s.m.pages[all[i]].words| == k
      && At(all, i + 1) == if i == |s.ps| - 1 then At(s.fs, 0) else s.m.pages[all[i]].n
  {
    if i < |s.ps| {
      PageAt(s, k, i);
    } else {
      FreeAt(s, k, i - |s.ps|);
    }
  }

  lemma SinceOks(s0: State, s: State, k: nat)
    requires Since(s0, s, k)
    ensures Ok(s0, k) && Ok(s, k)
  {
  }

  /** The pages added since are on the free list, in front of what was there. */
  lemma RestoredFree(s0: State, s: State, m: Mem, k: nat)
    requires Since(s0, s, k) && Reshaped(s0, s, m)
    ensures PageList(m.pages, m.freelist, s.ps[|s0.ps|..] + s.fs, k)
  {
    hide Since, Reshaped, PageLink;
    SincePages(s0, s, k);
    var n, all := |s0.ps|, s.ps + s.fs;
    var free := s.ps[n..] + s.fs;
    assert free == all[n..];
    forall i | 0 <= i < |free| ensures PageLink(m.pages, free, i, k) {
      FreedLink(s0, s, m, k, n + i);
      assert free[i] == all[n + i] && At(free, i + 1) == At(all, n + i + 1);
      ToLink(m.pages, free, i, k);
    }
    FreeHead(s0, s, m, k);
  }

  lemma SincePages(s0: State, s: State, k: nat)
    requires Since(s0, s, k)
    ensures 0 < |s0.ps| <= |s.ps|
  {
  }

  lemma ToLink(pages: map<nat, Page>, ps: seq<nat>, i: nat, k: nat)
    requires i < |ps| && ps[i] != 0 && ps[i] in pages && |pages[ps[i]].words| == k && pages[ps[i]].n == At(ps, i + 1)
    ensures PageLink(pages, ps, i, k)
  {
  }

  lemma AtRest(ps: seq<nat>, fs: seq<nat>, n: nat)
    requires n <= |ps|
    ensures At(ps[n..] + fs, 0) == At(ps + fs, n)
  {
    assert ps[n..] + fs == (ps + fs)[n..];
  }

  lemma FreeHead(s0: State, s: State, m: Mem, k: nat)
    requires Since(s0, s, k) && Reshaped(s0, s, m)
    ensures |s0.ps| <= |s.ps| && m.freelist == At(s.ps[|s0.ps|..] + s.fs, 0)
  {
    Layout(s0, s, k);
    var n, all := |s0.ps|, s.ps + s.fs;
    SinceOks(s0, s, k);
    FreeBefore(s, k, n - 1);
    hide Since, Distinct, Ok;
    AtRest(s.ps, s.fs, n);
    assert all[n - 1] == s0.r.b && all[|s.ps| - 1] == s.r.b;
    if n < |s.ps| {
      Differ(all, n - 1, |s.ps| - 1);
    }
  }

  /** The old large objects are still linked as they were. */
  lemma KeptLobjs(s0: State, s: State, k: nat)
    requires Since(s0, s, k)
    ensures forall l :: l in s0.ls ==> l in s0.m.lobjs && l in s.m.lobjs && s.m.lobjs[l].next == s0.m.lobjs[l].next
  {
    var d := |s.ls| - |s0.ls|;
    forall l | l in s0.ls ensures l in s0.m.lobjs && l in s.m.lobjs && s.m.lobjs[l].next == s0.m.lobjs[l].next {
      var i :| 0 <= i < |s0.ls| && s0.ls[i] == l;
      assert l == s.ls[d..][i] == s.ls[d + i];
      assert LobjLink(s0.m.lobjs, s0.ls, i) && LobjLink(s.m.lobjs, s.ls, d + i);
      assert i + 1 < |s0.ls| ==> s0.ls[i + 1] == s.ls[d..][i + 1] == s.ls[d + i + 1];
    }
  }

  /** The old large objects get their values back, and those added since are gone. */
  lemma LobjsBack(was: map<nat, Lobj>, now: map<nat, Lobj>, all: seq<nat>, added: seq<nat>, ls: seq<nat>)
    requires all == added + ls && Distinct(all) && forall l :: l in all ==> l in now
    requires forall l :: l in ls ==> l in was && l in now && now[l].next == was[l].next
    ensures var r := RestoreLobjs(now, all, Values(was, ls));
      r.Keys == now.Keys - Elements(added) && forall l :: l in ls ==> l in r && r[l] == was[l]
  {
    hide PutValues, Values;
    assert all[..|added|] == added && all[|added|..] == ls;
    DistinctParts(added, ls);
    var kept := Kept(now, added);
    PutValuesRestores(was, kept, ls);
    PutValuesKeeps(kept, ls, Values(was, ls));
  }

  lemma DistinctParts(a: seq<nat>, b: seq<nat>)
    requires Distinct(a + b)
    ensures Distinct(b) && forall l :: l in b ==> l !in a
  {
    assert forall i :: 0 <= i < |b| ==> b[i] == (a + b)[|a| + i];
    assert forall i :: 0 <= i < |a| ==> a[i] == (a + b)[i];
  }

  lemma PutValuesKeeps(lobjs: map<nat, Lobj>, ls: seq<nat>, vs: seq<seq<int>>)
    requires |ls| == |vs| && forall l :: l in ls ==> l in lobjs
    ensures var r := PutValues(lobjs, ls, vs); r.Keys == lobjs.Keys && forall l :: l in lobjs ==> r[l].next == lobjs[l].next
  {
  }

  lemma AddedLobjs(s0: State, s: State, k: nat)
    requires Since(s0, s, k)
    ensures |s0.ls| <= |s.ls| && s.ls[..|s.ls| - |s0.ls|] + s0.ls == s.ls && Distinct(s.ls)
  {
    hide PageList, LobjList, Distinct;
    var d := |s.ls| - |s0.ls|;
    assert s.ls[d..] == s0.ls;
  }

  lemma RestoredLobjs(s0: State, s: State, k: nat, m: Mem)
    requires Since(s0, s, k)
    requires (forall l :: l in s0.ls ==> l in s0.m.lobjs) && (forall l :: l in s.ls ==> l in s.m.lobjs)
    requires m.lobjs == RestoreLobjs(s.m.lobjs, s.ls, Values(s0.m.lobjs, s0.ls))
    ensures SameLobjs(s0.m, m, s0.ls)
    ensures m.lobjs.Keys == s.m.lobjs.Keys - Elements(s.ls[..|s.ls| - |s0.ls|])
  {
    hide PutValues, Values, RestoreLobjs, Since, Ok, Elements, Distinct, Kept;
    KeptLobjs(s0, s, k);
    AddedLobjs(s0, s, k);
    LobjsBack(s0.m.lobjs, s.m.lobjs, s.ls, s.ls[..|s.ls| - |s0.ls|], s0.ls);
  }

  lemma RestoredRegion(s0: State, s: State, k: nat)
    requires Since(s0, s, k)
    ensures Restored(s0, s, k).1 == s0.r
  {
    var d := |s.ls| - |s0.ls|;
    assert s0.r.fp == At(s0.ps, 0) == At(s.ps, 0) == s.r.fp;
    assert At(s.ls, d) == At(s.ls[d..], 0) == At(s0.ls, 0);
  }

  lemma RestoredHolds(s0: State, m: Mem, fs: seq<nat>, k: nat)
    requires Ok(s0, k) && SamePages(s0.m, m, s0.ps) && SameLobjs(s0.m, m, s0.ls)
    requires PageList(m.pages, m.freelist, fs, k) && Distinct(s0.ps + fs)
    ensures Holds(m, s0.r, s0.ps, s0.ls, fs, k)
  {
    forall i | 0 <= i < |s0.ps| ensures PageLink(m.pages, s0.ps, i, k) {
      assert PageLink(s0.m.pages, s0.ps, i, k);
    }
    forall i | 0 <= i < |s0.ls| ensures LobjLink(m.lobjs, s0.ls, i) {
      assert LobjLink(s0.m.lobjs, s0.ls, i);
    }
  }

  /** Restoring gives back the descriptor, every page and every large object as they were, frees
      exactly the pages and objects added since, and neither loses nor makes up any memory. */
  ghost predicate GivenBack(s0: State, s: State, m: Mem, r: Region, k: nat)
    requires |s0.ps| <= |s.ps| && |s0.ls| <= |s.ls|
  {
    && r == s0.r && SamePages(s0.m, m, s0.ps) && SameLobjs(s0.m, m, s0.ls)
    && Holds(m, r, s0.ps, s0.ls, s.ps[|s0.ps|..] + s.fs, k)
    && m.pages.Keys == s.m.pages.Keys
    && m.lobjs.Keys == s.m.lobjs.Keys - Elements(s.ls[..|s.ls| - |s0.ls|])
  }

  lemma AllBack(s0: State, s: State, m: Mem, k: nat)
    requires Since(s0, s, k) && Reshaped(s0, s, m) && SameLobjs(s0.m, m, s0.ls)
    requires m.lobjs.Keys == s.m.lobjs.Keys - Elements(s.ls[..|s.ls| - |s0.ls|])
    ensures GivenBack(s0, s, m, s0.r, k)
  {
    RestoredPages(s0, s, m, k);
    RestoredFree(s0, s, m, k);
    assert s0.ps + (s.ps[|s0.ps|..] + s.fs) == s.ps + s.fs;
    RestoredHolds(s0, m, s.ps[|s0.ps|..] + s.fs, k);
  }

  lemma RestoresAll(s0: State, s: State, k: nat)
    requires Since(s0, s, k)
    ensures var (m, r) := Restored(s0, s, k); GivenBack(s0, s, m, r, k)
  {
    RestoredShape(s0, s, k);
    RestoredRegion(s0, s, k);
    LobjsListed(s0, k);
    LobjsListed(s, k);
    RestoredLobjs(s0, s, k, Restored(s0, s, k).0);
    AllBack(s0, s, Restored(s0, s, k).0, k);
  }

  /** After a checkpoint and any run of operations, restoring gives the region back. */
  lemma RoundTrip(ss: seq<State>, ops: seq<Op>, k: nat)
    requires OpRun(ss, ops, k)
    ensures var s0, s := ss[0], ss[|ops|];
      Since(s0, s, k) && var (m, r) := Restored(s0, s, k); GivenBack(s0, s, m, r, k)
  {
    RunSince(ss, ops, k, |ops|);
    RestoresAll(ss[0], ss[|ops|], k);
  }
}
