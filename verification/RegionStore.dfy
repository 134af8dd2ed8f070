/**
 Copying and restoring a region as the C code does it, following pointers and writing in place. Each
 method is proved to do what the functions of `RegionCopy` say, and restoring to give the region back.
 */
module RegionStore {
  import opened RegionCopy

  class Store {
    var pages: map<nat, Page>
    var lobjs: map<nat, Lobj>
    var freelist: nat

    constructor ()
      ensures View() == Mem(map[], map[], 0)
    {
      pages, lobjs, freelist := map[], map[], 0;
    }

    function View(): Mem
      reads this
    {
      Mem(pages, lobjs, freelist)
    }

    /** Copy the pages out, following their links. */
    method CopyPages(r: Region, k: nat, ghost s: State) returns (flat: seq<int>)
      requires Ok(s, k) && View() == s.m && r == s.r
      requires forall x :: x in s.ps ==> x in pages
      ensures flat == FlatPages(pages, s.ps)
    {
      hide FlatPages, Ok;
      FirstPage(s, k);
      flat := [];
      var p := r.fp;
      ghost var i := 0;
      assert s.ps[0..] == s.ps && [] + FlatPages(pages, s.ps) == FlatPages(pages, s.ps);
      while p != 0
        invariant i <= |s.ps| && p == At(s.ps, i) && (i < |s.ps| ==> p != 0)
        invariant flat + FlatPages(pages, s.ps[i..]) == FlatPages(pages, s.ps)
        decreases |s.ps| - i
      {
        PageAt(s, k, i);
        FlatMore(flat, pages, s.ps, i);
        flat := flat + [p] + pages[p].words;
        p := pages[p].n;
        i := i + 1;
        if i < |s.ps| {
          PageAt(s, k, i);
        }
      }
      FlatEnd(pages, s.ps[i..]);
      flat := flat + [0];
    }

    method CopyLobjs(r: Region, k: nat, ghost s: State) returns (values: seq<seq<int>>)
      requires Ok(s, k) && View() == s.m && r == s.r
      requires forall x :: x in s.ls ==> x in lobjs
      ensures values == Values(lobjs, s.ls)
    {
      values := [];
      var l := r.lobjs;
      ghost var i := 0;
      assert |s.ls| > 0 ==> LobjLink(lobjs, s.ls, 0);
      while l != 0
        invariant i <= |s.ls| && l == At(s.ls, i) && (i < |s.ls| ==> l != 0)
        invariant forall x :: x in s.ls[i..] ==> x in lobjs
        invariant values + Values(lobjs, s.ls[i..]) == Values(lobjs, s.ls)
        decreases |s.ls| - i
      {
        assert LobjLink(lobjs, s.ls, i) && s.ls[i..][1..] == s.ls[i + 1..];
        values := values + [lobjs[l].value];
        l := lobjs[l].next;
        i := i + 1;
        assert i < |s.ls| ==> LobjLink(lobjs, s.ls, i);
      }
      assert s.ls[i..] == [];
    }

    method CopyRegion(r: Region, k: nat, ghost s: State) returns (c: Copy)
      requires Ok(s, k) && View() == s.m && r == s.r
      ensures c == Checkpoint(s, k)
    {
      PagesListed(s, k);
      LobjsListed(s, k);
      var flat := CopyPages(r, k, s);
      var values := CopyLobjs(r, k, s);
      c := Copy(r.a, r.b, flat, values);
    }

    /** Write `k` words of the copy, from index `at` on, into a page. */
    method WritePage(p: nat, flat: seq<int>, at: nat, k: nat)
      requires p in pages && |pages[p].words| == k && at + k <= |flat|
      modifies this`pages
      ensures pages == old(pages)[p := old(pages)[p].(words := flat[at..at + k])]
    {
      var j := 0;
      while j < k
        invariant j <= k && p in pages && |pages[p].words| == k
        invariant pages == old(pages)[p := old(pages)[p].(words := pages[p].words)]
        invariant pages[p].words[..j] == flat[at..at + j]
      {
        ghost var words := pages[p].words;
        pages := pages[p := pages[p].(words := pages[p].words[j := flat[at + j]])];
        assert words[j := flat[at + j]][..j + 1] == words[..j] + [flat[at + j]];
        assert flat[at..at + j + 1] == flat[at..at + j] + [flat[at + j]];
        j := j + 1;
      }
      assert pages[p].words == pages[p].words[..k];
    }

    /** Read the copy back into the pages it came from; a zero where an address should be ends it. */
    method ReadPages(c: Copy, k: nat, ghost s0: State, ghost s: State) returns (p: nat)
      requires Since(s0, s, k) && View() == s.m && c == Checkpoint(s0, k)
      modifies this`pages
      ensures (pages, p) == WriteBack(old(pages), c.pages, 0, k)
    {
      hide FlatPages, WriteBack, Checkpoint, Ok;
      PagesListed(s0, k);
      OldPages(s0, s, k);
      CheckpointPages(s0, k);
      var i := 0;
      ghost var t := 0;
      p := 0;
      assert c.pages[0..] == c.pages && s0.ps[0..] == s0.ps;
      FlatParts(s0.m.pages, s0.ps, 0, k);
      while c.pages[i] != 0
        invariant t <= |s0.ps| && i < |c.pages| && c.pages[i..] == FlatPages(s0.m.pages, s0.ps[t..])
        invariant t < |s0.ps| <==> c.pages[i] != 0
        invariant WriteBack(pages, c.pages[i..], p, k) == WriteBack(old(pages), c.pages, 0, k)
        invariant forall x :: x in s0.ps ==> x in pages && |pages[x].words| == k
        decreases |s0.ps| - t
      {
        FlatParts(s0.m.pages, s0.ps, t, k);
        assert c.pages[i] == c.pages[i..][0];
        WriteOne(pages, c.pages[i..], c.pages[i], p, k);
        p := c.pages[i];
        Window(c.pages, i, k);
        WritePage(p, c.pages, i + 1, k);
        i := i + 1 + k;
        t := t + 1;
        FlatParts(s0.m.pages, s0.ps, t, k);
        assert c.pages[i] == c.pages[i..][0];
      }
      FlatParts(s0.m.pages, s0.ps, t, k);
      WriteNone(pages, p, k);
    }

    /** Restore a region from its copy: read the pages back, free the pages that came after them and
        the large objects that came before the old ones, and write the old values into those left. */
    method RestoreRegion(r: Region, c: Copy, k: nat, ghost s0: State, ghost s: State) returns (r': Region)
      requires Since(s0, s, k) && View() == s.m && r == s.r && c == Checkpoint(s0, k)
      modifies this
      ensures (View(), r') == Restored(s0, s, k)
      ensures GivenBack(s0, s, View(), r', k)
    {
      hide WriteBack, RegionCopy.RestoreLobjs, Checkpoint, Restored, GivenBack, Ok, PageLink, LobjLink;
      RestoredIs(s0, s, k);
      var p := ReadPages(c, k, s0, s);
      var first := pages[p].n;
      if first != 0 {
        pages := pages[r.b := pages[r.b].(n := freelist)];
        freelist := first;
      }
      pages := pages[p := pages[p].(n := 0)];
      var l := RestoreLobjs(r.lobjs, c.lobjs, s.ls);
      r' := Region(c.a, c.b, r.fp, l);
      RestoresAll(s0, s, k);
    }

    /** Free the large objects that come before the last `|values|`, and put the values back into
        these. */
    method RestoreLobjs(head: nat, values: seq<seq<int>>, ghost ls: seq<nat>) returns (l: nat)
      requires LobjList(lobjs, head, ls) && Distinct(ls) && |values| <= |ls|
      requires forall x :: x in ls ==> x in lobjs
      modifies this`lobjs
      ensures lobjs == RegionCopy.RestoreLobjs(old(lobjs), ls, values)
      ensures l == At(ls, |ls| - |values|)
    {
      hide LobjList, Distinct, Kept, PutValues, RegionCopy.RestoreLobjs;
      var count := Count(head, ls);
      ghost var d, was := |ls| - |values|, lobjs;
      ListHead(lobjs, head, ls);
      var prev;
      l, prev := Skip(head, count - |values|, ls);
      if prev != 0 {
        CutAndFree(head, prev, ls, d);
      } else {
        KeepAll(lobjs, ls);
      }
      RestOfList(was, lobjs, ls, d);
      RestoreParts(was, ls, values);
      PutAll(l, values, ls[d..]);
    }

    method Count(head: nat, ghost ls: seq<nat>) returns (n: nat)
      requires LobjList(lobjs, head, ls)
      ensures n == |ls|
    {
      n := 0;
      var l := head;
      assert |ls| > 0 ==> LobjLink(lobjs, ls, 0);
      while l != 0
        invariant n <= |ls| && l == At(ls, n) && (n < |ls| ==> l != 0)
        decreases |ls| - n
      {
        assert LobjLink(lobjs, ls, n);
        l := lobjs[l].next;
        n := n + 1;
        assert n < |ls| ==> LobjLink(lobjs, ls, n);
      }
    }

    /** The object `n` places along the list, and the one before it (null for the first). */
    method Skip(head: nat, n: nat, ghost ls: seq<nat>) returns (l: nat, prev: nat)
      requires LobjList(lobjs, head, ls) && n <= |ls|
      ensures l == At(ls, n) && prev == if n == 0 then 0 else ls[n - 1]
      ensures prev == 0 <==> n == 0
    {
      l, prev := head, 0;
      for i := 0 to n
        invariant l == At(ls, i) && prev == (if i == 0 then 0 else ls[i - 1]) && (prev == 0 <==> i == 0)
      {
        assert LobjLink(lobjs, ls, i);
        prev := l;
        l := lobjs[l].next;
      }
    }

    /** Cut the list after `prev`, its object `d - 1`, and free what is before the cut. */
    method CutAndFree(head: nat, prev: nat, ghost ls: seq<nat>, ghost d: nat)
      requires LobjList(lobjs, head, ls) && Distinct(ls) && 0 < d <= |ls| && prev == ls[d - 1]
      requires forall x :: x in ls ==> x in lobjs
      modifies this`lobjs
      ensures lobjs == Kept(old(lobjs), ls[..d])
    {
      ghost var was := lobjs;
      lobjs := lobjs[prev := lobjs[prev].(next := 0)];
      var l := head;
      assert LobjLink(was, ls, 0);
      ghost var i := 0;
      while l != 0
        invariant i <= d && l == (if i < d then ls[i] else 0) && (i < d ==> l != 0)
        invariant lobjs == map x | x in was && x !in ls[..i] :: if x == prev then was[x].(next := 0) else was[x]
        decreases d - i
      {
        assert LobjLink(was, ls, i);
        assert forall j :: 0 <= j < i ==> ls[j] != ls[i];
        var next := lobjs[l].next;
        lobjs := map x | x in lobjs && x != l :: lobjs[x];
        assert ls[..i + 1] == ls[..i] + [ls[i]];
        l := next;
        i := i + 1;
        assert i < d ==> LobjLink(was, ls, i);
      }
      assert prev == ls[..d][d - 1];
    }

    /** Write the values into the objects of a list, in order. */
    method PutAll(head: nat, values: seq<seq<int>>, ghost ls: seq<nat>)
      requires |ls| == |values| && Distinct(ls) && LobjList(lobjs, head, ls)
      requires forall x :: x in ls ==> x in lobjs
      modifies this`lobjs
      ensures lobjs == PutValues(old(lobjs), ls, values)
    {
      var l := head;
      for i := 0 to |values|
        invariant l == At(ls, i) && forall x :: x in ls ==> x in lobjs
        invariant forall j :: i <= j < |ls| ==> LobjLink(lobjs, ls, j)
        invariant PutValues(lobjs, ls[i..], values[i..]) == PutValues(old(lobjs), ls, values)
      {
        assert LobjLink(lobjs, ls, i);
        assert ls[i..][1..] == ls[i + 1..] && values[i..][1..] == values[i + 1..];
        ghost var before := lobjs;
        lobjs := lobjs[l := lobjs[l].(value := values[i])];
        forall j | i + 1 <= j < |ls| ensures LobjLink(lobjs, ls, j) {
          assert LobjLink(before, ls, j);
        }
        l := lobjs[l].next;
      }
    }
  }

  lemma FirstPage(s: State, k: nat)
    requires Ok(s, k)
    ensures s.r.fp == At(s.ps, 0) && (|s.ps| > 0 ==> s.r.fp != 0)
  {
    if |s.ps| > 0 {
      PageAt(s, k, 0);
    }
  }

  lemma FlatMore(flat: seq<int>, pages: map<nat, Page>, ps: seq<nat>, i: nat)
    requires i < |ps| && forall x :: x in ps ==> x in pages
    ensures flat + FlatPages(pages, ps[i..]) == (flat + [ps[i]] + pages[ps[i]].words) + FlatPages(pages, ps[i + 1..])
  {
    assert ps[i..][1..] == ps[i + 1..];
    var w, rest := pages[ps[i]].words, FlatPages(pages, ps[i + 1..]);
    assert FlatPages(pages, ps[i..]) == [ps[i]] + w + rest;
    hide FlatPages;
    assert flat + ([ps[i]] + w + rest) == (flat + [ps[i]] + w) + rest;
  }

  lemma FlatEnd(pages: map<nat, Page>, ps: seq<nat>)
    requires ps == []
    ensures FlatPages(pages, ps) == [0]
  {
  }

  /** The page that stands at index `i` of a flat copy, and what comes after it. */
  lemma Window(flat: seq<int>, i: nat, k: nat)
    requires i + k < |flat|
    ensures flat[i..][1..k + 1] == flat[i + 1..i + 1 + k] && flat[i..][k + 1..] == flat[i + 1 + k..]
  {
  }

  lemma ListHead(lobjs: map<nat, Lobj>, head: nat, ls: seq<nat>)
    requires LobjList(lobjs, head, ls)
    ensures head == At(ls, 0)
  {
  }

  lemma KeepAll(lobjs: map<nat, Lobj>, ls: seq<nat>)
    ensures Kept(lobjs, ls[..0]) == lobjs
  {
  }

  lemma RestoreParts(was: map<nat, Lobj>, ls: seq<nat>, values: seq<seq<int>>)
    requires |values| <= |ls| && Distinct(ls) && forall x :: x in ls ==> x in was
    ensures var d := |ls| - |values|; var now := Kept(was, ls[..d]);
      && (forall x :: x in ls[d..] ==> x in now)
      && RegionCopy.RestoreLobjs(was, ls, values) == PutValues(now, ls[d..], values)
  {
    var d := |ls| - |values|;
    assert ls[..d] + ls[d..] == ls;
    DistinctParts(ls[..d], ls[d..]);
  }

  /** What restoring comes to, step by step. */
  lemma RestoredIs(s0: State, s: State, k: nat)
    requires Since(s0, s, k)
    ensures var c := Checkpoint(s0, k); var (pages, last) := WriteBack(s.m.pages, c.pages, 0, k);
      && last in pages && s.r.b in pages && |c.lobjs| == |s0.ls| && Distinct(s.ls) && LobjList(s.m.lobjs, s.r.lobjs, s.ls)
      && (forall l :: l in s.ls ==> l in s.m.lobjs)
      && Restored(s0, s, k) == (CutAfter(s.m.(pages := pages), last, s.r.b).(lobjs := RegionCopy.RestoreLobjs(s.m.lobjs, s.ls, c.lobjs)),
                                Region(c.a, c.b, s.r.fp, At(s.ls, |s.ls| - |c.lobjs|)))
  {
    hide WriteBack, RegionCopy.RestoreLobjs, FlatPages, Values, CutAfter, PageLink;
    PagesListed(s0, k);
    PagesRestored(s0, s, k);
    LobjsListed(s, k);
  }

  lemma CheckpointPages(s: State, k: nat)
    requires Ok(s, k)
    ensures (forall x :: x in s.ps ==> x in s.m.pages) && Checkpoint(s, k).pages == FlatPages(s.m.pages, s.ps)
    ensures forall x :: x in s.ps ==> x > 0 && |s.m.pages[x].words| == k
  {
    PagesListed(s, k);
    forall x | x in s.ps ensures x > 0 && |s.m.pages[x].words| == k {
      var i :| 0 <= i < |s.ps| && s.ps[i] == x;
      assert PageLink(s.m.pages, s.ps, i, k);
    }
  }

  /** A flat copy from page `t` on: that page and the rest, or the zero at the end. */
  lemma FlatParts(pages: map<nat, Page>, ps: seq<nat>, t: nat, k: nat)
    requires t <= |ps| && forall x :: x in ps ==> x > 0 && x in pages && |pages[x].words| == k
    ensures var flat := FlatPages(pages, ps[t..]);
      if t == |ps| then flat == [0]
      else |flat| > k + 1 && flat[0] == ps[t] > 0 && flat[k + 1..] == FlatPages(pages, ps[t + 1..])
  {
    if t < |ps| {
      assert ps[t..][1..] == ps[t + 1..] && ps[t] in ps;
      NotNone(pages, ps[t + 1..]);
    }
  }

  lemma NotNone(pages: map<nat, Page>, ps: seq<nat>)
    requires forall x :: x in ps ==> x in pages
    ensures FlatPages(pages, ps) != []
  {
  }

  lemma WriteOne(pages: map<nat, Page>, flat: seq<int>, p: nat, last: nat, k: nat)
    requires |flat| > k && flat[0] == p > 0 && p in pages
    ensures WriteBack(pages, flat, last, k) == WriteBack(pages[p := pages[p].(words := flat[1..k + 1])], flat[k + 1..], p, k)
  {
  }

  lemma WriteNone(pages: map<nat, Page>, last: nat, k: nat)
    ensures WriteBack(pages, [0], last, k) == (pages, last)
  {
  }

  lemma OldPages(s0: State, s: State, k: nat)
    requires Since(s0, s, k)
    ensures forall x :: x in s0.ps ==> x in s.m.pages && |s.m.pages[x].words| == k
  {
    forall x | x in s0.ps ensures x in s.m.pages && |s.m.pages[x].words| == k {
      var i :| 0 <= i < |s0.ps| && s0.ps[i] == x;
      assert PageLink(s.m.pages, s.ps, i, k);
    }
  }

  /** What is left of a list of large objects when the first `d` are gone. */
  lemma RestOfList(was: map<nat, Lobj>, now: map<nat, Lobj>, ls: seq<nat>, d: nat)
    requires d <= |ls| && Distinct(ls) && LobjList(was, At(ls, 0), ls)
    requires now == Kept(was, ls[..d])
    ensures Distinct(ls[d..]) && LobjList(now, At(ls, d), ls[d..]) && forall x :: x in ls[d..] ==> x in now
  {
    var rest := ls[d..];
    forall i | 0 <= i < |rest| ensures LobjLink(now, rest, i) {
      assert LobjLink(was, ls, d + i) && rest[i] == ls[d + i];
    }
    forall x | x in rest ensures x in now {
      var i :| 0 <= i < |rest| && rest[i] == x;
      assert LobjLink(now, rest, i);
    }
  }
}
