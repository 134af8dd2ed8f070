/**
 Regions over whole runs: from the instruction that opens a region to the one that closes it, the region's
 descriptor and everything below it on the stack stay as they were.
 */
module KamRegions {
  import opened Kam
  import opened KamHandlers

  /** A region's descriptor lies where the accumulator points, on top of the old stack. */
  lemma LetregionPlaces(w: World, m: Machine, words: seq<int>)
    requires |words| == SIZE_RO
    ensures var x := Step(w, m, LetregionInf(words));
      && x.Some? && x.value.acc == |m.stk| && x.value.regions == m.regions + [|m.stk|]
      && x.value.stk[..x.value.acc] == m.stk && x.value.stk[x.value.acc..] == words
      && x.value.exn == m.exn && x.value.env == m.env && x.value.pc == m.pc + 1
  {
  }

  /** The region that was opened in machine `m`, under the handlers `hs`, is still there at point `p`. */
  ghost predicate Held(m: Machine, hs: seq<nat>, words: seq<int>, p: Point) {
    && RegionHeld(m, p.m.regions) && StackHeld(m, words, p.m.stk) && HandlersHeld(m, hs, p.hs)
  }

  ghost predicate RegionHeld(m: Machine, regions: seq<nat>) {
    |m.regions| < |regions| && regions[..|m.regions| + 1] == m.regions + [|m.stk|]
  }

  ghost predicate StackHeld(m: Machine, words: seq<int>, stk: seq<int>) {
    |m.stk| + SIZE_RO <= |stk| && stk[..|m.stk| + SIZE_RO] == m.stk + words
  }

  ghost predicate HandlersHeld(m: Machine, hs: seq<nat>, hs1: seq<nat>) {
    && |hs| <= |hs1| && hs1[..|hs|] == hs
    && (forall j :: 0 <= j < |hs| ==> hs1[j] < |m.stk|) && (forall j :: |hs| <= j < |hs1| ==> |m.stk| < hs1[j])
  }

  lemma RegionAt(m: Machine, regions: seq<nat>)
    requires RegionHeld(m, regions)
    ensures |m.regions| < |regions| && regions[|m.regions|] == |m.stk|
  {
    assert regions[..|m.regions| + 1][|m.regions|] == |m.stk|;
  }

  lemma PrefixHeld(m: Machine, regions: seq<nat>, regions': seq<nat>)
    requires RegionHeld(m, regions) && |m.regions| < |regions'|
    requires forall k :: 0 <= k <= |m.regions| ==> regions'[k] == regions[k]
    ensures RegionHeld(m, regions')
  {
  }

  lemma StackStillHeld(m: Machine, words: seq<int>, stk: seq<int>, stk': seq<int>)
    requires StackHeld(m, words, stk) && |m.stk| + SIZE_RO <= |stk'|
    requires forall k :: 0 <= k < |m.stk| + SIZE_RO ==> stk'[k] == stk[k]
    ensures StackHeld(m, words, stk')
  {
  }

  /** The innermost handler, if it lies above the region, can go. */
  lemma HandlerGone(m: Machine, hs: seq<nat>, hs1: seq<nat>)
    requires HandlersHeld(m, hs, hs1) && hs1 != [] && |m.stk| < Top(hs1)
    ensures HandlersHeld(m, hs, hs1[..|hs1| - 1])
  {
    assert |hs| < |hs1|;
  }

  lemma HandlerAdded(m: Machine, hs: seq<nat>, hs1: seq<nat>, h: nat)
    requires HandlersHeld(m, hs, hs1) && |m.stk| < h
    ensures HandlersHeld(m, hs, hs1 + [h])
  {
  }

  /** The region lies below the stack top and overlaps no handler. */
  lemma RegionApart(m: Machine, p: Point)
    requires Inv(p.m, p.hs) && RegionHeld(m, p.m.regions)
    ensures |m.stk| + SIZE_RO <= |p.m.stk| && |m.stk| + SIZE_RO <= Floor(p.m.regions, p.hs)
    ensures p.hs != [] && |m.stk| < Top(p.hs) ==> |m.stk| + SIZE_RO + 3 <= Top(p.hs)
  {
    RegionAt(m, p.m.regions);
  }

  lemma PlainHolds(w: World, m: Machine, hs: seq<nat>, words: seq<int>, p: Point, i: Instr)
    requires Inv(p.m, p.hs) && Held(m, hs, words, p) && Disciplined(p.m, p.hs, i) && Step(w, p.m, i).Some?
    requires !(i.EndregionInf? || i.PopExnPtr? || i.Raise? || i.PushExnPtr? || i.LetregionInf?)
    ensures Held(m, hs, words, Point(Step(w, p.m, i).value, p.hs))
  {
    hide Inv, Disciplined, Step, StackHeld, HandlersHeld, RegionHeld, Floor;
    StepKeepsBelow(w, p.m, p.hs, i);
    FloorFits(p.m, p.hs);
    RegionApart(m, p);
    var q, a := Step(w, p.m, i).value, Floor(p.m.regions, p.hs);
    forall k | 0 <= k < |m.stk| + SIZE_RO ensures q.stk[k] == p.m.stk[k] {
      assert q.stk[..a][k] == p.m.stk[..a][k];
    }
    StackStillHeld(m, words, p.m.stk, q.stk);
  }

  lemma RegionHolds(w: World, m: Machine, hs: seq<nat>, words: seq<int>, p: Point, i: Instr)
    requires Inv(p.m, p.hs) && Held(m, hs, words, p) && Disciplined(p.m, p.hs, i) && Step(w, p.m, i).Some?
    requires (i.EndregionInf? || i.LetregionInf?) && |m.regions| < |Step(w, p.m, i).value.regions|
    ensures Held(m, hs, words, Point(Step(w, p.m, i).value, p.hs))
  {
    hide StackHeld, HandlersHeld, RegionHeld, Chain;
    RegionApart(m, p);
    RegionAt(m, p.m.regions);
    var q := Step(w, p.m, i).value;
    PrefixHeld(m, p.m.regions, q.regions);
    StackStillHeld(m, words, p.m.stk, q.stk);
  }

  lemma HandlerHolds(w: World, m: Machine, hs: seq<nat>, words: seq<int>, p: Point, i: Instr)
    requires Inv(p.m, p.hs) && Held(m, hs, words, p) && Disciplined(p.m, p.hs, i) && Step(w, p.m, i).Some?
    requires i.PushExnPtr? || i.PopExnPtr?
    ensures Held(m, hs, words, Point(Step(w, p.m, i).value, Handlers(p.m, p.hs, i)))
  {
    hide Inv, StackHeld, HandlersHeld, RegionHeld;
    RegionApart(m, p);
    StackStillHeld(m, words, p.m.stk, Step(w, p.m, i).value.stk);
    if i.PushExnPtr? {
      HandlerAdded(m, hs, p.hs, |p.m.stk|);
    } else {
      HandlerGone(m, hs, p.hs);
    }
  }

  lemma RaiseHolds(w: World, m: Machine, hs: seq<nat>, words: seq<int>, p: Point)
    requires Inv(p.m, p.hs) && Held(m, hs, words, p) && p.hs != []
    requires Step(w, p.m, Raise).Some? && |m.regions| < |Step(w, p.m, Raise).value.regions|
    ensures Held(m, hs, words, Point(Step(w, p.m, Raise).value, p.hs[..|p.hs| - 1]))
  {
    hide Inv, StackHeld, HandlersHeld, RegionHeld, Step, RegionsBelow;
    ThrowIs(w, p.m, p.hs);
    RegionsLeft(p);
    RegionAt(m, p.m.regions);
    RegionApart(m, p);
    var q := Step(w, p.m, Raise).value;
    PrefixHeld(m, p.m.regions, q.regions);
    HandlerGone(m, hs, p.hs);
    StackStillHeld(m, words, p.m.stk, q.stk);
  }

  lemma RegionsLeft(p: Point)
    requires Inv(p.m, p.hs)
    ensures var r := RegionsBelow(p.m.regions, p.m.exn);
      |r| <= |p.m.regions| && forall k :: 0 <= k < |r| ==> r[k] == p.m.regions[k] < p.m.exn
  {
    RegionsBelowKeeps(p.m.regions, p.m.exn, p.hs, |p.m.stk|);
    hide RegionsBelow, Inv;
  }

  lemma NextHolds(w: World, m: Machine, hs: seq<nat>, words: seq<int>, p: Point, q: Point)
    requires Inv(p.m, p.hs) && Held(m, hs, words, p) && Next(w, p, q) && |m.regions| < |q.m.regions|
    ensures Held(m, hs, words, q)
  {
    hide Inv, Held, Step;
    var i := w.code(p.m.pc);
    if i.Raise? {
      RaiseHolds(w, m, hs, words, p);
    } else if i.EndregionInf? || i.LetregionInf? {
      RegionHolds(w, m, hs, words, p, i);
    } else if i.PushExnPtr? || i.PopExnPtr? {
      HandlerHolds(w, m, hs, words, p, i);
    } else {
      PlainHolds(w, m, hs, words, p, i);
    }
  }

  /** A run that begins with the opening of a region, during which the region is not closed. */
  ghost predicate Scope(w: World, m: Machine, hs: seq<nat>, words: seq<int>, ps: seq<Point>) {
    && Inv(m, hs) && |words| == SIZE_RO && Disciplined(m, hs, LetregionInf(words))
    && Trace(w, ps, 0) && ps[0] == Point(Step(w, m, LetregionInf(words)).value, hs)
    && forall t :: 0 <= t < |ps| ==> |m.regions| < |ps[t].m.regions|
  }

  lemma ScopeStart(w: World, m: Machine, hs: seq<nat>, words: seq<int>)
    requires Inv(m, hs) && |words| == SIZE_RO && Disciplined(m, hs, LetregionInf(words))
    ensures var x := Step(w, m, LetregionInf(words)).value; Inv(x, hs) && Held(m, hs, words, Point(x, hs))
  {
    StepInv(w, m, hs, LetregionInf(words));
    hide Disciplined;
  }

  /** Whatever calls, regions, handlers and exceptions there are within it, the descriptor and the stack
      below it stay as they were, and so do the older regions and handlers. */
  lemma {:induction false} ScopeHolds(w: World, m: Machine, hs: seq<nat>, words: seq<int>, ps: seq<Point>, t: nat)
    requires Scope(w, m, hs, words, ps) && t < |ps|
    ensures Inv(ps[t].m, ps[t].hs) && Held(m, hs, words, ps[t])
  {
    hide Inv, Held, Disciplined, Step;
    ScopeStart(w, m, hs, words);
    if t > 0 {
      ScopeHolds(w, m, hs, words, ps, t - 1);
      RunInv(w, ps, 0, t);
      assert Next(w, ps[t - 1], ps[t]);
      NextHolds(w, m, hs, words, ps[t - 1], ps[t]);
    }
  }

  /** Closing a region gives back the stack and the regions from before it was opened. If the handlers
      are those from before as well, closing it is allowed, and the handler in force is the old one. */
  lemma RegionCloses(w: World, m: Machine, hs: seq<nat>, words: seq<int>, ps: seq<Point>)
    requires Scope(w, m, hs, words, ps)
    requires var q := ps[|ps| - 1].m; |q.regions| == |m.regions| + 1 && |q.stk| == |m.stk| + SIZE_RO
    ensures var q := ps[|ps| - 1];
      && Step(w, q.m, EndregionInf) == Some(q.m.(pc := q.m.pc + 1, stk := m.stk, regions := m.regions))
      && (|q.hs| == |hs| ==> Disciplined(q.m, q.hs, EndregionInf) && q.hs == hs && q.m.exn == m.exn)
  {
    ScopeHolds(w, m, hs, words, ps, |ps| - 1);
    var q := ps[|ps| - 1];
    Closes(w, m, hs, words, q);
  }

  lemma Closes(w: World, m: Machine, hs: seq<nat>, words: seq<int>, q: Point)
    requires Inv(m, hs) && |words| == SIZE_RO && Inv(q.m, q.hs) && Held(m, hs, words, q)
    requires |q.m.regions| == |m.regions| + 1 && |q.m.stk| == |m.stk| + SIZE_RO
    ensures Step(w, q.m, EndregionInf) == Some(q.m.(pc := q.m.pc + 1, stk := m.stk, regions := m.regions))
    ensures |q.hs| == |hs| ==> Disciplined(q.m, q.hs, EndregionInf) && q.hs == hs && q.m.exn == m.exn
  {
    assert q.m.regions == m.regions + [|m.stk|];
    assert q.m.stk == m.stk + words;
    assert q.m.stk[..|m.stk|] == m.stk && q.m.regions[..|m.regions|] == m.regions;
  }
}
