/**
 Exception handlers and regions over whole runs. A handler is four words: a return address, an
 environment, a closure, and on top the stack index of the handler before it. What the compiler
 promises is that an instruction never reaches below the innermost handler or the newest region
 except to remove it; everything else here follows for every run.
 */
module KamHandlers {
  import opened Kam
  import opened KamFrames
  import opened KamTailCalls

  /** The innermost of the handlers `hs`, which are listed outermost first. */
  function Top(hs: seq<nat>): nat {
    if hs == [] then 0 else hs[|hs| - 1]
  }

  /** `exn` heads the chain of handlers: each holds the index of the one before it, and lies above
      the frame of that one. */
  ghost predicate Chain(stk: seq<int>, exn: int, hs: seq<nat>) {
    && exn == Top(hs)
    && (forall i :: 0 <= i < |hs| ==> 3 <= hs[i] < |stk| && stk[hs[i]] == Top(hs[..i]))
    && (forall i, j :: 0 <= i < j < |hs| ==> hs[i] + 4 <= hs[j])
  }

  /** Region descriptors are ordered by address, lie below the stack top, and overlap neither each
      other nor a handler. */
  ghost predicate Ordered(regions: seq<nat>, hs: seq<nat>, sp: nat) {
    && (forall i :: 0 <= i < |regions| ==> regions[i] + SIZE_RO <= sp)
    && (forall i, j :: 0 <= i < j < |regions| ==> regions[i] + SIZE_RO <= regions[j])
    && (forall i, j :: 0 <= i < |regions| && 0 <= j < |hs| ==> regions[i] + SIZE_RO + 3 <= hs[j] || hs[j] < regions[i])
  }

  ghost predicate Inv(m: Machine, hs: seq<nat>) {
    Chain(m.stk, m.exn, hs) && Ordered(m.regions, hs, |m.stk|)
  }

  /** Nothing at or above this index belongs to a handler or a region. */
  function Floor(regions: seq<nat>, hs: seq<nat>): nat {
    var h := if hs == [] then 0 else Top(hs) + 1;
    var r := if regions == [] then 0 else regions[|regions| - 1] + SIZE_RO;
    if h < r then r else h
  }

  /** The lowest stack index an instruction changes or drops. */
  function Reach(m: Machine, i: Instr): int {
    var sp := |m.stk|;
    match i
    case PopN(n) => sp - n
    case Prim(_) => sp - 1
    case ApplyFnCall(n) => sp - n
    case ApplyFunCall(_, n) => sp - n
    case ApplyFnJmp(n, r) => sp - n - r
    case ApplyFunJmp(_, n, r) => sp - n - r
    case Return(args, res) => sp - res - args - 1
    case PushExnPtr => sp - 3
    case _ => sp
  }

  /** The compiler's discipline: handlers and regions are removed in the order they were added, and
      otherwise left alone. */
  ghost predicate Disciplined(m: Machine, hs: seq<nat>, i: Instr) {
    match i
    case EndregionInf =>
      m.regions != [] && m.regions[|m.regions| - 1] + SIZE_RO == |m.stk| && (hs == [] || Top(hs) < |m.stk| - SIZE_RO)
    case PopExnPtr => hs != [] && Top(hs) == |m.stk| - 1
    case Raise => hs != []
    case _ => Floor(m.regions, hs) <= Reach(m, i)
  }

  function Handlers(m: Machine, hs: seq<nat>, i: Instr): seq<nat>
    requires i.PopExnPtr? || i.Raise? ==> hs != []
  {
    match i
    case PushExnPtr => hs + [|m.stk|]
    case PopExnPtr => hs[..|hs| - 1]
    case Raise => hs[..|hs| - 1]
    case _ => hs
  }

  lemma {:induction false} RegionsBelowKeeps(regions: seq<nat>, a: int, hs: seq<nat>, sp: nat)
    requires Ordered(regions, hs, sp)
    ensures var r := RegionsBelow(regions, a);
      && |r| <= |regions| && r == regions[..|r|]
      && (forall i :: 0 <= i < |r| ==> regions[i] < a)
      && (forall i :: |r| <= i < |regions| ==> a <= regions[i])
  {
    if regions != [] && a <= regions[|regions| - 1] {
      RegionsBelowKeeps(regions[..|regions| - 1], a, hs, sp);
    }
  }

  /** The part of the stack that a disciplined step cannot change. */
  lemma StepKeepsBelow(w: World, m: Machine, hs: seq<nat>, i: Instr)
    requires Disciplined(m, hs, i) && Step(w, m, i).Some? && Inv(m, hs)
    requires !(i.EndregionInf? || i.PopExnPtr? || i.Raise? || i.PushExnPtr? || i.LetregionInf?)
    ensures var m' := Step(w, m, i).value; var a := Floor(m.regions, hs);
      && a <= |m'.stk| && m'.stk[..a] == m.stk[..a]
      && m'.exn == m.exn && m'.regions == m.regions
  {
    hide Throw, RegionsBelow, Inv, Call, TailCall, Leave, Top;
    FloorFits(m, hs);
    match i
    case ApplyFnCall(n) => CallKeeps(m, n, Floor(m.regions, hs));
    case ApplyFunCall(_, n) => CallKeeps(m, n, Floor(m.regions, hs));
    case ApplyFnJmp(n, r) => TailCallKeeps(m, n, r, Floor(m.regions, hs));
    case ApplyFunJmp(_, n, r) => TailCallKeeps(m, n, r, Floor(m.regions, hs));
    case Return(args, res) => LeaveKeeps(m, args, res, Floor(m.regions, hs));
    case _ =>
  }

  lemma FloorFits(m: Machine, hs: seq<nat>)
    requires Inv(m, hs)
    ensures Floor(m.regions, hs) <= |m.stk|
  {
  }

  lemma CallKeeps(m: Machine, n: nat, a: nat)
    requires Call(m, n).Some? && a <= |m.stk| - n
    ensures var m' := Call(m, n).value;
      a <= |m'.stk| && m'.stk[..a] == m.stk[..a] && m'.exn == m.exn && m'.regions == m.regions
  {
  }

  lemma TailCallKeeps(m: Machine, n: nat, r: nat, a: nat)
    requires TailCall(m, n, r).Some? && a <= |m.stk| - n - r
    ensures var m' := TailCall(m, n, r).value;
      a <= |m'.stk| && m'.stk[..a] == m.stk[..a] && m'.exn == m.exn && m'.regions == m.regions
  {
  }

  lemma LeaveKeeps(m: Machine, args: nat, res: nat, a: nat)
    requires Leave(m, args, res).Some? && a <= |m.stk| - res - args - 1
    ensures var m' := Leave(m, args, res).value;
      a <= |m'.stk| && m'.stk[..a] == m.stk[..a] && m'.exn == m.exn && m'.regions == m.regions
  {
  }

  lemma PlainStepInv(w: World, m: Machine, hs: seq<nat>, i: Instr)
    requires Disciplined(m, hs, i) && Step(w, m, i).Some? && Inv(m, hs)
    requires !(i.EndregionInf? || i.PopExnPtr? || i.Raise? || i.PushExnPtr? || i.LetregionInf?)
    ensures Inv(Step(w, m, i).value, hs)
  {
    StepKeepsBelow(w, m, hs, i);
    var m', a := Step(w, m, i).value, Floor(m.regions, hs);
    forall k | 0 <= k < |hs| ensures 3 <= hs[k] < |m'.stk| && m'.stk[hs[k]] == Top(hs[..k]) {
      assert hs[k] <= Top(hs) < a;
      assert m'.stk[..a][hs[k]] == m.stk[..a][hs[k]];
    }
    assert forall k :: 0 <= k < |m.regions| ==> m.regions[k] + SIZE_RO <= a;
  }

  lemma RegionStepInv(w: World, m: Machine, hs: seq<nat>, i: Instr)
    requires Disciplined(m, hs, i) && Step(w, m, i).Some? && Inv(m, hs)
    requires i.EndregionInf? || i.LetregionInf?
    ensures Inv(Step(w, m, i).value, hs)
  {
    hide Chain, Ordered;
    var m' := Step(w, m, i).value;
    if i.EndregionInf? {
      ChainKept(m.stk, m'.stk, m.exn, hs);
      EndOrdered(m.regions, hs, |m.stk|);
    } else {
      ChainKept(m.stk, m'.stk, m.exn, hs);
      LetOrdered(m.regions, hs, |m.stk|, m.stk, m.exn);
    }
  }

  /** The chain of handlers only needs the stack as far as the newest one. */
  lemma ChainKept(stk: seq<int>, stk': seq<int>, exn: int, hs: seq<nat>)
    requires Chain(stk, exn, hs)
    requires hs != [] ==> Top(hs) < |stk'| && forall k :: 0 <= k <= Top(hs) && k < |stk| ==> stk'[k] == stk[k]
    ensures Chain(stk', exn, hs)
  {
    forall k | 0 <= k < |hs| ensures 3 <= hs[k] < |stk'| && stk'[hs[k]] == Top(hs[..k]) {
      BelowTop(stk, exn, hs, k);
    }
  }

  lemma EndOrdered(regions: seq<nat>, hs: seq<nat>, sp: nat)
    requires Ordered(regions, hs, sp) && regions != [] && regions[|regions| - 1] + SIZE_RO == sp
    ensures Ordered(regions[..|regions| - 1], hs, sp - SIZE_RO)
  {
  }

  lemma LetOrdered(regions: seq<nat>, hs: seq<nat>, sp: nat, stk: seq<int>, exn: int)
    requires Ordered(regions, hs, sp) && Chain(stk, exn, hs) && sp == |stk|
    ensures Ordered(regions + [sp], hs, sp + SIZE_RO)
  {
  }

  lemma BelowTop(stk: seq<int>, exn: int, hs: seq<nat>, k: nat)
    requires Chain(stk, exn, hs) && k < |hs|
    ensures hs[k] <= Top(hs)
  {
  }

  lemma PushChain(stk: seq<int>, exn: int, hs: seq<nat>)
    requires Chain(stk, exn, hs) && 3 <= |stk| && (hs != [] ==> Top(hs) + 4 <= |stk|)
    ensures Chain(stk + [exn], |stk|, hs + [|stk|])
  {
    hide Chain, Top;
    var stk', hs' := stk + [exn], hs + [|stk|];
    forall k | 0 <= k < |hs'| ensures 3 <= hs'[k] < |stk'| && stk'[hs'[k]] == Top(hs'[..k]) {
      PushChainAt(stk, exn, hs, k);
    }
    forall i, j | 0 <= i < j < |hs'| ensures hs'[i] + 4 <= hs'[j] {
      PushChainGap(stk, exn, hs, i, j);
    }
    IsChain(stk', |stk|, hs');
  }

  lemma IsChain(stk: seq<int>, exn: int, hs: seq<nat>)
    requires hs != [] && exn == hs[|hs| - 1]
    requires forall k :: 0 <= k < |hs| ==> 3 <= hs[k] < |stk| && stk[hs[k]] == Top(hs[..k])
    requires forall i, j :: 0 <= i < j < |hs| ==> hs[i] + 4 <= hs[j]
    ensures Chain(stk, exn, hs)
  {
  }

  lemma PushChainAt(stk: seq<int>, exn: int, hs: seq<nat>, k: nat)
    requires Chain(stk, exn, hs) && 3 <= |stk| && k <= |hs|
    ensures var stk', hs' := stk + [exn], hs + [|stk|];
      3 <= hs'[k] < |stk'| && stk'[hs'[k]] == Top(hs'[..k])
  {
    var stk', hs' := stk + [exn], hs + [|stk|];
    if k < |hs| {
      assert hs'[k] == hs[k] && hs'[..k] == hs[..k] && stk'[hs[k]] == stk[hs[k]];
    } else {
      assert hs'[..k] == hs;
    }
  }

  lemma PushChainGap(stk: seq<int>, exn: int, hs: seq<nat>, i: nat, j: nat)
    requires Chain(stk, exn, hs) && (hs != [] ==> Top(hs) + 4 <= |stk|) && i < j <= |hs|
    ensures var hs' := hs + [|stk|]; hs'[i] + 4 <= hs'[j]
  {
    BelowTop(stk, exn, hs, i);
  }

  lemma PushOrdered(regions: seq<nat>, hs: seq<nat>, sp: nat)
    requires Ordered(regions, hs, sp) && Floor(regions, hs) + 3 <= sp
    ensures Ordered(regions, hs + [sp], sp + 1)
  {
    var hs' := hs + [sp];
    forall i, j | 0 <= i < |regions| && 0 <= j < |hs'| ensures regions[i] + SIZE_RO + 3 <= hs'[j] || hs'[j] < regions[i] {
      if j < |hs| {
        assert hs'[j] == hs[j];
      } else {
        assert regions[i] <= regions[|regions| - 1];
      }
    }
  }

  lemma PushHandlerInv(w: World, m: Machine, hs: seq<nat>)
    requires Disciplined(m, hs, PushExnPtr) && Inv(m, hs)
    ensures Inv(Step(w, m, PushExnPtr).value, hs + [|m.stk|])
  {
    hide Chain, Ordered;
    PushChain(m.stk, m.exn, hs);
    PushOrdered(m.regions, hs, |m.stk|);
  }

  /** The chain without its innermost handler, on any stack that keeps what lies below that. */
  lemma DropHandler(stk: seq<int>, exn: int, hs: seq<nat>, stk': seq<int>)
    requires Chain(stk, exn, hs) && hs != []
    requires Top(hs) - 3 <= |stk'| && stk'[..Top(hs) - 3] == stk[..Top(hs) - 3]
    ensures Chain(stk', stk[exn], hs[..|hs| - 1])
  {
    var hs' := hs[..|hs| - 1];
    forall k | 0 <= k < |hs'| ensures 3 <= hs'[k] < |stk'| && stk'[hs'[k]] == Top(hs'[..k]) {
      assert hs'[..k] == hs[..k] && hs[k] + 4 <= Top(hs);
      assert stk'[..Top(hs) - 3][hs[k]] == stk[..Top(hs) - 3][hs[k]];
    }
  }

  lemma PopTop(stk: seq<int>, exn: int, hs: seq<nat>)
    requires Chain(stk, exn, hs) && hs != []
    ensures exn == Top(hs) && 3 <= exn < |stk|
  {
  }

  lemma PopHandlerInv(w: World, m: Machine, hs: seq<nat>)
    requires Disciplined(m, hs, PopExnPtr) && Inv(m, hs)
    ensures Inv(Step(w, m, PopExnPtr).value, hs[..|hs| - 1])
  {
    hide Chain;
    PopTop(m.stk, m.exn, hs);
    DropHandler(m.stk, m.exn, hs, m.stk[..|m.stk| - 1]);
  }

  lemma RaiseInv(w: World, m: Machine, hs: seq<nat>)
    requires hs != [] && Inv(m, hs)
    ensures Step(w, m, Raise).Some? && Inv(Step(w, m, Raise).value, hs[..|hs| - 1])
  {
    hide Chain, RegionsBelow;
    PopTop(m.stk, m.exn, hs);
    var m' := Step(w, m, Raise).value;
    assert m'.stk[..m.exn - 3] == m.stk[..m.exn - 3];
    DropHandler(m.stk, m.exn, hs, m'.stk);
    RegionsBelowKeeps(m.regions, m.exn, hs, |m.stk|);
  }

  /** Every disciplined step keeps the chain and the regions in order. */
  lemma StepInv(w: World, m: Machine, hs: seq<nat>, i: Instr)
    requires Disciplined(m, hs, i) && Step(w, m, i).Some? && Inv(m, hs)
    ensures Inv(Step(w, m, i).value, Handlers(m, hs, i))
  {
    if i.PushExnPtr? {
      PushHandlerInv(w, m, hs);
    } else if i.PopExnPtr? {
      PopHandlerInv(w, m, hs);
    } else if i.Raise? {
      RaiseInv(w, m, hs);
    } else if i.EndregionInf? || i.LetregionInf? {
      RegionStepInv(w, m, hs, i);
    } else {
      PlainStepInv(w, m, hs, i);
    }
  }

  /** A machine with its handlers. */
  datatype Point = Point(m: Machine, hs: seq<nat>)

  /** One disciplined step of the code. */
  ghost predicate Next(w: World, p: Point, q: Point) {
    var i := w.code(p.m.pc);
    Disciplined(p.m, p.hs, i) && Step(w, p.m, i) == Some(q.m) && q.hs == Handlers(p.m, p.hs, i)
  }

  /** A run of disciplined steps, during which there are always at least `d` handlers. */
  ghost predicate Trace(w: World, ps: seq<Point>, d: nat) {
    && ps != []
    && (forall t :: 0 <= t < |ps| ==> d <= |ps[t].hs|)
    && (forall t :: 0 < t < |ps| ==> Next(w, ps[t - 1], ps[t]))
  }

  /** The chain and the regions are in order at every point of every run. */
  lemma {:induction false} RunInv(w: World, ps: seq<Point>, d: nat, t: nat)
    requires Trace(w, ps, d) && Inv(ps[0].m, ps[0].hs) && t < |ps|
    ensures Inv(ps[t].m, ps[t].hs)
  {
    if t > 0 {
      RunInv(w, ps, d, t - 1);
      NextInv(w, ps[t - 1], ps[t]);
    }
  }

  lemma NextInv(w: World, p: Point, q: Point)
    requires Inv(p.m, p.hs) && Next(w, p, q)
    ensures Inv(q.m, q.hs)
  {
    StepInv(w, p.m, p.hs, w.code(p.m.pc));
  }

  /** Two machines agree on the stack up to index `h` and on the regions below it. */
  ghost predicate SameUpTo(m: Machine, m': Machine, h: nat) {
    && h < |m.stk| && h < |m'.stk| && m'.stk[..h + 1] == m.stk[..h + 1]
    && RegionsBelow(m'.regions, h) == RegionsBelow(m.regions, h)
  }

  lemma {:induction false} BelowTwice(regions: seq<nat>, a: int, b: int)
    requires a <= b && forall i, j :: 0 <= i < j < |regions| ==> regions[i] <= regions[j]
    ensures RegionsBelow(RegionsBelow(regions, b), a) == RegionsBelow(regions, a)
  {
    if regions != [] && b <= regions[|regions| - 1] {
      BelowTwice(regions[..|regions| - 1], a, b);
    }
  }

  lemma PlainStepProtects(w: World, m: Machine, hs: seq<nat>, i: Instr, h: nat)
    requires Inv(m, hs) && Disciplined(m, hs, i) && Step(w, m, i).Some? && hs != [] && h <= Top(hs)
    requires !(i.EndregionInf? || i.PopExnPtr? || i.Raise? || i.PushExnPtr? || i.LetregionInf?)
    ensures SameUpTo(m, Step(w, m, i).value, h)
  {
    StepKeepsBelow(w, m, hs, i);
    var m', a := Step(w, m, i).value, Floor(m.regions, hs);
    assert m'.stk[..h + 1] == m'.stk[..a][..h + 1] == m.stk[..a][..h + 1] == m.stk[..h + 1];
  }

  lemma RegionStepProtects(w: World, m: Machine, hs: seq<nat>, i: Instr, h: nat)
    requires Inv(m, hs) && Disciplined(m, hs, i) && Step(w, m, i).Some? && hs != [] && h <= Top(hs)
    requires i.EndregionInf? || i.LetregionInf?
    ensures SameUpTo(m, Step(w, m, i).value, h)
  {
    if i.LetregionInf? {
      assert (m.regions + [|m.stk|])[..|m.regions|] == m.regions;
    }
  }

  lemma RaiseProtects(w: World, m: Machine, hs: seq<nat>, h: nat)
    requires Inv(m, hs) && hs != [] && h + 4 <= Top(hs)
    ensures Step(w, m, Raise).Some? && SameUpTo(m, Step(w, m, Raise).value, h)
  {
    BelowTwice(m.regions, h, m.exn);
    ThrowIs(w, m, hs);
    hide Inv, Step, Throw, RegionsBelow;
    var m' := Step(w, m, Raise).value;
    assert m'.stk[..h + 1] == m.stk[..m.exn - 1][..h + 1] == m.stk[..h + 1];
  }

  lemma ThrowIs(w: World, m: Machine, hs: seq<nat>)
    requires Inv(m, hs) && hs != []
    ensures var x := Step(w, m, Raise);
      && x.Some? && m.exn == Top(hs) && m.exn < |m.stk| && x.value.regions == RegionsBelow(m.regions, m.exn)
      && x.value.stk == m.stk[..m.exn - 1] + [m.acc]
  {
    hide RegionsBelow;
  }

  lemma StepProtects(w: World, m: Machine, hs: seq<nat>, i: Instr, h: nat)
    requires Inv(m, hs) && Disciplined(m, hs, i) && Step(w, m, i).Some?
    requires hs != [] && h <= Top(hs) && (i.PopExnPtr? || i.Raise? ==> h + 4 <= Top(hs))
    ensures SameUpTo(m, Step(w, m, i).value, h)
  {
    if i.Raise? {
      RaiseProtects(w, m, hs, h);
    } else if i.EndregionInf? || i.LetregionInf? {
      RegionStepProtects(w, m, hs, i, h);
    } else if i.PushExnPtr? || i.PopExnPtr? {
    } else {
      PlainStepProtects(w, m, hs, i, h);
    }
  }

  lemma OuterHandlers(m: Machine, hs: seq<nat>, i: Instr, d: nat)
    requires Inv(m, hs) && (i.PopExnPtr? || i.Raise? ==> hs != [])
    requires 0 < d <= |hs| && d <= |Handlers(m, hs, i)|
    ensures Handlers(m, hs, i)[..d] == hs[..d]
    ensures hs[d - 1] <= Top(hs) && (i.PopExnPtr? || i.Raise? ==> hs[d - 1] + 4 <= Top(hs))
  {
  }

  /** The `d` outermost handlers are the same ones, and all that lies below them is as it was. */
  ghost predicate Kept(p: Point, q: Point, d: nat)
    requires 0 < d
  {
    d <= |p.hs| && d <= |q.hs| && q.hs[..d] == p.hs[..d] && SameUpTo(p.m, q.m, p.hs[d - 1])
  }

  lemma NextKeeps(w: World, p: Point, q: Point, d: nat)
    requires Inv(p.m, p.hs) && Next(w, p, q) && 0 < d <= |p.hs| && d <= |q.hs|
    ensures Kept(p, q, d)
  {
    var i := w.code(p.m.pc);
    OuterHandlers(p.m, p.hs, i, d);
    StepProtects(w, p.m, p.hs, i, p.hs[d - 1]);
  }

  lemma KeptOnward(p: Point, q: Point, r: Point, d: nat)
    requires 0 < d && Kept(p, q, d) && Kept(q, r, d)
    ensures Kept(p, r, d)
  {
    assert q.hs[d - 1] == q.hs[..d][d - 1] == p.hs[..d][d - 1] == p.hs[d - 1];
  }

  /** Whatever happens above them, the `d` outermost handlers and all that lies below stay as they
      were for as long as they are there. */
  lemma {:induction false} RunKeeps(w: World, ps: seq<Point>, d: nat, t: nat)
    requires Trace(w, ps, d) && Inv(ps[0].m, ps[0].hs) && 0 < d && t < |ps|
    ensures Kept(ps[0], ps[t], d)
  {
    if t == 0 {
      assert |ps[0].hs| >= d && ps[0].hs[d - 1] < |ps[0].m.stk|;
    } else {
      RunKeeps(w, ps, d, t - 1);
      RunInv(w, ps, d, t - 1);
      NextKeeps(w, ps[t - 1], ps[t], d);
      KeptOnward(ps[0], ps[t - 1], ps[t], d);
    }
  }

  /** A run that begins with the installation of a handler in `m` and ends with that handler the
      innermost one again. */
  ghost predicate Protected(w: World, m: Machine, hs: seq<nat>, ps: seq<Point>) {
    && Inv(m, hs) && Disciplined(m, hs, PushExnPtr)
    && Trace(w, ps, |hs| + 1)
    && ps[0] == Point(Step(w, m, PushExnPtr).value, hs + [|m.stk|])
    && |ps[|ps| - 1].hs| == |hs| + 1
  }

  lemma ProtectedStart(w: World, m: Machine, hs: seq<nat>, ps: seq<Point>)
    requires Protected(w, m, hs, ps)
    ensures ps != [] && Trace(w, ps, |hs| + 1) && Inv(ps[0].m, ps[0].hs) && |ps[|ps| - 1].hs| == |hs| + 1
    ensures ps[0].hs == hs + [|m.stk|] && ps[0].m.stk == m.stk + [m.exn] && ps[0].m.regions == m.regions
    ensures m.regions == [] || m.regions[|m.regions| - 1] < |m.stk|
  {
    PushHandlerInv(w, m, hs);
    hide Inv, Next;
  }

  lemma InvTop(m: Machine, hs: seq<nat>)
    requires Inv(m, hs)
    ensures m.exn == Top(hs)
  {
  }

  /** Only the stack and the regions of the first machine matter. */
  lemma SameRest(m: Machine, p: Machine, q: Machine, h: nat)
    requires SameUpTo(p, q, h) && p.stk == m.stk && p.regions == m.regions
    ensures SameUpTo(m, q, h)
  {
  }

  lemma ProtectedEnd(w: World, m: Machine, hs: seq<nat>, ps: seq<Point>)
    requires Protected(w, m, hs, ps)
    ensures var q := ps[|ps| - 1];
      && Inv(q.m, q.hs) && q.hs == hs + [|m.stk|] && q.m.exn == |m.stk|
      && SameUpTo(m.(stk := m.stk + [m.exn]), q.m, |m.stk|)
      && (m.regions == [] || m.regions[|m.regions| - 1] < |m.stk|)
  {
    hide Inv, Trace, Disciplined, SameUpTo, Protected;
    ProtectedStart(w, m, hs, ps);
    RunInv(w, ps, |hs| + 1, |ps| - 1);
    RunKeeps(w, ps, |hs| + 1, |ps| - 1);
    var q := ps[|ps| - 1];
    assert q.hs == q.hs[..|hs| + 1] == ps[0].hs[..|hs| + 1] == ps[0].hs;
    InvTop(q.m, q.hs);
    SameRest(m.(stk := m.stk + [m.exn]), ps[0].m, q.m, |m.stk|);
  }

  /** Raising, at any later point at which the handler is the innermost one, gives back the machine
      in which it was installed, but for the exception in place of the closure on top of the stack,
      and control in the closure. */
  lemma RaiseRestores(w: World, m: Machine, hs: seq<nat>, ps: seq<Point>)
    requires Protected(w, m, hs, ps)
    ensures var m1 := ps[|ps| - 1].m; var clos := m.stk[|m.stk| - 1];
      Throw(w, m1) == Some(m.(pc := w.mem(clos), env := clos, acc := m1.acc, stk := m.stk[..|m.stk| - 1] + [m1.acc]))
  {
    ProtectedEnd(w, m, hs, ps);
    ThrowsTo(w, m, ps[|ps| - 1].m, |m.stk|);
  }

  lemma ThrowsTo(w: World, m: Machine, m1: Machine, h: nat)
    requires 0 < h == |m.stk| && m1.exn == h && SameUpTo(m.(stk := m.stk + [m.exn]), m1, h)
    requires m.regions == [] || m.regions[|m.regions| - 1] < h
    ensures var clos := m.stk[h - 1];
      Throw(w, m1) == Some(m.(pc := w.mem(clos), env := clos, acc := m1.acc, stk := m.stk[..h - 1] + [m1.acc]))
  {
    assert m1.stk[..h + 1] == m.stk + [m.exn];
    assert m1.stk[h] == (m.stk + [m.exn])[h] && m1.stk[h - 1] == (m.stk + [m.exn])[h - 1];
    assert m1.stk[..h - 1] == m1.stk[..h + 1][..h - 1] == m.stk[..h - 1];
  }

  // The code of a handle expression

  /** The four instructions that install a handler whose closure is in `acc`: push the label to
      continue at, the environment, the closure, the chain. */
  ghost predicate Installs(w: World, pc: int, lbl: int) {
    w.code(pc) == PushLbl(lbl) && w.code(pc + 1) == EnvPush && w.code(pc + 2) == Push && w.code(pc + 3) == PushExnPtr
  }

  /** The machine after the first three of them. */
  function Prepared(m: Machine, lbl: int): Machine {
    m.(pc := m.pc + 3, stk := m.stk + [lbl, m.env, m.acc])
  }

  lemma InstallsPrepared(w: World, m: Machine, lbl: int)
    requires Installs(w, m.pc, lbl)
    ensures Run(w, m, 3) == Some(Prepared(m, lbl)) && w.code(Prepared(m, lbl).pc) == PushExnPtr
  {
    var m1 := m.(pc := m.pc + 1, stk := m.stk + [lbl]);
    var m2 := m.(pc := m.pc + 2, stk := m1.stk + [m.env]);
    assert m2.stk + [m.acc] == Prepared(m, lbl).stk;
    assert Step(w, m, PushLbl(lbl)) == Some(m1) && Step(w, m1, EnvPush) == Some(m2);
    assert Step(w, m2, Push) == Some(Prepared(m, lbl));
    hide Step;
    StepThenRun(w, m, m1, 2);
    StepThenRun(w, m1, m2, 1);
    RunOne(w, m2);
  }

  /** From an orderly machine the code of a handle expression gets to where its handler may be installed. */
  lemma HandleBegins(w: World, m: Machine, hs: seq<nat>, lbl: int)
    requires Installs(w, m.pc, lbl) && Inv(m, hs) && Floor(m.regions, hs) <= |m.stk|
    ensures Run(w, m, 3) == Some(Prepared(m, lbl)) && w.code(Prepared(m, lbl).pc) == PushExnPtr
    ensures Inv(Prepared(m, lbl), hs) && Disciplined(Prepared(m, lbl), hs, PushExnPtr)
  {
    InstallsPrepared(w, m, lbl);
  }

  /** The protected expression raises: the handler runs on the exception and returns to the label, and
      stack, environment, handlers and regions are those in which the expression was begun. The handler
      may do anything within its frame. */
  lemma HandleByRaise(w: World, m: Machine, hs: seq<nat>, lbl: int, ps: seq<Point>, j: nat, acc: int)
    requires Protected(w, Prepared(m, lbl), hs, ps) && w.code(ps[|ps| - 1].m.pc) == Raise
    requires Finishes(w, Entered(w.mem(m.acc), m.acc, [ps[|ps| - 1].m.acc]), j, 1, acc, [])
    ensures var m1 := ps[|ps| - 1].m;
      Throw(w, m1).Some? && Run(w, Throw(w, m1).value, j + 1) == Some(Machine(lbl, m.env, acc, m.stk, m.exn, m.regions))
  {
    var p, m1 := Prepared(m, lbl), ps[|ps| - 1].m;
    PreparedRegions(w, m, hs, lbl, ps);
    RaiseRestores(w, p, hs, ps);
    hide Protected, Finishes, Run, Throw, Place;
    var f := Entered(w.mem(m.acc), m.acc, [m1.acc]);
    assert p.stk[..|p.stk| - 1] + [m1.acc] == (m.stk + [lbl, m.env]) + [m1.acc];
    EnteredPlace(w.mem(m.acc), m.acc, [m1.acc], m.stk + [lbl, m.env], m.exn, m.regions);
    CalleeReturns(w, m.stk, lbl, m.env, m.exn, m.regions, f, j, 1, acc, []);
    assert m.stk + [] == m.stk;
  }

  lemma PreparedRegions(w: World, m: Machine, hs: seq<nat>, lbl: int, ps: seq<Point>)
    requires Protected(w, Prepared(m, lbl), hs, ps)
    ensures Under(m.regions, |m.stk|)
  {
    hide Trace;
    forall i | 0 <= i < |m.regions| ensures m.regions[i] < |m.stk| {
      assert m.regions[i] <= m.regions[|m.regions| - 1];
    }
  }

  /** The protected expression ends normally: removing the handler and its three other words leaves
      stack, handlers and regions as they were. */
  lemma HandleNormally(w: World, m: Machine, hs: seq<nat>, lbl: int, ps: seq<Point>)
    requires Protected(w, Prepared(m, lbl), hs, ps) && |ps[|ps| - 1].m.stk| == |m.stk| + 4
    ensures var m1 := ps[|ps| - 1].m; var m2 := Step(w, m1, PopExnPtr);
      && m2.Some?
      && Step(w, m2.value, PopN(3)) == Some(m1.(pc := m1.pc + 2, stk := m.stk, exn := m.exn, regions := m.regions))
  {
    hide Inv, Disciplined, Step, SameUpTo;
    var p, q := Prepared(m, lbl), ps[|ps| - 1];
    ProtectedEnd(w, p, hs, ps);
    PopsTo(w, p, q.m, |p.stk|, q.hs);
    PopsThree(w, q.m.(pc := q.m.pc + 1, stk := p.stk, exn := p.exn), m.stk, lbl, m.env, m.acc);
  }

  lemma PopsThree(w: World, m: Machine, s: seq<int>, a: int, b: int, c: int)
    requires m.stk == s + [a, b, c]
    ensures Step(w, m, PopN(3)) == Some(m.(pc := m.pc + 1, stk := s))
  {
    assert m.stk[..|m.stk| - 3] == s;
  }

  lemma PopsTo(w: World, p: Machine, m1: Machine, h: nat, hs1: seq<nat>)
    requires 3 <= h == |p.stk| && |m1.stk| == h + 1 && SameUpTo(p.(stk := p.stk + [p.exn]), m1, h)
    requires p.regions == [] || p.regions[|p.regions| - 1] < h
    requires Inv(m1, hs1) && hs1 != [] && Top(hs1) == h
    ensures Step(w, m1, PopExnPtr) == Some(m1.(pc := m1.pc + 1, stk := p.stk, exn := p.exn)) && m1.regions == p.regions
  {
    assert m1.stk == m1.stk[..h + 1] == p.stk + [p.exn];
    assert m1.stk[..h] == p.stk;
    assert m1.regions != [] ==> m1.regions[|m1.regions| - 1] + SIZE_RO <= h + 1;
  }
}
