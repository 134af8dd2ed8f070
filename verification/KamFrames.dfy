/**
 What an activation does within its own frame, wherever on the stack that frame lies. In a frame, words
 that are stack addresses are marked as such: an address inside the frame is counted from the base of
 the frame, and the handler that was current on entry is just that. An activation may pass addresses
 around and use them as handlers and regions, but it does not compute with them and does not reach below
 its frame.
 */
module KamFrames {
  import opened Kam

  datatype Word = Num(v: int) | Addr(a: nat) | Outer

  datatype Frame = Frame(pc: int, env: int, acc: Word, stk: seq<Word>, exn: Word, regions: seq<nat>)

  function Nums(ws: seq<int>): (r: seq<Word>)
    ensures |r| == |ws|
  {
    seq(|ws|, i requires 0 <= i < |ws| => Num(ws[i]))
  }

  // Where a frame lies

  /** The word on a stack on which the frame begins at `b`, entered with the handler `exn`. */
  function At(w: Word, b: nat, exn: int): int {
    match w
    case Num(v) => v
    case Addr(a) => b + a
    case Outer => exn
  }

  function Words(ws: seq<Word>, b: nat, exn: int): (r: seq<int>)
    ensures |r| == |ws|
  {
    seq(|ws|, i requires 0 <= i < |ws| => At(ws[i], b, exn))
  }

  function Shifted(regions: seq<nat>, b: nat): (r: seq<nat>)
    ensures |r| == |regions|
  {
    seq(|regions|, i requires 0 <= i < |regions| => b + regions[i])
  }

  /** The machine that runs the frame on top of `base`, with the handler and the regions below it. */
  function Place(f: Frame, base: seq<int>, exn: int, regions: seq<nat>): Machine {
    var b := |base|;
    Machine(f.pc, f.env, At(f.acc, b, exn), base + Words(f.stk, b, exn), At(f.exn, b, exn), regions + Shifted(f.regions, b))
  }

  /** The regions below a frame that begins at `b`. */
  ghost predicate Under(regions: seq<nat>, b: nat) {
    forall i :: 0 <= i < |regions| ==> regions[i] < b
  }

  // Steps within a frame

  function CallIn(f: Frame, n: nat): (r: Option<Frame>) {
    var sp := |f.stk|;
    if n == 0 || sp < n || !f.stk[sp - n].Num? then None
    else Some(f.(env := f.stk[sp - n].v, stk := f.stk[sp - n := Num(f.env)] + [f.acc]))
  }

  function TailCallIn(f: Frame, n: nat, r: nat): (x: Option<Frame>) {
    var sp := |f.stk|;
    if n == 0 || sp < n + r || !f.stk[sp - n].Num? then None
    else Some(f.(env := f.stk[sp - n].v, stk := f.stk[..sp - n - r] + f.stk[sp - n + 1..] + [f.acc]))
  }

  /** A return within the frame, of an activation begun in it. */
  function LeaveIn(f: Frame, args: nat, res: nat): (r: Option<Frame>) {
    var sp := |f.stk|;
    if res == 0 || sp < res + args + 1 || !f.stk[sp - res - args - 1].Num? || !f.stk[sp - res - args].Num? then None
    else Some(f.(pc := f.stk[sp - res - args - 1].v, env := f.stk[sp - res - args].v,
                 stk := f.stk[..sp - res - args - 1] + f.stk[sp - res + 1..]))
  }

  /** An exception that a handler of the frame takes. */
  function ThrowIn(w: World, f: Frame): (r: Option<Frame>) {
    if !f.exn.Addr? || !(1 <= f.exn.a < |f.stk|) then None
    else
      var h := f.exn.a;
      if !f.stk[h - 1].Num? || f.stk[h].Num? then None
      else
        var clos := f.stk[h - 1].v;
        Some(Frame(w.mem(clos), clos, f.acc, f.stk[..h - 1] + [f.acc], f.stk[h], RegionsBelow(f.regions, h)))
  }

  function StepIn(w: World, f: Frame, i: Instr): (r: Option<Frame>) {
    var sp := |f.stk|;
    var f1 := f.(pc := f.pc + 1);
    match i
    case Immed(v) => Some(f1.(acc := Num(v)))
    case Push => Some(f1.(stk := f.stk + [f.acc]))
    case PushLbl(l) => Some(f1.(stk := f.stk + [Num(l)]))
    case EnvPush => Some(f1.(stk := f.stk + [Num(f.env)]))
    case SelectStack(k) => if 1 <= k <= sp then Some(f1.(acc := f.stk[sp - k])) else None
    case StackAddr(k) => if k <= sp then Some(f1.(acc := Addr(sp - k))) else None
    case SelectEnv(k) => Some(f1.(acc := Num(w.mem(f.env + k))))
    case PopN(n) => if n <= sp then Some(f1.(stk := f.stk[..sp - n])) else None
    case Prim(op) =>
      if 1 <= sp && f.stk[sp - 1].Num? && f.acc.Num?
      then Some(f1.(acc := Num(op(f.stk[sp - 1].v, f.acc.v)), stk := f.stk[..sp - 1])) else None
    case BranchIf(test, target) =>
      if !f.acc.Num? then None else Some(if test(f.acc.v) then f.(pc := target) else f1)
    case ApplyFnCall(n) =>
      var c := CallIn(f, n);
      if c.None? then None else Some(c.value.(pc := w.mem(c.value.env)))
    case ApplyFunCall(target, n) =>
      var c := CallIn(f, n);
      if c.None? then None else Some(c.value.(pc := target))
    case ApplyFnJmp(n, r) =>
      var c := TailCallIn(f, n, r);
      if c.None? then None else Some(c.value.(pc := w.mem(c.value.env)))
    case ApplyFunJmp(target, n, r) =>
      var c := TailCallIn(f, n, r);
      if c.None? then None else Some(c.value.(pc := target))
    case Return(args, res) => LeaveIn(f, args, res)
    case LetregionFin(words) => Some(f1.(stk := f.stk + Nums(words)))
    case LetregionInf(words) =>
      if |words| != SIZE_RO then None
      else Some(f1.(acc := Addr(sp), stk := f.stk + Nums(words), regions := f.regions + [sp]))
    case EndregionInf =>
      if f.regions == [] || sp < SIZE_RO then None
      else Some(f1.(stk := f.stk[..sp - SIZE_RO], regions := f.regions[..|f.regions| - 1]))
    case PushExnPtr => Some(f1.(stk := f.stk + [f.exn], exn := Addr(sp)))
    case PopExnPtr =>
      if sp == 0 || f.stk[sp - 1].Num? then None else Some(f1.(stk := f.stk[..sp - 1], exn := f.stk[sp - 1]))
    case Raise => ThrowIn(w, f)
  }

  function RunIn(w: World, f: Frame, k: nat): (r: Option<Frame>)
    decreases k
  {
    if k == 0 then Some(f)
    else
      var x := StepIn(w, f, w.code(f.pc));
      if x.None? then None else RunIn(w, x.value, k - 1)
  }

  /** Any `k` steps of the machine. */
  function Run(w: World, m: Machine, k: nat): (r: Option<Machine>)
    decreases k
  {
    if k == 0 then Some(m)
    else
      var x := Step(w, m, w.code(m.pc));
      if x.None? then None else Run(w, x.value, k - 1)
  }

  // A step within a frame is the same step wherever the frame lies

  lemma WordsJoin(a: seq<Word>, c: seq<Word>, base: seq<int>, b: nat, exn: int)
    ensures base + Words(a + c, b, exn) == base + Words(a, b, exn) + Words(c, b, exn)
  {
  }

  lemma WordsCut(ws: seq<Word>, base: seq<int>, n: nat, b: nat, exn: int)
    requires n <= |ws|
    ensures (base + Words(ws, b, exn))[..|base| + n] == base + Words(ws[..n], b, exn)
    ensures (base + Words(ws, b, exn))[|base| + n..] == Words(ws[n..], b, exn)
  {
  }

  lemma WordAt(ws: seq<Word>, base: seq<int>, i: nat, b: nat, exn: int)
    requires i < |ws|
    ensures (base + Words(ws, b, exn))[|base| + i] == At(ws[i], b, exn)
  {
  }

  lemma WordsOne(w: Word, b: nat, exn: int)
    ensures Words([w], b, exn) == [At(w, b, exn)]
  {
  }

  lemma WordsNums(ws: seq<int>, b: nat, exn: int)
    ensures Words(Nums(ws), b, exn) == ws
  {
  }

  lemma WordsSet(ws: seq<Word>, base: seq<int>, i: nat, x: Word, b: nat, exn: int)
    requires i < |ws|
    ensures (base + Words(ws, b, exn))[|base| + i := At(x, b, exn)] == base + Words(ws[i := x], b, exn)
  {
  }

  /** Pushing a word. */
  lemma Pushed(f: Frame, x: Word, base: seq<int>, exn: int, regions: seq<nat>)
    ensures Place(f, base, exn, regions).stk + [At(x, |base|, exn)] == base + Words(f.stk + [x], |base|, exn)
  {
    hide Words, At;
    WordsJoin(f.stk, [x], base, |base|, exn);
    WordsOne(x, |base|, exn);
  }

  lemma PushedNums(f: Frame, ws: seq<int>, base: seq<int>, exn: int, regions: seq<nat>)
    ensures Place(f, base, exn, regions).stk + ws == base + Words(f.stk + Nums(ws), |base|, exn)
  {
    hide Words, At, Nums;
    WordsJoin(f.stk, Nums(ws), base, |base|, exn);
    WordsNums(ws, |base|, exn);
  }

  lemma CallPlaces(f: Frame, n: nat, base: seq<int>, exn: int, regions: seq<nat>)
    requires CallIn(f, n).Some?
    ensures Call(Place(f, base, exn, regions), n) == Some(Place(CallIn(f, n).value, base, exn, regions))
  {
    hide Words, Shifted;
    var i, b, g := |f.stk| - n, |base|, f.stk[|f.stk| - n := Num(f.env)];
    WordAt(f.stk, base, i, b, exn);
    WordsSet(f.stk, base, i, Num(f.env), b, exn);
    Pushed(f.(stk := g), f.acc, base, exn, regions);
  }

  lemma TailCallPlaces(f: Frame, n: nat, r: nat, base: seq<int>, exn: int, regions: seq<nat>)
    requires TailCallIn(f, n, r).Some?
    ensures TailCall(Place(f, base, exn, regions), n, r) == Some(Place(TailCallIn(f, n, r).value, base, exn, regions))
  {
    hide Words, Shifted;
    var sp, b := |f.stk|, |base|;
    var front, args := f.stk[..sp - n - r], f.stk[sp - n + 1..];
    WordAt(f.stk, base, sp - n, b, exn);
    WordsCut(f.stk, base, sp - n - r, b, exn);
    WordsCut(f.stk, base, sp - n + 1, b, exn);
    WordsJoin(front, args, base, b, exn);
    Pushed(f.(stk := front + args), f.acc, base, exn, regions);
  }

  lemma LeavePlaces(f: Frame, args: nat, res: nat, base: seq<int>, exn: int, regions: seq<nat>)
    requires LeaveIn(f, args, res).Some?
    ensures Leave(Place(f, base, exn, regions), args, res) == Some(Place(LeaveIn(f, args, res).value, base, exn, regions))
  {
    hide Words, Shifted;
    var sp, b := |f.stk|, |base|;
    var i := sp - res - args - 1;
    WordAt(f.stk, base, i, b, exn);
    WordAt(f.stk, base, i + 1, b, exn);
    WordsCut(f.stk, base, i, b, exn);
    WordsCut(f.stk, base, sp - res + 1, b, exn);
    WordsJoin(f.stk[..i], f.stk[sp - res + 1..], base, b, exn);
  }

  /** Of regions below a frame and regions of the frame, an address of the frame keeps all of the former. */
  lemma {:induction false} BelowPlaces(regions: seq<nat>, own: seq<nat>, a: nat, b: nat)
    requires Under(regions, b)
    ensures RegionsBelow(regions + Shifted(own, b), b + a) == regions + Shifted(RegionsBelow(own, a), b)
    decreases |own|
  {
    var all := regions + Shifted(own, b);
    if own == [] {
      assert all == regions;
    } else {
      var n := |own| - 1;
      assert all[|all| - 1] == b + own[n];
      assert all[..|all| - 1] == regions + Shifted(own[..n], b);
      BelowPlaces(regions, own[..n], a, b);
    }
  }

  lemma ThrowPlaces(w: World, f: Frame, base: seq<int>, exn: int, regions: seq<nat>)
    requires Under(regions, |base|) && ThrowIn(w, f).Some?
    ensures Throw(w, Place(f, base, exn, regions)) == Some(Place(ThrowIn(w, f).value, base, exn, regions))
  {
    hide Words, Shifted, RegionsBelow;
    var h, b := f.exn.a, |base|;
    WordAt(f.stk, base, h - 1, b, exn);
    WordAt(f.stk, base, h, b, exn);
    WordsCut(f.stk, base, h - 1, b, exn);
    Pushed(f.(stk := f.stk[..h - 1]), f.acc, base, exn, regions);
    BelowPlaces(regions, f.regions, h, b);
  }

  lemma RegionPlaces(regions: seq<nat>, own: seq<nat>, sp: nat, b: nat)
    ensures regions + Shifted(own, b) + [b + sp] == regions + Shifted(own + [sp], b)
    ensures own != [] ==> (regions + Shifted(own, b))[..|regions| + |own| - 1] == regions + Shifted(own[..|own| - 1], b)
  {
  }

  predicate Control(i: Instr) {
    i.ApplyFnCall? || i.ApplyFunCall? || i.ApplyFnJmp? || i.ApplyFunJmp? || i.Return? || i.Raise?
  }

  predicate Dynamic(i: Instr) {
    i.LetregionFin? || i.LetregionInf? || i.EndregionInf? || i.PushExnPtr? || i.PopExnPtr?
  }

  lemma ControlPlaces(w: World, f: Frame, i: Instr, base: seq<int>, exn: int, regions: seq<nat>)
    requires Under(regions, |base|) && Control(i) && StepIn(w, f, i).Some?
    ensures Step(w, Place(f, base, exn, regions), i) == Some(Place(StepIn(w, f, i).value, base, exn, regions))
  {
    hide CallIn, TailCallIn, LeaveIn, ThrowIn, Call, TailCall, Leave, Throw, Words, Shifted, At;
    match i
    case ApplyFnCall(n) => CallPlaces(f, n, base, exn, regions);
    case ApplyFunCall(_, n) => CallPlaces(f, n, base, exn, regions);
    case ApplyFnJmp(n, r) => TailCallPlaces(f, n, r, base, exn, regions);
    case ApplyFunJmp(_, n, r) => TailCallPlaces(f, n, r, base, exn, regions);
    case Return(args, res) => LeavePlaces(f, args, res, base, exn, regions);
    case Raise => ThrowPlaces(w, f, base, exn, regions);
  }

  lemma DynamicPlaces(w: World, f: Frame, i: Instr, base: seq<int>, exn: int, regions: seq<nat>)
    requires Dynamic(i) && StepIn(w, f, i).Some?
    ensures Step(w, Place(f, base, exn, regions), i) == Some(Place(StepIn(w, f, i).value, base, exn, regions))
  {
    hide Words, Shifted, Nums;
    var sp, b := |f.stk|, |base|;
    RegionPlaces(regions, f.regions, sp, b);
    match i
    case LetregionFin(words) => PushedNums(f, words, base, exn, regions);
    case LetregionInf(words) => PushedNums(f, words, base, exn, regions);
    case EndregionInf => WordsCut(f.stk, base, sp - SIZE_RO, b, exn);
    case PushExnPtr => Pushed(f, f.exn, base, exn, regions);
    case PopExnPtr =>
      WordAt(f.stk, base, sp - 1, b, exn);
      WordsCut(f.stk, base, sp - 1, b, exn);
  }

  lemma PlainPlaces(w: World, f: Frame, i: Instr, base: seq<int>, exn: int, regions: seq<nat>)
    requires !Control(i) && !Dynamic(i) && StepIn(w, f, i).Some?
    ensures Step(w, Place(f, base, exn, regions), i) == Some(Place(StepIn(w, f, i).value, base, exn, regions))
  {
    hide Words, Shifted;
    var sp, b := |f.stk|, |base|;
    match i
    case Push => Pushed(f, f.acc, base, exn, regions);
    case PushLbl(l) => Pushed(f, Num(l), base, exn, regions);
    case EnvPush => Pushed(f, Num(f.env), base, exn, regions);
    case SelectStack(k) => WordAt(f.stk, base, sp - k, b, exn);
    case PopN(n) => WordsCut(f.stk, base, sp - n, b, exn);
    case Prim(op) =>
      WordAt(f.stk, base, sp - 1, b, exn);
      WordsCut(f.stk, base, sp - 1, b, exn);
    case _ =>
  }

  /** A step that an activation makes in its frame is the step of the machine, wherever the frame lies. */
  lemma StepPlaces(w: World, f: Frame, i: Instr, base: seq<int>, exn: int, regions: seq<nat>)
    requires Under(regions, |base|) && StepIn(w, f, i).Some?
    ensures Step(w, Place(f, base, exn, regions), i) == Some(Place(StepIn(w, f, i).value, base, exn, regions))
  {
    hide StepIn, Step, Place;
    if Control(i) {
      ControlPlaces(w, f, i, base, exn, regions);
    } else if Dynamic(i) {
      DynamicPlaces(w, f, i, base, exn, regions);
    } else {
      PlainPlaces(w, f, i, base, exn, regions);
    }
  }

  /** So is a whole run: regions opened and closed, handlers installed, exceptions raised and taken. */
  lemma {:induction false} RunPlaces(w: World, f: Frame, k: nat, base: seq<int>, exn: int, regions: seq<nat>)
    requires Under(regions, |base|) && RunIn(w, f, k).Some?
    ensures Run(w, Place(f, base, exn, regions), k) == Some(Place(RunIn(w, f, k).value, base, exn, regions))
    decreases k
  {
    hide StepIn, Step;
    if k > 0 {
      StepPlaces(w, f, w.code(f.pc), base, exn, regions);
      RunPlaces(w, StepIn(w, f, w.code(f.pc)).value, k - 1, base, exn, regions);
    }
  }

  lemma {:induction false} RunAdds(w: World, m: Machine, j: nat, k: nat)
    requires Run(w, m, j).Some?
    ensures Run(w, m, j + k) == Run(w, Run(w, m, j).value, k)
    decreases j
  {
    hide Step;
    if j > 0 {
      RunAdds(w, Step(w, m, w.code(m.pc)).value, j - 1, k);
    }
  }

  lemma RunOne(w: World, m: Machine)
    ensures Run(w, m, 1) == Step(w, m, w.code(m.pc))
  {
    hide Step;
    var x := Step(w, m, w.code(m.pc));
    assert x.Some? ==> Run(w, x.value, 0) == x;
  }
}
