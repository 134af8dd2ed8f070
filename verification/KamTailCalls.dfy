/**
 Tail calls preserve meaning: jumping to a function and returning from it leaves the machine exactly as
 calling it, returning from it and returning from the caller does, and an exception that leaves the
 function leaves the machine the same either way. The function may do anything within its frame: call,
 open and close regions, install handlers, raise and handle exceptions.
 */
module KamTailCalls {
  import opened Kam
  import opened KamFrames

  /** An activation on the stack: return address and environment of its caller, and its words. */
  datatype Activation = Activation(ret: int, env: int, words: seq<int>)

  function Flat(a: Activation): seq<int> {
    [a.ret, a.env] + a.words
  }

  /** A function entered on its arguments, the last of which is also in the accumulator. Arguments that
      are addresses of older frames are the same wherever the function runs, and count as numbers. */
  function Entered(pc: int, clos: int, args: seq<int>): Frame
    requires args != []
  {
    Frame(pc, clos, Num(args[|args| - 1]), Nums(args), Outer, [])
  }

  /** In `k` steps the activation comes to its return, with its handlers and regions gone again and with
      `acc` and `results` as its results. */
  ghost predicate Finishes(w: World, f: Frame, k: nat, args: nat, acc: int, results: seq<int>) {
    var x := RunIn(w, f, k);
    && x.Some? && w.code(x.value.pc) == Return(args, |results| + 1)
    && |x.value.stk| == args + |results| && x.value.stk[args..] == Nums(results) && x.value.acc == Num(acc)
    && x.value.exn == Outer && x.value.regions == []
  }

  /** In `k` steps the activation comes to raise an exception that none of its own handlers takes. */
  ghost predicate Escapes(w: World, f: Frame, k: nat, acc: int) {
    var x := RunIn(w, f, k);
    x.Some? && w.code(x.value.pc) == Raise && x.value.acc == Num(acc) && x.value.exn == Outer
  }

  /** Leaving an activation with its results on top. */
  lemma Leaves(m: Machine, base: seq<int>, a: Activation, results: seq<int>)
    requires m.stk == base + Flat(a) + results
    ensures Leave(m, |a.words|, |results| + 1) == Some(m.(pc := a.ret, env := a.env, stk := base + results))
  {
    var t := base + [a.ret, a.env] + a.words + results;
    assert m.stk == t;
    assert t[..|base|] == base && t[|t| - |results|..] == results;
  }

  lemma ReturnStep(w: World, m: Machine, args: nat, res: nat)
    requires w.code(m.pc) == Return(args, res)
    ensures Run(w, m, 1) == Leave(m, args, res)
  {
    hide Leave;
    RunOne(w, m);
  }

  /** Where a finished activation is: its words and results on its base. */
  lemma FinishedPlace(f: Frame, base: seq<int>, ret: int, env: int, exn: int, regions: seq<nat>, args: nat, results: seq<int>)
    requires |f.stk| == args + |results| && f.stk[args..] == Nums(results) && f.exn == Outer && f.regions == []
    ensures var b := base + [ret, env]; var words := Words(f.stk[..args], |b|, exn);
      Place(f, b, exn, regions) ==
      Machine(f.pc, f.env, At(f.acc, |b|, exn), base + Flat(Activation(ret, env, words)) + results, exn, regions)
  {
    hide Words;
    var b := base + [ret, env];
    var words := Words(f.stk[..args], |b|, exn);
    assert f.stk == f.stk[..args] + f.stk[args..];
    WordsJoin(f.stk[..args], f.stk[args..], b, |b|, exn);
    WordsNums(results, |b|, exn);
    assert b + words + results == base + Flat(Activation(ret, env, words)) + results;
    assert regions + Shifted([], |b|) == regions;
  }

  /** From the point where a function begins, on top of a return address and an environment, to the point
      where it has returned there. */
  lemma CalleeReturns(w: World, base: seq<int>, ret: int, env: int, exn: int, regions: seq<nat>,
                      f: Frame, k: nat, args: nat, acc: int, results: seq<int>)
    requires Under(regions, |base|) && Finishes(w, f, k, args, acc, results)
    ensures Run(w, Place(f, base + [ret, env], exn, regions), k + 1) == Some(Machine(ret, env, acc, base + results, exn, regions))
  {
    hide Run, RunIn, Step, Leave, Place, Words, Flat;
    var b := base + [ret, env];
    var g := RunIn(w, f, k).value;
    RunPlaces(w, f, k, b, exn, regions);
    var m := Place(g, b, exn, regions);
    FinishedPlace(g, base, ret, env, exn, regions, args, results);
    RunAdds(w, Place(f, b, exn, regions), k, 1);
    ReturnStep(w, m, args, |results| + 1);
    Leaves(m, base, Activation(ret, env, Words(g.stk[..args], |b|, exn)), results);
  }

  // The tail call and the call in its place

  /** The machine about to make the tail call: the caller's activation on `base`, the closure, and the
      arguments, the last of them in the accumulator. */
  function BeforeJmp(pc: int, env: int, base: seq<int>, a: Activation, clos: int, args: seq<int>, exn: int, regions: seq<nat>): Machine
    requires args != []
  {
    Machine(pc, env, args[|args| - 1], base + Flat(a) + [clos] + args[..|args| - 1], exn, regions)
  }

  /** The machine about to make the ordinary call, which first pushed the return address `back`. */
  function BeforeCall(pc: int, env: int, base: seq<int>, a: Activation, back: int, clos: int, args: seq<int>, exn: int,
                      regions: seq<nat>): Machine
    requires args != []
  {
    Machine(pc, env, args[|args| - 1], base + Flat(a) + [back, clos] + args[..|args| - 1], exn, regions)
  }

  ghost predicate Jumps(w: World, pc: int, a: Activation, target: int, clos: int, args: seq<int>) {
    || w.code(pc) == ApplyFunJmp(target, |args|, |a.words|)
    || (w.code(pc) == ApplyFnJmp(|args|, |a.words|) && w.mem(clos) == target)
  }

  ghost predicate Calls(w: World, pc: int, target: int, clos: int, args: seq<int>) {
    || w.code(pc) == ApplyFunCall(target, |args|)
    || (w.code(pc) == ApplyFnCall(|args|) && w.mem(clos) == target)
  }

  lemma JmpStack(m: Machine, base: seq<int>, a: Activation, clos: int, args: seq<int>)
    requires args != [] && m.acc == args[|args| - 1]
    requires m.stk == base + Flat(a) + [clos] + args[..|args| - 1]
    ensures TailCall(m, |args|, |a.words|) == Some(m.(env := clos, stk := base + [a.ret, a.env] + args))
  {
    var sp, n, r := |m.stk|, |args|, |a.words|;
    assert m.stk == base + [a.ret, a.env] + a.words + [clos] + args[..n - 1];
    assert m.stk[..sp - n - r] == base + [a.ret, a.env];
    assert m.stk[sp - n + 1..] == args[..n - 1];
    assert args[..n - 1] + [m.acc] == args;
    assert m.stk[..sp - n - r] + m.stk[sp - n + 1..] + [m.acc] == base + [a.ret, a.env] + args;
  }

  lemma CallStack(m: Machine, base: seq<int>, back: int, clos: int, args: seq<int>)
    requires args != [] && m.acc == args[|args| - 1]
    requires m.stk == base + [back, clos] + args[..|args| - 1]
    ensures Call(m, |args|) == Some(m.(env := clos, stk := base + [back, m.env] + args))
  {
    var sp, n := |m.stk|, |args|;
    assert m.stk == (base + [back]) + [clos] + args[..n - 1];
    assert m.stk[sp - n := m.env] == base + [back, m.env] + args[..n - 1];
    assert args[..n - 1] + [m.acc] == args;
    assert m.stk[sp - n := m.env] + [m.acc] == base + [back, m.env] + args;
  }

  lemma EnteredPlace(pc: int, clos: int, args: seq<int>, b: seq<int>, exn: int, regions: seq<nat>)
    requires args != []
    ensures Place(Entered(pc, clos, args), b, exn, regions) == Machine(pc, clos, args[|args| - 1], b + args, exn, regions)
  {
    hide Words;
    WordsNums(args, |b|, exn);
    assert regions + Shifted([], |b|) == regions;
  }

  /** The tail call leads to the function, entered in place of the caller. */
  lemma JmpEnters(w: World, pc: int, env: int, base: seq<int>, a: Activation, target: int, clos: int, args: seq<int>,
                  exn: int, regions: seq<nat>)
    requires args != [] && Jumps(w, pc, a, target, clos, args)
    ensures Step(w, BeforeJmp(pc, env, base, a, clos, args, exn, regions), w.code(pc))
         == Some(Place(Entered(target, clos, args), base + [a.ret, a.env], exn, regions))
  {
    hide Place, TailCall, Entered, Flat;
    JmpStack(BeforeJmp(pc, env, base, a, clos, args, exn, regions), base, a, clos, args);
    EnteredPlace(target, clos, args, base + [a.ret, a.env], exn, regions);
  }

  /** The call leads to the function, entered on top of the caller. */
  lemma CallEnters(w: World, pc: int, env: int, base: seq<int>, a: Activation, back: int, target: int, clos: int, args: seq<int>,
                   exn: int, regions: seq<nat>)
    requires args != [] && Calls(w, pc, target, clos, args)
    ensures Step(w, BeforeCall(pc, env, base, a, back, clos, args, exn, regions), w.code(pc))
         == Some(Place(Entered(target, clos, args), base + Flat(a) + [back, env], exn, regions))
  {
    hide Place, Call, Entered, Flat;
    CallStack(BeforeCall(pc, env, base, a, back, clos, args, exn, regions), base + Flat(a), back, clos, args);
    EnteredPlace(target, clos, args, base + Flat(a) + [back, env], exn, regions);
  }

  lemma StepThenRun(w: World, m: Machine, m1: Machine, k: nat)
    requires Step(w, m, w.code(m.pc)) == Some(m1)
    ensures Run(w, m, k + 1) == Run(w, m1, k)
  {
    hide Step;
  }

  lemma JmpReturns(w: World, pc: int, env: int, base: seq<int>, a: Activation, target: int, clos: int, args: seq<int>,
                   exn: int, regions: seq<nat>, k: nat, acc: int, results: seq<int>)
    requires args != [] && Under(regions, |base|) && Jumps(w, pc, a, target, clos, args)
    requires Finishes(w, Entered(target, clos, args), k, |args|, acc, results)
    ensures Run(w, BeforeJmp(pc, env, base, a, clos, args, exn, regions), k + 2)
         == Some(Machine(a.ret, a.env, acc, base + results, exn, regions))
  {
    hide Run, Step, Place, Entered, Finishes, Jumps;
    var f := Entered(target, clos, args);
    JmpEnters(w, pc, env, base, a, target, clos, args, exn, regions);
    StepThenRun(w, BeforeJmp(pc, env, base, a, clos, args, exn, regions), Place(f, base + [a.ret, a.env], exn, regions), k + 1);
    CalleeReturns(w, base, a.ret, a.env, exn, regions, f, k, |args|, acc, results);
  }

  lemma CallReturns(w: World, pc: int, env: int, base: seq<int>, a: Activation, back: int, target: int, clos: int, args: seq<int>,
                    exn: int, regions: seq<nat>, k: nat, acc: int, results: seq<int>)
    requires args != [] && Under(regions, |base|) && Calls(w, pc, target, clos, args)
    requires Finishes(w, Entered(target, clos, args), k, |args|, acc, results)
    requires w.code(back) == Return(|a.words|, |results| + 1)
    ensures Run(w, BeforeCall(pc, env, base, a, back, clos, args, exn, regions), k + 3)
         == Some(Machine(a.ret, a.env, acc, base + results, exn, regions))
  {
    hide Run, Step, Place, Entered, Finishes, Calls, Flat, Leave;
    var f, base1 := Entered(target, clos, args), base + Flat(a);
    var m1 := Place(f, base1 + [back, env], exn, regions);
    CallEnters(w, pc, env, base, a, back, target, clos, args, exn, regions);
    StepThenRun(w, BeforeCall(pc, env, base, a, back, clos, args, exn, regions), m1, k + 2);
    CalleeReturns(w, base1, back, env, exn, regions, f, k, |args|, acc, results);
    RunAdds(w, m1, k + 1, 1);
    var m2 := Machine(back, env, acc, base1 + results, exn, regions);
    ReturnStep(w, m2, |a.words|, |results| + 1);
    Leaves(m2, base, a, results);
  }

  /** For every argument count, frame size, result count and function: the tail call followed by the
      function's return, and the call followed by both returns, end in the same machine. */
  lemma TailCallMeansCall(w: World, pcJmp: int, pcCall: int, env: int, base: seq<int>, a: Activation, back: int, target: int,
                          clos: int, args: seq<int>, exn: int, regions: seq<nat>, k: nat, acc: int, results: seq<int>)
    requires args != [] && Under(regions, |base|) && Finishes(w, Entered(target, clos, args), k, |args|, acc, results)
    requires Jumps(w, pcJmp, a, target, clos, args) && Calls(w, pcCall, target, clos, args)
    requires w.code(back) == Return(|a.words|, |results| + 1)
    ensures var jmp := Run(w, BeforeJmp(pcJmp, env, base, a, clos, args, exn, regions), k + 2);
      jmp.Some? && jmp == Run(w, BeforeCall(pcCall, env, base, a, back, clos, args, exn, regions), k + 3)
  {
    hide Run, Finishes, Jumps, Calls, Entered;
    JmpReturns(w, pcJmp, env, base, a, target, clos, args, exn, regions, k, acc, results);
    CallReturns(w, pcCall, env, base, a, back, target, clos, args, exn, regions, k, acc, results);
  }

  // Exceptions

  lemma {:induction false} OwnRegionsGo(regions: seq<nat>, own: seq<nat>, b: nat, exn: int)
    requires exn <= b
    ensures RegionsBelow(regions + Shifted(own, b), exn) == RegionsBelow(regions, exn)
    decreases |own|
  {
    var all := regions + Shifted(own, b);
    if own == [] {
      assert all == regions;
    } else {
      assert all[..|all| - 1] == regions + Shifted(own[..|own| - 1], b);
      OwnRegionsGo(regions, own[..|own| - 1], b, exn);
    }
  }

  /** An exception for a handler below `base` is the same exception there, whatever lies above. */
  lemma ThrowsBelow(w: World, f: Frame, base: seq<int>, extra: seq<int>, exn: int, regions: seq<nat>)
    requires f.exn == Outer && f.acc.Num? && exn < |base|
    ensures Throw(w, Place(f, base + extra, exn, regions)) == Throw(w, Machine(0, 0, f.acc.v, base, exn, regions))
  {
    hide RegionsBelow, Shifted, Words;
    OwnRegionsGo(regions, f.regions, |base + extra|, exn);
    if 1 <= exn {
      var s := base + extra + Words(f.stk, |base + extra|, exn);
      assert s[..exn - 1] == base[..exn - 1];
    }
  }

  lemma RaisesFrom(w: World, f: Frame, k: nat, acc: int, base: seq<int>, extra: seq<int>, exn: int, regions: seq<nat>)
    requires Escapes(w, f, k, acc) && Under(regions, |base|) && exn < |base|
    ensures Run(w, Place(f, base + extra, exn, regions), k + 1) == Throw(w, Machine(0, 0, acc, base, exn, regions))
  {
    hide Run, RunIn, Place, Throw;
    RunPlaces(w, f, k, base + extra, exn, regions);
    RunAdds(w, Place(f, base + extra, exn, regions), k, 1);
    var g := RunIn(w, f, k).value;
    RaiseStep(w, g, base + extra, exn, regions);
    ThrowsBelow(w, g, base, extra, exn, regions);
  }

  lemma RaiseStep(w: World, g: Frame, b: seq<int>, exn: int, regions: seq<nat>)
    requires w.code(g.pc) == Raise
    ensures Run(w, Place(g, b, exn, regions), 1) == Throw(w, Place(g, b, exn, regions))
  {
    hide Throw;
    RunOne(w, Place(g, b, exn, regions));
  }

  /** An exception that leaves the function finds the same handler, stack and regions after the tail call
      and after the call (and without a handler, neither goes on). */
  lemma TailCallRaisesAsCall(w: World, pcJmp: int, pcCall: int, env: int, base: seq<int>, a: Activation, back: int, target: int,
                             clos: int, args: seq<int>, exn: int, regions: seq<nat>, k: nat, acc: int)
    requires args != [] && Under(regions, |base|) && exn < |base| && Escapes(w, Entered(target, clos, args), k, acc)
    requires Jumps(w, pcJmp, a, target, clos, args) && Calls(w, pcCall, target, clos, args)
    ensures Run(w, BeforeJmp(pcJmp, env, base, a, clos, args, exn, regions), k + 2)
         == Run(w, BeforeCall(pcCall, env, base, a, back, clos, args, exn, regions), k + 2)
         == Throw(w, Machine(0, 0, acc, base, exn, regions))
  {
    hide Run, Step, Place, Escapes, Entered, Jumps, Calls, Throw, Flat;
    var f := Entered(target, clos, args);
    JmpEnters(w, pcJmp, env, base, a, target, clos, args, exn, regions);
    CallEnters(w, pcCall, env, base, a, back, target, clos, args, exn, regions);
    var b := base + Flat(a) + [back, env];
    StepThenRun(w, BeforeJmp(pcJmp, env, base, a, clos, args, exn, regions), Place(f, base + [a.ret, a.env], exn, regions), k + 1);
    StepThenRun(w, BeforeCall(pcCall, env, base, a, back, clos, args, exn, regions), Place(f, b, exn, regions), k + 1);
    RaisesFrom(w, f, k, acc, base, [a.ret, a.env], exn, regions);
    assert b == base + (Flat(a) + [back, env]);
    RaisesFrom(w, f, k, acc, base, Flat(a) + [back, env], exn, regions);
  }
}
