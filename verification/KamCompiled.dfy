/**
 The generated code is right: whatever an expression evaluates to, its code leaves in the accumulator,
 with everything else as it was, and a function called with its arguments returns its value.
 */
module KamCompiled {
  import opened Kam
  import opened KamFrames
  import opened KamCompile

  // Reaching a machine

  ghost predicate Reaches(w: World, m: Machine, m': Machine) {
    exists k: nat :: Run(w, m, k) == Some(m')
  }

  lemma ReachesStep(w: World, m: Machine, m': Machine)
    requires Step(w, m, w.code(m.pc)) == Some(m')
    ensures Reaches(w, m, m')
  {
    RunOne(w, m);
  }

  lemma ReachesThen(w: World, m: Machine, m1: Machine, m2: Machine)
    requires Reaches(w, m, m1) && Reaches(w, m1, m2)
    ensures Reaches(w, m, m2)
  {
    hide Run;
    var j: nat :| Run(w, m, j) == Some(m1);
    var k: nat :| Run(w, m1, k) == Some(m2);
    RunAdds(w, m, j, k);
  }

  /** One step more. */
  lemma ReachesMore(w: World, m: Machine, m1: Machine, m2: Machine)
    requires Reaches(w, m, m1) && Step(w, m1, w.code(m1.pc)) == Some(m2)
    ensures Reaches(w, m, m2)
  {
    hide Reaches, Step;
    ReachesStep(w, m1, m2);
    ReachesThen(w, m, m1, m2);
  }

  /** The machine after `n` words of code that leave `v` in the accumulator. */
  function Done(m: Machine, n: nat, v: int): Machine {
    m.(pc := m.pc + n, acc := v)
  }

  function Pushed(m: Machine, n: nat, v: int): Machine {
    m.(pc := m.pc + n + 1, acc := v, stk := m.stk + [v])
  }

  // Pieces of code

  lemma CodeParts(w: World, pc: int, a: seq<Instr>, b: seq<Instr>)
    requires CodeAt(w, pc, a + b)
    ensures CodeAt(w, pc, a) && CodeAt(w, pc + |a|, b)
  {
    forall i | 0 <= i < |a| ensures w.code(pc + i) == a[i] {
      assert (a + b)[i] == a[i];
    }
    forall i | 0 <= i < |b| ensures w.code(pc + |a| + i) == b[i] {
      assert (a + b)[|a| + i] == b[i];
      assert w.code(pc + (|a| + i)) == b[i];
    }
  }

  lemma CodeOne(w: World, pc: int, i: Instr)
    requires CodeAt(w, pc, [i])
    ensures w.code(pc) == i
  {
    assert w.code(pc + 0) == [i][0];
  }

  lemma CodeFour(w: World, pc: int, a: seq<Instr>, i: Instr, b: seq<Instr>, j: Instr)
    requires CodeAt(w, pc, a + [i] + b + [j])
    ensures CodeAt(w, pc, a) && w.code(pc + |a|) == i && CodeAt(w, pc + |a| + 1, b) && w.code(pc + |a| + 1 + |b|) == j
  {
    hide CodeAt;
    CodeParts(w, pc, a + [i] + b, [j]);
    CodeParts(w, pc, a + [i], b);
    CodeParts(w, pc, a, [i]);
    CodeOne(w, pc + |a|, i);
    CodeOne(w, pc + |a| + 1 + |b|, j);
  }

  lemma CodeAround(w: World, pc: int, i: Instr, b: seq<Instr>, j: Instr)
    requires CodeAt(w, pc, [i] + b + [j])
    ensures w.code(pc) == i && CodeAt(w, pc + 1, b) && w.code(pc + 1 + |b|) == j
  {
    hide CodeAt;
    CodeParts(w, pc, [i] + b, [j]);
    CodeParts(w, pc, [i], b);
    CodeOne(w, pc, i);
    CodeOne(w, pc + 1 + |b|, j);
  }

  // Names

  ghost predicate SlotFits(w: World, s: Slot, v: int, m: Machine, sp: nat) {
    match s
    case Stack(i) => i < sp <= |m.stk| && v == m.stk[|m.stk| - sp + i]
    case Env(off) => v == w.mem(m.env + off)
    case Reg(i) => i <= sp && v == |m.stk| - sp + i
  }

  /** The names have these values where the code looks for them, in a frame of `sp` words. */
  ghost predicate Fits(w: World, env: seq<Slot>, vals: seq<int>, m: Machine, sp: nat) {
    |env| == |vals| && sp <= |m.stk| && forall j :: 0 <= j < |env| ==> SlotFits(w, env[j], vals[j], m, sp)
  }

  /** More on the stack is more in the frame. */
  lemma FitsMore(w: World, env: seq<Slot>, vals: seq<int>, m: Machine, m': Machine, sp: nat, ws: seq<int>)
    requires Fits(w, env, vals, m, sp) && m'.stk == m.stk + ws && m'.env == m.env
    ensures Fits(w, env, vals, m', sp + |ws|)
  {
    forall j | 0 <= j < |env| ensures SlotFits(w, env[j], vals[j], m', sp + |ws|) {
      assert SlotFits(w, env[j], vals[j], m, sp);
    }
  }

  lemma FitsBind(w: World, env: seq<Slot>, vals: seq<int>, m: Machine, sp: nat, s: Slot, v: int)
    requires Fits(w, env, vals, m, sp) && SlotFits(w, s, v, m, sp)
    ensures Fits(w, env + [s], vals + [v], m, sp)
  {
    hide SlotFits;
    forall j | 0 <= j < |env + [s]| ensures SlotFits(w, (env + [s])[j], (vals + [v])[j], m, sp) {
      assert j < |env| ==> SlotFits(w, env[j], vals[j], m, sp);
    }
  }

  lemma AccessRuns(w: World, s: Slot, v: int, m: Machine, sp: nat)
    requires SlotFits(w, s, v, m, sp) && CodeAt(w, m.pc, Access(s, sp)) && sp <= |m.stk|
    ensures |Access(s, sp)| == 1 && Reaches(w, m, Done(m, 1, v))
  {
    CodeOne(w, m.pc, Access(s, sp)[0]);
    ReachesStep(w, m, Done(m, 1, v));
  }

  // What each piece of code does, given what its parts do

  lemma PushRuns(w: World, m: Machine, n: nat, x: int)
    requires Reaches(w, m, Done(m, n, x)) && w.code(m.pc + n) == Push
    ensures Reaches(w, m, Pushed(m, n, x))
  {
    hide Reaches;
    ReachesMore(w, m, Done(m, n, x), Pushed(m, n, x));
  }

  lemma OpRuns(w: World, m: Machine, a: seq<Instr>, b: seq<Instr>, op: (int, int) -> int, x: int, y: int)
    requires CodeAt(w, m.pc, a + [Push] + b + [Prim(op)])
    requires Reaches(w, m, Done(m, |a|, x)) && Reaches(w, Pushed(m, |a|, x), Done(Pushed(m, |a|, x), |b|, y))
    ensures Reaches(w, m, Done(m, |a| + |b| + 2, op(x, y)))
  {
    hide Reaches, CodeAt;
    CodeFour(w, m.pc, a, Push, b, Prim(op));
    PushRuns(w, m, |a|, x);
    var m2 := Pushed(m, |a|, x);
    var m3 := Done(m2, |b|, y);
    ReachesThen(w, m, m2, m3);
    assert m3.stk[..|m3.stk| - 1] == m.stk;
    ReachesMore(w, m, m3, Done(m, |a| + |b| + 2, op(x, y)));
  }

  lemma LetRuns(w: World, m: Machine, a: seq<Instr>, b: seq<Instr>, x: int, y: int)
    requires CodeAt(w, m.pc, a + [Push] + b + [PopN(1)])
    requires Reaches(w, m, Done(m, |a|, x)) && Reaches(w, Pushed(m, |a|, x), Done(Pushed(m, |a|, x), |b|, y))
    ensures Reaches(w, m, Done(m, |a| + |b| + 2, y))
  {
    hide Reaches, CodeAt;
    CodeFour(w, m.pc, a, Push, b, PopN(1));
    PushRuns(w, m, |a|, x);
    var m2 := Pushed(m, |a|, x);
    var m3 := Done(m2, |b|, y);
    ReachesThen(w, m, m2, m3);
    assert m3.stk[..|m3.stk| - 1] == m.stk;
    ReachesMore(w, m, m3, Done(m, |a| + |b| + 2, y));
  }

  /** A region is opened. */
  function Opened(m: Machine, words: seq<int>): Machine {
    m.(pc := m.pc + 1, acc := |m.stk|, stk := m.stk + words, regions := m.regions + [|m.stk|])
  }

  lemma LetInfRuns(w: World, m: Machine, words: seq<int>, b: seq<Instr>, y: int)
    requires |words| == SIZE_RO && CodeAt(w, m.pc, [LetregionInf(words)] + b + [EndregionInf])
    requires Reaches(w, Opened(m, words), Done(Opened(m, words), |b|, y))
    ensures Reaches(w, m, Done(m, |b| + 2, y))
  {
    hide Reaches, CodeAt;
    CodeAround(w, m.pc, LetregionInf(words), b, EndregionInf);
    var m2 := Opened(m, words);
    var m3 := Done(m2, |b|, y);
    ReachesStep(w, m, m2);
    ReachesThen(w, m, m2, m3);
    assert m3.stk[..|m3.stk| - SIZE_RO] == m.stk && m3.regions[..|m3.regions| - 1] == m.regions;
    ReachesMore(w, m, m3, Done(m, |b| + 2, y));
  }

  /** Room for a region of known size is made on the stack. */
  function Extended(m: Machine, words: seq<int>): Machine {
    m.(pc := m.pc + 1, stk := m.stk + words)
  }

  lemma LetFinRuns(w: World, m: Machine, words: seq<int>, b: seq<Instr>, y: int)
    requires CodeAt(w, m.pc, [LetregionFin(words)] + b + [PopN(|words|)])
    requires Reaches(w, Extended(m, words), Done(Extended(m, words), |b|, y))
    ensures Reaches(w, m, Done(m, |b| + 2, y))
  {
    hide Reaches, CodeAt;
    CodeAround(w, m.pc, LetregionFin(words), b, PopN(|words|));
    var m2 := Extended(m, words);
    var m3 := Done(m2, |b|, y);
    ReachesStep(w, m, m2);
    ReachesThen(w, m, m2, m3);
    assert m3.stk[..|m3.stk| - |words|] == m.stk;
    ReachesMore(w, m, m3, Done(m, |b| + 2, y));
  }

  // Calls

  /** The machine when all arguments but the last have been pushed. */
  function ArgsDone(m: Machine, n: nat, vs: seq<int>): Machine
    requires vs != []
  {
    m.(pc := m.pc + n, acc := vs[|vs| - 1], stk := m.stk + vs[..|vs| - 1])
  }

  lemma MoreArgs(w: World, m: Machine, a: seq<Instr>, b: seq<Instr>, x: int, vs: seq<int>)
    requires CodeAt(w, m.pc, a + [Push] + b) && vs != []
    requires Reaches(w, m, Done(m, |a|, x)) && Reaches(w, Pushed(m, |a|, x), ArgsDone(Pushed(m, |a|, x), |b|, vs))
    ensures Reaches(w, m, ArgsDone(m, |a| + 1 + |b|, [x] + vs))
  {
    hide Reaches, CodeAt;
    CodeParts(w, m.pc, a + [Push], b);
    CodeParts(w, m.pc, a, [Push]);
    CodeOne(w, m.pc + |a|, Push);
    PushRuns(w, m, |a|, x);
    var m2 := Pushed(m, |a|, x);
    ReachesThen(w, m, m2, ArgsDone(m2, |b|, vs));
    assert ([x] + vs)[..|vs|] == [x] + vs[..|vs| - 1];
    assert m.stk + ([x] + vs[..|vs| - 1]) == m.stk + [x] + vs[..|vs| - 1];
  }

  /** A callee at its first instruction. */
  function Begun(lbl: int, clos: int, acc: int, base: seq<int>, ret: int, env: int, vs: seq<int>, exn: int, regions: seq<nat>): Machine {
    Machine(lbl, clos, acc, base + [ret, env] + vs, exn, regions)
  }

  lemma CallEnters(w: World, m: Machine, f: Callee, base: seq<int>, ret: int, c: int, vs: seq<int>)
    requires vs != [] && m.stk == base + [ret, c] + vs[..|vs| - 1] && m.acc == vs[|vs| - 1]
    ensures Step(w, m, CallInstr(f, |vs|))
         == Some(Begun(Target(w.mem, f, c), c, m.acc, base, ret, m.env, vs, m.exn, m.regions))
  {
    var n, sp := |vs|, |m.stk|;
    assert m.stk[sp - n] == c;
    assert m.stk[sp - n := m.env] + [m.acc] == base + [ret, m.env] + vs;
  }

  lemma JumpEnters(w: World, m: Machine, f: Callee, base: seq<int>, ret: int, env: int, locals: seq<int>, c: int, vs: seq<int>)
    requires vs != [] && m.stk == base + [ret, env] + locals + [c] + vs[..|vs| - 1] && m.acc == vs[|vs| - 1]
    ensures Step(w, m, JumpInstr(f, |vs|, |locals|))
         == Some(Begun(Target(w.mem, f, c), c, m.acc, base, ret, env, vs, m.exn, m.regions))
  {
    var n, sp := |vs|, |m.stk|;
    assert m.stk[sp - n] == c;
    assert m.stk[..sp - n - |locals|] == base + [ret, env];
    assert m.stk[sp - n + 1..] == vs[..|vs| - 1];
    assert base + [ret, env] + vs[..|vs| - 1] + [m.acc] == base + [ret, env] + vs;
  }

  /** The callee's value is back with the caller. */
  function Returned(m: Machine, base: seq<int>, ret: int, env: int, v: int): Machine {
    Machine(ret, env, v, base, m.exn, m.regions)
  }

  lemma CallCode(w: World, pc: int, l: int, c: seq<Instr>, cs: seq<Instr>, i: Instr)
    requires CodeAt(w, pc, [PushLbl(l)] + c + [Push] + cs + [i])
    ensures w.code(pc) == PushLbl(l) && CodeAt(w, pc + 1, c) && w.code(pc + 1 + |c|) == Push
    ensures CodeAt(w, pc + |c| + 2, cs) && w.code(pc + |c| + |cs| + 2) == i
  {
    hide CodeAt;
    CodeFour(w, pc, [PushLbl(l)] + c, Push, cs, i);
    CodeParts(w, pc, [PushLbl(l)], c);
    CodeOne(w, pc, PushLbl(l));
  }

  /** The label to return to is pushed. */
  function Labelled(m: Machine, l: int): Machine {
    m.(pc := m.pc + 1, stk := m.stk + [l])
  }

  lemma CallRuns(w: World, m: Machine, f: Callee, c: seq<Instr>, cs: seq<Instr>, x: int, vs: seq<int>, v: int)
    requires vs != []
    requires CodeAt(w, m.pc, [PushLbl(m.pc + |c| + |cs| + 3)] + c + [Push] + cs + [CallInstr(f, |vs|)])
    requires var m1 := Labelled(m, m.pc + |c| + |cs| + 3); var m2 := Pushed(m1, |c|, x);
      Reaches(w, m1, Done(m1, |c|, x)) && Reaches(w, m2, ArgsDone(m2, |cs|, vs))
    requires var ret := m.pc + |c| + |cs| + 3;
      Reaches(w, Begun(Target(w.mem, f, x), x, vs[|vs| - 1], m.stk, ret, m.env, vs, m.exn, m.regions), Returned(m, m.stk, ret, m.env, v))
    ensures Reaches(w, m, Done(m, |c| + |cs| + 3, v))
  {
    hide Reaches, CodeAt;
    var ret := m.pc + |c| + |cs| + 3;
    CallCode(w, m.pc, ret, c, cs, CallInstr(f, |vs|));
    var m1 := Labelled(m, ret);
    ReachesStep(w, m, m1);
    PushRuns(w, m1, |c|, x);
    var m2 := Pushed(m1, |c|, x);
    ReachesThen(w, m, m1, m2);
    var m3 := ArgsDone(m2, |cs|, vs);
    ReachesThen(w, m, m2, m3);
    assert m3.stk == m.stk + [ret, x] + vs[..|vs| - 1];
    var m4 := Begun(Target(w.mem, f, x), x, vs[|vs| - 1], m.stk, ret, m.env, vs, m.exn, m.regions);
    CallEnters(w, m3, f, m.stk, ret, x, vs);
    hide Step;
    ReachesMore(w, m, m3, m4);
    ReachesThen(w, m, m4, Returned(m, m.stk, ret, m.env, v));
  }

  lemma JumpRuns(w: World, m: Machine, f: Callee, c: seq<Instr>, cs: seq<Instr>, x: int, vs: seq<int>, v: int,
                 base: seq<int>, ret: int, env: int, locals: seq<int>)
    requires vs != [] && m.stk == base + [ret, env] + locals
    requires CodeAt(w, m.pc, c + [Push] + cs + [JumpInstr(f, |vs|, |locals|)])
    requires var m2 := Pushed(m, |c|, x);
      Reaches(w, m, Done(m, |c|, x)) && Reaches(w, m2, ArgsDone(m2, |cs|, vs))
    requires Reaches(w, Begun(Target(w.mem, f, x), x, vs[|vs| - 1], base, ret, env, vs, m.exn, m.regions), Returned(m, base, ret, env, v))
    ensures Reaches(w, m, Returned(m, base, ret, env, v))
  {
    hide Reaches, CodeAt;
    CodeFour(w, m.pc, c, Push, cs, JumpInstr(f, |vs|, |locals|));
    PushRuns(w, m, |c|, x);
    var m2 := Pushed(m, |c|, x);
    var m3 := ArgsDone(m2, |cs|, vs);
    ReachesThen(w, m, m2, m3);
    var m4 := Begun(Target(w.mem, f, x), x, vs[|vs| - 1], base, ret, env, vs, m.exn, m.regions);
    JumpEnters(w, m3, f, base, ret, env, locals, x, vs);
    hide Step;
    ReachesMore(w, m, m3, m4);
    ReachesThen(w, m, m4, Returned(m, base, ret, env, v));
  }

  // Switches

  lemma CaseCode(w: World, pc: int, sel: int, c: seq<Instr>, more: seq<Instr>)
    requires CodeAt(w, pc, [BranchIf(Differs(sel), pc + |c| + 2)] + c + [BranchIf(Always(), pc + |c| + 2 + |more|)] + more)
    ensures w.code(pc) == BranchIf(Differs(sel), pc + |c| + 2) && CodeAt(w, pc + 1, c)
    ensures w.code(pc + 1 + |c|) == BranchIf(Always(), pc + |c| + 2 + |more|) && CodeAt(w, pc + |c| + 2, more)
  {
    hide CodeAt;
    var i, j := BranchIf(Differs(sel), pc + |c| + 2), BranchIf(Always(), pc + |c| + 2 + |more|);
    CodeParts(w, pc, [i] + c + [j], more);
    CodeAround(w, pc, i, c, j);
  }

  /** The case is the one: its code runs, and then control is behind the last case. */
  lemma CaseTaken(w: World, m: Machine, sel: int, c: seq<Instr>, more: seq<Instr>, v: int)
    requires CodeAt(w, m.pc, [BranchIf(Differs(sel), m.pc + |c| + 2)] + c + [BranchIf(Always(), m.pc + |c| + 2 + |more|)] + more)
    requires m.acc == sel && Reaches(w, m.(pc := m.pc + 1), Done(m.(pc := m.pc + 1), |c|, v))
    ensures Reaches(w, m, Done(m, |c| + 2 + |more|, v))
  {
    hide Reaches, CodeAt;
    CaseCode(w, m.pc, sel, c, more);
    var m1 := m.(pc := m.pc + 1);
    ReachesStep(w, m, m1);
    ReachesThen(w, m, m1, Done(m1, |c|, v));
    ReachesMore(w, m, Done(m1, |c|, v), Done(m, |c| + 2 + |more|, v));
  }

  lemma CaseEntered(w: World, m: Machine, sel: int, c: seq<Instr>, more: seq<Instr>)
    requires CodeAt(w, m.pc, [BranchIf(Differs(sel), m.pc + |c| + 2)] + c + [BranchIf(Always(), m.pc + |c| + 2 + |more|)] + more)
    ensures Reaches(w, m, if m.acc == sel then m.(pc := m.pc + 1) else m.(pc := m.pc + |c| + 2))
  {
    hide Reaches, CodeAt;
    CaseCode(w, m.pc, sel, c, more);
    ReachesStep(w, m, if m.acc == sel then m.(pc := m.pc + 1) else m.(pc := m.pc + |c| + 2));
  }

  // Expressions without tail calls

  lemma FitsPushed(w: World, env: seq<Slot>, vals: seq<int>, m: Machine, sp: nat, n: nat, x: int)
    requires Fits(w, env, vals, m, sp)
    ensures Fits(w, env, vals, Pushed(m, n, x), sp + 1) && SlotFits(w, Stack(sp), x, Pushed(m, n, x), sp + 1)
    ensures Fits(w, env + [Stack(sp)], vals + [x], Pushed(m, n, x), sp + 1)
  {
    FitsMore(w, env, vals, m, Pushed(m, n, x), sp, [x]);
    assert SlotFits(w, Stack(sp), x, Pushed(m, n, x), sp + 1);
    hide Fits, SlotFits;
    FitsBind(w, env, vals, Pushed(m, n, x), sp + 1, Stack(sp), x);
  }

  lemma FitsRegion(w: World, env: seq<Slot>, vals: seq<int>, m: Machine, m': Machine, sp: nat, words: seq<int>)
    requires Fits(w, env, vals, m, sp) && m'.stk == m.stk + words && m'.env == m.env
    ensures Fits(w, env + [Reg(sp)], vals + [|m.stk|], m', sp + |words|)
  {
    FitsMore(w, env, vals, m, m', sp, words);
    assert SlotFits(w, Reg(sp), |m.stk|, m', sp + |words|);
    hide Fits, SlotFits;
    FitsBind(w, env, vals, m', sp + |words|, Reg(sp), |m.stk|);
  }

  lemma FitsSame(w: World, env: seq<Slot>, vals: seq<int>, m: Machine, m': Machine, sp: nat)
    requires Fits(w, env, vals, m, sp) && m'.stk == m.stk && m'.env == m.env
    ensures Fits(w, env, vals, m', sp)
  {
    FitsMore(w, env, vals, m, m', sp, []);
  }

  lemma FirstCode(w: World, pc: int, a: seq<Instr>, i: Instr, b: seq<Instr>, j: Instr)
    requires CodeAt(w, pc, a + [i] + b + [j])
    ensures CodeAt(w, pc, a) && CodeAt(w, pc + |a| + 1, b)
  {
    hide CodeAt;
    CodeFour(w, pc, a, i, b, j);
  }

  lemma NameRuns(w: World, env: seq<Slot>, vals: seq<int>, j: nat, m: Machine, sp: nat)
    requires Fits(w, env, vals, m, sp) && j < |vals| && CodeAt(w, m.pc, Gen(Name(j), env, sp, m.pc))
    ensures Reaches(w, m, Done(m, |Gen(Name(j), env, sp, m.pc)|, vals[j]))
  {
    assert SlotFits(w, env[j], vals[j], m, sp);
    hide SlotFits, Reaches, CodeAt;
    AccessRuns(w, env[j], vals[j], m, sp);
  }

  lemma IntRuns(w: World, v: int, m: Machine)
    requires CodeAt(w, m.pc, [Immed(v)])
    ensures Reaches(w, m, Done(m, 1, v))
  {
    hide Reaches;
    CodeOne(w, m.pc, Immed(v));
    ReachesStep(w, m, Done(m, 1, v));
  }

  /** What an expression without tail calls evaluates to is in the accumulator after its code, and all
      else is as before. */
  lemma {:induction false} ValueRuns(w: World, p: Program, fuel: nat, e: Exp, env: seq<Slot>, vals: seq<int>, base: nat, m: Machine, sp: nat)
    requires Loaded(w, p) && Plain(e) && Fits(w, env, vals, m, sp) && CodeAt(w, m.pc, Gen(e, env, sp, m.pc))
    requires Eval(w.mem, p, fuel, e, vals, base, |m.stk|).Some?
    ensures Reaches(w, m, Done(m, |Gen(e, env, sp, m.pc)|, Eval(w.mem, p, fuel, e, vals, base, |m.stk|).value))
    decreases fuel, 1, e, 1
  {
    hide Reaches, CodeAt, Fits, SlotFits, Loaded, Apply;
    match e
    case Int(v) => IntRuns(w, v, m);
    case Name(j) => NameRuns(w, env, vals, j, m, sp);
    case Op(op, a, b) => OpExpRuns(w, p, fuel, op, a, b, env, vals, base, m, sp);
    case Let(bind, scope) => LetExpRuns(w, p, fuel, bind, scope, env, vals, base, m, sp);
    case Switch(on, cases) => SwitchExpRuns(w, p, fuel, on, cases, env, vals, base, m, sp);
    case LetInf(words, body) => LetInfExpRuns(w, p, fuel, words, body, env, vals, base, m, sp);
    case LetFin(words, body) => LetFinExpRuns(w, p, fuel, words, body, env, vals, base, m, sp);
    case Call(f, clos, args) => CallExpRuns(w, p, fuel, f, clos, args, env, vals, base, m, sp);
  }

  lemma {:induction false} OpExpRuns(
    w: World, p: Program, fuel: nat, op: (int, int) -> int, a: Exp, b: Exp, env: seq<Slot>, vals: seq<int>, base: nat, m: Machine, sp: nat)
    requires var e := Op(op, a, b);
      && Loaded(w, p) && Plain(e) && Fits(w, env, vals, m, sp) && CodeAt(w, m.pc, Gen(e, env, sp, m.pc))
      && Eval(w.mem, p, fuel, e, vals, base, |m.stk|).Some?
    ensures var e := Op(op, a, b);
      Reaches(w, m, Done(m, |Gen(e, env, sp, m.pc)|, Eval(w.mem, p, fuel, e, vals, base, |m.stk|).value))
    decreases fuel, 1, Op(op, a, b), 0
  {
    hide Reaches, CodeAt, Fits, SlotFits, Loaded, Apply, Gen, GenArgs, Eval, EvalArgs, Plain, PlainArgs, Proper;
    OpUnfold(w.mem, p, fuel, op, a, b, env, vals, base, |m.stk|, sp, m.pc);
    var ca := Gen(a, env, sp, m.pc);
    var cb := Gen(b, env, sp + 1, m.pc + |ca| + 1);
    FirstCode(w, m.pc, ca, Push, cb, Prim(op));
    ValueRuns(w, p, fuel, a, env, vals, base, m, sp);
    var x := Eval(w.mem, p, fuel, a, vals, base, |m.stk|).value;
    FitsPushed(w, env, vals, m, sp, |ca|, x);
    ValueRuns(w, p, fuel, b, env, vals, base, Pushed(m, |ca|, x), sp + 1);
    OpRuns(w, m, ca, cb, op, x, Eval(w.mem, p, fuel, b, vals, base, |m.stk| + 1).value);
  }

  lemma {:induction false} LetExpRuns(
    w: World, p: Program, fuel: nat, bind: Exp, scope: Exp, env: seq<Slot>, vals: seq<int>, base: nat, m: Machine, sp: nat)
    requires var e := Let(bind, scope);
      && Loaded(w, p) && Plain(e) && Fits(w, env, vals, m, sp) && CodeAt(w, m.pc, Gen(e, env, sp, m.pc))
      && Eval(w.mem, p, fuel, e, vals, base, |m.stk|).Some?
    ensures var e := Let(bind, scope);
      Reaches(w, m, Done(m, |Gen(e, env, sp, m.pc)|, Eval(w.mem, p, fuel, e, vals, base, |m.stk|).value))
    decreases fuel, 1, Let(bind, scope), 0
  {
    hide Reaches, CodeAt, Fits, SlotFits, Loaded, Apply, Gen, GenArgs, Eval, EvalArgs, Plain, PlainArgs, Proper;
    LetUnfold(w.mem, p, fuel, bind, scope, env, vals, base, |m.stk|, sp, m.pc);
    var ca := Gen(bind, env, sp, m.pc);
    var cb := Gen(scope, env + [Stack(sp)], sp + 1, m.pc + |ca| + 1);
    FirstCode(w, m.pc, ca, Push, cb, PopN(1));
    ValueRuns(w, p, fuel, bind, env, vals, base, m, sp);
    var x := Eval(w.mem, p, fuel, bind, vals, base, |m.stk|).value;
    FitsPushed(w, env, vals, m, sp, |ca|, x);
    ValueRuns(w, p, fuel, scope, env + [Stack(sp)], vals + [x], base, Pushed(m, |ca|, x), sp + 1);
    LetRuns(w, m, ca, cb, x, Eval(w.mem, p, fuel, scope, vals + [x], base, |m.stk| + 1).value);
  }

  lemma {:induction false} SwitchExpRuns(
    w: World, p: Program, fuel: nat, on: Exp, cases: Cases, env: seq<Slot>, vals: seq<int>, base: nat, m: Machine, sp: nat)
    requires var e := Switch(on, cases);
      && Loaded(w, p) && Plain(e) && Fits(w, env, vals, m, sp) && CodeAt(w, m.pc, Gen(e, env, sp, m.pc))
      && Eval(w.mem, p, fuel, e, vals, base, |m.stk|).Some?
    ensures var e := Switch(on, cases);
      Reaches(w, m, Done(m, |Gen(e, env, sp, m.pc)|, Eval(w.mem, p, fuel, e, vals, base, |m.stk|).value))
    decreases fuel, 1, Switch(on, cases), 0
  {
    hide Reaches, CodeAt, Fits, SlotFits, Loaded, Apply;
    var c := Gen(on, env, sp, m.pc);
    CodeParts(w, m.pc, c, GenCases(cases, env, sp, m.pc + |c|));
    ValueRuns(w, p, fuel, on, env, vals, base, m, sp);
    var m1 := Done(m, |c|, Eval(w.mem, p, fuel, on, vals, base, |m.stk|).value);
    FitsSame(w, env, vals, m, m1, sp);
    CasesRun(w, p, fuel, cases, env, vals, base, m1, sp);
    var v := EvalCases(w.mem, p, fuel, cases, m1.acc, vals, base, |m.stk|).value;
    ReachesThen(w, m, m1, Done(m1, |GenCases(cases, env, sp, m1.pc)|, v));
  }

  lemma {:induction false} LetInfExpRuns(
    w: World, p: Program, fuel: nat, words: seq<int>, body: Exp, env: seq<Slot>, vals: seq<int>, base: nat, m: Machine, sp: nat)
    requires var e := LetInf(words, body);
      && Loaded(w, p) && Plain(e) && Fits(w, env, vals, m, sp) && CodeAt(w, m.pc, Gen(e, env, sp, m.pc))
      && Eval(w.mem, p, fuel, e, vals, base, |m.stk|).Some?
    ensures var e := LetInf(words, body);
      Reaches(w, m, Done(m, |Gen(e, env, sp, m.pc)|, Eval(w.mem, p, fuel, e, vals, base, |m.stk|).value))
    decreases fuel, 1, LetInf(words, body), 0
  {
    hide Reaches, CodeAt, Fits, SlotFits, Loaded, Apply, Gen, GenArgs, Eval, EvalArgs, Plain, PlainArgs, Proper;
    LetInfUnfold(w.mem, p, fuel, words, body, env, vals, base, |m.stk|, sp, m.pc);
    var cb := Gen(body, env + [Reg(sp)], sp + SIZE_RO, m.pc + 1);
    CodeAround(w, m.pc, LetregionInf(words), cb, EndregionInf);
    FitsRegion(w, env, vals, m, Opened(m, words), sp, words);
    ValueRuns(w, p, fuel, body, env + [Reg(sp)], vals + [|m.stk|], base, Opened(m, words), sp + SIZE_RO);
    LetInfRuns(w, m, words, cb, Eval(w.mem, p, fuel, body, vals + [|m.stk|], base, |m.stk| + SIZE_RO).value);
  }

  lemma {:induction false} LetFinExpRuns(
    w: World, p: Program, fuel: nat, words: seq<int>, body: Exp, env: seq<Slot>, vals: seq<int>, base: nat, m: Machine, sp: nat)
    requires var e := LetFin(words, body);
      && Loaded(w, p) && Plain(e) && Fits(w, env, vals, m, sp) && CodeAt(w, m.pc, Gen(e, env, sp, m.pc))
      && Eval(w.mem, p, fuel, e, vals, base, |m.stk|).Some?
    ensures var e := LetFin(words, body);
      Reaches(w, m, Done(m, |Gen(e, env, sp, m.pc)|, Eval(w.mem, p, fuel, e, vals, base, |m.stk|).value))
    decreases fuel, 1, LetFin(words, body), 0
  {
    hide Reaches, CodeAt, Fits, SlotFits, Loaded, Apply, Gen, GenArgs, Eval, EvalArgs, Plain, PlainArgs, Proper;
    LetFinUnfold(w.mem, p, fuel, words, body, env, vals, base, |m.stk|, sp, m.pc);
    var cb := Gen(body, env + [Reg(sp)], sp + |words|, m.pc + 1);
    CodeAround(w, m.pc, LetregionFin(words), cb, PopN(|words|));
    FitsRegion(w, env, vals, m, Extended(m, words), sp, words);
    ValueRuns(w, p, fuel, body, env + [Reg(sp)], vals + [|m.stk|], base, Extended(m, words), sp + |words|);
    LetFinRuns(w, m, words, cb, Eval(w.mem, p, fuel, body, vals + [|m.stk|], base, |m.stk| + |words|).value);
  }

  lemma OpUnfold(mem: int -> int, p: Program, fuel: nat, op: (int, int) -> int, a: Exp, b: Exp, env: seq<Slot>, vals: seq<int>, base: nat, top: nat, sp: nat, pc: int)
    ensures var e := Op(op, a, b); var c := Gen(a, env, sp, pc);
      && Gen(e, env, sp, pc) == c + [Push] + Gen(b, env, sp + 1, pc + |c| + 1) + [Prim(op)]
      && (Plain(e) ==> Plain(a) && Plain(b))
      && var x := Eval(mem, p, fuel, a, vals, base, top); var y := Eval(mem, p, fuel, b, vals, base, top + 1);
         Eval(mem, p, fuel, e, vals, base, top) == if x.None? || y.None? then None else Some(op(x.value, y.value))
  {
  }

  lemma LetFinUnfold(mem: int -> int, p: Program, fuel: nat, words: seq<int>, body: Exp, env: seq<Slot>, vals: seq<int>, base: nat, top: nat, sp: nat, pc: int)
    ensures var e := LetFin(words, body);
      && Gen(e, env, sp, pc) == [LetregionFin(words)] + Gen(body, env + [Reg(sp)], sp + |words|, pc + 1) + [PopN(|words|)]
      && (Plain(e) ==> Plain(body))
      && Eval(mem, p, fuel, e, vals, base, top) == Eval(mem, p, fuel, body, vals + [top], base, top + |words|)
  {
  }

  lemma LetInfUnfold(mem: int -> int, p: Program, fuel: nat, words: seq<int>, body: Exp, env: seq<Slot>, vals: seq<int>, base: nat, top: nat, sp: nat, pc: int)
    ensures var e := LetInf(words, body);
      && Gen(e, env, sp, pc) == [LetregionInf(words)] + Gen(body, env + [Reg(sp)], sp + SIZE_RO, pc + 1) + [EndregionInf]
      && (Plain(e) ==> Plain(body))
      && Eval(mem, p, fuel, e, vals, base, top)
         == if |words| != SIZE_RO then None else Eval(mem, p, fuel, body, vals + [top], base, top + SIZE_RO)
  {
  }

  lemma JumpUnfold(mem: int -> int, p: Program, fuel: nat, f: Callee, clos: Exp, args: Exps, env: seq<Slot>, vals: seq<int>, base: nat, top: nat, sp: nat, pc: int)
    ensures var e := Jump(f, clos, args); var c := Gen(clos, env, sp, pc);
      && Gen(e, env, sp, pc) == c + [Push] + GenArgs(args, env, sp + 1, pc + |c| + 1) + [JumpInstr(f, Count(args), sp)]
      && (Proper(e) ==> Plain(clos) && PlainArgs(args))
      && var x := Eval(mem, p, fuel, clos, vals, base, top); var vs := EvalArgs(mem, p, fuel, args, vals, base, top + 1);
         Eval(mem, p, fuel, e, vals, base, top)
         == if x.None? || vs.None? then None else Apply(mem, p, fuel, Target(mem, f, x.value), x.value, vs.value, base)
  {
  }

  lemma MoreUnfold(mem: int -> int, p: Program, fuel: nat, e: Exp, rest: Exps, env: seq<Slot>, vals: seq<int>, base: nat, top: nat, sp: nat, pc: int)
    ensures var es := More(e, rest); var c := Gen(e, env, sp, pc);
      && GenArgs(es, env, sp, pc) == c + [Push] + GenArgs(rest, env, sp + 1, pc + |c| + 1)
      && (PlainArgs(es) ==> Plain(e) && PlainArgs(rest))
      && var x := Eval(mem, p, fuel, e, vals, base, top); var vs := EvalArgs(mem, p, fuel, rest, vals, base, top + 1);
         EvalArgs(mem, p, fuel, es, vals, base, top) == if x.None? || vs.None? then None else Some([x.value] + vs.value)
  {
  }

  lemma OneUnfold(mem: int -> int, p: Program, fuel: nat, e: Exp, env: seq<Slot>, vals: seq<int>, base: nat, top: nat, sp: nat, pc: int)
    ensures var es := One(e);
      && GenArgs(es, env, sp, pc) == Gen(e, env, sp, pc) && (PlainArgs(es) ==> Plain(e))
      && var x := Eval(mem, p, fuel, e, vals, base, top);
         EvalArgs(mem, p, fuel, es, vals, base, top) == if x.None? then None else Some([x.value])
  {
  }

  lemma CallUnfold(mem: int -> int, p: Program, fuel: nat, f: Callee, clos: Exp, args: Exps, env: seq<Slot>, vals: seq<int>, base: nat, top: nat, sp: nat, pc: int)
    ensures var e := Exp.Call(f, clos, args); var c := Gen(clos, env, sp + 1, pc + 1); var cs := GenArgs(args, env, sp + 2, pc + |c| + 2);
      && Gen(e, env, sp, pc) == [PushLbl(pc + |c| + |cs| + 3)] + c + [Push] + cs + [CallInstr(f, Count(args))]
      && (Plain(e) ==> Plain(clos) && PlainArgs(args))
      && var x := Eval(mem, p, fuel, clos, vals, base, top + 1); var vs := EvalArgs(mem, p, fuel, args, vals, base, top + 2);
         Eval(mem, p, fuel, e, vals, base, top)
         == if x.None? || vs.None? then None else Apply(mem, p, fuel, Target(mem, f, x.value), x.value, vs.value, top + 2)
  {
  }

  lemma LetUnfold(mem: int -> int, p: Program, fuel: nat, bind: Exp, scope: Exp, env: seq<Slot>, vals: seq<int>, base: nat, top: nat, sp: nat, pc: int)
    ensures var e := Let(bind, scope); var c := Gen(bind, env, sp, pc);
      && Gen(e, env, sp, pc) == c + [Push] + Gen(scope, env + [Stack(sp)], sp + 1, pc + |c| + 1) + [PopN(1)]
      && (Plain(e) ==> Plain(bind) && Plain(scope)) && (Proper(e) ==> Plain(bind) && Proper(scope))
      && var x := Eval(mem, p, fuel, bind, vals, base, top);
         Eval(mem, p, fuel, e, vals, base, top) == if x.None? then None else Eval(mem, p, fuel, scope, vals + [x.value], base, top + 1)
  {
  }

  lemma {:induction false} CallExpRuns(
    w: World, p: Program, fuel: nat, f: Callee, clos: Exp, args: Exps, env: seq<Slot>, vals: seq<int>, base: nat, m: Machine, sp: nat)
    requires var e := Exp.Call(f, clos, args);
      && Loaded(w, p) && Plain(e) && Fits(w, env, vals, m, sp) && CodeAt(w, m.pc, Gen(e, env, sp, m.pc))
      && Eval(w.mem, p, fuel, e, vals, base, |m.stk|).Some?
    ensures var e := Exp.Call(f, clos, args);
      Reaches(w, m, Done(m, |Gen(e, env, sp, m.pc)|, Eval(w.mem, p, fuel, e, vals, base, |m.stk|).value))
    decreases fuel, 1, Exp.Call(f, clos, args), 0
  {
    hide Reaches, CodeAt, Fits, SlotFits, Loaded, Apply, Gen, GenArgs, Eval, EvalArgs, Plain, PlainArgs, Proper;
    CallUnfold(w.mem, p, fuel, f, clos, args, env, vals, base, |m.stk|, sp, m.pc);
    var c := Gen(clos, env, sp + 1, m.pc + 1);
    var cs := GenArgs(args, env, sp + 2, m.pc + |c| + 2);
    var ret := m.pc + |c| + |cs| + 3;
    CallCode(w, m.pc, ret, c, cs, CallInstr(f, Count(args)));
    var m1 := Labelled(m, ret);
    FitsMore(w, env, vals, m, m1, sp, [ret]);
    ValueRuns(w, p, fuel, clos, env, vals, base, m1, sp + 1);
    var x := Eval(w.mem, p, fuel, clos, vals, base, |m.stk| + 1).value;
    var m2 := Pushed(m1, |c|, x);
    FitsPushed(w, env, vals, m1, sp + 1, |c|, x);
    ArgsRun(w, p, fuel, args, env, vals, base, m2, sp + 2);
    var vs := EvalArgs(w.mem, p, fuel, args, vals, base, |m.stk| + 2).value;
    var m4 := Begun(Target(w.mem, f, x), x, vs[|vs| - 1], m.stk, ret, m.env, vs, m.exn, m.regions);
    ApplyRuns(w, p, fuel, Target(w.mem, f, x), x, vs, m.stk, ret, m.env, m4);
    CallRuns(w, m, f, c, cs, x, vs, Apply(w.mem, p, fuel, Target(w.mem, f, x), x, vs, |m.stk| + 2).value);
  }

  lemma {:induction false} CasesRun(w: World, p: Program, fuel: nat, cs: Cases, env: seq<Slot>, vals: seq<int>, base: nat, m: Machine, sp: nat)
    requires Loaded(w, p) && PlainCases(cs) && Fits(w, env, vals, m, sp) && CodeAt(w, m.pc, GenCases(cs, env, sp, m.pc))
    requires EvalCases(w.mem, p, fuel, cs, m.acc, vals, base, |m.stk|).Some?
    ensures Reaches(w, m, Done(m, |GenCases(cs, env, sp, m.pc)|, EvalCases(w.mem, p, fuel, cs, m.acc, vals, base, |m.stk|).value))
    decreases fuel, 1, cs
  {
    hide Reaches, CodeAt, Fits, SlotFits, Loaded, Apply;
    match cs
    case Default(e) => ValueRuns(w, p, fuel, e, env, vals, base, m, sp);
    case Case(sel, e, rest) =>
      var c := Gen(e, env, sp, m.pc + 1);
      var more := GenCases(rest, env, sp, m.pc + |c| + 2);
      CaseCode(w, m.pc, sel, c, more);
      var v := EvalCases(w.mem, p, fuel, cs, m.acc, vals, base, |m.stk|).value;
      if m.acc == sel {
        FitsSame(w, env, vals, m, m.(pc := m.pc + 1), sp);
        ValueRuns(w, p, fuel, e, env, vals, base, m.(pc := m.pc + 1), sp);
        CaseTaken(w, m, sel, c, more, v);
      } else {
        var m1 := m.(pc := m.pc + |c| + 2);
        CaseEntered(w, m, sel, c, more);
        FitsSame(w, env, vals, m, m1, sp);
        CasesRun(w, p, fuel, rest, env, vals, base, m1, sp);
        ReachesThen(w, m, m1, Done(m1, |more|, v));
      }
  }

  lemma {:induction false} ArgsRun(w: World, p: Program, fuel: nat, es: Exps, env: seq<Slot>, vals: seq<int>, base: nat, m: Machine, sp: nat)
    requires Loaded(w, p) && PlainArgs(es) && Fits(w, env, vals, m, sp) && CodeAt(w, m.pc, GenArgs(es, env, sp, m.pc))
    requires EvalArgs(w.mem, p, fuel, es, vals, base, |m.stk|).Some?
    ensures var vs := EvalArgs(w.mem, p, fuel, es, vals, base, |m.stk|).value;
      vs != [] && Reaches(w, m, ArgsDone(m, |GenArgs(es, env, sp, m.pc)|, vs))
    decreases fuel, 1, es
  {
    hide Reaches, CodeAt, Fits, SlotFits, Loaded, Apply, Gen, GenArgs, Eval, EvalArgs, Plain, PlainArgs, Proper;
    match es
    case One(e) =>
      OneUnfold(w.mem, p, fuel, e, env, vals, base, |m.stk|, sp, m.pc);
      ValueRuns(w, p, fuel, e, env, vals, base, m, sp);
      var x := Eval(w.mem, p, fuel, e, vals, base, |m.stk|).value;
      assert m.stk + [x][..0] == m.stk;
    case More(e, rest) =>
      MoreUnfold(w.mem, p, fuel, e, rest, env, vals, base, |m.stk|, sp, m.pc);
      var c := Gen(e, env, sp, m.pc);
      var more := GenArgs(rest, env, sp + 1, m.pc + |c| + 1);
      CodeParts(w, m.pc, c + [Push], more);
      CodeParts(w, m.pc, c, [Push]);
      ValueRuns(w, p, fuel, e, env, vals, base, m, sp);
      var x := Eval(w.mem, p, fuel, e, vals, base, |m.stk|).value;
      FitsPushed(w, env, vals, m, sp, |c|, x);
      ArgsRun(w, p, fuel, rest, env, vals, base, Pushed(m, |c|, x), sp + 1);
      MoreArgs(w, m, c, more, x, EvalArgs(w.mem, p, fuel, rest, vals, base, |m.stk| + 1).value);
  }

  // Expressions whose value is the function's

  /** The code either ends with the value in the accumulator or has already returned it. */
  ghost predicate Ends(w: World, m: Machine, n: nat, v: int, base: seq<int>, ret: int, env: int) {
    Reaches(w, m, Done(m, n, v)) || Reaches(w, m, Returned(m, base, ret, env, v))
  }

  lemma EndsLet(w: World, m: Machine, a: seq<Instr>, b: seq<Instr>, x: int, y: int, base: seq<int>, ret: int, env: int)
    requires CodeAt(w, m.pc, a + [Push] + b + [PopN(1)])
    requires Reaches(w, m, Done(m, |a|, x)) && Ends(w, Pushed(m, |a|, x), |b|, y, base, ret, env)
    ensures Ends(w, m, |a| + |b| + 2, y, base, ret, env)
  {
    hide Reaches, CodeAt;
    var m2 := Pushed(m, |a|, x);
    if Reaches(w, m2, Done(m2, |b|, y)) {
      LetRuns(w, m, a, b, x, y);
    } else {
      CodeFour(w, m.pc, a, Push, b, PopN(1));
      PushRuns(w, m, |a|, x);
      ReachesThen(w, m, m2, Returned(m2, base, ret, env, y));
    }
  }

  lemma EndsThen(w: World, m: Machine, m1: Machine, n: nat, k: nat, v: int, base: seq<int>, ret: int, env: int)
    requires Reaches(w, m, m1) && Ends(w, m1, k, v, base, ret, env)
    requires m1 == m.(pc := m.pc + n, acc := m1.acc)
    ensures Ends(w, m, n + k, v, base, ret, env)
  {
    hide Reaches;
    if Reaches(w, m1, Done(m1, k, v)) {
      ReachesThen(w, m, m1, Done(m1, k, v));
    } else {
      ReachesThen(w, m, m1, Returned(m1, base, ret, env, v));
    }
  }

  lemma EndsCase(w: World, m: Machine, sel: int, c: seq<Instr>, more: seq<Instr>, v: int, base: seq<int>, ret: int, env: int)
    requires CodeAt(w, m.pc, [BranchIf(Differs(sel), m.pc + |c| + 2)] + c + [BranchIf(Always(), m.pc + |c| + 2 + |more|)] + more)
    requires m.acc == sel && Ends(w, m.(pc := m.pc + 1), |c|, v, base, ret, env)
    ensures Ends(w, m, |c| + 2 + |more|, v, base, ret, env)
  {
    hide Reaches, CodeAt;
    var m1 := m.(pc := m.pc + 1);
    if Reaches(w, m1, Done(m1, |c|, v)) {
      CaseTaken(w, m, sel, c, more, v);
    } else {
      CaseEntered(w, m, sel, c, more);
      ReachesThen(w, m, m1, Returned(m1, base, ret, env, v));
    }
  }

  lemma {:induction false} TailRuns(
    w: World, p: Program, fuel: nat, e: Exp, env: seq<Slot>, vals: seq<int>, base: seq<int>, ret: int, cenv: int, locals: seq<int>, m: Machine)
    requires Loaded(w, p) && Proper(e) && m.stk == base + [ret, cenv] + locals
    requires Fits(w, env, vals, m, |locals|) && CodeAt(w, m.pc, Gen(e, env, |locals|, m.pc))
    requires Eval(w.mem, p, fuel, e, vals, |base| + 2, |m.stk|).Some?
    ensures Ends(w, m, |Gen(e, env, |locals|, m.pc)|, Eval(w.mem, p, fuel, e, vals, |base| + 2, |m.stk|).value, base, ret, cenv)
    decreases fuel, 1, e, 2
  {
    hide Reaches, CodeAt, Fits, SlotFits, Loaded, Apply;
    var b := |base| + 2;
    match e
    case Let(bind, scope) => TailLet(w, p, fuel, bind, scope, env, vals, base, ret, cenv, locals, m);
    case Switch(on, cases) => TailSwitch(w, p, fuel, on, cases, env, vals, base, ret, cenv, locals, m);
    case Jump(f, clos, args) => JumpExpRuns(w, p, fuel, f, clos, args, env, vals, base, ret, cenv, locals, m);
    case Int(_) => ValueRuns(w, p, fuel, e, env, vals, b, m, |locals|);
    case Name(_) => ValueRuns(w, p, fuel, e, env, vals, b, m, |locals|);
    case Op(_, _, _) => ValueRuns(w, p, fuel, e, env, vals, b, m, |locals|);
    case LetInf(_, _) => ValueRuns(w, p, fuel, e, env, vals, b, m, |locals|);
    case LetFin(_, _) => ValueRuns(w, p, fuel, e, env, vals, b, m, |locals|);
    case Call(_, _, _) => ValueRuns(w, p, fuel, e, env, vals, b, m, |locals|);
  }

  lemma {:induction false} TailLet(
    w: World, p: Program, fuel: nat, bind: Exp, scope: Exp,
    env: seq<Slot>, vals: seq<int>, base: seq<int>, ret: int, cenv: int, locals: seq<int>, m: Machine)
    requires var e := Let(bind, scope);
      && Loaded(w, p) && Proper(e) && m.stk == base + [ret, cenv] + locals
      && Fits(w, env, vals, m, |locals|) && CodeAt(w, m.pc, Gen(e, env, |locals|, m.pc))
      && Eval(w.mem, p, fuel, e, vals, |base| + 2, |m.stk|).Some?
    ensures var e := Let(bind, scope);
      Ends(w, m, |Gen(e, env, |locals|, m.pc)|, Eval(w.mem, p, fuel, e, vals, |base| + 2, |m.stk|).value, base, ret, cenv)
    decreases fuel, 1, Let(bind, scope), 0
  {
    hide Reaches, CodeAt, Fits, SlotFits, Loaded, Apply, Ends, Gen, GenArgs, Eval, EvalArgs, Plain, PlainArgs, Proper;
    var sp, b := |locals|, |base| + 2;
    LetUnfold(w.mem, p, fuel, bind, scope, env, vals, b, |m.stk|, sp, m.pc);
    var ca := Gen(bind, env, sp, m.pc);
    var cb := Gen(scope, env + [Stack(sp)], sp + 1, m.pc + |ca| + 1);
    FirstCode(w, m.pc, ca, Push, cb, PopN(1));
    ValueRuns(w, p, fuel, bind, env, vals, b, m, sp);
    var x := Eval(w.mem, p, fuel, bind, vals, b, |m.stk|).value;
    FitsPushed(w, env, vals, m, sp, |ca|, x);
    assert base + [ret, cenv] + locals + [x] == base + [ret, cenv] + (locals + [x]);
    TailRuns(w, p, fuel, scope, env + [Stack(sp)], vals + [x], base, ret, cenv, locals + [x], Pushed(m, |ca|, x));
    EndsLet(w, m, ca, cb, x, Eval(w.mem, p, fuel, scope, vals + [x], b, |m.stk| + 1).value, base, ret, cenv);
  }

  lemma {:induction false} TailSwitch(
    w: World, p: Program, fuel: nat, on: Exp, cases: Cases,
    env: seq<Slot>, vals: seq<int>, base: seq<int>, ret: int, cenv: int, locals: seq<int>, m: Machine)
    requires var e := Switch(on, cases);
      && Loaded(w, p) && Proper(e) && m.stk == base + [ret, cenv] + locals
      && Fits(w, env, vals, m, |locals|) && CodeAt(w, m.pc, Gen(e, env, |locals|, m.pc))
      && Eval(w.mem, p, fuel, e, vals, |base| + 2, |m.stk|).Some?
    ensures var e := Switch(on, cases);
      Ends(w, m, |Gen(e, env, |locals|, m.pc)|, Eval(w.mem, p, fuel, e, vals, |base| + 2, |m.stk|).value, base, ret, cenv)
    decreases fuel, 1, Switch(on, cases), 0
  {
    hide Reaches, CodeAt, Fits, SlotFits, Loaded, Apply, Ends;
    var sp, b := |locals|, |base| + 2;
    var c := Gen(on, env, sp, m.pc);
    CodeParts(w, m.pc, c, GenCases(cases, env, sp, m.pc + |c|));
    ValueRuns(w, p, fuel, on, env, vals, b, m, sp);
    var m1 := Done(m, |c|, Eval(w.mem, p, fuel, on, vals, b, |m.stk|).value);
    FitsSame(w, env, vals, m, m1, sp);
    TailCases(w, p, fuel, cases, env, vals, base, ret, cenv, locals, m1);
    var v := EvalCases(w.mem, p, fuel, cases, m1.acc, vals, b, |m.stk|).value;
    EndsThen(w, m, m1, |c|, |GenCases(cases, env, sp, m1.pc)|, v, base, ret, cenv);
  }

  lemma {:induction false} TailCases(
    w: World, p: Program, fuel: nat, cs: Cases, env: seq<Slot>, vals: seq<int>, base: seq<int>, ret: int, cenv: int, locals: seq<int>, m: Machine)
    requires Loaded(w, p) && ProperCases(cs) && m.stk == base + [ret, cenv] + locals
    requires Fits(w, env, vals, m, |locals|) && CodeAt(w, m.pc, GenCases(cs, env, |locals|, m.pc))
    requires EvalCases(w.mem, p, fuel, cs, m.acc, vals, |base| + 2, |m.stk|).Some?
    ensures Ends(w, m, |GenCases(cs, env, |locals|, m.pc)|, EvalCases(w.mem, p, fuel, cs, m.acc, vals, |base| + 2, |m.stk|).value, base, ret, cenv)
    decreases fuel, 1, cs
  {
    hide Reaches, CodeAt, Fits, SlotFits, Loaded, Apply, Ends;
    var sp := |locals|;
    match cs
    case Default(e) => TailRuns(w, p, fuel, e, env, vals, base, ret, cenv, locals, m);
    case Case(sel, e, rest) =>
      var c := Gen(e, env, sp, m.pc + 1);
      var more := GenCases(rest, env, sp, m.pc + |c| + 2);
      CaseCode(w, m.pc, sel, c, more);
      var v := EvalCases(w.mem, p, fuel, cs, m.acc, vals, |base| + 2, |m.stk|).value;
      if m.acc == sel {
        FitsSame(w, env, vals, m, m.(pc := m.pc + 1), sp);
        TailRuns(w, p, fuel, e, env, vals, base, ret, cenv, locals, m.(pc := m.pc + 1));
        EndsCase(w, m, sel, c, more, v, base, ret, cenv);
      } else {
        var m1 := m.(pc := m.pc + |c| + 2);
        CaseEntered(w, m, sel, c, more);
        FitsSame(w, env, vals, m, m1, sp);
        TailCases(w, p, fuel, rest, env, vals, base, ret, cenv, locals, m1);
        EndsThen(w, m, m1, |c| + 2, |more|, v, base, ret, cenv);
      }
  }

  lemma {:induction false} JumpExpRuns(
    w: World, p: Program, fuel: nat, f: Callee, clos: Exp, args: Exps, env: seq<Slot>, vals: seq<int>,
    base: seq<int>, ret: int, cenv: int, locals: seq<int>, m: Machine)
    requires var e := Jump(f, clos, args);
      && Loaded(w, p) && Proper(e) && m.stk == base + [ret, cenv] + locals
      && Fits(w, env, vals, m, |locals|) && CodeAt(w, m.pc, Gen(e, env, |locals|, m.pc))
      && Eval(w.mem, p, fuel, e, vals, |base| + 2, |m.stk|).Some?
    ensures Reaches(w, m, Returned(m, base, ret, cenv, Eval(w.mem, p, fuel, Jump(f, clos, args), vals, |base| + 2, |m.stk|).value))
    decreases fuel, 1, Jump(f, clos, args), 0
  {
    hide Reaches, CodeAt, Fits, SlotFits, Loaded, Apply, Gen, GenArgs, Eval, EvalArgs, Plain, PlainArgs, Proper;
    JumpUnfold(w.mem, p, fuel, f, clos, args, env, vals, |base| + 2, |m.stk|, |locals|, m.pc);
    var sp, b := |locals|, |base| + 2;
    var c := Gen(clos, env, sp, m.pc);
    var cs := GenArgs(args, env, sp + 1, m.pc + |c| + 1);
    FirstCode(w, m.pc, c, Push, cs, JumpInstr(f, Count(args), sp));
    ValueRuns(w, p, fuel, clos, env, vals, b, m, sp);
    var x := Eval(w.mem, p, fuel, clos, vals, b, |m.stk|).value;
    var m2 := Pushed(m, |c|, x);
    FitsPushed(w, env, vals, m, sp, |c|, x);
    ArgsRun(w, p, fuel, args, env, vals, b, m2, sp + 1);
    var vs := EvalArgs(w.mem, p, fuel, args, vals, b, |m.stk| + 1).value;
    var m4 := Begun(Target(w.mem, f, x), x, vs[|vs| - 1], base, ret, cenv, vs, m.exn, m.regions);
    ApplyRuns(w, p, fuel, Target(w.mem, f, x), x, vs, base, ret, cenv, m4);
    JumpRuns(w, m, f, c, cs, x, vs, Apply(w.mem, p, fuel, Target(w.mem, f, x), x, vs, b).value, base, ret, cenv, locals);
  }

  lemma FitsParams(w: World, f: Fun, clos: int, vs: seq<int>, m: Machine, front: seq<int>)
    requires |vs| == f.arity && m.env == clos && m.stk == front + vs
    ensures Fits(w, Params(f), Bound(w.mem, f, clos, vs), m, f.arity)
  {
    var env, vals := Params(f), Bound(w.mem, f, clos, vs);
    forall j | 0 <= j < |env| ensures SlotFits(w, env[j], vals[j], m, f.arity) {
      if j < f.arity {
        assert env[j] == Stack(j) && vals[j] == vs[j] == m.stk[|front| + j];
      } else {
        assert env[j] == Env(f.free[j - f.arity]) && vals[j] == w.mem(clos + f.free[j - f.arity]);
      }
    }
  }

  lemma LoadedFun(w: World, p: Program, lbl: int)
    requires Loaded(w, p) && lbl in p
    ensures CodeAt(w, lbl, Gen(p[lbl].body, Params(p[lbl]), p[lbl].arity, lbl)) && Proper(p[lbl].body)
    ensures w.code(lbl + |Gen(p[lbl].body, Params(p[lbl]), p[lbl].arity, lbl)|) == Return(p[lbl].arity, 1)
  {
    var code := Gen(p[lbl].body, Params(p[lbl]), p[lbl].arity, lbl);
    assert CodeAt(w, lbl, GenFun(lbl, p[lbl]));
    hide CodeAt, Loaded, Gen;
    CodeParts(w, lbl, code, [Return(p[lbl].arity, 1)]);
    CodeOne(w, lbl + |code|, Return(p[lbl].arity, 1));
  }

  lemma ReturnRuns(w: World, m: Machine, base: seq<int>, ret: int, cenv: int, vs: seq<int>)
    requires w.code(m.pc) == Return(|vs|, 1) && m.stk == base + [ret, cenv] + vs
    ensures Reaches(w, m, Returned(m, base, ret, cenv, m.acc))
  {
    hide Reaches;
    var sp := |m.stk|;
    assert m.stk[sp - |vs| - 2] == ret && m.stk[sp - |vs| - 1] == cenv;
    assert m.stk[..sp - |vs| - 2] == base && m.stk[sp..] == [] && base + [] == base;
    ReachesStep(w, m, Returned(m, base, ret, cenv, m.acc));
  }

  /** A function that is called with arguments for which it has a value returns that value to the address
      and the environment that were saved, with the stack as before the call and the handlers and
      regions unchanged, whether its own calls are tail calls or not. */
  lemma {:induction false} ApplyRuns(
    w: World, p: Program, fuel: nat, lbl: int, clos: int, vs: seq<int>, base: seq<int>, ret: int, cenv: int, m: Machine)
    requires Loaded(w, p) && m.pc == lbl && m.env == clos && m.stk == base + [ret, cenv] + vs
    requires Apply(w.mem, p, fuel, lbl, clos, vs, |base| + 2).Some?
    ensures Reaches(w, m, Returned(m, base, ret, cenv, Apply(w.mem, p, fuel, lbl, clos, vs, |base| + 2).value))
    decreases fuel, 0
  {
    hide Reaches, CodeAt, Fits, SlotFits, Loaded, Eval, Gen;
    var f := p[lbl];
    var vals, n := Bound(w.mem, f, clos, vs), |Gen(f.body, Params(f), f.arity, lbl)|;
    LoadedFun(w, p, lbl);
    FitsParams(w, f, clos, vs, m, base + [ret, cenv]);
    TailRuns(w, p, fuel - 1, f.body, Params(f), vals, base, ret, cenv, vs, m);
    var v := Eval(w.mem, p, fuel - 1, f.body, vals, |base| + 2, |m.stk|).value;
    if Reaches(w, m, Done(m, n, v)) {
      ReturnRuns(w, Done(m, n, v), base, ret, cenv, vs);
      ReachesThen(w, m, Done(m, n, v), Returned(m, base, ret, cenv, v));
    }
  }
}
