/**
 The code that the compiler generates for expressions and functions, and what it does: run on the
 machine it computes the value of the expression and leaves the stack, the handlers and the regions as
 they were. Instructions that the generator merges with the next one are here the two they stand for.
 */
module KamCompile {
  import opened Kam
  import opened KamFrames

  /** Where the value of a name is: at an offset of the frame, in the closure, or the name stands for a
      region that lies at an offset of the frame. */
  datatype Slot = Stack(i: nat) | Env(off: int) | Reg(i: nat)

  /** Names are numbered in the order in which they are bound. */
  datatype Exp =
    | Int(v: int)
    | Name(j: nat)
    | Op(op: (int, int) -> int, a: Exp, b: Exp)
    | Let(bind: Exp, scope: Exp)
    | Switch(on: Exp, cases: Cases)
    | LetInf(words: seq<int>, body: Exp)
    | LetFin(words: seq<int>, body: Exp)
    | Call(f: Callee, clos: Exp, args: Exps)
    | Jump(f: Callee, clos: Exp, args: Exps)

  datatype Cases = Default(e: Exp) | Case(sel: int, e: Exp, rest: Cases)

  datatype Exps = One(e: Exp) | More(e: Exp, rest: Exps)

  /** A function with a known label, or the one whose label is the first word of the closure. */
  datatype Callee = Known(lbl: int) | Unknown

  /** A function has parameters, finds its free variables in its closure, and has a body. */
  datatype Fun = Fun(arity: nat, free: seq<int>, body: Exp)

  type Program = map<int, Fun>

  function Count(es: Exps): nat {
    match es
    case One(_) => 1
    case More(_, rest) => 1 + Count(rest)
  }

  function Differs(sel: int): int -> bool {
    x => x != sel
  }

  function Always(): int -> bool {
    _ => true
  }

  // The code

  function Access(s: Slot, sp: nat): (code: seq<Instr>) {
    match s
    case Stack(i) => [SelectStack(if i <= sp then sp - i else 0)]
    case Env(off) => [SelectEnv(off)]
    case Reg(i) => [StackAddr(if i <= sp then sp - i else 0)]
  }

  /** The code for an expression at address `pc`, when the frame has `sp` words. */
  function Gen(e: Exp, env: seq<Slot>, sp: nat, pc: int): (code: seq<Instr>)
    decreases e
  {
    match e
    case Int(v) => [Immed(v)]
    case Name(j) => if j < |env| then Access(env[j], sp) else []
    case Op(op, a, b) =>
      var ca := Gen(a, env, sp, pc);
      ca + [Push] + Gen(b, env, sp + 1, pc + |ca| + 1) + [Prim(op)]
    case Let(bind, scope) =>
      var c := Gen(bind, env, sp, pc);
      c + [Push] + Gen(scope, env + [Stack(sp)], sp + 1, pc + |c| + 1) + [PopN(1)]
    case Switch(on, cases) =>
      var c := Gen(on, env, sp, pc);
      c + GenCases(cases, env, sp, pc + |c|)
    case LetInf(words, body) =>
      [LetregionInf(words)] + Gen(body, env + [Reg(sp)], sp + SIZE_RO, pc + 1) + [EndregionInf]
    case LetFin(words, body) =>
      [LetregionFin(words)] + Gen(body, env + [Reg(sp)], sp + |words|, pc + 1) + [PopN(|words|)]
    case Call(f, clos, args) =>
      var c := Gen(clos, env, sp + 1, pc + 1);
      var cs := GenArgs(args, env, sp + 2, pc + |c| + 2);
      [PushLbl(pc + |c| + |cs| + 3)] + c + [Push] + cs + [CallInstr(f, Count(args))]
    case Jump(f, clos, args) =>
      var c := Gen(clos, env, sp, pc);
      c + [Push] + GenArgs(args, env, sp + 1, pc + |c| + 1) + [JumpInstr(f, Count(args), sp)]
  }

  function CallInstr(f: Callee, n: nat): Instr {
    match f
    case Known(lbl) => ApplyFunCall(lbl, n)
    case Unknown => ApplyFnCall(n)
  }

  function JumpInstr(f: Callee, n: nat, r: nat): Instr {
    match f
    case Known(lbl) => ApplyFunJmp(lbl, n, r)
    case Unknown => ApplyFnJmp(n, r)
  }

  /** Compare the accumulator with each selector in turn; the code for each case ends with a jump behind
      the last one. */
  function GenCases(cs: Cases, env: seq<Slot>, sp: nat, pc: int): (code: seq<Instr>)
    decreases cs
  {
    match cs
    case Default(e) => Gen(e, env, sp, pc)
    case Case(sel, e, rest) =>
      var c := Gen(e, env, sp, pc + 1);
      var more := GenCases(rest, env, sp, pc + |c| + 2);
      [BranchIf(Differs(sel), pc + |c| + 2)] + c + [BranchIf(Always(), pc + |c| + 2 + |more|)] + more
  }

  /** Every argument but the last is pushed. */
  function GenArgs(es: Exps, env: seq<Slot>, sp: nat, pc: int): (code: seq<Instr>)
    decreases es
  {
    match es
    case One(e) => Gen(e, env, sp, pc)
    case More(e, rest) =>
      var c := Gen(e, env, sp, pc);
      c + [Push] + GenArgs(rest, env, sp + 1, pc + |c| + 1)
  }

  function Params(f: Fun): (env: seq<Slot>)
    ensures |env| == f.arity + |f.free|
  {
    seq(f.arity, i requires 0 <= i < f.arity => Stack(i)) + seq(|f.free|, i requires 0 <= i < |f.free| => Env(f.free[i]))
  }

  function GenFun(lbl: int, f: Fun): seq<Instr> {
    Gen(f.body, Params(f), f.arity, lbl) + [Return(f.arity, 1)]
  }

  ghost predicate CodeAt(w: World, pc: int, code: seq<Instr>) {
    forall i :: 0 <= i < |code| ==> w.code(pc + i) == code[i]
  }

  ghost predicate Loaded(w: World, p: Program) {
    forall lbl :: lbl in p ==> CodeAt(w, lbl, GenFun(lbl, p[lbl])) && Proper(p[lbl].body)
  }

  // Jumps

  /** There is no tail call in the expression. */
  predicate Plain(e: Exp)
    decreases e
  {
    match e
    case Int(_) => true
    case Name(_) => true
    case Op(_, a, b) => Plain(a) && Plain(b)
    case Let(bind, scope) => Plain(bind) && Plain(scope)
    case Switch(on, cases) => Plain(on) && PlainCases(cases)
    case LetInf(_, body) => Plain(body)
    case LetFin(_, body) => Plain(body)
    case Call(_, clos, args) => Plain(clos) && PlainArgs(args)
    case Jump(_, _, _) => false
  }

  predicate PlainCases(cs: Cases)
    decreases cs
  {
    match cs
    case Default(e) => Plain(e)
    case Case(_, e, rest) => Plain(e) && PlainCases(rest)
  }

  predicate PlainArgs(es: Exps)
    decreases es
  {
    match es
    case One(e) => Plain(e)
    case More(e, rest) => Plain(e) && PlainArgs(rest)
  }

  /** Tail calls are where the value of the expression is that of the call, and no region is open. */
  predicate Proper(e: Exp)
    decreases e
  {
    match e
    case Let(bind, scope) => Plain(bind) && Proper(scope)
    case Switch(on, cases) => Plain(on) && ProperCases(cases)
    case Jump(_, clos, args) => Plain(clos) && PlainArgs(args)
    case _ => Plain(e)
  }

  predicate ProperCases(cs: Cases)
    decreases cs
  {
    match cs
    case Default(e) => Proper(e)
    case Case(_, e, rest) => Proper(e) && ProperCases(rest)
  }

  // What expressions mean

  /** The values of the names in a call: the arguments, and the words of the closure. */
  function Bound(mem: int -> int, f: Fun, clos: int, vs: seq<int>): seq<int> {
    vs + seq(|f.free|, i requires 0 <= i < |f.free| => mem(clos + f.free[i]))
  }

  function Target(mem: int -> int, f: Callee, clos: int): int {
    match f
    case Known(lbl) => lbl
    case Unknown => mem(clos)
  }

  /** The value of an expression, if calls nested at most `fuel` deep lead to one. A region is named by the
      place where it lies, so it matters how much is on the stack, `top` words, and where the frame of
      the function begins, `base`. */
  function Eval(mem: int -> int, p: Program, fuel: nat, e: Exp, vals: seq<int>, base: nat, top: nat): (r: Option<int>)
    decreases fuel, 1, e
  {
    match e
    case Int(v) => Some(v)
    case Name(j) => if j < |vals| then Some(vals[j]) else None
    case Op(op, a, b) =>
      var x := Eval(mem, p, fuel, a, vals, base, top);
      var y := Eval(mem, p, fuel, b, vals, base, top + 1);
      if x.None? || y.None? then None else Some(op(x.value, y.value))
    case Let(bind, scope) =>
      var x := Eval(mem, p, fuel, bind, vals, base, top);
      if x.None? then None else Eval(mem, p, fuel, scope, vals + [x.value], base, top + 1)
    case Switch(on, cases) =>
      var x := Eval(mem, p, fuel, on, vals, base, top);
      if x.None? then None else EvalCases(mem, p, fuel, cases, x.value, vals, base, top)
    case LetInf(words, body) =>
      if |words| != SIZE_RO then None else Eval(mem, p, fuel, body, vals + [top], base, top + SIZE_RO)
    case LetFin(words, body) =>
      Eval(mem, p, fuel, body, vals + [top], base, top + |words|)
    case Call(f, clos, args) =>
      var c := Eval(mem, p, fuel, clos, vals, base, top + 1);
      var vs := EvalArgs(mem, p, fuel, args, vals, base, top + 2);
      if c.None? || vs.None? then None else Apply(mem, p, fuel, Target(mem, f, c.value), c.value, vs.value, top + 2)
    case Jump(f, clos, args) =>
      var c := Eval(mem, p, fuel, clos, vals, base, top);
      var vs := EvalArgs(mem, p, fuel, args, vals, base, top + 1);
      if c.None? || vs.None? then None else Apply(mem, p, fuel, Target(mem, f, c.value), c.value, vs.value, base)
  }

  function EvalCases(mem: int -> int, p: Program, fuel: nat, cs: Cases, x: int, vals: seq<int>, base: nat, top: nat): (r: Option<int>)
    decreases fuel, 1, cs
  {
    match cs
    case Default(e) => Eval(mem, p, fuel, e, vals, base, top)
    case Case(sel, e, rest) =>
      if x == sel then Eval(mem, p, fuel, e, vals, base, top) else EvalCases(mem, p, fuel, rest, x, vals, base, top)
  }

  function EvalArgs(mem: int -> int, p: Program, fuel: nat, es: Exps, vals: seq<int>, base: nat, top: nat): (r: Option<seq<int>>)
    ensures r.Some? ==> |r.value| == Count(es)
    decreases fuel, 1, es
  {
    match es
    case One(e) =>
      var x := Eval(mem, p, fuel, e, vals, base, top);
      if x.None? then None else Some([x.value])
    case More(e, rest) =>
      var x := Eval(mem, p, fuel, e, vals, base, top);
      var vs := EvalArgs(mem, p, fuel, rest, vals, base, top + 1);
      if x.None? || vs.None? then None else Some([x.value] + vs.value)
  }

  /** A call of the function at a label, whose frame begins at `base`. */
  function Apply(mem: int -> int, p: Program, fuel: nat, lbl: int, clos: int, vs: seq<int>, base: nat): (r: Option<int>)
    decreases fuel, 0
  {
    if fuel == 0 || lbl !in p || |vs| != p[lbl].arity then None
    else Eval(mem, p, fuel - 1, p[lbl].body, Bound(mem, p[lbl], clos, vs), base, base + |vs|)
  }
}
