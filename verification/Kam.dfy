/**
 The Kit Abstract Machine: registers, a word stack that grows upward, the chain of exception handlers
 threaded through the stack, and the infinite regions whose descriptors lie on the stack. A step that
 would reach below the stack is stuck.
 */
module Kam {
  datatype Option<+T> = None | Some(value: T)

  /** Words of a region descriptor on the stack. */
  const SIZE_RO := 4

  datatype Instr =
    | Immed(v: int)
    | Push
    | PushLbl(lbl: int)
    | EnvPush
    | SelectStack(k: nat)
    | StackAddr(k: nat)
    | SelectEnv(off: int)
    | PopN(n: nat)
    | Prim(op: (int, int) -> int)
    | BranchIf(test: int -> bool, target: int)
    | ApplyFnCall(n: nat)
    | ApplyFunCall(target: int, n: nat)
    | ApplyFnJmp(n: nat, r: nat)
    | ApplyFunJmp(target: int, n: nat, r: nat)
    | Return(args: nat, res: nat)
    | LetregionFin(words: seq<int>)
    | LetregionInf(words: seq<int>)
    | EndregionInf
    | PushExnPtr
    | PopExnPtr
    | Raise

  /** The code, by address, and the words that closures and other heap values consist of. */
  datatype World = World(code: int -> Instr, mem: int -> int)

  /** `exn` is the stack index of the innermost handler and 0 if there is none; `regions` are the
      stack indices of the infinite regions, oldest first. */
  datatype Machine = Machine(pc: int, env: int, acc: int, stk: seq<int>, exn: int, regions: seq<nat>)

  /** A call of `n` arguments: the closure lies below the first `n - 1`, the last is in `acc`. The
      caller's environment replaces the closure. */
  function Call(m: Machine, n: nat): (r: Option<Machine>) {
    var sp := |m.stk|;
    if n == 0 || sp < n then None
    else Some(m.(env := m.stk[sp - n], stk := m.stk[sp - n := m.env] + [m.acc]))
  }

  /** A tail call: the arguments take the place of the `r` words of the caller's frame. */
  function TailCall(m: Machine, n: nat, r: nat): (x: Option<Machine>) {
    var sp := |m.stk|;
    if n == 0 || sp < n + r then None
    else Some(m.(env := m.stk[sp - n], stk := m.stk[..sp - n - r] + m.stk[sp - n + 1..] + [m.acc]))
  }

  /** Drop the frame of `args` words, the saved environment and the return address, and keep the
      `res - 1` results on the stack above them. */
  function Leave(m: Machine, args: nat, res: nat): (r: Option<Machine>) {
    var sp := |m.stk|;
    if res == 0 || sp < res + args + 1 then None
    else Some(m.(pc := m.stk[sp - res - args - 1],
                 env := m.stk[sp - res - args],
                 stk := m.stk[..sp - res - args - 1] + m.stk[sp - res + 1..]))
  }

  /** The regions whose descriptors lie below stack index `a`. */
  function RegionsBelow(regions: seq<nat>, a: int): (r: seq<nat>) {
    if regions != [] && a <= regions[|regions| - 1] then RegionsBelow(regions[..|regions| - 1], a) else regions
  }

  function Throw(w: World, m: Machine): (r: Option<Machine>) {
    if !(1 <= m.exn < |m.stk|) then None
    else
      var clos := m.stk[m.exn - 1];
      Some(m.(pc := w.mem(clos), env := clos, stk := m.stk[..m.exn - 1] + [m.acc],
              exn := m.stk[m.exn], regions := RegionsBelow(m.regions, m.exn)))
  }

  function Step(w: World, m: Machine, i: Instr): (r: Option<Machine>) {
    var sp := |m.stk|;
    var m1 := m.(pc := m.pc + 1);
    match i
    case Immed(v) => Some(m1.(acc := v))
    case Push => Some(m1.(stk := m.stk + [m.acc]))
    case PushLbl(l) => Some(m1.(stk := m.stk + [l]))
    case EnvPush => Some(m1.(stk := m.stk + [m.env]))
    case SelectStack(k) => if 1 <= k <= sp then Some(m1.(acc := m.stk[sp - k])) else None
    case StackAddr(k) => Some(m1.(acc := sp - k))
    case SelectEnv(k) => Some(m1.(acc := w.mem(m.env + k)))
    case PopN(n) => if n <= sp then Some(m1.(stk := m.stk[..sp - n])) else None
    case Prim(op) => if 1 <= sp then Some(m1.(acc := op(m.stk[sp - 1], m.acc), stk := m.stk[..sp - 1])) else None
    case BranchIf(test, target) => Some(if test(m.acc) then m.(pc := target) else m1)
    case ApplyFnCall(n) =>
      var c := Call(m, n);
      if c.None? then None else Some(c.value.(pc := w.mem(c.value.env)))
    case ApplyFunCall(target, n) =>
      var c := Call(m, n);
      if c.None? then None else Some(c.value.(pc := target))
    case ApplyFnJmp(n, r) =>
      var c := TailCall(m, n, r);
      if c.None? then None else Some(c.value.(pc := w.mem(c.value.env)))
    case ApplyFunJmp(target, n, r) =>
      var c := TailCall(m, n, r);
      if c.None? then None else Some(c.value.(pc := target))
    case Return(args, res) => Leave(m, args, res)
    case LetregionFin(words) => Some(m1.(stk := m.stk + words))
    case LetregionInf(words) =>
      if |words| != SIZE_RO then None
      else Some(m1.(acc := sp, stk := m.stk + words, regions := m.regions + [sp]))
    case EndregionInf =>
      if m.regions == [] || sp < SIZE_RO then None
      else Some(m1.(stk := m.stk[..sp - SIZE_RO], regions := m.regions[..|m.regions| - 1]))
    case PushExnPtr => Some(m1.(stk := m.stk + [m.exn], exn := sp))
    case PopExnPtr => if sp == 0 then None else Some(m1.(stk := m.stk[..sp - 1], exn := m.stk[sp - 1]))
    case Raise => Throw(w, m)
  }
}
