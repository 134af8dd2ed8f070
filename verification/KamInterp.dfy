/**
 The frame, handler and region instructions as the interpreter runs them: on one array of stack
 words, with the argument and result moves done in place. Each is proved to be the step of the same
 name. The stack must have room; the C code does not check for that either.
 */
module KamInterp {
  import opened Kam

  class Interp {
    const w: World
    const stack: array<int>
    var sp: nat
    var pc: int
    var env: int
    var acc: int
    var exnPtr: int
    var regions: seq<nat>

    constructor (w: World, size: nat)
      ensures this.w == w && fresh(stack) && stack.Length == size && sp == 0 && exnPtr == 0 && regions == []
    {
      this.w := w;
      stack := new int[size];
      sp, pc, env, acc, exnPtr, regions := 0, 0, 0, 0, 0, [];
    }

    ghost function View(): (m: Machine)
      requires sp <= stack.Length
      reads this, stack
    {
      Machine(pc, env, acc, stack[..sp], exnPtr, regions)
    }

    method Push(v: int)
      requires sp < stack.Length
      modifies stack, this`sp
      ensures sp == old(sp) + 1 && stack[..sp] == old(stack[..sp]) + [v]
    {
      stack[sp] := v;
      sp := sp + 1;
    }

    /** Exchange the environment and the closure, and push the last argument. */
    method EnterCall(n: nat)
      requires sp < stack.Length && Call(View(), n).Some?
      modifies stack, this`sp, this`env
      ensures sp <= stack.Length && Some(View()) == Call(old(View()), n)
    {
      var temp := env;
      env := stack[sp - n];
      stack[sp - n] := temp;
      assert stack[..sp] == old(stack[..sp])[sp - n := temp];
      Push(acc);
    }

    method ApplyFnCall(n: nat)
      requires sp < stack.Length && Step(w, View(), Instr.ApplyFnCall(n)).Some?
      modifies stack, this
      ensures sp <= stack.Length && Some(View()) == Step(w, old(View()), Instr.ApplyFnCall(n))
    {
      EnterCall(n);
      pc := w.mem(env);
    }

    method ApplyFunCall(target: int, n: nat)
      requires sp < stack.Length && Step(w, View(), Instr.ApplyFunCall(target, n)).Some?
      modifies stack, this
      ensures sp <= stack.Length && Some(View()) == Step(w, old(View()), Instr.ApplyFunCall(target, n))
    {
      EnterCall(n);
      pc := target;
    }

    /** Move the `count` words at `src` down to `dst`. The areas may overlap: a word is always read
        before anything is written over it. */
    method MoveDown(dst: nat, src: nat, count: nat)
      requires dst <= src && src + count <= stack.Length
      modifies stack
      ensures stack[..dst + count] == old(stack[..dst]) + old(stack[src..src + count])
    {
      ghost var was := stack[..];
      var temp := 0;
      while temp < count
        invariant temp <= count
        invariant stack[..dst + temp] == was[..dst] + was[src..src + temp]
        invariant forall j :: src + temp <= j < src + count ==> stack[j] == was[j]
      {
        ghost var done := stack[..dst + temp];
        assert was[src..src + temp + 1] == was[src..src + temp] + [was[src + temp]];
        stack[dst + temp] := stack[src + temp];
        assert stack[..dst + temp + 1] == done + [was[src + temp]];
        temp := temp + 1;
      }
    }

    /** Drop the words from `low` up to `high`; those above move down. */
    method Slide(low: nat, high: nat)
      requires low <= high <= sp <= stack.Length
      modifies stack, this`sp
      ensures sp == low + (old(sp) - high) <= stack.Length
      ensures stack[..sp] == old(stack[..sp])[..low] + old(stack[..sp])[high..]
    {
      Slices(stack, sp, low, high);
      MoveDown(low, high, sp - high);
      sp := low + (sp - high);
    }

    /** Slide the arguments over the caller's frame. */
    method EnterTailCall(n: nat, r: nat)
      requires sp <= stack.Length && TailCall(View(), n, r).Some?
      modifies stack, this`sp, this`env
      ensures sp <= stack.Length && Some(View()) == TailCall(old(View()), n, r)
    {
      env := stack[sp - n];
      Slide(sp - n - r, sp - n + 1);
      Push(acc);
    }

    method ApplyFnJmp(n: nat, r: nat)
      requires sp <= stack.Length && Step(w, View(), Instr.ApplyFnJmp(n, r)).Some?
      modifies stack, this
      ensures sp <= stack.Length && Some(View()) == Step(w, old(View()), Instr.ApplyFnJmp(n, r))
    {
      EnterTailCall(n, r);
      pc := w.mem(env);
    }

    method ApplyFunJmp(target: int, n: nat, r: nat)
      requires sp <= stack.Length && Step(w, View(), Instr.ApplyFunJmp(target, n, r)).Some?
      modifies stack, this
      ensures sp <= stack.Length && Some(View()) == Step(w, old(View()), Instr.ApplyFunJmp(target, n, r))
    {
      EnterTailCall(n, r);
      pc := target;
    }

    method Return(args: nat, res: nat)
      requires sp <= stack.Length && Step(w, View(), Instr.Return(args, res)).Some?
      modifies stack, this
      ensures sp <= stack.Length && Some(View()) == Step(w, old(View()), Instr.Return(args, res))
    {
      var pcTemp := stack[sp - res - args - 1];
      env := stack[sp - res - args];
      Slide(sp - res - args - 1, sp - res + 1);
      pc := pcTemp;
    }

    method PushExnPtr()
      requires sp < stack.Length
      modifies stack, this
      ensures sp <= stack.Length && Some(View()) == Step(w, old(View()), Instr.PushExnPtr)
    {
      Push(exnPtr);
      exnPtr := sp - 1;
      pc := pc + 1;
    }

    method PopExnPtr()
      requires sp <= stack.Length && Step(w, View(), Instr.PopExnPtr).Some?
      modifies this
      ensures sp <= stack.Length && Some(View()) == Step(w, old(View()), Instr.PopExnPtr)
    {
      sp := sp - 1;
      exnPtr := stack[sp];
      pc := pc + 1;
      assert stack[..sp] == old(stack[..sp])[..sp];
    }

    /** The region allocator writes its descriptor `d0` to `d3` where the stack ends. */
    method LetregionInf(d0: int, d1: int, d2: int, d3: int)
      requires sp + SIZE_RO <= stack.Length
      modifies stack, this
      ensures sp <= stack.Length && Some(View()) == Step(w, old(View()), Instr.LetregionInf([d0, d1, d2, d3]))
    {
      stack[sp], stack[sp + 1], stack[sp + 2], stack[sp + 3] := d0, d1, d2, d3;
      acc := sp;
      regions := regions + [sp];
      sp := sp + SIZE_RO;
      pc := pc + 1;
      assert stack[..sp] == old(stack[..sp]) + [d0, d1, d2, d3];
    }

    method EndregionInf()
      requires sp <= stack.Length && Step(w, View(), Instr.EndregionInf).Some?
      modifies this
      ensures sp <= stack.Length && Some(View()) == Step(w, old(View()), Instr.EndregionInf)
    {
      regions := regions[..|regions| - 1];
      sp := sp - SIZE_RO;
      pc := pc + 1;
      assert stack[..sp] == old(stack[..sp])[..sp];
    }

    /** Deallocate the regions at or above the handler, cut the stack back to it, and call it. */
    method Raise()
      requires sp <= stack.Length && Step(w, View(), Instr.Raise).Some?
      modifies stack, this
      ensures sp <= stack.Length && Some(View()) == Step(w, old(View()), Instr.Raise)
    {
      while regions != [] && exnPtr <= regions[|regions| - 1]
        invariant RegionsBelow(regions, exnPtr) == RegionsBelow(old(regions), exnPtr)
        invariant unchanged(stack) && unchanged(this`sp, this`acc, this`exnPtr)
        decreases |regions|
      {
        regions := regions[..|regions| - 1];
      }
      sp := exnPtr - 1;
      exnPtr := stack[exnPtr];
      env := stack[sp];
      assert stack[..sp] == old(stack[..sp])[..sp];
      Push(acc);
      pc := w.mem(env);
    }
  }

  /** What lies below `i` and what lies from `j` on, of the words below `sp`. */
  lemma Slices(a: array<int>, sp: nat, i: nat, j: nat)
    requires i <= sp && j <= sp <= a.Length
    ensures a[..sp][..i] == a[..i] && a[..sp][j..] == a[j..sp]
  {
  }
}
