/**
 The fiber switch of the System V AMD64 port as a register and memory machine. Memory is a map from addresses to the
 datum stored there; every access of the switch code uses one address per datum.
 */
module Fibers {
  // ----- the machine -----

  datatype Regs = Regs(
    rip: nat, rsp: nat, rbx: nat, rbp: nat, r12: nat, r13: nat, r14: nat, r15: nat,
    rax: nat, rcx: nat, rdx: nat, rdi: nat, rsi: nat, r8: nat,
    mxcsr: nat, x87: nat)

  type Memory = map<nat, nat>

  datatype Cpu = Cpu(r: Regs, mem: Memory)

  function Load(mem: Memory, a: nat): nat {
    if a in mem then mem[a] else 0
  }

  /** Code addresses of the labels in the assembly files. */
  const TRAMPOLINE: nat := 1
  const FINISH: nat := 2

  const FRAME: nat := 0x40

  /** What a frame holds: everything a callee must preserve, and where to go on. */
  datatype Context = Context(
    mxcsr: nat, x87: nat, r12: nat, r13: nat, r14: nat, r15: nat, rbx: nat, rbp: nat, resume: nat)

  function FrameAt(mem: Memory, h: nat): Context {
    Context(Load(mem, h), Load(mem, h + 4), Load(mem, h + 8), Load(mem, h + 0x10), Load(mem, h + 0x18),
            Load(mem, h + 0x20), Load(mem, h + 0x28), Load(mem, h + 0x30), Load(mem, h + 0x38))
  }

  function ContextOf(r: Regs, resume: nat): Context {
    Context(r.mxcsr, r.x87, r.r12, r.r13, r.r14, r.r15, r.rbx, r.rbp, resume)
  }

  // ----- jump_fcontext, make_fcontext and the trampoline -----

  /** Saving at `h` all but the return address, which the call instruction has put at `h + 0x38`. */
  function Saved(mem: Memory, r: Regs, h: nat): Memory {
    mem[h := r.mxcsr][h + 4 := r.x87][h + 8 := r.r12][h + 0x10 := r.r13][h + 0x18 := r.r14]
       [h + 0x20 := r.r15][h + 0x28 := r.rbx][h + 0x30 := r.rbp]
  }

  /** `call jump_fcontext`: the return address goes on the stack. */
  function Call(c: Cpu, ret: nat): Cpu
    requires c.r.rsp >= 8
  {
    Cpu(c.r.(rsp := c.r.rsp - 8), c.mem[c.r.rsp - 8 := ret])
  }

  /** The effect of `jump_fcontext(rdi, rsi)`. */
  function Jump(c: Cpu): Cpu
    requires c.r.rsp >= 0x38
  {
    var h := c.r.rsp - 0x38;
    var mem := Saved(c.mem, c.r, h);
    var t := FrameAt(mem, c.r.rdi);
    Cpu(c.r.(mxcsr := t.mxcsr, x87 := t.x87, r12 := t.r12, r13 := t.r13, r14 := t.r14, r15 := t.r15,
             rbx := t.rbx, rbp := t.rbp, rip := t.resume, r8 := t.resume,
             rsp := c.r.rdi + FRAME, rax := h, rdi := h, rdx := c.r.rsi),
        mem)
  }

  /** Where `make_fcontext` puts the frame of a stack ending at `top`. */
  function FreshHandle(top: nat): int {
    top - top % 16 - FRAME
  }

  /** The effect of `make_fcontext(top, size, fn)` on memory. */
  function Made(mem: Memory, r: Regs, h: nat, fn: nat): Memory {
    mem[h + 0x28 := fn][h := r.mxcsr][h + 4 := r.x87][h + 0x38 := TRAMPOLINE][h + 0x30 := FINISH]
  }

  /** `push %rbp; jmp *%rbx`. */
  function Trampoline(c: Cpu): Cpu
    requires c.r.rsp >= 8
  {
    Cpu(c.r.(rsp := c.r.rsp - 8, rip := c.r.rbx), c.mem[c.r.rsp - 8 := c.r.rbp])
  }

  class Machine {
    var r: Regs
    var mem: Memory

    /** jump_fcontext up to `movq %rsp, %rax`: save the running context below the return address. */
    method SaveContext()
      requires r.rsp >= 0x38
      modifies this
      ensures r == old(r).(rsp := old(r).rsp - 0x38, rax := old(r).rsp - 0x38)
      ensures mem == Saved(old(mem), old(r), r.rsp)
    {
      r := r.(rsp := r.rsp - 0x38);
      mem := mem[r.rsp := r.mxcsr];
      mem := mem[r.rsp + 0x4 := r.x87];
      mem := mem[r.rsp + 0x8 := r.r12];
      mem := mem[r.rsp + 0x10 := r.r13];
      mem := mem[r.rsp + 0x18 := r.r14];
      mem := mem[r.rsp + 0x20 := r.r15];
      mem := mem[r.rsp + 0x28 := r.rbx];
      mem := mem[r.rsp + 0x30 := r.rbp];
      r := r.(rax := r.rsp);
    }

    /** The rest of jump_fcontext, from `movq %rdi, %rsp`: restore the target and jump to it. */
    method RestoreContext()
      modifies this`r
      ensures var t := FrameAt(mem, old(r).rdi);
              r == old(r).(mxcsr := t.mxcsr, x87 := t.x87, r12 := t.r12, r13 := t.r13, r14 := t.r14, r15 := t.r15,
                           rbx := t.rbx, rbp := t.rbp, rip := t.resume, r8 := t.resume,
                           rsp := old(r).rdi + FRAME, rdi := old(r).rax, rdx := old(r).rsi)
    {
      r := r.(rsp := r.rdi);
      r := r.(r8 := Load(mem, r.rsp + 0x38));
      r := r.(mxcsr := Load(mem, r.rsp));
      r := r.(x87 := Load(mem, r.rsp + 0x4));
      r := r.(r12 := Load(mem, r.rsp + 0x8));
      r := r.(r13 := Load(mem, r.rsp + 0x10));
      r := r.(r14 := Load(mem, r.rsp + 0x18));
      r := r.(r15 := Load(mem, r.rsp + 0x20));
      r := r.(rbx := Load(mem, r.rsp + 0x28));
      r := r.(rbp := Load(mem, r.rsp + 0x30));
      r := r.(rsp := r.rsp + 0x40);
      r := r.(rdx := r.rsi);
      r := r.(rdi := r.rax);
      r := r.(rip := r.r8);
    }

    method JumpFcontext()
      requires r.rsp >= 0x38
      modifies this
      ensures Cpu(r, mem) == Jump(old(Cpu(r, mem)))
    {
      SaveContext();
      RestoreContext();
    }

    /** make_fcontext(rdi = top of stack, rsi = size, rdx = fn), up to its return. */
    method MakeFcontext()
      requires FreshHandle(r.rdi) >= 0
      modifies this
      ensures r.rax == FreshHandle(old(r.rdi))
      ensures mem == Made(old(mem), old(r), r.rax, old(r.rdx))
      ensures r == old(r).(rax := r.rax, rcx := r.rcx)
    {
      r := r.(rax := r.rdi);
      r := r.(rax := r.rax - r.rax % 16);
      r := r.(rax := r.rax - 0x40);
      mem := mem[r.rax + 0x28 := r.rdx];
      mem := mem[r.rax := r.mxcsr];
      mem := mem[r.rax + 0x4 := r.x87];
      r := r.(rcx := TRAMPOLINE);
      mem := mem[r.rax + 0x38 := r.rcx];
      r := r.(rcx := FINISH);
      mem := mem[r.rax + 0x30 := r.rcx];
    }

    /** The trampoline: at the function in RBX, with the value of RBP on the stack as its return address. */
    method RunTrampoline()
      requires r.rsp >= 8
      modifies this
      ensures Cpu(r, mem) == Trampoline(old(Cpu(r, mem)))
      ensures r.rip == old(r.rbx) && r.rsp == old(r.rsp) - 8 && Load(mem, r.rsp) == old(r.rbp)
      ensures ContextOf(r, 0) == ContextOf(old(r), 0) && r.rdi == old(r.rdi) && r.rsi == old(r.rsi)
      ensures forall a: nat :: a != r.rsp ==> Load(mem, a) == Load(old(mem), a)
    {
      r := r.(rsp := r.rsp - 8);
      mem := mem[r.rsp := r.rbp];
      r := r.(rip := r.rbx);
    }
  }
}
