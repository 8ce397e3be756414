/**
 Fibers on disjoint stacks: any sequence of creations, switches and computations of the running fiber.
 */
module FiberSystem {
  import opened Fibers

  /** The addresses `lo <= a < hi` of one fiber's stack. */
  datatype Stack = Stack(lo: nat, hi: nat)

  type Stacks = map<nat, Stack>

  ghost predicate StacksOk(stacks: Stacks) {
    && (forall f :: f in stacks ==> 8 <= stacks[f].lo && stacks[f].lo + 2 * FRAME <= stacks[f].hi)
    && (forall f, g :: f in stacks && g in stacks && f != g ==>
          stacks[f].hi <= stacks[g].lo || stacks[g].hi <= stacks[f].lo)
  }

  /** A fiber that is not running: its handle and what it must find again. */
  datatype Parked = Parked(handle: nat, ctx: Context)

  /** The processor with, beside it, which fiber runs and what the others wait with. */
  datatype Sys = Sys(cpu: Cpu, cur: nat, parked: map<nat, Parked>)

  datatype Op =
    | Make(fiber: nat, fn: nat)                 // fcontext_create on the stack of `fiber`
    | Destroy(fiber: nat)                       // fcontext_destroy: the stack of `fiber` is free again
    | Compute(r: Regs, mem: Memory)             // anything the running fiber does between switches
    | Switch(handle: nat, data: nat, ret: nat)  // fcontext_swap(handle, data), returning to `ret`

  /** A parked frame is in memory, inside the fiber's own stack. */
  ghost predicate Holds(mem: Memory, k: Stack, p: Parked) {
    k.lo <= p.handle && p.handle + FRAME <= k.hi && FrameAt(mem, p.handle) == p.ctx
  }

  ghost predicate Inv(stacks: Stacks, s: Sys) {
    && s.cur in stacks && s.cur !in s.parked
    && (forall f :: f in s.parked ==> f in stacks && Holds(s.cpu.mem, stacks[f], s.parked[f]))
    && stacks[s.cur].lo <= s.cpu.r.rsp <= stacks[s.cur].hi
  }

  /** Memory changes of the running fiber stay off the stacks of the suspended ones; a freed stack is anybody's. */
  ghost predicate KeepsOtherStacks(stacks: Stacks, s: Sys, mem: Memory) {
    forall f, a: nat :: f in stacks && f in s.parked && stacks[f].lo <= a < stacks[f].hi ==>
      Load(mem, a) == Load(s.cpu.mem, a)
  }

  ghost predicate IsHandle(s: Sys, handle: nat) {
    exists f :: f in s.parked && s.parked[f].handle == handle
  }

  /** What the program must respect. */
  ghost predicate Enabled(stacks: Stacks, s: Sys, op: Op) {
    s.cur in stacks && match op
    case Make(f, fn) =>
      f in stacks && f != s.cur && f !in s.parked
    case Destroy(f) =>
      f in s.parked
    case Compute(r, mem) =>
      stacks[s.cur].lo <= r.rsp <= stacks[s.cur].hi && KeepsOtherStacks(stacks, s, mem)
    case Switch(handle, data, ret) =>
      && stacks[s.cur].lo + FRAME <= s.cpu.r.rsp
      && ret != TRAMPOLINE
      && IsHandle(s, handle)
  }

  /** The fiber whose parked frame is at `handle`. */
  ghost function Owner(s: Sys, handle: nat): nat
    requires IsHandle(s, handle)
  {
    var f :| f in s.parked && s.parked[f].handle == handle; f
  }

  /** `jump_fcontext(handle, data)`, called. */
  function Called(c: Cpu, handle: nat, data: nat, ret: nat): Cpu
    requires c.r.rsp >= FRAME
  {
    Call(c.(r := c.r.(rdi := handle, rsi := data)), ret)
  }

  /** The switch itself, with the trampoline when the target has not run before. */
  function SwitchCpu(c: Cpu, handle: nat, data: nat, ret: nat): Cpu
    requires c.r.rsp >= FRAME
  {
    var jumped := Jump(Called(c, handle, data, ret));
    if jumped.r.rip == TRAMPOLINE then Trampoline(jumped) else jumped
  }

  ghost function Step(stacks: Stacks, s: Sys, op: Op): Sys {
    match op
    case Make(f, fn) =>
      if f !in stacks || FreshHandle(stacks[f].hi) < 0 then s else
        var h := FreshHandle(stacks[f].hi);
        var mem := Made(s.cpu.mem, s.cpu.r, h, fn);
        Sys(s.cpu.(mem := mem), s.cur, s.parked[f := Parked(h, FrameAt(mem, h))])
    case Destroy(f) =>
      s.(parked := s.parked - {f})
    case Compute(r, mem) =>
      s.(cpu := Cpu(r, mem))
    case Switch(handle, data, ret) =>
      if !IsHandle(s, handle) || s.cpu.r.rsp < FRAME then s else
        var f := Owner(s, handle);
        var mine := Parked(s.cpu.r.rsp - FRAME, ContextOf(s.cpu.r, ret));
        Sys(SwitchCpu(s.cpu, handle, data, ret), f, (s.parked - {f})[s.cur := mine])
  }

  // ----- memory -----

  /** Addresses outside a frame keep their contents. */
  ghost predicate SameOutside(mem: Memory, mem': Memory, h: nat) {
    forall a: nat :: a < h || h + FRAME <= a ==> Load(mem', a) == Load(mem, a)
  }

  lemma SaveStaysInFrame(c: Cpu, ret: nat)
    requires c.r.rsp >= FRAME
    ensures var h := c.r.rsp - FRAME;
            var mem := Saved(Call(c, ret).mem, c.r, h);
            SameOutside(c.mem, mem, h) && FrameAt(mem, h) == ContextOf(c.r, ret)
  {
  }

  lemma MadeStaysInFrame(mem: Memory, r: Regs, h: nat, fn: nat)
    ensures SameOutside(mem, Made(mem, r, h, fn), h)
    ensures var p := FrameAt(Made(mem, r, h, fn), h);
            p.rbx == fn && p.rbp == FINISH && p.resume == TRAMPOLINE && p.mxcsr == r.mxcsr && p.x87 == r.x87
  {
  }

  lemma FrameUnchanged(mem: Memory, mem': Memory, h: nat)
    requires forall a: nat :: h <= a < h + FRAME ==> Load(mem', a) == Load(mem, a)
    ensures FrameAt(mem', h) == FrameAt(mem, h)
  {
    hide Load;
  }

  /** A parked frame survives every change of memory outside its stack. */
  lemma HoldsIfSame(mem: Memory, mem': Memory, k: Stack, p: Parked)
    requires Holds(mem, k, p)
    requires forall a: nat :: k.lo <= a < k.hi ==> Load(mem', a) == Load(mem, a)
    ensures Holds(mem', k, p)
  {
    hide Load, FrameAt;
    FrameUnchanged(mem, mem', p.handle);
  }

  // ----- the switch -----

  /** The registers after `jump_fcontext` to a frame `t`, seen from a caller whose stack pointer was `sp`. */
  predicate Resumed(r: Regs, t: Context, handle: nat, from: nat, data: nat) {
    && r.rip == t.resume && ContextOf(r, t.resume) == t && r.rsp == handle + FRAME
    && r.rax == r.rdi == from && r.rdx == r.rsi == data
  }

  lemma RestoreEffect(c: Cpu)
    requires c.r.rsp >= 0x38
    ensures Jump(c).mem == Saved(c.mem, c.r, c.r.rsp - 0x38)
    ensures Resumed(Jump(c).r, FrameAt(Jump(c).mem, c.r.rdi), c.r.rdi, c.r.rsp - 0x38, c.r.rsi)
  {
    hide Saved, FrameAt;
  }

  /** The arguments do not enter the saved frame. */
  lemma SavedIgnoresArguments(mem: Memory, r: Regs, h: nat, handle: nat, data: nat)
    ensures Saved(mem, r.(rdi := handle, rsi := data, rsp := h + 0x38), h) == Saved(mem, r, h)
    ensures ContextOf(r.(rdi := handle, rsi := data), 0) == ContextOf(r, 0)
  {
  }

  lemma CalledRegs(c: Cpu, handle: nat, data: nat, ret: nat)
    requires c.r.rsp >= FRAME
    ensures Called(c, handle, data, ret).r == c.r.(rdi := handle, rsi := data, rsp := c.r.rsp - FRAME + 0x38)
    ensures Called(c, handle, data, ret).mem == Call(c, ret).mem
  {
  }

  /** What the jump leaves in memory: one more frame, nothing else. */
  lemma JumpMemory(c: Cpu, handle: nat, data: nat, ret: nat)
    requires c.r.rsp >= FRAME
    ensures Called(c, handle, data, ret).r.rsp >= 0x38
    ensures var h, mem := c.r.rsp - FRAME, Jump(Called(c, handle, data, ret)).mem;
            FrameAt(mem, h) == ContextOf(c.r, ret) && SameOutside(c.mem, mem, h)
  {
    hide FrameAt, Load, Saved, Called, Call, Jump, ContextOf, Resumed, SameOutside;
    CalledRegs(c, handle, data, ret);
    RestoreEffect(Called(c, handle, data, ret));
    SavedIgnoresArguments(Call(c, ret).mem, c.r, c.r.rsp - FRAME, handle, data);
    SaveStaysInFrame(c, ret);
  }

  lemma JumpEffect(c: Cpu, handle: nat, data: nat, ret: nat)
    requires c.r.rsp >= FRAME
    requires handle + FRAME <= c.r.rsp - FRAME || c.r.rsp <= handle
    ensures Called(c, handle, data, ret).r.rsp >= 0x38
    ensures var h := c.r.rsp - FRAME;
            var j := Jump(Called(c, handle, data, ret));
            && FrameAt(j.mem, h) == ContextOf(c.r, ret) && SameOutside(c.mem, j.mem, h)
            && Resumed(j.r, FrameAt(c.mem, handle), handle, h, data)
  {
    hide FrameAt, Load, Saved, Called, Call, Jump, ContextOf, Resumed;
    CalledRegs(c, handle, data, ret);
    JumpMemory(c, handle, data, ret);
    var j := Jump(Called(c, handle, data, ret));
    RestoreEffect(Called(c, handle, data, ret));
    FrameUnchanged(c.mem, j.mem, handle);
  }

  /** The registers at the first instruction of a fiber function: the return address on the stack is `finish`. */
  predicate Entered(c: Cpu, t: Context, handle: nat, from: nat, data: nat) {
    && c.r.rip == t.rbx && ContextOf(c.r, t.resume) == t
    && c.r.rsp == handle + 0x38 && Load(c.mem, c.r.rsp) == t.rbp
    && c.r.rdi == from && c.r.rsi == data
  }

  lemma TrampolineEffect(c: Cpu)
    requires c.r.rsp >= 8
    ensures forall a: nat :: a != c.r.rsp - 8 ==> Load(Trampoline(c).mem, a) == Load(c.mem, a)
    ensures Load(Trampoline(c).mem, c.r.rsp - 8) == c.r.rbp
    ensures Trampoline(c).r == c.r.(rsp := c.r.rsp - 8, rip := c.r.rbx)
  {
  }

  lemma SwitchEffect(c: Cpu, handle: nat, data: nat, ret: nat)
    requires c.r.rsp >= FRAME
    requires handle + FRAME <= c.r.rsp - FRAME || c.r.rsp <= handle
    ensures var h, t := c.r.rsp - FRAME, FrameAt(c.mem, handle);
            var s := SwitchCpu(c, handle, data, ret);
            && FrameAt(s.mem, h) == ContextOf(c.r, ret)
            && (forall a: nat :: (a < h || c.r.rsp <= a) && a != handle + 0x38 ==> Load(s.mem, a) == Load(c.mem, a))
            && (if t.resume == TRAMPOLINE then Entered(s, t, handle, h, data) else Resumed(s.r, t, handle, h, data))
  {
    hide Jump, Called, Load, FrameAt, Trampoline;
    var h := c.r.rsp - FRAME;
    JumpEffect(c, handle, data, ret);
    var j := Jump(Called(c, handle, data, ret));
    if j.r.rip == TRAMPOLINE {
      TrampolineEffect(j);
      FrameUnchanged(j.mem, Trampoline(j).mem, h);
    }
  }

  /** The arguments, the call instruction, and jump_fcontext. */
  method CallJump(m: Machine, handle: nat, data: nat, ret: nat)
    requires m.r.rsp >= FRAME
    modifies m
    ensures Cpu(m.r, m.mem) == Jump(Called(old(Cpu(m.r, m.mem)), handle, data, ret))
  {
    hide Jump;
    m.r := m.r.(rdi := handle, rsi := data);
    m.r := m.r.(rsp := m.r.rsp - 8);
    m.mem := m.mem[m.r.rsp := ret];
    m.JumpFcontext();
  }

  lemma RoomToReturn(c: Cpu, handle: nat, data: nat, ret: nat)
    requires c.r.rsp >= FRAME
    ensures Called(c, handle, data, ret).r.rsp >= 0x38 && Jump(Called(c, handle, data, ret)).r.rsp >= FRAME
  {
    hide Saved, FrameAt;
  }

  /**
   fcontext_swap on the machine itself: call, switch, and, for a fiber that has not run before, trampoline. The caller's
   context is left in its frame, and the target is resumed, or entered with the pushed return address above it.
   */
  method FcontextSwap(m: Machine, handle: nat, data: nat, ret: nat)
    requires m.r.rsp >= FRAME
    requires handle + FRAME <= m.r.rsp - FRAME || m.r.rsp <= handle
    modifies m
    ensures Cpu(m.r, m.mem) == SwitchCpu(old(Cpu(m.r, m.mem)), handle, data, ret)
    ensures FrameAt(m.mem, old(m.r.rsp) - FRAME) == ContextOf(old(m.r), ret)
    ensures var t, from := FrameAt(old(m.mem), handle), old(m.r.rsp) - FRAME;
            if t.resume == TRAMPOLINE then Entered(Cpu(m.r, m.mem), t, handle, from, data)
            else Resumed(m.r, t, handle, from, data)
  {
    hide Jump, Called, Trampoline, FrameAt, Load, Entered, Resumed, ContextOf;
    ghost var c := Cpu(m.r, m.mem);
    SwitchEffect(c, handle, data, ret);
    RoomToReturn(c, handle, data, ret);
    CallJump(m, handle, data, ret);
    if m.r.rip == TRAMPOLINE {
      m.RunTrampoline();
    }
  }

  /** The frame of another fiber lies apart from the frame the running fiber is about to save. */
  lemma HandleApart(stacks: Stacks, s: Sys, handle: nat)
    requires StacksOk(stacks) && Inv(stacks, s) && IsHandle(s, handle) && stacks[s.cur].lo + FRAME <= s.cpu.r.rsp
    ensures handle + FRAME <= s.cpu.r.rsp - FRAME || s.cpu.r.rsp <= handle
  {
    hide FrameAt;
    var f := Owner(s, handle);
    assert f != s.cur && Holds(s.cpu.mem, stacks[f], s.parked[f]);
  }

  lemma MakeKeepsInv(stacks: Stacks, s: Sys, f: nat, fn: nat)
    requires StacksOk(stacks) && Inv(stacks, s) && Enabled(stacks, s, Make(f, fn))
    ensures Inv(stacks, Step(stacks, s, Make(f, fn)))
  {
    hide Load, FrameAt, Made;
    var h := FreshHandle(stacks[f].hi);
    var mem := Made(s.cpu.mem, s.cpu.r, h, fn);
    MadeStaysInFrame(s.cpu.mem, s.cpu.r, h, fn);
    forall g | g in s.parked ensures Holds(mem, stacks[g], s.parked[g]) {
      HoldsIfSame(s.cpu.mem, mem, stacks[g], s.parked[g]);
    }
  }

  lemma DestroyKeepsInv(stacks: Stacks, s: Sys, f: nat)
    requires Inv(stacks, s)
    ensures Inv(stacks, Step(stacks, s, Destroy(f)))
  {
    hide Load, FrameAt;
  }

  lemma ComputeKeepsInv(stacks: Stacks, s: Sys, r: Regs, mem: Memory)
    requires StacksOk(stacks) && Inv(stacks, s) && Enabled(stacks, s, Compute(r, mem))
    ensures Inv(stacks, Step(stacks, s, Compute(r, mem)))
  {
    hide Load, FrameAt;
    forall g | g in s.parked ensures Holds(mem, stacks[g], s.parked[g]) {
      HoldsIfSame(s.cpu.mem, mem, stacks[g], s.parked[g]);
    }
  }

  /** A handle has one owner, because stacks do not overlap. */
  lemma OwnerIsUnique(stacks: Stacks, s: Sys, f: nat, handle: nat)
    requires StacksOk(stacks) && Inv(stacks, s)
    requires f in s.parked && s.parked[f].handle == handle
    ensures IsHandle(s, handle) && Owner(s, handle) == f
  {
    hide FrameAt;
  }

  lemma OthersSurviveSwitch(stacks: Stacks, s: Sys, f: nat, g: nat, mem: Memory)
    requires StacksOk(stacks) && Inv(stacks, s) && f in s.parked && g in s.parked && f != g
    requires stacks[s.cur].lo + FRAME <= s.cpu.r.rsp
    requires forall a: nat :: (a < s.cpu.r.rsp - FRAME || s.cpu.r.rsp <= a) && a != s.parked[f].handle + 0x38
               ==> Load(mem, a) == Load(s.cpu.mem, a)
    ensures Holds(mem, stacks[g], s.parked[g])
  {
    hide Load, FrameAt;
    HoldsIfSame(s.cpu.mem, mem, stacks[g], s.parked[g]);
  }

  lemma SwitchKeepsInv(stacks: Stacks, s: Sys, handle: nat, data: nat, ret: nat)
    requires StacksOk(stacks) && Inv(stacks, s) && Enabled(stacks, s, Switch(handle, data, ret))
    ensures Inv(stacks, Step(stacks, s, Switch(handle, data, ret)))
  {
    hide SwitchCpu, Load, FrameAt;
    var f := Owner(s, handle);
    assert Holds(s.cpu.mem, stacks[f], s.parked[f]) && f != s.cur;
    HandleApart(stacks, s, handle);
    SwitchEffect(s.cpu, handle, data, ret);
    var s' := Step(stacks, s, Switch(handle, data, ret));
    forall g | g in s.parked && g != f ensures Holds(s'.cpu.mem, stacks[g], s.parked[g]) {
      OthersSurviveSwitch(stacks, s, f, g, s'.cpu.mem);
    }
    hide StacksOk;
  }

  lemma StepKeepsInv(stacks: Stacks, s: Sys, op: Op)
    requires StacksOk(stacks) && Inv(stacks, s) && Enabled(stacks, s, op)
    ensures Inv(stacks, Step(stacks, s, op))
  {
    hide *;
    match op {
      case Make(f, fn) => MakeKeepsInv(stacks, s, f, fn);
      case Destroy(f) => DestroyKeepsInv(stacks, s, f);
      case Compute(r, mem) => ComputeKeepsInv(stacks, s, r, mem);
      case Switch(handle, data, ret) => SwitchKeepsInv(stacks, s, handle, data, ret);
    }
  }

  // ----- runs -----

  /** Before any fiber is created, the original thread runs on its own stack. */
  ghost predicate Start(stacks: Stacks, s: Sys) {
    && StacksOk(stacks) && s.parked == map[]
    && s.cur in stacks && stacks[s.cur].lo <= s.cpu.r.rsp <= stacks[s.cur].hi
  }

  /** `trace[i]` is the system before operation `i`. */
  ghost predicate IsRun(stacks: Stacks, trace: seq<Sys>, ops: seq<Op>) {
    && |trace| == |ops| + 1
    && Start(stacks, trace[0])
    && (forall i :: 0 <= i < |ops| ==>
          Enabled(stacks, trace[i], ops[i]) && trace[i + 1] == Step(stacks, trace[i], ops[i]))
  }

  lemma {:induction false} RunKeepsInv(stacks: Stacks, trace: seq<Sys>, ops: seq<Op>, i: nat)
    requires IsRun(stacks, trace, ops) && i <= |ops|
    ensures Inv(stacks, trace[i])
    decreases i
  {
    hide Step, Enabled;
    if i == 0 {
    } else {
      RunKeepsInv(stacks, trace, ops, i - 1);
      StepKeepsInv(stacks, trace[i - 1], ops[i - 1]);
    }
  }

  lemma TraceLength(stacks: Stacks, trace: seq<Sys>, ops: seq<Op>)
    requires IsRun(stacks, trace, ops)
    ensures |trace| == |ops| + 1
  {
  }

  lemma RunStep(stacks: Stacks, trace: seq<Sys>, ops: seq<Op>, i: nat)
    requires IsRun(stacks, trace, ops) && i < |ops|
    ensures StacksOk(stacks) && Inv(stacks, trace[i]) && Enabled(stacks, trace[i], ops[i])
    ensures trace[i + 1] == Step(stacks, trace[i], ops[i])
  {
    hide Step, Enabled, Inv;
    RunKeepsInv(stacks, trace, ops, i);
  }

  /** Everything in the stack of a parked fiber above its frame, which holds its local variables. */
  ghost predicate LocalsSame(k: Stack, p: Parked, mem: Memory, mem': Memory) {
    forall a: nat :: p.handle + FRAME <= a < k.hi ==> Load(mem', a) == Load(mem, a)
  }

  lemma SwitchLeavesParked(stacks: Stacks, s: Sys, op: Op, f: nat)
    requires StacksOk(stacks) && Inv(stacks, s) && Enabled(stacks, s, op) && op.Switch?
    requires f in s.parked && Step(stacks, s, op).cur != f
    ensures LocalsSame(stacks[f], s.parked[f], s.cpu.mem, Step(stacks, s, op).cpu.mem)
  {
    hide FrameAt, Load, SwitchCpu;
    var g := Owner(s, op.handle);
    assert Holds(s.cpu.mem, stacks[g], s.parked[g]) && Holds(s.cpu.mem, stacks[f], s.parked[f]);
    HandleApart(stacks, s, op.handle);
    SwitchEffect(s.cpu, op.handle, op.data, op.ret);
  }

  lemma StepLeavesParked(stacks: Stacks, s: Sys, op: Op, f: nat)
    requires StacksOk(stacks) && Inv(stacks, s) && Enabled(stacks, s, op)
    requires f in s.parked && Step(stacks, s, op).cur != f && op != Destroy(f)
    ensures var s' := Step(stacks, s, op);
            f in s'.parked && s'.parked[f] == s.parked[f]
            && LocalsSame(stacks[f], s.parked[f], s.cpu.mem, s'.cpu.mem)
  {
    hide FrameAt, Load, Made, SwitchCpu;
    assert Holds(s.cpu.mem, stacks[f], s.parked[f]);
    match op {
      case Make(g, fn) => MadeStaysInFrame(s.cpu.mem, s.cpu.r, FreshHandle(stacks[g].hi), fn);
      case Destroy(_) =>
      case Compute(_, _) =>
      case Switch(_, _, _) => SwitchLeavesParked(stacks, s, op, f);
    }
  }

  /** Fiber `f` is not destroyed by an operation from `i` on and before `j`. */
  ghost predicate Survives(ops: seq<Op>, f: nat, i: nat, j: nat) {
    forall k :: i <= k < j && k < |ops| ==> ops[k] != Destroy(f)
  }

  lemma SurvivesPart(ops: seq<Op>, f: nat, i: nat, k: nat, j: nat)
    requires Survives(ops, f, i, j) && i <= k
    ensures Survives(ops, f, k, j)
  {
  }

  lemma SurvivesStep(ops: seq<Op>, f: nat, i: nat, j: nat)
    requires Survives(ops, f, i, j) && i < j <= |ops|
    ensures Survives(ops, f, i, j - 1) && ops[j - 1] != Destroy(f)
  {
  }

  lemma ParkedHasStack(stacks: Stacks, s: Sys, f: nat)
    requires Inv(stacks, s) && f in s.parked
    ensures f in stacks
  {
  }

  lemma {:induction false} StaysParked(stacks: Stacks, trace: seq<Sys>, ops: seq<Op>, f: nat, i: nat, j: nat)
    requires IsRun(stacks, trace, ops) && i <= j <= |ops| && f in trace[i].parked
    requires Survives(ops, f, i, j) && forall k :: i < k <= j ==> trace[k].cur != f
    ensures f in stacks && f in trace[j].parked && trace[j].parked[f] == trace[i].parked[f]
    ensures LocalsSame(stacks[f], trace[i].parked[f], trace[i].cpu.mem, trace[j].cpu.mem)
    decreases j
  {
    hide Step, Enabled, Inv, Load, Survives;
    RunKeepsInv(stacks, trace, ops, i);
    assert f in stacks by { ParkedHasStack(stacks, trace[i], f); }
    if i == j {
    } else {
      SurvivesStep(ops, f, i, j);
      StaysParked(stacks, trace, ops, f, i, j - 1);
      RunStep(stacks, trace, ops, j - 1);
      StepLeavesParked(stacks, trace[j - 1], ops[j - 1], f);
    }
  }

  /** What a switch parks, and whom it lets run. */
  lemma SwitchParks(stacks: Stacks, s: Sys, op: Op)
    requires StacksOk(stacks) && Inv(stacks, s) && Enabled(stacks, s, op) && op.Switch?
    ensures var s' := Step(stacks, s, op);
            && s'.cur != s.cur && s'.cur in s.parked && s.parked[s'.cur].handle == op.handle
            && s.cur in s'.parked && s'.parked[s.cur] == Parked(s.cpu.r.rsp - FRAME, ContextOf(s.cpu.r, op.ret))
  {
    hide SwitchCpu, FrameAt;
  }

  /** One switch, for the fiber it resumes and the stack it leaves. */
  lemma ResumeEffect(stacks: Stacks, s: Sys, op: Op)
    requires StacksOk(stacks) && Inv(stacks, s) && Enabled(stacks, s, op) && op.Switch?
    ensures var s' := Step(stacks, s, op);
            var t := s.parked[s'.cur];
            && s'.cur in s.parked
            && (if t.ctx.resume == TRAMPOLINE then Entered(s'.cpu, t.ctx, t.handle, s.cpu.r.rsp - FRAME, op.data)
                else Resumed(s'.cpu.r, t.ctx, t.handle, s.cpu.r.rsp - FRAME, op.data))
            && (forall a: nat :: s.cpu.r.rsp <= a < stacks[s.cur].hi ==> Load(s'.cpu.mem, a) == Load(s.cpu.mem, a))
            && LocalsSame(stacks[s'.cur], t, s.cpu.mem, s'.cpu.mem)
  {
    hide FrameAt, Load, SwitchCpu;
    var g := Owner(s, op.handle);
    assert Holds(s.cpu.mem, stacks[g], s.parked[g]) && g != s.cur;
    HandleApart(stacks, s, op.handle);
    SwitchEffect(s.cpu, op.handle, op.data, op.ret);
  }

  /** `after` continues a fiber that called the switch in state `before` with return address `ret`. */
  ghost predicate Continues(k: Stack, before: Cpu, after: Cpu, ret: nat, from: nat, data: nat) {
    && after.r.r12 == before.r.r12 && after.r.r13 == before.r.r13
    && after.r.r14 == before.r.r14 && after.r.r15 == before.r.r15
    && after.r.rbx == before.r.rbx && after.r.rbp == before.r.rbp
    && after.r.mxcsr == before.r.mxcsr && after.r.x87 == before.r.x87
    && after.r.rip == ret && after.r.rsp == before.r.rsp
    && after.r.rax == from && after.r.rdx == data
    && (forall a: nat :: before.r.rsp <= a < k.hi ==> Load(after.mem, a) == Load(before.mem, a))
  }

  lemma ResumedContinues(stacks: Stacks, s: Sys, op: Op, s1: Sys, t: Sys, op': Op, f: nat)
    requires StacksOk(stacks) && Inv(stacks, s) && Enabled(stacks, s, op) && op.Switch?
    requires s1 == Step(stacks, s, op) && f == s.cur
    requires Inv(stacks, t) && Enabled(stacks, t, op') && op'.Switch? && Step(stacks, t, op').cur == f
    requires f in s1.parked && f in t.parked && t.parked[f] == s1.parked[f]
    requires LocalsSame(stacks[f], s1.parked[f], s1.cpu.mem, t.cpu.mem)
    ensures Continues(stacks[f], s.cpu, Step(stacks, t, op').cpu, op.ret, t.cpu.r.rsp - FRAME, op'.data)
  {
    ResumeEffect(stacks, s, op);
    ResumeEffect(stacks, t, op');
    SwitchParks(stacks, s, op);
    hide StacksOk, Inv, Load, Step;
  }

  /**
   Switching is transparent: a fiber that switched away in operation `i` and runs again after operation `j` finds its
   preserved registers, control words, stack pointer and local variables as they were, continues at its return
   address, and receives the handle of the fiber it was resumed by together with the data passed.
   */
  lemma SwitchIsTransparent(stacks: Stacks, trace: seq<Sys>, ops: seq<Op>, i: nat, j: nat)
    requires IsRun(stacks, trace, ops) && i < j < |ops| && ops[i].Switch? && ops[j].Switch?
    requires forall k :: i < k <= j ==> trace[k].cur != trace[i].cur
    requires Survives(ops, trace[i].cur, i, j) && trace[j + 1].cur == trace[i].cur
    ensures var f, other := trace[i].cur, trace[j].cur;
            && f in stacks && other in trace[j + 1].parked
            && Continues(stacks[f], trace[i].cpu, trace[j + 1].cpu, ops[i].ret,
                         trace[j + 1].parked[other].handle, ops[j].data)
  {
    hide *;
    TraceLength(stacks, trace, ops);
    var f := trace[i].cur;
    RunStep(stacks, trace, ops, i);
    SwitchParks(stacks, trace[i], ops[i]);
    SurvivesPart(ops, f, i, i + 1, j);
    StaysParked(stacks, trace, ops, f, i + 1, j);
    RunStep(stacks, trace, ops, j);
    SwitchParks(stacks, trace[j], ops[j]);
    ResumedContinues(stacks, trace[i], ops[i], trace[i + 1], trace[j], ops[j], f);
  }

  lemma SwitchHasRoom(stacks: Stacks, s: Sys, op: Op)
    requires Enabled(stacks, s, op) && op.Switch?
    ensures s.cpu.r.rsp >= FRAME
  {
  }

  lemma RoundedDown(top: nat)
    ensures FreshHandle(top) % 16 == 0
  {
  }

  lemma MakeEffect(stacks: Stacks, s: Sys, f: nat, fn: nat)
    requires StacksOk(stacks) && Inv(stacks, s) && Enabled(stacks, s, Make(f, fn))
    ensures var s' := Step(stacks, s, Make(f, fn));
            && f in s'.parked && f in stacks
            && var p := s'.parked[f];
               && stacks[f].lo <= p.handle && p.handle + 0x40 == stacks[f].hi - stacks[f].hi % 16
               && p.handle % 16 == 0
               && p.ctx.rbx == fn && p.ctx.rbp == FINISH && p.ctx.resume == TRAMPOLINE
               && p.ctx.mxcsr == s.cpu.r.mxcsr && p.ctx.x87 == s.cpu.r.x87
               && SameOutside(s.cpu.mem, s'.cpu.mem, p.handle)
  {
    hide FrameAt, Load, Made;
    MadeStaysInFrame(s.cpu.mem, s.cpu.r, FreshHandle(stacks[f].hi), fn);
    RoundedDown(stacks[f].hi);
  }

  /** `entry` is the first instruction of the function of a fiber whose frame `p` was made by `maker`. */
  ghost predicate StartsAfresh(k: Stack, p: Parked, maker: Cpu, entry: Cpu, fn: nat, from: nat, data: nat) {
    && entry.r.rip == fn
    && (entry.r.rsp + 8) % 16 == 0 && Load(entry.mem, entry.r.rsp) == FINISH
    && entry.r.mxcsr == maker.r.mxcsr && entry.r.x87 == maker.r.x87
    && entry.r.rdi == from && entry.r.rsi == data
    && k.lo <= p.handle && p.handle + 0x40 == k.hi - k.hi % 16
  }

  lemma StartsFromFrame(k: Stack, p: Parked, maker: Cpu, entry: Cpu, from: nat, data: nat)
    requires Entered(entry, p.ctx, p.handle, from, data)
    requires p.ctx.rbp == FINISH && p.ctx.mxcsr == maker.r.mxcsr && p.ctx.x87 == maker.r.x87
    requires k.lo <= p.handle && p.handle + 0x40 == k.hi - k.hi % 16 && p.handle % 16 == 0
    ensures StartsAfresh(k, p, maker, entry, p.ctx.rbx, from, data)
  {
    hide Load;
  }

  lemma EnteredStartsAfresh(stacks: Stacks, s: Sys, f: nat, fn: nat, s1: Sys, t: Sys, op: Op, t1: Sys)
    requires StacksOk(stacks) && Inv(stacks, s) && Enabled(stacks, s, Make(f, fn)) && s1 == Step(stacks, s, Make(f, fn))
    requires Inv(stacks, t) && Enabled(stacks, t, op) && op.Switch? && t1 == Step(stacks, t, op) && t1.cur == f
    requires f in s1.parked && f in t.parked && t.parked[f] == s1.parked[f]
    ensures f in stacks && StartsAfresh(stacks[f], t.parked[f], s.cpu, t1.cpu, fn, t.cpu.r.rsp - FRAME, op.data)
  {
    hide *;
    MakeEffect(stacks, s, f, fn);
    SwitchHasRoom(stacks, t, op);
    ResumeEffect(stacks, t, op);
    StartsFromFrame(stacks[f], t.parked[f], s.cpu, t1.cpu, t.cpu.r.rsp - FRAME, op.data);
  }

  /**
   First entry: a fiber made in operation `i` and first resumed in operation `j` starts at its function with the
   stack pointer eight below a multiple of sixteen, the address of `finish` as return address, its maker's control
   words, and the resuming fiber's handle and data as arguments; its frame lies inside its stack, and making it
   wrote nowhere else.
   */
  lemma FirstEntry(stacks: Stacks, trace: seq<Sys>, ops: seq<Op>, i: nat, j: nat)
    requires IsRun(stacks, trace, ops) && i < j < |ops| && ops[i].Make? && ops[j].Switch?
    requires forall k :: i < k <= j ==> trace[k].cur != ops[i].fiber
    requires Survives(ops, ops[i].fiber, i, j) && trace[j + 1].cur == ops[i].fiber
    ensures var f, other := ops[i].fiber, trace[j].cur;
            && f in stacks && f in trace[j].parked && other in trace[j + 1].parked
            && StartsAfresh(stacks[f], trace[j].parked[f], trace[i].cpu, trace[j + 1].cpu, ops[i].fn,
                            trace[j + 1].parked[other].handle, ops[j].data)
            && SameOutside(trace[i].cpu.mem, trace[i + 1].cpu.mem, trace[j].parked[f].handle)
  {
    hide *;
    TraceLength(stacks, trace, ops);
    var f := ops[i].fiber;
    RunStep(stacks, trace, ops, i);
    MakeEffect(stacks, trace[i], f, ops[i].fn);
    SurvivesPart(ops, f, i, i + 1, j);
    StaysParked(stacks, trace, ops, f, i + 1, j);
    RunStep(stacks, trace, ops, j);
    SwitchParks(stacks, trace[j], ops[j]);
    EnteredStartsAfresh(stacks, trace[i], f, ops[i].fn, trace[i + 1], trace[j], ops[j], trace[j + 1]);
  }

  lemma HandleDelivered(stacks: Stacks, s: Sys, op: Op)
    requires StacksOk(stacks) && Inv(stacks, s) && Enabled(stacks, s, op) && op.Switch?
    ensures Step(stacks, s, op).cpu.r.rdi == s.cpu.r.rsp - FRAME
  {
    ResumeEffect(stacks, s, op);
    hide Step, Load;
  }

  /**
   A handle depends only on the stack depth of the switch. If fiber `f` switched away in operation `i` and last in
   operation `k`, the handle that was received for it in `i` is its handle now if and only if it switched from the
   same depth both times.
   */
  lemma HandleIsStackDepth(stacks: Stacks, trace: seq<Sys>, ops: seq<Op>, i: nat, k: nat, j: nat)
    requires IsRun(stacks, trace, ops) && i < k < j <= |ops| && ops[i].Switch? && ops[k].Switch?
    requires trace[k].cur == trace[i].cur
    requires Survives(ops, trace[i].cur, k, j) && forall n :: k < n <= j ==> trace[n].cur != trace[i].cur
    ensures trace[i].cur in trace[j].parked
    ensures trace[j].parked[trace[i].cur].handle == trace[i + 1].cpu.r.rdi
       <==> trace[k].cpu.r.rsp == trace[i].cpu.r.rsp
  {
    hide *;
    TraceLength(stacks, trace, ops);
    RunStep(stacks, trace, ops, i);
    HandleDelivered(stacks, trace[i], ops[i]);
    RunStep(stacks, trace, ops, k);
    SwitchParks(stacks, trace[k], ops[k]);
    SurvivesPart(ops, trace[i].cur, k, k + 1, j);
    StaysParked(stacks, trace, ops, trace[i].cur, k + 1, j);
  }

  lemma HandleResumes(stacks: Stacks, s: Sys, op: Op, s1: Sys, t: Sys, op': Op, f: nat)
    requires StacksOk(stacks) && Inv(stacks, s) && Enabled(stacks, s, op) && op.Switch?
    requires s1 == Step(stacks, s, op) && f == s.cur && f in stacks
    requires Inv(stacks, t) && Enabled(stacks, t, op') && op'.Switch?
    requires f in s1.parked && f in t.parked && t.parked[f] == s1.parked[f] && t.parked[f].handle == op'.handle
    requires LocalsSame(stacks[f], s1.parked[f], s1.cpu.mem, t.cpu.mem)
    ensures Step(stacks, t, op').cur == f
    ensures Continues(stacks[f], s.cpu, Step(stacks, t, op').cpu, op.ret, t.cpu.r.rsp - FRAME, op'.data)
  {
    hide FrameAt, Load, SwitchCpu, StacksOk, Inv, Continues, LocalsSame, Enabled, Step;
    SwitchParks(stacks, t, op');
    OwnerIsUnique(stacks, t, f, op'.handle);
    OwnerIsUnique(stacks, t, Step(stacks, t, op').cur, op'.handle);
    ResumedContinues(stacks, s, op, s1, t, op', f);
  }

  /**
   Reusing a handle is sound at constant depth: switching to the handle received in operation `i` resumes the most
   recent switch of that fiber, the one in operation `k`.
   */
  lemma ReusedHandle(stacks: Stacks, trace: seq<Sys>, ops: seq<Op>, i: nat, k: nat, j: nat)
    requires IsRun(stacks, trace, ops) && i < k < j < |ops| && ops[i].Switch? && ops[k].Switch?
    requires trace[k].cur == trace[i].cur && trace[k].cpu.r.rsp == trace[i].cpu.r.rsp
    requires Survives(ops, trace[i].cur, k, j) && forall n :: k < n <= j ==> trace[n].cur != trace[i].cur
    requires ops[j].Switch? && ops[j].handle == trace[i + 1].cpu.r.rdi
    ensures trace[j + 1].cur == trace[i].cur && trace[i].cur in stacks
    ensures Continues(stacks[trace[i].cur], trace[k].cpu, trace[j + 1].cpu, ops[k].ret,
                      trace[j].cpu.r.rsp - FRAME, ops[j].data)
  {
    hide *;
    TraceLength(stacks, trace, ops);
    var f := trace[i].cur;
    HandleIsStackDepth(stacks, trace, ops, i, k, j);
    RunStep(stacks, trace, ops, k);
    SwitchParks(stacks, trace[k], ops[k]);
    SurvivesPart(ops, f, k, k + 1, j);
    StaysParked(stacks, trace, ops, f, k + 1, j);
    RunStep(stacks, trace, ops, j);
    HandleResumes(stacks, trace[k], ops[k], trace[k + 1], trace[j], ops[j], f);
  }
}
